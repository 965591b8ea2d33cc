/**
 The controller as the class that updates the indexed minion set, its scripts, its node tables and its
 worker queues in place. Each handler is proved against the state machines; the tasks and replies a handler
 consumes, the outcomes of store operations, and the replies of agents are its inputs.
 */
module LumiaControl {
  import opened LumiaTypes
  import opened MinionRegistry
  import opened RepairProtocol
  import opened Overviews
  import opened Requests
  import Q = QueryRounds
  import H = Heartbeat

  const NAMES := ScriptNames("remove_galaxy_agent.sh", "deploy_galaxy_agent.sh")

  /** What a callback is bound to: the kind of RPC it answers. */
  const INIT := "init"
  const RM := "rm"

  function RpcFor(cmd: string, addr: string): Token {
    if cmd == INIT then InitRpc(addr) else if cmd == RM then RmRpc(addr) else ExecRpc(addr)
  }

  function ReplyFor(cmd: string, addr: string, ip: string, ok: bool): Event {
    if cmd == INIT then InitReply(addr, ip, ok)
    else if cmd == RM then RmReply(addr, ip, ok)
    else ExecReply(addr)
  }

  /** The two names that callbacks are bound to; any other name is that of an exec. */
  lemma BoundNames(cmd: string, addr: string, ip: string, ok: bool)
    ensures RpcFor("init", addr) == InitRpc(addr) && ReplyFor("init", addr, ip, ok) == InitReply(addr, ip, ok)
    ensures RpcFor("rm", addr) == RmRpc(addr) && ReplyFor("rm", addr, ip, ok) == RmReply(addr, ip, ok)
    ensures cmd != "init" && cmd != "rm" ==> RpcFor(cmd, addr) == ExecRpc(addr) && ReplyFor(cmd, addr, ip, ok) == ExecReply(addr)
  {
    assert |"init"| == 4 && |"rm"| == 2;
  }

  lemma ReplySteps(s: Ctrl, cmd: string, addr: string, ip: string, ok: bool)
    ensures Step(s, ReplyFor(cmd, addr, ip, ok))
         == if cmd == INIT then InitReplyStep(s, addr, ip, ok)
            else if cmd == RM then RmReplyStep(s, addr, ip, ok)
            else End(s, ExecRpc(addr))
  {
    hide InitReplyStep, RmReplyStep, End;
  }

  // ---------------------------------------------------------------- the class

  /** The history part of the repair machine. */
  datatype History = History(lost: set<string>, deleted: set<string>)

  ghost function HistoryOf(s: Ctrl): History {
    History(s.lost, s.deleted)
  }

  /**
   `Repair`, `Rounds` and `Beats` are the states of the three machines the fields stand for. Every handler is
   proved to take exactly the steps of its machine.
   */
  class LumiaCtrl {
    const names: ScriptNames
    const minions: MinionSet
    var scripts: map<string, string>
    var workers: multiset<Token>
    var nexusMinions: map<string, MinionInfo>
    var nexusScripts: map<string, string>
    ghost var history: History

    var nodes: set<string>
    var queryNodeCount: int
    var queryTimers: nat
    var queries: multiset<string>
    ghost var round: set<string>
    ghost var answered: multiset<string>
    ghost var skipped: nat

    var nodeTimers: map<string, int>
    var deadCheckers: map<int, H.Timer>
    var nextTimer: int
    var offlineTasks: multiset<string>
    var clock: int
    ghost var joining: multiset<string>

    ghost function Repair(): Ctrl
      reads this`scripts, this`workers, this`nexusMinions, this`nexusScripts, this`history, minions`contents
    {
      Ctrl(names, minions.contents, scripts, workers, nexusMinions, nexusScripts, history.lost, history.deleted)
    }

    ghost function Rounds(): Q.Query
      reads this`nodes, this`queryNodeCount, this`queryTimers, this`queries, this`round, this`answered, this`skipped
    {
      Q.Query(nodes, queryNodeCount, queryTimers, queries, round, answered, skipped)
    }

    ghost function Beats(): H.Beat
      reads this`nodes, this`nodeTimers, this`deadCheckers, this`nextTimer, this`offlineTasks, this`joining, this`clock
    {
      H.Beat(nodes, nodeTimers, deadCheckers, nextTimer, offlineTasks, joining, clock)
    }

    constructor (store: map<string, MinionInfo>, scriptStore: map<string, string>)
      ensures minions.Valid() && fresh(minions) && minions.minions == {}
      ensures names == ScriptNames("remove_galaxy_agent.sh", "deploy_galaxy_agent.sh")
      ensures Repair() == Booted(names, store, scriptStore, [], [])
      ensures Rounds() == Q.BOOTED.(timers := 0)
      ensures Beats() == H.BOOTED
    {
      names := NAMES;
      minions := new MinionSet();
      scripts, workers, nexusMinions, nexusScripts := map[], multiset{}, store, scriptStore;
      history := HistoryOf(Booted(NAMES, store, scriptStore, [], []));
      nodes, queryNodeCount, queryTimers, queries := {}, 0, 0, multiset{};
      round, answered, skipped := {}, multiset{}, 0;
      nodeTimers, deadCheckers, nextTimer, offlineTasks, clock := map[], map[], 0, multiset{}, 0;
      joining := multiset{};
    }

    // -------------------------------------------------------------- loading

    method LoadMinionTable(keys: seq<string>)
      requires minions.Valid() && minions.contents == []
      requires forall k | k in keys :: k in nexusMinions
      modifies minions, minions.minions
      ensures minions.Valid() && fresh(minions.minions - old(minions.minions))
      ensures minions.contents == LoadMinions(keys, nexusMinions)
    {
      hide MinionSet.Valid;
      for i := 0 to |keys|
        invariant minions.Valid() && fresh(minions.minions - old(minions.minions))
        invariant minions.contents == LoadMinions(keys[..i], nexusMinions)
      {
        assert keys[..i + 1][..i] == keys[..i];
        var m := nexusMinions[keys[i]];
        var loaded := new Minion(m);
        var _ := minions.Insert(MinionIndex(m.id, m.hostname, m.ip, loaded));
      }
      assert keys[..|keys|] == keys;
    }

    method LoadScriptTable(keys: seq<string>)
      requires scripts == map[] && forall k | k in keys :: k in nexusScripts
      modifies this`scripts
      ensures scripts == LoadScripts(keys, nexusScripts)
    {
      for i := 0 to |keys|
        invariant scripts == LoadScripts(keys[..i], nexusScripts)
      {
        scripts := scripts[keys[i] := nexusScripts[keys[i]]];
      }
      assert keys[..|keys|] == keys;
    }

    /** `AcquireLumiaLock`, once the lock is held: loads what the two scans deliver and arms the query timer. */
    method AcquireLumiaLock(minionKeys: seq<string>, scriptKeys: seq<string>)
      requires minions.Valid() && Repair() == Booted(names, nexusMinions, nexusScripts, [], [])
      requires IsScan(minionKeys, nexusMinions, MinionInRange) && IsScan(scriptKeys, nexusScripts, ScriptInRange)
      modifies this`scripts, this`history, this`queryTimers, minions, minions.minions
      ensures minions.Valid() && fresh(minions.minions - old(minions.minions))
      ensures Repair() == Booted(names, nexusMinions, nexusScripts, minionKeys, scriptKeys)
      ensures Rounds() == old(Rounds()).(timers := old(queryTimers) + 1)
    {
      hide MinionSet.Valid;
      ghost var booted := Booted(names, nexusMinions, nexusScripts, [], []);
      assert minions.contents == booted.entries == [] && scripts == booted.scripts == map[];
      assert workers == multiset{};
      LoadMinionTable(minionKeys);
      LoadScriptTable(scriptKeys);
      history := HistoryOf(Booted(names, nexusMinions, nexusScripts, minionKeys, scriptKeys));
      queryTimers := queryTimers + 1;
    }

    // -------------------------------------------------------------- repair: dead reports, tasks, replies

    method DeadAgent(addr: string)
      requires minions.Valid()
      modifies this`workers, this`history, minions`contents, minions.minions
      ensures minions.Valid() && Repair() == DeadReportStep(old(Repair()), addr)
    {
      hide MinionSet.Valid;
      var r := minions.Find(ByIp, addr);
      history := HistoryOf(DeadReportStep(Repair(), addr));
      if r.None? {
        return;
      }
      var info := minions.Get(r.value);
      if info.state != Alive {
        return;
      }
      minions.Update(r.value, info.(state := Reinstalling));
      workers := workers + multiset{RmTask(info.ip)};
    }

    /** Nothing happens when the master or its list of agents cannot be had. */
    method LaunchQueryGalaxy(agents: Option<seq<Agent>>)
      requires minions.Valid()
      modifies this`workers, this`history, minions`contents, minions.minions
      ensures minions.Valid()
      ensures Repair() == if agents.None? then old(Repair()) else Exec(old(Repair()), DeadReports(agents.value))
    {
      hide MinionSet.Valid;
      if agents.None? {
        return;
      }
      ghost var target := Exec(Repair(), DeadReports(agents.value));
      assert agents.value[0..] == agents.value;
      for i := 0 to |agents.value|
        invariant minions.Valid()
        invariant Exec(Repair(), DeadReports(agents.value[i..])) == target
      {
        assert agents.value[i..][1..] == agents.value[i + 1..];
        if agents.value[i].state == "kDead" {
          ghost var es := DeadReports(agents.value[i..]);
          assert es[0] == DeadReport(agents.value[i].addr) && es[1..] == DeadReports(agents.value[i + 1..]);
          DeadAgent(agents.value[i].addr);
        } else {
          assert DeadReports(agents.value[i..]) == DeadReports(agents.value[i + 1..]);
        }
      }
    }

    /** Puts the minion with the given ip, if there is one, into a state. */
    method Settle(ip: string, st: MinionState)
      requires minions.Valid()
      modifies minions`contents, minions.minions
      ensures minions.Valid()
      ensures var es, r := old(minions.contents), Lookup(old(minions.contents), ByIp, ip);
              minions.contents == if r.Some? then WithState(es, r.value, st) else es
    {
      hide MinionSet.Valid;
      var r := minions.Find(ByIp, ip);
      if r.None? {
        return;
      }
      var info := minions.Get(r.value);
      minions.Update(r.value, info.(state := st));
    }

    method HandleRemoveGalaxy(addr: string)
      requires minions.Valid() && RmTask(addr) in workers
      modifies this`workers, this`history
      ensures Repair() == RunRmStep(old(Repair()), addr)
    {
      hide MinionSet.Valid;
      var r := minions.Find(ByIp, addr);
      history := HistoryOf(RunRmStep(Repair(), addr));
      workers := workers - multiset{RmTask(addr)};
      if r.None? {
        return;
      }
      if names.remove !in scripts {
        return;
      }
      workers := workers + multiset{RmRpc(addr)};
    }

    method HandleInitGalaxy(addr: string)
      requires minions.Valid() && InitTask(addr) in workers
      modifies this`workers, this`history, minions`contents, minions.minions
      ensures minions.Valid() && Repair() == RunInitStep(old(Repair()), addr)
    {
      hide MinionSet.Valid, WithState;
      var r := minions.Find(ByIp, addr);
      history := HistoryOf(RunInitStep(Repair(), addr));
      var left := workers - multiset{InitTask(addr)};
      if r.Some? && names.deploy in scripts {
        left := left + multiset{InitRpc(addr)};
        Settle(addr, Initing);
      }
      workers := left;
    }

    method HandleExecGalaxy(addr: string, cmd: string, script: string)
      requires minions.Valid() && ExecTask(addr, cmd, script) in workers
      modifies this`workers, this`history
      ensures Repair() == RunExecStep(old(Repair()), addr, cmd, script)
    {
      hide MinionSet.Valid;
      var r := minions.Find(ByIp, addr);
      history := HistoryOf(RunExecStep(Repair(), addr, cmd, script));
      workers := workers - multiset{ExecTask(addr, cmd, script)};
      if r.None? {
        return;
      }
      if script !in scripts {
        return;
      }
      workers := workers + multiset{ExecRpc(addr)};
    }

    /** `ExecCallback` for the reply to an init RPC. */
    method InitCallback(failed: bool, status: int, ip: string, addr: string)
      requires minions.Valid() && InitRpc(addr) in workers
      modifies this`workers, this`history, minions`contents, minions.minions
      ensures minions.Valid() && Repair() == InitReplyStep(old(Repair()), addr, ip, !failed && status == 0)
    {
      hide MinionSet.Valid, WithState;
      history := HistoryOf(InitReplyStep(Repair(), addr, ip, !failed && status == 0));
      workers := workers - multiset{InitRpc(addr)};
      if failed || status != 0 {
        Settle(ip, Error);
      } else {
        Settle(ip, Alive);
      }
    }

    method RmSucceeded(ip: string, addr: string)
      requires minions.Valid() && RmRpc(addr) in workers
      modifies this`workers, this`history
      ensures Repair() == RmReplyStep(old(Repair()), addr, ip, true)
    {
      hide MinionSet.Valid;
      var r := minions.Find(ByIp, ip);
      history := HistoryOf(RmReplyStep(Repair(), addr, ip, true));
      workers := workers - multiset{RmRpc(addr)};
      if r.None? {
        return;
      }
      var info := minions.Get(r.value);
      if info.state == Reinstalling {
        workers := workers + multiset{InitTask(addr)};
      }
    }

    /** `ExecCallback` for the reply to an rm RPC. */
    method RmCallback(failed: bool, status: int, ip: string, addr: string)
      requires minions.Valid() && RmRpc(addr) in workers
      modifies this`workers, this`history, minions`contents, minions.minions
      ensures minions.Valid() && Repair() == RmReplyStep(old(Repair()), addr, ip, !failed && status == 0)
    {
      hide MinionSet.Valid, WithState;
      if failed || status != 0 {
        history := HistoryOf(RmReplyStep(Repair(), addr, ip, false));
        workers := workers - multiset{RmRpc(addr)};
        Settle(ip, Error);
      } else {
        RmSucceeded(ip, addr);
      }
    }

    /** `ExecCallback` for the reply to an exec RPC. */
    method ExecReplied(addr: string)
      requires ExecRpc(addr) in workers
      modifies this`workers
      ensures Repair() == End(old(Repair()), ExecRpc(addr))
    {
      workers := workers - multiset{ExecRpc(addr)};
    }

    method ExecCallback(failed: bool, status: int, ip: string, addr: string, cmd: string)
      requires minions.Valid() && RpcFor(cmd, addr) in workers
      modifies this`workers, this`history, minions`contents, minions.minions
      ensures minions.Valid()
      ensures Repair() == Step(old(Repair()), ReplyFor(cmd, addr, ip, !failed && status == 0))
    {
      hide MinionSet.Valid, InitReplyStep, RmReplyStep, End, Step, ReplyFor;
      ReplySteps(Repair(), cmd, addr, ip, !failed && status == 0);
      if cmd == INIT {
        InitCallback(failed, status, ip, addr);
      } else if cmd == RM {
        RmCallback(failed, status, ip, addr);
      } else {
        ExecReplied(addr);
      }
    }

    // -------------------------------------------------------------- requests: import, export, exec

    method ImportNew(m: MinionInfo)
      requires minions.Valid() && Lookup(minions.contents, ById, m.id).None?
      modifies this`workers, this`history, this`nexusMinions, minions, minions.minions
      ensures minions.Valid() && fresh(minions.minions - old(minions.minions))
      ensures Repair() == ImportMinionStep(old(Repair()), m, true)
    {
      hide MinionSet.Valid;
      history := HistoryOf(ImportMinionStep(Repair(), m, true));
      nexusMinions := nexusMinions[m.id := m];
      var added := new Minion(m.(state := Alive));
      var _ := minions.Insert(MinionIndex(m.id, m.hostname, m.ip, added));
      workers := workers + multiset{InitTask(m.ip)};
    }

    method ImportKnown(m: MinionInfo, i: nat)
      requires minions.Valid() && Lookup(minions.contents, ById, m.id) == Some(i) && i < |minions.contents|
      modifies this`workers, this`history, this`nexusMinions, minions`contents, minions.minions
      ensures minions.Valid()
      ensures Repair() == ImportMinionStep(old(Repair()), m, true)
    {
      hide MinionSet.Valid;
      history := HistoryOf(ImportMinionStep(Repair(), m, true));
      nexusMinions := nexusMinions[m.id := m];
      var info := minions.Get(i);
      if info.state == Del || info.state == Error || info.state == Busy {
        minions.Update(i, m.(state := Alive));
        workers := workers + multiset{InitTask(m.ip)};
      } else {
        minions.Update(i, m.(state := info.state));
      }
    }

    method ImportOne(m: MinionInfo, stored: bool)
      requires minions.Valid()
      modifies this`workers, this`history, this`nexusMinions, minions, minions.minions
      ensures minions.Valid() && fresh(minions.minions - old(minions.minions))
      ensures Repair() == ImportMinionStep(old(Repair()), m, stored)
    {
      hide MinionSet.Valid, ImportMinionStep;
      if !stored {
        ImportNotStored(Repair(), m);
        return;
      }
      var r := minions.Find(ById, m.id);
      if r.None? {
        ImportNew(m);
      } else {
        ImportKnown(m, r.value);
      }
    }

    method ImportScripts(req: seq<ScriptImport>)
      modifies this`scripts, this`nexusScripts
      ensures Repair() == Exec(old(Repair()), ScriptEvents(req))
    {
      ghost var events := ScriptEvents(req);
      ghost var target := Exec(Repair(), events);
      assert events[0..] == events;
      for i := 0 to |req|
        invariant Exec(Repair(), events[i..]) == target
      {
        ExecFrom(Repair(), events, i);
        if !req[i].stored {
          continue;
        }
        nexusScripts := nexusScripts[req[i].name := req[i].content];
        scripts := scripts[req[i].name := req[i].content];
      }
    }

    method ImportMinions(req: seq<MinionImport>)
      requires minions.Valid()
      modifies this`workers, this`history, this`nexusMinions, minions, minions.minions
      ensures minions.Valid() && fresh(minions.minions - old(minions.minions))
      ensures Repair() == Exec(old(Repair()), MinionEvents(req))
    {
      hide MinionSet.Valid, ImportMinionStep;
      ghost var events := MinionEvents(req);
      ghost var target := Exec(Repair(), events);
      assert events[0..] == events;
      for i := 0 to |req|
        invariant minions.Valid() && fresh(minions.minions - old(minions.minions))
        invariant Exec(Repair(), events[i..]) == target
      {
        ExecFrom(Repair(), events, i);
        ImportOne(req[i].minion, req[i].stored);
      }
    }

    /** Scripts first, then minions, each in the order of the request. */
    method ImportData(scriptsIn: seq<ScriptImport>, minionsIn: seq<MinionImport>) returns (reply: Option<LumiaStatus>)
      requires minions.Valid()
      modifies this`scripts, this`nexusScripts, this`workers, this`history, this`nexusMinions, minions, minions.minions
      ensures minions.Valid() && fresh(minions.minions - old(minions.minions))
      ensures Repair() == Exec(Exec(old(Repair()), ScriptEvents(scriptsIn)), MinionEvents(minionsIn))
      ensures reply == Some(LumiaOk)
    {
      hide MinionSet.Valid;
      ImportScripts(scriptsIn);
      ImportMinions(minionsIn);
      reply := Some(LumiaOk);
    }

    method ExportOne(hostname: string, removed: bool)
      requires minions.Valid() && Known(minions.contents, hostname) && names.remove in scripts
      modifies this`workers, this`history, this`nexusMinions, minions`contents, minions.minions
      ensures minions.Valid() && Repair() == ExportStep(old(Repair()), hostname, removed)
    {
      hide MinionSet.Valid;
      var r := minions.Find(ByHostname, hostname);
      history := HistoryOf(ExportStep(Repair(), hostname, removed));
      var info := minions.Get(r.value);
      minions.Update(r.value, info.(state := Del));
      if !removed {
        return;
      }
      nexusMinions := nexusMinions - {info.id};
      workers := workers + multiset{RmTask(info.ip)};
    }

    /** Without the removal script nothing is exported and the caller is told; otherwise it gets no answer. */
    method ExportData(req: seq<HostExport>) returns (reply: Option<LumiaStatus>)
      requires minions.Valid() && forall i | 0 <= i < |req| :: Known(minions.contents, req[i].hostname)
      modifies this`workers, this`history, this`nexusMinions, minions`contents, minions.minions
      ensures minions.Valid()
      ensures Repair() == Exec(old(Repair()), ExportEvents(req))
      ensures reply == if names.remove in scripts then None else Some(ScriptNotFound)
    {
      hide MinionSet.Valid, ExportStep;
      ghost var events := ExportEvents(req);
      if names.remove !in scripts {
        WithoutScript(Repair(), events);
        return Some(ScriptNotFound);
      }
      ghost var target := Exec(Repair(), events);
      assert events[0..] == events;
      for i := 0 to |req|
        invariant minions.Valid() && forall j | 0 <= j < |req| :: Known(minions.contents, req[j].hostname)
        invariant Exec(Repair(), events[i..]) == target
      {
        ExecFrom(Repair(), events, i);
        forall j | 0 <= j < |req|
          ensures Known(ExportStep(Repair(), req[i].hostname, req[i].removed).entries, req[j].hostname)
        {
          ExportKeepsKnown(Repair(), req[i].hostname, req[i].removed, req[j].hostname);
        }
        ExportOne(req[i].hostname, req[i].removed);
      }
      reply := None;
    }

    method ExecOne(hostname: string, cmd: string, script: string)
      requires minions.Valid() && Known(minions.contents, hostname) && script in scripts
      modifies this`workers, this`history
      ensures Repair() == AddExecStep(old(Repair()), hostname, cmd, script)
    {
      hide MinionSet.Valid;
      var r := minions.Find(ByHostname, hostname);
      history := HistoryOf(AddExecStep(Repair(), hostname, cmd, script));
      var info := minions.Get(r.value);
      workers := workers + multiset{ExecTask(info.ip, cmd, script)};
    }

    /** The script is looked up for every host; when it is not there the request stops and the caller is told. */
    method ExecMinion(hostnames: seq<string>, cmd: string) returns (reply: Option<LumiaStatus>)
      requires minions.Valid() && AllKnown(minions.contents, hostnames)
      modifies this`workers, this`history
      ensures Repair() == Exec(old(Repair()), ExecEvents(hostnames, cmd))
      ensures reply == if hostnames == [] || ScriptOf(cmd) in scripts then None else Some(ScriptNotFound)
    {
      hide MinionSet.Valid, AddExecStep;
      ghost var events := ExecEvents(hostnames, cmd);
      ghost var target := Exec(Repair(), events);
      assert events[0..] == events;
      for i := 0 to |hostnames|
        invariant Exec(Repair(), events[i..]) == target
        invariant i > 0 ==> ScriptOf(cmd) in scripts
      {
        var script := ScriptOf(cmd);
        if script !in scripts {
          WithoutScript(Repair(), events[i..]);
          return Some(ScriptNotFound);
        }
        ExecFrom(Repair(), events, i);
        ExecOne(hostnames[i], cmd, script);
      }
      reply := None;
    }

    // -------------------------------------------------------------- health queries

    method QueryNode(addr: string)
      modifies this`queries, this`queryNodeCount
      ensures queries == old(queries) + multiset{addr} && queryNodeCount == old(queryNodeCount) + 1
    {
      queries := queries + multiset{addr};
      queryNodeCount := queryNodeCount + 1;
    }

    method QueryNodes()
      requires queryNodeCount == 0
      modifies this`queries, this`queryNodeCount
      ensures queries == old(queries) + multiset(nodes) && queryNodeCount == |nodes|
    {
      var todo := nodes;
      while todo != {}
        invariant todo <= nodes
        invariant queryNodeCount == |nodes| - |todo|
        invariant queries == old(queries) + multiset(nodes - todo)
        decreases |todo|
      {
        var node :| node in todo;
        QueryNode(node);
        todo := todo - {node};
        assert nodes - todo == (nodes - (todo + {node})) + {node};
      }
      assert nodes - {} == nodes;
    }

    method LaunchQuery()
      requires queryTimers > 0
      modifies this`queryTimers, this`queries, this`queryNodeCount, this`round, this`answered, this`skipped
      ensures Rounds() == Q.LaunchStep(old(Rounds()))
    {
      queryTimers := queryTimers - 1;
      if queryNodeCount != 0 {
        skipped := skipped + 1;
        return;
      }
      round, answered := nodes, multiset{};
      QueryNodes();
      if queryNodeCount == 0 {
        queryTimers := queryTimers + 1;
      }
    }

    method UpdateStatus(ip: string, status: MinionStatus)
      requires minions.Valid()
      modifies minions`contents, minions.minions
      ensures minions.Valid() && Repair() == HealthStep(old(Repair()), ip, status)
    {
      hide MinionSet.Valid;
      var r := minions.Find(ByIp, ip);
      if r.None? {
        return;
      }
      var info := minions.Get(r.value);
      info := info.(status := status);
      if !status.allIsWell {
        info := info.(state := Busy);
      }
      minions.Update(r.value, info);
    }

    method CountReply(addr: string)
      requires addr in queries
      modifies this`queryTimers, this`queries, this`queryNodeCount, this`answered
      ensures Rounds() == Q.ReplyStep(old(Rounds()), addr)
    {
      queries, answered := queries - multiset{addr}, answered + multiset{addr};
      queryNodeCount := queryNodeCount - 1;
      if queryNodeCount == 0 {
        queryTimers := queryTimers + 1;
      }
    }

    /** Every reply counts towards the end of the round; only a good one reaches the minion it names. */
    method QueryCallBack(failed: bool, status: int, ip: string, minionStatus: MinionStatus, addr: string)
      requires minions.Valid() && addr in queries
      modifies this`queryTimers, this`queries, this`queryNodeCount, this`answered, minions`contents, minions.minions
      ensures minions.Valid() && Rounds() == Q.ReplyStep(old(Rounds()), addr)
      ensures Repair() == if !failed && status == 0 then HealthStep(old(Repair()), ip, minionStatus) else old(Repair())
    {
      hide MinionSet.Valid, HealthStep;
      CountReply(addr);
      if failed || status != 0 {
        return;
      }
      UpdateStatus(ip, minionStatus);
    }

    // -------------------------------------------------------------- heartbeats

    /** The section of `Ping` under the main lock. */
    method PingJoin(addr: string)
      modifies this`nodes, this`joining
      ensures Beats() == H.JoinStep(old(Beats()), addr)
      ensures Rounds() == Q.Step(old(Rounds()), Q.NodeJoins(addr))
    {
      nodes := nodes + {addr};
      joining := joining + multiset{addr};
    }

    /** Cancelling the recorded timer of the address; nothing happens to one that has fired. */
    method CancelChecker(addr: string)
      modifies this`deadCheckers
      ensures deadCheckers == if addr in nodeTimers then old(deadCheckers) - {nodeTimers[addr]} else old(deadCheckers)
    {
      if addr in nodeTimers {
        deadCheckers := deadCheckers - {nodeTimers[addr]};
      }
    }

    method DelayChecker(addr: string) returns (id: int)
      modifies this`deadCheckers, this`nextTimer
      ensures id == old(nextTimer) && nextTimer == id + 1
      ensures deadCheckers == old(deadCheckers)[id := H.Timer(addr, clock + H.DEAD_AFTER)]
    {
      id := nextTimer;
      deadCheckers := deadCheckers[id := H.Timer(addr, clock + H.DEAD_AFTER)];
      nextTimer := nextTimer + 1;
    }

    /** The section of `Ping` under the timer lock. */
    method PingArm(addr: string)
      requires addr in joining
      modifies this`nodeTimers, this`deadCheckers, this`nextTimer, this`joining
      ensures Beats() == H.ArmStep(old(Beats()), addr)
    {
      hide H.ArmStep;
      ghost var b := Beats();
      CancelChecker(addr);
      H.ArmStepIs(b, addr, deadCheckers);
      var id := DelayChecker(addr);
      nodeTimers := nodeTimers[addr := id];
      joining := joining - multiset{addr};
    }

    method HandleNodeOffline(addr: string)
      requires addr in offlineTasks
      modifies this`nodes, this`offlineTasks
      ensures Beats() == H.OfflineStep(old(Beats()), addr)
      ensures Rounds() == Q.Step(old(Rounds()), Q.NodeLeaves(addr))
    {
      offlineTasks := offlineTasks - multiset{addr};
      nodes := nodes - {addr};
    }

    // -------------------------------------------------------------- reading

    method FindAll(k: Key, keys: seq<string>) returns (found: seq<MinionInfo>)
      requires minions.Valid()
      ensures found == FoundBy(minions.contents, k, keys)
    {
      hide MinionSet.Valid;
      found := [];
      for i := 0 to |keys|
        invariant found == FoundBy(minions.contents, k, keys[..i])
      {
        assert keys[..i + 1][..i] == keys[..i];
        var r := minions.Find(k, keys[i]);
        if r.Some? {
          var info := minions.Get(r.value);
          found := found + [info];
        }
      }
      assert keys[..|keys|] == keys;
    }

    method GetMinion(ips: seq<string>, hostnames: seq<string>, ids: seq<string>) returns (found: seq<MinionInfo>)
      requires minions.Valid()
      ensures found == FoundBy(minions.contents, ByIp, ips) + FoundBy(minions.contents, ByHostname, hostnames)
                       + FoundBy(minions.contents, ById, ids)
    {
      hide MinionSet.Valid;
      found := FindAll(ByIp, ips);
      var byHostname := FindAll(ByHostname, hostnames);
      var byId := FindAll(ById, ids);
      found := found + byHostname + byId;
    }

    method GetOverview() returns (views: seq<Overview>)
      requires minions.Valid()
      ensures ShowsAll(views, Listed(minions.contents))
    {
      hide MinionSet.Valid, Shows;
      views := [];
      var n := minions.Size();
      for i := 0 to n
        invariant ShowsAll(views, Listed(minions.contents[..i]))
      {
        assert minions.contents[..i + 1][..i] == minions.contents[..i];
        var info := minions.Get(i);
        if info.status.devices == [] {
          continue;
        }
        var view := View(info);
        views := views + [view];
      }
      assert minions.contents[..n] == minions.contents;
    }
  }

  lemma ImportNotStored(s: Ctrl, m: MinionInfo)
    ensures ImportMinionStep(s, m, false) == s
  {
  }
}
