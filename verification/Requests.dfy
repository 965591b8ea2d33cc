/**
 The requests that work on a list: an import, an export, an exec request, a list of agents, a lookup. Each is a
 list of small events to the protocol; what the whole request does is said in terms of the request itself.
 */
module Requests {
  import opened LumiaTypes
  import opened MinionRegistry
  import opened RepairProtocol
  import opened RepairDiagram
  import opened RepairLedger
  import opened Text

  /** The entries of an import, with the outcome of serializing and storing each. */
  datatype ScriptImport = ScriptImport(name: string, content: string, stored: bool)
  datatype MinionImport = MinionImport(minion: MinionInfo, stored: bool)

  /** A host to export, with the outcome of deleting its record. */
  datatype HostExport = HostExport(hostname: string, removed: bool)

  datatype Agent = Agent(addr: string, state: string)

  datatype LumiaStatus = LumiaOk | ScriptNotFound

  // ---------------------------------------------------------------- requests as lists of events

  function ScriptEvents(req: seq<ScriptImport>): seq<Event> {
    seq(|req|, i requires 0 <= i < |req| => ImportScript(req[i].name, req[i].content, req[i].stored))
  }

  function MinionEvents(req: seq<MinionImport>): seq<Event> {
    seq(|req|, i requires 0 <= i < |req| => ImportMinion(req[i].minion, req[i].stored))
  }

  function ExportEvents(req: seq<HostExport>): seq<Event> {
    seq(|req|, i requires 0 <= i < |req| => ExportHost(req[i].hostname, req[i].removed))
  }

  function ExecEvents(hostnames: seq<string>, cmd: string): seq<Event> {
    seq(|hostnames|, i requires 0 <= i < |hostnames| => AddExec(hostnames[i], cmd, ScriptOf(cmd)))
  }

  /** The script of a command line is its first word. */
  function ScriptOf(cmd: string): string {
    Split(cmd, ' ')[0]
  }

  /** The agents galaxy lists as dead. */
  function DeadReports(agents: seq<Agent>): seq<Event> {
    if agents == [] then []
    else (if agents[0].state == "kDead" then [DeadReport(agents[0].addr)] else []) + DeadReports(agents[1..])
  }

  lemma ExecFrom(s: Ctrl, es: seq<Event>, i: nat)
    requires i < |es|
    ensures Exec(s, es[i..]) == Exec(Step(s, es[i]), es[i + 1..])
  {
    assert es[i..][1..] == es[i + 1..];
  }

  /** The last event of a list is the last step. */
  lemma ExecLast(s: Ctrl, es: seq<Event>)
    requires es != []
    ensures Exec(s, es) == Step(Exec(s, es[..|es| - 1]), es[|es| - 1])
  {
    var n := |es| - 1;
    assert es == es[..n] + [es[n]];
    ExecAppend(s, es[..n], [es[n]]);
    assert [es[n]][1..] == [] && Exec(Step(Exec(s, es[..n]), es[n]), []) == Step(Exec(s, es[..n]), es[n]);
  }

  // ---------------------------------------------------------------- dead agents

  /** Galaxy lists the address as dead. */
  ghost predicate ReportedDead(agents: seq<Agent>, addr: string) {
    exists k :: 0 <= k < |agents| && agents[k].addr == addr && agents[k].state == "kDead"
  }

  /** The entries that are to be repaired, whose record has the given ip. */
  ghost function ToRepair(es: seq<Entry>, agents: seq<Agent>, a: string): set<int> {
    set i | 0 <= i < |es| && es[i].info.state == Alive && ReportedDead(agents, es[i].ip) && es[i].info.ip == a
  }

  ghost predicate EntriesRepaired(es: seq<Entry>, es': seq<Entry>, agents: seq<Agent>) {
    && |es'| == |es|
    && forall i | 0 <= i < |es| ::
         es'[i] == if es[i].info.state == Alive && ReportedDead(agents, es[i].ip)
                   then es[i].(info := es[i].info.(state := Reinstalling)) else es[i]
  }

  ghost predicate RepairsQueued(es: seq<Entry>, work: multiset<Token>, work': multiset<Token>, agents: seq<Agent>) {
    forall t: Token :: work'[t] == work[t] + if t.RmTask? then |ToRepair(es, agents, t.addr)| else 0
  }

  lemma ReportedFirst(agents: seq<Agent>, addr: string)
    requires agents != []
    ensures ReportedDead(agents, addr)
       <==> (agents[0].addr == addr && agents[0].state == "kDead") || ReportedDead(agents[1..], addr)
  {
    if k :| 0 <= k < |agents| && agents[k].addr == addr && agents[k].state == "kDead" {
      assert k > 0 ==> agents[1..][k - 1] == agents[k];
    }
  }

  lemma ReportMoves(s: Ctrl, addr: string)
    requires UniqueKeys(s.entries)
    ensures var s' := DeadReportStep(s, addr);
            && |s'.entries| == |s.entries|
            && forall i | 0 <= i < |s.entries| ::
                 s'.entries[i] == if s.entries[i].info.state == Alive && s.entries[i].ip == addr
                                  then s.entries[i].(info := s.entries[i].info.(state := Reinstalling)) else s.entries[i]
  {
    DeadReportStates(s, addr);
  }

  lemma ReportQueues(s: Ctrl, addr: string)
    requires UniqueKeys(s.entries)
    ensures var s' := DeadReportStep(s, addr);
            forall t: Token ::
              s'.work[t] == s.work[t] + if t.RmTask? && exists i :: Named(s.entries, i, addr, t.addr) then 1 else 0
  {
    hide DeadReportStep, Lookup;
    DeadReportWork(s, addr);
    forall t: Token ensures Queues(s, DeadReport(addr), t) <==> t.RmTask? && exists i :: Named(s.entries, i, addr, t.addr) {
      QueuesNamed(s, addr, t);
    }
  }

  lemma QueuesNamed(s: Ctrl, addr: string, t: Token)
    requires UniqueKeys(s.entries)
    ensures Queues(s, DeadReport(addr), t) <==> t.RmTask? && exists i :: Named(s.entries, i, addr, t.addr)
  {
    LookupIff(s.entries, ByIp, addr);
    if Queues(s, DeadReport(addr), t) {
      var i :| 0 <= i < |s.entries| && KeyOf(s.entries[i], ByIp) == addr && s.entries[i].info.state == Alive;
      assert Named(s.entries, i, addr, t.addr);
    }
    if i :| t.RmTask? && Named(s.entries, i, addr, t.addr) {
      assert KeyOf(s.entries[i], ByIp) == addr;
    }
  }

  predicate Named(es: seq<Entry>, i: int, addr: string, recordIp: string) {
    0 <= i < |es| && es[i].info.state == Alive && es[i].ip == addr && es[i].info.ip == recordIp
  }

  ghost predicate AfterFirst(es: seq<Entry>, es1: seq<Entry>, agents: seq<Agent>)
    requires agents != []
  {
    && |es1| == |es|
    && forall i | 0 <= i < |es| ::
         es1[i] == if agents[0].state == "kDead" && es[i].info.state == Alive && es[i].ip == agents[0].addr
                   then es[i].(info := es[i].info.(state := Reinstalling)) else es[i]
  }

  /** The entry is to be repaired because of the first report, or because of the others. */
  lemma FirstOrRest(es: seq<Entry>, es1: seq<Entry>, agents: seq<Agent>, a: string, i: int)
    requires agents != [] && AfterFirst(es, es1, agents)
    ensures i in ToRepair(es, agents, a)
       <==> (agents[0].state == "kDead" && Named(es, i, agents[0].addr, a)) || i in ToRepair(es1, agents[1..], a)
    ensures agents[0].state == "kDead" && Named(es, i, agents[0].addr, a) ==> i !in ToRepair(es1, agents[1..], a)
  {
    if 0 <= i < |es| {
      ReportedFirst(agents, es[i].ip);
    }
  }

  lemma Positions(es: seq<Entry>, addr: string, a: string)
    ensures forall i | Named(es, i, addr, a) :: 0 <= i < |es|
  {
  }

  lemma NamedOnce(es: seq<Entry>, addr: string, a: string, i: int, j: int)
    requires UniqueKeys(es) && Named(es, i, addr, a) && Named(es, j, addr, a)
    ensures i == j
  {
    LookupUnique(es, ByIp, i);
    LookupUnique(es, ByIp, j);
  }

  /** The entries to repair are the one the first report names, and those the others name after it. */
  lemma ToRepairFirst(es: seq<Entry>, es1: seq<Entry>, agents: seq<Agent>, a: string)
    requires UniqueKeys(es) && agents != [] && AfterFirst(es, es1, agents)
    ensures |ToRepair(es, agents, a)| == |ToRepair(es1, agents[1..], a)|
              + if agents[0].state == "kDead" && exists i :: Named(es, i, agents[0].addr, a) then 1 else 0
  {
    hide UniqueKeys, ReportedDead, Named;
    var all, rest := ToRepair(es, agents, a), ToRepair(es1, agents[1..], a);
    forall i | 0 <= i < |es|
      ensures i in all <==> (agents[0].state == "kDead" && Named(es, i, agents[0].addr, a)) || i in rest
    {
      FirstOrRest(es, es1, agents, a, i);
    }
    assert forall i | i in all || i in rest || Named(es, i, agents[0].addr, a) :: 0 <= i < |es| by { Positions(es, agents[0].addr, a); }
    if i :| agents[0].state == "kDead" && Named(es, i, agents[0].addr, a) {
      FirstOrRest(es, es1, agents, a, i);
      forall j | Named(es, j, agents[0].addr, a) ensures j == i {
        NamedOnce(es, agents[0].addr, a, i, j);
      }
      assert all == rest + {i};
    } else {
      assert all == rest;
    }
  }

  /**
   Exactly the Alive machines listed as dead turn Reinstalling, whatever else is in the list, in whatever order and
   how often; every other entry is unchanged; each of them has one rm task, for the ip of its record.
   */
  lemma {:induction false} DeadReportsRepair(s: Ctrl, agents: seq<Agent>)
    requires UniqueKeys(s.entries)
    ensures var s' := Exec(s, DeadReports(agents));
            && EntriesRepaired(s.entries, s'.entries, agents) && RepairsQueued(s.entries, s.work, s'.work, agents)
            && s'.scripts == s.scripts && s'.store == s.store && s'.scriptStore == s.scriptStore
    decreases |agents|
  {
    if agents == [] {
      assert forall t: Token | t.RmTask? :: ToRepair(s.entries, agents, t.addr) == {};
    } else {
      var head := if agents[0].state == "kDead" then [DeadReport(agents[0].addr)] else [];
      var s1 := Exec(s, head);
      ExecAppend(s, head, DeadReports(agents[1..]));
      if agents[0].state == "kDead" {
        assert head[1..] == [] && Exec(Step(s, head[0]), []) == Step(s, head[0]);
        ReportMoves(s, agents[0].addr);
        ReportQueues(s, agents[0].addr);
        StepUnique(s, head[0]);
        ReportKeepsTables(s, agents[0].addr);
      }
      DeadReportsRepair(s1, agents[1..]);
      RepairJoins(s, s1, Exec(s, DeadReports(agents)), agents);
    }
  }

  lemma ReportKeepsTables(s: Ctrl, addr: string)
    ensures var s' := DeadReportStep(s, addr);
            s'.scripts == s.scripts && s'.store == s.store && s'.scriptStore == s.scriptStore
  {
    hide KeyOf;
  }

  /** The first report and the rest together. */
  lemma RepairJoins(s: Ctrl, s1: Ctrl, s': Ctrl, agents: seq<Agent>)
    requires UniqueKeys(s.entries) && agents != [] && AfterFirst(s.entries, s1.entries, agents)
    requires forall t: Token :: s1.work[t] == s.work[t] + if agents[0].state == "kDead" && t.RmTask?
                                                      && exists i :: Named(s.entries, i, agents[0].addr, t.addr) then 1 else 0
    requires EntriesRepaired(s1.entries, s'.entries, agents[1..]) && RepairsQueued(s1.entries, s1.work, s'.work, agents[1..])
    ensures EntriesRepaired(s.entries, s'.entries, agents) && RepairsQueued(s.entries, s.work, s'.work, agents)
  {
    forall i | 0 <= i < |s.entries| ensures ReportedDead(agents, s.entries[i].ip)
       <==> (agents[0].addr == s.entries[i].ip && agents[0].state == "kDead") || ReportedDead(agents[1..], s.entries[i].ip)
    {
      ReportedFirst(agents, s.entries[i].ip);
    }
    forall t: Token | t.RmTask?
      ensures |ToRepair(s.entries, agents, t.addr)| == |ToRepair(s1.entries, agents[1..], t.addr)|
                + if agents[0].state == "kDead" && exists i :: Named(s.entries, i, agents[0].addr, t.addr) then 1 else 0
    {
      ToRepairFirst(s.entries, s1.entries, agents, t.addr);
    }
  }

  // ---------------------------------------------------------------- exports

  ghost predicate Known(es: seq<Entry>, hostname: string) {
    Lookup(es, ByHostname, hostname).Some?
  }

  ghost predicate AllKnown(es: seq<Entry>, hostnames: seq<string>) {
    forall i | 0 <= i < |hostnames| :: Known(es, hostnames[i])
  }

  /** Exporting a host keeps every known hostname known. */
  lemma ExportKeepsKnown(s: Ctrl, hostname: string, removed: bool, other: string)
    requires Known(s.entries, other)
    ensures Known(ExportStep(s, hostname, removed).entries, other)
  {
    var i := Lookup(s.entries, ByHostname, other).value;
    assert KeyOf(ExportStep(s, hostname, removed).entries[i], ByHostname) == other;
  }

  /** Requests that need a script which is not there change nothing. */
  lemma {:induction false} WithoutScript(s: Ctrl, es: seq<Event>)
    requires forall i | 0 <= i < |es| ::
               || (es[i].ExportHost? && s.names.remove !in s.scripts)
               || (es[i].AddExec? && es[i].script !in s.scripts)
    ensures Exec(s, es) == s
    decreases |es|
  {
    if es != [] {
      assert Step(s, es[0]) == s;
      WithoutScript(s, es[1..]);
    }
  }

  ghost predicate IsExported(req: seq<HostExport>, hostname: string) {
    exists k :: 0 <= k < |req| && req[k].hostname == hostname
  }

  /** The positions of the request whose host has a minion with the given ip, and whose record was deleted. */
  ghost function Removals(es: seq<Entry>, req: seq<HostExport>, a: string): set<int> {
    set k | 0 <= k < |req| && req[k].removed && HasMinion(es, ByHostname, req[k].hostname, a)
  }

  predicate RemovedBy(es: seq<Entry>, req: seq<HostExport>, id: string, k: int, i: int) {
    && 0 <= k < |req| && 0 <= i < |es| && req[k].removed
    && es[i].hostname == req[k].hostname && es[i].info.id == id
  }

  ghost predicate Removed(es: seq<Entry>, req: seq<HostExport>, id: string) {
    exists k, i :: RemovedBy(es, req, id, k, i)
  }

  ghost predicate HostsOut(es: seq<Entry>, es': seq<Entry>, req: seq<HostExport>) {
    && |es'| == |es|
    && forall i | 0 <= i < |es| ::
         es'[i] == if IsExported(req, es[i].hostname) then es[i].(info := es[i].info.(state := Del)) else es[i]
  }

  ghost predicate RemovalsQueued(es: seq<Entry>, work: multiset<Token>, work': multiset<Token>, req: seq<HostExport>) {
    forall t: Token :: work'[t] == work[t] + if t.RmTask? then |Removals(es, req, t.addr)| else 0
  }

  ghost predicate RecordsGone(es: seq<Entry>, store: map<string, MinionInfo>, store': map<string, MinionInfo>,
                              req: seq<HostExport>)
  {
    && (forall id :: id in store' <==> id in store && !Removed(es, req, id))
    && (forall id | id in store' :: store'[id] == store[id])
  }

  /**
   With the removal script, exactly the exported hosts turn Del and nothing else about them changes; exactly the
   records deleted are gone from the store; and each deletion queues one rm task.
   */
  ghost predicate ExportDone(s: Ctrl, s': Ctrl, req: seq<HostExport>) {
    && HostsOut(s.entries, s'.entries, req)
    && RemovalsQueued(s.entries, s.work, s'.work, req)
    && RecordsGone(s.entries, s.store, s'.store, req)
    && s'.names == s.names && s'.scripts == s.scripts && s'.scriptStore == s.scriptStore
  }

  lemma {:induction false} ExportsDone(s: Ctrl, req: seq<HostExport>)
    requires UniqueKeys(s.entries) && s.names.remove in s.scripts
    ensures ExportDone(s, Exec(s, ExportEvents(req)), req)
    decreases |req|
  {
    if req == [] {
      assert ExportEvents(req) == [];
      assert forall t: Token | t.RmTask? :: Removals(s.entries, req, t.addr) == {};
    } else {
      var n := |req| - 1;
      ExportsDone(s, req[..n]);
      assert ExportEvents(req)[..n] == ExportEvents(req[..n]);
      ExecLast(s, ExportEvents(req));
      hide ExportDone, UniqueKeys, ExportStep;
      ExportKeepsUnique(s, Exec(s, ExportEvents(req[..n])), req[..n]);
      ExportLast(s, Exec(s, ExportEvents(req[..n])), req);
    }
  }

  lemma ExportKeepsUnique(s: Ctrl, s': Ctrl, req: seq<HostExport>)
    requires UniqueKeys(s.entries) && ExportDone(s, s', req)
    ensures UniqueKeys(s'.entries)
  {
    SameKeysUnique(s.entries, s'.entries);
  }

  lemma SameKeysUnique(es: seq<Entry>, es': seq<Entry>)
    requires UniqueKeys(es) && |es'| == |es|
    requires forall i | 0 <= i < |es| :: es'[i].id == es[i].id && es'[i].hostname == es[i].hostname && es'[i].ip == es[i].ip
    ensures UniqueKeys(es')
  {
    forall i, j | 0 <= i < j < |es'| ensures !Clash(es'[i], es'[j]) {
      assert !Clash(es[i], es[j]);
    }
  }

  lemma ExportLast(s: Ctrl, s1: Ctrl, req: seq<HostExport>)
    requires UniqueKeys(s.entries) && UniqueKeys(s1.entries) && s.names.remove in s.scripts && req != []
    requires ExportDone(s, s1, req[..|req| - 1])
    ensures ExportDone(s, ExportStep(s1, req[|req| - 1].hostname, req[|req| - 1].removed), req)
  {
    var h, removed := req[|req| - 1].hostname, req[|req| - 1].removed;
    ExportKeepsScripts(s1, h, removed);
    ExportKeepsNames(s1, h, removed);
    HostsOutLast(s, s1, req);
    RemovalsLast(s, s1, req);
    RecordsLast(s, s1, req);
  }

  lemma ExportKeepsNames(s: Ctrl, hostname: string, removed: bool)
    ensures ExportStep(s, hostname, removed).names == s.names
  {
    hide KeyOf;
  }

  lemma HostsOutLast(s: Ctrl, s1: Ctrl, req: seq<HostExport>)
    requires UniqueKeys(s1.entries) && s1.names.remove in s1.scripts && req != []
    requires HostsOut(s.entries, s1.entries, req[..|req| - 1])
    ensures HostsOut(s.entries, ExportStep(s1, req[|req| - 1].hostname, req[|req| - 1].removed).entries, req)
  {
    var n := |req| - 1;
    ExportStates(s1, req[n].hostname, req[n].removed);
    hide ExportStep;
    forall x ensures IsExported(req, x) <==> IsExported(req[..n], x) || req[n].hostname == x {
      if k :| 0 <= k < |req| && req[k].hostname == x {
        assert k < n ==> req[..n][k].hostname == x;
      }
      if k :| 0 <= k < n && req[..n][k].hostname == x {
        assert req[k].hostname == x;
      }
    }
  }

  lemma ExportCounts(s: Ctrl, hostname: string, removed: bool, t: Token)
    requires UniqueKeys(s.entries) && s.names.remove in s.scripts
    ensures ExportStep(s, hostname, removed).work[t]
         == s.work[t] + if t.RmTask? && removed && HasMinion(s.entries, ByHostname, hostname, t.addr) then 1 else 0
  {
    hide ExportStep, HasMinion;
    ExportWork(s, hostname, removed);
  }

  lemma RemovalsLast(s: Ctrl, s1: Ctrl, req: seq<HostExport>)
    requires UniqueKeys(s1.entries) && s1.names.remove in s1.scripts && req != []
    requires HostsOut(s.entries, s1.entries, req[..|req| - 1])
    requires RemovalsQueued(s.entries, s.work, s1.work, req[..|req| - 1])
    ensures RemovalsQueued(s.entries, s.work, ExportStep(s1, req[|req| - 1].hostname, req[|req| - 1].removed).work, req)
  {
    hide ExportStep, Removals, HasMinion, UniqueKeys, HostsOut;
    var n := |req| - 1;
    forall t: Token ensures ExportStep(s1, req[n].hostname, req[n].removed).work[t]
        == s.work[t] + if t.RmTask? then |Removals(s.entries, req, t.addr)| else 0
    {
      ExportCounts(s1, req[n].hostname, req[n].removed, t);
      if t.RmTask? {
        RemovalsGrow(s.entries, req, t.addr);
        SameMinions(s.entries, s1.entries, req[..n], req[n].hostname, t.addr);
      }
    }
  }

  lemma SameMinions(es: seq<Entry>, es': seq<Entry>, req: seq<HostExport>, hostname: string, a: string)
    requires HostsOut(es, es', req)
    ensures HasMinion(es, ByHostname, hostname, a) <==> HasMinion(es', ByHostname, hostname, a)
  {
    SameMinion(es, es', hostname, a);
    SameMinion(es', es, hostname, a);
  }

  lemma RemovalsGrow(es: seq<Entry>, req: seq<HostExport>, a: string)
    requires req != []
    ensures var n := |req| - 1;
            |Removals(es, req, a)| == |Removals(es, req[..n], a)|
              + if req[n].removed && HasMinion(es, ByHostname, req[n].hostname, a) then 1 else 0
  {
    hide HasMinion;
    var n := |req| - 1;
    assert Removals(es, req, a) == Removals(es, req[..n], a)
        + if req[n].removed && HasMinion(es, ByHostname, req[n].hostname, a) then {n} else {};
  }

  lemma RecordsLast(s: Ctrl, s1: Ctrl, req: seq<HostExport>)
    requires UniqueKeys(s1.entries) && s1.names.remove in s1.scripts && req != []
    requires HostsOut(s.entries, s1.entries, req[..|req| - 1])
    requires RecordsGone(s.entries, s.store, s1.store, req[..|req| - 1])
    ensures RecordsGone(s.entries, s.store, ExportStep(s1, req[|req| - 1].hostname, req[|req| - 1].removed).store, req)
  {
    hide ExportStep, HostsOut, UniqueKeys, Removed;
    var n := |req| - 1;
    forall id ensures var store' := ExportStep(s1, req[n].hostname, req[n].removed).store;
                      && (id in store' <==> id in s.store && !Removed(s.entries, req, id))
                      && (id in store' ==> store'[id] == s.store[id])
    {
      RecordLast(s, s1, req, id);
    }
  }

  lemma RecordLast(s: Ctrl, s1: Ctrl, req: seq<HostExport>, id: string)
    requires UniqueKeys(s1.entries) && s1.names.remove in s1.scripts && req != []
    requires HostsOut(s.entries, s1.entries, req[..|req| - 1])
    requires RecordsGone(s.entries, s.store, s1.store, req[..|req| - 1])
    ensures var store' := ExportStep(s1, req[|req| - 1].hostname, req[|req| - 1].removed).store;
            && (id in store' <==> id in s.store && !Removed(s.entries, req, id))
            && (id in store' ==> store'[id] == s.store[id])
  {
    var n := |req| - 1;
    var e := ExportHost(req[n].hostname, req[n].removed);
    var store' := ExportStep(s1, req[n].hostname, req[n].removed).store;
    ExportDeletes(s1, req[n].hostname, req[n].removed);
    assert StoredAfter(s1, e, id) == if id in store' then Some(store'[id]) else None;
    RemovedLast(s.entries, s1, req, id);
    hide ExportStep, Removed, Deletes, UniqueKeys, HostsOut;
  }

  lemma SameMinion(es: seq<Entry>, es': seq<Entry>, hostname: string, a: string)
    requires |es'| == |es| && forall i | 0 <= i < |es| :: es'[i].hostname == es[i].hostname && es'[i].info.ip == es[i].info.ip
    ensures HasMinion(es, ByHostname, hostname, a) ==> HasMinion(es', ByHostname, hostname, a)
  {
    if i :| 0 <= i < |es| && KeyOf(es[i], ByHostname) == hostname && es[i].info.ip == a {
      assert KeyOf(es'[i], ByHostname) == hostname;
    }
  }

  lemma RemovedLast(es: seq<Entry>, s1: Ctrl, req: seq<HostExport>, id: string)
    requires req != [] && s1.names.remove in s1.scripts && |s1.entries| == |es|
    requires forall i | 0 <= i < |es| :: s1.entries[i].hostname == es[i].hostname && s1.entries[i].info.id == es[i].info.id
    ensures var n := |req| - 1;
            Removed(es, req, id) <==> Removed(es, req[..n], id) || Deletes(s1, ExportHost(req[n].hostname, req[n].removed), id)
  {
    var n := |req| - 1;
    if k, i :| RemovedBy(es, req, id, k, i) {
      if k < n {
        assert RemovedBy(es, req[..n], id, k, i);
      } else {
        assert KeyOf(s1.entries[i], ByHostname) == req[n].hostname;
      }
    }
    if k, i :| RemovedBy(es, req[..n], id, k, i) {
      assert RemovedBy(es, req, id, k, i);
    }
    if i :| req[n].removed && 0 <= i < |es| && KeyOf(s1.entries[i], ByHostname) == req[n].hostname && s1.entries[i].info.id == id {
      assert RemovedBy(es, req, id, n, i);
    }
  }

  // ---------------------------------------------------------------- exec requests

  /** The word up to the first space, or the whole line. */
  predicate IsFirstWord(cmd: string, w: string) {
    ' ' !in w && (w == cmd || w + " " <= cmd)
  }

  lemma {:induction false} ScriptIsFirstWord(cmd: string)
    ensures IsFirstWord(cmd, ScriptOf(cmd))
    ensures forall w | IsFirstWord(cmd, w) :: w == ScriptOf(cmd)
  {
    JoinSplit(cmd, ' ');
    var parts := Split(cmd, ' ');
    if |parts| > 1 {
      assert cmd == parts[0] + [' '] + Join(parts[1..], ' ');
      assert parts[0] + " " <= cmd;
    }
    forall w | IsFirstWord(cmd, w) ensures w == ScriptOf(cmd) {
      FirstWordUnique(cmd, w, ScriptOf(cmd));
    }
  }

  lemma FirstWordUnique(cmd: string, v: string, w: string)
    requires IsFirstWord(cmd, v) && IsFirstWord(cmd, w)
    ensures v == w
  {
    assert v == cmd[..|v|] && w == cmd[..|w|];
    assert |v| < |cmd| ==> cmd[|v|] == (v + " ")[|v|];
    assert |w| < |cmd| ==> cmd[|w|] == (w + " ")[|w|];
    assert forall i | 0 <= i < |v| :: cmd[i] == v[i] != ' ';
    assert forall i | 0 <= i < |w| :: cmd[i] == w[i] != ' ';
    assert |v| == |w|;
  }

  /** The positions of the request whose host has a minion with the given ip. */
  ghost function Wanted(es: seq<Entry>, hostnames: seq<string>, a: string): set<int> {
    set k | 0 <= k < |hostnames| && HasMinion(es, ByHostname, hostnames[k], a)
  }

  ghost predicate ExecsQueued(s: Ctrl, work': multiset<Token>, hostnames: seq<string>, cmd: string) {
    forall t: Token :: work'[t] == s.work[t]
      + if t.ExecTask? && t.cmd == cmd && IsFirstWord(cmd, t.script) && t.script in s.scripts
        then |Wanted(s.entries, hostnames, t.addr)| else 0
  }

  /** One exec task for each host of the request, if the first word of the command is a script; nothing else. */
  lemma {:induction false} ExecsDone(s: Ctrl, hostnames: seq<string>, cmd: string)
    requires UniqueKeys(s.entries)
    ensures var s' := Exec(s, ExecEvents(hostnames, cmd));
            s' == s.(work := s'.work) && ExecsQueued(s, s'.work, hostnames, cmd)
    decreases |hostnames|
  {
    if hostnames == [] {
      assert ExecEvents(hostnames, cmd) == [];
      assert forall a :: Wanted(s.entries, hostnames, a) == {};
    } else {
      var n := |hostnames| - 1;
      ExecsDone(s, hostnames[..n], cmd);
      assert ExecEvents(hostnames, cmd)[..n] == ExecEvents(hostnames[..n], cmd);
      ExecLast(s, ExecEvents(hostnames, cmd));
      var s1 := Exec(s, ExecEvents(hostnames[..n], cmd));
      AddExecOnlyQueues(s1, hostnames[n], cmd, ScriptOf(cmd));
      ExecsLast(s, s1, hostnames, cmd);
    }
  }

  lemma ExecsLast(s: Ctrl, s1: Ctrl, hostnames: seq<string>, cmd: string)
    requires UniqueKeys(s.entries) && hostnames != [] && s1 == s.(work := s1.work)
    requires ExecsQueued(s, s1.work, hostnames[..|hostnames| - 1], cmd)
    ensures ExecsQueued(s, AddExecStep(s1, hostnames[|hostnames| - 1], cmd, ScriptOf(cmd)).work, hostnames, cmd)
  {
    hide AddExecStep, UniqueKeys, IsFirstWord, HasMinion, Wanted, ScriptOf;
    var n := |hostnames| - 1;
    ScriptIsFirstWord(cmd);
    forall t: Token ensures AddExecStep(s1, hostnames[n], cmd, ScriptOf(cmd)).work[t] == s.work[t]
        + if t.ExecTask? && t.cmd == cmd && IsFirstWord(cmd, t.script) && t.script in s.scripts
          then |Wanted(s.entries, hostnames, t.addr)| else 0
    {
      AddExecCounts(s1, hostnames[n], cmd, ScriptOf(cmd), t);
      if t.ExecTask? {
        WantedGrow(s.entries, hostnames, t.addr);
      }
    }
  }

  lemma AddExecOnlyQueues(s: Ctrl, hostname: string, cmd: string, script: string)
    ensures var s' := AddExecStep(s, hostname, cmd, script); s' == s.(work := s'.work)
  {
  }

  lemma AddExecCounts(s: Ctrl, hostname: string, cmd: string, script: string, t: Token)
    requires UniqueKeys(s.entries)
    ensures AddExecStep(s, hostname, cmd, script).work[t] == s.work[t]
      + if t.ExecTask? && t.cmd == cmd && t.script == script && script in s.scripts
           && HasMinion(s.entries, ByHostname, hostname, t.addr) then 1 else 0
  {
    hide AddExecStep, HasMinion;
    AddExecWork(s, hostname, cmd, script);
  }

  lemma WantedGrow(es: seq<Entry>, hostnames: seq<string>, a: string)
    requires hostnames != []
    ensures var n := |hostnames| - 1;
            |Wanted(es, hostnames, a)| == |Wanted(es, hostnames[..n], a)|
              + if HasMinion(es, ByHostname, hostnames[n], a) then 1 else 0
  {
    hide HasMinion;
    var n := |hostnames| - 1;
    assert Wanted(es, hostnames, a) == Wanted(es, hostnames[..n], a)
        + if HasMinion(es, ByHostname, hostnames[n], a) then {n} else {};
  }

  // ---------------------------------------------------------------- imports of scripts

  predicate StoredScript(req: seq<ScriptImport>, name: string, k: int) {
    0 <= k < |req| && req[k].stored && req[k].name == name
  }

  predicate LastScript(req: seq<ScriptImport>, name: string, k: int) {
    StoredScript(req, name, k) && forall j | k < j < |req| :: !StoredScript(req, name, j)
  }

  /** Under every name the last one stored, and where none was stored what was there before. */
  ghost predicate ScriptsTaken(scripts: map<string, string>, scripts': map<string, string>, req: seq<ScriptImport>) {
    && (forall name, k | LastScript(req, name, k) :: name in scripts' && scripts'[name] == req[k].content)
    && (forall name | forall k :: !StoredScript(req, name, k) ::
          (name in scripts' <==> name in scripts) && (name in scripts ==> scripts'[name] == scripts[name]))
  }

  lemma {:induction false} ScriptImportsDone(s: Ctrl, req: seq<ScriptImport>)
    ensures var s' := Exec(s, ScriptEvents(req));
            && s' == s.(scripts := s'.scripts, scriptStore := s'.scriptStore)
            && ScriptsTaken(s.scripts, s'.scripts, req) && ScriptsTaken(s.scriptStore, s'.scriptStore, req)
    decreases |req|
  {
    if req == [] {
      assert ScriptEvents(req) == [];
    } else {
      var n := |req| - 1;
      ScriptImportsDone(s, req[..n]);
      assert ScriptEvents(req)[..n] == ScriptEvents(req[..n]);
      ExecLast(s, ScriptEvents(req));
      var s1 := Exec(s, ScriptEvents(req[..n]));
      ScriptTakenLast(s.scripts, s1.scripts, req);
      ScriptTakenLast(s.scriptStore, s1.scriptStore, req);
    }
  }

  lemma ScriptTakenLast(scripts: map<string, string>, scripts1: map<string, string>, req: seq<ScriptImport>)
    requires req != [] && ScriptsTaken(scripts, scripts1, req[..|req| - 1])
    ensures var x := req[|req| - 1];
            ScriptsTaken(scripts, if x.stored then scripts1[x.name := x.content] else scripts1, req)
  {
    var n := |req| - 1;
    var x := req[n];
    var scripts' := if x.stored then scripts1[x.name := x.content] else scripts1;
    forall name, k ensures StoredScript(req[..n], name, k) <==> StoredScript(req, name, k) && k < n {
    }
    forall name, k | LastScript(req, name, k) ensures name in scripts' && scripts'[name] == req[k].content {
      if k < n {
        assert !StoredScript(req, name, n);
        assert LastScript(req[..n], name, k);
      }
    }
    forall name | forall k :: !StoredScript(req, name, k)
      ensures (name in scripts' <==> name in scripts) && (name in scripts ==> scripts'[name] == scripts[name])
    {
      assert !StoredScript(req, name, n);
      assert forall k :: !StoredScript(req[..n], name, k);
    }
  }

  // ---------------------------------------------------------------- imports of minions

  predicate StoredMinion(req: seq<MinionImport>, id: string, k: int) {
    0 <= k < |req| && req[k].stored && req[k].minion.id == id
  }

  predicate LastMinion(req: seq<MinionImport>, id: string, k: int) {
    StoredMinion(req, id, k) && forall j | k < j < |req| :: !StoredMinion(req, id, j)
  }

  predicate NoneStored(req: seq<MinionImport>, id: string) {
    forall k | 0 <= k < |req| :: !StoredMinion(req, id, k)
  }

  /** Under every id the last record stored, and where none was stored what was there before. */
  ghost predicate RecordsTaken(store: map<string, MinionInfo>, store': map<string, MinionInfo>, req: seq<MinionImport>) {
    && (forall id, k | LastMinion(req, id, k) :: id in store' && store'[id] == req[k].minion)
    && (forall id | NoneStored(req, id) :: (id in store' <==> id in store) && (id in store ==> store'[id] == store[id]))
  }

  /** A minion known before has the content last stored, in service again if it was out of it. */
  ghost predicate KnownTaken(o: Entry, n: Entry, req: seq<MinionImport>) {
    && (NoneStored(req, o.id) ==> n == o)
    && forall k | LastMinion(req, o.id, k) ::
         n == o.(info := req[k].minion.(state := if o.info.state in {Del, Error, Busy} then Alive else o.info.state))
  }

  /** A new minion is one of the request, Alive, with the content last stored under its id. */
  ghost predicate NewTaken(n: Entry, req: seq<MinionImport>) {
    && (exists k :: StoredMinion(req, n.id, k) && n.hostname == req[k].minion.hostname && n.ip == req[k].minion.ip)
    && forall k | LastMinion(req, n.id, k) :: n.info == req[k].minion.(state := Alive)
  }

  /** A record that was stored is in the set, unless its keys clash with an entry that is. */
  ghost predicate Placed(es: seq<Entry>, m: MinionInfo) {
    HasKey(es, ById, m.id) || Conflicts(es, Entry(m.id, m.hostname, m.ip, m))
  }

  ghost predicate MinionsTaken(es: seq<Entry>, es': seq<Entry>, req: seq<MinionImport>) {
    && |es| <= |es'|
    && (forall i | 0 <= i < |es| :: KnownTaken(es[i], es'[i], req))
    && (forall i | |es| <= i < |es'| :: NewTaken(es'[i], req))
    && (forall k | 0 <= k < |req| && req[k].stored :: Placed(es', req[k].minion))
  }

  lemma StoredLast(req: seq<MinionImport>, id: string)
    requires req != []
    ensures var n := |req| - 1;
            && (forall k :: StoredMinion(req, id, k) <==> StoredMinion(req[..n], id, k) || (k == n && StoredMinion(req, id, n)))
            && (StoredMinion(req, id, n) ==> forall k :: LastMinion(req, id, k) <==> k == n)
            && (!StoredMinion(req, id, n) ==>
                  && (forall k :: LastMinion(req, id, k) <==> LastMinion(req[..n], id, k))
                  && (NoneStored(req, id) <==> NoneStored(req[..n], id)))
  {
    var n := |req| - 1;
    forall k ensures StoredMinion(req, id, k) <==> StoredMinion(req[..n], id, k) || (k == n && StoredMinion(req, id, n)) {
    }
  }

  lemma RecordsTakenLast(store: map<string, MinionInfo>, store1: map<string, MinionInfo>, req: seq<MinionImport>)
    requires req != [] && RecordsTaken(store, store1, req[..|req| - 1])
    ensures var x := req[|req| - 1];
            RecordsTaken(store, if x.stored then store1[x.minion.id := x.minion] else store1, req)
  {
    var n := |req| - 1;
    var x := req[n];
    var store' := if x.stored then store1[x.minion.id := x.minion] else store1;
    forall id, k | LastMinion(req, id, k) ensures id in store' && store'[id] == req[k].minion {
      StoredLast(req, id);
      if k != n {
        assert LastMinion(req[..n], id, k) && !StoredMinion(req, id, n);
      }
    }
    forall id | NoneStored(req, id)
      ensures (id in store' <==> id in store) && (id in store ==> store'[id] == store[id])
    {
      assert !StoredMinion(req, id, n);
      StoredLast(req, id);
    }
  }

  lemma {:induction false} LastExists(req: seq<MinionImport>, id: string) returns (k: int)
    requires !NoneStored(req, id)
    ensures LastMinion(req, id, k)
    decreases |req|
  {
    var n := |req| - 1;
    if StoredMinion(req, id, n) {
      k := n;
    } else {
      StoredLast(req, id);
      k := LastExists(req[..n], id);
    }
  }

  /** What an import of `x` makes of an entry. */
  function Overwritten(o: Entry, x: MinionImport): Entry {
    if x.stored && x.minion.id == o.id
    then o.(info := x.minion.(state := if o.info.state in {Del, Error, Busy} then Alive else o.info.state))
    else o
  }

  lemma KnownTakenLast(o: Entry, n1: Entry, req: seq<MinionImport>)
    requires req != [] && KnownTaken(o, n1, req[..|req| - 1]) && n1.id == o.id
    ensures KnownTaken(o, Overwritten(n1, req[|req| - 1]), req)
  {
    var n := |req| - 1;
    StoredLast(req, o.id);
    if StoredMinion(req, o.id, n) && !NoneStored(req[..n], o.id) {
      var k := LastExists(req[..n], o.id);
      assert LastMinion(req, o.id, n);
    }
  }

  lemma NewTakenLast(n1: Entry, req: seq<MinionImport>)
    requires req != [] && NewTaken(n1, req[..|req| - 1])
    ensures NewTaken(Overwritten(n1, req[|req| - 1]), req)
  {
    var n := |req| - 1;
    var k :| StoredMinion(req[..n], n1.id, k)
      && n1.hostname == req[..n][k].minion.hostname && n1.ip == req[..n][k].minion.ip;
    assert StoredMinion(req, n1.id, k) && req[k] == req[..n][k];
    var last := LastExists(req[..n], n1.id);
    assert n1.info.state == Alive;
    NewContentLast(n1, req);
  }

  lemma NewContentLast(n1: Entry, req: seq<MinionImport>)
    requires req != [] && n1.info.state == Alive
    requires forall k | LastMinion(req[..|req| - 1], n1.id, k) :: n1.info == req[k].minion.(state := Alive)
    ensures forall k | LastMinion(req, n1.id, k) ::
              Overwritten(n1, req[|req| - 1]).info == req[k].minion.(state := Alive)
  {
    StoredLast(req, n1.id);
  }

  lemma NewTakenFirst(m: MinionInfo, req: seq<MinionImport>)
    requires req != [] && req[|req| - 1] == MinionImport(m, true)
    ensures NewTaken(Entry(m.id, m.hostname, m.ip, m.(state := Alive)), req)
  {
    StoredLast(req, m.id);
    assert StoredMinion(req, m.id, |req| - 1);
  }

  /** Entries keep their keys, so what was placed stays placed. */
  lemma StillPlaced(es: seq<Entry>, es': seq<Entry>, m: MinionInfo)
    requires Placed(es, m) && |es| <= |es'|
    requires forall i | 0 <= i < |es| :: es'[i].id == es[i].id && es'[i].hostname == es[i].hostname && es'[i].ip == es[i].ip
    ensures Placed(es', m)
  {
    if HasKey(es, ById, m.id) {
      var i :| 0 <= i < |es| && KeyOf(es[i], ById) == m.id;
      assert KeyOf(es'[i], ById) == m.id;
    } else {
      var i :| 0 <= i < |es| && Clash(es[i], Entry(m.id, m.hostname, m.ip, m));
      assert Clash(es'[i], Entry(m.id, m.hostname, m.ip, m));
    }
  }

  lemma KeysKept(es: seq<Entry>, es': seq<Entry>, x: MinionImport)
    requires OneTaken(es, es', x)
    ensures forall i | 0 <= i < |es| :: es'[i].id == es[i].id && es'[i].hostname == es[i].hostname && es'[i].ip == es[i].ip
  {
  }

  /** What one import does to the entries. */
  ghost predicate OneTaken(es: seq<Entry>, es': seq<Entry>, x: MinionImport) {
    && |es| <= |es'| <= |es| + 1
    && (forall i | 0 <= i < |es| :: es'[i] == Overwritten(es[i], x))
    && (|es| < |es'| ==> x.stored
                         && es'[|es|] == Entry(x.minion.id, x.minion.hostname, x.minion.ip, x.minion.(state := Alive)))
    && (x.stored ==> Placed(es', x.minion))
  }

  lemma ImportTakesOne(s: Ctrl, x: MinionImport)
    requires UniqueKeys(s.entries)
    ensures OneTaken(s.entries, ImportMinionStep(s, x.minion, x.stored).entries, x)
  {
    var m := x.minion;
    var e := ImportMinion(m, x.stored);
    var es' := ImportMinionStep(s, m, x.stored).entries;
    ImportStates(s, m, x.stored);
    ImportGrown(s, m, x.stored);
    if x.stored {
      OnePlaced(s, m, es');
    }
    hide ImportMinionStep, Placed, UniqueKeys;
  }

  lemma OnePlaced(s: Ctrl, m: MinionInfo, es': seq<Entry>)
    requires EntriesMove(s, ImportMinion(m, true), es') && Grown(ImportMinion(m, true), s.entries, es')
    ensures Placed(es', m)
  {
    if AddsEntry(s, ImportMinion(m, true)) {
      assert KeyOf(es'[|s.entries|], ById) == m.id;
    } else {
      var i :| 0 <= i < |s.entries| && Clash(s.entries[i], Entry(m.id, m.hostname, m.ip, m.(state := Alive)));
      assert Clash(es'[i], Entry(m.id, m.hostname, m.ip, m));
    }
  }

  lemma MinionsTakenLast(es: seq<Entry>, es1: seq<Entry>, es': seq<Entry>, req: seq<MinionImport>)
    requires req != [] && MinionsTaken(es, es1, req[..|req| - 1]) && OneTaken(es1, es', req[|req| - 1])
    ensures MinionsTaken(es, es', req)
  {
    hide KnownTaken, NewTaken, Placed, Overwritten;
    var n := |req| - 1;
    forall i | 0 <= i < |es| ensures KnownTaken(es[i], es'[i], req) {
      assert KnownTaken(es[i], es1[i], req[..n]);
      KnownKeepsId(es[i], es1[i], req[..n]);
      KnownTakenLast(es[i], es1[i], req);
    }
    forall i | |es| <= i < |es'| ensures NewTaken(es'[i], req) {
      if i < |es1| {
        NewTakenLast(es1[i], req);
      } else {
        NewTakenFirst(req[n].minion, req);
      }
    }
    forall k | 0 <= k < |req| && req[k].stored ensures Placed(es', req[k].minion) {
      if k < n {
        assert req[..n][k] == req[k];
        KeysKept(es1, es', req[n]);
        StillPlaced(es1, es', req[k].minion);
      }
    }
  }

  lemma KnownKeepsId(o: Entry, n: Entry, req: seq<MinionImport>)
    requires KnownTaken(o, n, req)
    ensures n.id == o.id
  {
    if !NoneStored(req, o.id) {
      var k := LastExists(req, o.id);
    }
  }

  /**
   An import of any list, with repetitions, conflicts and failed stores: every record stored is in the store, the
   last one for each id; known minions have the last content, in service again; the others are new minions unless
   their keys clash with an entry; and init tasks are queued exactly as the steps say.
   */
  lemma {:induction false} MinionImportsDone(s: Ctrl, req: seq<MinionImport>)
    requires UniqueKeys(s.entries)
    ensures var s' := Exec(s, MinionEvents(req));
            && UniqueKeys(s'.entries) && s'.scripts == s.scripts && s'.scriptStore == s.scriptStore
            && RecordsTaken(s.store, s'.store, req) && MinionsTaken(s.entries, s'.entries, req)
    decreases |req|
  {
    if req == [] {
      assert MinionEvents(req) == [];
    } else {
      var n := |req| - 1;
      MinionImportsDone(s, req[..n]);
      assert MinionEvents(req)[..n] == MinionEvents(req[..n]);
      ExecLast(s, MinionEvents(req));
      var s1 := Exec(s, MinionEvents(req[..n]));
      StepUnique(s1, ImportMinion(req[n].minion, req[n].stored));
      ImportTakesOne(s1, req[n]);
      ImportKeepsScripts(s1, req[n].minion, req[n].stored);
      ImportTakesRecord(s1, req[n].minion, req[n].stored);
      hide ImportMinionStep, UniqueKeys, RecordsTaken, MinionsTaken, OneTaken;
      RecordsTakenLast(s.store, s1.store, req);
      MinionsTakenLast(s.entries, s1.entries, ImportMinionStep(s1, req[n].minion, req[n].stored).entries, req);
    }
  }

  lemma ImportTakesRecord(s: Ctrl, m: MinionInfo, stored: bool)
    ensures ImportMinionStep(s, m, stored).store == if stored then s.store[m.id := m] else s.store
  {
    hide KeyOf;
  }

  /** The init tasks an import queues for an address are its steps that insert or revive a minion with that ip. */
  lemma MinionImportsQueue(s: Ctrl, req: seq<MinionImport>, t: Token)
    requires UniqueKeys(s.entries)
    ensures var s' := Exec(s, MinionEvents(req));
            s'.work[t] == s.work[t] + if t.InitTask? then Imported(s, MinionEvents(req), t.addr) else 0
  {
    OnlyImports(s, MinionEvents(req), t);
  }

  lemma {:induction false} OnlyImports(s: Ctrl, es: seq<Event>, t: Token)
    requires UniqueKeys(s.entries) && forall i | 0 <= i < |es| :: es[i].ImportMinion?
    ensures Exec(s, es).work[t] == s.work[t] + if t.InitTask? then Imported(s, es, t.addr) else 0
    decreases |es|
  {
    if es != [] {
      StepUnique(s, es[0]);
      ImportWork(s, es[0].m, es[0].stored);
      hide ImportMinionStep, UniqueKeys;
      OnlyImports(Step(s, es[0]), es[1..], t);
    }
  }

  // ---------------------------------------------------------------- lookups

  /** The minions found under a list of keys of one kind, in the order of the list. */
  ghost function FoundBy(es: seq<Entry>, k: Key, keys: seq<string>): seq<MinionInfo> {
    if keys == [] then []
    else
      var n := |keys| - 1;
      FoundBy(es, k, keys[..n]) + match Lookup(es, k, keys[n]) case None => [] case Some(i) => [es[i].info]
  }

  ghost predicate Carries(es: seq<Entry>, k: Key, key: string, info: MinionInfo) {
    exists i :: 0 <= i < |es| && KeyOf(es[i], k) == key && es[i].info == info
  }

  predicate Increasing(ps: seq<int>) {
    forall i, j | 0 <= i < j < |ps| :: ps[i] < ps[j]
  }

  /** The positions of the keys, one for each minion found and in the same order, under which there is a minion. */
  ghost predicate FoundAt(es: seq<Entry>, k: Key, keys: seq<string>, ps: seq<int>) {
    && |ps| == |FoundBy(es, k, keys)| && Increasing(ps)
    && (forall j | 0 <= j < |ps| :: 0 <= ps[j] < |keys| && Carries(es, k, keys[ps[j]], FoundBy(es, k, keys)[j]))
    && (forall p | 0 <= p < |keys| :: p in ps <==> HasKey(es, k, keys[p]))
  }

  /** Each key of the list that is known finds its minion, once and in the order of the list; unknown keys are skipped. */
  lemma {:induction false} FoundPositions(es: seq<Entry>, k: Key, keys: seq<string>) returns (ps: seq<int>)
    ensures FoundAt(es, k, keys, ps)
  {
    if keys == [] {
      ps := [];
    } else {
      var n := |keys| - 1;
      var before := FoundPositions(es, k, keys[..n]);
      FoundAtLast(es, k, keys, before);
      ps := before + if HasKey(es, k, keys[n]) then [n] else [];
    }
  }

  lemma FoundLast(es: seq<Entry>, k: Key, keys: seq<string>)
    requires keys != []
    ensures var n := |keys| - 1;
            var found, before := FoundBy(es, k, keys), FoundBy(es, k, keys[..n]);
            if HasKey(es, k, keys[n])
            then |found| == |before| + 1 && found[..|before|] == before && Carries(es, k, keys[n], found[|before|])
            else found == before
  {
  }

  lemma FoundAtLast(es: seq<Entry>, k: Key, keys: seq<string>, before: seq<int>)
    requires keys != [] && FoundAt(es, k, keys[..|keys| - 1], before)
    ensures FoundAt(es, k, keys, before + if HasKey(es, k, keys[|keys| - 1]) then [|keys| - 1] else [])
  {
    hide HasKey, Carries, Lookup, KeyOf, FoundBy;
    FoundLast(es, k, keys);
    var n := |keys| - 1;
    var found, m := FoundBy(es, k, keys), FoundBy(es, k, keys[..n]);
    forall j | 0 <= j < |before| ensures 0 <= before[j] < |keys| && Carries(es, k, keys[before[j]], found[j]) {
      assert keys[..n][before[j]] == keys[before[j]] && found[j] == m[j];
    }
    assert n !in before;
    forall p | 0 <= p < n ensures p in before <==> HasKey(es, k, keys[p]) {
      assert keys[..n][p] == keys[p];
    }
  }
}
