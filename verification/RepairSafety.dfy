/**
 Safety of the repair protocol over every run: a minion in the middle of a chain always has the token that
 will move it on, unless its chain was broken off.
 */
module RepairSafety {
  import opened LumiaTypes
  import opened MinionRegistry
  import opened RepairProtocol
  import opened RepairDiagram
  import opened RepairIdentity

  /** The pending token that will move a minion out of its mid-chain state. */
  predicate HasChainToken(work: multiset<Token>, ip: string, st: MinionState) {
    && (st == Reinstalling ==> RmTask(ip) in work || RmRpc(ip) in work || InitTask(ip) in work)
    && (st == Initing ==> InitRpc(ip) in work)
  }

  predicate EntryTracked(work: multiset<Token>, lost: set<string>, e: Entry) {
    e.ip in lost || HasChainToken(work, e.ip, e.info.state)
  }

  ghost predicate AllTracked(es: seq<Entry>, work: multiset<Token>, lost: set<string>) {
    && UniqueKeys(es)
    && forall i | 0 <= i < |es| :: EntryTracked(work, lost, es[i])
  }

  ghost predicate Tracked(s: Ctrl) {
    AllTracked(s.entries, s.work, s.lost)
  }

  /** The address keeps whatever could move its minion on, or is marked lost. */
  predicate NoWorse(work: multiset<Token>, lost: set<string>, work': multiset<Token>, lost': set<string>, a: string) {
    || a in lost'
    || (&& a !in lost
        && (HasChainToken(work, a, Reinstalling) ==> HasChainToken(work', a, Reinstalling))
        && (HasChainToken(work, a, Initing) ==> HasChainToken(work', a, Initing)))
  }

  lemma SameEntriesTracked(es: seq<Entry>, work: multiset<Token>, lost: set<string>,
                           work': multiset<Token>, lost': set<string>)
    requires AllTracked(es, work, lost)
    requires forall i | 0 <= i < |es| :: NoWorse(work, lost, work', lost', es[i].ip)
    ensures AllTracked(es, work', lost')
  {
    forall i | 0 <= i < |es| ensures EntryTracked(work', lost', es[i]) {
      assert EntryTracked(work, lost, es[i]) && NoWorse(work, lost, work', lost', es[i].ip);
    }
  }

  lemma UpdateTracked(es: seq<Entry>, work: multiset<Token>, lost: set<string>,
                      work': multiset<Token>, lost': set<string>, i: nat, info: MinionInfo)
    requires AllTracked(es, work, lost) && i < |es|
    requires forall a | a != es[i].ip :: NoWorse(work, lost, work', lost', a)
    requires EntryTracked(work', lost', es[i].(info := info))
    ensures AllTracked(es[i := es[i].(info := info)], work', lost')
  {
    var es' := es[i := es[i].(info := info)];
    UpdateUnique(es, i, info);
    forall j | 0 <= j < |es'| ensures EntryTracked(work', lost', es'[j]) {
      if j != i {
        assert !Clash(es[if i < j then i else j], es[if i < j then j else i]);
        assert EntryTracked(work, lost, es[j]) && NoWorse(work, lost, work', lost', es[j].ip);
      }
    }
  }

  // ---------------------------------------------------------------- what one token or one state change does

  lemma TokenAdded(es: seq<Entry>, work: multiset<Token>, lost: set<string>, t: Token)
    requires AllTracked(es, work, lost)
    ensures AllTracked(es, work + multiset{t}, lost)
  {
    SameEntriesTracked(es, work, lost, work + multiset{t}, lost);
  }

  lemma TokenDropped(es: seq<Entry>, work: multiset<Token>, lost: set<string>, t: Token)
    requires AllTracked(es, work, lost)
    ensures AllTracked(es, work - multiset{t}, lost + {t.addr})
  {
    SameEntriesTracked(es, work, lost, work - multiset{t}, lost + {t.addr});
  }

  /** A token is not missed when no minion at its address waits for its kind. */
  lemma TokenSpent(es: seq<Entry>, work: multiset<Token>, lost: set<string>, t: Token)
    requires AllTracked(es, work, lost)
    requires forall i | 0 <= i < |es| && es[i].ip == t.addr ::
               || t.ExecTask? || t.ExecRpc?
               || es[i].info.state != if t.InitRpc? then Initing else Reinstalling
    ensures AllTracked(es, work - multiset{t}, lost)
  {
    forall i | 0 <= i < |es| ensures EntryTracked(work - multiset{t}, lost, es[i]) {
      assert EntryTracked(work, lost, es[i]);
    }
  }

  lemma RmTaskToRpc(es: seq<Entry>, work: multiset<Token>, lost: set<string>, addr: string)
    requires AllTracked(es, work, lost)
    ensures AllTracked(es, work - multiset{RmTask(addr)} + multiset{RmRpc(addr)}, lost)
  {
    SameEntriesTracked(es, work, lost, work - multiset{RmTask(addr)} + multiset{RmRpc(addr)}, lost);
  }

  lemma RmRpcToInitTask(es: seq<Entry>, work: multiset<Token>, lost: set<string>, addr: string)
    requires AllTracked(es, work, lost)
    ensures AllTracked(es, work - multiset{RmRpc(addr)} + multiset{InitTask(addr)}, lost)
  {
    SameEntriesTracked(es, work, lost, work - multiset{RmRpc(addr)} + multiset{InitTask(addr)}, lost);
  }

  lemma InitTaskToRpc(es: seq<Entry>, work: multiset<Token>, lost: set<string>, i: nat)
    requires AllTracked(es, work, lost) && i < |es|
    ensures AllTracked(es[i := es[i].(info := es[i].info.(state := Initing))],
                       work - multiset{InitTask(es[i].ip)} + multiset{InitRpc(es[i].ip)}, lost - {es[i].ip})
  {
    UpdateTracked(es, work, lost, work - multiset{InitTask(es[i].ip)} + multiset{InitRpc(es[i].ip)},
                  lost - {es[i].ip}, i, es[i].info.(state := Initing));
  }

  lemma RepairStarted(es: seq<Entry>, work: multiset<Token>, lost: set<string>, i: nat)
    requires AllTracked(es, work, lost) && i < |es|
    ensures AllTracked(es[i := es[i].(info := es[i].info.(state := Reinstalling))],
                       work + multiset{RmTask(es[i].info.ip)},
                       if es[i].info.ip == es[i].ip then lost - {es[i].ip} else lost + {es[i].ip})
  {
    UpdateTracked(es, work, lost, work + multiset{RmTask(es[i].info.ip)},
                  if es[i].info.ip == es[i].ip then lost - {es[i].ip} else lost + {es[i].ip}, i,
                  es[i].info.(state := Reinstalling));
  }

  /** Leaving the mid-chain states, with the tokens of the address itself free to change. */
  lemma Settled(es: seq<Entry>, work: multiset<Token>, lost: set<string>, i: nat, info: MinionInfo, t: Token)
    requires AllTracked(es, work, lost) && i < |es| && !MidChain(info.state)
    requires t.addr == es[i].ip
    ensures AllTracked(es[i := es[i].(info := info)], work, lost)
    ensures AllTracked(es[i := es[i].(info := info)], work - multiset{t}, lost)
  {
    UpdateTracked(es, work, lost, work, lost, i, info);
    UpdateTracked(es, work, lost, work - multiset{t}, lost, i, info);
  }

  /** New content with the old state. */
  lemma StateKept(es: seq<Entry>, work: multiset<Token>, lost: set<string>, i: nat, info: MinionInfo)
    requires AllTracked(es, work, lost) && i < |es| && info.state == es[i].info.state
    ensures AllTracked(es[i := es[i].(info := info)], work, lost)
  {
    assert EntryTracked(work, lost, es[i]);
    UpdateTracked(es, work, lost, work, lost, i, info);
  }

  lemma AliveInserted(es: seq<Entry>, work: multiset<Token>, lost: set<string>, e: Entry)
    requires AllTracked(es, work, lost) && e.info.state == Alive
    ensures AllTracked(Inserted(es, e), work, lost)
  {
    InsertedUnique(es, e);
    forall i | 0 <= i < |Inserted(es, e)| ensures EntryTracked(work, lost, Inserted(es, e)[i]) {
      assert i < |es| ==> EntryTracked(work, lost, es[i]);
    }
  }

  // ---------------------------------------------------------------- the handlers

  lemma ImportKeepsTracked(s: Ctrl, m: MinionInfo, stored: bool)
    requires Tracked(s)
    ensures Tracked(ImportMinionStep(s, m, stored))
  {
    match Lookup(s.entries, ById, m.id)
    case None =>
      var e := Entry(m.id, m.hostname, m.ip, m.(state := Alive));
      AliveInserted(s.entries, s.work, s.lost, e);
      TokenAdded(Inserted(s.entries, e), s.work, s.lost, InitTask(m.ip));
    case Some(i) =>
      var st := s.entries[i].info.state;
      if Quarantined(st) {
        Settled(s.entries, s.work, s.lost, i, m.(state := Alive), InitTask(s.entries[i].ip));
        TokenAdded(s.entries[i := s.entries[i].(info := m.(state := Alive))], s.work, s.lost, InitTask(m.ip));
      } else {
        StateKept(s.entries, s.work, s.lost, i, m.(state := st));
      }
  }

  lemma DeadReportKeepsTracked(s: Ctrl, addr: string)
    requires Tracked(s)
    ensures Tracked(DeadReportStep(s, addr))
  {
    var r := Lookup(s.entries, ByIp, addr);
    if r.Some? {
      RepairStarted(s.entries, s.work, s.lost, r.value);
    }
  }

  lemma ExportKeepsTracked(s: Ctrl, hostname: string, removed: bool)
    requires Tracked(s)
    ensures Tracked(ExportStep(s, hostname, removed))
  {
    var r := Lookup(s.entries, ByHostname, hostname);
    if r.Some? {
      var info := s.entries[r.value].info;
      Settled(s.entries, s.work, s.lost, r.value, info.(state := Del), InitTask(s.entries[r.value].ip));
      TokenAdded(s.entries[r.value := s.entries[r.value].(info := info.(state := Del))], s.work, s.lost, RmTask(info.ip));
    }
  }

  lemma RunInitKeepsTracked(s: Ctrl, addr: string)
    requires Tracked(s)
    ensures Tracked(RunInitStep(s, addr))
  {
    match Lookup(s.entries, ByIp, addr)
    case None => TokenSpent(s.entries, s.work, s.lost, InitTask(addr));
    case Some(i) =>
      if s.names.deploy in s.scripts {
        InitTaskToRpc(s.entries, s.work, s.lost, i);
      } else {
        TokenDropped(s.entries, s.work, s.lost, InitTask(addr));
      }
  }

  lemma RunRmKeepsTracked(s: Ctrl, addr: string)
    requires Tracked(s)
    ensures Tracked(RunRmStep(s, addr))
  {
    if Lookup(s.entries, ByIp, addr).None? {
      TokenSpent(s.entries, s.work, s.lost, RmTask(addr));
    } else {
      TokenDropped(s.entries, s.work, s.lost, RmTask(addr));
      RmTaskToRpc(s.entries, s.work, s.lost, addr);
    }
  }

  lemma RmReplyKeepsTracked(s: Ctrl, addr: string, ip: string, ok: bool)
    requires Tracked(s)
    ensures Tracked(RmReplyStep(s, addr, ip, ok))
  {
    var t := RmRpc(addr);
    TokenDropped(s.entries, s.work, s.lost, t);
    match Lookup(s.entries, ByIp, ip)
    case None => if ip == addr { TokenSpent(s.entries, s.work, s.lost, t); }
    case Some(i) =>
      var info := s.entries[i].info;
      if ok && info.state == Reinstalling {
        RmRpcToInitTask(s.entries, s.work, s.lost, addr);
      } else if ok && ip == addr {
        forall j | 0 <= j < |s.entries| && s.entries[j].ip == addr ensures s.entries[j].info.state != Reinstalling {
          LookupUnique(s.entries, ByIp, j);
        }
        TokenSpent(s.entries, s.work, s.lost, t);
      } else if !ok && ip == addr {
        Settled(s.entries, s.work, s.lost, i, info.(state := Error), t);
      } else if !ok {
        Settled(s.entries, s.work - multiset{t}, s.lost + {addr}, i, info.(state := Error), RmRpc(ip));
      }
  }

  lemma InitReplyKeepsTracked(s: Ctrl, addr: string, ip: string, ok: bool)
    requires Tracked(s)
    ensures Tracked(InitReplyStep(s, addr, ip, ok))
  {
    var t := InitRpc(addr);
    TokenDropped(s.entries, s.work, s.lost, t);
    match Lookup(s.entries, ByIp, ip)
    case None => if ip == addr { TokenSpent(s.entries, s.work, s.lost, t); }
    case Some(i) =>
      var info := s.entries[i].info.(state := if ok then Alive else Error);
      if ip == addr {
        Settled(s.entries, s.work, s.lost, i, info, t);
      } else {
        Settled(s.entries, s.work - multiset{t}, s.lost + {addr}, i, info, InitRpc(ip));
      }
  }

  lemma HealthKeepsTracked(s: Ctrl, ip: string, status: MinionStatus)
    requires Tracked(s)
    ensures Tracked(HealthStep(s, ip, status))
  {
    var r := Lookup(s.entries, ByIp, ip);
    if r.Some? {
      var info := s.entries[r.value].info.(status := status);
      StateKept(s.entries, s.work, s.lost, r.value, info);
      Settled(s.entries, s.work, s.lost, r.value, info.(state := Busy), InitTask(ip));
    }
  }

  lemma ExecKeepsTracked(s: Ctrl, e: Event)
    requires Tracked(s) && (e.ImportScript? || e.AddExec? || e.RunExec? || e.ExecReply?)
    ensures Tracked(Step(s, e))
  {
    match e
    case AddExec(hostname, cmd, script) =>
      var r := Lookup(s.entries, ByHostname, hostname);
      if r.Some? {
        TokenAdded(s.entries, s.work, s.lost, ExecTask(s.entries[r.value].info.ip, cmd, script));
      }
    case RunExec(addr, cmd, script) =>
      TokenSpent(s.entries, s.work, s.lost, ExecTask(addr, cmd, script));
      TokenAdded(s.entries, s.work - multiset{ExecTask(addr, cmd, script)}, s.lost, ExecRpc(addr));
    case ExecReply(addr) =>
      TokenSpent(s.entries, s.work, s.lost, ExecRpc(addr));
    case _ =>
  }

  lemma RestartKeepsTracked(s: Ctrl, minions: seq<string>, scriptNames: seq<string>)
    ensures Tracked(RestartStep(s, minions, scriptNames))
  {
    LoadUnique(minions, s.store);
  }

  lemma StepKeepsTracked(s: Ctrl, e: Event)
    requires Tracked(s)
    ensures Tracked(Step(s, e))
  {
    match e
    case ImportMinion(m, stored) => ImportKeepsTracked(s, m, stored);
    case ExportHost(hostname, removed) => ExportKeepsTracked(s, hostname, removed);
    case DeadReport(addr) => DeadReportKeepsTracked(s, addr);
    case RunRm(addr) => RunRmKeepsTracked(s, addr);
    case RunInit(addr) => RunInitKeepsTracked(s, addr);
    case RmReply(addr, ip, ok) => RmReplyKeepsTracked(s, addr, ip, ok);
    case InitReply(addr, ip, ok) => InitReplyKeepsTracked(s, addr, ip, ok);
    case Health(ip, status) => HealthKeepsTracked(s, ip, status);
    case Restart(minions, scriptNames) => RestartKeepsTracked(s, minions, scriptNames);
    case _ => ExecKeepsTracked(s, e);
  }

  /** Main result: in every state of every run, a mid-chain minion has its token or is recorded as lost. */
  lemma {:induction false} RunsStayTracked(s: Ctrl, es: seq<Event>)
    requires Tracked(s)
    ensures Tracked(Exec(s, es))
    decreases |es|
  {
    if es != [] {
      StepKeepsTracked(s, es[0]);
      RunsStayTracked(Step(s, es[0]), es[1..]);
    }
  }

  lemma BootedTracked(names: ScriptNames, store: map<string, MinionInfo>, scriptStore: map<string, string>,
                      minions: seq<string>, scriptNames: seq<string>)
    ensures Tracked(Booted(names, store, scriptStore, minions, scriptNames))
  {
    LoadUnique(minions, store);
  }

  // ---------------------------------------------------------------- what can lose a chain

  /** The step records the chain of the address as broken off. */
  ghost predicate Drops(s: Ctrl, e: Event, a: string) {
    match e
    case RunRm(addr) => addr == a && s.names.remove !in s.scripts && HasKey(s.entries, ByIp, a)
    case RunInit(addr) => addr == a && s.names.deploy !in s.scripts && HasKey(s.entries, ByIp, a)
    case RmReply(addr, ip, ok) => addr == a && ip != a && !(ok && HasState(s.entries, ip, Reinstalling))
    case InitReply(addr, ip, _) => addr == a && ip != a
    case DeadReport(addr) => addr == a && HasState(s.entries, a, Alive) && !HasMinion(s.entries, ByIp, a, a)
    case Restart(minions, _) =>
      var es := LoadMinions(minions, s.store);
      exists i :: 0 <= i < |es| && es[i].ip == a && es[i].info.state in {Reinstalling, Initing}
    case _ => false
  }

  /** The step starts a chain of the address afresh, or is a restart. */
  ghost predicate Restarts(s: Ctrl, e: Event, a: string) {
    match e
    case RunInit(addr) => addr == a && s.names.deploy in s.scripts && HasKey(s.entries, ByIp, a)
    case DeadReport(addr) => addr == a && HasState(s.entries, a, Alive)
    case Restart(_, _) => true
    case _ => false
  }

  /**
   The record of lost addresses is no excuse for anything else: an address enters it exactly when a script is
   missing, when a reply to a chain of it names another machine, when the repair is of a minion moved to another ip,
   or when it is loaded in the middle of a chain.
   */
  lemma LostTable(s: Ctrl, e: Event, a: string)
    requires UniqueKeys(s.entries)
    ensures a in Step(s, e).lost <==> Drops(s, e, a) || (a in s.lost && !Restarts(s, e, a))
  {
    hide ImportMinionStep, ExportStep, DeadReportStep, AddExecStep, RunRmStep, RunInitStep, RunExecStep, RmReplyStep;
    hide InitReplyStep, HealthStep, RestartStep, UniqueKeys;
    match e
    case DeadReport(addr) => DeadReportLost(s, addr, a);
    case RunRm(addr) => RunRmLost(s, addr, a);
    case RunInit(addr) => RunInitLost(s, addr, a);
    case RmReply(addr, ip, ok) => RmReplyLost(s, addr, ip, ok, a);
    case InitReply(addr, ip, ok) => InitReplyLost(s, addr, ip, ok, a);
    case Restart(minions, scriptNames) => RestartLost(s, minions, scriptNames, a);
    case _ => OthersLost(s, e);
  }

  lemma OthersLost(s: Ctrl, e: Event)
    requires !e.DeadReport? && !e.RunRm? && !e.RunInit? && !e.RmReply? && !e.InitReply? && !e.Restart?
    ensures Step(s, e).lost == s.lost
  {
    hide KeyOf;
  }

  lemma InitReplyLost(s: Ctrl, addr: string, ip: string, ok: bool, a: string)
    ensures a in InitReplyStep(s, addr, ip, ok).lost <==> Drops(s, InitReply(addr, ip, ok), a) || a in s.lost
  {
  }

  lemma RestartLost(s: Ctrl, minions: seq<string>, scriptNames: seq<string>, a: string)
    ensures a in RestartStep(s, minions, scriptNames).lost <==> Drops(s, Restart(minions, scriptNames), a)
  {
  }

  lemma DeadReportLost(s: Ctrl, addr: string, a: string)
    requires UniqueKeys(s.entries)
    ensures a in DeadReportStep(s, addr).lost
       <==> Drops(s, DeadReport(addr), a) || (a in s.lost && !Restarts(s, DeadReport(addr), a))
  {
    LookupIff(s.entries, ByIp, addr);
  }

  lemma RunRmLost(s: Ctrl, addr: string, a: string)
    ensures a in RunRmStep(s, addr).lost <==> Drops(s, RunRm(addr), a) || a in s.lost
  {
  }

  lemma RunInitLost(s: Ctrl, addr: string, a: string)
    ensures a in RunInitStep(s, addr).lost
       <==> Drops(s, RunInit(addr), a) || (a in s.lost && !Restarts(s, RunInit(addr), a))
  {
  }

  lemma RmReplyLost(s: Ctrl, addr: string, ip: string, ok: bool, a: string)
    requires UniqueKeys(s.entries)
    ensures a in RmReplyStep(s, addr, ip, ok).lost <==> Drops(s, RmReply(addr, ip, ok), a) || a in s.lost
  {
    LookupIff(s.entries, ByIp, ip);
  }

  /** Some step of the run drops the chain of the address, and no later one starts it afresh. */
  ghost predicate DroppedIn(s: Ctrl, es: seq<Event>, a: string)
    decreases |es|
  {
    es != [] && (DroppedIn(Step(s, es[0]), es[1..], a) || (Drops(s, es[0], a) && !RestartedIn(Step(s, es[0]), es[1..], a)))
  }

  ghost predicate RestartedIn(s: Ctrl, es: seq<Event>, a: string)
    decreases |es|
  {
    es != [] && (Restarts(s, es[0], a) || RestartedIn(Step(s, es[0]), es[1..], a))
  }

  /** Over runs, the record says exactly that a chain was dropped and not started afresh. */
  lemma {:induction false} LostIff(s: Ctrl, es: seq<Event>, a: string)
    requires UniqueKeys(s.entries)
    ensures a in Exec(s, es).lost <==> DroppedIn(s, es, a) || (a in s.lost && !RestartedIn(s, es, a))
    decreases |es|
  {
    if es != [] {
      hide Drops, Restarts, UniqueKeys;
      StepUnique(s, es[0]);
      LostTable(s, es[0], a);
      LostIff(Step(s, es[0]), es[1..], a);
    }
  }

  /**
   Main result in terms of events alone: from a state with nothing lost, a minion that ends up mid-chain without
   its token is at an address where some step of the run dropped the chain.
   */
  lemma StrandedOnlyByDrop(s: Ctrl, es: seq<Event>, i: nat)
    requires Tracked(s) && s.lost == {} && i < |Exec(s, es).entries|
    ensures var s' := Exec(s, es);
            HasChainToken(s'.work, s'.entries[i].ip, s'.entries[i].info.state) || DroppedIn(s, es, s'.entries[i].ip)
  {
    RunsStayTracked(s, es);
    var s' := Exec(s, es);
    assert EntryTracked(s'.work, s'.lost, s'.entries[i]);
    LostIff(s, es, s'.entries[i].ip);
  }

  // ---------------------------------------------------------------- when nothing is ever lost

  /** Imports keep the ip of a known id, replies carry the address that was called, and nothing crashes. */
  ghost predicate Smooth(s: Ctrl, e: Event) {
    match e
    case ImportMinion(_, _) => Keeps(s, e, ByIp)
    case RmReply(addr, ip, _) => ip == addr
    case InitReply(addr, ip, _) => ip == addr
    case Restart(_, _) => false
    case _ => true
  }

  ghost predicate SmoothRun(s: Ctrl, es: seq<Event>)
    decreases |es|
  {
    es == [] || (Smooth(s, es[0]) && SmoothRun(Step(s, es[0]), es[1..]))
  }

  /** Nothing is lost and both scripts are loaded. */
  ghost predicate Whole(s: Ctrl) {
    Tracked(s) && s.lost == {} && s.names.remove in s.scripts && s.names.deploy in s.scripts
  }

  ghost predicate Intact(s: Ctrl) {
    Whole(s) && Agree(s.entries, ByIp)
  }

  lemma ScriptsStay(s: Ctrl, e: Event)
    requires !e.Restart? && s.names.remove in s.scripts && s.names.deploy in s.scripts
    ensures Step(s, e).names == s.names && s.names.remove in Step(s, e).scripts && s.names.deploy in Step(s, e).scripts
  {
    NamesStay(s, e);
    ScriptTable(s, e, s.names.remove);
    ScriptTable(s, e, s.names.deploy);
  }

  lemma NamesStay(s: Ctrl, e: Event)
    ensures Step(s, e).names == s.names
  {
    hide KeyOf;
  }

  /** A smooth step, or any import, loses nothing, unless it is the repair of a minion that was moved to another ip. */
  lemma WholeStep(s: Ctrl, e: Event)
    requires Whole(s) && (Smooth(s, e) || e.ImportMinion?) && (e.DeadReport? ==> Agree(s.entries, ByIp))
    ensures Whole(Step(s, e))
  {
    StepKeepsTracked(s, e);
    ScriptsStay(s, e);
    forall a ensures a !in Step(s, e).lost {
      LostTable(s, e, a);
      SmoothDropsNothing(s, e, a);
    }
  }

  lemma SmoothDropsNothing(s: Ctrl, e: Event, a: string)
    requires (Smooth(s, e) || e.ImportMinion?) && s.names.remove in s.scripts && s.names.deploy in s.scripts
    requires e.DeadReport? ==> Agree(s.entries, ByIp)
    ensures !Drops(s, e, a)
  {
  }

  lemma IntactStep(s: Ctrl, e: Event)
    requires Intact(s) && Smooth(s, e)
    ensures Intact(Step(s, e))
  {
    WholeStep(s, e);
    AgreeIff(s, e, ByIp);
  }

  /**
   With both scripts loaded, no history is needed: over every smooth run a Reinstalling minion has a
   pending rm task, rm RPC or init task, and an Initing minion has an init RPC in flight.
   */
  lemma {:induction false} SmoothRunsNeverStrand(s: Ctrl, es: seq<Event>)
    requires Intact(s) && SmoothRun(s, es)
    ensures Intact(Exec(s, es))
    ensures forall i | 0 <= i < |Exec(s, es).entries| ::
              var e := Exec(s, es).entries[i];
              HasChainToken(Exec(s, es).work, e.ip, e.info.state)
    decreases |es|
  {
    if es == [] {
      forall i | 0 <= i < |s.entries| ensures HasChainToken(s.work, s.entries[i].ip, s.entries[i].info.state) {
        assert EntryTracked(s.work, s.lost, s.entries[i]);
      }
    } else {
      IntactStep(s, es[0]);
      SmoothRunsNeverStrand(Step(s, es[0]), es[1..]);
    }
  }
}
