/**
 Quarantine: a machine that was exported, failed a script or reported itself unhealthy stays out of
 service until an import names it, provided no deployment was already under way; and exactly then.
 */
module RepairQuarantine {
  import opened LumiaTypes
  import opened MinionRegistry
  import opened RepairProtocol
  import opened RepairDiagram
  import opened RepairLedger

  /** The entry at the address is out of service. */
  ghost predicate OutOfService(s: Ctrl, a: string) {
    exists i :: 0 <= i < |s.entries| && s.entries[i].ip == a && Quarantined(s.entries[i].info.state)
  }

  predicate DeployUnderWay(work: multiset<Token>, a: string) {
    InitTask(a) in work || InitRpc(a) in work
  }

  /**
   The step is not a stored import naming the machine's id or address, not a restart, and not a reply that was sent
   by one machine under the address of another.
   */
  ghost predicate Quiet(s: Ctrl, e: Event, a: string) {
    match e
    case ImportMinion(m, stored) =>
      stored ==> m.ip != a && forall i | 0 <= i < |s.entries| && s.entries[i].ip == a :: m.id != s.entries[i].id
    case RmReply(addr, ip, _) => Honest(s, addr, ip, a)
    case InitReply(addr, ip, _) => Honest(s, addr, ip, a)
    case Restart(_, _) => false
    case _ => true
  }

  /** As far as `a` is concerned, the reply names the address that was called, or no machine at all. */
  ghost predicate Honest(s: Ctrl, addr: string, ip: string, a: string) {
    (addr == a || ip == a) ==> addr == ip || Lookup(s.entries, ByIp, ip).None?
  }

  ghost predicate QuietRun(s: Ctrl, es: seq<Event>, a: string)
    decreases |es|
  {
    es == [] || (Enabled(s, es[0]) && Quiet(s, es[0], a) && QuietRun(Step(s, es[0]), es[1..], a))
  }

  /** A reply from an address that is out of service queues nothing, whatever it says. */
  lemma RmReplyQueuesNothing(s: Ctrl, a: string, ip: string, ok: bool, t: Token)
    requires UniqueKeys(s.entries) && OutOfService(s, a) && Honest(s, a, ip, a)
    ensures !Queues(s, RmReply(a, ip, ok), t)
  {
    var i :| 0 <= i < |s.entries| && s.entries[i].ip == a && Quarantined(s.entries[i].info.state);
    LookupIff(s.entries, ByIp, ip);
    assert KeyOf(s.entries[i], ByIp) == a;
  }

  /** No quiet step queues an init task or issues an init RPC for an address that is out of service. */
  lemma NoDeployStarted(s: Ctrl, e: Event, a: string)
    requires UniqueKeys(s.entries) && OutOfService(s, a) && !DeployUnderWay(s.work, a)
    requires Enabled(s, e) && Quiet(s, e, a)
    ensures !DeployUnderWay(Step(s, e).work, a) && !Queues(s, e, InitRpc(a))
  {
    hide OutOfService, UniqueKeys, Step, Lookup;
    WorkTable(s, e);
    if e.RmReply? && e.addr == a {
      RmReplyQueuesNothing(s, a, e.ip, e.ok, InitTask(a));
    }
    assert !Queues(s, e, InitTask(a)) && !Queues(s, e, InitRpc(a));
  }

  lemma StaysOut(s: Ctrl, e: Event, a: string)
    requires UniqueKeys(s.entries) && OutOfService(s, a) && !DeployUnderWay(s.work, a)
    requires Enabled(s, e) && Quiet(s, e, a)
    ensures OutOfService(Step(s, e), a)
  {
    var i :| 0 <= i < |s.entries| && s.entries[i].ip == a && Quarantined(s.entries[i].info.state);
    EntriesGrown(s, e);
    assert EntryMove(e, s.entries[i], Step(s, e).entries[i]);
    assert Step(s, e).entries[i].ip == a;
  }

  /**
   Main result, over every quiet run: the address stays out of service, no deployment is queued or in flight
   for it, and none is issued, whatever queries, exports, dead reports and rm replies arrive.
   */
  lemma {:induction false} QuarantineHolds(s: Ctrl, es: seq<Event>, a: string)
    requires UniqueKeys(s.entries) && OutOfService(s, a) && !DeployUnderWay(s.work, a)
    requires QuietRun(s, es, a)
    ensures OutOfService(Exec(s, es), a) && !DeployUnderWay(Exec(s, es).work, a)
    ensures InitIssued(s, es, a) == 0
    decreases |es|
  {
    if es != [] {
      NoDeployStarted(s, es[0], a);
      StaysOut(s, es[0], a);
      StepUnique(s, es[0]);
      QuarantineHolds(Step(s, es[0]), es[1..], a);
    }
  }

  lemma StateAt(s: Ctrl, a: string, i: nat, st: MinionState)
    requires UniqueKeys(s.entries) && i < |s.entries| && s.entries[i].ip == a && !Quarantined(st)
    ensures !OutOfService(s.(entries := WithState(s.entries, i, st)), a)
  {
    var s' := s.(entries := WithState(s.entries, i, st));
    forall j | 0 <= j < |s'.entries| && s'.entries[j].ip == a ensures j == i {
      assert j != i ==> Clash(s.entries[j], s.entries[i]) && Clash(s.entries[i], s.entries[j]);
    }
  }

  lemma OneQuietStep(s: Ctrl, e: Event, a: string)
    requires Enabled(s, e) && Quiet(s, e, a)
    ensures QuietRun(s, [e], a) && Exec(s, [e]) == Step(s, e)
  {
    hide Enabled, Quiet, Step;
    assert [e][1..] == [];
    assert Exec(Step(s, e), []) == Step(s, e);
  }

  lemma TwoQuietSteps(s: Ctrl, e: Event, f: Event, a: string)
    requires Enabled(s, e) && Quiet(s, e, a) && Enabled(Step(s, e), f) && Quiet(Step(s, e), f, a)
    ensures QuietRun(s, [e, f], a) && Exec(s, [e, f]) == Step(Step(s, e), f)
  {
    hide Enabled, Quiet, Step;
    assert [e, f][1..] == [f];
    OneQuietStep(Step(s, e), f, a);
  }

  /** With the init RPC of an exported machine still in flight, its reply puts the machine back in service. */
  lemma InFlightDeployRevives(s: Ctrl, a: string)
    requires UniqueKeys(s.entries) && OutOfService(s, a) && InitRpc(a) in s.work
    ensures QuietRun(s, [InitReply(a, a, true)], a)
    ensures !OutOfService(Exec(s, [InitReply(a, a, true)]), a)
  {
    var i := Lookup(s.entries, ByIp, a).value;
    StateAt(s, a, i, Alive);
    assert InitReplyStep(s, a, a, true).entries == WithState(s.entries, i, Alive);
    OneQuietStep(s, InitReply(a, a, true), a);
  }

  /** A queued init task does the same once the deploy script is there. */
  lemma QueuedDeployRevives(s: Ctrl, a: string, script: string)
    requires UniqueKeys(s.entries) && OutOfService(s, a) && InitTask(a) in s.work
    ensures QuietRun(s, [ImportScript(s.names.deploy, script, true), RunInit(a)], a)
    ensures !OutOfService(Exec(s, [ImportScript(s.names.deploy, script, true), RunInit(a)]), a)
  {
    var load, run := ImportScript(s.names.deploy, script, true), RunInit(a);
    var i := Lookup(s.entries, ByIp, a).value;
    var s1 := Step(s, load);
    StateAt(s1, a, i, Initing);
    assert RunInitStep(s1, a).entries == WithState(s1.entries, i, Initing);
    TwoQuietSteps(s, load, run, a);
  }

  /** Exactness: some quiet run brings the machine back if and only if a deployment was under way. */
  lemma QuarantineIff(s: Ctrl, a: string)
    requires UniqueKeys(s.entries) && OutOfService(s, a)
    ensures DeployUnderWay(s.work, a) <==> exists es :: QuietRun(s, es, a) && !OutOfService(Exec(s, es), a)
  {
    if InitRpc(a) in s.work {
      InFlightDeployRevives(s, a);
    } else if InitTask(a) in s.work {
      QueuedDeployRevives(s, a, "");
    } else {
      forall es | QuietRun(s, es, a) ensures OutOfService(Exec(s, es), a) {
        QuarantineHolds(s, es, a);
      }
    }
  }
}
