/**
 When a machine is stranded in the middle of its chain: exactly which steps take away its last token, and
 that moving a known minion to another ip strands it, and only that does among smooth runs.
 */
module RepairStranding {
  import opened LumiaTypes
  import opened MinionRegistry
  import opened RepairProtocol
  import opened RepairDiagram
  import opened RepairSafety
  import opened RepairDrain

  // ---------------------------------------------------------------- one step

  function ChainTokens(work: multiset<Token>, a: string): nat {
    work[RmTask(a)] + work[RmRpc(a)] + work[InitTask(a)]
  }

  /** The step takes away the last token an entry depends on, or repairs it under an ip that is not its own. */
  ghost predicate BreaksOff(s: Ctrl, e: Event, o: Entry) {
    match e
    case RunRm(addr) =>
      && addr == o.ip && s.names.remove !in s.scripts
      && o.info.state == Reinstalling && ChainTokens(s.work, o.ip) == 1
    case RunInit(addr) =>
      && addr == o.ip && s.names.deploy !in s.scripts
      && o.info.state == Reinstalling && ChainTokens(s.work, o.ip) == 1
    case RmReply(addr, ip, ok) =>
      && addr == o.ip && ip != o.ip && !(ok && HasState(s.entries, ip, Reinstalling))
      && o.info.state == Reinstalling && ChainTokens(s.work, o.ip) == 1
    case InitReply(addr, ip, _) =>
      addr == o.ip && ip != o.ip && o.info.state == Initing && s.work[InitRpc(o.ip)] == 1
    case DeadReport(addr) =>
      addr == o.ip && o.info.ip != o.ip && o.info.state == Alive && ChainTokens(s.work, o.ip) == 0
    case _ => false
  }

  lemma ReinstallingHas(work: multiset<Token>, a: string)
    ensures HasChainToken(work, a, Reinstalling) <==> ChainTokens(work, a) > 0
  {
  }

  /** Exactly these steps, in every state, leave a minion mid-chain without a token that had one before. */
  lemma BreaksOffIff(s: Ctrl, e: Event, i: nat)
    requires UniqueKeys(s.entries) && Enabled(s, e) && !e.Restart? && i < |s.entries|
    requires HasChainToken(s.work, s.entries[i].ip, s.entries[i].info.state)
    ensures var s' := Step(s, e);
            && i < |s'.entries| && s'.entries[i].ip == s.entries[i].ip
            && (!HasChainToken(s'.work, s'.entries[i].ip, s'.entries[i].info.state) <==> BreaksOff(s, e, s.entries[i]))
  {
    StateTable(s, e);
    WorkTable(s, e);
    TokenCounts(s, e, Step(s, e).work, s.entries[i].ip);
    TablesBreakOff(s, e, i, Step(s, e).work, After(s, e, s.entries[i]).state);
  }

  /** The four tokens of an address, read off the token table. */
  ghost predicate Counts(s: Ctrl, e: Event, work': multiset<Token>, t: Token) {
    work'[t] + (if IsWork(e) && t == Spends(e) then 1 else 0) == s.work[t] + (if Queues(s, e, t) then 1 else 0)
  }

  lemma TokenCounts(s: Ctrl, e: Event, work': multiset<Token>, a: string)
    requires WorkMoves(s, e, work')
    ensures Counts(s, e, work', RmTask(a)) && Counts(s, e, work', RmRpc(a))
    ensures Counts(s, e, work', InitTask(a)) && Counts(s, e, work', InitRpc(a))
  {
  }

  lemma TablesBreakOff(s: Ctrl, e: Event, i: nat, work': multiset<Token>, st: MinionState)
    requires UniqueKeys(s.entries) && Enabled(s, e) && !e.Restart? && i < |s.entries|
    requires HasChainToken(s.work, s.entries[i].ip, s.entries[i].info.state)
    requires st == After(s, e, s.entries[i]).state
    requires Counts(s, e, work', RmTask(s.entries[i].ip)) && Counts(s, e, work', RmRpc(s.entries[i].ip))
    requires Counts(s, e, work', InitTask(s.entries[i].ip)) && Counts(s, e, work', InitRpc(s.entries[i].ip))
    ensures !HasChainToken(work', s.entries[i].ip, st) <==> BreaksOff(s, e, s.entries[i])
  {
    var o := s.entries[i];
    ReinstallingHas(s.work, o.ip);
    ReinstallingHas(work', o.ip);
    assert KeyOf(o, ByIp) == o.ip;
    if e.DeadReport? && e.addr == o.ip && o.info.state == Alive {
      ReportQueues(s, i);
    }
  }

  /** The rm task of a repair is queued for the ip in the record. */
  lemma ReportQueues(s: Ctrl, i: nat)
    requires UniqueKeys(s.entries) && i < |s.entries| && s.entries[i].info.state == Alive
    ensures forall a :: Queues(s, DeadReport(s.entries[i].ip), RmTask(a)) <==> a == s.entries[i].info.ip
  {
    LookupIff(s.entries, ByIp, s.entries[i].ip);
    assert KeyOf(s.entries[i], ByIp) == s.entries[i].ip;
  }

  // ---------------------------------------------------------------- runs

  /** `es` can happen from `s`, smoothly, and leads to `s'`. */
  ghost predicate Reaches(s: Ctrl, es: seq<Event>, s': Ctrl) {
    Legal(s, es) && SmoothRun(s, es) && Exec(s, es) == s'
  }

  lemma ReachesStep(s: Ctrl, e: Event)
    requires Enabled(s, e) && Smooth(s, e)
    ensures Reaches(s, [e], Step(s, e))
  {
    hide Enabled, Smooth, Step;
    assert [e][1..] == [];
    assert Legal(Step(s, e), []) && SmoothRun(Step(s, e), []) && Exec(Step(s, e), []) == Step(s, e);
  }

  lemma {:induction false} ReachesThen(s: Ctrl, es: seq<Event>, s': Ctrl, fs: seq<Event>, s'': Ctrl)
    requires Reaches(s, es, s') && Reaches(s', fs, s'')
    ensures Reaches(s, es + fs, s'')
    decreases |es|
  {
    hide Enabled, Smooth, Step;
    if es == [] {
      assert es + fs == fs;
    } else {
      assert (es + fs)[1..] == es[1..] + fs;
      ReachesThen(Step(s, es[0]), es[1..], s', fs, s'');
    }
  }

  // ---------------------------------------------------------------- a minion moved to another ip

  /** The entry is behind the given ip in the index, its record has the other. */
  ghost predicate At(s: Ctrl, i: nat, ip: string, recordIp: string) {
    i < |s.entries| && s.entries[i].ip == ip && s.entries[i].info.ip == recordIp
  }

  lemma {:induction false} WorkKeepsPlace(s: Ctrl, es: seq<Event>, i: nat, ip: string, recordIp: string)
    requires Whole(s) && At(s, i, ip, recordIp) && SmoothRun(s, es) && forall j | 0 <= j < |es| :: IsWork(es[j])
    ensures Whole(Exec(s, es)) && At(Exec(s, es), i, ip, recordIp)
    decreases |es|
  {
    hide Whole, Smooth, Step;
    if es != [] {
      WholeStep(s, es[0]);
      EntriesGrown(s, es[0]);
      assert EntryMove(es[0], s.entries[i], Step(s, es[0]).entries[i]);
      WorkKeepsPlace(Step(s, es[0]), es[1..], i, ip, recordIp);
    }
  }

  lemma DrainedIsSettled(s: Ctrl, i: nat)
    requires Tracked(s) && s.lost == {} && s.work == multiset{} && i < |s.entries|
    ensures !MidChain(s.entries[i].info.state)
  {
    assert EntryTracked(s.work, s.lost, s.entries[i]);
  }

  /** A string longer than every id, and so none of them. */
  function FreshId(es: seq<Entry>): string {
    if es == [] then "" else FreshId(es[..|es| - 1]) + es[|es| - 1].id + "+"
  }

  lemma {:induction false} FreshIdIsNew(es: seq<Entry>, i: nat)
    requires i < |es|
    ensures |FreshId(es)| > |es[i].id|
  {
    if i < |es| - 1 {
      FreshIdIsNew(es[..|es| - 1], i);
    }
  }

  /** From a drained state any known machine can be put into service: an import under its ip queues an init task. */
  lemma PutInService(s: Ctrl, i: nat, ip: string, recordIp: string) returns (es: seq<Event>, s': Ctrl)
    requires Whole(s) && At(s, i, ip, recordIp) && s.work == multiset{}
    ensures Reaches(s, es, s') && Whole(s') && At(s', i, ip, recordIp)
    ensures s'.work == multiset{} && s'.entries[i].info.state == Alive
  {
    var m := s.entries[i].info.(id := FreshId(s.entries), ip := ip);
    var e1, e2, e3 := ImportMinion(m, true), RunInit(ip), InitReply(ip, ip, true);
    var s1 := ImportUnderIp(s, i, m);
    var s2 := InitAt(s1, i, ip);
    s' := AliveAt(s2, i, ip);
    ReachesStep(s, e1);
    ReachesStep(s1, e2);
    ReachesStep(s2, e3);
    ReachesThen(s, [e1], s1, [e2], s2);
    ReachesThen(s, [e1] + [e2], s2, [e3], s');
    es := [e1] + [e2] + [e3];
  }

  lemma ImportUnderIp(s: Ctrl, i: nat, m: MinionInfo) returns (s': Ctrl)
    requires Whole(s) && i < |s.entries| && s.work == multiset{}
    requires m.id == FreshId(s.entries) && m.ip == s.entries[i].ip
    ensures s' == Step(s, ImportMinion(m, true)) && Smooth(s, ImportMinion(m, true))
    ensures Whole(s') && s'.entries == s.entries && s'.work == multiset{InitTask(m.ip)}
  {
    s' := Step(s, ImportMinion(m, true));
    WholeStep(s, ImportMinion(m, true));
    forall j | 0 <= j < |s.entries| ensures s.entries[j].id != m.id {
      FreshIdIsNew(s.entries, j);
    }
    assert Clash(s.entries[i], Entry(m.id, m.hostname, m.ip, m.(state := Alive)));
    assert KeyOf(s.entries[i], ById) == s.entries[i].id;
  }

  lemma InitAt(s: Ctrl, i: nat, ip: string) returns (s': Ctrl)
    requires Whole(s) && i < |s.entries| && s.entries[i].ip == ip && s.work == multiset{InitTask(ip)}
    ensures s' == Step(s, RunInit(ip)) && Whole(s') && s'.entries == WithState(s.entries, i, Initing)
    ensures s'.work == multiset{InitRpc(ip)}
  {
    s' := Step(s, RunInit(ip));
    WholeStep(s, RunInit(ip));
    LookupUnique(s.entries, ByIp, i);
  }

  lemma AliveAt(s: Ctrl, i: nat, ip: string) returns (s': Ctrl)
    requires Whole(s) && i < |s.entries| && s.entries[i].ip == ip && s.work == multiset{InitRpc(ip)}
    ensures s' == Step(s, InitReply(ip, ip, true)) && Whole(s') && s'.entries == WithState(s.entries, i, Alive)
    ensures s'.work == multiset{}
  {
    s' := Step(s, InitReply(ip, ip, true));
    WholeStep(s, InitReply(ip, ip, true));
    LookupUnique(s.entries, ByIp, i);
  }

  /** The repair of a moved machine that is in service, everything else being settled. */
  lemma RepairGoesElsewhere(s: Ctrl, i: nat, ip: string, recordIp: string) returns (es: seq<Event>, s': Ctrl)
    requires Whole(s) && At(s, i, ip, recordIp) && ip != recordIp
    requires s.work == multiset{} && s.entries[i].info.state == Alive
    ensures Reaches(s, es, s') && At(s', i, ip, recordIp)
    ensures s'.work == multiset{} && s'.entries[i].info.state == Reinstalling
  {
    var e1, e2, e3 := DeadReport(ip), RunRm(recordIp), RmReply(recordIp, recordIp, true);
    var s1 := ReportedAt(s, i, ip, recordIp);
    ReachesStep(s, e1);
    var s2 := Step(s1, e2);
    ReachesStep(s1, e2);
    ReachesThen(s, [e1], s1, [e2], s2);
    RmElsewhere(s1, recordIp);
    if s2.work == multiset{} {
      es, s' := [e1] + [e2], s2;
    } else {
      forall j | 0 <= j < |s2.entries| && s2.entries[j].ip == recordIp ensures s2.entries[j].info.state != Reinstalling {
        DrainedIsSettled(s, j);
      }
      ReplyElsewhere(s2, recordIp);
      s' := Step(s2, e3);
      ReachesStep(s2, e3);
      ReachesThen(s, [e1] + [e2], s2, [e3], s');
      es := [e1] + [e2] + [e3];
    }
  }

  lemma ReportedAt(s: Ctrl, i: nat, ip: string, recordIp: string) returns (s': Ctrl)
    requires UniqueKeys(s.entries) && At(s, i, ip, recordIp) && s.work == multiset{} && s.entries[i].info.state == Alive
    ensures s' == Step(s, DeadReport(ip)) && s'.entries == WithState(s.entries, i, Reinstalling)
    ensures s'.work == multiset{RmTask(recordIp)} && s'.names == s.names && s'.scripts == s.scripts
  {
    s' := Step(s, DeadReport(ip));
    LookupUnique(s.entries, ByIp, i);
  }

  lemma RmElsewhere(s: Ctrl, a: string)
    requires s.work == multiset{RmTask(a)}
    ensures var s' := Step(s, RunRm(a));
            s'.entries == s.entries && (s'.work == multiset{} || s'.work == multiset{RmRpc(a)})
  {
  }

  lemma ReplyElsewhere(s: Ctrl, a: string)
    requires s.work == multiset{RmRpc(a)}
    requires forall j | 0 <= j < |s.entries| && s.entries[j].ip == a :: s.entries[j].info.state != Reinstalling
    ensures var s' := Step(s, RmReply(a, a, true)); s'.entries == s.entries && s'.work == multiset{}
  {
    var r := Lookup(s.entries, ByIp, a);
    assert r.Some? ==> KeyOf(s.entries[r.value], ByIp) == s.entries[r.value].ip;
  }

  /**
   A machine whose record has another ip than the index can be stranded, whatever else is pending and whether or not
   another machine has the new ip: a smooth run leaves it Reinstalling with no task and no RPC pending at all.
   */
  lemma MovedMinionStrands(s: Ctrl, i: nat, ip: string, recordIp: string) returns (es: seq<Event>, s': Ctrl)
    requires Whole(s) && At(s, i, ip, recordIp) && ip != recordIp
    ensures Reaches(s, es, s') && At(s', i, ip, recordIp)
    ensures s'.work == multiset{} && s'.entries[i].info.state == Reinstalling
  {
    var drain := CanDrain(s);
    var d := Exec(s, drain);
    WorkKeepsPlace(s, drain, i, ip, recordIp);
    var alive, s1 := PutInService(d, i, ip, recordIp);
    ReachesThen(s, drain, d, alive, s1);
    var repair, s2 := RepairGoesElsewhere(s1, i, ip, recordIp);
    ReachesThen(s, drain + alive, s1, repair, s2);
    es, s' := drain + alive + repair, s2;
  }

  /** A minion at the address is mid-chain, and nothing pending will move it on. */
  ghost predicate Stranded(s: Ctrl, a: string) {
    exists i :: 0 <= i < |s.entries| && s.entries[i].ip == a && !HasChainToken(s.work, a, s.entries[i].info.state)
  }

  ghost predicate CanStrand(s: Ctrl, a: string) {
    exists es :: Legal(s, es) && SmoothRun(s, es) && Stranded(Exec(s, es), a)
  }

  lemma ImportMoves(s: Ctrl, m: MinionInfo, i: nat)
    requires UniqueKeys(s.entries) && i < |s.entries| && m.id == s.entries[i].id
    ensures At(Step(s, ImportMinion(m, true)), i, s.entries[i].ip, m.ip)
  {
    StateTable(s, ImportMinion(m, true));
  }

  /**
   Main result, the exact condition: after the import of a known id, in any state with both scripts loaded and nothing
   lost, its machine can be stranded by a smooth run if and only if the import changed its ip.
   */
  lemma MovedIffStrands(s: Ctrl, m: MinionInfo, i: nat)
    requires Intact(s) && i < |s.entries| && m.id == s.entries[i].id
    ensures m.ip != s.entries[i].ip <==> CanStrand(Step(s, ImportMinion(m, true)), s.entries[i].ip)
  {
    var e := ImportMinion(m, true);
    var a, s1 := s.entries[i].ip, Step(s, e);
    if m.ip != a {
      WholeStep(s, e);
      ImportMoves(s, m, i);
      var es, s' := MovedMinionStrands(s1, i, a, m.ip);
      assert !HasChainToken(s'.work, a, s'.entries[i].info.state);
      assert Stranded(s', a);
    } else {
      forall j | 0 <= j < |s.entries| && s.entries[j].id == m.id ensures j == i {
        LookupUnique(s.entries, ById, j);
        LookupUnique(s.entries, ById, i);
      }
      IntactStep(s, e);
      forall es | Legal(s1, es) && SmoothRun(s1, es) ensures !Stranded(Exec(s1, es), a) {
        SmoothRunsNeverStrand(s1, es);
      }
    }
  }
}
