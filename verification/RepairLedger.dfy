/**
 Conservation over whole runs, counted in the events of the run: what was queued for an address against what
 was handled, and what was stored under an id against what is in the store.
 */
module RepairLedger {
  import opened LumiaTypes
  import opened MinionRegistry
  import opened RepairProtocol
  import opened RepairDiagram

  // ---------------------------------------------------------------- counting

  function CountIf(b: bool): nat { if b then 1 else 0 }

  /** How many steps of the run queue the token. */
  ghost function Queued(s: Ctrl, es: seq<Event>, t: Token): nat
    decreases |es|
  {
    if es == [] then 0 else CountIf(Queues(s, es[0], t)) + Queued(Step(s, es[0]), es[1..], t)
  }

  /** How many steps of the run handle the token. */
  function Handled(es: seq<Event>, t: Token): nat {
    if es == [] then 0 else CountIf(IsWork(es[0]) && Spends(es[0]) == t) + Handled(es[1..], t)
  }

  predicate HasRestart(es: seq<Event>) {
    es != [] && (es[0].Restart? || HasRestart(es[1..]))
  }

  /**
   Conservation of one kind of token: what is pending and what was handled is what was pending and what was queued.
   Only a restart loses any.
   */
  lemma {:induction false} TokensConserved(s: Ctrl, es: seq<Event>, t: Token)
    requires UniqueKeys(s.entries) && Legal(s, es)
    ensures Exec(s, es).work[t] + Handled(es, t) <= s.work[t] + Queued(s, es, t)
    ensures !HasRestart(es) ==> Exec(s, es).work[t] + Handled(es, t) == s.work[t] + Queued(s, es, t)
    decreases |es|
  {
    if es != [] {
      hide Queues, UniqueKeys;
      StepUnique(s, es[0]);
      TokensConserved(Step(s, es[0]), es[1..], t);
      if !es[0].Restart? {
        WorkTable(s, es[0]);
        assert Step(s, es[0]).work[t] + CountIf(IsWork(es[0]) && Spends(es[0]) == t) == s.work[t] + CountIf(Queues(s, es[0], t));
      }
    }
  }

  /** A task or reply is followed by its successor at most once each time it is handled. */
  lemma {:induction false} SuccessorsHandled(s: Ctrl, es: seq<Event>, t: Token)
    requires t.RmRpc? || t.InitRpc?
    ensures Queued(s, es, t) <= Handled(es, if t.RmRpc? then RmTask(t.addr) else InitTask(t.addr))
    decreases |es|
  {
    if es != [] {
      SuccessorsHandled(Step(s, es[0]), es[1..], t);
    }
  }

  /**
   Nothing survives a restart: over every run that begins with one, what is handled or pending was queued after it. No
   task and no reply of the process before it is ever handled.
   */
  lemma NothingSurvivesRestart(s: Ctrl, minions: seq<string>, scriptNames: seq<string>, es: seq<Event>, t: Token)
    requires Legal(s, [Restart(minions, scriptNames)] + es)
    ensures var s1 := Step(s, Restart(minions, scriptNames));
            Exec(s1, es).work[t] + Handled(es, t) <= Queued(s1, es, t)
  {
    var run := [Restart(minions, scriptNames)] + es;
    assert run[1..] == es;
    RestartBoots(s, minions, scriptNames);
    BootedIdle(s.names, s.store, s.scriptStore, minions, scriptNames);
    LoadUnique(minions, s.store);
    TokensConserved(Step(s, run[0]), es, t);
  }

  // ---------------------------------------------------------------- where chains come from

  /** The step turns a minion with the given ip from Alive to Reinstalling. */
  ghost predicate Repairs(s: Ctrl, e: Event, a: string) {
    exists i :: 0 <= i < |s.entries| && TurnsReinstalling(s.entries, Step(s, e).entries, i) && s.entries[i].info.ip == a
  }

  predicate TurnsReinstalling(es: seq<Entry>, es': seq<Entry>, i: nat) {
    i < |es| && i < |es'| && es[i].info.state == Alive && es'[i].info.state == Reinstalling
  }

  /** The step exports a host whose minion has the given ip. */
  ghost predicate Exports(s: Ctrl, e: Event, a: string) {
    e.ExportHost? && e.removed && s.names.remove in s.scripts && HasMinion(s.entries, ByHostname, e.hostname, a)
  }

  /** The step stores a minion with the given ip, whose id is new or out of service. */
  ghost predicate Imports(s: Ctrl, e: Event, a: string) {
    e.ImportMinion? && e.stored && e.m.ip == a
    && forall i | 0 <= i < |s.entries| && KeyOf(s.entries[i], ById) == e.m.id :: s.entries[i].info.state in {Del, Error, Busy}
  }

  ghost function Repaired(s: Ctrl, es: seq<Event>, a: string): nat
    decreases |es|
  {
    if es == [] then 0 else CountIf(!es[0].Restart? && Repairs(s, es[0], a)) + Repaired(Step(s, es[0]), es[1..], a)
  }

  ghost function Exported(s: Ctrl, es: seq<Event>, a: string): nat
    decreases |es|
  {
    if es == [] then 0 else CountIf(Exports(s, es[0], a)) + Exported(Step(s, es[0]), es[1..], a)
  }

  ghost function Imported(s: Ctrl, es: seq<Event>, a: string): nat
    decreases |es|
  {
    if es == [] then 0 else CountIf(Imports(s, es[0], a)) + Imported(Step(s, es[0]), es[1..], a)
  }

  /** A dead report queues an rm task exactly when it takes the minion with that ip from Alive to Reinstalling. */
  lemma RepairsQueue(s: Ctrl, e: Event, a: string)
    requires UniqueKeys(s.entries) && !e.Restart?
    ensures Repairs(s, e, a) <==> e.DeadReport? && Queues(s, e, RmTask(a))
  {
    hide Step, Queues, UniqueKeys;
    if e.DeadReport? && Queues(s, e, RmTask(a)) {
      DeadReportTurns(s, e.addr, a);
    }
    if i :| 0 <= i < |s.entries| && TurnsReinstalling(s.entries, Step(s, e).entries, i) && s.entries[i].info.ip == a {
      EntriesGrown(s, e);
      TurnReported(s, e, i, Step(s, e).entries);
    }
  }

  lemma TurnReported(s: Ctrl, e: Event, i: nat, es': seq<Entry>)
    requires Grown(e, s.entries, es') && TurnsReinstalling(s.entries, es', i)
    ensures e.DeadReport? && Queues(s, e, RmTask(s.entries[i].info.ip))
  {
    assert EntryMove(e, s.entries[i], es'[i]);
    assert KeyOf(s.entries[i], ByIp) == e.addr;
  }

  lemma DeadReportTurns(s: Ctrl, addr: string, a: string)
    requires UniqueKeys(s.entries)
    requires Queues(s, DeadReport(addr), RmTask(a))
    ensures Repairs(s, DeadReport(addr), a)
  {
    var i :| 0 <= i < |s.entries| && KeyOf(s.entries[i], ByIp) == addr && s.entries[i].info.state == Alive;
    var j :| 0 <= j < |s.entries| && KeyOf(s.entries[j], ByIp) == addr && s.entries[j].info.ip == a;
    LookupIff(s.entries, ByIp, addr);
    assert i == j;
    DeadReportStates(s, addr);
    assert TurnsReinstalling(s.entries, Step(s, DeadReport(addr)).entries, i);
  }

  /** Rm tasks come from repairs and exports only. */
  lemma {:induction false} RmTasksQueued(s: Ctrl, es: seq<Event>, a: string)
    requires UniqueKeys(s.entries)
    ensures Queued(s, es, RmTask(a)) == Repaired(s, es, a) + Exported(s, es, a)
    decreases |es|
  {
    if es != [] {
      hide UniqueKeys, Repairs;
      StepUnique(s, es[0]);
      RmTasksQueued(Step(s, es[0]), es[1..], a);
      if !es[0].Restart? {
        RepairsQueue(s, es[0], a);
      }
    }
  }

  /** Init tasks come from imports, and from good replies to rm RPCs, at most one each. */
  lemma {:induction false} InitTasksQueued(s: Ctrl, es: seq<Event>, a: string)
    ensures Queued(s, es, InitTask(a)) <= Imported(s, es, a) + Handled(es, RmRpc(a))
    decreases |es|
  {
    if es != [] {
      InitTasksQueued(Step(s, es[0]), es[1..], a);
    }
  }

  // ---------------------------------------------------------------- the law

  /** The rm RPCs and the init RPCs issued to an address over the run. */
  ghost function RmIssued(s: Ctrl, es: seq<Event>, a: string): nat { Queued(s, es, RmRpc(a)) }
  ghost function InitIssued(s: Ctrl, es: seq<Event>, a: string): nat { Queued(s, es, InitRpc(a)) }

  /**
   Main result, for every address over every run: removals issued never exceed what was queued at the start plus
   the moves from Alive to Reinstalling plus the exports; deployments never exceed what was in the chain at the
   start plus the imports plus the same. What is still pending at the end counts against the bound.
   */
  lemma NoRequestServedTwice(s: Ctrl, es: seq<Event>, a: string)
    requires UniqueKeys(s.entries) && Legal(s, es)
    ensures var w, w' := s.work, Exec(s, es).work;
            var sources := Repaired(s, es, a) + Exported(s, es, a);
            && RmIssued(s, es, a) + w'[RmTask(a)] <= w[RmTask(a)] + sources
            && InitIssued(s, es, a) + w'[InitTask(a)] + w'[RmRpc(a)] + w'[RmTask(a)]
               <= w[InitTask(a)] + w[RmRpc(a)] + w[RmTask(a)] + Imported(s, es, a) + sources
  {
    TokensConserved(s, es, RmTask(a));
    TokensConserved(s, es, RmRpc(a));
    TokensConserved(s, es, InitTask(a));
    SuccessorsHandled(s, es, RmRpc(a));
    SuccessorsHandled(s, es, InitRpc(a));
    RmTasksQueued(s, es, a);
    InitTasksQueued(s, es, a);
  }

  // ---------------------------------------------------------------- the store

  /** The last successful store operation of a run on an id. */
  datatype Write = Untouched | Stored(m: MinionInfo) | Removed

  ghost function LastWrite(s: Ctrl, es: seq<Event>, id: string): Write
    decreases |es|
  {
    if es == [] then Untouched
    else
      var later := LastWrite(Step(s, es[0]), es[1..], id);
      if later != Untouched then later
      else if es[0].ImportMinion? && es[0].stored && es[0].m.id == id then Stored(es[0].m)
      else if Deletes(s, es[0], id) then Removed
      else Untouched
  }

  /** The store holds, under every id, what the last successful operation on it left, restarts included. */
  lemma {:induction false} StoreIsLastWrite(s: Ctrl, es: seq<Event>, id: string)
    requires UniqueKeys(s.entries)
    ensures var store := Exec(s, es).store;
            match LastWrite(s, es, id)
            case Untouched => (id in store <==> id in s.store) && (id in store ==> store[id] == s.store[id])
            case Stored(m) => id in store && store[id] == m
            case Removed => id !in store
    decreases |es|
  {
    if es != [] {
      hide UniqueKeys, Deletes;
      StepUnique(s, es[0]);
      if !es[0].Restart? {
        StoreTable(s, es[0]);
        assert StoredAfter(s, es[0], id) == if id in Step(s, es[0]).store then Some(Step(s, es[0]).store[id]) else None;
      } else {
        assert !Deletes(s, es[0], id) by { RestartDeletesNothing(s, es[0], id); }
      }
      StoreIsLastWrite(Step(s, es[0]), es[1..], id);
    }
  }

  lemma RestartDeletesNothing(s: Ctrl, e: Event, id: string)
    ensures e.Restart? ==> !Deletes(s, e, id)
  {
  }

  /** The ids recorded as deleted are those whose last successful operation, since the process started, was a delete. */
  lemma {:induction false} DeletedIsLastWrite(s: Ctrl, es: seq<Event>, id: string)
    requires UniqueKeys(s.entries) && !HasRestart(es)
    ensures id in Exec(s, es).deleted <==>
            LastWrite(s, es, id) == Removed || (LastWrite(s, es, id) == Untouched && id in s.deleted)
    decreases |es|
  {
    if es != [] {
      hide UniqueKeys, Deletes;
      StepUnique(s, es[0]);
      DeletedTable(s, es[0], id);
      DeletedIsLastWrite(Step(s, es[0]), es[1..], id);
    }
  }
}
