/**
 Whether the keys of an entry, fixed when it was inserted, agree with the id, hostname and ip of the minion
 behind it, which an import of a known id overwrites.
 */
module RepairIdentity {
  import opened LumiaTypes
  import opened MinionRegistry
  import opened RepairProtocol
  import opened RepairDiagram

  function InfoKey(m: MinionInfo, k: Key): string {
    match k
    case ById => m.id
    case ByHostname => m.hostname
    case ByIp => m.ip
  }

  ghost predicate Agree(es: seq<Entry>, k: Key) {
    forall i | 0 <= i < |es| :: InfoKey(es[i].info, k) == KeyOf(es[i], k)
  }

  /** A stored import keeps the key of a known id; for the id itself this says nothing. */
  ghost predicate Keeps(s: Ctrl, e: Event, k: Key) {
    e.ImportMinion? && e.stored ==>
      forall i | 0 <= i < |s.entries| && s.entries[i].id == e.m.id :: InfoKey(e.m, k) == KeyOf(s.entries[i], k)
  }

  lemma {:induction false} LoadAgrees(ids: seq<string>, store: map<string, MinionInfo>, k: Key)
    ensures Agree(LoadMinions(ids, store), k)
  {
    if ids != [] {
      LoadAgrees(ids[..|ids| - 1], store, k);
    }
  }

  /** Every event but one keeps the agreement, and that one exactly when it keeps the key. */
  lemma AgreeIff(s: Ctrl, e: Event, k: Key)
    requires UniqueKeys(s.entries) && Agree(s.entries, k)
    ensures Agree(Step(s, e).entries, k) <==> Keeps(s, e, k)
  {
    if e.Restart? {
      LoadAgrees(e.minions, s.store, k);
    } else {
      StateTable(s, e);
      EntriesGrown(s, e);
      TableAgrees(s, e, Step(s, e).entries, k);
    }
  }

  lemma TableAgrees(s: Ctrl, e: Event, es': seq<Entry>, k: Key)
    requires Agree(s.entries, k) && EntriesMove(s, e, es') && Grown(e, s.entries, es')
    ensures Agree(es', k) <==> Keeps(s, e, k)
  {
    hide Quarantined;
    if Agree(es', k) && e.ImportMinion? && e.stored {
      forall i | 0 <= i < |s.entries| && s.entries[i].id == e.m.id ensures InfoKey(e.m, k) == KeyOf(s.entries[i], k) {
        assert InfoKey(es'[i].info, k) == KeyOf(es'[i], k);
      }
    }
  }

  ghost predicate KeepsRun(s: Ctrl, es: seq<Event>, k: Key)
    decreases |es|
  {
    es == [] || (Keeps(s, es[0], k) && KeepsRun(Step(s, es[0]), es[1..], k))
  }

  ghost predicate AlwaysAgree(s: Ctrl, es: seq<Event>, k: Key)
    decreases |es|
  {
    Agree(s.entries, k) && (es == [] || AlwaysAgree(Step(s, es[0]), es[1..], k))
  }

  /** The key agrees throughout a run, restarts and any replies included, if and only if no import changes it for a known id. */
  lemma {:induction false} RunsAgreeIff(s: Ctrl, es: seq<Event>, k: Key)
    requires UniqueKeys(s.entries) && Agree(s.entries, k)
    ensures AlwaysAgree(s, es, k) <==> KeepsRun(s, es, k)
    decreases |es|
  {
    if es != [] {
      StepUnique(s, es[0]);
      AgreeIff(s, es[0], k);
      if Keeps(s, es[0], k) {
        RunsAgreeIff(Step(s, es[0]), es[1..], k);
      }
    }
  }

  lemma {:induction false} AgreesAtEnd(s: Ctrl, es: seq<Event>, k: Key)
    requires AlwaysAgree(s, es, k)
    ensures Agree(Exec(s, es).entries, k)
    decreases |es|
  {
    if es != [] {
      AgreesAtEnd(Step(s, es[0]), es[1..], k);
    }
  }

  lemma {:induction false} IdsAlwaysKept(s: Ctrl, es: seq<Event>)
    ensures KeepsRun(s, es, ById)
    decreases |es|
  {
    if es != [] {
      IdsAlwaysKept(Step(s, es[0]), es[1..]);
    }
  }

  /** Over every run the id of an entry is the id of its minion. */
  lemma RunsIdsAgree(s: Ctrl, es: seq<Event>)
    requires UniqueKeys(s.entries) && Agree(s.entries, ById)
    ensures Agree(Exec(s, es).entries, ById)
  {
    IdsAlwaysKept(s, es);
    RunsAgreeIff(s, es, ById);
    AgreesAtEnd(s, es, ById);
  }

  lemma BootedAgrees(names: ScriptNames, store: map<string, MinionInfo>, scriptStore: map<string, string>,
                     minions: seq<string>, scriptNames: seq<string>, k: Key)
    ensures var s := Booted(names, store, scriptStore, minions, scriptNames);
            UniqueKeys(s.entries) && Agree(s.entries, k)
  {
    LoadUnique(minions, store);
    LoadAgrees(minions, store, k);
  }
}
