/**
 Restart recovery: what the controller holds in memory and what the nexus store holds stay in step over
 every run, and a reload after a crash rebuilds exactly the durable part.
 */
module Recovery {
  import opened LumiaTypes
  import opened MinionRegistry
  import opened RepairProtocol

  ghost predicate HasId(es: seq<Entry>, id: string) {
    exists i :: 0 <= i < |es| && es[i].id == id
  }

  predicate SameKeys(e: Entry, m: MinionInfo) {
    e.id == m.id && e.hostname == m.hostname && e.ip == m.ip
  }

  ghost predicate KeysAgree(es: seq<Entry>) {
    forall i | 0 <= i < |es| :: SameKeys(es[i], es[i].info)
  }

  /** Within the scan range, the stored ids are those in memory whose last store operation was no delete. */
  ghost predicate IdsInStep(es: seq<Entry>, store: map<string, MinionInfo>, deleted: set<string>) {
    forall id | MinionInRange(id) :: id in store <==> HasId(es, id) && id !in deleted
  }

  /** A stored record carries the keys of the entry in memory. */
  ghost predicate RecordsInStep(es: seq<Entry>, store: map<string, MinionInfo>) {
    forall i | 0 <= i < |es| && MinionInRange(es[i].id) && es[i].id in store :: SameKeys(es[i], store[es[i].id])
  }

  ghost predicate ScriptsInStep(scripts: map<string, string>, table: map<string, string>) {
    forall name | ScriptInRange(name) ::
      (name in scripts <==> name in table) && (name in scripts ==> scripts[name] == table[name])
  }

  ghost predicate Durable(s: Ctrl) {
    && UniqueKeys(s.entries)
    && KeysAgree(s.entries)
    && IdsInStep(s.entries, s.store, s.deleted)
    && RecordsInStep(s.entries, s.store)
    && ScriptsInStep(s.scripts, s.scriptStore)
  }

  /** A known id keeps its hostname and ip, a new id brings a hostname and an ip that nobody has. */
  ghost predicate ConflictFree(s: Ctrl, m: MinionInfo) {
    match Lookup(s.entries, ById, m.id)
    case None => !Conflicts(s.entries, Entry(m.id, m.hostname, m.ip, m))
    case Some(i) => SameKeys(s.entries[i], m)
  }

  // ---------------------------------------------------------------- one step

  predicate TablesKept(s: Ctrl, s': Ctrl) {
    && s'.store == s.store && s'.deleted == s.deleted
    && s'.scripts == s.scripts && s'.scriptStore == s.scriptStore
  }

  lemma RunRmKeepsTables(s: Ctrl, addr: string)
    ensures TablesKept(s, RunRmStep(s, addr))
  {
    hide KeyOf;
  }

  lemma RunInitKeepsTables(s: Ctrl, addr: string)
    ensures TablesKept(s, RunInitStep(s, addr))
  {
    hide KeyOf, WithState;
  }

  lemma RunExecKeepsTables(s: Ctrl, addr: string, cmd: string, script: string)
    ensures TablesKept(s, RunExecStep(s, addr, cmd, script))
  {
  }

  lemma RepliesKeepTables(s: Ctrl, addr: string, ip: string, ok: bool)
    ensures TablesKept(s, RmReplyStep(s, addr, ip, ok)) && TablesKept(s, InitReplyStep(s, addr, ip, ok))
  {
  }

  lemma DeadReportKeepsTables(s: Ctrl, addr: string)
    ensures TablesKept(s, DeadReportStep(s, addr))
  {
  }

  lemma HealthKeepsTables(s: Ctrl, ip: string, status: MinionStatus)
    ensures TablesKept(s, HealthStep(s, ip, status))
  {
  }

  lemma OtherTablesKept(s: Ctrl, e: Event)
    requires !e.ImportMinion? && !e.ExportHost? && !e.ImportScript? && !e.Restart?
    ensures TablesKept(s, Step(s, e))
  {
    match e
    case RunRm(addr) => RunRmKeepsTables(s, addr);
    case RunInit(addr) => RunInitKeepsTables(s, addr);
    case RunExec(addr, cmd, script) => RunExecKeepsTables(s, addr, cmd, script);
    case RmReply(addr, ip, ok) => RepliesKeepTables(s, addr, ip, ok);
    case InitReply(addr, ip, ok) => RepliesKeepTables(s, addr, ip, ok);
    case DeadReport(addr) => DeadReportKeepsTables(s, addr);
    case Health(ip, status) => HealthKeepsTables(s, ip, status);
    case _ =>
  }

  /** Without an import nothing moves in the key columns. */
  lemma MovesKeepInStep(e: Event, es: seq<Entry>, es': seq<Entry>, store: map<string, MinionInfo>, deleted: set<string>)
    requires Grown(e, es, es') && !e.ImportMinion?
    requires KeysAgree(es) && IdsInStep(es, store, deleted) && RecordsInStep(es, store)
    ensures KeysAgree(es') && IdsInStep(es', store, deleted) && RecordsInStep(es', store)
  {
    forall i | 0 <= i < |es'|
      ensures SameKeys(es'[i], es'[i].info) && es'[i].id == es[i].id
      ensures es'[i].hostname == es[i].hostname && es'[i].ip == es[i].ip
    {
      assert EntryMove(e, es[i], es'[i]) && SameKeys(es[i], es[i].info);
    }
    forall id ensures HasId(es, id) <==> HasId(es', id) {
      if i :| 0 <= i < |es| && es[i].id == id {
        assert es'[i].id == id;
      }
    }
  }

  lemma DeleteKeepsInStep(es: seq<Entry>, store: map<string, MinionInfo>, deleted: set<string>, i: nat)
    requires IdsInStep(es, store, deleted) && RecordsInStep(es, store) && i < |es|
    ensures IdsInStep(es, store - {es[i].id}, deleted + {es[i].id}) && RecordsInStep(es, store - {es[i].id})
  {
  }

  lemma ExportKeepsDurable(s: Ctrl, hostname: string, removed: bool)
    requires Durable(s)
    ensures Durable(ExportStep(s, hostname, removed))
  {
    var e := ExportHost(hostname, removed);
    var s' := ExportStep(s, hostname, removed);
    RequestGrown(s, e);
    GrownUnique(e, s.entries, s'.entries);
    MovesKeepInStep(e, s.entries, s'.entries, s.store, s.deleted);
    var r := Lookup(s.entries, ByHostname, hostname);
    if r.Some? && s.names.remove in s.scripts {
      assert SameKeys(s.entries[r.value], s.entries[r.value].info);
      DeleteKeepsInStep(s'.entries, s.store, s.deleted, r.value);
    }
  }

  lemma KnownImportKeepsInStep(es: seq<Entry>, store: map<string, MinionInfo>, deleted: set<string>, i: nat,
                               m: MinionInfo, st: MinionState)
    requires UniqueKeys(es) && KeysAgree(es) && IdsInStep(es, store, deleted) && RecordsInStep(es, store)
    requires i < |es| && SameKeys(es[i], m)
    ensures var es', store' := es[i := es[i].(info := m.(state := st))], store[m.id := m];
            && UniqueKeys(es') && KeysAgree(es')
            && IdsInStep(es', store', deleted - {m.id}) && RecordsInStep(es', store')
  {
    var es' := es[i := es[i].(info := m.(state := st))];
    UpdateUnique(es, i, m.(state := st));
    forall id ensures HasId(es, id) <==> HasId(es', id) {
      if j :| 0 <= j < |es| && es[j].id == id {
        assert es'[j].id == id;
      }
      if j :| 0 <= j < |es'| && es'[j].id == id {
        assert es[j].id == id;
      }
    }
    assert HasId(es, m.id);
    forall j | 0 <= j < |es'| && es'[j].id == m.id ensures j == i {
      LookupUnique(es, ById, j);
      LookupUnique(es, ById, i);
    }
  }

  lemma NewImportKeepsInStep(es: seq<Entry>, store: map<string, MinionInfo>, deleted: set<string>, m: MinionInfo,
                             st: MinionState)
    requires UniqueKeys(es) && KeysAgree(es) && IdsInStep(es, store, deleted) && RecordsInStep(es, store)
    requires !Conflicts(es, Entry(m.id, m.hostname, m.ip, m))
    ensures var es', store' := es + [Entry(m.id, m.hostname, m.ip, m.(state := st))], store[m.id := m];
            && UniqueKeys(es') && KeysAgree(es')
            && IdsInStep(es', store', deleted - {m.id}) && RecordsInStep(es', store')
  {
    var e := Entry(m.id, m.hostname, m.ip, m.(state := st));
    var es' := es + [e];
    assert forall i | 0 <= i < |es| :: !Clash(es[i], Entry(m.id, m.hostname, m.ip, m)) && !Clash(es[i], e);
    forall id ensures HasId(es', id) <==> HasId(es, id) || id == m.id {
      assert es'[|es|].id == m.id;
      if j :| 0 <= j < |es| && es[j].id == id {
        assert es'[j].id == id;
      }
    }
  }

  lemma ImportKeepsDurable(s: Ctrl, m: MinionInfo, stored: bool)
    requires Durable(s) && ConflictFree(s, m)
    ensures Durable(ImportMinionStep(s, m, stored))
  {
    if stored {
      match Lookup(s.entries, ById, m.id)
      case None =>
        var e, f := Entry(m.id, m.hostname, m.ip, m), Entry(m.id, m.hostname, m.ip, m.(state := Alive));
        assert forall x :: Clash(x, e) == Clash(x, f);
        NewImportKeepsInStep(s.entries, s.store, s.deleted, m, Alive);
      case Some(i) =>
        var st := s.entries[i].info.state;
        KnownImportKeepsInStep(s.entries, s.store, s.deleted, i, m, if Quarantined(st) then Alive else st);
    }
  }

  /** A rejected import of an id that no reload can see does no harm either. */
  ghost predicate Harmless(s: Ctrl, m: MinionInfo) {
    ConflictFree(s, m) || (!MinionInRange(m.id) && Lookup(s.entries, ById, m.id).None?)
  }

  lemma HarmlessKeepsDurable(s: Ctrl, m: MinionInfo)
    requires Durable(s) && Harmless(s, m)
    ensures Durable(ImportMinionStep(s, m, true))
  {
    if ConflictFree(s, m) {
      ImportKeepsDurable(s, m, true);
    } else {
      ConflictRejects(s.entries, m);
    }
  }

  /**
   Exactness of the condition on imports: an import that reaches the store keeps memory and store in step if and
   only if it is free of conflicts, or is a new id outside the scan range.
   */
  lemma ImportDurableIff(s: Ctrl, m: MinionInfo)
    requires Durable(s)
    ensures Durable(ImportMinionStep(s, m, true)) <==> Harmless(s, m)
  {
    var s' := ImportMinionStep(s, m, true);
    if Harmless(s, m) {
      HarmlessKeepsDurable(s, m);
    } else {
      match Lookup(s.entries, ById, m.id)
      case None =>
        ConflictRejects(s.entries, m);
        assert m.id in s'.store && m.id !in s'.deleted && !HasId(s'.entries, m.id);
      case Some(i) =>
        assert !SameKeys(s'.entries[i], s'.entries[i].info);
    }
  }

  lemma ConflictRejects(es: seq<Entry>, m: MinionInfo)
    requires Conflicts(es, Entry(m.id, m.hostname, m.ip, m))
    ensures Inserted(es, Entry(m.id, m.hostname, m.ip, m.(state := Alive))) == es
  {
    var i :| 0 <= i < |es| && Clash(es[i], Entry(m.id, m.hostname, m.ip, m));
    assert Clash(es[i], Entry(m.id, m.hostname, m.ip, m.(state := Alive)));
  }

  // ---------------------------------------------------------------- loading

  function Loaded(m: MinionInfo): Entry {
    Entry(m.id, m.hostname, m.ip, m)
  }

  /** Records that do not clash are all inserted, in scan order. */
  lemma {:induction false} LoadInsertsAll(ids: seq<string>, store: map<string, MinionInfo>)
    requires forall i | 0 <= i < |ids| :: ids[i] in store
    requires forall i, j | 0 <= i < j < |ids| :: !Clash(Loaded(store[ids[i]]), Loaded(store[ids[j]]))
    ensures |LoadMinions(ids, store)| == |ids|
    ensures forall i | 0 <= i < |ids| :: LoadMinions(ids, store)[i] == Loaded(store[ids[i]])
  {
    if ids != [] {
      var n := |ids| - 1;
      LoadInsertsAll(ids[..n], store);
    }
  }

  /** The entry in memory for a stored id in range. */
  lemma StoredEntry(s: Ctrl, id: string) returns (i: nat)
    requires Durable(s) && id in s.store && MinionInRange(id)
    ensures i < |s.entries| && s.entries[i].id == id && SameKeys(s.entries[i], s.store[id])
  {
    assert HasId(s.entries, id);
    i :| 0 <= i < |s.entries| && s.entries[i].id == id;
  }

  lemma StoredRecordsDontClash(s: Ctrl, a: string, b: string)
    requires Durable(s) && a != b
    requires a in s.store && MinionInRange(a) && b in s.store && MinionInRange(b)
    ensures !Clash(Loaded(s.store[a]), Loaded(s.store[b]))
  {
    var i := StoredEntry(s, a);
    var j := StoredEntry(s, b);
    assert !Clash(s.entries[if i < j then i else j], s.entries[if i < j then j else i]);
  }

  /** The records in range are stored under their ids and do not clash. */
  ghost predicate Consistent(store: map<string, MinionInfo>) {
    && (forall id | id in store && MinionInRange(id) :: store[id].id == id)
    && (forall a, b | a != b && a in store && MinionInRange(a) && b in store && MinionInRange(b) ::
          !Clash(Loaded(store[a]), Loaded(store[b])))
  }

  lemma DurableConsistent(s: Ctrl)
    requires Durable(s)
    ensures Consistent(s.store)
  {
    forall id | id in s.store && MinionInRange(id) ensures s.store[id].id == id {
      var i := StoredEntry(s, id);
    }
    forall a, b | a != b && a in s.store && MinionInRange(a) && b in s.store && MinionInRange(b)
      ensures !Clash(Loaded(s.store[a]), Loaded(s.store[b]))
    {
      StoredRecordsDontClash(s, a, b);
    }
  }

  lemma ScannedEntries(store: map<string, MinionInfo>, minions: seq<string>)
    requires Consistent(store) && IsScan(minions, store, MinionInRange)
    ensures var es := LoadMinions(minions, store);
            |es| == |minions| && forall i | 0 <= i < |es| :: es[i] == Loaded(store[minions[i]]) && es[i].id == minions[i]
  {
    assert forall i | 0 <= i < |minions| :: minions[i] in minions;
    LoadInsertsAll(minions, store);
  }

  lemma ScannedIds(store: map<string, MinionInfo>, minions: seq<string>, id: string)
    requires Consistent(store) && IsScan(minions, store, MinionInRange)
    ensures HasId(LoadMinions(minions, store), id) <==> MinionInRange(id) && id in store
  {
    ScannedEntries(store, minions);
    var es := LoadMinions(minions, store);
    if MinionInRange(id) && id in store {
      assert id in minions;
      var j :| 0 <= j < |minions| && minions[j] == id;
      assert es[j].id == id;
    }
    if j :| 0 <= j < |es| && es[j].id == id {
      assert minions[j] in minions;
    }
  }

  /** A process started on a consistent store is durable from the start. */
  lemma BootedDurable(names: ScriptNames, store: map<string, MinionInfo>, scriptStore: map<string, string>,
                      minions: seq<string>, scriptNames: seq<string>)
    requires Consistent(store)
    requires IsScan(minions, store, MinionInRange) && IsScan(scriptNames, scriptStore, ScriptInRange)
    ensures Durable(Booted(names, store, scriptStore, minions, scriptNames))
  {
    LoadUnique(minions, store);
    ScannedEntries(store, minions);
    forall id ensures HasId(LoadMinions(minions, store), id) <==> MinionInRange(id) && id in store {
      ScannedIds(store, minions, id);
    }
  }

  lemma ReloadedIds(s: Ctrl, minions: seq<string>, id: string)
    requires Durable(s) && IsScan(minions, s.store, MinionInRange)
    ensures HasId(LoadMinions(minions, s.store), id) <==> MinionInRange(id) && HasId(s.entries, id) && id !in s.deleted
  {
    DurableConsistent(s);
    ScannedIds(s.store, minions, id);
  }

  lemma ReloadedRecord(s: Ctrl, minions: seq<string>, j: nat)
    requires Durable(s) && IsScan(minions, s.store, MinionInRange) && j < |LoadMinions(minions, s.store)|
    ensures var e := LoadMinions(minions, s.store)[j];
            && e.id in s.store && e == Loaded(s.store[e.id])
            && exists i :: 0 <= i < |s.entries| && SameKeys(e, s.entries[i].info)
  {
    DurableConsistent(s);
    ScannedEntries(s.store, minions);
    assert minions[j] in minions;
    var i := StoredEntry(s, minions[j]);
    assert SameKeys(s.entries[i], s.entries[i].info);
  }

  /**
   Main result: after a crash in any durable state, the new process holds exactly the minions in the scan
   range that were in memory and not deleted, under the same keys and with the stored content, and exactly
   the scripts in range.
   */
  lemma ReloadRebuilds(s: Ctrl, minions: seq<string>, scriptNames: seq<string>)
    requires Durable(s) && Enabled(s, Restart(minions, scriptNames))
    ensures var s' := Step(s, Restart(minions, scriptNames));
            && (forall id :: HasId(s'.entries, id) <==>
                  MinionInRange(id) && HasId(s.entries, id) && id !in s.deleted)
            && (forall j | 0 <= j < |s'.entries| ::
                  && s'.entries[j].id in s.store && s'.entries[j].info == s.store[s'.entries[j].id]
                  && exists i :: 0 <= i < |s.entries| && SameKeys(s'.entries[j], s.entries[i].info))
            && s'.scripts == (map name | name in s.scripts && ScriptInRange(name) :: s.scripts[name])
            && Durable(s')
  {
    var s' := Step(s, Restart(minions, scriptNames));
    LoadUnique(minions, s.store);
    forall id ensures HasId(s'.entries, id) <==> MinionInRange(id) && HasId(s.entries, id) && id !in s.deleted {
      ReloadedIds(s, minions, id);
    }
    forall j | 0 <= j < |s'.entries|
      ensures s'.entries[j].id in s.store && s'.entries[j] == Loaded(s.store[s'.entries[j].id])
      ensures exists i :: 0 <= i < |s.entries| && SameKeys(s'.entries[j], s.entries[i].info)
    {
      ReloadedRecord(s, minions, j);
    }
    ReloadedScripts(s, scriptNames);
  }

  lemma ReloadedScripts(s: Ctrl, scriptNames: seq<string>)
    requires ScriptsInStep(s.scripts, s.scriptStore) && IsScan(scriptNames, s.scriptStore, ScriptInRange)
    ensures LoadScripts(scriptNames, s.scriptStore)
         == map name | name in s.scripts && ScriptInRange(name) :: s.scripts[name]
  {
    assert LoadScripts(scriptNames, s.scriptStore).Keys == set name | name in s.scripts && ScriptInRange(name);
  }

  // ---------------------------------------------------------------- runs

  lemma StepKeepsDurable(s: Ctrl, e: Event)
    requires Durable(s) && Enabled(s, e) && (e.ImportMinion? && e.stored ==> Harmless(s, e.m))
    ensures Durable(Step(s, e))
  {
    match e
    case ImportMinion(m, stored) => if stored { HarmlessKeepsDurable(s, m); }
    case ExportHost(hostname, removed) => ExportKeepsDurable(s, hostname, removed);
    case ImportScript(_, _, _) =>
    case Restart(minions, scriptNames) => ReloadRebuilds(s, minions, scriptNames);
    case _ =>
      OtherTablesKept(s, e);
      EntriesGrown(s, e);
      GrownUnique(e, s.entries, Step(s, e).entries);
      MovesKeepInStep(e, s.entries, Step(s, e).entries, s.store, s.deleted);
  }

  ghost predicate HarmlessRun(s: Ctrl, es: seq<Event>)
    decreases |es|
  {
    es == []
    || ((es[0].ImportMinion? && es[0].stored ==> Harmless(s, es[0].m)) && HarmlessRun(Step(s, es[0]), es[1..]))
  }

  /** Over every run with harmless imports, crashes and failed store operations included. */
  lemma {:induction false} RunsStayDurable(s: Ctrl, es: seq<Event>)
    requires Durable(s) && Legal(s, es) && HarmlessRun(s, es)
    ensures Durable(Exec(s, es))
    decreases |es|
  {
    if es != [] {
      StepKeepsDurable(s, es[0]);
      RunsStayDurable(Step(s, es[0]), es[1..]);
    }
  }

  ghost predicate AlwaysDurable(s: Ctrl, es: seq<Event>)
    decreases |es|
  {
    Durable(s) && (es == [] || AlwaysDurable(Step(s, es[0]), es[1..]))
  }

  /** Memory and store are in step throughout a run if and only if every stored import in it is harmless. */
  lemma {:induction false} RunsDurableIff(s: Ctrl, es: seq<Event>)
    requires Durable(s) && Legal(s, es)
    ensures AlwaysDurable(s, es) <==> HarmlessRun(s, es)
    decreases |es|
  {
    if es != [] {
      var e := es[0];
      if e.ImportMinion? && e.stored {
        ImportDurableIff(s, e.m);
      }
      if e.ImportMinion? && e.stored ==> Harmless(s, e.m) {
        StepKeepsDurable(s, e);
        RunsDurableIff(Step(s, e), es[1..]);
      }
    }
  }

  // ---------------------------------------------------------------- the scan range

  /** The common prefix of the keys of a table plays no part in their order. */
  lemma {:induction false} PrefixKeepsOrder(prefix: string, a: string, b: string)
    ensures Before(prefix + a, prefix + b) <==> Before(a, b)
  {
    if prefix == "" {
      assert prefix + a == a && prefix + b == b;
    } else {
      PrefixKeepsOrder(prefix[1..], a, b);
      assert (prefix + a)[1..] == prefix[1..] + a && (prefix + b)[1..] == prefix[1..] + b;
    }
  }

  /** The first `k` characters are tildes, and what follows, if anything, comes before a tilde. */
  predicate LeadingTildes(s: string, k: nat) {
    k <= |s| && (forall i | 0 <= i < k :: s[i] == '~') && (k < |s| ==> s[k] < '~')
  }

  function Tildes(n: nat): (s: string)
    ensures |s| == n && forall i | 0 <= i < n :: s[i] == '~'
  {
    seq(n, _ => '~')
  }

  lemma {:induction false} BeforeTildes(s: string, n: nat)
    ensures Before(s, Tildes(n)) <==> exists k: nat :: k < n && LeadingTildes(s, k)
    decreases n
  {
    var tildes := Tildes(n);
    if n > 0 && s != "" && s[0] == '~' {
      BeforeTildes(s[1..], n - 1);
      assert tildes[1..] == Tildes(n - 1);
      if k: nat :| k < n - 1 && LeadingTildes(s[1..], k) {
        assert forall i | 0 < i < k + 1 :: s[i] == s[1..][i - 1];
        assert LeadingTildes(s, k + 1);
      }
      if k: nat :| k < n && LeadingTildes(s, k) {
        assert LeadingTildes(s[1..], k - 1);
      }
    } else if n > 0 {
      assert LeadingTildes(s, 0) <==> s == "" || s[0] < '~';
    }
  }

  /** Exactly the ids a reload can see: not before "0", and with fewer than nine tildes before anything smaller. */
  lemma ScanRange(id: string)
    ensures MinionInRange(id) <==> id != "" && '0' <= id[0] && exists k: nat :: k < 9 && LeadingTildes(id, k)
  {
    assert SCAN_END == Tildes(9);
    BeforeTildes(id, 9);
    assert Before(id, SCAN_END) <==> exists k: nat :: k < 9 && LeadingTildes(id, k);
    assert Before(id, "0") <==> id == "" || id[0] < '0' by {
      assert "0"[1..] == "" && (id != "" ==> !Before(id[1..], ""));
    }
  }

  /** The same for scripts, whose range has no lower end. */
  lemma ScriptScanRange(name: string)
    ensures ScriptInRange(name) <==> exists k: nat :: k < 9 && LeadingTildes(name, k)
  {
    assert SCAN_END == Tildes(9);
    BeforeTildes(name, 9);
  }

  // ---------------------------------------------------------------- records that clash

  /** Any scan, clashing records included: what is loaded are records of the scan, and a record not loaded clashes with one that is. */
  lemma {:induction false} LoadFirstWins(ids: seq<string>, store: map<string, MinionInfo>)
    ensures forall e | e in LoadMinions(ids, store) :: exists i :: 0 <= i < |ids| && ids[i] in store && e == Loaded(store[ids[i]])
    ensures forall i | 0 <= i < |ids| && ids[i] in store ::
              Loaded(store[ids[i]]) in LoadMinions(ids, store) || Conflicts(LoadMinions(ids[..i], store), Loaded(store[ids[i]]))
  {
    if ids != [] {
      var n := |ids| - 1;
      var before := LoadMinions(ids[..n], store);
      LoadFirstWins(ids[..n], store);
      forall e | e in LoadMinions(ids, store) ensures exists i :: 0 <= i < |ids| && ids[i] in store && e == Loaded(store[ids[i]]) {
        if e in before {
          var i :| 0 <= i < n && ids[..n][i] in store && e == Loaded(store[ids[..n][i]]);
          assert ids[i] in store && e == Loaded(store[ids[i]]);
        } else {
          assert e == Loaded(store[ids[n]]);
        }
      }
      forall i | 0 <= i < |ids| && ids[i] in store
        ensures Loaded(store[ids[i]]) in LoadMinions(ids, store) || Conflicts(LoadMinions(ids[..i], store), Loaded(store[ids[i]]))
      {
        if i < n {
          assert ids[..n][i] == ids[i] && ids[..n][..i] == ids[..i];
        }
      }
    }
  }
}
