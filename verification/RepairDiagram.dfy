/**
 The repair protocol as tables, independent of how the handlers look minions up: the content of every minion
 after a step, the tokens a step queues, and what it stores. All are exact, for every event in every state.
 */
module RepairDiagram {
  import opened LumiaTypes
  import opened MinionRegistry
  import opened RepairProtocol
  import opened Recovery

  // ---------------------------------------------------------------- minions

  /** The content of an entry after the step. */
  function After(s: Ctrl, e: Event, o: Entry): MinionInfo {
    match e
    case ImportMinion(m, stored) =>
      if !stored || o.id != m.id then o.info
      else m.(state := if o.info.state in {Del, Error, Busy} then Alive else o.info.state)
    case ExportHost(hostname, _) =>
      if s.names.remove in s.scripts && o.hostname == hostname then o.info.(state := Del) else o.info
    case DeadReport(addr) => if o.ip == addr && o.info.state == Alive then o.info.(state := Reinstalling) else o.info
    case RunInit(addr) => if s.names.deploy in s.scripts && o.ip == addr then o.info.(state := Initing) else o.info
    case RmReply(_, ip, ok) => if o.ip == ip && !ok then o.info.(state := Error) else o.info
    case InitReply(_, ip, ok) => if o.ip == ip then o.info.(state := if ok then Alive else Error) else o.info
    case Health(ip, status) =>
      if o.ip != ip then o.info
      else o.info.(status := status, state := if status.allIsWell then o.info.state else Busy)
    case _ => o.info
  }

  /** Whether the step adds an entry. */
  ghost predicate AddsEntry(s: Ctrl, e: Event) {
    e.ImportMinion? && e.stored && !Conflicts(s.entries, Entry(e.m.id, e.m.hostname, e.m.ip, e.m.(state := Alive)))
  }

  ghost predicate EntriesMove(s: Ctrl, e: Event, es': seq<Entry>) {
    && |es'| == |s.entries| + (if AddsEntry(s, e) then 1 else 0)
    && forall i | 0 <= i < |s.entries| :: es'[i] == s.entries[i].(info := After(s, e, s.entries[i]))
  }

  /** With unique keys the lookup finds an entry exactly if one carries the key, and then that one. */
  lemma LookupIff(es: seq<Entry>, k: Key, v: string)
    requires UniqueKeys(es)
    ensures forall i | 0 <= i < |es| && KeyOf(es[i], k) == v :: Lookup(es, k, v) == Some(i)
  {
    forall i | 0 <= i < |es| && KeyOf(es[i], k) == v ensures Lookup(es, k, v) == Some(i) {
      LookupUnique(es, k, i);
    }
  }

  lemma ImportStates(s: Ctrl, m: MinionInfo, stored: bool)
    requires UniqueKeys(s.entries)
    ensures EntriesMove(s, ImportMinion(m, stored), ImportMinionStep(s, m, stored).entries)
  {
    LookupIff(s.entries, ById, m.id);
    var r := Lookup(s.entries, ById, m.id);
    if r.Some? {
      assert Clash(s.entries[r.value], Entry(m.id, m.hostname, m.ip, m.(state := Alive)));
    } else {
      assert forall i | 0 <= i < |s.entries| :: KeyOf(s.entries[i], ById) != m.id;
    }
  }

  lemma ExportStates(s: Ctrl, hostname: string, removed: bool)
    requires UniqueKeys(s.entries)
    ensures EntriesMove(s, ExportHost(hostname, removed), ExportStep(s, hostname, removed).entries)
  {
    LookupIff(s.entries, ByHostname, hostname);
  }

  lemma DeadReportStates(s: Ctrl, addr: string)
    requires UniqueKeys(s.entries)
    ensures EntriesMove(s, DeadReport(addr), DeadReportStep(s, addr).entries)
  {
    LookupIff(s.entries, ByIp, addr);
  }

  lemma RunInitStates(s: Ctrl, addr: string)
    requires UniqueKeys(s.entries)
    ensures EntriesMove(s, RunInit(addr), RunInitStep(s, addr).entries)
  {
    LookupIff(s.entries, ByIp, addr);
  }

  lemma RmReplyStates(s: Ctrl, addr: string, ip: string, ok: bool)
    requires UniqueKeys(s.entries)
    ensures EntriesMove(s, RmReply(addr, ip, ok), RmReplyStep(s, addr, ip, ok).entries)
  {
    LookupIff(s.entries, ByIp, ip);
  }

  lemma InitReplyStates(s: Ctrl, addr: string, ip: string, ok: bool)
    requires UniqueKeys(s.entries)
    ensures EntriesMove(s, InitReply(addr, ip, ok), InitReplyStep(s, addr, ip, ok).entries)
  {
    LookupIff(s.entries, ByIp, ip);
  }

  lemma HealthStates(s: Ctrl, ip: string, status: MinionStatus)
    requires UniqueKeys(s.entries)
    ensures EntriesMove(s, Health(ip, status), HealthStep(s, ip, status).entries)
  {
    LookupIff(s.entries, ByIp, ip);
  }

  /** The table of minions, exact for every entry and every event. */
  lemma StateTable(s: Ctrl, e: Event)
    requires UniqueKeys(s.entries) && !e.Restart?
    ensures EntriesMove(s, e, Step(s, e).entries)
  {
    match e
    case ImportMinion(m, stored) => ImportStates(s, m, stored);
    case ExportHost(hostname, removed) => ExportStates(s, hostname, removed);
    case DeadReport(addr) => DeadReportStates(s, addr);
    case RunInit(addr) => RunInitStates(s, addr);
    case RmReply(addr, ip, ok) => RmReplyStates(s, addr, ip, ok);
    case InitReply(addr, ip, ok) => InitReplyStates(s, addr, ip, ok);
    case Health(ip, status) => HealthStates(s, ip, status);
    case _ => OthersGrown(s, e);
  }

  // ---------------------------------------------------------------- tokens

  ghost predicate HasKey(es: seq<Entry>, k: Key, v: string) {
    exists i :: 0 <= i < |es| && KeyOf(es[i], k) == v
  }

  /** Some entry with the key is in the state, and its minion has the ip. */
  ghost predicate HasMinion(es: seq<Entry>, k: Key, v: string, ip: string) {
    exists i :: 0 <= i < |es| && KeyOf(es[i], k) == v && es[i].info.ip == ip
  }

  ghost predicate HasState(es: seq<Entry>, ip: string, st: MinionState) {
    exists i :: 0 <= i < |es| && KeyOf(es[i], ByIp) == ip && es[i].info.state == st
  }

  /** The token is queued by the step. */
  ghost predicate Queues(s: Ctrl, e: Event, t: Token) {
    match e
    case ImportMinion(m, stored) =>
      stored && t == InitTask(m.ip)
      && forall i | 0 <= i < |s.entries| && KeyOf(s.entries[i], ById) == m.id :: s.entries[i].info.state in {Del, Error, Busy}
    case ExportHost(hostname, removed) =>
      removed && s.names.remove in s.scripts && t.RmTask? && HasMinion(s.entries, ByHostname, hostname, t.addr)
    case DeadReport(addr) =>
      t.RmTask? && HasState(s.entries, addr, Alive) && HasMinion(s.entries, ByIp, addr, t.addr)
    case AddExec(hostname, cmd, script) =>
      script in s.scripts && t.ExecTask? && t.cmd == cmd && t.script == script
      && HasMinion(s.entries, ByHostname, hostname, t.addr)
    case RunRm(addr) => t == RmRpc(addr) && s.names.remove in s.scripts && HasKey(s.entries, ByIp, addr)
    case RunInit(addr) => t == InitRpc(addr) && s.names.deploy in s.scripts && HasKey(s.entries, ByIp, addr)
    case RunExec(addr, _, script) => t == ExecRpc(addr) && script in s.scripts && HasKey(s.entries, ByIp, addr)
    case RmReply(addr, ip, ok) => t == InitTask(addr) && ok && HasState(s.entries, ip, Reinstalling)
    case _ => false
  }

  /** Exactly the spent token goes, exactly the queued token comes. */
  ghost predicate WorkMoves(s: Ctrl, e: Event, work': multiset<Token>) {
    forall t :: work'[t] + (if IsWork(e) && t == Spends(e) then 1 else 0) == s.work[t] + (if Queues(s, e, t) then 1 else 0)
  }

  lemma ImportWork(s: Ctrl, m: MinionInfo, stored: bool)
    requires UniqueKeys(s.entries)
    ensures WorkMoves(s, ImportMinion(m, stored), ImportMinionStep(s, m, stored).work)
  {
    LookupIff(s.entries, ById, m.id);
    var r := Lookup(s.entries, ById, m.id);
    assert r.Some? ==> KeyOf(s.entries[r.value], ById) == m.id;
  }

  lemma ExportWork(s: Ctrl, hostname: string, removed: bool)
    requires UniqueKeys(s.entries)
    ensures WorkMoves(s, ExportHost(hostname, removed), ExportStep(s, hostname, removed).work)
  {
    LookupIff(s.entries, ByHostname, hostname);
  }

  lemma DeadReportWork(s: Ctrl, addr: string)
    requires UniqueKeys(s.entries)
    ensures WorkMoves(s, DeadReport(addr), DeadReportStep(s, addr).work)
  {
    LookupIff(s.entries, ByIp, addr);
  }

  lemma AddExecWork(s: Ctrl, hostname: string, cmd: string, script: string)
    requires UniqueKeys(s.entries)
    ensures WorkMoves(s, AddExec(hostname, cmd, script), AddExecStep(s, hostname, cmd, script).work)
  {
    LookupIff(s.entries, ByHostname, hostname);
  }

  lemma RunRmWork(s: Ctrl, addr: string)
    requires UniqueKeys(s.entries) && RmTask(addr) in s.work
    ensures WorkMoves(s, RunRm(addr), RunRmStep(s, addr).work)
  {
    LookupIff(s.entries, ByIp, addr);
  }

  lemma RunInitWork(s: Ctrl, addr: string)
    requires UniqueKeys(s.entries) && InitTask(addr) in s.work
    ensures WorkMoves(s, RunInit(addr), RunInitStep(s, addr).work)
  {
    LookupIff(s.entries, ByIp, addr);
  }

  lemma RunExecWork(s: Ctrl, addr: string, cmd: string, script: string)
    requires UniqueKeys(s.entries) && ExecTask(addr, cmd, script) in s.work
    ensures WorkMoves(s, RunExec(addr, cmd, script), RunExecStep(s, addr, cmd, script).work)
  {
    LookupIff(s.entries, ByIp, addr);
  }

  lemma RmReplyWork(s: Ctrl, addr: string, ip: string, ok: bool)
    requires UniqueKeys(s.entries) && RmRpc(addr) in s.work
    ensures WorkMoves(s, RmReply(addr, ip, ok), RmReplyStep(s, addr, ip, ok).work)
  {
    LookupIff(s.entries, ByIp, ip);
  }

  /** The token table, exact for every token and every event. */
  lemma WorkTable(s: Ctrl, e: Event)
    requires UniqueKeys(s.entries) && Enabled(s, e) && !e.Restart?
    ensures WorkMoves(s, e, Step(s, e).work)
  {
    match e
    case ImportMinion(m, stored) => ImportWork(s, m, stored);
    case ExportHost(hostname, removed) => ExportWork(s, hostname, removed);
    case DeadReport(addr) => DeadReportWork(s, addr);
    case AddExec(hostname, cmd, script) => AddExecWork(s, hostname, cmd, script);
    case RunRm(addr) => RunRmWork(s, addr);
    case RunInit(addr) => RunInitWork(s, addr);
    case RunExec(addr, cmd, script) => RunExecWork(s, addr, cmd, script);
    case RmReply(addr, ip, ok) => RmReplyWork(s, addr, ip, ok);
    case _ =>
  }

  // ---------------------------------------------------------------- the store

  ghost predicate Deletes(s: Ctrl, e: Event, id: string) {
    && e.ExportHost? && e.removed && s.names.remove in s.scripts
    && exists i :: 0 <= i < |s.entries| && KeyOf(s.entries[i], ByHostname) == e.hostname && s.entries[i].info.id == id
  }

  /** The record stored under an id after the step. */
  ghost function StoredAfter(s: Ctrl, e: Event, id: string): Option<MinionInfo> {
    if e.ImportMinion? && e.stored && e.m.id == id then Some(e.m)
    else if id in s.store && !Deletes(s, e, id) then Some(s.store[id])
    else None
  }

  function ScriptAfter(scripts: map<string, string>, e: Event, name: string): Option<string> {
    if e.ImportScript? && e.stored && e.name == name then Some(e.content)
    else if name in scripts then Some(scripts[name])
    else None
  }

  ghost predicate StoreMoves(s: Ctrl, e: Event, store': map<string, MinionInfo>) {
    forall id :: StoredAfter(s, e, id) == if id in store' then Some(store'[id]) else None
  }

  predicate ScriptMoves(scripts: map<string, string>, e: Event, scripts': map<string, string>, name: string) {
    ScriptAfter(scripts, e, name) == if name in scripts' then Some(scripts'[name]) else None
  }

  lemma ImportStores(s: Ctrl, m: MinionInfo, stored: bool)
    ensures StoreMoves(s, ImportMinion(m, stored), ImportMinionStep(s, m, stored).store)
  {
    assert ImportMinionStep(s, m, stored).store == if stored then s.store[m.id := m] else s.store;
    hide ImportMinionStep;
  }

  lemma ExportDeletes(s: Ctrl, hostname: string, removed: bool)
    requires UniqueKeys(s.entries)
    ensures StoreMoves(s, ExportHost(hostname, removed), ExportStep(s, hostname, removed).store)
  {
    LookupIff(s.entries, ByHostname, hostname);
  }

  lemma KeptStore(s: Ctrl, e: Event)
    requires !e.ImportMinion? && !e.ExportHost? && !e.Restart?
    ensures StoreMoves(s, e, s.store)
  {
  }

  /** The table of the store, exact for every id and every event. */
  lemma StoreTable(s: Ctrl, e: Event)
    requires UniqueKeys(s.entries) && !e.Restart?
    ensures StoreMoves(s, e, Step(s, e).store)
  {
    match e
    case ImportMinion(m, stored) => ImportStores(s, m, stored);
    case ExportHost(hostname, removed) => ExportDeletes(s, hostname, removed);
    case ImportScript(_, _, _) => KeptStore(s, e);
    case _ =>
      OtherTablesKept(s, e);
      KeptStore(s, e);
  }

  lemma ImportKeepsScripts(s: Ctrl, m: MinionInfo, stored: bool)
    ensures ImportMinionStep(s, m, stored).scripts == s.scripts
    ensures ImportMinionStep(s, m, stored).scriptStore == s.scriptStore
  {
    hide KeyOf;
  }

  lemma ExportKeepsScripts(s: Ctrl, hostname: string, removed: bool)
    ensures ExportStep(s, hostname, removed).scripts == s.scripts
    ensures ExportStep(s, hostname, removed).scriptStore == s.scriptStore
  {
    hide KeyOf;
  }

  /** The table of the scripts, in memory and in the store alike. */
  lemma ScriptTable(s: Ctrl, e: Event, name: string)
    requires !e.Restart?
    ensures ScriptMoves(s.scripts, e, Step(s, e).scripts, name)
    ensures ScriptMoves(s.scriptStore, e, Step(s, e).scriptStore, name)
  {
    if e.ImportMinion? {
      ImportKeepsScripts(s, e.m, e.stored);
    } else if e.ExportHost? {
      ExportKeepsScripts(s, e.hostname, e.removed);
    } else if !e.ImportScript? {
      OtherTablesKept(s, e);
    }
  }

  lemma ExportDeleted(s: Ctrl, hostname: string, removed: bool, id: string)
    requires UniqueKeys(s.entries)
    ensures id in ExportStep(s, hostname, removed).deleted <==>
            id in s.deleted || Deletes(s, ExportHost(hostname, removed), id)
  {
    LookupIff(s.entries, ByHostname, hostname);
  }

  lemma ImportDeleted(s: Ctrl, m: MinionInfo, stored: bool, id: string)
    ensures id in ImportMinionStep(s, m, stored).deleted <==> id in s.deleted && !(stored && m.id == id)
  {
    hide KeyOf;
  }

  /** Which ids are recorded as deleted after a step. */
  lemma DeletedTable(s: Ctrl, e: Event, id: string)
    requires UniqueKeys(s.entries) && !e.Restart?
    ensures id in Step(s, e).deleted <==>
            Deletes(s, e, id) || (id in s.deleted && !(e.ImportMinion? && e.stored && e.m.id == id))
  {
    match e
    case ImportMinion(m, stored) => ImportDeleted(s, m, stored, id);
    case ExportHost(hostname, removed) => ExportDeleted(s, hostname, removed, id);
    case ImportScript(_, _, _) =>
    case _ => OtherTablesKept(s, e);
  }
}
