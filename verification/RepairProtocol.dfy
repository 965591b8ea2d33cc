/**
 The repair and deploy protocol of the controller, as a state machine over values.

 A repair is a chain: rm task, rm RPC, init task, init RPC. Every handler runs under one mutex, so a run
 is a sequence of the small steps below; a handler that loops over a request takes one step per entry.
 */
module RepairProtocol {
  import opened LumiaTypes
  import opened MinionRegistry

  /** The names under which the removal and the deploy script are looked up; all results hold for any names. */
  datatype ScriptNames = ScriptNames(remove: string, deploy: string)

  /** A task waiting in `workers_`, or an `Exec` RPC whose reply has not been handled. */
  datatype Token =
    | RmTask(addr: string)
    | RmRpc(addr: string)
    | InitTask(addr: string)
    | InitRpc(addr: string)
    | ExecTask(addr: string, cmd: string, script: string)
    | ExecRpc(addr: string)

  /**
   The controller and the nexus store. The last two fields are history and drive nothing: `lost` holds the
   addresses whose chain was broken off and not restarted, `deleted` the ids whose last successful store operation
   was a delete.
   */
  datatype Ctrl = Ctrl(
    names: ScriptNames,
    entries: seq<Entry>,
    scripts: map<string, string>,
    work: multiset<Token>,
    store: map<string, MinionInfo>,
    scriptStore: map<string, string>,
    lost: set<string>,
    deleted: set<string>)

  datatype Event =
    | ImportScript(name: string, content: string, stored: bool)
    | ImportMinion(m: MinionInfo, stored: bool)
    | ExportHost(hostname: string, removed: bool)
    | DeadReport(addr: string)
    | AddExec(hostname: string, cmd: string, script: string)
    | RunRm(addr: string)
    | RunInit(addr: string)
    | RunExec(addr: string, cmd: string, script: string)
    | RmReply(addr: string, ip: string, ok: bool)
    | InitReply(addr: string, ip: string, ok: bool)
    | ExecReply(addr: string)
    | Health(ip: string, status: MinionStatus)
    | Restart(minions: seq<string>, scriptNames: seq<string>)

  // ---------------------------------------------------------------- state updates

  function Start(s: Ctrl, t: Token): Ctrl {
    s.(work := s.work + multiset{t})
  }

  function Pass(s: Ctrl, t: Token, next: Token): Ctrl {
    s.(work := s.work - multiset{t} + multiset{next})
  }

  function End(s: Ctrl, t: Token): Ctrl {
    s.(work := s.work - multiset{t})
  }

  function WithInfo(es: seq<Entry>, i: nat, info: MinionInfo): seq<Entry>
    requires i < |es|
  {
    es[i := es[i].(info := info)]
  }

  function WithState(es: seq<Entry>, i: nat, st: MinionState): seq<Entry>
    requires i < |es|
  {
    WithInfo(es, i, es[i].info.(state := st))
  }

  // ---------------------------------------------------------------- handlers

  /** States from which an import brings a known minion back. */
  predicate Quarantined(st: MinionState) {
    st == Del || st == Error || st == Busy
  }

  ghost function ImportMinionStep(s: Ctrl, m: MinionInfo, stored: bool): Ctrl {
    if !stored then s
    else
      var store', deleted' := s.store[m.id := m], s.deleted - {m.id};
      var started := Start(s, InitTask(m.ip));
      match Lookup(s.entries, ById, m.id)
      case None =>
        var e := Entry(m.id, m.hostname, m.ip, m.(state := Alive));
        started.(entries := Inserted(s.entries, e), store := store', deleted := deleted')
      case Some(i) =>
        var st := s.entries[i].info.state;
        if Quarantined(st)
        then started.(entries := WithInfo(s.entries, i, m.(state := Alive)), store := store', deleted := deleted')
        else s.(entries := WithInfo(s.entries, i, m.(state := st)), store := store', deleted := deleted')
  }

  ghost function ExportStep(s: Ctrl, hostname: string, removed: bool): Ctrl {
    if s.names.remove !in s.scripts then s
    else match Lookup(s.entries, ByHostname, hostname)
      case None => s
      case Some(i) =>
        var info := s.entries[i].info;
        if !removed then s.(entries := WithState(s.entries, i, Del))
        else
          Start(s, RmTask(info.ip)).(
            entries := WithState(s.entries, i, Del),
            store := s.store - {info.id},
            deleted := s.deleted + {info.id})
  }

  ghost function DeadReportStep(s: Ctrl, addr: string): Ctrl {
    match Lookup(s.entries, ByIp, addr)
    case None => s
    case Some(i) =>
      var info := s.entries[i].info;
      if info.state != Alive then s
      else
        Start(s, RmTask(info.ip)).(
          entries := WithState(s.entries, i, Reinstalling),
          lost := if info.ip == addr then s.lost - {addr} else s.lost + {addr})
  }

  ghost function AddExecStep(s: Ctrl, hostname: string, cmd: string, script: string): Ctrl {
    match Lookup(s.entries, ByHostname, hostname)
    case None => s
    case Some(i) =>
      if script !in s.scripts then s
      else Start(s, ExecTask(s.entries[i].info.ip, cmd, script))
  }

  ghost function RunRmStep(s: Ctrl, addr: string): Ctrl {
    if Lookup(s.entries, ByIp, addr).None? then End(s, RmTask(addr))
    else if s.names.remove !in s.scripts then End(s, RmTask(addr)).(lost := s.lost + {addr})
    else Pass(s, RmTask(addr), RmRpc(addr))
  }

  ghost function RunInitStep(s: Ctrl, addr: string): Ctrl {
    match Lookup(s.entries, ByIp, addr)
    case None => End(s, InitTask(addr))
    case Some(i) =>
      if s.names.deploy !in s.scripts then End(s, InitTask(addr)).(lost := s.lost + {addr})
      else
        Pass(s, InitTask(addr), InitRpc(addr)).(
          entries := WithState(s.entries, i, Initing),
          lost := s.lost - {addr})
  }

  ghost function RunExecStep(s: Ctrl, addr: string, cmd: string, script: string): Ctrl {
    if Lookup(s.entries, ByIp, addr).None? || script !in s.scripts
    then End(s, ExecTask(addr, cmd, script))
    else Pass(s, ExecTask(addr, cmd, script), ExecRpc(addr))
  }

  /** The minion is looked up by the ip in the reply, the successor task is queued for the address called. */
  ghost function RmReplyStep(s: Ctrl, addr: string, ip: string, ok: bool): Ctrl {
    var r := Lookup(s.entries, ByIp, ip);
    if r.Some? && ok && s.entries[r.value].info.state == Reinstalling then Pass(s, RmRpc(addr), InitTask(addr))
    else
      End(s, RmRpc(addr)).(
        entries := if r.Some? && !ok then WithState(s.entries, r.value, Error) else s.entries,
        lost := if ip == addr then s.lost else s.lost + {addr})
  }

  ghost function InitReplyStep(s: Ctrl, addr: string, ip: string, ok: bool): Ctrl {
    var r := Lookup(s.entries, ByIp, ip);
    End(s, InitRpc(addr)).(
      entries := if r.Some? then WithState(s.entries, r.value, if ok then Alive else Error) else s.entries,
      lost := if ip == addr then s.lost else s.lost + {addr})
  }

  ghost function HealthStep(s: Ctrl, ip: string, status: MinionStatus): (s': Ctrl)
    ensures |s'.entries| == |s.entries|
  {
    match Lookup(s.entries, ByIp, ip)
    case None => s
    case Some(i) =>
      var info := s.entries[i].info.(status := status);
      s.(entries := WithInfo(s.entries, i, if status.allIsWell then info else info.(state := Busy)))
  }

  // ---------------------------------------------------------------- loading from the store

  /** Lexicographic order of keys, as the store scans them. */
  predicate Before(a: string, b: string) {
    b != "" && (a == "" || a[0] < b[0] || (a[0] == b[0] && Before(a[1..], b[1..])))
  }

  const SCAN_END := "~~~~~~~~~"

  /** Ids whose key lies between `<prefix>/0` and `<prefix>/~~~~~~~~~`. */
  predicate MinionInRange(id: string) {
    !Before(id, "0") && Before(id, SCAN_END)
  }

  predicate ScriptInRange(name: string) {
    Before(name, SCAN_END)
  }

  /** The keys a scan delivers: those in range, each once. */
  ghost predicate IsScan<V>(keys: seq<string>, store: map<string, V>, inRange: string -> bool) {
    && (forall i, j | 0 <= i < j < |keys| :: keys[i] != keys[j])
    && (forall k :: k in keys <==> k in store && inRange(k))
  }

  ghost function LoadMinions(ids: seq<string>, store: map<string, MinionInfo>): seq<Entry> {
    if ids == [] then []
    else
      var n := |ids| - 1;
      var es := LoadMinions(ids[..n], store);
      if ids[n] in store then
        var m := store[ids[n]];
        Inserted(es, Entry(m.id, m.hostname, m.ip, m))
      else es
  }

  function LoadScripts(names: seq<string>, store: map<string, string>): map<string, string> {
    map name | name in names && name in store :: store[name]
  }

  predicate MidChain(st: MinionState) {
    st == Reinstalling || st == Initing
  }

  /** The addresses of machines loaded in the middle of a chain that no token will move on. */
  ghost function MidChainIps(es: seq<Entry>): set<string> {
    set i | 0 <= i < |es| && MidChain(es[i].info.state) :: es[i].ip
  }

  /** A crash drops all tasks and RPCs; the new process loads the two tables. */
  ghost function RestartStep(s: Ctrl, minions: seq<string>, scriptNames: seq<string>): Ctrl {
    var es := LoadMinions(minions, s.store);
    s.(entries := es,
    scripts := LoadScripts(scriptNames, s.scriptStore),
    work := multiset{},
    lost := MidChainIps(es),
    deleted := {})
  }

  /** A new process: nothing pending, no history, the two tables loaded. */
  ghost function Booted(names: ScriptNames, store: map<string, MinionInfo>, scriptStore: map<string, string>,
                        minions: seq<string>, scriptNames: seq<string>): Ctrl
  {
    var es := LoadMinions(minions, store);
    Ctrl(names, es, LoadScripts(scriptNames, scriptStore), multiset{}, store, scriptStore,
         MidChainIps(es), {})
  }

  // ---------------------------------------------------------------- runs

  /** Export and exec requests name known hosts; tasks run and replies arrive only for pending tokens. */
  ghost predicate Enabled(s: Ctrl, e: Event) {
    match e
    case ImportScript(_, _, _) => true
    case ImportMinion(_, _) => true
    case ExportHost(hostname, _) => Lookup(s.entries, ByHostname, hostname).Some?
    case DeadReport(_) => true
    case AddExec(hostname, _, _) => Lookup(s.entries, ByHostname, hostname).Some?
    case RunRm(addr) => RmTask(addr) in s.work
    case RunInit(addr) => InitTask(addr) in s.work
    case RunExec(addr, cmd, script) => ExecTask(addr, cmd, script) in s.work
    case RmReply(addr, _, _) => RmRpc(addr) in s.work
    case InitReply(addr, _, _) => InitRpc(addr) in s.work
    case ExecReply(addr) => ExecRpc(addr) in s.work
    case Health(_, _) => true
    case Restart(minions, scriptNames) =>
      IsScan(minions, s.store, MinionInRange) && IsScan(scriptNames, s.scriptStore, ScriptInRange)
  }

  ghost function Step(s: Ctrl, e: Event): Ctrl {
    match e
    case ImportScript(name, content, stored) =>
      if stored then s.(scriptStore := s.scriptStore[name := content], scripts := s.scripts[name := content]) else s
    case ImportMinion(m, stored) => ImportMinionStep(s, m, stored)
    case ExportHost(hostname, removed) => ExportStep(s, hostname, removed)
    case DeadReport(addr) => DeadReportStep(s, addr)
    case AddExec(hostname, cmd, script) => AddExecStep(s, hostname, cmd, script)
    case RunRm(addr) => RunRmStep(s, addr)
    case RunInit(addr) => RunInitStep(s, addr)
    case RunExec(addr, cmd, script) => RunExecStep(s, addr, cmd, script)
    case RmReply(addr, ip, ok) => RmReplyStep(s, addr, ip, ok)
    case InitReply(addr, ip, ok) => InitReplyStep(s, addr, ip, ok)
    case ExecReply(addr) => End(s, ExecRpc(addr))
    case Health(ip, status) => HealthStep(s, ip, status)
    case Restart(minions, scriptNames) => RestartStep(s, minions, scriptNames)
  }

  ghost function Exec(s: Ctrl, es: seq<Event>): Ctrl
    decreases |es|
  {
    if es == [] then s else Exec(Step(s, es[0]), es[1..])
  }

  lemma {:induction false} ExecAppend(s: Ctrl, a: seq<Event>, b: seq<Event>)
    ensures Exec(s, a + b) == Exec(Exec(s, a), b)
    decreases |a|
  {
    if a == [] {
      assert a + b == b;
    } else {
      assert (a + b)[1..] == a[1..] + b;
      ExecAppend(Step(s, a[0]), a[1..], b);
    }
  }

  /** A restart is a new process on the same store: nothing else of the old one is left. */
  lemma RestartBoots(s: Ctrl, minions: seq<string>, scriptNames: seq<string>)
    ensures Step(s, Restart(minions, scriptNames)) == Booted(s.names, s.store, s.scriptStore, minions, scriptNames)
  {
  }

  /** A new process has no task queued, no RPC in flight and no delete on record. */
  lemma BootedIdle(names: ScriptNames, store: map<string, MinionInfo>, scriptStore: map<string, string>,
                   minions: seq<string>, scriptNames: seq<string>)
    ensures var s := Booted(names, store, scriptStore, minions, scriptNames);
            s.work == multiset{} && s.deleted == {} && s.store == store && s.scriptStore == scriptStore && s.names == names
  {
  }

  ghost predicate Legal(s: Ctrl, es: seq<Event>)
    decreases |es|
  {
    es == [] || (Enabled(s, es[0]) && Legal(Step(s, es[0]), es[1..]))
  }

  // ---------------------------------------------------------------- what a step does to the entries

  predicate SameIdentity(a: MinionInfo, b: MinionInfo) {
    a.id == b.id && a.hostname == b.hostname && a.ip == b.ip
  }

  /** The state diagram: the moves an event can cause, and on which entry. */
  predicate Permits(e: Event, o: Entry, st: MinionState) {
    match e
    case ImportMinion(m, stored) => stored && o.id == m.id && Quarantined(o.info.state) && st == Alive
    case ExportHost(hostname, _) => o.hostname == hostname && st == Del
    case DeadReport(addr) => o.ip == addr && o.info.state == Alive && st == Reinstalling
    case RunInit(addr) => o.ip == addr && st == Initing
    case RmReply(_, ip, ok) => o.ip == ip && !ok && st == Error
    case InitReply(_, ip, ok) => o.ip == ip && st == if ok then Alive else Error
    case Health(ip, status) => o.ip == ip && !status.allIsWell && st == Busy
    case _ => false
  }

  /** Keys never change, identities only through an import of the id, states only along the diagram. */
  predicate EntryMove(e: Event, o: Entry, n: Entry) {
    && n.id == o.id && n.hostname == o.hostname && n.ip == o.ip
    && (|| SameIdentity(n.info, o.info)
        || (e.ImportMinion? && e.m.id == o.id && SameIdentity(n.info, e.m)))
    && (n.info.state == o.info.state || Permits(e, o, n.info.state))
  }

  /** Entries keep their position; a new one is the imported minion, Alive. */
  ghost predicate Grown(e: Event, es: seq<Entry>, es': seq<Entry>) {
    && |es| <= |es'| <= |es| + 1
    && (forall i | 0 <= i < |es| :: EntryMove(e, es[i], es'[i]))
    && (|es| < |es'| ==>
          && e.ImportMinion? && e.stored
          && es'[|es|] == Entry(e.m.id, e.m.hostname, e.m.ip, e.m.(state := Alive)))
  }

  lemma UpdateGrown(e: Event, es: seq<Entry>, i: nat, info: MinionInfo)
    requires i < |es| && EntryMove(e, es[i], es[i].(info := info))
    ensures Grown(e, es, es[i := es[i].(info := info)])
  {
  }

  lemma ImportGrown(s: Ctrl, m: MinionInfo, stored: bool)
    ensures Grown(ImportMinion(m, stored), s.entries, ImportMinionStep(s, m, stored).entries)
  {
    var e := ImportMinion(m, stored);
    var r := Lookup(s.entries, ById, m.id);
    if stored && r.Some? {
      var st := s.entries[r.value].info.state;
      UpdateGrown(e, s.entries, r.value, m.(state := if Quarantined(st) then Alive else st));
    }
  }

  lemma RequestGrown(s: Ctrl, e: Event)
    requires e.ExportHost? || e.DeadReport?
    ensures Grown(e, s.entries, Step(s, e).entries)
  {
    match e
    case ExportHost(hostname, _) =>
      var r := Lookup(s.entries, ByHostname, hostname);
      if s.names.remove in s.scripts && r.Some? {
        UpdateGrown(e, s.entries, r.value, s.entries[r.value].info.(state := Del));
      }
    case DeadReport(addr) =>
      var r := Lookup(s.entries, ByIp, addr);
      if r.Some? && s.entries[r.value].info.state == Alive {
        UpdateGrown(e, s.entries, r.value, s.entries[r.value].info.(state := Reinstalling));
      }
  }

  lemma RunInitGrown(s: Ctrl, addr: string)
    ensures Grown(RunInit(addr), s.entries, RunInitStep(s, addr).entries)
  {
    var r := Lookup(s.entries, ByIp, addr);
    if r.Some? && s.names.deploy in s.scripts {
      UpdateGrown(RunInit(addr), s.entries, r.value, s.entries[r.value].info.(state := Initing));
    }
  }

  lemma RmReplyGrown(s: Ctrl, addr: string, ip: string, ok: bool)
    ensures Grown(RmReply(addr, ip, ok), s.entries, RmReplyStep(s, addr, ip, ok).entries)
  {
    var r := Lookup(s.entries, ByIp, ip);
    if r.Some? && !ok {
      UpdateGrown(RmReply(addr, ip, ok), s.entries, r.value, s.entries[r.value].info.(state := Error));
    }
  }

  lemma InitReplyGrown(s: Ctrl, addr: string, ip: string, ok: bool)
    ensures Grown(InitReply(addr, ip, ok), s.entries, InitReplyStep(s, addr, ip, ok).entries)
  {
    var r := Lookup(s.entries, ByIp, ip);
    if r.Some? {
      var info := s.entries[r.value].info.(state := if ok then Alive else Error);
      UpdateGrown(InitReply(addr, ip, ok), s.entries, r.value, info);
    }
  }

  lemma HealthGrown(s: Ctrl, ip: string, status: MinionStatus)
    ensures Grown(Health(ip, status), s.entries, HealthStep(s, ip, status).entries)
  {
    var r := Lookup(s.entries, ByIp, ip);
    if r.Some? {
      var info := s.entries[r.value].info.(status := status);
      UpdateGrown(Health(ip, status), s.entries, r.value, if status.allIsWell then info else info.(state := Busy));
    }
  }

  lemma OthersGrown(s: Ctrl, e: Event)
    requires e.ImportScript? || e.AddExec? || e.RunRm? || e.RunExec? || e.ExecReply?
    ensures Grown(e, s.entries, Step(s, e).entries)
  {
    assert Step(s, e).entries == s.entries;
  }

  /** The state diagram holds of every step; Restarting, DeadChecking and Joining are never entered. */
  lemma EntriesGrown(s: Ctrl, e: Event)
    requires !e.Restart?
    ensures Grown(e, s.entries, Step(s, e).entries)
  {
    match e
    case ImportMinion(m, stored) => ImportGrown(s, m, stored);
    case ExportHost(_, _) => RequestGrown(s, e);
    case DeadReport(_) => RequestGrown(s, e);
    case RunInit(addr) => RunInitGrown(s, addr);
    case RmReply(addr, ip, ok) => RmReplyGrown(s, addr, ip, ok);
    case InitReply(addr, ip, ok) => InitReplyGrown(s, addr, ip, ok);
    case Health(ip, status) => HealthGrown(s, ip, status);
    case _ => OthersGrown(s, e);
  }

  lemma {:induction false} LoadUnique(ids: seq<string>, store: map<string, MinionInfo>)
    ensures UniqueKeys(LoadMinions(ids, store))
  {
    if ids != [] {
      var n := |ids| - 1;
      LoadUnique(ids[..n], store);
      if ids[n] in store {
        var m := store[ids[n]];
        InsertedUnique(LoadMinions(ids[..n], store), Entry(m.id, m.hostname, m.ip, m));
      }
    }
  }

  lemma ImportUnique(s: Ctrl, m: MinionInfo, stored: bool)
    requires UniqueKeys(s.entries)
    ensures UniqueKeys(ImportMinionStep(s, m, stored).entries)
  {
    InsertedUnique(s.entries, Entry(m.id, m.hostname, m.ip, m.(state := Alive)));
    var r := Lookup(s.entries, ById, m.id);
    if r.Some? {
      var st := s.entries[r.value].info.state;
      UpdateUnique(s.entries, r.value, m.(state := Alive));
      UpdateUnique(s.entries, r.value, m.(state := st));
    }
  }

  lemma GrownUnique(e: Event, es: seq<Entry>, es': seq<Entry>)
    requires UniqueKeys(es) && Grown(e, es, es') && !e.ImportMinion?
    ensures UniqueKeys(es')
  {
    forall i, j | 0 <= i < j < |es'| ensures !Clash(es'[i], es'[j]) {
      assert EntryMove(e, es[i], es'[i]) && EntryMove(e, es[j], es'[j]) && !Clash(es[i], es[j]);
    }
  }

  /** Ids, hostnames and ips stay pairwise unique over every step. */
  lemma StepUnique(s: Ctrl, e: Event)
    requires UniqueKeys(s.entries)
    ensures UniqueKeys(Step(s, e).entries)
  {
    match e
    case ImportMinion(m, stored) => ImportUnique(s, m, stored);
    case Restart(minions, _) => LoadUnique(minions, s.store);
    case _ =>
      EntriesGrown(s, e);
      GrownUnique(e, s.entries, Step(s, e).entries);
  }

  // ---------------------------------------------------------------- what a step does to the tokens

  /** Running a queued task or handling a reply. */
  predicate IsWork(e: Event) {
    e.RunRm? || e.RunInit? || e.RunExec? || e.RmReply? || e.InitReply? || e.ExecReply?
  }

  /** The token a step of work uses up. */
  function Spends(e: Event): Token
    requires IsWork(e)
  {
    match e
    case RunRm(addr) => RmTask(addr)
    case RunInit(addr) => InitTask(addr)
    case RunExec(addr, cmd, script) => ExecTask(addr, cmd, script)
    case RmReply(addr, _, _) => RmRpc(addr)
    case InitReply(addr, _, _) => InitRpc(addr)
    case ExecReply(addr) => ExecRpc(addr)
  }

  /** The only token it can leave behind. */
  function Next(t: Token): Option<Token> {
    match t
    case RmTask(addr) => Some(RmRpc(addr))
    case RmRpc(addr) => Some(InitTask(addr))
    case InitTask(addr) => Some(InitRpc(addr))
    case InitRpc(_) => None
    case ExecTask(addr, _, _) => Some(ExecRpc(addr))
    case ExecRpc(_) => None
  }

  /** The token `t`, and no other, is used up: for good, or leaving its successor. */
  ghost predicate SpendsOne(work: multiset<Token>, work': multiset<Token>, t: Token) {
    || work' == work - multiset{t}
    || (Next(t).Some? && work' == work - multiset{t} + multiset{Next(t).value})
  }

  lemma RunRmSpends(s: Ctrl, addr: string)
    ensures SpendsOne(s.work, RunRmStep(s, addr).work, RmTask(addr))
  {
  }

  lemma RunInitSpends(s: Ctrl, addr: string)
    ensures SpendsOne(s.work, RunInitStep(s, addr).work, InitTask(addr))
  {
  }

  lemma RunExecSpends(s: Ctrl, addr: string, cmd: string, script: string)
    ensures SpendsOne(s.work, RunExecStep(s, addr, cmd, script).work, ExecTask(addr, cmd, script))
  {
  }

  lemma RmReplySpends(s: Ctrl, addr: string, ip: string, ok: bool)
    ensures SpendsOne(s.work, RmReplyStep(s, addr, ip, ok).work, RmRpc(addr))
  {
  }

  lemma InitReplySpends(s: Ctrl, addr: string, ip: string, ok: bool)
    ensures SpendsOne(s.work, InitReplyStep(s, addr, ip, ok).work, InitRpc(addr))
  {
  }

  lemma ExecReplySpends(s: Ctrl, addr: string)
    ensures SpendsOne(s.work, End(s, ExecRpc(addr)).work, ExecRpc(addr))
  {
  }

  lemma WorkSpends(s: Ctrl, e: Event)
    requires IsWork(e)
    ensures SpendsOne(s.work, Step(s, e).work, Spends(e))
  {
    hide SpendsOne, RunRmStep, RunInitStep, RunExecStep, RmReplyStep, InitReplyStep;
    match e
    case RunRm(addr) => RunRmSpends(s, addr);
    case RunInit(addr) => RunInitSpends(s, addr);
    case RunExec(addr, cmd, script) => RunExecSpends(s, addr, cmd, script);
    case RmReply(addr, ip, ok) => RmReplySpends(s, addr, ip, ok);
    case InitReply(addr, ip, ok) => InitReplySpends(s, addr, ip, ok);
    case ExecReply(addr) => ExecReplySpends(s, addr);
  }
}
