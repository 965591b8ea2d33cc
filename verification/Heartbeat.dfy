/**
 Heartbeats: `Ping` enters a node into `nodes_` under one lock and re-arms its dead-check timer under
 another, `HandleNodeOffline` takes the node out under the first. All interleavings of the three sections, of
 the timers firing, and of the clock are covered.
 */
module Heartbeat {
  import opened LumiaTypes

  /** How long a dead-check timer waits, in milliseconds. */
  const DEAD_AFTER := 10000

  datatype Timer = Timer(addr: string, due: int)

  /**
   `pool` holds the unfired timers of `dead_checkers_` by task id, `fired` the addresses whose timer has
   gone off but whose `HandleNodeOffline` has not run, `joining` the Pings between their two sections.
   */
  datatype Beat = Beat(
    nodes: set<string>,
    nodeTimers: map<string, int>,
    pool: map<int, Timer>,
    nextId: int,
    fired: multiset<string>,
    joining: multiset<string>,
    clock: int)

  datatype Event =
    | Join(addr: string)
    | Arm(addr: string)
    | Fire(id: int)
    | Offline(addr: string)
    | Tick(ms: nat)

  const BOOTED := Beat({}, map[], map[], 0, multiset{}, multiset{}, 0)

  predicate Enabled(b: Beat, e: Event) {
    match e
    case Join(_) => true
    case Arm(addr) => addr in b.joining
    case Fire(id) => id in b.pool && b.pool[id].due <= b.clock
    case Offline(addr) => addr in b.fired
    case Tick(_) => true
  }

  function JoinStep(b: Beat, addr: string): Beat {
    b.(nodes := b.nodes + {addr}, joining := b.joining + multiset{addr})
  }

  /** Cancelling a timer that has fired already fails and changes nothing. */
  function ArmStep(b: Beat, addr: string): Beat {
    var kept := if addr in b.nodeTimers then b.pool - {b.nodeTimers[addr]} else b.pool;
    b.(pool := kept[b.nextId := Timer(addr, b.clock + DEAD_AFTER)],
    nodeTimers := b.nodeTimers[addr := b.nextId],
    nextId := b.nextId + 1,
    joining := b.joining - multiset{addr})
  }

  lemma ArmStepIs(b: Beat, addr: string, kept: map<int, Timer>)
    requires kept == if addr in b.nodeTimers then b.pool - {b.nodeTimers[addr]} else b.pool
    ensures ArmStep(b, addr) == b.(pool := kept[b.nextId := Timer(addr, b.clock + DEAD_AFTER)],
                                   nodeTimers := b.nodeTimers[addr := b.nextId],
                                   nextId := b.nextId + 1,
                                   joining := b.joining - multiset{addr})
  {
  }

  function OfflineStep(b: Beat, addr: string): Beat {
    b.(nodes := b.nodes - {addr}, fired := b.fired - multiset{addr})
  }

  function Step(b: Beat, e: Event): Beat
    requires Enabled(b, e)
  {
    match e
    case Join(addr) => JoinStep(b, addr)
    case Arm(addr) => ArmStep(b, addr)
    case Fire(id) => b.(pool := b.pool - {id}, fired := b.fired + multiset{b.pool[id].addr})
    case Offline(addr) => OfflineStep(b, addr)
    case Tick(ms) => b.(clock := b.clock + ms)
  }

  ghost predicate Legal(b: Beat, es: seq<Event>)
    decreases |es|
  {
    es == [] || (Enabled(b, es[0]) && Legal(Step(b, es[0]), es[1..]))
  }

  ghost function Exec(b: Beat, es: seq<Event>): Beat
    requires Legal(b, es)
    decreases |es|
  {
    if es == [] then b else Exec(Step(b, es[0]), es[1..])
  }

  /** Arming leaves the address with one timer, due in 10000 ms, and takes away its old one and no other. */
  lemma ArmTable(b: Beat, addr: string)
    requires Sound(b) && addr in b.joining
    ensures var b' := Step(b, Arm(addr));
            && addr in b'.nodeTimers && b'.nodeTimers[addr] in b'.pool
            && b'.pool[b'.nodeTimers[addr]] == Timer(addr, b.clock + 10000)
            && (forall id | id in b.pool && b.pool[id].addr != addr :: id in b'.pool && b'.pool[id] == b.pool[id])
            && (forall a | a != addr :: a in b'.nodeTimers <==> a in b.nodeTimers)
            && b'.nodes == b.nodes && b'.fired == b.fired && b'.clock == b.clock
  {
  }

  // ---------------------------------------------------------------- safety under interleaving

  predicate Armed(b: Beat, addr: string) {
    addr in b.nodeTimers && b.nodeTimers[addr] in b.pool
  }

  ghost predicate Sound(b: Beat) {
    // every unfired timer is the one recorded for its address
    && (forall id | id in b.pool ::
          && id < b.nextId && b.pool[id].due <= b.clock + DEAD_AFTER
          && b.pool[id].addr in b.nodeTimers && b.nodeTimers[b.pool[id].addr] == id)
    && (forall addr | addr in b.nodeTimers ::
          b.nodeTimers[addr] < b.nextId && (Armed(b, addr) ==> b.pool[b.nodeTimers[addr]].addr == addr))
    // every node has something that will check it
    && (forall addr | addr in b.nodes :: Armed(b, addr) || addr in b.fired || addr in b.joining)
  }

  lemma JoinStaysSound(b: Beat, addr: string)
    requires Sound(b)
    ensures Sound(JoinStep(b, addr))
  {
  }

  lemma ArmStaysSound(b: Beat, addr: string)
    requires Sound(b) && addr in b.joining
    ensures Sound(ArmStep(b, addr))
  {
  }

  lemma FireStaysSound(b: Beat, id: int)
    requires Sound(b) && Enabled(b, Fire(id))
    ensures Sound(Step(b, Fire(id)))
  {
  }

  lemma OfflineStaysSound(b: Beat, addr: string)
    requires Sound(b)
    ensures Sound(OfflineStep(b, addr))
  {
  }

  lemma TickStaysSound(b: Beat, ms: nat)
    requires Sound(b)
    ensures Sound(Step(b, Tick(ms)))
  {
  }

  lemma StepStaysSound(b: Beat, e: Event)
    requires Sound(b) && Enabled(b, e)
    ensures Sound(Step(b, e))
  {
    match e
    case Join(addr) => JoinStaysSound(b, addr);
    case Arm(addr) => ArmStaysSound(b, addr);
    case Fire(id) => FireStaysSound(b, id);
    case Offline(addr) => OfflineStaysSound(b, addr);
    case Tick(ms) => TickStaysSound(b, ms);
    hide Sound, JoinStep, ArmStep, OfflineStep;
  }

  lemma TimeGoesOn(b: Beat, e: Event)
    requires Enabled(b, e)
    ensures Step(b, e).clock >= b.clock && Step(b, e).nextId >= b.nextId
  {
  }

  lemma {:induction false} RunsStaySound(b: Beat, es: seq<Event>)
    requires Sound(b) && Legal(b, es)
    ensures Sound(Exec(b, es)) && Exec(b, es).clock >= b.clock && Exec(b, es).nextId >= b.nextId
    decreases |es|
  {
    hide Sound, Step;
    if es != [] {
      StepStaysSound(b, es[0]);
      TimeGoesOn(b, es[0]);
      RunsStaySound(Step(b, es[0]), es[1..]);
    }
  }

  /** At most one unfired timer per address, and no node that nothing will ever check. */
  lemma OneTimerPerNode(b: Beat, es: seq<Event>)
    requires Sound(b) && Legal(b, es)
    ensures var b' := Exec(b, es);
            && (forall i, j | i in b'.pool && j in b'.pool && b'.pool[i].addr == b'.pool[j].addr :: i == j)
            && (forall addr | addr in b'.nodes && addr !in b'.fired && addr !in b'.joining ::
                  exists id :: id in b'.pool && b'.pool[id].addr == addr)
  {
    RunsStaySound(b, es);
    var b' := Exec(b, es);
    forall addr | addr in b'.nodes && addr !in b'.fired && addr !in b'.joining
      ensures exists id :: id in b'.pool && b'.pool[id].addr == addr
    {
      assert b'.nodeTimers[addr] in b'.pool;
    }
  }

  // ---------------------------------------------------------------- a node that keeps pinging

  /** `since` is the time since the last re-arm of the address, if its timer has been armed at all. */
  predicate Timely(es: seq<Event>, addr: string, since: Option<nat>) {
    es == []
    || match es[0]
       case Arm(a) => Timely(es[1..], addr, if a == addr then Some(0) else since)
       case Tick(ms) =>
         if since.None? then Timely(es[1..], addr, None)
         else since.value + ms < DEAD_AFTER && Timely(es[1..], addr, Some(since.value + ms))
       case _ => Timely(es[1..], addr, since)
  }

  /** The node is in, and nothing that could take it out is due. */
  ghost predicate Kept(b: Beat, addr: string, since: Option<nat>) {
    && Sound(b) && addr in b.nodes && addr !in b.fired
    && match since
       case None => !Armed(b, addr)
       case Some(ms) => ms < DEAD_AFTER && Armed(b, addr) && b.pool[b.nodeTimers[addr]].due == b.clock + DEAD_AFTER - ms
  }

  ghost predicate AlwaysIn(b: Beat, es: seq<Event>, addr: string)
    requires Legal(b, es)
    decreases |es|
  {
    addr in b.nodes && (es == [] || AlwaysIn(Step(b, es[0]), es[1..], addr))
  }

  function SinceAfter(e: Event, addr: string, since: Option<nat>): Option<nat> {
    match e
    case Arm(a) => if a == addr then Some(0) else since
    case Tick(ms) => if since.None? then None else Some(since.value + ms)
    case _ => since
  }

  lemma ArmKeepsIn(b: Beat, a: string, addr: string, since: Option<nat>)
    requires Kept(b, addr, since) && a in b.joining
    ensures Kept(ArmStep(b, a), addr, if a == addr then Some(0) else since)
  {
    ArmStaysSound(b, a);
  }

  lemma FireKeepsIn(b: Beat, id: int, addr: string, since: Option<nat>)
    requires Kept(b, addr, since) && Enabled(b, Fire(id))
    ensures Kept(Step(b, Fire(id)), addr, since)
  {
    FireStaysSound(b, id);
  }

  lemma OthersKeepIn(b: Beat, e: Event, addr: string, since: Option<nat>)
    requires Kept(b, addr, since) && Enabled(b, e) && !e.Arm? && !e.Fire?
    requires SinceAfter(e, addr, since).Some? ==> SinceAfter(e, addr, since).value < DEAD_AFTER
    ensures Kept(Step(b, e), addr, SinceAfter(e, addr, since))
  {
    StepStaysSound(b, e);
    hide Sound;
  }

  lemma StepKeepsIn(b: Beat, e: Event, addr: string, since: Option<nat>)
    requires Kept(b, addr, since) && Enabled(b, e)
    requires SinceAfter(e, addr, since).Some? ==> SinceAfter(e, addr, since).value < DEAD_AFTER
    ensures Kept(Step(b, e), addr, SinceAfter(e, addr, since))
  {
    match e
    case Arm(a) => ArmKeepsIn(b, a, addr, since);
    case Fire(id) => FireKeepsIn(b, id, addr, since);
    case _ => OthersKeepIn(b, e, addr, since);
    hide Kept, ArmStep;
  }

  lemma {:induction false} TimelyNodeStaysIn(b: Beat, es: seq<Event>, addr: string, since: Option<nat>)
    requires Kept(b, addr, since) && Legal(b, es) && Timely(es, addr, since)
    ensures AlwaysIn(b, es, addr)
    decreases |es|
  {
    if es != [] {
      StepKeepsIn(b, es[0], addr, since);
      TimelyNodeStaysIn(Step(b, es[0]), es[1..], addr, SinceAfter(es[0], addr, since));
    }
  }

  /**
   A node that starts pinging and re-arms its timer less than 10000 ms apart is in `nodes_` from the first
   section of its first Ping on, for any number of Pings and whatever the other nodes do.
   */
  lemma PingingNodeNeverDropped(b: Beat, es: seq<Event>, addr: string)
    requires Sound(b) && !Armed(b, addr) && addr !in b.fired
    requires Legal(b, [Join(addr)] + es) && Timely(es, addr, None)
    ensures Legal(Step(b, Join(addr)), es) && AlwaysIn(Step(b, Join(addr)), es, addr)
  {
    assert ([Join(addr)] + es)[1..] == es;
    StepStaysSound(b, Join(addr));
    TimelyNodeStaysIn(Step(b, Join(addr)), es, addr, None);
  }

  /** The bound is exact: once the timer is due the node can be taken out. */
  lemma LateNodeCanBeDropped(b: Beat, addr: string)
    requires Sound(b) && Armed(b, addr) && b.pool[b.nodeTimers[addr]].due <= b.clock
    ensures var es := [Fire(b.nodeTimers[addr]), Offline(addr)];
            Legal(b, es) && addr !in Exec(b, es).nodes
  {
    var fire, offline := Fire(b.nodeTimers[addr]), Offline(addr);
    assert [fire, offline][1..] == [offline];
    assert Legal(Step(b, fire), [offline]);
    assert Exec(Step(b, fire), [offline]) == Exec(Step(Step(b, fire), offline), []);
  }

  // ---------------------------------------------------------------- a node that stops pinging

  ghost predicate NoJoin(es: seq<Event>, addr: string) {
    Join(addr) !in es
  }

  /** Without further Pings the node is out as soon as no timer and no offline task is left, and stays out. */
  lemma {:induction false} SilentNodeStaysOut(b: Beat, es: seq<Event>, addr: string)
    requires Sound(b) && addr !in b.joining && Legal(b, es) && NoJoin(es, addr)
    ensures !Armed(Exec(b, es), addr) && addr !in Exec(b, es).fired ==> addr !in Exec(b, es).nodes
    ensures addr !in b.nodes ==> addr !in Exec(b, es).nodes
    ensures addr !in Exec(b, es).joining
    decreases |es|
  {
    if es != [] {
      assert es[0] in es && forall e | e in es[1..] :: e in es;
      StepStaysSound(b, es[0]);
      SilentNodeStaysOut(Step(b, es[0]), es[1..], addr);
    }
  }

  /** Running every waiting offline task of the address takes it out. */
  lemma {:induction false} RunOfflines(b: Beat, addr: string) returns (es: seq<Event>)
    requires Sound(b) && addr !in b.joining && !Armed(b, addr)
    ensures Legal(b, es) && NoJoin(es, addr) && addr !in Exec(b, es).nodes
    ensures Exec(b, es).clock == b.clock
    decreases b.fired[addr]
  {
    if addr in b.fired {
      StepStaysSound(b, Offline(addr));
      var rest := RunOfflines(Step(b, Offline(addr)), addr);
      es := [Offline(addr)] + rest;
      assert es[1..] == rest;
    } else {
      es := [];
    }
  }

  /** From every state a node that has stopped pinging can be taken out within 10000 ms. */
  lemma SilentNodeRemoved(b: Beat, addr: string) returns (es: seq<Event>)
    requires Sound(b) && addr !in b.joining
    ensures Legal(b, es) && NoJoin(es, addr) && addr !in Exec(b, es).nodes
    ensures Exec(b, es).clock <= b.clock + DEAD_AFTER
  {
    var b1 := Step(b, Tick(DEAD_AFTER));
    StepStaysSound(b, Tick(DEAD_AFTER));
    if Armed(b1, addr) {
      var fire := Fire(b1.nodeTimers[addr]);
      var b2 := Step(b1, fire);
      StepStaysSound(b1, fire);
      var rest := RunOfflines(b2, addr);
      es := [Tick(DEAD_AFTER), fire] + rest;
      assert es[1..] == [fire] + rest && ([fire] + rest)[1..] == rest;
    } else {
      var rest := RunOfflines(b1, addr);
      es := [Tick(DEAD_AFTER)] + rest;
      assert es[1..] == rest;
    }
  }

  // ---------------------------------------------------------------- exactly when a Ping holds

  /** The time since the timer of the address was armed, if it has not gone off. */
  function Since(b: Beat, addr: string): Option<nat>
    requires Armed(b, addr) ==> b.pool[b.nodeTimers[addr]].due <= b.clock + DEAD_AFTER
  {
    if Armed(b, addr) then Some(b.clock + DEAD_AFTER - b.pool[b.nodeTimers[addr]].due) else None
  }

  /** Whatever happens after the Ping, the node stays in for as long as it re-arms in time. */
  ghost predicate PingHolds(b: Beat, addr: string)
    requires Sound(b)
  {
    forall es | Legal(Step(b, Join(addr)), es) && Timely(es, addr, Since(b, addr)) ::
      AlwaysIn(Step(b, Join(addr)), es, addr)
  }

  /** The node can be taken out at once: an offline task is waiting, or its old timer is due. */
  predicate CanGoOffline(b: Beat, addr: string) {
    addr in b.fired || (Armed(b, addr) && b.pool[b.nodeTimers[addr]].due <= b.clock)
  }

  /**
   Main result, the exact condition: a Ping followed by re-arms less than 10000 ms apart keeps the node in, over
   every run and interleaving, if and only if no offline task of an earlier timer is waiting for the lock and no
   such timer is due at the moment of the Ping.
   */
  lemma PingHoldsIff(b: Beat, addr: string)
    requires Sound(b)
    ensures PingHolds(b, addr) <==> !CanGoOffline(b, addr)
  {
    var b1 := Step(b, Join(addr));
    StepStaysSound(b, Join(addr));
    if addr in b.fired {
      OfflineDrops(b1, addr);
      var es := [Offline(addr)];
      assert Timely(es[1..], addr, Since(b, addr)) && Timely(es, addr, Since(b, addr));
      assert !AlwaysIn(b1, es, addr);
    } else if CanGoOffline(b, addr) {
      FireDrops(b1, addr);
      var es := [Fire(b.nodeTimers[addr]), Offline(addr)];
      assert es[1..] == [Offline(addr)] && Timely([Offline(addr)][1..], addr, Since(b, addr));
      assert Timely(es[1..], addr, Since(b, addr)) && Timely(es, addr, Since(b, addr));
      assert !AlwaysIn(b1, es, addr);
    } else {
      forall es | Legal(b1, es) && Timely(es, addr, Since(b, addr)) ensures AlwaysIn(b1, es, addr) {
        TimelyNodeStaysIn(b1, es, addr, Since(b, addr));
      }
    }
  }

  lemma OfflineDrops(b: Beat, addr: string)
    requires addr in b.fired
    ensures Legal(b, [Offline(addr)]) && !AlwaysIn(b, [Offline(addr)], addr)
  {
    var es := [Offline(addr)];
    assert es[1..] == [] && Legal(Step(b, es[0]), es[1..]);
    assert !AlwaysIn(Step(b, es[0]), es[1..], addr);
  }

  lemma FireDrops(b: Beat, addr: string)
    requires Sound(b) && Armed(b, addr) && b.pool[b.nodeTimers[addr]].due <= b.clock
    ensures var es := [Fire(b.nodeTimers[addr]), Offline(addr)];
            Legal(b, es) && !AlwaysIn(b, es, addr)
  {
    var es := [Fire(b.nodeTimers[addr]), Offline(addr)];
    assert es[1..] == [Offline(addr)];
    OfflineDrops(Step(b, es[0]), addr);
    assert Legal(Step(b, es[0]), es[1..]) && !AlwaysIn(Step(b, es[0]), es[1..], addr);
  }

  /**
   The window in full: a Ping that arrives while the offline task of the previous timer waits for the lock is undone
   by it, although the new timer has not gone off.
   */
  lemma PingInWindowIsUndone(b: Beat, addr: string)
    requires Sound(b) && addr in b.fired
    ensures var es := [Join(addr), Arm(addr), Offline(addr)];
            Legal(b, es) && Armed(Exec(b, es), addr) && addr !in Exec(b, es).nodes
  {
    var join, arm, offline := Join(addr), Arm(addr), Offline(addr);
    var b2 := Step(b, join);
    var b3 := Step(b2, arm);
    var b4 := Step(b3, offline);
    assert [join, arm, offline][1..] == [arm, offline] && [arm, offline][1..] == [offline] && [offline][1..] == [];
    assert Legal(b4, []) && Legal(b3, [offline]) && Legal(b2, [arm, offline]);
    assert Exec(b4, []) == b4 && Exec(b3, [offline]) == b4 && Exec(b2, [arm, offline]) == b4;
  }

  lemma BootsSound()
    ensures Sound(BOOTED)
  {
  }
}
