/**
 The health-query rounds: a timer launches one query RPC for every known node, and the last reply arms the
 timer again. The guard against overlapping rounds never fires.
 */
module QueryRounds {

  /** `round` and `answered` are history: the nodes of the current round and the replies handled in it. */
  datatype Query = Query(
    nodes: set<string>,
    count: int,
    timers: nat,
    inflight: multiset<string>,
    round: set<string>,
    answered: multiset<string>,
    skipped: nat)

  datatype Event =
    | NodeJoins(node: string)
    | NodeLeaves(node: string)
    | Launch
    | Reply(node: string)

  const BOOTED := Query({}, 0, 1, multiset{}, {}, multiset{}, 0)

  /** `LaunchQuery`, run by the timer. With a non-zero count it would return without arming the timer again. */
  function LaunchStep(q: Query): Query
    requires q.timers > 0
  {
    if q.count != 0 then q.(timers := q.timers - 1, skipped := q.skipped + 1)
    else
      q.(count := |q.nodes|,
      timers := if q.nodes == {} then q.timers else q.timers - 1,
      inflight := q.inflight + multiset(q.nodes),
      round := q.nodes,
      answered := multiset{})
  }

  function ReplyStep(q: Query, node: string): Query {
    q.(count := q.count - 1,
    timers := if q.count - 1 == 0 then q.timers + 1 else q.timers,
    inflight := q.inflight - multiset{node},
    answered := q.answered + multiset{node})
  }

  predicate Enabled(q: Query, e: Event) {
    match e
    case NodeJoins(_) => true
    case NodeLeaves(_) => true
    case Launch => q.timers > 0
    case Reply(node) => node in q.inflight
  }

  function Step(q: Query, e: Event): Query
    requires Enabled(q, e)
  {
    match e
    case NodeJoins(node) => q.(nodes := q.nodes + {node})
    case NodeLeaves(node) => q.(nodes := q.nodes - {node})
    case Launch => LaunchStep(q)
    case Reply(node) => ReplyStep(q, node)
  }

  ghost predicate Legal(q: Query, es: seq<Event>)
    decreases |es|
  {
    es == [] || (Enabled(q, es[0]) && Legal(Step(q, es[0]), es[1..]))
  }

  ghost function Exec(q: Query, es: seq<Event>): Query
    requires Legal(q, es)
    decreases |es|
  {
    if es == [] then q else Exec(Step(q, es[0]), es[1..])
  }

  /**
   The count is the number of RPCs in flight; exactly one of "a timer is pending" and "RPCs are in flight"
   holds; and of the nodes the round started with, each has one query, still in flight or answered.
   */
  predicate InStep(q: Query) {
    && q.count == |q.inflight|
    && q.timers == (if q.count > 0 then 0 else 1)
    && q.inflight + q.answered == multiset(q.round)
    && q.skipped == 0
  }

  lemma StepStaysInStep(q: Query, e: Event)
    requires InStep(q) && Enabled(q, e)
    ensures InStep(Step(q, e))
  {
    if e.Reply? {
      assert q.inflight == q.inflight - multiset{e.node} + multiset{e.node};
    }
  }

  /** Main result, over every run: rounds never overlap, and the guard in `LaunchQuery` never fires. */
  lemma {:induction false} RunsStayInStep(q: Query, es: seq<Event>)
    requires InStep(q) && Legal(q, es)
    ensures InStep(Exec(q, es))
    decreases |es|
  {
    if es != [] {
      StepStaysInStep(q, es[0]);
      RunsStayInStep(Step(q, es[0]), es[1..]);
    }
  }

  /** A step arms the timer exactly when it is the last reply of a round, or a launch that finds no node. */
  lemma ArmedByLastReply(q: Query, es: seq<Event>, e: Event)
    requires InStep(q) && Legal(q, es) && Enabled(Exec(q, es), e)
    ensures var before, after := Exec(q, es), Step(Exec(q, es), e);
            && (after.timers == 1 && before.timers == 0 <==> e.Reply? && before.inflight == multiset{e.node})
            && (e.Launch? ==> after.inflight == multiset(before.nodes) && (after.timers == 1 <==> before.nodes == {}))
            && (after.timers == 1 ==> after.answered == multiset(after.round))
  {
    RunsStayInStep(q, es);
    var before := Exec(q, es);
    StepStaysInStep(before, e);
    if e.Reply? {
      assert before.inflight == before.inflight - multiset{e.node} + multiset{e.node};
      if before.count == 1 {
        assert |before.inflight - multiset{e.node}| == 0;
      }
    }
  }

  /** In a round every node of the snapshot is queried exactly once, whoever joins or leaves meanwhile. */
  lemma EachNodeOnce(q: Query, es: seq<Event>, node: string)
    requires InStep(q) && Legal(q, es)
    ensures var q' := Exec(q, es);
            q'.inflight[node] + q'.answered[node] == if node in q'.round then 1 else 0
  {
    RunsStayInStep(q, es);
    var q' := Exec(q, es);
    assert (q'.inflight + q'.answered)[node] == multiset(q'.round)[node];
  }

  lemma BootsInStep()
    ensures InStep(BOOTED)
  {
  }
}
