/**
 The job-session engine: a session polls a job, collects its task list or watches a reboot, and ends
 in at most one callback. Its only driver is a continuation it schedules for itself.
 */
module JobSessions {
  import opened LumiaTypes
  import opened Text

  /** A `http_workers_` task that will call back into the engine. */
  datatype Cont = Check(id: string) | Finish(id: string) | RebootCheck(id: string)

  datatype Context = Context(hosts: seq<string>, tryCount: int)

  /** A `call_back_workers_` task. */
  datatype Call = Call(id: string, success: seq<string>, fails: seq<string>)

  datatype TaskReport = TaskReport(host: string, status: string, exitCode: int)

  /** What a GET brings: nothing, a body that is no JSON object, or an object with or without its members. */
  datatype HttpReply<+T> = GetFailed | NotJson | Doc(code: Option<int>, data: Option<T>)

  datatype Phase = Polling | Finishing | Rebooting | Parked | Done

  /** The history of a session id; `gets` counts the task-list GETs, `misses` the failed GETs that were charged. */
  datatype Life = Life(
    reboot: bool,
    hosts: seq<string>,
    phase: Phase,
    gets: nat,
    misses: nat,
    report: Option<seq<TaskReport>>)

  datatype Jobs = Jobs(
    sessions: map<string, Context>,
    conts: multiset<Cont>,
    calls: seq<Call>,
    lives: map<string, Life>)

  const BOOTED := Jobs(map[], multiset{}, [], map[])

  datatype Event =
    | Submit(id: string, hosts: seq<string>)
    | SubmitReboot(id: string, hosts: seq<string>)
    | Poll(id: string, job: HttpReply<string>)
    | Collect(id: string, tasks: HttpReply<seq<TaskReport>>)
    | Watch(id: string, body: Option<string>)

  // ---------------------------------------------------------------- the split of a task list

  predicate Succeeded(t: TaskReport) {
    t.status == "EXITED" && t.exitCode == 0
  }

  /** The hosts of the tasks whose success is `ok`, in report order. */
  function HostsWith(tasks: seq<TaskReport>, ok: bool): seq<string> {
    if tasks == [] then []
    else (if Succeeded(tasks[0]) == ok then [tasks[0].host] else []) + HostsWith(tasks[1..], ok)
  }

  // ---------------------------------------------------------------- steps

  const DELIVERED := "已交付"

  /** A continuation returns without scheduling another one. */
  function Drop(j: Jobs, used: Cont): Jobs {
    j.(conts := j.conts - multiset{used})
  }

  function Keep(j: Jobs, used: Cont, next: Cont): Jobs {
    j.(conts := j.conts - multiset{used} + multiset{next})
  }

  function WithLife(j: Jobs, id: string, l: Life): Jobs {
    j.(lives := j.lives[id := l])
  }

  /** The session is erased, with the given callbacks. */
  function Close(j: Jobs, used: Cont, calls: seq<Call>, l: Life): Jobs {
    j.(sessions := j.sessions - {used.id}, conts := j.conts - multiset{used}, calls := j.calls + calls,
    lives := j.lives[used.id := l.(phase := Done)])
  }

  function Open(j: Jobs, id: string, hosts: seq<string>, reboot: bool): Jobs {
    j.(sessions := j.sessions[id := Context(hosts, 0)],
    conts := j.conts + multiset{if reboot then RebootCheck(id) else Check(id)},
    lives := j.lives[id := Life(reboot, hosts, if reboot then Rebooting else Polling, 0, 0, None)])
  }

  predicate JobEnded(status: string) {
    status == "FINISH" || status == "CANCELED"
  }

  function PollStep(j: Jobs, id: string, job: HttpReply<string>): Jobs
  {
    if id !in j.sessions || id !in j.lives then Drop(j, Check(id)) else
    var l := j.lives[id];
    if job.Doc? && job.code == Some(0) then
      match job.data
      case None => Close(j, Check(id), [Call(id, [], [])], l)
      case Some(status) =>
        if JobEnded(status)
        then WithLife(Keep(j, Check(id), Finish(id)), id, l.(phase := Finishing))
        else Keep(j, Check(id), Check(id))
    else Keep(j, Check(id), Check(id))
  }

  function CollectStep(j: Jobs, id: string, tasks: HttpReply<seq<TaskReport>>): Jobs
  {
    if id !in j.sessions || id !in j.lives then Drop(j, Finish(id)) else
    var c := j.sessions[id];
    var l := j.lives[id].(gets := j.lives[id].gets + 1);
    if tasks.GetFailed? then
      var missed := l.(misses := l.misses + 1);
      if c.tryCount <= 5
      then WithLife(Keep(j, Finish(id), Finish(id)).(sessions := j.sessions[id := c.(tryCount := c.tryCount + 1)]),
                    id, missed)
      else Close(j, Finish(id), [Call(id, [], c.hosts)], missed)
    else if tasks.Doc? && tasks.code == Some(0) && tasks.data.Some? then
      var ts := tasks.data.value;
      Close(j, Finish(id), [Call(id, HostsWith(ts, true), HostsWith(ts, false))], l.(report := Some(ts)))
    else
      WithLife(Drop(j, Finish(id)), id, l.(phase := Parked))
  }

  function WatchStep(j: Jobs, id: string, body: Option<string>): Jobs
  {
    if id !in j.sessions || id !in j.lives then Drop(j, RebootCheck(id)) else
    var c := j.sessions[id];
    var l := j.lives[id];
    match body
    case None =>
      var missed := l.(misses := l.misses + 1);
      if c.tryCount <= 0
      then WithLife(Keep(j, RebootCheck(id), RebootCheck(id)).(sessions := j.sessions[id := c.(tryCount := c.tryCount + 1)]),
                    id, missed)
      else Close(j, RebootCheck(id), [], missed)
    case Some(text) =>
      if Contains(text, DELIVERED)
      then Close(j, RebootCheck(id), [Call(id, c.hosts, [])], l)
      else Keep(j, RebootCheck(id), RebootCheck(id))
  }

  function ContOf(e: Event): Option<Cont> {
    match e
    case Poll(id, _) => Some(Check(id))
    case Collect(id, _) => Some(Finish(id))
    case Watch(id, _) => Some(RebootCheck(id))
    case _ => None
  }

  /** Session ids are fresh, and a continuation runs only if it was scheduled. */
  predicate Enabled(j: Jobs, e: Event) {
    if ContOf(e).Some? then ContOf(e).value in j.conts else e.id !in j.lives
  }

  function Step(j: Jobs, e: Event): Jobs {
    match e
    case Submit(id, hosts) => Open(j, id, hosts, false)
    case SubmitReboot(id, hosts) => Open(j, id, hosts, true)
    case Poll(id, job) => PollStep(j, id, job)
    case Collect(id, tasks) => CollectStep(j, id, tasks)
    case Watch(id, body) => WatchStep(j, id, body)
  }

  ghost predicate Legal(j: Jobs, es: seq<Event>)
    decreases |es|
  {
    es == [] || (Enabled(j, es[0]) && Legal(Step(j, es[0]), es[1..]))
  }

  function Exec(j: Jobs, es: seq<Event>): Jobs
    decreases |es|
  {
    if es == [] then j else Exec(Step(j, es[0]), es[1..])
  }
}

/** Safety of the job sessions over every run. */
module JobSessionSafety {
  import opened LumiaTypes
  import opened JobSessions
  import opened Text

  /** The callbacks of one session, in order. */
  function CallsOf(calls: seq<Call>, id: string): seq<Call> {
    if calls == [] then []
    else
      var n := |calls| - 1;
      CallsOf(calls[..n], id) + if calls[n].id == id then [calls[n]] else []
  }

  /**
   What the callers of a session are told, read off its history: nothing while it lives or after the second
   failed GET of a reboot; otherwise one callback.
   */
  function Outcome(id: string, l: Life): seq<Call> {
    if l.phase != Done then []
    else if l.reboot then if l.misses >= 2 then [] else [Call(id, l.hosts, [])]
    else match l.report
      case Some(ts) => [Call(id, HostsWith(ts, true), HostsWith(ts, false))]
      case None => if l.misses >= 7 then [Call(id, [], l.hosts)] else [Call(id, [], [])]
  }

  /** How many continuations of each kind a session in this phase has: one, or none once it is parked or done. */
  predicate ContsMatch(conts: multiset<Cont>, id: string, phase: Option<Phase>) {
    && conts[Check(id)] == (if phase == Some(Polling) then 1 else 0)
    && conts[Finish(id)] == (if phase == Some(Finishing) then 1 else 0)
    && conts[RebootCheck(id)] == (if phase == Some(Rebooting) then 1 else 0)
  }

  /** Failed GETs that were charged, against the phase. */
  predicate CountsMatch(l: Life) {
    match l.phase
    case Polling => !l.reboot && l.gets == l.misses == 0 && l.report.None?
    case Finishing => !l.reboot && l.gets == l.misses <= 6 && l.report.None?
    case Parked => !l.reboot && l.gets == l.misses + 1 <= 7 && l.report.None?
    case Rebooting => l.reboot && l.gets == 0 && l.misses <= 1 && l.report.None?
    case Done =>
      if l.reboot then l.gets == 0 && l.misses <= 2 && l.report.None?
      else if l.report.Some? then l.gets == l.misses + 1 <= 7
      else l.gets == l.misses && (l.misses == 0 || l.misses == 7)
  }

  predicate SessionMatch(sessions: map<string, Context>, id: string, l: Life) {
    if l.phase == Done then id !in sessions
    else id in sessions && sessions[id] == Context(l.hosts, l.misses)
  }

  predicate SoundAt(j: Jobs, id: string) {
    if id in j.lives then
      && ContsMatch(j.conts, id, Some(j.lives[id].phase))
      && CountsMatch(j.lives[id])
      && SessionMatch(j.sessions, id, j.lives[id])
      && CallsOf(j.calls, id) == Outcome(id, j.lives[id])
    else
      ContsMatch(j.conts, id, None) && id !in j.sessions && CallsOf(j.calls, id) == []
  }

  ghost predicate Sound(j: Jobs) {
    forall id :: SoundAt(j, id)
  }

  lemma CallsOfAppend(calls: seq<Call>, more: seq<Call>, id: string)
    requires |more| <= 1
    ensures CallsOf(calls + more, id)
         == CallsOf(calls, id) + if |more| == 1 && more[0].id == id then more else []
  {
    if |more| == 1 {
      assert (calls + more)[..|calls|] == calls;
    } else {
      assert calls + more == calls;
    }
  }

  // ---------------------------------------------------------------- one step, elsewhere

  predicate SameFor(j: Jobs, j': Jobs, id: string) {
    && (id in j.lives <==> id in j'.lives) && (id in j.lives ==> j.lives[id] == j'.lives[id])
    && (id in j.sessions <==> id in j'.sessions) && (id in j.sessions ==> j.sessions[id] == j'.sessions[id])
    && j.conts[Check(id)] == j'.conts[Check(id)]
    && j.conts[Finish(id)] == j'.conts[Finish(id)]
    && j.conts[RebootCheck(id)] == j'.conts[RebootCheck(id)]
    && CallsOf(j.calls, id) == CallsOf(j'.calls, id)
  }

  lemma CloseElsewhere(j: Jobs, used: Cont, calls: seq<Call>, l: Life, x: string)
    requires |calls| <= 1 && x != used.id && forall c | c in calls :: c.id == used.id
    ensures SameFor(j, Close(j, used, calls, l), x)
  {
    CallsOfAppend(j.calls, calls, x);
  }

  /** A continuation of the session is used up, with or without a next one, and its history extended. */
  lemma GoneOnElsewhere(j: Jobs, used: Cont, next: Cont, c: Context, l: Life, x: string)
    requires x != used.id && next.id == used.id
    ensures SameFor(j, Keep(j, used, next), x)
    ensures SameFor(j, WithLife(Keep(j, used, next), used.id, l), x)
    ensures SameFor(j, WithLife(Keep(j, used, next).(sessions := j.sessions[used.id := c]), used.id, l), x)
    ensures SameFor(j, WithLife(Drop(j, used), used.id, l), x)
    ensures SameFor(j, Drop(j, used), x)
  {
    hide CallsOf;
  }

  lemma PollElsewhere(j: Jobs, id: string, job: HttpReply<string>, x: string)
    requires x != id
    ensures SameFor(j, PollStep(j, id, job), x)
  {
    hide Close, Keep, Drop, WithLife, SameFor;
    GoneOnElsewhere(j, Check(id), Check(id), Context([], 0), Life(false, [], Polling, 0, 0, None), x);
    if id in j.lives {
      GoneOnElsewhere(j, Check(id), Finish(id), Context([], 0), j.lives[id].(phase := Finishing), x);
      CloseElsewhere(j, Check(id), [Call(id, [], [])], j.lives[id], x);
    }
  }

  lemma CollectElsewhere(j: Jobs, id: string, tasks: HttpReply<seq<TaskReport>>, x: string)
    requires x != id
    ensures SameFor(j, CollectStep(j, id, tasks), x)
  {
    hide Close, Keep, Drop, WithLife, SameFor, HostsWith;
    GoneOnElsewhere(j, Finish(id), Finish(id), Context([], 0), Life(false, [], Polling, 0, 0, None), x);
    if id in j.sessions && id in j.lives {
      var c, l := j.sessions[id], j.lives[id].(gets := j.lives[id].gets + 1);
      var missed := l.(misses := l.misses + 1);
      GoneOnElsewhere(j, Finish(id), Finish(id), c.(tryCount := c.tryCount + 1), missed, x);
      GoneOnElsewhere(j, Finish(id), Finish(id), c, l.(phase := Parked), x);
      CloseElsewhere(j, Finish(id), [Call(id, [], c.hosts)], missed, x);
      if tasks.Doc? && tasks.data.Some? {
        var ts := tasks.data.value;
        CloseElsewhere(j, Finish(id), [Call(id, HostsWith(ts, true), HostsWith(ts, false))], l.(report := Some(ts)), x);
      }
    }
  }

  lemma WatchElsewhere(j: Jobs, id: string, body: Option<string>, x: string)
    requires x != id
    ensures SameFor(j, WatchStep(j, id, body), x)
  {
    hide Close, Keep, Drop, WithLife, SameFor;
    GoneOnElsewhere(j, RebootCheck(id), RebootCheck(id), Context([], 0), Life(false, [], Polling, 0, 0, None), x);
    if id in j.sessions && id in j.lives {
      var c, l := j.sessions[id], j.lives[id];
      var missed := l.(misses := l.misses + 1);
      GoneOnElsewhere(j, RebootCheck(id), RebootCheck(id), c.(tryCount := c.tryCount + 1), missed, x);
      CloseElsewhere(j, RebootCheck(id), [], missed, x);
      CloseElsewhere(j, RebootCheck(id), [Call(id, c.hosts, [])], l, x);
    }
  }

  // ---------------------------------------------------------------- one step, at its own session

  /** Closing a live session with the callbacks its history calls for. */
  lemma ClosedHere(j: Jobs, used: Cont, calls: seq<Call>, l: Life)
    requires SoundAt(j, used.id) && used in j.conts && |calls| <= 1
    requires calls == Outcome(used.id, l.(phase := Done)) && CountsMatch(l.(phase := Done))
    ensures SoundAt(Close(j, used, calls, l), used.id)
  {
    CallsOfAppend(j.calls, calls, used.id);
  }

  /** Scheduling the same continuation again. */
  lemma KeptHere(j: Jobs, used: Cont)
    requires SoundAt(j, used.id) && used in j.conts
    ensures SoundAt(Keep(j, used, used), used.id)
  {
    hide CallsOf;
    assert j.conts - multiset{used} + multiset{used} == j.conts;
  }

  /** A failed GET that is still tolerated. */
  lemma MissedHere(j: Jobs, used: Cont, l: Life)
    requires SoundAt(j, used.id) && used in j.conts && used.id in j.lives
    requires l.phase == j.lives[used.id].phase != Done && CountsMatch(l) && l.hosts == j.lives[used.id].hosts
    ensures SoundAt(WithLife(Keep(j, used, used).(sessions := j.sessions[used.id := Context(l.hosts, l.misses)]), used.id, l),
                    used.id)
  {
    hide CallsOf, CountsMatch;
    assert j.conts - multiset{used} + multiset{used} == j.conts;
  }

  lemma FinishingHere(j: Jobs, id: string)
    requires SoundAt(j, id) && Check(id) in j.conts
    ensures SoundAt(WithLife(Keep(j, Check(id), Finish(id)), id, j.lives[id].(phase := Finishing)), id)
  {
    hide CallsOf;
  }

  lemma ParkedHere(j: Jobs, id: string)
    requires SoundAt(j, id) && Finish(id) in j.conts
    ensures SoundAt(WithLife(Drop(j, Finish(id)), id, j.lives[id].(gets := j.lives[id].gets + 1, phase := Parked)), id)
  {
    hide CallsOf;
  }

  lemma PollHere(j: Jobs, id: string, job: HttpReply<string>)
    requires SoundAt(j, id) && Check(id) in j.conts
    ensures SoundAt(PollStep(j, id, job), id)
  {
    KeptHere(j, Check(id));
    FinishingHere(j, id);
    ClosedHere(j, Check(id), [Call(id, [], [])], j.lives[id]);
    assert id in j.sessions && id in j.lives;
    hide SoundAt, JobEnded, Close, Keep, WithLife;
  }

  lemma CollectHere(j: Jobs, id: string, tasks: HttpReply<seq<TaskReport>>)
    requires SoundAt(j, id) && Finish(id) in j.conts
    ensures SoundAt(CollectStep(j, id, tasks), id)
  {
    hide CallsOf;
    var c, l := j.sessions[id], j.lives[id].(gets := j.lives[id].gets + 1);
    var missed := l.(misses := l.misses + 1);
    ParkedHere(j, id);
    if tasks.GetFailed? {
      if c.tryCount <= 5 {
        MissedHere(j, Finish(id), missed);
      } else {
        ClosedHere(j, Finish(id), [Call(id, [], c.hosts)], missed);
      }
    } else if tasks.Doc? && tasks.data.Some? {
      var ts := tasks.data.value;
      ClosedHere(j, Finish(id), [Call(id, HostsWith(ts, true), HostsWith(ts, false))], l.(report := Some(ts)));
    }
    hide SoundAt, Close, Keep, WithLife, Drop, HostsWith;
  }

  lemma WatchHere(j: Jobs, id: string, body: Option<string>)
    requires SoundAt(j, id) && RebootCheck(id) in j.conts
    ensures SoundAt(WatchStep(j, id, body), id)
  {
    hide Contains, CallsOf;
    var c, l := j.sessions[id], j.lives[id];
    var missed := l.(misses := l.misses + 1);
    KeptHere(j, RebootCheck(id));
    if body.Some? {
      ClosedHere(j, RebootCheck(id), [Call(id, c.hosts, [])], l);
    } else if c.tryCount <= 0 {
      MissedHere(j, RebootCheck(id), missed);
    } else {
      ClosedHere(j, RebootCheck(id), [], missed);
    }
    hide SoundAt, Close, Keep, WithLife;
  }

  lemma StepStaysSound(j: Jobs, e: Event)
    requires Sound(j) && Enabled(j, e)
    ensures Sound(Step(j, e))
  {
    assert SoundAt(j, e.id);
    match e {
      case Poll(id, job) => PollHere(j, id, job);
      case Collect(id, tasks) => CollectHere(j, id, tasks);
      case Watch(id, body) => WatchHere(j, id, body);
      case _ =>
    }
    forall x ensures SoundAt(Step(j, e), x) {
      assert SoundAt(j, x);
      if x != e.id {
        match e
        case Poll(id, job) => PollElsewhere(j, id, job, x);
        case Collect(id, tasks) => CollectElsewhere(j, id, tasks, x);
        case Watch(id, body) => WatchElsewhere(j, id, body, x);
        case _ =>
      }
    }
  }

  // ---------------------------------------------------------------- whole runs

  /** Main result: continuations, counts, sessions and callbacks agree with the history in every state. */
  lemma {:induction false} RunsStaySound(j: Jobs, es: seq<Event>)
    requires Sound(j) && Legal(j, es)
    ensures Sound(Exec(j, es))
    decreases |es|
  {
    if es != [] {
      StepStaysSound(j, es[0]);
      RunsStaySound(Step(j, es[0]), es[1..]);
    }
  }

  lemma BootsSound()
    ensures Sound(BOOTED)
  {
  }

  /** A session id's callback fires at most once, and not before the session is erased. */
  lemma CallbackAtMostOnce(es: seq<Event>, id: string)
    requires Legal(BOOTED, es)
    ensures |CallsOf(Exec(BOOTED, es).calls, id)| <= 1
    ensures id in Exec(BOOTED, es).sessions ==> CallsOf(Exec(BOOTED, es).calls, id) == []
  {
    BootsSound();
    RunsStaySound(BOOTED, es);
    assert SoundAt(Exec(BOOTED, es), id);
  }

  /** A callback is queued only in the step that erases the session. */
  lemma CallbackOnlyOnErase(j: Jobs, e: Event, id: string)
    requires Sound(j) && Enabled(j, e)
    ensures CallsOf(Step(j, e).calls, id) != CallsOf(j.calls, id) ==> id in j.sessions && id !in Step(j, e).sessions
  {
    StepStaysSound(j, e);
    assert SoundAt(j, id) && SoundAt(Step(j, e), id);
    if id in j.lives {
      PhaseMoves(j, e, id);
    }
  }

  /** The only ways from one phase to the next; none leads from finishing back to polling. */
  predicate MovesTo(p: Phase, q: Phase) {
    || p == q
    || (p == Polling && (q == Finishing || q == Done))
    || (p == Finishing && (q == Parked || q == Done))
    || (p == Rebooting && q == Done)
  }

  function CountIf(b: bool): nat { if b then 1 else 0 }

  function IsMiss(e: Event): bool {
    (e.Collect? && e.tasks.GetFailed?) || (e.Watch? && e.body.None?)
  }

  /** What a step does to the history of one id. */
  lemma PhaseMoves(j: Jobs, e: Event, id: string)
    requires Sound(j) && Enabled(j, e) && id in j.lives
    ensures id in Step(j, e).lives
    ensures var l, l' := j.lives[id], Step(j, e).lives[id];
            && MovesTo(l.phase, l'.phase) && l'.reboot == l.reboot && l'.hosts == l.hosts
            && (l.phase == Done ==> l' == l)
            && l'.gets == l.gets + CountIf(e.id == id && e.Collect?)
            && l'.misses == l.misses + CountIf(e.id == id && IsMiss(e))
  {
    assert SoundAt(j, id);
  }

  // ---------------------------------------------------------------- which replies move a session on

  /** The reply says that the job has ended. */
  predicate SaysEnded(job: HttpReply<string>) {
    job == Doc(Some(0), Some("FINISH")) || job == Doc(Some(0), Some("CANCELED"))
  }

  /** The reply says that the machines have been delivered. */
  ghost predicate SaysDelivered(body: Option<string>) {
    body.Some? && exists i: nat :: i <= |body.value| && "已交付" <= body.value[i..]
  }

  /** The phase after a reply, for a session that is waiting for it. */
  ghost function PhaseAfter(e: Event, misses: nat): Phase {
    match e
    case Poll(_, job) => if SaysEnded(job) then Finishing else if job == Doc(Some(0), None) then Done else Polling
    case Collect(_, tasks) =>
      if tasks.GetFailed? then if misses < 6 then Finishing else Done
      else if tasks.Doc? && tasks.code == Some(0) && tasks.data.Some? then Done
      else Parked
    case Watch(_, body) =>
      if body.None? then if misses < 1 then Rebooting else Done
      else if SaysDelivered(body) then Done
      else Rebooting
    case Submit(_, _) => Polling
    case SubmitReboot(_, _) => Rebooting
  }

  /** Exactly which event brings a session into which phase, for every session and every event. */
  lemma PhaseTable(j: Jobs, e: Event, id: string)
    requires Sound(j) && Enabled(j, e)
    ensures id in Step(j, e).lives <==> id in j.lives || e.id == id
    ensures e.id == id ==>
              Step(j, e).lives[id].phase == PhaseAfter(e, if id in j.lives then j.lives[id].misses else 0)
    ensures e.id != id && id in j.lives ==> Step(j, e).lives[id] == j.lives[id]
  {
    assert SoundAt(j, e.id);
    if e.id == id {
      match e
      case Poll(_, job) => PollPhase(j, id, job);
      case Collect(_, tasks) => CollectPhase(j, id, tasks);
      case Watch(_, body) => WatchPhase(j, id, body);
      case _ =>
    } else if id in j.lives {
      PhaseMoves(j, e, id);
      ElsewhereSame(j, e, id);
    } else {
      ElsewhereSame(j, e, id);
    }
  }

  lemma PollPhase(j: Jobs, id: string, job: HttpReply<string>)
    requires SoundAt(j, id) && Check(id) in j.conts
    ensures id in j.lives && id in PollStep(j, id, job).lives
    ensures PollStep(j, id, job).lives[id].phase == PhaseAfter(Poll(id, job), j.lives[id].misses)
  {
  }

  lemma CollectPhase(j: Jobs, id: string, tasks: HttpReply<seq<TaskReport>>)
    requires SoundAt(j, id) && Finish(id) in j.conts
    ensures id in j.lives && id in CollectStep(j, id, tasks).lives
    ensures CollectStep(j, id, tasks).lives[id].phase == PhaseAfter(Collect(id, tasks), j.lives[id].misses)
  {
  }

  lemma WatchPhase(j: Jobs, id: string, body: Option<string>)
    requires SoundAt(j, id) && RebootCheck(id) in j.conts
    ensures id in j.lives && id in WatchStep(j, id, body).lives
    ensures WatchStep(j, id, body).lives[id].phase == PhaseAfter(Watch(id, body), j.lives[id].misses)
  {
    if body.Some? {
      ContainsIff(body.value, "已交付");
    }
  }

  lemma ElsewhereSame(j: Jobs, e: Event, id: string)
    requires e.id != id
    ensures id in Step(j, e).lives <==> id in j.lives
    ensures id in j.lives ==> Step(j, e).lives[id] == j.lives[id]
  {
  }

  /** The session has left polling to collect its task list. */
  predicate BeganCollecting(l: Life) {
    l.phase == Finishing || l.phase == Parked || (l.phase == Done && l.gets > 0)
  }

  ghost predicate ToldEnded(es: seq<Event>, id: string) {
    exists job :: Poll(id, job) in es && SaysEnded(job)
  }

  /** Over every run a polling session goes on to collect its task list if and only if a poll says that the job has ended. */
  lemma {:induction false} CollectsIff(j: Jobs, es: seq<Event>, id: string)
    requires Sound(j) && Legal(j, es) && id in j.lives && j.lives[id].phase == Polling
    ensures id in Exec(j, es).lives
    ensures BeganCollecting(Exec(j, es).lives[id]) <==> ToldEnded(es, id)
    decreases |es|
  {
    RunMoves(j, es, id);
    assert SoundAt(j, id);
    if es != [] {
      var e, next := es[0], Step(j, es[0]);
      StepStaysSound(j, e);
      PhaseTable(j, e, id);
      assert SoundAt(next, id);
      assert forall f :: f in es <==> f == e || f in es[1..];
      if next.lives[id].phase == Polling {
        CollectsIff(next, es[1..], id);
      } else if next.lives[id].phase == Finishing {
        assert Poll(id, e.job) in es;
        CollectingStays(next, es[1..], id);
      } else {
        DoneStays(next, es[1..], id);
        NothingAfterDone(next, es[1..], id);
      }
    }
  }

  lemma {:induction false} CollectingStays(j: Jobs, es: seq<Event>, id: string)
    requires Sound(j) && Legal(j, es) && id in j.lives && BeganCollecting(j.lives[id])
    ensures id in Exec(j, es).lives && BeganCollecting(Exec(j, es).lives[id])
    decreases |es|
  {
    if es != [] {
      StepStaysSound(j, es[0]);
      PhaseMoves(j, es[0], id);
      PhaseTable(j, es[0], id);
      assert SoundAt(j, id);
      CollectingStays(Step(j, es[0]), es[1..], id);
    }
  }

  /** A session that is done gets no more replies. */
  lemma {:induction false} NothingAfterDone(j: Jobs, es: seq<Event>, id: string)
    requires Sound(j) && Legal(j, es) && id in j.lives && j.lives[id].phase == Done
    ensures forall e | e in es :: e.id != id
    decreases |es|
  {
    if es != [] {
      assert SoundAt(j, id);
      StepStaysSound(j, es[0]);
      PhaseMoves(j, es[0], id);
      NothingAfterDone(Step(j, es[0]), es[1..], id);
    }
  }

  ghost predicate ToldDelivered(es: seq<Event>, id: string) {
    exists body :: Watch(id, body) in es && SaysDelivered(body)
  }

  /** Over every run the callers of a reboot are told, once and with all its hosts, if and only if a reply says it is delivered. */
  lemma {:induction false} DeliveredIff(j: Jobs, es: seq<Event>, id: string)
    requires Sound(j) && Legal(j, es) && id in j.lives && j.lives[id].phase == Rebooting
    ensures CallsOf(Exec(j, es).calls, id) == [Call(id, j.lives[id].hosts, [])] <==> ToldDelivered(es, id)
    ensures CallsOf(Exec(j, es).calls, id) == [] <==> !ToldDelivered(es, id)
    decreases |es|
  {
    assert SoundAt(j, id);
    if es != [] {
      var e, next := es[0], Step(j, es[0]);
      StepStaysSound(j, e);
      PhaseMoves(j, e, id);
      PhaseTable(j, e, id);
      assert SoundAt(next, id);
      assert forall f :: f in es <==> f == e || f in es[1..];
      if next.lives[id].phase == Rebooting {
        DeliveredIff(next, es[1..], id);
      } else {
        DoneStays(next, es[1..], id);
        NothingAfterDone(next, es[1..], id);
        RunsStaySound(next, es[1..]);
        assert SoundAt(Exec(j, es), id);
        assert ToldDelivered(es, id) <==> SaysDelivered(e.body) by {
          if SaysDelivered(e.body) {
            assert Watch(id, e.body) in es;
          }
        }
      }
    }
  }

  function Gets(es: seq<Event>, id: string): nat {
    if es == [] then 0 else CountIf(es[0].id == id && es[0].Collect?) + Gets(es[1..], id)
  }

  function Misses(es: seq<Event>, id: string): nat {
    if es == [] then 0 else CountIf(es[0].id == id && IsMiss(es[0])) + Misses(es[1..], id)
  }

  /** Phases only move forward over a run, and the counters count the GETs of the run. */
  lemma {:induction false} RunMoves(j: Jobs, es: seq<Event>, id: string)
    requires Sound(j) && Legal(j, es) && id in j.lives
    ensures id in Exec(j, es).lives
    ensures var l, l' := j.lives[id], Exec(j, es).lives[id];
            && (l.phase == Finishing ==> l'.phase != Polling)
            && (l.phase == Parked || l.phase == Done ==> l'.phase == l.phase)
            && l'.reboot == l.reboot && l'.hosts == l.hosts
            && l'.gets == l.gets + Gets(es, id) && l'.misses == l.misses + Misses(es, id)
    decreases |es|
  {
    if es != [] {
      StepStaysSound(j, es[0]);
      PhaseMoves(j, es[0], id);
      RunMoves(Step(j, es[0]), es[1..], id);
    }
  }

  /** From the moment a session is submitted. */
  lemma SubmittedMoves(j: Jobs, id: string, hosts: seq<string>, reboot: bool, es: seq<Event>)
    requires Sound(j) && id !in j.lives
    requires Legal(Step(j, if reboot then SubmitReboot(id, hosts) else Submit(id, hosts)), es)
    ensures var j' := Exec(Step(j, if reboot then SubmitReboot(id, hosts) else Submit(id, hosts)), es);
            && id in j'.lives && SoundAt(j', id)
            && j'.lives[id].reboot == reboot && j'.lives[id].hosts == hosts
            && j'.lives[id].gets == Gets(es, id) && j'.lives[id].misses == Misses(es, id)
  {
    var e := if reboot then SubmitReboot(id, hosts) else Submit(id, hosts);
    StepStaysSound(j, e);
    RunMoves(Step(j, e), es, id);
    RunsStaySound(Step(j, e), es);
  }

  /** What a closed session was told by, among the events of a run. */
  ghost predicate EndedBy(es: seq<Event>, id: string, calls: seq<Call>, misses: nat) {
    || (exists ts :: Collect(id, Doc(Some(0), Some(ts))) in es
          && calls == [Call(id, HostsWith(ts, true), HostsWith(ts, false))])
    || (Poll(id, Doc(Some(0), None)) in es && calls == [Call(id, [], [])])
    || misses == 7
  }

  lemma PollEnds(j: Jobs, id: string, job: HttpReply<string>)
    requires SoundAt(j, id) && id in j.lives && Check(id) in j.conts && PollStep(j, id, job).lives[id].phase == Done
    ensures job == Doc(Some(0), None)
    ensures Outcome(id, PollStep(j, id, job).lives[id]) == [Call(id, [], [])]
  {
  }

  lemma CollectEnds(j: Jobs, id: string, tasks: HttpReply<seq<TaskReport>>)
    requires SoundAt(j, id) && id in j.lives && Finish(id) in j.conts && CollectStep(j, id, tasks).lives[id].phase == Done
    ensures var l := CollectStep(j, id, tasks).lives[id];
            if tasks.GetFailed? then l.misses == 7
            else l.report.Some? && tasks == Doc(Some(0), Some(l.report.value)) && !l.reboot
  {
  }

  lemma EndingStep(j: Jobs, e: Event, id: string)
    requires Sound(j) && Enabled(j, e) && id in j.lives && !j.lives[id].reboot
    requires j.lives[id].phase != Done && Step(j, e).lives[id].phase == Done
    ensures EndedBy([e], id, Outcome(id, Step(j, e).lives[id]), Step(j, e).lives[id].misses)
  {
    hide CallsOf, HostsWith;
    assert SoundAt(j, id);
    assert e in [e];
    match e
    case Poll(_, job) => PollEnds(j, id, job);
    case Collect(_, tasks) => CollectEnds(j, id, tasks);
    case _ =>
  }

  lemma {:induction false} DoneStays(j: Jobs, es: seq<Event>, id: string)
    requires Sound(j) && Legal(j, es) && id in j.lives && j.lives[id].phase == Done
    ensures id in Exec(j, es).lives && Exec(j, es).lives[id] == j.lives[id]
    decreases |es|
  {
    if es != [] {
      StepStaysSound(j, es[0]);
      PhaseMoves(j, es[0], id);
      DoneStays(Step(j, es[0]), es[1..], id);
    }
  }

  /** A session that is closed during a run was closed by one of its events. */
  lemma {:induction false} RunEnding(j: Jobs, es: seq<Event>, id: string)
    requires Sound(j) && Legal(j, es) && id in j.lives && !j.lives[id].reboot && j.lives[id].phase != Done
    requires id in Exec(j, es).lives && Exec(j, es).lives[id].phase == Done
    ensures EndedBy(es, id, Outcome(id, Exec(j, es).lives[id]), Exec(j, es).lives[id].misses)
    decreases |es|
  {
    var next := Step(j, es[0]);
    StepStaysSound(j, es[0]);
    PhaseMoves(j, es[0], id);
    assert es[0] in es && forall e | e in es[1..] :: e in es;
    if next.lives[id].phase == Done {
      EndingStep(j, es[0], id);
      DoneStays(next, es[1..], id);
    } else {
      RunEnding(next, es[1..], id);
    }
  }

  /**
   Bounded retry of an exec session, over every run after its submission and among any other sessions: at most
   seven task-list GETs are issued, and seven failures end in the callback (none, all hosts). Otherwise an erased
   session has had one callback, the split of a task list it was sent, or (none, none) for a job without data.
   */
  lemma ExecRetryBounded(j: Jobs, id: string, hosts: seq<string>, es: seq<Event>)
    requires Sound(j) && id !in j.lives && Legal(Step(j, Submit(id, hosts)), es)
    ensures Gets(es, id) <= 7 && Misses(es, id) <= 7
    ensures var j' := Exec(Step(j, Submit(id, hosts)), es);
            && (Misses(es, id) == 7 ==> id !in j'.sessions && CallsOf(j'.calls, id) == [Call(id, [], hosts)])
            && (id !in j'.sessions ==> |CallsOf(j'.calls, id)| == 1 && EndedBy(es, id, CallsOf(j'.calls, id), Misses(es, id)))
  {
    SubmittedMoves(j, id, hosts, false, es);
    StepStaysSound(j, Submit(id, hosts));
    if id !in Exec(Step(j, Submit(id, hosts)), es).sessions {
      RunEnding(Step(j, Submit(id, hosts)), es, id);
    }
  }

  /**
   A reboot session tolerates exactly one failed GET over its whole lifetime, consecutive or not: the second
   erases it, and its callers are never told.
   */
  lemma RebootToleratesOne(j: Jobs, id: string, hosts: seq<string>, es: seq<Event>)
    requires Sound(j) && id !in j.lives && Legal(Step(j, SubmitReboot(id, hosts)), es)
    ensures Misses(es, id) <= 2
    ensures var j' := Exec(Step(j, SubmitReboot(id, hosts)), es);
            && (Misses(es, id) == 2 ==> id !in j'.sessions && CallsOf(j'.calls, id) == [])
            && (id !in j'.sessions && Misses(es, id) < 2 ==> CallsOf(j'.calls, id) == [Call(id, hosts, [])])
  {
    SubmittedMoves(j, id, hosts, true, es);
  }

  // ---------------------------------------------------------------- which sessions are parked

  /** A reply to the task-list GET that is neither a failed GET nor a task list. */
  predicate Unusable(tasks: HttpReply<seq<TaskReport>>) {
    !tasks.GetFailed? && !(tasks.Doc? && tasks.code == Some(0) && tasks.data.Some?)
  }

  ghost predicate SentUnusable(es: seq<Event>, id: string) {
    exists tasks :: Collect(id, tasks) in es && Unusable(tasks)
  }

  predicate IsParked(j: Jobs, id: string) {
    id in j.lives && j.lives[id].phase == Parked
  }

  /** One step parks a session exactly when it hands it an unusable reply. */
  lemma ParksIff(j: Jobs, e: Event, id: string)
    requires Sound(j) && Enabled(j, e) && !IsParked(j, id)
    ensures IsParked(Step(j, e), id) <==> e.Collect? && e.id == id && Unusable(e.tasks)
  {
    assert SoundAt(j, id);
  }

  lemma ParkedStays(j: Jobs, e: Event, id: string)
    requires Sound(j) && Enabled(j, e) && IsParked(j, id)
    ensures IsParked(Step(j, e), id)
  {
    PhaseMoves(j, e, id);
  }

  lemma {:induction false} ParkedForEver(j: Jobs, es: seq<Event>, id: string)
    requires Sound(j) && Legal(j, es) && IsParked(j, id)
    ensures IsParked(Exec(j, es), id)
    decreases |es|
  {
    if es != [] {
      StepStaysSound(j, es[0]);
      ParkedStays(j, es[0], id);
      ParkedForEver(Step(j, es[0]), es[1..], id);
    }
  }

  /** A parked session gets no further replies, usable or not. */
  lemma {:induction false} ParkedGetsNothing(j: Jobs, es: seq<Event>, id: string)
    requires Sound(j) && Legal(j, es) && IsParked(j, id)
    ensures forall e | e in es :: ContOf(e).Some? ==> e.id != id
    decreases |es|
  {
    if es != [] {
      assert SoundAt(j, id);
      StepStaysSound(j, es[0]);
      ParkedStays(j, es[0], id);
      ParkedGetsNothing(Step(j, es[0]), es[1..], id);
    }
  }

  /** Over every run a session is parked at the end if and only if the run hands it an unusable reply. */
  lemma {:induction false} ParkedIff(j: Jobs, es: seq<Event>, id: string)
    requires Sound(j) && Legal(j, es) && !IsParked(j, id)
    ensures IsParked(Exec(j, es), id) <==> SentUnusable(es, id)
    decreases |es|
  {
    if es != [] {
      var e := es[0];
      StepStaysSound(j, e);
      ParksIff(j, e, id);
      assert forall f :: f in es <==> f == e || f in es[1..];
      if IsParked(Step(j, e), id) {
        ParkedForEver(Step(j, e), es[1..], id);
        assert Collect(id, e.tasks) in es;
      } else {
        ParkedIff(Step(j, e), es[1..], id);
      }
    }
  }

  /**
   Over every run, from before a session is submitted or from any state in which it is not parked: a live session has
   exactly one continuation unless the run handed it an unusable reply, and then it has none and stays in the map.
   */
  lemma OneContinuation(j: Jobs, es: seq<Event>, id: string)
    requires Sound(j) && Legal(j, es) && !IsParked(j, id)
    ensures var j' := Exec(j, es);
            j'.conts[Check(id)] + j'.conts[Finish(id)] + j'.conts[RebootCheck(id)]
            == if id in j'.sessions && !SentUnusable(es, id) then 1 else 0
    ensures SentUnusable(es, id) ==> id in Exec(j, es).sessions
  {
    RunsStaySound(j, es);
    assert SoundAt(Exec(j, es), id);
    ParkedIff(j, es, id);
  }

  // ---------------------------------------------------------------- the split

  function Hosts(tasks: seq<TaskReport>): seq<string> {
    if tasks == [] then [] else [tasks[0].host] + Hosts(tasks[1..])
  }

  function Flags(tasks: seq<TaskReport>): seq<bool> {
    if tasks == [] then [] else [Succeeded(tasks[0])] + Flags(tasks[1..])
  }

  /** Puts two lists together, taking from the first where the flag is set. */
  function Weave(oks: seq<bool>, succ: seq<string>, fails: seq<string>): seq<string> {
    if oks == [] then []
    else if oks[0] then (if succ == [] then [] else [succ[0]] + Weave(oks[1..], succ[1..], fails))
    else (if fails == [] then [] else [fails[0]] + Weave(oks[1..], succ, fails[1..]))
  }

  /**
   Outcome conservation: weaving the two lists by the success flags gives back the reported hosts, so each list keeps
   the order, no host is lost or doubled, and a host is in the first list exactly for an EXITED task with code 0.
   */
  lemma {:induction false} SplitWeaves(tasks: seq<TaskReport>)
    ensures Weave(Flags(tasks), HostsWith(tasks, true), HostsWith(tasks, false)) == Hosts(tasks)
    ensures |HostsWith(tasks, true)| + |HostsWith(tasks, false)| == |tasks|
    ensures multiset(HostsWith(tasks, true)) + multiset(HostsWith(tasks, false)) == multiset(Hosts(tasks))
  {
    if tasks != [] {
      SplitWeaves(tasks[1..]);
      var ok := Succeeded(tasks[0]);
      assert HostsWith(tasks, ok) == [tasks[0].host] + HostsWith(tasks[1..], ok);
      assert HostsWith(tasks, !ok) == HostsWith(tasks[1..], !ok);
      assert Flags(tasks)[1..] == Flags(tasks[1..]);
    }
  }

  /** The task EXITED, with code 0. */
  predicate ExitedZero(t: TaskReport) {
    t.status == "EXITED" && t.exitCode == 0
  }

  predicate Increasing(ps: seq<int>) {
    forall i, j | 0 <= i < j < |ps| :: ps[i] < ps[j]
  }

  /** The positions of the tasks, one for each host of the list and in the same order, that succeeded or did not. */
  ghost predicate HostsAt(tasks: seq<TaskReport>, ok: bool, ps: seq<int>) {
    && |ps| == |HostsWith(tasks, ok)| && Increasing(ps)
    && (forall j | 0 <= j < |ps| :: 0 <= ps[j] < |tasks| && HostsWith(tasks, ok)[j] == tasks[ps[j]].host)
    && (forall p | 0 <= p < |tasks| :: p in ps <==> ExitedZero(tasks[p]) == ok)
  }

  lemma {:induction false} HostsLast(tasks: seq<TaskReport>, ok: bool)
    requires tasks != []
    ensures var n := |tasks| - 1;
            HostsWith(tasks, ok) == HostsWith(tasks[..n], ok) + if ExitedZero(tasks[n]) == ok then [tasks[n].host] else []
  {
    ExitedSucceeds(tasks[|tasks| - 1]);
    hide Succeeded, ExitedZero;
    if |tasks| > 1 {
      var n := |tasks| - 1;
      var head := if Succeeded(tasks[0]) == ok then [tasks[0].host] else [];
      HostsLast(tasks[1..], ok);
      assert tasks[..n][1..] == tasks[1..][..n - 1];
      assert HostsWith(tasks, ok) == head + HostsWith(tasks[1..], ok);
      assert HostsWith(tasks[..n], ok) == head + HostsWith(tasks[1..][..n - 1], ok);
      hide HostsWith;
    }
  }

  lemma ExitedSucceeds(t: TaskReport)
    ensures Succeeded(t) <==> ExitedZero(t)
  {
  }

  /**
   The successful hosts are, each once and in order, those of the tasks that EXITED with code 0, the failed ones those
   of all other tasks.
   */
  lemma {:induction false} HostPositions(tasks: seq<TaskReport>, ok: bool) returns (ps: seq<int>)
    ensures HostsAt(tasks, ok, ps)
  {
    if tasks == [] {
      ps := [];
    } else {
      var n := |tasks| - 1;
      var before := HostPositions(tasks[..n], ok);
      HostsAtLast(tasks, ok, before);
      ps := before + if ExitedZero(tasks[n]) == ok then [n] else [];
    }
  }

  lemma HostsAtLast(tasks: seq<TaskReport>, ok: bool, before: seq<int>)
    requires tasks != [] && HostsAt(tasks[..|tasks| - 1], ok, before)
    ensures HostsAt(tasks, ok, before + if ExitedZero(tasks[|tasks| - 1]) == ok then [|tasks| - 1] else [])
  {
    HostsLast(tasks, ok);
    hide HostsWith, ExitedZero;
    var n := |tasks| - 1;
    var ps := before + if ExitedZero(tasks[n]) == ok then [n] else [];
    forall j | 0 <= j < |ps| ensures 0 <= ps[j] < |tasks| && HostsWith(tasks, ok)[j] == tasks[ps[j]].host {
      if j < |before| {
        assert tasks[..n][before[j]] == tasks[before[j]];
      }
    }
    forall p | 0 <= p < |tasks| ensures p in ps <==> ExitedZero(tasks[p]) == ok {
      if p < n {
        assert tasks[..n][p] == tasks[p];
      } else {
        assert n !in before;
      }
    }
  }
}
