/**
 Termination of the repair protocol: without new requests every task and reply uses up rank, so the
 work drains within a bound that can be read off the pending tokens, and a drained controller is settled.
 */
module RepairDrain {
  import opened RepairProtocol
  import opened RepairSafety
  import opened MultisetSums

  /** How many tasks and replies a token can still cause, itself included. */
  function Rank(t: Token): nat {
    match t
    case RmTask(_) => 4
    case RmRpc(_) => 3
    case InitTask(_) => 2
    case InitRpc(_) => 1
    case ExecTask(_, _, _) => 2
    case ExecRpc(_) => 1
  }

  /** The rank is the length of the longest chain a token can start, itself included. */
  lemma RankIsChainLength(t: Token)
    ensures Rank(t) == 1 + match Next(t) case None => 0 case Some(next) => Rank(next)
  {
  }

  ghost function TotalRank(work: multiset<Token>): nat {
    Sum(work, Rank)
  }

  /** Imports of minions, exports, exec requests and dead reports are what starts a chain. */
  predicate StartsWork(e: Event) {
    e.ImportMinion? || e.ExportHost? || e.DeadReport? || e.AddExec?
  }

  /** Spending a token lowers the rank, whether or not it leaves its successor. */
  lemma SpendingUsesRank(work: multiset<Token>, t: Token)
    requires t in work
    ensures TotalRank(work - multiset{t}) < TotalRank(work)
    ensures Next(t).Some? ==> TotalRank(work - multiset{t} + multiset{Next(t).value}) < TotalRank(work)
  {
    SumPick(work, Rank, t);
    if Next(t).Some? {
      SumAdd(work - multiset{t}, Rank, Next(t).value);
      assert Rank(Next(t).value) < Rank(t);
    }
  }

  lemma WorkUsesRank(s: Ctrl, e: Event)
    requires IsWork(e) && Enabled(s, e)
    ensures TotalRank(Step(s, e).work) < TotalRank(s.work)
  {
    WorkSpends(s, e);
    SpendingUsesRank(s.work, Spends(e));
  }

  function WorkSteps(es: seq<Event>): nat {
    if es == [] then 0 else (if IsWork(es[0]) then 1 else 0) + WorkSteps(es[1..])
  }

  /**
   Whatever order tasks run and replies arrive in, and whatever scripts are imported, health
   reports come in or restarts happen in between, at most `TotalRank` of the pending tokens is done.
   */
  lemma {:induction false} WorkIsBounded(s: Ctrl, es: seq<Event>)
    requires Legal(s, es) && forall i | 0 <= i < |es| :: !StartsWork(es[i])
    ensures WorkSteps(es) + TotalRank(Exec(s, es).work) <= TotalRank(s.work)
    decreases |es|
  {
    if es != [] {
      if IsWork(es[0]) {
        WorkUsesRank(s, es[0]);
      }
      WorkIsBounded(Step(s, es[0]), es[1..]);
    }
  }

  /** The step that handles a pending token, with the reply a healthy agent would send. */
  function Handle(t: Token): Event {
    match t
    case RmTask(addr) => RunRm(addr)
    case RmRpc(addr) => RmReply(addr, addr, true)
    case InitTask(addr) => RunInit(addr)
    case InitRpc(addr) => InitReply(addr, addr, true)
    case ExecTask(addr, cmd, script) => RunExec(addr, cmd, script)
    case ExecRpc(addr) => ExecReply(addr)
  }

  lemma HandleEnabled(s: Ctrl, t: Token)
    requires t in s.work
    ensures IsWork(Handle(t)) && Enabled(s, Handle(t)) && Smooth(s, Handle(t))
  {
  }

  /** Progress: as long as anything is pending some step is enabled, so the work can always be drained, with good replies. */
  lemma {:induction false} CanDrain(s: Ctrl) returns (es: seq<Event>)
    ensures Legal(s, es) && Exec(s, es).work == multiset{}
    ensures forall i | 0 <= i < |es| :: IsWork(es[i])
    ensures SmoothRun(s, es)
    decreases TotalRank(s.work)
  {
    hide Step, Enabled, Smooth, Handle;
    if s.work == multiset{} {
      es := [];
    } else {
      var t :| t in s.work;
      var e := Handle(t);
      HandleEnabled(s, t);
      WorkUsesRank(s, e);
      var rest := CanDrain(Step(s, e));
      es := [e] + rest;
      assert es[1..] == rest;
    }
  }

  /** At quiescence a minion still mid-chain is one whose chain was broken off. */
  lemma QuietMeansSettled(s: Ctrl, es: seq<Event>)
    requires Tracked(s) && Exec(s, es).work == multiset{}
    ensures forall i | 0 <= i < |Exec(s, es).entries| && MidChain(Exec(s, es).entries[i].info.state) ::
              Exec(s, es).entries[i].ip in Exec(s, es).lost
  {
    RunsStayTracked(s, es);
    var s' := Exec(s, es);
    forall i | 0 <= i < |s'.entries| && MidChain(s'.entries[i].info.state) ensures s'.entries[i].ip in s'.lost {
      assert EntryTracked(s'.work, s'.lost, s'.entries[i]);
    }
  }

  /** Drained along a smooth run with both scripts loaded, every minion is out of its chain. */
  lemma SmoothQuietMeansSettled(s: Ctrl, es: seq<Event>)
    requires Intact(s) && SmoothRun(s, es) && Exec(s, es).work == multiset{}
    ensures forall i | 0 <= i < |Exec(s, es).entries| :: !MidChain(Exec(s, es).entries[i].info.state)
  {
    SmoothRunsNeverStrand(s, es);
  }
}
