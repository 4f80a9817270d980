/** Progress: every schedule is finite, and one that cannot be continued has
    finished every request, upsert and clear. */
module ProtocolProgress {
  import opened Profiles
  import opened Protocol
  import opened ProtocolLocks
  import opened ProtocolSerial

  /** An upper bound on the steps a request has left. */
  function StepsLeft(p: Phase): int {
    match p
    case Arrived => 21
    case FetchRate(_, _) => 20
    case FetchQuota(_, _, _) => 19
    case Locking(plan, i) => 6 * |plan.updates| + 6 - i
    case Checking(plan, i) => 5 * |plan.updates| + 5 - i
    case Debiting(plan, i) => 4 * |plan.updates| + 4 - i
    case Unlocking(plan, i, _) => 3 * |plan.updates| + 3 - i
    case Executing(plan) => 2 * |plan.updates| + 2
    case RefundLocking(plan, i) => 2 * (|plan.updates| - i) + 1
    case Refunding(plan, i) => 2 * (|plan.updates| - i)
    case _ => 0
  }

  function ThreadLeft(thread: Thread): int {
    match thread
    case Call(_, p) => StepsLeft(p)
    case Upsert(_, profile, stage) =>
      var n := |MethodsOf(profile)|;
      (match stage
       case DropRates => 5 + n
       case DropQuota => 4 + n
       case InsertRates(_, todo) => 3 + |todo|
       case InsertQuota(_) => 2
       case Publish => 1
       case Complete => 0)
    case Clear(at) =>
      (match at
       case ClearProfiles => 3
       case ClearRates => 2
       case ClearQuotas => 1
       case Cleared => 0)
  }

  function TotalLeft(threads: seq<Thread>): int {
    if threads == [] then 0 else TotalLeft(threads[..|threads| - 1]) + ThreadLeft(threads[|threads| - 1])
  }

  lemma {:induction false} TotalLeftUpdate(threads: seq<Thread>, t: nat, x: Thread)
    requires t < |threads|
    ensures TotalLeft(threads[t := x]) == TotalLeft(threads) - ThreadLeft(threads[t]) + ThreadLeft(x)
    decreases |threads|
  {
    var n := |threads| - 1;
    if t == n {
      assert threads[t := x][..n] == threads[..n];
    } else {
      TotalLeftUpdate(threads[..n], t, x);
      assert threads[t := x][..n] == threads[..n][t := x];
    }
  }

  lemma PhaseLeft(s: Sys, p: Phase)
    requires PhaseOk(s, p)
    ensures StepsLeft(p) >= 0
  {
  }

  lemma {:induction false} TotalLeftNat(s: Sys, n: nat)
    requires ThreadsOk(s) && n <= |s.threads|
    ensures TotalLeft(s.threads[..n]) >= 0
  {
    if n == 0 {
    } else {
      TotalLeftNat(s, n - 1);
      assert s.threads[..n][..n - 1] == s.threads[..n - 1];
      assert ThreadOk(s, s.threads[n - 1]);
      if s.threads[n - 1].Call? {
        PhaseLeft(s, s.threads[n - 1].phase);
      }
    }
  }

  lemma MoveShrinks(s: Sys, t: Tid, req: Request, p: Phase, c: Choice)
    requires MapsOk(s) && PhaseOk(s, p) && CallMove(s, t, req, p, c).Some?
    ensures StepsLeft(CallMove(s, t, req, p, c).value.phase) < StepsLeft(p)
  {
    MovePhaseOk(s, t, req, p, c);
  }

  lemma ResetShrinks(thread: Thread, c: Choice)
    requires !thread.Call? && CanAdvance(thread, c)
    ensures ThreadLeft(NextThread(thread, c)) < ThreadLeft(thread)
  {
    if thread.Upsert? && thread.stage.InsertRates? && thread.stage.todo != {} {
      assert |thread.stage.todo - {c.verb}| == |thread.stage.todo| - 1;
    }
  }

  /** Every step uses up one of the steps left. */
  lemma StepShrinks(s: Sys, t: Tid, c: Choice)
    requires Shape(s) && StepOf(s, t, c).Some?
    ensures TotalLeft(StepOf(s, t, c).value.threads) < TotalLeft(s.threads)
  {
    var s' := StepOf(s, t, c).value;
    StepSpares(s, t, c);
    TotalLeftUpdate(s.threads, t, s'.threads[t]);
    if s.threads[t].Call? {
      assert ThreadOk(s, s.threads[t]);
      MoveShrinks(s, t, s.threads[t].req, s.threads[t].phase, c);
    } else {
      ResetAdvances(s, t, c);
      ResetShrinks(s.threads[t], c);
    }
  }

  lemma {:induction false} RunShrinks(s: Sys, run: Schedule)
    requires Initial(s) && After(s, run).Some?
    ensures TotalLeft(After(s, run).value.threads) + |run| <= TotalLeft(s.threads)
    decreases |run|
  {
    if run == [] {
    } else {
      var n := |run| - 1;
      RunShrinks(s, run[..n]);
      RunShape(s, run[..n]);
      StepShrinks(After(s, run[..n]).value, run[n].0, run[n].1);
    }
  }

  /** No schedule is longer than the steps its threads have. */
  lemma RunsAreFinite(s: Sys, run: Schedule, z: Sys)
    requires ReachedBy(s, run, z)
    ensures |run| <= TotalLeft(s.threads)
  {
    RunShrinks(s, run);
    RunShape(s, run);
    TotalLeftNat(z, |z.threads|);
    assert z.threads[..|z.threads|] == z.threads;
  }

  ghost predicate Stuck(z: Sys) {
    forall t: Tid :: !CanStep(z, t)
  }

  /** When nobody can move any more, every request, upsert and clear has finished. */
  lemma StuckMeansFinished(z: Sys, t: Tid)
    requires Reachable(z) && Stuck(z) && t < |z.threads|
    ensures Finished(z.threads[t])
  {
    if !Finished(z.threads[t]) {
      var u := NoDeadlock(z, t);
    }
  }
}
