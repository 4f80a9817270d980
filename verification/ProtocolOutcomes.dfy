/** How a request ends, told by its execution: the debits stay exactly if it ran and
    succeeded, and come back exactly if it ran and failed. */
module ProtocolOutcomes {
  import opened Wrappers
  import opened Profiles
  import opened Protocol
  import opened ProtocolLocks
  import opened ProtocolSerial
  import opened ProtocolPlay

  /** The `j`-th move of the schedule is the execution of thread `t`, on `plan`. */
  ghost predicate ExecutesAt(s: Sys, run: Schedule, t: Tid, plan: Plan, j: nat)
    requires j < |run|
  {
    var mid := After(s, run[..j]);
    run[j].0 == t && mid.Some? && t < |mid.value.threads| &&
    mid.value.threads[t].Call? && mid.value.threads[t].phase == Executing(plan)
  }

  /** Thread `t` has executed on `plan`, and failed or not. */
  ghost predicate Executed(s: Sys, run: Schedule, t: Tid, plan: Plan, fails: bool) {
    exists j :: 0 <= j < |run| && ExecutesAt(s, run, t, plan, j) && run[j].1.fails == fails
  }

  // ---------- the last execution of a schedule ----------

  function Execution(s: Sys, run: Schedule, t: Tid): Option<(Plan, bool)> {
    if run == [] then None
    else
      var n := |run| - 1;
      var mid := After(s, run[..n]);
      if run[n].0 == t && mid.Some? && t < |mid.value.threads| && Executes(mid.value.threads[t]) then
        Some((mid.value.threads[t].phase.plan, run[n].1.fails))
      else Execution(s, run[..n], t)
  }

  predicate Executes(thread: Thread) {
    thread.Call? && thread.phase.Executing?
  }

  predicate EndsAs(p: Phase, e: Option<(Plan, bool)>) {
    match p
    case Kept(plan) => e == Some((plan, false))
    case RefundLocking(plan, _) => e == Some((plan, true))
    case Refunding(plan, _) => e == Some((plan, true))
    case Returned(plan) => e == Some((plan, true))
    case _ => e == None
  }

  lemma MoveEnds(s: Sys, t: Tid, req: Request, p: Phase, c: Choice, e: Option<(Plan, bool)>)
    requires EndsAs(p, e) && CallMove(s, t, req, p, c).Some?
    ensures EndsAs(CallMove(s, t, req, p, c).value.phase, if p.Executing? then Some((p.plan, c.fails)) else e)
  {
  }

  lemma {:induction false} ExecutionEnds(s: Sys, run: Schedule, t: Tid)
    requires Initial(s) && After(s, run).Some? && t < |s.threads| && s.threads[t].Call?
    ensures var z := After(s, run).value;
            t < |z.threads| && z.threads[t].Call? && EndsAs(z.threads[t].phase, Execution(s, run, t))
    decreases |run|
  {
    if run == [] {
      assert Begins(s.threads[t]);
    } else {
      var n := |run| - 1;
      ExecutionEnds(s, run[..n], t);
      var mid, u, c := After(s, run[..n]).value, run[n].0, run[n].1;
      OnlyMover(mid, u, c);
      if u == t {
        MoveEnds(mid, t, mid.threads[t].req, mid.threads[t].phase, c, Execution(s, run[..n], t));
      }
    }
  }

  lemma {:induction false} ExecutionStays(s: Sys, run: Schedule, t: Tid, plan: Plan, j: nat)
    requires Initial(s) && After(s, run).Some? && t < |s.threads| && s.threads[t].Call?
    requires j < |run| && ExecutesAt(s, run, t, plan, j)
    ensures Execution(s, run, t) == Some((plan, run[j].1.fails))
    decreases |run|
  {
    var n := |run| - 1;
    if j < n {
      assert run[..n][..j] == run[..j];
      ExecutionStays(s, run[..n], t, plan, j);
      ExecutionEnds(s, run[..n], t);
    }
  }

  /** A thread that has executed never does so again. */
  lemma NeverAgain(s: Sys, run: Schedule, t: Tid, plan: Plan, j: nat, other: Plan, i: nat)
    requires Initial(s) && After(s, run).Some? && t < |s.threads| && s.threads[t].Call?
    requires j < i < |run| && ExecutesAt(s, run, t, plan, j)
    ensures !ExecutesAt(s, run, t, other, i)
  {
    PrefixRuns(s, run, i);
    assert run[..i][..j] == run[..j];
    ExecutionStays(s, run[..i], t, plan, j);
    ExecutionEnds(s, run[..i], t);
  }

  lemma {:induction false} ExecutionAt(s: Sys, run: Schedule, t: Tid) returns (j: nat)
    requires Execution(s, run, t).Some?
    ensures j < |run| && ExecutesAt(s, run, t, Execution(s, run, t).value.0, j)
    ensures run[j].1.fails == Execution(s, run, t).value.1
    decreases |run|
  {
    var n := |run| - 1;
    j := n;
    if !ExecutesAt(s, run, t, Execution(s, run, t).value.0, n) {
      j := ExecutionAt(s, run[..n], t);
      assert run[..n][..j] == run[..j];
    }
  }

  lemma ExecutedIff(s: Sys, run: Schedule, t: Tid, plan: Plan, fails: bool)
    requires Initial(s) && After(s, run).Some? && t < |s.threads| && s.threads[t].Call?
    ensures Executed(s, run, t, plan, fails) <==> Execution(s, run, t) == Some((plan, fails))
  {
    if j :| 0 <= j < |run| && ExecutesAt(s, run, t, plan, j) && run[j].1.fails == fails {
      ExecutionStays(s, run, t, plan, j);
    }
    if Execution(s, run, t) == Some((plan, fails)) {
      var j := ExecutionAt(s, run, t);
    }
  }

  lemma CallFromStart(s: Sys, run: Schedule, z: Sys, t: Tid)
    requires ReachedBy(s, run, z) && t < |z.threads| && z.threads[t].Call?
    ensures t < |s.threads| && s.threads[t].Call? && AllRecorded(z)
    ensures EndsAs(z.threads[t].phase, Execution(s, run, t))
  {
    KindOverRun(s, run, t);
    RunRecorded(s, run);
    ExecutionEnds(s, run, t);
  }

  lemma {:induction false} KindOverRun(s: Sys, run: Schedule, t: Tid)
    requires After(s, run).Some?
    ensures var z := After(s, run).value;
            |z.threads| == |s.threads| && (t < |s.threads| ==> (z.threads[t].Call? <==> s.threads[t].Call?))
    decreases |run|
  {
    if run == [] {
    } else {
      var n := |run| - 1;
      KindOverRun(s, run[..n], t);
      OnlyMover(After(s, run[..n]).value, run[n].0, run[n].1);
      LogGrowth(After(s, run[..n]).value, run[n].0, run[n].1);
    }
  }

  // ---------- the theorems ----------

  /** In every schedule, from the move on by which a request executes: if it did not
      fail, its debits are kept and it makes no refund; if it failed, its refunds are
      on their way, in order, and once it is finished each of its updates has been
      refunded, once. */
  lemma ExecutionDecides(s: Sys, run: Schedule, z: Sys, t: Tid, plan: Plan, j: nat)
    requires ReachedBy(s, run, z) && t < |z.threads| && z.threads[t].Call?
    requires j < |run| && ExecutesAt(s, run, t, plan, j)
    ensures !run[j].1.fails ==> z.threads[t].phase == Kept(plan) && RefundsOf(z.log, t) == []
    ensures run[j].1.fails ==> RefundsOf(z.log, t) <= plan.updates && !z.threads[t].phase.Kept?
    ensures run[j].1.fails && Finished(z.threads[t]) ==>
              z.threads[t].phase == Returned(plan) && RefundsOf(z.log, t) == plan.updates
  {
    CallFromStart(s, run, z, t);
    ExecutionStays(s, run, t, plan, j);
    assert Recorded(z, t);
  }

  /** And conversely, by its end: a request keeps its debits exactly if it executed
      and did not fail, gives them back exactly if it executed and failed, and is
      denied exactly if it never executed. */
  lemma OutcomeIff(s: Sys, run: Schedule, z: Sys, t: Tid)
    requires ReachedBy(s, run, z) && t < |z.threads| && z.threads[t].Call? && Finished(z.threads[t])
    ensures forall plan :: z.threads[t].phase == Kept(plan) <==> Executed(s, run, t, plan, false)
    ensures forall plan :: z.threads[t].phase == Returned(plan) <==> Executed(s, run, t, plan, true)
    ensures z.threads[t].phase.Denied? <==> forall plan, fails :: !Executed(s, run, t, plan, fails)
  {
    CallFromStart(s, run, z, t);
    forall plan, fails
      ensures Executed(s, run, t, plan, fails) <==> Execution(s, run, t) == Some((plan, fails))
    {
      ExecutedIff(s, run, t, plan, fails);
    }
    if Execution(s, run, t).Some? {
      var (plan, fails) := Execution(s, run, t).value;
      assert Executed(s, run, t, plan, fails);
    }
  }

  /** No request executes twice. */
  lemma ExecutesOnce(s: Sys, run: Schedule, z: Sys, t: Tid, plan: Plan, other: Plan, i: nat, j: nat)
    requires ReachedBy(s, run, z) && t < |z.threads| && z.threads[t].Call?
    requires i < |run| && j < |run| && ExecutesAt(s, run, t, plan, i) && ExecutesAt(s, run, t, other, j)
    ensures i == j && plan == other
  {
    CallFromStart(s, run, z, t);
    if i < j {
      NeverAgain(s, run, t, plan, i, other, j);
    } else if j < i {
      NeverAgain(s, run, t, other, j, plan, i);
    }
  }
}
