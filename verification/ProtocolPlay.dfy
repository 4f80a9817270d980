/** Putting schedules together, and the order in which a service with a fixed
    number of tasks can take them. */
module ProtocolPlay {
  import opened Wrappers
  import opened AccessKeys
  import opened Profiles
  import opened Protocol
  import opened ProtocolLocks
  import opened ProtocolProgress

  lemma LastMove(s: Sys, run: Schedule, move: (Tid, Choice))
    ensures After(s, run + [move]) ==
            match After(s, run) case None => None case Some(mid) => StepOf(mid, move.0, move.1)
  {
    assert (run + [move])[..|run|] == run;
  }

  lemma {:induction false} AfterConcat(s: Sys, a: Schedule, b: Schedule)
    requires After(s, a).Some?
    ensures After(s, a + b) == After(After(s, a).value, b)
    decreases |b|
  {
    if b == [] {
      assert a + b == a;
    } else {
      var n := |b| - 1;
      AfterConcat(s, a, b[..n]);
      assert a + b == a + b[..n] + [b[n]] && b == b[..n] + [b[n]];
      LastMove(s, a + b[..n], b[n]);
      LastMove(After(s, a).value, b[..n], b[n]);
    }
  }

  // ---------- one thread alone ----------

  /** Only thread `t` moves. */
  predicate Solo(run: Schedule, t: Tid) {
    forall j :: 0 <= j < |run| ==> run[j].0 == t
  }

  /** A step changes no thread but its own. */
  lemma OnlyMover(s: Sys, t: Tid, c: Choice)
    requires StepOf(s, t, c).Some?
    ensures t < |s.threads| && |StepOf(s, t, c).value.threads| == |s.threads|
    ensures StepOf(s, t, c).value.threads == s.threads[t := StepOf(s, t, c).value.threads[t]]
  {
    if !s.threads[t].Call? {
      ResetAdvances(s, t, c);
    }
  }

  /** A schedule of `t` alone has led from `s` to `z`. */
  ghost predicate Plays(s: Sys, run: Schedule, t: Tid, z: Sys) {
    After(s, run) == Some(z) && Solo(run, t)
  }

  lemma Advance(s: Sys, run: Schedule, mid: Sys, t: Tid, c: Choice) returns (longer: Schedule, z: Sys)
    requires Plays(s, run, t, mid) && StepOf(mid, t, c).Some?
    ensures Plays(s, longer, t, z) && Some(z) == StepOf(mid, t, c)
  {
    LastMove(s, run, (t, c));
    longer, z := run + [(t, c)], StepOf(mid, t, c).value;
  }

  lemma ResetCanStep(s: Sys, t: Tid) returns (c: Choice)
    requires t < |s.threads| && s.threads[t].Upsert? && s.threads[t].stage != Complete
    ensures StepOf(s, t, c).Some?
  {
    c := Choice(0, ALL, false);
    if s.threads[t].stage.InsertRates? && s.threads[t].stage.todo != {} {
      var v :| v in s.threads[t].stage.todo;
      c := Choice(0, v, false);
    }
  }

  lemma UpsertLeftNat(thread: Thread)
    requires thread.Upsert?
    ensures ThreadLeft(thread) >= 0
  {
  }

  lemma PublishStep(s: Sys, t: Tid, c: Choice)
    requires t < |s.threads| && s.threads[t].Upsert? && StepOf(s, t, c).Some?
    ensures StepOf(s, t, c).value.profiles ==
            if s.threads[t].stage == Publish then s.profiles[s.threads[t].target := s.threads[t].profile]
            else s.profiles
  {
  }

  /** An upsert can always run to its end alone; then its profile is stored. */
  lemma RunAlone(s: Sys, t: Tid) returns (run: Schedule, z: Sys)
    requires t < |s.threads| && s.threads[t].Upsert? && s.threads[t].stage != Complete
    ensures Plays(s, run, t, z) && z.threads == s.threads[t := s.threads[t].(stage := Complete)]
    ensures z.profiles == s.profiles[s.threads[t].target := s.threads[t].profile]
  {
    run, z := [], s;
    while z.threads[t].stage != Complete
      invariant Plays(s, run, t, z) && t < |z.threads| && z.threads[t].Upsert?
      invariant z.threads == s.threads[t := s.threads[t].(stage := z.threads[t].stage)]
      invariant z.profiles == if z.threads[t].stage == Complete
                              then s.profiles[s.threads[t].target := s.threads[t].profile] else s.profiles
      decreases ThreadLeft(z.threads[t])
    {
      UpsertLeftNat(z.threads[t]);
      var c := ResetCanStep(z, t);
      ResetAdvances(z, t, c);
      ResetShrinks(z.threads[t], c);
      PublishStep(z, t, c);
      run, z := Advance(s, run, z, t, c);
    }
  }

  // ---------- tasks ----------

  /** At its `j`-th move the schedule moves a thread whose fellows in its task have
      not begun or have finished. */
  ghost predicate InTurnAt(s: Sys, run: Schedule, task: seq<nat>, j: nat)
    requires j < |run| && |task| == |s.threads|
  {
    var mid, t := After(s, run[..j]), run[j].0;
    mid.Some? && |mid.value.threads| == |s.threads| && t < |s.threads| ==>
      forall u :: 0 <= u < |s.threads| && u != t && task[u] == task[t] ==> Resting(mid.value.threads[u])
  }

  predicate Resting(thread: Thread) {
    Begins(thread) || Finished(thread)
  }

  /** Each task takes its threads one after another; different tasks interleave. */
  ghost predicate InTurn(s: Sys, run: Schedule, task: seq<nat>)
    requires |task| == |s.threads|
  {
    forall j :: 0 <= j < |run| ==> InTurnAt(s, run, task, j)
  }

  /** The other threads of the task of `t` rest. */
  predicate FellowsRest(s: Sys, task: seq<nat>, t: Tid)
    requires |task| == |s.threads| && t < |s.threads|
  {
    forall u :: 0 <= u < |s.threads| && u != t && task[u] == task[t] ==> Resting(s.threads[u])
  }

  lemma {:induction false} SoloLeavesOthers(s: Sys, run: Schedule, t: Tid)
    requires After(s, run).Some? && Solo(run, t) && t < |s.threads|
    ensures var z := After(s, run).value; |z.threads| == |s.threads| && z.threads == s.threads[t := z.threads[t]]
    decreases |run|
  {
    if run == [] {
    } else {
      var n := |run| - 1;
      SoloLeavesOthers(s, run[..n], t);
      OnlyMover(After(s, run[..n]).value, t, run[n].1);
    }
  }

  lemma SoloPrefix(s: Sys, run: Schedule, t: Tid, j: nat)
    requires After(s, run).Some? && Solo(run, t) && j <= |run|
    ensures Solo(run[..j], t) && After(s, run[..j]).Some?
  {
    PrefixRuns(s, run, j);
  }

  lemma {:induction false} PrefixRuns(s: Sys, run: Schedule, j: nat)
    requires After(s, run).Some? && j <= |run|
    ensures After(s, run[..j]).Some?
    decreases |run|
  {
    if j == |run| {
      assert run[..j] == run;
    } else {
      var n := |run| - 1;
      PrefixRuns(s, run[..n], j);
      assert run[..n][..j] == run[..j];
    }
  }

  lemma SoloInTurn(s: Sys, run: Schedule, t: Tid, z: Sys, task: seq<nat>)
    requires Plays(s, run, t, z) && |task| == |s.threads| && t < |s.threads| && FellowsRest(s, task, t)
    ensures InTurn(s, run, task) && |z.threads| == |s.threads| && z.threads == s.threads[t := z.threads[t]]
  {
    SoloLeavesOthers(s, run, t);
    forall j | 0 <= j < |run|
      ensures InTurnAt(s, run, task, j)
    {
      SoloPrefix(s, run, t, j);
      SoloLeavesOthers(s, run[..j], t);
    }
  }

  /** A schedule goes on with a part that takes its threads in turn. */
  lemma InTurnConcat(s: Sys, a: Schedule, mid: Sys, b: Schedule, task: seq<nat>)
    requires |task| == |s.threads| == |mid.threads|
    requires After(s, a) == Some(mid) && InTurn(s, a, task) && InTurn(mid, b, task)
    ensures InTurn(s, a + b, task) && After(s, a + b) == After(mid, b)
  {
    AfterConcat(s, a, b);
    forall j | 0 <= j < |a + b|
      ensures InTurnAt(s, a + b, task, j)
    {
      if j < |a| {
        assert (a + b)[..j] == a[..j];
        assert InTurnAt(s, a, task, j);
      } else {
        assert (a + b)[..j] == a + b[..j - |a|];
        AfterConcat(s, a, b[..j - |a|]);
        assert InTurnAt(mid, b, task, j - |a|);
      }
    }
  }

  /** A run from `s` to `mid` in turn, and then `t` alone. */
  lemma ThenAlone(s: Sys, a: Schedule, mid: Sys, b: Schedule, t: Tid, z: Sys, task: seq<nat>)
    requires |task| == |s.threads| == |mid.threads| && After(s, a) == Some(mid) && InTurn(s, a, task)
    requires Plays(mid, b, t, z) && t < |mid.threads| && FellowsRest(mid, task, t)
    ensures After(s, a + b) == Some(z) && InTurn(s, a + b, task)
    ensures |z.threads| == |s.threads|
  {
    SoloInTurn(mid, b, t, z, task);
    InTurnConcat(s, a, mid, b, task);
  }

  lemma NoneYet(s: Sys, task: seq<nat>)
    requires |task| == |s.threads|
    ensures After(s, []) == Some(s) && InTurn(s, [], task)
  {
  }
}
