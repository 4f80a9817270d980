/** Where a request's counters and times come from: each counter was current for its
    key when the request looked it up, a plan has the time of its own request, and a
    counter refills from the time its upsert read. */
module ProtocolClocks {
  import opened Wrappers
  import opened Words
  import opened RateStates
  import opened AccessKeys
  import opened Profiles
  import opened Protocol
  import opened ProtocolLocks
  import opened ProtocolSerial
  import opened ProtocolResets
  import opened ProtocolCleanCut
  import opened ProtocolPlay

  // ---------- requests ----------

  /** Before the `j`-th move, which is its own, thread `t` is a request in phase `p`. */
  ghost predicate MovesFrom(s: Sys, run: Schedule, t: Tid, p: Phase, j: nat)
    requires j < |run|
  {
    var mid := After(s, run[..j]);
    && run[j].0 == t && mid.Some? && t < |mid.value.threads|
    && mid.value.threads[t].Call? && mid.value.threads[t].phase == p
  }

  /** At its `j`-th move the schedule has thread `t` look up the key of `u`, for which
      the counter of `u` is the current one. */
  ghost predicate LooksUpAt(s: Sys, run: Schedule, t: Tid, u: Update, j: nat)
    requires j < |run|
  {
    && (exists p :: MovesFrom(s, run, t, p, j) && (if u.key.MethodKey? then p.FetchRate? else p.FetchQuota?))
    && After(s, run[..j]).Some? && Current(After(s, run[..j]).value, u.key) == Some(u.handle)
  }

  ghost predicate LookedUp(s: Sys, run: Schedule, t: Tid, u: Update) {
    exists j :: 0 <= j < |run| && LooksUpAt(s, run, t, u, j)
  }

  /** Thread `t` read the clock as `now` when it went to look up its rate counter. */
  ghost predicate ReadClock(s: Sys, run: Schedule, t: Tid, now: u64) {
    exists j :: 0 <= j < |run| && ReadClockAt(s, run, t, now, j)
  }

  ghost predicate ReadClockAt(s: Sys, run: Schedule, t: Tid, now: u64, j: nat)
    requires j < |run|
  {
    run[j].1.now == now && exists p :: MovesFrom(s, run, t, p, j) && p.FetchRate?
  }

  /** All updates of the phase were looked up, and its time was read. */
  ghost predicate Sourced(s: Sys, run: Schedule, t: Tid, p: Phase) {
    && (forall u :: u in UpdatesOf(p) ==> LookedUp(s, run, t, u))
    && (p.FetchQuota? ==> ReadClock(s, run, t, p.now))
    && (HasPlan(p) ==> ReadClock(s, run, t, p.plan.now))
  }

  lemma SourcedMore(s: Sys, run: Schedule, t: Tid, p: Phase)
    requires run != [] && Sourced(s, run[..|run| - 1], t, p)
    ensures Sourced(s, run, t, p)
  {
    var init := run[..|run| - 1];
    forall j | 0 <= j < |init|
      ensures init[..j] == run[..j]
    {
    }
    forall u | u in UpdatesOf(p)
      ensures LookedUp(s, run, t, u)
    {
      var j :| 0 <= j < |init| && LooksUpAt(s, init, t, u, j);
      var q :| MovesFrom(s, init, t, q, j) && (if u.key.MethodKey? then q.FetchRate? else q.FetchQuota?);
      assert MovesFrom(s, run, t, q, j);
      assert LooksUpAt(s, run, t, u, j);
    }
    if p.FetchQuota? || HasPlan(p) {
      ClockMore(s, run, t, if p.FetchQuota? then p.now else p.plan.now);
    }
  }

  lemma ClockMore(s: Sys, run: Schedule, t: Tid, now: u64)
    requires run != [] && ReadClock(s, run[..|run| - 1], t, now)
    ensures ReadClock(s, run, t, now)
  {
    var init := run[..|run| - 1];
    var j :| 0 <= j < |init| && ReadClockAt(s, init, t, now, j);
    assert init[..j] == run[..j];
    var p :| MovesFrom(s, init, t, p, j) && p.FetchRate?;
    assert MovesFrom(s, run, t, p, j);
    assert ReadClockAt(s, run, t, now, j);
  }

  /** The last move of the schedule is one of thread `t`, request `req` in phase `p`. */
  ghost predicate LastMoves(s: Sys, run: Schedule, t: Tid, req: Request, p: Phase, mid: Sys) {
    && run != [] && After(s, run[..|run| - 1]) == Some(mid) && run[|run| - 1].0 == t
    && t < |mid.threads| && mid.threads[t] == Call(req, p)
  }

  lemma RateSourced(s: Sys, run: Schedule, t: Tid, req: Request, p: Phase, mid: Sys)
    requires LastMoves(s, run, t, req, p, mid) && p.FetchRate?
    ensures Sourced(s, run, t, FetchRateMove(mid, req, p, run[|run| - 1].1.now).phase)
  {
    var n := |run| - 1;
    var m := FetchRateMove(mid, req, p, run[n].1.now);
    assert MovesFrom(s, run, t, p, n);
    assert ReadClockAt(s, run, t, run[n].1.now, n);
    forall u | u in UpdatesOf(m.phase)
      ensures LookedUp(s, run, t, u)
    {
      assert LooksUpAt(s, run, t, u, n);
    }
  }

  lemma QuotaSourced(s: Sys, run: Schedule, t: Tid, req: Request, p: Phase, mid: Sys)
    requires LastMoves(s, run, t, req, p, mid) && p.FetchQuota? && PhaseOk(mid, p)
    requires Sourced(s, run, t, p)
    ensures Sourced(s, run, t, FetchQuotaMove(mid, req, p).phase)
  {
    var n := |run| - 1;
    assert MovesFrom(s, run, t, p, n);
    QuotaFetchAdds(mid, req, p);
    forall u | u in QuotaUpdate(mid, req, p)
      ensures LookedUp(s, run, t, u)
    {
      assert LooksUpAt(s, run, t, u, n);
    }
  }

  lemma SourcedStep(s: Sys, run: Schedule, t: Tid, req: Request, p: Phase, mid: Sys)
    requires LastMoves(s, run, t, req, p, mid) && PhaseOk(mid, p) && Sourced(s, run, t, p)
    requires CallMove(mid, t, req, p, run[|run| - 1].1).Some?
    ensures Sourced(s, run, t, CallMove(mid, t, req, p, run[|run| - 1].1).value.phase)
  {
    if p.FetchRate? {
      RateSourced(s, run, t, req, p, mid);
    } else if p.FetchQuota? {
      QuotaSourced(s, run, t, req, p, mid);
    } else if HasPlan(p) {
      MoveKeepsPlan(mid, t, req, p, run[|run| - 1].1);
    }
  }

  /** In every schedule: each counter that a request uses was the current one of its
      key when the request looked it up, and the time of its plan is the one it read. */
  lemma {:induction false} UpdatesSourced(s: Sys, run: Schedule, z: Sys, t: Tid)
    requires ReachedBy(s, run, z) && t < |z.threads| && z.threads[t].Call?
    ensures Sourced(s, run, t, z.threads[t].phase)
    decreases |run|
  {
    if run == [] {
      assert Begins(z.threads[t]);
    } else {
      var n := |run| - 1;
      var mid := After(s, run[..n]).value;
      OnlyMover(mid, run[n].0, run[n].1);
      LogGrowth(mid, run[n].0, run[n].1);
      UpdatesSourced(s, run[..n], mid, t);
      RunShape(s, run[..n]);
      SourcedMore(s, run, t, mid.threads[t].phase);
      if run[n].0 == t {
        assert ThreadOk(mid, mid.threads[t]);
        SourcedStep(s, run, t, mid.threads[t].req, mid.threads[t].phase, mid);
      }
    }
  }

  // ---------- counters ----------

  /** At the `j`-th move an upsert of `p` reads the clock as `now`. */
  ghost predicate ResetsAt(s: Sys, run: Schedule, p: string, now: u64, j: nat)
    requires j < |run|
  {
    var mid := After(s, run[..j]);
    && mid.Some? && run[j].0 < |mid.value.threads| && mid.value.threads[run[j].0].Upsert?
    && mid.value.threads[run[j].0].target == p && mid.value.threads[run[j].0].stage == DropQuota
    && run[j].1.now == now
  }

  ghost predicate ResetTime(s: Sys, run: Schedule, p: string, now: u64) {
    exists j :: 0 <= j < |run| && ResetsAt(s, run, p, now, j)
  }

  lemma ResetTimeMore(s: Sys, run: Schedule, p: string, now: u64)
    requires run != [] && ResetTime(s, run[..|run| - 1], p, now)
    ensures ResetTime(s, run, p, now)
  {
    var init := run[..|run| - 1];
    var j :| 0 <= j < |init| && ResetsAt(s, init, p, now, j);
    assert init[..j] == run[..j];
    assert ResetsAt(s, run, p, now, j);
  }

  /** The time an inserting upsert carries. */
  predicate Carries(thread: Thread, p: string, now: u64) {
    thread.Upsert? && thread.target == p &&
    (thread.stage == InsertQuota(now) || (thread.stage.InsertRates? && thread.stage.now == now))
  }

  /** Every counter, and every upsert about to make one, has the time of a reset. */
  ghost predicate Timed(s: Sys, run: Schedule, z: Sys) {
    && (forall h :: 0 <= h < |z.cells| ==> ResetTime(s, run, z.cells[h].key.pubkey, z.cells[h].counter.lastRefill))
    && (forall t: Tid, p, now :: t < |z.threads| && Carries(z.threads[t], p, now) ==> ResetTime(s, run, p, now))
  }

  /** From `mid` to `z` no counter's refill time has moved, and a new counter has the
      time that `thread` carries. */
  ghost predicate ClocksKept(mid: Sys, thread: Thread, z: Sys) {
    && |mid.cells| <= |z.cells| <= |mid.cells| + 1
    && (forall h :: 0 <= h < |mid.cells| ==>
          z.cells[h].key == mid.cells[h].key && z.cells[h].counter.lastRefill == mid.cells[h].counter.lastRefill)
    && (|z.cells| > |mid.cells| ==>
          Carries(thread, z.cells[|mid.cells|].key.pubkey, z.cells[|mid.cells|].counter.lastRefill))
  }

  lemma StepClocks(mid: Sys, t: Tid, c: Choice)
    requires Shape(mid) && StepOf(mid, t, c).Some?
    ensures ClocksKept(mid, mid.threads[t], StepOf(mid, t, c).value)
  {
    match mid.threads[t]
    case Call(req, p) => CallClocks(mid, t, req, p, c);
    case Upsert(_, _, _) =>
    case Clear(_) =>
  }

  lemma CallClocks(mid: Sys, t: Tid, req: Request, p: Phase, c: Choice)
    requires Shape(mid) && t < |mid.threads| && mid.threads[t] == Call(req, p) && CallMove(mid, t, req, p, c).Some?
    ensures var z := CallStep(mid, t, CallMove(mid, t, req, p, c).value);
            && |z.cells| == |mid.cells|
            && forall h :: 0 <= h < |mid.cells| ==>
                 z.cells[h].key == mid.cells[h].key && z.cells[h].counter.lastRefill == mid.cells[h].counter.lastRefill
  {
  }

  lemma CarriesStep(mid: Sys, t: Tid, c: Choice, p: string, now: u64)
    requires StepOf(mid, t, c).Some? && Carries(StepOf(mid, t, c).value.threads[t], p, now)
    ensures Carries(mid.threads[t], p, now) ||
            (mid.threads[t].Upsert? && mid.threads[t].target == p && mid.threads[t].stage == DropQuota && c.now == now)
  {
  }

  lemma CarriedTimed(s: Sys, run: Schedule, mid: Sys, t: Tid, c: Choice, p: string, now: u64)
    requires run != [] && After(s, run[..|run| - 1]) == Some(mid) && Timed(s, run[..|run| - 1], mid)
    requires run[|run| - 1] == (t, c) && t < |mid.threads|
    requires Carries(mid.threads[t], p, now) ||
             (mid.threads[t].Upsert? && mid.threads[t].target == p && mid.threads[t].stage == DropQuota && c.now == now)
    ensures ResetTime(s, run, p, now)
  {
    if Carries(mid.threads[t], p, now) {
      ResetTimeMore(s, run, p, now);
    } else {
      assert ResetsAt(s, run, p, now, |run| - 1);
    }
  }

  lemma CellsTimed(s: Sys, run: Schedule, mid: Sys, t: Tid, z: Sys)
    requires run != [] && t < |mid.threads| && Timed(s, run[..|run| - 1], mid) && ClocksKept(mid, mid.threads[t], z)
    ensures forall h :: 0 <= h < |z.cells| ==>
              ResetTime(s, run, z.cells[h].key.pubkey, z.cells[h].counter.lastRefill)
  {
    forall h | 0 <= h < |z.cells|
      ensures ResetTime(s, run, z.cells[h].key.pubkey, z.cells[h].counter.lastRefill)
    {
      ResetTimeMore(s, run, z.cells[h].key.pubkey, z.cells[h].counter.lastRefill);
    }
  }

  lemma TimedStep(s: Sys, run: Schedule, mid: Sys, t: Tid, c: Choice, z: Sys)
    requires run != [] && After(s, run[..|run| - 1]) == Some(mid) && Shape(mid) && Timed(s, run[..|run| - 1], mid)
    requires run[|run| - 1] == (t, c) && StepOf(mid, t, c) == Some(z)
    ensures Timed(s, run, z)
  {
    OnlyMover(mid, t, c);
    StepClocks(mid, t, c);
    CellsTimed(s, run, mid, t, z);
    forall u: Tid, p, now | u < |z.threads| && Carries(z.threads[u], p, now)
      ensures ResetTime(s, run, p, now)
    {
      if u == t {
        CarriesStep(mid, t, c, p, now);
        CarriedTimed(s, run, mid, t, c, p, now);
      } else {
        ResetTimeMore(s, run, p, now);
      }
    }
  }

  /** In every schedule a counter refills from the time that an upsert of its pubkey
      read after dropping the old counters, and from no other, whatever is drawn. */
  lemma {:induction false} CountersTimed(s: Sys, run: Schedule, z: Sys)
    requires ReachedBy(s, run, z)
    ensures forall h :: 0 <= h < |z.cells| ==>
              ResetTime(s, run, z.cells[h].key.pubkey, z.cells[h].counter.lastRefill)
    ensures Timed(s, run, z)
    decreases |run|
  {
    if run == [] {
      forall t: Tid, p, now | t < |z.threads|
        ensures !Carries(z.threads[t], p, now)
      {
        assert Begins(z.threads[t]);
      }
    } else {
      var n := |run| - 1;
      var mid := After(s, run[..n]).value;
      CountersTimed(s, run[..n], mid);
      RunShape(s, run[..n]);
      TimedStep(s, run, mid, run[n].0, run[n].1, z);
    }
  }
}
