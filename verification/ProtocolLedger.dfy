/** Conservation: where the units of a counter are, in every interleaving. */
module ProtocolLedger {
  import opened Wrappers
  import opened Words
  import opened RateStates
  import opened Profiles
  import opened Protocol
  import opened ProtocolLocks
  import opened ProtocolSerial

  /** What updates `lo` up to `hi` take from `h`. */
  function AmountOn(us: seq<Update>, lo: nat, hi: nat, h: Handle): nat
    requires lo <= hi <= |us|
    decreases hi - lo
  {
    if lo == hi then 0 else (if us[lo].handle == h then us[lo].amount else 0) + AmountOn(us, lo + 1, hi, h)
  }

  /** Debited by this request and neither returned nor kept yet. */
  function InFlight(p: Phase, h: Handle): nat {
    match p
    case Debiting(plan, i) => if i <= |plan.updates| then AmountOn(plan.updates, 0, i, h) else 0
    case Unlocking(plan, _, denial) => if denial.None? then AmountOn(plan.updates, 0, |plan.updates|, h) else 0
    case Executing(plan) => AmountOn(plan.updates, 0, |plan.updates|, h)
    case RefundLocking(plan, i) => if i <= |plan.updates| then AmountOn(plan.updates, i, |plan.updates|, h) else 0
    case Refunding(plan, i) => if i <= |plan.updates| then AmountOn(plan.updates, i, |plan.updates|, h) else 0
    case _ => 0
  }

  /** Debited for good: the request ended without an execution failure. */
  function Spent(p: Phase, h: Handle): nat {
    match p
    case Kept(plan) => AmountOn(plan.updates, 0, |plan.updates|, h)
    case _ => 0
  }

  function InFlightOf(thread: Thread, h: Handle): nat {
    if thread.Call? then InFlight(thread.phase, h) else 0
  }

  function SpentOf(thread: Thread, h: Handle): nat {
    if thread.Call? then Spent(thread.phase, h) else 0
  }

  function TotalInFlight(threads: seq<Thread>, h: Handle): nat {
    if threads == [] then 0 else TotalInFlight(threads[..|threads| - 1], h) + InFlightOf(threads[|threads| - 1], h)
  }

  function TotalSpent(threads: seq<Thread>, h: Handle): nat {
    if threads == [] then 0 else TotalSpent(threads[..|threads| - 1], h) + SpentOf(threads[|threads| - 1], h)
  }

  lemma {:induction false} TotalsUpdate(threads: seq<Thread>, t: nat, x: Thread, h: Handle)
    requires t < |threads|
    ensures TotalInFlight(threads[t := x], h) + InFlightOf(threads[t], h) ==
            TotalInFlight(threads, h) + InFlightOf(x, h)
    ensures TotalSpent(threads[t := x], h) + SpentOf(threads[t], h) == TotalSpent(threads, h) + SpentOf(x, h)
    decreases |threads|
  {
    var n := |threads| - 1;
    if t == n {
      assert threads[t := x][..n] == threads[..n];
    } else {
      TotalsUpdate(threads[..n], t, x, h);
      assert threads[t := x][..n] == threads[..n][t := x];
    }
  }

  lemma {:induction false} TotalAtLeast(threads: seq<Thread>, t: nat, h: Handle)
    requires t < |threads|
    ensures TotalInFlight(threads, h) >= InFlightOf(threads[t], h)
    decreases |threads|
  {
    var n := |threads| - 1;
    if t == n {
    } else {
      TotalAtLeast(threads[..n], t, h);
    }
  }

  lemma {:induction false} AmountSplit(us: seq<Update>, lo: nat, mid: nat, h: Handle)
    requires lo <= mid < |us|
    ensures AmountOn(us, lo, mid + 1, h) ==
            AmountOn(us, lo, mid, h) + (if us[mid].handle == h then us[mid].amount else 0)
    decreases mid - lo
  {
    if lo == mid {
    } else {
      AmountSplit(us, lo + 1, mid, h);
    }
  }

  lemma {:induction false} AmountAbsent(s: Sys, us: seq<Update>, lo: nat, hi: nat, h: Handle)
    requires UpdatesOk(s, us) && lo <= hi <= |us| && h >= |s.cells|
    ensures AmountOn(us, lo, hi, h) == 0
    decreases hi - lo
  {
    if lo == hi {
    } else {
      assert UpdateOk(s, us[lo]);
      AmountAbsent(s, us, lo + 1, hi, h);
    }
  }

  // ---------- which rules lose or make nothing ----------

  /** What a counter of a rule without refill keeps whole under another rule: one
      whose capacity no request can draw from, or one without refill that is no
      smaller. */
  predicate Harmless(born: RateLimitRule, rule: RateLimitRule, least: u64) {
    rule.maxCapacity < least || (rule.ratePerMicro == 0 && born.maxCapacity <= rule.maxCapacity)
  }

  /** Every rule the counter was ever fetched under is harmless to it. */
  ghost predicate HarmlessAt(s: Sys, h: Handle)
    requires h < |s.cells|
  {
    forall r :: (h, r) in s.fetches ==> Harmless(s.cells[h].born, r, LeastAmount(s.cells[h].key))
  }

  /** The counter was only ever fetched under its own rule. */
  ghost predicate OwnRuleOnly(s: Sys, h: Handle)
    requires h < |s.cells|
  {
    forall r :: (h, r) in s.fetches ==> r == s.cells[h].born
  }

  lemma OwnRuleHarmless(s: Sys, h: Handle)
    requires h < |s.cells| && OwnRuleOnly(s, h) && s.cells[h].born.ratePerMicro == 0
    ensures HarmlessAt(s, h)
  {
  }

  /** An update of a debited plan fits under the capacity of its rule. */
  predicate Affordable(u: Update) {
    u.amount <= u.rule.maxCapacity
  }

  predicate HasDebited(p: Phase) {
    || p.Debiting? || (p.Unlocking? && p.denial.None?) || p.Executing?
    || p.RefundLocking? || p.Refunding? || p.Kept? || p.Returned?
  }

  ghost predicate AllAffordable(p: Phase) {
    HasDebited(p) ==> forall u :: u in p.plan.updates ==> Affordable(u)
  }

  ghost predicate Afforded(s: Sys) {
    forall t: Tid :: t < |s.threads| && s.threads[t].Call? ==> AllAffordable(s.threads[t].phase)
  }

  lemma MoveAffordable(s: Sys, t: Tid, req: Request, p: Phase, c: Choice)
    requires PhaseOk(s, p) && PhaseChecked(s, p) && AllAffordable(p) && CallMove(s, t, req, p, c).Some?
    ensures AllAffordable(CallMove(s, t, req, p, c).value.phase)
  {
    if p.Checking? && p.i >= |p.plan.updates| {
      forall u | u in p.plan.updates
        ensures Affordable(u)
      {
        var j :| 0 <= j < |p.plan.updates| && p.plan.updates[j] == u;
        assert CheckedAt(s, p.plan, j);
      }
    }
  }

  lemma StepKeepsAfforded(s: Sys, t: Tid, c: Choice)
    requires Shape(s) && Checked(s) && Afforded(s) && StepOf(s, t, c).Some?
    ensures Afforded(StepOf(s, t, c).value)
  {
    StepSpares(s, t, c);
    LogGrowth(s, t, c);
    if s.threads[t].Call? {
      assert ThreadOk(s, s.threads[t]) && ThreadChecked(s, t);
      MoveAffordable(s, t, s.threads[t].req, s.threads[t].phase, c);
    }
  }

  // ---------- the balance sheet of a step ----------

  /** No balance is ever negative; fetched under its own rule only, a counter stays
      under its capacity, and fetched under harmless rules only, one without refill
      accounts for its whole capacity. */
  ghost predicate Balanced(s: Sys, h: Handle)
    requires h < |s.cells|
  {
    var cell := s.cells[h];
    && 0 <= cell.born.maxCapacity && 0 <= cell.counter.balance
    && (OwnRuleOnly(s, h) ==> cell.counter.balance <= cell.born.maxCapacity)
    && (HarmlessAt(s, h) && cell.born.ratePerMicro == 0 ==> Accounted(s, h))
  }

  ghost predicate Accounted(s: Sys, h: Handle)
    requires h < |s.cells|
  {
    s.cells[h].counter.balance + TotalInFlight(s.threads, h) + TotalSpent(s.threads, h) == s.cells[h].born.maxCapacity
  }

  ghost predicate AllBalanced(s: Sys) {
    forall h: Handle :: h < |s.cells| ==> Balanced(s, h)
  }

  lemma DebitGain(c: Counter, u: Update, now: u64)
    requires 0 <= c.balance && CheckWithdraw(c, u.amount, now, u.rule).Ok?
    ensures 0 <= Withdrawn(c, u.amount, now, u.rule).balance <= u.rule.maxCapacity && u.amount <= u.rule.maxCapacity
    ensures u.rule.ratePerMicro == 0 && c.balance <= u.rule.maxCapacity ==>
              Withdrawn(c, u.amount, now, u.rule).balance == c.balance - u.amount
  {
    RefillExact(c, now, u.rule);
  }

  /** A refund that fits under the cap is credited in full. */
  lemma RefundGain(c: Counter, u: Update)
    requires 0 <= c.balance
    ensures 0 <= Refunded(c, u.amount, u.rule).balance <= Max(c.balance, u.rule.maxCapacity)
    ensures Affordable(u) && c.balance + u.amount <= u.rule.maxCapacity ==>
              Refunded(c, u.amount, u.rule).balance == c.balance + u.amount
  {
  }

  /** What the move of a request does to its own share. */
  function Share(p: Phase, h: Handle): nat {
    InFlight(p, h) + Spent(p, h)
  }

  predicate ShareMoved(p: Phase, m: Move, h: Handle) {
    match m.effect
    case Write(g, _) =>
      && p.Debiting? && p.i < |p.plan.updates| && g == p.plan.updates[p.i].handle
      && Share(m.phase, h) == Share(p, h) + (if g == h then p.plan.updates[p.i].amount else 0)
    case WriteUnlock(g, _) =>
      && p.Refunding? && p.i < |p.plan.updates| && g == p.plan.updates[p.i].handle
      && Share(m.phase, h) + (if g == h then p.plan.updates[p.i].amount else 0) == Share(p, h)
    case _ => Share(m.phase, h) == Share(p, h)
  }

  lemma DebitShare(s: Sys, t: Tid, req: Request, p: Phase, c: Choice, h: Handle)
    requires PhaseOk(s, p) && PhaseChecked(s, p) && p.Debiting? && CallMove(s, t, req, p, c).Some?
    ensures ShareMoved(p, CallMove(s, t, req, p, c).value, h)
  {
    if p.i < |p.plan.updates| {
      assert CheckedAt(s, p.plan, p.i);
      AmountSplit(p.plan.updates, 0, p.i, h);
    }
  }

  lemma RefundShare(s: Sys, t: Tid, req: Request, p: Phase, c: Choice, h: Handle)
    requires PhaseOk(s, p) && p.Refunding? && CallMove(s, t, req, p, c).Some?
    ensures ShareMoved(p, CallMove(s, t, req, p, c).value, h)
  {
  }

  lemma FetchShare(s: Sys, t: Tid, req: Request, p: Phase, c: Choice, h: Handle)
    requires !HasPlan(p) && CallMove(s, t, req, p, c).Some?
    ensures ShareMoved(p, CallMove(s, t, req, p, c).value, h)
  {
  }

  lemma OtherShare(s: Sys, t: Tid, req: Request, p: Phase, c: Choice, h: Handle)
    requires PhaseOk(s, p) && HasPlan(p) && !p.Debiting? && !p.Refunding? && CallMove(s, t, req, p, c).Some?
    ensures ShareMoved(p, CallMove(s, t, req, p, c).value, h)
  {
    assert forall us: seq<Update> :: AmountOn(us, |us|, |us|, h) == 0;
  }

  lemma MoveShare(s: Sys, t: Tid, req: Request, p: Phase, c: Choice, h: Handle)
    requires PhaseOk(s, p) && PhaseChecked(s, p) && CallMove(s, t, req, p, c).Some?
    ensures ShareMoved(p, CallMove(s, t, req, p, c).value, h)
  {
    if p.Debiting? {
      DebitShare(s, t, req, p, c, h);
    } else if p.Refunding? {
      RefundShare(s, t, req, p, c, h);
    } else if !HasPlan(p) {
      FetchShare(s, t, req, p, c, h);
    } else {
      OtherShare(s, t, req, p, c, h);
    }
  }

  lemma DebitBalanced(s: Sys, s': Sys, u: Update, now: u64)
    requires u.handle < |s.cells| && Balanced(s, u.handle) && UpdateOk(s, u)
    requires CheckWithdraw(s.cells[u.handle].counter, u.amount, now, u.rule).Ok?
    requires s.fetches <= s'.fetches
    requires s'.cells == s.cells[u.handle := s.cells[u.handle].(
                           counter := Withdrawn(s.cells[u.handle].counter, u.amount, now, u.rule))]
    requires Outstanding(s', u.handle) == Outstanding(s, u.handle) + u.amount
    ensures Balanced(s', u.handle)
  {
    var h := u.handle;
    DebitGain(s.cells[h].counter, u, now);
    assert OwnRuleOnly(s', h) ==> OwnRuleOnly(s, h) && u.rule == s.cells[h].born;
    assert HarmlessAt(s', h) ==> HarmlessAt(s, h) && Harmless(s.cells[h].born, u.rule, LeastAmount(s.cells[h].key));
  }

  lemma RefundBalanced(s: Sys, s': Sys, u: Update)
    requires u.handle < |s.cells| && Balanced(s, u.handle) && UpdateOk(s, u) && Affordable(u)
    requires s.fetches <= s'.fetches
    requires s'.cells == s.cells[u.handle := s.cells[u.handle].(
                           counter := Refunded(s.cells[u.handle].counter, u.amount, u.rule), holder := None)]
    requires Outstanding(s', u.handle) + u.amount == Outstanding(s, u.handle)
    ensures Balanced(s', u.handle)
  {
    var h := u.handle;
    RefundGain(s.cells[h].counter, u);
    assert OwnRuleOnly(s', h) ==> OwnRuleOnly(s, h) && u.rule == s.cells[h].born;
    assert HarmlessAt(s', h) ==> HarmlessAt(s, h) && Harmless(s.cells[h].born, u.rule, LeastAmount(s.cells[h].key));
  }

  /** Debited from `h` and not returned. */
  function Outstanding(s: Sys, h: Handle): nat {
    TotalInFlight(s.threads, h) + TotalSpent(s.threads, h)
  }

  lemma SameBalanced(s: Sys, s': Sys, h: Handle)
    requires h < |s.cells| && Balanced(s, h) && h < |s'.cells| && s.fetches <= s'.fetches
    requires s'.cells[h].counter == s.cells[h].counter
    requires s'.cells[h].born == s.cells[h].born && s'.cells[h].key == s.cells[h].key
    requires Outstanding(s', h) == Outstanding(s, h)
    ensures Balanced(s', h)
  {
    assert OwnRuleOnly(s', h) ==> OwnRuleOnly(s, h);
    assert HarmlessAt(s', h) ==> HarmlessAt(s, h);
  }

  lemma CallBalanced(s: Sys, t: Tid, req: Request, p: Phase, c: Choice, h: Handle)
    requires Shape(s) && Checked(s) && Afforded(s) && t < |s.threads| && s.threads[t] == Call(req, p)
    requires CallMove(s, t, req, p, c).Some? && h < |s.cells| && Balanced(s, h)
    ensures Balanced(CallStep(s, t, CallMove(s, t, req, p, c).value), h)
  {
    var m := CallMove(s, t, req, p, c).value;
    var s' := CallStep(s, t, m);
    assert ThreadOk(s, s.threads[t]) && ThreadChecked(s, t);
    assert s'.threads == s.threads[t := Call(req, m.phase)];
    MoveShare(s, t, req, p, c, h);
    TotalsUpdate(s.threads, t, Call(req, m.phase), h);
    if m.effect.Write? && m.effect.h == h {
      var u := p.plan.updates[p.i];
      assert UpdateOk(s, u) && CheckedAt(s, p.plan, p.i);
      DebitBalanced(s, s', u, p.plan.now);
    } else if m.effect.WriteUnlock? && m.effect.h == h {
      var u := p.plan.updates[p.i];
      assert UpdateOk(s, u) && AllAffordable(p);
      RefundBalanced(s, s', u);
    } else {
      SameBalanced(s, s', h);
    }
  }

  lemma {:induction false} NoShareBeyond(s: Sys, n: nat, h: Handle)
    requires ThreadsOk(s) && n <= |s.threads| && h >= |s.cells|
    ensures TotalInFlight(s.threads[..n], h) == 0 && TotalSpent(s.threads[..n], h) == 0
  {
    if n == 0 {
    } else {
      NoShareBeyond(s, n - 1, h);
      assert s.threads[..n][..n - 1] == s.threads[..n - 1];
      var thread := s.threads[n - 1];
      assert ThreadOk(s, thread);
      if thread.Call? {
        PhaseShareBeyond(s, thread.phase, h);
      }
    }
  }

  lemma PhaseShareBeyond(s: Sys, p: Phase, h: Handle)
    requires PhaseOk(s, p) && h >= |s.cells|
    ensures Share(p, h) == 0
  {
    if HasPlan(p) {
      var us := p.plan.updates;
      AmountAbsent(s, us, 0, |us|, h);
      if p.Debiting? {
        AmountAbsent(s, us, 0, p.i, h);
      }
      if (p.RefundLocking? || p.Refunding?) && p.i <= |us| {
        AmountAbsent(s, us, p.i, |us|, h);
      }
    }
  }

  lemma ResetBalanced(s: Sys, s': Sys, t: Tid, h: Handle)
    requires Shape(s) && ResetFrame(s, s', t) && h < |s'.cells|
    requires h < |s.cells| ==> Balanced(s, h)
    requires h == |s.cells| ==>
               var cell := s'.cells[h]; cell.born.maxCapacity >= 0 && cell.counter.balance == cell.born.maxCapacity
    ensures Balanced(s', h)
  {
    ResetGrows(s, s', t);
    TotalsUpdate(s.threads, t, s'.threads[t], h);
    if h == |s.cells| {
      NoShareBeyond(s, |s.threads|, h);
      assert s.threads[..|s.threads|] == s.threads;
    } else {
      SameBalanced(s, s', h);
    }
  }

  lemma UpsertBorn(s: Sys, t: Tid, c: Choice)
    requires t < |s.threads| && s.threads[t].Upsert? && UpsertStep(s, t, c).Some?
    ensures var s' := UpsertStep(s, t, c).value;
            |s'.cells| > |s.cells| ==>
              var cell := s'.cells[|s.cells|];
              cell.born.maxCapacity >= 0 && cell.counter.balance == cell.born.maxCapacity
  {
  }

  lemma StepKeepsBalanced(s: Sys, t: Tid, c: Choice)
    requires Shape(s) && Checked(s) && Afforded(s) && AllBalanced(s) && StepOf(s, t, c).Some?
    ensures AllBalanced(StepOf(s, t, c).value)
  {
    var s' := StepOf(s, t, c).value;
    if s.threads[t].Call? {
      AffectGrows(s, t, CallMove(s, t, s.threads[t].req, s.threads[t].phase, c).value);
    } else if s.threads[t].Upsert? {
      UpsertFrame(s, t, c);
      UpsertBorn(s, t, c);
    } else {
      ClearFrame(s, t);
    }
    forall h: Handle | h < |s'.cells|
      ensures Balanced(s', h)
    {
      if s.threads[t].Call? {
        assert Balanced(s, h);
        CallBalanced(s, t, s.threads[t].req, s.threads[t].phase, c, h);
      } else {
        if h < |s.cells| { assert Balanced(s, h); }
        ResetBalanced(s, s', t, h);
      }
    }
  }

  lemma {:induction false} RunBalanced(s: Sys, run: Schedule)
    requires Initial(s) && After(s, run).Some?
    ensures AllBalanced(After(s, run).value) && Afforded(After(s, run).value)
    decreases |run|
  {
    if run == [] {
      forall t: Tid | t < |s.threads| && s.threads[t].Call?
        ensures AllAffordable(s.threads[t].phase)
      {
        assert Begins(s.threads[t]);
      }
    } else {
      var n := |run| - 1;
      RunBalanced(s, run[..n]);
      RunLogged(s, run[..n]);
      StepKeepsAfforded(After(s, run[..n]).value, run[n].0, run[n].1);
      StepKeepsBalanced(After(s, run[..n]).value, run[n].0, run[n].1);
    }
  }

  // ---------- the theorems ----------

  lemma ReachableBalanced(z: Sys)
    requires Reachable(z)
    ensures AllBalanced(z) && Afforded(z)
  {
    var s, run :| ReachedBy(s, run, z);
    RunBalanced(s, run);
  }

  /** A counter of a rule without refill, fetched under harmless rules only. */
  ghost predicate Closed(z: Sys, h: Handle) {
    h < |z.cells| && z.cells[h].born.ratePerMicro == 0 && HarmlessAt(z, h)
  }

  /** In every reachable state balance, in-flight debits and kept debits of a
      closed counter make up exactly the capacity, so what is kept never exceeds it. */
  lemma Conservation(z: Sys, h: Handle)
    requires Reachable(z) && Closed(z, h)
    ensures Accounted(z, h)
    ensures 0 <= z.cells[h].counter.balance && TotalSpent(z.threads, h) <= z.cells[h].born.maxCapacity
  {
    ReachableBalanced(z);
    assert Balanced(z, h);
  }

  /** No balance is ever negative, under any rules and any interleaving; a counter
      fetched under its own rule only stays under its capacity as well. */
  lemma BalanceInRange(z: Sys, h: Handle)
    requires Reachable(z) && h < |z.cells|
    ensures 0 <= z.cells[h].counter.balance
    ensures OwnRuleOnly(z, h) ==> InRange(z.cells[h].counter, z.cells[h].born)
  {
    ReachableBalanced(z);
    assert Balanced(z, h);
  }

  /** Thread `t` is about to refund `u`. */
  ghost predicate AboutToRefund(z: Sys, t: Tid, u: Update) {
    && t < |z.threads| && z.threads[t].Call? && z.threads[t].phase.Refunding?
    && z.threads[t].phase.i < |z.threads[t].phase.plan.updates|
    && u == z.threads[t].phase.plan.updates[z.threads[t].phase.i]
  }

  /** The clamp of a refund never discards anything: a pending refund on a closed
      counter fits under the capacity and is credited in full. */
  lemma RefundNeverClamped(z: Sys, t: Tid, u: Update)
    requires Reachable(z) && AboutToRefund(z, t, u) && Closed(z, u.handle)
    ensures Refunded(z.cells[u.handle].counter, u.amount, u.rule).balance
            == z.cells[u.handle].counter.balance + u.amount
  {
    ReachableBalanced(z);
    ReachableShape(z);
    var p := z.threads[t].phase;
    assert Balanced(z, u.handle) && AllAffordable(p) && u in p.plan.updates;
    assert ThreadOk(z, z.threads[t]) && UpdateOk(z, u);
    assert Harmless(z.cells[u.handle].born, u.rule, LeastAmount(u.key));
    TotalAtLeast(z.threads, t, u.handle);
    assert InFlight(p, u.handle) >= u.amount;
    RefundGain(z.cells[u.handle].counter, u);
  }
}
