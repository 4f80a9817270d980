/** How much can be drawn from one counter over a whole run. */
module RateBounds {
  import opened Words
  import opened RateStates

  datatype Op =
    | Withdraw(amount: u64, now: u64)
    | Refund(amount: u64)

  function Admitted(c: Counter, op: Op, rule: RateLimitRule): bool {
    op.Withdraw? && CheckWithdraw(c, op.amount, op.now, rule).Ok?
  }

  function Step(c: Counter, op: Op, rule: RateLimitRule): Counter {
    match op
    case Withdraw(amount, now) =>
      if CheckWithdraw(c, amount, now, rule).Ok? then Withdrawn(c, amount, now, rule) else c
    case Refund(amount) => Refunded(c, amount, rule)
  }

  function After(c: Counter, ops: seq<Op>, rule: RateLimitRule): Counter {
    if ops == [] then c else Step(After(c, ops[..|ops| - 1], rule), ops[|ops| - 1], rule)
  }

  function Drawn(c: Counter, op: Op, rule: RateLimitRule): int {
    if Admitted(c, op, rule) then op.amount
    else if op.Refund? && CheckRefund(op.amount, rule).Ok? then 0 - op.amount as int
    else 0
  }

  /** Admitted withdrawals less refunds. */
  function TotalDrawn(c: Counter, ops: seq<Op>, rule: RateLimitRule): int {
    if ops == [] then 0
    else
      var init := ops[..|ops| - 1];
      TotalDrawn(c, init, rule) + Drawn(After(c, init, rule), ops[|ops| - 1], rule)
  }

  /** What one admitted withdrawal can add: the whole refill since construction. */
  function Refill(c: Counter, op: Op, rule: RateLimitRule): int {
    if op.Withdraw? then Min(rule.maxCapacity, rule.ratePerMicro * Elapsed(c, op.now)) else 0
  }

  function TotalRefill(c: Counter, ops: seq<Op>, rule: RateLimitRule): int {
    if ops == [] then 0
    else
      var init := ops[..|ops| - 1];
      TotalRefill(c, init, rule)
      + (if Admitted(After(c, init, rule), ops[|ops| - 1], rule) then Refill(c, ops[|ops| - 1], rule) else 0)
  }

  /** Over every run the net amount drawn is at most the starting balance plus
      one full refill per admitted withdrawal, and the balance stays in range. */
  lemma {:induction false} DrawnIsBounded(c: Counter, ops: seq<Op>, rule: RateLimitRule)
    requires InRange(c, rule)
    ensures InRange(After(c, ops, rule), rule) && After(c, ops, rule).lastRefill == c.lastRefill
    ensures TotalDrawn(c, ops, rule) + After(c, ops, rule).balance <= c.balance + TotalRefill(c, ops, rule)
    decreases |ops|
  {
    if ops == [] {
    } else {
      var init, op := ops[..|ops| - 1], ops[|ops| - 1];
      DrawnIsBounded(c, init, rule);
      var d := After(c, init, rule);
      StaysInRange(d, op.amount, if op.Withdraw? then op.now else 0, rule);
      if Admitted(d, op, rule) {
        RefillExact(d, op.now, rule);
        assert Elapsed(d, op.now) == Elapsed(c, op.now);
      }
    }
  }

  // ---------- the token-bucket bound ----------

  /** The longest time since construction among the withdrawals of a run. */
  function LastElapsed(c: Counter, ops: seq<Op>): nat {
    if ops == [] then 0
    else
      var op, rest := ops[|ops| - 1], LastElapsed(c, ops[..|ops| - 1]);
      if op.Withdraw? then Max(rest, Elapsed(c, op.now)) else rest
  }

  /** The bound a token bucket is meant to keep. */
  predicate WithinBucket(c: Counter, ops: seq<Op>, rule: RateLimitRule) {
    TotalDrawn(c, ops, rule) <= rule.maxCapacity + rule.ratePerMicro * LastElapsed(c, ops)
  }

  lemma StepMore(c: Counter, ops: seq<Op>, op: Op, rule: RateLimitRule)
    ensures After(c, ops + [op], rule) == Step(After(c, ops, rule), op, rule)
    ensures TotalDrawn(c, ops + [op], rule) == TotalDrawn(c, ops, rule) + Drawn(After(c, ops, rule), op, rule)
  {
    assert (ops + [op])[..|ops|] == ops;
  }

  lemma LastElapsedMore(c: Counter, ops: seq<Op>, amount: u64, now: u64)
    ensures LastElapsed(c, ops + [Withdraw(amount, now)]) == Max(LastElapsed(c, ops), Elapsed(c, now))
  {
    assert (ops + [Withdraw(amount, now)])[..|ops|] == ops;
  }

  lemma UnitServed(d: Counter, rule: RateLimitRule)
    requires rule.ratePerMicro > 0 && rule.maxCapacity > 0 && d.lastRefill < U64_MAX && InRange(d, rule)
    ensures var op := Withdraw(1, d.lastRefill + 1);
            Admitted(d, op, rule) && InRange(Step(d, op, rule), rule) && Step(d, op, rule).lastRefill == d.lastRefill
  {
    AdmittedIffCovered(d, 1, d.lastRefill + 1, rule);
    StaysInRange(d, 1, d.lastRefill + 1, rule);
    assert Elapsed(d, d.lastRefill + 1) == 1;
    assert rule.ratePerMicro * 1 == rule.ratePerMicro;
  }

  /** The counter after a run from `c`, and what the run drew. */
  ghost predicate Stands(c: Counter, ops: seq<Op>, rule: RateLimitRule, d: Counter, drawn: int) {
    After(c, ops, rule) == d && TotalDrawn(c, ops, rule) == drawn
  }

  /** One unit is refilled again for each of `n` withdrawals made at one time. */
  lemma {:induction false} RepeatedUnit(c: Counter, rule: RateLimitRule, n: nat) returns (ops: seq<Op>, d: Counter)
    requires rule.ratePerMicro > 0 && rule.maxCapacity > 0 && c.lastRefill < U64_MAX
    requires c.balance == rule.maxCapacity
    ensures Stands(c, ops, rule, d, n) && InRange(d, rule) && d.lastRefill == c.lastRefill
    ensures LastElapsed(c, ops) == if n == 0 then 0 else 1
    decreases n
  {
    if n == 0 {
      ops, d := [], c;
    } else {
      var q, e := RepeatedUnit(c, rule, n - 1);
      var op := Withdraw(1, c.lastRefill + 1);
      StepMore(c, q, op, rule);
      LastElapsedMore(c, q, 1, c.lastRefill + 1);
      UnitServed(e, rule);
      ops, d := q + [op], Step(e, op, rule);
    }
  }

  lemma {:induction false} NoRefillNoExcess(c: Counter, ops: seq<Op>, rule: RateLimitRule)
    requires rule.ratePerMicro == 0 || rule.maxCapacity == 0 || c.lastRefill == U64_MAX
    requires rule.maxCapacity >= 0
    ensures TotalRefill(c, ops, rule) <= 0
    decreases |ops|
  {
    if ops == [] {
    } else {
      var op := ops[|ops| - 1];
      NoRefillNoExcess(c, ops[..|ops| - 1], rule);
      if op.Withdraw? && rule.ratePerMicro != 0 && rule.maxCapacity != 0 {
        assert Elapsed(c, op.now) == 0;
        assert rule.ratePerMicro * Elapsed(c, op.now) == 0;
      }
    }
  }

  /** From a fresh counter every run keeps the token-bucket bound if and only if
      nothing can be refilled: the refill time is never advanced, so each
      withdrawal is granted the refill of the whole lifetime anew. */
  lemma BucketBoundIff(c: Counter, rule: RateLimitRule)
    requires rule.maxCapacity >= 0 && c.balance == rule.maxCapacity
    ensures (forall ops :: WithinBucket(c, ops, rule)) <==>
            rule.ratePerMicro == 0 || rule.maxCapacity == 0 || c.lastRefill == U64_MAX
  {
    if rule.ratePerMicro == 0 || rule.maxCapacity == 0 || c.lastRefill == U64_MAX {
      forall ops
        ensures WithinBucket(c, ops, rule)
      {
        DrawnIsBounded(c, ops, rule);
        NoRefillNoExcess(c, ops, rule);
        assert rule.ratePerMicro * LastElapsed(c, ops) >= 0;
      }
    } else {
      var n := rule.maxCapacity + rule.ratePerMicro + 1;
      var ops, d := RepeatedUnit(c, rule, n);
      assert rule.ratePerMicro * LastElapsed(c, ops) == rule.ratePerMicro;
      assert !WithinBucket(c, ops, rule);
    }
  }

  // ---------- runs of one fixed amount ----------

  /** Every operation takes or returns `a`, as the calls on an access-rate counter do. */
  ghost predicate FixedAmount(ops: seq<Op>, a: u64) {
    forall op :: op in ops ==> op.amount == a
  }

  /** All that can ever be refilled at once. */
  function LifetimeRefill(c: Counter, rule: RateLimitRule): nat {
    rule.ratePerMicro * (U64_MAX - c.lastRefill)
  }

  lemma RefillWithinLifetime(c: Counter, now: u64, rule: RateLimitRule)
    ensures 0 <= rule.ratePerMicro * Elapsed(c, now) <= LifetimeRefill(c, rule)
  {
    MulMonotone(rule.ratePerMicro, Elapsed(c, now), U64_MAX - c.lastRefill);
  }

  lemma {:induction false} LastElapsedBound(c: Counter, ops: seq<Op>)
    ensures LastElapsed(c, ops) <= U64_MAX - c.lastRefill
    decreases |ops|
  {
    if ops == [] {
    } else {
      LastElapsedBound(c, ops[..|ops| - 1]);
    }
  }

  lemma BoundWithinLifetime(c: Counter, ops: seq<Op>, rule: RateLimitRule)
    ensures 0 <= rule.ratePerMicro * LastElapsed(c, ops) <= LifetimeRefill(c, rule)
  {
    LastElapsedBound(c, ops);
    MulMonotone(rule.ratePerMicro, LastElapsed(c, ops), U64_MAX - c.lastRefill);
  }

  lemma AdmittedFits(d: Counter, op: Op, rule: RateLimitRule)
    requires InRange(d, rule) && Admitted(d, op, rule)
    ensures op.amount <= rule.maxCapacity && Step(d, op, rule).balance <= rule.maxCapacity - op.amount
  {
  }

  /** A counter of this age that has one amount out admits no second. */
  ghost predicate NoSecond(born: u64, rule: RateLimitRule, a: u64) {
    forall d: Counter, now: u64 :: d.lastRefill == born && InRange(d, rule) && d.balance + a <= rule.maxCapacity ==>
      !Admitted(d, Withdraw(a, now), rule)
  }

  lemma NeverSecond(c: Counter, rule: RateLimitRule, a: u64)
    requires rule.maxCapacity < a || LifetimeRefill(c, rule) + rule.maxCapacity < 2 * a
    ensures NoSecond(c.lastRefill, rule, a)
  {
    forall d: Counter, now: u64 | d.lastRefill == c.lastRefill && InRange(d, rule) && d.balance + a <= rule.maxCapacity
      ensures !Admitted(d, Withdraw(a, now), rule)
    {
      AdmittedIffCovered(d, a, now, rule);
      RefillWithinLifetime(d, now, rule);
    }
  }

  /** Where a second withdrawal can never follow a first, at most one is out. */
  ghost predicate OneAtMost(d: Counter, drawn: int, rule: RateLimitRule, a: u64) {
    drawn <= 0 || (a <= rule.maxCapacity && drawn <= a && d.balance + a <= rule.maxCapacity)
  }

  lemma OneAtMostStep(d: Counter, drawn: int, op: Op, rule: RateLimitRule, a: u64)
    requires NoSecond(d.lastRefill, rule, a) && InRange(d, rule) && OneAtMost(d, drawn, rule, a) && op.amount == a
    ensures OneAtMost(Step(d, op, rule), drawn + Drawn(d, op, rule), rule, a)
  {
    if Admitted(d, op, rule) {
      assert op == Withdraw(a, op.now);
      AdmittedFits(d, op, rule);
    }
  }

  lemma {:induction false} AtMostOneOut(c: Counter, ops: seq<Op>, rule: RateLimitRule, a: u64)
    requires InRange(c, rule) && FixedAmount(ops, a) && NoSecond(c.lastRefill, rule, a)
    ensures OneAtMost(After(c, ops, rule), TotalDrawn(c, ops, rule), rule, a)
    decreases |ops|
  {
    if ops == [] {
    } else {
      var init, op := ops[..|ops| - 1], ops[|ops| - 1];
      assert ops == init + [op];
      AtMostOneOut(c, init, rule, a);
      DrawnIsBounded(c, init, rule);
      OneAtMostStep(After(c, init, rule), TotalDrawn(c, init, rule), op, rule, a);
    }
  }

  /** A counter that can serve one call more, and refills. */
  predicate Serves(c: Counter, rule: RateLimitRule, a: u64) {
    && 0 < LifetimeRefill(c, rule) && 0 < a <= rule.maxCapacity
    && 2 * a <= LifetimeRefill(c, rule) + rule.maxCapacity
  }

  /** The latest withdrawal from `d` succeeds and is granted a unit more than `d` has,
      unless that is more than the capacity. */
  predicate Gains(d: Counter, rule: RateLimitRule, a: u64) {
    var op := Withdraw(a, U64_MAX);
    && Admitted(d, op, rule) && Step(d, op, rule).lastRefill == d.lastRefill && 0 <= Step(d, op, rule).balance
    && Min(d.balance + 1, rule.maxCapacity) <= Step(d, op, rule).balance + a <= rule.maxCapacity
  }

  /** So it goes for every counter of this age that has one call out at most. */
  ghost predicate Renews(born: u64, rule: RateLimitRule, a: u64) {
    && 0 < a <= rule.maxCapacity
    && forall d: Counter :: d.lastRefill == born && OneOut(d, rule, a) ==> Gains(d, rule, a)
  }

  predicate OneOut(d: Counter, rule: RateLimitRule, a: u64) {
    InRange(d, rule) && rule.maxCapacity - a <= d.balance
  }

  lemma ServesRenews(c: Counter, rule: RateLimitRule, a: u64)
    requires Serves(c, rule, a)
    ensures Renews(c.lastRefill, rule, a)
  {
    forall d: Counter | d.lastRefill == c.lastRefill && OneOut(d, rule, a)
      ensures Gains(d, rule, a)
    {
      RefillExact(d, U64_MAX, rule);
      assert Elapsed(d, U64_MAX) == U64_MAX - c.lastRefill;
    }
  }

  /** A call debited and refunded keeps the refill it was granted. */
  lemma OneCycle(c: Counter, ops: seq<Op>, rule: RateLimitRule, a: u64, d: Counter, drawn: int)
    returns (more: seq<Op>, e: Counter)
    requires Stands(c, ops, rule, d, drawn) && FixedAmount(ops, a)
    requires OneOut(d, rule, a) && 0 < a <= rule.maxCapacity && Gains(d, rule, a)
    ensures Stands(c, more, rule, e, drawn) && FixedAmount(more, a)
    ensures e.lastRefill == d.lastRefill && OneOut(e, rule, a) && Min(d.balance + 1, rule.maxCapacity) <= e.balance
  {
    var op := Withdraw(a, U64_MAX);
    StepMore(c, ops, op, rule);
    StepMore(c, ops + [op], Refund(a), rule);
    more, e := ops + [op] + [Refund(a)], Refunded(Step(d, op, rule), a, rule);
  }

  /** `k` such calls refill the counter by `k` units at least, up to its capacity. */
  lemma {:induction false} CyclesRefill(c: Counter, ops: seq<Op>, rule: RateLimitRule, a: u64, k: nat,
                                        d: Counter, drawn: int)
    returns (more: seq<Op>, e: Counter)
    requires Renews(d.lastRefill, rule, a) && Stands(c, ops, rule, d, drawn) && FixedAmount(ops, a)
    requires OneOut(d, rule, a)
    ensures Stands(c, more, rule, e, drawn) && FixedAmount(more, a)
    ensures e.lastRefill == d.lastRefill && OneOut(e, rule, a) && Min(d.balance + k, rule.maxCapacity) <= e.balance
    decreases k
  {
    if k == 0 {
      more, e := ops, d;
    } else {
      var q, mid := CyclesRefill(c, ops, rule, a, k - 1, d, drawn);
      assert Gains(mid, rule, a);
      more, e := OneCycle(c, q, rule, a, mid, drawn);
    }
  }

  /** Rounds of one call that is kept and as many refunded ones as refill it. */
  lemma {:induction false} RoundsDraw(c: Counter, rule: RateLimitRule, a: u64, n: nat)
    returns (ops: seq<Op>, drawn: int)
    requires Renews(c.lastRefill, rule, a) && c.balance == rule.maxCapacity
    ensures Stands(c, ops, rule, c, drawn) && FixedAmount(ops, a) && drawn >= n
    decreases n
  {
    if n == 0 {
      ops, drawn := [], 0;
    } else {
      var q, before := RoundsDraw(c, rule, a, n - 1);
      assert OneOut(c, rule, a) && Gains(c, rule, a);
      var op := Withdraw(a, U64_MAX);
      StepMore(c, q, op, rule);
      drawn := before + a;
      var e;
      ops, e := CyclesRefill(c, q + [op], rule, a, a, Step(c, op, rule), drawn);
    }
  }

  /** With one fixed amount the bound holds for all runs if and only if nothing can
      be refilled, the amount does not fit under the capacity, or a second call can
      never be served while a first is out. */
  lemma FixedBucketIff(c: Counter, rule: RateLimitRule, a: u64)
    requires rule.maxCapacity >= 0 && c.balance == rule.maxCapacity && a > 0
    ensures (forall ops :: FixedAmount(ops, a) ==> WithinBucket(c, ops, rule)) <==>
            || LifetimeRefill(c, rule) == 0 || rule.maxCapacity < a
            || LifetimeRefill(c, rule) + rule.maxCapacity < 2 * a
  {
    if Serves(c, rule, a) {
      var n := rule.maxCapacity + LifetimeRefill(c, rule) + 1;
      ServesRenews(c, rule, a);
      var ops, drawn := RoundsDraw(c, rule, a, n);
      BoundWithinLifetime(c, ops, rule);
      assert FixedAmount(ops, a) && !WithinBucket(c, ops, rule);
    } else {
      forall ops | FixedAmount(ops, a)
        ensures WithinBucket(c, ops, rule)
      {
        BoundWithinLifetime(c, ops, rule);
        if LifetimeRefill(c, rule) == 0 {
          NothingRefilled(c, ops, rule);
        } else {
          NeverSecond(c, rule, a);
          AtMostOneOut(c, ops, rule, a);
        }
      }
    }
  }

  lemma NothingRefilled(c: Counter, ops: seq<Op>, rule: RateLimitRule)
    requires LifetimeRefill(c, rule) == 0 && rule.maxCapacity >= 0 && c.balance == rule.maxCapacity
    ensures WithinBucket(c, ops, rule)
  {
    ZeroFactor(rule.ratePerMicro, U64_MAX - c.lastRefill);
    BucketBoundIff(c, rule);
  }

  lemma ZeroFactor(a: nat, b: nat)
    requires a * b == 0
    ensures a == 0 || b == 0
  {
    if a > 0 && b > 0 {
      MulMonotone(a, 1, b);
    }
  }

  /** A single withdrawal always keeps the bound. */
  lemma SingleWithdrawalWithinBucket(c: Counter, amount: u64, now: u64, rule: RateLimitRule)
    requires InRange(c, rule)
    ensures WithinBucket(c, [Withdraw(amount, now)], rule)
  {
    var ops := [Withdraw(amount, now)];
    assert ops[..0] == [];
    AdmittedIffCovered(c, amount, now, rule);
    assert LastElapsed(c, ops) == Elapsed(c, now);
    assert TotalDrawn(c, ops, rule) == Drawn(c, ops[0], rule);
  }
}
