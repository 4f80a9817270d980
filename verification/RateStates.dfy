/** Token-bucket counters: the saturating arithmetic of the program, the exact
    arithmetic it is meant to compute, and the mutable counter object. */
module RateStates {
  import opened Wrappers
  import opened Words

  datatype RateLimitRule = RateLimitRule(ratePerMicro: u64, maxCapacity: i64)

  datatype RateStateError =
    | InsufficientBalance
    | AmountTooLarge(amount: u64)
    | InvalidRule(maxCapacity: i64)

  /** The value of a counter. */
  datatype Counter = Counter(balance: i64, lastRefill: u64)

  // ---------- the program's arithmetic ----------

  /** A new counter is full and refills from `now`; a negative capacity is refused. */
  function FromRule(now: u64, rule: RateLimitRule): (r: Result<Counter, RateStateError>)
    ensures r == Err(InvalidRule(rule.maxCapacity)) <==> rule.maxCapacity < 0
    ensures r.Ok? ==> r.value.balance == rule.maxCapacity && r.value.lastRefill == now
  {
    if rule.maxCapacity < 0 then Err(InvalidRule(rule.maxCapacity)) else Ok(Counter(rule.maxCapacity, now))
  }

  function CalculateRefill(c: Counter, now: u64, rule: RateLimitRule): Result<i64, RateStateError> {
    if rule.maxCapacity < 0 then Err(InvalidRule(rule.maxCapacity))
    else
      var elapsed := SaturatingSub(now, c.lastRefill);
      var added := ClampToI64(SaturatingMul(rule.ratePerMicro, elapsed));
      Ok(Min(SaturatingAdd(c.balance, added), rule.maxCapacity))
  }

  function CheckWithdraw(c: Counter, amount: u64, now: u64, rule: RateLimitRule): Result<(), RateStateError> {
    if amount > I64_MAX then Err(AmountTooLarge(amount))
    else match CalculateRefill(c, now, rule)
      case Err(e) => Err(e)
      case Ok(projected) => if projected < amount then Err(InsufficientBalance) else Ok(())
  }

  /** The counter after a withdrawal that the check admits. */
  function Withdrawn(c: Counter, amount: u64, now: u64, rule: RateLimitRule): Counter
    requires CheckWithdraw(c, amount, now, rule).Ok?
  {
    Counter(CalculateRefill(c, now, rule).value - amount, c.lastRefill)
  }

  function CheckRefund(amount: u64, rule: RateLimitRule): Result<(), RateStateError> {
    if rule.maxCapacity < 0 then Err(InvalidRule(rule.maxCapacity))
    else if amount > I64_MAX then Err(AmountTooLarge(amount))
    else Ok(())
  }

  /** The counter after a refund; a refused refund changes nothing. */
  function Refunded(c: Counter, amount: u64, rule: RateLimitRule): Counter {
    if CheckRefund(amount, rule).Ok? then
      Counter(Min(SaturatingAdd(c.balance, amount), rule.maxCapacity), c.lastRefill)
    else c
  }

  // ---------- the exact arithmetic ----------

  function Elapsed(c: Counter, now: u64): nat {
    Max(0, now - c.lastRefill)
  }

  /** The refilled balance over unbounded integers. */
  function ExactRefill(c: Counter, now: u64, rule: RateLimitRule): int {
    Min(c.balance + rule.ratePerMicro * Elapsed(c, now), rule.maxCapacity)
  }

  /** The saturating computation is the exact one unless a negative balance
      meets a refill beyond i64 under a cap that it should have reached; then the
      largest i64 is added in its place. */
  lemma RefillExactIff(c: Counter, now: u64, rule: RateLimitRule)
    requires rule.maxCapacity >= 0
    ensures CalculateRefill(c, now, rule).Ok?
    ensures CalculateRefill(c, now, rule).value == ExactRefill(c, now, rule) <==>
            rule.ratePerMicro * Elapsed(c, now) <= I64_MAX || rule.maxCapacity <= c.balance + I64_MAX
    ensures !(rule.ratePerMicro * Elapsed(c, now) <= I64_MAX || rule.maxCapacity <= c.balance + I64_MAX) ==>
              CalculateRefill(c, now, rule).value == c.balance + I64_MAX
  {
    var added: nat := rule.ratePerMicro * Elapsed(c, now);
    assert SaturatingSub(now, c.lastRefill) == Elapsed(c, now);
    assert ClampToI64(SaturatingMul(rule.ratePerMicro, Elapsed(c, now))) == Min(added, I64_MAX);
  }

  /** On every balance the program can reach, refilling is exact. */
  lemma RefillExact(c: Counter, now: u64, rule: RateLimitRule)
    requires 0 <= c.balance && 0 <= rule.maxCapacity
    ensures CalculateRefill(c, now, rule) == Ok(ExactRefill(c, now, rule))
  {
    RefillExactIff(c, now, rule);
  }

  lemma {:induction false} MulMonotone(a: nat, x: nat, y: nat)
    requires x <= y
    ensures a * x <= a * y
    decreases a
  {
    if a == 0 {
    } else {
      MulMonotone(a - 1, x, y);
      assert a * x == (a - 1) * x + x && a * y == (a - 1) * y + y;
    }
  }

  lemma RefillMonotone(c: Counter, now: u64, later: u64, rule: RateLimitRule)
    requires 0 <= c.balance && 0 <= rule.maxCapacity && now <= later
    ensures CalculateRefill(c, now, rule).value <= CalculateRefill(c, later, rule).value
  {
    RefillExact(c, now, rule);
    RefillExact(c, later, rule);
    MulMonotone(rule.ratePerMicro, Elapsed(c, now), Elapsed(c, later));
  }

  /** A withdrawal is admitted exactly when the exact refilled balance covers it. */
  lemma AdmittedIffCovered(c: Counter, amount: u64, now: u64, rule: RateLimitRule)
    requires 0 <= c.balance
    ensures CheckWithdraw(c, amount, now, rule).Ok? <==> 0 <= rule.maxCapacity && amount <= ExactRefill(c, now, rule)
  {
    if 0 <= rule.maxCapacity {
      RefillExact(c, now, rule);
    }
  }

  /** Why a withdrawal is refused: an amount beyond i64 before a negative capacity,
      and that before a balance that does not cover it. */
  lemma RefusedBecause(c: Counter, amount: u64, now: u64, rule: RateLimitRule)
    ensures CheckWithdraw(c, amount, now, rule) == Err(AmountTooLarge(amount)) <==> amount > I64_MAX
    ensures CheckWithdraw(c, amount, now, rule) == Err(InvalidRule(rule.maxCapacity)) <==>
            amount <= I64_MAX && rule.maxCapacity < 0
    ensures 0 <= c.balance ==>
              (CheckWithdraw(c, amount, now, rule) == Err(InsufficientBalance) <==>
               amount <= I64_MAX && 0 <= rule.maxCapacity && ExactRefill(c, now, rule) < amount)
  {
    if 0 <= c.balance && 0 <= rule.maxCapacity {
      RefillExact(c, now, rule);
    }
  }

  /** Withdrawing and refunding under one rule leaves exactly the refilled balance. */
  lemma WithdrawThenRefund(c: Counter, amount: u64, now: u64, rule: RateLimitRule)
    requires CheckWithdraw(c, amount, now, rule).Ok?
    ensures Refunded(Withdrawn(c, amount, now, rule), amount, rule) ==
            Counter(CalculateRefill(c, now, rule).value, c.lastRefill)
  {
  }

  predicate InRange(c: Counter, rule: RateLimitRule) {
    0 <= c.balance <= rule.maxCapacity
  }

  lemma StaysInRange(c: Counter, amount: u64, now: u64, rule: RateLimitRule)
    requires InRange(c, rule)
    ensures CheckWithdraw(c, amount, now, rule).Ok? ==> InRange(Withdrawn(c, amount, now, rule), rule)
    ensures InRange(Refunded(c, amount, rule), rule)
  {
  }

  // ---------- the shared object ----------

  class RateState {
    var balance: i64
    var lastRefillMicros: u64

    ghost function View(): Counter
      reads this
    {
      Counter(balance, lastRefillMicros)
    }

    constructor (balance: i64, lastRefillMicros: u64)
      ensures View() == Counter(balance, lastRefillMicros)
    {
      this.balance := balance;
      this.lastRefillMicros := lastRefillMicros;
    }

    /** On a balance that is not negative, admits exactly what the exact refill covers;
        what the answer is otherwise. */
    method CheckWithdrawAfterRefill(amount: u64, now: u64, rule: RateLimitRule)
      returns (r: Result<(), RateStateError>)
      ensures r == CheckWithdraw(View(), amount, now, rule)
      ensures balance >= 0 ==> (r.Ok? <==> 0 <= rule.maxCapacity && amount <= ExactRefill(View(), now, rule))
      ensures r.Err? ==> r.error == if amount > I64_MAX then AmountTooLarge(amount)
                                    else if rule.maxCapacity < 0 then InvalidRule(rule.maxCapacity)
                                    else InsufficientBalance
    {
      if balance >= 0 {
        AdmittedIffCovered(View(), amount, now, rule);
      }
      if amount > I64_MAX {
        return Err(AmountTooLarge(amount));
      }
      var projected := CalculateRefill(Counter(balance, lastRefillMicros), now, rule);
      if projected.Err? {
        return Err(projected.error);
      }
      if projected.value < amount {
        return Err(InsufficientBalance);
      }
      return Ok(());
    }

    /** Succeeds exactly when the check does; then the exact refilled balance is
        debited, and otherwise nothing changes. The refill time is never advanced. */
    method WithdrawAfterRefill(amount: u64, now: u64, rule: RateLimitRule)
      returns (r: Result<(), RateStateError>)
      modifies this`balance
      ensures r == CheckWithdraw(old(View()), amount, now, rule)
      ensures r.Ok? ==> View() == Withdrawn(old(View()), amount, now, rule)
      ensures r.Ok? && old(balance) >= 0 ==> balance == ExactRefill(old(View()), now, rule) - amount
      ensures r.Err? ==> r.error == if amount > I64_MAX then AmountTooLarge(amount)
                                    else if rule.maxCapacity < 0 then InvalidRule(rule.maxCapacity)
                                    else InsufficientBalance
      ensures r.Err? ==> View() == old(View())
    {
      if amount > I64_MAX {
        return Err(AmountTooLarge(amount));
      }
      var refilled := CalculateRefill(Counter(balance, lastRefillMicros), now, rule);
      if refilled.Err? {
        return Err(refilled.error);
      }
      if refilled.value < amount {
        return Err(InsufficientBalance);
      }
      if balance >= 0 {
        RefillExact(View(), now, rule);
      }
      balance := refilled.value - amount;
      return Ok(());
    }

    /** Credits in full whatever fits under the cap, and fills up to it otherwise; a
        refused refund changes nothing. */
    method Refund(amount: u64, rule: RateLimitRule) returns (r: Result<(), RateStateError>)
      modifies this`balance
      ensures r == CheckRefund(amount, rule)
      ensures View() == Refunded(old(View()), amount, rule)
      ensures r.Ok? ==>
                balance == if old(balance) + amount <= rule.maxCapacity then old(balance) + amount else rule.maxCapacity
      ensures r.Ok? <==> 0 <= rule.maxCapacity && amount <= I64_MAX
      ensures r.Err? ==> View() == old(View())
      ensures r.Err? ==> r.error == if rule.maxCapacity < 0 then InvalidRule(rule.maxCapacity)
                                    else AmountTooLarge(amount)
    {
      if rule.maxCapacity < 0 {
        return Err(InvalidRule(rule.maxCapacity));
      }
      if amount > I64_MAX {
        return Err(AmountTooLarge(amount));
      }
      balance := Min(SaturatingAdd(balance, amount), rule.maxCapacity);
      return Ok(());
    }
  }
}
