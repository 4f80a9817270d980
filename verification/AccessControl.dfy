/** The access check, the refund and the request lifecycle, run by one caller at
    a time over the stores. */
module AccessControl {
  import opened Wrappers
  import opened Words
  import opened RateStates
  import opened AccessKeys
  import opened Profiles
  import opened AccessStore

  function KeyOf(u: StateUpdate): AccessKey {
    u.key
  }

  /** The updates a request plans, or why it is turned away before any check. */
  ghost function Planned(store: Controller, req: Request): Result<seq<StateUpdate>, Denial>
    reads store
  {
    if req.pubkey !in store.profiles then Err(Unauthorized)
    else
      match PlannedRate(store, req)
      case Err(d) => Err(d)
      case Ok(fetched) =>
        match PlannedQuota(store, req)
        case Err(d) => Err(d)
        case Ok(more) => Ok(fetched + more)
  }

  ghost function PlannedRate(store: Controller, req: Request): Result<seq<StateUpdate>, Denial>
    requires req.pubkey in store.profiles
    reads store
  {
    var k := MethodKey(req.pubkey, req.verb);
    match MethodRule(store.profiles[req.pubkey], req.verb)
    case Err(d) => Err(d)
    case Ok(None) => Ok([])
    case Ok(Some(rule)) =>
      if k !in store.accessRate then Err(MissingState(AccessRate))
      else Ok([StateUpdate(k, rule, CALL_COST, AccessRate, store.accessRate[k])])
  }

  ghost function PlannedQuota(store: Controller, req: Request): Result<seq<StateUpdate>, Denial>
    requires req.pubkey in store.profiles
    reads store
  {
    var quota := store.profiles[req.pubkey].quota;
    if req.spendMsat == 0 || quota.None? then Ok([])
    else if QuotaKey(req.pubkey) !in store.quota then Err(MissingState(Quota))
    else Ok([StateUpdate(QuotaKey(req.pubkey), quota.value, req.spendMsat, Quota, store.quota[QuotaKey(req.pubkey)])])
  }

  /** The counter an update is for is the one of its key, and of its own rule. */
  ghost predicate Current(store: Controller, u: StateUpdate)
    reads store
  {
    && u.key.pubkey in store.profiles
    && match u.key
       case MethodKey(p, v) =>
         && u.key in store.accessRate && u.state == store.accessRate[u.key]
         && HasRate(store.profiles[p], v) && u.rule == RateOf(store.profiles[p], v)
       case QuotaKey(p) =>
         && u.key in store.quota && u.state == store.quota[u.key]
         && HasQuota(store.profiles[p]) && u.rule == store.profiles[p].quota.value
  }

  ghost predicate DistinctStates(us: seq<StateUpdate>) {
    forall i, j :: 0 <= i < j < |us| ==> us[i].state != us[j].state
  }

  /** Updates that may be checked and debited together. */
  ghost predicate Ready(store: Controller, us: seq<StateUpdate>)
    reads store
  {
    DistinctStates(us) && forall u :: u in us ==> Current(store, u)
  }

  lemma RateCurrent(store: Controller, req: Request)
    requires store.Structure() && req.pubkey in store.profiles && PlannedRate(store, req).Ok?
    ensures var us := PlannedRate(store, req).value;
            |us| <= 1 && forall u :: u in us ==> u.key.MethodKey? && Current(store, u)
  {
  }

  lemma QuotaCurrent(store: Controller, req: Request)
    requires store.Structure() && req.pubkey in store.profiles && PlannedQuota(store, req).Ok?
    ensures var us := PlannedQuota(store, req).value;
            |us| <= 1 && forall u :: u in us ==> u.key.QuotaKey? && Current(store, u)
  {
  }

  lemma PlannedShape(store: Controller, req: Request)
    requires store.Structure() && Planned(store, req).Ok?
    ensures var us := Planned(store, req).value;
            |us| <= 2 && SortByKey(us, KeyOf) == us && Ready(store, us)
  {
    RateCurrent(store, req);
    QuotaCurrent(store, req);
    var fetched, more := PlannedRate(store, req).value, PlannedQuota(store, req).value;
    forall u | u in fetched ensures KeyOf(u).MethodKey? {}
    forall u | u in more ensures KeyOf(u).QuotaKey? {}
    AtMostTwoSorted(fetched, more, KeyOf);
    if |fetched| == 1 && |more| == 1 {
      assert fetched[0] in fetched && more[0] in more;
      assert Current(store, fetched[0]) && Current(store, more[0]);
    }
  }

  // ---------- what a plan is, by the fields of the profile ----------

  function Charges(us: seq<StateUpdate>): seq<Charge> {
    seq(|us|, i requires 0 <= i < |us| => Charge(us[i].key, us[i].rule, us[i].amount, us[i].context))
  }

  /** The profile of the caller wants a rate counter that is not there. */
  ghost predicate RateMissing(store: Controller, req: Request)
    requires req.pubkey in store.profiles
    reads store
  {
    Limited(store.profiles[req.pubkey], req.verb) && MethodKey(req.pubkey, req.verb) !in store.accessRate
  }

  /** Why a request is turned away before any counter is looked at. */
  ghost predicate TurnedAway(store: Controller, req: Request, d: Denial)
    reads store
  {
    if req.pubkey !in store.profiles then d == Unauthorized
    else
      var profile := store.profiles[req.pubkey];
      if Forbids(profile, req.verb) then d == AccessDenied
      else if RateMissing(store, req) then d == MissingState(AccessRate)
      else d == MissingState(Quota) && req.spendMsat > 0 && profile.quota.Some? && QuotaKey(req.pubkey) !in store.quota
  }

  /** The updates take exactly what the request owes by its caller's profile, from
      the counters now in the maps. */
  ghost predicate TakesWhatIsOwed(store: Controller, req: Request, us: seq<StateUpdate>)
    reads store
  {
    && req.pubkey in store.profiles && Charged(store.profiles[req.pubkey], req, Charges(us))
    && forall u :: u in us ==>
         if u.key.MethodKey? then u.key in store.accessRate && u.state == store.accessRate[u.key]
         else u.key in store.quota && u.state == store.quota[u.key]
  }

  /** A request is turned away exactly for the reasons its profile gives, and
      otherwise plans exactly what it owes. */
  ghost predicate Justified(store: Controller, req: Request, plan: Result<seq<StateUpdate>, Denial>)
    reads store
  {
    && (forall d :: plan == Err(d) <==> TurnedAway(store, req, d))
    && (plan.Ok? ==> TakesWhatIsOwed(store, req, plan.value))
  }

  lemma PlannedRateMeans(store: Controller, req: Request)
    requires req.pubkey in store.profiles
    ensures PlannedRate(store, req).Err? <==>
            Forbids(store.profiles[req.pubkey], req.verb) || RateMissing(store, req)
    ensures PlannedRate(store, req).Err? ==> TurnedAway(store, req, PlannedRate(store, req).error)
    ensures PlannedRate(store, req).Ok? ==>
              RateCharged(store.profiles[req.pubkey], req, Charges(PlannedRate(store, req).value))
  {
    var profile := store.profiles[req.pubkey];
    MethodRuleMeans(profile, req.verb);
    var rule := MethodRule(profile, req.verb);
    if PlannedRate(store, req).Ok? && rule.value.Some? {
      assert Charges(PlannedRate(store, req).value) ==
             [Charge(MethodKey(req.pubkey, req.verb), rule.value.value, 1_000_000, AccessRate)];
    }
  }

  lemma PlannedJustified(store: Controller, req: Request)
    requires store.Structure()
    ensures Justified(store, req, Planned(store, req))
  {
    if req.pubkey in store.profiles {
      PlannedRateMeans(store, req);
      if Planned(store, req).Ok? {
        PlannedOwed(store, req);
      }
    }
  }

  lemma PlannedOwed(store: Controller, req: Request)
    requires store.Structure() && req.pubkey in store.profiles && Planned(store, req).Ok?
    ensures TakesWhatIsOwed(store, req, Planned(store, req).value)
  {
    PlannedRateMeans(store, req);
    RateCurrent(store, req);
    QuotaCurrent(store, req);
    var a, b := PlannedRate(store, req).value, PlannedQuota(store, req).value;
    assert Charges(a + b) == Charges(a) + Charges(b);
    ChargesJoin(store.profiles[req.pubkey], req, Charges(a), Charges(b));
  }

  /** A missing counter is reported exactly when the rule is that of the `ALL`
      entry, or one that no counter can be made from. */
  lemma MissingIffFallback(store: Controller, req: Request, rule: RateLimitRule)
    requires store.Structure() && req.pubkey in store.profiles
    requires Governs(store.profiles[req.pubkey], req.verb, rule) && rule.maxCapacity >= 0
    ensures Planned(store, req) == Err(MissingState(AccessRate)) <==>
            req.verb !in store.profiles[req.pubkey].methods.value
    ensures HasQuota(store.profiles[req.pubkey]) ==> Planned(store, req) != Err(MissingState(Quota))
  {
  }

  // ---------- the two loops ----------

  ghost predicate Passes(u: StateUpdate, now: u64)
    reads u.state
  {
    CheckWithdraw(u.state.View(), u.amount, now, u.rule).Ok?
  }

  ghost predicate AllPass(us: seq<StateUpdate>, now: u64)
    reads set u | u in us :: u.state
  {
    forall u :: u in us ==> Passes(u, now)
  }

  /** The `i`-th update is the first whose check fails, and `d` says why. */
  ghost predicate RefusedAt(us: seq<StateUpdate>, now: u64, i: nat, d: Denial)
    requires i < |us|
    reads set u | u in us :: u.state
  {
    && (forall u :: u in us[..i] ==> Passes(u, now))
    && match CheckWithdraw(us[i].state.View(), us[i].amount, now, us[i].rule)
       case Err(e) => d == Refused(e, us[i].context)
       case Ok(_) => false
  }

  ghost predicate FirstRefusal(us: seq<StateUpdate>, now: u64, d: Denial)
    reads set u | u in us :: u.state
  {
    exists i :: 0 <= i < |us| && RefusedAt(us, now, i, d)
  }

  /** Every update was admitted and debited by exactly its amount. */
  twostate predicate Debited(us: seq<StateUpdate>, now: u64)
    reads set u | u in us :: u.state
  {
    forall u :: u in us ==>
      (old(Passes(u, now)) && u.state.View() == Withdrawn(old(u.state.View()), u.amount, now, u.rule))
  }

  ghost predicate Named(us: seq<StateUpdate>, x: RateState) {
    exists u :: u in us && u.state == x
  }

  /** No counter of the stores changed, other than those of the updates. */
  twostate predicate OthersKept(store: Controller, us: seq<StateUpdate>)
    reads store, store.accessRate.Values, store.quota.Values
  {
    && store.accessRate == old(store.accessRate) && store.quota == old(store.quota)
    && (forall k :: k in store.accessRate && !Named(us, store.accessRate[k]) ==>
          store.accessRate[k].View() == old(store.accessRate[k].View()))
    && (forall k :: k in store.quota && !Named(us, store.quota[k]) ==>
          store.quota[k].View() == old(store.quota[k].View()))
  }

  /** The check loop: changes nothing, and stops at the first refusal. */
  method CheckAll(us: seq<StateUpdate>, now: u64) returns (denial: Option<Denial>)
    ensures denial == None ==> AllPass(us, now)
    ensures denial.Some? ==> FirstRefusal(us, now, denial.value)
  {
    var i := 0;
    while i < |us|
      invariant i <= |us|
      invariant forall u :: u in us[..i] ==> Passes(u, now)
    {
      var r := us[i].state.CheckWithdrawAfterRefill(us[i].amount, now, us[i].rule);
      if r.Err? {
        assert RefusedAt(us, now, i, Refused(r.error, us[i].context));
        return Some(Refused(r.error, us[i].context));
      }
      assert us[..i + 1] == us[..i] + [us[i]];
      i := i + 1;
    }
    assert us[..i] == us;
    return None;
  }

  /** The debit loop: never fails after the check loop has passed, so its error
      return is dead. */
  method DebitAll(us: seq<StateUpdate>, now: u64)
    requires DistinctStates(us) && AllPass(us, now)
    modifies (set u | u in us :: u.state)`balance
    ensures Debited(us, now)
  {
    for i := 0 to |us|
      invariant forall j :: 0 <= j < i ==>
        (old(Passes(us[j], now)) &&
         us[j].state.View() == Withdrawn(old(us[j].state.View()), us[j].amount, now, us[j].rule))
      invariant forall j :: i <= j < |us| ==> us[j].state.View() == old(us[j].state.View())
    {
      assert us[i] in us && old(Passes(us[i], now));
      var r := us[i].state.WithdrawAfterRefill(us[i].amount, now, us[i].rule);
      assert r.Ok?;
    }
  }

  /** The debits keep the stores valid and touch no other counter. */
  method DebitPlanned(store: Controller, us: seq<StateUpdate>, now: u64)
    requires store.Valid() && Ready(store, us) && AllPass(us, now)
    modifies (store.accessRate.Values + store.quota.Values)`balance
    ensures store.Valid() && Debited(us, now) && OthersKept(store, us)
  {
    DebitAll(us, now);
    forall u | u in us
      ensures InRange(u.state.View(), u.rule)
    {
      assert old(InRange(u.state.View(), u.rule));
    }
    forall k | k in store.accessRate
      ensures InRange(store.accessRate[k].View(), RateOf(store.profiles[k.pubkey], k.verb))
    {
      assert Named(us, store.accessRate[k]) || store.accessRate[k].View() == old(store.accessRate[k].View());
    }
    forall k | k in store.quota
      ensures InRange(store.quota[k].View(), store.profiles[k.pubkey].quota.value)
    {
      assert Named(us, store.quota[k]) || store.quota[k].View() == old(store.quota[k].View());
    }
  }

  /** All or nothing on a planned list: either the first failing check is reported
      and no counter changes, or every planned counter is debited by exactly its
      amount and no other changes. */
  method CheckThenDebit(store: Controller, us: seq<StateUpdate>, now: u64) returns (denial: Option<Denial>)
    requires store.Valid() && Ready(store, us)
    modifies (store.accessRate.Values + store.quota.Values)`balance
    ensures store.Valid()
    ensures denial.Some? ==> old(FirstRefusal(us, now, denial.value)) && OthersKept(store, [])
    ensures denial.None? ==> old(AllPass(us, now)) && Debited(us, now) && OthersKept(store, us)
  {
    denial := CheckAll(us, now);
    if denial.None? {
      DebitPlanned(store, us, now);
    }
  }

  /** The same on a plan that may already be a denial. */
  method CheckPlan(store: Controller, plan: Result<seq<StateUpdate>, Denial>, now: u64)
    returns (r: Result<seq<StateUpdate>, Denial>)
    requires store.Valid() && (plan.Ok? ==> Ready(store, plan.value))
    modifies (store.accessRate.Values + store.quota.Values)`balance
    ensures store.Valid()
    ensures plan.Err? ==> r == plan
    ensures r.Err? && plan.Ok? ==> r.error.Refused?
    ensures r.Err? ==> OthersKept(store, [])
    ensures r.Err? && plan.Ok? ==> old(FirstRefusal(plan.value, now, r.error))
    ensures r.Ok? ==> r == plan && Debited(r.value, now) && OthersKept(store, r.value)
  {
    r := plan;
    if plan.Ok? {
      var denial := CheckThenDebit(store, plan.value, now);
      if denial.Some? {
        r := Err(denial.value);
      }
    }
  }

  // ---------- the access check ----------

  /** Authorization, the fetching of handles, and the sort: a request is turned away
      exactly for the reasons the fields of its profile give, and otherwise plans
      exactly what it owes. */
  method PlanUpdates(store: Controller, req: Request) returns (r: Result<seq<StateUpdate>, Denial>)
    requires store.Structure()
    ensures r == Planned(store, req) && (r.Ok? ==> Ready(store, r.value))
    ensures Justified(store, req, r)
  {
    PlannedJustified(store, req);
    r := Ok([]);
    if req.pubkey !in store.profiles {
      r := Err(Unauthorized);
    } else {
      var profile := store.profiles[req.pubkey];
      var rate := MethodRule(profile, req.verb);
      var rateKey, quotaKey := MethodKey(req.pubkey, req.verb), QuotaKey(req.pubkey);
      if rate.Err? {
        r := Err(rate.error);
      } else if rate.value.Some? {
        r := if rateKey !in store.accessRate then Err(MissingState(AccessRate))
             else Ok([StateUpdate(rateKey, rate.value.value, CALL_COST, AccessRate, store.accessRate[rateKey])]);
      }
      assert r == PlannedRate(store, req);
      if r.Ok? && req.spendMsat > 0 && profile.quota.Some? {
        r := if quotaKey !in store.quota then Err(MissingState(Quota))
             else Ok(r.value + [StateUpdate(quotaKey, profile.quota.value, req.spendMsat, Quota,
                                            store.quota[quotaKey])]);
      }
      assert r.Ok? ==> r.value + [] == r.value;
    }
    if r.Ok? {
      PlannedShape(store, req);
      r := Ok(SortByKey(r.value, KeyOf));
    }
  }

  /** Turned away by the plan or by the first failing check, a request changes no
      counter; admitted, it debits each counter of its plan by exactly its amount
      and no other. */
  method VerifyAccess(store: Controller, req: Request, now: u64)
    returns (r: Result<seq<StateUpdate>, Denial>, ghost plan: Result<seq<StateUpdate>, Denial>)
    requires store.Valid()
    modifies (store.accessRate.Values + store.quota.Values)`balance
    ensures store.Valid()
    ensures plan == old(Planned(store, req)) && (plan.Ok? ==> Ready(store, plan.value))
    ensures old(Justified(store, req, plan))
    ensures plan.Err? ==> r == plan
    ensures r.Err? && plan.Ok? ==> r.error.Refused?
    ensures r.Err? ==> OthersKept(store, [])
    ensures r.Err? && plan.Ok? ==> old(FirstRefusal(plan.value, now, r.error))
    ensures r.Ok? ==> r == plan && Debited(r.value, now) && OthersKept(store, r.value)
  {
    r := PlanUpdates(store, req);
    plan := r;
    r := CheckPlan(store, r, now);
  }

  // ---------- refund and lifecycle ----------

  /** Credits every update back, one counter at a time. */
  method RefundAppliedStateUpdates(us: seq<StateUpdate>)
    requires DistinctStates(us)
    modifies (set u | u in us :: u.state)`balance
    ensures forall i :: 0 <= i < |us| ==>
              us[i].state.View() == Refunded(old(us[i].state.View()), us[i].amount, us[i].rule)
  {
    for i := 0 to |us|
      invariant forall j :: 0 <= j < i ==>
        us[j].state.View() == Refunded(old(us[j].state.View()), us[j].amount, us[j].rule)
      invariant forall j :: i <= j < |us| ==> us[j].state.View() == old(us[j].state.View())
    {
      var r := us[i].state.Refund(us[i].amount, us[i].rule);
    }
  }

  twostate predicate Returned(us: seq<StateUpdate>)
    reads set u | u in us :: u.state
  {
    forall u :: u in us ==> u.state.View() == Refunded(old(u.state.View()), u.amount, u.rule)
  }

  /** The refunds keep the stores valid and touch no other counter. */
  method RefundPlanned(store: Controller, us: seq<StateUpdate>)
    requires store.Valid() && Ready(store, us)
    modifies (store.accessRate.Values + store.quota.Values)`balance
    ensures store.Valid() && Returned(us) && OthersKept(store, us)
  {
    RefundAppliedStateUpdates(us);
    forall u | u in us
      ensures InRange(u.state.View(), u.rule)
    {
      assert old(InRange(u.state.View(), u.rule));
    }
    forall k | k in store.accessRate
      ensures InRange(store.accessRate[k].View(), RateOf(store.profiles[k.pubkey], k.verb))
    {
      assert Named(us, store.accessRate[k]) || store.accessRate[k].View() == old(store.accessRate[k].View());
    }
    forall k | k in store.quota
      ensures InRange(store.quota[k].View(), store.profiles[k.pubkey].quota.value)
    {
      assert Named(us, store.quota[k]) || store.quota[k].View() == old(store.quota[k].View());
    }
  }

  /** From `c` to `d` the exact refill was added and nothing debited. */
  predicate OnlyRefill(c: Counter, d: Counter, now: u64, rule: RateLimitRule) {
    d.balance == ExactRefill(c, now, rule) && d.lastRefill == c.lastRefill
  }

  /** Every update was admitted, and all that remains of it is the refill. */
  twostate predicate OnlyRefilled(us: seq<StateUpdate>, now: u64)
    reads set u | u in us :: u.state
  {
    forall u :: u in us ==>
      old(Passes(u, now)) && OnlyRefill(old(u.state.View()), u.state.View(), now, u.rule)
  }

  /** The value of every counter in the maps. */
  ghost function Snapshot(store: Controller): map<RateState, Counter>
    reads store, store.accessRate.Values, store.quota.Values
  {
    map x | x in store.accessRate.Values + store.quota.Values :: x.View()
  }

  /** The debits just made, as `before` remembers the counters. */
  ghost predicate DebitedFrom(us: seq<StateUpdate>, now: u64, before: map<RateState, Counter>)
    reads set u | u in us :: u.state
  {
    forall u :: u in us ==>
      u.state in before && 0 <= before[u.state].balance && CheckWithdraw(before[u.state], u.amount, now, u.rule).Ok? &&
      u.state.View() == Withdrawn(before[u.state], u.amount, now, u.rule)
  }

  /** Refunding what was just debited leaves the refill and nothing else. */
  method RefundDebited(store: Controller, us: seq<StateUpdate>, now: u64, ghost before: map<RateState, Counter>)
    requires store.Valid() && Ready(store, us)
    requires DebitedFrom(us, now, before)
    modifies (store.accessRate.Values + store.quota.Values)`balance
    ensures store.Valid() && OthersKept(store, us)
    ensures forall u :: u in us ==>
              u.state in before && OnlyRefill(before[u.state], u.state.View(), now, u.rule)
  {
    RefundPlanned(store, us);
    forall u | u in us
      ensures OnlyRefill(before[u.state], u.state.View(), now, u.rule)
    {
      WithdrawThenRefund(before[u.state], u.amount, now, u.rule);
      RefillExact(before[u.state], now, u.rule);
    }
  }

  /** The whole lifecycle: an executed request that succeeds, or one that never
      runs, keeps its debits; one whose execution fails leaves on each of its
      counters exactly the refilled balance. */
  method ProcessRequest(store: Controller, req: Request, now: u64, run: Execution)
    returns (r: Result<seq<StateUpdate>, Denial>, ghost plan: Result<seq<StateUpdate>, Denial>)
    requires store.Valid()
    modifies (store.accessRate.Values + store.quota.Values)`balance
    ensures store.Valid()
    ensures plan == old(Planned(store, req)) && old(Justified(store, req, plan)) && (plan.Err? ==> r == plan)
    ensures r.Err? ==> OthersKept(store, [])
    ensures r.Ok? ==> r == plan && OthersKept(store, r.value)
    ensures r.Ok? && run != Failed ==> Debited(r.value, now)
    ensures r.Ok? && run == Failed ==> OnlyRefilled(r.value, now)
  {
    ghost var before := Snapshot(store);
    r, plan := VerifyAccess(store, req, now);
    if r.Ok? && run == Failed {
      RefundDebited(store, r.value, now, before);
    }
  }
}
