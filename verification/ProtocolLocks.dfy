/** What every step keeps of plans, maps and locks, and that the system never
    deadlocks. */
module ProtocolLocks {
  import opened Wrappers
  import opened Words
  import opened RateStates
  import opened AccessKeys
  import opened Profiles
  import opened Protocol

  // ---------- the part of a plan that a phase holds locked ----------

  predicate HasPlan(p: Phase) {
    p.Locking? || p.Checking? || p.Debiting? || p.Unlocking? || p.Executing? ||
    p.RefundLocking? || p.Refunding? || p.Kept? || p.Returned?
  }

  function Lo(p: Phase): nat {
    match p
    case Unlocking(_, i, _) => i
    case Refunding(_, i) => i
    case _ => 0
  }

  function Hi(p: Phase): nat
    requires HasPlan(p)
  {
    match p
    case Locking(_, i) => i
    case Checking(plan, _) => |plan.updates|
    case Debiting(plan, _) => |plan.updates|
    case Unlocking(plan, _, _) => |plan.updates|
    case Refunding(_, i) => i + 1
    case _ => 0
  }

  function Index(p: Phase): nat {
    match p
    case Locking(_, i) => i
    case Checking(_, i) => i
    case Debiting(_, i) => i
    case Unlocking(_, i, _) => i
    case RefundLocking(_, i) => i
    case Refunding(_, i) => i + 1
    case _ => 0
  }

  ghost predicate HoldsAt(p: Phase, j: nat, h: Handle)
    requires HasPlan(p)
  {
    Lo(p) <= j < Hi(p) && j < |p.plan.updates| && p.plan.updates[j].handle == h
  }

  ghost predicate Holds(p: Phase, h: Handle) {
    HasPlan(p) && exists j :: HoldsAt(p, j, h)
  }

  ghost predicate ThreadHolds(thread: Thread, h: Handle) {
    thread.Call? && Holds(thread.phase, h)
  }

  // ---------- the invariant ----------

  /** The update is about an existing counter of its key, for a real amount. */
  predicate Names(s: Sys, u: Update) {
    u.handle < |s.cells| && s.cells[u.handle].key == u.key && LeastAmount(u.key) <= u.amount
  }

  ghost predicate UpdateOk(s: Sys, u: Update) {
    && Names(s, u)
    && (u.handle, u.rule) in s.fetches
  }

  ghost predicate UpdatesOk(s: Sys, us: seq<Update>) {
    forall j :: 0 <= j < |us| ==> UpdateOk(s, us[j])
  }

  ghost predicate Sorted(us: seq<Update>) {
    forall i, j :: 0 <= i < j < |us| ==> Before(us[i].key, us[j].key)
  }

  ghost predicate PhaseOk(s: Sys, p: Phase) {
    && (p.FetchQuota? ==>
          UpdatesOk(s, p.fetched) && |p.fetched| <= 1 && forall u :: u in p.fetched ==> u.key.MethodKey?)
    && (HasPlan(p) ==> UpdatesOk(s, p.plan.updates) && Sorted(p.plan.updates) && Index(p) <= |p.plan.updates| <= 2)
  }

  ghost predicate ThreadOk(s: Sys, thread: Thread) {
    thread.Call? ==> PhaseOk(s, thread.phase)
  }

  ghost predicate MapsOk(s: Sys) {
    && (forall k :: k in s.rates ==> k.MethodKey? && s.rates[k] < |s.cells| && s.cells[s.rates[k]].key == k)
    && (forall k :: k in s.quotas ==> k.QuotaKey? && s.quotas[k] < |s.cells| && s.cells[s.quotas[k]].key == k)
  }

  ghost predicate HolderOk(s: Sys, t: Tid, h: Handle)
    requires h < |s.cells|
  {
    s.cells[h].holder == Some(t) <==> t < |s.threads| && ThreadHolds(s.threads[t], h)
  }

  ghost predicate LocksOk(s: Sys) {
    forall t: Tid, h: Handle :: h < |s.cells| ==> HolderOk(s, t, h)
  }

  ghost predicate ThreadsOk(s: Sys) {
    forall t :: 0 <= t < |s.threads| ==> ThreadOk(s, s.threads[t])
  }

  ghost predicate Shape(s: Sys) {
    MapsOk(s) && ThreadsOk(s) && LocksOk(s)
  }

  // ---------- plans ----------

  /** The planned updates of a request: at most one on a method counter, then at
      most one on a quota counter, so sorting leaves strictly ascending keys. */
  lemma PlanSorted(fetched: seq<Update>, quota: seq<Update>)
    requires |fetched| <= 1 && |quota| <= 1
    requires forall u :: u in fetched ==> u.key.MethodKey?
    requires forall u :: u in quota ==> u.key.QuotaKey?
    ensures SortByKey(fetched + quota, KeyOf) == fetched + quota && Sorted(fetched + quota)
  {
    AtMostTwoSorted(fetched, quota, KeyOf);
    var us := fetched + quota;
    forall i, j | 0 <= i < j < |us|
      ensures Before(us[i].key, us[j].key)
    {
      assert Before(KeyOf(us[i]), KeyOf(us[j]));
    }
  }

  lemma HandlesDistinct(s: Sys, us: seq<Update>, i: nat, j: nat)
    requires UpdatesOk(s, us) && Sorted(us) && i < j < |us|
    ensures us[i].handle != us[j].handle
  {
    assert UpdateOk(s, us[i]) && UpdateOk(s, us[j]);
    assert Before(us[i].key, us[j].key);
    KeysEqual(us[i].key, us[i].key);
  }

  // ---------- frames ----------

  /** Cells persist with their identity; only counters and holders change. */
  ghost predicate Grown(s: Sys, s': Sys) {
    && |s.cells| <= |s'.cells| && s.fetches <= s'.fetches
    && forall h :: 0 <= h < |s.cells| ==> s'.cells[h].key == s.cells[h].key && s'.cells[h].born == s.cells[h].born
  }

  lemma PhaseStays(s: Sys, s': Sys, p: Phase)
    requires Grown(s, s') && PhaseOk(s, p)
    ensures PhaseOk(s', p)
  {
    if HasPlan(p) {
      forall j | 0 <= j < |p.plan.updates|
        ensures UpdateOk(s', p.plan.updates[j])
      {
        assert UpdateOk(s, p.plan.updates[j]);
      }
    }
    if p.FetchQuota? {
      forall j | 0 <= j < |p.fetched|
        ensures UpdateOk(s', p.fetched[j])
      {
        assert UpdateOk(s, p.fetched[j]);
      }
    }
  }

  // ---------- steps of a request ----------

  lemma AffectGrows(s: Sys, t: Tid, m: Move)
    requires t < |s.threads| && s.threads[t].Call?
    ensures Grown(s, CallStep(s, t, m)) && |CallStep(s, t, m).cells| == |s.cells|
  {
  }

  /** A request keeps its plan once made. */
  lemma MoveKeepsPlan(s: Sys, t: Tid, req: Request, p: Phase, c: Choice)
    requires HasPlan(p) && CallMove(s, t, req, p, c).Some?
    ensures var m := CallMove(s, t, req, p, c).value;
            m.phase.Denied? || (HasPlan(m.phase) && m.phase.plan == p.plan)
  {
  }

  lemma RateFetchedOk(s: Sys, req: Request, p: Phase, now: u64)
    requires MapsOk(s) && p.FetchRate?
    ensures var m := FetchRateMove(s, req, p, now);
            PhaseOk(s.(fetches := s.fetches + Fetches(m.phase)), m.phase)
  {
    var m := FetchRateMove(s, req, p, now);
    if m.phase.FetchQuota? {
      FetchRecorded(s, m.phase.fetched);
    }
  }

  lemma NewPlanOk(s: Sys, now: u64, fetched: seq<Update>, quota: seq<Update>)
    requires |fetched| <= 1 && |quota| <= 1
    requires forall u :: u in fetched ==> u.key.MethodKey? && Names(s, u)
    requires forall u :: u in quota ==> u.key.QuotaKey? && Names(s, u)
    ensures var p := Locking(Plan(now, SortByKey(fetched + quota, KeyOf)), 0);
            PhaseOk(s.(fetches := s.fetches + Fetches(p)), p)
  {
    PlanSorted(fetched, quota);
    FetchRecorded(s, fetched + quota);
  }

  lemma QuotaFetchedOk(s: Sys, req: Request, p: Phase)
    requires MapsOk(s) && p.FetchQuota? && PhaseOk(s, p)
    ensures var m := FetchQuotaMove(s, req, p);
            PhaseOk(s.(fetches := s.fetches + Fetches(m.phase)), m.phase)
  {
    forall u | u in p.fetched
      ensures Names(s, u)
    {
      assert UpdateOk(s, u);
    }
    if req.spendMsat > 0 && p.quota.Some? {
      var f := Fetch(s, s.quotas, QuotaKey(req.pubkey), p.quota.value, req.spendMsat, Quota);
      if f.Ok? {
        NewPlanOk(s, p.now, p.fetched, [f.value]);
      }
    } else {
      NewPlanOk(s, p.now, p.fetched, []);
      assert p.fetched + [] == p.fetched;
    }
  }

  lemma FetchRecorded(s: Sys, us: seq<Update>)
    requires forall u :: u in us ==> Names(s, u)
    ensures UpdatesOk(s.(fetches := s.fetches + Records(us)), us)
  {
    var s' := s.(fetches := s.fetches + Records(us));
    forall j | 0 <= j < |us|
      ensures UpdateOk(s', us[j])
    {
      assert us[j] in us;
      assert (us[j].handle, us[j].rule) in Records(us);
    }
  }

  lemma MovePhaseOk(s: Sys, t: Tid, req: Request, p: Phase, c: Choice)
    requires MapsOk(s) && PhaseOk(s, p) && CallMove(s, t, req, p, c).Some?
    ensures var m := CallMove(s, t, req, p, c).value;
            PhaseOk(s.(fetches := s.fetches + Fetches(m.phase)), m.phase)
  {
    var m := CallMove(s, t, req, p, c).value;
    var s' := s.(fetches := s.fetches + Fetches(m.phase));
    if p.FetchRate? {
      RateFetchedOk(s, req, p, c.now);
    } else if p.FetchQuota? {
      QuotaFetchedOk(s, req, p);
    } else if HasPlan(p) {
      MoveKeepsPlan(s, t, req, p, c);
      PhaseStays(s, s', p);
      MoveIndex(s, t, req, p, c);
    }
  }

  lemma MoveIndex(s: Sys, t: Tid, req: Request, p: Phase, c: Choice)
    requires HasPlan(p) && Index(p) <= |p.plan.updates| && CallMove(s, t, req, p, c).Some?
    ensures var m := CallMove(s, t, req, p, c).value; Index(m.phase) <= |p.plan.updates|
  {
  }

  /** Whether the request holds `h` after an effect, given whether it did before. */
  predicate HoldsAfter(e: Effect, held: bool, h: Handle) {
    match e
    case Lock(g) => held || h == g
    case Unlock(g) => held && h != g
    case WriteUnlock(g, _) => held && h != g
    case _ => held
  }

  /** Only a free cell is locked, and only a held one is written or unlocked. */
  ghost predicate EffectAllowed(s: Sys, p: Phase, e: Effect) {
    match e
    case Quiet => true
    case Lock(g) => Free(s, g)
    case Unlock(g) => g < |s.cells| && Holds(p, g)
    case Write(g, _) => g < |s.cells| && Holds(p, g)
    case WriteUnlock(g, _) => g < |s.cells| && Holds(p, g)
  }

  lemma MoveAllowed(s: Sys, t: Tid, req: Request, p: Phase, c: Choice)
    requires PhaseOk(s, p) && CallMove(s, t, req, p, c).Some?
    ensures EffectAllowed(s, p, CallMove(s, t, req, p, c).value.effect)
  {
    if HasPlan(p) {
      var us := p.plan.updates;
      var i := if p.Refunding? then p.i else Index(p);
      if i < |us| {
        assert UpdateOk(s, us[i]);
        if p.Debiting? || p.Unlocking? || p.Refunding? {
          assert HoldsAt(p, i, us[i].handle);
        }
      }
    }
  }

  /** What a move means for the `j`-th lock of its own plan. */
  ghost predicate HoldMoved(p: Phase, m: Move, j: nat)
    requires HasPlan(p) && j < |p.plan.updates|
  {
    var h := p.plan.updates[j].handle;
    (HasPlan(m.phase) && HoldsAt(m.phase, j, h)) <==> HoldsAfter(m.effect, HoldsAt(p, j, h), h)
  }

  lemma LockHolds(s: Sys, t: Tid, req: Request, p: Phase, c: Choice, j: nat)
    requires PhaseOk(s, p) && (p.Locking? || p.RefundLocking?) && CallMove(s, t, req, p, c).Some?
    requires j < |p.plan.updates|
    ensures HoldMoved(p, CallMove(s, t, req, p, c).value, j)
  {
    AllDistinct(s, p.plan.updates, p.i, j);
  }

  lemma ReleaseHolds(s: Sys, t: Tid, req: Request, p: Phase, c: Choice, j: nat)
    requires PhaseOk(s, p) && (p.Unlocking? || p.Refunding?) && CallMove(s, t, req, p, c).Some?
    requires j < |p.plan.updates|
    ensures HoldMoved(p, CallMove(s, t, req, p, c).value, j)
  {
    AllDistinct(s, p.plan.updates, p.i, j);
  }

  lemma OtherHolds(s: Sys, t: Tid, req: Request, p: Phase, c: Choice, j: nat)
    requires PhaseOk(s, p) && HasPlan(p) && CallMove(s, t, req, p, c).Some? && j < |p.plan.updates|
    requires !p.Locking? && !p.RefundLocking? && !p.Unlocking? && !p.Refunding?
    ensures HoldMoved(p, CallMove(s, t, req, p, c).value, j)
  {
  }

  lemma AllDistinct(s: Sys, us: seq<Update>, i: nat, j: nat)
    requires UpdatesOk(s, us) && Sorted(us) && j < |us|
    ensures i < |us| && i != j ==> us[i].handle != us[j].handle
  {
    if i < j {
      HandlesDistinct(s, us, i, j);
    } else if j < i < |us| {
      HandlesDistinct(s, us, j, i);
    }
  }

  lemma MoveHoldsAt(s: Sys, t: Tid, req: Request, p: Phase, c: Choice, j: nat)
    requires PhaseOk(s, p) && HasPlan(p) && CallMove(s, t, req, p, c).Some? && j < |p.plan.updates|
    ensures HoldMoved(p, CallMove(s, t, req, p, c).value, j)
  {
    if p.Locking? || p.RefundLocking? {
      LockHolds(s, t, req, p, c, j);
    } else if p.Unlocking? || p.Refunding? {
      ReleaseHolds(s, t, req, p, c, j);
    } else {
      OtherHolds(s, t, req, p, c, j);
    }
  }

  lemma HeldAt(s: Sys, p: Phase, h: Handle) returns (j: nat)
    requires Holds(p, h)
    ensures HasPlan(p) && HoldsAt(p, j, h)
  {
    j :| HoldsAt(p, j, h);
  }

  lemma HeldExists(s: Sys, p: Phase, h: Handle)
    requires PhaseOk(s, p)
    ensures Holds(p, h) ==> h < |s.cells|
  {
    if Holds(p, h) {
      var j := HeldAt(s, p, h);
      assert UpdateOk(s, p.plan.updates[j]);
    }
  }

  lemma MoveHolds(s: Sys, t: Tid, req: Request, p: Phase, c: Choice, h: Handle)
    requires MapsOk(s) && PhaseOk(s, p) && CallMove(s, t, req, p, c).Some?
    ensures var m := CallMove(s, t, req, p, c).value; Holds(m.phase, h) <==> HoldsAfter(m.effect, Holds(p, h), h)
  {
    var m := CallMove(s, t, req, p, c).value;
    if HasPlan(p) {
      MoveKeepsPlan(s, t, req, p, c);
      if Holds(m.phase, h) {
        var j := HeldAt(s, m.phase, h);
        MoveHoldsAt(s, t, req, p, c, j);
      }
      if Holds(p, h) {
        var j := HeldAt(s, p, h);
        MoveHoldsAt(s, t, req, p, c, j);
      }
      if m.effect == Lock(h) {
        MoveHoldsAt(s, t, req, p, c, Index(p));
      }
    } else {
      assert m.effect == Quiet;
      assert HasPlan(m.phase) ==> Lo(m.phase) == Hi(m.phase);
    }
  }

  lemma CallHolder(s: Sys, t: Tid, req: Request, p: Phase, c: Choice, u: Tid, h: Handle)
    requires MapsOk(s) && t < |s.threads| && s.threads[t] == Call(req, p) && PhaseOk(s, p)
    requires CallMove(s, t, req, p, c).Some? && LocksOk(s) && h < |s.cells|
    ensures HolderOk(CallStep(s, t, CallMove(s, t, req, p, c).value), u, h)
  {
    var m := CallMove(s, t, req, p, c).value;
    assert HolderOk(s, t, h) && HolderOk(s, u, h);
    MoveAllowed(s, t, req, p, c);
    MoveHolds(s, t, req, p, c, h);
  }

  lemma CallKeepsShape(s: Sys, t: Tid, req: Request, p: Phase, c: Choice)
    requires Shape(s) && t < |s.threads| && s.threads[t] == Call(req, p) && CallMove(s, t, req, p, c).Some?
    ensures Shape(CallStep(s, t, CallMove(s, t, req, p, c).value))
  {
    var m := CallMove(s, t, req, p, c).value;
    var s' := CallStep(s, t, m);
    AffectGrows(s, t, m);
    assert ThreadOk(s, s.threads[t]);
    MovePhaseOk(s, t, req, p, c);
    PhaseStays(s.(fetches := s.fetches + Fetches(m.phase)), s', m.phase);
    forall u | 0 <= u < |s'.threads|
      ensures ThreadOk(s', s'.threads[u])
    {
      if u != t && s.threads[u].Call? {
        assert ThreadOk(s, s.threads[u]);
        PhaseStays(s, s', s.threads[u].phase);
      }
    }
    forall u: Tid, h: Handle | h < |s'.cells|
      ensures HolderOk(s', u, h)
    {
      CallHolder(s, t, req, p, c, u, h);
    }
  }

  // ---------- steps of a reset ----------

  /** A reset adds at most one free cell and touches no lock. */
  ghost predicate ResetFrame(s: Sys, s': Sys, t: Tid) {
    && t < |s.threads| && !s.threads[t].Call?
    && |s'.threads| == |s.threads| && s'.threads == s.threads[t := s'.threads[t]] && !s'.threads[t].Call?
    && s'.fetches == s.fetches
    && (s'.cells == s.cells || (|s'.cells| == |s.cells| + 1 && s'.cells[..|s.cells|] == s.cells &&
                                s'.cells[|s.cells|].holder == None))
  }

  lemma ResetGrows(s: Sys, s': Sys, t: Tid)
    requires ResetFrame(s, s', t)
    ensures Grown(s, s')
    ensures forall h :: 0 <= h < |s.cells| ==> s'.cells[h] == s.cells[h]
  {
    forall h | 0 <= h < |s.cells|
      ensures s'.cells[h] == s.cells[h]
    {
      assert s'.cells != s.cells ==> s'.cells[..|s.cells|][h] == s'.cells[h];
    }
  }

  lemma ResetKeepsThreads(s: Sys, s': Sys, t: Tid)
    requires ResetFrame(s, s', t) && ThreadsOk(s) && LocksOk(s)
    ensures ThreadsOk(s') && LocksOk(s')
  {
    ResetGrows(s, s', t);
    forall u | 0 <= u < |s'.threads|
      ensures ThreadOk(s', s'.threads[u])
    {
      if u != t && s.threads[u].Call? {
        assert ThreadOk(s, s.threads[u]);
        PhaseStays(s, s', s.threads[u].phase);
      }
    }
    forall u: Tid, h: Handle | h < |s'.cells|
      ensures HolderOk(s', u, h)
    {
      if h < |s.cells| {
        assert HolderOk(s, u, h);
      } else if u < |s.threads| && s.threads[u].Call? {
        assert ThreadOk(s, s.threads[u]);
        HeldExists(s, s.threads[u].phase, h);
      }
    }
  }

  function NextStage(profile: UsageProfile, stage: Stage, c: Choice): Stage {
    match stage
    case DropRates => DropQuota
    case DropQuota => InsertRates(c.now, MethodsOf(profile))
    case InsertRates(now, todo) => if todo == {} then InsertQuota(now) else InsertRates(now, todo - {c.verb})
    case InsertQuota(_) => Publish
    case _ => Complete
  }

  function NextAt(at: ClearStage): ClearStage {
    match at
    case ClearProfiles => ClearRates
    case ClearRates => ClearQuotas
    case _ => Cleared
  }

  /** Where a reset is after its next step. */
  function NextThread(thread: Thread, c: Choice): Thread {
    match thread
    case Call(_, _) => thread
    case Upsert(target, profile, stage) => Upsert(target, profile, NextStage(profile, stage, c))
    case Clear(at) => Clear(NextAt(at))
  }

  predicate CanAdvance(thread: Thread, c: Choice) {
    match thread
    case Call(_, _) => false
    case Upsert(_, _, stage) => stage != Complete && (stage.InsertRates? ==> stage.todo == {} || c.verb in stage.todo)
    case Clear(at) => at != Cleared
  }

  lemma ResetAdvances(s: Sys, t: Tid, c: Choice)
    requires StepOf(s, t, c).Some? && !s.threads[t].Call?
    ensures CanAdvance(s.threads[t], c)
    ensures StepOf(s, t, c).value.threads == s.threads[t := NextThread(s.threads[t], c)]
  {
  }

  lemma UpsertFrame(s: Sys, t: Tid, c: Choice)
    requires t < |s.threads| && s.threads[t].Upsert? && UpsertStep(s, t, c).Some?
    ensures ResetFrame(s, UpsertStep(s, t, c).value, t)
  {
  }

  lemma CreateMaps(s: Sys, key: AccessKey, rule: RateLimitRule, now: u64)
    requires MapsOk(s) && rule.maxCapacity >= 0
    ensures MapsOk(Create(s, key, rule, now))
  {
    var s' := Create(s, key, rule, now);
    assert forall h :: 0 <= h < |s.cells| ==> s'.cells[h] == s.cells[h];
  }

  lemma UpsertMaps(s: Sys, t: Tid, c: Choice)
    requires t < |s.threads| && s.threads[t].Upsert? && UpsertStep(s, t, c).Some? && MapsOk(s)
    ensures MapsOk(UpsertStep(s, t, c).value)
  {
    var Upsert(target, profile, stage) := s.threads[t];
    match stage
    case InsertRates(now, todo) =>
      if todo != {} && HasRate(profile, c.verb) {
        var next := WithStage(s, t, InsertRates(now, todo - {c.verb}));
        CreateMaps(next, MethodKey(target, c.verb), RateOf(profile, c.verb), now);
      }
    case InsertQuota(now) =>
      if HasQuota(profile) {
        CreateMaps(WithStage(s, t, Publish), QuotaKey(target), profile.quota.value, now);
      }
    case _ =>
  }

  lemma StepKeepsShape(s: Sys, t: Tid, c: Choice)
    requires Shape(s) && StepOf(s, t, c).Some?
    ensures Shape(StepOf(s, t, c).value)
  {
    var s' := StepOf(s, t, c).value;
    match s.threads[t]
    case Call(req, p) =>
      CallKeepsShape(s, t, req, p, c);
    case Upsert(_, _, _) =>
      UpsertFrame(s, t, c);
      UpsertMaps(s, t, c);
      ResetKeepsThreads(s, s', t);
    case Clear(_) =>
      assert ResetFrame(s, s', t);
      ResetKeepsThreads(s, s', t);
  }

  lemma InitialShape(s: Sys)
    requires Initial(s)
    ensures Shape(s)
  {
    forall t | 0 <= t < |s.threads|
      ensures ThreadOk(s, s.threads[t])
    {
      assert Begins(s.threads[t]);
    }
  }

  lemma {:induction false} RunShape(s: Sys, run: Schedule)
    requires Initial(s) && After(s, run).Some?
    ensures Shape(After(s, run).value)
    decreases |run|
  {
    if run == [] {
      InitialShape(s);
    } else {
      var n := |run| - 1;
      RunShape(s, run[..n]);
      StepKeepsShape(After(s, run[..n]).value, run[n].0, run[n].1);
    }
  }

  // ---------- deadlock freedom ----------

  /** The thread waits for a counter that somebody holds. */
  predicate Blocked(s: Sys, t: Tid) {
    t < |s.threads| && s.threads[t].Call? &&
    var p := s.threads[t].phase;
    (p.Locking? || p.RefundLocking?) && p.i < |p.plan.updates| && !Free(s, p.plan.updates[p.i].handle)
  }

  function Wanted(s: Sys, t: Tid): Update
    requires Blocked(s, t)
  {
    s.threads[t].phase.plan.updates[s.threads[t].phase.i]
  }

  ghost predicate CanStep(s: Sys, t: Tid) {
    exists c :: StepOf(s, t, c).Some?
  }

  lemma UnblockedSteps(s: Sys, t: Tid)
    requires Shape(s) && t < |s.threads| && !Finished(s.threads[t]) && !Blocked(s, t)
    ensures CanStep(s, t)
  {
    var c := Choice(0, ALL, false);
    match s.threads[t]
    case Call(_, p) =>
      assert ThreadOk(s, s.threads[t]);
      if HasPlan(p) && (p.Checking? || p.Debiting? || p.Refunding?) && p.i < |p.plan.updates| {
        assert UpdateOk(s, p.plan.updates[p.i]);
      }
      assert StepOf(s, t, c).Some?;
    case Upsert(_, _, stage) =>
      if stage.InsertRates? && stage.todo != {} {
        var v :| v in stage.todo;
        c := Choice(0, v, false);
      }
      assert StepOf(s, t, c).Some?;
    case Clear(_) =>
      assert StepOf(s, t, c).Some?;
  }

  /** Whoever holds what a blocked thread wants is, if blocked itself, waiting
      for a key further up the order. */
  lemma HolderWantsMore(s: Sys, t: Tid) returns (u: Tid)
    requires Shape(s) && Blocked(s, t)
    ensures u < |s.threads| && !Finished(s.threads[u])
    ensures Blocked(s, u) ==> Before(Wanted(s, t).key, Wanted(s, u).key)
  {
    assert ThreadOk(s, s.threads[t]);
    var h := Wanted(s, t).handle;
    assert UpdateOk(s, Wanted(s, t));
    u := s.cells[h].holder.value;
    assert HolderOk(s, u, h);
    assert ThreadOk(s, s.threads[u]);
    var p := s.threads[u].phase;
    var j := HeldAt(s, p, h);
    assert UpdateOk(s, p.plan.updates[j]);
    if Blocked(s, u) {
      assert Before(p.plan.updates[j].key, p.plan.updates[p.i].key);
    }
  }

  /** Among the blocked threads below `n`, one whose key no other exceeds. */
  lemma {:induction false} HighestWanted(s: Sys, n: nat) returns (t: Tid)
    requires exists u: Tid :: u < n && Blocked(s, u)
    ensures t < n && Blocked(s, t)
    ensures forall u: Tid :: u < n && Blocked(s, u) ==> !Before(Wanted(s, t).key, Wanted(s, u).key)
  {
    var last: nat := n - 1;
    if exists u: Tid :: u < last && Blocked(s, u) {
      t := HighestWanted(s, last);
      if Blocked(s, last) {
        if Before(Wanted(s, t).key, Wanted(s, last).key) {
          forall u: Tid | u < n && Blocked(s, u)
            ensures !Before(Wanted(s, last).key, Wanted(s, u).key)
          {
            StrictTotalOrder(Wanted(s, t).key, Wanted(s, last).key, Wanted(s, u).key);
            StrictTotalOrder(Wanted(s, last).key, Wanted(s, last).key, Wanted(s, last).key);
          }
          t := last;
        }
      }
    } else {
      t := last;
      KeysEqual(Wanted(s, t).key, Wanted(s, t).key);
    }
  }

  lemma ReachableShape(z: Sys)
    requires Reachable(z)
    ensures Shape(z)
  {
    var s, run :| ReachedBy(s, run, z);
    RunShape(s, run);
  }

  /** In every reachable state some unfinished thread can move, unless all are
      finished. */
  lemma NoDeadlock(z: Sys, t: Tid) returns (u: Tid)
    requires Reachable(z) && t < |z.threads| && !Finished(z.threads[t])
    ensures u < |z.threads| && !Finished(z.threads[u]) && CanStep(z, u)
  {
    ReachableShape(z);
    u := t;
    if Blocked(z, t) {
      var top := HighestWanted(z, |z.threads|);
      u := HolderWantsMore(z, top);
    }
    UnblockedSteps(z, u);
  }
}
