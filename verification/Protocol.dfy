/** The accounting protocol as a transition system: any number of requests,
    profile upserts and full clears, interleaved one access at a time over shared
    counters. A counter lives in a numbered cell for ever; the maps only say which
    cell is current for a key, so a request may hold one that a reset replaced. */
module Protocol {
  import opened Wrappers
  import opened Words
  import opened RateStates
  import opened AccessKeys
  import opened Profiles

  type Tid = nat
  type Handle = nat

  /** `key` and `born` record what the cell was created for and never change. */
  datatype Cell = Cell(counter: Counter, holder: Option<Tid>, key: AccessKey, born: RateLimitRule)

  datatype Update = Update(key: AccessKey, rule: RateLimitRule, amount: u64, context: Context, handle: Handle)

  /** The time captured by a request and its updates in lock order. */
  datatype Plan = Plan(now: u64, updates: seq<Update>)

  datatype Phase =
    | Arrived
    | FetchRate(rate: Option<RateLimitRule>, quota: Option<RateLimitRule>)
    | FetchQuota(now: u64, quota: Option<RateLimitRule>, fetched: seq<Update>)
    | Locking(plan: Plan, i: nat)
    | Checking(plan: Plan, i: nat)
    | Debiting(plan: Plan, i: nat)
    | Unlocking(plan: Plan, i: nat, denial: Option<Denial>)
    | Executing(plan: Plan)
    | RefundLocking(plan: Plan, i: nat)
    | Refunding(plan: Plan, i: nat)
    | Denied(reason: Denial)
    | Kept(plan: Plan)
    | Returned(plan: Plan)

  datatype Stage =
    | DropRates
    | DropQuota
    | InsertRates(now: u64, todo: set<Method>)
    | InsertQuota(now: u64)
    | Publish
    | Complete

  datatype ClearStage = ClearProfiles | ClearRates | ClearQuotas | Cleared

  datatype Thread =
    | Call(req: Request, phase: Phase)
    | Upsert(target: string, profile: UsageProfile, stage: Stage)
    | Clear(at: ClearStage)

  /** The serial history: each entry takes effect at once. */
  datatype Event =
    | Verified(t: Tid, plan: Plan, denial: Option<Denial>)
    | RefundOf(t: Tid, update: Update)
    | Created(counter: Counter)

  /** `fetches` records which counters were ever fetched, and under which rules;
      `log` is the serial history. */
  datatype Sys = Sys(cells: seq<Cell>, rates: map<AccessKey, Handle>, quotas: map<AccessKey, Handle>,
                     profiles: map<string, UsageProfile>, threads: seq<Thread>,
                     fetches: set<(Handle, RateLimitRule)>, log: seq<Event>)

  /** What the environment decides in a step: the clock, the next method of a map
      iteration, and whether an execution fails. */
  datatype Choice = Choice(now: u64, verb: Method, fails: bool)

  // ---------- requests ----------

  /** What a step of a request does to the counters. */
  datatype Effect =
    | Quiet
    | Lock(h: Handle)
    | Unlock(h: Handle)
    | Write(h: Handle, counter: Counter)
    | WriteUnlock(h: Handle, counter: Counter)

  datatype Move = Move(phase: Phase, effect: Effect, log: seq<Event>)

  /** The least a request ever takes from the counter of a key. */
  function LeastAmount(key: AccessKey): u64 {
    if key.MethodKey? then CALL_COST else 1
  }

  function KeyOf(u: Update): AccessKey {
    u.key
  }

  function Fetch(s: Sys, m: map<AccessKey, Handle>, key: AccessKey, rule: RateLimitRule,
                 amount: u64, context: Context): Result<Update, Denial> {
    if key in m then Ok(Update(key, rule, amount, context, m[key])) else Err(MissingState(context))
  }

  predicate Free(s: Sys, h: Handle) {
    h < |s.cells| && s.cells[h].holder == None
  }

  function CheckAt(s: Sys, plan: Plan, i: nat): Result<(), RateStateError>
    requires i < |plan.updates| && plan.updates[i].handle < |s.cells|
  {
    var u := plan.updates[i];
    CheckWithdraw(s.cells[u.handle].counter, u.amount, plan.now, u.rule)
  }

  function FetchRateMove(s: Sys, req: Request, p: Phase, now: u64): Move
    requires p.FetchRate?
  {
    match p.rate
    case None => Move(FetchQuota(now, p.quota, []), Quiet, [])
    case Some(rule) =>
      match Fetch(s, s.rates, MethodKey(req.pubkey, req.verb), rule, CALL_COST, AccessRate)
      case Err(d) => Move(Denied(d), Quiet, [])
      case Ok(u) => Move(FetchQuota(now, p.quota, [u]), Quiet, [])
  }

  function FetchQuotaMove(s: Sys, req: Request, p: Phase): Move
    requires p.FetchQuota?
  {
    if req.spendMsat > 0 && p.quota.Some? then
      match Fetch(s, s.quotas, QuotaKey(req.pubkey), p.quota.value, req.spendMsat, Quota)
      case Err(d) => Move(Denied(d), Quiet, [])
      case Ok(u) => Move(Locking(Plan(p.now, SortByKey(p.fetched + [u], KeyOf)), 0), Quiet, [])
    else Move(Locking(Plan(p.now, SortByKey(p.fetched, KeyOf)), 0), Quiet, [])
  }

  function ArrivedMove(s: Sys, req: Request): Move {
    if req.pubkey !in s.profiles then Move(Denied(Unauthorized), Quiet, [])
    else
      var profile := s.profiles[req.pubkey];
      match MethodRule(profile, req.verb)
      case Err(d) => Move(Denied(d), Quiet, [])
      case Ok(rate) => Move(FetchRate(rate, profile.quota), Quiet, [])
  }

  /** The next step of a request, or `None` when it is blocked or finished. */
  function CallMove(s: Sys, t: Tid, req: Request, p: Phase, c: Choice): Option<Move> {
    match p
    case Arrived => Some(ArrivedMove(s, req))
    case FetchRate(_, _) => Some(FetchRateMove(s, req, p, c.now))
    case FetchQuota(_, _, _) => Some(FetchQuotaMove(s, req, p))
    case Locking(plan, i) =>
      if i >= |plan.updates| then Some(Move(Checking(plan, 0), Quiet, []))
      else if Free(s, plan.updates[i].handle) then Some(Move(Locking(plan, i + 1), Lock(plan.updates[i].handle), []))
      else None
    case Checking(plan, i) =>
      if i >= |plan.updates| then Some(Move(Debiting(plan, 0), Quiet, [Verified(t, plan, None)]))
      else if plan.updates[i].handle >= |s.cells| then None
      else
        (match CheckAt(s, plan, i)
         case Ok(_) => Some(Move(Checking(plan, i + 1), Quiet, []))
         case Err(e) =>
           var d := Some(Refused(e, plan.updates[i].context));
           Some(Move(Unlocking(plan, 0, d), Quiet, [Verified(t, plan, d)])))
    case Debiting(plan, i) =>
      if i >= |plan.updates| then Some(Move(Unlocking(plan, 0, None), Quiet, []))
      else if plan.updates[i].handle >= |s.cells| then None
      else
        var u := plan.updates[i];
        var counter := s.cells[u.handle].counter;
        (match CheckWithdraw(counter, u.amount, plan.now, u.rule)
         case Ok(_) => Some(Move(Debiting(plan, i + 1),
                                  Write(u.handle, Withdrawn(counter, u.amount, plan.now, u.rule)), []))
         case Err(e) => Some(Move(Unlocking(plan, 0, Some(Refused(e, u.context))), Quiet, [])))
    case Unlocking(plan, i, denial) =>
      if i < |plan.updates| then Some(Move(Unlocking(plan, i + 1, denial), Unlock(plan.updates[i].handle), []))
      else if denial.Some? then Some(Move(Denied(denial.value), Quiet, []))
      else Some(Move(Executing(plan), Quiet, []))
    case Executing(plan) =>
      Some(Move(if c.fails then RefundLocking(plan, 0) else Kept(plan), Quiet, []))
    case RefundLocking(plan, i) =>
      if i >= |plan.updates| then Some(Move(Returned(plan), Quiet, []))
      else if Free(s, plan.updates[i].handle) then Some(Move(Refunding(plan, i), Lock(plan.updates[i].handle), []))
      else None
    case Refunding(plan, i) =>
      if i >= |plan.updates| || plan.updates[i].handle >= |s.cells| then None
      else
        var u := plan.updates[i];
        Some(Move(RefundLocking(plan, i + 1),
                  WriteUnlock(u.handle, Refunded(s.cells[u.handle].counter, u.amount, u.rule)), [RefundOf(t, u)]))
    case _ => None
  }

  function Affect(cells: seq<Cell>, t: Tid, e: Effect): seq<Cell> {
    match e
    case Quiet => cells
    case Lock(h) => if h < |cells| then cells[h := cells[h].(holder := Some(t))] else cells
    case Unlock(h) => if h < |cells| then cells[h := cells[h].(holder := None)] else cells
    case Write(h, c) => if h < |cells| then cells[h := cells[h].(counter := c)] else cells
    case WriteUnlock(h, c) => if h < |cells| then cells[h := cells[h].(counter := c, holder := None)] else cells
  }

  /** The counters that a phase has fetched, with the rules it holds for them. */
  function Fetches(p: Phase): set<(Handle, RateLimitRule)> {
    match p
    case FetchQuota(_, _, fetched) => Records(fetched)
    case Locking(plan, _) => Records(plan.updates)
    case _ => {}
  }

  function Records(us: seq<Update>): set<(Handle, RateLimitRule)> {
    set i | 0 <= i < |us| :: (us[i].handle, us[i].rule)
  }

  function CallStep(s: Sys, t: Tid, m: Move): Sys
    requires t < |s.threads| && s.threads[t].Call?
  {
    s.(cells := Affect(s.cells, t, m.effect),
       threads := s.threads[t := s.threads[t].(phase := m.phase)],
       fetches := s.fetches + Fetches(m.phase),
       log := s.log + m.log)
  }

  // ---------- resets ----------

  function Without(m: map<AccessKey, Handle>, pubkey: string): map<AccessKey, Handle> {
    map k | k in m && k.pubkey != pubkey :: m[k]
  }

  function WithStage(s: Sys, t: Tid, stage: Stage): Sys
    requires t < |s.threads| && s.threads[t].Upsert?
  {
    s.(threads := s.threads[t := s.threads[t].(stage := stage)])
  }

  function Create(s: Sys, key: AccessKey, rule: RateLimitRule, now: u64): Sys
    requires rule.maxCapacity >= 0
  {
    var counter := FromRule(now, rule).value;
    s.(cells := s.cells + [Cell(counter, None, key, rule)],
       rates := if key.MethodKey? then s.rates[key := |s.cells|] else s.rates,
       quotas := if key.QuotaKey? then s.quotas[key := |s.cells|] else s.quotas,
       log := s.log + [Created(counter)])
  }

  function UpsertStep(s: Sys, t: Tid, c: Choice): Option<Sys>
    requires t < |s.threads| && s.threads[t].Upsert?
  {
    var Upsert(target, profile, stage) := s.threads[t];
    match stage
    case DropRates => Some(WithStage(s, t, DropQuota).(rates := Without(s.rates, target)))
    case DropQuota =>
      Some(WithStage(s, t, InsertRates(c.now, MethodsOf(profile))).(quotas := Without(s.quotas, target)))
    case InsertRates(now, todo) =>
      if todo == {} then Some(WithStage(s, t, InsertQuota(now)))
      else if c.verb !in todo then None
      else
        var next := WithStage(s, t, InsertRates(now, todo - {c.verb}));
        if HasRate(profile, c.verb) then Some(Create(next, MethodKey(target, c.verb), RateOf(profile, c.verb), now))
        else Some(next)
    case InsertQuota(now) =>
      var next := WithStage(s, t, Publish);
      if HasQuota(profile) then Some(Create(next, QuotaKey(target), profile.quota.value, now)) else Some(next)
    case Publish => Some(WithStage(s, t, Complete).(profiles := s.profiles[target := profile]))
    case Complete => None
  }

  function ClearStep(s: Sys, t: Tid): Option<Sys>
    requires t < |s.threads| && s.threads[t].Clear?
  {
    match s.threads[t].at
    case ClearProfiles => Some(s.(threads := s.threads[t := Clear(ClearRates)], profiles := map[]))
    case ClearRates => Some(s.(threads := s.threads[t := Clear(ClearQuotas)], rates := map[]))
    case ClearQuotas => Some(s.(threads := s.threads[t := Clear(Cleared)], quotas := map[]))
    case Cleared => None
  }

  // ---------- runs ----------

  function StepOf(s: Sys, t: Tid, c: Choice): Option<Sys> {
    if t >= |s.threads| then None
    else match s.threads[t]
      case Call(req, p) =>
        (match CallMove(s, t, req, p, c)
         case None => None
         case Some(m) => Some(CallStep(s, t, m)))
      case Upsert(_, _, _) => UpsertStep(s, t, c)
      case Clear(_) => ClearStep(s, t)
  }

  predicate Begins(thread: Thread) {
    match thread
    case Call(_, p) => p == Arrived
    case Upsert(_, _, stage) => stage == DropRates
    case Clear(at) => at == ClearProfiles
  }

  predicate Finished(thread: Thread) {
    match thread
    case Call(_, p) => p.Denied? || p.Kept? || p.Returned?
    case Upsert(_, _, stage) => stage == Complete
    case Clear(at) => at == Cleared
  }

  predicate Initial(s: Sys) {
    && s.cells == [] && s.rates == map[] && s.quotas == map[] && s.profiles == map[]
    && s.fetches == {} && s.log == []
    && forall t :: 0 <= t < |s.threads| ==> Begins(s.threads[t])
  }

  /** A schedule: who moves, and what the environment decides. */
  type Schedule = seq<(Tid, Choice)>

  /** The state after a schedule, or `None` if it asks a blocked thread to move. */
  function After(s: Sys, run: Schedule): Option<Sys> {
    if run == [] then Some(s)
    else
      var n := |run| - 1;
      match After(s, run[..n])
      case None => None
      case Some(mid) => StepOf(mid, run[n].0, run[n].1)
  }

  ghost predicate ReachedBy(s: Sys, run: Schedule, z: Sys) {
    Initial(s) && After(s, run) == Some(z)
  }

  /** `z` is the state after some schedule of some initial threads. */
  ghost predicate Reachable(z: Sys) {
    exists s, run :: ReachedBy(s, run, z)
  }
}
