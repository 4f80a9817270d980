/** Races the protocol leaves open, each in a schedule that two tasks can take: a
    request that spans a reset applies its old rule to the new counter, with the
    rules for which that changes nothing; two overlapping upserts of one pubkey can
    leave the profile of one with the counters of the other; and a request can miss
    a counter that exists before and after. */
module ProtocolRaces {
  import opened Wrappers
  import opened Words
  import opened RateStates
  import opened AccessKeys
  import opened Profiles
  import opened Protocol
  import opened ProtocolLedger
  import opened ProtocolResets
  import opened ProtocolPlay

  const USER := "user"
  const VERB := Known("pay_invoice")

  /** A profile with one rule, for the quota or for one method. */
  function Only(rule: RateLimitRule, quota: bool): UsageProfile {
    if quota then UsageProfile(Some(rule), None)
    else UsageProfile(None, Some(map[VERB := MethodAccessRule(Some(rule))]))
  }

  function KeyFor(quota: bool): AccessKey {
    if quota then QuotaKey(USER) else MethodKey(USER, VERB)
  }

  /** A request that takes the least it can from that one counter. */
  function Ask(quota: bool): Request {
    Request(USER, VERB, if quota then 1 else 0)
  }

  function Least(quota: bool): u64 {
    LeastAmount(KeyFor(quota))
  }

  /** Upserts run at time 0, requests at the latest time. */
  const EARLY := Choice(0, VERB, false)
  const LATE := Choice(U64_MAX, VERB, false)

  // ---------- the parts of the schedules ----------

  lemma PlaysOn(s: Sys, a: Schedule, t: Tid, mid: Sys, b: Schedule, z: Sys)
    requires Plays(s, a, t, mid) && Plays(mid, b, t, z)
    ensures Plays(s, a + b, t, z)
  {
    AfterConcat(s, a, b);
  }

  function FullCell(rule: RateLimitRule, quota: bool): Cell {
    Cell(Counter(rule.maxCapacity, 0), None, KeyFor(quota), rule)
  }

  /** `z` is `s` after thread `t` came to `stage`, with one new full counter. */
  ghost predicate Inserted(s: Sys, z: Sys, t: Tid, rule: RateLimitRule, quota: bool, stage: Stage)
    requires t < |s.threads|
  {
    && z.threads == s.threads[t := Upsert(USER, Only(rule, quota), stage)]
    && z.profiles == s.profiles && z.fetches == s.fetches
    && z.cells == s.cells + [FullCell(rule, quota)] && Current(z, KeyFor(quota)) == Some(|s.cells|)
  }

  lemma UpsertDrops(s: Sys, t: Tid, rule: RateLimitRule, quota: bool) returns (run: Schedule, z: Sys)
    requires t < |s.threads| && s.threads[t] == Upsert(USER, Only(rule, quota), DropRates)
    ensures Plays(s, run, t, z) && Current(z, KeyFor(quota)) == None
    ensures z.threads == s.threads[t := Upsert(USER, Only(rule, quota), InsertRates(0, MethodsOf(Only(rule, quota))))]
    ensures z.profiles == s.profiles && z.fetches == s.fetches && z.cells == s.cells
  {
    run, z := Advance(s, [], s, t, EARLY);
    assert z.threads == s.threads[t := Upsert(USER, Only(rule, quota), DropQuota)];
    run, z := Advance(s, run, z, t, EARLY);
  }

  lemma InsertsQuota(s: Sys, t: Tid, rule: RateLimitRule) returns (run: Schedule, z: Sys)
    requires t < |s.threads| && s.threads[t] == Upsert(USER, Only(rule, true), InsertRates(0, {}))
    requires rule.maxCapacity >= 0
    ensures Plays(s, run, t, z) && Inserted(s, z, t, rule, true, Publish)
  {
    run, z := Advance(s, [], s, t, EARLY);
    assert z.threads == s.threads[t := Upsert(USER, Only(rule, true), InsertQuota(0))];
    run, z := Advance(s, run, z, t, EARLY);
  }

  lemma InsertsRate(s: Sys, t: Tid, rule: RateLimitRule) returns (run: Schedule, z: Sys)
    requires t < |s.threads| && s.threads[t] == Upsert(USER, Only(rule, false), InsertRates(0, {VERB}))
    requires rule.maxCapacity >= 0
    ensures Plays(s, run, t, z) && Inserted(s, z, t, rule, false, Publish)
  {
    run, z := Advance(s, [], s, t, EARLY);
    assert {VERB} - {VERB} == {};
    assert Inserted(s, z, t, rule, false, InsertRates(0, {}));
    run, z := Advance(s, run, z, t, EARLY);
    assert Inserted(s, z, t, rule, false, InsertQuota(0));
    run, z := Advance(s, run, z, t, EARLY);
  }

  lemma UpsertInserts(s: Sys, t: Tid, rule: RateLimitRule, quota: bool) returns (run: Schedule, z: Sys)
    requires t < |s.threads| && rule.maxCapacity >= 0
    requires s.threads[t] == Upsert(USER, Only(rule, quota), InsertRates(0, MethodsOf(Only(rule, quota))))
    ensures Plays(s, run, t, z) && Inserted(s, z, t, rule, quota, Publish)
  {
    if quota {
      assert MethodsOf(Only(rule, quota)) == {};
      run, z := InsertsQuota(s, t, rule);
    } else {
      assert MethodsOf(Only(rule, quota)) == {VERB};
      run, z := InsertsRate(s, t, rule);
    }
  }

  /** An upsert up to the point of publishing. */
  lemma UpsertToPublish(s: Sys, t: Tid, rule: RateLimitRule, quota: bool) returns (run: Schedule, z: Sys)
    requires t < |s.threads| && s.threads[t] == Upsert(USER, Only(rule, quota), DropRates) && rule.maxCapacity >= 0
    ensures Plays(s, run, t, z) && Inserted(s, z, t, rule, quota, Publish)
  {
    var r, mid := UpsertDrops(s, t, rule, quota);
    var q, end := UpsertInserts(mid, t, rule, quota);
    PlaysOn(s, r, t, mid, q, end);
    run, z := r + q, end;
  }

  lemma UpsertPublishes(s: Sys, t: Tid, profile: UsageProfile) returns (run: Schedule, z: Sys)
    requires t < |s.threads| && s.threads[t] == Upsert(USER, profile, Publish)
    ensures Plays(s, run, t, z)
    ensures z == s.(threads := s.threads[t := Upsert(USER, profile, Complete)], profiles := s.profiles[USER := profile])
  {
    run, z := Advance(s, [], s, t, EARLY);
  }

  /** `z` is `s` after a whole upsert by thread `t`. */
  ghost predicate AfterUpsert(s: Sys, z: Sys, t: Tid, rule: RateLimitRule, quota: bool)
    requires t < |s.threads|
  {
    && z.threads == s.threads[t := Upsert(USER, Only(rule, quota), Complete)] && z.fetches == s.fetches
    && z.profiles == s.profiles[USER := Only(rule, quota)]
    && z.cells == s.cells + [FullCell(rule, quota)] && Current(z, KeyFor(quota)) == Some(|s.cells|)
  }

  lemma UpsertWhole(s: Sys, t: Tid, rule: RateLimitRule, quota: bool) returns (run: Schedule, z: Sys)
    requires t < |s.threads| && s.threads[t] == Upsert(USER, Only(rule, quota), DropRates) && rule.maxCapacity >= 0
    ensures Plays(s, run, t, z) && AfterUpsert(s, z, t, rule, quota)
  {
    var r, mid := UpsertToPublish(s, t, rule, quota);
    var q, end := UpsertPublishes(mid, t, Only(rule, quota));
    PlaysOn(s, r, t, mid, q, end);
    run, z := r + q, end;
  }

  function Empty(threads: seq<Thread>): Sys {
    Sys([], map[], map[], map[], threads, {}, [])
  }

  // ---------- crossed upserts ----------

  const SMALL := RateLimitRule(0, 10)
  const LARGE := RateLimitRule(0, 100)

  /** Two upserts of one pubkey, each complete, by two tasks, the first overtaken by
      the second before it publishes: the first published last, the second wrote the
      counters last, and profile and counters disagree. */
  lemma CrossedUpserts() returns (s: Sys, run: Schedule, z: Sys)
    ensures ReachedBy(s, run, z) && |s.threads| == 2 && InTurn(s, run, [0, 1])
    ensures forall t: Tid :: t < |z.threads| ==> Finished(z.threads[t])
    ensures ProfileOf(z, USER) == Some(Only(SMALL, true)) && Stored(z, QuotaKey(USER)) == Some(LARGE)
    ensures !Agrees(z, USER)
  {
    var task := [0, 1];
    s := Empty([Upsert(USER, Only(SMALL, true), DropRates), Upsert(USER, Only(LARGE, true), DropRates)]);
    NoneYet(s, task);
    var r1, a := UpsertToPublish(s, 0, SMALL, true);
    ThenAlone(s, [], s, r1, 0, a, task);
    var r2, b := UpsertWhole(a, 1, LARGE, true);
    ThenAlone(s, [] + r1, a, r2, 1, b, task);
    var r3, c := UpsertPublishes(b, 0, Only(SMALL, true));
    ThenAlone(s, [] + r1 + r2, b, r3, 0, c, task);
    run, z := [] + r1 + r2 + r3, c;
    assert z.cells[1] == FullCell(LARGE, true);
  }

  // ---------- a request that spans a reset ----------

  function Stale(rule: RateLimitRule, quota: bool, h: Handle): Update {
    Update(KeyFor(quota), rule, Least(quota), if quota then Quota else AccessRate, h)
  }

  function StalePlan(rule: RateLimitRule, quota: bool, h: Handle): Plan {
    Plan(U64_MAX, [Stale(rule, quota, h)])
  }

  /** A request that has read the profile and fetched nothing. */
  function HasRead(rule: RateLimitRule, quota: bool): Thread {
    Call(Ask(quota), FetchRate(if quota then None else Some(rule), if quota then Some(rule) else None))
  }

  lemma CallReads(s: Sys, t: Tid, rule: RateLimitRule, quota: bool) returns (run: Schedule, z: Sys)
    requires t < |s.threads| && s.threads[t] == Call(Ask(quota), Arrived)
    requires ProfileOf(s, USER) == Some(Only(rule, quota))
    ensures Plays(s, run, t, z) && z == s.(threads := s.threads[t := HasRead(rule, quota)])
  {
    run, z := Advance(s, [], s, t, LATE);
    assert VERB in Only(rule, false).methods.value;
    assert s.fetches + {} == s.fetches && s.log + [] == s.log;
    assert z.threads == s.threads[t := HasRead(rule, quota)];
  }

  lemma CallFetches(s: Sys, t: Tid, rule: RateLimitRule, quota: bool, h: Handle) returns (run: Schedule, z: Sys)
    requires t < |s.threads| && s.threads[t] == HasRead(rule, quota) && Current(s, KeyFor(quota)) == Some(h)
    ensures Plays(s, run, t, z) && z.cells == s.cells && z.rates == s.rates && z.quotas == s.quotas
    ensures z.threads == s.threads[t := Call(Ask(quota), Locking(StalePlan(rule, quota, h), 0))]
    ensures z.fetches == s.fetches + {(h, rule)}
  {
    var u := Stale(rule, quota, h);
    var us := [u];
    assert us[..0] == [] && SortByKey(us, KeyOf) == us && [] + us == us;
    assert Records(us) == {(h, rule)} by {
      assert us[0] == u;
    }
    assert Records([]) == {};
    run, z := Advance(s, [], s, t, LATE);
    var fetched := if quota then [] else us;
    var wanted := if quota then Some(rule) else None;
    assert z.threads == s.threads[t := Call(Ask(quota), FetchQuota(U64_MAX, wanted, fetched))];
    run, z := Advance(s, run, z, t, LATE);
  }

  lemma CallLocks(s: Sys, t: Tid, rule: RateLimitRule, quota: bool, h: Handle) returns (run: Schedule, z: Sys)
    requires t < |s.threads| && s.threads[t] == Call(Ask(quota), Locking(StalePlan(rule, quota, h), 0)) && Free(s, h)
    requires (h, rule) in s.fetches
    requires CheckWithdraw(s.cells[h].counter, Least(quota), U64_MAX, rule).Ok?
    ensures Plays(s, run, t, z) && z.fetches == s.fetches && z.rates == s.rates && z.quotas == s.quotas
    ensures z.cells == s.cells[h := s.cells[h].(holder := Some(t))]
    ensures z.threads == s.threads[t := Call(Ask(quota), Debiting(StalePlan(rule, quota, h), 0))]
  {
    var plan := StalePlan(rule, quota, h);
    assert plan.updates == [Stale(rule, quota, h)];
    assert Records(plan.updates) <= s.fetches;
    run, z := Advance(s, [], s, t, LATE);
    assert z.threads == s.threads[t := Call(Ask(quota), Locking(plan, 1))] && z.fetches == s.fetches;
    run, z := Advance(s, run, z, t, LATE);
    assert z.threads == s.threads[t := Call(Ask(quota), Checking(plan, 0))];
    run, z := Advance(s, run, z, t, LATE);
    assert z.threads == s.threads[t := Call(Ask(quota), Checking(plan, 1))];
    run, z := Advance(s, run, z, t, LATE);
  }

  lemma CallDebits(s: Sys, t: Tid, rule: RateLimitRule, quota: bool, h: Handle) returns (run: Schedule, z: Sys)
    requires t < |s.threads| && s.threads[t] == Call(Ask(quota), Debiting(StalePlan(rule, quota, h), 0))
    requires h < |s.cells| && CheckWithdraw(s.cells[h].counter, Least(quota), U64_MAX, rule).Ok?
    ensures Plays(s, run, t, z) && z.fetches == s.fetches && z.rates == s.rates && z.quotas == s.quotas
    ensures z.cells == s.cells[h := s.cells[h].(holder := None,
                                counter := Withdrawn(s.cells[h].counter, Least(quota), U64_MAX, rule))]
    ensures z.threads == s.threads[t := Call(Ask(quota), Executing(StalePlan(rule, quota, h)))]
  {
    var plan := StalePlan(rule, quota, h);
    assert plan.updates == [Stale(rule, quota, h)];
    run, z := Advance(s, [], s, t, LATE);
    assert z.threads == s.threads[t := Call(Ask(quota), Debiting(plan, 1))];
    run, z := Advance(s, run, z, t, LATE);
    assert z.threads == s.threads[t := Call(Ask(quota), Unlocking(plan, 0, None))];
    run, z := Advance(s, run, z, t, LATE);
    assert z.threads == s.threads[t := Call(Ask(quota), Unlocking(plan, 1, None))];
    run, z := Advance(s, run, z, t, LATE);
  }

  function Done(rule: RateLimitRule, quota: bool, h: Handle): Thread {
    Call(Ask(quota), Kept(StalePlan(rule, quota, h)))
  }

  /** A request up to its first debit. */
  lemma CallBegins(s: Sys, t: Tid, rule: RateLimitRule, quota: bool, h: Handle) returns (run: Schedule, z: Sys)
    requires t < |s.threads| && s.threads[t] == Call(Ask(quota), Arrived)
    requires ProfileOf(s, USER) == Some(Only(rule, quota)) && Current(s, KeyFor(quota)) == Some(h)
    requires Free(s, h) && CheckWithdraw(s.cells[h].counter, Least(quota), U64_MAX, rule).Ok?
    ensures Plays(s, run, t, z) && z.fetches == s.fetches + {(h, rule)} && z.rates == s.rates && z.quotas == s.quotas
    ensures z.cells == s.cells[h := s.cells[h].(holder := Some(t))]
    ensures z.threads == s.threads[t := Call(Ask(quota), Debiting(StalePlan(rule, quota, h), 0))]
  {
    var r1, a := CallReads(s, t, rule, quota);
    var r2, b := CallFetches(a, t, rule, quota, h);
    PlaysOn(s, r1, t, a, r2, b);
    var r3, c := CallLocks(b, t, rule, quota, h);
    PlaysOn(s, r1 + r2, t, b, r3, c);
    run, z := r1 + r2 + r3, c;
  }

  /** A request from its first debit to its end. */
  lemma CallEnds(s: Sys, t: Tid, rule: RateLimitRule, quota: bool, h: Handle) returns (run: Schedule, z: Sys)
    requires t < |s.threads| && s.threads[t] == Call(Ask(quota), Debiting(StalePlan(rule, quota, h), 0))
    requires h < |s.cells| && CheckWithdraw(s.cells[h].counter, Least(quota), U64_MAX, rule).Ok?
    ensures Plays(s, run, t, z) && z.fetches == s.fetches && z.rates == s.rates && z.quotas == s.quotas
    ensures z.cells == s.cells[h := s.cells[h].(holder := None,
                                counter := Withdrawn(s.cells[h].counter, Least(quota), U64_MAX, rule))]
    ensures z.threads == s.threads[t := Done(rule, quota, h)]
  {
    var r, a := CallDebits(s, t, rule, quota, h);
    run, z := Advance(s, r, a, t, LATE);
  }

  /** A whole request that fetches counter `h` under `rule`, and is kept. */
  lemma CallSpends(s: Sys, t: Tid, rule: RateLimitRule, quota: bool, h: Handle) returns (run: Schedule, z: Sys)
    requires t < |s.threads| && s.threads[t] == Call(Ask(quota), Arrived)
    requires ProfileOf(s, USER) == Some(Only(rule, quota)) && Current(s, KeyFor(quota)) == Some(h)
    requires Free(s, h) && CheckWithdraw(s.cells[h].counter, Least(quota), U64_MAX, rule).Ok?
    ensures Plays(s, run, t, z) && Current(z, KeyFor(quota)) == Some(h)
    ensures z.fetches == s.fetches + {(h, rule)} && z.profiles == s.profiles
    ensures z.cells == s.cells[h := s.cells[h].(
                                counter := Withdrawn(s.cells[h].counter, Least(quota), U64_MAX, rule))]
    ensures z.threads == s.threads[t := Done(rule, quota, h)]
  {
    var r1, a := CallBegins(s, t, rule, quota, h);
    var r2, b := CallEnds(a, t, rule, quota, h);
    PlaysOn(s, r1, t, a, r2, b);
    run, z := r1 + r2, b;
    CallsKeepProfiles(s, run, t, z);
  }

  lemma {:induction false} CallsKeepProfiles(s: Sys, run: Schedule, t: Tid, z: Sys)
    requires Plays(s, run, t, z) && t < |s.threads| && s.threads[t].Call?
    ensures z.profiles == s.profiles && t < |z.threads| && z.threads[t].Call?
    decreases |run|
  {
    if run == [] {
    } else {
      var n := |run| - 1;
      CallsKeepProfiles(s, run[..n], t, After(s, run[..n]).value);
    }
  }

  /** An upsert, two requests, and another upsert; the requests are one task's, the
      upserts the other's. */
  function Cast(born: RateLimitRule, rule: RateLimitRule, quota: bool): seq<Thread> {
    [Upsert(USER, Only(rule, quota), DropRates), Call(Ask(quota), Arrived), Call(Ask(quota), Arrived),
     Upsert(USER, Only(born, quota), DropRates)]
  }

  const TASKS: seq<nat> := [1, 0, 0, 1]

  function Opening(born: RateLimitRule, rule: RateLimitRule, quota: bool): Sys {
    Empty(Cast(born, rule, quota))
  }

  /** The schedule has led from the opening to `z`, in turn. */
  ghost predicate Led(born: RateLimitRule, rule: RateLimitRule, quota: bool, run: Schedule, z: Sys) {
    var s := Opening(born, rule, quota);
    After(s, run) == Some(z) && InTurn(s, run, TASKS)
  }

  /** The second upsert has put its counter in the maps and not published: requests
      still read the first one's profile. */
  lemma Setup(born: RateLimitRule, rule: RateLimitRule, quota: bool) returns (run: Schedule, z: Sys)
    requires born.maxCapacity >= 0 && rule.maxCapacity >= 0
    ensures Led(born, rule, quota, run, z)
    ensures |z.cells| == 2 && z.cells[1] == FullCell(born, quota) && z.fetches == {}
    ensures Current(z, KeyFor(quota)) == Some(1) && ProfileOf(z, USER) == Some(Only(rule, quota))
    ensures z.threads == [Upsert(USER, Only(rule, quota), Complete), Call(Ask(quota), Arrived),
                          Call(Ask(quota), Arrived), Upsert(USER, Only(born, quota), Publish)]
  {
    var s := Opening(born, rule, quota);
    NoneYet(s, TASKS);
    var r1, a := UpsertWhole(s, 0, rule, quota);
    ThenAlone(s, [], s, r1, 0, a, TASKS);
    var r2, b := UpsertToPublish(a, 3, born, quota);
    ThenAlone(s, [] + r1, a, r2, 3, b, TASKS);
    run, z := [] + r1 + r2, b;
  }

  /** A rule that is not harmless refills a counter of `born` to its own capacity at
      the latest time, from the full counter, and from any if it refills at all. */
  lemma LateRefill(born: RateLimitRule, rule: RateLimitRule, quota: bool, c: Counter)
    requires born.ratePerMicro == 0 && born.maxCapacity >= 0 && !Harmless(born, rule, Least(quota))
    requires 0 <= c.balance && c.lastRefill == 0
    requires c.balance == born.maxCapacity || rule.ratePerMicro > 0
    ensures CheckWithdraw(c, Least(quota), U64_MAX, rule).Ok?
    ensures Withdrawn(c, Least(quota), U64_MAX, rule) == Counter(rule.maxCapacity - Least(quota), 0)
  {
    RefillExact(c, U64_MAX, rule);
    if rule.ratePerMicro > 0 {
      MulMonotone(U64_MAX, 1, rule.ratePerMicro);
      assert rule.ratePerMicro * Elapsed(c, U64_MAX) == U64_MAX * rule.ratePerMicro;
    } else {
      assert rule.ratePerMicro * Elapsed(c, U64_MAX) == 0;
    }
  }

  lemma FourThreads(threads: seq<Thread>, h: Handle)
    requires |threads| == 4
    ensures TotalInFlight(threads, h) == InFlightOf(threads[0], h) + InFlightOf(threads[1], h)
                                         + InFlightOf(threads[2], h) + InFlightOf(threads[3], h)
    ensures TotalSpent(threads, h) == SpentOf(threads[0], h) + SpentOf(threads[1], h)
                                      + SpentOf(threads[2], h) + SpentOf(threads[3], h)
  {
    var three := threads[..3];
    var two := three[..2];
    var one := two[..1];
    assert one[..0] == [];
    assert TotalInFlight(one, h) == InFlightOf(threads[0], h) && TotalSpent(one, h) == SpentOf(threads[0], h);
    assert TotalInFlight(two, h) == TotalInFlight(one, h) + InFlightOf(threads[1], h);
    assert TotalSpent(two, h) == TotalSpent(one, h) + SpentOf(threads[1], h);
    assert TotalInFlight(three, h) == TotalInFlight(two, h) + InFlightOf(threads[2], h);
    assert TotalSpent(three, h) == TotalSpent(two, h) + SpentOf(threads[2], h);
  }

  lemma StaleSpent(rule: RateLimitRule, quota: bool, h: Handle)
    ensures Spent(Kept(StalePlan(rule, quota, h)), h) == Least(quota)
    ensures InFlight(Kept(StalePlan(rule, quota, h)), h) == 0
  {
    var us := StalePlan(rule, quota, h).updates;
    assert AmountOn(us, 1, 1, h) == 0;
    assert AmountOn(us, 0, 1, h) == Least(quota);
  }

  /** The counter `h` was made from `born`, for a quota or for a method. */
  ghost predicate BornFrom(z: Sys, h: Handle, born: RateLimitRule, quota: bool) {
    h < |z.cells| && z.cells[h].born == born && (z.cells[h].key.QuotaKey? <==> quota)
  }

  /** Requests fetched it under its own rule and under `rule`, and under no other. */
  ghost predicate FetchedUnder(z: Sys, h: Handle, born: RateLimitRule, rule: RateLimitRule) {
    forall r :: (h, r) in z.fetches ==> r == born || r == rule
  }

  /** Fetches under `rule` never cost or win a counter of `born` a unit. */
  ghost predicate Conserves(born: RateLimitRule, rule: RateLimitRule, quota: bool) {
    forall z, h :: Reachable(z) && BornFrom(z, h, born, quota) && FetchedUnder(z, h, born, rule) ==> Accounted(z, h)
  }

  /** What is kept after one or both of the requests have been served. */
  lemma SpentAfter(threads: seq<Thread>, rule: RateLimitRule, quota: bool)
    requires |threads| == 4 && !threads[0].Call? && !threads[3].Call? && threads[1] == Done(rule, quota, 1)
    requires threads[2] == Call(Ask(quota), Arrived) || threads[2] == Done(rule, quota, 1)
    ensures TotalInFlight(threads, 1) == 0
    ensures TotalSpent(threads, 1) == if threads[2] == Done(rule, quota, 1) then 2 * Least(quota) else Least(quota)
  {
    StaleSpent(rule, quota, 1);
    FourThreads(threads, 1);
  }

  /** The first request is served: the counter is off unless the capacities are equal. */
  lemma FirstSpends(born: RateLimitRule, rule: RateLimitRule, quota: bool) returns (run: Schedule, z: Sys)
    requires born.ratePerMicro == 0 && born.maxCapacity >= 0 && !Harmless(born, rule, Least(quota))
    ensures Led(born, rule, quota, run, z) && BornFrom(z, 1, born, quota)
    ensures z.fetches == {(1, rule)} && Current(z, KeyFor(quota)) == Some(1) && Free(z, 1)
    ensures z.cells[1].counter == Counter(rule.maxCapacity - Least(quota), 0)
    ensures ProfileOf(z, USER) == Some(Only(rule, quota))
    ensures z.threads == [Upsert(USER, Only(rule, quota), Complete), Done(rule, quota, 1), Call(Ask(quota), Arrived),
                          Upsert(USER, Only(born, quota), Publish)]
  {
    var r, a := Setup(born, rule, quota);
    LateRefill(born, rule, quota, a.cells[1].counter);
    var q, b := CallSpends(a, 1, rule, quota, 1);
    ThenAlone(Opening(born, rule, quota), r, a, q, 1, b, TASKS);
    run, z := r + q, b;
  }

  /** Under a rule that refills, the second request debits a refilled counter. */
  lemma SecondSpends(born: RateLimitRule, rule: RateLimitRule, quota: bool) returns (run: Schedule, z: Sys)
    requires born.ratePerMicro == 0 && born.maxCapacity >= 0 && !Harmless(born, rule, Least(quota))
    requires rule.ratePerMicro > 0
    ensures Led(born, rule, quota, run, z) && BornFrom(z, 1, born, quota)
    ensures z.fetches == {(1, rule)} && z.cells[1].counter == Counter(rule.maxCapacity - Least(quota), 0)
    ensures |z.threads| == 4 && !z.threads[0].Call? && !z.threads[3].Call?
    ensures z.threads[1] == z.threads[2] == Done(rule, quota, 1)
  {
    var r, a := FirstSpends(born, rule, quota);
    LateRefill(born, rule, quota, a.cells[1].counter);
    var q, b := CallSpends(a, 2, rule, quota, 1);
    ThenAlone(Opening(born, rule, quota), r, a, q, 2, b, TASKS);
    run, z := r + q, b;
  }

  /** A run of two tasks, which serve requests and upserts one after another, after
      which a counter of `born` is off by some units. */
  lemma Violation(born: RateLimitRule, rule: RateLimitRule, quota: bool) returns (run: Schedule, z: Sys)
    requires born.ratePerMicro == 0 && born.maxCapacity >= 0 && !Harmless(born, rule, Least(quota))
    ensures Led(born, rule, quota, run, z) && Reachable(z)
    ensures BornFrom(z, 1, born, quota) && FetchedUnder(z, 1, born, rule) && !Accounted(z, 1)
  {
    if rule.maxCapacity == born.maxCapacity {
      run, z := SecondSpends(born, rule, quota);
    } else {
      run, z := FirstSpends(born, rule, quota);
    }
    SpentAfter(z.threads, rule, quota);
    assert ReachedBy(Opening(born, rule, quota), run, z);
  }

  /** A counter of a rule without refill is conserved in every run that fetches it
      under another rule besides its own if and only if that rule is harmless:
      nothing can be drawn under it, or it has no refill and no smaller capacity. */
  lemma StaleRuleIff(born: RateLimitRule, rule: RateLimitRule, quota: bool)
    requires born.ratePerMicro == 0 && born.maxCapacity >= 0
    ensures Conserves(born, rule, quota) <==> Harmless(born, rule, Least(quota))
  {
    if Harmless(born, rule, Least(quota)) {
      forall z, h | Reachable(z) && BornFrom(z, h, born, quota) && FetchedUnder(z, h, born, rule)
        ensures Accounted(z, h)
      {
        assert HarmlessAt(z, h);
        Conservation(z, h);
      }
    } else {
      var run, z := Violation(born, rule, quota);
    }
  }

  // ---------- a counter missed in the middle of a reset ----------

  function ContextOf(quota: bool): Context {
    if quota then Quota else AccessRate
  }

  /** The request fetches while the entry is gone. */
  lemma CallMisses(s: Sys, t: Tid, rule: RateLimitRule, quota: bool) returns (run: Schedule, z: Sys)
    requires t < |s.threads| && s.threads[t] == HasRead(rule, quota) && Current(s, KeyFor(quota)) == None
    ensures Plays(s, run, t, z) && z.cells == s.cells && z.profiles == s.profiles
    ensures z.threads == s.threads[t := Call(Ask(quota), Denied(MissingState(ContextOf(quota))))]
  {
    run, z := Advance(s, [], s, t, LATE);
    if quota {
      assert z.threads == s.threads[t := Call(Ask(quota), FetchQuota(U64_MAX, Some(rule), []))];
      run, z := Advance(s, run, z, t, LATE);
    }
  }

  function MissCast(rule: RateLimitRule, quota: bool): seq<Thread> {
    [Upsert(USER, Only(rule, quota), DropRates), Call(Ask(quota), Arrived), Upsert(USER, Only(rule, quota), DropRates)]
  }

  const MISSTASKS: seq<nat> := [1, 0, 1]

  ghost predicate MissLed(rule: RateLimitRule, quota: bool, run: Schedule, z: Sys) {
    var s := Empty(MissCast(rule, quota));
    After(s, run) == Some(z) && InTurn(s, run, MISSTASKS)
  }

  /** Profile and maps hold the rule and its counter. */
  ghost predicate InPlace(z: Sys, rule: RateLimitRule, quota: bool) {
    ProfileOf(z, USER) == Some(Only(rule, quota)) && Stored(z, KeyFor(quota)) == Some(rule)
  }

  /** The first upsert is done, and the request has read its profile. */
  lemma MissReads(rule: RateLimitRule, quota: bool) returns (run: Schedule, z: Sys)
    requires rule.maxCapacity >= 0
    ensures MissLed(rule, quota, run, z) && InPlace(z, rule, quota)
    ensures z.threads == [Upsert(USER, Only(rule, quota), Complete), HasRead(rule, quota),
                          Upsert(USER, Only(rule, quota), DropRates)]
  {
    var s := Empty(MissCast(rule, quota));
    NoneYet(s, MISSTASKS);
    var r1, a := UpsertWhole(s, 0, rule, quota);
    ThenAlone(s, [], s, r1, 0, a, MISSTASKS);
    var r2, b := CallReads(a, 1, rule, quota);
    ThenAlone(s, [] + r1, a, r2, 1, b, MISSTASKS);
    run, z := [] + r1 + r2, b;
    assert z.cells[0] == FullCell(rule, quota);
  }

  /** The second upsert drops the entry, and the request misses it. */
  lemma MissFetches(rule: RateLimitRule, quota: bool, before: Schedule, a: Sys) returns (run: Schedule, z: Sys)
    requires MissLed(rule, quota, before, a) && InPlace(a, rule, quota)
    requires a.threads == [Upsert(USER, Only(rule, quota), Complete), HasRead(rule, quota),
                           Upsert(USER, Only(rule, quota), DropRates)]
    ensures MissLed(rule, quota, run, z) && before <= run && z.profiles == a.profiles && z.cells == a.cells
    ensures z.threads == [Upsert(USER, Only(rule, quota), Complete),
                          Call(Ask(quota), Denied(MissingState(ContextOf(quota)))),
                          Upsert(USER, Only(rule, quota), InsertRates(0, MethodsOf(Only(rule, quota))))]
  {
    var s := Empty(MissCast(rule, quota));
    var r1, b := UpsertDrops(a, 2, rule, quota);
    ThenAlone(s, before, a, r1, 2, b, MISSTASKS);
    var r2, c := CallMisses(b, 1, rule, quota);
    ThenAlone(s, before + r1, b, r2, 1, c, MISSTASKS);
    run, z := before + r1 + r2, c;
  }

  lemma MissEnds(rule: RateLimitRule, quota: bool, before: Schedule, a: Sys) returns (run: Schedule, z: Sys)
    requires MissLed(rule, quota, before, a) && rule.maxCapacity >= 0
    requires |a.threads| == 3 && a.threads[0].Upsert? && Finished(a.threads[0]) && Finished(a.threads[1])
    requires a.threads[2] == Upsert(USER, Only(rule, quota), InsertRates(0, MethodsOf(Only(rule, quota))))
    ensures MissLed(rule, quota, run, z) && before <= run && InPlace(z, rule, quota)
    ensures z.threads == a.threads[2 := Upsert(USER, Only(rule, quota), Complete)]
  {
    var s := Empty(MissCast(rule, quota));
    var r1, b := UpsertInserts(a, 2, rule, quota);
    ThenAlone(s, before, a, r1, 2, b, MISSTASKS);
    var r2, c := UpsertPublishes(b, 2, Only(rule, quota));
    ThenAlone(s, before + r1, b, r2, 2, c, MISSTASKS);
    run, z := before + r1 + r2, c;
    assert z.cells[|a.cells|] == FullCell(rule, quota);
  }

  /** A request reads a profile whose counter is in the maps, an upsert of the very
      same profile removes the entry and has not written it again, and the request is
      answered that the counter is missing; then the upsert completes. No order of
      whole resets and requests gives this answer. */
  lemma MissedBetween(rule: RateLimitRule, quota: bool)
    returns (before: Schedule, a: Sys, run: Schedule, z: Sys)
    requires rule.maxCapacity >= 0
    ensures MissLed(rule, quota, before, a) && MissLed(rule, quota, run, z) && before <= run
    ensures InPlace(a, rule, quota) && InPlace(z, rule, quota)
    ensures |a.threads| == 3 && a.threads[1] == HasRead(rule, quota)
    ensures |z.threads| == 3 && forall t: Tid :: t < 3 ==> Finished(z.threads[t])
    ensures z.threads[1] == Call(Ask(quota), Denied(MissingState(ContextOf(quota))))
  {
    before, a := MissReads(rule, quota);
    var r, b := MissFetches(rule, quota, before, a);
    run, z := MissEnds(rule, quota, r, b);
  }
}
