/** Orderly schedules: the resets of a pubkey do not overlap each other, nor the
    time in which one of its requests reads its profile and fetches its counters.
    In them every counter is fetched under its own rule only, so nothing is lost,
    and a missing counter has one cause; in any other, the exact causes. */
module ProtocolOrderly {
  import opened Wrappers
  import opened Words
  import opened RateStates
  import opened AccessKeys
  import opened Profiles
  import opened Protocol
  import opened ProtocolLocks
  import opened ProtocolSerial
  import opened ProtocolLedger
  import opened ProtocolResets
  import opened ProtocolCleanCut

  /** No request of `p` is fetching while a reset of `p` is under way. */
  ghost predicate FetchApart(z: Sys, p: string) {
    forall t, u :: 0 <= t < |z.threads| && 0 <= u < |z.threads| ==>
      !(Fetching(z.threads[t], p) && InReset(z.threads[u], p))
  }

  ghost predicate FetchApartAt(s: Sys, run: Schedule, p: string, j: nat)
    requires j <= |run|
  {
    After(s, run[..j]).Some? ==> FetchApart(After(s, run[..j]).value, p)
  }

  /** What a scheduler would have to grant: for `p`, one reset at a time, and
      fetching kept apart from resets. Debits, executions and refunds may overlap
      anything. */
  ghost predicate Orderly(s: Sys, run: Schedule, p: string) {
    ResetsApart(s, run, p) && forall j :: 0 <= j <= |run| ==> FetchApartAt(s, run, p, j)
  }

  lemma OrderlyPrefix(s: Sys, run: Schedule, p: string)
    requires run != [] && Orderly(s, run, p) && After(s, run).Some?
    ensures Orderly(s, run[..|run| - 1], p)
    ensures FetchApart(After(s, run).value, p) && FetchApart(After(s, run[..|run| - 1]).value, p)
  {
    var init := run[..|run| - 1];
    ApartPrefix(s, run, p);
    assert run[..|run|] == run;
    assert FetchApartAt(s, run, p, |run|) && FetchApartAt(s, run, p, |run| - 1);
    forall j | 0 <= j <= |init|
      ensures FetchApartAt(s, init, p, j)
    {
      assert init[..j] == run[..j];
      assert FetchApartAt(s, run, p, j);
    }
  }

  // ---------- the invariant ----------

  /** A fetching request carries the rules of the current profile. */
  predicate CarriesCurrent(z: Sys, thread: Thread)
    requires thread.Call?
  {
    var req, p := thread.req, thread.phase;
    p.FetchRate? || p.FetchQuota? ==>
      && req.pubkey in z.profiles && p.quota == z.profiles[req.pubkey].quota
      && (p.FetchRate? ==> MethodRule(z.profiles[req.pubkey], req.verb) == Ok(p.rate))
  }

  ghost predicate AllCarry(z: Sys, p: string) {
    forall t :: 0 <= t < |z.threads| && Fetching(z.threads[t], p) ==> CarriesCurrent(z, z.threads[t])
  }

  /** Every fetch of a counter of `p` was under the counter's own rule. */
  ghost predicate OwnFetches(z: Sys, p: string) {
    forall h, r :: (h, r) in z.fetches ==> h < |z.cells| && (z.cells[h].key.pubkey == p ==> r == z.cells[h].born)
  }

  ghost predicate InOrder(z: Sys, p: string) {
    AllCarry(z, p) && OwnFetches(z, p)
  }

  lemma OldRecords(s: Sys, us: seq<Update>)
    requires UpdatesOk(s, us)
    ensures Records(us) <= s.fetches
  {
    forall i | 0 <= i < |us|
      ensures (us[i].handle, us[i].rule) in s.fetches
    {
      assert UpdateOk(s, us[i]);
    }
  }

  /** Under agreement a request carrying the current rules fetches its method
      counter under the counter's own rule. */
  lemma RateFetchOwn(s: Sys, req: Request, p: Phase, now: u64, r: (Handle, RateLimitRule))
    requires MapsOk(s) && p.FetchRate? && r in Fetches(FetchRateMove(s, req, p, now).phase)
    ensures r.0 < |s.cells| && s.cells[r.0].key.pubkey == req.pubkey
    ensures Agrees(s, req.pubkey) && CarriesCurrent(s, Call(req, p)) ==> r.1 == s.cells[r.0].born
  {
    var k := MethodKey(req.pubkey, req.verb);
    if Agrees(s, req.pubkey) && CarriesCurrent(s, Call(req, p)) {
      assert Stored(s, k) == Prescribed(ProfileOf(s, req.pubkey), k);
    }
  }

  lemma QuotaFetchRecords(s: Sys, req: Request, p: Phase)
    requires MapsOk(s) && p.FetchQuota? && PhaseOk(s, p)
    ensures Fetches(FetchQuotaMove(s, req, p).phase) <= s.fetches + QuotaRecord(s, req, p)
  {
    OldRecords(s, p.fetched);
    QuotaFetchAdds(s, req, p);
    RecordsJoin(p.fetched, QuotaUpdate(s, req, p));
  }

  lemma RecordsJoin(a: seq<Update>, b: seq<Update>)
    ensures Records(a + b) <= Records(a) + Records(b)
  {
    forall r | r in Records(a + b)
      ensures r in Records(a) + Records(b)
    {
      var us := a + b;
      var i :| 0 <= i < |us| && r == (us[i].handle, us[i].rule);
      if i >= |a| {
        assert b[i - |a|] == us[i];
      }
    }
  }

  function QuotaRecord(s: Sys, req: Request, p: Phase): set<(Handle, RateLimitRule)>
    requires p.FetchQuota?
  {
    var k := QuotaKey(req.pubkey);
    if k in s.quotas && p.quota.Some? then {(s.quotas[k], p.quota.value)} else {}
  }

  lemma QuotaFetchOwn(s: Sys, req: Request, p: Phase, r: (Handle, RateLimitRule))
    requires MapsOk(s) && p.FetchQuota? && r in QuotaRecord(s, req, p)
    ensures r.0 < |s.cells| && s.cells[r.0].key.pubkey == req.pubkey
    ensures Agrees(s, req.pubkey) && CarriesCurrent(s, Call(req, p)) ==> r.1 == s.cells[r.0].born
  {
    var k := QuotaKey(req.pubkey);
    if Agrees(s, req.pubkey) && CarriesCurrent(s, Call(req, p)) {
      assert Stored(s, k) == Prescribed(ProfileOf(s, req.pubkey), k);
    }
  }

  /** What a step of a request newly records is a current counter of its own pubkey,
      under the counter's own rule if profile and counters agree. */
  lemma MoveFetches(s: Sys, t: Tid, req: Request, p: Phase, c: Choice, r: (Handle, RateLimitRule))
    requires MapsOk(s) && PhaseOk(s, p) && CallMove(s, t, req, p, c).Some?
    requires r in Fetches(CallMove(s, t, req, p, c).value.phase) && r !in s.fetches
    ensures r.0 < |s.cells| && s.cells[r.0].key.pubkey == req.pubkey && (p.FetchRate? || p.FetchQuota?)
    ensures Agrees(s, req.pubkey) && CarriesCurrent(s, Call(req, p)) ==> r.1 == s.cells[r.0].born
  {
    if p.FetchRate? {
      RateFetchOwn(s, req, p, c.now, r);
    } else if p.FetchQuota? {
      QuotaFetchRecords(s, req, p);
      QuotaFetchOwn(s, req, p, r);
    } else if HasPlan(p) {
      MoveKeepsPlan(s, t, req, p, c);
      OldRecords(s, p.plan.updates);
    }
  }

  lemma CallInOrder(s: Sys, t: Tid, c: Choice, p: string)
    requires Shape(s) && StepOf(s, t, c).Some? && s.threads[t].Call? && OwnFetches(s, p)
    requires Fetching(s.threads[t], p) ==> Agrees(s, p) && CarriesCurrent(s, s.threads[t])
    ensures OwnFetches(StepOf(s, t, c).value, p)
  {
    var req, phase := s.threads[t].req, s.threads[t].phase;
    var m := CallMove(s, t, req, phase, c).value;
    var s' := CallStep(s, t, m);
    assert ThreadOk(s, s.threads[t]);
    AffectGrows(s, t, m);
    forall h, r | (h, r) in s'.fetches
      ensures h < |s'.cells| && (s'.cells[h].key.pubkey == p ==> r == s'.cells[h].born)
    {
      if (h, r) !in s.fetches {
        MoveFetches(s, t, req, phase, c, (h, r));
      }
    }
  }

  lemma ResetInOrder(s: Sys, t: Tid, c: Choice, p: string)
    requires Shape(s) && StepOf(s, t, c).Some? && !s.threads[t].Call? && OwnFetches(s, p)
    ensures OwnFetches(StepOf(s, t, c).value, p)
  {
    if s.threads[t].Upsert? {
      UpsertFrame(s, t, c);
    } else {
      ClearFrame(s, t);
    }
    ResetGrows(s, StepOf(s, t, c).value, t);
  }

  lemma CarryStep(s: Sys, t: Tid, c: Choice)
    requires StepOf(s, t, c).Some? && s.threads[t].Call? && CarriesCurrent(s, s.threads[t])
    ensures var s' := StepOf(s, t, c).value;
            s'.profiles == s.profiles && s'.threads[t].Call? && CarriesCurrent(s', s'.threads[t])
  {
  }

  /** A step that changes the profile of `p` is part of a reset of `p`. */
  lemma PublishInReset(s: Sys, t: Tid, c: Choice, p: string)
    requires StepOf(s, t, c).Some? && WritesProfile(s.threads[t], p)
    ensures !s.threads[t].Call?
    ensures InReset(s.threads[t], p) || InReset(StepOf(s, t, c).value.threads[t], p)
  {
  }

  /** Nobody is fetching when the profile of `p` changes. */
  lemma NobodyFetches(s: Sys, t: Tid, c: Choice, p: string)
    requires Shape(s) && StepOf(s, t, c).Some? && WritesProfile(s.threads[t], p)
    requires FetchApart(s, p) && FetchApart(StepOf(s, t, c).value, p)
    ensures var s' := StepOf(s, t, c).value; forall u :: 0 <= u < |s'.threads| ==> !Fetching(s'.threads[u], p)
  {
    var s' := StepOf(s, t, c).value;
    StepSpares(s, t, c);
    PublishInReset(s, t, c, p);
    ResetAdvances(s, t, c);
    forall u | 0 <= u < |s'.threads|
      ensures !Fetching(s'.threads[u], p)
    {
      assert u != t ==> s'.threads[u] == s.threads[u];
    }
  }

  lemma CarryKept(s: Sys, t: Tid, c: Choice, p: string)
    requires Shape(s) && StepOf(s, t, c).Some? && AllCarry(s, p)
    requires FetchApart(s, p) && FetchApart(StepOf(s, t, c).value, p)
    ensures AllCarry(StepOf(s, t, c).value, p)
  {
    var s' := StepOf(s, t, c).value;
    StepSpares(s, t, c);
    if WritesProfile(s.threads[t], p) {
      NobodyFetches(s, t, c, p);
    } else {
      ProfileStep(s, t, c, p);
      forall u | 0 <= u < |s'.threads| && Fetching(s'.threads[u], p)
        ensures CarriesCurrent(s', s'.threads[u])
      {
        if u != t {
          assert s'.threads[u] == s.threads[u] && ProfileOf(s', p) == ProfileOf(s, p);
        } else if s.threads[t].Call? {
          CarryStep(s, t, c);
        } else {
          ResetAdvances(s, t, c);
        }
      }
    }
  }

  lemma {:induction false} OrderlyRun(s: Sys, run: Schedule, p: string)
    requires Initial(s) && After(s, run).Some? && Orderly(s, run, p)
    ensures InOrder(After(s, run).value, p)
    decreases |run|
  {
    if run == [] {
      forall t | 0 <= t < |s.threads|
        ensures !Fetching(s.threads[t], p)
      {
        assert Begins(s.threads[t]);
      }
    } else {
      var n := |run| - 1;
      OrderlyPrefix(s, run, p);
      OrderlyRun(s, run[..n], p);
      RunShape(s, run[..n]);
      var mid, t, c := After(s, run[..n]).value, run[n].0, run[n].1;
      CarryKept(mid, t, c, p);
      if mid.threads[t].Call? {
        if Fetching(mid.threads[t], p) {
          ApartSoAgrees(s, run[..n], mid, p);
        }
        CallInOrder(mid, t, c, p);
      } else {
        ResetInOrder(mid, t, c, p);
      }
    }
  }

  // ---------- the theorems ----------

  ghost predicate OrderlyTo(s: Sys, run: Schedule, z: Sys, p: string) {
    ReachedBy(s, run, z) && Orderly(s, run, p)
  }

  /** In an orderly schedule the counters of a pubkey are fetched under their own
      rules only. */
  lemma OrderlyOwnRules(s: Sys, run: Schedule, z: Sys, h: Handle)
    requires h < |z.cells| && OrderlyTo(s, run, z, z.cells[h].key.pubkey)
    ensures OwnRuleOnly(z, h)
  {
    OrderlyRun(s, run, z.cells[h].key.pubkey);
  }

  /** Conservation: in every state of an orderly schedule, before, between and after
      resets, a counter of a rule without refill accounts for its capacity to the
      unit; under any rule its balance is between 0 and the capacity. */
  lemma OrderlyConservation(s: Sys, run: Schedule, z: Sys, h: Handle)
    requires h < |z.cells| && OrderlyTo(s, run, z, z.cells[h].key.pubkey)
    ensures InRange(z.cells[h].counter, z.cells[h].born)
    ensures z.cells[h].born.ratePerMicro == 0 ==>
              Accounted(z, h) && TotalSpent(z.threads, h) <= z.cells[h].born.maxCapacity
  {
    OrderlyOwnRules(s, run, z, h);
    BalanceInRange(z, h);
    if z.cells[h].born.ratePerMicro == 0 {
      OwnRuleHarmless(z, h);
      Conservation(z, h);
    }
  }

  /** In an orderly schedule no refund to a counter without refill is ever clamped. */
  lemma OrderlyRefund(s: Sys, run: Schedule, z: Sys, t: Tid, u: Update)
    requires AboutToRefund(z, t, u) && OrderlyTo(s, run, z, u.key.pubkey) && u.rule.ratePerMicro == 0
    ensures u.handle < |z.cells|
    ensures Refunded(z.cells[u.handle].counter, u.amount, u.rule).balance
            == z.cells[u.handle].counter.balance + u.amount
  {
    RunShape(s, run);
    assert ThreadOk(z, z.threads[t]) && UpdateOk(z, u);
    OrderlyOwnRules(s, run, z, u.handle);
    OwnRuleHarmless(z, u.handle);
    RefundNeverClamped(z, t, u);
  }

  predicate OwnEntry(profile: UsageProfile, verb: Method) {
    profile.methods.Some? && verb in profile.methods.value
  }

  /** A fetch that ends at `next` misses a counter exactly when none can be meant:
      for a method, when the rule is not the method's own entry; for a method or a
      quota, when the capacity is negative. */
  predicate MissExplained(profile: UsageProfile, req: Request, p: Phase, next: Phase) {
    && (p.FetchRate? && p.rate.Some? ==>
          (next == Denied(MissingState(AccessRate)) <==>
           !OwnEntry(profile, req.verb) || p.rate.value.maxCapacity < 0))
    && (p.FetchQuota? && p.quota.Some? && req.spendMsat > 0 ==>
          (next == Denied(MissingState(Quota)) <==> p.quota.value.maxCapacity < 0))
  }

  lemma FetchAgreed(z: Sys, t: Tid, req: Request, p: Phase, c: Choice)
    requires MapsOk(z) && Agrees(z, req.pubkey) && CarriesCurrent(z, Call(req, p)) && (p.FetchRate? || p.FetchQuota?)
    ensures req.pubkey in z.profiles && CallMove(z, t, req, p, c).Some?
    ensures MissExplained(z.profiles[req.pubkey], req, p, CallMove(z, t, req, p, c).value.phase)
  {
    var k := if p.FetchRate? then MethodKey(req.pubkey, req.verb) else QuotaKey(req.pubkey);
    assert Stored(z, k) == Prescribed(ProfileOf(z, req.pubkey), k);
  }

  /** In an orderly schedule a missing counter has the one cause it should have. */
  lemma OrderlyFetch(s: Sys, run: Schedule, z: Sys, t: Tid, c: Choice)
    requires t < |z.threads| && z.threads[t].Call? && OrderlyTo(s, run, z, z.threads[t].req.pubkey)
    requires z.threads[t].phase.FetchRate? || z.threads[t].phase.FetchQuota?
    ensures var req, p := z.threads[t].req, z.threads[t].phase;
            && req.pubkey in z.profiles && CallMove(z, t, req, p, c).Some?
            && MissExplained(z.profiles[req.pubkey], req, p, CallMove(z, t, req, p, c).value.phase)
  {
    var req, p := z.threads[t].req, z.threads[t].phase;
    OrderlyRun(s, run, req.pubkey);
    assert run[..|run|] == run;
    assert FetchApartAt(s, run, req.pubkey, |run|);
    assert Fetching(z.threads[t], req.pubkey) && CarriesCurrent(z, z.threads[t]);
    ApartSoAgrees(s, run, z, req.pubkey);
    RunShape(s, run);
    FetchAgreed(z, t, req, p, c);
  }

  // ---------- any schedule ----------

  /** The key a fetching request looks up next, if it looks one up. */
  function LookedUp(req: Request, p: Phase): Option<AccessKey> {
    if p.FetchRate? && p.rate.Some? then Some(MethodKey(req.pubkey, req.verb))
    else if p.FetchQuota? && p.quota.Some? && req.spendMsat > 0 then Some(QuotaKey(req.pubkey))
    else None
  }

  /** In any schedule a request is answered that a counter is missing if and only if
      nobody has written the entry it looks up, or the last to write it has left
      nothing there; in particular while an upsert, even of the same profile, has
      dropped the entry and not written it again. */
  lemma MissedIff(s: Sys, run: Schedule, z: Sys, t: Tid, c: Choice)
    requires ReachedBy(s, run, z) && t < |z.threads| && z.threads[t].Call?
    requires LookedUp(z.threads[t].req, z.threads[t].phase).Some?
    ensures var req, p := z.threads[t].req, z.threads[t].phase;
            var k := LookedUp(req, p).value;
            CallMove(z, t, req, p, c).Some? &&
            (CallMove(z, t, req, p, c).value.phase ==
             Denied(MissingState(if k.MethodKey? then AccessRate else Quota)) <==>
             match LastWriter(s, run, k)
             case None => true
             case Some(w) => w < |z.threads| && LeftNothing(z.threads[w], k))
  {
    MissingIff(s, run, z, LookedUp(z.threads[t].req, z.threads[t].phase).value);
  }
}
