/** What a request is answered and charged, told by the fields of the profile it read:
    in every schedule the one read decides who is denied, under which rules the
    counters are taken, and for how much. */
module ProtocolAnswers {
  import opened Wrappers
  import opened Words
  import opened AccessKeys
  import opened Profiles
  import opened Protocol
  import opened ProtocolLocks
  import opened ProtocolSerial
  import opened ProtocolResets
  import opened ProtocolCleanCut
  import opened ProtocolPlay

  function ChargeOf(u: Update): Charge {
    Charge(u.key, u.rule, u.amount, u.context)
  }

  function Charges(us: seq<Update>): seq<Charge> {
    seq(|us|, i requires 0 <= i < |us| => ChargeOf(us[i]))
  }

  /** The `j`-th move of the schedule is the one by which request `req` of thread `t`
      reads `profile`. */
  ghost predicate ReadsAt(s: Sys, run: Schedule, t: Tid, req: Request, profile: Option<UsageProfile>, j: nat)
    requires j < |run|
  {
    var mid := After(s, run[..j]);
    && run[j].0 == t && mid.Some? && t < |mid.value.threads| && mid.value.threads[t] == Call(req, Arrived)
    && profile == ProfileOf(mid.value, req.pubkey)
  }

  // ---------- the invariant ----------

  ghost predicate DenialAsRead(profile: Option<UsageProfile>, req: Request, d: Denial) {
    match d
    case Unauthorized => profile.None?
    case AccessDenied => profile.Some? && Forbids(profile.value, req.verb)
    case MissingState(AccessRate) => profile.Some? && Limited(profile.value, req.verb)
    case MissingState(Quota) =>
      profile.Some? && !Forbids(profile.value, req.verb) && req.spendMsat > 0 && profile.value.quota.Some?
    case Refused(_, _) => profile.Some? && !Forbids(profile.value, req.verb)
  }

  ghost predicate AsRead(profile: Option<UsageProfile>, req: Request, p: Phase) {
    if p.Arrived? then false
    else if p.Denied? then DenialAsRead(profile, req, p.reason)
    else
      && profile.Some? && !Forbids(profile.value, req.verb)
      && (p.FetchRate? ==>
            p.quota == profile.value.quota &&
            forall rule :: p.rate == Some(rule) <==> Governs(profile.value, req.verb, rule))
      && (p.FetchQuota? ==>
            p.quota == profile.value.quota && RateCharged(profile.value, req, Charges(p.fetched)))
      && (HasPlan(p) ==> Charged(profile.value, req, Charges(p.plan.updates)))
      && (p.Unlocking? && p.denial.Some? ==> p.denial.value.Refused?)
  }

  lemma ReadMove(s: Sys, req: Request)
    ensures AsRead(ProfileOf(s, req.pubkey), req, ArrivedMove(s, req).phase)
  {
    if req.pubkey in s.profiles {
      MethodRuleMeans(s.profiles[req.pubkey], req.verb);
    }
  }

  lemma RateMove(s: Sys, profile: UsageProfile, req: Request, p: Phase, now: u64)
    requires p.FetchRate? && AsRead(Some(profile), req, p)
    ensures AsRead(Some(profile), req, FetchRateMove(s, req, p, now).phase)
  {
    var m := FetchRateMove(s, req, p, now);
    if p.rate.Some? {
      assert Governs(profile, req.verb, p.rate.value);
    }
    if m.phase.FetchQuota? {
      var cs := Charges(m.phase.fetched);
      forall c
        ensures c in cs <==> Governs(profile, req.verb, c.rule) &&
                             c == Charge(MethodKey(req.pubkey, req.verb), c.rule, 1_000_000, AccessRate)
      {
        if p.rate.Some? {
          assert cs == [Charge(MethodKey(req.pubkey, req.verb), p.rate.value, 1_000_000, AccessRate)];
        }
      }
    }
  }

  lemma QuotaMove(s: Sys, profile: UsageProfile, req: Request, p: Phase)
    requires p.FetchQuota? && PhaseOk(s, p) && AsRead(Some(profile), req, p)
    ensures AsRead(Some(profile), req, FetchQuotaMove(s, req, p).phase)
  {
    QuotaFetchAdds(s, req, p);
    QuotaFound(s, req, p);
    if !FetchQuotaMove(s, req, p).phase.Denied? {
      QuotaCharged(s, profile, req, p);
    }
  }

  lemma QuotaFound(s: Sys, req: Request, p: Phase)
    requires p.FetchQuota?
    ensures var m := FetchQuotaMove(s, req, p);
            m.phase.Denied? <==> req.spendMsat > 0 && p.quota.Some? && QuotaKey(req.pubkey) !in s.quotas
    ensures var m := FetchQuotaMove(s, req, p); m.phase.Denied? ==> m.phase.reason == MissingState(Quota)
  {
  }

  lemma QuotaCharged(s: Sys, profile: UsageProfile, req: Request, p: Phase)
    requires p.FetchQuota? && p.quota == profile.quota && RateCharged(profile, req, Charges(p.fetched))
    requires req.spendMsat > 0 && p.quota.Some? ==> QuotaKey(req.pubkey) in s.quotas
    ensures Charged(profile, req, Charges(p.fetched + QuotaUpdate(s, req, p)))
  {
    var a, b := Charges(p.fetched), Charges(QuotaUpdate(s, req, p));
    assert Charges(p.fetched + QuotaUpdate(s, req, p)) == a + b;
    ChargesJoin(profile, req, a, b);
  }

  lemma MoveAsRead(s: Sys, t: Tid, profile: Option<UsageProfile>, req: Request, p: Phase, c: Choice)
    requires PhaseOk(s, p) && AsRead(profile, req, p) && CallMove(s, t, req, p, c).Some?
    ensures AsRead(profile, req, CallMove(s, t, req, p, c).value.phase)
  {
    if p.FetchRate? {
      RateMove(s, profile.value, req, p, c.now);
    } else if p.FetchQuota? {
      QuotaMove(s, profile.value, req, p);
    } else {
      MoveKeepsPlan(s, t, req, p, c);
    }
  }

  // ---------- over a schedule ----------

  /** Every decision of the thread is about what its request owes by the profile. */
  ghost predicate DecidedAsRead(log: seq<Event>, t: Tid, profile: Option<UsageProfile>, req: Request) {
    forall e :: e in log && e.Verified? && e.t == t ==>
      profile.Some? && Charged(profile.value, req, Charges(e.plan.updates))
  }

  ghost predicate StandsAsRead(z: Sys, t: Tid, profile: Option<UsageProfile>, req: Request) {
    && t < |z.threads| && z.threads[t].Call? && z.threads[t].req == req
    && AsRead(profile, req, z.threads[t].phase) && DecidedAsRead(z.log, t, profile, req)
  }

  lemma LoggedAsRead(s: Sys, t: Tid, profile: Option<UsageProfile>, req: Request, p: Phase, c: Choice)
    requires AsRead(profile, req, p) && CallMove(s, t, req, p, c).Some?
    ensures forall e :: e in CallMove(s, t, req, p, c).value.log && e.Verified? ==>
              profile.Some? && Charged(profile.value, req, Charges(e.plan.updates))
  {
  }

  lemma OwnAsRead(s: Sys, t: Tid, c: Choice, profile: Option<UsageProfile>, req: Request)
    requires Shape(s) && StepOf(s, t, c).Some? && StandsAsRead(s, t, profile, req)
    ensures StandsAsRead(StepOf(s, t, c).value, t, profile, req)
  {
    assert ThreadOk(s, s.threads[t]);
    MoveAsRead(s, t, profile, req, s.threads[t].phase, c);
    LoggedAsRead(s, t, profile, req, s.threads[t].phase, c);
    LogGrows(s.log, CallMove(s, t, req, s.threads[t].phase, c).value.log, t, profile, req);
  }

  lemma LogGrows(log: seq<Event>, more: seq<Event>, t: Tid, profile: Option<UsageProfile>, req: Request)
    requires DecidedAsRead(log, t, profile, req) && DecidedAsRead(more, t, profile, req)
    ensures DecidedAsRead(log + more, t, profile, req)
  {
  }

  ghost predicate SilentOn(log: seq<Event>, t: Tid) {
    forall e :: e in log && e.Verified? ==> e.t != t
  }

  lemma OthersSilent(s: Sys, u: Tid, c: Choice, t: Tid) returns (more: seq<Event>)
    requires StepOf(s, u, c).Some? && u != t && t < |s.threads|
    ensures var z := StepOf(s, u, c).value;
            t < |z.threads| && z.threads[t] == s.threads[t] && z.log == s.log + more && SilentOn(more, t)
  {
    var z := StepOf(s, u, c).value;
    OnlyMover(s, u, c);
    LogGrowth(s, u, c);
    more := z.log[|s.log|..];
    OneEventSilent(z.log, |s.log|, t);
  }

  lemma OneEventSilent(log: seq<Event>, n: nat, t: Tid)
    requires n <= |log| <= n + 1 && (|log| > n && log[n].Verified? ==> log[n].t != t)
    ensures SilentOn(log[n..], t)
  {
  }

  lemma OthersAsRead(s: Sys, z: Sys, t: Tid, profile: Option<UsageProfile>, req: Request, more: seq<Event>)
    requires StandsAsRead(s, t, profile, req) && t < |z.threads| && z.threads[t] == s.threads[t]
    requires z.log == s.log + more && SilentOn(more, t)
    ensures StandsAsRead(z, t, profile, req)
  {
    LogGrows(s.log, more, t, profile, req);
  }

  /** A request that has only arrived has decided nothing. */
  lemma ReadStep(s: Sys, t: Tid, req: Request, c: Choice)
    requires AllRecorded(s) && t < |s.threads| && s.threads[t] == Call(req, Arrived)
    ensures StepOf(s, t, c).Some? && StandsAsRead(StepOf(s, t, c).value, t, ProfileOf(s, req.pubkey), req)
  {
    ReadMove(s, req);
    assert Recorded(s, t);
    NoDecision(s.log, t);
    assert s.log + [] == s.log;
  }

  lemma {:induction false} NoDecision(log: seq<Event>, t: Tid)
    requires DecisionsOf(log, t) == []
    ensures SilentOn(log, t)
    decreases |log|
  {
    if log == [] {
    } else {
      NoDecision(log[..|log| - 1], t);
      assert log == log[..|log| - 1] + [log[|log| - 1]];
    }
  }

  lemma {:induction false} StandsFromRead(s: Sys, run: Schedule, t: Tid, req: Request,
                                          profile: Option<UsageProfile>, j: nat)
    requires Initial(s) && After(s, run).Some? && j < |run| && ReadsAt(s, run, t, req, profile, j)
    ensures StandsAsRead(After(s, run).value, t, profile, req)
    decreases |run|
  {
    var n := |run| - 1;
    var mid := After(s, run[..n]).value;
    if j == n {
      RunRecorded(s, run[..n]);
      ReadStep(mid, t, req, run[n].1);
    } else {
      assert run[..n][..j] == run[..j];
      StandsFromRead(s, run[..n], t, req, profile, j);
      RunShape(s, run[..n]);
      if run[n].0 == t {
        OwnAsRead(mid, t, run[n].1, profile, req);
      } else {
        var more := OthersSilent(mid, run[n].0, run[n].1, t);
        OthersAsRead(mid, After(s, run).value, t, profile, req, more);
      }
    }
  }

  // ---------- the theorems ----------

  /** In every schedule, from the move on by which a request reads its profile: it is
      unauthorized exactly without one, and denied access exactly if the profile forbids
      the verb; otherwise its plan is, and its decision was about, exactly what it owes
      by that profile. */
  lemma AnsweredAsRead(s: Sys, run: Schedule, z: Sys, t: Tid, req: Request, profile: Option<UsageProfile>, j: nat)
    requires ReachedBy(s, run, z) && j < |run| && ReadsAt(s, run, t, req, profile, j)
    ensures t < |z.threads| && z.threads[t].Call? && z.threads[t].req == req
    ensures z.threads[t].phase == Denied(Unauthorized) <==> profile.None?
    ensures z.threads[t].phase == Denied(AccessDenied) <==> profile.Some? && Forbids(profile.value, req.verb)
    ensures z.threads[t].phase == Denied(MissingState(AccessRate)) ==>
              profile.Some? && Limited(profile.value, req.verb)
    ensures z.threads[t].phase == Denied(MissingState(Quota)) ==>
              profile.Some? && req.spendMsat > 0 && profile.value.quota.Some?
    ensures HasPlan(z.threads[t].phase) ==>
              profile.Some? && Charged(profile.value, req, Charges(z.threads[t].phase.plan.updates))
    ensures forall e :: e in z.log && e.Verified? && e.t == t ==>
              profile.Some? && Charged(profile.value, req, Charges(e.plan.updates))
  {
    StandsFromRead(s, run, t, req, profile, j);
    assert DecidedAsRead(z.log, t, profile, req);
  }

  /** The request of thread `t` has read a profile. */
  ghost predicate Read(s: Sys, run: Schedule, t: Tid, req: Request) {
    exists j, profile :: 0 <= j < |run| && ReadsAt(s, run, t, req, profile, j)
  }

  lemma ReadMore(s: Sys, run: Schedule, t: Tid, req: Request)
    requires run != [] && Read(s, run[..|run| - 1], t, req)
    ensures Read(s, run, t, req)
  {
    var init := run[..|run| - 1];
    var j, profile :| 0 <= j < |init| && ReadsAt(s, init, t, req, profile, j);
    assert init[..j] == run[..j];
    assert ReadsAt(s, run, t, req, profile, j);
  }

  /** A request that is under way has read its profile. */
  lemma {:induction false} HasRead(s: Sys, run: Schedule, z: Sys, t: Tid)
    requires ReachedBy(s, run, z) && t < |z.threads| && z.threads[t].Call? && !z.threads[t].phase.Arrived?
    ensures Read(s, run, t, z.threads[t].req)
    decreases |run|
  {
    if run == [] {
    } else {
      var n := |run| - 1;
      var mid := After(s, run[..n]).value;
      OnlyMover(mid, run[n].0, run[n].1);
      LogGrowth(mid, run[n].0, run[n].1);
      if run[n].0 == t && mid.threads[t].phase.Arrived? {
        assert ReadsAt(s, run, t, z.threads[t].req, ProfileOf(mid, z.threads[t].req.pubkey), n);
      } else {
        HasRead(s, run[..n], mid, t);
        ReadMore(s, run, t, z.threads[t].req);
      }
    }
  }
}
