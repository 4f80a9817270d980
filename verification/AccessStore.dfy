/** The process-wide stores as one object: the two counter maps and the profile
    map, and the reset service that rewrites them. */
module AccessStore {
  import opened Words
  import opened RateStates
  import opened AccessKeys
  import opened Profiles

  /** A planned debit and the counter it is for. */
  datatype StateUpdate = StateUpdate(key: AccessKey, rule: RateLimitRule, amount: u64, context: Context,
                                     state: RateState)

  /** How a request ends after its access check. `NotRun` stands for the paths that
      return without executing: subscription, missing handler, failed validation. */
  datatype Execution = NotRun | Succeeded | Failed

  type Counters = map<AccessKey, RateState>

  // ---------- agreement of profiles and counters ----------

  /** Method counters exist for exactly the methods whose own rule has a rate. */
  ghost predicate RatesAgree(rates: Counters, profiles: map<string, UsageProfile>) {
    && (forall k :: k in rates ==> k.MethodKey?)
    && (forall p, v :: MethodKey(p, v) in rates <==> p in profiles && HasRate(profiles[p], v))
  }

  /** Quota counters exist for exactly the profiles with a quota. */
  ghost predicate QuotasAgree(quotas: Counters, profiles: map<string, UsageProfile>) {
    && (forall k :: k in quotas ==> k.QuotaKey?)
    && (forall p :: QuotaKey(p) in quotas <==> p in profiles && HasQuota(profiles[p]))
  }

  ghost predicate Injective(m: Counters) {
    forall k, l :: k in m && l in m && k != l ==> m[k] != m[l]
  }

  ghost predicate Disjoint(a: Counters, b: Counters) {
    forall k, l :: k in a && l in b ==> a[k] != b[l]
  }

  /** `after` has besides `before` exactly the method keys of `target` for the
      methods in `done` that have a rate. */
  ghost predicate RatesAdded(before: Counters, after: Counters, target: string, profile: UsageProfile,
                              done: set<Method>) {
    && (forall k :: k in before ==> k in after && after[k] == before[k])
    && (forall k :: k in after && k !in before ==>
          k.MethodKey? && k.pubkey == target && k.verb in done && HasRate(profile, k.verb))
    && (forall v :: v in done && HasRate(profile, v) ==> MethodKey(target, v) in after)
  }

  function WithoutPubkey(m: Counters, pubkey: string): Counters {
    map k | k in m && k.pubkey != pubkey :: m[k]
  }

  lemma RatesAddedStep(before: Counters, mid: Counters, after: Counters, target: string, profile: UsageProfile,
                       done: set<Method>, v: Method)
    requires RatesAdded(before, mid, target, profile, done)
    requires if HasRate(profile, v)
             then && MethodKey(target, v) !in before && MethodKey(target, v) in after
                  && after - {MethodKey(target, v)} == mid - {MethodKey(target, v)}
             else after == mid
    ensures RatesAdded(before, after, target, profile, done + {v})
  {
    if HasRate(profile, v) {
      var key := MethodKey(target, v);
      forall k | k != key
        ensures (k in after <==> k in mid) && (k in mid ==> after[k] == mid[k])
      {
        assert k in after - {key} <==> k in mid - {key};
        if k in mid {
          assert (after - {key})[k] == after[k] && (mid - {key})[k] == mid[k];
        }
      }
    }
  }

  lemma ResetRatesAgree(previous: Counters, after: Counters, profiles: map<string, UsageProfile>,
                        target: string, profile: UsageProfile)
    requires RatesAgree(previous, profiles)
    requires RatesAdded(WithoutPubkey(previous, target), after, target, profile, MethodsOf(profile))
    ensures RatesAgree(after, profiles[target := profile])
  {
    var before, now := WithoutPubkey(previous, target), profiles[target := profile];
    forall p, v
      ensures MethodKey(p, v) in after <==> p in now && HasRate(now[p], v)
    {
      if p != target {
        assert MethodKey(p, v) in before <==> MethodKey(p, v) in previous;
      } else {
        assert MethodKey(p, v) !in before;
      }
    }
  }

  /** `after` has besides `before` at most the quota key of `target`. */
  ghost predicate QuotaAdded(before: Counters, after: Counters, target: string, profile: UsageProfile) {
    && (forall k :: k in before ==> k in after && after[k] == before[k])
    && (forall k :: k in after && k !in before ==> k == QuotaKey(target) && HasQuota(profile))
    && (HasQuota(profile) ==> QuotaKey(target) in after)
  }

  lemma ResetQuotasAgree(previous: Counters, after: Counters, profiles: map<string, UsageProfile>,
                         target: string, profile: UsageProfile)
    requires QuotasAgree(previous, profiles)
    requires QuotaAdded(WithoutPubkey(previous, target), after, target, profile)
    ensures QuotasAgree(after, profiles[target := profile])
  {
    var before, now := WithoutPubkey(previous, target), profiles[target := profile];
    forall p
      ensures QuotaKey(p) in after <==> p in now && HasQuota(now[p])
    {
      if p != target {
        assert QuotaKey(p) in before <==> QuotaKey(p) in previous;
      } else {
        assert QuotaKey(p) !in before;
      }
    }
  }

  class Controller {
    var accessRate: Counters
    var quota: Counters
    var profiles: map<string, UsageProfile>

    ghost predicate Structure()
      reads this
    {
      && RatesAgree(accessRate, profiles) && QuotasAgree(quota, profiles)
      && Injective(accessRate) && Injective(quota) && Disjoint(accessRate, quota)
    }

    /** Profiles and counters agree, no counter serves two keys, and every balance
        is between 0 and the capacity of its rule. */
    ghost predicate Valid()
      reads this, accessRate.Values, quota.Values
    {
      && Structure()
      && (forall k :: k in accessRate ==> InRange(accessRate[k].View(), RateOf(profiles[k.pubkey], k.verb)))
      && (forall k :: k in quota ==> InRange(quota[k].View(), profiles[k.pubkey].quota.value))
    }

    constructor ()
      ensures Valid() && profiles == map[] && accessRate == map[] && quota == map[]
    {
      accessRate, quota, profiles := map[], map[], map[];
    }

    // ---------- the counter maps ----------

    method InsertAccessRateState(key: AccessKey, counter: Counter) returns (handle: RateState)
      modifies this`accessRate
      ensures fresh(handle) && handle.View() == counter && accessRate == old(accessRate)[key := handle]
    {
      handle := new RateState(counter.balance, counter.lastRefill);
      accessRate := accessRate[key := handle];
    }

    method InsertQuotaState(key: AccessKey, counter: Counter) returns (handle: RateState)
      modifies this`quota
      ensures fresh(handle) && handle.View() == counter && quota == old(quota)[key := handle]
    {
      handle := new RateState(counter.balance, counter.lastRefill);
      quota := quota[key := handle];
    }

    /** Afterwards no key of the pubkey is left, and every other key has its object. */
    method ClearStatesForPubkey(pubkey: string)
      modifies this`accessRate, this`quota
      ensures forall k :: k in accessRate <==> k in old(accessRate) && k.pubkey != pubkey
      ensures forall k :: k in quota <==> k in old(quota) && k.pubkey != pubkey
      ensures forall k :: k in accessRate ==> accessRate[k] == old(accessRate)[k]
      ensures forall k :: k in quota ==> quota[k] == old(quota)[k]
    {
      accessRate := map k | k in accessRate && k.pubkey != pubkey :: accessRate[k];
      quota := map k | k in quota && k.pubkey != pubkey :: quota[k];
    }

    // ---------- the reset service ----------

    ghost predicate FullRates(before: Counters, profile: UsageProfile, now: u64)
      requires forall k :: k in accessRate && k !in before ==> k.MethodKey? && HasRate(profile, k.verb)
      reads this, accessRate.Values
    {
      forall k :: k in accessRate && k !in before ==>
        accessRate[k].View() == Counter(RateOf(profile, k.verb).maxCapacity, now)
    }

    /** The body of the loop over the methods of a profile. */
    method InitializeRate(target: string, profile: UsageProfile, v: Method, now: u64)
      requires profile.methods.Some? && v in profile.methods.value
      requires Injective(accessRate) && Disjoint(accessRate, quota)
      modifies this`accessRate
      ensures Injective(accessRate) && Disjoint(accessRate, quota)
      ensures !HasRate(profile, v) ==> accessRate == old(accessRate)
      ensures HasRate(profile, v) ==>
                && MethodKey(target, v) in accessRate
                && accessRate == old(accessRate)[MethodKey(target, v) := accessRate[MethodKey(target, v)]]
                && fresh(accessRate[MethodKey(target, v)])
                && accessRate[MethodKey(target, v)].View() == Counter(RateOf(profile, v).maxCapacity, now)
    {
      var rule := profile.methods.value[v].accessRate;
      if rule.Some? {
        var counter := FromRule(now, rule.value);
        if counter.Ok? {
          var handle := InsertAccessRateState(MethodKey(target, v), counter.value);
        }
      }
    }

    method InitializeRates(target: string, profile: UsageProfile, now: u64)
      requires forall k :: k in accessRate ==> k.pubkey != target
      requires Injective(accessRate) && Disjoint(accessRate, quota)
      modifies this`accessRate
      ensures RatesAdded(old(accessRate), accessRate, target, profile, MethodsOf(profile))
      ensures FullRates(old(accessRate), profile, now)
      ensures Injective(accessRate) && Disjoint(accessRate, quota)
      ensures forall k :: k in accessRate && k !in old(accessRate) ==> fresh(accessRate[k])
    {
      if profile.methods.Some? {
        var methods := profile.methods.value;
        var todo := methods.Keys;
        while todo != {}
          invariant todo <= methods.Keys
          invariant RatesAdded(old(accessRate), accessRate, target, profile, methods.Keys - todo)
          invariant FullRates(old(accessRate), profile, now)
          invariant Injective(accessRate) && Disjoint(accessRate, quota)
          invariant forall k :: k in accessRate && k !in old(accessRate) ==> fresh(accessRate[k])
          decreases |todo|
        {
          var v :| v in todo;
          ghost var mid := accessRate;
          InitializeRate(target, profile, v, now);
          RatesAddedStep(old(accessRate), mid, accessRate, target, profile, methods.Keys - todo, v);
          assert methods.Keys - (todo - {v}) == (methods.Keys - todo) + {v};
          todo := todo - {v};
        }
        assert methods.Keys - todo == methods.Keys;
      }
    }

    method InitializeQuota(target: string, profile: UsageProfile, now: u64)
      requires QuotaKey(target) !in quota && Injective(quota) && Disjoint(accessRate, quota)
      modifies this`quota
      ensures QuotaAdded(old(quota), quota, target, profile) && Injective(quota) && Disjoint(accessRate, quota)
      ensures HasQuota(profile) ==>
                && fresh(quota[QuotaKey(target)])
                && quota[QuotaKey(target)].View() == Counter(profile.quota.value.maxCapacity, now)
    {
      if profile.quota.Some? {
        var counter := FromRule(now, profile.quota.value);
        if counter.Ok? {
          var handle := InsertQuotaState(QuotaKey(target), counter.value);
        }
      }
    }

    /** The two counter halves of an upsert: drop everything of `target`, then
        create one full counter for each of its rules. */
    method ResetStates(target: string, profile: UsageProfile, now: u64)
      requires Structure()
      modifies this`accessRate, this`quota
      ensures RatesAdded(WithoutPubkey(old(accessRate), target), accessRate, target, profile, MethodsOf(profile))
      ensures QuotaAdded(WithoutPubkey(old(quota), target), quota, target, profile)
      ensures Injective(accessRate) && Injective(quota) && Disjoint(accessRate, quota)
      ensures forall k :: k in accessRate && k.pubkey == target ==>
                k.MethodKey? && HasRate(profile, k.verb) &&
                fresh(accessRate[k]) && accessRate[k].View() == Counter(RateOf(profile, k.verb).maxCapacity, now)
      ensures forall k :: k in quota && k.pubkey == target ==>
                HasQuota(profile) && fresh(quota[k]) && quota[k].View() == Counter(profile.quota.value.maxCapacity, now)
    {
      ClearStatesForPubkey(target);
      ghost var rates, quotas := accessRate, quota;
      assert rates == WithoutPubkey(old(accessRate), target) && quotas == WithoutPubkey(old(quota), target);
      InitializeRates(target, profile, now);
      assert forall k :: k in accessRate && k.pubkey == target ==> k !in rates;
      InitializeQuota(target, profile, now);
      assert forall k :: k in quota && k.pubkey == target ==> k !in quotas;
    }

    /** Resets the counters of `target` and stores its profile: the counters are
        new objects at full capacity, one for each rule; the counters of every
        other pubkey are the same objects, and no existing counter is written. */
    method UpsertUsageProfileAndResetStates(target: string, profile: UsageProfile, now: u64)
      requires Valid()
      modifies this
      ensures Valid() && profiles == old(profiles)[target := profile]
      ensures RatesAdded(WithoutPubkey(old(accessRate), target), accessRate, target, profile, MethodsOf(profile))
      ensures QuotaAdded(WithoutPubkey(old(quota), target), quota, target, profile)
      ensures forall k :: k in accessRate && k.pubkey == target ==>
                fresh(accessRate[k]) && accessRate[k].View() == Counter(RateOf(profile, k.verb).maxCapacity, now)
      ensures forall k :: k in quota && k.pubkey == target ==>
                fresh(quota[k]) && quota[k].View() == Counter(profile.quota.value.maxCapacity, now)
    {
      ResetStates(target, profile, now);
      ResetRatesAgree(old(accessRate), accessRate, profiles, target, profile);
      ResetQuotasAgree(old(quota), quota, profiles, target, profile);
      profiles := profiles[target := profile];
      forall k | k in accessRate
        ensures InRange(accessRate[k].View(), RateOf(profiles[k.pubkey], k.verb))
      {
        if k.pubkey != target {
          assert k in WithoutPubkey(old(accessRate), target) && accessRate[k] == old(accessRate)[k];
        }
      }
      forall k | k in quota
        ensures InRange(quota[k].View(), profiles[k.pubkey].quota.value)
      {
        if k.pubkey != target {
          assert k in WithoutPubkey(old(quota), target) && quota[k] == old(quota)[k];
        }
      }
    }

    method ClearAllUsageProfilesAndStates()
      modifies this
      ensures Valid() && profiles == map[] && accessRate == map[] && quota == map[]
    {
      profiles := map[];
      accessRate := map[];
      quota := map[];
    }
  }
}
