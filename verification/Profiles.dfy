/** Usage profiles, the rule a request falls under, and the updates it plans. */
module Profiles {
  import opened Wrappers
  import opened Words
  import opened RateStates
  import opened AccessKeys

  datatype MethodAccessRule = MethodAccessRule(accessRate: Option<RateLimitRule>)

  datatype UsageProfile = UsageProfile(quota: Option<RateLimitRule>,
                                       methods: Option<map<Method, MethodAccessRule>>)

  /** A decrypted request: who calls what, and the amount it would spend in msat
      (0 for a request that spends nothing). */
  datatype Request = Request(pubkey: string, verb: Method, spendMsat: u64)

  datatype Context = AccessRate | Quota

  datatype Denial =
    | Unauthorized
    | AccessDenied
    | MissingState(context: Context)
    | Refused(error: RateStateError, context: Context)

  /** What one call costs on the access-rate counter. */
  const CALL_COST: u64 := 1_000_000

  /** The rule for a method: its own entry, else the `ALL` entry; no method table
      at all means no restriction, an empty one denies everything. */
  function MethodRule(profile: UsageProfile, verb: Method): Result<Option<RateLimitRule>, Denial> {
    match profile.methods
    case None => Ok(None)
    case Some(methods) =>
      if methods == map[] then Err(AccessDenied)
      else if verb in methods then Ok(methods[verb].accessRate)
      else if ALL in methods then Ok(methods[ALL].accessRate)
      else Err(AccessDenied)
  }

  // ---------- what a profile says, field by field ----------

  /** The profile has a method table, and neither the verb nor `ALL` stands in it. */
  predicate Forbids(profile: UsageProfile, verb: Method) {
    profile.methods.Some? &&
    (profile.methods.value == map[] ||
     (verb !in profile.methods.value && Unknown("ALL") !in profile.methods.value))
  }

  /** The rate rule for a verb: that of its own entry, or without one of the entry
      for `ALL`. */
  predicate Governs(profile: UsageProfile, verb: Method, rule: RateLimitRule) {
    && profile.methods.Some?
    && var methods := profile.methods.value;
       || (verb in methods && methods[verb] == MethodAccessRule(Some(rule)))
       || (verb !in methods && Unknown("ALL") in methods && methods[Unknown("ALL")] == MethodAccessRule(Some(rule)))
  }

  /** Some rate rule applies to the verb. */
  ghost predicate Limited(profile: UsageProfile, verb: Method) {
    exists rule :: Governs(profile, verb, rule)
  }

  /** A verb is denied exactly if the profile forbids it, and otherwise falls under
      the rule that governs it, if one does. */
  lemma MethodRuleMeans(profile: UsageProfile, verb: Method)
    ensures MethodRule(profile, verb) == Err(AccessDenied) <==> Forbids(profile, verb)
    ensures MethodRule(profile, verb).Ok? <==> !Forbids(profile, verb)
    ensures forall rule :: MethodRule(profile, verb) == Ok(Some(rule)) <==> Governs(profile, verb, rule)
    ensures Limited(profile, verb) <==> MethodRule(profile, verb).Ok? && MethodRule(profile, verb).value.Some?
  {
    if MethodRule(profile, verb).Ok? && MethodRule(profile, verb).value.Some? {
      assert Governs(profile, verb, MethodRule(profile, verb).value.value);
    }
  }

  /** What an update takes, apart from the counter it takes it from. */
  datatype Charge = Charge(key: AccessKey, rule: RateLimitRule, amount: u64, context: Context)

  /** A request owes a million to the rate that governs its verb, and what it spends
      to the quota. */
  predicate Owes(profile: UsageProfile, req: Request, c: Charge) {
    || (&& Governs(profile, req.verb, c.rule)
        && c == Charge(MethodKey(req.pubkey, req.verb), c.rule, 1_000_000, AccessRate))
    || (&& req.spendMsat > 0 && profile.quota == Some(c.rule)
        && c == Charge(QuotaKey(req.pubkey), c.rule, req.spendMsat, Quota))
  }

  /** Exactly what the request owes, each charge once, the rate before the quota. */
  ghost predicate Charged(profile: UsageProfile, req: Request, cs: seq<Charge>) {
    && (forall c :: c in cs <==> Owes(profile, req, c))
    && (forall i, j :: 0 <= i < j < |cs| ==> cs[i].key.MethodKey? && cs[j].key.QuotaKey?)
  }

  /** The one charge of a rate, if a rate governs the request. */
  ghost predicate RateCharged(profile: UsageProfile, req: Request, cs: seq<Charge>) {
    && |cs| <= 1
    && forall c :: c in cs <==>
         Governs(profile, req.verb, c.rule) &&
         c == Charge(MethodKey(req.pubkey, req.verb), c.rule, 1_000_000, AccessRate)
  }

  /** With the charge of the quota, if there is one, it is all that is owed. */
  lemma ChargesJoin(profile: UsageProfile, req: Request, a: seq<Charge>, b: seq<Charge>)
    requires RateCharged(profile, req, a)
    requires b == if req.spendMsat > 0 && profile.quota.Some?
                  then [Charge(QuotaKey(req.pubkey), profile.quota.value, req.spendMsat, Quota)] else []
    ensures Charged(profile, req, a + b)
  {
    if |a + b| == 2 {
      assert a[0] in a && (a + b)[0] == a[0] && (a + b)[1] == b[0];
    }
  }

  /** The rules for which an upsert creates counters: the parser admits no
      negative capacity, and the constructor would refuse one. */
  predicate HasRate(profile: UsageProfile, verb: Method) {
    && profile.methods.Some? && verb in profile.methods.value
    && profile.methods.value[verb].accessRate.Some?
    && profile.methods.value[verb].accessRate.value.maxCapacity >= 0
  }

  /** The methods an upsert iterates over. */
  function MethodsOf(profile: UsageProfile): set<Method> {
    if profile.methods.Some? then profile.methods.value.Keys else {}
  }

  predicate HasQuota(profile: UsageProfile) {
    profile.quota.Some? && profile.quota.value.maxCapacity >= 0
  }

  function RateOf(profile: UsageProfile, verb: Method): RateLimitRule
    requires HasRate(profile, verb)
  {
    profile.methods.value[verb].accessRate.value
  }
}
