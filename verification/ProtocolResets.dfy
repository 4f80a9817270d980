/** Resets in the concurrent system: which reset an entry of the maps belongs to,
    and exactly when profiles and counters agree. */
module ProtocolResets {
  import opened Wrappers
  import opened Words
  import opened RateStates
  import opened AccessKeys
  import opened Profiles
  import opened Protocol
  import opened ProtocolLocks
  import opened ProtocolSerial

  // ---------- what profiles prescribe and what the maps hold ----------

  /** The rule a profile wants a counter for under a key; no profile wants none. */
  function Prescribed(profile: Option<UsageProfile>, k: AccessKey): Option<RateLimitRule> {
    if profile.None? then None
    else match k
      case MethodKey(_, v) => if HasRate(profile.value, v) then Some(RateOf(profile.value, v)) else None
      case QuotaKey(_) => if HasQuota(profile.value) then profile.value.quota else None
  }

  function MapFor(s: Sys, k: AccessKey): map<AccessKey, Handle> {
    if k.MethodKey? then s.rates else s.quotas
  }

  /** The counter a request would fetch for a key. */
  function Current(s: Sys, k: AccessKey): Option<Handle> {
    if k in MapFor(s, k) then Some(MapFor(s, k)[k]) else None
  }

  /** The rule that counter was created from. */
  function Stored(s: Sys, k: AccessKey): Option<RateLimitRule> {
    match Current(s, k)
    case None => None
    case Some(h) => if h < |s.cells| then Some(s.cells[h].born) else None
  }

  function ProfileOf(s: Sys, p: string): Option<UsageProfile> {
    if p in s.profiles then Some(s.profiles[p]) else None
  }

  /** The counters of `p` are those its profile prescribes, each born from its own
      rule; without a profile there are none. */
  ghost predicate Agrees(s: Sys, p: string) {
    forall k: AccessKey :: k.pubkey == p ==> Stored(s, k) == Prescribed(ProfileOf(s, p), k)
  }

  // ---------- who wrote what last ----------

  /** A step of the thread decides what the maps hold for `k`. */
  predicate WritesKey(thread: Thread, c: Choice, k: AccessKey) {
    match thread
    case Call(_, _) => false
    case Upsert(target, profile, stage) =>
      k.pubkey == target &&
      (match stage
       case DropRates => k.MethodKey?
       case DropQuota => k.QuotaKey?
       case InsertRates(_, todo) => k.MethodKey? && k.verb in todo && k.verb == c.verb && HasRate(profile, c.verb)
       case InsertQuota(_) => k.QuotaKey? && HasQuota(profile)
       case _ => false)
    case Clear(at) => if k.MethodKey? then at == ClearRates else at == ClearQuotas
  }

  /** A step of the thread decides the stored profile of `p`. */
  predicate WritesProfile(thread: Thread, p: string) {
    match thread
    case Call(_, _) => false
    case Upsert(target, _, stage) => target == p && stage == Publish
    case Clear(at) => at == ClearProfiles
  }

  /** The thread that last wrote the entry of `k` in the schedule. */
  function LastWriter(s: Sys, run: Schedule, k: AccessKey): Option<Tid> {
    if run == [] then None
    else
      var n := |run| - 1;
      var mid, t := After(s, run[..n]), run[n].0;
      if mid.Some? && t < |mid.value.threads| && WritesKey(mid.value.threads[t], run[n].1, k) then Some(t)
      else LastWriter(s, run[..n], k)
  }

  /** The thread that last stored or cleared the profile of `p`. */
  function LastPublisher(s: Sys, run: Schedule, p: string): Option<Tid> {
    if run == [] then None
    else
      var n := |run| - 1;
      var mid, t := After(s, run[..n]), run[n].0;
      if mid.Some? && t < |mid.value.threads| && WritesProfile(mid.value.threads[t], p) then Some(t)
      else LastPublisher(s, run[..n], p)
  }

  /** The upsert has dropped, or will drop, the entry of `k` and not written it again. */
  predicate Pending(stage: Stage, k: AccessKey) {
    match stage
    case DropRates => true
    case DropQuota => true
    case InsertRates(_, todo) => k.QuotaKey? || k.verb in todo
    case InsertQuota(_) => k.QuotaKey?
    case _ => false
  }

  /** What a thread that wrote `k` last has left there. */
  function Leaves(thread: Thread, k: AccessKey): Option<RateLimitRule> {
    match thread
    case Upsert(_, profile, stage) => if Pending(stage, k) then None else Prescribed(Some(profile), k)
    case _ => None
  }

  /** A reset of the pubkey of `k` that has begun. */
  predicate Begun(thread: Thread, p: string) {
    match thread
    case Call(_, _) => false
    case Upsert(target, _, stage) => target == p && stage != DropRates
    case Clear(at) => at != ClearProfiles
  }

  /** What a step that writes the entry of `k` puts there. */
  function Put(thread: Thread, k: AccessKey): Option<RateLimitRule> {
    match thread
    case Upsert(_, profile, stage) =>
      if stage.InsertRates? || stage.InsertQuota? then Prescribed(Some(profile), k) else None
    case _ => None
  }

  /** Entries move only by a write, which removes one or makes a new counter for it. */
  ghost predicate EntryStep(s: Sys, s': Sys, k: AccessKey, writes: bool, put: Option<RateLimitRule>) {
    && Stored(s', k) == (if writes then put else Stored(s, k))
    && (!writes ==> Current(s', k) == Current(s, k))
    && (writes && Current(s', k).Some? ==> Current(s', k).value == |s.cells|)
  }

  lemma CreateEntry(s: Sys, key: AccessKey, rule: RateLimitRule, now: u64, k: AccessKey)
    requires MapsOk(s) && rule.maxCapacity >= 0
    ensures EntryStep(s, Create(s, key, rule, now), k, k == key, Some(rule))
  {
    var s' := Create(s, key, rule, now);
    assert forall h :: 0 <= h < |s.cells| ==> s'.cells[h] == s.cells[h];
  }

  lemma InsertEntry(s: Sys, t: Tid, c: Choice, k: AccessKey)
    requires MapsOk(s) && t < |s.threads| && s.threads[t].Upsert? && UpsertStep(s, t, c).Some?
    requires s.threads[t].stage.InsertRates? || s.threads[t].stage.InsertQuota?
    ensures EntryStep(s, UpsertStep(s, t, c).value, k, WritesKey(s.threads[t], c, k), Put(s.threads[t], k))
  {
    var Upsert(target, profile, stage) := s.threads[t];
    match stage
    case InsertRates(now, todo) =>
      if todo != {} && HasRate(profile, c.verb) {
        var next := WithStage(s, t, InsertRates(now, todo - {c.verb}));
        CreateEntry(next, MethodKey(target, c.verb), RateOf(profile, c.verb), now, k);
        assert Stored(next, k) == Stored(s, k);
      }
    case InsertQuota(now) =>
      if HasQuota(profile) {
        var next := WithStage(s, t, Publish);
        CreateEntry(next, QuotaKey(target), profile.quota.value, now, k);
        assert Stored(next, k) == Stored(s, k);
      }
    case _ =>
  }

  lemma OtherEntry(s: Sys, t: Tid, c: Choice, k: AccessKey)
    requires t < |s.threads| && s.threads[t].Upsert? && UpsertStep(s, t, c).Some?
    requires !s.threads[t].stage.InsertRates? && !s.threads[t].stage.InsertQuota?
    ensures EntryStep(s, UpsertStep(s, t, c).value, k, WritesKey(s.threads[t], c, k), Put(s.threads[t], k))
  {
  }

  lemma CallEntry(s: Sys, t: Tid, m: Move, k: AccessKey)
    requires t < |s.threads| && s.threads[t].Call?
    ensures EntryStep(s, CallStep(s, t, m), k, false, None)
  {
    AffectGrows(s, t, m);
  }

  /** A step writes the entry of `k` exactly if `WritesKey` says so. */
  lemma StepEntry(s: Sys, t: Tid, c: Choice, k: AccessKey)
    requires MapsOk(s) && StepOf(s, t, c).Some?
    ensures EntryStep(s, StepOf(s, t, c).value, k, WritesKey(s.threads[t], c, k), Put(s.threads[t], k))
  {
    match s.threads[t]
    case Call(req, p) => CallEntry(s, t, CallMove(s, t, req, p, c).value, k);
    case Upsert(_, _, stage) =>
      if stage.InsertRates? || stage.InsertQuota? {
        InsertEntry(s, t, c, k);
      } else {
        OtherEntry(s, t, c, k);
      }
    case Clear(_) =>
  }

  /** A write leaves the thread's own rule behind, and no other step of a reset
      changes what it has left. */
  lemma LeavesStep(thread: Thread, c: Choice, k: AccessKey)
    requires CanAdvance(thread, c)
    ensures var thread' := NextThread(thread, c);
            && (WritesKey(thread, c, k) ==> Leaves(thread', k) == Put(thread, k) && Begun(thread', k.pubkey))
            && (!WritesKey(thread, c, k) && Begun(thread, k.pubkey) ==>
                  Leaves(thread', k) == Leaves(thread, k) && Begun(thread', k.pubkey))
  {
  }

  /** What the last writer of `k` left is what the maps hold. */
  ghost predicate WrittenBy(z: Sys, k: AccessKey, writer: Option<Tid>, before: Option<RateLimitRule>) {
    match writer
    case None => Stored(z, k) == before
    case Some(w) => w < |z.threads| && Begun(z.threads[w], k.pubkey) && Stored(z, k) == Leaves(z.threads[w], k)
  }

  lemma WriterStep(s: Sys, t: Tid, c: Choice, k: AccessKey, writer: Option<Tid>, before: Option<RateLimitRule>)
    requires Shape(s) && StepOf(s, t, c).Some? && WrittenBy(s, k, writer, before)
    ensures WrittenBy(StepOf(s, t, c).value, k, if WritesKey(s.threads[t], c, k) then Some(t) else writer, before)
  {
    StepSpares(s, t, c);
    StepEntry(s, t, c, k);
    if !s.threads[t].Call? {
      ResetAdvances(s, t, c);
      LeavesStep(s.threads[t], c, k);
    }
  }

  /** In every schedule an entry holds what its last writer left there. */
  lemma {:induction false} LastWriterDecides(s: Sys, run: Schedule, k: AccessKey)
    requires Shape(s) && After(s, run).Some?
    ensures Shape(After(s, run).value) && WrittenBy(After(s, run).value, k, LastWriter(s, run, k), Stored(s, k))
    decreases |run|
  {
    if run == [] {
    } else {
      var n := |run| - 1;
      LastWriterDecides(s, run[..n], k);
      var mid, t, c := After(s, run[..n]).value, run[n].0, run[n].1;
      StepKeepsShape(mid, t, c);
      WriterStep(mid, t, c, k, LastWriter(s, run[..n], k), Stored(s, k));
    }
  }

  /** The thread has left no entry for `k`: it is a clear, an upsert that has dropped
      the entry and not written it again, or one whose profile wants none. */
  predicate LeftNothing(thread: Thread, k: AccessKey) {
    match thread
    case Call(_, _) => true
    case Upsert(_, profile, stage) => Pending(stage, k) || Prescribed(Some(profile), k) == None
    case Clear(_) => true
  }

  /** In every schedule a counter is missing from the maps if and only if no reset has
      written its entry yet, or the one that wrote it last has left nothing there. */
  lemma MissingIff(s: Sys, run: Schedule, z: Sys, k: AccessKey)
    requires ReachedBy(s, run, z)
    ensures Current(z, k) == None <==>
            match LastWriter(s, run, k)
            case None => true
            case Some(w) => w < |z.threads| && LeftNothing(z.threads[w], k)
  {
    InitialShape(s);
    LastWriterDecides(s, run, k);
    assert Stored(z, k) == None <==> Current(z, k) == None;
  }

  /** The profile a reset stands for; a clear stands for none. */
  function GrantOf(z: Sys, writer: Option<Tid>): Option<UsageProfile> {
    if writer.Some? && writer.value < |z.threads| && z.threads[writer.value].Upsert? then
      Some(z.threads[writer.value].profile)
    else None
  }

  lemma GrantKept(s: Sys, s': Sys, t: Tid, c: Choice, w: Option<Tid>)
    requires Shape(s) && StepOf(s, t, c) == Some(s')
    ensures GrantOf(s', w) == GrantOf(s, w)
  {
    StepSpares(s, t, c);
    if !s.threads[t].Call? {
      ResetAdvances(s, t, c);
    }
  }

  lemma ProfileStep(s: Sys, t: Tid, c: Choice, p: string)
    requires StepOf(s, t, c).Some?
    ensures ProfileOf(StepOf(s, t, c).value, p) ==
            if WritesProfile(s.threads[t], p) then GrantOf(s, Some(t)) else ProfileOf(s, p)
  {
    if s.threads[t].Upsert? {
      UpsertProfiles(s, t, c);
    }
  }

  lemma UpsertProfiles(s: Sys, t: Tid, c: Choice)
    requires t < |s.threads| && s.threads[t].Upsert? && UpsertStep(s, t, c).Some?
    ensures UpsertStep(s, t, c).value.profiles ==
            if s.threads[t].stage == Publish then s.profiles[s.threads[t].target := s.threads[t].profile]
            else s.profiles
  {
  }

  lemma {:induction false} LastPublisherDecides(s: Sys, run: Schedule, p: string)
    requires Shape(s) && After(s, run).Some?
    ensures Shape(After(s, run).value)
    ensures var z, w := After(s, run).value, LastPublisher(s, run, p);
            ProfileOf(z, p) == if w.Some? then GrantOf(z, w) else ProfileOf(s, p)
    decreases |run|
  {
    if run == [] {
    } else {
      var n := |run| - 1;
      LastPublisherDecides(s, run[..n], p);
      var mid := After(s, run[..n]).value;
      StepKeepsShape(mid, run[n].0, run[n].1);
      ProfileStep(mid, run[n].0, run[n].1, p);
      GrantKept(mid, After(s, run).value, run[n].0, run[n].1, LastPublisher(s, run, p));
    }
  }

  // ---------- when profile and counters agree ----------

  /** A reset of `p` that has begun and not ended. */
  predicate InReset(thread: Thread, p: string) {
    match thread
    case Call(_, _) => false
    case Upsert(target, _, stage) => target == p && stage != DropRates && stage != Complete
    case Clear(at) => at != ClearProfiles && at != Cleared
  }

  ghost predicate AtRest(z: Sys, p: string) {
    forall t :: 0 <= t < |z.threads| ==> !InReset(z.threads[t], p)
  }

  ghost predicate SamePrescribed(s: Sys, run: Schedule, z: Sys, k: AccessKey) {
    Prescribed(GrantOf(z, LastWriter(s, run, k)), k) == Prescribed(GrantOf(z, LastPublisher(s, run, k.pubkey)), k)
  }

  /** However many upserts of a pubkey and clears overlap: once none is under way,
      its profile and counters agree if and only if, for every key, the reset that
      wrote the entry last prescribes the same rule for it as the reset that
      published last. */
  lemma AgreesIff(s: Sys, run: Schedule, z: Sys, p: string)
    requires ReachedBy(s, run, z) && AtRest(z, p)
    ensures Agrees(z, p) <==> forall k: AccessKey :: k.pubkey == p ==> SamePrescribed(s, run, z, k)
  {
    InitialShape(s);
    LastPublisherDecides(s, run, p);
    forall k: AccessKey | k.pubkey == p
      ensures Stored(z, k) == Prescribed(GrantOf(z, LastWriter(s, run, k)), k)
      ensures ProfileOf(z, p) == GrantOf(z, LastPublisher(s, run, k.pubkey))
    {
      LastWriterDecides(s, run, k);
    }
  }

  // ---------- resets that do not overlap ----------

  ghost predicate OneReset(z: Sys, p: string) {
    forall t, u :: 0 <= t < |z.threads| && 0 <= u < |z.threads| && InReset(z.threads[t], p) && InReset(z.threads[u], p)
                   ==> t == u
  }

  ghost predicate OneResetAt(s: Sys, run: Schedule, p: string, j: nat)
    requires j <= |run|
  {
    After(s, run[..j]).Some? ==> OneReset(After(s, run[..j]).value, p)
  }

  /** At no moment of the schedule are two resets of `p` under way. */
  ghost predicate ResetsApart(s: Sys, run: Schedule, p: string) {
    forall j :: 0 <= j <= |run| ==> OneResetAt(s, run, p, j)
  }

  lemma ApartPrefix(s: Sys, run: Schedule, p: string)
    requires run != [] && ResetsApart(s, run, p) && After(s, run).Some?
    ensures ResetsApart(s, run[..|run| - 1], p)
    ensures OneReset(After(s, run).value, p) && OneReset(After(s, run[..|run| - 1]).value, p)
  {
    var init := run[..|run| - 1];
    assert run[..|run|] == run;
    assert OneResetAt(s, run, p, |run|) && OneResetAt(s, run, p, |run| - 1);
    forall j | 0 <= j <= |init|
      ensures OneResetAt(s, init, p, j)
    {
      assert init[..j] == run[..j];
      assert OneResetAt(s, run, p, j);
    }
  }

  /** What a reset under way has written so far, for one key. */
  predicate Owns(thread: Thread, t: Tid, k: AccessKey, writer: Option<Tid>, publisher: Option<Tid>) {
    match thread
    case Call(_, _) => true
    case Upsert(_, _, stage) => (k.QuotaKey? && stage == DropQuota) || writer == Some(t)
    case Clear(at) => publisher == Some(t) && (k.MethodKey? && at == ClearQuotas ==> writer == Some(t))
  }

  /** One reset wrote entry and profile alike, unless it still is about to. */
  ghost predicate OneOwner(z: Sys, k: AccessKey, writer: Option<Tid>, publisher: Option<Tid>) {
    && (AtRest(z, k.pubkey) ==> writer == publisher)
    && forall t: Tid :: t < |z.threads| && InReset(z.threads[t], k.pubkey) ==>
         Owns(z.threads[t], t, k, writer, publisher)
  }

  /** A step of the only reset under way completes what it has written. */
  lemma OwnsStep(thread: Thread, t: Tid, c: Choice, k: AccessKey, writer: Option<Tid>, publisher: Option<Tid>)
    requires CanAdvance(thread, c) && (InReset(thread, k.pubkey) ==> Owns(thread, t, k, writer, publisher))
    requires InReset(thread, k.pubkey) || InReset(NextThread(thread, c), k.pubkey)
    ensures var thread' := NextThread(thread, c);
            var w := if WritesKey(thread, c, k) then Some(t) else writer;
            var p := if WritesProfile(thread, k.pubkey) then Some(t) else publisher;
            if InReset(thread', k.pubkey) then Owns(thread', t, k, w, p) else w == p
  {
  }

  lemma OwnerStep(s: Sys, t: Tid, c: Choice, k: AccessKey, writer: Option<Tid>, publisher: Option<Tid>)
    requires Shape(s) && StepOf(s, t, c).Some? && OneOwner(s, k, writer, publisher)
    requires OneReset(s, k.pubkey) && OneReset(StepOf(s, t, c).value, k.pubkey)
    ensures OneOwner(StepOf(s, t, c).value, k,
                     if WritesKey(s.threads[t], c, k) then Some(t) else writer,
                     if WritesProfile(s.threads[t], k.pubkey) then Some(t) else publisher)
  {
    var s', p := StepOf(s, t, c).value, k.pubkey;
    StepSpares(s, t, c);
    if s.threads[t].Call? {
      SameRest(s, s', t, p);
    } else {
      ResetAdvances(s, t, c);
      if InReset(s.threads[t], p) || InReset(s'.threads[t], p) {
        OthersRest(s, s', t, p);
        OwnsStep(s.threads[t], t, c, k, writer, publisher);
      } else {
        SameRest(s, s', t, p);
        QuietStep(s.threads[t], c, k);
      }
    }
  }

  lemma SameRest(s: Sys, s': Sys, t: Tid, p: string)
    requires t < |s.threads| && |s'.threads| == |s.threads| && s'.threads == s.threads[t := s'.threads[t]]
    requires InReset(s.threads[t], p) == InReset(s'.threads[t], p) == false
    ensures AtRest(s, p) <==> AtRest(s', p)
  {
    forall u | 0 <= u < |s.threads|
      ensures InReset(s.threads[u], p) <==> InReset(s'.threads[u], p)
    {
    }
  }

  /** While one reset of `p` is under way no other is. */
  lemma OthersRest(s: Sys, s': Sys, t: Tid, p: string)
    requires t < |s.threads| && |s'.threads| == |s.threads| && s'.threads == s.threads[t := s'.threads[t]]
    requires OneReset(s, p) && OneReset(s', p) && (InReset(s.threads[t], p) || InReset(s'.threads[t], p))
    ensures forall u: Tid :: u < |s.threads| && u != t ==> !InReset(s.threads[u], p) && !InReset(s'.threads[u], p)
    ensures AtRest(s, p) <==> !InReset(s.threads[t], p)
    ensures AtRest(s', p) <==> !InReset(s'.threads[t], p)
  {
    forall u: Tid | u < |s.threads| && u != t
      ensures !InReset(s.threads[u], p) && !InReset(s'.threads[u], p)
    {
      assert s'.threads[u] == s.threads[u];
    }
  }

  lemma QuietStep(thread: Thread, c: Choice, k: AccessKey)
    requires CanAdvance(thread, c) && !InReset(thread, k.pubkey) && !InReset(NextThread(thread, c), k.pubkey)
    ensures !WritesKey(thread, c, k) && !WritesProfile(thread, k.pubkey)
  {
  }

  lemma {:induction false} ApartOwner(s: Sys, run: Schedule, k: AccessKey)
    requires Initial(s) && After(s, run).Some? && ResetsApart(s, run, k.pubkey)
    ensures OneOwner(After(s, run).value, k, LastWriter(s, run, k), LastPublisher(s, run, k.pubkey))
    decreases |run|
  {
    if run == [] {
      forall t | 0 <= t < |s.threads|
        ensures !InReset(s.threads[t], k.pubkey)
      {
        assert Begins(s.threads[t]);
      }
    } else {
      var n := |run| - 1;
      ApartPrefix(s, run, k.pubkey);
      ApartOwner(s, run[..n], k);
      RunShape(s, run[..n]);
      OwnerStep(After(s, run[..n]).value, run[n].0, run[n].1, k,
                LastWriter(s, run[..n], k), LastPublisher(s, run[..n], k.pubkey));
    }
  }

  /** When the resets of a pubkey do not overlap, whatever else runs beside them,
      its profile and counters agree whenever none is under way. */
  lemma ApartSoAgrees(s: Sys, run: Schedule, z: Sys, p: string)
    requires ReachedBy(s, run, z) && ResetsApart(s, run, p) && AtRest(z, p)
    ensures Agrees(z, p)
  {
    forall k: AccessKey | k.pubkey == p
      ensures SamePrescribed(s, run, z, k)
    {
      ApartOwner(s, run, k);
    }
    AgreesIff(s, run, z, p);
  }
}
