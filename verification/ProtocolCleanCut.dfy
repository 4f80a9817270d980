/** The clean cut of a reset: requests from before it never touch the counters it
    creates, and a completed upsert leaves exactly its own counters, all of them new. */
module ProtocolCleanCut {
  import opened Wrappers
  import opened AccessKeys
  import opened Profiles
  import opened Protocol
  import opened ProtocolLocks
  import opened ProtocolSerial
  import opened ProtocolResets

  // ---------- the clean cut ----------

  function UpdatesOf(p: Phase): seq<Update> {
    if p.FetchQuota? then p.fetched else if HasPlan(p) then p.plan.updates else []
  }

  /** The request fetches no counter for `k` any more. */
  predicate DoneFetching(thread: Thread, k: AccessKey) {
    thread.Call? && (HasPlan(thread.phase) || thread.phase.Denied? || (k.MethodKey? && thread.phase.FetchQuota?))
  }

  ghost predicate Uses(thread: Thread, h: Handle) {
    thread.Call? && exists u :: u in UpdatesOf(thread.phase) && u.handle == h
  }

  /** The request is done fetching for keys like `k`, and uses no counter of that
      kind numbered `n` or more. */
  ghost predicate OldOnly(thread: Thread, k: AccessKey, n: nat) {
    && DoneFetching(thread, k)
    && forall u :: u in UpdatesOf(thread.phase) && (u.key.MethodKey? <==> k.MethodKey?) ==> u.handle < n
  }

  /** The quota update that a request in its last fetching phase adds, if any. */
  function QuotaUpdate(s: Sys, req: Request, p: Phase): seq<Update>
    requires p.FetchQuota?
  {
    var k := QuotaKey(req.pubkey);
    if req.spendMsat > 0 && p.quota.Some? && k in s.quotas then
      [Update(k, p.quota.value, req.spendMsat, Quota, s.quotas[k])]
    else []
  }

  /** Its plan is what it had fetched and that update, or it is denied. */
  lemma QuotaFetchAdds(s: Sys, req: Request, p: Phase)
    requires p.FetchQuota? && PhaseOk(s, p)
    ensures var m := FetchQuotaMove(s, req, p);
            m.phase.Denied? || m.phase == Locking(Plan(p.now, p.fetched + QuotaUpdate(s, req, p)), 0)
  {
    PlanSorted(p.fetched, QuotaUpdate(s, req, p));
    assert p.fetched + [] == p.fetched;
  }

  lemma MoveStaysOld(s: Sys, t: Tid, req: Request, p: Phase, c: Choice, k: AccessKey, n: nat)
    requires PhaseOk(s, p) && OldOnly(Call(req, p), k, n) && CallMove(s, t, req, p, c).Some?
    ensures OldOnly(Call(req, CallMove(s, t, req, p, c).value.phase), k, n)
  {
    var m := CallMove(s, t, req, p, c).value;
    if p.FetchQuota? {
      QuotaFetchAdds(s, req, p);
    } else if HasPlan(p) {
      MoveKeepsPlan(s, t, req, p, c);
    }
  }

  lemma {:induction false} OldOverRun(s: Sys, run: Schedule, t: Tid, k: AccessKey, n: nat)
    requires Shape(s) && t < |s.threads| && OldOnly(s.threads[t], k, n) && After(s, run).Some?
    ensures var z := After(s, run).value; Shape(z) && t < |z.threads| && OldOnly(z.threads[t], k, n)
    decreases |run|
  {
    if run == [] {
    } else {
      var i := |run| - 1;
      OldOverRun(s, run[..i], t, k, n);
      var mid := After(s, run[..i]).value;
      StepKeepsShape(mid, run[i].0, run[i].1);
      StepSpares(mid, run[i].0, run[i].1);
      if run[i].0 == t {
        assert ThreadOk(mid, mid.threads[t]);
        MoveStaysOld(mid, t, mid.threads[t].req, mid.threads[t].phase, run[i].1, k, n);
      }
    }
  }

  lemma NowOld(s: Sys, t: Tid, k: AccessKey)
    requires Shape(s) && t < |s.threads| && DoneFetching(s.threads[t], k)
    ensures OldOnly(s.threads[t], k, |s.cells|)
  {
    assert ThreadOk(s, s.threads[t]);
    var us := UpdatesOf(s.threads[t].phase);
    forall u | u in us
      ensures u.handle < |s.cells|
    {
      var j :| 0 <= j < |us| && us[j] == u;
      assert UpdateOk(s, us[j]);
    }
  }

  /** A step of a request touches only counters that it uses. */
  lemma TouchesUsedOnly(s: Sys, t: Tid, req: Request, p: Phase, c: Choice, h: Handle)
    requires CallMove(s, t, req, p, c).Some? && t < |s.threads| && s.threads[t] == Call(req, p)
    requires h < |s.cells| && !Uses(s.threads[t], h)
    ensures CallStep(s, t, CallMove(s, t, req, p, c).value).cells[h] == s.cells[h]
  {
    if HasPlan(p) {
      var i := if p.Refunding? then p.i else Index(p);
      if i < |p.plan.updates| {
        assert p.plan.updates[i] in UpdatesOf(p);
      }
    }
  }

  lemma UsesNamed(s: Sys, t: Tid, h: Handle) returns (u: Update)
    requires Shape(s) && t < |s.threads| && Uses(s.threads[t], h)
    ensures u in UpdatesOf(s.threads[t].phase) && u.handle == h && UpdateOk(s, u)
  {
    assert ThreadOk(s, s.threads[t]);
    var us := UpdatesOf(s.threads[t].phase);
    u :| u in us && u.handle == h;
    var j :| 0 <= j < |us| && us[j] == u;
    assert UpdateOk(s, us[j]);
  }

  /** A request that is done fetching never uses a counter created later. */
  lemma NeverUsesNew(s: Sys, after: Schedule, z: Sys, t: Tid, h: Handle)
    requires Reachable(s) && t < |s.threads| && After(s, after) == Some(z)
    requires |s.cells| <= h < |z.cells| && DoneFetching(s.threads[t], z.cells[h].key)
    ensures t < |z.threads| && !Uses(z.threads[t], h)
  {
    ReachableShape(s);
    NowOld(s, t, z.cells[h].key);
    OldOverRun(s, after, t, z.cells[h].key, |s.cells|);
    if Uses(z.threads[t], h) {
      var u := UsesNamed(z, t, h);
    }
  }

  /** After any reachable state `s`, no step of a request that was done fetching for
      a kind of counter ever changes one of that kind created later, so none that a
      later reset puts in the maps: neither debit, refund nor lock. */
  lemma CleanCut(s: Sys, after: Schedule, z: Sys, t: Tid, c: Choice, z': Sys, h: Handle)
    requires Reachable(s) && t < |s.threads|
    requires After(s, after) == Some(z) && StepOf(z, t, c) == Some(z')
    requires |s.cells| <= h < |z.cells| && DoneFetching(s.threads[t], z.cells[h].key)
    ensures h < |z'.cells| && z'.cells[h] == z.cells[h]
  {
    ReachableShape(s);
    NowOld(s, t, z.cells[h].key);
    OldOverRun(s, after, t, z.cells[h].key, |s.cells|);
    NeverUsesNew(s, after, z, t, h);
    StepSpares(z, t, c);
    TouchesUsedOnly(z, t, z.threads[t].req, z.threads[t].phase, c, h);
  }

  // ---------- what a completed upsert leaves ----------

  /** No reset that concerns the target of `t` moves in the schedule but `t`. */
  ghost predicate OnlyReset(s: Sys, run: Schedule, t: Tid)
    requires t < |s.threads| && s.threads[t].Upsert?
  {
    forall j :: 0 <= j < |run| ==> run[j].0 == t || Beside(s, run[j].0, s.threads[t].target)
  }

  /** A request, or an upsert of another pubkey. */
  predicate Beside(s: Sys, u: Tid, p: string) {
    u < |s.threads| && (s.threads[u].Call? || (s.threads[u].Upsert? && s.threads[u].target != p))
  }

  /** Which request it is, and which pubkey it resets, never changes. */
  ghost predicate SameJobs(s: Sys, z: Sys) {
    && |z.threads| == |s.threads|
    && forall u :: 0 <= u < |s.threads| ==> SameJob(s.threads[u], z.threads[u])
  }

  predicate SameJob(a: Thread, b: Thread) {
    match a
    case Call(req, _) => b.Call? && b.req == req
    case Upsert(target, profile, _) => b.Upsert? && b.target == target && b.profile == profile
    case Clear(_) => b.Clear?
  }

  lemma JobsKept(s: Sys, t: Tid, c: Choice)
    requires Shape(s) && StepOf(s, t, c).Some?
    ensures SameJobs(s, StepOf(s, t, c).value)
  {
    StepSpares(s, t, c);
    if !s.threads[t].Call? {
      ResetAdvances(s, t, c);
    }
  }

  /** How far the upsert `t`, begun in a state with `n` cells, has come with `k`. */
  ghost predicate Written(z: Sys, n: nat, t: Tid, k: AccessKey)
    requires t < |z.threads| && z.threads[t].Upsert?
  {
    var stage := z.threads[t].stage;
    && (stage != DropRates && !(k.QuotaKey? && stage == DropQuota) ==>
          Stored(z, k) == Leaves(z.threads[t], k) && (Current(z, k).Some? ==> n <= Current(z, k).value))
    && (stage == Complete ==> ProfileOf(z, k.pubkey) == Some(z.threads[t].profile))
  }

  lemma BesideWrites(s: Sys, t: Tid, c: Choice, n: nat, u: Tid, k: AccessKey)
    requires Shape(s) && StepOf(s, u, c).Some? && t < |s.threads| && s.threads[t].Upsert? && u != t
    requires k.pubkey == s.threads[t].target && Beside(s, u, k.pubkey) && Written(s, n, t, k)
    ensures var s' := StepOf(s, u, c).value; SameJobs(s, s') && Written(s', n, t, k)
  {
    JobsKept(s, u, c);
    StepSpares(s, u, c);
    StepEntry(s, u, c, k);
    ProfileStep(s, u, c, k.pubkey);
  }

  lemma OwnWrites(s: Sys, t: Tid, c: Choice, n: nat, k: AccessKey)
    requires Shape(s) && StepOf(s, t, c).Some? && t < |s.threads| && s.threads[t].Upsert? && n <= |s.cells|
    requires k.pubkey == s.threads[t].target && Written(s, n, t, k)
    ensures var s' := StepOf(s, t, c).value; SameJobs(s, s') && Written(s', n, t, k)
  {
    JobsKept(s, t, c);
    ResetAdvances(s, t, c);
    StepEntry(s, t, c, k);
    ProfileStep(s, t, c, k.pubkey);
    LeavesStep(s.threads[t], c, k);
  }

  lemma {:induction false} WrittenOverRun(s: Sys, run: Schedule, t: Tid, k: AccessKey)
    requires Shape(s) && t < |s.threads| && s.threads[t].Upsert? && s.threads[t].stage == DropRates
    requires After(s, run).Some? && OnlyReset(s, run, t) && k.pubkey == s.threads[t].target
    ensures var z := After(s, run).value;
            Shape(z) && SameJobs(s, z) && |s.cells| <= |z.cells| && Written(z, |s.cells|, t, k)
    decreases |run|
  {
    if run == [] {
    } else {
      var i := |run| - 1;
      WrittenOverRun(s, run[..i], t, k);
      var mid, u, c := After(s, run[..i]).value, run[i].0, run[i].1;
      StepKeepsShape(mid, u, c);
      StepSpares(mid, u, c);
      assert SameJob(s.threads[t], mid.threads[t]);
      if u == t {
        OwnWrites(mid, t, c, |s.cells|, k);
      } else {
        assert SameJob(s.threads[u], mid.threads[u]);
        BesideWrites(mid, t, c, |s.cells|, u, k);
      }
      JobsTransitive(s, mid, After(s, run).value);
    }
  }

  lemma JobsTransitive(a: Sys, b: Sys, c: Sys)
    requires SameJobs(a, b) && SameJobs(b, c)
    ensures SameJobs(a, c)
  {
    forall u | 0 <= u < |a.threads|
      ensures SameJob(a.threads[u], c.threads[u])
    {
      assert SameJob(a.threads[u], b.threads[u]) && SameJob(b.threads[u], c.threads[u]);
    }
  }

  // ---------- counters nobody fetched ----------

  predicate Full(z: Sys, h: Handle)
    requires h < |z.cells|
  {
    z.cells[h].counter.balance == z.cells[h].born.maxCapacity && z.cells[h].holder == None
  }

  /** A request of `p` between reading its profile and having all its counters. */
  predicate Fetching(thread: Thread, p: string) {
    thread.Call? && thread.req.pubkey == p && (thread.phase.FetchRate? || thread.phase.FetchQuota?)
  }

  ghost predicate MovesFetch(s: Sys, run: Schedule, p: string, j: nat)
    requires j < |run|
  {
    var mid := After(s, run[..j]);
    mid.Some? && run[j].0 < |mid.value.threads| && Fetching(mid.value.threads[run[j].0], p)
  }

  /** No request of `p` takes a fetching step in the schedule. */
  ghost predicate NoFetch(s: Sys, run: Schedule, p: string) {
    forall j :: 0 <= j < |run| ==> !MovesFetch(s, run, p, j)
  }

  lemma NoFetchPrefix(s: Sys, run: Schedule, p: string)
    requires run != [] && NoFetch(s, run, p)
    ensures NoFetch(s, run[..|run| - 1], p) && !MovesFetch(s, run, p, |run| - 1)
  {
    var init := run[..|run| - 1];
    forall j | 0 <= j < |init|
      ensures !MovesFetch(s, init, p, j)
    {
      assert init[..j] == run[..j];
      assert !MovesFetch(s, run, p, j);
    }
  }

  /** A request only ever holds counters of its own pubkey. */
  ghost predicate OwnKeys(thread: Thread) {
    thread.Call? ==> forall u :: u in UpdatesOf(thread.phase) ==> u.key.pubkey == thread.req.pubkey
  }

  ghost predicate AllOwnKeys(s: Sys) {
    forall t :: 0 <= t < |s.threads| ==> OwnKeys(s.threads[t])
  }

  lemma FetchOwnKeys(s: Sys, req: Request, p: Phase)
    requires p.FetchQuota? && PhaseOk(s, p) && OwnKeys(Call(req, p))
    ensures OwnKeys(Call(req, FetchQuotaMove(s, req, p).phase))
  {
    QuotaFetchAdds(s, req, p);
  }

  lemma StepOwnKeys(s: Sys, t: Tid, c: Choice)
    requires Shape(s) && AllOwnKeys(s) && StepOf(s, t, c).Some?
    ensures AllOwnKeys(StepOf(s, t, c).value)
  {
    var s' := StepOf(s, t, c).value;
    StepSpares(s, t, c);
    if s.threads[t].Call? {
      var req, p := s.threads[t].req, s.threads[t].phase;
      assert ThreadOk(s, s.threads[t]) && OwnKeys(s.threads[t]);
      if p.FetchQuota? {
        FetchOwnKeys(s, req, p);
      } else if HasPlan(p) {
        MoveKeepsPlan(s, t, req, p, c);
      }
    } else {
      ResetAdvances(s, t, c);
    }
  }

  lemma {:induction false} RunOwnKeys(s: Sys, run: Schedule)
    requires Initial(s) && After(s, run).Some?
    ensures AllOwnKeys(After(s, run).value)
    decreases |run|
  {
    if run == [] {
      forall t | 0 <= t < |s.threads|
        ensures OwnKeys(s.threads[t])
      {
        assert Begins(s.threads[t]);
      }
    } else {
      var n := |run| - 1;
      RunOwnKeys(s, run[..n]);
      RunShape(s, run[..n]);
      StepOwnKeys(After(s, run[..n]).value, run[n].0, run[n].1);
    }
  }

  /** The counters of `p` numbered `n` or more are full, free, and used by nobody. */
  ghost predicate Untouched(z: Sys, n: nat, p: string) {
    forall h: Handle :: n <= h < |z.cells| && z.cells[h].key.pubkey == p ==> UntouchedAt(z, h)
  }

  ghost predicate UntouchedAt(z: Sys, h: Handle)
    requires h < |z.cells|
  {
    Full(z, h) && forall t :: 0 <= t < |z.threads| ==> !Uses(z.threads[t], h)
  }

  lemma ForeignUses(s: Sys, t: Tid, h: Handle)
    requires Shape(s) && AllOwnKeys(s) && t < |s.threads| && Uses(s.threads[t], h)
    ensures h < |s.cells| && s.cells[h].key.pubkey == s.threads[t].req.pubkey
  {
    var u := UsesNamed(s, t, h);
    assert OwnKeys(s.threads[t]);
  }

  /** A step that is no fetch takes up no counter. */
  lemma NoFetchNoUse(s: Sys, t: Tid, c: Choice, h: Handle)
    requires Shape(s) && StepOf(s, t, c).Some? && s.threads[t].Call? && !Uses(s.threads[t], h)
    requires !Fetching(s.threads[t], s.threads[t].req.pubkey)
    ensures !Uses(StepOf(s, t, c).value.threads[t], h)
  {
    var p := s.threads[t].phase;
    if HasPlan(p) {
      MoveKeepsPlan(s, t, s.threads[t].req, p, c);
    }
  }

  lemma CallUntouched(s: Sys, t: Tid, c: Choice, h: Handle)
    requires Shape(s) && AllOwnKeys(s) && StepOf(s, t, c).Some? && s.threads[t].Call?
    requires h < |s.cells| && !Fetching(s.threads[t], s.cells[h].key.pubkey) && UntouchedAt(s, h)
    requires AllOwnKeys(StepOf(s, t, c).value) && Shape(StepOf(s, t, c).value)
    ensures var s' := StepOf(s, t, c).value;
            h < |s'.cells| && s'.cells[h] == s.cells[h] && UntouchedAt(s', h)
  {
    var s' := StepOf(s, t, c).value;
    StepSpares(s, t, c);
    TouchesUsedOnly(s, t, s.threads[t].req, s.threads[t].phase, c, h);
    assert s'.threads[t].req == s.threads[t].req;
    if s.threads[t].req.pubkey == s.cells[h].key.pubkey {
      NoFetchNoUse(s, t, c, h);
    } else if Uses(s'.threads[t], h) {
      ForeignUses(s', t, h);
    }
    forall u | 0 <= u < |s'.threads|
      ensures !Uses(s'.threads[u], h)
    {
      if u != t {
        assert s'.threads[u] == s.threads[u];
      }
    }
  }

  /** A counter just created is full, free, and used by nobody. */
  lemma NewUntouched(s: Sys, t: Tid, c: Choice, h: Handle)
    requires Shape(s) && StepOf(s, t, c).Some? && !s.threads[t].Call?
    requires |s.cells| <= h < |StepOf(s, t, c).value.cells|
    ensures UntouchedAt(StepOf(s, t, c).value, h)
  {
    var s' := StepOf(s, t, c).value;
    StepSpares(s, t, c);
    ResetAdvances(s, t, c);
    if s.threads[t].Upsert? {
      CreatedFull(s, t, c);
    }
    forall u | 0 <= u < |s'.threads|
      ensures !Uses(s'.threads[u], h)
    {
      if u != t && Uses(s.threads[u], h) {
        var x := UsesNamed(s, u, h);
      }
    }
  }

  lemma CreatedFull(s: Sys, t: Tid, c: Choice)
    requires t < |s.threads| && s.threads[t].Upsert? && UpsertStep(s, t, c).Some?
    ensures var s' := UpsertStep(s, t, c).value;
            |s'.cells| <= |s.cells| + 1 && (|s'.cells| > |s.cells| ==> Full(s', |s.cells|))
  {
  }

  lemma ResetUntouched(s: Sys, t: Tid, c: Choice, h: Handle)
    requires Shape(s) && StepOf(s, t, c).Some? && !s.threads[t].Call? && h < |s.cells| && UntouchedAt(s, h)
    ensures var s' := StepOf(s, t, c).value;
            h < |s'.cells| && s'.cells[h] == s.cells[h] && UntouchedAt(s', h)
  {
    var s' := StepOf(s, t, c).value;
    StepSpares(s, t, c);
    ResetAdvances(s, t, c);
    if s.threads[t].Upsert? {
      UpsertFrame(s, t, c);
    } else {
      ClearFrame(s, t);
    }
    ResetGrows(s, s', t);
    forall u | 0 <= u < |s'.threads|
      ensures !Uses(s'.threads[u], h)
    {
      if u != t {
        assert s'.threads[u] == s.threads[u];
      }
    }
  }

  lemma StepUntouched(s: Sys, t: Tid, c: Choice, n: nat, p: string)
    requires Shape(s) && AllOwnKeys(s) && StepOf(s, t, c).Some? && !Fetching(s.threads[t], p)
    requires Untouched(s, n, p)
    ensures Untouched(StepOf(s, t, c).value, n, p)
  {
    var s' := StepOf(s, t, c).value;
    StepOwnKeys(s, t, c);
    StepKeepsShape(s, t, c);
    forall h: Handle | n <= h < |s'.cells| && s'.cells[h].key.pubkey == p
      ensures UntouchedAt(s', h)
    {
      if s.threads[t].Call? {
        AffectGrows(s, t, CallMove(s, t, s.threads[t].req, s.threads[t].phase, c).value);
        CallUntouched(s, t, c, h);
      } else if h < |s.cells| {
        if s.threads[t].Upsert? { UpsertFrame(s, t, c); } else { ClearFrame(s, t); }
        ResetGrows(s, s', t);
        ResetUntouched(s, t, c, h);
      } else {
        NewUntouched(s, t, c, h);
      }
    }
  }

  lemma {:induction false} UntouchedOverRun(s: Sys, run: Schedule, p: string)
    requires Shape(s) && AllOwnKeys(s) && After(s, run).Some? && NoFetch(s, run, p)
    ensures var z := After(s, run).value; Shape(z) && AllOwnKeys(z) && Untouched(z, |s.cells|, p)
    decreases |run|
  {
    if run == [] {
    } else {
      var i := |run| - 1;
      NoFetchPrefix(s, run, p);
      UntouchedOverRun(s, run[..i], p);
      var mid := After(s, run[..i]).value;
      StepKeepsShape(mid, run[i].0, run[i].1);
      StepOwnKeys(mid, run[i].0, run[i].1);
      StepUntouched(mid, run[i].0, run[i].1, |s.cells|, p);
    }
  }

  /** The counter that the maps hold for `k` was made in the run, no request that
      was done fetching before it ever uses it, and it is full and free unless some
      request of the pubkey fetched in between. */
  ghost predicate Renewed(s: Sys, run: Schedule, z: Sys, k: AccessKey) {
    Current(z, k).Some? ==>
      var h := Current(z, k).value;
      && |s.cells| <= h < |z.cells|
      && (forall t :: 0 <= t < |s.threads| && t < |z.threads| && DoneFetching(s.threads[t], k) ==>
            !Uses(z.threads[t], h))
      && (NoFetch(s, run, k.pubkey) ==> Full(z, h))
  }

  /** An upsert that runs to its end, among any requests and any upserts of other
      pubkeys, leaves exactly the counters of its own profile, all of them renewed. */
  lemma UpsertCompletes(s: Sys, run: Schedule, z: Sys, t: Tid)
    requires Reachable(s) && t < |s.threads| && s.threads[t].Upsert? && s.threads[t].stage == DropRates
    requires After(s, run) == Some(z) && OnlyReset(s, run, t) && t < |z.threads| && Finished(z.threads[t])
    ensures var p := s.threads[t].target;
            && Agrees(z, p) && ProfileOf(z, p) == Some(s.threads[t].profile)
            && forall k: AccessKey :: k.pubkey == p ==> Renewed(s, run, z, k)
  {
    var p := s.threads[t].target;
    ReachableShape(s);
    WrittenOverRun(s, run, t, QuotaKey(p));
    assert SameJob(s.threads[t], z.threads[t]);
    forall k: AccessKey | k.pubkey == p
      ensures Stored(z, k) == Prescribed(ProfileOf(z, p), k) && Renewed(s, run, z, k)
    {
      WrittenOverRun(s, run, t, k);
      CurrentRenewed(s, run, z, k);
    }
  }

  lemma CurrentRenewed(s: Sys, run: Schedule, z: Sys, k: AccessKey)
    requires Reachable(s) && After(s, run) == Some(z) && Shape(z)
    requires Current(z, k).Some? ==> |s.cells| <= Current(z, k).value
    ensures Renewed(s, run, z, k)
  {
    if Current(z, k).Some? {
      var h := Current(z, k).value;
      assert h < |z.cells| && z.cells[h].key == k;
      forall t | 0 <= t < |s.threads| && t < |z.threads| && DoneFetching(s.threads[t], k)
        ensures !Uses(z.threads[t], h)
      {
        NeverUsesNew(s, run, z, t, h);
      }
      if NoFetch(s, run, k.pubkey) {
        ReachableShape(s);
        var s0, r :| ReachedBy(s0, r, s);
        RunOwnKeys(s0, r);
        UntouchedOverRun(s, run, k.pubkey);
        assert UntouchedAt(z, h);
      }
    }
  }

  // ---------- isolation ----------

  /** Only requests and upserts of other pubkeys move. */
  ghost predicate ForeignOnly(s: Sys, run: Schedule, p: string) {
    forall j :: 0 <= j < |run| ==> Foreign(s, run[j].0, p)
  }

  predicate Foreign(s: Sys, u: Tid, p: string) {
    u < |s.threads| && Beside(s, u, p) && (s.threads[u].Call? ==> s.threads[u].req.pubkey != p)
  }

  /** Profile, entries and counters of `p` are what they were. */
  ghost predicate SameFor(s: Sys, z: Sys, p: string) {
    && ProfileOf(z, p) == ProfileOf(s, p) && |s.cells| <= |z.cells|
    && (forall k: AccessKey :: k.pubkey == p ==> Current(z, k) == Current(s, k))
    && (forall h: Handle :: h < |s.cells| && s.cells[h].key.pubkey == p ==> z.cells[h] == s.cells[h])
  }

  lemma ForeignStep(s: Sys, u: Tid, c: Choice, p: string)
    requires Shape(s) && AllOwnKeys(s) && StepOf(s, u, c).Some? && Foreign(s, u, p)
    ensures SameFor(s, StepOf(s, u, c).value, p)
  {
    var s' := StepOf(s, u, c).value;
    StepSpares(s, u, c);
    ProfileStep(s, u, c, p);
    forall k: AccessKey | k.pubkey == p
      ensures Current(s', k) == Current(s, k)
    {
      StepEntry(s, u, c, k);
    }
    forall h: Handle | h < |s.cells| && s.cells[h].key.pubkey == p
      ensures s'.cells[h] == s.cells[h]
    {
      if s.threads[u].Call? {
        if Uses(s.threads[u], h) {
          ForeignUses(s, u, h);
        }
        TouchesUsedOnly(s, u, s.threads[u].req, s.threads[u].phase, c, h);
      } else {
        UpsertFrame(s, u, c);
        ResetGrows(s, s', u);
      }
    }
  }

  lemma {:induction false} ForeignRun(s: Sys, run: Schedule, p: string)
    requires Shape(s) && AllOwnKeys(s) && After(s, run).Some? && ForeignOnly(s, run, p)
    ensures var z := After(s, run).value; Shape(z) && AllOwnKeys(z) && SameJobs(s, z) && SameFor(s, z, p)
    decreases |run|
  {
    if run == [] {
    } else {
      var i := |run| - 1;
      ForeignRun(s, run[..i], p);
      var mid, u, c := After(s, run[..i]).value, run[i].0, run[i].1;
      StepKeepsShape(mid, u, c);
      StepOwnKeys(mid, u, c);
      JobsKept(mid, u, c);
      JobsTransitive(s, mid, After(s, run).value);
      assert SameJob(s.threads[u], mid.threads[u]);
      ForeignStep(mid, u, c, p);
    }
  }

  /** Whatever requests and upserts of other pubkeys do, in any interleaving, the
      profile, the entries and the balances of a pubkey stay what they are. */
  lemma OthersChangeNothing(s: Sys, run: Schedule, z: Sys, p: string)
    requires Reachable(s) && After(s, run) == Some(z) && ForeignOnly(s, run, p)
    ensures SameFor(s, z, p)
  {
    var s0, r :| ReachedBy(s0, r, s);
    RunShape(s0, r);
    RunOwnKeys(s0, r);
    ForeignRun(s, run, p);
  }
}
