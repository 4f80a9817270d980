/** Which grant is in force when several tasks ingest grants: exactly when it is the
    newest, when that is certain, and a schedule of two tasks in which an older grant
    stays in force for good. */
module GrantOutcomes {
  import opened Wrappers
  import opened AccessKeys
  import opened Profiles
  import opened Protocol
  import opened ProtocolLocks
  import opened ProtocolSerial
  import opened ProtocolResets
  import opened ProtocolCleanCut
  import opened ProtocolPlay
  import opened Grants
  import opened GrantTasks

  // ---------- who published last ----------

  /** The `k`-th move of the schedule stores or clears the profile of `p`. */
  ghost predicate PublishesAt(s: Sys, run: Schedule, k: nat, p: string)
    requires k < |run|
  {
    var mid := After(s, run[..k]);
    mid.Some? && run[k].0 < |mid.value.threads| && WritesProfile(mid.value.threads[run[k].0], p)
  }

  ghost predicate LastAt(s: Sys, run: Schedule, k: nat, p: string)
    requires k < |run|
  {
    PublishesAt(s, run, k, p) && forall j :: k < j < |run| ==> !PublishesAt(s, run, j, p)
  }

  lemma PrefixPublishes(s: Sys, run: Schedule, j: nat, p: string)
    requires j < |run| - 1
    ensures PublishesAt(s, run, j, p) <==> PublishesAt(s, run[..|run| - 1], j, p)
  {
    assert run[..|run| - 1][..j] == run[..j];
  }

  lemma LastAtMore(s: Sys, run: Schedule, k: nat, p: string)
    requires k < |run| - 1 && LastAt(s, run[..|run| - 1], k, p) && !PublishesAt(s, run, |run| - 1, p)
    ensures LastAt(s, run, k, p)
  {
    PrefixPublishes(s, run, k, p);
    forall j | k < j < |run| - 1
      ensures !PublishesAt(s, run, j, p)
    {
      PrefixPublishes(s, run, j, p);
    }
  }

  lemma NoneMore(s: Sys, run: Schedule, init: Schedule, p: string)
    requires run != [] && init == run[..|run| - 1] && !PublishesAt(s, run, |run| - 1, p)
    requires forall j :: 0 <= j < |init| ==> !PublishesAt(s, init, j, p)
    ensures forall j :: 0 <= j < |run| ==> !PublishesAt(s, run, j, p)
  {
    forall j | 0 <= j < |run| - 1
      ensures !PublishesAt(s, run, j, p)
    {
      PrefixPublishes(s, run, j, p);
    }
  }

  /** The last publisher is the thread of the last publishing move. */
  lemma {:induction false} LastPublisherAt(s: Sys, run: Schedule, p: string) returns (k: nat)
    ensures match LastPublisher(s, run, p)
            case None => forall j :: 0 <= j < |run| ==> !PublishesAt(s, run, j, p)
            case Some(w) => k < |run| && LastAt(s, run, k, p) && run[k].0 == w
    decreases |run|
  {
    k := 0;
    if run == [] {
    } else {
      var n := |run| - 1;
      if PublishesAt(s, run, n, p) {
        k := n;
      } else {
        k := LastPublisherAt(s, run[..n], p);
        if LastPublisher(s, run[..n], p).Some? {
          LastAtMore(s, run, k, p);
        } else {
          NoneMore(s, run, run[..n], p);
        }
      }
    }
  }

  /** Some other reset publishes for `p`, and thread `t` does not after it. */
  ghost predicate PublishedAfter(s: Sys, run: Schedule, t: Tid, p: string) {
    exists k :: 0 <= k < |run| && OvertakesAt(s, run, t, p, k)
  }

  ghost predicate OvertakesAt(s: Sys, run: Schedule, t: Tid, p: string, k: nat)
    requires k < |run|
  {
    && PublishesAt(s, run, k, p) && run[k].0 != t
    && forall j :: k < j < |run| && PublishesAt(s, run, j, p) ==> run[j].0 != t
  }

  lemma LastUnlessOvertaken(s: Sys, run: Schedule, t: Tid, p: string)
    requires LastPublisher(s, run, p).Some?
    ensures LastPublisher(s, run, p) == Some(t) <==> !PublishedAfter(s, run, t, p)
  {
    var k := LastPublisherAt(s, run, p);
    if run[k].0 == t {
      forall i | 0 <= i < |run|
        ensures !OvertakesAt(s, run, t, p, i)
      {
        assert i == k || i < k || !PublishesAt(s, run, i, p);
      }
    } else {
      assert OvertakesAt(s, run, t, p, k);
    }
  }

  // ---------- what the service's publishers are ----------

  /** The last publisher of `p` was admitted for it, or is a clear; and there is one
      once an upsert of `p` has completed. */
  ghost predicate PublisherKnown(z: Service, w: Option<Tid>, p: string) {
    && (w.Some? ==> w.value < |z.sys.threads| && (z.sys.threads[w.value].Clear? || AdmittedFor(z, w.value, p)))
    && (w.None? ==> forall t: Tid :: AdmittedFor(z, t, p) ==> z.sys.threads[t].stage != Complete)
  }

  /** The service has come from `y` to `z`, and `w` published last for `p`. */
  ghost predicate Stands(y: Service, deeds: seq<Deed>, z: Service, p: string, w: Option<Tid>) {
    Leads(y, deeds, z) && w == LastPublisher(y.sys, StepsOf(deeds), p)
  }

  lemma PublisherStep(z: Service, t: Tid, c: Choice, p: string, w: Option<Tid>)
    requires Shape(z.sys) && |z.stamps| == |z.sys.threads| && Act(z, Step(t, c)).Some? && PublisherKnown(z, w, p)
    ensures PublisherKnown(Act(z, Step(t, c)).value, if WritesProfile(z.sys.threads[t], p) then Some(t) else w, p)
  {
    var z' := Act(z, Step(t, c)).value;
    AdmittedSame(z, t, c);
    OnlyMover(z.sys, t, c);
    if w.Some? {
      assert SameJob(z.sys.threads[w.value], z'.sys.threads[w.value]);
    }
    assert SameJob(z.sys.threads[t], z'.sys.threads[t]);
    if !z.sys.threads[t].Call? {
      ResetAdvances(z.sys, t, c);
    }
  }

  lemma AdmittedSame(z: Service, t: Tid, c: Choice)
    requires Shape(z.sys) && Act(z, Step(t, c)).Some?
    ensures var z' := Act(z, Step(t, c)).value;
            SameJobs(z.sys, z'.sys) && forall u, p :: AdmittedFor(z', u, p) <==> AdmittedFor(z, u, p)
  {
    var z' := Act(z, Step(t, c)).value;
    JobsKept(z.sys, t, c);
    forall u: Tid, p
      ensures AdmittedFor(z', u, p) <==> AdmittedFor(z, u, p)
    {
      if u < |z.sys.threads| {
        assert SameJob(z.sys.threads[u], z'.sys.threads[u]);
      }
    }
  }

  /** The last publisher after one more deed. */
  function NextPublisher(z: Service, d: Deed, p: string, w: Option<Tid>): Option<Tid> {
    if d.Step? && d.t < |z.sys.threads| && WritesProfile(z.sys.threads[d.t], p) then Some(d.t) else w
  }

  lemma PublisherMore(s: Sys, run: Schedule, mid: Sys, t: Tid, c: Choice, p: string)
    requires After(s, run) == Some(mid) && t < |mid.threads|
    ensures LastPublisher(s, run + [(t, c)], p) ==
            if WritesProfile(mid.threads[t], p) then Some(t) else LastPublisher(s, run, p)
  {
    assert (run + [(t, c)])[..|run|] == run;
  }

  lemma PublisherAfter(y: Service, deeds: seq<Deed>, mid: Service, d: Deed, p: string)
    requires Runs(y, deeds) == Some(mid) && Act(mid, d).Some?
    ensures LastPublisher(y.sys, StepsOf(deeds + [d]), p) ==
            NextPublisher(mid, d, p, LastPublisher(y.sys, StepsOf(deeds), p))
  {
    LastDeed(y, deeds, d);
    if d.Step? {
      ServiceIsProtocol(y, deeds);
      PublisherMore(y.sys, StepsOf(deeds), mid.sys, d.t, d.c, p);
    }
  }

  lemma AdmitPublisher(z: Service, t: Tid, p: string, w: Option<Tid>)
    requires Admissions(z) && Act(z, Admit(t)).Some? && PublisherKnown(z, w, p)
    ensures PublisherKnown(Act(z, Admit(t)).value, w, p)
  {
    assert HeldBack(z, t);
  }

  lemma DeedPublisher(z: Service, d: Deed, p: string, w: Option<Tid>)
    requires Shape(z.sys) && Admissions(z) && Act(z, d).Some? && PublisherKnown(z, w, p)
    ensures PublisherKnown(Act(z, d).value, NextPublisher(z, d, p, w), p)
  {
    match d
    case Step(t, c) => PublisherStep(z, t, c, p, w);
    case Admit(t) => AdmitPublisher(z, t, p, w);
    case Discard(_, _) =>
  }

  lemma PublishersMore(y: Service, init: seq<Deed>, mid: Service, d: Deed, z: Service, p: string)
    requires Leads(y, init, mid) && Act(mid, d) == Some(z)
    requires PublisherKnown(mid, LastPublisher(y.sys, StepsOf(init), p), p)
    ensures PublisherKnown(z, LastPublisher(y.sys, StepsOf(init + [d]), p), p)
  {
    LeadsReaches(y, init, mid);
    RunAdmissions(y, init);
    DeedPublisher(mid, d, p, LastPublisher(y.sys, StepsOf(init), p));
    PublisherAfter(y, init, mid, d, p);
  }

  lemma NoPublisherYet(y: Service, p: string)
    requires Fresh(y)
    ensures PublisherKnown(y, LastPublisher(y.sys, StepsOf([]), p), p)
  {
    assert LastPublisher(y.sys, StepsOf([]), p) == None;
  }

  lemma LeadsPrefix(y: Service, deeds: seq<Deed>, z: Service) returns (init: seq<Deed>, mid: Service, d: Deed)
    requires Leads(y, deeds, z) && deeds != []
    ensures deeds == init + [d] && Leads(y, init, mid) && Act(mid, d) == Some(z)
  {
    init, d := deeds[..|deeds| - 1], deeds[|deeds| - 1];
    mid := Runs(y, init).value;
  }

  lemma {:induction false} PublishersKnown(y: Service, deeds: seq<Deed>, z: Service, p: string)
    requires Leads(y, deeds, z)
    ensures PublisherKnown(z, LastPublisher(y.sys, StepsOf(deeds), p), p)
    decreases |deeds|
  {
    if deeds == [] {
      NoPublisherYet(y, p);
    } else {
      var init, mid, d := LeadsPrefix(y, deeds, z);
      PublishersKnown(y, init, mid, p);
      PublishersMore(y, init, mid, d, z, p);
    }
  }

  // ---------- the grant in force ----------

  /** No reset of `p` is under way, and every admitted upsert of it has completed. */
  ghost predicate Settled(z: Service, p: string) {
    AtRest(z.sys, p) && forall t: Tid :: AdmittedFor(z, t, p) ==> z.sys.threads[t].stage == Complete
  }

  ghost predicate OthersDiffer(z: Service, t: Tid, p: string)
    requires AdmittedFor(z, t, p)
  {
    forall u: Tid :: AdmittedFor(z, u, p) && u != t ==> z.sys.threads[u].profile != z.sys.threads[t].profile
  }

  /** The last reset to publish for `p` stands for something else than thread `t`:
      another profile, or none. */
  ghost predicate Displaced(s: Sys, run: Schedule, z: Service, t: Tid, p: string)
    requires AdmittedFor(z, t, p)
  {
    exists k :: 0 <= k < |run| && DisplacesAt(s, run, z, t, p, k)
  }

  ghost predicate DisplacesAt(s: Sys, run: Schedule, z: Service, t: Tid, p: string, k: nat)
    requires AdmittedFor(z, t, p) && k < |run|
  {
    LastAt(s, run, k, p) && GrantOf(z.sys, Some(run[k].0)) != Some(z.sys.threads[t].profile)
  }

  lemma DisplacedIff(s: Sys, run: Schedule, z: Service, t: Tid, p: string)
    requires AdmittedFor(z, t, p) && LastPublisher(s, run, p).Some?
    ensures Displaced(s, run, z, t, p) <==>
            GrantOf(z.sys, LastPublisher(s, run, p)) != Some(z.sys.threads[t].profile)
  {
    var k := LastPublisherAt(s, run, p);
    forall i | 0 <= i < |run| && LastAt(s, run, i, p)
      ensures i == k
    {
      assert i <= k && k <= i;
    }
    assert DisplacesAt(s, run, z, t, p, k) <==> GrantOf(z.sys, Some(run[k].0)) != Some(z.sys.threads[t].profile);
  }

  /** Once all is settled, the newest admitted grant of a target is in force if and
      only if it was not displaced; where no other admitted grant has its content, if
      and only if no other reset published after it: no older admitted grant, whose
      task came to its upsert late, and no clear. */
  lemma NewestInForceIff(y: Service, deeds: seq<Deed>, z: Service, p: string, t: Tid)
    requires Leads(y, deeds, z) && Settled(z, p) && NewestAdmitted(z, t, p)
    ensures ProfileOf(z.sys, p) == Some(z.sys.threads[t].profile) <==> !Displaced(y.sys, StepsOf(deeds), z, t, p)
    ensures OthersDiffer(z, t, p) ==>
              (ProfileOf(z.sys, p) == Some(z.sys.threads[t].profile) <==>
               !PublishedAfter(y.sys, StepsOf(deeds), t, p))
  {
    var run := StepsOf(deeds);
    LeadsReaches(y, deeds, z);
    PublishersKnown(y, deeds, z, p);
    InitialShape(y.sys);
    LastPublisherDecides(y.sys, run, p);
    DisplacedIff(y.sys, run, z, t, p);
    LastUnlessOvertaken(y.sys, run, t, p);
  }

  // ---------- one grant of a target at a time ----------

  /** Admitted and not yet stored. */
  predicate InHand(z: Service, t: Tid, p: string) {
    AdmittedFor(z, t, p) && z.sys.threads[t].stage != Complete
  }

  ghost predicate OneInHand(z: Service, p: string) {
    forall t: Tid, u: Tid :: InHand(z, t, p) && InHand(z, u, p) ==> t == u
  }

  ghost predicate OneInHandAt(y: Service, deeds: seq<Deed>, p: string, j: nat)
    requires j <= |deeds|
  {
    Runs(y, deeds[..j]).Some? ==> OneInHand(Runs(y, deeds[..j]).value, p)
  }

  /** No grant of `p` is admitted while another is on its way to be stored. */
  ghost predicate OneAtATime(y: Service, deeds: seq<Deed>, p: string) {
    forall j :: 0 <= j <= |deeds| ==> OneInHandAt(y, deeds, p, j)
  }

  lemma OneAtATimePrefix(y: Service, deeds: seq<Deed>, p: string)
    requires deeds != [] && OneAtATime(y, deeds, p) && Runs(y, deeds).Some?
    ensures OneAtATime(y, deeds[..|deeds| - 1], p)
    ensures OneInHand(Runs(y, deeds).value, p) && OneInHand(Runs(y, deeds[..|deeds| - 1]).value, p)
  {
    var init := deeds[..|deeds| - 1];
    assert deeds[..|deeds|] == deeds;
    assert OneInHandAt(y, deeds, p, |deeds|) && OneInHandAt(y, deeds, p, |deeds| - 1);
    forall j | 0 <= j <= |init|
      ensures OneInHandAt(y, init, p, j)
    {
      assert init[..j] == deeds[..j];
      assert OneInHandAt(y, deeds, p, j);
    }
  }

  /** `w` stands for a grant at least as new as that of `t`, or for a clear. */
  predicate Covers(z: Service, w: Option<Tid>, t: Tid)
    requires t < |z.stamps|
  {
    && w.Some? && w.value < |z.sys.threads| && w.value < |z.stamps|
    && (w.value == t || z.sys.threads[w.value].Clear? || Newer(z.stamps[w.value], z.stamps[t]))
  }

  /** A grant in hand is the newest, and the last publisher covers all stored ones. */
  ghost predicate InStep(z: Service, p: string, w: Option<Tid>) {
    && (forall t: Tid :: InHand(z, t, p) ==> NewestAdmitted(z, t, p))
    && (forall t: Tid :: AdmittedFor(z, t, p) && !InHand(z, t, p) ==> Covers(z, w, t))
  }

  /** Only publishing completes an upsert. */
  lemma CompletedBy(z: Service, t: Tid, c: Choice, u: Tid, p: string)
    requires Shape(z.sys) && Act(z, Step(t, c)).Some? && AdmittedFor(z, u, p)
    ensures var z' := Act(z, Step(t, c)).value;
            && (InHand(z', u, p) ==> InHand(z, u, p))
            && (InHand(z, u, p) && !InHand(z', u, p) ==> u == t && WritesProfile(z.sys.threads[t], p))
            && (u == t && InHand(z, u, p) && WritesProfile(z.sys.threads[t], p) ==> !InHand(z', u, p))
  {
    var z' := Act(z, Step(t, c)).value;
    AdmittedSame(z, t, c);
    OnlyMover(z.sys, t, c);
    if !z.sys.threads[t].Call? {
      ResetAdvances(z.sys, t, c);
    }
  }

  lemma WriterInHand(z: Service, t: Tid, c: Choice, p: string)
    requires Act(z, Step(t, c)).Some? && WritesProfile(z.sys.threads[t], p) && |z.stamps| == |z.sys.threads|
    ensures z.sys.threads[t].Clear? || InHand(z, t, p)
  {
  }

  lemma StepInStep(z: Service, t: Tid, c: Choice, p: string, w: Option<Tid>)
    requires Shape(z.sys) && Act(z, Step(t, c)).Some? && InStep(z, p, w) && |z.stamps| == |z.sys.threads|
    requires OneInHand(z, p)
    ensures InStep(Act(z, Step(t, c)).value, p, NextPublisher(z, Step(t, c), p, w))
  {
    var z', w' := Act(z, Step(t, c)).value, NextPublisher(z, Step(t, c), p, w);
    AdmittedSame(z, t, c);
    forall u: Tid | AdmittedFor(z', u, p)
      ensures InHand(z', u, p) ==> NewestAdmitted(z', u, p)
      ensures !InHand(z', u, p) ==> Covers(z', w', u)
    {
      CompletedBy(z, t, c, u, p);
      if w.Some? && w.value < |z.sys.threads| {
        assert SameJob(z.sys.threads[w.value], z'.sys.threads[w.value]);
      }
      if WritesProfile(z.sys.threads[t], p) {
        WriterInHand(z, t, c, p);
        assert SameJob(z.sys.threads[t], z'.sys.threads[t]);
      }
    }
  }

  /** Nothing that matters for `p` has changed. */
  lemma SameInStep(z: Service, z': Service, p: string, w: Option<Tid>)
    requires InStep(z, p, w) && z'.sys == z.sys && z'.stamps == z.stamps
    requires forall u: Tid :: AdmittedFor(z', u, p) <==> AdmittedFor(z, u, p)
    ensures InStep(z', p, w)
  {
    forall u: Tid | InHand(z', u, p)
      ensures NewestAdmitted(z', u, p)
    {
      assert InHand(z, u, p) && NewestAdmitted(z, u, p);
    }
    forall u: Tid | AdmittedFor(z', u, p) && !InHand(z', u, p)
      ensures Covers(z', w, u)
    {
      assert AdmittedFor(z, u, p) && !InHand(z, u, p) && Covers(z, w, u);
    }
  }

  /** A grant admitted while none of its target is in hand is the newest. */
  lemma NewInStep(z: Service, t: Tid, p: string, w: Option<Tid>)
    requires Admissions(z) && Act(z, Admit(t)).Some? && InStep(z, p, w)
    requires AdmittedFor(Act(z, Admit(t)).value, t, p) && OneInHand(Act(z, Admit(t)).value, p)
    ensures InStep(Act(z, Admit(t)).value, p, w)
  {
    var z' := Act(z, Admit(t)).value;
    assert HeldBack(z, t) && InHand(z', t, p);
    forall v: Tid | AdmittedFor(z', v, p) && v != t
      ensures Newer(z'.stamps[t], z'.stamps[v]) && AdmittedFor(z, v, p) && !InHand(z', v, p)
    {
      assert v in z.admitted;
      StaysBelow(z, t, v);
    }
    forall v: Tid | AdmittedFor(z', v, p) && !InHand(z', v, p)
      ensures Covers(z', w, v)
    {
      assert AdmittedFor(z, v, p) && !InHand(z, v, p) && Covers(z, w, v);
    }
  }

  lemma AdmitInStep(z: Service, t: Tid, p: string, w: Option<Tid>)
    requires Admissions(z) && Act(z, Admit(t)).Some? && InStep(z, p, w)
    requires OneInHand(Act(z, Admit(t)).value, p)
    ensures InStep(Act(z, Admit(t)).value, p, w)
  {
    if AdmittedFor(Act(z, Admit(t)).value, t, p) {
      NewInStep(z, t, p, w);
    } else {
      SameInStep(z, Act(z, Admit(t)).value, p, w);
    }
  }

  lemma InStepMore(y: Service, init: seq<Deed>, mid: Service, d: Deed, z: Service, p: string)
    requires Leads(y, init, mid) && Act(mid, d) == Some(z) && OneInHand(mid, p) && OneInHand(z, p)
    requires InStep(mid, p, LastPublisher(y.sys, StepsOf(init), p))
    ensures InStep(z, p, LastPublisher(y.sys, StepsOf(init + [d]), p))
  {
    var w := LastPublisher(y.sys, StepsOf(init), p);
    LeadsReaches(y, init, mid);
    RunAdmissions(y, init);
    PublisherAfter(y, init, mid, d, p);
    match d
    case Step(t, c) => StepInStep(mid, t, c, p, w);
    case Admit(t) => AdmitInStep(mid, t, p, w);
    case Discard(_, _) => SameInStep(mid, z, p, w);
  }

  lemma {:induction false} RunInStep(y: Service, deeds: seq<Deed>, z: Service, p: string)
    requires Leads(y, deeds, z) && OneAtATime(y, deeds, p)
    ensures InStep(z, p, LastPublisher(y.sys, StepsOf(deeds), p))
    decreases |deeds|
  {
    if deeds == [] {
    } else {
      var init, d := deeds[..|deeds| - 1], deeds[|deeds| - 1];
      var mid := Runs(y, init).value;
      OneAtATimePrefix(y, deeds, p);
      RunInStep(y, init, mid, p);
      InStepMore(y, init, mid, d, z, p);
      assert init + [d] == deeds;
    }
  }

  /** When no grant of a target is admitted while another is on its way to be stored,
      the newest admitted grant is in force once all is settled, unless a clear came
      last. */
  lemma OneAtATimeSoNewest(y: Service, deeds: seq<Deed>, z: Service, p: string, t: Tid)
    requires Leads(y, deeds, z) && OneAtATime(y, deeds, p) && Settled(z, p) && NewestAdmitted(z, t, p)
    ensures var w := LastPublisher(y.sys, StepsOf(deeds), p);
            && w.Some? && w.value < |z.sys.threads|
            && if z.sys.threads[w.value].Clear? then ProfileOf(z.sys, p) == None
               else w.value == t && ProfileOf(z.sys, p) == Some(z.sys.threads[t].profile)
  {
    var w := LastPublisher(y.sys, StepsOf(deeds), p);
    LeadsReaches(y, deeds, z);
    PublishersKnown(y, deeds, z, p);
    RunInStep(y, deeds, z, p);
    InitialShape(y.sys);
    LastPublisherDecides(y.sys, StepsOf(deeds), p);
    assert AdmittedFor(z, t, p) && !InHand(z, t, p) && Covers(z, w, t);
    if w.value != t && !z.sys.threads[w.value].Clear? {
      NewerTotal(z.stamps[t], z.stamps[w.value]);
    }
  }

  // ---------- one event handled by itself ----------

  function RegAt(y: Service, p: string): Reg {
    Reg(if p in y.marks then Some(y.marks[p]) else None, ProfileOf(y.sys, p))
  }

  /** A grant whose admission and upsert nothing comes between is ingested as one
      step of its target's register: this is the case of events handled one after
      another. */
  lemma HandledAlone(y: Service, t: Tid) returns (deeds: seq<Deed>, z: Service)
    requires Untested(y, t) && HeldBack(y, t)
    ensures Runs(y, deeds) == Some(z)
    ensures var target := y.sys.threads[t].target;
            var e := Grant(target, y.stamps[t], Some(y.sys.threads[t].profile));
            forall p :: RegAt(z, p) == if p == target then Ingest(RegAt(y, p), e) else RegAt(y, p)
  {
    var admitted := Act(y, Admit(t)).value;
    LastDeed(y, [], Admit(t));
    deeds, z := [] + [Admit(t)], admitted;
    if Supersedes(y.marks, y.sys.threads[t].target, y.stamps[t]) {
      var run, s := RunAlone(admitted.sys, t);
      Lifts(admitted, run);
      RunsConcat(y, deeds, DeedsOf(run));
      deeds, z := deeds + DeedsOf(run), admitted.(sys := s);
    }
  }

  lemma DiscardedAlone(y: Service, target: string, stamp: Stamp)
    ensures var z := Act(y, Discard(target, stamp)).value;
            var e := Grant(target, stamp, None);
            forall p :: RegAt(z, p) == if p == target then Ingest(RegAt(y, p), e) else RegAt(y, p)
  {
  }

  // ---------- an older grant in force for good ----------

  function Deliveries(p: string, older: UsageProfile, newer: UsageProfile): seq<Thread> {
    [Upsert(p, older, DropRates), Upsert(p, newer, DropRates), Upsert(p, newer, DropRates)]
  }

  function Start(p: string, early: Stamp, late: Stamp, older: UsageProfile, newer: UsageProfile): Service {
    Service(Sys([], map[], map[], map[], Deliveries(p, older, newer), {}, []), map[], [early, late, late], [], {})
  }

  lemma FirstAdmitted(y: Service, one: Service, early: Stamp)
    requires Untested(y, 0) && y.marks == map[] && y.admitted == [] && y.stamps[0] == early
    requires one == y.(marks := map[y.sys.threads[0].target := early], admitted := [0])
    ensures Act(y, Admit(0)) == Some(one)
  {
    assert map[][y.sys.threads[0].target := early] == one.marks;
    assert [] + [0] == [0];
  }

  lemma SecondAdmitted(one: Service, early: Stamp, late: Stamp)
    requires Newer(late, early) && Untested(one, 1) && one.admitted == [0] && one.stamps[1] == late
    requires one.marks == map[one.sys.threads[1].target := early]
    ensures Act(one, Admit(1)) ==
            Some(one.(marks := map[one.sys.threads[1].target := late], admitted := [0, 1]))
  {
    var p := one.sys.threads[1].target;
    assert map[p := early][p := late] == map[p := late];
    assert [0] + [1] == [0, 1];
  }

  lemma BothAdmitted(p: string, early: Stamp, late: Stamp, older: UsageProfile, newer: UsageProfile)
    returns (deeds: seq<Deed>)
    requires Newer(late, early)
    ensures var y := Start(p, early, late, older, newer);
            Runs(y, deeds) == Some(y.(marks := map[p := late], admitted := [0, 1])) && StepsOf(deeds) == []
  {
    var y := Start(p, early, late, older, newer);
    var one := y.(marks := map[p := early], admitted := [0]);
    FirstAdmitted(y, one, early);
    LastDeed(y, [], Admit(0));
    LastDeed(y, [] + [Admit(0)], Admit(1));
    deeds := [] + [Admit(0)] + [Admit(1)];
    SecondAdmitted(one, early, late);
  }

  /** In the protocol: the second upsert runs, and then the first. */
  lemma FirstRunsLast(s: Sys, p: string, older: UsageProfile, newer: UsageProfile) returns (run: Schedule, z: Sys)
    requires Initial(s) && s.threads == Deliveries(p, older, newer)
    ensures ReachedBy(s, run, z) && InTurn(s, run, [0, 1, 1]) && forall j :: 0 <= j < |run| ==> run[j].0 < 2
    ensures z.threads == [Upsert(p, older, Complete), Upsert(p, newer, Complete), Upsert(p, newer, DropRates)]
    ensures ProfileOf(z, p) == Some(older) && Agrees(z, p)
  {
    var task := [0, 1, 1];
    NoneYet(s, task);
    var r1, a := RunAlone(s, 1);
    ThenAlone(s, [], s, r1, 1, a, task);
    var r0, b := RunAlone(a, 0);
    ThenAlone(s, [] + r1, a, r0, 0, b, task);
    run, z := [] + r1 + r0, b;
    assert ReachedBy(s, [] + r1, a);
    UpsertCompletes(a, r0, b, 0);
  }

  /** One task tests an older grant, another task tests and stores a newer one, and
      then the first stores the older. */
  lemma OlderStoredLast(p: string, early: Stamp, late: Stamp, older: UsageProfile, newer: UsageProfile)
    returns (deeds: seq<Deed>, z: Service)
    requires Newer(late, early)
    ensures var y := Start(p, early, late, older, newer);
            Leads(y, deeds, z) && InTurn(y.sys, StepsOf(deeds), [0, 1, 1])
    ensures z.marks == map[p := late] && z.stamps == [early, late, late] && z.admitted == [0, 1] && z.refused == {}
    ensures z.sys.threads == [Upsert(p, older, Complete), Upsert(p, newer, Complete), Upsert(p, newer, DropRates)]
    ensures ProfileOf(z.sys, p) == Some(older) && Agrees(z.sys, p)
  {
    var y := Start(p, early, late, older, newer);
    var d := BothAdmitted(p, early, late, older, newer);
    var run, s := FirstRunsLast(y.sys, p, older, newer);
    var a := y.(marks := map[p := late], admitted := [0, 1]);
    Lifts(a, run);
    RunsConcat(y, d, DeedsOf(run));
    deeds, z := d + DeedsOf(run), a.(sys := s);
    assert [] + run == run;
  }

  /** Two tasks can leave an older grant in force for good: all is settled, profile
      and counters agree, the newer grant was admitted and stored, the watermark is
      its stamp, and its redelivery is refused. This happens with every pair of
      grants of one target. */
  lemma OlderStaysInForce(p: string, early: Stamp, late: Stamp, older: UsageProfile, newer: UsageProfile)
    returns (deeds: seq<Deed>, z: Service)
    requires Newer(late, early)
    ensures Leads(Start(p, early, late, older, newer), deeds, z)
    ensures InTurn(Start(p, early, late, older, newer).sys, StepsOf(deeds), [0, 1, 1])
    ensures RegAt(z, p) == Reg(Some(late), Some(older))
    ensures Settled(z, p) && Agrees(z.sys, p) && NewestAdmitted(z, 1, p) && 2 in z.refused
  {
    var y := Start(p, early, late, older, newer);
    var d, a := OlderStoredLast(p, early, late, older, newer);
    NewerTotal(late, late);
    LastDeed(y, d, Admit(2));
    deeds, z := d + [Admit(2)], Act(a, Admit(2)).value;
    forall t | 0 <= t < |z.sys.threads|
      ensures !InReset(z.sys.threads[t], p)
    {
      assert t == 0 || t == 1 || t == 2;
    }
  }

  // ---------- the watermark excludes no schedule ----------

  function Tall(n: nat): string {
    if n == 0 then "" else "a" + Tall(n - 1)
  }

  lemma {:induction false} TallerIsGreater(m: nat, n: nat)
    requires m < n
    ensures CompareStrings(Tall(n), Tall(m)) == Greater
    decreases n
  {
    if m == 0 {
    } else {
      TallerIsGreater(m - 1, n - 1);
      assert Tall(n)[1..] == Tall(n - 1) && Tall(m)[1..] == Tall(m - 1);
    }
  }

  function Rising(n: nat): seq<Stamp> {
    seq(n, i requires 0 <= i < n => Stamp(0, Tall(i)))
  }

  function Served(s: Sys): Service {
    Service(s, map[], Rising(|s.threads|), [], {})
  }

  /** Grants of rising stamps are all admitted, thread by thread. */
  ghost predicate AdmittedBelow(s: Sys, z: Service, n: nat) {
    && z.sys == s && z.stamps == Rising(|s.threads|) && z.refused == {}
    && (forall t :: t in z.admitted <==> 0 <= t < n && t < |s.threads| && s.threads[t].Upsert?)
    && (forall p :: p in z.marks ==> BelowMark(z.marks[p], n))
  }

  ghost predicate BelowMark(mark: Stamp, n: nat) {
    exists i :: 0 <= i < n && mark == Stamp(0, Tall(i))
  }

  lemma AdmitNext(s: Sys, z: Service, n: nat)
    requires n < |s.threads| && AdmittedBelow(s, z, n) && s.threads[n].Upsert?
    ensures Act(z, Admit(n)).Some? && AdmittedBelow(s, Act(z, Admit(n)).value, n + 1)
  {
    var target := s.threads[n].target;
    if target in z.marks {
      var i :| 0 <= i < n && z.marks[target] == Stamp(0, Tall(i));
      TallerIsGreater(i, n);
    }
    var z' := Act(z, Admit(n)).value;
    forall p | p in z'.marks
      ensures BelowMark(z'.marks[p], n + 1)
    {
      if p != target {
        assert BelowMark(z.marks[p], n);
      }
    }
  }

  lemma SkipNext(s: Sys, z: Service, n: nat)
    requires n < |s.threads| && AdmittedBelow(s, z, n) && !s.threads[n].Upsert?
    ensures AdmittedBelow(s, z, n + 1)
  {
    forall p | p in z.marks
      ensures BelowMark(z.marks[p], n + 1)
    {
      assert BelowMark(z.marks[p], n);
    }
  }

  lemma {:induction false} AdmitAll(s: Sys, n: nat) returns (deeds: seq<Deed>, z: Service)
    requires n <= |s.threads|
    ensures Runs(Served(s), deeds) == Some(z) && StepsOf(deeds) == [] && AdmittedBelow(s, z, n)
    decreases n
  {
    if n == 0 {
      deeds, z := [], Served(s);
    } else {
      deeds, z := AdmitAll(s, n - 1);
      if s.threads[n - 1].Upsert? {
        AdmitNext(s, z, n - 1);
        LastDeed(Served(s), deeds, Admit(n - 1));
        deeds, z := deeds + [Admit(n - 1)], Act(z, Admit(n - 1)).value;
      } else {
        SkipNext(s, z, n - 1);
      }
    }
  }

  lemma KindsTransitive(a: Sys, b: Sys, c: Sys)
    requires SameKinds(a, b) && SameKinds(b, c)
    ensures SameKinds(a, c)
  {
    forall u | 0 <= u < |a.threads|
      ensures c.threads[u].Upsert? <==> a.threads[u].Upsert?
    {
      assert b.threads[u].Upsert? <==> a.threads[u].Upsert?;
    }
  }

  /** Kinds never change, and every mover is a thread. */
  ghost predicate KindsKept(s: Sys, run: Schedule, z: Sys) {
    SameKinds(s, z) && forall j :: 0 <= j < |run| ==> run[j].0 < |s.threads|
  }

  lemma KindsMore(s: Sys, init: Schedule, mid: Sys, move: (Tid, Choice), z: Sys)
    requires KindsKept(s, init, mid) && StepOf(mid, move.0, move.1) == Some(z)
    ensures KindsKept(s, init + [move], z)
  {
    KindsStep(mid, move.0, move.1);
    KindsTransitive(s, mid, z);
  }

  lemma {:induction false} KindsOverRun(s: Sys, run: Schedule, z: Sys)
    requires After(s, run) == Some(z)
    ensures KindsKept(s, run, z)
    decreases |run|
  {
    if run == [] {
    } else {
      var init, move := run[..|run| - 1], run[|run| - 1];
      var mid := After(s, init).value;
      KindsOverRun(s, init, mid);
      KindsMore(s, init, mid, move, z);
      assert init + [move] == run;
    }
  }

  /** For every schedule of the protocol there are stamps under which the service
      takes it: the races of the protocol are races of the service. */
  lemma EveryScheduleServed(s: Sys, run: Schedule, x: Sys) returns (y: Service, deeds: seq<Deed>, z: Service)
    requires ReachedBy(s, run, x)
    ensures Leads(y, deeds, z) && y.sys == s && z.sys == x && StepsOf(deeds) == run
  {
    y := Served(s);
    var d, a := AdmitAll(s, |s.threads|);
    KindsOverRun(s, run, x);
    Lifts(a, run);
    RunsConcat(y, d, DeedsOf(run));
    deeds, z := d + DeedsOf(run), a.(sys := x);
    assert [] + run == run;
  }
}
