/** Grant ingestion by concurrent tasks. A task first tests and sets the watermark
    of a grant's target, and upserts the profile later, as a separate action; this
    adds the watermark to the accounting protocol, whose upserts then run only for
    admitted grants. */
module GrantTasks {
  import opened Wrappers
  import opened AccessKeys
  import opened Profiles
  import opened Protocol
  import opened ProtocolLocks
  import opened ProtocolSerial
  import opened ProtocolResets
  import opened ProtocolCleanCut
  import opened ProtocolPlay
  import opened Grants

  /** `stamps` are those of the grants whose upserts the threads are; `admitted` are
      the threads whose grants passed the test, in that order, `refused` the others. */
  datatype Service = Service(sys: Sys, marks: map<string, Stamp>, stamps: seq<Stamp>,
                             admitted: seq<Tid>, refused: set<Tid>)

  /** A step of the protocol, the test-and-set for the grant of a thread, or the
      same for a grant that does not parse and so has no upsert. */
  datatype Deed =
    | Step(t: Tid, c: Choice)
    | Admit(t: Tid)
    | Discard(target: string, stamp: Stamp)

  predicate Supersedes(marks: map<string, Stamp>, target: string, stamp: Stamp) {
    target !in marks || Newer(stamp, marks[target])
  }

  function Marked(marks: map<string, Stamp>, target: string, stamp: Stamp): map<string, Stamp> {
    if Supersedes(marks, target, stamp) then marks[target := stamp] else marks
  }

  /** A thread that is an upsert and has not been tested. */
  predicate Untested(y: Service, t: Tid) {
    t < |y.sys.threads| && t < |y.stamps| && y.sys.threads[t].Upsert? && t !in y.admitted && t !in y.refused
  }

  predicate MayMove(y: Service, t: Tid) {
    t < |y.sys.threads| && (y.sys.threads[t].Upsert? ==> t in y.admitted)
  }

  function Act(y: Service, d: Deed): Option<Service> {
    match d
    case Step(t, c) =>
      if !MayMove(y, t) then None
      else (match StepOf(y.sys, t, c)
            case None => None
            case Some(next) => Some(y.(sys := next)))
    case Admit(t) =>
      if !Untested(y, t) then None
      else
        var target, stamp := y.sys.threads[t].target, y.stamps[t];
        if Supersedes(y.marks, target, stamp) then
          Some(y.(marks := y.marks[target := stamp], admitted := y.admitted + [t]))
        else Some(y.(refused := y.refused + {t}))
    case Discard(target, stamp) => Some(y.(marks := Marked(y.marks, target, stamp)))
  }

  function Runs(y: Service, deeds: seq<Deed>): Option<Service> {
    if deeds == [] then Some(y)
    else
      var n := |deeds| - 1;
      match Runs(y, deeds[..n])
      case None => None
      case Some(mid) => Act(mid, deeds[n])
  }

  predicate Fresh(y: Service) {
    Initial(y.sys) && y.marks == map[] && |y.stamps| == |y.sys.threads| && y.admitted == [] && y.refused == {}
  }

  ghost predicate Leads(y: Service, deeds: seq<Deed>, z: Service) {
    Fresh(y) && Runs(y, deeds) == Some(z)
  }

  // ---------- the protocol inside ----------

  /** The protocol's own steps among the deeds. */
  function StepsOf(deeds: seq<Deed>): Schedule {
    if deeds == [] then []
    else
      var rest, d := StepsOf(deeds[..|deeds| - 1]), deeds[|deeds| - 1];
      if d.Step? then rest + [(d.t, d.c)] else rest
  }

  /** Leaving the watermark out, every run of the service is a run of the protocol:
      whatever holds of all of the protocol's schedules holds here. */
  lemma {:induction false} ServiceIsProtocol(y: Service, deeds: seq<Deed>)
    requires Runs(y, deeds).Some?
    ensures After(y.sys, StepsOf(deeds)) == Some(Runs(y, deeds).value.sys)
    ensures Runs(y, deeds).value.stamps == y.stamps
    decreases |deeds|
  {
    if deeds == [] {
    } else {
      var n := |deeds| - 1;
      ServiceIsProtocol(y, deeds[..n]);
      if deeds[n].Step? {
        LastMove(y.sys, StepsOf(deeds[..n]), (deeds[n].t, deeds[n].c));
      }
    }
  }

  lemma LeadsReaches(y: Service, deeds: seq<Deed>, z: Service)
    requires Leads(y, deeds, z)
    ensures ReachedBy(y.sys, StepsOf(deeds), z.sys) && z.stamps == y.stamps && Shape(z.sys)
  {
    ServiceIsProtocol(y, deeds);
    RunShape(y.sys, StepsOf(deeds));
  }

  lemma LastDeed(y: Service, deeds: seq<Deed>, d: Deed)
    ensures Runs(y, deeds + [d]) == match Runs(y, deeds) case None => None case Some(mid) => Act(mid, d)
    ensures StepsOf(deeds + [d]) == if d.Step? then StepsOf(deeds) + [(d.t, d.c)] else StepsOf(deeds)
  {
    assert (deeds + [d])[..|deeds|] == deeds;
  }

  lemma {:induction false} RunsConcat(y: Service, a: seq<Deed>, b: seq<Deed>)
    requires Runs(y, a).Some?
    ensures Runs(y, a + b) == Runs(Runs(y, a).value, b) && StepsOf(a + b) == StepsOf(a) + StepsOf(b)
    decreases |b|
  {
    if b == [] {
      assert a + b == a && StepsOf(a) + [] == StepsOf(a);
    } else {
      var n := |b| - 1;
      RunsConcat(y, a, b[..n]);
      assert a + b == a + b[..n] + [b[n]] && b == b[..n] + [b[n]];
      LastDeed(y, a + b[..n], b[n]);
      LastDeed(Runs(y, a).value, b[..n], b[n]);
    }
  }

  function DeedsOf(run: Schedule): seq<Deed> {
    seq(|run|, i requires 0 <= i < |run| => Step(run[i].0, run[i].1))
  }

  ghost predicate AllMayMove(y: Service, run: Schedule) {
    forall j :: 0 <= j < |run| ==> MayMove(y, run[j].0)
  }

  /** Where every upsert that moves has been admitted, the protocol runs freely. */
  lemma {:induction false} Lifts(y: Service, run: Schedule)
    requires After(y.sys, run).Some? && AllMayMove(y, run)
    ensures Runs(y, DeedsOf(run)) == Some(y.(sys := After(y.sys, run).value)) && StepsOf(DeedsOf(run)) == run
    ensures SameKinds(y.sys, After(y.sys, run).value)
    decreases |run|
  {
    if run == [] {
      assert DeedsOf(run) == [];
    } else {
      var n := |run| - 1;
      Lifts(y, run[..n]);
      var d := Step(run[n].0, run[n].1);
      assert DeedsOf(run) == DeedsOf(run[..n]) + [d] && run == run[..n] + [run[n]];
      LastDeed(y, DeedsOf(run[..n]), d);
      assert MayMove(y, run[n].0);
      KindsStep(After(y.sys, run[..n]).value, run[n].0, run[n].1);
    }
  }

  predicate SameKinds(s: Sys, z: Sys) {
    |z.threads| == |s.threads| && forall u :: 0 <= u < |s.threads| ==> (z.threads[u].Upsert? <==> s.threads[u].Upsert?)
  }

  lemma KindsStep(s: Sys, t: Tid, c: Choice)
    requires StepOf(s, t, c).Some?
    ensures SameKinds(s, StepOf(s, t, c).value)
  {
    OnlyMover(s, t, c);
    if !s.threads[t].Call? {
      ResetAdvances(s, t, c);
    }
  }

  // ---------- the watermark ----------

  /** No watermark of `b` is of an earlier second, or of the same second with an id
      that comes first. */
  ghost predicate MarksReach(a: map<string, Stamp>, b: map<string, Stamp>) {
    forall p :: p in a ==> p in b && AtOrBefore(a[p], b[p])
  }

  lemma NotNewerTransitive(a: Stamp, b: Stamp, c: Stamp)
    requires !Newer(a, b) && !Newer(b, c)
    ensures !Newer(a, c)
  {
    NewerTotal(a, b);
    NewerTotal(b, c);
    if a != b && b != c {
      NewerTransitive(c, b, a);
      NewerTotal(a, c);
    }
  }

  lemma LaterTransitive(a: Stamp, b: Stamp, c: Stamp)
    requires AtOrBefore(a, b) && AtOrBefore(b, c)
    ensures AtOrBefore(a, c)
  {
    NewerMeans(a, b);
    NewerMeans(b, c);
    NotNewerTransitive(a, b, c);
    NewerMeans(a, c);
  }

  lemma MarksTransitive(a: map<string, Stamp>, b: map<string, Stamp>, c: map<string, Stamp>)
    requires MarksReach(a, b) && MarksReach(b, c)
    ensures MarksReach(a, c)
  {
    forall p | p in a
      ensures p in c && AtOrBefore(a[p], c[p])
    {
      LaterTransitive(a[p], b[p], c[p]);
    }
  }

  lemma ActReaches(y: Service, d: Deed)
    requires Act(y, d).Some?
    ensures MarksReach(y.marks, Act(y, d).value.marks)
  {
    forall p | p in y.marks
      ensures p in Act(y, d).value.marks && AtOrBefore(y.marks[p], Act(y, d).value.marks[p])
    {
      NewerTotal(y.marks[p], Act(y, d).value.marks[p]);
      NewerMeans(y.marks[p], Act(y, d).value.marks[p]);
    }
  }

  /** Whatever the tasks do, in any interleaving, no watermark ever goes back. */
  lemma {:induction false} WatermarksGrow(y: Service, deeds: seq<Deed>)
    requires Runs(y, deeds).Some?
    ensures MarksReach(y.marks, Runs(y, deeds).value.marks)
    decreases |deeds|
  {
    if deeds == [] {
    } else {
      var n := |deeds| - 1;
      WatermarksGrow(y, deeds[..n]);
      ActReaches(Runs(y, deeds[..n]).value, deeds[n]);
      MarksTransitive(y.marks, Runs(y, deeds[..n]).value.marks, Runs(y, deeds).value.marks);
    }
  }

  // ---------- what the watermark is ----------

  /** The deed tests a grant of `p` with this stamp, whether or not it parses. */
  predicate Delivers(y: Service, d: Deed, p: string, stamp: Stamp) {
    match d
    case Step(_, _) => false
    case Admit(t) =>
      t < |y.sys.threads| && t < |y.stamps| && y.sys.threads[t].Upsert? && y.sys.threads[t].target == p &&
      y.stamps[t] == stamp
    case Discard(target, tested) => target == p && tested == stamp
  }

  ghost predicate Delivered(y: Service, deeds: seq<Deed>, p: string, stamp: Stamp) {
    exists d :: d in deeds && Delivers(y, d, p, stamp)
  }

  /** The watermarks are those of stamps delivered, each the latest of its target. */
  ghost predicate LatestMarks(y: Service, deeds: seq<Deed>, marks: map<string, Stamp>) {
    && (forall p :: p in marks ==> Delivered(y, deeds, p, marks[p]))
    && (forall p, stamp :: Delivered(y, deeds, p, stamp) ==> p in marks && AtOrBefore(stamp, marks[p]))
  }

  lemma DeliveredMore(y: Service, init: seq<Deed>, d: Deed)
    ensures forall p, stamp :: Delivered(y, init + [d], p, stamp) <==>
              Delivered(y, init, p, stamp) || Delivers(y, d, p, stamp)
  {
    forall p, stamp
      ensures Delivered(y, init + [d], p, stamp) <==> Delivered(y, init, p, stamp) || Delivers(y, d, p, stamp)
    {
      if e :| e in init && Delivers(y, e, p, stamp) {
        assert e in init + [d];
      }
      if Delivers(y, d, p, stamp) {
        assert d in init + [d];
      }
    }
  }

  /** What a deed does to the watermarks. */
  lemma DeedMarks(y: Service, mid: Service, d: Deed)
    requires Act(mid, d).Some? && mid.stamps == y.stamps && SameJobs(y.sys, mid.sys)
    ensures forall p :: p in Act(mid, d).value.marks ==>
              (p in mid.marks && Act(mid, d).value.marks[p] == mid.marks[p]) ||
              Delivers(y, d, p, Act(mid, d).value.marks[p])
    ensures forall p, stamp :: Delivers(y, d, p, stamp) ==>
              p in Act(mid, d).value.marks && AtOrBefore(stamp, Act(mid, d).value.marks[p])
  {
    if d.Admit? {
      assert SameJob(y.sys.threads[d.t], mid.sys.threads[d.t]);
    }
    forall p, stamp | Delivers(y, d, p, stamp)
      ensures p in Act(mid, d).value.marks && AtOrBefore(stamp, Act(mid, d).value.marks[p])
    {
      NewerMeans(stamp, Act(mid, d).value.marks[p]);
      NewerTotal(stamp, stamp);
    }
  }

  lemma LatestMore(y: Service, init: seq<Deed>, mid: Service, d: Deed)
    requires Act(mid, d).Some? && mid.stamps == y.stamps && SameJobs(y.sys, mid.sys)
    requires LatestMarks(y, init, mid.marks)
    ensures LatestMarks(y, init + [d], Act(mid, d).value.marks)
  {
    var marks := Act(mid, d).value.marks;
    DeedMarks(y, mid, d);
    DeliveredMore(y, init, d);
    ActReaches(mid, d);
    forall p, stamp | Delivered(y, init, p, stamp)
      ensures p in marks && AtOrBefore(stamp, marks[p])
    {
      LaterTransitive(stamp, mid.marks[p], marks[p]);
    }
  }

  /** Whatever the tasks do, in any interleaving: the watermark of a target is the
      stamp of a grant delivered for it, the one of the greatest time and, among those
      of that second, of the greatest id. */
  lemma {:induction false} WatermarkIsLatest(y: Service, deeds: seq<Deed>, z: Service)
    requires Leads(y, deeds, z)
    ensures LatestMarks(y, deeds, z.marks)
    ensures SameJobs(y.sys, z.sys)
    decreases |deeds|
  {
    if deeds == [] {
    } else {
      var init, d := deeds[..|deeds| - 1], deeds[|deeds| - 1];
      var mid := Runs(y, init).value;
      WatermarkIsLatest(y, init, mid);
      LeadsReaches(y, init, mid);
      LatestMore(y, init, mid, d);
      assert init + [d] == deeds;
      if d.Step? {
        JobsKept(mid.sys, d.t, d.c);
        JobsTransitive(y.sys, mid.sys, z.sys);
      }
    }
  }

  // ---------- admissions ----------

  /** An admitted upsert of `p`. */
  predicate AdmittedFor(y: Service, t: Tid, p: string) {
    t in y.admitted && t < |y.sys.threads| && t < |y.stamps| && y.sys.threads[t].Upsert? && y.sys.threads[t].target == p
  }

  /** No admitted grant of `p` is newer. */
  ghost predicate NewestAdmitted(y: Service, t: Tid, p: string) {
    && AdmittedFor(y, t, p)
    && forall u: Tid :: AdmittedFor(y, u, p) && u != t ==> Newer(y.stamps[t], y.stamps[u])
  }

  /** Admitted threads are upserts below the watermark with stamps of their own, and
      no upsert has begun without being admitted. */
  ghost predicate Admissions(y: Service) {
    && |y.stamps| == |y.sys.threads|
    && (forall t :: t in y.admitted ==> AdmittedAt(y, t))
    && (forall t, u :: t in y.admitted && u in y.admitted && t != u ==> Apart(y, t, u))
    && (forall t :: 0 <= t < |y.sys.threads| ==> HeldBack(y, t))
  }

  predicate AdmittedAt(y: Service, t: Tid) {
    && t < |y.sys.threads| && t < |y.stamps| && y.sys.threads[t].Upsert?
    && y.sys.threads[t].target in y.marks && !Newer(y.stamps[t], y.marks[y.sys.threads[t].target])
  }

  predicate Apart(y: Service, t: Tid, u: Tid) {
    t < |y.sys.threads| && u < |y.sys.threads| && t < |y.stamps| && u < |y.stamps|
    && (y.sys.threads[t].Upsert? && y.sys.threads[u].Upsert? && y.sys.threads[t].target == y.sys.threads[u].target ==>
          y.stamps[t] != y.stamps[u])
  }

  predicate HeldBack(y: Service, t: Tid)
    requires t < |y.sys.threads|
  {
    y.sys.threads[t].Upsert? && t !in y.admitted ==> y.sys.threads[t].stage == DropRates
  }

  lemma StepAdmissions(y: Service, t: Tid, c: Choice)
    requires Admissions(y) && Shape(y.sys) && Act(y, Step(t, c)).Some?
    ensures Admissions(Act(y, Step(t, c)).value)
  {
    var z := Act(y, Step(t, c)).value;
    JobsKept(y.sys, t, c);
    OnlyMover(y.sys, t, c);
    forall u | u in z.admitted
      ensures AdmittedAt(z, u)
    {
      assert AdmittedAt(y, u) && SameJob(y.sys.threads[u], z.sys.threads[u]);
    }
    forall u, v | u in z.admitted && v in z.admitted && u != v
      ensures Apart(z, u, v)
    {
      assert AdmittedAt(y, u) && AdmittedAt(y, v) && Apart(y, u, v);
      assert SameJob(y.sys.threads[u], z.sys.threads[u]) && SameJob(y.sys.threads[v], z.sys.threads[v]);
    }
    forall u | 0 <= u < |z.sys.threads|
      ensures HeldBack(z, u)
    {
      assert HeldBack(y, u) && SameJob(y.sys.threads[u], z.sys.threads[u]);
    }
  }

  lemma AdmitAdmissions(y: Service, t: Tid)
    requires Admissions(y) && Act(y, Admit(t)).Some?
    ensures Admissions(Act(y, Admit(t)).value)
  {
    var z := Act(y, Admit(t)).value;
    NewerTotal(y.stamps[t], y.stamps[t]);
    forall u | u in z.admitted
      ensures AdmittedAt(z, u)
    {
      if u in y.admitted {
        StaysBelow(y, t, u);
      }
    }
    forall u, v | u in z.admitted && v in z.admitted && u != v
      ensures Apart(z, u, v)
    {
      if u in y.admitted && v in y.admitted {
        assert Apart(y, u, v);
      } else if u in y.admitted {
        StaysBelow(y, t, u);
      } else {
        StaysBelow(y, t, v);
      }
    }
    forall u | 0 <= u < |z.sys.threads|
      ensures HeldBack(z, u)
    {
      assert HeldBack(y, u);
    }
  }

  /** An admission is newer than every earlier one of its target. */
  lemma StaysBelow(y: Service, t: Tid, u: Tid)
    requires Admissions(y) && Act(y, Admit(t)).Some? && u in y.admitted
    ensures AdmittedAt(Act(y, Admit(t)).value, u)
    ensures t in Act(y, Admit(t)).value.admitted && y.sys.threads[t].target == y.sys.threads[u].target ==>
              Newer(y.stamps[t], y.stamps[u])
  {
    assert AdmittedAt(y, u);
    var target := y.sys.threads[t].target;
    if Supersedes(y.marks, target, y.stamps[t]) && y.sys.threads[u].target == target {
      var mark := y.marks[target];
      NewerTotal(y.stamps[u], mark);
      NewerTotal(y.stamps[t], mark);
      if y.stamps[u] != mark {
        NewerTransitive(y.stamps[t], mark, y.stamps[u]);
      }
      NewerTotal(y.stamps[t], y.stamps[u]);
    }
  }

  lemma DiscardAdmissions(y: Service, target: string, stamp: Stamp)
    requires Admissions(y)
    ensures Admissions(Act(y, Discard(target, stamp)).value)
  {
    var d := Discard(target, stamp);
    var z := Act(y, d).value;
    ActReaches(y, d);
    forall u | u in z.admitted
      ensures AdmittedAt(z, u)
    {
      assert AdmittedAt(y, u);
      var p := y.sys.threads[u].target;
      NewerMeans(y.marks[p], z.marks[p]);
      NotNewerTransitive(y.stamps[u], y.marks[p], z.marks[p]);
    }
    forall u, v | u in z.admitted && v in z.admitted && u != v
      ensures Apart(z, u, v)
    {
      assert Apart(y, u, v);
    }
    forall u | 0 <= u < |z.sys.threads|
      ensures HeldBack(z, u)
    {
      assert HeldBack(y, u);
    }
  }

  lemma {:induction false} RunAdmissions(y: Service, deeds: seq<Deed>)
    requires Fresh(y) && Runs(y, deeds).Some?
    ensures Admissions(Runs(y, deeds).value)
    decreases |deeds|
  {
    if deeds == [] {
      forall t | 0 <= t < |y.sys.threads|
        ensures HeldBack(y, t)
      {
        assert Begins(y.sys.threads[t]);
      }
    } else {
      var n := |deeds| - 1;
      RunAdmissions(y, deeds[..n]);
      var mid := Runs(y, deeds[..n]).value;
      LeadsReaches(y, deeds[..n], mid);
      match deeds[n]
      case Step(t, c) => StepAdmissions(mid, t, c);
      case Admit(t) => AdmitAdmissions(mid, t);
      case Discard(target, stamp) => DiscardAdmissions(mid, target, stamp);
    }
  }
}
