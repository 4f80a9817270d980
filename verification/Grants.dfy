/** Ingestion of access grants by one task: a last-writer-wins register per target
    pubkey that decides which grant may reset the counters. Here one event is handled
    after another; `GrantTasks` has the tasks' actions interleave. */
module Grants {
  import opened Wrappers
  import opened Words
  import opened AccessKeys
  import opened Profiles
  import opened AccessStore

  /** The order of grants: creation time, then event id. */
  datatype Stamp = Stamp(createdAt: u64, eventId: string)

  /** A grant event; `content` is `None` when it does not parse as a profile. */
  datatype Grant = Grant(target: string, stamp: Stamp, content: Option<UsageProfile>)

  /** Of two grants of one second the higher id wins. */
  predicate Newer(a: Stamp, b: Stamp) {
    a.createdAt > b.createdAt || (a.createdAt == b.createdAt && CompareStrings(a.eventId, b.eventId) == Greater)
  }

  /** `a` is older than `b`, or of the same second with an event id that comes first
      in lexicographic order, or the very same stamp. */
  ghost predicate AtOrBefore(a: Stamp, b: Stamp) {
    && a.createdAt <= b.createdAt
    && (a.createdAt == b.createdAt ==> a.eventId == b.eventId || Precedes(a.eventId, b.eventId))
  }

  /** The later second is newer; within a second the first difference of the event
      ids decides, for the greater character. */
  lemma NewerMeans(a: Stamp, b: Stamp)
    ensures a.createdAt > b.createdAt ==> Newer(a, b)
    ensures a.createdAt < b.createdAt ==> !Newer(a, b)
    ensures a.createdAt == b.createdAt ==> (Newer(a, b) <==> Precedes(b.eventId, a.eventId))
    ensures !Newer(a, b) <==> AtOrBefore(a, b)
  {
    CompareMeans(a.eventId, b.eventId);
  }

  lemma NewerTotal(a: Stamp, b: Stamp)
    ensures !(Newer(a, b) && Newer(b, a))
    ensures Newer(a, b) || Newer(b, a) || a == b
    ensures !Newer(a, a)
  {
    StringsReverse(a.eventId, b.eventId);
    StringsEqual(a.eventId, b.eventId);
    StringsEqual(a.eventId, a.eventId);
  }

  lemma NewerTransitive(a: Stamp, b: Stamp, c: Stamp)
    requires Newer(a, b) && Newer(b, c)
    ensures Newer(a, c)
  {
    if a.createdAt == b.createdAt == c.createdAt {
      StringsReverse(a.eventId, b.eventId);
      StringsReverse(b.eventId, c.eventId);
      StringsTransitive(c.eventId, b.eventId, a.eventId);
      StringsReverse(c.eventId, a.eventId);
    }
  }

  // ---------- the register of one target ----------

  /** The watermark and the stored profile of one target. */
  datatype Reg = Reg(mark: Option<Stamp>, profile: Option<UsageProfile>)

  const EMPTY := Reg(None, None)

  predicate Applies(r: Reg, e: Grant) {
    r.mark.None? || Newer(e.stamp, r.mark.value)
  }

  /** A newer grant moves the watermark, and the profile too if it parses. */
  function Ingest(r: Reg, e: Grant): Reg {
    if Applies(r, e) then Reg(Some(e.stamp), if e.content.Some? then e.content else r.profile) else r
  }

  function IngestAll(r: Reg, es: seq<Grant>): Reg {
    if es == [] then r else Ingest(IngestAll(r, es[..|es| - 1]), es[|es| - 1])
  }

  /** Not older than, by time and then by id. */
  ghost predicate Reaches(mark: Option<Stamp>, stamp: Stamp) {
    mark.Some? && AtOrBefore(stamp, mark.value)
  }

  /** Whatever is delivered, in whatever order, the watermark only grows. */
  lemma {:induction false} MarkGrows(r: Reg, es: seq<Grant>, stamp: Stamp)
    requires Reaches(r.mark, stamp)
    ensures Reaches(IngestAll(r, es).mark, stamp)
    decreases |es|
  {
    if es == [] {
    } else {
      var mid, e := IngestAll(r, es[..|es| - 1]), es[|es| - 1];
      MarkGrows(r, es[..|es| - 1], stamp);
      NewerMeans(stamp, mid.mark.value);
      NewerMeans(stamp, e.stamp);
      if Applies(mid, e) && Newer(stamp, e.stamp) {
        NewerTransitive(stamp, e.stamp, mid.mark.value);
      }
    }
  }

  /** Once the watermark has reached them, deliveries change nothing. */
  lemma {:induction false} Idle(r: Reg, es: seq<Grant>)
    requires forall e :: e in es ==> !Applies(r, e)
    ensures IngestAll(r, es) == r
    decreases |es|
  {
    if es == [] {
    } else {
      Idle(r, es[..|es| - 1]);
    }
  }

  /** `e` is among the events and none of them is newer. */
  ghost predicate Newest(es: seq<Grant>, e: Grant) {
    e in es && forall x :: x in es ==> !Newer(x.stamp, e.stamp)
  }

  lemma {:induction false} MarkIsNewest(es: seq<Grant>) returns (e: Grant)
    requires es != []
    ensures Newest(es, e) && IngestAll(EMPTY, es).mark == Some(e.stamp)
    decreases |es|
  {
    var init, last := es[..|es| - 1], es[|es| - 1];
    assert es == init + [last];
    e := last;
    NewerTotal(last.stamp, last.stamp);
    if init != [] {
      e := MarkIsNewest(init);
      NewerTotal(last.stamp, e.stamp);
      if Newer(last.stamp, e.stamp) {
        forall x | x in init
          ensures !Newer(x.stamp, last.stamp)
        {
          if Newer(x.stamp, last.stamp) {
            NewerTransitive(x.stamp, last.stamp, e.stamp);
          }
        }
        e := last;
      }
    }
  }

  /** After any deliveries the watermark is the stamp of one of them, of the greatest
      time, and among those of that second of the greatest id. */
  lemma MarkIsLatest(es: seq<Grant>)
    ensures IngestAll(EMPTY, es).mark == None <==> es == []
    ensures forall mark :: IngestAll(EMPTY, es).mark == Some(mark) ==>
              (exists e :: e in es && e.stamp == mark) && forall x :: x in es ==> AtOrBefore(x.stamp, mark)
  {
    if es != [] {
      var e := MarkIsNewest(es);
      forall x | x in es
        ensures AtOrBefore(x.stamp, e.stamp)
      {
        NewerMeans(x.stamp, e.stamp);
      }
    }
  }

  ghost predicate SameEvents(a: seq<Grant>, b: seq<Grant>) {
    forall e :: e in a <==> e in b
  }

  /** Any two deliveries of one set of events, in any order and with repeats, end
      at the same watermark. */
  lemma SameEventsSameMark(a: seq<Grant>, b: seq<Grant>)
    requires SameEvents(a, b)
    ensures IngestAll(EMPTY, a).mark == IngestAll(EMPTY, b).mark
  {
    assert a != [] ==> a[0] in b;
    assert b != [] ==> b[0] in a;
    if a != [] && b != [] {
      var x := MarkIsNewest(a);
      var y := MarkIsNewest(b);
      NewerTotal(x.stamp, y.stamp);
    }
  }

  /** An event id names one event. */
  ghost predicate IdsDistinct(es: seq<Grant>) {
    forall x, y :: x in es && y in es && x.stamp == y.stamp ==> x == y
  }

  /** Of events handled one after another, the newest is the profile if it parses,
      whatever the order. */
  lemma {:induction false} NewestDecides(es: seq<Grant>, e: Grant)
    requires IdsDistinct(es) && Newest(es, e) && e.content.Some?
    ensures IngestAll(EMPTY, es) == Reg(Some(e.stamp), e.content)
    decreases |es|
  {
    var init, last := es[..|es| - 1], es[|es| - 1];
    assert es == init + [last];
    if e in init {
      NewestDecides(init, e);
    } else if init != [] {
      var x := MarkIsNewest(init);
      NewerTotal(e.stamp, x.stamp);
    }
  }

  lemma {:induction false} NoneParsesNoProfile(es: seq<Grant>)
    requires forall e :: e in es ==> e.content.None?
    ensures IngestAll(EMPTY, es).profile == None
    decreases |es|
  {
    if es == [] {
    } else {
      NoneParsesNoProfile(es[..|es| - 1]);
    }
  }

  ghost predicate Convergent(es: seq<Grant>) {
    forall a, b :: SameEvents(a, es) && SameEvents(b, es) ==> IngestAll(EMPTY, a).profile == IngestAll(EMPTY, b).profile
  }

  /** Handled one after another, all deliveries of a set of events end with one
      profile exactly when its newest event parses or none does: an unparsable event
      moves the watermark without moving the profile, and so shuts out whatever comes
      after it. */
  lemma ConvergentIff(es: seq<Grant>, newest: Grant)
    requires IdsDistinct(es) && Newest(es, newest)
    ensures Convergent(es) <==> newest.content.Some? || forall e :: e in es ==> e.content.None?
  {
    if newest.content.Some? {
      NewestParses(es, newest);
    } else if forall e :: e in es ==> e.content.None? {
      NoneParses(es);
    } else {
      var p :| p in es && p.content.Some?;
      SomeShutOut(es, newest, p);
    }
  }

  lemma NewestParses(es: seq<Grant>, newest: Grant)
    requires IdsDistinct(es) && Newest(es, newest) && newest.content.Some?
    ensures Convergent(es)
  {
    forall a | SameEvents(a, es)
      ensures IngestAll(EMPTY, a).profile == newest.content
    {
      NewestDecides(a, newest);
    }
  }

  lemma NoneParses(es: seq<Grant>)
    requires forall e :: e in es ==> e.content.None?
    ensures Convergent(es)
  {
    forall a | SameEvents(a, es)
      ensures IngestAll(EMPTY, a).profile == None
    {
      NoneParsesNoProfile(a);
    }
  }

  lemma SomeShutOut(es: seq<Grant>, newest: Grant, p: Grant)
    requires IdsDistinct(es) && Newest(es, newest) && newest.content.None? && p in es && p.content.Some?
    ensures !Convergent(es)
  {
    ShutOut(es, newest, p);
    assert SameEvents([newest] + es, es) && SameEvents([p, newest] + es, es);
  }

  /** An unparsable newest event first leaves no profile; after another it leaves
      that one's. */
  lemma ShutOut(es: seq<Grant>, newest: Grant, p: Grant)
    requires IdsDistinct(es) && Newest(es, newest) && newest.content.None? && p in es && p.content.Some?
    ensures IngestAll(EMPTY, [newest] + es).profile == None
    ensures IngestAll(EMPTY, [p, newest] + es).profile == p.content
  {
    var one, two := [newest], [p, newest];
    NewerTotal(p.stamp, newest.stamp);
    assert one[..0] == [];
    assert IngestAll(EMPTY, one) == Reg(Some(newest.stamp), None);
    assert two[..1] == [p] && two[..1][..0] == [];
    assert IngestAll(EMPTY, two[..1]) == Reg(Some(p.stamp), p.content);
    assert IngestAll(EMPTY, two) == Reg(Some(newest.stamp), p.content);
    IngestConcat(EMPTY, one, es);
    IngestConcat(EMPTY, two, es);
    Idle(IngestAll(EMPTY, one), es);
    Idle(IngestAll(EMPTY, two), es);
  }

  lemma {:induction false} IngestConcat(r: Reg, a: seq<Grant>, b: seq<Grant>)
    ensures IngestAll(r, a + b) == IngestAll(IngestAll(r, a), b)
    decreases |b|
  {
    if b == [] {
      assert a + b == a;
    } else {
      IngestConcat(r, a, b[..|b| - 1]);
      assert (a + b)[..|a + b| - 1] == a + b[..|b| - 1];
    }
  }

  // ---------- the ingest tasks ----------

  /** The events for one target, in order. */
  function ForTarget(es: seq<Grant>, target: string): seq<Grant> {
    if es == [] then []
    else
      var rest := ForTarget(es[..|es| - 1], target);
      if es[|es| - 1].target == target then rest + [es[|es| - 1]] else rest
  }

  lemma IngestOneMore(r: Reg, es: seq<Grant>, e: Grant, target: string)
    ensures IngestAll(r, ForTarget(es + [e], target)) ==
            if e.target == target then Ingest(IngestAll(r, ForTarget(es, target)), e)
            else IngestAll(r, ForTarget(es, target))
  {
    assert (es + [e])[..|es|] == es;
    if e.target == target {
      var before := ForTarget(es, target);
      assert (before + [e])[..|before|] == before;
    }
  }

  class Ingester {
    var applied: map<string, Stamp>
    const store: Controller

    constructor (store: Controller)
      ensures this.store == store && applied == map[]
    {
      this.store := store;
      applied := map[];
    }

    ghost function RegOf(target: string): Reg
      reads this, store
    {
      Reg(if target in applied then Some(applied[target]) else None,
          if target in store.profiles then Some(store.profiles[target]) else None)
    }

    /** One atomic test-and-set of the watermark of a target: a first grant and one of
        a later second are applied, one of an earlier second never is, and within a
        second the greater id is. Afterwards the watermark has reached the stamp, and
        no watermark has gone back. */
    method ShouldApplyGrantEvent(target: string, stamp: Stamp) returns (apply: bool)
      modifies this
      ensures target !in old(applied) ==> apply
      ensures target in old(applied) && old(applied)[target].createdAt < stamp.createdAt ==> apply
      ensures target in old(applied) && old(applied)[target].createdAt > stamp.createdAt ==> !apply
      ensures target in old(applied) && old(applied)[target].createdAt == stamp.createdAt ==>
                (apply <==> Precedes(old(applied)[target].eventId, stamp.eventId))
      ensures apply <==> target !in old(applied) || Newer(stamp, old(applied)[target])
      ensures applied == if apply then old(applied)[target := stamp] else old(applied)
      ensures target in applied && AtOrBefore(stamp, applied[target])
      ensures forall p :: p in old(applied) ==> p in applied && AtOrBefore(old(applied)[p], applied[p])
    {
      NewerMeans(stamp, stamp);
      if target !in applied {
        applied := applied[target := stamp];
        return true;
      }
      var existing := applied[target];
      NewerMeans(stamp, existing);
      NewerMeans(existing, stamp);
      NewerTotal(stamp, existing);
      apply := Newer(stamp, existing);
      if apply {
        applied := applied[target := stamp];
      }
    }

    /** Handles one event: the register of its target steps, every other target
        is left alone, and an event that is old or does not parse resets nothing. */
    method IngestGrant(e: Grant, now: u64)
      requires store.Valid() && store as object != this
      modifies this, store
      ensures store.Valid()
      ensures forall p :: RegOf(p) == if p == e.target then Ingest(old(RegOf(p)), e) else old(RegOf(p))
      ensures !Applies(old(RegOf(e.target)), e) || e.content.None? ==>
                && store.accessRate == old(store.accessRate) && store.quota == old(store.quota)
                && store.profiles == old(store.profiles)
    {
      var apply := ShouldApplyGrantEvent(e.target, e.stamp);
      if !apply {
        return;
      }
      if e.content.Some? {
        store.UpsertUsageProfileAndResetStates(e.target, e.content.value, now);
      }
    }

    /** The loop over a fetched batch: per target, the fold of its own events. */
    method IngestBatch(es: seq<Grant>, now: seq<u64>)
      requires |now| == |es| && store.Valid() && store as object != this
      modifies this, store
      ensures store.Valid()
      ensures forall p :: RegOf(p) == IngestAll(old(RegOf(p)), ForTarget(es, p))
    {
      for i := 0 to |es|
        invariant store.Valid()
        invariant forall p :: RegOf(p) == IngestAll(old(RegOf(p)), ForTarget(es[..i], p))
      {
        IngestGrant(es[i], now[i]);
        assert es[..i + 1] == es[..i] + [es[i]];
        forall p
          ensures RegOf(p) == IngestAll(old(RegOf(p)), ForTarget(es[..i + 1], p))
        {
          IngestOneMore(old(RegOf(p)), es[..i], es[i], p);
        }
      }
      assert es[..|es|] == es;
    }
  }
}
