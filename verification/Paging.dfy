/** Listing payments: filter, stable newest-first sort, and the window that a
    page shows; and the second paging of the invoice list over it. */
module Paging {
  import opened Wrappers
  import opened Words

  datatype Direction = Inbound | Outbound

  datatype Kind = Bolt11 | Bolt11Jit | Bolt12Offer | Bolt12Refund | Spontaneous | Onchain

  datatype PaymentMethod = MethodBolt11 | MethodBolt12 | MethodKeysend

  datatype Status = Pending | Succeeded | Failed

  datatype Payment = Payment(id: string, direction: Direction, kind: Kind, status: Status, updated: u64)

  datatype ListQuery = ListQuery(from: Option<u64>, until: Option<u64>, unpaid: Option<bool>,
                                 direction: Option<Direction>, paymentMethod: Option<PaymentMethod>)

  predicate KindMatches(m: PaymentMethod, k: Kind) {
    match (m, k)
    case (MethodBolt11, Bolt11) => true
    case (MethodBolt11, Bolt11Jit) => true
    case (MethodBolt12, Bolt12Offer) => true
    case (MethodBolt12, Bolt12Refund) => true
    case (MethodKeysend, Spontaneous) => true
    case _ => false
  }

  /** The service's filter, test by test. */
  predicate Matches(q: ListQuery, p: Payment) {
    if q.from.Some? && p.updated < q.from.value then false
    else if q.until.Some? && p.updated > q.until.value then false
    else if q.direction.Some? && p.direction != q.direction.value then false
    else if q.paymentMethod.Some? && !KindMatches(q.paymentMethod.value, p.kind) then false
    else
      var includeUnpaid := q.unpaid.Some? && q.unpaid.value;
      includeUnpaid || p.status != Pending
  }

  predicate InPeriod(from: Option<u64>, until: Option<u64>, p: Payment) {
    (from.None? || from.value <= p.updated) && (until.None? || p.updated <= until.value)
  }

  /** What a query asks for: the period, the direction and the kinds of its payment
      method, and a pending payment only if unpaid ones are asked for. */
  predicate Wanted(q: ListQuery, p: Payment) {
    && InPeriod(q.from, q.until, p)
    && (q.direction == None || q.direction == Some(p.direction))
    && (q.paymentMethod == Some(MethodBolt11) ==> p.kind in {Bolt11, Bolt11Jit})
    && (q.paymentMethod == Some(MethodBolt12) ==> p.kind in {Bolt12Offer, Bolt12Refund})
    && (q.paymentMethod == Some(MethodKeysend) ==> p.kind == Spontaneous)
    && (p.status == Pending ==> q.unpaid == Some(true))
  }

  function Filter<T>(s: seq<T>, f: T -> bool): seq<T> {
    if s == [] then []
    else
      var n := |s| - 1;
      if f(s[n]) then Filter(s[..n], f) + [s[n]] else Filter(s[..n], f)
  }

  // ---------- the stable sort ----------

  /** Newest first. */
  ghost predicate Descending(s: seq<Payment>) {
    forall i, j :: 0 <= i < j < |s| ==> s[i].updated >= s[j].updated
  }

  /** Behind everything at least as new. */
  function Insert(s: seq<Payment>, p: Payment): seq<Payment> {
    if s == [] || s[|s| - 1].updated >= p.updated then s + [p]
    else Insert(s[..|s| - 1], p) + [s[|s| - 1]]
  }

  /** The stable sort, newest first. */
  function Sort(s: seq<Payment>): seq<Payment> {
    if s == [] then [] else Insert(Sort(s[..|s| - 1]), s[|s| - 1])
  }

  lemma {:induction false} InsertHolds(s: seq<Payment>, p: Payment)
    ensures multiset(Insert(s, p)) == multiset(s) + multiset{p} && |Insert(s, p)| == |s| + 1
    decreases |s|
  {
    if s == [] || s[|s| - 1].updated >= p.updated {
    } else {
      var n := |s| - 1;
      InsertHolds(s[..n], p);
      assert s == s[..n] + [s[n]];
    }
  }

  /** Newest first, and nothing older than `time`. */
  ghost predicate DescendingTo(s: seq<Payment>, time: u64) {
    Descending(s) && forall x :: x in s ==> x.updated >= time
  }

  lemma DescendingPush(s: seq<Payment>, y: Payment)
    requires DescendingTo(s, y.updated)
    ensures Descending(s + [y])
  {
  }

  lemma {:induction false} InsertDescends(s: seq<Payment>, p: Payment, time: u64)
    requires DescendingTo(s, time) && p.updated >= time
    ensures DescendingTo(Insert(s, p), time)
    decreases |s|
  {
    if s == [] || s[|s| - 1].updated >= p.updated {
    } else {
      var a, y := s[..|s| - 1], s[|s| - 1];
      InsertDescends(a, p, y.updated);
      DescendingPush(Insert(a, p), y);
    }
  }

  lemma InsertSorted(s: seq<Payment>, p: Payment)
    requires Descending(s)
    ensures Descending(Insert(s, p)) && multiset(Insert(s, p)) == multiset(s) + multiset{p}
    ensures |Insert(s, p)| == |s| + 1
  {
    InsertHolds(s, p);
    InsertDescends(s, p, 0);
  }

  lemma {:induction false} SortSorted(s: seq<Payment>)
    ensures Descending(Sort(s)) && multiset(Sort(s)) == multiset(s) && |Sort(s)| == |s|
    decreases |s|
  {
    if s == [] {
    } else {
      SortSorted(s[..|s| - 1]);
      InsertSorted(Sort(s[..|s| - 1]), s[|s| - 1]);
      assert s == s[..|s| - 1] + [s[|s| - 1]];
    }
  }

  lemma FilterAppend<T>(s: seq<T>, x: T, f: T -> bool)
    ensures Filter(s + [x], f) == if f(x) then Filter(s, f) + [x] else Filter(s, f)
  {
    assert (s + [x])[..|s|] == s;
  }

  lemma {:induction false} FilterHas<T>(s: seq<T>, f: T -> bool, x: T)
    ensures x in Filter(s, f) <==> x in s && f(x)
    decreases |s|
  {
    if s == [] {
    } else {
      FilterHas(s[..|s| - 1], f, x);
      assert s == s[..|s| - 1] + [s[|s| - 1]];
    }
  }

  lemma InsertBefore(s: seq<Payment>, y: Payment, p: Payment)
    requires y.updated < p.updated
    ensures Insert(s + [y], p) == Insert(s, p) + [y]
  {
    assert (s + [y])[..|s|] == s;
  }

  lemma FilterLastNewer(s: seq<Payment>, p: Payment, f: Payment -> bool)
    requires forall x :: x in s ==> x.updated >= p.updated
    ensures Insert(Filter(s, f), p) == Filter(s, f) + [p]
  {
    var t := Filter(s, f);
    if t != [] {
      FilterHas(s, f, t[|t| - 1]);
    }
  }

  lemma FilterInsertStep(a: seq<Payment>, y: Payment, p: Payment, f: Payment -> bool)
    requires y.updated < p.updated
    requires Filter(Insert(a, p), f) == if f(p) then Insert(Filter(a, f), p) else Filter(a, f)
    ensures Filter(Insert(a + [y], p), f) == if f(p) then Insert(Filter(a + [y], f), p) else Filter(a + [y], f)
  {
    InsertBefore(a, y, p);
    FilterAppend(Insert(a, p), y, f);
    FilterAppend(a, y, f);
    InsertBefore(Filter(a, f), y, p);
  }

  lemma FilterInsertLast(s: seq<Payment>, p: Payment, f: Payment -> bool)
    requires Descending(s) && (s == [] || s[|s| - 1].updated >= p.updated)
    ensures Filter(Insert(s, p), f) == if f(p) then Insert(Filter(s, f), p) else Filter(s, f)
  {
    FilterAppend(s, p, f);
    FilterLastNewer(s, p, f);
  }

  /** Inserting and filtering commute on a sorted list. */
  lemma {:induction false} FilterInsert(s: seq<Payment>, p: Payment, f: Payment -> bool)
    requires Descending(s)
    ensures Filter(Insert(s, p), f) == if f(p) then Insert(Filter(s, f), p) else Filter(s, f)
    decreases |s|
  {
    if s == [] || s[|s| - 1].updated >= p.updated {
      FilterInsertLast(s, p, f);
    } else {
      var a, y := s[..|s| - 1], s[|s| - 1];
      assert s == a + [y];
      FilterInsert(a, p, f);
      FilterInsertStep(a, y, p, f);
    }
  }

  lemma SortAppend(s: seq<Payment>, x: Payment)
    ensures Sort(s + [x]) == Insert(Sort(s), x)
  {
    assert (s + [x])[..|s|] == s;
  }

  lemma FilterSortStep(a: seq<Payment>, y: Payment, f: Payment -> bool)
    requires Filter(Sort(a), f) == Sort(Filter(a, f))
    ensures Filter(Sort(a + [y]), f) == Sort(Filter(a + [y], f))
  {
    SortSorted(a);
    SortAppend(a, y);
    FilterInsert(Sort(a), y, f);
    FilterAppend(a, y, f);
    SortAppend(Filter(a, f), y);
  }

  /** Filtering before or after the stable sort is the same. */
  lemma {:induction false} FilterSort(s: seq<Payment>, f: Payment -> bool)
    ensures Filter(Sort(s), f) == Sort(Filter(s, f))
    decreases |s|
  {
    if s == [] {
    } else {
      var n := |s| - 1;
      FilterSort(s[..n], f);
      FilterSortStep(s[..n], s[n], f);
      assert s == s[..n] + [s[n]];
    }
  }

  /** Elements of one time keep their order. */
  function AtTime(s: seq<Payment>, time: u64): seq<Payment> {
    Filter(s, (p: Payment) => p.updated == time)
  }

  lemma {:induction false} SortOfEqualTimes(s: seq<Payment>)
    requires forall i, j :: 0 <= i < |s| && 0 <= j < |s| ==> s[i].updated == s[j].updated
    ensures Sort(s) == s
    decreases |s|
  {
    if s == [] {
    } else {
      SortOfEqualTimes(s[..|s| - 1]);
    }
  }

  /** Sorting is stable. */
  lemma SortStable(s: seq<Payment>, time: u64)
    ensures AtTime(Sort(s), time) == AtTime(s, time)
  {
    var f := (p: Payment) => p.updated == time;
    FilterSort(s, f);
    forall i | 0 <= i < |Filter(s, f)|
      ensures Filter(s, f)[i].updated == time
    {
      FilterHas(s, f, Filter(s, f)[i]);
    }
    SortOfEqualTimes(Filter(s, f));
  }

  ghost predicate StableSortOf(s: seq<Payment>, t: seq<Payment>) {
    Descending(t) && forall time :: AtTime(t, time) == AtTime(s, time)
  }

  lemma LastAtTime(t: seq<Payment>)
    requires t != []
    ensures AtTime(t, t[|t| - 1].updated) != [] && var a := AtTime(t, t[|t| - 1].updated); a[|a| - 1] == t[|t| - 1]
  {
  }

  lemma DescendingFront(t: seq<Payment>)
    requires Descending(t) && t != []
    ensures Descending(t[..|t| - 1])
  {
  }

  lemma NothingNewerAtEnd(t: seq<Payment>, p: Payment)
    requires Descending(t) && t != [] && p in t
    ensures p.updated >= t[|t| - 1].updated
  {
  }

  /** A list is determined by being newest-first and by its order within each
      time: the stable sort is the only such list. */
  lemma {:induction false} StableSortUnique(t: seq<Payment>, u: seq<Payment>)
    requires Descending(t) && Descending(u) && forall time :: AtTime(t, time) == AtTime(u, time)
    ensures t == u
    decreases |t| + |u|
  {
    if t == [] || u == [] {
      if t != [] { LastAtTime(t); }
      if u != [] { LastAtTime(u); }
    } else {
      var x, y := t[|t| - 1], u[|u| - 1];
      LastAtTime(t);
      LastAtTime(u);
      FilterHas(u, (p: Payment) => p.updated == x.updated, x);
      FilterHas(t, (p: Payment) => p.updated == y.updated, y);
      NothingNewerAtEnd(t, y);
      NothingNewerAtEnd(u, x);
      assert x == y;
      var t', u' := t[..|t| - 1], u[..|u| - 1];
      assert t == t' + [x] && u == u' + [x];
      DescendingFront(t);
      DescendingFront(u);
      forall time
        ensures AtTime(t', time) == AtTime(u', time)
      {
        SameWithoutLast(t', u', x, time);
      }
      StableSortUnique(t', u');
    }
  }

  lemma SameWithoutLast(t: seq<Payment>, u: seq<Payment>, x: Payment, time: u64)
    requires AtTime(t + [x], time) == AtTime(u + [x], time)
    ensures AtTime(t, time) == AtTime(u, time)
  {
    var f := (p: Payment) => p.updated == time;
    FilterAppend(t, x, f);
    FilterAppend(u, x, f);
    if f(x) {
      assert (Filter(t, f) + [x])[..|Filter(t, f)|] == Filter(t, f);
      assert (Filter(u, f) + [x])[..|Filter(u, f)|] == Filter(u, f);
    }
  }

  /** What a library's stable newest-first sort returns is exactly `Sort`. */
  lemma SortCharacterized(s: seq<Payment>, t: seq<Payment>)
    ensures StableSortOf(s, t) <==> t == Sort(s)
  {
    SortSorted(s);
    forall time
      ensures AtTime(Sort(s), time) == AtTime(s, time)
    {
      SortStable(s, time);
    }
    if StableSortOf(s, t) {
      StableSortUnique(t, Sort(s));
    }
  }

  // ---------- windows ----------

  /** Elements `offset` up to `offset + limit`, as far as there are any. */
  function Window<T>(s: seq<T>, offset: nat, limit: Option<u64>): seq<T> {
    var lo := Min(offset, |s|);
    var hi := if limit.Some? then Min(offset + limit.value, |s|) else |s|;
    s[lo..hi]
  }

  /** The first `k` pages of `n` elements each. */
  function Pages<T>(s: seq<T>, n: u64, k: nat): seq<T> {
    if k == 0 then [] else Pages(s, n, k - 1) + Window(s, (k - 1) * n, Some(n))
  }

  lemma PageJoins<T>(s: seq<T>, lo: nat, n: u64)
    ensures s[..Min(lo, |s|)] + Window(s, lo, Some(n)) == s[..Min(lo + n, |s|)]
  {
  }

  /** Consecutive pages tile the list: no gap, no repeat, and nothing lost once
      they reach its end. */
  lemma {:induction false} PagesTile<T>(s: seq<T>, n: u64, k: nat)
    ensures Pages(s, n, k) == s[..Min(k * n, |s|)]
    decreases k
  {
    if k == 0 {
    } else {
      PagesTile(s, n, k - 1);
      PageJoins(s, (k - 1) * n, n);
      assert k * n == (k - 1) * n + n;
    }
  }

  // ---------- a listing by positions ----------

  /** Position `k` of `all` comes before position `l`: it is newer, or as new and first. */
  predicate RanksBefore(all: seq<Payment>, k: nat, l: nat) {
    && k < |all| && l < |all|
    && (all[k].updated > all[l].updated || (all[k].updated == all[l].updated && k < l))
  }

  ghost predicate Below(at: seq<nat>, n: nat) {
    forall i :: 0 <= i < |at| ==> at[i] < n
  }

  ghost predicate Ordered(all: seq<Payment>, at: seq<nat>) {
    Below(at, |all|) && forall i, j :: 0 <= i < j < |at| ==> RanksBefore(all, at[i], at[j])
  }

  /** `at` are the positions in `all` of the payments that `f` selects, each once, newest
      first and as they stand within one time. */
  ghost predicate Ranking(all: seq<Payment>, f: Payment -> bool, at: seq<nat>) {
    Ordered(all, at) && forall k :: k in at <==> 0 <= k < |all| && f(all[k])
  }

  ghost function Picked(all: seq<Payment>, at: seq<nat>): seq<Payment>
    requires Below(at, |all|)
  {
    seq(|at|, i requires 0 <= i < |at| => all[at[i]])
  }

  ghost function InsertRank(all: seq<Payment>, at: seq<nat>, k: nat): seq<nat>
    requires Below(at, |all|) && k < |all|
  {
    if at == [] || all[at[|at| - 1]].updated >= all[k].updated then at + [k]
    else InsertRank(all, at[..|at| - 1], k) + [at[|at| - 1]]
  }

  lemma RankedPush(all: seq<Payment>, r: seq<nat>, y: nat)
    requires Ordered(all, r) && y < |all| && forall i :: i in r ==> RanksBefore(all, i, y)
    ensures Ordered(all, r + [y])
  {
    var t := r + [y];
    forall i, j | 0 <= i < j < |t|
      ensures RanksBefore(all, t[i], t[j])
    {
      assert r[i] in r;
    }
  }

  lemma LastRank(all: seq<Payment>, at: seq<nat>, k: nat)
    requires Ordered(all, at) && k < |all| && Below(at, k)
    requires at != [] ==> all[at[|at| - 1]].updated >= all[k].updated
    ensures Ordered(all, at + [k])
  {
    forall i | i in at
      ensures RanksBefore(all, i, k)
    {
      var j :| 0 <= j < |at| && at[j] == i;
      assert j == |at| - 1 || RanksBefore(all, at[j], at[|at| - 1]);
    }
    RankedPush(all, at, k);
  }

  lemma {:induction false} InsertRankHolds(all: seq<Payment>, at: seq<nat>, k: nat)
    requires Ordered(all, at) && k < |all| && Below(at, k)
    ensures forall i :: i in InsertRank(all, at, k) <==> i in at || i == k
    ensures Ordered(all, InsertRank(all, at, k))
    decreases |at|
  {
    if at == [] || all[at[|at| - 1]].updated >= all[k].updated {
      LastRank(all, at, k);
    } else {
      var a, y := at[..|at| - 1], at[|at| - 1];
      assert at == a + [y];
      InsertRankHolds(all, a, k);
      var r := InsertRank(all, a, k);
      forall i | i in r
        ensures RanksBefore(all, i, y)
      {
        if i in a {
          var j :| 0 <= j < |a| && a[j] == i;
          assert at[j] == i && RanksBefore(all, at[j], at[|at| - 1]);
        }
      }
      RankedPush(all, r, y);
    }
  }

  lemma {:induction false} InsertRankPicks(all: seq<Payment>, at: seq<nat>, k: nat)
    requires Below(at, |all|) && k < |all|
    ensures Below(InsertRank(all, at, k), |all|)
    ensures Picked(all, InsertRank(all, at, k)) == Insert(Picked(all, at), all[k])
    decreases |at|
  {
    if at == [] || all[at[|at| - 1]].updated >= all[k].updated {
    } else {
      InsertRankPicks(all, at[..|at| - 1], k);
      assert Picked(all, at)[..|at| - 1] == Picked(all, at[..|at| - 1]);
    }
  }

  lemma OrderedGrows(s: seq<Payment>, x: Payment, at: seq<nat>)
    requires Ordered(s, at)
    ensures Ordered(s + [x], at) && Picked(s + [x], at) == Picked(s, at)
  {
    forall i, j | 0 <= i < j < |at|
      ensures RanksBefore(s + [x], at[i], at[j])
    {
      assert RanksBefore(s, at[i], at[j]);
    }
  }

  /** The stable sort of the filtered list picks the payments by such positions. */
  lemma {:induction false} RankingExists(all: seq<Payment>, f: Payment -> bool) returns (at: seq<nat>)
    ensures Ranking(all, f, at) && Picked(all, at) == Sort(Filter(all, f))
    decreases |all|
  {
    if all == [] {
      at := [];
    } else {
      var n := |all| - 1;
      at := RankingExists(all[..n], f);
      assert all == all[..n] + [all[n]];
      OrderedGrows(all[..n], all[n], at);
      FilterAppend(all[..n], all[n], f);
      if f(all[n]) {
        SortAppend(Filter(all[..n], f), all[n]);
        InsertRankHolds(all, at, n);
        InsertRankPicks(all, at, n);
        at := InsertRank(all, at, n);
      }
    }
  }

  lemma SomeIn(a: seq<nat>, b: seq<nat>)
    requires a != [] && forall k :: k in a ==> k in b
    ensures b != []
  {
    assert a[0] in b;
  }

  lemma LeastFirst(all: seq<Payment>, a: seq<nat>, k: nat)
    requires Ordered(all, a) && k in a
    ensures k == a[0] || RanksBefore(all, a[0], k)
  {
    var i :| 0 <= i < |a| && a[i] == k;
    assert i == 0 || RanksBefore(all, a[0], a[i]);
  }

  lemma FirstRank(all: seq<Payment>, a: seq<nat>, b: seq<nat>)
    requires Ordered(all, a) && Ordered(all, b) && a != [] && b != [] && forall k :: k in a <==> k in b
    ensures a[0] == b[0]
  {
    LeastFirst(all, b, a[0]);
    LeastFirst(all, a, b[0]);
  }

  lemma TailKeeps(all: seq<Payment>, a: seq<nat>, b: seq<nat>)
    requires Ordered(all, a) && Ordered(all, b) && a != [] && b != [] && a[0] == b[0]
    requires forall k :: k in a <==> k in b
    ensures forall k :: k in a[1..] ==> k in b[1..]
    ensures Ordered(all, a[1..])
  {
    forall k | k in a[1..]
      ensures k in b[1..]
    {
      var i :| 0 <= i < |a[1..]| && a[1..][i] == k;
      assert RanksBefore(all, a[0], a[i + 1]);
      assert k in b && b == [b[0]] + b[1..];
    }
  }

  lemma {:induction false} SameOrdered(all: seq<Payment>, a: seq<nat>, b: seq<nat>)
    requires Ordered(all, a) && Ordered(all, b) && forall k :: k in a <==> k in b
    ensures a == b
    decreases |a|
  {
    if a != [] {
      SomeIn(a, b);
    }
    if b != [] {
      SomeIn(b, a);
    }
    if a == [] {
    } else {
      FirstRank(all, a, b);
      TailKeeps(all, a, b);
      TailKeeps(all, b, a);
      SameOrdered(all, a[1..], b[1..]);
    }
  }

  /** There is only one such list of positions. */
  lemma RankingUnique(all: seq<Payment>, f: Payment -> bool, at: seq<nat>, other: seq<nat>)
    requires Ranking(all, f, at) && Ranking(all, f, other)
    ensures at == other
  {
    SameOrdered(all, at, other);
  }

  lemma {:induction false} FilterCount<T>(s: seq<T>, f: T -> bool, x: T)
    ensures multiset(Filter(s, f))[x] == if f(x) then multiset(s)[x] else 0
    decreases |s|
  {
    if s == [] {
    } else {
      FilterCount(s[..|s| - 1], f, x);
      assert s == s[..|s| - 1] + [s[|s| - 1]];
    }
  }

  // ---------- the listing ----------

  function ListPayments(all: seq<Payment>, q: ListQuery, offset: Option<u64>, limit: Option<u64>): seq<Payment> {
    var sorted := Sort(Filter(all, (p: Payment) => Matches(q, p)));
    Window(sorted, if offset.Some? then offset.value else 0, limit)
  }

  /** `r` is a window of the payments of `all` that `f` selects, newest first and as
      they stand within one time; `at` are their positions. Without a window it is all
      of them, each as often as it is stored. */
  ghost predicate PageOf(all: seq<Payment>, f: Payment -> bool, offset: Option<u64>, limit: Option<u64>,
                         at: seq<nat>, r: seq<Payment>) {
    && Ranking(all, f, at)
    && r == Window(Picked(all, at), if offset.Some? then offset.value else 0, limit)
    && (forall p :: p in r ==> f(p) && p in all)
    && (limit.None? && (offset.None? || offset == Some(0)) ==>
          forall p :: multiset(r)[p] == if f(p) then multiset(all)[p] else 0)
  }

  lemma SortedHas(all: seq<Payment>, f: Payment -> bool, p: Payment)
    ensures multiset(Sort(Filter(all, f)))[p] == if f(p) then multiset(all)[p] else 0
    ensures p in Sort(Filter(all, f)) ==> f(p) && p in all
  {
    SortSorted(Filter(all, f));
    FilterCount(all, f, p);
    assert p in Sort(Filter(all, f)) ==> p in multiset(Sort(Filter(all, f)));
    assert p in all <==> p in multiset(all);
  }

  lemma WindowHas<T>(s: seq<T>, offset: nat, limit: Option<u64>)
    ensures forall x :: x in Window(s, offset, limit) ==> x in s
    ensures offset == 0 && limit.None? ==> Window(s, offset, limit) == s
  {
  }

  /** The window of the stable sort of what is selected is such a page. */
  lemma SortedPage(all: seq<Payment>, f: Payment -> bool, offset: Option<u64>, limit: Option<u64>, r: seq<Payment>)
    returns (at: seq<nat>)
    requires r == Window(Sort(Filter(all, f)), if offset.Some? then offset.value else 0, limit)
    ensures PageOf(all, f, offset, limit, at, r)
  {
    at := RankingExists(all, f);
    WindowHas(Sort(Filter(all, f)), if offset.Some? then offset.value else 0, limit);
    forall p
      ensures p in r ==> f(p) && p in all
      ensures limit.None? && (offset.None? || offset == Some(0)) ==>
                multiset(r)[p] == if f(p) then multiset(all)[p] else 0
    {
      SortedHas(all, f, p);
    }
  }

  lemma SameFilter(s: seq<Payment>, f: Payment -> bool, g: Payment -> bool)
    requires forall p :: f(p) <==> g(p)
    ensures Filter(s, f) == Filter(s, g)
  {
    if s == [] {
    } else {
      SameFilter(s[..|s| - 1], f, g);
    }
  }

  lemma MatchesWanted(all: seq<Payment>, q: ListQuery)
    ensures Filter(all, (p: Payment) => Matches(q, p)) == Filter(all, (p: Payment) => Wanted(q, p))
  {
    SameFilter(all, (p: Payment) => Matches(q, p), (p: Payment) => Wanted(q, p));
  }

  /** Skip and take. */
  method SkipTake(sorted: seq<Payment>, limit: Option<u64>, offset: Option<u64>) returns (r: seq<Payment>)
    ensures r == Window(sorted, if offset.Some? then offset.value else 0, limit)
  {
    var offsetVal := if offset.Some? then offset.value else 0;
    r := sorted;
    if offsetVal > 0 {
      r := if offsetVal < |r| then r[offsetVal..] else [];
    }
    if limit.Some? {
      r := if limit.value < |r| then r[..limit.value] else r;
    }
  }

  /** Filter, sort, skip and take, as the service does it: exactly a page of the
      payments that are wanted. */
  method ListPaymentsFiltered(all: seq<Payment>, q: ListQuery, limit: Option<u64>, offset: Option<u64>)
    returns (r: seq<Payment>, ghost at: seq<nat>)
    ensures r == ListPayments(all, q, offset, limit)
    ensures PageOf(all, (p: Payment) => Wanted(q, p), offset, limit, at, r)
  {
    r := SkipTake(Sort(Filter(all, (p: Payment) => Matches(q, p))), limit, offset);
    MatchesWanted(all, q);
    at := SortedPage(all, (p: Payment) => Wanted(q, p), offset, limit, r);
  }

  function StatusName(status: Status): string {
    match status
    case Pending => "pending"
    case Succeeded => "settled"
    case Failed => "expired"
  }

  predicate StateMatches(state: Option<string>, p: Payment) {
    state.Some? ==> state.value == StatusName(p.status)
  }

  function InvoiceQuery(from: Option<u64>, until: Option<u64>): ListQuery {
    ListQuery(from, until, Some(true), Some(Inbound), Some(MethodBolt11))
  }

  /** Every inbound BOLT 11 payment of the period with the state asked for. */
  predicate IsInvoice(from: Option<u64>, until: Option<u64>, state: Option<string>, p: Payment) {
    && InPeriod(from, until, p) && p.direction == Inbound && p.kind in {Bolt11, Bolt11Jit}
    && (|| state == None
        || (state == Some("pending") && p.status == Pending)
        || (state == Some("settled") && p.status == Succeeded)
        || (state == Some("expired") && p.status == Failed))
  }

  lemma {:induction false} FilterTwice(s: seq<Payment>, f: Payment -> bool, g: Payment -> bool, h: Payment -> bool)
    requires forall p :: h(p) <==> f(p) && g(p)
    ensures Filter(Filter(s, f), g) == Filter(s, h)
    decreases |s|
  {
    if s == [] {
    } else {
      var n := |s| - 1;
      FilterTwice(s[..n], f, g, h);
      assert h(s[n]) <==> f(s[n]) && g(s[n]);
      if f(s[n]) {
        FilterAppend(Filter(s[..n], f), s[n], g);
      }
    }
  }

  /** The second paging: split off, clear and truncate. */
  method CutInPlace(listed: seq<Payment>, offset: Option<u64>, limit: Option<u64>) returns (invoices: seq<Payment>)
    ensures invoices == Window(listed, if offset.Some? then offset.value else 0, limit)
  {
    var offsetVal := if offset.Some? then offset.value else 0;
    invoices := listed;
    if offsetVal > 0 && offsetVal < |invoices| {
      invoices := invoices[offsetVal..];
    } else if offsetVal >= |invoices| {
      invoices := [];
    }
    if limit.Some? {
      invoices := if limit.value < |invoices| then invoices[..limit.value] else invoices;
    }
  }

  /** The second paging, cut in place after the state filter, shows the same
      windows over the newest-first list of the doubly filtered payments. */
  method ListInvoices(all: seq<Payment>, from: Option<u64>, until: Option<u64>, state: Option<string>,
                      offset: Option<u64>, limit: Option<u64>)
    returns (invoices: seq<Payment>, ghost at: seq<nat>)
    ensures invoices == Window(Sort(Filter(all, (p: Payment) => IsInvoice(from, until, state, p))),
                               if offset.Some? then offset.value else 0, limit)
    ensures PageOf(all, (p: Payment) => IsInvoice(from, until, state, p), offset, limit, at, invoices)
  {
    var payments, _ := ListPaymentsFiltered(all, InvoiceQuery(from, until), None, None);
    invoices := CutInPlace(Filter(payments, (p: Payment) => StateMatches(state, p)), offset, limit);
    InvoicesFiltered(all, from, until, state);
    at := SortedPage(all, (p: Payment) => IsInvoice(from, until, state, p), offset, limit, invoices);
  }

  lemma InvoicesFiltered(all: seq<Payment>, from: Option<u64>, until: Option<u64>, state: Option<string>)
    ensures Filter(ListPayments(all, InvoiceQuery(from, until), None, None), (p: Payment) => StateMatches(state, p)) ==
            Sort(Filter(all, (p: Payment) => IsInvoice(from, until, state, p)))
  {
    var f := (p: Payment) => Matches(InvoiceQuery(from, until), p);
    var g := (p: Payment) => StateMatches(state, p);
    var h := (p: Payment) => IsInvoice(from, until, state, p);
    FilterTwice(all, f, g, h);
    FilterSort(Filter(all, f), g);
    var sorted := Sort(Filter(all, f));
    assert Window(sorted, 0, None) == sorted;
  }
}
