/** The result as a function of the graph: the order in which channels are listed
    never matters, and with ties broken by a total order of the heap's entries, as
    the order of tuples breaks them, there is one result. */
module RouteOrders {
  import opened RouteGraph
  import opened RouteSearch
  import opened RouteInvariants
  import opened RouteOptimal
  import opened RouteResults
  import opened RouteTermination
  import opened RouteTrees

  // ---------- the listing order ----------

  /** The same search over the same edges, listed in some other order. */
  ghost predicate SameGraph(q: Query, r: Query) {
    && r.us == q.us && r.dest == q.dest && r.amount == q.amount && r.maxRoutes == q.maxRoutes
    && UniqueScids(q.adj) && UniqueScids(r.adj)
    && forall u, e :: e in Out(r.adj, u) <==> e in Out(q.adj, u)
  }

  lemma PushedOnce(q: Query, x: Entry, visited: set<NodeId>, y: Entry)
    requires UniqueScids(q.adj) && x.node in visited
    ensures Extensions(q, x, visited, Out(q.adj, x.node))[y] <= 1
  {
    var edges := Out(q.adj, x.node);
    forall i, j | 0 <= i < j < |edges| && edges[i].scid == edges[j].scid
      ensures edges[i].to in visited
    {
      assert Out(q.adj, x.node)[i].to == x.node;
    }
    ExtensionsOnce(q, x, visited, edges, y);
  }

  lemma SamePushedBy(q: Query, r: Query, x: Entry, visited: set<NodeId>, y: Entry)
    requires SameGraph(q, r)
    ensures y in Extensions(q, x, visited, Out(q.adj, x.node)) <==> y in Extensions(r, x, visited, Out(r.adj, x.node))
  {
    ExtensionsHave(q, x, visited, Out(q.adj, x.node), y);
    ExtensionsHave(r, x, visited, Out(r.adj, x.node), y);
    assert forall e :: PushedBy(q, x, visited, e, y) <==> PushedBy(r, x, visited, e, y);
  }

  /** What an expansion pushes depends on the edges only. */
  lemma SamePushed(q: Query, r: Query, x: Entry, visited: set<NodeId>)
    requires SameGraph(q, r) && x.node in visited
    ensures Extensions(q, x, visited, Out(q.adj, x.node)) == Extensions(r, x, visited, Out(r.adj, x.node))
  {
    var a, b := Extensions(q, x, visited, Out(q.adj, x.node)), Extensions(r, x, visited, Out(r.adj, x.node));
    forall y
      ensures a[y] == b[y]
    {
      PushedOnce(q, x, visited, y);
      PushedOnce(r, x, visited, y);
      SamePushedBy(q, r, x, visited, y);
    }
  }

  lemma SameIteration(q: Query, r: Query, s: Search, x: Entry)
    requires SameGraph(q, r)
    ensures Next(r, s, x) == Next(q, s, x)
  {
    SamePushed(q, r, x, s.best[x.node := x].Keys);
  }

  /** Whatever the order of ties, the runs of the search and the states they lead to
      do not depend on the order in which the channels were listed. */
  lemma {:induction false} ListingIrrelevant(q: Query, r: Query, pops: seq<Entry>)
    requires SameGraph(q, r)
    ensures StateAfter(r, pops) == StateAfter(q, pops) && (LegalRun(r, pops) <==> LegalRun(q, pops))
    decreases |pops|
  {
    if pops == [] {
    } else {
      var init := pops[..|pops| - 1];
      ListingIrrelevant(q, r, init);
      SameIteration(q, r, StateAfter(q, init), pops[|pops| - 1]);
    }
  }

  // ---------- ties broken by a total order ----------

  /** A strict total order of heap entries that goes by cost first. */
  ghost predicate CostFirst(less: (Entry, Entry) -> bool) {
    && (forall a, b :: less(a, b) ==> a.cost <= b.cost && !less(b, a))
    && (forall a, b :: a != b ==> less(a, b) || less(b, a))
    && (forall a, b, c :: less(a, b) && less(b, c) ==> less(a, c))
  }

  ghost predicate LeastIn(heap: multiset<Entry>, x: Entry, less: (Entry, Entry) -> bool) {
    x in heap && forall y :: y in heap ==> y == x || less(x, y)
  }

  /** After `pops` the search goes on and pops `x`, the least entry of the heap. */
  ghost predicate PopsLeast(q: Query, less: (Entry, Entry) -> bool, pops: seq<Entry>, x: Entry) {
    LeastIn(StateAfter(q, pops).heap, x, less) && |StateAfter(q, pops).found| < q.maxRoutes
  }

  ghost predicate LeastRun(q: Query, less: (Entry, Entry) -> bool, pops: seq<Entry>) {
    forall k {:trigger PopsLeast(q, less, pops[..k], pops[k])} ::
      0 <= k < |pops| ==> PopsLeast(q, less, pops[..k], pops[k])
  }

  /** A run of least pops that has come to its end. */
  ghost predicate Result(q: Query, less: (Entry, Entry) -> bool, pops: seq<Entry>) {
    LeastRun(q, less, pops) && Halted(q, StateAfter(q, pops))
  }

  lemma LeastRunPrefix(q: Query, less: (Entry, Entry) -> bool, pops: seq<Entry>, n: nat)
    requires LeastRun(q, less, pops) && n <= |pops|
    ensures LeastRun(q, less, pops[..n])
  {
    forall k | 0 <= k < n
      ensures PopsLeast(q, less, pops[..n][..k], pops[..n][k])
    {
      assert pops[..n][..k] == pops[..k];
      assert PopsLeast(q, less, pops[..k], pops[k]);
    }
  }

  lemma {:induction false} LeastRunLegal(q: Query, less: (Entry, Entry) -> bool, pops: seq<Entry>)
    requires CostFirst(less) && LeastRun(q, less, pops)
    ensures LegalRun(q, pops)
    decreases |pops|
  {
    if pops == [] {
    } else {
      var n := |pops| - 1;
      LeastRunPrefix(q, less, pops, n);
      LeastRunLegal(q, less, pops[..n]);
      assert PopsLeast(q, less, pops[..n], pops[n]);
    }
  }

  lemma {:induction false} LeastExists(heap: multiset<Entry>, less: (Entry, Entry) -> bool) returns (x: Entry)
    requires CostFirst(less) && heap != multiset{}
    ensures LeastIn(heap, x, less)
    decreases |heap|
  {
    var z :| z in heap;
    var rest := heap - multiset{z};
    x := z;
    if rest != multiset{} {
      var y := LeastExists(rest, less);
      if less(y, z) {
        x := y;
      }
    }
  }

  lemma LeastRunMore(q: Query, less: (Entry, Entry) -> bool, pops: seq<Entry>, x: Entry)
    requires LeastRun(q, less, pops) && PopsLeast(q, less, pops, x)
    ensures LeastRun(q, less, pops + [x])
  {
    forall k | 0 <= k <= |pops|
      ensures PopsLeast(q, less, (pops + [x])[..k], (pops + [x])[k])
    {
      assert (pops + [x])[..k] == if k < |pops| then pops[..k] else pops;
    }
  }

  /** No heap has two least entries. */
  ghost predicate OnePick(less: (Entry, Entry) -> bool) {
    forall heap, x, y :: LeastIn(heap, x, less) && LeastIn(heap, y, less) ==> x == y
  }

  lemma CostFirstPicks(less: (Entry, Entry) -> bool)
    requires CostFirst(less)
    ensures OnePick(less)
  {
  }

  lemma GoesOn(q: Query, less: (Entry, Entry) -> bool, pops: seq<Entry>, k: nat)
    requires LeastRun(q, less, pops) && k < |pops|
    ensures !Halted(q, StateAfter(q, pops[..k]))
  {
    assert PopsLeast(q, less, pops[..k], pops[k]);
  }

  lemma SamePop(q: Query, less: (Entry, Entry) -> bool, pops: seq<Entry>, x: Entry, y: Entry)
    requires OnePick(less) && PopsLeast(q, less, pops, x) && PopsLeast(q, less, pops, y)
    ensures x == y
  {
  }

  lemma PopAt(q: Query, less: (Entry, Entry) -> bool, pops: seq<Entry>, k: nat)
    requires LeastRun(q, less, pops) && k < |pops|
    ensures PopsLeast(q, less, pops[..k], pops[k])
  {
    assert PopsLeast(q, less, pops[..k], pops[k]);
  }

  lemma NextSame(q: Query, less: (Entry, Entry) -> bool, a: seq<Entry>, b: seq<Entry>, k: nat)
    requires OnePick(less) && LeastRun(q, less, a) && LeastRun(q, less, b)
    requires k < |a| && k < |b| && a[..k] == b[..k]
    ensures a[k] == b[k]
  {
    PopAt(q, less, a, k);
    PopAt(q, less, b, k);
    SamePop(q, less, a[..k], a[k], b[k]);
  }

  lemma PrefixMore(a: seq<Entry>, b: seq<Entry>, k: nat)
    requires k < |a| && k < |b| && a[..k] == b[..k] && a[k] == b[k]
    ensures a[..k + 1] == b[..k + 1]
  {
    assert a[..k + 1] == a[..k] + [a[k]] && b[..k + 1] == b[..k] + [b[k]];
  }

  lemma {:induction false} OneWay(q: Query, less: (Entry, Entry) -> bool, a: seq<Entry>, b: seq<Entry>, n: nat)
    requires OnePick(less) && LeastRun(q, less, a) && LeastRun(q, less, b) && n <= |a| && n <= |b|
    ensures a[..n] == b[..n]
    decreases n
  {
    if n == 0 {
    } else {
      OneWay(q, less, a, b, n - 1);
      NextSame(q, less, a, b, n - 1);
      PrefixMore(a, b, n - 1);
    }
  }

  lemma NoLonger(q: Query, less: (Entry, Entry) -> bool, a: seq<Entry>, b: seq<Entry>)
    requires OnePick(less) && Result(q, less, a) && LeastRun(q, less, b) && |a| <= |b|
    ensures a == b
  {
    OneWay(q, less, a, b, |a|);
    assert a[..|a|] == a && b[..|b|] == b;
    if |a| < |b| {
      GoesOn(q, less, b, |a|);
    }
  }

  /** There is one result for each such order, and it is the same for every order in
      which the channels are listed. */
  lemma OneResult(q: Query, r: Query, less: (Entry, Entry) -> bool, a: seq<Entry>, b: seq<Entry>)
    requires CostFirst(less) && SameGraph(q, r) && Result(q, less, a) && Result(r, less, b)
    ensures a == b && StateAfter(q, a).found == StateAfter(r, b).found
  {
    CostFirstPicks(less);
    SameLeast(q, r, less, b);
    ListingIrrelevant(q, r, b);
    if |a| <= |b| {
      NoLonger(q, less, a, b);
    } else {
      NoLonger(q, less, b, a);
    }
  }

  lemma SameLeast(q: Query, r: Query, less: (Entry, Entry) -> bool, pops: seq<Entry>)
    requires SameGraph(q, r) && LeastRun(r, less, pops)
    ensures LeastRun(q, less, pops)
  {
    forall k | 0 <= k < |pops|
      ensures PopsLeast(q, less, pops[..k], pops[k])
    {
      assert PopsLeast(r, less, pops[..k], pops[k]);
      ListingIrrelevant(q, r, pops[..k]);
    }
  }

  lemma {:induction false} ResultFrom(q: Query, less: (Entry, Entry) -> bool, pops: seq<Entry>)
    returns (all: seq<Entry>)
    requires WellPosed(q) && CostFirst(less) && LeastRun(q, less, pops)
    ensures Result(q, less, all)
    decreases |Nodes(q) - StateAfter(q, pops).best.Keys|, |StateAfter(q, pops).heap|
  {
    var s := StateAfter(q, pops);
    if Halted(q, s) {
      all := pops;
    } else {
      var x := LeastExists(s.heap, less);
      LeastRunLegal(q, less, pops);
      assert Reached(q, s);
      MeasureShrinks(q, s, x);
      LeastRunMore(q, less, pops, x);
      assert (pops + [x])[..|pops|] == pops;
      all := ResultFrom(q, less, pops + [x]);
    }
  }

  /** And there always is one: a run of the search that comes to its end. */
  lemma ResultExists(q: Query, less: (Entry, Entry) -> bool) returns (pops: seq<Entry>)
    requires WellPosed(q) && CostFirst(less)
    ensures Result(q, less, pops) && Reached(q, StateAfter(q, pops)) && Halted(q, StateAfter(q, pops))
  {
    pops := ResultFrom(q, less, []);
    LeastRunLegal(q, less, pops);
  }
}
