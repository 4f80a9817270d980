/** What every iteration of the search keeps, beyond the soundness of entries:
    costs come out in order, no edge of a visited node is forgotten, and no entry
    exists twice. */
module RouteInvariants {
  import opened Words
  import opened RouteGraph
  import opened RouteSearch

  /** A channel leads into a node from one side only, and apart from self-loops
      carries one policy in that direction. */
  ghost predicate Channeled(adj: Adjacency) {
    forall u, v, e, f :: e in Out(adj, u) && f in Out(adj, v) && e.scid == f.scid && e.to == f.to ==>
      u == v && (e == f || u == e.to)
  }

  ghost predicate WellPosed(q: Query) {
    q.us != q.dest && UniqueScids(q.adj) && Channeled(q.adj)
  }

  lemma OffersChanneled(graph: map<u64, Channel>, listed: set<u64>, amount: u64, adj: Adjacency)
    requires forall u, e :: e in Out(adj, u) <==> Offers(graph, listed, amount, u, e)
    ensures Channeled(adj)
  {
    forall u, v, e, f | e in Out(adj, u) && f in Out(adj, v) && e.scid == f.scid && e.to == f.to
      ensures u == v && (e == f || u == e.to)
    {
      assert Offers(graph, listed, amount, u, e) && Offers(graph, listed, amount, v, f);
    }
  }

  /** What one iteration may change. */
  lemma NextShape(q: Query, s: Search, x: Entry)
    ensures var t := Next(q, s, x);
            && (t.best == s.best || (x.node !in s.best && t.best == s.best[x.node := x]))
            && (t.best == s.best ==> t.heap == s.heap - multiset{x})
            && (t.found == s.found || (t.found == s.found + [x] && t.best == s.best))
  {
  }

  // ---------- costs come out in order ----------

  ghost predicate Sorted(found: seq<Entry>) {
    forall i, j :: 0 <= i < j < |found| ==> found[i].cost <= found[j].cost
  }

  ghost predicate Ordered(s: Search) {
    && (forall v, y :: v in s.best && y in s.heap ==> s.best[v].cost <= y.cost)
    && (forall x, y :: x in s.found && y in s.heap ==> x.cost <= y.cost)
    && Sorted(s.found)
  }

  lemma PushedCost(q: Query, s: Search, x: Entry, y: Entry)
    requires Entries(q, s) && x in s.heap && y in Next(q, s, x).heap && y !in s.heap
    ensures x.node !in s.best && x.node != q.dest && |x.path| <= MAX_HOPS
    ensures exists e :: e in Out(q.adj, x.node) && e.to !in s.best && e.to != x.node && y == Extend(q, x, e)
    ensures x.cost <= y.cost
  {
    var t := Next(q, s, x);
    var edges := Out(q.adj, x.node);
    ExtensionsHave(q, x, t.best.Keys, edges, y);
    var e :| e in edges && PushedBy(q, x, t.best.Keys, e, y);
    ExtendGood(q, s, x, e);
  }

  lemma HeapAbove(q: Query, s: Search, x: Entry)
    requires Entries(q, s) && Poppable(q, s, x)
    ensures forall y :: y in Next(q, s, x).heap ==> x.cost <= y.cost
  {
    forall y | y in Next(q, s, x).heap
      ensures x.cost <= y.cost
    {
      if y !in s.heap {
        PushedCost(q, s, x, y);
      }
    }
  }

  lemma OrderAfter(s: Search, t: Search, x: Entry)
    requires Ordered(s) && x in s.heap
    requires forall y :: y in t.heap ==> x.cost <= y.cost
    requires t.best == s.best || t.best == s.best[x.node := x]
    requires t.found == s.found || t.found == s.found + [x]
    ensures Ordered(t)
  {
    forall f, y | f in t.found && y in t.heap
      ensures f.cost <= y.cost
    {
      assert f == x || f in s.found;
    }
    forall i, j | 0 <= i < j < |t.found|
      ensures t.found[i].cost <= t.found[j].cost
    {
      assert t.found[i] == s.found[i] && t.found[i] in s.found;
    }
  }

  lemma NextKeepsOrder(q: Query, s: Search, x: Entry)
    requires Entries(q, s) && Ordered(s) && Poppable(q, s, x)
    ensures Ordered(Next(q, s, x))
  {
    HeapAbove(q, s, x);
    NextShape(q, s, x);
    OrderAfter(s, Next(q, s, x), x);
  }

  // ---------- no edge is forgotten ----------

  ghost predicate Covered(q: Query, s: Search, u: NodeId, e: Edge)
    requires u in s.best
  {
    e.to in s.best || Extend(q, s.best[u], e) in s.heap ||
    Extend(q, s.best[u], e) in s.found || Extend(q, s.best[u], e) in s.dropped
  }

  ghost predicate Coverage(q: Query, s: Search) {
    && (q.us in s.best || Root(q) in s.heap)
    && forall u, e :: u in s.best && e in Out(q.adj, u) ==> Covered(q, s, u, e)
  }

  lemma StillCovered(q: Query, s: Search, x: Entry, u: NodeId, e: Edge)
    requires u in s.best && Covered(q, s, u, e) && x in s.heap
    ensures u in Next(q, s, x).best && Covered(q, Next(q, s, x), u, e)
  {
    var t := Next(q, s, x);
    var y := Extend(q, s.best[u], e);
    assert y.node == e.to;
    assert t.best[u] == s.best[u];
    if y in s.heap && y != x {
      assert (s.heap - multiset{x})[y] == s.heap[y];
      assert y in t.heap;
    }
  }

  lemma NextKeepsCoverage(q: Query, s: Search, x: Entry)
    requires Entries(q, s) && Coverage(q, s) && x in s.heap && q.us != q.dest
    ensures Coverage(q, Next(q, s, x))
  {
    var t := Next(q, s, x);
    if Root(q) in s.heap && Root(q) != x {
      assert (s.heap - multiset{x})[Root(q)] == s.heap[Root(q)];
    }
    forall u, e | u in t.best && e in Out(q.adj, u)
      ensures Covered(q, t, u, e)
    {
      if u in s.best {
        StillCovered(q, s, x, u, e);
      } else {
        var edges := Out(q.adj, u);
        ExtensionsHave(q, x, t.best.Keys, edges, Extend(q, x, e));
        assert e.to !in t.best.Keys ==> PushedBy(q, x, t.best.Keys, e, Extend(q, x, e));
      }
    }
  }

  // ---------- no entry exists twice ----------

  ghost predicate Distinct(found: seq<Entry>) {
    forall i, j :: 0 <= i < j < |found| ==> found[i] != found[j]
  }

  ghost predicate Once(s: Search) {
    && (forall y :: s.heap[y] <= 1)
    && (forall y :: y in s.found ==> y !in s.heap)
    && Distinct(s.found)
  }

  lemma {:induction false} ExtensionsOnce(q: Query, x: Entry, visited: set<NodeId>, edges: seq<Edge>, y: Entry)
    requires forall i, j :: 0 <= i < j < |edges| && edges[i].scid == edges[j].scid ==> edges[i].to in visited
    ensures Extensions(q, x, visited, edges)[y] <= 1
    decreases |edges|
  {
    if edges == [] {
    } else {
      var n := |edges| - 1;
      ExtensionsOnce(q, x, visited, edges[..n], y);
      ExtensionsHave(q, x, visited, edges[..n], y);
      assert forall e :: Extend(q, x, e).path[|x.path|] == HopOf(q.amount, e);
    }
  }

  lemma NewIsNew(q: Query, s: Search, x: Entry, y: Entry, e: Edge)
    requires Good(q, s, y) && x.node !in s.best && Sound(q, x)
    ensures y != Extend(q, x, e)
  {
    var z := Extend(q, x, e);
    assert z.path[..|x.path|] == x.path;
    assert At(q.us, z.path, |x.path|) == At(q.us, x.path, |x.path|) == x.node;
    if |x.path| < |y.path| {
      assert RootedAt(q, s.best, y.path, |x.path|);
    }
  }

  lemma AddedOnce(q: Query, s: Search, x: Entry, y: Entry)
    requires WellPosed(q) && Entries(q, s) && x in s.heap && x.node !in s.best
    ensures var added := Extensions(q, x, s.best[x.node := x].Keys, Out(q.adj, x.node));
            added[y] <= 1 && (y in added ==> y !in s.heap && y !in s.found)
  {
    var visited, edges := s.best[x.node := x].Keys, Out(q.adj, x.node);
    ExtensionsOnce(q, x, visited, edges, y);
    ExtensionsHave(q, x, visited, edges, y);
    if e :| e in edges && PushedBy(q, x, visited, e, y) {
      if y in s.heap || y in s.found {
        NewIsNew(q, s, x, y, e);
      }
    }
  }

  lemma OnceAfter(s: Search, t: Search, x: Entry, added: multiset<Entry>)
    requires Once(s) && x in s.heap
    requires t.heap == s.heap - multiset{x} + added
    requires t.found == s.found || (t.found == s.found + [x] && added == multiset{})
    requires forall y :: added[y] <= 1 && (y in added ==> y !in s.heap && y !in s.found)
    ensures Once(t)
  {
    forall y
      ensures t.heap[y] <= 1 && (y in t.found ==> y !in t.heap)
    {
      assert (s.heap - multiset{x})[y] == if y == x then 0 else s.heap[y];
      assert y in t.found ==> y in s.found || y == x;
    }
  }

  lemma NextKeepsOnce(q: Query, s: Search, x: Entry)
    requires WellPosed(q) && Entries(q, s) && Once(s) && x in s.heap
    ensures Once(Next(q, s, x))
  {
    if |x.path| <= MAX_HOPS && x.node != q.dest && x.node !in s.best {
      var added := Extensions(q, x, s.best[x.node := x].Keys, Out(q.adj, x.node));
      forall y
        ensures added[y] <= 1 && (y in added ==> y !in s.heap && y !in s.found)
      {
        AddedOnce(q, s, x, y);
      }
      OnceAfter(s, Next(q, s, x), x, added);
    } else {
      assert s.heap - multiset{x} + multiset{} == s.heap - multiset{x};
      OnceAfter(s, Next(q, s, x), x, multiset{});
    }
  }
}
