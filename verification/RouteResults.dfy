/** The returned list as a whole: soundness, tree shape, one route per last
    channel, and exact completeness. */
module RouteResults {
  import opened Words
  import opened RouteGraph
  import opened RouteSearch
  import opened RouteInvariants
  import opened RouteOptimal

  // ---------- soundness ----------

  ghost predicate SoundRoute(q: Query, f: Entry) {
    && ReachesDest(q, f.path) && Loopless(q.us, f.path)
    && 1 <= |f.path| <= MAX_HOPS
    && f.cost == Cost(f.path)
  }

  /** Every route is a loop-free chain of admitting policies of one to six hops
      with its exact fee total; fees never decrease along the list, which holds
      at most `maxRoutes` routes. */
  lemma RoutesSound(q: Query, s: Search)
    requires Reached(q, s)
    ensures forall f :: f in s.found ==> SoundRoute(q, f)
    ensures Sorted(s.found) && |s.found| <= q.maxRoutes
  {
    ReachedInvariant(q, s);
    forall f | f in s.found
      ensures SoundRoute(q, f)
    {
      FoundNonEmpty(q, s, f);
    }
  }

  ghost predicate BoltHop(q: Query, u: NodeId, h: Hop) {
    exists e :: e in Out(q.adj, u) && e.to == h.node && e.scid == h.scid && e.cltv == h.cltv &&
      h.fee == BoltFee(q.amount, e.baseMsat, e.ppm)
  }

  /** When every product fits, as it does for amounts up to 2^32, each hop of a
      route carries the exact fee of an edge out of the node before it. */
  lemma RouteFeesExact(q: Query, f: Entry, i: nat)
    requires SoundRoute(q, f) && i < |f.path|
    requires q.amount <= 0x1_0000_0000 || forall u, e :: e in Out(q.adj, u) ==> q.amount * e.ppm <= U64_MAX
    ensures BoltHop(q, At(q.us, f.path, i), f.path[i])
  {
    assert LinkedAt(q, q.us, f.path, i);
    var u := At(q.us, f.path, i);
    var e :| e in Out(q.adj, u) && f.path[i] == HopOf(q.amount, e);
    if q.amount <= 0x1_0000_0000 {
      ProductFits(q.amount, e.ppm);
    }
    HopFeeExactIffProductFits(q.amount, e.baseMsat, e.ppm);
  }

  lemma ProductFits(amount: u64, ppm: u32)
    requires amount <= 0x1_0000_0000
    ensures amount * ppm <= U64_MAX
  {
    MulLeft(amount, 0x1_0000_0000, ppm);
  }

  lemma {:induction false} MulLeft(a: nat, b: nat, c: nat)
    requires a <= b
    ensures a * c <= b * c
    decreases c
  {
    if c == 0 {
    } else {
      MulLeft(a, b, c - 1);
      assert a * c == a * (c - 1) + a && b * c == b * (c - 1) + b;
    }
  }

  // ---------- tree shape ----------

  /** Two routes that meet at a node before their end share everything up to it. */
  lemma RoutesFormTree(q: Query, s: Search, f: Entry, g: Entry, i: nat, j: nat)
    requires Reached(q, s) && f in s.found && g in s.found
    requires i < |f.path| && j < |g.path| && At(q.us, f.path, i) == At(q.us, g.path, j)
    ensures i == j && f.path[..i] == g.path[..j]
  {
    ReachedInvariant(q, s);
    assert Good(q, s, f) && Good(q, s, g);
    assert RootedAt(q, s.best, f.path, i) && RootedAt(q, s.best, g.path, j);
    assert |f.path[..i]| == i && |g.path[..j]| == j;
  }

  lemma LastEdge(q: Query, f: Entry) returns (e: Edge)
    requires SoundRoute(q, f)
    ensures e in Out(q.adj, LastNode(q, f.path)) && e.to == q.dest && LastHop(f.path) == HopOf(q.amount, e)
  {
    var m := |f.path| - 1;
    assert LinkedAt(q, q.us, f.path, m);
    e :| e in Out(q.adj, At(q.us, f.path, m)) && f.path[m] == HopOf(q.amount, e);
  }

  lemma SameLastChannel(q: Query, s: Search, f: Entry, g: Entry)
    requires Reached(q, s) && f in s.found && g in s.found
    ensures f.path != [] && g.path != []
    ensures LastHop(f.path).scid == LastHop(g.path).scid ==> f == g
  {
    ReachedInvariant(q, s);
    RoutesSound(q, s);
    FoundNonEmpty(q, s, f);
    FoundNonEmpty(q, s, g);
    var e := LastEdge(q, f);
    var e' := LastEdge(q, g);
    if LastHop(f.path).scid == LastHop(g.path).scid {
      LastStep(q, s, f);
      LastStep(q, s, g);
      assert LastNode(q, f.path) == LastNode(q, g.path);
      assert e == e';
    }
  }

  /** No two routes end with the same channel. */
  lemma LastChannelsDistinct(q: Query, s: Search, i: nat, j: nat)
    requires Reached(q, s) && i < j < |s.found|
    ensures var f, g := s.found[i], s.found[j];
            f.path != [] && g.path != [] && LastHop(f.path).scid != LastHop(g.path).scid
  {
    ReachedInvariant(q, s);
    SameLastChannel(q, s, s.found[i], s.found[j]);
  }

  // ---------- completeness ----------

  /** The heap drained and nothing was discarded by the hop cap. */
  ghost predicate Exhausted(s: Search) {
    s.heap == multiset{} && s.dropped == {}
  }

  lemma AllVisited(q: Query, s: Search, w: seq<Hop>)
    requires Reached(q, s) && Exhausted(s)
    requires Direct(q, w) && End(q.us, w) != q.dest
    ensures End(q.us, w) in s.best
  {
    ReachedInvariant(q, s);
    UsVisited(q, s);
    if End(q.us, w) !in s.best {
      var y := Frontier(q, s, w);
    }
  }

  ghost predicate Via(q: Query, f: Entry, u: NodeId, e: Edge) {
    f.path != [] && LastNode(q, f.path) == u && LastHop(f.path) == HopOf(q.amount, e)
  }

  /** `u` is reachable without passing the destination. */
  ghost predicate Reachable(q: Query, u: NodeId) {
    exists w :: Direct(q, w) && End(q.us, w) == u
  }

  ghost predicate UsableLast(q: Query, u: NodeId, e: Edge) {
    u != q.dest && Reachable(q, u) && e in Out(q.adj, u) && e.to == q.dest
  }

  lemma UsableGivesRoute(q: Query, s: Search, u: NodeId, e: Edge) returns (f: Entry)
    requires Reached(q, s) && Exhausted(s) && UsableLast(q, u, e)
    ensures f in s.found && Via(q, f, u, e)
  {
    ReachedInvariant(q, s);
    var w :| Direct(q, w) && End(q.us, w) == u;
    AllVisited(q, s, w);
    assert Covered(q, s, u, e) && Good(q, s, s.best[u]);
    f := Extend(q, s.best[u], e);
    assert f.path[..|f.path| - 1] == s.best[u].path;
  }

  lemma RouteGivesUsable(q: Query, s: Search, f: Entry) returns (u: NodeId, e: Edge)
    requires Reached(q, s) && f in s.found
    ensures UsableLast(q, u, e) && Via(q, f, u, e)
  {
    ReachedInvariant(q, s);
    RoutesSound(q, s);
    FoundNonEmpty(q, s, f);
    LastStep(q, s, f);
    u := LastNode(q, f.path);
    e := LastEdge(q, f);
    var w := s.best[u].path;
    assert Good(q, s, s.best[u]);
    forall i | 0 <= i < |w|
      ensures AvoidsAt(q, w, i)
    {
      assert RootedAt(q, s.best, w, i);
    }
    assert Direct(q, w) && End(q.us, w) == u;
  }

  /** The drained search returns exactly one route for each usable channel into
      the destination from each node reachable without passing the destination. */
  lemma ExactlyOnePerLastChannel(q: Query, s: Search)
    requires Reached(q, s) && Exhausted(s)
    ensures forall u, e :: UsableLast(q, u, e) <==> exists f :: f in s.found && Via(q, f, u, e) && e in Out(q.adj, u)
    ensures forall u, e, f, g :: f in s.found && g in s.found && Via(q, f, u, e) && Via(q, g, u, e) ==> f == g
    ensures forall i, j :: 0 <= i < j < |s.found| ==> s.found[i] != s.found[j]
  {
    ReachedInvariant(q, s);
    forall u, e
      ensures UsableLast(q, u, e) <==> exists f :: f in s.found && Via(q, f, u, e) && e in Out(q.adj, u)
    {
      if UsableLast(q, u, e) {
        var f := UsableGivesRoute(q, s, u, e);
      }
      if f :| f in s.found && Via(q, f, u, e) && e in Out(q.adj, u) {
        var v, d := RouteGivesUsable(q, s, f);
      }
    }
    forall u, e, f, g | f in s.found && g in s.found && Via(q, f, u, e) && Via(q, g, u, e)
      ensures f == g
    {
      SameLastChannel(q, s, f, g);
    }
  }

  /** The drained search returns nothing if and only if no walk reaches the destination. */
  lemma EmptyIffUnreachable(q: Query, s: Search)
    requires Reached(q, s) && Exhausted(s)
    ensures s.found == [] <==> !exists w :: ReachesDest(q, w)
  {
    ReachedInvariant(q, s);
    if s.found != [] {
      RoutesSound(q, s);
      assert s.found[0] in s.found && SoundRoute(q, s.found[0]);
    }
    if w :| ReachesDest(q, w) {
      var k := FirstVisit(q, w);
      UsVisited(q, s);
      if s.found == [] {
        var y := Frontier(q, s, w[..k]);
      }
    }
  }

  // ---------- when the hop cap cannot act ----------

  /** Our node and every node an edge leads to. */
  ghost function Nodes(q: Query): set<NodeId> {
    {q.us} + set u, e | u in q.adj && e in q.adj[u] :: e.to
  }

  ghost function OnWalk(start: NodeId, w: seq<Hop>): set<NodeId> {
    set i | 0 <= i <= |w| :: At(start, w, i)
  }

  lemma {:induction false} LooplessCount(start: NodeId, w: seq<Hop>)
    requires Loopless(start, w)
    ensures |OnWalk(start, w)| == |w| + 1
    decreases |w|
  {
    if w == [] {
      assert OnWalk(start, w) == {At(start, w, 0)};
    } else {
      var n := |w| - 1;
      var p := w[..n];
      assert forall i :: 0 <= i <= n ==> At(start, w, i) == At(start, p, i);
      forall j | 0 <= j <= n
        ensures NewAt(start, p, j)
      {
        assert NewAt(start, w, j);
      }
      LooplessCount(start, p);
      assert NewAt(start, w, n + 1);
      assert OnWalk(start, w) == OnWalk(start, p) + {At(start, w, n + 1)};
    }
  }

  lemma WalkStaysInGraph(q: Query, w: seq<Hop>)
    requires IsWalk(q, q.us, w)
    ensures OnWalk(q.us, w) <= Nodes(q)
  {
    forall i | 0 <= i <= |w|
      ensures At(q.us, w, i) in Nodes(q)
    {
      if i > 0 {
        assert LinkedAt(q, q.us, w, i - 1);
      }
    }
  }

  /** In a graph of at most seven nodes the hop cap never discards anything. */
  lemma SmallGraphKeepsAll(q: Query, s: Search)
    requires Reached(q, s) && |Nodes(q)| <= MAX_HOPS + 1
    ensures s.dropped == {}
  {
    ReachedInvariant(q, s);
    if x :| x in s.dropped {
      assert Good(q, s, x);
      LooplessCount(q.us, x.path);
      WalkStaysInGraph(q, x.path);
      SubsetSize(OnWalk(q.us, x.path), Nodes(q));
    }
  }

  lemma {:induction false} SubsetSize(a: set<NodeId>, b: set<NodeId>)
    requires a <= b
    ensures |a| <= |b|
    decreases |a|
  {
    if a == {} {
    } else {
      var x :| x in a;
      SubsetSize(a - {x}, b - {x});
    }
  }

  /** On at most seven nodes, for every order of ties: a route is returned if and
      only if one exists, and the first one is cheapest over all walks. */
  lemma SmallGraphSearchIsExact(q: Query, s: Search)
    requires Reached(q, s) && Halted(q, s)
    requires |Nodes(q)| <= MAX_HOPS + 1 && q.maxRoutes > 0
    ensures s.found == [] <==> !exists w :: ReachesDest(q, w)
    ensures s.found != [] ==> CheapestWalk(q, s.found[0].cost)
  {
    SmallGraphKeepsAll(q, s);
    if s.found == [] {
      EmptyIffUnreachable(q, s);
    } else {
      FirstRouteLeast(q, s);
      RoutesSound(q, s);
      assert SoundRoute(q, s.found[0]);
    }
  }
}
