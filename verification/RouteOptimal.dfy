/** Least cost: what the visited nodes and the returned routes are cheapest
    among, and the exact price of the hop cap. */
module RouteOptimal {
  import opened RouteGraph
  import opened RouteSearch
  import opened RouteInvariants

  /** `w` does not pass through the destination, although it may end there. */
  ghost predicate Avoids(q: Query, w: seq<Hop>) {
    forall i :: 0 <= i < |w| ==> AvoidsAt(q, w, i)
  }

  ghost predicate AvoidsAt(q: Query, w: seq<Hop>, i: nat)
    requires i < |w|
  {
    At(q.us, w, i) != q.dest
  }

  /** A walk from our node that meets the destination at its end at most. */
  ghost predicate Direct(q: Query, w: seq<Hop>) {
    IsWalk(q, q.us, w) && Avoids(q, w)
  }

  ghost predicate CutBy(q: Query, x: Entry, w: seq<Hop>, j: nat)
    requires j <= |w|
  {
    At(q.us, w, j) == x.node && x.cost <= Cost(w[..j])
  }

  /** Some discarded entry reaches a node of `w` as cheaply as `w` does. */
  ghost predicate Undercut(q: Query, dropped: set<Entry>, w: seq<Hop>) {
    exists x, j :: x in dropped && 0 <= j <= |w| && CutBy(q, x, w, j)
  }

  ghost predicate Least(q: Query, s: Search, x: Entry) {
    forall w :: Direct(q, w) && End(q.us, w) == x.node ==> x.cost <= Cost(w) || Undercut(q, s.dropped, w)
  }

  ghost predicate LeastVisited(q: Query, s: Search) {
    forall v :: v in s.best ==> Least(q, s, s.best[v])
  }

  ghost predicate Invariant(q: Query, s: Search) {
    Entries(q, s) && Ordered(s) && Coverage(q, s) && Once(s) && LeastVisited(q, s)
  }

  lemma DirectTake(q: Query, w: seq<Hop>, j: nat)
    requires Direct(q, w) && j <= |w|
    ensures Direct(q, w[..j]) && End(q.us, w[..j]) == At(q.us, w, j) && Cost(w[..j]) <= Cost(w)
  {
    WalkCut(q, q.us, w, j);
    var a := w[..j];
    forall i | 0 <= i < j
      ensures AvoidsAt(q, a, i)
    {
      assert AvoidsAt(q, w, i);
    }
  }

  lemma UndercutGrows(q: Query, dropped: set<Entry>, more: set<Entry>, w: seq<Hop>, k: nat)
    requires k <= |w| && dropped <= more && Undercut(q, dropped, w[..k])
    ensures Undercut(q, more, w)
  {
    var x, j :| x in dropped && 0 <= j <= k && CutBy(q, x, w[..k], j);
    assert w[..k][..j] == w[..j];
    assert CutBy(q, x, w, j);
  }

  /** The first place where `w` leaves the visited nodes. */
  lemma {:induction false} FirstOutside(q: Query, s: Search, w: seq<Hop>) returns (k: nat)
    requires q.us in s.best && End(q.us, w) !in s.best
    ensures 0 < k <= |w| && At(q.us, w, k) !in s.best && At(q.us, w, k - 1) in s.best
    decreases |w|
  {
    k := |w|;
    if At(q.us, w, k - 1) !in s.best {
      k := FirstOutside(q, s, w[..k - 1]);
    }
  }

  /** A hop out of a visited node leads to a visited node or was accounted for. */
  lemma HopOut(q: Query, s: Search, u: NodeId, h: Hop) returns (y: Entry)
    requires Coverage(q, s) && u in s.best && Sound(q, s.best[u]) && Linked(q, u, h)
    ensures y.node == h.node && y.cost == s.best[u].cost + h.fee && y.path == s.best[u].path + [h]
    ensures h.node in s.best || y in s.heap || y in s.found || y in s.dropped
  {
    var e :| e in Out(q.adj, u) && h == HopOf(q.amount, e);
    y := Extend(q, s.best[u], e);
    ExtendCost(q, s.best[u], e);
    assert Covered(q, s, u, e);
  }

  lemma LeastPrefix(q: Query, s: Search, w: seq<Hop>, j: nat)
    requires LeastVisited(q, s) && Direct(q, w) && j <= |w|
    requires At(q.us, w, j) in s.best && s.best[At(q.us, w, j)].node == At(q.us, w, j)
    ensures s.best[At(q.us, w, j)].cost <= Cost(w[..j]) || Undercut(q, s.dropped, w)
  {
    DirectTake(q, w, j);
    assert Least(q, s, s.best[At(q.us, w, j)]);
    if Undercut(q, s.dropped, w[..j]) {
      UndercutGrows(q, s.dropped, s.dropped, w, j);
    }
  }

  lemma CostTake(q: Query, w: seq<Hop>, k: nat)
    requires Direct(q, w) && 0 < k <= |w|
    ensures Cost(w[..k - 1]) + w[k - 1].fee == Cost(w[..k]) <= Cost(w)
  {
    DirectTake(q, w, k);
    assert w[..k][..k - 1] == w[..k - 1];
  }

  /** The heap, or what already left it, accounts for every walk out of the
      visited nodes. */
  lemma Frontier(q: Query, s: Search, w: seq<Hop>) returns (y: Entry)
    requires GoodBest(q, s) && GoodFound(q, s) && Coverage(q, s) && LeastVisited(q, s)
    requires q.us in s.best && Direct(q, w) && End(q.us, w) !in s.best
    ensures Undercut(q, s.dropped, w)
         || (y in s.heap && y.cost <= Cost(w))
         || (y in s.found && y.cost <= Cost(w) && End(q.us, w) == q.dest)
  {
    var k := FirstOutside(q, s, w);
    var u, h := At(q.us, w, k - 1), w[k - 1];
    assert LinkedAt(q, q.us, w, k - 1);
    y := HopOut(q, s, u, h);
    LeastPrefix(q, s, w, k - 1);
    CostTake(q, w, k);
    if y in s.dropped && y.cost <= Cost(w[..k]) {
      assert CutBy(q, y, w, k);
    }
    if k < |w| {
      assert AvoidsAt(q, w, k);
    }
  }

  /** The entry popped next is cheapest for its node. */
  lemma PoppedLeast(q: Query, s: Search, x: Entry, w: seq<Hop>)
    requires WellPosed(q) && Invariant(q, s) && Poppable(q, s, x)
    requires x.node !in s.best && x.node != q.dest
    requires Direct(q, w) && End(q.us, w) == x.node
    ensures x.cost <= Cost(w) || Undercut(q, s.dropped, w)
  {
    if q.us in s.best {
      var y := Frontier(q, s, w);
    } else {
      assert Root(q) in s.heap;
    }
  }

  lemma NextKeepsLeast(q: Query, s: Search, x: Entry)
    requires WellPosed(q) && Invariant(q, s) && Poppable(q, s, x)
    ensures LeastVisited(q, Next(q, s, x))
  {
    var t := Next(q, s, x);
    forall v, w | v in t.best && Direct(q, w) && End(q.us, w) == t.best[v].node
      ensures t.best[v].cost <= Cost(w) || Undercut(q, t.dropped, w)
    {
      if v in s.best {
        assert Least(q, s, s.best[v]) && t.best[v] == s.best[v];
      } else {
        PoppedLeast(q, s, x, w);
      }
      if Undercut(q, s.dropped, w) {
        assert w[..|w|] == w;
        UndercutGrows(q, s.dropped, t.dropped, w, |w|);
      }
    }
  }

  lemma StartInvariant(q: Query)
    requires WellPosed(q)
    ensures Invariant(q, Start(q))
  {
    var x := Root(q);
    assert Good(q, Start(q), x);
  }

  lemma {:induction false} RunInvariant(q: Query, pops: seq<Entry>)
    requires WellPosed(q) && LegalRun(q, pops)
    ensures Invariant(q, StateAfter(q, pops))
    decreases |pops|
  {
    if pops == [] {
      StartInvariant(q);
    } else {
      var s, x := StateAfter(q, pops[..|pops| - 1]), pops[|pops| - 1];
      RunInvariant(q, pops[..|pops| - 1]);
      NextKeepsEntries(q, s, x);
      NextKeepsOrder(q, s, x);
      NextKeepsCoverage(q, s, x);
      NextKeepsOnce(q, s, x);
      NextKeepsLeast(q, s, x);
    }
  }

  // ---------- reachable states ----------

  /** `s` is the state after some run, for some order of ties. */
  ghost predicate Reached(q: Query, s: Search) {
    WellPosed(q) && exists pops :: LegalRun(q, pops) && StateAfter(q, pops) == s
  }

  lemma RunBounded(q: Query, pops: seq<Entry>)
    requires LegalRun(q, pops)
    ensures |StateAfter(q, pops).found| <= q.maxRoutes
  {
    if pops != [] {
      NextShape(q, StateAfter(q, pops[..|pops| - 1]), pops[|pops| - 1]);
    }
  }

  lemma ReachedInvariant(q: Query, s: Search)
    requires Reached(q, s)
    ensures WellPosed(q) && Invariant(q, s) && |s.found| <= q.maxRoutes
  {
    var pops :| LegalRun(q, pops) && StateAfter(q, pops) == s;
    RunInvariant(q, pops);
    RunBounded(q, pops);
  }

  // ---------- optimality ----------

  ghost predicate ReachesDest(q: Query, w: seq<Hop>) {
    IsWalk(q, q.us, w) && End(q.us, w) == q.dest
  }

  /** The part of a walk up to its first visit of the destination. */
  lemma {:induction false} FirstVisit(q: Query, w: seq<Hop>) returns (k: nat)
    requires ReachesDest(q, w)
    ensures k <= |w| && ReachesDest(q, w[..k]) && Direct(q, w[..k]) && Cost(w[..k]) <= Cost(w)
    decreases |w|
  {
    if i :| 0 <= i < |w| && !AvoidsAt(q, w, i) {
      WalkCut(q, q.us, w, i);
      k := FirstVisit(q, w[..i]);
      assert w[..i][..k] == w[..k];
    } else {
      k := |w|;
      assert w[..k] == w;
    }
  }

  /** With a route returned, every walk to the destination either costs at least
      as much as the first route, or passes a node where an entry at least as
      cheap was discarded by the hop cap. */
  lemma FirstRouteOrCut(q: Query, s: Search, w: seq<Hop>)
    requires Reached(q, s) && ReachesDest(q, w)
    requires s.found != []
    ensures s.found[0].cost <= Cost(w) || Undercut(q, s.dropped, w)
  {
    ReachedInvariant(q, s);
    var f := s.found[0];
    assert f in s.found && Good(q, s, f);
    UsVisited(q, s);
    var k := FirstVisit(q, w);
    var y := Frontier(q, s, w[..k]);
    if Undercut(q, s.dropped, w[..k]) {
      UndercutGrows(q, s.dropped, s.dropped, w, k);
    } else if y in s.found {
      var j :| 0 <= j < |s.found| && s.found[j] == y;
      assert f.cost <= y.cost;
    }
  }

  lemma UsVisited(q: Query, s: Search)
    requires WellPosed(q) && Invariant(q, s)
    requires s.found != [] || s.heap == multiset{}
    ensures q.us in s.best
  {
    if s.found != [] {
      var f := s.found[0];
      assert f in s.found && Good(q, s, f);
      assert f.path != [];
      assert RootedAt(q, s.best, f.path, 0);
    }
  }

  ghost predicate Completes(q: Query, x: Entry, rest: seq<Hop>) {
    IsWalk(q, x.node, rest) && End(x.node, rest) == q.dest
  }

  /** No discarded entry could have been continued to the destination for less than `cost`. */
  ghost predicate CapHarmless(q: Query, dropped: set<Entry>, cost: nat) {
    forall x, rest :: x in dropped && Completes(q, x, rest) ==> cost <= x.cost + Cost(rest)
  }

  lemma CutCompletes(q: Query, s: Search, w: seq<Hop>, cost: nat)
    requires ReachesDest(q, w) && Undercut(q, s.dropped, w) && CapHarmless(q, s.dropped, cost)
    ensures cost <= Cost(w)
  {
    var x, j :| x in s.dropped && 0 <= j <= |w| && CutBy(q, x, w, j);
    WalkCut(q, q.us, w, j);
    assert Completes(q, x, w[j..]);
  }

  lemma DroppedContinues(q: Query, s: Search, x: Entry, rest: seq<Hop>)
    requires Entries(q, s) && x in s.dropped && Completes(q, x, rest)
    ensures ReachesDest(q, x.path + rest) && Cost(x.path + rest) == x.cost + Cost(rest)
  {
    assert Good(q, s, x);
    WalkJoin(q, q.us, x.path, rest);
  }

  ghost predicate CheapestWalk(q: Query, cost: nat) {
    forall w :: ReachesDest(q, w) ==> cost <= Cost(w)
  }

  lemma CheapestSoHarmless(q: Query, s: Search, cost: nat)
    requires Entries(q, s) && CheapestWalk(q, cost)
    ensures CapHarmless(q, s.dropped, cost)
  {
    forall x, rest | x in s.dropped && Completes(q, x, rest)
      ensures cost <= x.cost + Cost(rest)
    {
      DroppedContinues(q, s, x, rest);
    }
  }

  lemma HarmlessSoCheapest(q: Query, s: Search)
    requires Reached(q, s) && s.found != []
    requires CapHarmless(q, s.dropped, s.found[0].cost)
    ensures CheapestWalk(q, s.found[0].cost)
  {
    var cost := s.found[0].cost;
    forall w | ReachesDest(q, w)
      ensures cost <= Cost(w)
    {
      FirstRouteOrCut(q, s, w);
      if Undercut(q, s.dropped, w) {
        CutCompletes(q, s, w, cost);
      }
    }
  }

  /** The first route is the cheapest of all walks to the destination exactly
      when the hop cap did no harm; in particular when it discarded nothing. */
  lemma FirstRouteLeastIff(q: Query, s: Search)
    requires Reached(q, s) && s.found != []
    ensures ReachesDest(q, s.found[0].path) && s.found[0].cost == Cost(s.found[0].path)
    ensures (CheapestWalk(q, s.found[0].cost) <==> CapHarmless(q, s.dropped, s.found[0].cost))
  {
    ReachedInvariant(q, s);
    var f := s.found[0];
    assert f in s.found && Good(q, s, f);
    if CheapestWalk(q, f.cost) {
      CheapestSoHarmless(q, s, f.cost);
    }
    if CapHarmless(q, s.dropped, f.cost) {
      HarmlessSoCheapest(q, s);
    }
  }

  lemma FirstRouteLeast(q: Query, s: Search)
    requires Reached(q, s)
    requires s.found != [] && s.dropped == {}
    ensures CheapestWalk(q, s.found[0].cost)
  {
    FirstRouteLeastIff(q, s);
  }

  /** The node a non-empty walk takes its last hop from. */
  function LastNode(q: Query, w: seq<Hop>): NodeId
    requires w != []
  {
    At(q.us, w, |w| - 1)
  }

  function LastHop(w: seq<Hop>): Hop
    requires w != []
  {
    w[|w| - 1]
  }

  /** A rooted entry ends with one hop out of a visited node. */
  lemma LastStep(q: Query, s: Search, f: Entry)
    requires Good(q, s, f) && f.path != []
    ensures LastNode(q, f.path) in s.best
    ensures f.path == s.best[LastNode(q, f.path)].path + [LastHop(f.path)]
    ensures Cost(f.path) == Cost(s.best[LastNode(q, f.path)].path) + LastHop(f.path).fee
  {
    var m := |f.path| - 1;
    assert RootedAt(q, s.best, f.path, m);
  }

  lemma FoundNonEmpty(q: Query, s: Search, f: Entry)
    requires q.us != q.dest && Entries(q, s) && f in s.found
    ensures Good(q, s, f) && f.path != []
  {
  }

  /** Nothing discarded: every returned route is the cheapest among the direct
      walks that end with its own last hop. */
  lemma RouteLeastForLastHop(q: Query, s: Search, f: Entry, w: seq<Hop>)
    requires Reached(q, s)
    requires s.dropped == {} && f in s.found
    requires w != [] && Direct(q, w)
    ensures f.path != []
    ensures LastNode(q, w) == LastNode(q, f.path) && LastHop(w) == LastHop(f.path) ==> f.cost <= Cost(w)
  {
    ReachedInvariant(q, s);
    FoundNonEmpty(q, s, f);
    LastStep(q, s, f);
    var n := |w| - 1;
    if LastNode(q, w) == LastNode(q, f.path) && LastHop(w) == LastHop(f.path) {
      assert s.best[LastNode(q, w)].node == LastNode(q, w) && Good(q, s, s.best[LastNode(q, w)]);
      LeastPrefix(q, s, w, n);
      CostTake(q, w, n + 1);
      assert w[..n + 1] == w;
    }
  }
}
