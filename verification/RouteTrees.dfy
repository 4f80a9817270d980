/** Which results the search can return on a graph, over all orders of ties: its
    drained runs are exactly the capped cheapest trees of the graph, a notion that
    mentions no heap and no run. */
module RouteTrees {
  import opened RouteGraph
  import opened RouteSearch
  import opened RouteInvariants
  import opened RouteOptimal
  import opened RouteResults
  import opened RouteTermination

  /** A walk from our node for each node that is in. */
  type Tree = map<NodeId, seq<Hop>>

  /** `v` hangs one hop below a node at depth five or less. */
  ghost predicate Hangs(q: Query, tree: Tree, v: NodeId)
    requires v in tree
  {
    exists u, h :: u in tree && BelowCap(q, tree, u, h) && h.node == v && tree[v] == tree[u] + [h]
  }

  /** `h` leaves a tree node whose walk can still be extended under the hop cap. */
  ghost predicate BelowCap(q: Query, tree: Tree, u: NodeId, h: Hop)
    requires u in tree
  {
    |tree[u]| < MAX_HOPS && Linked(q, u, h)
  }

  ghost predicate Shortens(q: Query, tree: Tree, u: NodeId, h: Hop)
    requires u in tree
  {
    h.node == q.dest || (h.node in tree && Cost(tree[h.node]) <= Cost(tree[u]) + h.fee)
  }

  /** A capped cheapest tree: it is rooted at our node, stays clear of the
      destination, and no hop out of a node of depth five or less reaches a node
      that is missing or dearer in the tree. */
  ghost predicate SearchTree(q: Query, tree: Tree) {
    && q.us in tree && tree[q.us] == []
    && (forall v {:trigger Hangs(q, tree, v)} :: v in tree && v != q.us ==> v != q.dest && Hangs(q, tree, v))
    && (forall u, h :: u in tree && BelowCap(q, tree, u, h) ==> Shortens(q, tree, u, h))
  }

  /** A hop from the tree to the destination within the cap. */
  ghost predicate Exit(q: Query, tree: Tree, u: NodeId, h: Hop) {
    u in tree && BelowCap(q, tree, u, h) && h.node == q.dest
  }

  // ---------- every drained run is such a tree ----------

  function TreeOf(best: map<NodeId, Entry>): Tree {
    map v | v in best :: best[v].path
  }

  ghost predicate RelaxedAt(q: Query, s: Search, u: NodeId, e: Edge)
    requires u in s.best
  {
    e.to in s.best && |s.best[u].path| < MAX_HOPS ==> s.best[e.to].cost <= Extend(q, s.best[u], e).cost
  }

  /** No visited node could have been reached for less by a hop within the cap. */
  ghost predicate Relaxed(q: Query, s: Search) {
    forall u, e :: u in s.best && e in Out(q.adj, u) ==> RelaxedAt(q, s, u, e)
  }

  lemma VisitRelaxes(q: Query, s: Search, x: Entry, u: NodeId, e: Edge)
    requires Invariant(q, s) && Relaxed(q, s) && Poppable(q, s, x)
    requires |x.path| <= MAX_HOPS && x.node != q.dest && x.node !in s.best
    requires u in Next(q, s, x).best && e in Out(q.adj, u)
    ensures RelaxedAt(q, Next(q, s, x), u, e)
  {
    if u in s.best {
      assert RelaxedAt(q, s, u, e) && Covered(q, s, u, e);
    } else {
      assert Good(q, s, x);
      ExtendCost(q, x, e);
    }
  }

  lemma NextKeepsRelaxed(q: Query, s: Search, x: Entry)
    requires Invariant(q, s) && Relaxed(q, s) && Poppable(q, s, x)
    ensures Relaxed(q, Next(q, s, x))
  {
    var t := Next(q, s, x);
    NextShape(q, s, x);
    forall u, e | u in t.best && e in Out(q.adj, u)
      ensures RelaxedAt(q, t, u, e)
    {
      if t.best == s.best {
        assert RelaxedAt(q, s, u, e);
      } else {
        VisitRelaxes(q, s, x, u, e);
      }
    }
  }

  lemma {:induction false} RunRelaxed(q: Query, pops: seq<Entry>)
    requires WellPosed(q) && LegalRun(q, pops)
    ensures Relaxed(q, StateAfter(q, pops))
    decreases |pops|
  {
    if pops == [] {
    } else {
      var init := pops[..|pops| - 1];
      RunRelaxed(q, init);
      RunInvariant(q, init);
      NextKeepsRelaxed(q, StateAfter(q, init), pops[|pops| - 1]);
    }
  }

  lemma ReachedRelaxed(q: Query, s: Search)
    requires Reached(q, s)
    ensures Relaxed(q, s)
  {
    var pops :| LegalRun(q, pops) && StateAfter(q, pops) == s;
    RunRelaxed(q, pops);
  }

  lemma VisitedHangs(q: Query, s: Search, v: NodeId)
    requires Reached(q, s) && v in s.best && v != q.us
    ensures v != q.dest && Hangs(q, TreeOf(s.best), v)
  {
    ReachedInvariant(q, s);
    var x := s.best[v];
    assert Good(q, s, x) && x.path != [];
    LastStep(q, s, x);
    assert LinkedAt(q, q.us, x.path, |x.path| - 1);
    assert BelowCap(q, TreeOf(s.best), LastNode(q, x.path), LastHop(x.path));
  }

  lemma OurNodeVisited(q: Query, s: Search)
    requires Reached(q, s) && q.us in s.best
    ensures s.best[q.us].path == []
  {
    ReachedInvariant(q, s);
    var x := s.best[q.us];
    assert Good(q, s, x);
    assert At(q.us, x.path, 0) == q.us && NewAt(q.us, x.path, |x.path|);
  }

  /** In a drained search a hop out of a visited node of depth five or less leads
      to a visited node, no dearer, or to a returned route. */
  lemma DrainedHop(q: Query, s: Search, u: NodeId, h: Hop) returns (y: Entry)
    requires Reached(q, s) && s.heap == multiset{}
    requires u in s.best && |s.best[u].path| < MAX_HOPS && Linked(q, u, h)
    ensures y.node == h.node && y.path == s.best[u].path + [h] && y.cost == s.best[u].cost + h.fee
    ensures if h.node == q.dest then y in s.found else h.node in s.best && s.best[h.node].cost <= y.cost
  {
    ReachedInvariant(q, s);
    ReachedRelaxed(q, s);
    var e :| e in Out(q.adj, u) && h == HopOf(q.amount, e);
    y := Extend(q, s.best[u], e);
    assert Good(q, s, s.best[u]);
    ExtendCost(q, s.best[u], e);
    assert Covered(q, s, u, e) && RelaxedAt(q, s, u, e);
  }

  /** However ties were broken, what a drained search visited is a capped
      cheapest tree of the graph. */
  lemma DrainedIsTree(q: Query, s: Search)
    requires Reached(q, s) && s.heap == multiset{}
    ensures SearchTree(q, TreeOf(s.best))
  {
    var tree := TreeOf(s.best);
    ReachedInvariant(q, s);
    UsVisited(q, s);
    OurNodeVisited(q, s);
    forall v | v in tree && v != q.us
      ensures v != q.dest && Hangs(q, tree, v)
    {
      VisitedHangs(q, s, v);
    }
    forall u, h | u in tree && BelowCap(q, tree, u, h)
      ensures Shortens(q, tree, u, h)
    {
      var y := DrainedHop(q, s, u, h);
      assert Good(q, s, s.best[u]);
      if h.node != q.dest {
        assert Good(q, s, s.best[h.node]);
      }
    }
  }

  // ---------- every such tree is a run ----------

  /** Every node visited so far was visited by its walk in the tree. */
  ghost predicate Follows(tree: Tree, s: Search) {
    forall v :: v in s.best ==> v in tree && s.best[v].path == tree[v]
  }

  /** Tree walks are walks, and their prefixes are the walks of their nodes. */
  lemma {:induction false} TreeWalk(q: Query, tree: Tree, v: NodeId, i: nat)
    requires SearchTree(q, tree) && v in tree && i <= |tree[v]|
    ensures |tree[v]| <= MAX_HOPS && IsWalk(q, q.us, tree[v]) && End(q.us, tree[v]) == v
    ensures At(q.us, tree[v], i) in tree && tree[At(q.us, tree[v], i)] == tree[v][..i]
    decreases |tree[v]|
  {
    if v == q.us {
      assert tree[v][..i] == [];
    } else {
      assert Hangs(q, tree, v);
      var u, h :| u in tree && BelowCap(q, tree, u, h) && h.node == v && tree[v] == tree[u] + [h];
      TreeWalk(q, tree, u, if i <= |tree[u]| then i else 0);
      WalkPush(q, q.us, tree[u], h);
      if i <= |tree[u]| {
        assert tree[v][..i] == tree[u][..i];
        assert At(q.us, tree[v], i) == At(q.us, tree[u], i);
      } else {
        assert tree[v][..i] == tree[v];
      }
    }
  }

  /** A heap entry for a node still to visit is no cheaper than the tree walk. */
  lemma TreeIsCheaper(q: Query, tree: Tree, s: Search, x: Entry)
    requires SearchTree(q, tree) && Follows(tree, s) && Good(q, s, x)
    requires |x.path| <= MAX_HOPS && x.path != [] && x.node != q.dest
    ensures x.node in tree && Cost(tree[x.node]) <= x.cost
  {
    LastStep(q, s, x);
    var u, h := LastNode(q, x.path), LastHop(x.path);
    assert LinkedAt(q, q.us, x.path, |x.path| - 1);
    assert BelowCap(q, tree, u, h);
    assert Shortens(q, tree, u, h);
  }

  lemma PrefixCost(q: Query, w: seq<Hop>, k: nat)
    requires IsWalk(q, q.us, w) && 0 < k <= |w|
    ensures Cost(w[..k - 1]) + w[k - 1].fee == Cost(w[..k]) <= Cost(w)
  {
    CostSplit(w, k);
    assert w[..k][..k - 1] == w[..k - 1];
  }

  /** A walk whose first `k - 1` hops visited their node goes on in the heap. */
  lemma WalkEntry(q: Query, s: Search, w: seq<Hop>, k: nat) returns (y: Entry)
    requires Entries(q, s) && Coverage(q, s) && IsWalk(q, q.us, w) && 0 < k <= |w| && k <= MAX_HOPS
    requires At(q.us, w, k - 1) in s.best && s.best[At(q.us, w, k - 1)].path == w[..k - 1]
    requires At(q.us, w, k) !in s.best && At(q.us, w, k) != q.dest
    ensures y in s.heap && y.node == At(q.us, w, k) && y.path == w[..k] && y.cost <= Cost(w)
  {
    var u := At(q.us, w, k - 1);
    assert LinkedAt(q, q.us, w, k - 1) && Good(q, s, s.best[u]);
    y := HopOut(q, s, u, w[k - 1]);
    assert w[..k] == w[..k - 1] + [w[k - 1]];
    PrefixCost(q, w, k);
    assert y in s.found ==> y.node == q.dest;
    assert y in s.dropped ==> |y.path| == MAX_HOPS + 1;
  }

  /** The entry by which the tree enters the nodes still to visit is in the heap. */
  lemma TreeEntry(q: Query, tree: Tree, s: Search, v: NodeId) returns (y: Entry)
    requires Entries(q, s) && Coverage(q, s) && SearchTree(q, tree) && Follows(tree, s)
    requires WellPosed(q) && q.us in s.best && v in tree && v !in s.best
    ensures y in s.heap && y.node !in s.best && y.cost <= Cost(tree[v])
    ensures y.node in tree && y.path == tree[y.node]
  {
    TreeWalk(q, tree, v, 0);
    var k := FirstOutside(q, s, tree[v]);
    var node := At(q.us, tree[v], k);
    TreeWalk(q, tree, v, k);
    TreeWalk(q, tree, v, k - 1);
    AwayFromDest(q, tree, node);
    y := WalkEntry(q, s, tree[v], k);
  }

  lemma AwayFromDest(q: Query, tree: Tree, v: NodeId)
    requires WellPosed(q) && SearchTree(q, tree) && v in tree
    ensures v != q.dest
  {
    assert v != q.us ==> Hangs(q, tree, v);
  }

  lemma {:induction false} LeastEntry(heap: multiset<Entry>) returns (x: Entry)
    requires heap != multiset{}
    ensures x in heap && forall y :: y in heap ==> x.cost <= y.cost
    decreases |heap|
  {
    x :| x in heap;
    var rest := heap - multiset{x};
    if rest != multiset{} {
      var y := LeastEntry(rest);
      if y.cost < x.cost {
        x := y;
      }
    }
  }

  /** The popped entry opens no node, or opens it by its walk in the tree. */
  ghost predicate KeepsTo(q: Query, tree: Tree, s: Search, x: Entry) {
    || |x.path| > MAX_HOPS || x.node == q.dest || x.node in s.best
    || (x.node in tree && x.path == tree[x.node])
  }

  lemma KeptFollows(q: Query, tree: Tree, s: Search, x: Entry)
    requires Follows(tree, s) && KeepsTo(q, tree, s, x)
    ensures Follows(tree, Next(q, s, x))
  {
  }

  /** Some entry of least cost keeps the run on the tree. */
  lemma StayOnTree(q: Query, tree: Tree, s: Search) returns (x: Entry)
    requires WellPosed(q) && Invariant(q, s) && SearchTree(q, tree) && Follows(tree, s)
    requires s.heap != multiset{}
    ensures x in s.heap && (forall y :: y in s.heap ==> x.cost <= y.cost) && Follows(tree, Next(q, s, x))
  {
    x := LeastEntry(s.heap);
    assert Good(q, s, x);
    if !KeepsTo(q, tree, s, x) {
      FirstRooted(q, s, x);
      TreeIsCheaper(q, tree, s, x);
      x := TreeEntry(q, tree, s, x.node);
    }
    KeptFollows(q, tree, s, x);
  }

  lemma FirstRooted(q: Query, s: Search, x: Entry)
    requires Good(q, s, x)
    ensures x.path == [] ==> x.node == q.us
    ensures x.path != [] ==> q.us in s.best
  {
    if x.path != [] {
      assert RootedAt(q, s.best, x.path, 0);
    }
  }

  lemma ReachedNext(q: Query, s: Search, x: Entry)
    requires Reached(q, s) && Poppable(q, s, x)
    ensures Reached(q, Next(q, s, x))
  {
    var pops :| LegalRun(q, pops) && StateAfter(q, pops) == s;
    RunStep(q, pops, x);
  }

  lemma ReachedStart(q: Query)
    requires WellPosed(q)
    ensures Reached(q, Start(q))
  {
    assert LegalRun(q, []) && StateAfter(q, []) == Start(q);
  }

  /** A run that keeps to the tree until it halts. */
  lemma {:induction false} FollowOn(q: Query, tree: Tree, s: Search) returns (z: Search)
    requires SearchTree(q, tree) && Reached(q, s) && Follows(tree, s)
    ensures Reached(q, z) && Halted(q, z) && Follows(tree, z)
    decreases |Nodes(q) - s.best.Keys|, |s.heap|
  {
    if Halted(q, s) {
      z := s;
    } else {
      ReachedInvariant(q, s);
      var x := StayOnTree(q, tree, s);
      ReachedNext(q, s, x);
      MeasureShrinks(q, s, x);
      z := FollowOn(q, tree, Next(q, s, x));
    }
  }

  lemma FollowTree(q: Query, tree: Tree) returns (z: Search)
    requires WellPosed(q) && SearchTree(q, tree)
    ensures Reached(q, z) && Halted(q, z) && Follows(tree, z)
  {
    ReachedStart(q);
    z := FollowOn(q, tree, Start(q));
  }

  /** Every route of a run that keeps to the tree leaves the tree by an exit. */
  lemma RouteByExit(q: Query, tree: Tree, s: Search, f: Entry) returns (u: NodeId, h: Hop)
    requires Reached(q, s) && Follows(tree, s) && f in s.found
    ensures Exit(q, tree, u, h) && f.path == tree[u] + [h] && f.cost == Cost(tree[u]) + h.fee
  {
    ReachedInvariant(q, s);
    RoutesSound(q, s);
    FoundNonEmpty(q, s, f);
    LastStep(q, s, f);
    u, h := LastNode(q, f.path), LastHop(f.path);
    assert LinkedAt(q, q.us, f.path, |f.path| - 1);
  }

  // ---------- the route limit ----------

  /** The same search with another limit on the number of routes. */
  function WithLimit(q: Query, m: nat): Query {
    q.(maxRoutes := m)
  }

  lemma {:induction false} SameExtensions(q: Query, m: nat, x: Entry, visited: set<NodeId>, edges: seq<Edge>)
    ensures Extensions(WithLimit(q, m), x, visited, edges) == Extensions(q, x, visited, edges)
    decreases |edges|
  {
    if edges == [] {
    } else {
      var n := |edges| - 1;
      SameExtensions(q, m, x, visited, edges[..n]);
      assert Extend(WithLimit(q, m), x, edges[n]) == Extend(q, x, edges[n]);
    }
  }

  lemma SameNext(q: Query, m: nat, s: Search, x: Entry)
    ensures Next(WithLimit(q, m), s, x) == Next(q, s, x)
  {
    SameExtensions(q, m, x, s.best[x.node := x].Keys, Out(q.adj, x.node));
  }

  lemma {:induction false} LimitRaised(q: Query, m: nat, pops: seq<Entry>)
    requires LegalRun(q, pops) && q.maxRoutes <= m
    ensures LegalRun(WithLimit(q, m), pops) && StateAfter(WithLimit(q, m), pops) == StateAfter(q, pops)
    decreases |pops|
  {
    if pops == [] {
    } else {
      var init, x := pops[..|pops| - 1], pops[|pops| - 1];
      LimitRaised(q, m, init);
      SameNext(q, m, StateAfter(q, init), x);
    }
  }

  lemma ReachedRaised(q: Query, m: nat, s: Search)
    requires Reached(q, s) && q.maxRoutes <= m
    ensures Reached(WithLimit(q, m), s)
  {
    var pops :| LegalRun(q, pops) && StateAfter(q, pops) == s;
    LimitRaised(q, m, pops);
  }

  function OneMore(q: Query, s: Search): Query {
    WithLimit(q, q.maxRoutes + |s.found| + 1)
  }

  lemma MeasureShrinks(q: Query, s: Search, x: Entry)
    requires Reached(q, s) && x in s.heap
    ensures var t := Next(q, s, x);
            || |Nodes(q) - t.best.Keys| < |Nodes(q) - s.best.Keys|
            || (t.best == s.best && |t.heap| < |s.heap|)
  {
    ReachedInvariant(q, s);
    EntriesInGraph(q, s);
    MeasureDrops(q, Nodes(q), s, x);
  }

  /** One more pop, the limit raised to allow it. */
  lemma DryStep(q: Query, s: Search, x: Entry)
    requires Reached(q, s) && x in s.heap && forall y :: y in s.heap ==> x.cost <= y.cost
    ensures Reached(OneMore(q, s), Next(q, s, x)) && s.found <= Next(q, s, x).found
  {
    var more := OneMore(q, s);
    ReachedRaised(q, more.maxRoutes, s);
    ReachedNext(more, s, x);
    SameNext(q, more.maxRoutes, s, x);
    NextShape(q, s, x);
  }

  /** Any run can be continued, the limit raised, until the heap is empty. */
  lemma {:induction false} DrainOn(q: Query, s: Search) returns (m: nat, z: Search)
    requires Reached(q, s)
    ensures q.maxRoutes <= m && Reached(WithLimit(q, m), z) && z.heap == multiset{} && s.found <= z.found
    ensures s.heap == multiset{} ==> z == s
    decreases |Nodes(q) - s.best.Keys|, |s.heap|
  {
    if s.heap == multiset{} {
      m, z := q.maxRoutes, s;
    } else {
      var x := LeastEntry(s.heap);
      DryStep(q, s, x);
      MeasureShrinks(q, s, x);
      m, z := DrainOn(OneMore(q, s), Next(q, s, x));
    }
  }

  lemma SameTrees(q: Query, m: nat, tree: Tree)
    ensures SearchTree(WithLimit(q, m), tree) <==> SearchTree(q, tree)
  {
    var r := WithLimit(q, m);
    assert forall u, h :: Linked(r, u, h) <==> Linked(q, u, h);
    forall u, h | u in tree
      ensures BelowCap(r, tree, u, h) <==> BelowCap(q, tree, u, h)
      ensures Shortens(r, tree, u, h) <==> Shortens(q, tree, u, h)
    {
    }
    forall v | v in tree
      ensures Hangs(r, tree, v) <==> Hangs(q, tree, v)
    {
    }
  }

  lemma {:induction false} FollowDry(q: Query, tree: Tree, s: Search) returns (m: nat, z: Search)
    requires SearchTree(q, tree) && Reached(q, s) && Follows(tree, s)
    ensures Reached(WithLimit(q, m), z) && z.heap == multiset{} && Follows(tree, z)
    decreases |Nodes(q) - s.best.Keys|, |s.heap|
  {
    if s.heap == multiset{} {
      m, z := q.maxRoutes, s;
    } else {
      ReachedInvariant(q, s);
      var x := StayOnTree(q, tree, s);
      DryStep(q, s, x);
      MeasureShrinks(q, s, x);
      SameTrees(q, OneMore(q, s).maxRoutes, tree);
      m, z := FollowDry(OneMore(q, s), tree, Next(q, s, x));
    }
  }

  /** A run that followed a tree until the heap was empty visited all of it. */
  lemma {:induction false} WholeTree(q: Query, tree: Tree, s: Search, v: NodeId)
    requires SearchTree(q, tree) && Reached(q, s) && s.heap == multiset{} && Follows(tree, s)
    requires v in tree
    ensures v in s.best
    decreases |tree[v]|
  {
    if v == q.us {
      ReachedInvariant(q, s);
      UsVisited(q, s);
    } else {
      assert Hangs(q, tree, v);
      var u, h :| u in tree && BelowCap(q, tree, u, h) && h.node == v && tree[v] == tree[u] + [h];
      WholeTree(q, tree, s, u);
      var y := DrainedHop(q, s, u, h);
    }
  }

  ghost predicate Visits(q: Query, m: nat, s: Search, tree: Tree) {
    Reached(WithLimit(q, m), s) && s.heap == multiset{} && TreeOf(s.best) == tree
  }

  lemma SameDomain(tree: Tree, s: Search)
    requires Follows(tree, s) && forall v :: v in tree ==> v in s.best
    ensures TreeOf(s.best) == tree
  {
    assert TreeOf(s.best).Keys == tree.Keys;
  }

  lemma TreeVisited(q: Query, tree: Tree) returns (m: nat, s: Search)
    requires WellPosed(q) && SearchTree(q, tree)
    ensures Visits(q, m, s, tree)
  {
    ReachedStart(q);
    m, s := FollowDry(q, tree, Start(q));
    SameTrees(q, m, tree);
    forall v | v in tree
      ensures v in s.best
    {
      WholeTree(WithLimit(q, m), tree, s, v);
    }
    SameDomain(tree, s);
  }

  /** The drained runs of the search, over all limits and all orders of ties, visit
      exactly the capped cheapest trees of the graph. */
  lemma RunsAreTrees(q: Query, tree: Tree)
    requires WellPosed(q)
    ensures SearchTree(q, tree) <==> exists m, s :: Visits(q, m, s, tree)
  {
    if SearchTree(q, tree) {
      var m, s := TreeVisited(q, tree);
    }
    if m, s :| Visits(q, m, s, tree) {
      DrainedIsTree(WithLimit(q, m), s);
      SameTrees(q, m, tree);
    }
  }

  // ---------- which graphs the hop cap can fail on ----------

  ghost predicate NoExit(q: Query, tree: Tree) {
    SearchTree(q, tree) && forall u, h :: !Exit(q, tree, u, h)
  }

  /** A halted run that returned nothing. */
  ghost predicate EndsEmpty(q: Query, s: Search) {
    Reached(q, s) && Halted(q, s) && s.found == []
  }

  /** Some order of ties makes the search return nothing if and only if the graph
      has a capped cheapest tree without an exit to the destination. */
  lemma EmptyPossibleIff(q: Query)
    requires WellPosed(q) && q.maxRoutes > 0
    ensures (exists s :: EndsEmpty(q, s)) <==> exists tree :: NoExit(q, tree)
  {
    if s :| EndsEmpty(q, s) {
      DrainedIsTree(q, s);
      var tree := TreeOf(s.best);
      forall u, h
        ensures !Exit(q, tree, u, h)
      {
        if Exit(q, tree, u, h) {
          var y := DrainedHop(q, s, u, h);
        }
      }
      assert NoExit(q, tree);
    }
    if tree :| NoExit(q, tree) {
      var z := FollowTree(q, tree);
      if z.found != [] {
        var u, h := RouteByExit(q, tree, z, z.found[0]);
      }
      assert EndsEmpty(q, z);
    }
  }

  /** The first route is there and is the cheapest of all walks. */
  ghost predicate Exact(q: Query, s: Search) {
    s.found != [] && CheapestWalk(q, s.found[0].cost)
  }

  ghost predicate EndsInexact(q: Query, s: Search) {
    Reached(q, s) && Halted(q, s) && !Exact(q, s)
  }

  ghost predicate CheapExit(q: Query, tree: Tree, u: NodeId, h: Hop) {
    Exit(q, tree, u, h) && CheapestWalk(q, Cost(tree[u]) + h.fee)
  }

  ghost predicate NoCheapExit(q: Query, tree: Tree) {
    SearchTree(q, tree) && forall u, h :: !CheapExit(q, tree, u, h)
  }

  lemma CheaperStillCheapest(q: Query, a: nat, b: nat)
    requires CheapestWalk(q, b) && a <= b
    ensures CheapestWalk(q, a)
  {
  }

  lemma FirstIsLeast(s: Search, y: Entry)
    requires Sorted(s.found) && y in s.found
    ensures s.found[0].cost <= y.cost
  {
    var j :| 0 <= j < |s.found| && s.found[j] == y;
  }

  /** A cheap exit of what the drained search visited is a cheapest first route. */
  lemma CheapExitExact(q: Query, s: Search, u: NodeId, h: Hop)
    requires Reached(q, s) && s.heap == multiset{} && CheapExit(q, TreeOf(s.best), u, h)
    ensures Exact(q, s)
  {
    var y := DrainedHop(q, s, u, h);
    RoutesSound(q, s);
    FirstIsLeast(s, y);
    BestCost(q, s, u);
    CheaperStillCheapest(q, s.found[0].cost, y.cost);
  }

  lemma BestCost(q: Query, s: Search, u: NodeId)
    requires Reached(q, s) && u in s.best
    ensures s.best[u].cost == Cost(s.best[u].path)
  {
    ReachedInvariant(q, s);
    assert Good(q, s, s.best[u]);
  }

  lemma SameExact(q: Query, m: nat, s: Search)
    ensures Exact(WithLimit(q, m), s) <==> Exact(q, s)
  {
    SameWalks(q, m);
  }

  lemma SameWalks(q: Query, m: nat)
    ensures forall w :: ReachesDest(WithLimit(q, m), w) <==> ReachesDest(q, w)
  {
    var r := WithLimit(q, m);
    assert forall u, h :: Linked(r, u, h) <==> Linked(q, u, h);
    forall w
      ensures ReachesDest(r, w) <==> ReachesDest(q, w)
    {
      assert forall i :: 0 <= i < |w| ==> (LinkedAt(r, q.us, w, i) <==> LinkedAt(q, q.us, w, i));
    }
  }

  lemma InexactTree(q: Query, s: Search) returns (tree: Tree)
    requires q.maxRoutes > 0 && EndsInexact(q, s)
    ensures NoCheapExit(q, tree)
  {
    var m, z := DrainOn(q, s);
    var r := WithLimit(q, m);
    DrainedIsTree(r, z);
    tree := TreeOf(z.best);
    SameTrees(q, m, tree);
    SameExact(q, m, z);
    SameWalks(q, m);
    assert !Exact(q, z);
    forall u, h
      ensures !CheapExit(q, tree, u, h)
    {
      if CheapExit(q, tree, u, h) {
        assert Linked(r, u, h) && CheapExit(r, tree, u, h);
        CheapExitExact(r, z, u, h);
      }
    }
  }

  /** Some order of ties makes the search miss the cheapest walk, or any, if and
      only if the graph has a capped cheapest tree whose exits are all too dear. */
  lemma InexactPossibleIff(q: Query)
    requires WellPosed(q) && q.maxRoutes > 0
    ensures (exists s :: EndsInexact(q, s)) <==> exists tree :: NoCheapExit(q, tree)
  {
    if s :| EndsInexact(q, s) {
      var tree := InexactTree(q, s);
    }
    if tree :| NoCheapExit(q, tree) {
      var z := FollowTree(q, tree);
      if z.found != [] {
        var u, h := RouteByExit(q, tree, z, z.found[0]);
        assert !CheapExit(q, tree, u, h);
      }
      assert EndsInexact(q, z);
    }
  }
}
