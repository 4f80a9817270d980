/** When the hop cap cannot spoil the search, told from the walks of the graph
    alone, and what a run that returned nothing looks like. */
module RouteCheapest {
  import opened RouteGraph
  import opened RouteSearch
  import opened RouteInvariants
  import opened RouteOptimal
  import opened RouteResults
  import opened RouteTrees

  /** A loop-free walk to the destination than which none is cheaper. */
  ghost predicate CheapestRoute(q: Query, w: seq<Hop>) {
    ReachesDest(q, w) && Loopless(q.us, w) && CheapestWalk(q, Cost(w))
  }

  /** Every cheapest loop-free walk is within the hop cap. */
  ghost predicate ShortCheapest(q: Query) {
    forall w :: CheapestRoute(q, w) ==> |w| <= MAX_HOPS
  }

  // ---------- a cheapest route exists whenever a walk does ----------

  lemma {:induction false} CheapestExists(q: Query, w: seq<Hop>) returns (v: seq<Hop>)
    requires ReachesDest(q, w)
    ensures ReachesDest(q, v) && CheapestWalk(q, Cost(v))
    decreases Cost(w)
  {
    if x :| ReachesDest(q, x) && Cost(x) < Cost(w) {
      v := CheapestExists(q, x);
    } else {
      v := w;
    }
  }

  lemma CutLoop(q: Query, w: seq<Hop>, i: nat, j: nat) returns (v: seq<Hop>)
    requires ReachesDest(q, w) && i < j <= |w| && At(q.us, w, i) == At(q.us, w, j)
    ensures ReachesDest(q, v) && Cost(v) <= Cost(w) && |v| < |w|
  {
    WalkCut(q, q.us, w, i);
    WalkCut(q, q.us, w, j);
    v := w[..i] + w[j..];
    WalkJoin(q, q.us, w[..i], w[j..]);
    PrefixGrows(w, i, j);
  }

  lemma {:induction false} WithoutLoops(q: Query, w: seq<Hop>) returns (v: seq<Hop>)
    requires ReachesDest(q, w)
    ensures ReachesDest(q, v) && Loopless(q.us, v) && Cost(v) <= Cost(w)
    decreases |w|
  {
    if j :| 0 <= j <= |w| && !NewAt(q.us, w, j) {
      var i :| 0 <= i < j && At(q.us, w, i) == At(q.us, w, j);
      v := CutLoop(q, w, i, j);
      v := WithoutLoops(q, v);
    } else {
      v := w;
    }
  }

  lemma CheapestRouteExists(q: Query, w: seq<Hop>) returns (v: seq<Hop>)
    requires ReachesDest(q, w)
    ensures CheapestRoute(q, v)
  {
    var x := CheapestExists(q, w);
    v := WithoutLoops(q, x);
    CheaperStillCheapest(q, Cost(v), Cost(x));
  }

  // ---------- an inexact tree hides a cheapest route beyond the cap ----------

  lemma PrefixGrows(w: seq<Hop>, i: nat, j: nat)
    requires i <= j <= |w|
    ensures Cost(w[..i]) <= Cost(w[..j]) <= Cost(w)
  {
    CostSplit(w, j);
    CostSplit(w[..j], i);
    assert w[..j][..i] == w[..i];
  }

  /** The tree reaches the `k`-th node of `w` as cheaply as `w` does. */
  ghost predicate TightAt(q: Query, tree: Tree, w: seq<Hop>, k: nat)
    requires k <= |w|
  {
    At(q.us, w, k) in tree && Cost(tree[At(q.us, w, k)]) <= Cost(w[..k])
  }

  lemma {:induction false} LastTight(q: Query, tree: Tree, w: seq<Hop>, n: nat) returns (k: nat)
    requires SearchTree(q, tree) && n <= |w|
    ensures k <= n && TightAt(q, tree, w, k)
    ensures forall j :: k < j <= n ==> !TightAt(q, tree, w, j)
    decreases n
  {
    if n == 0 || TightAt(q, tree, w, n) {
      k := n;
    } else {
      k := LastTight(q, tree, w, n - 1);
    }
  }

  /** Below the cap the tree stays as cheap as a cheapest walk up to an exit. */
  lemma TightNext(q: Query, tree: Tree, w: seq<Hop>, k: nat)
    requires SearchTree(q, tree) && ReachesDest(q, w) && CheapestWalk(q, Cost(w))
    requires k < |w| && TightAt(q, tree, w, k) && |tree[At(q.us, w, k)]| < MAX_HOPS
    ensures TightAt(q, tree, w, k + 1) || CheapExit(q, tree, At(q.us, w, k), w[k])
  {
    var u, h := At(q.us, w, k), w[k];
    assert LinkedAt(q, q.us, w, k);
    assert BelowCap(q, tree, u, h);
    assert Shortens(q, tree, u, h);
    PrefixCost(q, w, k + 1);
    if h.node == q.dest {
      CheaperStillCheapest(q, Cost(tree[u]) + h.fee, Cost(w));
    }
  }

  /** The tree's walk to the last tight node of `w`, and `w` from there. */
  function Spliced(tree: Tree, u: NodeId, w: seq<Hop>, k: nat): seq<Hop>
    requires u in tree && k <= |w|
  {
    tree[u] + w[k..]
  }

  lemma SplicedWalk(q: Query, tree: Tree, w: seq<Hop>, k: nat)
    requires SearchTree(q, tree) && ReachesDest(q, w) && k <= |w| && TightAt(q, tree, w, k)
    ensures var v := Spliced(tree, At(q.us, w, k), w, k); ReachesDest(q, v) && Cost(v) <= Cost(w)
  {
    var u := At(q.us, w, k);
    TreeWalk(q, tree, u, 0);
    WalkCut(q, q.us, w, k);
    WalkJoin(q, q.us, tree[u], w[k..]);
  }

  lemma TreeLoopless(q: Query, tree: Tree, v: NodeId, i: nat, j: nat)
    requires SearchTree(q, tree) && v in tree && i < j <= |tree[v]|
    ensures At(q.us, tree[v], i) != At(q.us, tree[v], j)
  {
    TreeWalk(q, tree, v, i);
    TreeWalk(q, tree, v, j);
    assert |tree[v][..i]| == i && |tree[v][..j]| == j;
  }

  /** What lies on the tree's walk to a tight node is not met again by `w`. */
  lemma TreePartNew(q: Query, tree: Tree, w: seq<Hop>, k: nat, i: nat, j: nat)
    requires SearchTree(q, tree) && k < j <= |w| && TightAt(q, tree, w, k) && !TightAt(q, tree, w, j)
    requires i <= |tree[At(q.us, w, k)]|
    ensures At(q.us, tree[At(q.us, w, k)], i) != At(q.us, w, j)
  {
    var u := At(q.us, w, k);
    TreeWalk(q, tree, u, i);
    PrefixGrows(tree[u], i, |tree[u]|);
    PrefixGrows(w, k, j);
  }

  lemma SplicedLoopless(q: Query, tree: Tree, w: seq<Hop>, k: nat)
    requires SearchTree(q, tree) && Loopless(q.us, w) && k <= |w| && TightAt(q, tree, w, k)
    requires forall j :: k < j <= |w| ==> !TightAt(q, tree, w, j)
    ensures Loopless(q.us, Spliced(tree, At(q.us, w, k), w, k))
  {
    var u := At(q.us, w, k);
    var v, n := Spliced(tree, u, w, k), |tree[u]|;
    TreeWalk(q, tree, u, 0);
    forall j | 0 <= j <= |v|
      ensures NewAt(q.us, v, j)
    {
      forall i | 0 <= i < j
        ensures At(q.us, v, i) != At(q.us, v, j)
      {
        SplicedAt(q, tree, w, k, i);
        SplicedAt(q, tree, w, k, j);
        if j <= n {
          TreeLoopless(q, tree, u, i, j);
        } else if i < n {
          TreePartNew(q, tree, w, k, i, j - n + k);
        } else {
          assert NewAt(q.us, w, j - n + k);
        }
      }
    }
  }

  lemma SplicedAt(q: Query, tree: Tree, w: seq<Hop>, k: nat, i: nat)
    requires k <= |w| && At(q.us, w, k) in tree && End(q.us, tree[At(q.us, w, k)]) == At(q.us, w, k)
    requires i <= |Spliced(tree, At(q.us, w, k), w, k)|
    ensures var u, n := At(q.us, w, k), |tree[At(q.us, w, k)]|;
            At(q.us, Spliced(tree, u, w, k), i) ==
            if i <= n then At(q.us, tree[u], i) else At(q.us, w, i - n + k)
  {
  }

  /** If none of the exits of a tree is cheap, some cheapest route of the graph is
      beyond the hop cap. */
  lemma LongCheapest(q: Query, tree: Tree, w: seq<Hop>) returns (v: seq<Hop>)
    requires WellPosed(q) && NoCheapExit(q, tree) && CheapestRoute(q, w)
    ensures CheapestRoute(q, v) && |v| > MAX_HOPS
  {
    var k := LastTight(q, tree, w, |w|);
    var u := At(q.us, w, k);
    AwayFromDest(q, tree, u);
    TreeWalk(q, tree, u, 0);
    if |tree[u]| < MAX_HOPS {
      TightNext(q, tree, w, k);
    }
    v := Spliced(tree, u, w, k);
    SplicedWalk(q, tree, w, k);
    SplicedLoopless(q, tree, w, k);
    CheaperStillCheapest(q, Cost(v), Cost(w));
  }

  // ---------- the theorems ----------

  /** For every order of ties: when a walk to the destination exists and every
      cheapest loop-free one is within the hop cap, the search returns routes and
      the first is cheapest over all walks. */
  lemma ShortCheapestSoExact(q: Query, s: Search, w: seq<Hop>)
    requires Reached(q, s) && Halted(q, s) && q.maxRoutes > 0
    requires ReachesDest(q, w) && ShortCheapest(q)
    ensures Exact(q, s)
  {
    if !Exact(q, s) {
      var v := CheapestRouteExists(q, w);
      var tree := InexactTree(q, s);
      var x := LongCheapest(q, tree, v);
    }
  }

  /** A cheapest first route is a cheapest loop-free walk within the hop cap. */
  lemma ExactSoShort(q: Query, s: Search)
    requires Reached(q, s) && Exact(q, s)
    ensures CheapestRoute(q, s.found[0].path) && |s.found[0].path| <= MAX_HOPS
  {
    RoutesSound(q, s);
    assert s.found[0] in s.found && SoundRoute(q, s.found[0]);
  }

  /** No tie across the cap: the cheapest loop-free walks are all within it, or
      all beyond it. A single cheapest walk is the usual case. */
  ghost predicate CapSplitsNoTie(q: Query, w: seq<Hop>) {
    forall v :: CheapestRoute(q, v) ==> (|v| <= MAX_HOPS <==> |w| <= MAX_HOPS)
  }

  /** Where the cap splits no tie, the first route is there and cheapest if and
      only if the cheapest loop-free walk has at most six hops. */
  lemma ExactIffShort(q: Query, s: Search, w: seq<Hop>)
    requires Reached(q, s) && Halted(q, s) && q.maxRoutes > 0
    requires CheapestRoute(q, w) && CapSplitsNoTie(q, w)
    ensures Exact(q, s) <==> |w| <= MAX_HOPS
  {
    if |w| <= MAX_HOPS {
      ShortCheapestSoExact(q, s, w);
    }
    if Exact(q, s) {
      ExactSoShort(q, s);
    }
  }

  // ---------- a run that returned nothing ----------

  ghost predicate CrossesAt(q: Query, s: Search, w: seq<Hop>, k: nat)
    requires k < |w|
  {
    && At(q.us, w, k) in s.best
    && exists x :: x in s.dropped && x.path == s.best[At(q.us, w, k)].path + [w[k]]
  }

  /** `w` passes a hop that the search discarded out of a visited node. */
  ghost predicate Crosses(q: Query, s: Search, w: seq<Hop>) {
    exists k :: 0 <= k < |w| && CrossesAt(q, s, w, k)
  }

  lemma LeavesByDiscard(q: Query, s: Search, w: seq<Hop>)
    requires Reached(q, s) && s.heap == multiset{} && s.found == [] && ReachesDest(q, w)
    ensures Crosses(q, s, w)
  {
    ReachedInvariant(q, s);
    UsVisited(q, s);
    var k := FirstOutside(q, s, w);
    assert LinkedAt(q, q.us, w, k - 1) && Good(q, s, s.best[At(q.us, w, k - 1)]);
    var y := HopOut(q, s, At(q.us, w, k - 1), w[k - 1]);
    assert CrossesAt(q, s, w, k - 1);
  }

  lemma RouteCrossesNothing(q: Query, s: Search, f: Entry)
    requires Reached(q, s) && f in s.found
    ensures ReachesDest(q, f.path) && !Crosses(q, s, f.path)
  {
    ReachedInvariant(q, s);
    RoutesSound(q, s);
    assert Good(q, s, f);
    forall k | 0 <= k < |f.path|
      ensures !CrossesAt(q, s, f.path, k)
    {
      assert RootedAt(q, s.best, f.path, k);
      forall x | x in s.dropped
        ensures x.path != f.path[..k] + [f.path[k]]
      {
        assert |x.path| == MAX_HOPS + 1;
      }
    }
  }

  /** A halted search returned nothing if and only if every walk to the
      destination passes a hop that was discarded out of a visited node. */
  lemma EmptyIffAllCross(q: Query, s: Search)
    requires Reached(q, s) && Halted(q, s) && q.maxRoutes > 0
    ensures s.found == [] <==> forall w :: ReachesDest(q, w) ==> Crosses(q, s, w)
  {
    if s.found == [] {
      forall w | ReachesDest(q, w)
        ensures Crosses(q, s, w)
      {
        LeavesByDiscard(q, s, w);
      }
    } else {
      RouteCrossesNothing(q, s, s.found[0]);
    }
  }
}
