/** The search loop as a transition system over (heap, visited, found). A run is
    the sequence of entries popped from the heap; ties between entries of least
    cost are resolved in every possible way. */
module RouteSearch {
  import opened Words
  import opened RouteGraph

  const MAX_HOPS: nat := 6

  datatype Entry = Entry(cost: u64, node: NodeId, path: seq<Hop>)

  /** `best` maps each visited node to the entry that visited it, and `dropped`
      holds the entries discarded by the hop cap; the program keeps only the keys
      of the former and nothing of the latter. */
  datatype Search = Search(heap: multiset<Entry>, best: map<NodeId, Entry>,
                           found: seq<Entry>, dropped: set<Entry>)

  function Root(q: Query): Entry {
    Entry(0, q.us, [])
  }

  function Extend(q: Query, x: Entry, e: Edge): Entry {
    var h := HopOf(q.amount, e);
    Entry(Wrap64(x.cost + h.fee), e.to, x.path + [h])
  }

  /** The entries pushed when `x` is expanded over `edges`. */
  function Extensions(q: Query, x: Entry, visited: set<NodeId>, edges: seq<Edge>): multiset<Entry> {
    if edges == [] then multiset{}
    else
      var n := |edges| - 1;
      Extensions(q, x, visited, edges[..n])
      + (if edges[n].to in visited then multiset{} else multiset{Extend(q, x, edges[n])})
  }

  function Start(q: Query): Search {
    Search(multiset{Root(q)}, map[], [], {})
  }

  /** One iteration of the loop on the popped entry `x`. */
  function Next(q: Query, s: Search, x: Entry): Search {
    var rest := s.heap - multiset{x};
    if |x.path| > MAX_HOPS then
      s.(heap := rest, dropped := s.dropped + {x})
    else if x.node == q.dest then
      s.(heap := rest, found := s.found + [x])
    else if x.node in s.best then
      s.(heap := rest)
    else
      var best := s.best[x.node := x];
      s.(heap := rest + Extensions(q, x, best.Keys, Out(q.adj, x.node)), best := best)
  }

  ghost predicate Poppable(q: Query, s: Search, x: Entry) {
    && x in s.heap
    && (forall y :: y in s.heap ==> x.cost <= y.cost)
    && |s.found| < q.maxRoutes
  }

  ghost function StateAfter(q: Query, pops: seq<Entry>): Search {
    if pops == [] then Start(q)
    else Next(q, StateAfter(q, pops[..|pops| - 1]), pops[|pops| - 1])
  }

  /** Every popped entry is one of least cost in the heap of its moment. */
  ghost predicate LegalRun(q: Query, pops: seq<Entry>) {
    pops == [] ||
    (LegalRun(q, pops[..|pops| - 1]) && Poppable(q, StateAfter(q, pops[..|pops| - 1]), pops[|pops| - 1]))
  }

  ghost predicate Halted(q: Query, s: Search) {
    s.heap == multiset{} || |s.found| >= q.maxRoutes
  }

  lemma RunStep(q: Query, pops: seq<Entry>, x: Entry)
    requires LegalRun(q, pops) && Poppable(q, StateAfter(q, pops), x)
    ensures LegalRun(q, pops + [x]) && StateAfter(q, pops + [x]) == Next(q, StateAfter(q, pops), x)
  {
    assert (pops + [x])[..|pops|] == pops;
  }

  // ---------- what every entry satisfies ----------

  ghost predicate Sound(q: Query, x: Entry) {
    && IsWalk(q, q.us, x.path)
    && x.cost == Cost(x.path)
    && x.node == End(q.us, x.path)
    && Loopless(q.us, x.path)
    && |x.path| <= MAX_HOPS + 1
  }

  /** The `i`-th node of the path was visited by the path's own prefix. */
  ghost predicate RootedAt(q: Query, best: map<NodeId, Entry>, w: seq<Hop>, i: nat)
    requires i < |w|
  {
    At(q.us, w, i) in best && best[At(q.us, w, i)].path == w[..i]
  }

  ghost predicate Rooted(q: Query, best: map<NodeId, Entry>, w: seq<Hop>) {
    forall i :: 0 <= i < |w| ==> RootedAt(q, best, w, i)
  }

  ghost predicate Good(q: Query, s: Search, x: Entry) {
    Sound(q, x) && Rooted(q, s.best, x.path)
  }

  ghost predicate GoodHeap(q: Query, s: Search) {
    forall x :: x in s.heap ==> Good(q, s, x)
  }

  ghost predicate GoodBest(q: Query, s: Search) {
    forall v :: v in s.best ==>
      Good(q, s, s.best[v]) && s.best[v].node == v && v != q.dest && |s.best[v].path| <= MAX_HOPS
  }

  ghost predicate GoodFound(q: Query, s: Search) {
    forall x :: x in s.found ==> Good(q, s, x) && x.node == q.dest && |x.path| <= MAX_HOPS
  }

  ghost predicate GoodDropped(q: Query, s: Search) {
    forall x :: x in s.dropped ==> Good(q, s, x) && |x.path| == MAX_HOPS + 1
  }

  ghost predicate Entries(q: Query, s: Search) {
    GoodHeap(q, s) && GoodBest(q, s) && GoodFound(q, s) && GoodDropped(q, s)
  }

  lemma ExtensionsAppend(q: Query, x: Entry, visited: set<NodeId>, edges: seq<Edge>, e: Edge)
    ensures Extensions(q, x, visited, edges + [e]) ==
            Extensions(q, x, visited, edges) + (if e.to in visited then multiset{} else multiset{Extend(q, x, e)})
  {
    assert (edges + [e])[..|edges|] == edges;
  }

  ghost predicate PushedBy(q: Query, x: Entry, visited: set<NodeId>, e: Edge, y: Entry) {
    e.to !in visited && y == Extend(q, x, e)
  }

  lemma {:induction false} ExtensionsHave(q: Query, x: Entry, visited: set<NodeId>, edges: seq<Edge>, y: Entry)
    ensures y in Extensions(q, x, visited, edges) <==>
            exists e :: e in edges && PushedBy(q, x, visited, e, y)
    decreases |edges|
  {
    if edges == [] {
    } else {
      var n := |edges| - 1;
      ExtensionsHave(q, x, visited, edges[..n], y);
      assert edges == edges[..n] + [edges[n]];
      assert PushedBy(q, x, visited, edges[n], y) <==> edges[n].to !in visited && y == Extend(q, x, edges[n]);
    }
  }

  lemma LinkFee(q: Query, start: NodeId, w: seq<Hop>, i: nat)
    requires i < |w| && LinkedAt(q, start, w, i)
    ensures w[i].fee <= MAX_HOP_FEE
  {
    var e :| e in Out(q.adj, At(start, w, i)) && w[i] == HopOf(q.amount, e);
    HopFeeExactIffProductFits(q.amount, e.baseMsat, e.ppm);
  }

  lemma {:induction false} CostBound(q: Query, start: NodeId, w: seq<Hop>)
    requires IsWalk(q, start, w)
    ensures Cost(w) <= |w| * MAX_HOP_FEE
    decreases |w|
  {
    if w == [] {
    } else {
      var n := |w| - 1;
      WalkTake(q, start, w, n);
      CostBound(q, start, w[..n]);
      LinkFee(q, start, w, n);
      assert |w| * MAX_HOP_FEE == n * MAX_HOP_FEE + MAX_HOP_FEE;
    }
  }

  lemma SoundCost(q: Query, x: Entry)
    requires Sound(q, x)
    ensures x.cost <= 7 * MAX_HOP_FEE
  {
    CostBound(q, q.us, x.path);
  }

  /** The running cost of an entry never overflows: a pushed path has at most
      seven hops. */
  lemma ExtendCost(q: Query, x: Entry, e: Edge)
    requires Sound(q, x)
    ensures Extend(q, x, e).cost == x.cost + HopFee(q.amount, e.baseMsat, e.ppm)
  {
    SoundCost(q, x);
    HopFeeExactIffProductFits(q.amount, e.baseMsat, e.ppm);
  }

  lemma WalkPush(q: Query, start: NodeId, w: seq<Hop>, h: Hop)
    requires IsWalk(q, start, w) && Linked(q, End(start, w), h)
    ensures IsWalk(q, start, w + [h]) && End(start, w + [h]) == h.node && Cost(w + [h]) == Cost(w) + h.fee
  {
    var y := w + [h];
    assert y[..|w|] == w;
    forall i | 0 <= i < |y|
      ensures LinkedAt(q, start, y, i)
    {
      if i < |w| {
        assert LinkedAt(q, start, w, i);
      } else {
        assert At(start, y, i) == End(start, w);
      }
    }
  }

  lemma LooplessPush(start: NodeId, w: seq<Hop>, h: Hop)
    requires Loopless(start, w)
    requires forall i :: 0 <= i <= |w| ==> At(start, w, i) != h.node
    ensures Loopless(start, w + [h])
  {
    var y := w + [h];
    forall j | 0 <= j <= |y|
      ensures NewAt(start, y, j)
    {
      if j <= |w| {
        assert NewAt(start, w, j);
      }
      forall i | 0 <= i < j
        ensures At(start, y, i) != At(start, y, j)
      {
        assert At(start, y, i) == At(start, w, i);
      }
    }
  }

  lemma ExtendSound(q: Query, x: Entry, e: Edge)
    requires Sound(q, x) && |x.path| <= MAX_HOPS && e in Out(q.adj, x.node)
    requires forall i :: 0 <= i <= |x.path| ==> At(q.us, x.path, i) != e.to
    ensures Sound(q, Extend(q, x, e))
  {
    var h := HopOf(q.amount, e);
    ExtendCost(q, x, e);
    WalkPush(q, q.us, x.path, h);
    LooplessPush(q.us, x.path, h);
  }

  lemma StillRooted(q: Query, best: map<NodeId, Entry>, v: NodeId, x: Entry, w: seq<Hop>)
    requires Rooted(q, best, w) && v !in best
    ensures Rooted(q, best[v := x], w)
  {
    var best' := best[v := x];
    forall i | 0 <= i < |w|
      ensures RootedAt(q, best', w, i)
    {
      assert RootedAt(q, best, w, i);
    }
  }

  lemma ExtendGood(q: Query, s: Search, x: Entry, e: Edge)
    requires Good(q, s, x) && |x.path| <= MAX_HOPS && x.node !in s.best
    requires e in Out(q.adj, x.node) && e.to !in s.best && e.to != x.node
    ensures Good(q, s.(best := s.best[x.node := x]), Extend(q, x, e))
    ensures Extend(q, x, e).cost == x.cost + HopFee(q.amount, e.baseMsat, e.ppm)
  {
    var best := s.best[x.node := x];
    var y := Extend(q, x, e);
    forall i | 0 <= i <= |x.path|
      ensures At(q.us, x.path, i) != e.to
    {
      if i < |x.path| {
        assert RootedAt(q, s.best, x.path, i);
      }
    }
    ExtendSound(q, x, e);
    ExtendCost(q, x, e);
    forall i | 0 <= i < |y.path|
      ensures RootedAt(q, best, y.path, i)
    {
      assert y.path[..i] == x.path[..i];
      assert At(q.us, y.path, i) == At(q.us, x.path, i);
      if i < |x.path| {
        assert RootedAt(q, s.best, x.path, i);
      } else {
        assert x.path[..i] == x.path;
      }
    }
  }

  /** The state after visiting the node of `x`, before anything is pushed. */
  function Visited(s: Search, x: Entry): Search {
    s.(best := s.best[x.node := x])
  }

  lemma StillGood(q: Query, s: Search, x: Entry)
    requires x.node !in s.best
    ensures forall y :: Good(q, s, y) ==> Good(q, Visited(s, x), y)
  {
    forall y | Good(q, s, y)
      ensures Good(q, Visited(s, x), y)
    {
      StillRooted(q, s.best, x.node, x, y.path);
    }
  }

  lemma PushedGood(q: Query, s: Search, x: Entry, y: Entry)
    requires Good(q, s, x) && |x.path| <= MAX_HOPS && x.node !in s.best
    requires y in Extensions(q, x, Visited(s, x).best.Keys, Out(q.adj, x.node))
    ensures Good(q, Visited(s, x), y)
  {
    var edges, visited := Out(q.adj, x.node), Visited(s, x).best.Keys;
    ExtensionsHave(q, x, visited, edges, y);
    var e :| e in edges && PushedBy(q, x, visited, e, y);
    ExtendGood(q, s, x, e);
  }

  lemma VisitKeepsEntries(q: Query, s: Search, x: Entry)
    requires Entries(q, s) && x in s.heap
    requires |x.path| <= MAX_HOPS && x.node != q.dest && x.node !in s.best
    ensures Entries(q, Next(q, s, x))
  {
    var t := Next(q, s, x);
    StillGood(q, s, x);
    forall y | y in t.heap
      ensures Good(q, t, y)
    {
      if y in s.heap {
        assert Good(q, Visited(s, x), y);
      } else {
        PushedGood(q, s, x, y);
      }
    }
    forall v | v in t.best
      ensures Good(q, t, t.best[v])
    {
      assert Good(q, Visited(s, x), t.best[v]);
    }
  }

  lemma NextKeepsEntries(q: Query, s: Search, x: Entry)
    requires Entries(q, s) && x in s.heap
    ensures Entries(q, Next(q, s, x))
  {
    if |x.path| <= MAX_HOPS && x.node != q.dest && x.node !in s.best {
      VisitKeepsEntries(q, s, x);
    }
  }
}
