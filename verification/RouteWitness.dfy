/** A graph of eight nodes on which the hop cap hides a two-hop route: a free
    chain of six hops visits the node before the destination first, so the dearer
    direct channel to it is never expanded, and the seven-hop entry is discarded. */
module RouteWitness {
  import opened Words
  import opened RouteGraph
  import opened RouteSearch
  import opened RouteInvariants
  import opened RouteOptimal
  import opened RouteResults

  function N(i: byte): NodeId {
    NodeId([i])
  }

  function ChainEdge(i: byte): Edge
    requires i < 7
  {
    Edge(N(i + 1), i, 0, 0, 0)
  }

  const SHORTCUT := Edge(N(6), 100, 1, 0, 0)

  const ADJ: Adjacency := map[
    N(0) := [ChainEdge(0), SHORTCUT], N(1) := [ChainEdge(1)], N(2) := [ChainEdge(2)], N(3) := [ChainEdge(3)],
    N(4) := [ChainEdge(4)], N(5) := [ChainEdge(5)], N(6) := [ChainEdge(6)]]

  const Q := Query(ADJ, N(0), N(7), 1, 1)

  function Source(scid: u64): NodeId {
    if scid < 7 then N(scid) else N(0)
  }

  function WithScid(scid: u64): Edge {
    if scid < 7 then ChainEdge(scid) else SHORTCUT
  }

  lemma EdgesNamed(u: NodeId, e: Edge)
    requires e in Out(ADJ, u)
    ensures u == Source(e.scid) && e == WithScid(e.scid)
  {
  }

  lemma OutOf(k: byte)
    requires k < 7
    ensures Out(ADJ, N(k)) == if k == 0 then [ChainEdge(0), SHORTCUT] else [ChainEdge(k)]
  {
    assert k == 0 || k == 1 || k == 2 || k == 3 || k == 4 || k == 5 || k == 6;
  }

  lemma OutShort(u: NodeId)
    ensures |Out(ADJ, u)| <= 1 || Out(ADJ, u) == [ChainEdge(0), SHORTCUT]
  {
  }

  lemma WitnessWellPosed()
    ensures WellPosed(Q)
  {
    forall u, v, e, f | e in Out(ADJ, u) && f in Out(ADJ, v) && e.scid == f.scid && e.to == f.to
      ensures u == v && (e == f || u == e.to)
    {
      EdgesNamed(u, e);
      EdgesNamed(v, f);
    }
    forall u, i, j | 0 <= i < j < |Out(ADJ, u)|
      ensures Out(ADJ, u)[i].scid != Out(ADJ, u)[j].scid
    {
      OutShort(u);
    }
  }

  function ChainPath(k: byte): seq<Hop>
    requires k <= 7
    ensures |ChainPath(k)| == k
  {
    if k == 0 then [] else ChainPath(k - 1) + [Hop(N(k), k - 1, 0, 0)]
  }

  function Chain(k: byte): Entry
    requires k <= 7
  {
    Entry(0, N(k), ChainPath(k))
  }

  const DIRECT := Entry(1, N(6), [Hop(N(6), 100, 1, 0)])

  function Best(k: byte): map<NodeId, Entry>
    requires k <= 6
    ensures forall i: byte :: N(i) in Best(k) <==> i <= k
  {
    if k == 0 then map[N(0) := Chain(0)] else Best(k - 1)[N(k) := Chain(k)]
  }

  function ChainPops(k: byte): seq<Entry>
    requires k <= 6
  {
    if k == 0 then [Chain(0)] else ChainPops(k - 1) + [Chain(k)]
  }

  function AfterChain(k: byte): Search
    requires k <= 6
  {
    Search(multiset{Chain(k + 1), DIRECT}, Best(k), [], {})
  }

  lemma FirstExtensions()
    ensures Extensions(Q, Chain(0), {N(0)}, Out(ADJ, N(0))) == multiset{Chain(1), DIRECT}
  {
    var x, visited := Chain(0), {N(0)};
    OutOf(0);
    var one := [] + [ChainEdge(0)];
    assert Out(ADJ, N(0)) == one + [SHORTCUT];
    assert Extend(Q, x, ChainEdge(0)) == Chain(1);
    assert Extend(Q, x, SHORTCUT) == DIRECT;
    assert N(1) != N(0) && N(6) != N(0);
    ExtensionsAppend(Q, x, visited, [], ChainEdge(0));
    ExtensionsAppend(Q, x, visited, one, SHORTCUT);
  }

  lemma FirstStep()
    ensures LegalRun(Q, ChainPops(0)) && StateAfter(Q, ChainPops(0)) == AfterChain(0)
  {
    var x := Chain(0);
    assert ChainPops(0) == [] + [x];
    RunStep(Q, [], x);
    FirstExtensions();
    assert map[N(0) := x].Keys == {N(0)};
  }

  lemma ChainStep(k: byte)
    requires 1 <= k <= 6
    ensures Next(Q, AfterChain(k - 1), Chain(k)) == AfterChain(k)
  {
    var s, x := AfterChain(k - 1), Chain(k);
    OutOf(k);
    assert Out(ADJ, N(k)) == [] + [ChainEdge(k)];
    assert Extend(Q, x, ChainEdge(k)) == Chain(k + 1);
    ExtensionsAppend(Q, x, Best(k).Keys, [], ChainEdge(k));
    assert s.best[x.node := x] == Best(k);
    assert N(k + 1) !in Best(k);
    assert s.heap - multiset{x} == multiset{DIRECT};
  }

  lemma {:induction false} ChainRun(k: byte)
    requires k <= 6
    ensures LegalRun(Q, ChainPops(k)) && StateAfter(Q, ChainPops(k)) == AfterChain(k)
  {
    if k == 0 {
      FirstStep();
    } else {
      ChainRun(k - 1);
      RunStep(Q, ChainPops(k - 1), Chain(k));
      ChainStep(k);
    }
  }

  lemma LastSteps(t: Search, z: Search)
    requires t == Next(Q, AfterChain(6), Chain(7)) && z == Next(Q, t, DIRECT)
    ensures Poppable(Q, AfterChain(6), Chain(7)) && Poppable(Q, t, DIRECT)
    ensures z.heap == multiset{} && z.found == []
  {
    assert t.heap == multiset{DIRECT};
  }

  /** The search halts with no route although a two-hop route is in the graph. */
  lemma HopCapHidesRoute() returns (pops: seq<Entry>, w: seq<Hop>)
    ensures WellPosed(Q) && |Nodes(Q)| <= 8
    ensures LegalRun(Q, pops) && Halted(Q, StateAfter(Q, pops)) && StateAfter(Q, pops).found == []
    ensures ReachesDest(Q, w) && Loopless(Q.us, w) && |w| == 2
  {
    WitnessWellPosed();
    EightNodes();
    var p := ChainPops(6);
    ChainRun(6);
    var t := Next(Q, AfterChain(6), Chain(7));
    var z := Next(Q, t, DIRECT);
    LastSteps(t, z);
    RunStep(Q, p, Chain(7));
    RunStep(Q, p + [Chain(7)], DIRECT);
    pops := p + [Chain(7)] + [DIRECT];
    w := [Hop(N(6), 100, 1, 0), Hop(N(7), 6, 0, 0)];
    TwoHops(w);
  }

  lemma TwoHops(w: seq<Hop>)
    requires w == [Hop(N(6), 100, 1, 0), Hop(N(7), 6, 0, 0)]
    ensures ReachesDest(Q, w) && Loopless(Q.us, w)
  {
    OutOf(0);
    OutOf(6);
    assert w[0] == HopOf(1, SHORTCUT) && SHORTCUT in Out(ADJ, N(0));
    assert w[1] == HopOf(1, ChainEdge(6)) && ChainEdge(6) in Out(ADJ, N(6));
    assert LinkedAt(Q, Q.us, w, 0) && LinkedAt(Q, Q.us, w, 1);
    assert N(0) != N(6) && N(6) != N(7) && N(0) != N(7);
  }

  function UpTo(k: byte): set<NodeId> {
    if k == 0 then {N(0)} else UpTo(k - 1) + {N(k)}
  }

  lemma {:induction false} UpToSize(k: byte)
    ensures |UpTo(k)| <= k + 1
    ensures forall i: byte :: i <= k ==> N(i) in UpTo(k)
  {
    if k == 0 {
    } else {
      UpToSize(k - 1);
    }
  }

  lemma EightNodes()
    ensures |Nodes(Q)| <= 8
  {
    UpToSize(7);
    forall v | v in Nodes(Q)
      ensures v in UpTo(7)
    {
      if u, e :| u in ADJ && e in ADJ[u] && e.to == v {
        assert e in Out(ADJ, u);
        EdgesNamed(u, e);
      }
    }
    SubsetSize(Nodes(Q), UpTo(7));
  }
}
