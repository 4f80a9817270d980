/** Termination of the search on every finite graph. */
module RouteTermination {
  import opened RouteGraph
  import opened RouteSearch
  import opened RouteInvariants
  import opened RouteOptimal
  import opened RouteResults

  ghost predicate HeapIn(nodes: set<NodeId>, s: Search) {
    forall x :: x in s.heap ==> x.node in nodes
  }

  lemma EntriesInGraph(q: Query, s: Search)
    requires Entries(q, s)
    ensures HeapIn(Nodes(q), s)
  {
    forall x | x in s.heap
      ensures x.node in Nodes(q)
    {
      assert Good(q, s, x);
      WalkStaysInGraph(q, x.path);
      assert At(q.us, x.path, |x.path|) in OnWalk(q.us, x.path);
    }
  }

  /** The nodes of the graph, in which every reachable heap stays. */
  lemma GraphNodes(q: Query) returns (nodes: set<NodeId>)
    requires WellPosed(q)
    ensures forall pops :: LegalRun(q, pops) ==> HeapIn(nodes, StateAfter(q, pops))
  {
    nodes := Nodes(q);
    forall pops | LegalRun(q, pops)
      ensures HeapIn(nodes, StateAfter(q, pops))
    {
      RunInvariant(q, pops);
      EntriesInGraph(q, StateAfter(q, pops));
    }
  }

  lemma OneLessInHeap(heap: multiset<Entry>, x: Entry)
    requires x in heap
    ensures |heap - multiset{x}| < |heap|
  {
    assert |heap - multiset{x}| == |heap| - 1;
  }

  lemma OneLessUnvisited(nodes: set<NodeId>, visited: set<NodeId>, v: NodeId)
    requires v in nodes && v !in visited
    ensures |nodes - (visited + {v})| < |nodes - visited|
  {
    assert nodes - visited == (nodes - (visited + {v})) + {v};
  }

  lemma MeasureOf(nodes: set<NodeId>, s: Search, t: Search, x: Entry)
    requires x in s.heap && x.node in nodes
    requires || (t.best == s.best && t.heap == s.heap - multiset{x})
             || (x.node !in s.best && t.best.Keys == s.best.Keys + {x.node})
    ensures || |nodes - t.best.Keys| < |nodes - s.best.Keys|
            || (t.best == s.best && |t.heap| < |s.heap|)
  {
    if t.best == s.best {
      OneLessInHeap(s.heap, x);
    } else {
      OneLessUnvisited(nodes, s.best.Keys, x.node);
    }
  }

  /** Every iteration lowers (nodes not yet visited, heap size), lexicographically. */
  lemma MeasureDrops(q: Query, nodes: set<NodeId>, s: Search, x: Entry)
    requires HeapIn(nodes, s) && x in s.heap
    ensures var t := Next(q, s, x);
            || |nodes - t.best.Keys| < |nodes - s.best.Keys|
            || (t.best == s.best && |t.heap| < |s.heap|)
  {
    NextShape(q, s, x);
    assert s.best[x.node := x].Keys == s.best.Keys + {x.node};
    MeasureOf(nodes, s, Next(q, s, x), x);
  }
}
