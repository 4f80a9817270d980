/** The order of the heap's tuples: cost, then node, then path, each compared part by
    part from the left. It is a total order that goes by cost first, so the search
    has one result. */
module RouteTuples {
  import opened Words
  import opened RouteGraph
  import opened RouteSearch
  import opened RouteOrders

  /** Negative, zero or positive: the left is before, equal to, or after the right. */
  function CompareInts(a: seq<int>, b: seq<int>): int {
    if a == [] && b == [] then 0
    else if a == [] then -1
    else if b == [] then 1
    else if a[0] != b[0] then (if a[0] < b[0] then -1 else 1)
    else CompareInts(a[1..], b[1..])
  }

  function CompareParts(a: seq<seq<int>>, b: seq<seq<int>>): int {
    if a == [] && b == [] then 0
    else if a == [] then -1
    else if b == [] then 1
    else if CompareInts(a[0], b[0]) != 0 then CompareInts(a[0], b[0])
    else CompareParts(a[1..], b[1..])
  }

  lemma {:induction false} IntsEqual(a: seq<int>, b: seq<int>)
    ensures CompareInts(a, b) == 0 <==> a == b
    ensures CompareInts(b, a) == -CompareInts(a, b)
    decreases |a|
  {
    if a == [] || b == [] {
    } else {
      IntsEqual(a[1..], b[1..]);
      assert a == [a[0]] + a[1..] && b == [b[0]] + b[1..];
    }
  }

  lemma {:induction false} IntsTransitive(a: seq<int>, b: seq<int>, c: seq<int>)
    requires CompareInts(a, b) < 0 && CompareInts(b, c) < 0
    ensures CompareInts(a, c) < 0
    decreases |a|
  {
    if a == [] || b == [] || c == [] || a[0] != b[0] || b[0] != c[0] {
    } else {
      IntsTransitive(a[1..], b[1..], c[1..]);
    }
  }

  lemma {:induction false} PartsEqual(a: seq<seq<int>>, b: seq<seq<int>>)
    ensures CompareParts(a, b) == 0 <==> a == b
    ensures CompareParts(b, a) == -CompareParts(a, b)
    decreases |a|
  {
    if a == [] || b == [] {
    } else {
      IntsEqual(a[0], b[0]);
      PartsEqual(a[1..], b[1..]);
      assert a == [a[0]] + a[1..] && b == [b[0]] + b[1..];
    }
  }

  lemma {:induction false} PartsTransitive(a: seq<seq<int>>, b: seq<seq<int>>, c: seq<seq<int>>)
    requires CompareParts(a, b) < 0 && CompareParts(b, c) < 0
    ensures CompareParts(a, c) < 0
    decreases |a|
  {
    if a == [] || b == [] || c == [] {
    } else {
      IntsEqual(a[0], b[0]);
      IntsEqual(b[0], c[0]);
      if a[0] == b[0] == c[0] {
        PartsTransitive(a[1..], b[1..], c[1..]);
      } else if a[0] != b[0] && b[0] != c[0] {
        IntsTransitive(a[0], b[0], c[0]);
      }
    }
  }

  // ---------- entries as tuples ----------

  function HopParts(h: Hop): seq<seq<int>> {
    [h.node.bytes, [h.scid], [h.fee], [h.cltv]]
  }

  function PathParts(w: seq<Hop>): seq<seq<int>> {
    if w == [] then [] else HopParts(w[0]) + PathParts(w[1..])
  }

  function Parts(x: Entry): seq<seq<int>> {
    [[x.cost], x.node.bytes] + PathParts(x.path)
  }

  lemma HopPartsInjective(g: Hop, h: Hop)
    requires HopParts(g) == HopParts(h)
    ensures g == h
  {
    var a, b := HopParts(g), HopParts(h);
    assert a[0] == b[0] && a[1][0] == b[1][0] && a[2][0] == b[2][0] && a[3][0] == b[3][0];
  }

  lemma {:induction false} PathPartsInjective(v: seq<Hop>, w: seq<Hop>)
    requires PathParts(v) == PathParts(w)
    ensures v == w
    decreases |v|
  {
    if v == [] || w == [] {
      assert |PathParts(v)| == |PathParts(w)|;
    } else {
      var a, b := PathParts(v), PathParts(w);
      assert a[..4] == HopParts(v[0]) && b[..4] == HopParts(w[0]);
      assert a[4..] == PathParts(v[1..]) && b[4..] == PathParts(w[1..]);
      HopPartsInjective(v[0], w[0]);
      PathPartsInjective(v[1..], w[1..]);
      assert v == [v[0]] + v[1..] && w == [w[0]] + w[1..];
    }
  }

  lemma PartsInjective(x: Entry, y: Entry)
    requires Parts(x) == Parts(y)
    ensures x == y
  {
    var a, b := Parts(x), Parts(y);
    assert a[0][0] == b[0][0] && a[1] == b[1];
    assert a[2..] == PathParts(x.path) && b[2..] == PathParts(y.path);
    PathPartsInjective(x.path, y.path);
  }

  predicate TupleLess(x: Entry, y: Entry) {
    CompareParts(Parts(x), Parts(y)) < 0
  }

  lemma LessByCost(x: Entry, y: Entry)
    requires TupleLess(x, y)
    ensures x.cost <= y.cost && !TupleLess(y, x)
  {
    PartsEqual(Parts(x), Parts(y));
    assert Parts(x)[0] == [x.cost] && Parts(y)[0] == [y.cost];
    assert CompareInts([x.cost], [y.cost]) > 0 <==> x.cost > y.cost;
  }

  /** The order of tuples is a total order that goes by cost first. */
  lemma TuplesCostFirst()
    ensures CostFirst(TupleLess)
  {
    forall x, y | TupleLess(x, y)
      ensures x.cost <= y.cost && !TupleLess(y, x)
    {
      LessByCost(x, y);
    }
    forall x, y | x != y
      ensures TupleLess(x, y) || TupleLess(y, x)
    {
      PartsEqual(Parts(x), Parts(y));
      if Parts(x) == Parts(y) {
        PartsInjective(x, y);
      }
    }
    forall x, y, z | TupleLess(x, y) && TupleLess(y, z)
      ensures TupleLess(x, z)
    {
      PartsTransitive(Parts(x), Parts(y), Parts(z));
    }
  }

  /** The search that pops the least tuple, as the library's heap does, comes to its
      end with the same routes whatever the order in which the channels are listed. */
  lemma TupleResult(q: Query, r: Query, a: seq<Entry>, b: seq<Entry>)
    requires SameGraph(q, r) && Result(q, TupleLess, a) && Result(r, TupleLess, b)
    ensures StateAfter(q, a).found == StateAfter(r, b).found
  {
    TuplesCostFirst();
    OneResult(q, r, TupleLess, a, b);
  }
}
