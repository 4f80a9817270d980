/** The route search of the service: adjacency build, search loop, rendering. */
module FindRoutes {
  import opened Wrappers
  import opened Words
  import opened RouteGraph
  import opened RouteSearch
  import opened RouteInvariants
  import opened RouteOptimal
  import opened RouteResults
  import opened RouteTermination
  import Hex
  import Scid

  datatype RouteHop = RouteHop(pubkey: string, shortChannelId: string, fee: u64, expiry: u16)

  datatype FoundRoute = FoundRoute(totalFee: u64, totalTimeLock: u32, hops: seq<RouteHop>)

  // ---------- rendering ----------

  function RenderHop(h: Hop): RouteHop {
    RouteHop(Hex.Text(h.node.bytes), Scid.FormatScid(h.scid), h.fee, h.cltv)
  }

  function TimeLock(w: seq<Hop>): nat {
    if w == [] then 0 else TimeLock(w[..|w| - 1]) + w[|w| - 1].cltv
  }

  function RenderHops(w: seq<Hop>): seq<RouteHop> {
    seq(|w|, i requires 0 <= i < |w| => RenderHop(w[i]))
  }

  /** The sum of the expiries is taken in 32 bits. */
  function Render(f: Entry): FoundRoute {
    FoundRoute(f.cost, TimeLock(f.path) % 0x1_0000_0000, RenderHops(f.path))
  }

  lemma {:induction false} TimeLockBound(w: seq<Hop>)
    ensures TimeLock(w) <= |w| * U16_MAX
    decreases |w|
  {
    if w == [] {
    } else {
      TimeLockBound(w[..|w| - 1]);
    }
  }

  lemma RenderHopInjective(a: Hop, b: Hop)
    requires RenderHop(a) == RenderHop(b)
    ensures a == b
  {
    Hex.DecodeOfText(a.node.bytes);
    Hex.DecodeOfText(b.node.bytes);
    Scid.ParseOfFormat(a.scid);
    Scid.ParseOfFormat(b.scid);
  }

  /** Nothing is lost in rendering: equal texts come from equal paths. */
  lemma RenderInjective(f: Entry, g: Entry)
    requires Render(f) == Render(g)
    ensures f.path == g.path && f.cost == g.cost
  {
    var a, b := RenderHops(f.path), RenderHops(g.path);
    assert |a| == |f.path| && |b| == |g.path|;
    forall i | 0 <= i < |f.path|
      ensures f.path[i] == g.path[i]
    {
      assert a[i] == RenderHop(f.path[i]) && b[i] == RenderHop(g.path[i]);
      RenderHopInjective(f.path[i], g.path[i]);
    }
  }

  /** On every route of the search the lock total is the exact sum. */
  lemma TimeLockExact(q: Query, f: Entry)
    requires SoundRoute(q, f)
    ensures Render(f).totalTimeLock == TimeLock(f.path)
  {
    TimeLockBound(f.path);
  }

  method RenderRoute(f: Entry) returns (r: FoundRoute)
    ensures r == Render(f)
  {
    var hops: seq<RouteHop> := [];
    for i := 0 to |f.path|
      invariant hops == RenderHops(f.path[..i])
    {
      var pubkey := Hex.HexString(f.path[i].node.bytes);
      hops := hops + [RouteHop(pubkey, Scid.FormatScid(f.path[i].scid), f.path[i].fee, f.path[i].cltv)];
    }
    assert f.path[..|f.path|] == f.path;
    r := FoundRoute(f.cost, TimeLock(f.path) % 0x1_0000_0000, hops);
  }

  function RenderAll(found: seq<Entry>): seq<FoundRoute> {
    seq(|found|, i requires 0 <= i < |found| => Render(found[i]))
  }

  /** What the caller sees: fees never decrease, at most `maxRoutes` routes, each
      of one to six hops, ending at the destination, its totals the sums of its hops. */
  ghost predicate Presented(q: Query, routes: seq<FoundRoute>) {
    && |routes| <= q.maxRoutes
    && (forall i, j :: 0 <= i < j < |routes| ==> routes[i].totalFee <= routes[j].totalFee)
    && (forall i :: 0 <= i < |routes| ==> PresentedRoute(q, routes[i]))
  }

  ghost predicate PresentedRoute(q: Query, r: FoundRoute) {
    && 1 <= |r.hops| <= MAX_HOPS
    && r.hops[|r.hops| - 1].pubkey == Hex.Text(q.dest.bytes)
    && r.totalFee == FeeSum(r.hops)
    && r.totalTimeLock == LockSum(r.hops)
  }

  function FeeSum(hops: seq<RouteHop>): nat {
    if hops == [] then 0 else FeeSum(hops[..|hops| - 1]) + hops[|hops| - 1].fee
  }

  function LockSum(hops: seq<RouteHop>): nat {
    if hops == [] then 0 else LockSum(hops[..|hops| - 1]) + hops[|hops| - 1].expiry
  }

  lemma {:induction false} SumsOfHops(w: seq<Hop>)
    ensures FeeSum(RenderHops(w)) == Cost(w)
    ensures LockSum(RenderHops(w)) == TimeLock(w)
    decreases |w|
  {
    if w == [] {
    } else {
      SumsOfHops(w[..|w| - 1]);
      assert RenderHops(w)[..|w| - 1] == RenderHops(w[..|w| - 1]);
    }
  }

  lemma SoundPresented(q: Query, f: Entry)
    requires SoundRoute(q, f)
    ensures PresentedRoute(q, Render(f))
  {
    SumsOfHops(f.path);
    TimeLockExact(q, f);
  }

  lemma ReachedPresented(q: Query, s: Search)
    requires Reached(q, s)
    ensures Presented(q, RenderAll(s.found))
  {
    RoutesSound(q, s);
    forall i | 0 <= i < |s.found|
      ensures PresentedRoute(q, RenderAll(s.found)[i])
    {
      assert s.found[i] in s.found;
      SoundPresented(q, s.found[i]);
    }
  }

  // ---------- what was announced ----------

  /** Channel `scid` is listed and announces policy `p` from `u` to `v`. */
  predicate Announced(graph: map<u64, Channel>, listed: set<u64>, u: NodeId, v: NodeId, scid: u64, p: Policy) {
    && scid in listed && scid in graph
    && var ch := graph[scid];
       || (ch.nodeOne == u && ch.nodeTwo == v && ch.oneToTwo == Some(p))
       || (ch.nodeTwo == u && ch.nodeOne == v && ch.twoToOne == Some(p))
  }

  /** The price that the policy announces for the amount: base fee plus proportional
      fee, rounded down. A product beyond 64 bits wraps before it is divided. */
  predicate Price(p: Policy, amount: u64, fee: u64) {
    && fee == p.baseMsat + amount * p.ppm % 0x1_0000_0000_0000_0000 / 1_000_000
    && (amount * p.ppm <= U64_MAX ==> fee == p.baseMsat + amount * p.ppm / 1_000_000)
  }

  lemma HopFeeIsPrice(p: Policy, amount: u64)
    ensures Price(p, amount, HopFee(amount, p.baseMsat, p.ppm))
  {
    HopFeeExactIffProductFits(amount, p.baseMsat, p.ppm);
    var product: nat := amount * p.ppm;
    assert p.baseMsat + product % 0x1_0000_0000_0000_0000 / 1_000_000 <= U64_MAX;
  }

  /** The hop goes from `u` to `v` over that channel, whose limits admit the amount,
      with the announced delta and at the announced price. */
  predicate PricedHop(graph: map<u64, Channel>, listed: set<u64>, amount: u64, u: NodeId, v: NodeId, h: RouteHop,
                      scid: u64, p: Policy) {
    && Announced(graph, listed, u, v, scid, p)
    && p.htlcMin <= amount <= p.htlcMax
    && h.pubkey == Hex.Text(v.bytes) && h.shortChannelId == Scid.FormatScid(scid) && h.expiry == p.cltv
    && Price(p, amount, h.fee)
  }

  ghost predicate Priced(graph: map<u64, Channel>, listed: set<u64>, amount: u64, u: NodeId, v: NodeId, h: RouteHop) {
    exists scid, p :: PricedHop(graph, listed, amount, u, v, h, scid, p)
  }

  /** The hops lead through these nodes, none of them twice, at announced prices. */
  ghost predicate PricedThrough(graph: map<u64, Channel>, listed: set<u64>, amount: u64, nodes: seq<NodeId>,
                                hops: seq<RouteHop>) {
    && |nodes| == |hops| + 1
    && (forall i, j :: 0 <= i < j < |nodes| ==> nodes[i] != nodes[j])
    && forall i :: 0 <= i < |hops| ==> Priced(graph, listed, amount, nodes[i], nodes[i + 1], hops[i])
  }

  ghost predicate PricedRoute(graph: map<u64, Channel>, listed: set<u64>, amount: u64, us: NodeId, dest: NodeId,
                              r: FoundRoute) {
    exists nodes :: PricedThrough(graph, listed, amount, nodes, r.hops) && nodes[0] == us && nodes[|r.hops|] == dest
  }

  lemma HopPriced(graph: map<u64, Channel>, listed: set<u64>, q: Query, w: seq<Hop>, i: nat)
    requires forall u, e :: e in Out(q.adj, u) <==> Offers(graph, listed, q.amount, u, e)
    requires i < |w| && LinkedAt(q, q.us, w, i)
    ensures Priced(graph, listed, q.amount, At(q.us, w, i), At(q.us, w, i + 1), RenderHop(w[i]))
  {
    var u := At(q.us, w, i);
    var e :| e in Out(q.adj, u) && w[i] == HopOf(q.amount, e);
    var ch := graph[e.scid];
    var p := if ch.nodeOne == u && Direction(ch.oneToTwo, ch.nodeTwo, e.scid, q.amount, e)
             then ch.oneToTwo.value else ch.twoToOne.value;
    HopFeeIsPrice(p, q.amount);
    assert PricedHop(graph, listed, q.amount, u, At(q.us, w, i + 1), RenderHop(w[i]), e.scid, p);
  }

  /** A sound route of the search, as rendered, is a path of announced channels at
      announced prices. */
  lemma SoundPriced(graph: map<u64, Channel>, listed: set<u64>, q: Query, f: Entry)
    requires forall u, e :: e in Out(q.adj, u) <==> Offers(graph, listed, q.amount, u, e)
    requires SoundRoute(q, f)
    ensures PricedRoute(graph, listed, q.amount, q.us, q.dest, Render(f))
  {
    var w := f.path;
    var nodes := seq(|w| + 1, i requires 0 <= i <= |w| => At(q.us, w, i));
    forall i, j | 0 <= i < j < |nodes|
      ensures nodes[i] != nodes[j]
    {
      assert NewAt(q.us, w, j);
    }
    forall i | 0 <= i < |w|
      ensures Priced(graph, listed, q.amount, nodes[i], nodes[i + 1], RenderHops(w)[i])
    {
      assert LinkedAt(q, q.us, w, i);
      HopPriced(graph, listed, q, w, i);
    }
    assert PricedThrough(graph, listed, q.amount, nodes, Render(f).hops);
  }

  lemma AllPriced(graph: map<u64, Channel>, listed: set<u64>, q: Query, s: Search)
    requires forall u, e :: e in Out(q.adj, u) <==> Offers(graph, listed, q.amount, u, e)
    requires Reached(q, s)
    ensures forall r :: r in RenderAll(s.found) ==> PricedRoute(graph, listed, q.amount, q.us, q.dest, r)
  {
    RoutesSound(q, s);
    forall r | r in RenderAll(s.found)
      ensures PricedRoute(graph, listed, q.amount, q.us, q.dest, r)
    {
      var i :| 0 <= i < |s.found| && r == Render(s.found[i]);
      SoundPriced(graph, listed, q, s.found[i]);
    }
  }

  // ---------- the heap ----------

  /** `BinaryHeap::pop` by its contract: some entry of least cost. */
  method PopLeast(heap: multiset<Entry>) returns (x: Entry)
    requires heap != multiset{}
    ensures x in heap && forall y :: y in heap ==> x.cost <= y.cost
  {
    x :| x in heap;
    var todo := heap;
    while todo != multiset{}
      invariant todo <= heap && x in heap
      invariant forall y :: y in heap ==> x.cost <= y.cost || y in todo
      decreases |todo|
    {
      var y :| y in todo;
      if y.cost < x.cost {
        x := y;
      }
      todo := todo - multiset{y};
    }
  }

  lemma RenderOneMore(found: seq<Entry>, x: Entry)
    ensures RenderAll(found + [x]) == RenderAll(found) + [Render(x)]
  {
  }

  // ---------- the search ----------

  /** Our node and the destination as parsed from the request (`None`: not a
      public key). The ghost results name the run that was taken. */
  method FindRoutes(graph: map<u64, Channel>, listed: set<u64>, us: NodeId, dest: Option<NodeId>,
                    amount: u64, maxRoutes: nat)
    returns (routes: seq<FoundRoute>, ghost q: Query, ghost pops: seq<Entry>)
    ensures dest.None? || dest.value == us ==> routes == []
    ensures dest.Some? && dest.value != us ==>
              && q == Query(q.adj, us, dest.value, amount, maxRoutes)
              && (forall u, e :: e in Out(q.adj, u) <==> Offers(graph, listed, amount, u, e))
              && WellPosed(q)
              && LegalRun(q, pops) && Halted(q, StateAfter(q, pops))
              && routes == RenderAll(StateAfter(q, pops).found) && Presented(q, routes)
              && forall r :: r in routes ==> PricedRoute(graph, listed, amount, us, dest.value, r)
  {
    routes := [];
    pops := [];
    q := Query(map[], us, us, amount, maxRoutes);
    if dest.None? || dest.value == us {
      return;
    }
    var adj := BuildAdjacency(graph, listed, amount);
    OffersChanneled(graph, listed, amount, adj);
    q := Query(adj, us, dest.value, amount, maxRoutes);
    routes, pops := SearchLoop(Query(adj, us, dest.value, amount, maxRoutes));
    AllPriced(graph, listed, q, StateAfter(q, pops));
  }

  method SearchLoop(q: Query) returns (routes: seq<FoundRoute>, ghost pops: seq<Entry>)
    requires WellPosed(q)
    ensures LegalRun(q, pops) && Halted(q, StateAfter(q, pops))
    ensures routes == RenderAll(StateAfter(q, pops).found) && Presented(q, routes)
  {
    var heap := multiset{Entry(0, q.us, [])};
    var visited: set<NodeId> := {};
    routes := [];
    pops := [];
    ghost var s := Start(q);
    ghost var nodes := GraphNodes(q);
    while heap != multiset{}
      invariant LegalRun(q, pops) && s == StateAfter(q, pops)
      invariant heap == s.heap && visited == s.best.Keys && routes == RenderAll(s.found)
      decreases |nodes - s.best.Keys|, |s.heap|
    {
      var x := PopLeast(heap);
      if |routes| >= q.maxRoutes {
        break;
      }
      MeasureDrops(q, nodes, s, x);
      RunStep(q, pops, x);
      heap, visited, routes := Visit(q, s, heap - multiset{x}, visited, routes, x);
      pops, s := pops + [x], Next(q, s, x);
    }
    ReachedPresented(q, s);
  }

  /** The body of the loop after the pop. */
  method Visit(q: Query, ghost s: Search, rest: multiset<Entry>, visited0: set<NodeId>,
               routes0: seq<FoundRoute>, x: Entry)
    returns (heap: multiset<Entry>, visited: set<NodeId>, routes: seq<FoundRoute>)
    requires rest == s.heap - multiset{x} && visited0 == s.best.Keys && routes0 == RenderAll(s.found)
    ensures heap == Next(q, s, x).heap && visited == Next(q, s, x).best.Keys
    ensures routes == RenderAll(Next(q, s, x).found)
  {
    heap, visited, routes := rest, visited0, routes0;
    if |x.path| > 6 {
      return;
    }
    if x.node == q.dest {
      RenderOneMore(s.found, x);
      var r := RenderRoute(x);
      routes := routes + [r];
      return;
    }
    if x.node in visited {
      return;
    }
    visited := visited + {x.node};
    assert visited == s.best[x.node := x].Keys;
    heap := PushExtensions(q, rest, visited, x);
  }

  lemma ExtensionsNext(q: Query, x: Entry, visited: set<NodeId>, edges: seq<Edge>, i: nat)
    requires i < |edges|
    ensures Extensions(q, x, visited, edges[..i + 1]) ==
            Extensions(q, x, visited, edges[..i])
            + (if edges[i].to in visited then multiset{} else multiset{Extend(q, x, edges[i])})
  {
    ExtensionsAppend(q, x, visited, edges[..i], edges[i]);
    assert edges[..i + 1] == edges[..i] + [edges[i]];
  }

  /** The expansion loop over the edges of the popped node. */
  method PushExtensions(q: Query, rest: multiset<Entry>, visited: set<NodeId>, x: Entry)
    returns (heap: multiset<Entry>)
    ensures heap == rest + Extensions(q, x, visited, Out(q.adj, x.node))
  {
    heap := rest;
    var edges := Out(q.adj, x.node);
    for i := 0 to |edges|
      invariant heap == rest + Extensions(q, x, visited, edges[..i])
    {
      ExtensionsNext(q, x, visited, edges, i);
      if edges[i].to in visited {
        continue;
      }
      heap := heap + multiset{Extend(q, x, edges[i])};
    }
    assert edges[..|edges|] == edges;
  }
}
