/** The channel graph that the route search reads: policies, the adjacency map
    built from them, hop fees, and walks. */
module RouteGraph {
  import opened Wrappers
  import opened Words

  datatype NodeId = NodeId(bytes: seq<byte>)

  /** One direction of a channel, as last announced. */
  datatype Policy = Policy(htlcMin: u64, htlcMax: u64, baseMsat: u32, ppm: u32, cltv: u16)

  datatype Channel = Channel(nodeOne: NodeId, nodeTwo: NodeId,
                             oneToTwo: Option<Policy>, twoToOne: Option<Policy>)

  datatype Edge = Edge(to: NodeId, scid: u64, baseMsat: u32, ppm: u32, cltv: u16)

  datatype Hop = Hop(node: NodeId, scid: u64, fee: u64, cltv: u16)

  type Adjacency = map<NodeId, seq<Edge>>

  /** One call of the search. */
  datatype Query = Query(adj: Adjacency, us: NodeId, dest: NodeId, amount: u64, maxRoutes: nat)

  // ---------- fees ----------

  /** The fee of one hop in u64 arithmetic; the product wraps when it does not fit. */
  function HopFee(amount: u64, baseMsat: u32, ppm: u32): u64 {
    Wrap64(baseMsat + Wrap64(amount * ppm) / 1_000_000)
  }

  /** The fee of section "HTLC Fees" of BOLT #7, over unbounded integers. */
  function BoltFee(amount: u64, baseMsat: u32, ppm: u32): nat {
    baseMsat + amount * ppm / 1_000_000
  }

  const MAX_HOP_FEE: int := 0xFFFF_FFFF + 0xFFFF_FFFF_FFFF_FFFF / 1_000_000

  /** The hop fee is the exact floor formula if and only if the product fits in
      64 bits; the addition of the base fee never overflows. */
  lemma HopFeeExactIffProductFits(amount: u64, baseMsat: u32, ppm: u32)
    ensures HopFee(amount, baseMsat, ppm) <= MAX_HOP_FEE
    ensures HopFee(amount, baseMsat, ppm) == BoltFee(amount, baseMsat, ppm) <==> amount * ppm <= U64_MAX
  {
    var p := amount * ppm;
    var w := Wrap64(p);
    assert p >= 0;
    if p > U64_MAX {
      assert w + 0x1_0000_0000_0000_0000 <= p;
    }
  }

  // ---------- adjacency ----------

  function Out(adj: Adjacency, u: NodeId): seq<Edge> {
    if u in adj then adj[u] else []
  }

  predicate Admits(p: Policy, amount: u64) {
    p.htlcMin <= amount <= p.htlcMax
  }

  function EdgeOf(to: NodeId, scid: u64, p: Policy): Edge {
    Edge(to, scid, p.baseMsat, p.ppm, p.cltv)
  }

  /** Direction `from -> to` of a channel is announced with limits that the amount
      meets, and `e` has the fees and the delta announced. */
  predicate Direction(policy: Option<Policy>, to: NodeId, scid: u64, amount: u64, e: Edge) {
    && policy.Some? && policy.value.htlcMin <= amount <= policy.value.htlcMax
    && e.to == to && e.scid == scid
    && e.baseMsat == policy.value.baseMsat && e.ppm == policy.value.ppm && e.cltv == policy.value.cltv
  }

  /** `e` leaves `u` in the graph filtered by the amount. */
  ghost predicate Offers(graph: map<u64, Channel>, listed: set<u64>, amount: u64, u: NodeId, e: Edge) {
    e.scid in listed && e.scid in graph &&
    var ch := graph[e.scid];
    || (ch.nodeOne == u && Direction(ch.oneToTwo, ch.nodeTwo, e.scid, amount, e))
    || (ch.nodeTwo == u && Direction(ch.twoToOne, ch.nodeOne, e.scid, amount, e))
  }

  /** From one node a channel leads to at most one neighbour entry, self-loops aside. */
  ghost predicate UniqueScids(adj: Adjacency) {
    forall u, i, j {:trigger Out(adj, u)[i], Out(adj, u)[j]} ::
      0 <= i < j < |Out(adj, u)| && Out(adj, u)[i].scid == Out(adj, u)[j].scid ==> Out(adj, u)[i].to == u
  }

  function Pushed(adj: Adjacency, u: NodeId, e: Edge): Adjacency {
    adj[u := Out(adj, u) + [e]]
  }

  function WithDirection(adj: Adjacency, u: NodeId, policy: Option<Policy>, to: NodeId, scid: u64,
                         amount: u64): Adjacency {
    if policy.Some? && Admits(policy.value, amount) then Pushed(adj, u, EdgeOf(to, scid, policy.value)) else adj
  }

  lemma WithDirectionOut(adj: Adjacency, u: NodeId, policy: Option<Policy>, to: NodeId, scid: u64, amount: u64,
                         v: NodeId, x: Edge)
    ensures x in Out(WithDirection(adj, u, policy, to, scid, amount), v) <==>
            x in Out(adj, v) || (v == u && Direction(policy, to, scid, amount, x))
  {
    if policy.Some? && Admits(policy.value, amount) {
      var adj' := WithDirection(adj, u, policy, to, scid, amount);
      assert Out(adj', v) == Out(adj, v) + if v == u then [EdgeOf(to, scid, policy.value)] else [];
    }
  }

  lemma WithDirectionUnique(adj: Adjacency, u: NodeId, policy: Option<Policy>, to: NodeId, scid: u64, amount: u64)
    requires UniqueScids(adj)
    requires forall x :: x in Out(adj, u) && x.scid == scid ==> x.to == u
    ensures UniqueScids(WithDirection(adj, u, policy, to, scid, amount))
  {
    var adj' := WithDirection(adj, u, policy, to, scid, amount);
    forall v, i, j | 0 <= i < j < |Out(adj', v)| && Out(adj', v)[i].scid == Out(adj', v)[j].scid
      ensures Out(adj', v)[i].to == v
    {
      if v == u && j == |Out(adj, u)| {
        assert Out(adj, u)[i] in Out(adj, u);
      } else {
        assert Out(adj, v)[i] == Out(adj', v)[i] && Out(adj, v)[j] == Out(adj', v)[j];
      }
    }
  }

  function WithChannel(adj: Adjacency, ch: Channel, scid: u64, amount: u64): Adjacency {
    WithDirection(WithDirection(adj, ch.nodeOne, ch.oneToTwo, ch.nodeTwo, scid, amount),
                  ch.nodeTwo, ch.twoToOne, ch.nodeOne, scid, amount)
  }

  lemma WithChannelOffers(graph: map<u64, Channel>, done: set<u64>, amount: u64, adj: Adjacency, scid: u64)
    requires forall u, e :: e in Out(adj, u) <==> Offers(graph, done, amount, u, e)
    requires UniqueScids(adj) && scid !in done && scid in graph
    ensures var adj' := WithChannel(adj, graph[scid], scid, amount);
            && (forall u, e :: e in Out(adj', u) <==> Offers(graph, done + {scid}, amount, u, e))
            && UniqueScids(adj')
  {
    var ch := graph[scid];
    var mid := WithDirection(adj, ch.nodeOne, ch.oneToTwo, ch.nodeTwo, scid, amount);
    WithDirectionUnique(adj, ch.nodeOne, ch.oneToTwo, ch.nodeTwo, scid, amount);
    forall x | x in Out(mid, ch.nodeTwo) && x.scid == scid
      ensures x.to == ch.nodeTwo
    {
      WithDirectionOut(adj, ch.nodeOne, ch.oneToTwo, ch.nodeTwo, scid, amount, ch.nodeTwo, x);
    }
    WithDirectionUnique(mid, ch.nodeTwo, ch.twoToOne, ch.nodeOne, scid, amount);
    var adj' := WithChannel(adj, ch, scid, amount);
    forall u, e
      ensures e in Out(adj', u) <==> Offers(graph, done + {scid}, amount, u, e)
    {
      WithDirectionOut(adj, ch.nodeOne, ch.oneToTwo, ch.nodeTwo, scid, amount, u, e);
      WithDirectionOut(mid, ch.nodeTwo, ch.twoToOne, ch.nodeOne, scid, amount, u, e);
    }
  }

  /** The adjacency map holds exactly the announced directions that admit the
      amount. The listing is iterated in any order, each id once; `graph` is what
      those reads returned, so they may be reads of a graph that changes meanwhile. */
  method BuildAdjacency(graph: map<u64, Channel>, listed: set<u64>, amount: u64) returns (adj: Adjacency)
    ensures forall u, e :: e in Out(adj, u) <==> Offers(graph, listed, amount, u, e)
    ensures UniqueScids(adj)
  {
    adj := map[];
    var todo := listed;
    while todo != {}
      invariant todo <= listed
      invariant forall u, e :: e in Out(adj, u) <==> Offers(graph, listed - todo, amount, u, e)
      invariant UniqueScids(adj)
      decreases |todo|
    {
      var scid :| scid in todo;
      assert listed - (todo - {scid}) == (listed - todo) + {scid};
      if scid in graph {
        var ch := graph[scid];
        WithChannelOffers(graph, listed - todo, amount, adj, scid);
        adj := WithDirection(adj, ch.nodeOne, ch.oneToTwo, ch.nodeTwo, scid, amount);
        adj := WithDirection(adj, ch.nodeTwo, ch.twoToOne, ch.nodeOne, scid, amount);
      }
      todo := todo - {scid};
    }
    assert listed - todo == listed;
  }

  // ---------- walks ----------

  function HopOf(amount: u64, e: Edge): Hop {
    Hop(e.to, e.scid, HopFee(amount, e.baseMsat, e.ppm), e.cltv)
  }

  /** The node reached from `start` after the first `i` hops of `w`. */
  function At(start: NodeId, w: seq<Hop>, i: nat): NodeId
    requires i <= |w|
  {
    if i == 0 then start else w[i - 1].node
  }

  function End(start: NodeId, w: seq<Hop>): NodeId {
    At(start, w, |w|)
  }

  ghost predicate Linked(q: Query, u: NodeId, h: Hop) {
    exists e :: e in Out(q.adj, u) && h == HopOf(q.amount, e)
  }

  ghost predicate LinkedAt(q: Query, start: NodeId, w: seq<Hop>, i: nat)
    requires i < |w|
  {
    Linked(q, At(start, w, i), w[i])
  }

  /** `w` follows edges of the filtered graph, beginning at `start`. */
  ghost predicate IsWalk(q: Query, start: NodeId, w: seq<Hop>) {
    forall i :: 0 <= i < |w| ==> LinkedAt(q, start, w, i)
  }

  ghost predicate NewAt(start: NodeId, w: seq<Hop>, j: nat)
    requires j <= |w|
  {
    forall i :: 0 <= i < j ==> At(start, w, i) != At(start, w, j)
  }

  /** No node occurs twice on `w`. */
  ghost predicate Loopless(start: NodeId, w: seq<Hop>) {
    forall j :: 0 <= j <= |w| ==> NewAt(start, w, j)
  }

  function Cost(w: seq<Hop>): nat {
    if w == [] then 0 else Cost(w[..|w| - 1]) + w[|w| - 1].fee
  }

  lemma {:induction false} CostSplit(w: seq<Hop>, j: nat)
    requires j <= |w|
    ensures Cost(w) == Cost(w[..j]) + Cost(w[j..])
    decreases |w|
  {
    if j == |w| {
      assert w[..j] == w && w[j..] == [];
    } else {
      var n := |w| - 1;
      CostSplit(w[..n], j);
      assert w[..n][..j] == w[..j] && w[j..][..n - j] == w[..n][j..];
    }
  }

  lemma WalkJoin(q: Query, start: NodeId, a: seq<Hop>, b: seq<Hop>)
    requires IsWalk(q, start, a) && IsWalk(q, End(start, a), b)
    ensures IsWalk(q, start, a + b) && Cost(a + b) == Cost(a) + Cost(b)
    ensures End(start, a + b) == End(End(start, a), b)
  {
    var w := a + b;
    CostSplit(w, |a|);
    assert w[..|a|] == a && w[|a|..] == b;
    forall i | 0 <= i < |w|
      ensures LinkedAt(q, start, w, i)
    {
      if i < |a| {
        assert LinkedAt(q, start, a, i);
      } else {
        assert LinkedAt(q, End(start, a), b, i - |a|);
      }
    }
  }

  lemma WalkTake(q: Query, start: NodeId, w: seq<Hop>, j: nat)
    requires IsWalk(q, start, w) && j <= |w|
    ensures IsWalk(q, start, w[..j]) && End(start, w[..j]) == At(start, w, j)
  {
    var a := w[..j];
    forall i | 0 <= i < j
      ensures LinkedAt(q, start, a, i)
    {
      assert LinkedAt(q, start, w, i);
    }
  }

  lemma WalkDrop(q: Query, start: NodeId, w: seq<Hop>, j: nat)
    requires IsWalk(q, start, w) && j <= |w|
    ensures IsWalk(q, At(start, w, j), w[j..]) && End(At(start, w, j), w[j..]) == End(start, w)
  {
    var b, mid := w[j..], At(start, w, j);
    forall i | 0 <= i < |b|
      ensures LinkedAt(q, mid, b, i)
    {
      assert LinkedAt(q, start, w, i + j);
      assert b[i] == w[i + j] && At(mid, b, i) == At(start, w, i + j);
    }
  }

  lemma WalkCut(q: Query, start: NodeId, w: seq<Hop>, j: nat)
    requires IsWalk(q, start, w) && j <= |w|
    ensures IsWalk(q, start, w[..j]) && IsWalk(q, At(start, w, j), w[j..])
    ensures End(start, w[..j]) == At(start, w, j) && End(At(start, w, j), w[j..]) == End(start, w)
    ensures Cost(w) == Cost(w[..j]) + Cost(w[j..])
  {
    CostSplit(w, j);
    WalkTake(q, start, w, j);
    WalkDrop(q, start, w, j);
  }
}
