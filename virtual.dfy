/**
 * The virtual network to be placed: nodes with a cores and a memory demand,
 * and undirected links with a rate demand. Links are kept in the order the
 * graph library enumerates them, each in the orientation it was added in.
 */
module Virtual {
  import opened Common

  datatype VLink = VLink(u: NodeId, v: NodeId, rate: nat)

  datatype VirtualNet = VirtualNet(nodes: seq<NodeId>, cores: map<NodeId, nat>, memory: map<NodeId, nat>,
                                   links: seq<VLink>)

  predicate Joins(l: VLink, i: NodeId, j: NodeId)
  {
    (l.u == i && l.v == j) || (l.u == j && l.v == i)
  }

  /**
   * A simple undirected graph: distinct nodes, each with both demands, links
   * between two different nodes of the graph, and at most one link per pair.
   */
  ghost predicate Valid(v: VirtualNet)
  {
    Distinct(v.nodes) &&
    (forall n :: n in v.cores <==> n in v.nodes) &&
    (forall n :: n in v.memory <==> n in v.nodes) &&
    (forall t :: 0 <= t < |v.links| ==> v.links[t].u in v.nodes && v.links[t].v in v.nodes && v.links[t].u != v.links[t].v) &&
    (forall p, q :: 0 <= p < q < |v.links| ==> !Joins(v.links[q], v.links[p].u, v.links[p].v))
  }

  ghost predicate IsEdge(v: VirtualNet, i: NodeId, j: NodeId)
  {
    exists t :: 0 <= t < |v.links| && Joins(v.links[t], i, j)
  }

  function ReqCores(v: VirtualNet, n: NodeId): nat
    requires n in v.cores
  {
    v.cores[n]
  }

  function ReqMemory(v: VirtualNet, n: NodeId): nat
    requires n in v.memory
  {
    v.memory[n]
  }

  /** The rate of the first listed link joining i and j, in either orientation. */
  function RateIn(links: seq<VLink>, i: NodeId, j: NodeId): (r: Option<nat>)
    ensures r.Some? <==> exists t :: 0 <= t < |links| && Joins(links[t], i, j)
    ensures r.Some? ==> exists t :: 0 <= t < |links| && Joins(links[t], i, j) && links[t].rate == r.value
  {
    if |links| == 0 then None
    else if Joins(links[0], i, j) then Some(links[0].rate)
    else
      var rest := RateIn(links[1..], i, j);
      assert forall t :: 0 < t < |links| ==> links[t] == links[1..][t - 1];
      rest
  }

  /** req_rate(i, j): the rate of the link between i and j, whichever way round it was added. */
  function ReqRate(v: VirtualNet, i: NodeId, j: NodeId): nat
    requires RateIn(v.links, i, j).Some?
  {
    RateIn(v.links, i, j).value
  }

  lemma {:induction false} ReqRateSymmetric(v: VirtualNet, i: NodeId, j: NodeId)
    ensures RateIn(v.links, i, j) == RateIn(v.links, j, i)
    decreases |v.links|
  {
    if |v.links| > 0 && !Joins(v.links[0], i, j) {
      ReqRateSymmetric(VirtualNet(v.nodes, v.cores, v.memory, v.links[1..]), i, j);
    }
  }

  /** The neighbours of i, in link order. */
  function NeighborsIn(links: seq<VLink>, i: NodeId): (r: seq<NodeId>)
    ensures forall j :: j in r <==> exists t :: 0 <= t < |links| && Joins(links[t], i, j)
  {
    if |links| == 0 then []
    else
      var rest := NeighborsIn(links[1..], i);
      assert forall t :: 0 < t < |links| ==> links[t] == links[1..][t - 1];
      var l := links[0];
      if l.u == i then [l.v] + rest
      else if l.v == i then [l.u] + rest
      else rest
  }

  function Neighbors(v: VirtualNet, i: NodeId): seq<NodeId>
  {
    NeighborsIn(v.links, i)
  }

  /** A neighbour list holds each neighbour once, links being unique per pair. */
  lemma {:induction false} NeighborsDistinct(links: seq<VLink>, i: NodeId)
    requires forall p, q :: 0 <= p < q < |links| ==> !Joins(links[q], links[p].u, links[p].v)
    ensures Distinct(NeighborsIn(links, i))
  {
    if |links| > 0 {
      var rest := links[1..];
      assert forall t :: 0 < t < |links| ==> links[t] == rest[t - 1];
      forall p, q | 0 <= p < q < |rest| ensures !Joins(rest[q], rest[p].u, rest[p].v) {
        assert rest[q] == links[q + 1] && rest[p] == links[p + 1];
      }
      NeighborsDistinct(rest, i);
      var l := links[0];
      var tail := NeighborsIn(rest, i);
      if l.u == i || l.v == i {
        var w := if l.u == i then l.v else l.u;
        forall t | 0 <= t < |rest| ensures !Joins(rest[t], i, w) {
          assert !Joins(links[t + 1], l.u, l.v);
        }
        assert w !in tail;
        DistinctJoin([w], tail);
      }
    }
  }

  /** sorted_edges(): every link once, as (u, v) with u < v. */
  function SortedEdges(v: VirtualNet): (r: set<Pair>)
    requires Valid(v)
    ensures forall p: Pair :: p in r <==> p.0 < p.1 && IsEdge(v, p.0, p.1)
  {
    var r := set t | 0 <= t < |v.links| :: Normalise(v.links[t].u, v.links[t].v);
    assert forall p: Pair :: p in r ==> IsEdge(v, p.0, p.1) by {
      forall p: Pair | p in r ensures IsEdge(v, p.0, p.1) {
        var t :| 0 <= t < |v.links| && p == Normalise(v.links[t].u, v.links[t].v);
        assert Joins(v.links[t], p.0, p.1);
      }
    }
    assert forall p: Pair :: p.0 < p.1 && IsEdge(v, p.0, p.1) ==> p in r by {
      forall p: Pair | p.0 < p.1 && IsEdge(v, p.0, p.1) ensures p in r {
        var t :| 0 <= t < |v.links| && Joins(v.links[t], p.0, p.1);
        assert Normalise(v.links[t].u, v.links[t].v) == p;
      }
    }
    r
  }

  /** The sorted pairs of the links, in link order. */
  function SortedList(links: seq<VLink>): (r: seq<Pair>)
    ensures |r| == |links|
    ensures forall t :: 0 <= t < |links| ==> r[t] == Normalise(links[t].u, links[t].v)
  {
    seq(|links|, t requires 0 <= t < |links| => Normalise(links[t].u, links[t].v))
  }

  /** No undirected link is listed twice, so sorting the endpoints loses no link. */
  lemma {:induction false} SortedEdgesCount(v: VirtualNet)
    requires Valid(v)
    ensures |SortedEdges(v)| == |v.links|
  {
    var s := SortedList(v.links);
    assert Distinct(s) by {
      forall p, q | 0 <= p < q < |s| ensures s[p] != s[q] {
        if s[p] == s[q] {
          assert Joins(v.links[q], v.links[p].u, v.links[p].v);
        }
      }
    }
    assert SortedEdges(v) == set x | x in s;
    DistinctSetSize(s);
  }

  lemma {:induction false} DistinctSetSize(s: seq<Pair>)
    requires Distinct(s)
    ensures |set x | x in s| == |s|
  {
    if |s| > 0 {
      var init := s[..|s| - 1];
      assert Distinct(init);
      DistinctSetSize(init);
      assert (set x | x in s) == (set x | x in init) + {s[|s| - 1]};
      assert s[|s| - 1] !in init;
    }
  }

  /** sorted_edges_from(i): the links at i, each with sorted endpoints. */
  function SortedEdgesFrom(v: VirtualNet, i: NodeId): (r: set<Pair>)
    ensures forall p: Pair :: p in r <==> (p.0 == i || p.1 == i) && p.0 <= p.1 && IsEdge(v, p.0, p.1)
  {
    var ns := Neighbors(v, i);
    var r := set j | j in ns :: Normalise(i, j);
    assert forall p: Pair :: p in r ==> IsEdge(v, p.0, p.1) by {
      forall p: Pair | p in r ensures IsEdge(v, p.0, p.1) {
        var j :| j in ns && p == Normalise(i, j);
        var t :| 0 <= t < |v.links| && Joins(v.links[t], i, j);
        assert Joins(v.links[t], p.0, p.1);
      }
    }
    assert forall p: Pair :: (p.0 == i || p.1 == i) && p.0 <= p.1 && IsEdge(v, p.0, p.1) ==> p in r by {
      forall p: Pair | (p.0 == i || p.1 == i) && p.0 <= p.1 && IsEdge(v, p.0, p.1) ensures p in r {
        var t :| 0 <= t < |v.links| && Joins(v.links[t], p.0, p.1);
        var j := if p.0 == i then p.1 else p.0;
        assert Joins(v.links[t], i, j);
        assert j in ns && Normalise(i, j) == p;
      }
    }
    r
  }

  /*
   * create_fat_tree. Node names become integers in the order the source adds
   * them: hosts, then core, aggregation and edge switches, so with nH hosts,
   * nC core and nA aggregation switches, core_c is nH + c - 1, aggr_a is
   * nH + nC + a - 1 and edge_e is nH + nC + nA + e - 1.
   */

  /** A link between the layers a and b: u lies in [a0, a1) and v in [b0, b1). */
  predicate Between(l: VLink, a0: int, a1: int, b0: int, b1: int)
  {
    a0 <= l.u < a1 && b0 <= l.v < b1
  }

  /** No two links join the same pair of nodes. */
  ghost predicate NoRepeat(links: seq<VLink>)
  {
    forall p, q :: 0 <= p < q < |links| ==> !Joins(links[q], links[p].u, links[p].v)
  }

  /**
   * The links of a fat tree over hosts [0, e0 - nC - nA - ... ): core-aggregation,
   * aggregation-edge and edge-host links only, all with the requested rate.
   */
  ghost predicate Layered(links: seq<VLink>, c0: int, a0: int, e0: int, top: int, rate: nat)
  {
    forall t :: 0 <= t < |links| ==>
      links[t].rate == rate &&
      (Between(links[t], c0, a0, a0, e0) || Between(links[t], a0, e0, e0, top) || Between(links[t], e0, top, 0, c0))
  }

  lemma Below(a: int, b: int, n: int, m: int)
    requires 0 <= a < m && 0 <= b < n
    ensures a * n + b < m * n
  {
    assert a * n + b < a * n + n == (a + 1) * n <= m * n;
  }

  /** Appending a layered link that joins a new pair keeps the links layered and unrepeated. */
  lemma Extend(links: seq<VLink>, l: VLink, c0: int, a0: int, e0: int, top: int, rate: nat)
    requires NoRepeat(links) && Layered(links, c0, a0, e0, top, rate)
    requires l.rate == rate && (Between(l, c0, a0, a0, e0) || Between(l, a0, e0, e0, top) || Between(l, e0, top, 0, c0))
    requires forall p :: 0 <= p < |links| ==> !Joins(l, links[p].u, links[p].v)
    ensures NoRepeat(links + [l]) && Layered(links + [l], c0, a0, e0, top, rate)
  {
  }

  /** Layered links join two different nodes among [0, top). */
  lemma LayeredEndpoints(links: seq<VLink>, c0: int, a0: int, e0: int, top: int, rate: nat)
    requires 0 <= c0 <= a0 <= e0 <= top && Layered(links, c0, a0, e0, top, rate)
    ensures forall t :: 0 <= t < |links| ==> 0 <= links[t].u < top && 0 <= links[t].v < top && links[t].u != links[t].v
  {
  }

  /** Core switches u0 .. u0 + half - 1 each join aggregation switch y. */
  method CoreRow(links0: seq<VLink>, u0: int, y: int, half: nat, c0: int, a0: int, e0: int, top: int, rate: nat)
    returns (links: seq<VLink>)
    requires c0 <= u0 && u0 + half <= a0 && a0 <= y < e0
    requires NoRepeat(links0) && Layered(links0, c0, a0, e0, top, rate)
    requires forall t :: 0 <= t < |links0| ==> Between(links0[t], c0, a0, a0, y)
    ensures |links| == |links0| + half
    ensures NoRepeat(links) && Layered(links, c0, a0, e0, top, rate)
    ensures forall t :: 0 <= t < |links| ==> Between(links[t], c0, a0, a0, y + 1)
  {
    links := links0;
    var j := 0;
    while j < half
      invariant 0 <= j <= half && |links| == |links0| + j
      invariant NoRepeat(links) && Layered(links, c0, a0, e0, top, rate)
      invariant forall t :: 0 <= t < |links| ==>
        Between(links[t], c0, a0, a0, y + 1) && (links[t].v < y || links[t].u < u0 + j)
    {
      var l := VLink(u0 + j, y, rate);
      Extend(links, l, c0, a0, e0, top, rate);
      links := links + [l];
      j := j + 1;
    }
  }

  /** Aggregation switch x joins edge switches y0 .. y0 + half - 1. */
  method AggrRow(links0: seq<VLink>, x: int, y0: int, half: nat, c0: int, a0: int, e0: int, top: int, rate: nat)
    returns (links: seq<VLink>)
    requires c0 <= a0 <= x < e0 <= y0 && y0 + half <= top
    requires NoRepeat(links0) && Layered(links0, c0, a0, e0, top, rate)
    requires forall t :: 0 <= t < |links0| ==> links0[t].u < x
    ensures |links| == |links0| + half
    ensures NoRepeat(links) && Layered(links, c0, a0, e0, top, rate)
    ensures forall t :: 0 <= t < |links| ==> links[t].u <= x
  {
    links := links0;
    var j := 0;
    while j < half
      invariant 0 <= j <= half && |links| == |links0| + j
      invariant NoRepeat(links) && Layered(links, c0, a0, e0, top, rate)
      invariant forall t :: 0 <= t < |links| ==> links[t].u < x || (links[t].u == x && links[t].v < y0 + j)
    {
      var l := VLink(x, y0 + j, rate);
      Extend(links, l, c0, a0, e0, top, rate);
      links := links + [l];
      j := j + 1;
    }
  }

  /** Core to aggregation: core i*half + j joins aggregation b*half + i of every pod b. */
  method CoreToAggr(k: nat, half: nat, c0: int, a0: int, e0: int, top: int, rate: nat) returns (links: seq<VLink>)
    requires half > 0 && k == 2 * half && a0 == c0 + half * half && e0 == a0 + k * half && top >= e0 && c0 >= 0
    ensures |links| == k * (half * half)
    ensures NoRepeat(links) && Layered(links, c0, a0, e0, top, rate)
    ensures forall t :: 0 <= t < |links| ==> links[t].u < a0
  {
    links := [];
    var b := 0;
    while b < k
      invariant 0 <= b <= k && |links| == b * (half * half)
      invariant NoRepeat(links) && Layered(links, c0, a0, e0, top, rate)
      invariant forall t :: 0 <= t < |links| ==> Between(links[t], c0, a0, a0, a0 + b * half)
    {
      var i := 0;
      while i < half
        invariant 0 <= i <= half && |links| == b * (half * half) + i * half
        invariant NoRepeat(links) && Layered(links, c0, a0, e0, top, rate)
        invariant forall t :: 0 <= t < |links| ==> Between(links[t], c0, a0, a0, a0 + b * half + i)
      {
        Below(b, i, half, k);
        Below(i, half - 1, half, half);
        links := CoreRow(links, c0 + i * half, a0 + b * half + i, half, c0, a0, e0, top, rate);
        assert i * half + half == (i + 1) * half;
        i := i + 1;
      }
      assert b * (half * half) + half * half == (b + 1) * (half * half);
      assert b * half + half == (b + 1) * half;
      b := b + 1;
    }
  }

  /** Aggregation to edge: within pod b, aggregation b*half + i joins every edge switch b*half + j. */
  method AggrToEdge(links0: seq<VLink>, k: nat, half: nat, c0: int, a0: int, e0: int, top: int, rate: nat)
    returns (links: seq<VLink>)
    requires half > 0 && k == 2 * half && a0 == c0 + half * half && e0 == a0 + k * half && top == e0 + k * half && c0 >= 0
    requires NoRepeat(links0) && Layered(links0, c0, a0, e0, top, rate)
    requires forall t :: 0 <= t < |links0| ==> links0[t].u < a0
    ensures |links| == |links0| + k * (half * half)
    ensures NoRepeat(links) && Layered(links, c0, a0, e0, top, rate)
    ensures forall t :: 0 <= t < |links| ==> links[t].u < e0
  {
    links := links0;
    var b := 0;
    while b < k
      invariant 0 <= b <= k && |links| == |links0| + b * (half * half)
      invariant NoRepeat(links) && Layered(links, c0, a0, e0, top, rate)
      invariant forall t :: 0 <= t < |links| ==> links[t].u < a0 + b * half
    {
      var i := 0;
      while i < half
        invariant 0 <= i <= half && |links| == |links0| + b * (half * half) + i * half
        invariant NoRepeat(links) && Layered(links, c0, a0, e0, top, rate)
        invariant forall t :: 0 <= t < |links| ==> links[t].u < a0 + b * half + i
      {
        Below(b, i, half, k);
        Below(b, half - 1, half, k);
        links := AggrRow(links, a0 + b * half + i, e0 + b * half, half, c0, a0, e0, top, rate);
        assert i * half + half == (i + 1) * half;
        i := i + 1;
      }
      assert b * (half * half) + half * half == (b + 1) * (half * half);
      assert b * half + half == (b + 1) * half;
      b := b + 1;
    }
  }

  /** Edge to host: edge switch x joins the hosts x*density .. x*density + density - 1. */
  method EdgeToHost(links0: seq<VLink>, nE: nat, density: nat, c0: int, a0: int, e0: int, top: int, rate: nat)
    returns (links: seq<VLink>)
    requires c0 == nE * density && c0 <= a0 <= e0 && top == e0 + nE
    requires NoRepeat(links0) && Layered(links0, c0, a0, e0, top, rate)
    requires forall t :: 0 <= t < |links0| ==> links0[t].u < e0
    ensures |links| == |links0| + nE * density
    ensures NoRepeat(links) && Layered(links, c0, a0, e0, top, rate)
  {
    links := links0;
    var x := 0;
    while x < nE
      invariant 0 <= x <= nE && |links| == |links0| + x * density
      invariant NoRepeat(links) && Layered(links, c0, a0, e0, top, rate)
      invariant forall t :: 0 <= t < |links| ==> links[t].u < e0 + x
    {
      var i := 0;
      while i < density
        invariant 0 <= i <= density && |links| == |links0| + x * density + i
        invariant NoRepeat(links) && Layered(links, c0, a0, e0, top, rate)
        invariant forall t :: 0 <= t < |links| ==> links[t].u < e0 + x || (links[t].u == e0 + x && links[t].v < x * density + i)
      {
        Below(x, i, density, nE);
        var l := VLink(e0 + x, x * density + i, rate);
        Extend(links, l, c0, a0, e0, top, rate);
        links := links + [l];
        i := i + 1;
      }
      assert x * density + density == (x + 1) * density;
      x := x + 1;
    }
  }

  /** Number of switches of each layer and of hosts of a k-ary fat tree. */
  function CoreSwitches(k: nat): nat { (k / 2) * (k / 2) }
  function PodSwitches(k: nat): nat { k * (k / 2) }
  function Hosts(k: nat, density: int): nat { if density > 0 then PodSwitches(k) * density else 0 }

  /**
   * What create_fat_tree builds: the hosts and the three switch layers with
   * the uniform demands, the three layers of links with the uniform rate.
   */
  ghost predicate FatTree(v: VirtualNet, k: nat, density: int, cores: nat, memory: nat, rate: nat)
  {
    var nC, nP, nH := CoreSwitches(k), PodSwitches(k), Hosts(k, density);
    var top := nH + nC + 2 * nP;
    |v.nodes| == top &&
    (forall n :: 0 <= n < top ==> v.nodes[n] == n) &&
    (forall n :: n in v.cores <==> 0 <= n < top) &&
    (forall n :: n in v.cores ==> v.cores[n] == cores) &&
    (forall n :: n in v.memory <==> 0 <= n < top) &&
    (forall n :: n in v.memory ==> v.memory[n] == memory) &&
    |v.links| == 2 * k * nC + nP * (if density > 0 then density else 0) &&
    Layered(v.links, nH, nH + nC, nH + nC + nP, top, rate)
  }

  lemma FatTreeValue(v: VirtualNet, k: nat, density: int, cores: nat, memory: nat, rate: nat)
    requires k >= 2 && k % 2 == 0
    requires var nC, nP, nH := CoreSwitches(k), PodSwitches(k), Hosts(k, density);
      var top := nH + nC + 2 * nP;
      v.nodes == seq(top, n requires 0 <= n < top => n) &&
      v.cores == (map n | n in v.nodes :: cores) && v.memory == (map n | n in v.nodes :: memory) &&
      |v.links| == k * ((k / 2) * (k / 2)) + k * ((k / 2) * (k / 2)) + nP * (if density > 0 then density else 0) &&
      NoRepeat(v.links) && Layered(v.links, nH, nH + nC, nH + nC + nP, top, rate)
    ensures Valid(v) && FatTree(v, k, density, cores, memory, rate)
  {
    var nC, nP, nH := CoreSwitches(k), PodSwitches(k), Hosts(k, density);
    var top := nH + nC + 2 * nP;
    LayeredEndpoints(v.links, nH, nH + nC, nH + nC + nP, top, rate);
    assert forall n :: n in v.nodes <==> 0 <= n < top by {
      forall n | 0 <= n < top ensures n in v.nodes { assert v.nodes[n] == n; }
    }
  }

  /**
   * create_fat_tree(k, density, ...): rejects k <= 1, odd k and negative
   * demands; otherwise builds a simple graph of fat-tree shape.
   */
  method CreateFatTree(k: int, density: int, reqCores: int, reqMemory: int, reqRate: int) returns (r: Result<VirtualNet>)
    ensures r.Err? <==> (k <= 1 || k % 2 != 0 || reqCores < 0 || reqMemory < 0 || reqRate < 0)
    ensures r.Err? ==> r.error == AssertionFailed
    ensures r.Ok? ==> Valid(r.value) && FatTree(r.value, k, density, reqCores, reqMemory, reqRate)
  {
    if k <= 1 || k % 2 != 0 || reqCores < 0 || reqMemory < 0 || reqRate < 0 {
      return Err(AssertionFailed);
    }
    var half := k / 2;
    var nC, nP, nH := CoreSwitches(k), PodSwitches(k), Hosts(k, density);
    var d := if density > 0 then density else 0;
    assert nH == nP * d;
    var c0, a0, e0 := nH, nH + nC, nH + nC + nP;
    var top := e0 + nP;
    var links := CoreToAggr(k, half, c0, a0, e0, top, reqRate);
    links := AggrToEdge(links, k, half, c0, a0, e0, top, reqRate);
    links := EdgeToHost(links, nP, d, c0, a0, e0, top, reqRate);
    var nodes := seq(top, n requires 0 <= n < top => n);
    var v := VirtualNet(nodes, map n | n in nodes :: reqCores as nat, map n | n in nodes :: reqMemory as nat, links);
    FatTreeValue(v, k, density, reqCores, reqMemory, reqRate);
    r := Ok(v);
  }

  /** The k = 4, density 2 instance has 36 nodes and 48 links. */
  lemma FatTreeOfFour(v: VirtualNet, cores: nat, memory: nat, rate: nat)
    requires FatTree(v, 4, 2, cores, memory, rate)
    ensures |v.nodes| == 36 && |v.links| == 48
  {
  }

  /*
   * create_random_EC2: nodes 0 .. n-1 without links, each demand drawn from
   * a list of choices. The seeded draws are the oracles coreDraw and memDraw,
   * giving for node u the position of its pick in the list.
   */

  /** The choice lists of the library revision: 1..8 cores, 512 or a multiple of 1024 up to 8192 MB. */
  const Ec2Cores: seq<nat> := seq(8, i requires 0 <= i < 8 => i + 1)
  const Ec2Memory: seq<nat> := [512] + seq(8, i requires 0 <= i < 8 => 1024 * (i + 1))

  /** The choice lists of the logical.py revision: 1..10 cores, 512..3584 MB in steps of 512. */
  const LogicalCores: seq<nat> := seq(10, i requires 0 <= i < 10 => i + 1)
  const LogicalMemory: seq<nat> := seq(7, i requires 0 <= i < 7 => 512 * (i + 1))

  function RandomEC2(n: nat, coreChoices: seq<nat>, memChoices: seq<nat>, coreDraw: nat -> nat, memDraw: nat -> nat)
    : (v: VirtualNet)
    requires forall u :: coreDraw(u) < |coreChoices|
    requires forall u :: memDraw(u) < |memChoices|
    ensures |v.nodes| == n && v.links == []
    ensures forall u :: u in v.cores <==> 0 <= u < n
    ensures forall u :: u in v.memory <==> 0 <= u < n
    ensures forall u :: u in v.cores ==> v.cores[u] in coreChoices
    ensures forall u :: u in v.memory ==> v.memory[u] in memChoices
  {
    var nodes := seq(n, u requires 0 <= u < n => u);
    assert forall u :: u in nodes <==> 0 <= u < n by {
      forall u | 0 <= u < n ensures u in nodes { assert nodes[u] == u; }
    }
    VirtualNet(nodes, map u | u in nodes :: coreChoices[coreDraw(u)], map u | u in nodes :: memChoices[memDraw(u)], [])
  }

  lemma Ec2Choices()
    ensures forall x :: x in Ec2Cores ==> 1 <= x <= 8
    ensures forall x :: x in Ec2Memory ==> x == 512 || (x % 1024 == 0 && 1024 <= x <= 8192)
  {
    forall x | x in Ec2Memory ensures x == 512 || (x % 1024 == 0 && 1024 <= x <= 8192) {
      var i :| 0 <= i < |Ec2Memory| && Ec2Memory[i] == x;
      if i > 0 {
        assert x == 1024 * i;
      }
    }
  }

  lemma LogicalChoices()
    ensures forall x :: x in LogicalCores ==> 1 <= x <= 10
    ensures forall x :: x in LogicalMemory ==> x % 512 == 0 && 512 <= x <= 3584
  {
  }

  /** The library revision draws 1..8 cores and 512 MB or a multiple of 1024 MB up to 8192. */
  lemma Ec2Ranges(n: nat, coreDraw: nat -> nat, memDraw: nat -> nat, v: VirtualNet)
    requires forall u :: coreDraw(u) < |Ec2Cores|
    requires forall u :: memDraw(u) < |Ec2Memory|
    requires v == RandomEC2(n, Ec2Cores, Ec2Memory, coreDraw, memDraw)
    ensures forall u :: u in v.cores ==> 1 <= v.cores[u] <= 8
    ensures forall u :: u in v.memory ==> v.memory[u] == 512 || (v.memory[u] % 1024 == 0 && 1024 <= v.memory[u] <= 8192)
  {
    Ec2Choices();
  }

  /** The logical.py revision draws 1..10 cores and 512..3584 MB in steps of 512. */
  lemma LogicalRanges(n: nat, coreDraw: nat -> nat, memDraw: nat -> nat, v: VirtualNet)
    requires forall u :: coreDraw(u) < |LogicalCores|
    requires forall u :: memDraw(u) < |LogicalMemory|
    requires v == RandomEC2(n, LogicalCores, LogicalMemory, coreDraw, memDraw)
    ensures forall u :: u in v.cores ==> 1 <= v.cores[u] <= 10
    ensures forall u :: u in v.memory ==> v.memory[u] % 512 == 0 && 512 <= v.memory[u] <= 3584
  {
    LogicalChoices();
  }
}
