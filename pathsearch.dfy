/**
 * The depth-first path finder shared by every revision of the physical
 * network: an explicit stack of neighbour iterators beside an "open path"
 * list. A neighbour is followed only when the edge-acceptance function gives
 * it a label (the interface chosen for the hop); the target is returned as
 * soon as an accepted edge reaches it, and a node already on the open path is
 * never pushed again.
 */
module PathSearch {
  import opened Common

  /** One hop of a path: the edge (src, dst) and the label chosen for it. */
  datatype Hop<L> = Hop(src: NodeId, dst: NodeId, device: L)

  /** Every neighbour listed in the adjacency is itself a node of the graph. */
  predicate Closed(adj: map<NodeId, seq<NodeId>>)
  {
    forall n :: n in adj ==> forall k :: 0 <= k < |adj[n]| ==> adj[n][k] in adj
  }

  /** The hops start at source, end at target, and each hop starts where the previous one ended. */
  predicate Chains<L>(hops: seq<Hop<L>>, source: NodeId, target: NodeId)
  {
    |hops| > 0 && hops[0].src == source && hops[|hops| - 1].dst == target &&
    forall k :: 0 <= k < |hops| - 1 ==> hops[k].dst == hops[k + 1].src
  }

  /** Every hop follows an edge of the graph and carries the label the acceptance function gives it. */
  predicate Accepted<L(==)>(adj: map<NodeId, seq<NodeId>>, accept: (NodeId, NodeId) -> Option<L>, hops: seq<Hop<L>>)
  {
    forall k :: 0 <= k < |hops| ==>
      hops[k].src in adj && hops[k].dst in adj[hops[k].src] &&
      accept(hops[k].src, hops[k].dst) == Some(hops[k].device)
  }

  /** No node is left twice, and the target is not crossed before the end. */
  predicate SimpleHops<L>(hops: seq<Hop<L>>, target: NodeId)
  {
    (forall a, b :: 0 <= a < b < |hops| ==> hops[a].src != hops[b].src) &&
    (forall k :: 0 < k < |hops| ==> hops[k].src != target)
  }

  /** The hops read from the end, each edge turned round: the way back from target to source. */
  function Backward<L>(hops: seq<Hop<L>>): (r: seq<Hop<L>>)
    ensures |r| == |hops|
    ensures forall k :: 0 <= k < |hops| ==>
      r[k] == Hop(hops[|hops| - 1 - k].dst, hops[|hops| - 1 - k].src, hops[|hops| - 1 - k].device)
  {
    seq(|hops|, k requires 0 <= k < |hops| =>
      Hop(hops[|hops| - 1 - k].dst, hops[|hops| - 1 - k].src, hops[|hops| - 1 - k].device))
  }

  /** Read backwards, hops chaining source to target chain target to source, and turning back twice is the identity. */
  lemma BackwardChains<L>(hops: seq<Hop<L>>, source: NodeId, target: NodeId)
    ensures Chains(hops, source, target) <==> Chains(Backward(hops), target, source)
    ensures Backward(Backward(hops)) == hops
  {
    var r := Backward(hops);
    var n := |hops|;
    if Chains(hops, source, target) {
      forall k | 0 <= k < n - 1 ensures r[k].dst == r[k + 1].src {
        assert r[k].dst == hops[n - 1 - k].src && r[k + 1].src == hops[n - 2 - k].dst;
      }
    }
    if Chains(r, target, source) {
      forall k | 0 <= k < n - 1 ensures hops[k].dst == hops[k + 1].src {
        assert hops[k].dst == r[n - 1 - k].src && hops[k + 1].src == r[n - 2 - k].dst;
      }
    }
  }

  function Pow(b: nat, e: nat): (p: nat)
    ensures b > 0 ==> p > 0
  {
    if e == 0 then 1 else b * Pow(b, e - 1)
  }

  /** An upper bound on the length of every neighbour sequence. */
  ghost function DegreeBound(adj: map<NodeId, seq<NodeId>>): (d: nat)
    ensures forall n :: n in adj ==> |adj[n]| <= d
    decreases |adj.Keys|
  {
    if adj.Keys == {} then 0
    else
      NonEmptyHasNode(adj.Keys);
      var m :| m in adj.Keys;
      var rest := adj - {m};
      var d := DegreeBound(rest);
      assert forall x :: x in adj && x != m ==> x in rest && rest[x] == adj[x];
      if |adj[m]| > d then |adj[m]| else d
  }

  /** Each level of the stack iterates the neighbours of its open-path node; there are at most n levels. */
  predicate Positions(adj: map<NodeId, seq<NodeId>>, path: seq<NodeId>, pos: seq<nat>, n: nat)
  {
    |path| == |pos| <= n &&
    forall k :: 0 <= k < |path| ==> path[k] in adj && pos[k] <= |adj[path[k]]|
  }

  /** The part of the stack that is still to be explored at each level, as a number in base b. */
  ghost function Weight(adj: map<NodeId, seq<NodeId>>, path: seq<NodeId>, pos: seq<nat>, n: nat, b: nat): nat
    requires Positions(adj, path, pos, n)
  {
    if |path| == 0 then 0
    else
      var d := |path| - 1;
      assert Positions(adj, path[..d], pos[..d], n);
      Weight(adj, path[..d], pos[..d], n, b) + Unit(|adj[path[d]]| - pos[d] + 1, b, n - d)
  }

  /** r units of weight b^e. */
  function Unit(r: nat, b: nat, e: nat): (u: nat)
    ensures r > 0 && b > 0 ==> u > 0
  {
    r * Pow(b, e)
  }

  /**
   * The state of the search: the open path starts at source, has no repeated
   * node, does not cross target, and each of its edges was accepted with the
   * recorded label (the first entry, for source itself, has none).
   */
  ghost predicate OpenPath<L>(adj: map<NodeId, seq<NodeId>>, accept: (NodeId, NodeId) -> Option<L>,
                                  source: NodeId, target: NodeId, n: nat,
                                  path: seq<NodeId>, labels: seq<Option<L>>, pos: seq<nat>)
  {
    Positions(adj, path, pos, n) && |labels| == |path| &&
    (|path| > 0 ==> path[0] == source) &&
    Distinct(path) &&
    (forall k :: 0 < k < |path| ==> path[k] != target) &&
    (forall k :: 0 < k < |path| ==>
      path[k] in adj[path[k - 1]] && labels[k].Some? && accept(path[k - 1], path[k]) == labels[k])
  }

  lemma OpenPathPop<L>(adj: map<NodeId, seq<NodeId>>, accept: (NodeId, NodeId) -> Option<L>,
                           source: NodeId, target: NodeId, n: nat,
                           path: seq<NodeId>, labels: seq<Option<L>>, pos: seq<nat>)
    requires OpenPath(adj, accept, source, target, n, path, labels, pos) && |path| > 0
    ensures var d := |path| - 1;
      OpenPath(adj, accept, source, target, n, path[..d], labels[..d], pos[..d])
  {
  }

  lemma OpenPathAdvance<L>(adj: map<NodeId, seq<NodeId>>, accept: (NodeId, NodeId) -> Option<L>,
                               source: NodeId, target: NodeId, n: nat,
                               path: seq<NodeId>, labels: seq<Option<L>>, pos: seq<nat>)
    requires OpenPath(adj, accept, source, target, n, path, labels, pos) && |path| > 0
    requires pos[|pos| - 1] < |adj[path[|path| - 1]]|
    ensures var d := |pos| - 1;
      OpenPath(adj, accept, source, target, n, path, labels, pos[d := pos[d] + 1])
  {
  }

  lemma OpenPathPush<L>(adj: map<NodeId, seq<NodeId>>, accept: (NodeId, NodeId) -> Option<L>,
                            source: NodeId, target: NodeId, n: nat,
                            path: seq<NodeId>, labels: seq<Option<L>>, pos: seq<nat>, curr: NodeId, device: L)
    requires OpenPath(adj, accept, source, target, n, path, labels, pos) && |path| > 0
    requires curr in adj[path[|path| - 1]] && curr in adj && curr != target && curr !in path
    requires accept(path[|path| - 1], curr) == Some(device)
    requires |path| + 1 <= n
    ensures OpenPath(adj, accept, source, target, n, path + [curr], labels + [Some(device)], pos + [0])
  {
  }

  /** Reaching target over an accepted edge turns the open path into a result with every promised property. */
  lemma OpenPathFound<L>(adj: map<NodeId, seq<NodeId>>, accept: (NodeId, NodeId) -> Option<L>,
                             source: NodeId, target: NodeId, n: nat,
                             path: seq<NodeId>, labels: seq<Option<L>>, pos: seq<nat>, device: L)
    returns (hops: seq<Hop<L>>)
    requires OpenPath(adj, accept, source, target, n, path, labels, pos) && |path| > 0
    requires target in adj[path[|path| - 1]] && accept(path[|path| - 1], target) == Some(device)
    ensures hops == HopsOf(path + [target], labels + [Some(device)])
    ensures Chains(hops, source, target) && Accepted(adj, accept, hops) && SimpleHops(hops, target)
  {
    hops := HopsOf(path + [target], labels + [Some(device)]);
  }

  /** The result list: hop k goes from the k-th to the (k+1)-th node of the path with the (k+1)-th label. */
  function HopsOf<L>(path: seq<NodeId>, labels: seq<Option<L>>): (hops: seq<Hop<L>>)
    requires |labels| == |path| > 0
    requires forall k :: 0 < k < |labels| ==> labels[k].Some?
    ensures |hops| == |path| - 1
  {
    seq(|path| - 1, k requires 0 <= k < |path| - 1 => Hop(path[k], path[k + 1], labels[k + 1].value))
  }

  /** Closing the exhausted iterator on top of the stack lowers the weight. */
  lemma {:induction false} WeightPop(adj: map<NodeId, seq<NodeId>>, path: seq<NodeId>, pos: seq<nat>, n: nat, b: nat)
    requires Positions(adj, path, pos, n) && |path| > 0 && b > 0
    ensures Positions(adj, path[..|path| - 1], pos[..|path| - 1], n)
    ensures Weight(adj, path[..|path| - 1], pos[..|path| - 1], n, b) < Weight(adj, path, pos, n, b)
  {
  }

  /** Taking one more neighbour from the iterator on top lowers the weight by one unit of its level. */
  lemma {:induction false} WeightAdvance(adj: map<NodeId, seq<NodeId>>, path: seq<NodeId>, pos: seq<nat>, n: nat, b: nat)
    requires Positions(adj, path, pos, n) && |path| > 0
    requires pos[|pos| - 1] < |adj[path[|path| - 1]]|
    ensures var d := |pos| - 1;
      Positions(adj, path, pos[d := pos[d] + 1], n) &&
      Weight(adj, path, pos[d := pos[d] + 1], n, b) + Pow(b, n - d) == Weight(adj, path, pos, n, b)
  {
    var d := |pos| - 1;
    assert pos[d := pos[d] + 1][..d] == pos[..d];
  }

  /** Opening a new level costs less than the unit of the level below it. */
  lemma {:induction false} WeightPush(adj: map<NodeId, seq<NodeId>>, path: seq<NodeId>, pos: seq<nat>, n: nat, b: nat, c: NodeId)
    requires Positions(adj, path, pos, n) && |path| > 0 && |path| + 1 <= n
    requires c in adj && |adj[c]| + 2 <= b
    ensures Positions(adj, path + [c], pos + [0], n)
    ensures Weight(adj, path + [c], pos + [0], n, b) < Weight(adj, path, pos, n, b) + Pow(b, n - (|path| - 1))
  {
    var d := |path|;
    assert (path + [c])[..d] == path && (pos + [0])[..d] == pos;
    var p := Pow(b, n - d);
    assert Pow(b, n - (d - 1)) == b * p;
    UnitBelow(|adj[c]| + 1, b, p);
  }

  lemma UnitBelow(r: nat, b: nat, p: nat)
    requires r < b
    ensures r * p <= b * p - p
  {
    assert b * p - p == (b - 1) * p;
    assert r * p <= (b - 1) * p by { MulMono(r, b - 1, p); }
  }

  lemma MulMono(x: nat, y: nat, p: nat)
    requires x <= y
    ensures x * p <= y * p
  {
  }

  /**
   * Search from source for target. The result, when there is one, is the open
   * path at the moment an accepted edge reaches target, as hops labelled by
   * the acceptance function.
   */
  method Search<L(==)>(adj: map<NodeId, seq<NodeId>>, source: NodeId, target: NodeId,
                       accept: (NodeId, NodeId) -> Option<L>)
    returns (r: Option<seq<Hop<L>>>)
    requires source in adj && Closed(adj)
    ensures r.Some? ==> Chains(r.value, source, target)
    ensures r.Some? ==> Accepted(adj, accept, r.value)
    ensures r.Some? ==> SimpleHops(r.value, target)
  {
    var path: seq<NodeId> := [source];
    var labels: seq<Option<L>> := [None];
    var pos: seq<nat> := [0];
    ghost var n := |adj.Keys|;
    ghost var b := DegreeBound(adj) + 2;
    DistinctLength(path, adj.Keys);
    while |pos| > 0
      invariant OpenPath(adj, accept, source, target, n, path, labels, pos)
      decreases Weight(adj, path, pos, n, b)
    {
      var found;
      found, path, labels, pos := Explore(adj, source, target, accept, n, b, path, labels, pos);
      if found.Some? {
        return found;
      }
    }
    r := None;
  }

  /**
   * One turn of the search loop: close the exhausted iterator on top of the
   * stack, or take its next neighbour, which either reaches target over an
   * accepted edge or is pushed when it is accepted and not yet on the path.
   * Without a result the stack stays an open path of smaller weight.
   */
  method Explore<L(==)>(adj: map<NodeId, seq<NodeId>>, source: NodeId, target: NodeId,
                        accept: (NodeId, NodeId) -> Option<L>, ghost n: nat, ghost b: nat,
                        path: seq<NodeId>, labels: seq<Option<L>>, pos: seq<nat>)
    returns (found: Option<seq<Hop<L>>>, path': seq<NodeId>, labels': seq<Option<L>>, pos': seq<nat>)
    requires Closed(adj) && n == |adj.Keys| && b == DegreeBound(adj) + 2
    requires OpenPath(adj, accept, source, target, n, path, labels, pos) && |pos| > 0
    ensures found.Some? ==> (Chains(found.value, source, target) && Accepted(adj, accept, found.value) &&
      SimpleHops(found.value, target))
    ensures found.None? ==> (OpenPath(adj, accept, source, target, n, path', labels', pos') &&
      Weight(adj, path', pos', n, b) < Weight(adj, path, pos, n, b))
  {
    var d := |pos| - 1;
    var prev := path[d];
    found := None;
    if pos[d] == |adj[prev]| {
      // the iterator on top of the stack is exhausted
      WeightPop(adj, path, pos, n, b);
      OpenPathPop(adj, accept, source, target, n, path, labels, pos);
      path', labels', pos' := path[..d], labels[..d], pos[..d];
      return;
    }
    var curr := adj[prev][pos[d]];
    WeightAdvance(adj, path, pos, n, b);
    OpenPathAdvance(adj, accept, source, target, n, path, labels, pos);
    path', labels', pos' := path, labels, pos[d := pos[d] + 1];
    var device := accept(prev, curr);
    if device.Some? {
      if curr == target {
        var hops := OpenPathFound(adj, accept, source, target, n, path', labels', pos', device.value);
        found := Some(HopsOf(path' + [curr], labels' + [device]));
      } else if curr !in path' {
        assert Distinct(path' + [curr]);
        DistinctLength(path' + [curr], adj.Keys);
        WeightPush(adj, path', pos', n, b, curr);
        OpenPathPush(adj, accept, source, target, n, path', labels', pos', curr, device.value);
        path', labels', pos' := path' + [curr], labels' + [device], pos' + [0];
      }
    }
  }
}
