/**
 * The k-balanced heuristic of the current library: the virtual nodes are cut
 * into parts by repeated Kernighan-Lin bisection, the smallest parts are
 * merged until there are as many as machines to try, each part goes to one
 * machine, and the number of machines grows from the lower bound until the
 * placement and its routing pass build_solution's verification.
 *
 * Kernighan-Lin itself is an oracle: any function that splits a set into two
 * disjoint halves of sizes n // 2 and n - n // 2, as networkx's
 * kernighan_lin_bisection does.
 */
module KBalanced {
  import opened Common
  import Physical
  import Virtual
  import EmbedVerify
  import EmbedBuild
  import Ungroup
  import LowerBound
  import Placement

  /*
   * Partitions of a node set.
   */

  function UnionOf(parts: seq<set<NodeId>>): set<NodeId>
  {
    if |parts| == 0 then {} else UnionOf(parts[..|parts| - 1]) + parts[|parts| - 1]
  }

  /** A node is in the union exactly when some part holds it. */
  lemma {:induction false} InUnion(parts: seq<set<NodeId>>, x: NodeId)
    ensures x in UnionOf(parts) <==> exists k :: 0 <= k < |parts| && x in parts[k]
  {
    if |parts| > 0 {
      var init := parts[..|parts| - 1];
      InUnion(init, x);
      if x in UnionOf(init) {
        var k :| 0 <= k < |init| && x in init[k];
        assert parts[k] == init[k];
      }
      if exists k :: 0 <= k < |parts| && x in parts[k] {
        var k :| 0 <= k < |parts| && x in parts[k];
        if k < |init| {
          assert init[k] == parts[k];
        }
      }
    }
  }

  predicate Disjoint(parts: seq<set<NodeId>>)
  {
    forall a, b :: 0 <= a < b < |parts| ==> parts[a] !! parts[b]
  }

  /** The parts are pairwise disjoint and together hold exactly s (a part may be empty). */
  predicate Partitions(parts: seq<set<NodeId>>, s: set<NodeId>)
  {
    Disjoint(parts) && UnionOf(parts) == s
  }

  function NodeSet(v: Virtual.VirtualNet): set<NodeId>
  {
    set x | x in v.nodes
  }

  lemma PartInUnion(parts: seq<set<NodeId>>, k: nat)
    requires k < |parts|
    ensures parts[k] <= UnionOf(parts)
  {
    forall x | x in parts[k] ensures x in UnionOf(parts) {
      InUnion(parts, x);
    }
  }

  lemma {:induction false} UnionOfAppend(a: seq<set<NodeId>>, b: seq<set<NodeId>>)
    ensures UnionOf(a + b) == UnionOf(a) + UnionOf(b)
  {
    if |b| == 0 {
      assert a + b == a;
    } else {
      var init := b[..|b| - 1];
      assert (a + b)[..|a + b| - 1] == a + init;
      UnionOfAppend(a, init);
    }
  }

  lemma JoinPartitions(a: seq<set<NodeId>>, b: seq<set<NodeId>>, sa: set<NodeId>, sb: set<NodeId>)
    requires Partitions(a, sa) && Partitions(b, sb) && sa !! sb
    ensures Partitions(a + b, sa + sb)
  {
    var ab := a + b;
    UnionOfAppend(a, b);
    forall i, j | 0 <= i < j < |ab| ensures ab[i] !! ab[j] {
      if j < |a| {
        assert ab[i] == a[i] && ab[j] == a[j];
      } else if i >= |a| {
        assert ab[i] == b[i - |a|] && ab[j] == b[j - |a|];
      } else {
        PartInUnion(a, i);
        PartInUnion(b, j - |a|);
        assert ab[i] == a[i] && ab[j] == b[j - |a|];
      }
    }
  }

  /*
   * Recursive cutting.
   */

  /** The shape of one kernighan_lin_bisection result on s. */
  predicate Bisects(s: set<NodeId>, h: (set<NodeId>, set<NodeId>))
  {
    h.0 !! h.1 && h.0 + h.1 == s && |h.0| == |s| / 2
  }

  type Bisection = set<NodeId> -> (set<NodeId>, set<NodeId>)

  ghost predicate IsBisection(bisect: Bisection)
  {
    forall s :: Bisects(s, bisect(s))
  }

  /** The size bound K: ceil(n / p) in the current library, the plain quotient n / p in the older ones. */
  datatype Threshold = Ceiling | Quotient

  function Limit(n: nat, p: real, th: Threshold): (k: real)
    requires p > 0.0
    ensures k >= n as real / p
  {
    if th == Ceiling then LowerBound.Ceil(n as real / p) as real else n as real / p
  }

  /** Dividing by a p of at most 1 does not make a count smaller. */
  lemma ScaledUp(n: nat, p: real)
    requires p > 0.0
    ensures p <= 1.0 ==> n as real / p >= n as real
  {
    if p <= 1.0 {
      var q := n as real / p;
      assert q * p == n as real;
      assert q * (1.0 - p) >= 0.0;
    }
  }

  /** A part can only be larger than K when p > 1. */
  lemma AboveOne(n: nat, m: nat, p: real, th: Threshold)
    requires p > 0.0 && m <= n && m as real > Limit(n, p, th)
    ensures p > 1.0
  {
    ScaledUp(n, p);
  }

  /** Halving p > 1 lowers ceil(p), so the recursion of the cutting ends. */
  lemma HalfCeil(p: real)
    requires p > 1.0
    ensures 0 <= LowerBound.Ceil(p / 2.0) < LowerBound.Ceil(p)
  {
    var c := LowerBound.Ceil(p);
    assert c >= 2;
  }

  /**
   * _recursive_cutting(g, p): bisect the node set, keep a half of at most K
   * nodes, cut a larger half again with p / 2; the parts come out left to
   * right.
   */
  function Cut(s: set<NodeId>, p: real, th: Threshold, bisect: Bisection): (parts: seq<set<NodeId>>)
    requires p > 0.0 && IsBisection(bisect)
    ensures Partitions(parts, s)
    decreases LowerBound.Ceil(p)
  {
    var h := bisect(s);
    assert Bisects(s, h);
    var k := Limit(|s|, p, th);
    var left :=
      if |h.0| as real > k then AboveOne(|s|, |h.0|, p, th); HalfCeil(p); Cut(h.0, p / 2.0, th, bisect)
      else [h.0];
    var right :=
      if |h.1| as real > k then AboveOne(|s|, |h.1|, p, th); HalfCeil(p); Cut(h.1, p / 2.0, th, bisect)
      else [h.1];
    JoinPartitions(left, right, h.0, h.1);
    left + right
  }

  /*
   * Merging the smallest parts.
   */

  function Size(s: set<NodeId>): int
  {
    |s|
  }

  function NegSize(s: set<NodeId>): int
  {
    -|s|
  }

  /** The parts sorted by size (stable): largest first, or smallest first. */
  function BySize(parts: seq<set<NodeId>>, ascending: bool): (r: seq<set<NodeId>>)
    ensures multiset(r) == multiset(parts)
    ensures ascending ==> Placement.NonIncreasing(r, NegSize)
    ensures !ascending ==> Placement.NonIncreasing(r, Size)
  {
    if ascending then Placement.SortDescending(parts, NegSize)
    else Placement.SortDescending(parts, Size)
  }

  /** The two parts taken out of the sorted list, and what remains in it, in order. */
  datatype Taken = Taken(rest: seq<set<NodeId>>, e1: set<NodeId>, e2: set<NodeId>)

  /** The taken parts are no larger than any remaining one, and nothing is lost. */
  predicate SmallestTaken(parts: seq<set<NodeId>>, t: Taken)
  {
    |t.rest| == |parts| - 2 &&
    multiset(t.rest + [t.e1, t.e2]) == multiset(parts) &&
    |t.e1| <= |t.e2| &&
    forall k :: 0 <= k < |t.rest| ==> |t.e2| <= |t.rest[k]|
  }

  /**
   * The pops of one merge round: two pop()s off the end of the list sorted
   * largest first, or two pop(0)s off the front of the list sorted smallest
   * first. Either way the two taken parts are no larger than any other.
   */
  function TakeSmallest(parts: seq<set<NodeId>>, ascending: bool): (t: Taken)
    requires |parts| >= 2
    ensures SmallestTaken(parts, t)
  {
    var sorted := BySize(parts, ascending);
    var t := if ascending then TakeFront(sorted) else TakeBack(sorted);
    assert multiset(t.rest + [t.e1, t.e2]) == multiset(sorted);
    t
  }

  function TakeFront(sorted: seq<set<NodeId>>): (t: Taken)
    requires |sorted| >= 2 && Placement.NonIncreasing(sorted, NegSize)
    ensures SmallestTaken(sorted, t)
  {
    var t := Taken(sorted[2..], sorted[0], sorted[1]);
    assert sorted == [sorted[0], sorted[1]] + sorted[2..];
    assert NegSize(sorted[0]) >= NegSize(sorted[1]);
    assert forall k :: 0 <= k < |t.rest| ==> t.rest[k] == sorted[k + 2] && NegSize(sorted[1]) >= NegSize(sorted[k + 2]);
    assert multiset([sorted[0], sorted[1]] + sorted[2..]) == multiset(sorted[2..] + [sorted[0], sorted[1]]);
    t
  }

  function TakeBack(sorted: seq<set<NodeId>>): (t: Taken)
    requires |sorted| >= 2 && Placement.NonIncreasing(sorted, Size)
    ensures SmallestTaken(sorted, t)
  {
    var n := |sorted|;
    var t := Taken(sorted[..n - 2], sorted[n - 1], sorted[n - 2]);
    assert sorted == sorted[..n - 2] + [sorted[n - 2], sorted[n - 1]];
    assert Size(sorted[n - 2]) >= Size(sorted[n - 1]);
    assert forall k :: 0 <= k < |t.rest| ==> t.rest[k] == sorted[k] && Size(sorted[k]) >= Size(sorted[n - 2]);
    assert multiset([sorted[n - 1], sorted[n - 2]]) == multiset([sorted[n - 2], sorted[n - 1]]);
    t
  }

  /** Reordering the parts changes neither what they hold nor their disjointness. */
  lemma {:induction false} Reordered(a: seq<set<NodeId>>, b: seq<set<NodeId>>)
    requires multiset(a) == multiset(b)
    ensures UnionOf(a) == UnionOf(b)
    ensures Disjoint(a) ==> Disjoint(b)
  {
    forall x | x in UnionOf(a) ensures x in UnionOf(b) {
      InUnion(a, x);
      var k :| 0 <= k < |a| && x in a[k];
      assert a[k] in multiset(b);
      var j :| 0 <= j < |b| && b[j] == a[k];
      InUnion(b, x);
    }
    forall x | x in UnionOf(b) ensures x in UnionOf(a) {
      InUnion(b, x);
      var k :| 0 <= k < |b| && x in b[k];
      assert b[k] in multiset(a);
      var j :| 0 <= j < |a| && a[j] == b[k];
      InUnion(a, x);
    }
    if Disjoint(a) {
      forall i, j | 0 <= i < j < |b| ensures b[i] !! b[j] {
        assert b[i] in multiset(a) && b[j] in multiset(a);
        if b[i] == b[j] {
          if b[i] != {} {
            assert multiset(b)[b[i]] >= 2 by {
              assert b == b[..i] + [b[i]] + b[i + 1..j] + [b[j]] + b[j + 1..];
            }
            AtMostOnce(a, b[i]);
          }
        } else {
          var p :| 0 <= p < |a| && a[p] == b[i];
          var q :| 0 <= q < |a| && a[q] == b[j];
          assert p != q;
        }
      }
    }
  }

  /** In disjoint parts a non-empty part occurs once. */
  lemma {:induction false} AtMostOnce(a: seq<set<NodeId>>, x: set<NodeId>)
    requires Disjoint(a) && x != {}
    ensures multiset(a)[x] <= 1
  {
    if |a| > 0 {
      var init := a[..|a| - 1];
      assert a == init + [a[|a| - 1]];
      assert Disjoint(init);
      AtMostOnce(init, x);
    }
  }

  /** One round of the merge loop: the two smallest parts are replaced by their union, appended last. */
  function MergeStep(parts: seq<set<NodeId>>, ascending: bool): (r: seq<set<NodeId>>)
    requires |parts| >= 2
    ensures |r| == |parts| - 1
    ensures UnionOf(r) == UnionOf(parts)
    ensures Disjoint(parts) ==> Disjoint(r)
  {
    var t := TakeSmallest(parts, ascending);
    Merged(parts, t);
    t.rest + [t.e1 + t.e2]
  }

  lemma Merged(parts: seq<set<NodeId>>, t: Taken)
    requires SmallestTaken(parts, t)
    ensures UnionOf(t.rest + [t.e1 + t.e2]) == UnionOf(parts)
    ensures Disjoint(parts) ==> Disjoint(t.rest + [t.e1 + t.e2])
  {
    Reordered(parts, t.rest + [t.e1, t.e2]);
    JoinedUnion(t.rest, t.e1, t.e2);
    if Disjoint(parts) {
      JoinedApart(t.rest, t.e1, t.e2);
    }
  }

  /** Replacing the last two parts by their union keeps the union of all parts. */
  lemma JoinedUnion(rest: seq<set<NodeId>>, e1: set<NodeId>, e2: set<NodeId>)
    ensures UnionOf(rest + [e1 + e2]) == UnionOf(rest + [e1, e2])
  {
    UnionOfAppend(rest, [e1, e2]);
    UnionOfAppend(rest, [e1 + e2]);
    assert UnionOf([e1, e2]) == e1 + e2 by {
      assert [e1, e2][..1] == [e1];
    }
    assert UnionOf([e1 + e2]) == e1 + e2 by {
      assert [e1 + e2][..0] == [];
    }
  }

  /** Replacing the last two of disjoint parts by their union leaves the parts disjoint. */
  lemma JoinedApart(rest: seq<set<NodeId>>, e1: set<NodeId>, e2: set<NodeId>)
    requires Disjoint(rest + [e1, e2])
    ensures Disjoint(rest + [e1 + e2])
  {
    var full, r := rest + [e1, e2], rest + [e1 + e2];
    forall i, j | 0 <= i < j < |r| ensures r[i] !! r[j] {
      if j == |r| - 1 {
        assert full[i] !! full[|rest|] && full[i] !! full[|rest| + 1];
      } else {
        assert full[i] !! full[j];
      }
    }
  }

  /**
   * The merge loop `while len(partitions) > n_partitions`: two pops per
   * round, so with no part allowed (n = 0) the last part's second pop
   * raises IndexError.
   */
  method MergeSmallest(parts: seq<set<NodeId>>, n: nat, ascending: bool) returns (r: Result<seq<set<NodeId>>>)
    ensures r.Err? <==> n == 0 && |parts| > 0
    ensures r.Err? ==> r.error == IndexError
    ensures r.Ok? ==> |r.value| == (if |parts| <= n then |parts| else n)
    ensures r.Ok? ==> UnionOf(r.value) == UnionOf(parts)
    ensures r.Ok? && Disjoint(parts) ==> Disjoint(r.value)
    ensures r.Ok? && |parts| <= n ==> r.value == parts
  {
    var ps := parts;
    while |ps| > n
      invariant UnionOf(ps) == UnionOf(parts)
      invariant Disjoint(parts) ==> Disjoint(ps)
      invariant |parts| <= n ==> ps == parts
      invariant |parts| > n ==> n <= |ps| <= |parts|
      invariant |parts| > 0 ==> |ps| > 0
      decreases |ps|
    {
      if |ps| < 2 {
        return Err(IndexError);
      }
      ps := MergeStep(ps, ascending);
    }
    r := Ok(ps);
  }

  /*
   * The partition cache.
   */

  /**
   * GetPartitions: the last cut, kept per virtual network. A cached cut with
   * at least n parts is merged down without cutting again; otherwise the
   * cache is emptied and the network cut afresh for n.
   */
  /** Every cached cut partitions its network's nodes. */
  ghost predicate Cached(cache: map<Virtual.VirtualNet, seq<set<NodeId>>>)
  {
    forall w :: w in cache ==> Partitions(cache[w], NodeSet(w))
  }

  lemma CachedOne(v: Virtual.VirtualNet, parts: seq<set<NodeId>>)
    requires Partitions(parts, NodeSet(v))
    ensures Cached(map[v := parts])
  {
  }

  class PartitionCache {
    var cache: map<Virtual.VirtualNet, seq<set<NodeId>>>
    const threshold: Threshold
    const ascending: bool

    ghost predicate Valid()
      reads this
    {
      Cached(cache)
    }

    constructor (th: Threshold, asc: bool)
      ensures Valid() && cache == map[] && threshold == th && ascending == asc
    {
      cache := map[];
      threshold := th;
      ascending := asc;
    }

    /**
     * __call__(g, n_partitions): n parts when the cut has at least n, else the
     * cut itself; p = 0 divides by zero once the cache has been emptied.
     */
    method Get(v: Virtual.VirtualNet, n: nat, bisect: Bisection) returns (r: Result<seq<set<NodeId>>>)
      requires Valid() && IsBisection(bisect)
      modifies this
      ensures Valid()
      ensures v in old(cache) && |old(cache)[v]| >= n ==> cache == old(cache)
      ensures !(v in old(cache) && |old(cache)[v]| >= n) && n == 0 ==> cache == map[] && r == Err(ZeroDivision)
      ensures !(v in old(cache) && |old(cache)[v]| >= n) && n > 0 ==>
        cache == map[v := Cut(NodeSet(v), n as real, threshold, bisect)]
      ensures r.Err? ==> r.error == ZeroDivision || r.error == IndexError
      ensures r.Ok? ==> Partitions(r.value, NodeSet(v)) && |r.value| <= n
      ensures r.Ok? ==> v in cache && (|r.value| == n || r.value == cache[v])
    {
      var parts: seq<set<NodeId>>;
      if v !in cache || |cache[v]| < n {
        cache := map[];
        if n == 0 {
          return Err(ZeroDivision);
        }
        parts := Cut(NodeSet(v), n as real, threshold, bisect);
        CachedOne(v, parts);
        cache := map[v := parts];
      } else {
        parts := cache[v];
      }
      assert Partitions(parts, NodeSet(v));
      r := MergeSmallest(parts, n, ascending);
    }
  }

  /*
   * The heuristic.
   */

  /** No link joins two compute nodes: machines meet only through switches. */
  predicate MachinesApart(g: Physical.Network)
  {
    forall e :: e in g.links ==> !(Physical.IsCompute(g, e.0) && Physical.IsCompute(g, e.1))
  }

  /** Every placed virtual node sits on a compute node. */
  predicate OnMachines(g: Physical.Network, mapping: map<NodeId, NodeId>)
  {
    forall u :: u in mapping ==> mapping[u] in Physical.ComputeNodes(g)
  }

  lemma HostIsCompute(g: Physical.Network, mapping: map<NodeId, NodeId>, u: NodeId)
    requires OnMachines(g, mapping) && u in mapping
    ensures Physical.IsCompute(g, mapping[u])
  {
  }

  /**
   * When machines meet only through switches, a path between two of them
   * starts and ends on different links.
   */
  lemma RoutesEndApart(g: Physical.Network, mapping: map<NodeId, NodeId>, routing: EmbedVerify.Routing)
    requires MachinesApart(g) && OnMachines(g, mapping)
    requires forall e :: e in routing && Placement.Crossing(mapping, e) ==>
      Placement.RoutedBy(mapping, routing, e) && Placement.OnLinks(g, routing[e])
    ensures EmbedBuild.EndsApart(g, mapping, routing)
  {
    forall e | e in routing && EmbedBuild.Cross(mapping, e) ensures EmbedBuild.ApartEnds(g, routing[e]) {
      assert Placement.Crossing(mapping, e);
      HostIsCompute(g, mapping, e.0);
      HostIsCompute(g, mapping, e.1);
      if |routing[e]| == 1 {
        assert false;
      }
    }
  }

  function Min(a: nat, b: nat): nat
  {
    if a <= b then a else b
  }

  /** Each part iterated in some order, as `for virtual_node in assigned_virtual_nodes` does. */
  method ListParts(parts: seq<set<NodeId>>) returns (groups: seq<seq<NodeId>>)
    ensures |groups| == |parts| && forall t :: 0 <= t < |parts| ==> Lists(groups[t], parts[t])
  {
    groups := [];
    var t := 0;
    while t < |parts|
      invariant 0 <= t <= |parts| && |groups| == t
      invariant forall s :: 0 <= s < t ==> Lists(groups[s], parts[s])
    {
      var listed := Placement.ListSet(parts[t]);
      groups := groups + [listed];
      t := t + 1;
    }
  }

  /**
   * One attempt with n machines: the parts listed, zipped with the first n
   * machines, routed, then handed to build_solution with its check.
   */
  method TryMachines(v: Virtual.VirtualNet, g: Physical.Network, machines: seq<NodeId>, parts: seq<set<NodeId>>)
    returns (o: Placement.Outcome)
    requires Virtual.Valid(v) && Physical.Valid(g)
    requires forall t :: 0 <= t < |machines| ==> machines[t] in Physical.ComputeNodes(g)
    requires forall t :: 0 <= t < |parts| ==> parts[t] <= NodeSet(v)
    requires g.grouped ==> MachinesApart(g)
    ensures o.Solved? ==> exists order, pathOrder ::
      EmbedVerify.Verified(v, g, o.mapping, order, o.routing, pathOrder)
    ensures o.Solved? ==> forall u :: u in o.mapping ==>
      exists t :: 0 <= t < Min(|machines|, |parts|) && u in parts[t] && o.mapping[u] == machines[t]
    ensures !o.Infeasible?
  {
    var groups := ListParts(parts);
    forall t, u | 0 <= t < |groups| && u in groups[t] ensures u in v.nodes {
      assert u in parts[t];
    }
    o := TryGroups(v, g, machines, groups);
    if o.Solved? {
      forall u | u in o.mapping
        ensures exists t :: 0 <= t < Min(|machines|, |parts|) && u in parts[t] && o.mapping[u] == machines[t]
      {
        var t :| 0 <= t < Min(|machines|, |groups|) && u in groups[t] && o.mapping[u] == machines[t];
        assert u in parts[t];
      }
    }
  }

  /**
   * The body of the `try` of the widening heuristics on listed groups: the
   * (machine, group) zip with its running capacity check, the routing of
   * the sorted links, and build_solution with its check.
   */
  method TryGroups(v: Virtual.VirtualNet, g: Physical.Network, machines: seq<NodeId>, groups: seq<seq<NodeId>>)
    returns (o: Placement.Outcome)
    requires Virtual.Valid(v) && Physical.Valid(g)
    requires forall t :: 0 <= t < |machines| ==> machines[t] in Physical.ComputeNodes(g)
    requires forall t, u :: 0 <= t < |groups| && u in groups[t] ==> u in v.nodes
    requires g.grouped ==> MachinesApart(g)
    ensures o.Solved? ==> exists order, pathOrder ::
      EmbedVerify.Verified(v, g, o.mapping, order, o.routing, pathOrder)
    ensures o.Solved? ==> forall u :: u in o.mapping ==>
      exists t :: 0 <= t < Min(|machines|, |groups|) && u in groups[t] && o.mapping[u] == machines[t]
    ensures !o.Infeasible?
  {
    var placed := Placement.PlaceGroups(v, g, machines, groups);
    if placed.Err? {
      return Placement.Raised(placed.error);
    }
    var mapping := placed.value.0;
    OnPlacedMachines(g, machines, groups, mapping);
    var routed := Placement.RouteLinks(v, g, mapping);
    if routed.Err? {
      return Placement.Raised(routed.error);
    }
    var routing, pathOrder := routed.value.0, routed.value.1;
    if g.grouped {
      RoutesEndApart(g, mapping, routing);
    }
    var built := EmbedBuild.BuildSolution(v, g, mapping, placed.value.1, routing, pathOrder, true);
    match built {
      case Returns(_) => o := Placement.Solved(mapping, routing);
      case Raises(err) => o := Placement.Raised(err);
      case Diverges => o := Placement.Diverges;
    }
  }

  /** A node placed by the zip of machines and groups sits on one of the machines. */
  lemma OnPlacedMachines(g: Physical.Network, machines: seq<NodeId>, groups: seq<seq<NodeId>>, mapping: map<NodeId, NodeId>)
    requires Physical.Valid(g)
    requires forall t :: 0 <= t < |machines| ==> machines[t] in Physical.ComputeNodes(g)
    requires forall u :: u in mapping ==>
      exists t :: 0 <= t < Min(|machines|, |groups|) && u in groups[t] && mapping[u] == machines[t]
    ensures OnMachines(g, mapping) && forall u :: u in mapping ==> mapping[u] in g.adj
  {
    forall u | u in mapping ensures mapping[u] in Physical.ComputeNodes(g) && mapping[u] in g.adj {
      var t :| 0 <= t < Min(|machines|, |groups|) && u in groups[t] && mapping[u] == machines[t];
    }
  }

  /** One round of the widening loop: the cached cut for n, tried on the first n machines. */
  method AttemptCut(v: Virtual.VirtualNet, g: Physical.Network, cache: PartitionCache, bisect: Bisection,
                    machines: seq<NodeId>)
    returns (o: Placement.Outcome)
    requires Virtual.Valid(v) && Physical.Valid(g) && cache.Valid() && IsBisection(bisect)
    requires forall t :: 0 <= t < |machines| ==> machines[t] in Physical.ComputeNodes(g)
    requires g.grouped ==> MachinesApart(g)
    modifies cache
    ensures cache.Valid()
    ensures o.Solved? ==> exists order, pathOrder ::
      EmbedVerify.Verified(v, g, o.mapping, order, o.routing, pathOrder)
    ensures !o.Infeasible?
  {
    var cut := cache.Get(v, |machines|, bisect);
    if cut.Err? {
      return Placement.Raised(cut.error);
    }
    PartsWithin(cut.value, NodeSet(v));
    o := TryMachines(v, g, machines, cut.value);
  }

  /** The exceptions the widening loop swallows before trying one machine more. */
  predicate Retried(err: Error)
  {
    err.NodeResource? || err == NoPathFound
  }

  /**
   * EmbedBalanced.solve: machines sorted by cores * 1000 + memory, largest
   * first; for n from the lower bound up to the number of machines, the
   * cached cut merged to n parts on the first n machines. The first attempt
   * that passes is the solution; NodeResourceError and NoPathFoundError move
   * on to n + 1; Infeasible when every n failed so.
   */
  method SolveBalanced(solver: Placement.EmbedSolver, cache: PartitionCache, bisect: Bisection)
    returns (o: Placement.Outcome, ghost failed: seq<Error>)
    requires Virtual.Valid(solver.virtual) && Physical.Valid(solver.physical)
    requires solver.physical.grouped ==> MachinesApart(solver.physical)
    requires cache.Valid() && IsBisection(bisect)
    modifies solver, cache
    ensures cache.Valid()
    ensures o.Solved? ==> exists order, pathOrder ::
      EmbedVerify.Verified(solver.virtual, solver.physical, o.mapping, order, o.routing, pathOrder)
    ensures o.Raised? ==> !Retried(o.error)
    ensures Physical.ComputeNodes(solver.physical) == {} ==> o == Placement.Raised(ZeroDivision) && failed == []
    ensures forall k :: 0 <= k < |failed| ==> Retried(failed[k])
    ensures o.Solved? ==> (Physical.ComputeNodes(solver.physical) != {} &&
      LowerBound.Value(solver.virtual, solver.physical) + |failed| <= |Physical.ComputeNodes(solver.physical)|)
    ensures o.Infeasible? ==> (Physical.ComputeNodes(solver.physical) != {} &&
      |failed| == LowerBound.Span(LowerBound.Value(solver.virtual, solver.physical), |Physical.ComputeNodes(solver.physical)|))
    ensures o.Solved? || o.Infeasible? ==> solver.status == Placement.StatusOf(o)
    ensures o.Solved? ==> solver.solution == Some((o.mapping, o.routing))
    ensures !(o.Solved? || o.Infeasible?) ==> solver.status == old(solver.status) && solver.solution == old(solver.solution)
  {
    failed := [];
    var v, g := solver.virtual, solver.physical;
    var machines := Placement.SortedMachines(g, Placement.ResourceKey(g));
    var bound := solver.LowerBoundOf();
    if bound.Err? {
      return Placement.Raised(bound.error), failed;
    }
    var lb := bound.value;
    var n := lb;
    while n <= |machines|
      invariant n == lb + |failed| && (failed == [] || n <= |machines| + 1)
      invariant forall k :: 0 <= k < |failed| ==> Retried(failed[k])
      invariant cache.Valid()
      invariant solver.status == old(solver.status) && solver.solution == old(solver.solution)
      decreases |machines| + 1 - n
    {
      var attempt := AttemptCut(v, g, cache, bisect, machines[..n]);
      if attempt.Solved? {
        solver.Record(attempt);
        return attempt, failed;
      }
      if attempt.Diverges? || !Retried(attempt.error) {
        return attempt, failed;
      }
      failed := failed + [attempt.error];
      n := n + 1;
    }
    o := Placement.Infeasible;
    solver.Record(o);
  }

  lemma PartsWithin(parts: seq<set<NodeId>>, s: set<NodeId>)
    requires Partitions(parts, s)
    ensures forall t :: 0 <= t < |parts| ==> parts[t] <= s
  {
    forall t | 0 <= t < |parts| ensures parts[t] <= s {
      PartInUnion(parts, t);
    }
  }
}
