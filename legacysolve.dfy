/**
 * The widening loops built on partitions: the current library's
 * EmbedPartition, the mapping revision's EmbedBalanced and EmbedPartition,
 * and the grid5000 revision's two EmbedHeu heuristics. Each tries
 * n = lower bound, ..., number of compute nodes: cut the virtual nodes into
 * at most n groups, put group t on machine t, route the links, and go on
 * to n + 1 when a machine or a link is over capacity.
 *
 * random.shuffle and random.sample are oracles: `shuffle(n)` and `picks(n)`
 * are what get_partitions draws on its call for n groups, `sample(n)` the n
 * machines drawn on that turn.
 */
module LegacySolve {
  import opened Common
  import Physical
  import Virtual
  import Placement
  import KBalanced
  import SwapPartition
  import MemoPath
  import PairRouting
  import FractionVerify
  import Ungroup
  import LowerBound
  import EmbedVerify

  /** random.sample(compute_nodes, k=n): n different compute nodes. */
  ghost predicate Samples(g: Physical.Network, sample: nat -> seq<NodeId>)
  {
    forall n: nat :: n <= |Physical.ComputeNodes(g)| ==>
      (|sample(n)| == n && Distinct(sample(n)) &&
       forall t :: 0 <= t < n ==> sample(n)[t] in Physical.ComputeNodes(g))
  }

  /** The shuffled node list and the NSwaps pairs of get_partitions' call for n groups. */
  ghost predicate Draws(v: Virtual.VirtualNet, shuffle: nat -> seq<NodeId>, picks: nat -> seq<(NodeId, NodeId)>)
  {
    forall n: nat :: SwapPartition.Shuffled(v, shuffle(n)) && |picks(n)| == SwapPartition.NSwaps &&
      (|shuffle(n)| >= 2 ==> forall k :: 0 <= k < |picks(n)| ==> SwapPartition.Drawn(shuffle(n), picks(n)[k]))
  }

  /** The exceptions the older attempts catch: NodeResourceError and LinkCapacityError. */
  predicate Caught(err: Error)
  {
    err.NodeResource? || err == LinkCapacity
  }

  /** The groups hold exactly the virtual nodes. */
  ghost predicate Covering(v: Virtual.VirtualNet, groups: seq<seq<NodeId>>)
  {
    forall u :: u in v.nodes <==> exists t :: 0 <= t < |groups| && u in groups[t]
  }

  /** Groups listing the parts of a partition of the virtual nodes hold exactly those nodes. */
  lemma ListedCover(v: Virtual.VirtualNet, parts: seq<set<NodeId>>, groups: seq<seq<NodeId>>)
    requires KBalanced.Partitions(parts, KBalanced.NodeSet(v))
    requires |groups| == |parts| && forall t :: 0 <= t < |parts| ==> Lists(groups[t], parts[t])
    ensures Covering(v, groups)
  {
    forall u ensures u in v.nodes <==> exists t :: 0 <= t < |groups| && u in groups[t] {
      KBalanced.InUnion(parts, u);
      if exists t :: 0 <= t < |groups| && u in groups[t] {
        var t :| 0 <= t < |groups| && u in groups[t];
        assert u in parts[t];
      }
      if u in v.nodes {
        assert u in KBalanced.NodeSet(v);
        var t :| 0 <= t < |parts| && u in parts[t];
        assert u in groups[t];
      }
    }
  }

  /** Bins that together are a shuffled node list hold exactly the virtual nodes. */
  lemma FlattenedCover(v: Virtual.VirtualNet, order: seq<NodeId>, groups: seq<seq<NodeId>>)
    requires SwapPartition.Shuffled(v, order) && multiset(SwapPartition.Flatten(groups)) == multiset(order)
    ensures Covering(v, groups)
  {
    forall u ensures u in v.nodes <==> exists t :: 0 <= t < |groups| && u in groups[t] {
      SwapPartition.InFlatten(groups, u);
      assert u in SwapPartition.Flatten(groups) <==> u in multiset(SwapPartition.Flatten(groups));
      assert u in order <==> u in multiset(order);
    }
  }

  /**
   * get_partitions on its call for n bins: the bins hold the virtual nodes,
   * one bin per number below n at most; random.sample of two nodes fails
   * unless there are at least two.
   */
  method DrawPartitions(v: Virtual.VirtualNet, n: nat, shuffle: nat -> seq<NodeId>, picks: nat -> seq<(NodeId, NodeId)>)
    returns (r: Result<seq<seq<NodeId>>>)
    requires Virtual.Valid(v) && Draws(v, shuffle, picks)
    ensures r.Err? ==> r.error in {ZeroDivision, ValueError}
    ensures r.Err? <==> |v.nodes| < 2 || n == 0
    ensures r.Ok? ==> |r.value| <= n && Covering(v, r.value)
    ensures r.Ok? ==> forall t, u :: 0 <= t < |r.value| && u in r.value[t] ==> u in v.nodes
  {
    var order := shuffle(n);
    assert SwapPartition.Shuffled(v, order) && |picks(n)| == SwapPartition.NSwaps;
    SameCount(v, order);
    r := SwapPartition.GetPartitions(v, n, order, picks(n));
    if r.Ok? {
      FlattenedCover(v, order, r.value);
    }
  }

  /** A shuffle of the virtual nodes is as long as their list. */
  lemma SameCount(v: Virtual.VirtualNet, order: seq<NodeId>)
    requires Virtual.Valid(v) && SwapPartition.Shuffled(v, order)
    ensures |order| == |v.nodes|
  {
    SetSize(v.nodes);
    SetSize(order);
    var listed, nodes := set x | x in order, set x | x in v.nodes;
    assert forall x :: x in listed <==> x in nodes;
    assert listed == nodes;
  }

  /** A list without repeats has as many elements as its set. */
  lemma {:induction false} SetSize(s: seq<NodeId>)
    requires Distinct(s)
    ensures |set x | x in s| == |s|
  {
    if |s| > 0 {
      var init := s[..|s| - 1];
      SetSize(init);
      assert (set x | x in s) == (set x | x in init) + {s[|s| - 1]};
    }
  }

  /** Placement by the zip of machines and groups, when the groups cover the nodes and are no more than the machines. */
  lemma PlacedAll(v: Virtual.VirtualNet, machines: seq<NodeId>, groups: seq<seq<NodeId>>, mapping: map<NodeId, NodeId>)
    requires Covering(v, groups) && |groups| <= |machines|
    requires forall u :: u in mapping <==> exists t :: 0 <= t < KBalanced.Min(|machines|, |groups|) && u in groups[t]
    ensures forall u :: u in mapping <==> u in v.nodes
  {
    assert KBalanced.Min(|machines|, |groups|) == |groups|;
  }

  /*
   * The current library's EmbedPartition.
   */

  /**
   * EmbedPartition.solve: machines largest first, get_partitions for n bins
   * (its errors are not caught), then the same attempt as EmbedBalanced's on
   * the first n machines; NodeResourceError and NoPathFoundError move on to n + 1.
   */
  method SolvePartition(solver: Placement.EmbedSolver, shuffle: nat -> seq<NodeId>, picks: nat -> seq<(NodeId, NodeId)>)
    returns (o: Placement.Outcome, ghost failed: seq<Error>)
    requires Virtual.Valid(solver.virtual) && Physical.Valid(solver.physical)
    requires solver.physical.grouped ==> KBalanced.MachinesApart(solver.physical)
    requires Draws(solver.virtual, shuffle, picks)
    modifies solver
    ensures o.Solved? ==> exists order, pathOrder ::
      EmbedVerify.Verified(solver.virtual, solver.physical, o.mapping, order, o.routing, pathOrder)
    ensures o.Solved? ==> |solver.virtual.nodes| >= 2
    ensures o.Raised? ==> !KBalanced.Retried(o.error)
    ensures Physical.ComputeNodes(solver.physical) == {} ==> o == Placement.Raised(ZeroDivision) && failed == []
    ensures forall k :: 0 <= k < |failed| ==> KBalanced.Retried(failed[k])
    ensures o.Solved? ==> (Physical.ComputeNodes(solver.physical) != {} &&
      LowerBound.Value(solver.virtual, solver.physical) + |failed| <= |Physical.ComputeNodes(solver.physical)|)
    ensures o.Infeasible? ==> (Physical.ComputeNodes(solver.physical) != {} &&
      |failed| == LowerBound.Span(LowerBound.Value(solver.virtual, solver.physical), |Physical.ComputeNodes(solver.physical)|))
    ensures o.Solved? || o.Infeasible? ==> solver.status == Placement.StatusOf(o)
    ensures o.Solved? ==> solver.solution == Some((o.mapping, o.routing))
    ensures !(o.Solved? || o.Infeasible?) ==> solver.status == old(solver.status) && solver.solution == old(solver.solution)
  {
    var v, g := solver.virtual, solver.physical;
    failed := [];
    var machines := Placement.SortedMachines(g, Placement.ResourceKey(g));
    var bound := solver.LowerBoundOf();
    if bound.Err? {
      return Placement.Raised(bound.error), failed;
    }
    var lb := bound.value;
    var n := lb;
    while n <= |machines|
      invariant n == lb + |failed| && (failed == [] || n <= |machines| + 1)
      invariant forall k :: 0 <= k < |failed| ==> KBalanced.Retried(failed[k])
      invariant solver.status == old(solver.status) && solver.solution == old(solver.solution)
      decreases |machines| + 1 - n
    {
      var groups := DrawPartitions(v, n, shuffle, picks);
      if groups.Err? {
        return Placement.Raised(groups.error), failed;
      }
      var attempt := KBalanced.TryGroups(v, g, machines[..n], groups.value);
      if attempt.Solved? {
        solver.Record(attempt);
        return attempt, failed;
      }
      if attempt.Diverges? || !KBalanced.Retried(attempt.error) {
        return attempt, failed;
      }
      failed := failed + [attempt.error];
      n := n + 1;
    }
    o := Placement.Infeasible;
    solver.Record(o);
  }

  /*
   * The mapping revision: random machines and links routed in sorted order.
   * Its solve also calls build_solution inside the same try; that step is
   * not part of this model.
   */

  /** One attempt of the mapping revision: group t on machine t, then the sorted links over the memoised paths. */
  method MappingAttempt(test: PairRouting.Test, v: Virtual.VirtualNet, g: Physical.Network, paths: MemoPath.PathCache,
                        machines: seq<NodeId>, groups: seq<seq<NodeId>>)
    returns (o: Placement.Outcome)
    requires Virtual.Valid(v) && Physical.Valid(g) && paths.Valid() && paths.g == g
    requires forall t :: 0 <= t < |machines| ==> machines[t] in Physical.ComputeNodes(g)
    requires forall t, u :: 0 <= t < |groups| && u in groups[t] ==> u in v.nodes
    modifies paths
    ensures paths.Valid()
    ensures o.Solved? || o.Raised?
    ensures o.Raised? ==> o.error.NodeResource? || o.error in {KeyError, ValueError, LinkCapacity}
    ensures o.Solved? ==> forall u :: u in o.mapping <==>
      exists t :: 0 <= t < KBalanced.Min(|machines|, |groups|) && u in groups[t]
    ensures o.Solved? ==> forall u :: u in o.mapping ==>
      exists t :: 0 <= t < KBalanced.Min(|machines|, |groups|) && u in groups[t] && o.mapping[u] == machines[t]
    ensures o.Solved? ==> KBalanced.OnMachines(g, o.mapping) && PairRouting.Routed(v, g, o.mapping, o.routing)
    ensures o.Solved? ==> PairRouting.BookedWithin(test, v, g, o.mapping, o.routing)
    ensures o.Raised? && o.error == LinkCapacity ==>
      exists mapping, trail, stuck :: PairRouting.Stuck(test, v, g, mapping, paths.computed, trail, stuck) &&
        forall u :: u in mapping ==>
          exists t :: 0 <= t < KBalanced.Min(|machines|, |groups|) && u in groups[t] && mapping[u] == machines[t]
  {
    var placed := Placement.PlaceGroups(v, g, machines, groups);
    if placed.Err? {
      return Placement.Raised(placed.error);
    }
    var mapping := placed.value.0;
    KBalanced.OnPlacedMachines(g, machines, groups, mapping);
    var routed, trail, stuck := PairRouting.RouteSorted(test, v, g, paths, mapping);
    if routed.Err? {
      return Placement.Raised(routed.error);
    }
    o := Placement.Solved(mapping, routed.value.0);
  }

  /**
   * The start of each try of the k-balanced heuristics: the cached cut of
   * the virtual nodes for n, listed as groups, and n sampled machines.
   */
  method CutAndSample(v: Virtual.VirtualNet, g: Physical.Network, cache: KBalanced.PartitionCache,
                      bisect: KBalanced.Bisection, sample: nat -> seq<NodeId>, n: nat)
    returns (r: Result<(seq<NodeId>, seq<seq<NodeId>>)>)
    requires cache.Valid() && KBalanced.IsBisection(bisect) && Samples(g, sample) && n <= |Physical.ComputeNodes(g)|
    modifies cache
    ensures cache.Valid()
    ensures r.Err? ==> r.error == ZeroDivision || r.error == IndexError
    ensures r.Ok? ==> r.value.0 == sample(n) && |r.value.1| <= n && Covering(v, r.value.1)
    ensures r.Ok? ==> forall t, u :: 0 <= t < |r.value.1| && u in r.value.1[t] ==> u in v.nodes
  {
    var cut := cache.Get(v, n, bisect);
    if cut.Err? {
      return Err(cut.error);
    }
    var groups := KBalanced.ListParts(cut.value);
    KBalanced.PartsWithin(cut.value, KBalanced.NodeSet(v));
    ListedCover(v, cut.value, groups);
    r := Ok((sample(n), groups));
  }

  /**
   * EmbedBalanced.solve of the mapping revision: the cached k-balanced cut
   * for n, n random machines, and the attempt; NodeResourceError and
   * LinkCapacityError move on to n + 1.
   */
  method MappingBalanced(solver: Placement.EmbedSolver, cache: KBalanced.PartitionCache, bisect: KBalanced.Bisection,
                         paths: MemoPath.PathCache, sample: nat -> seq<NodeId>)
    returns (o: Placement.Outcome, ghost failed: seq<Error>)
    requires Virtual.Valid(solver.virtual) && Physical.Valid(solver.physical)
    requires cache.Valid() && KBalanced.IsBisection(bisect)
    requires cache.threshold == KBalanced.Quotient && !cache.ascending
    requires paths.Valid() && paths.g == solver.physical && Samples(solver.physical, sample)
    modifies solver, cache, paths
    ensures cache.Valid() && paths.Valid()
    ensures o.Solved? ==> forall u :: u in o.mapping <==> u in solver.virtual.nodes
    ensures o.Solved? ==> KBalanced.OnMachines(solver.physical, o.mapping)
    ensures o.Solved? ==> PairRouting.Routed(solver.virtual, solver.physical, o.mapping, o.routing)
    ensures o.Solved? ==> PairRouting.BookedWithin(PairRouting.NotTruthy, solver.virtual, solver.physical, o.mapping, o.routing)
    ensures o.Raised? ==> !Caught(o.error)
    ensures Physical.ComputeNodes(solver.physical) == {} ==> o == Placement.Raised(ZeroDivision) && failed == []
    ensures forall k :: 0 <= k < |failed| ==> Caught(failed[k])
    ensures o.Solved? ==> (Physical.ComputeNodes(solver.physical) != {} &&
      LowerBound.Value(solver.virtual, solver.physical) + |failed| <= |Physical.ComputeNodes(solver.physical)|)
    ensures o.Infeasible? ==> (Physical.ComputeNodes(solver.physical) != {} &&
      |failed| == LowerBound.Span(LowerBound.Value(solver.virtual, solver.physical), |Physical.ComputeNodes(solver.physical)|))
    ensures !o.Diverges?
    ensures o.Solved? || o.Infeasible? ==> solver.status == Placement.StatusOf(o)
    ensures o.Solved? ==> solver.solution == Some((o.mapping, o.routing))
    ensures !(o.Solved? || o.Infeasible?) ==> solver.status == old(solver.status) && solver.solution == old(solver.solution)
  {
    var v, g := solver.virtual, solver.physical;
    failed := [];
    var bound := solver.LowerBoundOf();
    if bound.Err? {
      return Placement.Raised(bound.error), failed;
    }
    var lb := bound.value;
    var n := lb;
    while n <= |Physical.ComputeNodes(g)|
      invariant n == lb + |failed| && (failed == [] || n <= |Physical.ComputeNodes(g)| + 1)
      invariant forall k :: 0 <= k < |failed| ==> Caught(failed[k])
      invariant cache.Valid() && paths.Valid()
      invariant solver.status == old(solver.status) && solver.solution == old(solver.solution)
      decreases |Physical.ComputeNodes(g)| + 1 - n
    {
      var drawn := CutAndSample(v, g, cache, bisect, sample, n);
      if drawn.Err? {
        return Placement.Raised(drawn.error), failed;
      }
      var (machines, groups) := drawn.value;
      var attempt := MappingAttempt(PairRouting.NotTruthy, v, g, paths, machines, groups);
      if attempt.Solved? {
        PlacedAll(v, machines, groups, attempt.mapping);
        solver.Record(attempt);
        return attempt, failed;
      }
      if !Caught(attempt.error) {
        return attempt, failed;
      }
      failed := failed + [attempt.error];
      n := n + 1;
    }
    o := Placement.Infeasible;
    solver.Record(o);
  }

  /**
   * EmbedPartition.solve of the mapping revision: get_partitions for n bins
   * (its errors are not caught), n random machines, and the same attempt.
   */
  method MappingPartition(solver: Placement.EmbedSolver, paths: MemoPath.PathCache, sample: nat -> seq<NodeId>,
                          shuffle: nat -> seq<NodeId>, picks: nat -> seq<(NodeId, NodeId)>)
    returns (o: Placement.Outcome, ghost failed: seq<Error>)
    requires Virtual.Valid(solver.virtual) && Physical.Valid(solver.physical)
    requires paths.Valid() && paths.g == solver.physical && Samples(solver.physical, sample)
    requires Draws(solver.virtual, shuffle, picks)
    modifies solver, paths
    ensures paths.Valid()
    ensures o.Solved? ==> forall u :: u in o.mapping <==> u in solver.virtual.nodes
    ensures o.Solved? ==> |solver.virtual.nodes| >= 2
    ensures o.Solved? ==> KBalanced.OnMachines(solver.physical, o.mapping)
    ensures o.Solved? ==> PairRouting.Routed(solver.virtual, solver.physical, o.mapping, o.routing)
    ensures o.Solved? ==> PairRouting.BookedWithin(PairRouting.IsNone, solver.virtual, solver.physical, o.mapping, o.routing)
    ensures o.Raised? ==> !Caught(o.error)
    ensures Physical.ComputeNodes(solver.physical) == {} ==> o == Placement.Raised(ZeroDivision) && failed == []
    ensures forall k :: 0 <= k < |failed| ==> Caught(failed[k])
    ensures o.Solved? ==> (Physical.ComputeNodes(solver.physical) != {} &&
      LowerBound.Value(solver.virtual, solver.physical) + |failed| <= |Physical.ComputeNodes(solver.physical)|)
    ensures o.Infeasible? ==> (Physical.ComputeNodes(solver.physical) != {} &&
      |failed| == LowerBound.Span(LowerBound.Value(solver.virtual, solver.physical), |Physical.ComputeNodes(solver.physical)|))
    ensures !o.Diverges?
    ensures o.Solved? || o.Infeasible? ==> solver.status == Placement.StatusOf(o)
    ensures o.Solved? ==> solver.solution == Some((o.mapping, o.routing))
    ensures !(o.Solved? || o.Infeasible?) ==> solver.status == old(solver.status) && solver.solution == old(solver.solution)
  {
    var v, g := solver.virtual, solver.physical;
    failed := [];
    var bound := solver.LowerBoundOf();
    if bound.Err? {
      return Placement.Raised(bound.error), failed;
    }
    var lb := bound.value;
    var n := lb;
    while n <= |Physical.ComputeNodes(g)|
      invariant n == lb + |failed| && (failed == [] || n <= |Physical.ComputeNodes(g)| + 1)
      invariant forall k :: 0 <= k < |failed| ==> Caught(failed[k])
      invariant paths.Valid()
      invariant solver.status == old(solver.status) && solver.solution == old(solver.solution)
      decreases |Physical.ComputeNodes(g)| + 1 - n
    {
      var groups := DrawPartitions(v, n, shuffle, picks);
      if groups.Err? {
        return Placement.Raised(groups.error), failed;
      }
      var machines := sample(n);
      var attempt := MappingAttempt(PairRouting.IsNone, v, g, paths, machines, groups.value);
      if attempt.Solved? {
        PlacedAll(v, machines, groups.value, attempt.mapping);
        solver.Record(attempt);
        return attempt, failed;
      }
      if !Caught(attempt.error) {
        return attempt, failed;
      }
      failed := failed + [attempt.error];
      n := n + 1;
    }
    o := Placement.Infeasible;
    solver.Record(o);
  }

  /*
   * The grid5000 revision: one entry per link, ungrouped onto the real
   * interfaces, and the number of machines returned with the solution.
   */

  /**
   * Every crossing virtual link is carried by entries that leave u's machine,
   * reach v's machine and add up to the whole rate; over grouped interfaces
   * this is promised for links of positive rate, whose ungrouped entries are
   * the only ones recorded.
   */
  ghost predicate GridSpread(v: Virtual.VirtualNet, g: Physical.Network, mapping: map<NodeId, NodeId>, lm: FractionVerify.Entries)
  {
    forall t :: 0 <= t < |v.links| ==> (v.links[t].u in mapping && v.links[t].v in mapping &&
      (FractionVerify.CrossAt(v, mapping, t) && (!g.grouped || FractionVerify.LinkRate(v, t) > 0) ==>
        FractionVerify.Edge(v.links[t]) in lm &&
        FractionVerify.Spread(lm[FractionVerify.Edge(v.links[t])], mapping[v.links[t].u], mapping[v.links[t].v])))
  }

  /** The ungrouped entries of spread grouped entries are spread. */
  lemma UngroupedSpread(v: Virtual.VirtualNet, g: Physical.Network, mapping: map<NodeId, NodeId>,
                        lm: FractionVerify.Entries, out: FractionVerify.Entries)
    requires g.grouped && FractionVerify.AllSpread(v, mapping, lm)
    requires FractionVerify.LinksMapped(FractionVerify.WholeShares, v, g, mapping, lm, out)
    ensures GridSpread(v, g, mapping, out)
  {
    forall t | 0 <= t < |v.links| && FractionVerify.CrossAt(v, mapping, t) && FractionVerify.LinkRate(v, t) > 0
      ensures FractionVerify.Spread(out[FractionVerify.Edge(v.links[t])], mapping[v.links[t].u], mapping[v.links[t].v])
    {
      var e := FractionVerify.Edge(v.links[t]);
      FractionVerify.WholeSpreads(g, lm[e], FractionVerify.LinkRate(v, t), out[e], mapping[v.links[t].u], mapping[v.links[t].v]);
    }
  }

  /**
   * One attempt of the grid5000 revision: group t on machine t, one entry
   * per crossing link over the per-attempt path memo, then, over grouped
   * interfaces, the entries spread over the real interfaces.
   */
  method GridAttempt(v: Virtual.VirtualNet, g: Physical.Network, paths: MemoPath.PathCache,
                     machines: seq<NodeId>, groups: seq<seq<NodeId>>)
    returns (r: Ungroup.Run<(map<NodeId, NodeId>, FractionVerify.Entries)>)
    requires Virtual.Valid(v) && Physical.Valid(g) && paths.Valid() && paths.g == g
    requires g.grouped ==> KBalanced.MachinesApart(g)
    requires forall t :: 0 <= t < |machines| ==> machines[t] in Physical.ComputeNodes(g)
    requires forall t, u :: 0 <= t < |groups| && u in groups[t] ==> u in v.nodes
    modifies paths
    ensures paths.Valid()
    ensures r.Raises? ==> r.error.NodeResource? || r.error in {KeyError, TypeError, LinkCapacity, IndexError, ValueError}
    ensures r.Returns? ==> forall u :: u in r.value.0 <==>
      exists t :: 0 <= t < KBalanced.Min(|machines|, |groups|) && u in groups[t]
    ensures r.Returns? ==> forall u :: u in r.value.0 ==>
      exists t :: 0 <= t < KBalanced.Min(|machines|, |groups|) && u in groups[t] && r.value.0[u] == machines[t]
    ensures r.Returns? ==> KBalanced.OnMachines(g, r.value.0) && GridSpread(v, g, r.value.0, r.value.1)
    ensures r.Returns? ==> PairRouting.GridBookedWithin(v, g, r.value.0)
    ensures r == Ungroup.Raises(LinkCapacity) ==>
      exists mapping, trail, stuck :: PairRouting.GridStuck(v, g, mapping, trail, stuck) &&
        forall u :: u in mapping ==>
          exists t :: 0 <= t < KBalanced.Min(|machines|, |groups|) && u in groups[t] && mapping[u] == machines[t]
  {
    var placed := Placement.PlaceGroups(v, g, machines, groups);
    if placed.Err? {
      return Ungroup.Raises(placed.error);
    }
    var mapping := placed.value.0;
    KBalanced.OnPlacedMachines(g, machines, groups, mapping);
    var lm := GridRoute(v, g, paths, mapping);
    match lm {
      case Returns(out) =>
        r := Ungroup.Returns((mapping, out));
      case Raises(err) =>
        r := Ungroup.Raises(err);
      case Diverges =>
        r := Ungroup.Diverges;
    }
  }

  /**
   * The links of one grid5000 attempt on a placement: the link loop, then,
   * when interfaces are grouped, map_to_multiple_interfaces.
   */
  method GridRoute(v: Virtual.VirtualNet, g: Physical.Network, paths: MemoPath.PathCache, mapping: map<NodeId, NodeId>)
    returns (r: Ungroup.Run<FractionVerify.Entries>)
    requires Virtual.Valid(v) && Physical.Valid(g) && paths.Valid() && paths.g == g
    requires g.grouped ==> KBalanced.MachinesApart(g)
    requires KBalanced.OnMachines(g, mapping)
    modifies paths
    ensures paths.Valid()
    ensures r.Raises? ==> r.error in {KeyError, TypeError, LinkCapacity, IndexError, ValueError}
    ensures r.Returns? ==> GridSpread(v, g, mapping, r.value) && PairRouting.GridBookedWithin(v, g, mapping)
    ensures r == Ungroup.Raises(LinkCapacity) ==> exists trail, stuck :: PairRouting.GridStuck(v, g, mapping, trail, stuck)
  {
    var routed, trail, stuck := PairRouting.RouteGrid(v, g, paths, mapping);
    if routed.Err? {
      return Ungroup.Raises(routed.error);
    }
    var lm := routed.value.0;
    if !g.grouped {
      return Ungroup.Returns(lm);
    }
    var run := FractionVerify.MapWhole(v, g, mapping, lm);
    match run {
      case Returns(out) =>
        UngroupedSpread(v, g, mapping, lm, out);
        r := Ungroup.Returns(out);
      case Raises(err) =>
        r := Ungroup.Raises(err);
      case Diverges =>
        r := Ungroup.Diverges;
    }
  }

  /** What a grid5000 heuristic returns: n and a placement of every node on compute nodes, its links spread and booked within every rate. */
  ghost predicate GridSolved(v: Virtual.VirtualNet, g: Physical.Network, lb: int,
                             s: (nat, map<NodeId, NodeId>, FractionVerify.Entries))
  {
    lb <= s.0 <= |Physical.ComputeNodes(g)| &&
    (forall u :: u in s.1 <==> u in v.nodes) &&
    KBalanced.OnMachines(g, s.1) && GridSpread(v, g, s.1, s.2) && PairRouting.GridBookedWithin(v, g, s.1)
  }

  /** The attempt for n machines holding groups that cover the virtual nodes: a return is a grid5000 solution for n. */
  method GridTry(v: Virtual.VirtualNet, g: Physical.Network, paths: MemoPath.PathCache,
                 machines: seq<NodeId>, groups: seq<seq<NodeId>>, ghost lb: int, n: nat)
    returns (r: Ungroup.Run<(map<NodeId, NodeId>, FractionVerify.Entries)>)
    requires Virtual.Valid(v) && Physical.Valid(g) && paths.Valid() && paths.g == g
    requires g.grouped ==> KBalanced.MachinesApart(g)
    requires forall t :: 0 <= t < |machines| ==> machines[t] in Physical.ComputeNodes(g)
    requires forall t, u :: 0 <= t < |groups| && u in groups[t] ==> u in v.nodes
    requires Covering(v, groups) && |groups| <= n == |machines| && lb <= n <= |Physical.ComputeNodes(g)|
    modifies paths
    ensures paths.Valid()
    ensures r.Raises? ==> r.error.NodeResource? || r.error in {KeyError, TypeError, LinkCapacity, IndexError, ValueError}
    ensures r.Returns? ==> GridSolved(v, g, lb, (n, r.value.0, r.value.1))
  {
    r := GridAttempt(v, g, paths, machines, groups);
    if r.Returns? {
      PlacedAll(v, machines, groups, r.value.0);
    }
  }

  /**
   * EmbedHeu.__call__ of heuristic.py: the cached k-balanced cut for n and
   * n random machines; InfeasibleError once every n failed.
   */
  method GridBalanced(v: Virtual.VirtualNet, g: Physical.Network, cache: KBalanced.PartitionCache,
                      bisect: KBalanced.Bisection, paths: MemoPath.PathCache, sample: nat -> seq<NodeId>)
    returns (r: Ungroup.Run<(nat, map<NodeId, NodeId>, FractionVerify.Entries)>, ghost failed: seq<Error>)
    requires Virtual.Valid(v) && Physical.Valid(g)
    requires g.grouped ==> KBalanced.MachinesApart(g)
    requires cache.Valid() && KBalanced.IsBisection(bisect)
    requires cache.threshold == KBalanced.Quotient && cache.ascending
    requires paths.Valid() && paths.g == g && Samples(g, sample)
    modifies cache, paths
    ensures cache.Valid() && paths.Valid()
    ensures Physical.ComputeNodes(g) == {} ==> r == Ungroup.Raises(ZeroDivision) && failed == []
    ensures forall k :: 0 <= k < |failed| ==> Caught(failed[k])
    ensures r.Returns? ==> (Physical.ComputeNodes(g) != {} && GridSolved(v, g, LowerBound.Value(v, g), r.value) &&
      r.value.0 == LowerBound.Value(v, g) + |failed|)
    ensures r == Ungroup.Raises(InfeasibleInstance) ==> (Physical.ComputeNodes(g) != {} &&
      |failed| == LowerBound.Span(LowerBound.Value(v, g), |Physical.ComputeNodes(g)|))
    ensures r.Raises? ==> !Caught(r.error)
  {
    failed := [];
    var bound := LowerBound.GetLowerBound(v, g);
    if bound.Err? {
      return Ungroup.Raises(bound.error), failed;
    }
    var lb: nat := bound.value;
    var n: nat := lb;
    while n <= |Physical.ComputeNodes(g)|
      invariant n == lb + |failed| && (failed == [] || n <= |Physical.ComputeNodes(g)| + 1)
      invariant forall k :: 0 <= k < |failed| ==> Caught(failed[k])
      invariant cache.Valid() && paths.Valid()
      decreases |Physical.ComputeNodes(g)| + 1 - n
    {
      var drawn := CutAndSample(v, g, cache, bisect, sample, n);
      if drawn.Err? {
        return Ungroup.Raises(drawn.error), failed;
      }
      var (machines, groups) := drawn.value;
      var attempt := GridTry(v, g, paths, machines, groups, lb, n);
      match attempt {
        case Returns(s) =>
          return Ungroup.Returns((n, s.0, s.1)), failed;
        case Diverges =>
          return Ungroup.Diverges, failed;
        case Raises(err) =>
          if !Caught(err) {
            return Ungroup.Raises(err), failed;
          }
          failed := failed + [err];
      }
      n := n + 1;
    }
    r := Ungroup.Raises(InfeasibleInstance);
  }

  /**
   * EmbedHeu.__call__ of heuristic2.py: get_partitions for n bins (its errors
   * are not caught) and n random machines; InfeasibleError once every n failed.
   */
  method GridPartition(v: Virtual.VirtualNet, g: Physical.Network, paths: MemoPath.PathCache, sample: nat -> seq<NodeId>,
                       shuffle: nat -> seq<NodeId>, picks: nat -> seq<(NodeId, NodeId)>)
    returns (r: Ungroup.Run<(nat, map<NodeId, NodeId>, FractionVerify.Entries)>, ghost failed: seq<Error>)
    requires Virtual.Valid(v) && Physical.Valid(g)
    requires g.grouped ==> KBalanced.MachinesApart(g)
    requires paths.Valid() && paths.g == g && Samples(g, sample)
    requires Draws(v, shuffle, picks)
    modifies paths
    ensures paths.Valid()
    ensures Physical.ComputeNodes(g) == {} ==> r == Ungroup.Raises(ZeroDivision) && failed == []
    ensures forall k :: 0 <= k < |failed| ==> Caught(failed[k])
    ensures r.Returns? ==> (Physical.ComputeNodes(g) != {} && GridSolved(v, g, LowerBound.Value(v, g), r.value) &&
      r.value.0 == LowerBound.Value(v, g) + |failed|)
    ensures r == Ungroup.Raises(InfeasibleInstance) ==> (Physical.ComputeNodes(g) != {} &&
      |failed| == LowerBound.Span(LowerBound.Value(v, g), |Physical.ComputeNodes(g)|))
    ensures r.Returns? ==> |v.nodes| >= 2
    ensures r.Raises? ==> !Caught(r.error)
  {
    failed := [];
    var bound := LowerBound.GetLowerBound(v, g);
    if bound.Err? {
      return Ungroup.Raises(bound.error), failed;
    }
    var lb: nat := bound.value;
    var n: nat := lb;
    while n <= |Physical.ComputeNodes(g)|
      invariant n == lb + |failed| && (failed == [] || n <= |Physical.ComputeNodes(g)| + 1)
      invariant forall k :: 0 <= k < |failed| ==> Caught(failed[k])
      invariant paths.Valid()
      decreases |Physical.ComputeNodes(g)| + 1 - n
    {
      var groups := DrawPartitions(v, n, shuffle, picks);
      if groups.Err? {
        return Ungroup.Raises(groups.error), failed;
      }
      var machines := sample(n);
      var attempt := GridTry(v, g, paths, machines, groups.value, lb, n);
      match attempt {
        case Returns(s) =>
          return Ungroup.Returns((n, s.0, s.1)), failed;
        case Diverges =>
          return Ungroup.Diverges, failed;
        case Raises(err) =>
          if !Caught(err) {
            return Ungroup.Raises(err), failed;
          }
          failed := failed + [err];
      }
      n := n + 1;
    }
    r := Ungroup.Raises(InfeasibleInstance);
  }
}
