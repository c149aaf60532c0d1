/**
 * The lower bound on the number of physical machines a placement needs:
 * the total demand of the virtual nodes for each resource, divided by the
 * largest capacity any compute node offers for it, rounded up.
 */
module LowerBound {
  import opened Common
  import Virtual
  import Physical

  /** The demand of a virtual node for a resource. */
  function Demand(v: Virtual.VirtualNet, res: Resource, n: NodeId): nat
  {
    if res == Cores then (if n in v.cores then v.cores[n] else 0)
    else (if n in v.memory then v.memory[n] else 0)
  }

  /** The capacity of a physical node for a resource (0 when the attribute is missing). */
  function Capacity(g: Physical.Network, res: Resource, n: NodeId): nat
  {
    if res == Cores then Physical.Cores(g, n) else Physical.Memory(g, n)
  }

  /** The demand of the listed virtual nodes. */
  function DemandOf(v: Virtual.VirtualNet, res: Resource, nodes: seq<NodeId>): nat
  {
    if |nodes| == 0 then 0 else DemandOf(v, res, nodes[..|nodes| - 1]) + Demand(v, res, nodes[|nodes| - 1])
  }

  function Total(v: Virtual.VirtualNet, res: Resource): nat
  {
    DemandOf(v, res, v.nodes)
  }

  /** m is the largest capacity for res among the nodes of s. */
  ghost predicate IsMaxIn(g: Physical.Network, res: Resource, s: set<NodeId>, m: nat)
  {
    (forall n :: n in s ==> Capacity(g, res, n) <= m) && (exists n :: n in s && Capacity(g, res, n) == m)
  }

  lemma {:induction false} MaxExists(g: Physical.Network, res: Resource, s: set<NodeId>)
    requires s != {}
    ensures exists m :: IsMaxIn(g, res, s, m)
    decreases |s|
  {
    NonEmptyHasNode(s);
    var x :| x in s;
    if s - {x} == {} {
      assert s == {x};
      assert IsMaxIn(g, res, s, Capacity(g, res, x));
    } else {
      MaxExists(g, res, s - {x});
      var m :| IsMaxIn(g, res, s - {x}, m);
      if Capacity(g, res, x) > m {
        assert IsMaxIn(g, res, s, Capacity(g, res, x));
      } else {
        assert IsMaxIn(g, res, s, m);
      }
    }
  }

  lemma MaxUnique(g: Physical.Network, res: Resource, s: set<NodeId>, a: nat, b: nat)
    requires IsMaxIn(g, res, s, a) && IsMaxIn(g, res, s, b)
    ensures a == b
  {
  }

  /** One step of the running maximum, which starts at 0. */
  lemma MaxStep(g: Physical.Network, res: Resource, seen: set<NodeId>, n: NodeId, m: nat)
    requires seen == {} ==> m == 0
    requires seen != {} ==> IsMaxIn(g, res, seen, m)
    ensures IsMaxIn(g, res, seen + {n}, if Capacity(g, res, n) > m then Capacity(g, res, n) else m)
  {
  }

  /** The largest capacity for res among the compute nodes. */
  ghost function MaxCapacity(g: Physical.Network, res: Resource): (m: nat)
    requires Physical.ComputeNodes(g) != {}
    ensures IsMaxIn(g, res, Physical.ComputeNodes(g), m)
  {
    MaxExists(g, res, Physical.ComputeNodes(g));
    var m :| IsMaxIn(g, res, Physical.ComputeNodes(g), m);
    m
  }

  lemma MaxCapacityPositive(g: Physical.Network, res: Resource)
    requires Physical.ComputeNodes(g) != {}
    ensures MaxCapacity(g, res) > 0
  {
    var n :| n in Physical.ComputeNodes(g) && Capacity(g, res, n) == MaxCapacity(g, res);
  }

  /** Python's math.ceil on an exact quotient. */
  function Ceil(x: real): (c: int)
    ensures c as real >= x && (c - 1) as real < x
  {
    -((-x).Floor)
  }

  function Max(a: real, b: real): real
  {
    if a >= b then a else b
  }

  /** ceil(max(total cores / max cores, total memory / max memory)). */
  function Bound(tc: nat, tm: nat, mc: nat, mm: nat): int
    requires mc > 0 && mm > 0
  {
    Ceil(Max(tc as real / mc as real, tm as real / mm as real))
  }

  /** maxCores and maxMemory are the running maxima over seen, which start at 0. */
  ghost predicate RunningOver(g: Physical.Network, seen: set<NodeId>, maxCores: nat, maxMemory: nat)
  {
    (seen == {} ==> maxCores == 0 && maxMemory == 0) &&
    (seen != {} ==> IsMaxIn(g, Cores, seen, maxCores) && IsMaxIn(g, Memory, seen, maxMemory))
  }

  /** One iteration of the running maxima: both grow to the node's capacity if it is larger. */
  method Raise(g: Physical.Network, ghost seen: set<NodeId>, n: NodeId, maxCores: nat, maxMemory: nat)
    returns (cores: nat, memory: nat)
    requires RunningOver(g, seen, maxCores, maxMemory)
    ensures RunningOver(g, seen + {n}, cores, memory)
  {
    MaxStep(g, Cores, seen, n, maxCores);
    MaxStep(g, Memory, seen, n, maxMemory);
    cores := if Physical.Cores(g, n) > maxCores then Physical.Cores(g, n) else maxCores;
    memory := if Physical.Memory(g, n) > maxMemory then Physical.Memory(g, n) else maxMemory;
  }

  /** The running maxima of cores and memory over a set of nodes, starting from 0. */
  method RunningMaxima(g: Physical.Network, all: set<NodeId>) returns (maxCores: nat, maxMemory: nat)
    requires all != {}
    ensures IsMaxIn(g, Cores, all, maxCores) && IsMaxIn(g, Memory, all, maxMemory)
  {
    maxCores, maxMemory := 0, 0;
    var rest := all;
    ghost var seen: set<NodeId> := {};
    while rest != {}
      invariant rest <= all && seen == all - rest
      invariant RunningOver(g, seen, maxCores, maxMemory)
      decreases |rest|
    {
      NonEmptyHasNode(rest);
      var n :| n in rest;
      maxCores, maxMemory := Raise(g, seen, n, maxCores, maxMemory);
      rest := rest - {n};
      seen := seen + {n};
    }
  }

  /** What lower_bound() returns on a network with a compute node. */
  ghost function Value(v: Virtual.VirtualNet, g: Physical.Network): int
    requires Physical.ComputeNodes(g) != {}
  {
    MaxCapacityPositive(g, Cores);
    MaxCapacityPositive(g, Memory);
    Bound(Total(v, Cores), Total(v, Memory), MaxCapacity(g, Cores), MaxCapacity(g, Memory))
  }

  /** How many values `range(lb, m + 1)` yields: the attempts of a widening loop that never stops early. */
  function Span(lb: int, m: nat): (k: nat)
    ensures lb <= m + 1 ==> lb + k == m + 1
    ensures lb > m ==> k == 0
  {
    if lb > m then 0 else m + 1 - lb
  }

  /**
   * lower_bound() / _get_lb(virtual, physical): sums the demands in node
   * order, takes the running maxima over the compute nodes, and rounds the
   * larger quotient up. Without a compute node both maxima stay 0 and the
   * division raises ZeroDivisionError.
   */
  method GetLowerBound(v: Virtual.VirtualNet, g: Physical.Network) returns (r: Result<int>)
    ensures r.Err? <==> Physical.ComputeNodes(g) == {}
    ensures r.Err? ==> r.error == ZeroDivision
    ensures r.Ok? ==> MaxCapacity(g, Cores) > 0 && MaxCapacity(g, Memory) > 0
    ensures r.Ok? ==> r.value == Bound(Total(v, Cores), Total(v, Memory), MaxCapacity(g, Cores), MaxCapacity(g, Memory))
    ensures r.Ok? ==> r.value == Value(v, g) && r.value >= 0
  {
    var totCores, totMemory := 0, 0;
    var i := 0;
    while i < |v.nodes|
      invariant 0 <= i <= |v.nodes|
      invariant totCores == DemandOf(v, Cores, v.nodes[..i]) && totMemory == DemandOf(v, Memory, v.nodes[..i])
    {
      assert v.nodes[..i + 1][..i] == v.nodes[..i];
      totCores := totCores + Demand(v, Cores, v.nodes[i]);
      totMemory := totMemory + Demand(v, Memory, v.nodes[i]);
      i := i + 1;
    }
    assert v.nodes[..i] == v.nodes;
    if Physical.ComputeNodes(g) == {} {
      return Err(ZeroDivision);
    }
    var maxCores, maxMemory := RunningMaxima(g, Physical.ComputeNodes(g));
    MaxUnique(g, Cores, Physical.ComputeNodes(g), maxCores, MaxCapacity(g, Cores));
    MaxUnique(g, Memory, Physical.ComputeNodes(g), maxMemory, MaxCapacity(g, Memory));
    MaxCapacityPositive(g, Cores);
    MaxCapacityPositive(g, Memory);
    BoundNonNegative(totCores, totMemory, maxCores, maxMemory);
    r := Ok(Bound(totCores, totMemory, maxCores, maxMemory));
  }

  /** The bound times the largest capacity covers the total demand, for both resources. */
  lemma BoundCovers(tc: nat, tm: nat, mc: nat, mm: nat)
    requires mc > 0 && mm > 0
    ensures Bound(tc, tm, mc, mm) * mc >= tc && Bound(tc, tm, mc, mm) * mm >= tm
  {
    var b := Bound(tc, tm, mc, mm);
    assert b as real >= tc as real / mc as real;
    assert b as real >= tm as real / mm as real;
    assert (b * mc) as real == b as real * mc as real;
    assert (b * mm) as real == b as real * mm as real;
  }

  /** The bound is never negative: no demand needs no machine. */
  lemma BoundNonNegative(tc: nat, tm: nat, mc: nat, mm: nat)
    requires mc > 0 && mm > 0
    ensures Bound(tc, tm, mc, mm) >= 0
  {
    assert tc as real / mc as real >= 0.0;
  }

  /** The rounded-up maximum is the maximum of the rounded-up quotients, as the inline bound of solve_heu computes it. */
  lemma CeilOfMax(a: real, b: real)
    ensures Ceil(Max(a, b)) == if Ceil(a) >= Ceil(b) then Ceil(a) else Ceil(b)
  {
  }

  /*
   * Soundness of the bound: a placement that puts every virtual node on a
   * compute node without exceeding any capacity uses at least `Bound`
   * machines.
   */

  /** Demand of the nodes placed on a machine in `on`. */
  function PlacedDemand(v: Virtual.VirtualNet, res: Resource, place: map<NodeId, NodeId>, on: set<NodeId>,
                        nodes: seq<NodeId>): nat
  {
    if |nodes| == 0 then 0
    else
      var n := nodes[|nodes| - 1];
      PlacedDemand(v, res, place, on, nodes[..|nodes| - 1]) + (if n in place && place[n] in on then Demand(v, res, n) else 0)
  }

  lemma {:induction false} PlacedDemandSplit(v: Virtual.VirtualNet, res: Resource, place: map<NodeId, NodeId>,
                                             on: set<NodeId>, p: NodeId, nodes: seq<NodeId>)
    requires p in on
    ensures PlacedDemand(v, res, place, on, nodes) == PlacedDemand(v, res, place, on - {p}, nodes) + PlacedDemand(v, res, place, {p}, nodes)
  {
    if |nodes| > 0 {
      PlacedDemandSplit(v, res, place, on, p, nodes[..|nodes| - 1]);
    }
  }

  lemma {:induction false} PlacedDemandAll(v: Virtual.VirtualNet, res: Resource, place: map<NodeId, NodeId>,
                                           on: set<NodeId>, nodes: seq<NodeId>)
    requires forall n :: n in nodes ==> n in place && place[n] in on
    ensures PlacedDemand(v, res, place, on, nodes) == DemandOf(v, res, nodes)
  {
    if |nodes| > 0 {
      PlacedDemandAll(v, res, place, on, nodes[..|nodes| - 1]);
    }
  }

  /** The machines of a feasible placement: no machine carries more than its capacity. */
  ghost predicate Fits(v: Virtual.VirtualNet, g: Physical.Network, place: map<NodeId, NodeId>)
  {
    forall p :: p in place.Values ==>
      PlacedDemand(v, Cores, place, {p}, v.nodes) <= Capacity(g, Cores, p) &&
      PlacedDemand(v, Memory, place, {p}, v.nodes) <= Capacity(g, Memory, p)
  }

  lemma {:induction false} DemandWithinMachines(v: Virtual.VirtualNet, g: Physical.Network, res: Resource,
                                                place: map<NodeId, NodeId>, on: set<NodeId>, m: nat)
    requires Fits(v, g, place) && on <= place.Values
    requires forall p :: p in on ==> Capacity(g, res, p) <= m
    ensures PlacedDemand(v, res, place, on, v.nodes) <= |on| * m
    decreases |on|
  {
    if on == {} {
      ZeroPlaced(v, res, place, v.nodes);
    } else {
      NonEmptyHasNode(on);
      var p :| p in on;
      PlacedDemandSplit(v, res, place, on, p, v.nodes);
      DemandWithinMachines(v, g, res, place, on - {p}, m);
      assert p in place.Values;
      assert PlacedDemand(v, res, place, {p}, v.nodes) <= Capacity(g, res, p) <= m;
      assert |on - {p}| == |on| - 1;
      assert (|on| - 1) * m + m == |on| * m;
    }
  }

  lemma {:induction false} ZeroPlaced(v: Virtual.VirtualNet, res: Resource, place: map<NodeId, NodeId>, nodes: seq<NodeId>)
    ensures PlacedDemand(v, res, place, {}, nodes) == 0
  {
    if |nodes| > 0 {
      ZeroPlaced(v, res, place, nodes[..|nodes| - 1]);
    }
  }

  /**
   * Any placement of every virtual node onto compute nodes that respects
   * their capacities uses at least the lower bound's number of machines.
   */
  lemma BoundIsSound(v: Virtual.VirtualNet, g: Physical.Network, place: map<NodeId, NodeId>)
    requires Physical.ComputeNodes(g) != {}
    requires forall n :: n in v.nodes ==> n in place
    requires place.Values <= Physical.ComputeNodes(g)
    requires Fits(v, g, place)
    ensures MaxCapacity(g, Cores) > 0 && MaxCapacity(g, Memory) > 0
    ensures |place.Values| >= Bound(Total(v, Cores), Total(v, Memory), MaxCapacity(g, Cores), MaxCapacity(g, Memory))
  {
    MaxCapacityPositive(g, Cores);
    MaxCapacityPositive(g, Memory);
    var used := place.Values;
    var mc, mm := MaxCapacity(g, Cores), MaxCapacity(g, Memory);
    var tc, tm := Total(v, Cores), Total(v, Memory);
    assert forall n :: n in v.nodes ==> n in place && place[n] in used;
    PlacedDemandAll(v, Cores, place, used, v.nodes);
    PlacedDemandAll(v, Memory, place, used, v.nodes);
    DemandWithinMachines(v, g, Cores, place, used, mc);
    DemandWithinMachines(v, g, Memory, place, used, mm);
    var k := |used|;
    QuotientBelow(tc, mc, k);
    QuotientBelow(tm, mm, k);
  }

  lemma QuotientBelow(t: nat, m: nat, k: nat)
    requires m > 0 && t <= k * m
    ensures t as real / m as real <= k as real
  {
    assert (k * m) as real == k as real * m as real;
  }
}
