/**
 * verify_solution of the current library (identical in the algorithms
 * revision): a placement maps every virtual node to a physical node, and a
 * routing maps virtual links to lists of (i, device, j) hops. The check
 * raises, in this order of phases:
 *   - EmptySolutionError when nothing is placed;
 *   - AssignmentError when a virtual node is unplaced, or a link whose ends
 *     are on different machines has no path or one of fewer than 2 hops;
 *   - NodeResourceError when a running cores or memory total of a machine
 *     exceeds its capacity (cores tested before memory, node by node);
 *   - LinkCapacityError when the rates of the links routed over an
 *     interface exceed its rate.
 * A missing demand, a hop over an unknown interface and a routed pair that
 * is not a virtual link are Python KeyErrors.
 */
module EmbedVerify {
  import opened Common
  import opened PathSearch
  import Physical
  import Virtual
  import LowerBound

  /** An interface of a stored link: the link's orientation and the interface key. */
  type Slot = (NodeId, NodeId, Physical.DeviceKey)

  type Routing = map<Pair, seq<Hop<Physical.DeviceKey>>>

  predicate Assigned(v: Virtual.VirtualNet, mapping: map<NodeId, NodeId>)
  {
    forall n :: n in v.nodes ==> n in mapping
  }

  /** A virtual link is routed when both ends share a machine or it has a path of at least 2 hops. */
  predicate Routed(mapping: map<NodeId, NodeId>, routing: Routing, e: Pair)
  {
    e.0 in mapping && e.1 in mapping &&
    (mapping[e.0] == mapping[e.1] || (e in routing && |routing[e]| >= 2))
  }

  ghost predicate AllRouted(v: Virtual.VirtualNet, mapping: map<NodeId, NodeId>, routing: Routing)
    requires Virtual.Valid(v)
  {
    forall e :: e in Virtual.SortedEdges(v) ==> Routed(mapping, routing, e)
  }

  /** Demand on machine p of the listed virtual nodes. */
  function Load(v: Virtual.VirtualNet, res: Resource, mapping: map<NodeId, NodeId>, nodes: seq<NodeId>, p: NodeId): nat
  {
    LowerBound.PlacedDemand(v, res, mapping, {p}, nodes)
  }

  /** Every listed virtual node has both demands. */
  predicate Known(v: Virtual.VirtualNet, nodes: seq<NodeId>)
  {
    forall n :: n in nodes ==> n in v.cores && n in v.memory
  }

  ghost predicate NodesWithin(v: Virtual.VirtualNet, g: Physical.Network, mapping: map<NodeId, NodeId>, nodes: seq<NodeId>)
  {
    forall p :: Load(v, Cores, mapping, nodes, p) <= LowerBound.Capacity(g, Cores, p) &&
      Load(v, Memory, mapping, nodes, p) <= LowerBound.Capacity(g, Memory, p)
  }

  /** The stored link and interface a hop is charged to: (s, t) if it has the hop's key, else (t, s). */
  function Resolve(g: Physical.Network, h: Hop<Physical.DeviceKey>): (r: Option<Pair>)
    ensures r.Some? ==> r.value in g.links && h.device in Physical.Keys(g.links[r.value].interfaces)
    ensures r.Some? ==> r.value == (h.src, h.dst) || r.value == (h.dst, h.src)
  {
    if (h.src, h.dst) in g.links && h.device in Physical.Keys(g.links[(h.src, h.dst)].interfaces) then Some((h.src, h.dst))
    else if (h.dst, h.src) in g.links && h.device in Physical.Keys(g.links[(h.dst, h.src)].interfaces) then Some((h.dst, h.src))
    else None
  }

  predicate Charges(g: Physical.Network, h: Hop<Physical.DeviceKey>, s: Slot)
  {
    Resolve(g, h) == Some((s.0, s.1)) && h.device == s.2
  }

  /** Rate a path puts on an interface: the link's rate once per hop charged to it. */
  function PathUsage(g: Physical.Network, hops: seq<Hop<Physical.DeviceKey>>, rate: nat, s: Slot): nat
  {
    if |hops| == 0 then 0
    else PathUsage(g, hops[..|hops| - 1], rate, s) + (if Charges(g, hops[|hops| - 1], s) then rate else 0)
  }

  /** The rate of a routed pair, 0 when it is not a virtual link. */
  function RateOf(v: Virtual.VirtualNet, e: Pair): nat
  {
    match Virtual.RateIn(v.links, e.0, e.1)
    case Some(r) => r
    case None => 0
  }

  /** Rate the routed links put on an interface. */
  function Usage(v: Virtual.VirtualNet, g: Physical.Network, routing: Routing, links: seq<Pair>, s: Slot): nat
  {
    if |links| == 0 then 0
    else
      var e := links[|links| - 1];
      Usage(v, g, routing, links[..|links| - 1], s) +
        (if e in routing then PathUsage(g, routing[e], RateOf(v, e), s) else 0)
  }

  /** Every hop of the path can be charged, and a non-empty path belongs to a virtual link. */
  predicate Chargeable(v: Virtual.VirtualNet, g: Physical.Network, e: Pair, hops: seq<Hop<Physical.DeviceKey>>)
  {
    |hops| == 0 || (Virtual.RateIn(v.links, e.0, e.1).Some? && forall k :: 0 <= k < |hops| ==> Resolve(g, hops[k]).Some?)
  }

  predicate AllChargeable(v: Virtual.VirtualNet, g: Physical.Network, routing: Routing, links: seq<Pair>)
  {
    forall i :: 0 <= i < |links| ==> links[i] in routing && Chargeable(v, g, links[i], routing[links[i]])
  }

  /** No interface of a stored link carries more than its rate. */
  ghost predicate LinksWithin(g: Physical.Network, used: Slot -> nat)
  {
    forall e, k :: e in g.links && 0 <= k < |g.links[e].interfaces| ==>
      used((e.0, e.1, g.links[e].interfaces[k].key)) <= g.links[e].interfaces[k].rate
  }

  /** Everything verify_solution checks. */
  ghost predicate Verified(v: Virtual.VirtualNet, g: Physical.Network, mapping: map<NodeId, NodeId>, order: seq<NodeId>,
                           routing: Routing, pathOrder: seq<Pair>)
    requires Virtual.Valid(v)
  {
    |mapping| > 0 && Assigned(v, mapping) && AllRouted(v, mapping, routing) &&
    Known(v, order) && NodesWithin(v, g, mapping, order) &&
    AllChargeable(v, g, routing, pathOrder) &&
    LinksWithin(g, s => Usage(v, g, routing, pathOrder, s))
  }

  /*
   * The phases, each a loop of the source.
   */

  method CheckAssigned(v: Virtual.VirtualNet, mapping: map<NodeId, NodeId>) returns (ok: bool)
    ensures ok <==> Assigned(v, mapping)
  {
    var i := 0;
    while i < |v.nodes|
      invariant 0 <= i <= |v.nodes|
      invariant forall k :: 0 <= k < i ==> v.nodes[k] in mapping
    {
      if v.nodes[i] !in mapping {
        var n := v.nodes[i];
        assert n in v.nodes && n !in mapping;
        return false;
      }
      i := i + 1;
    }
    return true;
  }

  /** The sorted links are visited in set order; any one missing its path fails. */
  method CheckRouted(v: Virtual.VirtualNet, mapping: map<NodeId, NodeId>, routing: Routing) returns (ok: bool)
    requires Virtual.Valid(v) && Assigned(v, mapping)
    ensures ok <==> AllRouted(v, mapping, routing)
  {
    var all := Virtual.SortedEdges(v);
    var rest := all;
    while rest != {}
      invariant rest <= all
      invariant forall e :: e in all - rest ==> Routed(mapping, routing, e)
      decreases |rest|
    {
      NonEmptyHasPair(rest);
      var e :| e in rest;
      assert e.0 in v.nodes && e.1 in v.nodes by {
        var t :| 0 <= t < |v.links| && Virtual.Joins(v.links[t], e.0, e.1);
      }
      if e !in routing && mapping[e.0] != mapping[e.1] {
        return false;
      } else if mapping[e.0] != mapping[e.1] {
        if |routing[e]| < 2 {
          return false;
        }
      }
      rest := rest - {e};
    }
    return true;
  }

  lemma {:induction false} LoadPrefix(v: Virtual.VirtualNet, res: Resource, mapping: map<NodeId, NodeId>,
                                      nodes: seq<NodeId>, k: nat, p: NodeId)
    requires k <= |nodes|
    ensures Load(v, res, mapping, nodes[..k], p) <= Load(v, res, mapping, nodes, p)
    decreases |nodes|
  {
    if k < |nodes| {
      var n := |nodes| - 1;
      assert nodes[..n][..k] == nodes[..k];
      LoadPrefix(v, res, mapping, nodes[..n], k, p);
    } else {
      assert nodes[..k] == nodes;
    }
  }

  /** One more node: only its machine's load grows, by its demand. */
  lemma LoadStep(v: Virtual.VirtualNet, res: Resource, mapping: map<NodeId, NodeId>, nodes: seq<NodeId>, i: nat)
    requires i < |nodes| && nodes[i] in mapping
    ensures forall p :: (Load(v, res, mapping, nodes[..i + 1], p) ==
      Load(v, res, mapping, nodes[..i], p) + (if mapping[nodes[i]] == p then LowerBound.Demand(v, res, nodes[i]) else 0))
  {
    assert nodes[..i + 1][..i] == nodes[..i];
  }

  /** Adding the next node's demand to its machine's tally keeps the tally the load of the nodes so far. */
  lemma TallyStep(v: Virtual.VirtualNet, res: Resource, mapping: map<NodeId, NodeId>, nodes: seq<NodeId>, i: nat,
                  used: map<NodeId, nat>)
    requires i < |nodes| && nodes[i] in mapping
    requires forall p :: Get(used, p) == Load(v, res, mapping, nodes[..i], p)
    ensures forall p :: (Get(Add(used, mapping[nodes[i]], LowerBound.Demand(v, res, nodes[i])), p) ==
      Load(v, res, mapping, nodes[..i + 1], p))
  {
    LoadStep(v, res, mapping, nodes, i);
  }

  /** A known node whose machine stays within both capacities extends the checked prefix. */
  lemma WithinStep(v: Virtual.VirtualNet, g: Physical.Network, mapping: map<NodeId, NodeId>, nodes: seq<NodeId>, i: nat)
    requires i < |nodes| && nodes[i] in mapping && nodes[i] in v.cores && nodes[i] in v.memory
    requires Known(v, nodes[..i]) && NodesWithin(v, g, mapping, nodes[..i])
    requires Load(v, Cores, mapping, nodes[..i + 1], mapping[nodes[i]]) <= Physical.Cores(g, mapping[nodes[i]])
    requires Load(v, Memory, mapping, nodes[..i + 1], mapping[nodes[i]]) <= Physical.Memory(g, mapping[nodes[i]])
    ensures Known(v, nodes[..i + 1]) && NodesWithin(v, g, mapping, nodes[..i + 1])
  {
    LoadStep(v, Cores, mapping, nodes, i);
    LoadStep(v, Memory, mapping, nodes, i);
    assert nodes[..i + 1] == nodes[..i] + [nodes[i]];
  }

  /**
   * The node phase: node by node in placement order, add the cores demand
   * and test the machine, then the same for memory.
   */
  method CheckNodes(v: Virtual.VirtualNet, g: Physical.Network, mapping: map<NodeId, NodeId>, order: seq<NodeId>)
    returns (r: Result<()>)
    requires forall n :: n in order ==> n in mapping
    ensures r.Ok? <==> Known(v, order) && NodesWithin(v, g, mapping, order)
    ensures r.Err? ==> ((r.error == KeyError && !Known(v, order)) ||
      (r.error.NodeResource? &&
       Load(v, r.error.resource, mapping, order, r.error.node) > LowerBound.Capacity(g, r.error.resource, r.error.node)))
  {
    var coresUsed: map<NodeId, nat> := map[];
    var memoryUsed: map<NodeId, nat> := map[];
    var i := 0;
    while i < |order|
      invariant 0 <= i <= |order|
      invariant forall p :: Get(coresUsed, p) == Load(v, Cores, mapping, order[..i], p)
      invariant forall p :: Get(memoryUsed, p) == Load(v, Memory, mapping, order[..i], p)
      invariant Known(v, order[..i]) && NodesWithin(v, g, mapping, order[..i])
    {
      var n := order[i];
      var p := mapping[n];
      if n !in v.cores {
        return Err(KeyError);
      }
      TallyStep(v, Cores, mapping, order, i, coresUsed);
      coresUsed := Add(coresUsed, p, v.cores[n]);
      if Get(coresUsed, p) > Physical.Cores(g, p) {
        LoadPrefix(v, Cores, mapping, order, i + 1, p);
        return Err(NodeResource(p, Cores));
      }
      if n !in v.memory {
        return Err(KeyError);
      }
      TallyStep(v, Memory, mapping, order, i, memoryUsed);
      memoryUsed := Add(memoryUsed, p, v.memory[n]);
      if Get(memoryUsed, p) > Physical.Memory(g, p) {
        LoadPrefix(v, Memory, mapping, order, i + 1, p);
        return Err(NodeResource(p, Memory));
      }
      WithinStep(v, g, mapping, order, i);
      i := i + 1;
    }
    assert order[..i] == order;
    return Ok(());
  }

  /** One hop more on a path. */
  lemma PathUsageStep(g: Physical.Network, hops: seq<Hop<Physical.DeviceKey>>, rate: nat, j: nat)
    requires j < |hops|
    ensures forall s :: (PathUsage(g, hops[..j + 1], rate, s) ==
      PathUsage(g, hops[..j], rate, s) + (if Charges(g, hops[j], s) then rate else 0))
  {
    assert hops[..j + 1][..j] == hops[..j];
  }

  /** Charge every hop of one path, as the inner loop of the link phase does. */
  method ChargePath(g: Physical.Network, hops: seq<Hop<Physical.DeviceKey>>, rate: nat, used0: map<Slot, nat>)
    returns (r: Result<map<Slot, nat>>)
    ensures r.Ok? <==> forall k :: 0 <= k < |hops| ==> Resolve(g, hops[k]).Some?
    ensures r.Err? ==> r.error == KeyError
    ensures r.Ok? ==> forall s :: Get(r.value, s) == Get(used0, s) + PathUsage(g, hops, rate, s)
  {
    var used := used0;
    var j := 0;
    while j < |hops|
      invariant 0 <= j <= |hops|
      invariant forall k :: 0 <= k < j ==> Resolve(g, hops[k]).Some?
      invariant forall s :: Get(used, s) == Get(used0, s) + PathUsage(g, hops[..j], rate, s)
    {
      var h := hops[j];
      PathUsageStep(g, hops, rate, j);
      match Resolve(g, h) {
        case None =>
          return Err(KeyError);
        case Some(e) =>
          used := Add(used, (e.0, e.1, h.device), rate);
      }
      j := j + 1;
    }
    assert hops[..j] == hops;
    return Ok(used);
  }

  lemma UsageStep(v: Virtual.VirtualNet, g: Physical.Network, routing: Routing, links: seq<Pair>, i: nat)
    requires i < |links| && links[i] in routing
    ensures forall s :: (Usage(v, g, routing, links[..i + 1], s) ==
      Usage(v, g, routing, links[..i], s) + PathUsage(g, routing[links[i]], RateOf(v, links[i]), s))
  {
    assert links[..i + 1][..i] == links[..i];
  }

  /** The usage counters of the link phase, filled path by path in routing order. */
  method ChargeAll(v: Virtual.VirtualNet, g: Physical.Network, routing: Routing, pathOrder: seq<Pair>)
    returns (r: Result<map<Slot, nat>>)
    requires forall e :: e in pathOrder ==> e in routing
    ensures r.Ok? <==> AllChargeable(v, g, routing, pathOrder)
    ensures r.Err? ==> r.error == KeyError
    ensures r.Ok? ==> forall s :: Get(r.value, s) == Usage(v, g, routing, pathOrder, s)
  {
    var used: map<Slot, nat> := map[];
    var i := 0;
    while i < |pathOrder|
      invariant 0 <= i <= |pathOrder|
      invariant AllChargeable(v, g, routing, pathOrder[..i])
      invariant forall s :: Get(used, s) == Usage(v, g, routing, pathOrder[..i], s)
    {
      var e := pathOrder[i];
      var hops := routing[e];
      UsageStep(v, g, routing, pathOrder, i);
      if |hops| > 0 && Virtual.RateIn(v.links, e.0, e.1).None? {
        return Err(KeyError);
      }
      var next := ChargePath(g, hops, RateOf(v, e), used);
      if next.Err? {
        return Err(KeyError);
      }
      used := next.value;
      assert pathOrder[..i + 1] == pathOrder[..i] + [e];
      i := i + 1;
    }
    assert pathOrder[..i] == pathOrder;
    return Ok(used);
  }

  /** The capacity phase: every interface of every stored link against its rate. */
  method CheckCapacity(g: Physical.Network, used: map<Slot, nat>) returns (ok: bool)
    ensures ok <==> LinksWithin(g, s => Get(used, s))
  {
    var rest := g.links.Keys;
    while rest != {}
      invariant rest <= g.links.Keys
      invariant forall e, k :: e in g.links.Keys - rest && 0 <= k < |g.links[e].interfaces| ==>
        Get(used, (e.0, e.1, g.links[e].interfaces[k].key)) <= g.links[e].interfaces[k].rate
      decreases |rest|
    {
      NonEmptyHasPair(rest);
      var e :| e in rest;
      var ifs := g.links[e].interfaces;
      var k := 0;
      while k < |ifs|
        invariant 0 <= k <= |ifs|
        invariant forall l :: 0 <= l < k ==> Get(used, (e.0, e.1, ifs[l].key)) <= ifs[l].rate
      {
        if Get(used, (e.0, e.1, ifs[k].key)) > ifs[k].rate {
          return false;
        }
        k := k + 1;
      }
      rest := rest - {e};
    }
    return true;
  }

  /**
   * verify_solution(virtual, physical, node_mapping, link_path), with
   * `order` and `pathOrder` the iteration orders of the two dictionaries.
   */
  method VerifySolution(v: Virtual.VirtualNet, g: Physical.Network, mapping: map<NodeId, NodeId>, order: seq<NodeId>,
                        routing: Routing, pathOrder: seq<Pair>)
    returns (r: Result<()>)
    requires Virtual.Valid(v) && Enumerates(order, mapping) && Enumerates(pathOrder, routing)
    ensures r == Err(EmptySolution) <==> |mapping| == 0
    ensures r == Err(Assignment) <==> |mapping| > 0 && !(Assigned(v, mapping) && AllRouted(v, mapping, routing))
    ensures r.Ok? <==> Verified(v, g, mapping, order, routing, pathOrder)
    ensures r.Err? && r.error.NodeResource? ==>
      Load(v, r.error.resource, mapping, order, r.error.node) > LowerBound.Capacity(g, r.error.resource, r.error.node)
    ensures r == Err(LinkCapacity) ==> !LinksWithin(g, s => Usage(v, g, routing, pathOrder, s))
  {
    if |mapping| == 0 {
      return Err(EmptySolution);
    }
    var placed := CheckAssigned(v, mapping);
    if !placed {
      return Err(Assignment);
    }
    var routed := CheckRouted(v, mapping, routing);
    if !routed {
      return Err(Assignment);
    }
    r := CheckNodes(v, g, mapping, order);
    if r.Err? {
      return r;
    }
    var charged := ChargeAll(v, g, routing, pathOrder);
    if charged.Err? {
      return Err(KeyError);
    }
    var within := CheckCapacity(g, charged.value);
    assert LinksWithin(g, s => Get(charged.value, s)) <==> LinksWithin(g, s => Usage(v, g, routing, pathOrder, s));
    if !within {
      return Err(LinkCapacity);
    }
    return Ok(());
  }
}
