/**
 * RandomSelection, in the current library (distriopt/) and in the mapping
 * revision: every virtual node goes on a machine drawn at random from the
 * sorted compute nodes, then every virtual link whose ends sit on two
 * machines follows a path whose interfaces are drawn among those with
 * room for its rate.
 *
 * The seeded generator is the stream `rng`: rng(k) is the k-th number it
 * yields, and a draw from a list of n elements (random.choice, one pick of
 * random.choices) takes position rng(k) % n. A run is a function of the
 * stream, as a fixed seed makes it; `next` counts the numbers used so far.
 */
module RandomSelect {
  import opened Common
  import opened PathSearch
  import Physical
  import Virtual
  import Placement
  import EmbedVerify
  import EmbedBuild
  import LowerBound
  import KBalanced
  import MemoPath
  import PairRouting
  import Ungroup
  import LegacySolve

  type Key = Physical.DeviceKey
  type Used = Placement.Used

  /** sorted(list(compute_nodes)): the members of s in increasing order. */
  function Ascending(s: set<NodeId>): (r: seq<NodeId>)
    ensures forall x :: x in r <==> x in s
    ensures forall a, b :: 0 <= a < b < |r| ==> r[a] < r[b]
    ensures |r| == |s|
    decreases |s|
  {
    if s == {} then []
    else
      var m := Least(s);
      var rest := Ascending(s - {m});
      assert forall b :: 0 <= b < |rest| ==> m < rest[b] by {
        forall b | 0 <= b < |rest| ensures m < rest[b] {
          assert rest[b] in s - {m};
        }
      }
      [m] + rest
  }

  /*
   * The node phase.
   */

  /** The machine the k-th number of the stream picks. */
  function Drawn(machines: seq<NodeId>, rng: nat -> nat, k: nat): (p: NodeId)
    requires |machines| > 0
    ensures p in machines
  {
    machines[rng(k) % |machines|]
  }

  /** The placement the stream gives the listed nodes from position start on: node i gets the draw start + i. */
  function Draws(nodes: seq<NodeId>, machines: seq<NodeId>, rng: nat -> nat, start: nat): (m: map<NodeId, NodeId>)
    requires |nodes| == 0 || |machines| > 0
    ensures forall u :: u in m <==> u in nodes
    ensures forall u :: u in m ==> m[u] in machines
  {
    if |nodes| == 0 then map[]
    else
      var m := Draws(nodes[..|nodes| - 1], machines, rng, start);
      assert forall u :: u in nodes <==> u in nodes[..|nodes| - 1] || u == nodes[|nodes| - 1];
      m[nodes[|nodes| - 1] := Drawn(machines, rng, start + |nodes| - 1)]
  }

  /** Each of distinct nodes keeps its own draw. */
  lemma {:induction false} DrawsAt(nodes: seq<NodeId>, machines: seq<NodeId>, rng: nat -> nat, start: nat, i: nat)
    requires |machines| > 0 && Distinct(nodes) && i < |nodes|
    ensures Draws(nodes, machines, rng, start)[nodes[i]] == Drawn(machines, rng, start + i)
  {
    if i < |nodes| - 1 {
      var init := nodes[..|nodes| - 1];
      DrawsAt(init, machines, rng, start, i);
      assert init[i] == nodes[i] && nodes[i] != nodes[|nodes| - 1];
    }
  }

  lemma DrawsNext(nodes: seq<NodeId>, machines: seq<NodeId>, rng: nat -> nat, start: nat, i: nat)
    requires |machines| > 0 && i < |nodes|
    ensures Draws(nodes[..i + 1], machines, rng, start) ==
      Draws(nodes[..i], machines, rng, start)[nodes[i] := Drawn(machines, rng, start + i)]
  {
    assert nodes[..i + 1][..i] == nodes[..i];
  }

  /** The demand placed on p by the first i listed nodes. */
  function Charged(v: Virtual.VirtualNet, res: Resource, place: map<NodeId, NodeId>, nodes: seq<NodeId>, i: nat, p: NodeId): nat
    requires i <= |nodes|
  {
    EmbedVerify.Load(v, res, place, nodes[..i], p)
  }

  /** One node more adds its demand to its own machine and nothing elsewhere. */
  lemma ChargedStep(v: Virtual.VirtualNet, res: Resource, place: map<NodeId, NodeId>, nodes: seq<NodeId>, i: nat, p: NodeId)
    requires i < |nodes| && nodes[i] in place
    ensures Charged(v, res, place, nodes, i + 1, p) ==
      Charged(v, res, place, nodes, i, p) + (if place[nodes[i]] == p then LowerBound.Demand(v, res, nodes[i]) else 0)
  {
    assert nodes[..i + 1][..i] == nodes[..i];
  }

  /** The demand on a machine only grows as nodes are added. */
  lemma {:induction false} ChargedGrows(v: Virtual.VirtualNet, res: Resource, place: map<NodeId, NodeId>, nodes: seq<NodeId>,
                                        i: nat, p: NodeId)
    requires i <= |nodes|
    ensures Charged(v, res, place, nodes, i, p) <= EmbedVerify.Load(v, res, place, nodes, p)
    decreases |nodes| - i
  {
    if i < |nodes| {
      ChargedGrows(v, res, place, nodes, i + 1, p);
      assert nodes[..i + 1][..i] == nodes[..i];
    } else {
      assert nodes[..i] == nodes;
    }
  }

  /** Every machine carries at most its capacity from the first i nodes. */
  ghost predicate WithinUpTo(v: Virtual.VirtualNet, g: Physical.Network, place: map<NodeId, NodeId>, nodes: seq<NodeId>, i: nat)
    requires i <= |nodes|
  {
    forall p :: Charged(v, Cores, place, nodes, i, p) <= Physical.Cores(g, p) &&
      Charged(v, Memory, place, nodes, i, p) <= Physical.Memory(g, p)
  }

  /** cores_used and memory_used hold the demands of the first i nodes on each machine. */
  ghost predicate Counts(v: Virtual.VirtualNet, place: map<NodeId, NodeId>, nodes: seq<NodeId>, i: nat,
                         coresUsed: map<NodeId, nat>, memoryUsed: map<NodeId, nat>)
    requires i <= |nodes|
  {
    forall q :: Get(coresUsed, q) == Charged(v, Cores, place, nodes, i, q) &&
      Get(memoryUsed, q) == Charged(v, Memory, place, nodes, i, q)
  }

  /** The counters after adding node i's demands to its machine p. */
  lemma CountStep(v: Virtual.VirtualNet, place: map<NodeId, NodeId>, nodes: seq<NodeId>, i: nat, p: NodeId,
                  coresUsed: map<NodeId, nat>, memoryUsed: map<NodeId, nat>)
    requires i < |nodes| && nodes[i] in v.cores && nodes[i] in v.memory && nodes[i] in place && place[nodes[i]] == p
    requires Counts(v, place, nodes, i, coresUsed, memoryUsed)
    ensures Counts(v, place, nodes, i + 1, Add(coresUsed, p, Virtual.ReqCores(v, nodes[i])),
      Add(memoryUsed, p, Virtual.ReqMemory(v, nodes[i])))
  {
    forall q ensures Get(Add(coresUsed, p, Virtual.ReqCores(v, nodes[i])), q) == Charged(v, Cores, place, nodes, i + 1, q) &&
      Get(Add(memoryUsed, p, Virtual.ReqMemory(v, nodes[i])), q) == Charged(v, Memory, place, nodes, i + 1, q)
    {
      ChargedStep(v, Cores, place, nodes, i, q);
      ChargedStep(v, Memory, place, nodes, i, q);
    }
  }

  /** A node that leaves its machine within both capacities keeps every machine within them. */
  lemma WithinStep(v: Virtual.VirtualNet, g: Physical.Network, place: map<NodeId, NodeId>, nodes: seq<NodeId>, i: nat, p: NodeId)
    requires i < |nodes| && nodes[i] in place && place[nodes[i]] == p && WithinUpTo(v, g, place, nodes, i)
    requires Charged(v, Cores, place, nodes, i + 1, p) <= Physical.Cores(g, p)
    requires Charged(v, Memory, place, nodes, i + 1, p) <= Physical.Memory(g, p)
    ensures WithinUpTo(v, g, place, nodes, i + 1)
  {
    forall q ensures Charged(v, Cores, place, nodes, i + 1, q) <= Physical.Cores(g, q) &&
      Charged(v, Memory, place, nodes, i + 1, q) <= Physical.Memory(g, q)
    {
      ChargedStep(v, Cores, place, nodes, i, q);
      ChargedStep(v, Memory, place, nodes, i, q);
    }
  }

  /** Within capacities after every node is within them for the whole list. */
  lemma WithinDone(v: Virtual.VirtualNet, g: Physical.Network, place: map<NodeId, NodeId>, nodes: seq<NodeId>)
    requires WithinUpTo(v, g, place, nodes, |nodes|)
    ensures EmbedVerify.NodesWithin(v, g, place, nodes)
  {
    assert nodes[..|nodes|] == nodes;
  }

  /** A machine over a capacity after some nodes is over it for the whole list. */
  lemma Overloaded(v: Virtual.VirtualNet, g: Physical.Network, res: Resource, place: map<NodeId, NodeId>, nodes: seq<NodeId>,
                   i: nat, p: NodeId)
    requires i <= |nodes| && Charged(v, res, place, nodes, i, p) > LowerBound.Capacity(g, res, p)
    ensures EmbedVerify.Load(v, res, place, nodes, p) > LowerBound.Capacity(g, res, p)
    ensures !EmbedVerify.NodesWithin(v, g, place, nodes)
  {
    ChargedGrows(v, res, place, nodes, i, p);
  }

  /**
   * The assignment loop: node i of virtual.nodes() goes on the machine of
   * draw start + i, and its demands are added to cores_used and
   * memory_used of that machine. When `raises` (the library) a machine
   * over its cores or its memory raises NodeResourceError; otherwise (the
   * mapping revision) the test's `continue` only moves on to the next
   * node. With no machine, the first draw raises IndexError.
   */
  method DrawNodes(v: Virtual.VirtualNet, g: Physical.Network, machines: seq<NodeId>, rng: nat -> nat, start: nat, raises: bool)
    returns (r: Result<map<NodeId, NodeId>>)
    requires Virtual.Valid(v)
    ensures r == Err(IndexError) <==> |machines| == 0 && |v.nodes| > 0
    ensures r.Err? ==> r.error == IndexError || r.error.NodeResource?
    ensures |machines| > 0 || |v.nodes| == 0 ==> (r.Ok? <==>
      !raises || EmbedVerify.NodesWithin(v, g, Draws(v.nodes, machines, rng, start), v.nodes))
    ensures r.Ok? ==> r.value == Draws(v.nodes, machines, rng, start)
    ensures r.Err? && r.error.NodeResource? ==> (raises &&
      EmbedVerify.Load(v, r.error.resource, Draws(v.nodes, machines, rng, start), v.nodes, r.error.node) >
        LowerBound.Capacity(g, r.error.resource, r.error.node))
  {
    if |machines| == 0 && |v.nodes| > 0 {
      return Err(IndexError);
    }
    ghost var place := Draws(v.nodes, machines, rng, start);
    var mapping: map<NodeId, NodeId> := map[];
    var coresUsed: map<NodeId, nat> := map[];
    var memoryUsed: map<NodeId, nat> := map[];
    var i := 0;
    while i < |v.nodes|
      invariant 0 <= i <= |v.nodes|
      invariant mapping == Draws(v.nodes[..i], machines, rng, start)
      invariant Counts(v, place, v.nodes, i, coresUsed, memoryUsed)
      invariant raises ==> WithinUpTo(v, g, place, v.nodes, i)
    {
      var over;
      over, mapping, coresUsed, memoryUsed :=
        DrawNode(v, g, machines, rng, start, raises, place, i, mapping, coresUsed, memoryUsed);
      if over.Some? {
        return Err(over.value);
      }
      i := i + 1;
    }
    assert v.nodes[..i] == v.nodes;
    if raises {
      WithinDone(v, g, place, v.nodes);
    }
    r := Ok(mapping);
  }

  /**
   * One pass of the assignment loop: node i goes on the machine of draw
   * start + i and its demands are added to that machine's counts; when
   * `raises`, a machine pushed over its cores or its memory is the
   * NodeResourceError returned.
   */
  method DrawNode(v: Virtual.VirtualNet, g: Physical.Network, machines: seq<NodeId>, rng: nat -> nat, start: nat,
                  raises: bool, ghost place: map<NodeId, NodeId>, i: nat, mapping: map<NodeId, NodeId>,
                  coresUsed: map<NodeId, nat>, memoryUsed: map<NodeId, nat>)
    returns (over: Option<Error>, mapping': map<NodeId, NodeId>, coresUsed': map<NodeId, nat>, memoryUsed': map<NodeId, nat>)
    requires Virtual.Valid(v) && |machines| > 0 && i < |v.nodes| && place == Draws(v.nodes, machines, rng, start)
    requires mapping == Draws(v.nodes[..i], machines, rng, start) && Counts(v, place, v.nodes, i, coresUsed, memoryUsed)
    requires raises ==> WithinUpTo(v, g, place, v.nodes, i)
    ensures mapping' == Draws(v.nodes[..i + 1], machines, rng, start)
    ensures Counts(v, place, v.nodes, i + 1, coresUsed', memoryUsed')
    ensures over.None? && raises ==> WithinUpTo(v, g, place, v.nodes, i + 1)
    ensures over.Some? ==> raises && over.value.NodeResource? && !EmbedVerify.NodesWithin(v, g, place, v.nodes)
    ensures over.Some? ==> (EmbedVerify.Load(v, over.value.resource, place, v.nodes, over.value.node) >
      LowerBound.Capacity(g, over.value.resource, over.value.node))
  {
    var u := v.nodes[i];
    var p := Drawn(machines, rng, start + i);
    DrawsAt(v.nodes, machines, rng, start, i);
    DrawsNext(v.nodes, machines, rng, start, i);
    mapping' := mapping[u := p];
    CountStep(v, place, v.nodes, i, p, coresUsed, memoryUsed);
    coresUsed' := Add(coresUsed, p, Virtual.ReqCores(v, u));
    memoryUsed' := Add(memoryUsed, p, Virtual.ReqMemory(v, u));
    over := None;
    if Get(coresUsed', p) > Physical.Cores(g, p) || Get(memoryUsed', p) > Physical.Memory(g, p) {
      if raises {
        var res := if Get(coresUsed', p) > Physical.Cores(g, p) then Cores else Memory;
        Overloaded(v, g, res, place, v.nodes, i + 1, p);
        over := Some(NodeResource(p, res));
      }
    } else if raises {
      WithinStep(v, g, place, v.nodes, i, p);
    }
  }

  /*
   * The interface draw.
   */

  /** [id for id in interfaces_ids(i, j) if rate(i, j, id) - rate_used[(i, j, id)] >= req]. */
  function Feasible(ifs: seq<Physical.Interface>, i: NodeId, j: NodeId, req: nat, used: Used): (r: seq<Key>)
    ensures |r| <= |ifs|
    ensures forall key :: key in r <==>
      exists l :: 0 <= l < |ifs| && ifs[l].key == key && PairRouting.Room(i, j, ifs[l], req, used)
  {
    if |ifs| == 0 then []
    else
      var rest := Feasible(ifs[1..], i, j, req, used);
      assert forall l :: 1 <= l < |ifs| ==> ifs[1..][l - 1] == ifs[l];
      if PairRouting.Room(i, j, ifs[0], req, used) then [ifs[0].key] + rest else rest
  }

  /** random.choice over the feasible interfaces with the number drawn; None when the list is empty. */
  function ChooseDrawn(g: Physical.Network, i: NodeId, j: NodeId, req: nat, used: Used, draw: nat): (r: Option<Key>)
    ensures r.Some? <==> PairRouting.AnyRoom(g, i, j, req, used)
    ensures r.Some? ==> PairRouting.KeyHasRoom(g, i, j, req, used, r.value)
  {
    var ifs := Physical.InterfacesOf(g, i, j);
    var feasible := Feasible(ifs, i, j, req, used);
    if |feasible| == 0 then
      assert forall l :: 0 <= l < |ifs| ==> ifs[l].key !in feasible;
      None
    else
      var key := feasible[draw % |feasible|];
      assert key in feasible;
      Some(key)
  }

  /** No booking on (i, j, id) exceeds the rate of interface id of the link between i and j. */
  ghost predicate DirectedWithin(g: Physical.Network, used: Used)
  {
    forall s :: s in used ==>
      exists l :: (0 <= l < |Physical.InterfacesOf(g, s.0, s.1)| &&
        Physical.InterfacesOf(g, s.0, s.1)[l].key == s.2 && used[s] <= Physical.InterfacesOf(g, s.0, s.1)[l].rate)
  }

  /** Booking req on an interface the feasibility test let through keeps every booking within its rate. */
  lemma BookDirected(g: Physical.Network, used: Used, i: NodeId, j: NodeId, key: Key, req: nat)
    requires DirectedWithin(g, used) && PairRouting.KeyHasRoom(g, i, j, req, used, key)
    ensures DirectedWithin(g, Add(used, (i, j, key), req))
  {
    var ifs := Physical.InterfacesOf(g, i, j);
    var l :| 0 <= l < |ifs| && ifs[l].key == key && PairRouting.Room(i, j, ifs[l], req, used);
    var booked := Add(used, (i, j, key), req);
    forall s | s in booked
      ensures exists m :: (0 <= m < |Physical.InterfacesOf(g, s.0, s.1)| &&
        Physical.InterfacesOf(g, s.0, s.1)[m].key == s.2 && booked[s] <= Physical.InterfacesOf(g, s.0, s.1)[m].rate)
    {
      if s == (i, j, key) {
        assert booked[s] == Get(used, s) + req;
        assert ifs[l].key == s.2 && booked[s] <= ifs[l].rate;
      } else {
        assert s in used && booked[s] == used[s];
      }
    }
  }

  /*
   * The link phase of the library.
   */

  /** Hop k has the ends of step k of the path and an interface that had room once the earlier hops were booked. */
  ghost predicate DrawnHop(g: Physical.Network, path: seq<Hop<Key>>, used: Used, req: nat, hops: seq<Hop<Key>>, k: nat)
    requires k < |hops| && k < |path|
  {
    hops[k].src == path[k].src && hops[k].dst == path[k].dst &&
    PairRouting.KeyHasRoom(g, hops[k].src, hops[k].dst, req, Placement.Charge(used, hops[..k], req), hops[k].device)
  }

  lemma DrawnHopExtend(g: Physical.Network, path: seq<Hop<Key>>, used: Used, req: nat, hops: seq<Hop<Key>>, hop: Hop<Key>)
    requires |hops| < |path|
    requires forall k :: 0 <= k < |hops| ==> DrawnHop(g, path, used, req, hops, k)
    requires hop.src == path[|hops|].src && hop.dst == path[|hops|].dst
    requires PairRouting.KeyHasRoom(g, hop.src, hop.dst, req, Placement.Charge(used, hops, req), hop.device)
    ensures forall k :: 0 <= k <= |hops| ==> DrawnHop(g, path, used, req, hops + [hop], k)
    ensures Placement.Charge(used, hops + [hop], req) == Add(Placement.Charge(used, hops, req), Placement.Slot(hop), req)
  {
    var hs := hops + [hop];
    assert hs[..|hops|] == hops;
    forall k | 0 <= k < |hops| ensures DrawnHop(g, path, used, req, hs, k) {
      assert DrawnHop(g, path, used, req, hops, k);
      assert hs[..k] == hops[..k];
    }
  }

  /**
   * The hop loop of the library for one virtual link, as the `for (i, j)`
   * over the path was evidently meant to read (`for (i, j, _)`): each hop
   * draws one of the interfaces whose rate minus rate_used[(i, j, id)]
   * covers the request, books the request there and is written from
   * next_node. When no interface has room, LinkCapacityError: `failed`,
   * with the hops drawn before.
   */
  method DrawHops(g: Physical.Network, path: seq<Hop<Key>>, pu: NodeId, pv: NodeId, req: nat, used: Used,
                  rng: nat -> nat, start: nat)
    returns (hops: seq<Hop<Key>>, booked: Used, failed: bool, next: nat)
    requires Chains(path, pu, pv) && DirectedWithin(g, used)
    ensures next >= start && |hops| <= |path| && (failed <==> |hops| < |path|)
    ensures forall k :: 0 <= k < |hops| ==> DrawnHop(g, path, used, req, hops, k)
    ensures booked == Placement.Charge(used, hops, req) && DirectedWithin(g, booked)
    ensures failed ==> !PairRouting.AnyRoom(g, path[|hops|].src, path[|hops|].dst, req, booked)
  {
    hops, booked, next := [], used, start;
    var nextNode := pu;
    var k := 0;
    while k < |path|
      invariant 0 <= k <= |path| && |hops| == k && next >= start
      invariant k < |path| ==> nextNode == path[k].src
      invariant forall m :: 0 <= m < k ==> DrawnHop(g, path, used, req, hops, m)
      invariant booked == Placement.Charge(used, hops, req) && DirectedWithin(g, booked)
    {
      var i, j := path[k].src, path[k].dst;
      var chosen := ChooseDrawn(g, i, j, req, booked, rng(next));
      if chosen.None? {
        return hops, booked, true, next;
      }
      next := next + 1;
      var key := chosen.value;
      BookDirected(g, booked, i, j, key, req);
      var hop := if i == nextNode then Hop(i, j, key) else Hop(j, i, key);
      nextNode := if i == nextNode then j else i;
      DrawnHopExtend(g, path, used, req, hops, hop);
      booked := Add(booked, (i, j, key), req);
      hops := hops + [hop];
      k := k + 1;
    }
    failed := false;
  }

  /** Hops with the steps of a path find_path returned chain like it and run along links of the network. */
  lemma FollowsPath(g: Physical.Network, path: seq<Hop<Key>>, pu: NodeId, pv: NodeId, used: Used, req: nat, hops: seq<Hop<Key>>)
    requires Physical.Valid(g) && Chains(path, pu, pv) && SimpleHops(path, pv)
    requires forall k :: 0 <= k < |path| ==> path[k].dst in Physical.Neighbors(g, path[k].src)
    requires |hops| == |path| && forall k :: 0 <= k < |hops| ==> DrawnHop(g, path, used, req, hops, k)
    ensures Chains(hops, pu, pv) && SimpleHops(hops, pv) && Placement.OnLinks(g, hops)
  {
    forall k | 0 <= k < |hops|
      ensures hops[k].src == path[k].src && hops[k].dst == path[k].dst
      ensures Physical.LinkBetween(g, hops[k].src, hops[k].dst).Some?
    {
      assert DrawnHop(g, path, used, req, hops, k);
      assert path[k].src in g.adj;
      PairRouting.OnAdjacency(g, path[k].src, path[k].dst);
    }
  }

  /**
   * One link of the library's link loop: find_path between the two
   * machines (NoPathFoundError when there is none), then the hop loop,
   * which raises LinkCapacityError at a hop with no interface with room.
   */
  method LibraryHops(g: Physical.Network, pu: NodeId, pv: NodeId, req: nat, used: Used, rng: nat -> nat, start: nat)
    returns (r: Result<(seq<Hop<Key>>, Used)>, next: nat)
    requires Physical.Valid(g) && pu in g.adj && DirectedWithin(g, used)
    ensures next >= start
    ensures r.Err? ==> r.error in {NoPathFound, LinkCapacity}
    ensures r.Ok? ==> Chains(r.value.0, pu, pv) && SimpleHops(r.value.0, pv) && Placement.OnLinks(g, r.value.0)
    ensures r.Ok? ==> r.value.1 == Placement.Charge(used, r.value.0, req) && DirectedWithin(g, r.value.1)
  {
    var found := Physical.FindPath(g, pu, pv, 0, map[]);
    if found.Err? {
      return Err(NoPathFound), start;
    }
    var hops, booked, failed;
    hops, booked, failed, next := DrawHops(g, found.value, pu, pv, req, used, rng, start);
    if failed {
      return Err(LinkCapacity), next;
    }
    FollowsPath(g, found.value, pu, pv, used, req, hops);
    r := Ok((hops, booked));
  }

  /**
   * The link loop of the library: every link of sorted_edges() whose ends
   * sit on two machines gets find_path(phy_u, phy_v) (NoPathFoundError is
   * not caught) and the hop loop, which raises LinkCapacityError when a hop
   * has no interface with room. A missing end is Python's KeyError.
   */
  method LibraryLinks(v: Virtual.VirtualNet, g: Physical.Network, mapping: map<NodeId, NodeId>, rng: nat -> nat, start: nat)
    returns (r: Result<(EmbedVerify.Routing, seq<Pair>, Used)>, next: nat)
    requires Physical.Valid(g)
    requires forall u :: u in mapping ==> mapping[u] in g.adj
    ensures next >= start
    ensures r.Err? ==> r.error in {KeyError, NoPathFound, LinkCapacity}
    ensures r.Ok? ==> Enumerates(r.value.1, r.value.0) && DirectedWithin(g, r.value.2)
    ensures r.Ok? ==> forall t :: 0 <= t < |v.links| ==>
      (var e := Normalise(v.links[t].u, v.links[t].v);
        Placement.Crossing(mapping, e) ==> Placement.RoutedBy(mapping, r.value.0, e))
    ensures r.Ok? ==> forall e :: e in r.value.0 ==>
      Placement.Crossing(mapping, e) && Placement.OnLinks(g, r.value.0[e]) &&
      exists t :: 0 <= t < |v.links| && e == Normalise(v.links[t].u, v.links[t].v)
  {
    var edges := Virtual.SortedList(v.links);
    var routing: EmbedVerify.Routing := map[];
    var pathOrder: seq<Pair> := [];
    var used: Used := map[];
    next := start;
    var t := 0;
    while t < |edges|
      invariant 0 <= t <= |edges| && next >= start
      invariant DirectedWithin(g, used) && Enumerates(pathOrder, routing)
      invariant PairRouting.RoutedUpTo(mapping, routing, edges, t) && PairRouting.RoutesListed(g, mapping, routing, edges, t)
    {
      var e := edges[t];
      if e.0 !in mapping || e.1 !in mapping {
        return Err(KeyError), next;
      }
      var pu, pv := mapping[e.0], mapping[e.1];
      if pu != pv {
        var req := Virtual.ReqRate(v, e.0, e.1);
        var routed;
        routed, next := LibraryHops(g, pu, pv, req, used, rng, next);
        if routed.Err? {
          return Err(routed.error), next;
        }
        var hops := routed.value.0;
        used := routed.value.1;
        PairRouting.RouteAdd(g, mapping, routing, edges, t, hops);
        EnumeratesPut(pathOrder, routing, e, hops);
        if e !in routing {
          pathOrder := pathOrder + [e];
        }
        routing := routing[e := hops];
      } else {
        PairRouting.RouteSkip(g, mapping, routing, edges, t);
      }
      t := t + 1;
    }
    r := Ok((routing, pathOrder, used));
  }

  /**
   * The link loop as written: `for (i, j) in self.physical.find_path(...)`
   * unpacks each (i, j, device_id) triple find_path returns into two
   * names, so the first hop of the first link whose ends sit on two
   * machines raises ValueError; only a placement that keeps every link on
   * one machine gets through, with no path at all.
   */
  method LibraryLinksAsWritten(v: Virtual.VirtualNet, g: Physical.Network, mapping: map<NodeId, NodeId>)
    returns (r: Result<(EmbedVerify.Routing, seq<Pair>)>)
    requires Physical.Valid(g)
    requires forall u :: u in mapping ==> mapping[u] in g.adj
    ensures r.Err? ==> r.error in {KeyError, NoPathFound, ValueError}
    ensures r.Ok? <==> forall t :: 0 <= t < |v.links| ==>
      (var e := Normalise(v.links[t].u, v.links[t].v); e.0 in mapping && e.1 in mapping && !Placement.Crossing(mapping, e))
    ensures r.Ok? ==> r.value == (map[], [])
  {
    var edges := Virtual.SortedList(v.links);
    var t := 0;
    while t < |edges|
      invariant 0 <= t <= |edges|
      invariant forall s :: 0 <= s < t ==> edges[s].0 in mapping && edges[s].1 in mapping && !Placement.Crossing(mapping, edges[s])
    {
      var e := edges[t];
      if e.0 !in mapping || e.1 !in mapping {
        return Err(KeyError);
      }
      var pu, pv := mapping[e.0], mapping[e.1];
      if pu != pv {
        var found := Physical.FindPath(g, pu, pv, 0, map[]);
        if found.Err? {
          return Err(NoPathFound);
        }
        return Err(ValueError);
      }
      t := t + 1;
    }
    r := Ok((map[], []));
  }

  /*
   * The library's attempts and restart loop.
   */

  /** Placed nodes sit on compute nodes, which the adjacency lists. */
  lemma DrawnOnMachines(v: Virtual.VirtualNet, g: Physical.Network, machines: seq<NodeId>, rng: nat -> nat, start: nat)
    requires Physical.Valid(g) && (|v.nodes| == 0 || |machines| > 0)
    requires forall t :: 0 <= t < |machines| ==> machines[t] in Physical.ComputeNodes(g)
    ensures KBalanced.OnMachines(g, Draws(v.nodes, machines, rng, start))
    ensures forall u :: u in Draws(v.nodes, machines, rng, start) ==> Draws(v.nodes, machines, rng, start)[u] in g.adj
  {
    var m := Draws(v.nodes, machines, rng, start);
    forall u | u in m ensures m[u] in Physical.ComputeNodes(g) && m[u] in g.adj {
      var t :| 0 <= t < |machines| && machines[t] == m[u];
    }
  }

  /**
   * The body of the `try` of the library's RandomSelection.solve, with the
   * hop loop as evidently intended: the drawn placement, the routed links,
   * and build_solution with its check. `next` is where the stream stands
   * afterwards.
   */
  method LibraryAttempt(v: Virtual.VirtualNet, g: Physical.Network, machines: seq<NodeId>, rng: nat -> nat, start: nat)
    returns (o: Placement.Outcome, next: nat)
    requires Virtual.Valid(v) && Physical.Valid(g)
    requires forall t :: 0 <= t < |machines| ==> machines[t] in Physical.ComputeNodes(g)
    requires g.grouped ==> KBalanced.MachinesApart(g)
    ensures next >= start
    ensures o.Solved? ==> |machines| > 0 || |v.nodes| == 0
    ensures o.Solved? ==> o.mapping == Draws(v.nodes, machines, rng, start)
    ensures o.Solved? ==> KBalanced.OnMachines(g, o.mapping) && forall u :: u in o.mapping <==> u in v.nodes
    ensures o.Solved? ==> exists order, pathOrder :: EmbedVerify.Verified(v, g, o.mapping, order, o.routing, pathOrder)
    ensures |machines| == 0 && |v.nodes| > 0 ==> o == Placement.Raised(IndexError)
    ensures !o.Infeasible?
  {
    var drawn := DrawNodes(v, g, machines, rng, start, true);
    next := start + |v.nodes|;
    if drawn.Err? {
      return Placement.Raised(drawn.error), next;
    }
    var mapping := drawn.value;
    DrawnOnMachines(v, g, machines, rng, start);
    var routed, n := LibraryLinks(v, g, mapping, rng, next);
    next := n;
    if routed.Err? {
      return Placement.Raised(routed.error), next;
    }
    var routing, pathOrder := routed.value.0, routed.value.1;
    if g.grouped {
      KBalanced.RoutesEndApart(g, mapping, routing);
    }
    var built := EmbedBuild.BuildSolution(v, g, mapping, v.nodes, routing, pathOrder, true);
    match built {
      case Returns(_) => o := Placement.Solved(mapping, routing);
      case Raises(err) => o := Placement.Raised(err);
      case Diverges => o := Placement.Diverges;
    }
  }

  /** Some virtual link has its two ends on two different machines. */
  ghost predicate SomeCrossing(v: Virtual.VirtualNet, mapping: map<NodeId, NodeId>)
  {
    exists t :: 0 <= t < |v.links| && Placement.Crossing(mapping, Normalise(v.links[t].u, v.links[t].v))
  }

  /**
   * Routing and building as written, once the nodes are placed: any link
   * across two machines raises before build_solution is reached.
   */
  method RouteAndBuildAsWritten(v: Virtual.VirtualNet, g: Physical.Network, mapping: map<NodeId, NodeId>)
    returns (o: Placement.Outcome)
    requires Virtual.Valid(v) && Physical.Valid(g)
    requires forall u :: u in mapping ==> mapping[u] in g.adj
    requires forall u :: u in mapping <==> u in v.nodes
    ensures o.Solved? ==> o.mapping == mapping && o.routing == map[] && !SomeCrossing(v, mapping)
    ensures o.Solved? ==> EmbedVerify.Verified(v, g, mapping, v.nodes, map[], [])
    ensures SomeCrossing(v, mapping) ==> o.Raised? && o.error in {KeyError, NoPathFound, ValueError}
    ensures !o.Infeasible?
  {
    var routed := LibraryLinksAsWritten(v, g, mapping);
    if routed.Err? {
      return Placement.Raised(routed.error);
    }
    assert !SomeCrossing(v, mapping);
    var built := EmbedBuild.BuildSolution(v, g, mapping, v.nodes, map[], [], true);
    match built {
      case Returns(_) => o := Placement.Solved(mapping, map[]);
      case Raises(err) => o := Placement.Raised(err);
      case Diverges => o := Placement.Diverges;
    }
  }

  /**
   * The same attempt as written: the hop loop's unpacking raises
   * ValueError on the first link whose ends sit on two machines, so an
   * attempt succeeds only when the draws put every virtual link on a
   * single machine.
   */
  method LibraryAttemptAsWritten(v: Virtual.VirtualNet, g: Physical.Network, machines: seq<NodeId>, rng: nat -> nat, start: nat)
    returns (o: Placement.Outcome)
    requires Virtual.Valid(v) && Physical.Valid(g)
    requires forall t :: 0 <= t < |machines| ==> machines[t] in Physical.ComputeNodes(g)
    ensures o.Solved? ==> |machines| > 0 || |v.nodes| == 0
    ensures o.Solved? ==> o.mapping == Draws(v.nodes, machines, rng, start) && o.routing == map[]
    ensures o.Solved? ==> !SomeCrossing(v, o.mapping)
    ensures |machines| > 0 && SomeCrossing(v, Draws(v.nodes, machines, rng, start)) ==>
      o.Raised? && (o.error.NodeResource? || o.error in {KeyError, NoPathFound, ValueError})
    ensures !o.Infeasible?
  {
    var drawn := DrawNodes(v, g, machines, rng, start, true);
    if drawn.Err? {
      return Placement.Raised(drawn.error);
    }
    DrawnOnMachines(v, g, machines, rng, start);
    o := RouteAndBuildAsWritten(v, g, drawn.value);
  }

  /**
   * RandomSelection.solve of the library: attempts from the seeded stream
   * until one does not raise NodeResourceError or LinkCapacityError. The
   * source's `while True` has no bound; the model stops after `fuel`
   * attempts and answers Diverges, the attempts the source would go on
   * making.
   */
  method SolveLibrary(solver: Placement.EmbedSolver, rng: nat -> nat, fuel: nat) returns (o: Placement.Outcome)
    requires Virtual.Valid(solver.virtual) && Physical.Valid(solver.physical)
    requires solver.physical.grouped ==> KBalanced.MachinesApart(solver.physical)
    modifies solver
    ensures o.Solved? ==> KBalanced.OnMachines(solver.physical, o.mapping)
    ensures o.Solved? ==> forall u :: u in o.mapping <==> u in solver.virtual.nodes
    ensures o.Solved? ==> exists order, pathOrder ::
      EmbedVerify.Verified(solver.virtual, solver.physical, o.mapping, order, o.routing, pathOrder)
    ensures o.Raised? ==> !LegacySolve.Caught(o.error)
    ensures fuel > 0 && Physical.ComputeNodes(solver.physical) == {} && |solver.virtual.nodes| > 0 ==> o == Placement.Raised(IndexError)
    ensures !o.Infeasible?
    ensures o.Solved? ==> solver.status == Status.Solved && solver.solution == Some((o.mapping, o.routing))
    ensures !o.Solved? ==> solver.status == old(solver.status) && solver.solution == old(solver.solution)
  {
    var machines := Ascending(Physical.ComputeNodes(solver.physical));
    assert Physical.ComputeNodes(solver.physical) == {} ==> |machines| == 0;
    o := LibraryRetries(solver.virtual, solver.physical, machines, rng, fuel);
    if o.Solved? {
      solver.Record(o);
    }
  }

  /** The `while True` of the library's solve, on the sorted machines, with at most `fuel` attempts. */
  method LibraryRetries(v: Virtual.VirtualNet, g: Physical.Network, machines: seq<NodeId>, rng: nat -> nat, fuel: nat)
    returns (o: Placement.Outcome)
    requires Virtual.Valid(v) && Physical.Valid(g)
    requires forall t :: 0 <= t < |machines| ==> machines[t] in Physical.ComputeNodes(g)
    requires g.grouped ==> KBalanced.MachinesApart(g)
    ensures o.Solved? ==> KBalanced.OnMachines(g, o.mapping) && forall u :: u in o.mapping <==> u in v.nodes
    ensures o.Solved? ==> exists order, pathOrder :: EmbedVerify.Verified(v, g, o.mapping, order, o.routing, pathOrder)
    ensures o.Raised? ==> !LegacySolve.Caught(o.error)
    ensures fuel > 0 && |machines| == 0 && |v.nodes| > 0 ==> o == Placement.Raised(IndexError)
    ensures !o.Infeasible?
  {
    var next := 0;
    var tries := 0;
    while tries < fuel
      invariant |machines| == 0 && |v.nodes| > 0 ==> tries == 0
    {
      var attempt, n := LibraryAttempt(v, g, machines, rng, next);
      next := n;
      if !(attempt.Raised? && LegacySolve.Caught(attempt.error)) {
        return attempt;
      }
      tries := tries + 1;
    }
    o := Placement.Diverges;
  }

  /*
   * The mapping revision: one pass, overloads kept.
   */

  /** Each key had room on its pair once the keys before it were booked. */
  ghost predicate Roomy(g: Physical.Network, pairs: seq<Pair>, used: Used, req: nat, keys: seq<Key>)
    decreases |keys|
  {
    |keys| <= |pairs| &&
    (|keys| == 0 ||
      var k := |keys| - 1;
      Roomy(g, pairs, used, req, keys[..k]) &&
      PairRouting.KeyHasRoom(g, pairs[k].0, pairs[k].1, req, PairRouting.Book(used, pairs, keys[..k], req), keys[k]))
  }

  /** The first n numbers of the stream from position start on. */
  function Stream(rng: nat -> nat, start: nat, n: nat): (r: seq<nat>)
    ensures |r| == n
  {
    if n == 0 then [] else Stream(rng, start, n - 1) + [rng(start + n - 1)]
  }

  /** The k-th number of the stream from start is the one at start + k. */
  lemma {:induction false} StreamAt(rng: nat -> nat, start: nat, n: nat, k: nat, at: nat)
    requires k < n && at == start + k
    ensures Stream(rng, start, n)[k] == rng(at)
    decreases n
  {
    if k < n - 1 {
      StreamAt(rng, start, n - 1, k, at);
    }
  }

  /** The k-th key is random.choice, with the k-th number drawn, among the interfaces with room then. */
  ghost predicate Drew(g: Physical.Network, pairs: seq<Pair>, used: Used, req: nat, draws: seq<nat>, keys: seq<Key>)
    decreases |keys|
  {
    |keys| <= |pairs| && |keys| <= |draws| &&
    (|keys| == 0 ||
      var k := |keys| - 1;
      Drew(g, pairs, used, req, draws, keys[..k]) &&
      ChooseDrawn(g, pairs[k].0, pairs[k].1, req, PairRouting.Book(used, pairs, keys[..k], req), draws[k]) == Some(keys[k]))
  }

  /** Drawn keys had room when they were drawn. */
  lemma {:induction false} DrewRoomy(g: Physical.Network, pairs: seq<Pair>, used: Used, req: nat, draws: seq<nat>,
                                     keys: seq<Key>)
    requires Drew(g, pairs, used, req, draws, keys)
    ensures Roomy(g, pairs, used, req, keys)
    decreases |keys|
  {
    if |keys| > 0 {
      DrewRoomy(g, pairs, used, req, draws, keys[..|keys| - 1]);
    }
  }

  /** After the keys drawn so far, no interface of the next pair has room. */
  ghost predicate Exhausted(g: Physical.Network, pairs: seq<Pair>, used: Used, req: nat, keys: seq<Key>)
  {
    |keys| < |pairs| &&
    !PairRouting.AnyRoom(g, pairs[|keys|].0, pairs[|keys|].1, req, PairRouting.Book(used, pairs, keys, req))
  }

  /** The hop loop's invariant after |hops| pairs. */
  ghost predicate DrawsUpTo(g: Physical.Network, pairs: seq<Pair>, walk: seq<NodeId>, used: Used, req: nat,
                            draws: seq<nat>, hops: seq<Hop<Key>>, tried: seq<Key>, booked: Used)
  {
    |draws| == |pairs| &&
    AlongUpTo(g, pairs, walk, hops) && Placement.Within(g, booked) && PairRouting.SortedSlots(booked) &&
    tried == PairRouting.Devices(hops) &&
    Drew(g, pairs, used, req, draws, tried) && booked == PairRouting.Book(used, pairs, tried, req)
  }

  /** A drawn hop, booked on its pair, keeps the hop loop's invariant. */
  lemma DrawStep(g: Physical.Network, pairs: seq<Pair>, walk: seq<NodeId>, used: Used, req: nat, draws: seq<nat>,
                 hops: seq<Hop<Key>>, tried: seq<Key>, booked: Used, hop: Hop<Key>, booked': Used)
    requires DrawsUpTo(g, pairs, walk, used, req, draws, hops, tried, booked) && |hops| < |pairs|
    requires ChooseDrawn(g, pairs[|hops|].0, pairs[|hops|].1, req, booked, draws[|hops|]) == Some(hop.device)
    requires booked' == Add(booked, (pairs[|hops|].0, pairs[|hops|].1, hop.device), req)
    requires Placement.Within(g, booked') && PairRouting.SortedSlots(booked') && AlongUpTo(g, pairs, walk, hops + [hop])
    ensures DrawsUpTo(g, pairs, walk, used, req, draws, hops + [hop], tried + [hop.device], booked')
  {
    DrewExtend(g, pairs, used, req, draws, tried, hop.device);
    PairRouting.DevicesSnoc(hops, hop);
  }

  /** Drawing one more key books it on the next pair on top of the earlier bookings. */
  lemma DrewExtend(g: Physical.Network, pairs: seq<Pair>, used: Used, req: nat, draws: seq<nat>, keys: seq<Key>, key: Key)
    requires Drew(g, pairs, used, req, draws, keys) && |keys| < |pairs| && |keys| < |draws|
    requires ChooseDrawn(g, pairs[|keys|].0, pairs[|keys|].1, req, PairRouting.Book(used, pairs, keys, req),
                         draws[|keys|]) == Some(key)
    ensures Drew(g, pairs, used, req, draws, keys + [key])
    ensures PairRouting.Book(used, pairs, keys + [key], req) ==
      Add(PairRouting.Book(used, pairs, keys, req), (pairs[|keys|].0, pairs[|keys|].1, key), req)
  {
    PairRouting.BookSnoc(used, pairs, keys, key, req);
  }

  /**
   * The hop loop of the mapping revision for one virtual link: each pair
   * of the memoised path gets an interface drawn among those with room
   * (random.choice of an empty list raises IndexError; the `is None`
   * test never holds), booked on (i, j, interface) and written in the
   * direction of next_node. The hops follow the path from u's machine to
   * v's.
   */
  method MappingHops(g: Physical.Network, pairs: seq<Pair>, pu: NodeId, pv: NodeId, req: nat, used: Used,
                     ghost walk: seq<NodeId>, rng: nat -> nat, start: nat)
    returns (r: Result<(seq<Hop<Key>>, Used)>, next: nat, ghost tried: seq<Key>)
    requires Physical.Valid(g) && Placement.Within(g, used) && PairRouting.SortedSlots(used)
    requires MemoPath.SimplePath(g.adj, pu, pv, walk) && pairs == MemoPath.PairsOf(walk) && pu != pv
    ensures next == start + |tried| && Drew(g, pairs, used, req, Stream(rng, start, |pairs|), tried)
    ensures r.Err? ==> r.error == IndexError && Exhausted(g, pairs, used, req, tried)
    ensures r.Ok? ==> DrawsUpTo(g, pairs, walk, used, req, Stream(rng, start, |pairs|), r.value.0, tried, r.value.1)
    ensures r.Ok? ==> |r.value.0| == |pairs| && Chains(r.value.0, pu, pv) && SimpleHops(r.value.0, pv)
  {
    r, next, tried := DrawAlong(g, pairs, pu, pv, req, used, walk, rng, start);
    if r.Ok? {
      PairRouting.WalkHops(g, pairs, pu, pv, walk, r.value.0);
    }
  }

  /**
   * The loop of MappingHops on its own: the interfaces drawn pair by pair
   * along the walk, and where the draws stopped.
   */
  method DrawAlong(g: Physical.Network, pairs: seq<Pair>, pu: NodeId, pv: NodeId, req: nat, used: Used,
                   ghost walk: seq<NodeId>, rng: nat -> nat, start: nat)
    returns (r: Result<(seq<Hop<Key>>, Used)>, next: nat, ghost tried: seq<Key>)
    requires Physical.Valid(g) && Placement.Within(g, used) && PairRouting.SortedSlots(used)
    requires MemoPath.SimplePath(g.adj, pu, pv, walk) && pairs == MemoPath.PairsOf(walk) && pu != pv
    ensures next == start + |tried| && Drew(g, pairs, used, req, Stream(rng, start, |pairs|), tried)
    ensures r.Err? ==> r.error == IndexError && Exhausted(g, pairs, used, req, tried)
    ensures r.Ok? ==> |r.value.0| == |pairs|
    ensures r.Ok? ==> DrawsUpTo(g, pairs, walk, used, req, Stream(rng, start, |pairs|), r.value.0, tried, r.value.1)
  {
    var hops: seq<Hop<Key>> := [];
    var booked := used;
    var nextNode := pu;
    next := start;
    tried := [];
    ghost var draws := Stream(rng, start, |pairs|);
    var k := 0;
    while k < |pairs|
      invariant 0 <= k <= |pairs| && |hops| == k && nextNode == walk[k]
      invariant next == start + k && DrawsUpTo(g, pairs, walk, used, req, draws, hops, tried, booked)
    {
      var step := MappingHop(g, pairs, pu, pv, req, used, walk, draws, hops, tried, booked, k, nextNode, rng, start, next);
      if step.None? {
        return Err(IndexError), next, tried;
      }
      hops := hops + [step.value.0];
      tried := tried + [step.value.0.device];
      booked := step.value.1;
      nextNode := step.value.0.dst;
      next := next + 1;
      k := k + 1;
    }
    r := Ok((hops, booked));
  }

  /**
   * One pass of the hop loop: an interface drawn with the stream's number
   * at `next` among those of the next pair with room, booked on (i, j,
   * interface), and the hop written from next_node; None when no
   * interface has room.
   */
  method MappingHop(g: Physical.Network, pairs: seq<Pair>, pu: NodeId, pv: NodeId, req: nat, used: Used,
                    ghost walk: seq<NodeId>, ghost draws: seq<nat>, ghost hops: seq<Hop<Key>>, ghost tried: seq<Key>,
                    booked: Used, k: nat, nextNode: NodeId, rng: nat -> nat, start: nat, next: nat)
    returns (r: Option<(Hop<Key>, Used)>)
    requires Physical.Valid(g) && MemoPath.SimplePath(g.adj, pu, pv, walk) && pairs == MemoPath.PairsOf(walk) && pu != pv
    requires DrawsUpTo(g, pairs, walk, used, req, draws, hops, tried, booked)
    requires k == |hops| < |pairs| && nextNode == walk[k]
    requires draws == Stream(rng, start, |pairs|) && next == start + k
    ensures r.None? ==> Exhausted(g, pairs, used, req, tried)
    ensures r.Some? ==> r.value.0.dst == walk[k + 1]
    ensures r.Some? ==> DrawsUpTo(g, pairs, walk, used, req, draws, hops + [r.value.0], tried + [r.value.0.device], r.value.1)
  {
    PairRouting.PairAt(g.adj, pu, pv, walk, k);
    var (i, j) := pairs[k];
    StreamAt(rng, start, |pairs|, k, next);
    var chosen := ChooseDrawn(g, i, j, req, booked, rng(next));
    if chosen.None? {
      return None;
    }
    var key := chosen.value;
    KeyListed(g, i, j, req, booked, key);
    PairRouting.BookKeepsWithin(g, booked, i, j, key, req);
    var hop := if i == nextNode then Hop(i, j, key) else Hop(j, i, key);
    AlongStep(g, pairs, walk, hops, hop, pu, pv);
    DrawStep(g, pairs, walk, used, req, draws, hops, tried, booked, hop, Add(booked, (i, j, key), req));
    r := Some((hop, Add(booked, (i, j, key), req)));
  }

  /** The hops so far follow the walk, pair by pair. */
  ghost predicate AlongUpTo(g: Physical.Network, pairs: seq<Pair>, walk: seq<NodeId>, hops: seq<Hop<Key>>)
  {
    |hops| <= |pairs| && |pairs| + 1 == |walk| &&
    forall m :: 0 <= m < |hops| ==> PairRouting.Along(g, pairs, walk, hops, m)
  }

  /** A hop written in the direction of the walk on an interface of its pair extends the hops along the walk. */
  lemma AlongStep(g: Physical.Network, pairs: seq<Pair>, walk: seq<NodeId>, hops: seq<Hop<Key>>, hop: Hop<Key>,
                  pu: NodeId, pv: NodeId)
    requires MemoPath.SimplePath(g.adj, pu, pv, walk) && pairs == MemoPath.PairsOf(walk) && pu != pv
    requires |hops| < |pairs| && AlongUpTo(g, pairs, walk, hops)
    requires hop.device in Physical.InterfaceIds(g, pairs[|hops|].0, pairs[|hops|].1)
    requires var q := pairs[|hops|];
      (q.0 == walk[|hops|] && hop == Hop(q.0, q.1, hop.device)) || (q.0 != walk[|hops|] && hop == Hop(q.1, q.0, hop.device))
    ensures AlongUpTo(g, pairs, walk, hops + [hop])
    ensures hop.dst == walk[|hops| + 1]
  {
    PairRouting.PairAt(g.adj, pu, pv, walk, |hops|);
    assert PairRouting.Along(g, pairs, walk, hops + [hop], |hops|);
    PairRouting.AlongExtend(g, pairs, walk, hops, hop);
  }

  /** A key with room is an interface id of the pair. */
  lemma KeyListed(g: Physical.Network, i: NodeId, j: NodeId, req: nat, used: Used, key: Key)
    requires PairRouting.KeyHasRoom(g, i, j, req, used, key)
    ensures key in Physical.InterfaceIds(g, i, j)
  {
    var ifs := Physical.InterfacesOf(g, i, j);
    var l :| 0 <= l < |ifs| && ifs[l].key == key && PairRouting.Room(i, j, ifs[l], req, used);
    assert Physical.Keys(ifs)[l] == key;
  }

  /**
   * One crossing link of the mapping revision: the memoised find_path
   * (ValueError when there is none), then the drawn hops, which run along
   * links of the network.
   */
  method MappingRouteOne(g: Physical.Network, paths: MemoPath.PathCache, pu: NodeId, pv: NodeId, req: nat, used: Used,
                         rng: nat -> nat, start: nat)
    returns (r: Result<(seq<Hop<Key>>, Used)>, next: nat, ghost tried: seq<Key>)
    requires paths.Valid() && paths.g == g && pu in g.adj && pu != pv
    requires Placement.Within(g, used) && PairRouting.SortedSlots(used)
    modifies paths
    ensures paths.Valid() && next == start + |tried|
    ensures r.Err? ==> r.error == ValueError || r.error == IndexError
    ensures r.Err? && r.error == IndexError ==>
      ((pu, pv) in paths.computed &&
       Drew(g, paths.computed[(pu, pv)], used, req, Stream(rng, start, |paths.computed[(pu, pv)]|), tried) &&
       Exhausted(g, paths.computed[(pu, pv)], used, req, tried))
    ensures r.Ok? ==>
      (tried == PairRouting.Devices(r.value.0) &&
       Drew(g, PairRouting.PairsAlong(r.value.0), used, req, Stream(rng, start, |r.value.0|), tried) &&
       r.value.1 == PairRouting.Book(used, PairRouting.PairsAlong(r.value.0), tried, req))
    ensures r.Ok? ==> Placement.Within(g, r.value.1) && PairRouting.SortedSlots(r.value.1)
    ensures r.Ok? ==> Chains(r.value.0, pu, pv) && SimpleHops(r.value.0, pv) && Placement.OnLinks(g, r.value.0)
  {
    next, tried := start, [];
    var found := paths.FindPathOrRaise(pu, pv);
    if found.Err? {
      return Err(ValueError), next, tried;
    }
    ghost var walk := paths.walks[(pu, pv)];
    var routed;
    routed, next, tried := MappingHops(g, found.value, pu, pv, req, used, walk, rng, start);
    if routed.Err? {
      return Err(IndexError), next, tried;
    }
    var hops := routed.value.0;
    PairRouting.PairsAlongWalk(g, found.value, walk, hops);
    forall k | 0 <= k < |hops| ensures Physical.LinkBetween(g, hops[k].src, hops[k].dst).Some? {
      assert PairRouting.Along(g, found.value, walk, hops, k);
      assert walk[k] in g.adj && walk[k + 1] in g.adj[walk[k]];
      PairRouting.OnAdjacency(g, walk[k], walk[k + 1]);
    }
    r := routed;
  }

  /** Every booking of the trail had room for each key on top of the bookings before it. */
  ghost predicate TrailRoomy(g: Physical.Network, used: Used, trail: seq<PairRouting.Booking>)
    decreases |trail|
  {
    PairRouting.Sized(trail) &&
    (|trail| == 0 ||
      var n := |trail| - 1;
      TrailRoomy(g, used, trail[..n]) &&
      Roomy(g, trail[n].pairs, PairRouting.Booked(used, trail[..n]), trail[n].req, trail[n].keys))
  }

  /** A booking with room on top of a trail extends it. */
  lemma TrailRoomyExtend(g: Physical.Network, used: Used, trail: seq<PairRouting.Booking>, b: PairRouting.Booking)
    requires TrailRoomy(g, used, trail) && |b.keys| <= |b.pairs|
    requires Roomy(g, b.pairs, PairRouting.Booked(used, trail), b.req, b.keys)
    ensures TrailRoomy(g, used, trail + [b])
  {
    PairRouting.BookedSnoc(used, trail, b);
  }

  /**
   * Where the link loop stopped on IndexError: a crossing sorted link, the
   * path memoised between its machines, and the interfaces drawn on its
   * first pairs before a pair had none with room.
   */
  ghost predicate DrawStuck(v: Virtual.VirtualNet, g: Physical.Network, mapping: map<NodeId, NodeId>,
                            computed: map<(NodeId, NodeId), seq<Pair>>, trail: seq<PairRouting.Booking>,
                            stuck: PairRouting.Booking)
  {
    TrailRoomy(g, map[], trail) &&
    (exists t :: 0 <= t < |v.links| && stuck.edge == Normalise(v.links[t].u, v.links[t].v)) &&
    Placement.Crossing(mapping, stuck.edge) &&
    Virtual.RateIn(v.links, stuck.edge.0, stuck.edge.1) == Some(stuck.req) &&
    (mapping[stuck.edge.0], mapping[stuck.edge.1]) in computed &&
    stuck.pairs == computed[(mapping[stuck.edge.0], mapping[stuck.edge.1])] &&
    Roomy(g, stuck.pairs, PairRouting.Booked(map[], trail), stuck.req, stuck.keys) &&
    Exhausted(g, stuck.pairs, PairRouting.Booked(map[], trail), stuck.req, stuck.keys)
  }

  /**
   * Some trail books the routed links on interfaces that had room when
   * drawn, and what it books leaves every interface within its rate.
   */
  ghost predicate DrawnWithin(v: Virtual.VirtualNet, g: Physical.Network, mapping: map<NodeId, NodeId>,
                              routing: EmbedVerify.Routing)
  {
    exists trail :: TrailRoomy(g, map[], trail) && PairRouting.TrailLinks(v, mapping, routing, trail) &&
      PairRouting.TrailRoutes(routing, trail) && Placement.Within(g, PairRouting.Booked(map[], trail))
  }

  /**
   * The link loop of the mapping revision's RandomSelection: every link of
   * sorted_edges() whose ends sit on two machines is routed with drawn
   * interfaces; a missing end is Python's KeyError.
   */
  method MappingLinks(v: Virtual.VirtualNet, g: Physical.Network, paths: MemoPath.PathCache, mapping: map<NodeId, NodeId>,
                      rng: nat -> nat, start: nat)
    returns (r: Result<(EmbedVerify.Routing, seq<Pair>, Used)>, next: nat,
             ghost trail: seq<PairRouting.Booking>, ghost stuck: PairRouting.Booking)
    requires paths.Valid() && paths.g == g
    requires forall u :: u in mapping ==> mapping[u] in g.adj
    modifies paths
    ensures paths.Valid() && next >= start
    ensures r.Err? ==> r.error in {KeyError, ValueError, IndexError}
    ensures r.Err? && r.error == IndexError ==> DrawStuck(v, g, mapping, paths.computed, trail, stuck)
    ensures r.Ok? ==>
      (TrailRoomy(g, map[], trail) && PairRouting.TrailLinks(v, mapping, r.value.0, trail) &&
       PairRouting.TrailRoutes(r.value.0, trail) && r.value.2 == PairRouting.Booked(map[], trail))
    ensures r.Ok? ==> Placement.Within(g, r.value.2) && Enumerates(r.value.1, r.value.0)
    ensures r.Ok? ==> PairRouting.Routed(v, g, mapping, r.value.0)
  {
    var edges := Virtual.SortedList(v.links);
    var routing: EmbedVerify.Routing := map[];
    var pathOrder: seq<Pair> := [];
    var used: Used := map[];
    trail := [];
    stuck := PairRouting.Booking((0, 0), [], [], 0);
    Placement.NothingUsed(g);
    next := start;
    var t := 0;
    while t < |edges|
      invariant 0 <= t <= |edges| && paths.Valid() && next >= start
      invariant PairRouting.LinksUpTo(v, g, mapping, edges, t, routing, pathOrder, used, trail) && TrailRoomy(g, map[], trail)
    {
      var step;
      step, next, trail, stuck := MappingLink(v, g, paths, mapping, edges, t, routing, pathOrder, used, trail, rng, next);
      if step.Err? {
        return Err(step.error), next, trail, stuck;
      }
      routing, pathOrder, used := step.value.0, step.value.1, step.value.2;
      t := t + 1;
    }
    PairRouting.LinksDone(v, g, mapping, edges, routing, pathOrder, used, trail);
    r := Ok((routing, pathOrder, used));
  }

  /**
   * One pass of the link loop: the t-th sorted link, routed with drawn
   * interfaces when its ends sit on different machines.
   */
  method MappingLink(v: Virtual.VirtualNet, g: Physical.Network, paths: MemoPath.PathCache,
                     mapping: map<NodeId, NodeId>, edges: seq<Pair>, t: nat, routing: EmbedVerify.Routing,
                     pathOrder: seq<Pair>, used: Used, ghost trail: seq<PairRouting.Booking>, rng: nat -> nat, start: nat)
    returns (r: Result<(EmbedVerify.Routing, seq<Pair>, Used)>, next: nat,
             ghost trail': seq<PairRouting.Booking>, ghost stuck: PairRouting.Booking)
    requires paths.Valid() && paths.g == g
    requires forall u :: u in mapping ==> mapping[u] in g.adj
    requires edges == Virtual.SortedList(v.links) && t < |edges|
    requires PairRouting.LinksUpTo(v, g, mapping, edges, t, routing, pathOrder, used, trail) && TrailRoomy(g, map[], trail)
    modifies paths
    ensures paths.Valid() && next >= start
    ensures r.Err? ==> r.error in {KeyError, ValueError, IndexError}
    ensures r.Err? && r.error == IndexError ==> DrawStuck(v, g, mapping, paths.computed, trail', stuck)
    ensures r.Ok? ==> PairRouting.LinksUpTo(v, g, mapping, edges, t + 1, r.value.0, r.value.1, r.value.2, trail')
    ensures r.Ok? ==> TrailRoomy(g, map[], trail')
  {
    next, trail' := start, trail;
    stuck := PairRouting.Booking((0, 0), [], [], 0);
    var e := edges[t];
    if e.0 !in mapping || e.1 !in mapping {
      return Err(KeyError), next, trail', stuck;
    }
    var pu, pv := mapping[e.0], mapping[e.1];
    if pu == pv {
      PairRouting.RouteSkip(g, mapping, routing, edges, t);
      return Ok((routing, pathOrder, used)), next, trail', stuck;
    }
    Placement.SortedLinkHasRate(v, t);
    var req := Virtual.ReqRate(v, e.0, e.1);
    var routed;
    ghost var tried;
    routed, next, tried := MappingRouteOne(g, paths, pu, pv, req, used, rng, start);
    if routed.Err? {
      if routed.error == IndexError {
        stuck := PairRouting.Booking(e, paths.computed[(pu, pv)], tried, req);
        DrewRoomy(g, stuck.pairs, used, req, Stream(rng, start, |stuck.pairs|), tried);
      }
      return Err(routed.error), next, trail', stuck;
    }
    var pathOrder' := if e !in routing then pathOrder + [e] else pathOrder;
    PairRouting.LinksAdd(v, g, mapping, edges, t, routing, pathOrder, used, trail, routed.value.0, routed.value.1, req,
                         pathOrder');
    DrewRoomy(g, PairRouting.PairsAlong(routed.value.0), used, req, Stream(rng, start, |routed.value.0|), tried);
    TrailRoomyExtend(g, map[], trail, PairRouting.Booking(e, PairRouting.PairsAlong(routed.value.0), tried, req));
    trail' := trail + [PairRouting.Booking(e, PairRouting.PairsAlong(routed.value.0), tried, req)];
    r := Ok((routing[e := routed.value.0], pathOrder', routed.value.1));
  }

  /**
   * The first pass of the mapping revision's loop: the drawn placement,
   * kept however loaded, and the routed links.
   */
  method MappingPass(v: Virtual.VirtualNet, g: Physical.Network, paths: MemoPath.PathCache, machines: seq<NodeId>,
                     rng: nat -> nat)
    returns (o: Placement.Outcome)
    requires Virtual.Valid(v) && Physical.Valid(g) && paths.Valid() && paths.g == g
    requires forall t :: 0 <= t < |machines| ==> machines[t] in Physical.ComputeNodes(g)
    modifies paths
    ensures paths.Valid()
    ensures o.Solved? || o.Raised?
    ensures o.Raised? ==> o.error in {IndexError, KeyError, ValueError}
    ensures |machines| == 0 && |v.nodes| > 0 ==> o == Placement.Raised(IndexError)
    ensures o.Solved? ==> |machines| > 0 || |v.nodes| == 0
    ensures o.Solved? ==> o.mapping == Draws(v.nodes, machines, rng, 0)
    ensures o.Solved? ==> KBalanced.OnMachines(g, o.mapping) && PairRouting.Routed(v, g, o.mapping, o.routing)
    ensures o.Solved? ==> DrawnWithin(v, g, o.mapping, o.routing)
  {
    var drawn := DrawNodes(v, g, machines, rng, 0, false);
    if drawn.Err? {
      return Placement.Raised(IndexError);
    }
    var mapping := drawn.value;
    DrawnOnMachines(v, g, machines, rng, 0);
    var routed, _, trail, stuck := MappingLinks(v, g, paths, mapping, rng, |v.nodes|);
    if routed.Err? {
      return Placement.Raised(routed.error);
    }
    o := Placement.Solved(mapping, routed.value.0);
  }

  /**
   * RandomSelection.solve of the mapping revision. The `continue` on an
   * overloaded machine only moves on to the next virtual node, so the
   * drawn placement is kept whatever the capacities, and the first pass
   * returns Solved: the loop never restarts.
   */
  method SolveMapping(solver: Placement.EmbedSolver, paths: MemoPath.PathCache, rng: nat -> nat) returns (o: Placement.Outcome)
    requires Virtual.Valid(solver.virtual) && Physical.Valid(solver.physical)
    requires paths.Valid() && paths.g == solver.physical
    modifies solver, paths
    ensures paths.Valid()
    ensures o.Solved? || o.Raised?
    ensures o.Raised? ==> o.error in {IndexError, KeyError, ValueError}
    ensures Physical.ComputeNodes(solver.physical) == {} && |solver.virtual.nodes| > 0 ==> o == Placement.Raised(IndexError)
    ensures o.Solved? ==> Physical.ComputeNodes(solver.physical) != {} || |solver.virtual.nodes| == 0
    ensures o.Solved? ==> o.mapping == Draws(solver.virtual.nodes, Ascending(Physical.ComputeNodes(solver.physical)), rng, 0)
    ensures o.Solved? ==> KBalanced.OnMachines(solver.physical, o.mapping)
    ensures o.Solved? ==> PairRouting.Routed(solver.virtual, solver.physical, o.mapping, o.routing)
    ensures o.Solved? ==> DrawnWithin(solver.virtual, solver.physical, o.mapping, o.routing)
    ensures o.Solved? ==> solver.status == Status.Solved && solver.solution == Some((o.mapping, o.routing))
    ensures !o.Solved? ==> solver.status == old(solver.status) && solver.solution == old(solver.solution)
  {
    var machines := Ascending(Physical.ComputeNodes(solver.physical));
    assert Physical.ComputeNodes(solver.physical) == {} <==> |machines| == 0;
    o := MappingPass(solver.virtual, solver.physical, paths, machines, rng);
    if o.Solved? {
      solver.Record(o);
    }
  }
}
