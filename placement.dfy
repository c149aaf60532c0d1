/**
 * The pieces every widening heuristic of the current library shares: the
 * solver object and its outcome, the order in which machines are tried, the
 * per-machine running capacity check of a (machine, group) zip, and the
 * routing of the virtual links over find_path against an accumulated
 * per-interface rate counter. The central fact proved here is that routing
 * this way never books an interface beyond its rate.
 */
module Placement {
  import opened Common
  import opened PathSearch
  import Physical
  import Virtual
  import LowerBound
  import EmbedVerify

  /** rate_used: the rate booked on each (i, j, device) hop. */
  type Used = map<(NodeId, NodeId, Physical.DeviceKey), nat>

  /** What a solve call ends with: a placement and its paths, Infeasible, or an exception it lets through. */
  datatype Outcome =
    | Solved(mapping: map<NodeId, NodeId>, routing: EmbedVerify.Routing)
    | Infeasible
    | Raised(error: Error)
    | Diverges

  function StatusOf(o: Outcome): Status
  {
    match o
    case Solved(_, _) => Status.Solved
    case Infeasible => Status.Infeasible
    case Raised(_) => NotSolved
    case Diverges => NotSolved
  }

  /**
   * EmbedSolver: the virtual and physical networks a heuristic works on, and
   * the solution and status its solve call records.
   */
  class EmbedSolver {
    const virtual: Virtual.VirtualNet
    const physical: Physical.Network
    var solution: Option<(map<NodeId, NodeId>, EmbedVerify.Routing)>
    var status: Status

    /** A new solver has no solution yet and is NotSolved. */
    constructor (v: Virtual.VirtualNet, g: Physical.Network)
      ensures virtual == v && physical == g
      ensures solution == None && status == NotSolved
    {
      virtual := v;
      physical := g;
      solution := None;
      status := NotSolved;
    }

    /**
     * lower_bound(): the machines the demand needs at least, or
     * ZeroDivisionError when the network has no compute node.
     */
    method LowerBoundOf() returns (r: Result<int>)
      ensures r.Err? <==> Physical.ComputeNodes(physical) == {}
      ensures r.Err? ==> r.error == ZeroDivision
      ensures r.Ok? ==> LowerBound.MaxCapacity(physical, Cores) > 0 && LowerBound.MaxCapacity(physical, Memory) > 0
      ensures r.Ok? ==> r.value == LowerBound.Value(virtual, physical) && r.value >= 0
      ensures r.Ok? ==> r.value * LowerBound.MaxCapacity(physical, Cores) >= LowerBound.Total(virtual, Cores)
      ensures r.Ok? ==> r.value * LowerBound.MaxCapacity(physical, Memory) >= LowerBound.Total(virtual, Memory)
    {
      r := LowerBound.GetLowerBound(virtual, physical);
      if r.Ok? {
        LowerBound.BoundCovers(LowerBound.Total(virtual, Cores), LowerBound.Total(virtual, Memory),
                               LowerBound.MaxCapacity(physical, Cores), LowerBound.MaxCapacity(physical, Memory));
      }
    }

    /**
     * The end of a solve call that returns: `self.solution` and `self.status`
     * take what the attempt found. A solve that raises never gets here, so
     * it leaves both as they were.
     */
    method Record(o: Outcome)
      requires o.Solved? || o.Infeasible?
      modifies this
      ensures status == StatusOf(o)
      ensures solution == (if o.Solved? then Some((o.mapping, o.routing)) else old(solution))
    {
      status := StatusOf(o);
      if o.Solved? {
        solution := Some((o.mapping, o.routing));
      }
    }
  }

  /*
   * Machine order: the compute nodes, sorted by a key, largest first.
   */

  predicate NonIncreasing<T>(s: seq<T>, key: T -> int)
  {
    forall a, b :: 0 <= a < b < |s| ==> key(s[a]) >= key(s[b])
  }

  /** Insert x after every element whose key is at least x's, as a stable descending sort does. */
  function InsertDescending<T>(x: T, s: seq<T>, key: T -> int): (r: seq<T>)
    ensures multiset(r) == multiset(s) + multiset{x}
  {
    if |s| == 0 then [x]
    else if key(s[0]) >= key(x) then
      assert s == [s[0]] + s[1..];
      [s[0]] + InsertDescending(x, s[1..], key)
    else [x] + s
  }

  lemma {:induction false} InsertKeepsOrder<T>(x: T, s: seq<T>, key: T -> int)
    requires NonIncreasing(s, key)
    ensures NonIncreasing(InsertDescending(x, s, key), key)
    ensures forall y :: y in InsertDescending(x, s, key) ==> y == x || y in s
  {
    if |s| > 0 && key(s[0]) >= key(x) {
      var rest := InsertDescending(x, s[1..], key);
      InsertKeepsOrder(x, s[1..], key);
      assert InsertDescending(x, s, key) == [s[0]] + rest;
      forall k | 0 <= k < |rest| ensures key(s[0]) >= key(rest[k]) {
        assert rest[k] in rest;
        if rest[k] != x {
          var j :| 0 <= j < |s[1..]| && s[1..][j] == rest[k];
          assert s[j + 1] == rest[k];
        }
      }
    }
  }

  /** Python's stable sorted(xs, key=key, reverse=True). */
  function SortDescending<T>(s: seq<T>, key: T -> int): (r: seq<T>)
    ensures multiset(r) == multiset(s)
    ensures NonIncreasing(r, key)
  {
    if |s| == 0 then []
    else
      assert s == s[..|s| - 1] + [s[|s| - 1]];
      var sorted := SortDescending(s[..|s| - 1], key);
      InsertKeepsOrder(s[|s| - 1], sorted, key);
      InsertDescending(s[|s| - 1], sorted, key)
  }

  /** The key of the k-balanced and partition heuristics: cores * 1000 + memory. */
  function ResourceKey(g: Physical.Network): NodeId -> int
  {
    n => Physical.Cores(g, n) * 1000 + Physical.Memory(g, n)
  }

  /** The key of the greedy heuristic: cores * 1000 + memory + rate_out. */
  function ResourceRateKey(g: Physical.Network): NodeId -> int
  {
    n => Physical.Cores(g, n) * 1000 + Physical.Memory(g, n) + Physical.RateOut(g, n)
  }

  /** Iterating a set: some listing of its members, each once. */
  method ListSet(s: set<NodeId>) returns (xs: seq<NodeId>)
    ensures Lists(xs, s) && |xs| == |s|
  {
    xs := [];
    var rest := s;
    while rest != {}
      invariant Distinct(xs)
      invariant forall x :: x in xs <==> x in s && x !in rest
      invariant rest <= s && |xs| + |rest| == |s|
      decreases |rest|
    {
      NonEmptyHasNode(rest);
      var x :| x in rest;
      xs := xs + [x];
      rest := rest - {x};
    }
  }

  /** The compute nodes, largest key first. */
  method SortedMachines(g: Physical.Network, key: NodeId -> int) returns (s: seq<NodeId>)
    ensures Lists(s, Physical.ComputeNodes(g)) && |s| == |Physical.ComputeNodes(g)|
    ensures NonIncreasing(s, key)
  {
    var listed := ListSet(Physical.ComputeNodes(g));
    s := SortDescending(listed, key);
    assert forall x :: x in s <==> x in listed by {
      forall x ensures x in s <==> x in listed {
        assert x in s <==> x in multiset(s);
        assert x in listed <==> x in multiset(listed);
      }
    }
    DistinctPermutation(listed, s);
  }

  lemma {:induction false} DistinctPermutation(a: seq<NodeId>, b: seq<NodeId>)
    requires Distinct(a) && multiset(a) == multiset(b)
    ensures Distinct(b)
  {
    forall i, j | 0 <= i < j < |b| ensures b[i] != b[j] {
      if b[i] == b[j] {
        var x := b[i];
        assert multiset(b)[x] >= 2 by {
          assert b == b[..i] + [x] + b[i + 1..j] + [x] + b[j + 1..];
        }
        DistinctCount(a, x);
        assert false;
      }
    }
  }

  lemma {:induction false} DistinctCount(a: seq<NodeId>, x: NodeId)
    requires Distinct(a)
    ensures multiset(a)[x] <= 1
  {
    if |a| > 0 {
      var init := a[..|a| - 1];
      assert a == init + [a[|a| - 1]];
      DistinctCount(init, x);
      if a[|a| - 1] == x {
        assert x !in init;
      }
    }
  }

  /*
   * The (machine, group) zip: running totals of a group's demand against its machine.
   */

  /** The group's total demand of both resources fits the machine. */
  predicate GroupFits(v: Virtual.VirtualNet, g: Physical.Network, phy: NodeId, group: seq<NodeId>)
  {
    LowerBound.DemandOf(v, Cores, group) <= Physical.Cores(g, phy) &&
    LowerBound.DemandOf(v, Memory, group) <= Physical.Memory(g, phy)
  }

  /** Demands are non-negative, so a running total never exceeds the final one. */
  lemma {:induction false} DemandPrefix(v: Virtual.VirtualNet, res: Resource, s: seq<NodeId>, k: nat)
    requires k <= |s|
    ensures LowerBound.DemandOf(v, res, s[..k]) <= LowerBound.DemandOf(v, res, s)
    decreases |s|
  {
    if k < |s| {
      assert s[..|s| - 1][..k] == s[..k];
      DemandPrefix(v, res, s[..|s| - 1], k);
    } else {
      assert s[..k] == s;
    }
  }

  /** NodeResourceError(phy, res) is justified: the group's demand of res exceeds the machine's capacity. */
  predicate Overflows(v: Virtual.VirtualNet, g: Physical.Network, phy: NodeId, group: seq<NodeId>, err: Error)
    requires err.NodeResource?
  {
    err.node == phy && LowerBound.DemandOf(v, err.resource, group) > LowerBound.Capacity(g, err.resource, phy)
  }

  /** res_node_mapping[u] = phy for every u of the group, keeping the dictionary's insertion order. */
  ghost predicate Overrides(mapping: map<NodeId, NodeId>, group: seq<NodeId>, phy: NodeId, result: map<NodeId, NodeId>)
  {
    (forall u :: u in result <==> u in mapping || u in group) &&
    (forall u :: u in result ==> (if u in group then result[u] == phy else u in mapping && result[u] == mapping[u]))
  }

  /**
   * One (machine, group) pair of the zip: each virtual node adds its cores
   * and then its memory to the running totals, and NodeResourceError is
   * raised at the first total above the machine's capacity.
   */
  method CheckGroup(v: Virtual.VirtualNet, g: Physical.Network, phy: NodeId, group: seq<NodeId>,
                    mapping: map<NodeId, NodeId>, order: seq<NodeId>)
    returns (r: Result<(map<NodeId, NodeId>, seq<NodeId>)>)
    requires forall u :: u in group ==> u in v.cores && u in v.memory
    requires Enumerates(order, mapping)
    ensures r.Ok? <==> GroupFits(v, g, phy, group)
    ensures r.Err? ==> r.error.NodeResource? && Overflows(v, g, phy, group, r.error)
    ensures r.Ok? ==> Overrides(mapping, group, phy, r.value.0) && Enumerates(r.value.1, r.value.0)
  {
    var coresUsed, memoryUsed := 0, 0;
    var m, o := mapping, order;
    var k := 0;
    while k < |group|
      invariant 0 <= k <= |group|
      invariant coresUsed == LowerBound.DemandOf(v, Cores, group[..k]) <= Physical.Cores(g, phy)
      invariant memoryUsed == LowerBound.DemandOf(v, Memory, group[..k]) <= Physical.Memory(g, phy)
      invariant Overrides(mapping, group[..k], phy, m) && Enumerates(o, m)
    {
      PrefixGrows(group, k);
      var u := group[k];
      coresUsed := coresUsed + v.cores[u];
      if Physical.Cores(g, phy) < coresUsed {
        DemandPrefix(v, Cores, group, k + 1);
        return Err(NodeResource(phy, Cores));
      }
      memoryUsed := memoryUsed + v.memory[u];
      if Physical.Memory(g, phy) < memoryUsed {
        DemandPrefix(v, Memory, group, k + 1);
        return Err(NodeResource(phy, Memory));
      }
      if u !in m {
        o := o + [u];
      }
      m := m[u := phy];
      k := k + 1;
    }
    assert group[..k] == group;
    r := Ok((m, o));
  }

  /**
   * The zip of machines and groups: the pairs are checked in turn, and the
   * first overflow ends the attempt. Ok exactly when every zipped group fits
   * its machine; zip stops at the shorter list.
   */
  method PlaceGroups(v: Virtual.VirtualNet, g: Physical.Network, machines: seq<NodeId>, groups: seq<seq<NodeId>>)
    returns (r: Result<(map<NodeId, NodeId>, seq<NodeId>)>)
    requires forall t, u :: 0 <= t < |groups| && u in groups[t] ==> u in v.cores && u in v.memory
    ensures var n := if |machines| <= |groups| then |machines| else |groups|;
      r.Ok? <==> forall t :: 0 <= t < n ==> GroupFits(v, g, machines[t], groups[t])
    ensures var n := if |machines| <= |groups| then |machines| else |groups|;
      r.Err? ==> r.error.NodeResource? && exists t :: 0 <= t < n && Overflows(v, g, machines[t], groups[t], r.error)
    ensures r.Ok? ==> Enumerates(r.value.1, r.value.0)
    ensures var n := if |machines| <= |groups| then |machines| else |groups|;
      r.Ok? ==> forall u :: u in r.value.0 <==> exists t :: 0 <= t < n && u in groups[t]
    ensures var n := if |machines| <= |groups| then |machines| else |groups|;
      r.Ok? ==> forall u :: u in r.value.0 ==> exists t :: 0 <= t < n && u in groups[t] && r.value.0[u] == machines[t]
  {
    var n := if |machines| <= |groups| then |machines| else |groups|;
    var m: map<NodeId, NodeId> := map[];
    var o: seq<NodeId> := [];
    var t := 0;
    while t < n
      invariant 0 <= t <= n
      invariant forall s :: 0 <= s < t ==> GroupFits(v, g, machines[s], groups[s])
      invariant Enumerates(o, m)
      invariant forall u :: u in m <==> exists s :: 0 <= s < t && u in groups[s]
      invariant forall u :: u in m ==> exists s :: 0 <= s < t && u in groups[s] && m[u] == machines[s]
    {
      var step := CheckGroup(v, g, machines[t], groups[t], m, o);
      if step.Err? {
        return Err(step.error);
      }
      ghost var before := m;
      m, o := step.value.0, step.value.1;
      forall u | u in m ensures exists s :: 0 <= s < t + 1 && u in groups[s] && m[u] == machines[s] {
        if u !in groups[t] {
          assert u in before;
        }
      }
      forall u ensures u in m <==> exists s :: 0 <= s < t + 1 && u in groups[s] {
        if u in m && u !in groups[t] {
          assert u in before;
        }
      }
      t := t + 1;
    }
    r := Ok((m, o));
  }

  /*
   * Routing over find_path with an accumulated rate counter.
   */

  /** The (i, j, device) key of a hop in rate_used. */
  function Slot(h: Hop<Physical.DeviceKey>): (NodeId, NodeId, Physical.DeviceKey)
  {
    (h.src, h.dst, h.device)
  }

  /** rate_used after `rate_used[(i, j, device)] += req` for every hop of a path. */
  function Charge(used: Used, hops: seq<Hop<Physical.DeviceKey>>, req: nat): Used
  {
    if |hops| == 0 then used
    else Add(Charge(used, hops[..|hops| - 1], req), Slot(hops[|hops| - 1]), req)
  }

  /** No interface carries more than its rate, counting the bookings of both directions. */
  ghost predicate Within(g: Physical.Network, used: Used)
  {
    forall e, k :: e in g.links && 0 <= k < |g.links[e].interfaces| ==>
      Get(used, (e.0, e.1, g.links[e].interfaces[k].key)) + Get(used, (e.1, e.0, g.links[e].interfaces[k].key))
        <= g.links[e].interfaces[k].rate
  }

  /** Before anything is booked every interface is within its rate. */
  lemma NothingUsed(g: Physical.Network)
    ensures Within(g, map[])
  {
  }

  /** Hops that leave distinct nodes are charged once each. */
  lemma {:induction false} ChargeAt(used: Used, hops: seq<Hop<Physical.DeviceKey>>, req: nat,
                                    x: (NodeId, NodeId, Physical.DeviceKey))
    requires forall a, b :: 0 <= a < b < |hops| ==> hops[a].src != hops[b].src
    ensures Get(Charge(used, hops, req), x) ==
      Get(used, x) + (if exists k :: 0 <= k < |hops| && Slot(hops[k]) == x then req else 0)
  {
    if |hops| > 0 {
      var init := hops[..|hops| - 1];
      var last := hops[|hops| - 1];
      ChargeAt(used, init, req, x);
      if Slot(last) == x {
        assert forall k :: 0 <= k < |init| ==> Slot(init[k]) != x;
      } else {
        assert (exists k :: 0 <= k < |hops| && Slot(hops[k]) == x) <==>
               (exists k :: 0 <= k < |init| && Slot(init[k]) == x) by {
          if exists k :: 0 <= k < |hops| && Slot(hops[k]) == x {
            var k :| 0 <= k < |hops| && Slot(hops[k]) == x;
            assert k < |init| && init[k] == hops[k];
          }
        }
      }
    }
  }

  /** On a simple path, the only hop leaving the node a hop arrives at is the next one. */
  lemma NextHop(hops: seq<Hop<Physical.DeviceKey>>, s: NodeId, t: NodeId, p: nat, q: nat)
    requires Chains(hops, s, t) && SimpleHops(hops, t)
    requires p + 1 < |hops| && q < |hops| && hops[p].dst == hops[q].src
    ensures q == p + 1
  {
    assert hops[p + 1].src == hops[q].src;
  }

  /** A simple path between two different nodes never crosses an edge in both directions. */
  lemma {:induction false} NoReturn(hops: seq<Hop<Physical.DeviceKey>>, s: NodeId, t: NodeId, p: nat, q: nat)
    requires Chains(hops, s, t) && SimpleHops(hops, t) && s != t
    requires p < |hops| && q < |hops|
    ensures !(hops[p].src == hops[q].dst && hops[p].dst == hops[q].src)
  {
    if hops[p].src == hops[q].dst && hops[p].dst == hops[q].src {
      if p + 1 < |hops| {
        NextHop(hops, s, t, p, q);
        if q + 1 < |hops| {
          NextHop(hops, s, t, q, p);
          assert false;
        } else {
          assert false;
        }
      } else {
        assert false;
      }
    }
  }

  /** A hop booked on an interface found room there for the request on top of both directions' bookings. */
  lemma HopFits(g: Physical.Network, used: Used, req: nat, h: Hop<Physical.DeviceKey>, e: (NodeId, NodeId), k: nat)
    requires Physical.Valid(g) && e in g.links && k < |g.links[e].interfaces|
    requires Physical.FirstFitting(g, req, used, h)
    requires var key := g.links[e].interfaces[k].key; Slot(h) == (e.0, e.1, key) || Slot(h) == (e.1, e.0, key)
    ensures var f := g.links[e].interfaces[k];
      req + Get(used, (e.0, e.1, f.key)) + Get(used, (e.1, e.0, f.key)) <= f.rate
  {
    var ifs := g.links[e].interfaces;
    assert (e.1, e.0) !in g.links;
    assert Physical.InterfacesOf(g, h.src, h.dst) == ifs;
    assert Distinct(Physical.Keys(ifs));
    var k2 :| 0 <= k2 < |ifs| && ifs[k2].key == h.device && Physical.Fits(h.src, h.dst, ifs[k2], req, used);
    assert Physical.Keys(ifs)[k2] == Physical.Keys(ifs)[k];
  }

  /** One interface of one stored link, after booking a path find_path returned. */
  lemma {:induction false} InterfaceKeepsWithin(g: Physical.Network, used: Used, hops: seq<Hop<Physical.DeviceKey>>,
                                                req: nat, s: NodeId, t: NodeId, e: (NodeId, NodeId), k: nat)
    requires Physical.Valid(g) && Within(g, used) && s != t
    requires Chains(hops, s, t) && SimpleHops(hops, t)
    requires forall k :: 0 <= k < |hops| ==> Physical.FirstFitting(g, req, used, hops[k])
    requires e in g.links && k < |g.links[e].interfaces|
    ensures var c := Charge(used, hops, req); var f := g.links[e].interfaces[k];
      Get(c, (e.0, e.1, f.key)) + Get(c, (e.1, e.0, f.key)) <= f.rate
  {
    var f := g.links[e].interfaces[k];
    var fwd := (e.0, e.1, f.key);
    var bwd := (e.1, e.0, f.key);
    ChargeAt(used, hops, req, fwd);
    ChargeAt(used, hops, req, bwd);
    if p :| 0 <= p < |hops| && Slot(hops[p]) == fwd {
      HopFits(g, used, req, hops[p], e, k);
      forall q | 0 <= q < |hops| ensures Slot(hops[q]) != bwd {
        NoReturn(hops, s, t, p, q);
      }
    } else if p :| 0 <= p < |hops| && Slot(hops[p]) == bwd {
      HopFits(g, used, req, hops[p], e, k);
    }
  }

  /**
   * Booking a path find_path returned keeps every interface within its rate:
   * each hop's device passed rate >= req + used(i, j) + used(j, i), keys are
   * distinct on a link, and the path uses each link at most once.
   */
  lemma RouteKeepsWithin(g: Physical.Network, used: Used, hops: seq<Hop<Physical.DeviceKey>>,
                         req: nat, s: NodeId, t: NodeId)
    requires Physical.Valid(g) && Within(g, used) && s != t
    requires Chains(hops, s, t) && SimpleHops(hops, t)
    requires forall k :: 0 <= k < |hops| ==> Physical.FirstFitting(g, req, used, hops[k])
    ensures Within(g, Charge(used, hops, req))
  {
    forall e, k | e in g.links && 0 <= k < |g.links[e].interfaces| {
      InterfaceKeepsWithin(g, used, hops, req, s, t, e, k);
    }
  }

  /** The hop loop of a solve: book every hop of the path and record it as (i, device, j). */
  method ChargePath(used: Used, hops: seq<Hop<Physical.DeviceKey>>, req: nat)
    returns (booked: Used, recorded: seq<Hop<Physical.DeviceKey>>)
    ensures booked == Charge(used, hops, req) && recorded == hops
  {
    booked, recorded := used, [];
    var k := 0;
    while k < |hops|
      invariant 0 <= k <= |hops|
      invariant booked == Charge(used, hops[..k], req) && recorded == hops[..k]
    {
      PrefixGrows(hops, k);
      assert hops[..k + 1][..k] == hops[..k];
      booked := Add(booked, Slot(hops[k]), req);
      recorded := recorded + [hops[k]];
      k := k + 1;
    }
    assert hops[..k] == hops;
  }

  /** A link lands on two different machines and needs a path. */
  predicate Crossing(mapping: map<NodeId, NodeId>, e: Pair)
  {
    e.0 in mapping && e.1 in mapping && mapping[e.0] != mapping[e.1]
  }

  /** The path stored for a crossing link leads from the first end's machine to the second's. */
  ghost predicate RoutedBy(mapping: map<NodeId, NodeId>, routing: EmbedVerify.Routing, e: Pair)
  {
    Crossing(mapping, e) && e in routing &&
    Chains(routing[e], mapping[e.0], mapping[e.1]) && SimpleHops(routing[e], mapping[e.1])
  }

  /** Every hop runs along a link of the network. */
  predicate OnLinks(g: Physical.Network, hops: seq<Hop<Physical.DeviceKey>>)
  {
    forall k :: 0 <= k < |hops| ==> Physical.LinkBetween(g, hops[k].src, hops[k].dst).Some?
  }

  lemma SortedLinkHasRate(v: Virtual.VirtualNet, t: nat)
    requires t < |v.links|
    ensures var e := Normalise(v.links[t].u, v.links[t].v); Virtual.RateIn(v.links, e.0, e.1).Some?
  {
    var e := Normalise(v.links[t].u, v.links[t].v);
    assert Virtual.Joins(v.links[t], e.0, e.1);
  }

  /**
   * One crossing link of the loop: find_path between the two machines
   * against rate_used, then its hops booked.
   */
  method RouteLink(v: Virtual.VirtualNet, g: Physical.Network, mapping: map<NodeId, NodeId>, used: Used, t: nat)
    returns (r: Result<(seq<Hop<Physical.DeviceKey>>, Used)>)
    requires Physical.Valid(g) && Within(g, used) && t < |v.links|
    requires var e := Normalise(v.links[t].u, v.links[t].v); Crossing(mapping, e) && mapping[e.0] in g.adj
    ensures r.Err? ==> r.error == NoPathFound
    ensures r.Ok? ==> Within(g, r.value.1)
    ensures var e := Normalise(v.links[t].u, v.links[t].v);
      r.Ok? ==> Chains(r.value.0, mapping[e.0], mapping[e.1]) && SimpleHops(r.value.0, mapping[e.1])
    ensures r.Ok? ==> OnLinks(g, r.value.0)
  {
    var e := Normalise(v.links[t].u, v.links[t].v);
    SortedLinkHasRate(v, t);
    var req := Virtual.ReqRate(v, e.0, e.1);
    var found := Physical.FindPath(g, mapping[e.0], mapping[e.1], req, used);
    if found.Err? {
      return Err(NoPathFound);
    }
    RouteKeepsWithin(g, used, found.value, req, mapping[e.0], mapping[e.1]);
    forall k | 0 <= k < |found.value| ensures Physical.LinkBetween(g, found.value[k].src, found.value[k].dst).Some? {
      assert Physical.FirstFitting(g, req, used, found.value[k]);
    }
    var booked, recorded := ChargePath(used, found.value, req);
    r := Ok((recorded, booked));
  }

  /**
   * The link loop of the k-balanced and partition heuristics: every link of
   * sorted_edges() whose ends are on different machines is routed with
   * find_path against rate_used, and its hops are booked. A missing end is
   * Python's KeyError, and a link find_path cannot route ends the attempt
   * with NoPathFoundError.
   */
  method RouteLinks(v: Virtual.VirtualNet, g: Physical.Network, mapping: map<NodeId, NodeId>)
    returns (r: Result<(EmbedVerify.Routing, seq<Pair>, Used)>)
    requires Physical.Valid(g)
    requires forall u :: u in mapping ==> mapping[u] in g.adj
    ensures r.Err? ==> r.error == KeyError || r.error == NoPathFound
    ensures r.Err? && r.error == KeyError ==>
      exists t :: 0 <= t < |v.links| && (v.links[t].u !in mapping || v.links[t].v !in mapping)
    ensures r.Ok? ==> Within(g, r.value.2) && Enumerates(r.value.1, r.value.0)
    ensures r.Ok? ==> forall t :: 0 <= t < |v.links| ==>
      (var e := Normalise(v.links[t].u, v.links[t].v); Crossing(mapping, e) ==> RoutedBy(mapping, r.value.0, e))
    ensures r.Ok? ==> forall e :: e in r.value.0 ==>
      Crossing(mapping, e) && exists t :: 0 <= t < |v.links| && e == Normalise(v.links[t].u, v.links[t].v)
    ensures r.Ok? ==> forall e :: e in r.value.0 ==> OnLinks(g, r.value.0[e])
  {
    var edges := Virtual.SortedList(v.links);
    var routing: EmbedVerify.Routing := map[];
    var pathOrder: seq<Pair> := [];
    var used: Used := map[];
    NothingUsed(g);
    var t := 0;
    while t < |edges|
      invariant 0 <= t <= |edges|
      invariant Within(g, used) && Enumerates(pathOrder, routing)
      invariant forall s :: 0 <= s < t && Crossing(mapping, edges[s]) ==> RoutedBy(mapping, routing, edges[s])
      invariant forall e :: e in routing ==> Crossing(mapping, e) && exists s :: 0 <= s < t && e == edges[s]
      invariant forall e :: e in routing ==> OnLinks(g, routing[e])
    {
      var e := edges[t];
      if e.0 !in mapping || e.1 !in mapping {
        assert Virtual.Joins(v.links[t], e.0, e.1);
        return Err(KeyError);
      }
      if mapping[e.0] != mapping[e.1] {
        var routed := RouteLink(v, g, mapping, used, t);
        if routed.Err? {
          return Err(NoPathFound);
        }
        used := routed.value.1;
        EnumeratesPut(pathOrder, routing, e, routed.value.0);
        if e !in routing {
          pathOrder := pathOrder + [e];
        }
        routing := routing[e := routed.value.0];
      }
      t := t + 1;
    }
    r := Ok((routing, pathOrder, used));
  }
}
