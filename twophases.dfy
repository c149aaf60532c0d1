/**
 * The two-phase heuristic (EmbedTwoPhases.solve of the mapping revision and
 * EmbedHeu.__call__ of embedding/grid5000/heuristic3.py).
 *
 * Phase one places the virtual nodes one by one, in the graph's order, on
 * the first machine with room for the node's cores and memory, trying the
 * machines already in use first, the most recently opened one first, then
 * the others. Phase two routes every link whose ends landed on different
 * machines, each hop on the interface with the most rate left. While some
 * interface carries more than its rate, the repair moves one end of a link
 * crossing the most overloaded interface to another machine with room, and
 * keeps the move only when the total rate in excess drops.
 */
module TwoPhases {
  import opened Common
  import opened PathSearch
  import Physical
  import Virtual
  import LowerBound
  import EmbedVerify
  import MemoPath
  import PairRouting
  import Placement
  import KBalanced
  import FractionVerify
  import Ungroup

  type Key = Physical.DeviceKey

  /** An interface of rate_used: the two ends of the link, smaller first, and the interface key. */
  type Slot = (NodeId, NodeId, Key)

  type Path = seq<Hop<Key>>

  /** Reading a defaultdict(int). */
  function GetI<K>(m: map<K, int>, k: K): int
  {
    if k in m then m[k] else 0
  }

  /*
   * Phase one: first fit, machines in use first.
   */

  /** The machines in the order they were first used. */
  function Opened(hosts: seq<NodeId>): (r: seq<NodeId>)
    ensures Distinct(r) && forall p :: p in r <==> p in hosts
  {
    if |hosts| == 0 then []
    else
      var r := Opened(hosts[..|hosts| - 1]);
      var p := hosts[|hosts| - 1];
      assert forall q :: q in hosts <==> q in hosts[..|hosts| - 1] || q == p;
      if p in r then r else r + [p]
  }

  /** The members of s that are not in out, in the order of s. */
  function Filter(s: seq<NodeId>, out: seq<NodeId>): (r: seq<NodeId>)
    ensures forall p :: p in r <==> p in s && p !in out
    ensures Distinct(s) ==> Distinct(r)
  {
    if |s| == 0 then []
    else
      var r := Filter(s[..|s| - 1], out);
      var p := s[|s| - 1];
      assert forall q :: q in s <==> q in s[..|s| - 1] || q == p;
      if p in out then r else r + [p]
  }

  /**
   * The machines tried for the next node once hosts holds the machines of
   * the nodes before it: those in use, the most recently opened first, then
   * the unused compute nodes in the order of free0 (the iteration order of
   * the set not_selected, which removals do not change).
   */
  function Candidates(free0: seq<NodeId>, hosts: seq<NodeId>): seq<NodeId>
  {
    MemoPath.Reverse(Opened(hosts)) + Filter(free0, hosts)
  }

  /** The demand for res of the nodes placed on p, hosts[k] being the machine of the k-th node. */
  function Held(v: Virtual.VirtualNet, res: Resource, hosts: seq<NodeId>, p: NodeId): nat
    requires |hosts| <= |v.nodes|
  {
    if |hosts| == 0 then 0
    else
      Held(v, res, hosts[..|hosts| - 1], p) +
      (if hosts[|hosts| - 1] == p then LowerBound.Demand(v, res, v.nodes[|hosts| - 1]) else 0)
  }

  /** The node after those of hosts fits on p next to them, for cores and for memory. */
  predicate RoomFor(v: Virtual.VirtualNet, g: Physical.Network, hosts: seq<NodeId>, p: NodeId)
    requires |hosts| < |v.nodes|
  {
    var n := v.nodes[|hosts|];
    Held(v, Cores, hosts, p) + LowerBound.Demand(v, Cores, n) <= LowerBound.Capacity(g, Cores, p) &&
    Held(v, Memory, hosts, p) + LowerBound.Demand(v, Memory, n) <= LowerBound.Capacity(g, Memory, p)
  }

  /** host is the first candidate with room for the node after those of hosts. */
  ghost predicate FirstFit(v: Virtual.VirtualNet, g: Physical.Network, free0: seq<NodeId>, hosts: seq<NodeId>,
                           host: NodeId)
  {
    |hosts| < |v.nodes| &&
    var c := Candidates(free0, hosts);
    exists j :: 0 <= j < |c| && c[j] == host && RoomFor(v, g, hosts, c[j]) &&
      forall l :: 0 <= l < j ==> !RoomFor(v, g, hosts, c[l])
  }

  /** Every node of hosts went to the first candidate with room at its turn. */
  ghost predicate FirstFits(v: Virtual.VirtualNet, g: Physical.Network, free0: seq<NodeId>, hosts: seq<NodeId>)
  {
    forall k :: 0 <= k < |hosts| ==> FirstFit(v, g, free0, hosts[..k], hosts[k])
  }

  /** The machine of each listed node. */
  function HostsOf(mapping: map<NodeId, NodeId>, nodes: seq<NodeId>): (hosts: seq<NodeId>)
    requires forall k :: 0 <= k < |nodes| ==> nodes[k] in mapping
    ensures |hosts| == |nodes| && forall k :: 0 <= k < |nodes| ==> hosts[k] == mapping[nodes[k]]
  {
    seq(|nodes|, k requires 0 <= k < |nodes| => mapping[nodes[k]])
  }

  /** The state of the phase-one loop: res_node_mapping, selected, not_selected and the used resources. */
  datatype Hosting = Hosting(mapping: map<NodeId, NodeId>, selected: seq<NodeId>, free: seq<NodeId>,
                             cores: map<NodeId, int>, memory: map<NodeId, int>)

  /** The counters' test: the node fits on p on top of what the counters hold. */
  predicate HasRoom(v: Virtual.VirtualNet, g: Physical.Network, h: Hosting, n: NodeId, p: NodeId)
  {
    GetI(h.cores, p) + LowerBound.Demand(v, Cores, n) <= LowerBound.Capacity(g, Cores, p) &&
    GetI(h.memory, p) + LowerBound.Demand(v, Memory, n) <= LowerBound.Capacity(g, Memory, p)
  }

  /** free0 is an iteration order of the compute nodes. */
  ghost predicate ListsMachines(g: Physical.Network, free0: seq<NodeId>)
  {
    Lists(free0, Physical.ComputeNodes(g))
  }

  /** The first |hosts| nodes are placed, on compute nodes, hosts[k] holding the machine of the k-th. */
  ghost predicate MappedUpTo(v: Virtual.VirtualNet, g: Physical.Network, hosts: seq<NodeId>, h: Hosting)
    requires |hosts| <= |v.nodes|
  {
    (forall n :: n in h.mapping <==> n in v.nodes[..|hosts|]) &&
    (forall k :: 0 <= k < |hosts| ==> v.nodes[k] in h.mapping && h.mapping[v.nodes[k]] == hosts[k]) &&
    (forall k :: 0 <= k < |hosts| ==> hosts[k] in Physical.ComputeNodes(g))
  }

  /** selected lists the machines in use, most recently opened first; not_selected the others, in free0's order. */
  ghost predicate OrderedUpTo(free0: seq<NodeId>, hosts: seq<NodeId>, h: Hosting)
  {
    h.selected == MemoPath.Reverse(Opened(hosts)) && h.free == Filter(free0, hosts)
  }

  /** The counters hold what the placed nodes use, and no machine is over its capacity. */
  ghost predicate CountedUpTo(v: Virtual.VirtualNet, g: Physical.Network, hosts: seq<NodeId>, h: Hosting)
    requires |hosts| <= |v.nodes|
  {
    (forall p :: GetI(h.cores, p) == Held(v, Cores, hosts, p) && GetI(h.memory, p) == Held(v, Memory, hosts, p)) &&
    (forall p :: Held(v, Cores, hosts, p) <= LowerBound.Capacity(g, Cores, p) &&
      Held(v, Memory, hosts, p) <= LowerBound.Capacity(g, Memory, p))
  }

  /** The phase-one state after the first |hosts| nodes. */
  ghost predicate PlacedUpTo(v: Virtual.VirtualNet, g: Physical.Network, free0: seq<NodeId>, hosts: seq<NodeId>,
                             h: Hosting)
    requires |hosts| <= |v.nodes|
  {
    MappedUpTo(v, g, hosts, h) && OrderedUpTo(free0, hosts, h) && CountedUpTo(v, g, hosts, h)
  }

  /*
   * Phase one, step by step.
   */

  lemma ReverseHas(s: seq<NodeId>)
    ensures forall p :: p in MemoPath.Reverse(s) <==> p in s
    ensures Distinct(s) ==> Distinct(MemoPath.Reverse(s))
  {
    var r := MemoPath.Reverse(s);
    forall p | p in s ensures p in r {
      var k :| 0 <= k < |s| && s[k] == p;
      assert r[|s| - 1 - k] == p;
    }
    if Distinct(s) {
      forall a, b | 0 <= a < b < |r| ensures r[a] != r[b] {
        assert r[a] == s[|s| - 1 - a] && r[b] == s[|s| - 1 - b];
      }
    }
  }

  lemma ReversePush(s: seq<NodeId>, p: NodeId)
    ensures MemoPath.Reverse(s + [p]) == [p] + MemoPath.Reverse(s)
  {
    var a, b := MemoPath.Reverse(s + [p]), [p] + MemoPath.Reverse(s);
    assert |a| == |b|;
    forall k | 0 <= k < |a| ensures a[k] == b[k] {
      if k > 0 {
        assert a[k] == (s + [p])[|s| - k];
      }
    }
  }

  lemma {:induction false} FilterTwice(s: seq<NodeId>, a: seq<NodeId>, b: seq<NodeId>)
    ensures Filter(s, a + b) == Filter(Filter(s, a), b)
  {
    if |s| > 0 {
      var s' := s[..|s| - 1];
      var x := s[|s| - 1];
      FilterTwice(s', a, b);
      if x !in a {
        var fa := Filter(s', a) + [x];
        assert fa[..|fa| - 1] == Filter(s', a);
      }
    }
  }

  lemma {:induction false} FilterSame(s: seq<NodeId>, a: seq<NodeId>, b: seq<NodeId>)
    requires forall x :: x in a <==> x in b
    ensures Filter(s, a) == Filter(s, b)
  {
    if |s| > 0 {
      FilterSame(s[..|s| - 1], a, b);
    }
  }

  lemma HeldStep(v: Virtual.VirtualNet, res: Resource, hosts: seq<NodeId>, p: NodeId)
    requires |hosts| < |v.nodes|
    ensures forall q :: (Held(v, res, hosts + [p], q) ==
      Held(v, res, hosts, q) + (if p == q then LowerBound.Demand(v, res, v.nodes[|hosts|]) else 0))
  {
    assert (hosts + [p])[..|hosts|] == hosts;
  }

  /** The candidate list holds every compute node, once. */
  lemma CandidatesAreMachines(g: Physical.Network, free0: seq<NodeId>, hosts: seq<NodeId>)
    requires ListsMachines(g, free0)
    requires forall k :: 0 <= k < |hosts| ==> hosts[k] in Physical.ComputeNodes(g)
    ensures Distinct(Candidates(free0, hosts))
    ensures forall p :: p in Candidates(free0, hosts) <==> p in Physical.ComputeNodes(g)
  {
    ReverseHas(Opened(hosts));
    DistinctJoin(MemoPath.Reverse(Opened(hosts)), Filter(free0, hosts));
  }

  /** res_node_mapping[n] = p, p leaves not_selected for the front of selected if it was there, and p's counters grow. */
  function Assign(v: Virtual.VirtualNet, h: Hosting, n: NodeId, p: NodeId): Hosting
  {
    var moved := p in h.free;
    Hosting(h.mapping[n := p],
            if moved then [p] + h.selected else h.selected,
            if moved then Filter(h.free, [p]) else h.free,
            h.cores[p := GetI(h.cores, p) + LowerBound.Demand(v, Cores, n)],
            h.memory[p := GetI(h.memory, p) + LowerBound.Demand(v, Memory, n)])
  }

  lemma MapStep(v: Virtual.VirtualNet, g: Physical.Network, free0: seq<NodeId>, hosts: seq<NodeId>, h: Hosting,
                p: NodeId)
    requires Virtual.Valid(v) && ListsMachines(g, free0)
    requires |hosts| < |v.nodes| && MappedUpTo(v, g, hosts, h)
    requires p in Candidates(free0, hosts)
    ensures MappedUpTo(v, g, hosts + [p], Assign(v, h, v.nodes[|hosts|], p))
  {
    var i := |hosts|;
    var n := v.nodes[i];
    var h' := Assign(v, h, n, p);
    var hosts' := hosts + [p];
    CandidatesAreMachines(g, free0, hosts);
    assert v.nodes[..i + 1] == v.nodes[..i] + [n];
    assert n !in v.nodes[..i];
    forall k | 0 <= k < i + 1 ensures v.nodes[k] in h'.mapping && h'.mapping[v.nodes[k]] == hosts'[k] {
      if k < i {
        assert v.nodes[k] != n;
      }
    }
  }

  lemma OrderStep(v: Virtual.VirtualNet, g: Physical.Network, free0: seq<NodeId>, hosts: seq<NodeId>, h: Hosting,
                  p: NodeId)
    requires ListsMachines(g, free0) && OrderedUpTo(free0, hosts, h)
    requires |hosts| < |v.nodes|
    requires forall k :: 0 <= k < |hosts| ==> hosts[k] in Physical.ComputeNodes(g)
    requires p in Candidates(free0, hosts)
    ensures OrderedUpTo(free0, hosts + [p], Assign(v, h, v.nodes[|hosts|], p))
  {
    assert (hosts + [p])[..|hosts|] == hosts;
    ReverseHas(Opened(hosts));
    if p in h.free {
      assert p !in hosts;
      ReversePush(Opened(hosts), p);
      FilterTwice(free0, hosts, [p]);
    } else {
      assert p in hosts;
      FilterSame(free0, hosts, hosts + [p]);
    }
  }

  lemma CountStep(v: Virtual.VirtualNet, g: Physical.Network, hosts: seq<NodeId>, h: Hosting, p: NodeId)
    requires |hosts| < |v.nodes| && CountedUpTo(v, g, hosts, h) && RoomFor(v, g, hosts, p)
    ensures CountedUpTo(v, g, hosts + [p], Assign(v, h, v.nodes[|hosts|], p))
  {
    HeldStep(v, Cores, hosts, p);
    HeldStep(v, Memory, hosts, p);
  }

  lemma FitStep(v: Virtual.VirtualNet, g: Physical.Network, free0: seq<NodeId>, hosts: seq<NodeId>, p: NodeId)
    requires FirstFits(v, g, free0, hosts) && FirstFit(v, g, free0, hosts, p)
    ensures FirstFits(v, g, free0, hosts + [p])
  {
    var hosts' := hosts + [p];
    forall k | 0 <= k < |hosts'| ensures FirstFit(v, g, free0, hosts'[..k], hosts'[k]) {
      if k < |hosts| {
        assert hosts'[..k] == hosts[..k];
      } else {
        assert hosts'[..k] == hosts;
      }
    }
  }

  /** The counters read what the nodes placed so far hold. */
  lemma {:induction false} HeldIsLoad(v: Virtual.VirtualNet, res: Resource, mapping: map<NodeId, NodeId>,
                                      hosts: seq<NodeId>, p: NodeId)
    requires |hosts| <= |v.nodes|
    requires forall k :: 0 <= k < |hosts| ==> v.nodes[k] in mapping && mapping[v.nodes[k]] == hosts[k]
    ensures Held(v, res, hosts, p) == EmbedVerify.Load(v, res, mapping, v.nodes[..|hosts|], p)
  {
    if |hosts| > 0 {
      var m := |hosts| - 1;
      HeldIsLoad(v, res, mapping, hosts[..m], p);
      assert v.nodes[..m + 1][..m] == v.nodes[..m];
    }
  }

  /** Every virtual node is placed, every machine in use is in selected, and selected and not_selected split the compute nodes. */
  ghost predicate Machines(v: Virtual.VirtualNet, g: Physical.Network, h: Hosting)
  {
    (forall n :: n in h.mapping <==> n in v.nodes) &&
    (forall n :: n in h.mapping ==> h.mapping[n] in h.selected) &&
    Distinct(h.selected + h.free) &&
    (forall p :: p in h.selected + h.free <==> p in Physical.ComputeNodes(g))
  }

  /** The counters hold each machine's load, and no machine is over its cores or memory. */
  ghost predicate Accounted(v: Virtual.VirtualNet, g: Physical.Network, h: Hosting)
  {
    (forall p :: GetI(h.cores, p) == EmbedVerify.Load(v, Cores, h.mapping, v.nodes, p) &&
      GetI(h.memory, p) == EmbedVerify.Load(v, Memory, h.mapping, v.nodes, p)) &&
    EmbedVerify.NodesWithin(v, g, h.mapping, v.nodes)
  }

  ghost predicate Hosted(v: Virtual.VirtualNet, g: Physical.Network, h: Hosting)
  {
    Machines(v, g, h) && Accounted(v, g, h)
  }

  lemma PlacedMachines(v: Virtual.VirtualNet, g: Physical.Network, free0: seq<NodeId>, hosts: seq<NodeId>, h: Hosting)
    requires Virtual.Valid(v) && ListsMachines(g, free0)
    requires |hosts| == |v.nodes| && MappedUpTo(v, g, hosts, h) && OrderedUpTo(free0, hosts, h)
    ensures Machines(v, g, h)
  {
    assert v.nodes[..|hosts|] == v.nodes;
    ReverseHas(Opened(hosts));
    forall n | n in h.mapping ensures h.mapping[n] in h.selected {
      var k :| 0 <= k < |v.nodes| && v.nodes[k] == n;
      assert hosts[k] in Opened(hosts);
    }
    CandidatesAreMachines(g, free0, hosts);
  }

  lemma PlacedAccounted(v: Virtual.VirtualNet, g: Physical.Network, hosts: seq<NodeId>, h: Hosting)
    requires |hosts| == |v.nodes| && MappedUpTo(v, g, hosts, h) && CountedUpTo(v, g, hosts, h)
    ensures Accounted(v, g, h)
  {
    assert v.nodes[..|hosts|] == v.nodes;
    forall p ensures GetI(h.cores, p) == EmbedVerify.Load(v, Cores, h.mapping, v.nodes, p) &&
      GetI(h.memory, p) == EmbedVerify.Load(v, Memory, h.mapping, v.nodes, p)
    {
      HeldIsLoad(v, Cores, h.mapping, hosts, p);
      HeldIsLoad(v, Memory, h.mapping, hosts, p);
    }
  }

  /** What phase one ends with: every node placed, or the position of the first node no machine has room for. */
  datatype Phase1 = Placed(h: Hosting) | Stuck(at: nat, h: Hosting)

  /**
   * Phase one: each node in turn goes to the first machine of selected
   * then not_selected with room for its cores and memory; a machine taken
   * from not_selected moves to the front of selected. When no machine has
   * room the loop stops there.
   */
  method PlaceNodes(v: Virtual.VirtualNet, g: Physical.Network, free0: seq<NodeId>) returns (r: Phase1)
    requires Virtual.Valid(v) && ListsMachines(g, free0)
    ensures r.Placed? ==> Hosted(v, g, r.h)
    ensures r.Placed? ==> forall k :: 0 <= k < |v.nodes| ==> v.nodes[k] in r.h.mapping
    ensures r.Placed? ==> FirstFits(v, g, free0, HostsOf(r.h.mapping, v.nodes))
    ensures r.Placed? ==> OrderedUpTo(free0, HostsOf(r.h.mapping, v.nodes), r.h)
    ensures r.Stuck? ==> r.at < |v.nodes| && forall k :: 0 <= k < r.at ==> v.nodes[k] in r.h.mapping
    ensures r.Stuck? ==> FirstFits(v, g, free0, HostsOf(r.h.mapping, v.nodes[..r.at]))
    ensures r.Stuck? ==> forall p :: p in Physical.ComputeNodes(g) ==>
      !RoomFor(v, g, HostsOf(r.h.mapping, v.nodes[..r.at]), p)
  {
    var h, i, hosts := PlaceLoop(v, g, free0);
    if i < |v.nodes| {
      StuckHere(v, g, free0, hosts, h);
      r := Stuck(i, h);
    } else {
      PlacedAll(v, g, free0, hosts, h);
      r := Placed(h);
    }
  }

  /** The loop of phase one; it stops at the first node no candidate has room for, or after the last node. */
  method PlaceLoop(v: Virtual.VirtualNet, g: Physical.Network, free0: seq<NodeId>)
    returns (h: Hosting, i: nat, ghost hosts: seq<NodeId>)
    requires Virtual.Valid(v) && ListsMachines(g, free0)
    ensures i <= |v.nodes| && |hosts| == i && PlacedUpTo(v, g, free0, hosts, h) && FirstFits(v, g, free0, hosts)
    ensures i < |v.nodes| ==>
      forall l :: 0 <= l < |Candidates(free0, hosts)| ==> !RoomFor(v, g, hosts, Candidates(free0, hosts)[l])
  {
    h := Hosting(map[], [], free0, map[], map[]);
    hosts := [];
    FilterEmpty(free0);
    i := 0;
    while i < |v.nodes|
      invariant 0 <= i <= |v.nodes| && |hosts| == i
      invariant PlacedUpTo(v, g, free0, hosts, h) && FirstFits(v, g, free0, hosts)
    {
      var placed, h', hosts' := PlaceOne(v, g, free0, h, i, hosts);
      if !placed {
        return;
      }
      h, hosts, i := h', hosts', i + 1;
    }
  }

  /** One turn of phase one: the next node goes to the first candidate with room, if there is one. */
  method PlaceOne(v: Virtual.VirtualNet, g: Physical.Network, free0: seq<NodeId>, h: Hosting, i: nat,
                  ghost hosts: seq<NodeId>)
    returns (placed: bool, h': Hosting, ghost hosts': seq<NodeId>)
    requires Virtual.Valid(v) && ListsMachines(g, free0)
    requires i == |hosts| < |v.nodes| && PlacedUpTo(v, g, free0, hosts, h) && FirstFits(v, g, free0, hosts)
    ensures placed ==> |hosts'| == |hosts| + 1 && PlacedUpTo(v, g, free0, hosts', h') && FirstFits(v, g, free0, hosts')
    ensures !placed ==>
      forall l :: 0 <= l < |Candidates(free0, hosts)| ==> !RoomFor(v, g, hosts, Candidates(free0, hosts)[l])
  {
    var n := v.nodes[i];
    var c := h.selected + h.free;
    assert c == Candidates(free0, hosts);
    var j := FirstRoom(v, g, h, n, hosts, c);
    if j == |c| {
      return false, h, hosts;
    }
    var p := c[j];
    FirstFound(v, g, free0, hosts, j);
    PlaceStep(v, g, free0, hosts, h, p);
    placed, h', hosts' := true, Assign(v, h, n, p), hosts + [p];
  }

  /** No candidate has room for the next node: phase one stops there. */
  lemma StuckHere(v: Virtual.VirtualNet, g: Physical.Network, free0: seq<NodeId>, hosts: seq<NodeId>, h: Hosting)
    requires ListsMachines(g, free0) && |hosts| < |v.nodes| && PlacedUpTo(v, g, free0, hosts, h)
    requires FirstFits(v, g, free0, hosts)
    requires forall l :: 0 <= l < |Candidates(free0, hosts)| ==> !RoomFor(v, g, hosts, Candidates(free0, hosts)[l])
    ensures forall k :: 0 <= k < |hosts| ==> v.nodes[k] in h.mapping
    ensures forall k :: 0 <= k < |hosts| ==> v.nodes[..|hosts|][k] in h.mapping
    ensures FirstFits(v, g, free0, HostsOf(h.mapping, v.nodes[..|hosts|]))
    ensures forall p :: p in Physical.ComputeNodes(g) ==> !RoomFor(v, g, HostsOf(h.mapping, v.nodes[..|hosts|]), p)
  {
    HostsAre(v, g, hosts, h);
    CandidatesAreMachines(g, free0, hosts);
  }

  /** Every node placed: the state phase one hands over. */
  lemma PlacedAll(v: Virtual.VirtualNet, g: Physical.Network, free0: seq<NodeId>, hosts: seq<NodeId>, h: Hosting)
    requires Virtual.Valid(v) && ListsMachines(g, free0) && |hosts| == |v.nodes| && PlacedUpTo(v, g, free0, hosts, h)
    requires FirstFits(v, g, free0, hosts)
    ensures Hosted(v, g, h)
    ensures forall k :: 0 <= k < |v.nodes| ==> v.nodes[k] in h.mapping
    ensures FirstFits(v, g, free0, HostsOf(h.mapping, v.nodes))
    ensures OrderedUpTo(free0, HostsOf(h.mapping, v.nodes), h)
  {
    HostsAll(v, g, hosts, h);
    PlacedMachines(v, g, free0, hosts, h);
    PlacedAccounted(v, g, hosts, h);
  }

  lemma HostsAll(v: Virtual.VirtualNet, g: Physical.Network, hosts: seq<NodeId>, h: Hosting)
    requires |hosts| == |v.nodes| && MappedUpTo(v, g, hosts, h)
    ensures forall k :: 0 <= k < |v.nodes| ==> v.nodes[k] in h.mapping
    ensures HostsOf(h.mapping, v.nodes) == hosts
  {
  }

  /** The scan of selected then not_selected for the first machine whose counters leave room for the next node. */
  method FirstRoom(v: Virtual.VirtualNet, g: Physical.Network, h: Hosting, n: NodeId, ghost hosts: seq<NodeId>,
                   c: seq<NodeId>) returns (j: nat)
    requires |hosts| < |v.nodes| && n == v.nodes[|hosts|] && CountedUpTo(v, g, hosts, h)
    ensures j <= |c| && (j < |c| ==> RoomFor(v, g, hosts, c[j]))
    ensures forall l :: 0 <= l < j ==> !RoomFor(v, g, hosts, c[l])
  {
    j := 0;
    while j < |c| && !HasRoom(v, g, h, n, c[j])
      invariant 0 <= j <= |c|
      invariant forall l :: 0 <= l < j ==> !RoomFor(v, g, hosts, c[l])
    {
      RoomAgrees(v, g, hosts, h, c[j]);
      j := j + 1;
    }
    if j < |c| {
      RoomAgrees(v, g, hosts, h, c[j]);
    }
  }

  /** The counters' test and the placement's agree while the counters are in step. */
  lemma RoomAgrees(v: Virtual.VirtualNet, g: Physical.Network, hosts: seq<NodeId>, h: Hosting, p: NodeId)
    requires |hosts| < |v.nodes| && CountedUpTo(v, g, hosts, h)
    ensures HasRoom(v, g, h, v.nodes[|hosts|], p) == RoomFor(v, g, hosts, p)
  {
  }

  lemma HostsAre(v: Virtual.VirtualNet, g: Physical.Network, hosts: seq<NodeId>, h: Hosting)
    requires |hosts| <= |v.nodes| && MappedUpTo(v, g, hosts, h)
    ensures forall k :: 0 <= k < |hosts| ==> v.nodes[..|hosts|][k] in h.mapping
    ensures hosts == HostsOf(h.mapping, v.nodes[..|hosts|])
  {
  }

  lemma FirstFound(v: Virtual.VirtualNet, g: Physical.Network, free0: seq<NodeId>, hosts: seq<NodeId>, j: nat)
    requires |hosts| < |v.nodes| && j < |Candidates(free0, hosts)|
    requires RoomFor(v, g, hosts, Candidates(free0, hosts)[j])
    requires forall l :: 0 <= l < j ==> !RoomFor(v, g, hosts, Candidates(free0, hosts)[l])
    ensures FirstFit(v, g, free0, hosts, Candidates(free0, hosts)[j])
  {
  }

  /** One node placed on the first candidate with room keeps the phase-one state. */
  lemma PlaceStep(v: Virtual.VirtualNet, g: Physical.Network, free0: seq<NodeId>, hosts: seq<NodeId>, h: Hosting,
                  p: NodeId)
    requires Virtual.Valid(v) && ListsMachines(g, free0)
    requires |hosts| < |v.nodes| && PlacedUpTo(v, g, free0, hosts, h) && FirstFits(v, g, free0, hosts)
    requires FirstFit(v, g, free0, hosts, p)
    ensures PlacedUpTo(v, g, free0, hosts + [p], Assign(v, h, v.nodes[|hosts|], p))
    ensures FirstFits(v, g, free0, hosts + [p])
  {
    var c := Candidates(free0, hosts);
    var j :| 0 <= j < |c| && c[j] == p && RoomFor(v, g, hosts, c[j]);
    FitStep(v, g, free0, hosts, p);
    MapStep(v, g, free0, hosts, h, p);
    OrderStep(v, g, free0, hosts, h, p);
    CountStep(v, g, hosts, h, p);
  }

  lemma {:induction false} FilterEmpty(s: seq<NodeId>)
    ensures Filter(s, []) == s
  {
    if |s| > 0 {
      FilterEmpty(s[..|s| - 1]);
    }
  }

  /*
   * Phase two and the repair: the rates booked on interfaces.
   */

  /** Which revision's conventions are followed where the two differ. */
  datatype Revision = MappingRevision | GridRevision

  /**
   * The key a stored hop is booked under in rate_used. The mapping
   * revision stores hops along the path and sorts the two ends back; the
   * grid5000 revision stores the pair as find_path gave it.
   */
  function SlotOf(rev: Revision, h: Hop<Key>): Slot
  {
    if rev == GridRevision then (h.src, h.dst, h.device)
    else var q := Normalise(h.src, h.dst); (q.0, q.1, h.device)
  }

  /** How many hops of a path are booked under s. */
  function Count(rev: Revision, hops: Path, s: Slot): nat
  {
    if |hops| == 0 then 0
    else Count(rev, hops[..|hops| - 1], s) + (if SlotOf(rev, hops[|hops| - 1]) == s then 1 else 0)
  }

  /** The rate a path booked for req puts on s: req once per hop booked under s. */
  function Charge(rev: Revision, hops: Path, req: nat, s: Slot): nat
  {
    if |hops| == 0 then 0
    else Charge(rev, hops[..|hops| - 1], req, s) + (if SlotOf(rev, hops[|hops| - 1]) == s then req else 0)
  }

  /** Reading a defaultdict(list) of paths. */
  function GetPath(paths: map<Pair, Path>, e: Pair): Path
  {
    if e in paths then paths[e] else []
  }

  /** Reading a defaultdict(set) of virtual links. */
  function GetSet(m: map<Slot, set<Pair>>, s: Slot): set<Pair>
  {
    if s in m then m[s] else {}
  }

  /** Both orientations of every virtual link: every key a stored path can have. */
  function LinkKeys(v: Virtual.VirtualNet): (r: seq<Pair>)
    ensures |r| == 2 * |v.links|
    ensures forall t :: 0 <= t < |v.links| ==> r[t] == (v.links[t].u, v.links[t].v)
    ensures forall k :: |v.links| <= k < 2 * |v.links| ==> r[k] == (v.links[k - |v.links|].v, v.links[k - |v.links|].u)
  {
    var n := |v.links|;
    seq(2 * n, k requires 0 <= k < 2 * n => if k < n then (v.links[k].u, v.links[k].v) else (v.links[k - n].v, v.links[k - n].u))
  }

  /** The rate the stored paths of keys put on s: req_rate of each link once per hop booked under s. */
  function TallyOver(rev: Revision, v: Virtual.VirtualNet, paths: map<Pair, Path>, keys: seq<Pair>, s: Slot): nat
  {
    if |keys| == 0 then 0
    else
      var e := keys[|keys| - 1];
      TallyOver(rev, v, paths, keys[..|keys| - 1], s) + Charge(rev, GetPath(paths, e), EmbedVerify.RateOf(v, e), s)
  }

  /** The rate all stored paths put on s. */
  function Tally(rev: Revision, v: Virtual.VirtualNet, paths: map<Pair, Path>, s: Slot): nat
  {
    TallyOver(rev, v, paths, LinkKeys(v), s)
  }

  /** The virtual links whose stored path uses s: what use_link should hold. */
  function Users(rev: Revision, paths: map<Pair, Path>, s: Slot): (r: set<Pair>)
    ensures forall e :: e in r <==> e in paths && Count(rev, paths[e], s) > 0
  {
    set e | e in paths && Count(rev, paths[e], s) > 0
  }

  /** rate(i, j, interface) of a booked key (0 for a key the network lacks). */
  function SlotRate(g: Physical.Network, s: Slot): nat
  {
    match Physical.Rate(g, s.0, s.1, s.2)
    case Ok(r) => r
    case Err(_) => 0
  }

  /** What an interface carries beyond its rate (negative when there is room left). */
  function Over(g: Physical.Network, used: map<Slot, int>, s: Slot): int
  {
    GetI(used, s) - SlotRate(g, s)
  }

  /** exceeded_rate: the rate in excess summed over the keys of rate_used. */
  function Excess(g: Physical.Network, used: map<Slot, int>, slots: seq<Slot>): nat
  {
    if |slots| == 0 then 0
    else
      var o := Over(g, used, slots[|slots| - 1]);
      Excess(g, used, slots[..|slots| - 1]) + (if o > 0 then o else 0)
  }

  /** Python's max over keyed values: the first position holding the largest. */
  function FirstMax(xs: seq<int>): (k: nat)
    requires |xs| > 0
    ensures k < |xs|
    ensures forall l :: 0 <= l < |xs| ==> xs[l] <= xs[k]
    ensures forall l :: 0 <= l < k ==> xs[l] < xs[k]
  {
    var n := |xs| - 1;
    if n == 0 then 0
    else
      var k := FirstMax(xs[..n]);
      assert forall l :: 0 <= l < n ==> xs[..n][l] == xs[l];
      if xs[n] > xs[k] then n else k
  }

  /** max(violated_links, key=violated_links.get): the first key carrying the most rate in excess. */
  function Worst(g: Physical.Network, used: map<Slot, int>, slots: seq<Slot>): (k: nat)
    requires |slots| > 0
    ensures k < |slots|
    ensures forall l :: 0 <= l < |slots| ==> Over(g, used, slots[l]) <= Over(g, used, slots[k])
    ensures forall l :: 0 <= l < k ==> Over(g, used, slots[l]) < Over(g, used, slots[k])
  {
    var xs := seq(|slots|, l requires 0 <= l < |slots| => Over(g, used, slots[l]));
    assert forall l :: 0 <= l < |slots| ==> xs[l] == Over(g, used, slots[l]);
    FirstMax(xs)
  }

  /** The rate an interface of (i, j) has left once W is booked. */
  function Left(g: Physical.Network, W: map<Slot, int>, i: NodeId, j: NodeId, key: Key): int
  {
    SlotRate(g, (i, j, key)) - GetI(W, (i, j, key))
  }

  /** max(interfaces, key=rate left): the first interface with the most rate left. */
  function BestAt(g: Physical.Network, W: map<Slot, int>, i: NodeId, j: NodeId, ids: seq<Key>): (k: nat)
    requires |ids| > 0
    ensures k < |ids|
    ensures forall l :: 0 <= l < |ids| ==> Left(g, W, i, j, ids[l]) <= Left(g, W, i, j, ids[k])
    ensures forall l :: 0 <= l < k ==> Left(g, W, i, j, ids[l]) < Left(g, W, i, j, ids[k])
  {
    var xs := seq(|ids|, l requires 0 <= l < |ids| => Left(g, W, i, j, ids[l]));
    assert forall l :: 0 <= l < |ids| ==> xs[l] == Left(g, W, i, j, ids[l]);
    FirstMax(xs)
  }

  /**
   * The keys of rate_used after the max over the interfaces of (i, j)
   * reads rate_used[(i, j, interface)] for each of them: the unseen ones
   * join the end, in the interfaces' order.
   */
  function Touch(ws: seq<Slot>, i: NodeId, j: NodeId, ids: seq<Key>): (r: seq<Slot>)
    ensures |ws| <= |r| && r[..|ws|] == ws
    ensures Distinct(ws) ==> Distinct(r)
    ensures forall s :: s in r <==> s in ws || (s.0 == i && s.1 == j && s.2 in ids)
  {
    if |ids| == 0 then ws
    else
      var t := Touch(ws, i, j, ids[..|ids| - 1]);
      assert forall k :: k in ids[..|ids| - 1] ==> k in ids;
      assert forall k :: k in ids ==> k in ids[..|ids| - 1] || k == ids[|ids| - 1];
      var s := (i, j, ids[|ids| - 1]);
      if s in t then t else t + [s]
  }

  /*
   * The booking, lemma by lemma.
   */

  /** What validity says of one link. */
  lemma LinkAt(v: Virtual.VirtualNet, t: nat)
    requires Virtual.Valid(v) && t < |v.links|
    ensures v.links[t].u in v.nodes && v.links[t].v in v.nodes && v.links[t].u != v.links[t].v
  {
  }

  /** What validity says of two links. */
  lemma LinksApart(v: Virtual.VirtualNet, a: nat, b: nat)
    requires Virtual.Valid(v) && a < b < |v.links|
    ensures !Virtual.Joins(v.links[b], v.links[a].u, v.links[a].v)
  {
  }

  /** No two links join the same nodes, so the keys of both orientations are all different. */
  lemma LinkKeysDistinct(v: Virtual.VirtualNet)
    requires Virtual.Valid(v)
    ensures Distinct(LinkKeys(v))
  {
    var r := LinkKeys(v);
    var n := |v.links|;
    forall a, b | 0 <= a < b < 2 * n ensures r[a] != r[b] {
      var ta := if a < n then a else a - n;
      var tb := if b < n then b else b - n;
      if ta == tb {
        LinkAt(v, ta);
      } else if ta < tb {
        LinksApart(v, ta, tb);
      } else {
        LinksApart(v, tb, ta);
      }
    }
  }

  /** A key of a link joins two different virtual nodes, and the link has a rate. */
  lemma LinkKeyEnds(v: Virtual.VirtualNet, e: Pair)
    requires Virtual.Valid(v) && e in LinkKeys(v)
    ensures e.0 in v.nodes && e.1 in v.nodes && e.0 != e.1
    ensures Virtual.RateIn(v.links, e.0, e.1).Some?
  {
    var r := LinkKeys(v);
    var k :| 0 <= k < |r| && r[k] == e;
    var n := |v.links|;
    if k < n {
      assert r[k] == (v.links[k].u, v.links[k].v);
      LinkAt(v, k);
      assert Virtual.Joins(v.links[k], e.0, e.1);
    } else {
      assert r[k] == (v.links[k - n].v, v.links[k - n].u);
      LinkAt(v, k - n);
      assert Virtual.Joins(v.links[k - n], e.0, e.1);
    }
  }

  /** Both the link as listed and its sorted ends are keys. */
  lemma KeysOfLink(v: Virtual.VirtualNet, t: nat)
    requires t < |v.links|
    ensures (v.links[t].u, v.links[t].v) in LinkKeys(v)
    ensures Normalise(v.links[t].u, v.links[t].v) in LinkKeys(v)
  {
    var r := LinkKeys(v);
    assert r[t] == (v.links[t].u, v.links[t].v);
    assert r[|v.links| + t] == (v.links[t].v, v.links[t].u);
  }

  lemma {:induction false} TallyOverOther(rev: Revision, v: Virtual.VirtualNet, paths: map<Pair, Path>,
                                          keys: seq<Pair>, e: Pair, P: Path, s: Slot)
    requires e !in keys
    ensures TallyOver(rev, v, paths[e := P], keys, s) == TallyOver(rev, v, paths, keys, s)
  {
    if |keys| > 0 {
      TallyOverOther(rev, v, paths, keys[..|keys| - 1], e, P, s);
    }
  }

  /** Storing P under e moves e's share of the tally from its old path to P. */
  lemma {:induction false} TallyOverSwap(rev: Revision, v: Virtual.VirtualNet, paths: map<Pair, Path>,
                                         keys: seq<Pair>, e: Pair, P: Path, s: Slot)
    requires Distinct(keys) && e in keys
    ensures TallyOver(rev, v, paths[e := P], keys, s) + Charge(rev, GetPath(paths, e), EmbedVerify.RateOf(v, e), s) ==
      TallyOver(rev, v, paths, keys, s) + Charge(rev, P, EmbedVerify.RateOf(v, e), s)
  {
    var m := |keys| - 1;
    if keys[m] == e {
      assert e !in keys[..m];
      TallyOverOther(rev, v, paths, keys[..m], e, P, s);
    } else {
      assert e in keys[..m];
      TallyOverSwap(rev, v, paths, keys[..m], e, P, s);
    }
  }

  lemma TallySwap(rev: Revision, v: Virtual.VirtualNet, paths: map<Pair, Path>, e: Pair, P: Path)
    requires Virtual.Valid(v) && e in LinkKeys(v)
    ensures forall s :: (Tally(rev, v, paths[e := P], s) + Charge(rev, GetPath(paths, e), EmbedVerify.RateOf(v, e), s) ==
      Tally(rev, v, paths, s) + Charge(rev, P, EmbedVerify.RateOf(v, e), s))
  {
    LinkKeysDistinct(v);
    forall s ensures Tally(rev, v, paths[e := P], s) + Charge(rev, GetPath(paths, e), EmbedVerify.RateOf(v, e), s) ==
      Tally(rev, v, paths, s) + Charge(rev, P, EmbedVerify.RateOf(v, e), s)
    {
      TallyOverSwap(rev, v, paths, LinkKeys(v), e, P, s);
    }
  }

  /** Rate on s comes from some stored path with a hop booked under s. */
  lemma {:induction false} TallyOverSource(rev: Revision, v: Virtual.VirtualNet, paths: map<Pair, Path>,
                                           keys: seq<Pair>, s: Slot)
    requires TallyOver(rev, v, paths, keys, s) > 0
    ensures exists e :: e in paths && Count(rev, paths[e], s) > 0
  {
    var m := |keys| - 1;
    var e := keys[m];
    if Charge(rev, GetPath(paths, e), EmbedVerify.RateOf(v, e), s) == 0 {
      TallyOverSource(rev, v, paths, keys[..m], s);
    } else {
      NoCountNoCharge(rev, GetPath(paths, e), EmbedVerify.RateOf(v, e), s);
    }
  }

  /** Nothing stored, nothing booked. */
  lemma {:induction false} TallyOverNone(rev: Revision, v: Virtual.VirtualNet, keys: seq<Pair>, s: Slot)
    ensures TallyOver(rev, v, map[], keys, s) == 0
  {
    if |keys| > 0 {
      TallyOverNone(rev, v, keys[..|keys| - 1], s);
    }
  }

  /** The tally of every stored path includes the share of each one. */
  lemma {:induction false} TallyOverCovers(rev: Revision, v: Virtual.VirtualNet, paths: map<Pair, Path>,
                                           keys: seq<Pair>, e: Pair, s: Slot)
    requires e in keys
    ensures Charge(rev, GetPath(paths, e), EmbedVerify.RateOf(v, e), s) <= TallyOver(rev, v, paths, keys, s)
  {
    var m := |keys| - 1;
    if keys[m] != e {
      TallyOverCovers(rev, v, paths, keys[..m], e, s);
    }
  }

  /** No key carries rate in excess exactly when the sum of the excesses is 0. */
  lemma {:induction false} ExcessNone(g: Physical.Network, used: map<Slot, int>, slots: seq<Slot>)
    ensures Excess(g, used, slots) == 0 <==> forall k :: 0 <= k < |slots| ==> Over(g, used, slots[k]) <= 0
  {
    if |slots| > 0 {
      var m := |slots| - 1;
      ExcessNone(g, used, slots[..m]);
      assert forall k :: 0 <= k < m ==> slots[..m][k] == slots[k];
    }
  }

  /** Keys with room left add nothing to the excess. */
  lemma {:induction false} ExcessIdle(g: Physical.Network, used: map<Slot, int>, slots: seq<Slot>, extra: seq<Slot>)
    requires forall k :: 0 <= k < |extra| ==> Over(g, used, extra[k]) <= 0
    ensures Excess(g, used, slots + extra) == Excess(g, used, slots)
  {
    if |extra| > 0 {
      var m := |extra| - 1;
      assert (slots + extra)[..|slots| + m] == slots + extra[..m];
      assert (slots + extra)[|slots| + m] == extra[m];
      assert Over(g, used, extra[m]) <= 0;
      ExcessIdle(g, used, slots, extra[..m]);
    } else {
      assert slots + extra == slots;
    }
  }

  /*
   * The hops of one link.
   */

  /** The k-th hop of a grid5000 path: the k-th pair as find_path gave it, on one of its interfaces. */
  predicate Beside(g: Physical.Network, pairs: seq<Pair>, hops: Path, k: nat)
    requires k < |pairs| && k < |hops|
  {
    hops[k].src == pairs[k].0 && hops[k].dst == pairs[k].1 &&
    hops[k].device in Physical.InterfaceIds(g, pairs[k].0, pairs[k].1)
  }

  /** The k-th hop follows the k-th step of the walk, the way the revision stores it. */
  predicate HopOn(rev: Revision, g: Physical.Network, walk: seq<NodeId>, hops: Path, k: nat)
    requires k + 1 < |walk| && k < |hops|
  {
    var pairs := MemoPath.PairsOf(walk);
    if rev == MappingRevision then PairRouting.Along(g, pairs, walk, hops, k) else Beside(g, pairs, hops, k)
  }

  /** The hops follow a simple path from a to b step by step. */
  ghost predicate Follows(rev: Revision, g: Physical.Network, a: NodeId, b: NodeId, walk: seq<NodeId>, hops: Path)
  {
    MemoPath.SimplePath(g.adj, a, b, walk) && |walk| == |hops| + 1 &&
    forall k :: 0 <= k < |hops| ==> HopOn(rev, g, walk, hops, k)
  }

  /** The hops route a link from machine a to machine b. */
  ghost predicate RouteOf(rev: Revision, g: Physical.Network, a: NodeId, b: NodeId, hops: Path)
  {
    exists walk :: Follows(rev, g, a, b, walk, hops)
  }

  lemma CountPush(rev: Revision, hops: Path, h: Hop<Key>, req: nat)
    ensures forall s :: Count(rev, hops + [h], s) == Count(rev, hops, s) + (if SlotOf(rev, h) == s then 1 else 0)
    ensures forall s :: Charge(rev, hops + [h], req, s) == Charge(rev, hops, req, s) + (if SlotOf(rev, h) == s then req else 0)
  {
    assert (hops + [h])[..|hops|] == hops;
  }

  /** A path with no hop under s puts no rate on it. */
  lemma {:induction false} NoCountNoCharge(rev: Revision, hops: Path, req: nat, s: Slot)
    ensures Count(rev, hops, s) == 0 ==> Charge(rev, hops, req, s) == 0
  {
    if |hops| > 0 {
      NoCountNoCharge(rev, hops[..|hops| - 1], req, s);
    }
  }

  /** What the hop loop of one link leaves: its path, the working rates, the keys of rate_used and the links marked per key. */
  datatype Built = Built(hops: Path, used: map<Slot, int>, slots: seq<Slot>, marks: map<Slot, set<Pair>>)

  /**
   * The hop loop of one link between two machines: on each pair of the
   * path, the interface with the most rate left (ValueError when the link
   * has none), booked for req and marked as used by e. The mapping
   * revision stores the hop in the direction of travel, the grid5000
   * revision the pair as it is.
   */
  method BuildHops(rev: Revision, g: Physical.Network, pairs: seq<Pair>, ghost walk: seq<NodeId>, pu: NodeId, pv: NodeId,
                   req: nat, e: Pair, W: map<Slot, int>, ws: seq<Slot>, marks: map<Slot, set<Pair>>)
    returns (r: Result<Built>)
    requires MemoPath.SimplePath(g.adj, pu, pv, walk) && pairs == MemoPath.PairsOf(walk) && pu != pv
    requires Distinct(ws)
    ensures r.Err? ==> r.error == ValueError
    ensures r.Ok? ==> Follows(rev, g, pu, pv, walk, r.value.hops)
    ensures r.Ok? ==> Distinct(r.value.slots) && |ws| <= |r.value.slots| && r.value.slots[..|ws|] == ws
    ensures r.Ok? ==> forall s :: Count(rev, r.value.hops, s) > 0 ==> s in r.value.slots
    ensures r.Ok? ==> forall s :: GetI(r.value.used, s) == GetI(W, s) + Charge(rev, r.value.hops, req, s)
    ensures r.Ok? ==> forall s :: (GetSet(r.value.marks, s) ==
      GetSet(marks, s) + (if Count(rev, r.value.hops, s) > 0 then {e} else {}))
  {
    var hops: Path := [];
    var W' := W;
    var ws' := ws;
    var marks' := marks;
    var next := pu;
    var k := 0;
    while k < |pairs|
      invariant 0 <= k <= |pairs| && |hops| == k && next == walk[k]
      invariant HopsOn(rev, g, walk, hops)
      invariant Extends(ws, ws') && Building(rev, hops, req, e, W, W', ws', marks, marks')
    {
      PairRouting.PairAt(g.adj, pu, pv, walk, k);
      var (i, j) := pairs[k];
      var ids := Physical.InterfaceIds(g, i, j);
      if |ids| == 0 {
        return Err(ValueError);
      }
      var key := ids[BestAt(g, W', i, j, ids)];
      var before := ws';
      ws' := Touch(ws', i, j, ids);
      ExtendsMore(ws, before, ws');
      var s := (i, j, key);
      var hop := if rev == GridRevision || i == next then Hop(i, j, key) else Hop(j, i, key);
      assert SlotOf(rev, hop) == s;
      assert HopOn(rev, g, walk, hops + [hop], k);
      HopsStep(rev, g, walk, hops, hop);
      assert HopsOn(rev, g, walk, hops + [hop]);
      assert key in ids;
      assert s in ws';
      assert forall x :: x in before ==> x in ws';
      var W1 := W'[s := GetI(W', s) + req];
      var marks1 := marks'[s := GetSet(marks', s) + {e}];
      BuildingStep(rev, hops, hop, s, req, e, W, W', W1, before, ws', marks, marks', marks1);
      W', marks' := W1, marks1;
      next := if i == next then j else i;
      hops := hops + [hop];
      k := k + 1;
    }
    r := Ok(Built(hops, W', ws', marks'));
  }

  /** Every hop so far follows its step of the walk. */
  ghost predicate HopsOn(rev: Revision, g: Physical.Network, walk: seq<NodeId>, hops: Path)
  {
    |hops| < |walk| && forall m :: 0 <= m < |hops| ==> HopOn(rev, g, walk, hops, m)
  }

  /** ws' keeps the keys of ws, in their order, and adds new ones after them. */
  predicate Extends(ws: seq<Slot>, ws': seq<Slot>)
  {
    Distinct(ws') && |ws| <= |ws'| && ws'[..|ws|] == ws
  }

  lemma ExtendsMore(a: seq<Slot>, b: seq<Slot>, c: seq<Slot>)
    requires Extends(a, b) && Distinct(c) && |b| <= |c| && c[..|b|] == b
    ensures Extends(a, c)
  {
    assert c[..|a|] == c[..|b|][..|a|];
  }

  /** The hop loop's bookkeeping: W and marks hold what the hops so far add to W0 and M0, on keys of ws. */
  ghost predicate Building(rev: Revision, hops: Path, req: nat, e: Pair, W0: map<Slot, int>, W: map<Slot, int>,
                           ws: seq<Slot>, M0: map<Slot, set<Pair>>, M: map<Slot, set<Pair>>)
  {
    (forall s :: Count(rev, hops, s) > 0 ==> s in ws) &&
    (forall s :: GetI(W, s) == GetI(W0, s) + Charge(rev, hops, req, s)) &&
    (forall s :: GetSet(M, s) == GetSet(M0, s) + (if Count(rev, hops, s) > 0 then {e} else {}))
  }

  lemma BuildingStep(rev: Revision, hops: Path, hop: Hop<Key>, sl: Slot, req: nat, e: Pair, W0: map<Slot, int>, W: map<Slot, int>,
                     W': map<Slot, int>, ws: seq<Slot>, ws': seq<Slot>, M0: map<Slot, set<Pair>>, M: map<Slot, set<Pair>>,
                     M': map<Slot, set<Pair>>)
    requires Building(rev, hops, req, e, W0, W, ws, M0, M)
    requires (forall s :: s in ws ==> s in ws') && sl == SlotOf(rev, hop) && sl in ws'
    requires W' == W[sl := GetI(W, sl) + req] && M' == M[sl := GetSet(M, sl) + {e}]
    ensures Building(rev, hops + [hop], req, e, W0, W', ws', M0, M')
  {
    RatesStep(rev, hops, hop, req, W0, W);
    MarksStep(rev, hops, hop, e, M0, M);
    SlotsStep(rev, hops, hop, ws, ws');
  }

  lemma RatesStep(rev: Revision, hops: Path, hop: Hop<Key>, req: nat, W0: map<Slot, int>, W: map<Slot, int>)
    requires forall s :: GetI(W, s) == GetI(W0, s) + Charge(rev, hops, req, s)
    ensures var sl := SlotOf(rev, hop); var W' := W[sl := GetI(W, sl) + req];
      forall s :: GetI(W', s) == GetI(W0, s) + Charge(rev, hops + [hop], req, s)
  {
    CountPush(rev, hops, hop, req);
  }

  lemma MarksStep(rev: Revision, hops: Path, hop: Hop<Key>, e: Pair, M0: map<Slot, set<Pair>>, M: map<Slot, set<Pair>>)
    requires forall s :: GetSet(M, s) == GetSet(M0, s) + (if Count(rev, hops, s) > 0 then {e} else {})
    ensures var sl := SlotOf(rev, hop); var M' := M[sl := GetSet(M, sl) + {e}];
      forall s :: GetSet(M', s) == GetSet(M0, s) + (if Count(rev, hops + [hop], s) > 0 then {e} else {})
  {
    CountPush(rev, hops, hop, 0);
  }

  lemma SlotsStep(rev: Revision, hops: Path, hop: Hop<Key>, ws: seq<Slot>, ws': seq<Slot>)
    requires forall s :: Count(rev, hops, s) > 0 ==> s in ws
    requires forall s :: s in ws ==> s in ws'
    requires SlotOf(rev, hop) in ws'
    ensures forall s :: Count(rev, hops + [hop], s) > 0 ==> s in ws'
  {
    CountPush(rev, hops, hop, 0);
  }

  lemma HopsStep(rev: Revision, g: Physical.Network, walk: seq<NodeId>, hops: Path, hop: Hop<Key>)
    requires |hops| + 1 < |walk|
    requires forall m :: 0 <= m < |hops| ==> HopOn(rev, g, walk, hops, m)
    requires HopOn(rev, g, walk, hops + [hop], |hops|)
    ensures forall m :: 0 <= m <= |hops| ==> HopOn(rev, g, walk, hops + [hop], m)
  {
    forall m | 0 <= m < |hops| ensures HopOn(rev, g, walk, hops + [hop], m) {
      assert HopOn(rev, g, walk, hops, m);
      assert (hops + [hop])[m] == hops[m];
    }
  }

  /**
   * The removal loop of one moved link: each hop of its previous path
   * gives its rate back and the link is marked for removal there.
   */
  method Discharge(rev: Revision, hops: Path, req: nat, e: Pair, W: map<Slot, int>, removed: map<Slot, set<Pair>>)
    returns (W': map<Slot, int>, removed': map<Slot, set<Pair>>)
    ensures forall s :: GetI(W', s) == GetI(W, s) - Charge(rev, hops, req, s)
    ensures forall s :: GetSet(removed', s) == GetSet(removed, s) + (if Count(rev, hops, s) > 0 then {e} else {})
  {
    W', removed' := W, removed;
    var k := 0;
    while k < |hops|
      invariant 0 <= k <= |hops|
      invariant forall s :: GetI(W', s) == GetI(W, s) - Charge(rev, hops[..k], req, s)
      invariant forall s :: GetSet(removed', s) == GetSet(removed, s) + (if Count(rev, hops[..k], s) > 0 then {e} else {})
    {
      var s := SlotOf(rev, hops[k]);
      W' := W'[s := GetI(W', s) - req];
      removed' := removed'[s := GetSet(removed', s) + {e}];
      assert hops[..k + 1] == hops[..k] + [hops[k]];
      CountPush(rev, hops[..k], hops[k], req);
      k := k + 1;
    }
    assert hops[..k] == hops;
  }

  /*
   * Phase two: every link between two machines gets a path.
   */

  /**
   * rate_used (with its keys in the order they were first read or
   * written), use_link, and the paths stored per virtual link.
   */
  datatype Booking = Booking(used: map<Slot, int>, slots: seq<Slot>, users: map<Slot, set<Pair>>, paths: map<Pair, Path>)

  /** edges(): every link once, its ends as listed. */
  function Edges(v: Virtual.VirtualNet): (r: seq<Pair>)
    ensures |r| == |v.links| && forall t :: 0 <= t < |v.links| ==> r[t] == (v.links[t].u, v.links[t].v)
  {
    LinkKeys(v)[..|v.links|]
  }

  /**
   * The order the route loop visits the links in: sorted_edges(), a set
   * iterated in some order, in the mapping revision; edges() in grid5000.
   */
  ghost predicate EdgeOrder(rev: Revision, v: Virtual.VirtualNet, edges: seq<Pair>)
    requires Virtual.Valid(v)
  {
    if rev == MappingRevision then Lists(edges, Virtual.SortedEdges(v)) else edges == Edges(v)
  }

  /** Every link lists its smaller end first, so edges() and sorted_edges() give the same pairs. */
  predicate Ascending(v: Virtual.VirtualNet)
  {
    forall t :: 0 <= t < |v.links| ==> v.links[t].u < v.links[t].v
  }

  /**
   * The booking agrees with the stored paths: rate_used holds what they
   * all put on each interface, its keys include every interface they use,
   * and use_link lists the links whose path uses each interface.
   */
  ghost predicate Booked(rev: Revision, v: Virtual.VirtualNet, b: Booking)
  {
    Distinct(b.slots) &&
    (forall e :: e in b.paths ==> e in LinkKeys(v)) &&
    (forall e, s :: e in b.paths && Count(rev, b.paths[e], s) > 0 ==> s in b.slots) &&
    (forall s :: GetI(b.used, s) == Tally(rev, v, b.paths, s)) &&
    (forall s :: GetSet(b.users, s) == Users(rev, b.paths, s))
  }

  /** A link whose ends sit on two machines has a stored path from the first end's machine to the second's. */
  ghost predicate RoutedPair(rev: Revision, g: Physical.Network, mapping: map<NodeId, NodeId>, paths: map<Pair, Path>, e: Pair)
  {
    e.0 in mapping && e.1 in mapping &&
    (mapping[e.0] != mapping[e.1] ==> e in paths && RouteOf(rev, g, mapping[e.0], mapping[e.1], paths[e]))
  }

  /** Every link, by its sorted ends, is routed between the machines of its ends. */
  ghost predicate Routes(rev: Revision, v: Virtual.VirtualNet, g: Physical.Network, mapping: map<NodeId, NodeId>,
                         paths: map<Pair, Path>)
    requires Virtual.Valid(v)
  {
    forall e :: e in Virtual.SortedEdges(v) ==> RoutedPair(rev, g, mapping, paths, e)
  }

  /** The links the route loop visits are all different, and each is a key of its link. */
  lemma EdgeKeys(rev: Revision, v: Virtual.VirtualNet, edges: seq<Pair>)
    requires Virtual.Valid(v) && EdgeOrder(rev, v, edges)
    ensures Distinct(edges) && forall e :: e in edges ==> e in LinkKeys(v)
  {
    if rev == MappingRevision {
      SortedEdgeKeys(v, edges);
    } else {
      LinkEdgeKeys(v);
    }
  }

  /** sorted_edges() lists keys of the links: each joins the ends of a link, in one direction or the other. */
  lemma SortedEdgeKeys(v: Virtual.VirtualNet, edges: seq<Pair>)
    requires Virtual.Valid(v) && Lists(edges, Virtual.SortedEdges(v))
    ensures forall e :: e in edges ==> e in LinkKeys(v)
  {
    forall e | e in edges ensures e in LinkKeys(v) {
      assert Virtual.IsEdge(v, e.0, e.1);
      var t :| 0 <= t < |v.links| && Virtual.Joins(v.links[t], e.0, e.1);
      JoinedKey(v, e, t);
    }
  }

  /** The ends of a link, in either direction, are one of its keys. */
  lemma JoinedKey(v: Virtual.VirtualNet, e: Pair, t: nat)
    requires t < |v.links| && Virtual.Joins(v.links[t], e.0, e.1)
    ensures e in LinkKeys(v)
  {
    var keys := LinkKeys(v);
    if e == (v.links[t].u, v.links[t].v) {
      assert keys[t] == e;
    } else {
      assert keys[|v.links| + t] == e;
    }
  }

  /** edges() lists the first half of the link keys, which are all different. */
  lemma LinkEdgeKeys(v: Virtual.VirtualNet)
    requires Virtual.Valid(v)
    ensures Distinct(Edges(v)) && forall e :: e in Edges(v) ==> e in LinkKeys(v)
  {
    var n := |v.links|;
    var keys, edges := LinkKeys(v), Edges(v);
    LinkKeysDistinct(v);
    assert forall a :: 0 <= a < n ==> edges[a] == keys[a];
  }

  /** A sorted link is visited by the route loop, under its sorted ends. */
  lemma EdgeVisited(rev: Revision, v: Virtual.VirtualNet, edges: seq<Pair>, e: Pair)
    requires Virtual.Valid(v) && EdgeOrder(rev, v, edges) && (rev == MappingRevision || Ascending(v))
    requires e in Virtual.SortedEdges(v)
    ensures e in edges
  {
    if rev == GridRevision {
      assert e.0 < e.1 && Virtual.IsEdge(v, e.0, e.1);
      var t :| 0 <= t < |v.links| && Virtual.Joins(v.links[t], e.0, e.1);
      AscendingEdge(v, e, t);
    }
  }

  lemma AscendingEdge(v: Virtual.VirtualNet, e: Pair, t: nat)
    requires Ascending(v) && t < |v.links| && Virtual.Joins(v.links[t], e.0, e.1) && e.0 < e.1
    ensures e in Edges(v)
  {
    assert v.links[t].u < v.links[t].v;
    assert Edges(v)[t] == e;
  }

  /** Storing the path of a link not stored yet, booked on top of b, keeps the booking in agreement. */
  lemma BookNew(rev: Revision, v: Virtual.VirtualNet, b: Booking, e: Pair, x: Built)
    requires Virtual.Valid(v) && Booked(rev, v, b) && e in LinkKeys(v) && e !in b.paths
    requires Distinct(x.slots) && |b.slots| <= |x.slots| && x.slots[..|b.slots|] == b.slots
    requires forall s :: Count(rev, x.hops, s) > 0 ==> s in x.slots
    requires forall s :: GetI(x.used, s) == GetI(b.used, s) + Charge(rev, x.hops, EmbedVerify.RateOf(v, e), s)
    requires forall s :: (GetSet(x.marks, s) ==
      GetSet(b.users, s) + (if Count(rev, x.hops, s) > 0 then {e} else {}))
    ensures Booked(rev, v, Booking(x.used, x.slots, x.marks, b.paths[e := x.hops]))
  {
    var paths := b.paths[e := x.hops];
    BookRates(rev, v, b.paths, e, x.hops, b.used, x.used);
    forall s | s in b.slots ensures s in x.slots {
      var k :| 0 <= k < |b.slots| && b.slots[k] == s;
      assert x.slots[k] == s;
    }
    BookUsers(rev, b.paths, e, x.hops, b.users, x.marks);
  }

  lemma BookRates(rev: Revision, v: Virtual.VirtualNet, paths: map<Pair, Path>, e: Pair, P: Path,
                  W: map<Slot, int>, W': map<Slot, int>)
    requires Virtual.Valid(v) && e in LinkKeys(v) && e !in paths
    requires forall s :: GetI(W, s) == Tally(rev, v, paths, s)
    requires forall s :: GetI(W', s) == GetI(W, s) + Charge(rev, P, EmbedVerify.RateOf(v, e), s)
    ensures forall s :: GetI(W', s) == Tally(rev, v, paths[e := P], s)
  {
    TallySwap(rev, v, paths, e, P);
    assert GetPath(paths, e) == [];
  }

  lemma BookUsers(rev: Revision, paths: map<Pair, Path>, e: Pair, P: Path, M: map<Slot, set<Pair>>, M': map<Slot, set<Pair>>)
    requires e !in paths
    requires forall s :: GetSet(M, s) == Users(rev, paths, s)
    requires forall s :: GetSet(M', s) == GetSet(M, s) + (if Count(rev, P, s) > 0 then {e} else {})
    ensures forall s :: GetSet(M', s) == Users(rev, paths[e := P], s)
  {
    forall s ensures GetSet(M', s) == Users(rev, paths[e := P], s) {
      assert Users(rev, paths[e := P], s) == Users(rev, paths, s) + (if Count(rev, P, s) > 0 then {e} else {});
    }
  }

  /**
   * The path between two machines as pairs: find_path of the mapping
   * revision, which raises ValueError when there is none, or
   * computed_paths of grid5000, filled from the reverse entry or from
   * find_path, where list(None) raises TypeError when there is none.
   */
  method PathFor(rev: Revision, g: Physical.Network, cache: MemoPath.PathCache,
                 computed: map<(NodeId, NodeId), seq<Pair>>, ghost walks: map<(NodeId, NodeId), seq<NodeId>>,
                 pu: NodeId, pv: NodeId)
    returns (r: Result<seq<Pair>>, computed': map<(NodeId, NodeId), seq<Pair>>,
             ghost walks': map<(NodeId, NodeId), seq<NodeId>>, ghost walk: seq<NodeId>)
    requires cache.Valid() && cache.g == g && MemoPath.MemoValid(g.adj, computed, walks) && pu in g.adj
    modifies cache
    ensures cache.Valid() && MemoPath.MemoValid(g.adj, computed', walks')
    ensures r.Err? ==> r.error == (if rev == MappingRevision then ValueError else TypeError)
    ensures r.Ok? ==> MemoPath.SimplePath(g.adj, pu, pv, walk) && r.value == MemoPath.PairsOf(walk)
  {
    computed', walks', walk := computed, walks, [];
    if rev == MappingRevision {
      r := cache.FindPathOrRaise(pu, pv);
      if r.Ok? {
        walk := cache.walks[(pu, pv)];
      }
    } else {
      var found;
      found, computed', walks' := PairRouting.GridPath(g, cache, computed, walks, pu, pv);
      if found.None? {
        return Err(TypeError), computed', walks', walk;
      }
      walk := walks'[(pu, pv)];
      r := Ok(found.value);
    }
  }

  /** The error a path lookup raises in a revision. */
  function NoPath(rev: Revision): Error
  {
    if rev == MappingRevision then ValueError else TypeError
  }

  /**
   * Phase two for one link e between machines pu and pv: its path, hop by
   * hop on the interface with the most rate left, booked in rate_used and
   * use_link and stored under e.
   */
  method RouteLink(rev: Revision, v: Virtual.VirtualNet, g: Physical.Network, cache: MemoPath.PathCache,
                   computed: map<(NodeId, NodeId), seq<Pair>>, ghost walks: map<(NodeId, NodeId), seq<NodeId>>,
                   b: Booking, e: Pair, pu: NodeId, pv: NodeId)
    returns (r: Result<Booking>, computed': map<(NodeId, NodeId), seq<Pair>>,
             ghost walks': map<(NodeId, NodeId), seq<NodeId>>)
    requires Virtual.Valid(v) && Booked(rev, v, b) && e in LinkKeys(v) && e !in b.paths
    requires cache.Valid() && cache.g == g && MemoPath.MemoValid(g.adj, computed, walks) && pu in g.adj && pu != pv
    modifies cache
    ensures cache.Valid() && MemoPath.MemoValid(g.adj, computed', walks')
    ensures r.Err? ==> r.error == NoPath(rev) || r.error == ValueError
    ensures r.Ok? ==> Booked(rev, v, r.value) && e in r.value.paths && r.value.paths == b.paths[e := r.value.paths[e]]
    ensures r.Ok? ==> RouteOf(rev, g, pu, pv, r.value.paths[e])
  {
    var found;
    ghost var walk;
    found, computed', walks', walk := PathFor(rev, g, cache, computed, walks, pu, pv);
    if found.Err? {
      return Err(found.error), computed', walks';
    }
    var built := BuildHops(rev, g, found.value, walk, pu, pv, EmbedVerify.RateOf(v, e), e, b.used, b.slots, b.users);
    if built.Err? {
      return Err(built.error), computed', walks';
    }
    BookNew(rev, v, b, e, built.value);
    r := Ok(Booking(built.value.used, built.value.slots, built.value.marks, b.paths[e := built.value.hops]));
  }

  /**
   * Phase two: each link whose ends sit on different machines, in the
   * revision's order, gets its path.
   */
  method RouteAll(rev: Revision, v: Virtual.VirtualNet, g: Physical.Network, cache: MemoPath.PathCache,
                  computed: map<(NodeId, NodeId), seq<Pair>>, ghost walks: map<(NodeId, NodeId), seq<NodeId>>,
                  mapping: map<NodeId, NodeId>, edges: seq<Pair>)
    returns (r: Result<Booking>, computed': map<(NodeId, NodeId), seq<Pair>>,
             ghost walks': map<(NodeId, NodeId), seq<NodeId>>)
    requires Virtual.Valid(v) && EdgeOrder(rev, v, edges)
    requires cache.Valid() && cache.g == g && MemoPath.MemoValid(g.adj, computed, walks)
    requires forall n :: n in v.nodes ==> n in mapping && mapping[n] in g.adj
    modifies cache
    ensures cache.Valid() && MemoPath.MemoValid(g.adj, computed', walks')
    ensures r.Err? ==> r.error == NoPath(rev) || r.error == ValueError
    ensures r.Ok? ==> Booked(rev, v, r.value)
    ensures r.Ok? && (rev == MappingRevision || Ascending(v)) ==> Routes(rev, v, g, mapping, r.value.paths)
  {
    EdgeKeys(rev, v, edges);
    r, computed', walks' := RouteEdges(rev, v, g, cache, computed, walks, mapping, edges);
    if r.Ok? && (rev == MappingRevision || Ascending(v)) {
      RoutedAll(rev, v, g, mapping, r.value.paths, edges);
    }
  }

  /** The route loop over links given as distinct keys. */
  method RouteEdges(rev: Revision, v: Virtual.VirtualNet, g: Physical.Network, cache: MemoPath.PathCache,
                    computed: map<(NodeId, NodeId), seq<Pair>>, ghost walks: map<(NodeId, NodeId), seq<NodeId>>,
                    mapping: map<NodeId, NodeId>, edges: seq<Pair>)
    returns (r: Result<Booking>, computed': map<(NodeId, NodeId), seq<Pair>>,
             ghost walks': map<(NodeId, NodeId), seq<NodeId>>)
    requires Virtual.Valid(v) && Distinct(edges) && forall e :: e in edges ==> e in LinkKeys(v)
    requires cache.Valid() && cache.g == g && MemoPath.MemoValid(g.adj, computed, walks)
    requires forall n :: n in v.nodes ==> n in mapping && mapping[n] in g.adj
    modifies cache
    ensures cache.Valid() && MemoPath.MemoValid(g.adj, computed', walks')
    ensures r.Err? ==> r.error == NoPath(rev) || r.error == ValueError
    ensures r.Ok? ==> Booked(rev, v, r.value) && Visited(rev, g, mapping, edges, |edges|, r.value.paths)
  {
    var b := Booking(map[], [], map[], map[]);
    computed', walks' := computed, walks;
    forall s ensures Tally(rev, v, map[], s) == 0 {
      TallyOverNone(rev, v, LinkKeys(v), s);
    }
    var t := 0;
    while t < |edges|
      invariant 0 <= t <= |edges|
      invariant cache.Valid() && MemoPath.MemoValid(g.adj, computed', walks')
      invariant Booked(rev, v, b) && Visited(rev, g, mapping, edges, t, b.paths)
    {
      var next;
      next, computed', walks' := VisitEdge(rev, v, g, cache, computed', walks', mapping, edges, t, b);
      if next.Err? {
        return Err(next.error), computed', walks';
      }
      b := next.value;
      t := t + 1;
    }
    r := Ok(b);
  }

  /** One pass of the route loop: the t-th link is routed when its ends sit on different machines. */
  method VisitEdge(rev: Revision, v: Virtual.VirtualNet, g: Physical.Network, cache: MemoPath.PathCache,
                   computed: map<(NodeId, NodeId), seq<Pair>>, ghost walks: map<(NodeId, NodeId), seq<NodeId>>,
                   mapping: map<NodeId, NodeId>, edges: seq<Pair>, t: nat, b: Booking)
    returns (r: Result<Booking>, computed': map<(NodeId, NodeId), seq<Pair>>,
             ghost walks': map<(NodeId, NodeId), seq<NodeId>>)
    requires Virtual.Valid(v) && Distinct(edges) && t < |edges| && edges[t] in LinkKeys(v)
    requires cache.Valid() && cache.g == g && MemoPath.MemoValid(g.adj, computed, walks)
    requires forall n :: n in v.nodes ==> n in mapping && mapping[n] in g.adj
    requires Booked(rev, v, b) && Visited(rev, g, mapping, edges, t, b.paths)
    modifies cache
    ensures cache.Valid() && MemoPath.MemoValid(g.adj, computed', walks')
    ensures r.Err? ==> r.error == NoPath(rev) || r.error == ValueError
    ensures r.Ok? ==> Booked(rev, v, r.value) && Visited(rev, g, mapping, edges, t + 1, r.value.paths)
  {
    computed', walks' := computed, walks;
    var e := edges[t];
    LinkKeyEnds(v, e);
    var pu, pv := mapping[e.0], mapping[e.1];
    if pu != pv {
      var next;
      next, computed', walks' := RouteLink(rev, v, g, cache, computed, walks, b, e, pu, pv);
      if next.Err? {
        return Err(next.error), computed', walks';
      }
      RoutedMore(rev, g, mapping, b.paths, next.value.paths, edges, t);
      r := Ok(next.value);
    } else {
      assert RoutedPair(rev, g, mapping, b.paths, e);
      r := Ok(b);
    }
  }

  /**
   * The route loop after the first t links: no link still to visit is
   * stored yet, and each visited link between two machines is routed.
   */
  ghost predicate Visited(rev: Revision, g: Physical.Network, mapping: map<NodeId, NodeId>, edges: seq<Pair>, t: nat,
                          paths: map<Pair, Path>)
  {
    t <= |edges| &&
    (forall e, s :: e in paths && t <= s < |edges| ==> edges[s] != e) &&
    (forall s :: 0 <= s < t ==> RoutedPair(rev, g, mapping, paths, edges[s]))
  }

  lemma RoutedAll(rev: Revision, v: Virtual.VirtualNet, g: Physical.Network, mapping: map<NodeId, NodeId>,
                  paths: map<Pair, Path>, edges: seq<Pair>)
    requires Virtual.Valid(v) && EdgeOrder(rev, v, edges) && (rev == MappingRevision || Ascending(v))
    requires Visited(rev, g, mapping, edges, |edges|, paths)
    ensures Routes(rev, v, g, mapping, paths)
  {
    forall e | e in Virtual.SortedEdges(v) ensures RoutedPair(rev, g, mapping, paths, e) {
      EdgeVisited(rev, v, edges, e);
      var s :| 0 <= s < |edges| && edges[s] == e;
    }
  }

  lemma RoutedMore(rev: Revision, g: Physical.Network, mapping: map<NodeId, NodeId>, paths: map<Pair, Path>,
                   paths': map<Pair, Path>, edges: seq<Pair>, t: nat)
    requires Distinct(edges) && t < |edges| && Visited(rev, g, mapping, edges, t, paths)
    requires edges[t] in paths' && paths' == paths[edges[t] := paths'[edges[t]]]
    requires edges[t].0 in mapping && edges[t].1 in mapping && mapping[edges[t].0] != mapping[edges[t].1]
    requires RouteOf(rev, g, mapping[edges[t].0], mapping[edges[t].1], paths'[edges[t]])
    ensures Visited(rev, g, mapping, edges, t + 1, paths')
  {
    forall s | 0 <= s < t ensures RoutedPair(rev, g, mapping, paths', edges[s]) {
      assert edges[s] != edges[t];
      assert RoutedPair(rev, g, mapping, paths, edges[s]);
    }
  }

  /*
   * The repair: a tentative move of one node.
   */

  /**
   * A tentative move: rate_used plus diff_rate, the keys of rate_used,
   * new_link_mapping, and diff_vlinks['remove'] and diff_vlinks['add'].
   */
  datatype Draft = Draft(used: map<Slot, int>, slots: seq<Slot>, rerouted: map<Pair, Path>,
                         removed: map<Slot, set<Pair>>, added: map<Slot, set<Pair>>)

  /** The rerouted links whose previous path uses s. */
  function Marked(rev: Revision, paths: map<Pair, Path>, rerouted: map<Pair, Path>, s: Slot): (r: set<Pair>)
    ensures forall e :: e in r <==> e in rerouted && Count(rev, GetPath(paths, e), s) > 0
  {
    set e | e in rerouted && Count(rev, GetPath(paths, e), s) > 0
  }

  /**
   * The tentative move agrees with the booking b with the rerouted links'
   * paths replaced: rates, keys, the links to unmark and to mark per
   * interface, and a path for each rerouted link between the machines
   * of its ends under the moved mapping mm.
   */
  ghost predicate Drafted(rev: Revision, v: Virtual.VirtualNet, g: Physical.Network, b: Booking,
                          mm: map<NodeId, NodeId>, d: Draft)
  {
    DraftKeyed(rev, v, b.slots, d.slots, d.rerouted) && DraftCharged(rev, v, b.paths, d) &&
    RoutedUnder(rev, g, mm, d.rerouted)
  }

  /** The slots extend the booking's, and the rerouted links are link keys whose hops use those slots. */
  ghost predicate DraftKeyed(rev: Revision, v: Virtual.VirtualNet, slots: seq<Slot>, slots': seq<Slot>,
                             rerouted: map<Pair, Path>)
  {
    Extends(slots, slots') &&
    (forall e :: e in rerouted ==> e in LinkKeys(v)) &&
    (forall e, s :: e in rerouted && Count(rev, rerouted[e], s) > 0 ==> s in slots')
  }

  /** The rates, and the links to unmark and to mark, of the booked paths with the rerouted ones replaced. */
  ghost predicate DraftCharged(rev: Revision, v: Virtual.VirtualNet, paths: map<Pair, Path>, d: Draft)
  {
    (forall s :: GetI(d.used, s) == Tally(rev, v, paths + d.rerouted, s)) &&
    (forall s :: GetSet(d.removed, s) == Marked(rev, paths, d.rerouted, s)) &&
    (forall s :: GetSet(d.added, s) == Users(rev, d.rerouted, s))
  }

  /** Every rerouted link has a path between the machines of its ends under mm. */
  ghost predicate RoutedUnder(rev: Revision, g: Physical.Network, mm: map<NodeId, NodeId>, rerouted: map<Pair, Path>)
  {
    forall e :: e in rerouted ==> e.0 in mm && e.1 in mm && RouteOf(rev, g, mm[e.0], mm[e.1], rerouted[e])
  }

  /** Nothing rerouted yet. */
  lemma DraftStart(rev: Revision, v: Virtual.VirtualNet, g: Physical.Network, b: Booking, mm: map<NodeId, NodeId>)
    requires Booked(rev, v, b)
    ensures Drafted(rev, v, g, b, mm, Draft(b.used, b.slots, map[], map[], map[]))
  {
    assert b.paths + map[] == b.paths;
    assert b.slots[..|b.slots|] == b.slots;
  }

  /**
   * Rerouting one link e of the moved node: its previous path gives its
   * rate back and is unmarked, then the new path between the machines of
   * its ends is booked and marked, on top of the tentative move d.
   */
  method Redraft(rev: Revision, v: Virtual.VirtualNet, g: Physical.Network, cache: MemoPath.PathCache,
                 computed: map<(NodeId, NodeId), seq<Pair>>, ghost walks: map<(NodeId, NodeId), seq<NodeId>>,
                 b: Booking, mm: map<NodeId, NodeId>, d: Draft, e: Pair)
    returns (r: Result<Draft>, computed': map<(NodeId, NodeId), seq<Pair>>,
             ghost walks': map<(NodeId, NodeId), seq<NodeId>>)
    requires Virtual.Valid(v) && Drafted(rev, v, g, b, mm, d) && e in LinkKeys(v) && e !in d.rerouted
    requires e.0 in mm && e.1 in mm && mm[e.0] != mm[e.1] && mm[e.0] in g.adj
    requires cache.Valid() && cache.g == g && MemoPath.MemoValid(g.adj, computed, walks)
    modifies cache
    ensures cache.Valid() && MemoPath.MemoValid(g.adj, computed', walks')
    ensures r.Err? ==> r.error == NoPath(rev) || r.error == ValueError
    ensures r.Ok? ==> Drafted(rev, v, g, b, mm, r.value) && e in r.value.rerouted
    ensures r.Ok? ==> r.value.rerouted == d.rerouted[e := r.value.rerouted[e]]
  {
    var pu, pv := mm[e.0], mm[e.1];
    var req := EmbedVerify.RateOf(v, e);
    var W1, removed := Discharge(rev, GetPath(b.paths, e), req, e, d.used, d.removed);
    var found;
    ghost var walk;
    found, computed', walks', walk := PathFor(rev, g, cache, computed, walks, pu, pv);
    if found.Err? {
      return Err(found.error), computed', walks';
    }
    r := Rebook(rev, v, g, b, mm, d, e, W1, removed, found.value, walk);
  }

  /**
   * The second half of a reroute: with the old path's rate given back, the
   * new path's hops are booked and marked, and e's path is replaced.
   */
  method Rebook(rev: Revision, v: Virtual.VirtualNet, g: Physical.Network, b: Booking, mm: map<NodeId, NodeId>,
                d: Draft, e: Pair, W1: map<Slot, int>, removed: map<Slot, set<Pair>>,
                pairs: seq<Pair>, ghost walk: seq<NodeId>)
    returns (r: Result<Draft>)
    requires Virtual.Valid(v) && Drafted(rev, v, g, b, mm, d) && e in LinkKeys(v) && e !in d.rerouted
    requires e.0 in mm && e.1 in mm && mm[e.0] != mm[e.1]
    requires MemoPath.SimplePath(g.adj, mm[e.0], mm[e.1], walk) && pairs == MemoPath.PairsOf(walk)
    requires forall s :: GetI(W1, s) == GetI(d.used, s) - Charge(rev, GetPath(b.paths, e), EmbedVerify.RateOf(v, e), s)
    requires forall s :: (GetSet(removed, s) ==
      GetSet(d.removed, s) + (if Count(rev, GetPath(b.paths, e), s) > 0 then {e} else {}))
    ensures r.Err? ==> r.error == ValueError
    ensures r.Ok? ==> Drafted(rev, v, g, b, mm, r.value) && e in r.value.rerouted
    ensures r.Ok? ==> r.value.rerouted == d.rerouted[e := r.value.rerouted[e]]
  {
    var built := BuildHops(rev, g, pairs, walk, mm[e.0], mm[e.1], EmbedVerify.RateOf(v, e), e, W1, d.slots, d.added);
    if built.Err? {
      return Err(built.error);
    }
    var x := built.value;
    DraftStep(rev, v, g, b, mm, d, e, W1, removed, x);
    r := Ok(Draft(x.used, x.slots, d.rerouted[e := x.hops], removed, x.marks));
  }

  lemma DraftStep(rev: Revision, v: Virtual.VirtualNet, g: Physical.Network, b: Booking, mm: map<NodeId, NodeId>,
                  d: Draft, e: Pair, W1: map<Slot, int>, removed: map<Slot, set<Pair>>, x: Built)
    requires Virtual.Valid(v) && Drafted(rev, v, g, b, mm, d) && e in LinkKeys(v) && e !in d.rerouted
    requires e.0 in mm && e.1 in mm && RouteOf(rev, g, mm[e.0], mm[e.1], x.hops)
    requires forall s :: GetI(W1, s) == GetI(d.used, s) - Charge(rev, GetPath(b.paths, e), EmbedVerify.RateOf(v, e), s)
    requires forall s :: (GetSet(removed, s) ==
      GetSet(d.removed, s) + (if Count(rev, GetPath(b.paths, e), s) > 0 then {e} else {}))
    requires Distinct(x.slots) && |d.slots| <= |x.slots| && x.slots[..|d.slots|] == d.slots
    requires forall s :: Count(rev, x.hops, s) > 0 ==> s in x.slots
    requires forall s :: GetI(x.used, s) == GetI(W1, s) + Charge(rev, x.hops, EmbedVerify.RateOf(v, e), s)
    requires forall s :: (GetSet(x.marks, s) ==
      GetSet(d.added, s) + (if Count(rev, x.hops, s) > 0 then {e} else {}))
    ensures Drafted(rev, v, g, b, mm, Draft(x.used, x.slots, d.rerouted[e := x.hops], removed, x.marks))
  {
    KeyedStep(rev, v, b, d, e, x);
    ChargedStep(rev, v, b, d, e, W1, removed, x);
    RoutesAdd(rev, g, mm, d.rerouted, e, x.hops);
  }

  /** The new slots extend the old ones, and the new path's hops use them. */
  lemma KeyedStep(rev: Revision, v: Virtual.VirtualNet, b: Booking, d: Draft, e: Pair, x: Built)
    requires DraftKeyed(rev, v, b.slots, d.slots, d.rerouted) && e in LinkKeys(v)
    requires Distinct(x.slots) && |d.slots| <= |x.slots| && x.slots[..|d.slots|] == d.slots
    requires forall s :: Count(rev, x.hops, s) > 0 ==> s in x.slots
    ensures DraftKeyed(rev, v, b.slots, x.slots, d.rerouted[e := x.hops])
  {
    ExtendsMore(b.slots, d.slots, x.slots);
    DraftSlots(rev, d.rerouted, e, x.hops, d.rerouted[e := x.hops], d.slots, x.slots);
  }

  /** Giving back the old path's rate and charging the new path's keeps the counters those of the paths. */
  lemma ChargedStep(rev: Revision, v: Virtual.VirtualNet, b: Booking, d: Draft, e: Pair, W1: map<Slot, int>,
                    removed: map<Slot, set<Pair>>, x: Built)
    requires Virtual.Valid(v) && DraftCharged(rev, v, b.paths, d) && e in LinkKeys(v) && e !in d.rerouted
    requires forall s :: GetI(W1, s) == GetI(d.used, s) - Charge(rev, GetPath(b.paths, e), EmbedVerify.RateOf(v, e), s)
    requires forall s :: (GetSet(removed, s) ==
      GetSet(d.removed, s) + (if Count(rev, GetPath(b.paths, e), s) > 0 then {e} else {}))
    requires forall s :: GetI(x.used, s) == GetI(W1, s) + Charge(rev, x.hops, EmbedVerify.RateOf(v, e), s)
    requires forall s :: (GetSet(x.marks, s) ==
      GetSet(d.added, s) + (if Count(rev, x.hops, s) > 0 then {e} else {}))
    ensures DraftCharged(rev, v, b.paths, Draft(x.used, x.slots, d.rerouted[e := x.hops], removed, x.marks))
  {
    DraftRates(rev, v, b.paths, d.rerouted, e, x.hops, d.used, W1, x.used);
    DraftMarks(rev, b.paths, d.rerouted, e, x.hops, d.removed, removed, d.added, x.marks);
  }

  /** A rerouted link whose path runs between the new machines of its ends keeps every rerouted path a route. */
  lemma RoutesAdd(rev: Revision, g: Physical.Network, mm: map<NodeId, NodeId>, rerouted: map<Pair, Path>, e: Pair, P: Path)
    requires RoutedUnder(rev, g, mm, rerouted)
    requires e.0 in mm && e.1 in mm && RouteOf(rev, g, mm[e.0], mm[e.1], P)
    ensures RoutedUnder(rev, g, mm, rerouted[e := P])
  {
    var R := rerouted[e := P];
    forall e' | e' in R ensures e'.0 in mm && e'.1 in mm && RouteOf(rev, g, mm[e'.0], mm[e'.1], R[e']) {
      if e' != e {
        assert R[e'] == rerouted[e'];
      }
    }
  }

  lemma DraftRates(rev: Revision, v: Virtual.VirtualNet, paths: map<Pair, Path>, rerouted: map<Pair, Path>, e: Pair, P: Path,
                   W: map<Slot, int>, W1: map<Slot, int>, W2: map<Slot, int>)
    requires Virtual.Valid(v) && e in LinkKeys(v) && e !in rerouted
    requires forall s :: GetI(W, s) == Tally(rev, v, paths + rerouted, s)
    requires forall s :: GetI(W1, s) == GetI(W, s) - Charge(rev, GetPath(paths, e), EmbedVerify.RateOf(v, e), s)
    requires forall s :: GetI(W2, s) == GetI(W1, s) + Charge(rev, P, EmbedVerify.RateOf(v, e), s)
    ensures forall s :: GetI(W2, s) == Tally(rev, v, paths + rerouted[e := P], s)
  {
    var all := paths + rerouted;
    assert paths + rerouted[e := P] == all[e := P];
    assert GetPath(all, e) == GetPath(paths, e);
    LinkKeysDistinct(v);
    forall s ensures GetI(W2, s) == Tally(rev, v, all[e := P], s) {
      TallyOverSwap(rev, v, all, LinkKeys(v), e, P, s);
    }
  }

  lemma DraftMarks(rev: Revision, paths: map<Pair, Path>, rerouted: map<Pair, Path>, e: Pair, P: Path,
                   R: map<Slot, set<Pair>>, R': map<Slot, set<Pair>>, A: map<Slot, set<Pair>>, A': map<Slot, set<Pair>>)
    requires e !in rerouted
    requires forall s :: GetSet(R, s) == Marked(rev, paths, rerouted, s)
    requires forall s :: GetSet(R', s) == GetSet(R, s) + (if Count(rev, GetPath(paths, e), s) > 0 then {e} else {})
    requires forall s :: GetSet(A, s) == Users(rev, rerouted, s)
    requires forall s :: GetSet(A', s) == GetSet(A, s) + (if Count(rev, P, s) > 0 then {e} else {})
    ensures forall s :: GetSet(R', s) == Marked(rev, paths, rerouted[e := P], s)
    ensures forall s :: GetSet(A', s) == Users(rev, rerouted[e := P], s)
  {
    forall s ensures GetSet(R', s) == Marked(rev, paths, rerouted[e := P], s) {
      assert Marked(rev, paths, rerouted[e := P], s) ==
        Marked(rev, paths, rerouted, s) + (if Count(rev, GetPath(paths, e), s) > 0 then {e} else {});
    }
    BookUsers(rev, rerouted, e, P, A, A');
  }

  lemma DraftSlots(rev: Revision, rerouted: map<Pair, Path>, e: Pair, P: Path, rerouted': map<Pair, Path>,
                   ws: seq<Slot>, ws': seq<Slot>)
    requires forall e', s :: e' in rerouted && Count(rev, rerouted[e'], s) > 0 ==> s in ws
    requires |ws| <= |ws'| && ws'[..|ws|] == ws
    requires forall s :: Count(rev, P, s) > 0 ==> s in ws'
    requires rerouted' == rerouted[e := P]
    ensures forall e', s :: e' in rerouted' && Count(rev, rerouted'[e'], s) > 0 ==> s in ws'
  {
    forall s | s in ws ensures s in ws' {
      var k :| 0 <= k < |ws| && ws[k] == s;
      assert ws'[k] == s;
    }
  }

  /*
   * The repair: the candidates of a round.
   */

  /** chain(*links): the two ends of each link in turn. */
  function Ends(links: seq<Pair>): (r: seq<NodeId>)
    ensures forall x :: x in r <==> exists k :: 0 <= k < |links| && (x == links[k].0 || x == links[k].1)
  {
    if |links| == 0 then []
    else
      var n := |links| - 1;
      var r := Ends(links[..n]);
      assert forall k :: 0 <= k < n ==> links[..n][k] == links[k];
      r + [links[n].0, links[n].1]
  }

  /** The nodes at either end of a link of U. */
  function EndsOf(U: set<Pair>): set<NodeId>
  {
    (set e | e in U :: e.0) + (set e | e in U :: e.1)
  }

  /** Whatever order the set of links is read in, its ends are the ends of the set. */
  lemma EndsListed(order: seq<Pair>, U: set<Pair>)
    requires Lists(order, U)
    ensures forall x :: x in Ends(order) <==> x in EndsOf(U)
  {
    forall x | x in EndsOf(U) ensures x in Ends(order) {
      var e :| e in U && (x == e.0 || x == e.1);
      var k :| 0 <= k < |order| && order[k] == e;
    }
  }

  /** a comes before b in s. */
  ghost predicate Earlier(s: seq<NodeId>, a: NodeId, b: NodeId)
  {
    exists i, j :: 0 <= i < j < |s| && s[i] == a && s[j] == b
  }

  /** a is counted more often than b, or as often and met first in s. */
  ghost predicate Ahead(m: multiset<NodeId>, s: seq<NodeId>, a: NodeId, b: NodeId)
  {
    m[a] > m[b] || (m[a] == m[b] && Earlier(s, a, b))
  }

  /** Each node of r is ahead of every later one. */
  ghost predicate RankedBy(m: multiset<NodeId>, s: seq<NodeId>, r: seq<NodeId>)
  {
    forall i, j :: 0 <= i < j < |r| ==> Ahead(m, s, r[i], r[j])
  }

  /** x goes in after the last node counted at least as often. */
  function Insert(m: multiset<NodeId>, r: seq<NodeId>, x: NodeId): (r': seq<NodeId>)
    ensures |r'| == |r| + 1
    ensures forall y :: y in r' <==> y in r || y == x
    ensures Distinct(r) && x !in r ==> Distinct(r')
  {
    if |r| == 0 || m[r[|r| - 1]] >= m[x] then r + [x]
    else
      var n := |r| - 1;
      assert forall y :: y in r <==> y in r[..n] || y == r[n];
      assert Distinct(r) ==> r[n] !in r[..n];
      var q := Insert(m, r[..n], x);
      if Distinct(r) && x !in r then
        assert Distinct(q) && r[n] !in q;
        DistinctJoin(q, [r[n]]);
        q + [r[n]]
      else q + [r[n]]
  }

  /** The nodes of s ordered by their counts in m, most counted first, keeping the order of s between equals. */
  function RankBy(m: multiset<NodeId>, s: seq<NodeId>): (r: seq<NodeId>)
    ensures forall y :: y in r <==> y in s
    ensures Distinct(s) ==> Distinct(r)
  {
    if |s| == 0 then []
    else
      var n := |s| - 1;
      assert forall y :: y in s <==> y in s[..n] || y == s[n];
      assert Distinct(s) ==> s[n] !in s[..n];
      Insert(m, RankBy(m, s[..n]), s[n])
  }

  /**
   * Counter(xs).most_common(): the nodes of xs, each once, the most
   * frequent first, and those as frequent in the order they first appear.
   */
  function MostCommon(xs: seq<NodeId>): (r: seq<NodeId>)
    ensures Distinct(r) && forall y :: y in r <==> y in xs
  {
    RankBy(multiset(xs), Opened(xs))
  }

  lemma {:induction false} InsertRanked(m: multiset<NodeId>, s: seq<NodeId>, r: seq<NodeId>, x: NodeId)
    requires RankedBy(m, s, r)
    requires forall a :: a in r ==> Earlier(s, a, x)
    ensures RankedBy(m, s, Insert(m, r, x))
  {
    var n := |r|;
    if n == 0 {
    } else if m[r[n - 1]] >= m[x] {
      var r' := r + [x];
      forall i, j | 0 <= i < j < |r'| ensures Ahead(m, s, r'[i], r'[j]) {
        if j < n {
          assert r'[i] == r[i] && r'[j] == r[j];
        } else {
          assert r'[i] == r[i] && r[i] in r;
          if i < n - 1 {
            assert Ahead(m, s, r[i], r[n - 1]);
          }
        }
      }
    } else {
      var p := r[..n - 1];
      assert forall a :: a in p ==> a in r;
      InsertRanked(m, s, p, x);
      var q := Insert(m, p, x);
      var r' := q + [r[n - 1]];
      forall i, j | 0 <= i < j < |r'| ensures Ahead(m, s, r'[i], r'[j]) {
        if j < |q| {
          assert r'[i] == q[i] && r'[j] == q[j];
        } else {
          assert r'[i] == q[i] && q[i] in q && r'[j] == r[n - 1];
          if q[i] != x {
            var k :| 0 <= k < |p| && p[k] == q[i];
            assert Ahead(m, s, r[k], r[n - 1]);
          }
        }
      }
    }
  }

  /** What comes earlier in a prefix comes earlier in the whole. */
  lemma RankedGrows(m: multiset<NodeId>, s: seq<NodeId>, n: nat, r: seq<NodeId>)
    requires n <= |s| && RankedBy(m, s[..n], r)
    ensures RankedBy(m, s, r)
  {
    forall i, j | 0 <= i < j < |r| ensures Ahead(m, s, r[i], r[j]) {
      if m[r[i]] == m[r[j]] {
        var a, b :| 0 <= a < b < n && s[..n][a] == r[i] && s[..n][b] == r[j];
        assert s[a] == r[i] && s[b] == r[j];
      }
    }
  }

  lemma {:induction false} RankByRanked(m: multiset<NodeId>, s: seq<NodeId>)
    ensures RankedBy(m, s, RankBy(m, s))
  {
    if |s| > 0 {
      var n := |s| - 1;
      RankByRanked(m, s[..n]);
      RankedGrows(m, s, n, RankBy(m, s[..n]));
      forall a | a in RankBy(m, s[..n]) ensures Earlier(s, a, s[n]) {
        var k :| 0 <= k < n && s[..n][k] == a;
        assert s[k] == a;
      }
      InsertRanked(m, s, RankBy(m, s[..n]), s[n]);
    }
  }

  /** most_common() lists the nodes most frequent first, ties in the order of first appearance. */
  lemma MostCommonRanked(xs: seq<NodeId>)
    ensures RankedBy(multiset(xs), Opened(xs), MostCommon(xs))
  {
    RankByRanked(multiset(xs), Opened(xs));
  }

  /** The links of a set, read in some order. */
  method Enumerate(U: set<Pair>) returns (order: seq<Pair>)
    ensures Lists(order, U)
  {
    order := [];
    var rest := U;
    while rest != {}
      invariant rest <= U && Distinct(order)
      invariant forall e :: e in order <==> e in U && e !in rest
      decreases |rest|
    {
      var e :| e in rest;
      DistinctJoin(order, [e]);
      order := order + [e];
      rest := rest - {e};
    }
  }

  /*
   * The repair: moves, rounds and the loop.
   */

  /** Every compute node is a node of the adjacency. */
  ghost predicate Wired(g: Physical.Network)
  {
    forall p :: p in Physical.ComputeNodes(g) ==> p in g.adj
  }

  lemma ValidWired(g: Physical.Network)
    requires Physical.Valid(g)
    ensures Wired(g)
  {
  }

  /** Each virtual node sits on a compute node, and selected and not_selected list compute nodes. */
  ghost predicate OnMachines(v: Virtual.VirtualNet, g: Physical.Network, h: Hosting)
  {
    (forall n :: n in v.nodes ==> n in h.mapping && h.mapping[n] in Physical.ComputeNodes(g)) &&
    (forall p :: p in h.selected + h.free ==> p in Physical.ComputeNodes(g))
  }

  /** The repair's state: the booking agrees with the stored paths and exceeded_rate with the booking. */
  ghost predicate Repairing(rev: Revision, v: Virtual.VirtualNet, g: Physical.Network, h: Hosting, b: Booking,
                            excess: nat)
  {
    OnMachines(v, g, h) && Booked(rev, v, b) && excess == Excess(g, b.used, b.slots)
  }

  /** The state after a trial: the hosting, the booking, exceeded_rate, and whether the move was kept. */
  datatype Step = Step(h: Hosting, b: Booking, excess: nat, moved: bool)

  /** A trial that was not kept changed no counter and no machine list. */
  predicate Kept(h: Hosting, h': Hosting)
  {
    h'.selected == h.selected && h'.free == h.free && h'.cores == h.cores && h'.memory == h.memory
  }

  /** The links of n to the nodes of ns that sit on another machine under mm, by their sorted ends. */
  function Reroutes(mm: map<NodeId, NodeId>, n: NodeId, ns: seq<NodeId>): set<Pair>
    requires n in mm && forall x :: x in ns ==> x in mm
  {
    set x | x in ns && mm[x] != mm[n] :: Normalise(n, x)
  }

  /** A neighbour is another virtual node, and the link to it is a key under its sorted ends. */
  lemma NeighborKey(v: Virtual.VirtualNet, n: NodeId, x: NodeId)
    requires Virtual.Valid(v) && x in Virtual.Neighbors(v, n)
    ensures x in v.nodes && x != n && Normalise(n, x) in LinkKeys(v)
  {
    var t :| 0 <= t < |v.links| && Virtual.Joins(v.links[t], n, x);
    LinkAt(v, t);
    KeysOfLink(v, t);
  }

  lemma RerouteStep(mm: map<NodeId, NodeId>, n: NodeId, ns: seq<NodeId>, k: nat)
    requires k < |ns| && n in mm && forall x :: x in ns ==> x in mm
    ensures Reroutes(mm, n, ns[..k + 1]) ==
      Reroutes(mm, n, ns[..k]) + (if mm[ns[k]] != mm[n] then {Normalise(n, ns[k])} else {})
  {
    assert ns[..k + 1] == ns[..k] + [ns[k]];
  }

  /** The link to the next neighbour has not been rerouted yet. */
  lemma RerouteFresh(mm: map<NodeId, NodeId>, n: NodeId, ns: seq<NodeId>, k: nat)
    requires Distinct(ns) && k < |ns| && n in mm && forall x :: x in ns ==> x in mm && x != n
    ensures Normalise(n, ns[k]) !in Reroutes(mm, n, ns[..k])
  {
    forall x | x in ns[..k] ensures Normalise(n, x) != Normalise(n, ns[k]) {
      var l :| 0 <= l < k && ns[l] == x;
    }
  }

  /** The neighbours of n as the repair reads them: other virtual nodes, each once, each joined to n by a link. */
  ghost predicate Around(v: Virtual.VirtualNet, n: NodeId, ns: seq<NodeId>)
  {
    Distinct(ns) && forall x :: x in ns ==> x in v.nodes && x != n && Normalise(n, x) in LinkKeys(v)
  }

  /**
   * The tentative move of n, already written into the mapping mm: every
   * link to a neighbour on another machine gives back its previous path's
   * rate and is routed anew between the machines of its ends.
   */
  method DraftMove(rev: Revision, v: Virtual.VirtualNet, g: Physical.Network, cache: MemoPath.PathCache,
                   computed: map<(NodeId, NodeId), seq<Pair>>, ghost walks: map<(NodeId, NodeId), seq<NodeId>>,
                   b: Booking, mm: map<NodeId, NodeId>, n: NodeId)
    returns (r: Result<Draft>, computed': map<(NodeId, NodeId), seq<Pair>>,
             ghost walks': map<(NodeId, NodeId), seq<NodeId>>)
    requires Virtual.Valid(v) && Wired(g) && Booked(rev, v, b) && n in v.nodes
    requires forall x :: x in v.nodes ==> x in mm && mm[x] in Physical.ComputeNodes(g)
    requires cache.Valid() && cache.g == g && MemoPath.MemoValid(g.adj, computed, walks)
    modifies cache
    ensures cache.Valid() && MemoPath.MemoValid(g.adj, computed', walks')
    ensures r.Err? ==> r.error == NoPath(rev) || r.error == ValueError
    ensures r.Ok? ==> Drafted(rev, v, g, b, mm, r.value)
    ensures r.Ok? ==> ((forall x :: x in Virtual.Neighbors(v, n) ==> x in mm) &&
      r.value.rerouted.Keys == Reroutes(mm, n, Virtual.Neighbors(v, n)))
  {
    var ns := Virtual.Neighbors(v, n);
    Virtual.NeighborsDistinct(v.links, n);
    forall x | x in ns ensures x in v.nodes && x != n && Normalise(n, x) in LinkKeys(v) {
      NeighborKey(v, n, x);
    }
    assert Around(v, n, ns);
    var d := Draft(b.used, b.slots, map[], map[], map[]);
    DraftStart(rev, v, g, b, mm);
    computed', walks' := computed, walks;
    var k := 0;
    while k < |ns|
      invariant 0 <= k <= |ns|
      invariant cache.Valid() && MemoPath.MemoValid(g.adj, computed', walks')
      invariant Drafted(rev, v, g, b, mm, d) && d.rerouted.Keys == Reroutes(mm, n, ns[..k])
    {
      var next;
      next, computed', walks' := DraftLink(rev, v, g, cache, computed', walks', b, mm, n, ns, k, d);
      if next.Err? {
        return Err(next.error), computed', walks';
      }
      d := next.value;
      k := k + 1;
    }
    assert ns[..k] == ns;
    r := Ok(d);
  }

  /** The link to the k-th neighbour, rerouted when the neighbour sits on another machine. */
  method DraftLink(rev: Revision, v: Virtual.VirtualNet, g: Physical.Network, cache: MemoPath.PathCache,
                   computed: map<(NodeId, NodeId), seq<Pair>>, ghost walks: map<(NodeId, NodeId), seq<NodeId>>,
                   b: Booking, mm: map<NodeId, NodeId>, n: NodeId, ns: seq<NodeId>, k: nat, d: Draft)
    returns (r: Result<Draft>, computed': map<(NodeId, NodeId), seq<Pair>>,
             ghost walks': map<(NodeId, NodeId), seq<NodeId>>)
    requires Virtual.Valid(v) && Wired(g) && n in v.nodes
    requires Around(v, n, ns) && k < |ns|
    requires forall x :: x in v.nodes ==> x in mm && mm[x] in Physical.ComputeNodes(g)
    requires Drafted(rev, v, g, b, mm, d) && d.rerouted.Keys == Reroutes(mm, n, ns[..k])
    requires cache.Valid() && cache.g == g && MemoPath.MemoValid(g.adj, computed, walks)
    modifies cache
    ensures cache.Valid() && MemoPath.MemoValid(g.adj, computed', walks')
    ensures r.Err? ==> r.error == NoPath(rev) || r.error == ValueError
    ensures r.Ok? ==> Drafted(rev, v, g, b, mm, r.value) && r.value.rerouted.Keys == Reroutes(mm, n, ns[..k + 1])
  {
    var x := ns[k];
    RerouteStep(mm, n, ns, k);
    if mm[x] == mm[n] {
      return Ok(d), computed, walks;
    }
    RerouteFresh(mm, n, ns, k);
    r, computed', walks' := DraftCrossing(rev, v, g, cache, computed, walks, b, mm, n, x, d);
  }

  /** The link from n to a neighbour x on another machine, rerouted into the draft. */
  method DraftCrossing(rev: Revision, v: Virtual.VirtualNet, g: Physical.Network, cache: MemoPath.PathCache,
                       computed: map<(NodeId, NodeId), seq<Pair>>, ghost walks: map<(NodeId, NodeId), seq<NodeId>>,
                       b: Booking, mm: map<NodeId, NodeId>, n: NodeId, x: NodeId, d: Draft)
    returns (r: Result<Draft>, computed': map<(NodeId, NodeId), seq<Pair>>,
             ghost walks': map<(NodeId, NodeId), seq<NodeId>>)
    requires Virtual.Valid(v) && Wired(g) && Normalise(n, x) in LinkKeys(v)
    requires n in mm && x in mm && mm[x] != mm[n] && mm[n] in Physical.ComputeNodes(g) && mm[x] in Physical.ComputeNodes(g)
    requires Drafted(rev, v, g, b, mm, d) && Normalise(n, x) !in d.rerouted
    requires cache.Valid() && cache.g == g && MemoPath.MemoValid(g.adj, computed, walks)
    modifies cache
    ensures cache.Valid() && MemoPath.MemoValid(g.adj, computed', walks')
    ensures r.Err? ==> r.error == NoPath(rev) || r.error == ValueError
    ensures r.Ok? ==> Drafted(rev, v, g, b, mm, r.value) && r.value.rerouted.Keys == d.rerouted.Keys + {Normalise(n, x)}
  {
    var e := Normalise(n, x);
    assert mm[e.0] != mm[e.1] by {
      if n < x {
        assert e == (n, x);
      } else {
        assert e == (x, n);
      }
    }
    r, computed', walks' := Redraft(rev, v, g, cache, computed, walks, b, mm, d, e);
    if r.Ok? {
      KeysGrow(d.rerouted, e, r.value.rerouted[e]);
    }
  }

  lemma KeysGrow(m: map<Pair, Path>, e: Pair, P: Path)
    ensures m[e := P].Keys == m.Keys + {e}
  {
  }

  /** use_link after a kept move: each interface loses the links of diff_vlinks['remove'] and gains those of diff_vlinks['add']. */
  function Relink(users: map<Slot, set<Pair>>, removed: map<Slot, set<Pair>>, added: map<Slot, set<Pair>>)
    : (r: map<Slot, set<Pair>>)
    ensures forall s :: GetSet(r, s) == GetSet(users, s) - GetSet(removed, s) + GetSet(added, s)
  {
    map s | s in users.Keys + removed.Keys + added.Keys :: GetSet(users, s) - GetSet(removed, s) + GetSet(added, s)
  }

  /** The kept move: rate_used, use_link and the stored paths take the tentative move's values. */
  function Keep(b: Booking, d: Draft): Booking
  {
    Booking(d.used, d.slots, Relink(b.users, d.removed, d.added), b.paths + d.rerouted)
  }

  /** use_link after a kept move: the links using s, less the rerouted ones whose old path used s, plus those whose new one does. */
  lemma KeepUsers(rev: Revision, paths: map<Pair, Path>, rerouted: map<Pair, Path>, s: Slot)
    ensures Users(rev, paths + rerouted, s) == Users(rev, paths, s) - Marked(rev, paths, rerouted, s) + Users(rev, rerouted, s)
  {
    var all := paths + rerouted;
    forall e ensures e in Users(rev, all, s) <==> e in Users(rev, paths, s) - Marked(rev, paths, rerouted, s) + Users(rev, rerouted, s) {
      if e in rerouted {
        assert all[e] == rerouted[e];
      } else if e in paths {
        assert all[e] == paths[e];
      }
    }
  }

  /** A kept move leaves a booking that agrees with the new stored paths. */
  lemma KeepBooked(rev: Revision, v: Virtual.VirtualNet, g: Physical.Network, b: Booking, mm: map<NodeId, NodeId>,
                   d: Draft)
    requires Booked(rev, v, b) && Drafted(rev, v, g, b, mm, d)
    ensures Booked(rev, v, Keep(b, d))
  {
    forall s | s in b.slots ensures s in d.slots {
      var k :| 0 <= k < |b.slots| && b.slots[k] == s;
      assert d.slots[k] == s;
    }
    forall s ensures GetSet(Keep(b, d).users, s) == Users(rev, b.paths + d.rerouted, s) {
      KeepUsers(rev, b.paths, d.rerouted, s);
    }
  }

  /** A rejected move leaves rate_used, use_link and the paths as they were, but the keys it read stay in rate_used. */
  function Drop(b: Booking, d: Draft): Booking
  {
    Booking(b.used, d.slots, b.users, b.paths)
  }

  /** An interface no stored path uses carries nothing. */
  lemma {:induction false} TallyIdle(rev: Revision, v: Virtual.VirtualNet, paths: map<Pair, Path>, keys: seq<Pair>,
                                     s: Slot)
    requires forall e :: e in paths ==> Count(rev, paths[e], s) == 0
    ensures TallyOver(rev, v, paths, keys, s) == 0
  {
    if |keys| > 0 {
      var e := keys[|keys| - 1];
      TallyIdle(rev, v, paths, keys[..|keys| - 1], s);
      NoCountNoCharge(rev, GetPath(paths, e), EmbedVerify.RateOf(v, e), s);
    }
  }

  /** A key not yet in rate_used carries nothing. */
  lemma IdleSlot(rev: Revision, v: Virtual.VirtualNet, b: Booking, s: Slot)
    requires Booked(rev, v, b) && s !in b.slots
    ensures GetI(b.used, s) == 0
  {
    TallyIdle(rev, v, b.paths, LinkKeys(v), s);
  }

  /** A rejected move keeps the booking and the excess, the keys it read adding nothing. */
  lemma DropBooked(rev: Revision, v: Virtual.VirtualNet, g: Physical.Network, b: Booking, mm: map<NodeId, NodeId>,
                   d: Draft)
    requires Booked(rev, v, b) && Drafted(rev, v, g, b, mm, d)
    ensures Booked(rev, v, Drop(b, d))
    ensures Excess(g, b.used, d.slots) == Excess(g, b.used, b.slots)
  {
    forall s | s in b.slots ensures s in d.slots {
      var k :| 0 <= k < |b.slots| && b.slots[k] == s;
      assert d.slots[k] == s;
    }
    var extra := d.slots[|b.slots|..];
    assert d.slots == b.slots + extra;
    forall k | 0 <= k < |extra| ensures Over(g, b.used, extra[k]) <= 0 {
      assert extra[k] == d.slots[|b.slots| + k];
      assert extra[k] !in b.slots by {
        forall l | 0 <= l < |b.slots| ensures b.slots[l] != extra[k] {
          assert b.slots[l] == d.slots[l];
        }
      }
      IdleSlot(rev, v, b, extra[k]);
    }
    ExcessIdle(g, b.used, b.slots, extra);
  }

  /**
   * The counters and machine lists after n is kept on p: p leaves
   * not_selected for the front of the candidates if it was there, the
   * machine n was on before gives its cores and memory back and p takes
   * them.
   */
  function Relocate(v: Virtual.VirtualNet, h: Hosting, n: NodeId, p: NodeId): Hosting
    requires n in h.mapping
  {
    var prev := h.mapping[n];
    var moved := p in h.free;
    var cores := h.cores[prev := GetI(h.cores, prev) - LowerBound.Demand(v, Cores, n)];
    var memory := h.memory[prev := GetI(h.memory, prev) - LowerBound.Demand(v, Memory, n)];
    Hosting(h.mapping[n := p],
            if moved then [p] + h.selected else h.selected,
            if moved then Filter(h.free, [p]) else h.free,
            cores[p := GetI(cores, p) + LowerBound.Demand(v, Cores, n)],
            memory[p := GetI(memory, p) + LowerBound.Demand(v, Memory, n)])
  }

  /** A node moved to a compute node leaves every node on a compute node, whether the move is kept or not. */
  lemma MovedOnMachines(v: Virtual.VirtualNet, g: Physical.Network, h: Hosting, n: NodeId, p: NodeId)
    requires OnMachines(v, g, h) && n in h.mapping && p in Physical.ComputeNodes(g)
    ensures OnMachines(v, g, h.(mapping := h.mapping[n := p]))
    ensures OnMachines(v, g, Relocate(v, h, n, p))
  {
    var h' := Relocate(v, h, n, p);
    forall q | q in h'.selected + h'.free ensures q in Physical.ComputeNodes(g) {
      if p in h.free {
        assert q in [p] + h.selected || q in Filter(h.free, [p]);
      } else {
        assert h'.selected + h'.free == h.selected + h.free;
      }
    }
  }

  /** What a pair of the product left: n's machine at that point, and the excess after the move when it was tried. */
  datatype Trial = Skipped(at: NodeId) | Tried(at: NodeId, after: nat)

  /** The pair (n, p) was passed over (p is n's machine, or p lacks room) or tried without lowering the excess. */
  ghost predicate NoBetter(v: Virtual.VirtualNet, g: Physical.Network, h: Hosting, n: NodeId, p: NodeId, t: Trial,
                           excess: nat)
  {
    match t
    case Skipped(at) => at == p || !HasRoom(v, g, h, n, p)
    case Tried(at, after) => at != p && HasRoom(v, g, h, n, p) && after >= excess
  }

  lemma NoBetterKept(v: Virtual.VirtualNet, g: Physical.Network, h: Hosting, h': Hosting, n: NodeId, p: NodeId,
                     t: Trial, excess: nat)
    requires Kept(h, h') && NoBetter(v, g, h', n, p, t, excess)
    ensures NoBetter(v, g, h, n, p, t, excess)
  {
  }

  /**
   * One pair of the product: n moves to p when p is not its machine and
   * has room for it. The move stays in the mapping whatever comes of it;
   * rate_used, use_link, the paths, the counters and the machine lists
   * take it only when exceeded_rate drops.
   */
  method TryMove(rev: Revision, v: Virtual.VirtualNet, g: Physical.Network, cache: MemoPath.PathCache,
                 computed: map<(NodeId, NodeId), seq<Pair>>, ghost walks: map<(NodeId, NodeId), seq<NodeId>>,
                 h: Hosting, b: Booking, excess: nat, n: NodeId, p: NodeId)
    returns (r: Result<Step>, computed': map<(NodeId, NodeId), seq<Pair>>,
             ghost walks': map<(NodeId, NodeId), seq<NodeId>>, ghost t: Trial)
    requires Virtual.Valid(v) && Wired(g) && Repairing(rev, v, g, h, b, excess)
    requires n in v.nodes && p in Physical.ComputeNodes(g)
    requires cache.Valid() && cache.g == g && MemoPath.MemoValid(g.adj, computed, walks)
    modifies cache
    ensures cache.Valid() && MemoPath.MemoValid(g.adj, computed', walks')
    ensures r.Err? ==> r.error == NoPath(rev) || r.error == ValueError
    ensures r.Ok? ==> Repairing(rev, v, g, r.value.h, r.value.b, r.value.excess)
    ensures r.Ok? && r.value.moved ==> r.value.excess < excess && r.value.h == Relocate(v, h, n, p)
    ensures r.Ok? && !r.value.moved ==> r.value.excess == excess && Kept(h, r.value.h) && NoBetter(v, g, h, n, p, t, excess)
    ensures r.Ok? && t.Skipped? ==> r.value.h == h && r.value.b == b
    ensures r.Ok? && t.Tried? ==> r.value.h.mapping == h.mapping[n := p]
  {
    computed', walks' := computed, walks;
    var at := h.mapping[n];
    t := Skipped(at);
    if p == at || !HasRoom(v, g, h, n, p) {
      return Ok(Step(h, b, excess, false)), computed', walks', t;
    }
    var mm := h.mapping[n := p];
    var drafted;
    drafted, computed', walks' := DraftMove(rev, v, g, cache, computed', walks', b, mm, n);
    if drafted.Err? {
      return Err(drafted.error), computed', walks', t;
    }
    t := Tried(at, Excess(g, drafted.value.used, drafted.value.slots));
    var step := Settle(rev, v, g, h, b, excess, n, p, drafted.value);
    r := Ok(step);
  }

  /**
   * The end of a trial whose rerouting succeeded: the move is kept when the
   * excess it leaves is below the current one, and dropped otherwise.
   */
  method Settle(rev: Revision, v: Virtual.VirtualNet, g: Physical.Network, h: Hosting, b: Booking, excess: nat,
                n: NodeId, p: NodeId, d: Draft)
    returns (step: Step)
    requires Repairing(rev, v, g, h, b, excess) && n in h.mapping && p in Physical.ComputeNodes(g)
    requires h.mapping[n] != p && HasRoom(v, g, h, n, p)
    requires Drafted(rev, v, g, b, h.mapping[n := p], d)
    ensures Repairing(rev, v, g, step.h, step.b, step.excess)
    ensures step.h.mapping == h.mapping[n := p]
    ensures step.moved ==> step.excess < excess && step.h == Relocate(v, h, n, p)
    ensures !step.moved ==> (step.excess == excess && Kept(h, step.h) &&
      NoBetter(v, g, h, n, p, Tried(h.mapping[n], Excess(g, d.used, d.slots)), excess))
  {
    var mm := h.mapping[n := p];
    var after := Excess(g, d.used, d.slots);
    MovedOnMachines(v, g, h, n, p);
    if after < excess {
      KeepBooked(rev, v, g, b, mm, d);
      step := Step(Relocate(v, h, n, p), Keep(b, d), after, true);
    } else {
      DropBooked(rev, v, g, b, mm, d);
      step := Step(h.(mapping := mm), Drop(b, d), excess, false);
    }
  }

  /** The first m machines of c were passed over for n or tried without lowering the excess. */
  ghost predicate PassedOver(v: Virtual.VirtualNet, g: Physical.Network, h: Hosting, n: NodeId, c: seq<NodeId>,
                             trials: seq<Trial>, excess: nat)
  {
    |trials| <= |c| && forall m :: 0 <= m < |trials| ==> NoBetter(v, g, h, n, c[m], trials[m], excess)
  }

  lemma PassedOverStep(v: Virtual.VirtualNet, g: Physical.Network, h: Hosting, h': Hosting, n: NodeId,
                       c: seq<NodeId>, trials: seq<Trial>, t: Trial, excess: nat)
    requires PassedOver(v, g, h, n, c, trials, excess) && |trials| < |c|
    requires Kept(h, h') && NoBetter(v, g, h', n, c[|trials|], t, excess)
    ensures PassedOver(v, g, h, n, c, trials + [t], excess)
  {
    NoBetterKept(v, g, h, h', n, c[|trials|], t, excess);
    forall m | 0 <= m < |trials| + 1 ensures NoBetter(v, g, h, n, c[m], (trials + [t])[m], excess) {
      if m < |trials| {
        assert (trials + [t])[m] == trials[m];
      }
    }
  }

  lemma PassedOverKept(v: Virtual.VirtualNet, g: Physical.Network, h: Hosting, h': Hosting, n: NodeId,
                       c: seq<NodeId>, trials: seq<Trial>, excess: nat)
    requires Kept(h, h') && PassedOver(v, g, h', n, c, trials, excess)
    ensures PassedOver(v, g, h, n, c, trials, excess)
  {
    forall m | 0 <= m < |trials| ensures NoBetter(v, g, h, n, c[m], trials[m], excess) {
      NoBetterKept(v, g, h, h', n, c[m], trials[m], excess);
    }
  }

  /** The machines of the product for n, in order, until a move is kept. */
  method TryNode(rev: Revision, v: Virtual.VirtualNet, g: Physical.Network, cache: MemoPath.PathCache,
                 computed: map<(NodeId, NodeId), seq<Pair>>, ghost walks: map<(NodeId, NodeId), seq<NodeId>>,
                 h: Hosting, b: Booking, excess: nat, n: NodeId, c: seq<NodeId>)
    returns (r: Result<Step>, computed': map<(NodeId, NodeId), seq<Pair>>,
             ghost walks': map<(NodeId, NodeId), seq<NodeId>>, ghost trials: seq<Trial>)
    requires Virtual.Valid(v) && Wired(g) && Repairing(rev, v, g, h, b, excess) && n in v.nodes
    requires forall p :: p in c ==> p in Physical.ComputeNodes(g)
    requires cache.Valid() && cache.g == g && MemoPath.MemoValid(g.adj, computed, walks)
    modifies cache
    ensures cache.Valid() && MemoPath.MemoValid(g.adj, computed', walks')
    ensures r.Err? ==> r.error == NoPath(rev) || r.error == ValueError
    ensures r.Ok? ==> Repairing(rev, v, g, r.value.h, r.value.b, r.value.excess)
    ensures r.Ok? && r.value.moved ==> r.value.excess < excess
    ensures r.Ok? && !r.value.moved ==> r.value.excess == excess && Kept(h, r.value.h)
    ensures r.Ok? && !r.value.moved ==> |trials| == |c| && PassedOver(v, g, h, n, c, trials, excess)
  {
    var cur := Step(h, b, excess, false);
    computed', walks' := computed, walks;
    trials := [];
    var m := 0;
    while m < |c|
      invariant 0 <= m <= |c| && |trials| == m
      invariant cache.Valid() && MemoPath.MemoValid(g.adj, computed', walks')
      invariant Repairing(rev, v, g, cur.h, cur.b, excess) && cur.excess == excess && !cur.moved && Kept(h, cur.h)
      invariant PassedOver(v, g, h, n, c, trials, excess)
    {
      var next;
      ghost var t;
      next, computed', walks', t := TryMove(rev, v, g, cache, computed', walks', cur.h, cur.b, excess, n, c[m]);
      if next.Err? || next.value.moved {
        return next, computed', walks', trials + [t];
      }
      PassedOverStep(v, g, h, cur.h, n, c, trials, t, excess);
      cur := next.value;
      trials := trials + [t];
      m := m + 1;
    }
    r := Ok(cur);
  }

  /** The first |trials| nodes of ranked were each passed over or tried on every machine of c without lowering the excess. */
  ghost predicate NodesPassed(v: Virtual.VirtualNet, g: Physical.Network, h: Hosting, ranked: seq<NodeId>,
                              c: seq<NodeId>, trials: seq<seq<Trial>>, excess: nat)
  {
    |trials| <= |ranked| &&
    forall a :: 0 <= a < |trials| ==> |trials[a]| == |c| && PassedOver(v, g, h, ranked[a], c, trials[a], excess)
  }

  /** Every pair of ranked × c was passed over or tried without lowering the excess. */
  ghost predicate Exhausted(v: Virtual.VirtualNet, g: Physical.Network, h: Hosting, ranked: seq<NodeId>, c: seq<NodeId>,
                            trials: seq<seq<Trial>>, excess: nat)
  {
    |trials| == |ranked| && NodesPassed(v, g, h, ranked, c, trials, excess)
  }

  lemma NodesPassedStep(v: Virtual.VirtualNet, g: Physical.Network, h: Hosting, h': Hosting, ranked: seq<NodeId>,
                        c: seq<NodeId>, trials: seq<seq<Trial>>, tr: seq<Trial>, excess: nat)
    requires NodesPassed(v, g, h, ranked, c, trials, excess) && |trials| < |ranked|
    requires Kept(h, h') && |tr| == |c| && PassedOver(v, g, h', ranked[|trials|], c, tr, excess)
    ensures NodesPassed(v, g, h, ranked, c, trials + [tr], excess)
  {
    PassedOverKept(v, g, h, h', ranked[|trials|], c, tr, excess);
    forall a | 0 <= a < |trials| + 1
      ensures |(trials + [tr])[a]| == |c| && PassedOver(v, g, h, ranked[a], c, (trials + [tr])[a], excess)
    {
      if a < |trials| {
        assert (trials + [tr])[a] == trials[a];
      }
    }
  }

  /**
   * One round: the pairs of itertools.product(ranked, c), node by node,
   * until a move is kept.
   */
  method Round(rev: Revision, v: Virtual.VirtualNet, g: Physical.Network, cache: MemoPath.PathCache,
               computed: map<(NodeId, NodeId), seq<Pair>>, ghost walks: map<(NodeId, NodeId), seq<NodeId>>,
               h: Hosting, b: Booking, excess: nat, ranked: seq<NodeId>, c: seq<NodeId>)
    returns (r: Result<Step>, computed': map<(NodeId, NodeId), seq<Pair>>,
             ghost walks': map<(NodeId, NodeId), seq<NodeId>>, ghost trials: seq<seq<Trial>>)
    requires Virtual.Valid(v) && Wired(g) && Repairing(rev, v, g, h, b, excess)
    requires forall x :: x in ranked ==> x in v.nodes
    requires forall p :: p in c ==> p in Physical.ComputeNodes(g)
    requires cache.Valid() && cache.g == g && MemoPath.MemoValid(g.adj, computed, walks)
    modifies cache
    ensures cache.Valid() && MemoPath.MemoValid(g.adj, computed', walks')
    ensures r.Err? ==> r.error == NoPath(rev) || r.error == ValueError
    ensures r.Ok? ==> Repairing(rev, v, g, r.value.h, r.value.b, r.value.excess)
    ensures r.Ok? && r.value.moved ==> r.value.excess < excess
    ensures r.Ok? && !r.value.moved ==> r.value.excess == excess && Exhausted(v, g, h, ranked, c, trials, excess)
  {
    var cur := Step(h, b, excess, false);
    computed', walks' := computed, walks;
    trials := [];
    var a := 0;
    while a < |ranked|
      invariant 0 <= a <= |ranked| && |trials| == a
      invariant cache.Valid() && MemoPath.MemoValid(g.adj, computed', walks')
      invariant Repairing(rev, v, g, cur.h, cur.b, excess) && cur.excess == excess && !cur.moved && Kept(h, cur.h)
      invariant NodesPassed(v, g, h, ranked, c, trials, excess)
    {
      var next;
      ghost var tr;
      next, computed', walks', tr := TryNode(rev, v, g, cache, computed', walks', cur.h, cur.b, excess, ranked[a], c);
      if next.Err? || next.value.moved {
        return next, computed', walks', trials + [tr];
      }
      NodesPassedStep(v, g, h, cur.h, ranked, c, trials, tr, excess);
      cur := next.value;
      trials := trials + [tr];
      a := a + 1;
    }
    r := Ok(cur);
  }

  /** How the repair ends: no interface over its rate, or a round in which no move lowered the excess. */
  datatype Repaired = Fixed(h: Hosting, b: Booking) | Blocked(h: Hosting, b: Booking)

  /**
   * The round the repair gave up in, from the hosting h and booking b it
   * started with: the candidates are the ends of the links on the most
   * overloaded interface, and every pair of a candidate and a machine of
   * selected then not_selected was passed over or tried without lowering
   * the excess.
   */
  ghost predicate Stalled(rev: Revision, v: Virtual.VirtualNet, g: Physical.Network, h: Hosting, b: Booking,
                          ranked: seq<NodeId>, trials: seq<seq<Trial>>)
  {
    var excess := Excess(g, b.used, b.slots);
    Repairing(rev, v, g, h, b, excess) && excess > 0 && |b.slots| > 0 && Distinct(ranked) &&
    (forall x :: x in ranked <==> x in EndsOf(GetSet(b.users, b.slots[Worst(g, b.used, b.slots)]))) &&
    Exhausted(v, g, h, ranked, h.selected + h.free, trials, excess)
  }

  /** The candidates of a round are virtual nodes. */
  lemma CandidatesAreNodes(rev: Revision, v: Virtual.VirtualNet, b: Booking, w: Slot, order: seq<Pair>)
    requires Virtual.Valid(v) && Booked(rev, v, b) && Lists(order, GetSet(b.users, w))
    ensures forall x :: x in MostCommon(Ends(order)) ==> x in v.nodes
  {
    forall x | x in Ends(order) ensures x in v.nodes {
      var k :| 0 <= k < |order| && (x == order[k].0 || x == order[k].1);
      assert order[k] in Users(rev, b.paths, w);
      LinkKeyEnds(v, order[k]);
    }
  }

  /** With no excess left, no interface carries more than its rate. */
  lemma NoneOver(rev: Revision, v: Virtual.VirtualNet, g: Physical.Network, b: Booking)
    requires Booked(rev, v, b) && Excess(g, b.used, b.slots) == 0
    ensures forall s :: Over(g, b.used, s) <= 0
  {
    ExcessNone(g, b.used, b.slots);
    forall s ensures Over(g, b.used, s) <= 0 {
      if s !in b.slots {
        IdleSlot(rev, v, b, s);
      } else {
        var k :| 0 <= k < |b.slots| && b.slots[k] == s;
      }
    }
  }

  /**
   * The repair: while exceeded_rate is positive, a round over the ends of
   * the links on the most overloaded interface, most frequent first, and
   * the machines of selected then not_selected. A kept move lowers
   * exceeded_rate, so the loop ends; a round without one gives up.
   */
  method Repair(rev: Revision, v: Virtual.VirtualNet, g: Physical.Network, cache: MemoPath.PathCache,
                computed: map<(NodeId, NodeId), seq<Pair>>, ghost walks: map<(NodeId, NodeId), seq<NodeId>>,
                h: Hosting, b: Booking)
    returns (r: Result<Repaired>, computed': map<(NodeId, NodeId), seq<Pair>>,
             ghost walks': map<(NodeId, NodeId), seq<NodeId>>, ghost moves: nat,
             ghost h0: Hosting, ghost b0: Booking, ghost ranked: seq<NodeId>, ghost trials: seq<seq<Trial>>)
    requires Virtual.Valid(v) && Wired(g) && OnMachines(v, g, h) && Booked(rev, v, b)
    requires cache.Valid() && cache.g == g && MemoPath.MemoValid(g.adj, computed, walks)
    modifies cache
    ensures cache.Valid() && MemoPath.MemoValid(g.adj, computed', walks')
    ensures r.Err? ==> r.error == NoPath(rev) || r.error == ValueError
    ensures r.Ok? ==> OnMachines(v, g, r.value.h) && Booked(rev, v, r.value.b)
    ensures r.Ok? ==> moves <= Excess(g, b.used, b.slots)
    ensures r.Ok? && r.value.Fixed? ==> forall s :: Over(g, r.value.b.used, s) <= 0
    ensures r.Ok? && r.value.Blocked? ==> Stalled(rev, v, g, h0, b0, ranked, trials)
    ensures r.Ok? && r.value.Blocked? ==> Excess(g, r.value.b.used, r.value.b.slots) == Excess(g, b0.used, b0.slots) > 0
  {
    computed', walks' := computed, walks;
    moves, h0, b0, ranked, trials := 0, h, b, [], [];
    var hc, bc := h, b;
    var excess := Excess(g, b.used, b.slots);
    while excess > 0
      invariant cache.Valid() && MemoPath.MemoValid(g.adj, computed', walks')
      invariant Repairing(rev, v, g, hc, bc, excess)
      invariant moves + excess <= Excess(g, b.used, b.slots)
      decreases excess
    {
      var worst := bc.slots[Worst(g, bc.used, bc.slots)];
      var order := Enumerate(GetSet(bc.users, worst));
      var rk := MostCommon(Ends(order));
      CandidatesAreNodes(rev, v, bc, worst, order);
      EndsListed(order, GetSet(bc.users, worst));
      var c := hc.selected + hc.free;
      var next;
      ghost var tr;
      next, computed', walks', tr := Round(rev, v, g, cache, computed', walks', hc, bc, excess, rk, c);
      if next.Err? {
        return Err(next.error), computed', walks', moves, h0, b0, ranked, trials;
      }
      if !next.value.moved {
        return Ok(Blocked(next.value.h, next.value.b)), computed', walks', moves, hc, bc, rk, tr;
      }
      hc, bc, excess := next.value.h, next.value.b, next.value.excess;
      moves := moves + 1;
    }
    NoneOver(rev, v, g, bc);
    r := Ok(Fixed(hc, bc));
  }

  /** After phase one every node sits on a compute node, and selected and not_selected hold only compute nodes. */
  lemma HostedOnMachines(v: Virtual.VirtualNet, g: Physical.Network, h: Hosting)
    requires Hosted(v, g, h)
    ensures OnMachines(v, g, h)
  {
    assert Machines(v, g, h);
    forall n | n in v.nodes ensures n in h.mapping && h.mapping[n] in Physical.ComputeNodes(g) {
      assert n in h.mapping;
      var p := h.mapping[n];
      assert p in h.selected;
      assert p in h.selected + h.free;
    }
  }

  /**
   * What phase one promises: every node placed on the first machine with
   * room, or, at the first node that fits nowhere, the nodes before it so
   * placed and no compute node with room for it.
   */
  ghost predicate PhaseOne(v: Virtual.VirtualNet, g: Physical.Network, free0: seq<NodeId>, r: Phase1)
    requires Virtual.Valid(v)
  {
    match r
    case Placed(h) =>
      Hosted(v, g, h) && (forall k :: 0 <= k < |v.nodes| ==> v.nodes[k] in h.mapping) &&
      FirstFits(v, g, free0, HostsOf(h.mapping, v.nodes))
    case Stuck(at, h) =>
      at < |v.nodes| && (forall k :: 0 <= k < at ==> v.nodes[k] in h.mapping) &&
      FirstFits(v, g, free0, HostsOf(h.mapping, v.nodes[..at])) &&
      forall p :: p in Physical.ComputeNodes(g) ==> !RoomFor(v, g, HostsOf(h.mapping, v.nodes[..at]), p)
  }

  /** How solve ends in the mapping revision: status Solved with the final hosting and booking, status Infeasible, or an exception. */
  datatype Ending = Solved(h: Hosting, b: Booking) | Infeasible | Raised(error: Error)

  /**
   * EmbedTwoPhases.solve: phase one, phase two over sorted_edges() (edges
   * lists that set in its iteration order, free0 lists the compute nodes in
   * the order the not_selected set yields them), then the repair. Running
   * out of machines in phase one or a repair round without a kept move is
   * Infeasible; a path that cannot be found raises ValueError.
   */
  method SolveTwoPhases(v: Virtual.VirtualNet, g: Physical.Network, cache: MemoPath.PathCache,
                        free0: seq<NodeId>, edges: seq<Pair>)
    returns (r: Ending, first: Phase1, ghost h0: Hosting, ghost b0: Booking,
             ghost ranked: seq<NodeId>, ghost trials: seq<seq<Trial>>)
    requires Virtual.Valid(v) && ListsMachines(g, free0) && EdgeOrder(MappingRevision, v, edges)
    requires cache.Valid() && cache.g == g
    modifies cache
    ensures r.Raised? ==> r.error == ValueError
    ensures PhaseOne(v, g, free0, first) && (first.Stuck? ==> r.Infeasible?)
    ensures r.Solved? ==> first.Placed? && OnMachines(v, g, r.h) && Booked(MappingRevision, v, r.b)
    ensures r.Solved? ==> forall s :: Over(g, r.b.used, s) <= 0
    ensures r.Infeasible? && first.Placed? ==> Stalled(MappingRevision, v, g, h0, b0, ranked, trials)
  {
    h0, b0, ranked, trials := Hosting(map[], [], [], map[], map[]), Booking(map[], [], map[], map[]), [], [];
    first := PlaceNodes(v, g, free0);
    if first.Stuck? {
      return Ending.Infeasible, first, h0, b0, ranked, trials;
    }
    HostedOnMachines(v, g, first.h);
    ValidWired(g);
    var routed, computed;
    ghost var walks;
    routed, computed, walks := RouteAll(MappingRevision, v, g, cache, map[], map[], first.h.mapping, edges);
    if routed.Err? {
      return Raised(routed.error), first, h0, b0, ranked, trials;
    }
    var fixed;
    ghost var moves;
    fixed, computed, walks, moves, h0, b0, ranked, trials :=
      Repair(MappingRevision, v, g, cache, computed, walks, first.h, routed.value);
    if fixed.Err? {
      r := Raised(fixed.error);
    } else if fixed.value.Blocked? {
      r := Ending.Infeasible;
    } else {
      r := Ending.Solved(fixed.value.h, fixed.value.b);
    }
  }

  /** What EmbedHeu.__call__ returns before its solution is built: len(selected) and the final hosting and booking. */
  datatype Heu = Heu(machines: nat, h: Hosting, b: Booking)

  /**
   * EmbedHeu.__call__ of grid5000: the same three steps over edges(), with
   * computed_paths starting empty; running out of machines in phase one or
   * a repair round without a kept move raises InfeasibleError, and a path
   * that cannot be found raises TypeError.
   */
  method EmbedHeu(v: Virtual.VirtualNet, g: Physical.Network, cache: MemoPath.PathCache, free0: seq<NodeId>)
    returns (r: Result<Heu>, first: Phase1, ghost h0: Hosting, ghost b0: Booking,
             ghost ranked: seq<NodeId>, ghost trials: seq<seq<Trial>>)
    requires Virtual.Valid(v) && ListsMachines(g, free0)
    requires cache.Valid() && cache.g == g
    modifies cache
    ensures r.Err? ==> r.error == InfeasibleInstance || r.error == TypeError || r.error == ValueError
    ensures PhaseOne(v, g, free0, first) && (first.Stuck? ==> r == Err(InfeasibleInstance))
    ensures r.Ok? ==> first.Placed? && r.value.machines == |r.value.h.selected|
    ensures r.Ok? ==> OnMachines(v, g, r.value.h) && Booked(GridRevision, v, r.value.b)
    ensures r.Ok? ==> forall s :: Over(g, r.value.b.used, s) <= 0
    ensures r == Err(InfeasibleInstance) && first.Placed? ==> Stalled(GridRevision, v, g, h0, b0, ranked, trials)
  {
    h0, b0, ranked, trials := Hosting(map[], [], [], map[], map[]), Booking(map[], [], map[], map[]), [], [];
    first := PlaceNodes(v, g, free0);
    if first.Stuck? {
      return Err(InfeasibleInstance), first, h0, b0, ranked, trials;
    }
    HostedOnMachines(v, g, first.h);
    ValidWired(g);
    var routed, computed;
    ghost var walks;
    routed, computed, walks := RouteAll(GridRevision, v, g, cache, map[], map[], first.h.mapping, Edges(v));
    if routed.Err? {
      return Err(routed.error), first, h0, b0, ranked, trials;
    }
    var fixed;
    ghost var moves;
    fixed, computed, walks, moves, h0, b0, ranked, trials :=
      Repair(GridRevision, v, g, cache, computed, walks, first.h, routed.value);
    if fixed.Err? {
      r := Err(fixed.error);
    } else if fixed.value.Blocked? {
      r := Err(InfeasibleInstance);
    } else {
      r := Ok(Heu(|fixed.value.h.selected|, fixed.value.h, fixed.value.b));
    }
  }
}
