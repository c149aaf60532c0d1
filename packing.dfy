/**
 * Cloud bin-packing: the virtual nodes, each with a cores and a memory
 * demand, are packed into instances of catalogue VM types, each type with a
 * number of vCPUs, an amount of memory and an hourly cost. This module holds
 * the catalogue, the Bin container the heuristics fill, the packing solver
 * with its upper bound and its feasible and cheapest types, and the
 * solution's verification and construction. The four heuristics are in
 * PackHeuristics.
 */
module Packing {
  import opened Common
  import Virtual
  import LowerBound
  import KBalanced

  type VmType = string

  /** vCPUs and memory of a catalogue entry; a zero would make the heuristics' ratios divide by zero. */
  type Capacity = n: nat | n > 0 witness 1

  type Price = r: real | r > 0.0 witness 1.0

  datatype VmSpec = VmSpec(cores: Capacity, memory: Capacity, hourlyCost: Price)

  /** vm_options: the type names in dictionary order, and the entry of each name. */
  datatype Catalogue = Catalogue(options: seq<VmType>, spec: VmType -> VmSpec)

  /** Dictionary keys are distinct. */
  predicate ValidCatalogue(cat: Catalogue)
  {
    Distinct(cat.options)
  }

  /** A demand of c cores and m memory fits an instance of the type. */
  predicate Fits(s: VmSpec, c: nat, m: nat)
  {
    c <= s.cores && m <= s.memory
  }

  /*
   * Sums over a set of virtual nodes, as Python's sum over a set.
   */

  /** The sum of f over the members of s, taken smallest first (any order gives the same natural number). */
  function SetSum(s: set<NodeId>, f: NodeId -> nat): nat
    decreases |s|
  {
    if s == {} then 0 else var m := Least(s); f(m) + SetSum(s - {m}, f)
  }

  /** Adding a new member adds its value to the sum, whatever its place in the order. */
  lemma {:induction false} SetSumInsert(s: set<NodeId>, x: NodeId, f: NodeId -> nat)
    requires x !in s
    ensures SetSum(s + {x}, f) == SetSum(s, f) + f(x)
    decreases |s|
  {
    var s' := s + {x};
    var m := Least(s');
    if m == x {
      assert s' - {x} == s;
    } else {
      assert m in s;
      assert Least(s) == m by {
        var l := Least(s);
        assert l in s' && m <= l && l <= m;
      }
      assert s' - {m} == (s - {m}) + {x};
      SetSumInsert(s - {m}, x, f);
    }
  }

  function Need(v: Virtual.VirtualNet, res: Resource): NodeId -> nat
  {
    u => LowerBound.Demand(v, res, u)
  }

  /** sum(req(u) for u in items). */
  function Load(v: Virtual.VirtualNet, res: Resource, items: set<NodeId>): nat
  {
    SetSum(items, Need(v, res))
  }

  /*
   * The Bin container.
   */

  /** The fields of a Bin at one moment. */
  datatype BinState = BinState(vmType: VmType, items: set<NodeId>, usedCores: nat, usedMemory: nat)

  /** The state after add_item(u, c, m). */
  function Added(b: BinState, u: NodeId, c: nat, m: nat): BinState
  {
    BinState(b.vmType, b.items + {u}, b.usedCores + c, b.usedMemory + m)
  }

  /** A virtual node packed into an instance of type vm_type, with the usage it has been charged. */
  class Bin {
    var vmType: VmType
    var items: set<NodeId>
    var usedCores: nat
    var usedMemory: nat

    function State(): BinState
      reads this
    {
      BinState(vmType, items, usedCores, usedMemory)
    }

    /** A new bin has the given type, no items and no usage. */
    constructor (t: VmType)
      ensures vmType == t && items == {} && usedCores == 0 && usedMemory == 0
    {
      vmType := t;
      items := {};
      usedCores := 0;
      usedMemory := 0;
    }

    /** Records u and charges its demand; the type is left alone. */
    method AddItem(u: NodeId, reqCores: nat, reqMemory: nat)
      modifies this
      ensures items == old(items) + {u}
      ensures usedCores == old(usedCores) + reqCores && usedMemory == old(usedMemory) + reqMemory
      ensures vmType == old(vmType)
    {
      items := items + {u};
      usedCores := usedCores + reqCores;
      usedMemory := usedMemory + reqMemory;
    }
  }

  /** The usage counters equal the demand of the items. */
  predicate Tallied(v: Virtual.VirtualNet, b: BinState)
  {
    b.usedCores == Load(v, Cores, b.items) && b.usedMemory == Load(v, Memory, b.items)
  }

  /** Adding a node not yet in the bin, charged its own demand, keeps the counters equal to the items' demand. */
  lemma AddTallies(v: Virtual.VirtualNet, b: BinState, u: NodeId)
    requires Tallied(v, b) && u !in b.items
    ensures Tallied(v, Added(b, u, LowerBound.Demand(v, Cores, u), LowerBound.Demand(v, Memory, u)))
  {
    SetSumInsert(b.items, u, Need(v, Cores));
    SetSumInsert(b.items, u, Need(v, Memory));
  }

  /** Adding a node twice leaves the items as they were but charges it again. */
  lemma ReAddOvercounts(v: Virtual.VirtualNet, b: BinState, u: NodeId)
    requires Tallied(v, b) && u in b.items && LowerBound.Demand(v, Cores, u) > 0
    ensures Added(b, u, LowerBound.Demand(v, Cores, u), LowerBound.Demand(v, Memory, u)).items == b.items
    ensures !Tallied(v, Added(b, u, LowerBound.Demand(v, Cores, u), LowerBound.Demand(v, Memory, u)))
  {
    assert b.items + {u} == b.items;
  }

  /** The open bin can take a further demand of c cores and m memory: the heuristics' fit test. */
  predicate Room(cat: Catalogue, b: BinState, c: nat, m: nat)
  {
    Fits(cat.spec(b.vmType), b.usedCores + c, b.usedMemory + m)
  }

  /*
   * Selection the way Python's max, min and next pick an element.
   */

  /**
   * max(x for x in s if ok(x), key=key): the first element of greatest key
   * among those that pass, or None where max would raise ValueError.
   */
  function FirstMax<T>(s: seq<T>, ok: T -> bool, key: T -> real): (r: Option<nat>)
    ensures r.None? <==> forall j :: 0 <= j < |s| ==> !ok(s[j])
    ensures r.Some? ==> r.value < |s| && ok(s[r.value])
    ensures r.Some? ==> forall j :: 0 <= j < |s| && ok(s[j]) ==> key(s[j]) <= key(s[r.value])
    ensures r.Some? ==> forall j :: 0 <= j < r.value && ok(s[j]) ==> key(s[j]) < key(s[r.value])
  {
    if |s| == 0 then None
    else
      var init := s[..|s| - 1];
      var x := s[|s| - 1];
      var r := FirstMax(init, ok, key);
      assert forall j :: 0 <= j < |init| ==> init[j] == s[j];
      if !ok(x) then r
      else if r.None? || key(x) > key(init[r.value]) then Some(|s| - 1)
      else r
  }

  /** min(x for x in s if ok(x), key=key): the first element of least key, or None where min would raise. */
  function FirstMin<T>(s: seq<T>, ok: T -> bool, key: T -> real): (r: Option<nat>)
    ensures r.None? <==> forall j :: 0 <= j < |s| ==> !ok(s[j])
    ensures r.Some? ==> r.value < |s| && ok(s[r.value])
    ensures r.Some? ==> forall j :: 0 <= j < |s| && ok(s[j]) ==> key(s[r.value]) <= key(s[j])
    ensures r.Some? ==> forall j :: 0 <= j < r.value && ok(s[j]) ==> key(s[r.value]) < key(s[j])
  {
    var r := FirstMax(s, ok, x => -key(x));
    assert r.Some? ==> forall j :: 0 <= j < |s| && ok(s[j]) ==> -key(s[j]) <= -key(s[r.value]);
    r
  }

  /** next(x for x in s if ok(x), None), and the first pass of a for/else search. */
  function FirstWhere<T>(s: seq<T>, ok: T -> bool): (r: Option<nat>)
    ensures r.None? <==> forall j :: 0 <= j < |s| ==> !ok(s[j])
    ensures r.Some? ==> r.value < |s| && ok(s[r.value])
    ensures r.Some? ==> forall j :: 0 <= j < r.value ==> !ok(s[j])
  {
    var r := FirstMax(s, ok, _ => 0.0);
    assert r.Some? ==> forall j :: 0 <= j < r.value && ok(s[j]) ==> 0.0 < 0.0;
    r
  }

  /*
   * The packing solver's shared queries.
   */

  predicate TypeFits(cat: Catalogue, c: nat, m: nat, t: VmType)
  {
    Fits(cat.spec(t), c, m)
  }

  /**
   * _get_cheapest_feasible: the first type of least hourly cost among those
   * with enough cores and memory; min over nothing raises ValueError.
   */
  function CheapestFeasible(cat: Catalogue, cores: nat, memory: nat): (r: Result<VmType>)
    ensures r.Err? <==> forall t :: t in cat.options ==> !TypeFits(cat, cores, memory, t)
    ensures r.Err? ==> r.error == ValueError
    ensures r.Ok? ==> r.value in cat.options && TypeFits(cat, cores, memory, r.value)
    ensures r.Ok? ==> forall t :: t in cat.options && TypeFits(cat, cores, memory, t) ==>
                        cat.spec(r.value).hourlyCost <= cat.spec(t).hourlyCost
    ensures r.Ok? ==> exists k :: 0 <= k < |cat.options| && cat.options[k] == r.value &&
                        forall j :: 0 <= j < k && TypeFits(cat, cores, memory, cat.options[j]) ==>
                          cat.spec(cat.options[j]).hourlyCost > cat.spec(r.value).hourlyCost
  {
    var k := FirstMin(cat.options, t => TypeFits(cat, cores, memory, t), t => cat.spec(t).hourlyCost);
    if k.None? then Err(ValueError) else Ok(cat.options[k.value])
  }

  /** The next-fit state of _get_ub: instances opened, and room left in the last one. */
  datatype NextFit = NextFit(count: nat, remCores: int, remMemory: int)

  /** _get_ub's loop over the listed nodes for one instance type. */
  function NextFitOver(v: Virtual.VirtualNet, s: VmSpec, nodes: seq<NodeId>): NextFit
  {
    if |nodes| == 0 then NextFit(0, 0, 0)
    else
      var st := NextFitOver(v, s, nodes[..|nodes| - 1]);
      var u := nodes[|nodes| - 1];
      var c, m := LowerBound.Demand(v, Cores, u), LowerBound.Demand(v, Memory, u);
      if c <= st.remCores && m <= st.remMemory then NextFit(st.count, st.remCores - c, st.remMemory - m)
      else if c <= s.cores && m <= s.memory then NextFit(st.count + 1, s.cores - c, s.memory - m)
      else st
  }

  /** The demand of the listed nodes that fit the type on their own. */
  function FitLoad(v: Virtual.VirtualNet, s: VmSpec, res: Resource, nodes: seq<NodeId>): nat
  {
    if |nodes| == 0 then 0
    else
      var u := nodes[|nodes| - 1];
      FitLoad(v, s, res, nodes[..|nodes| - 1]) +
        (if Fits(s, LowerBound.Demand(v, Cores, u), LowerBound.Demand(v, Memory, u)) then LowerBound.Demand(v, res, u) else 0)
  }

  /** How many of the listed nodes fit the type on their own. */
  function FitCount(v: Virtual.VirtualNet, s: VmSpec, nodes: seq<NodeId>): (n: nat)
    ensures n <= |nodes|
  {
    if |nodes| == 0 then 0
    else
      var u := nodes[|nodes| - 1];
      FitCount(v, s, nodes[..|nodes| - 1]) +
        (if Fits(s, LowerBound.Demand(v, Cores, u), LowerBound.Demand(v, Memory, u)) then 1 else 0)
  }

  /**
   * The room left never goes negative nor beyond one instance, and at most
   * one instance is opened per node that fits the type.
   */
  lemma {:induction false} NextFitBounds(v: Virtual.VirtualNet, s: VmSpec, nodes: seq<NodeId>)
    ensures var st := NextFitOver(v, s, nodes);
      0 <= st.remCores <= s.cores && 0 <= st.remMemory <= s.memory && st.count <= FitCount(v, s, nodes)
  {
    if |nodes| > 0 {
      NextFitBounds(v, s, nodes[..|nodes| - 1]);
    }
  }

  /**
   * Every node that fits the type is packed into one of the counted
   * instances: their capacity covers the fitting nodes' demand and the room
   * left in the last one (room left in earlier ones is abandoned).
   */
  lemma {:induction false} NextFitCovers(v: Virtual.VirtualNet, s: VmSpec, nodes: seq<NodeId>)
    ensures var st := NextFitOver(v, s, nodes);
      FitLoad(v, s, Cores, nodes) + st.remCores <= st.count * s.cores &&
      FitLoad(v, s, Memory, nodes) + st.remMemory <= st.count * s.memory
  {
    if |nodes| > 0 {
      var init := nodes[..|nodes| - 1];
      NextFitCovers(v, s, init);
      NextFitBounds(v, s, init);
      var st := NextFitOver(v, s, init);
      var u := nodes[|nodes| - 1];
      var c, m := LowerBound.Demand(v, Cores, u), LowerBound.Demand(v, Memory, u);
      var loadC, loadM := FitLoad(v, s, Cores, init), FitLoad(v, s, Memory, init);
      if c <= st.remCores && m <= st.remMemory {
        assert Fits(s, c, m);
        assert NextFitOver(v, s, nodes) == NextFit(st.count, st.remCores - c, st.remMemory - m);
        assert FitLoad(v, s, Cores, nodes) == loadC + c && FitLoad(v, s, Memory, nodes) == loadM + m;
      } else if Fits(s, c, m) {
        assert NextFitOver(v, s, nodes) == NextFit(st.count + 1, s.cores - c, s.memory - m);
        assert FitLoad(v, s, Cores, nodes) == loadC + c && FitLoad(v, s, Memory, nodes) == loadM + m;
        MulSucc(st.count, s.cores);
        MulSucc(st.count, s.memory);
      } else {
        assert NextFitOver(v, s, nodes) == st;
        assert FitLoad(v, s, Cores, nodes) == loadC && FitLoad(v, s, Memory, nodes) == loadM;
      }
    }
  }

  lemma MulSucc(a: nat, b: nat)
    ensures (a + 1) * b == a * b + b
  {
  }

  /** A node too large for the type is skipped: it changes neither the count nor the room left. */
  lemma NextFitSkips(v: Virtual.VirtualNet, s: VmSpec, nodes: seq<NodeId>, u: NodeId)
    requires !Fits(s, LowerBound.Demand(v, Cores, u), LowerBound.Demand(v, Memory, u))
    ensures NextFitOver(v, s, nodes + [u]) == NextFitOver(v, s, nodes)
  {
    assert (nodes + [u])[..|nodes|] == nodes;
    NextFitBounds(v, s, nodes);
  }

  /*
   * The solution: verify_solution and build_solution.
   */

  /** (vm_type, vm_id): one instance of a type. */
  type Instance = (VmType, nat)

  /** The dictionary {(vm_type, vm_id): items} handed to build_solution, in insertion order. */
  type Assignment = seq<(Instance, set<NodeId>)>

  function Parts(a: Assignment): (p: seq<set<NodeId>>)
    ensures |p| == |a| && forall i :: 0 <= i < |a| ==> p[i] == a[i].1
  {
    seq(|a|, i requires 0 <= i < |a| => a[i].1)
  }

  /** set(chain(*values)): every node some instance lists. */
  function Listed(a: Assignment): set<NodeId>
  {
    KBalanced.UnionOf(Parts(a))
  }

  lemma ListedMember(a: Assignment, u: NodeId)
    ensures u in Listed(a) <==> exists i :: 0 <= i < |a| && u in a[i].1
  {
    KBalanced.InUnion(Parts(a), u);
  }

  /** The instance's items fit its type. */
  predicate InstanceFits(v: Virtual.VirtualNet, cat: Catalogue, e: (Instance, set<NodeId>))
  {
    Fits(cat.spec(e.0.0), Load(v, Cores, e.1), Load(v, Memory, e.1))
  }

  /** The capacity loop: the first instance over its cores, or else over its memory, raises NodeResourceError. */
  function CheckInstances(v: Virtual.VirtualNet, cat: Catalogue, a: Assignment): (r: Result<()>)
    ensures r.Ok? <==> forall i :: 0 <= i < |a| ==> InstanceFits(v, cat, a[i])
    ensures r.Err? ==> exists i :: (0 <= i < |a| && !InstanceFits(v, cat, a[i]) &&
      (forall j :: 0 <= j < i ==> InstanceFits(v, cat, a[j])) &&
      r.error == NodeResource(a[i].0.1,
        if Load(v, Cores, a[i].1) > cat.spec(a[i].0.0).cores then Cores else Memory))
  {
    if |a| == 0 then Ok(())
    else
      var e := a[0];
      if Load(v, Cores, e.1) > cat.spec(e.0.0).cores then Err(NodeResource(e.0.1, Cores))
      else if Load(v, Memory, e.1) > cat.spec(e.0.0).memory then Err(NodeResource(e.0.1, Memory))
      else
        var r := CheckInstances(v, cat, a[1..]);
        assert forall i :: 1 <= i < |a| ==> a[1..][i - 1] == a[i];
        r
  }

  /** A distinct listing has as many members as entries. */
  lemma {:induction false} DistinctCard(s: seq<NodeId>)
    requires Distinct(s)
    ensures |set x | x in s| == |s|
  {
    if |s| > 0 {
      var init := s[..|s| - 1];
      DistinctCard(init);
      assert (set x | x in s) == (set x | x in init) + {s[|s| - 1]};
      assert s[|s| - 1] !in init;
    }
  }

  /** Of two sets, one inside the other, of the same size, neither has more. */
  lemma SameSizeSubset(a: set<NodeId>, b: set<NodeId>)
    requires a <= b && |a| == |b|
    ensures a == b
  {
    assert |b - a| == |b| - |a| == 0;
    assert b - a == {};
    forall x | x in b ensures x in a {
      assert x !in b - a;
    }
  }

  /**
   * verify_solution: AssignmentError when the nodes listed are not as many
   * as the virtual nodes, then the per-instance capacity check.
   */
  function VerifySolution(v: Virtual.VirtualNet, cat: Catalogue, a: Assignment): (r: Result<()>)
    requires Distinct(v.nodes) && Listed(a) <= KBalanced.NodeSet(v)
    ensures r == Err(Error.Assignment) <==> Listed(a) != KBalanced.NodeSet(v)
    ensures r.Ok? <==> Listed(a) == KBalanced.NodeSet(v) && forall i :: 0 <= i < |a| ==> InstanceFits(v, cat, a[i])
  {
    DistinctCard(v.nodes);
    if |Listed(a)| != |v.nodes| then Err(Error.Assignment)
    else
      SameSizeSubset(Listed(a), KBalanced.NodeSet(v));
      CheckInstances(v, cat, a)
  }

  /*
   * The EC2 revision of verify_solution: the same two checks, with errors
   * that carry their details.
   */

  /** AssignmentError(not_assigned_nodes), or NodeResourceError(vm_type, resource, used, capacity). */
  datatype Ec2Failure =
    | Unassigned(missing: set<NodeId>)
    | Overloaded(vmType: VmType, resource: Resource, used: nat, capacity: nat)

  /** What an instance type offers of one resource. */
  function Offered(s: VmSpec, res: Resource): nat
  {
    if res == Cores then s.cores else s.memory
  }

  /** The capacity loop of the EC2 revision: cores are compared before memory, the first instance over either fails. */
  function Ec2CheckInstances(v: Virtual.VirtualNet, cat: Catalogue, a: Assignment): (r: Option<Ec2Failure>)
    ensures r.None? <==> forall i :: 0 <= i < |a| ==> InstanceFits(v, cat, a[i])
    ensures r.Some? ==> r.value.Overloaded? && r.value.used > r.value.capacity
    ensures r.Some? ==> exists i :: (0 <= i < |a| && !InstanceFits(v, cat, a[i]) &&
      (forall j :: 0 <= j < i ==> InstanceFits(v, cat, a[j])) &&
      r.value.vmType == a[i].0.0 &&
      r.value.resource == (if Load(v, Cores, a[i].1) > cat.spec(a[i].0.0).cores then Cores else Memory) &&
      r.value.used == Load(v, r.value.resource, a[i].1) &&
      r.value.capacity == Offered(cat.spec(a[i].0.0), r.value.resource))
  {
    if |a| == 0 then None
    else
      var e := a[0];
      var s := cat.spec(e.0.0);
      if Load(v, Cores, e.1) > s.cores then Some(Overloaded(e.0.0, Cores, Load(v, Cores, e.1), s.cores))
      else if Load(v, Memory, e.1) > s.memory then Some(Overloaded(e.0.0, Memory, Load(v, Memory, e.1), s.memory))
      else
        var r := Ec2CheckInstances(v, cat, a[1..]);
        assert forall i :: 1 <= i < |a| ==> a[1..][i - 1] == a[i];
        r
  }

  /** embedding/ec2's verify_solution: AssignmentError naming the unassigned nodes, then the capacity loop. */
  function Ec2VerifySolution(v: Virtual.VirtualNet, cat: Catalogue, a: Assignment): (r: Option<Ec2Failure>)
    requires Distinct(v.nodes) && Listed(a) <= KBalanced.NodeSet(v)
    ensures r.Some? && r.value.Unassigned? <==> Listed(a) != KBalanced.NodeSet(v)
    ensures r.Some? && r.value.Unassigned? ==> r.value.missing == KBalanced.NodeSet(v) - Listed(a) && r.value.missing != {}
    ensures r.None? <==> Listed(a) == KBalanced.NodeSet(v) && forall i :: 0 <= i < |a| ==> InstanceFits(v, cat, a[i])
  {
    DistinctCard(v.nodes);
    if |Listed(a)| != |v.nodes| then
      assert Listed(a) != KBalanced.NodeSet(v);
      assert KBalanced.NodeSet(v) - Listed(a) != {} by {
        var d := KBalanced.NodeSet(v) - Listed(a);
        if d == {} {
          forall x | x in KBalanced.NodeSet(v) ensures x in Listed(a) {
            assert x !in d;
          }
        }
      }
      Some(Unassigned(KBalanced.NodeSet(v) - Listed(a)))
    else
      SameSizeSubset(Listed(a), KBalanced.NodeSet(v));
      Ec2CheckInstances(v, cat, a)
  }

  /** The two capacity loops fail on the same instance and the same resource. */
  lemma {:induction false} Ec2CheckAgrees(v: Virtual.VirtualNet, cat: Catalogue, a: Assignment)
    ensures Ec2CheckInstances(v, cat, a).None? <==> CheckInstances(v, cat, a).Ok?
    ensures CheckInstances(v, cat, a).Err? ==> exists i :: (0 <= i < |a| &&
      CheckInstances(v, cat, a).error == NodeResource(a[i].0.1, Ec2CheckInstances(v, cat, a).value.resource) &&
      Ec2CheckInstances(v, cat, a).value.vmType == a[i].0.0)
  {
    if |a| > 0 {
      var e := a[0];
      if Load(v, Cores, e.1) <= cat.spec(e.0.0).cores && Load(v, Memory, e.1) <= cat.spec(e.0.0).memory {
        Ec2CheckAgrees(v, cat, a[1..]);
        if CheckInstances(v, cat, a).Err? {
          var i :| 0 <= i < |a[1..]| &&
            CheckInstances(v, cat, a[1..]).error == NodeResource(a[1..][i].0.1, Ec2CheckInstances(v, cat, a[1..]).value.resource) &&
            Ec2CheckInstances(v, cat, a[1..]).value.vmType == a[1..][i].0.0;
          assert a[1..][i] == a[i + 1];
        }
      }
    }
  }

  /** The EC2 revision accepts exactly what the library's verify_solution accepts, and rejects for the same reason. */
  lemma Ec2AgreesWithLibrary(v: Virtual.VirtualNet, cat: Catalogue, a: Assignment)
    requires Distinct(v.nodes) && Listed(a) <= KBalanced.NodeSet(v)
    ensures Ec2VerifySolution(v, cat, a).None? <==> VerifySolution(v, cat, a).Ok?
    ensures Ec2VerifySolution(v, cat, a).Some? && Ec2VerifySolution(v, cat, a).value.Unassigned? <==>
      VerifySolution(v, cat, a) == Err(Error.Assignment)
    ensures VerifySolution(v, cat, a).Err? && VerifySolution(v, cat, a).error.NodeResource? ==>
      VerifySolution(v, cat, a).error.resource == Ec2VerifySolution(v, cat, a).value.resource
  {
    if Listed(a) == KBalanced.NodeSet(v) {
      DistinctCard(v.nodes);
      Ec2CheckAgrees(v, cat, a);
    }
  }

  /** nodes_assignment: each listed node to its instance; a later instance listing it overwrites. */
  function NodesAssignment(a: Assignment): (m: map<NodeId, Instance>)
    ensures m.Keys == Listed(a)
    ensures forall i, u :: 0 <= i < |a| && u in a[i].1 ==> u in m
  {
    forall i, u | 0 <= i < |a| && u in a[i].1 ensures u in Listed(a) {
      ListedMember(a, u);
    }
    if |a| == 0 then map[]
    else
      var last := a[|a| - 1];
      assert Parts(a)[..|a| - 1] == Parts(a[..|a| - 1]);
      NodesAssignment(a[..|a| - 1]) + map u | u in last.1 :: last.0
  }

  /** vm_used: per type, the distinct instances some node is assigned to. */
  function VmUsed(m: map<NodeId, Instance>): map<VmType, nat>
  {
    map t | t in TypesOf(InUse(m)) :: |set k | k in InUse(m) && k.0 == t|
  }

  /** set(nodes_assignment.values()). */
  function InUse(m: map<NodeId, Instance>): set<Instance>
  {
    set u | u in m :: m[u]
  }

  function TypesOf(instances: set<Instance>): set<VmType>
  {
    set k | k in instances :: k.0
  }

  /** The hourly cost of every instance key, empty or not. */
  function Cost(cat: Catalogue, a: Assignment): real
  {
    if |a| == 0 then 0.0 else Cost(cat, a[..|a| - 1]) + cat.spec(a[|a| - 1].0.0).hourlyCost
  }

  datatype Solution = Solution(nodesAssignment: map<NodeId, Instance>, vmUsed: map<VmType, nat>, cost: real)

  /** build_solution: verify when asked, then the assignment, the instances used and the cost. */
  function BuildSolution(v: Virtual.VirtualNet, cat: Catalogue, a: Assignment, check: bool): (r: Result<Solution>)
    requires check ==> Distinct(v.nodes) && Listed(a) <= KBalanced.NodeSet(v)
    ensures check ==> (r.Ok? <==> VerifySolution(v, cat, a).Ok?)
    ensures check && r.Err? ==> r.error == VerifySolution(v, cat, a).error
    ensures !check ==> r.Ok?
    ensures r.Ok? ==> r.value.nodesAssignment.Keys == Listed(a)
  {
    if check && VerifySolution(v, cat, a).Err? then Err(VerifySolution(v, cat, a).error)
    else
      var m := NodesAssignment(a);
      Ok(Solution(m, VmUsed(m), Cost(cat, a)))
  }

  /** The last instance listing a node is the one it is assigned to. */
  lemma {:induction false} LastListingWins(a: Assignment, i: nat, u: NodeId)
    requires i < |a| && u in a[i].1
    requires forall j :: i < j < |a| ==> u !in a[j].1
    ensures NodesAssignment(a)[u] == a[i].0
  {
    var init := a[..|a| - 1];
    assert Parts(a)[..|a| - 1] == Parts(init);
    if i < |a| - 1 {
      LastListingWins(init, i, u);
    }
  }

  /** When no node is listed twice, each node is assigned to the instance that lists it. */
  lemma AssignedToItsInstance(a: Assignment, i: nat, u: NodeId)
    requires KBalanced.Disjoint(Parts(a))
    requires i < |a| && u in a[i].1
    ensures NodesAssignment(a)[u] == a[i].0
  {
    forall j | i < j < |a| ensures u !in a[j].1 {
      assert Parts(a)[i] !! Parts(a)[j];
    }
    LastListingWins(a, i, u);
  }

  /** The instances hosting some node: the keys with a non-empty item set. */
  function Hosting(a: Assignment): set<Instance>
  {
    set i | 0 <= i < |a| && a[i].1 != {} :: a[i].0
  }

  /** When no node is listed twice, nodes_assignment's values are exactly the instances hosting a node. */
  lemma AssignedInstances(a: Assignment)
    requires KBalanced.Disjoint(Parts(a))
    ensures InUse(NodesAssignment(a)) == Hosting(a)
  {
    var m := NodesAssignment(a);
    forall k | k in InUse(m) ensures k in Hosting(a) {
      var u :| u in m && m[u] == k;
      ListedMember(a, u);
      var i :| 0 <= i < |a| && u in a[i].1;
      AssignedToItsInstance(a, i, u);
    }
    forall k | k in Hosting(a) ensures k in InUse(m) {
      var i :| 0 <= i < |a| && a[i].1 != {} && a[i].0 == k;
      var u := Pick(a[i].1);
      AssignedToItsInstance(a, i, u);
      ListedMember(a, u);
    }
  }

  /** vm_used counts, per type, the instances of that type hosting at least one node. */
  lemma VmUsedCounts(a: Assignment, t: VmType)
    requires KBalanced.Disjoint(Parts(a))
    ensures Get(VmUsed(NodesAssignment(a)), t) == |set k | k in Hosting(a) && k.0 == t|
  {
    AssignedInstances(a);
    var m := NodesAssignment(a);
    if t !in TypesOf(InUse(m)) {
      assert (set k | k in InUse(m) && k.0 == t) == {};
    }
  }

  /** An instance with no items is paid for all the same. */
  lemma {:induction false} CostCountsEveryKey(cat: Catalogue, a: Assignment, k: Instance)
    ensures Cost(cat, a + [(k, {})]) == Cost(cat, a) + cat.spec(k.0).hourlyCost
    ensures Cost(cat, a) >= 0.0
    decreases |a|
  {
    assert (a + [(k, {})])[..|a|] == a;
    if |a| > 0 {
      CostCountsEveryKey(cat, a[..|a| - 1], a[|a| - 1].0);
    }
  }

  /** What a packing heuristic's solve ends with. */
  datatype Outcome =
    | Solved(assignment: Assignment, solution: Solution)
    | Infeasible
    | Raised(error: Error)

  function StatusOf(o: Outcome): Status
  {
    match o
    case Solved(_, _) => Status.Solved
    case Infeasible => Status.Infeasible
    case Raised(_) => NotSolved
  }

  /** PackingSolver: the nodes to pack, the catalogue, and the solution, status and lower bound it records. */
  class PackingSolver {
    const virtual: Virtual.VirtualNet
    const physical: Catalogue
    var solution: Option<Solution>
    var status: Status
    var lb: int

    /** A new solver has no solution, is NotSolved and has lower bound 0. */
    constructor (v: Virtual.VirtualNet, cat: Catalogue)
      ensures virtual == v && physical == cat
      ensures solution == None && status == NotSolved && lb == 0
    {
      virtual := v;
      physical := cat;
      solution := None;
      status := NotSolved;
      lb := 0;
    }

    /** _get_feasible_instances: the types with enough cores and memory for u. */
    function FeasibleInstances(u: NodeId): (r: set<VmType>)
      ensures forall t :: t in r <==> (t in physical.options &&
        TypeFits(physical, LowerBound.Demand(virtual, Cores, u), LowerBound.Demand(virtual, Memory, u), t))
    {
      set t | t in physical.options &&
        TypeFits(physical, LowerBound.Demand(virtual, Cores, u), LowerBound.Demand(virtual, Memory, u), t)
    }

    /**
     * _get_ub: next-fit over the nodes in order with instances of one type.
     * The count is at most the number of nodes, and the counted instances
     * hold the whole demand of the nodes that fit the type.
     */
    method GetUB(t: VmType) returns (n: nat)
      ensures n == NextFitOver(virtual, physical.spec(t), virtual.nodes).count
      ensures n <= FitCount(virtual, physical.spec(t), virtual.nodes) <= |virtual.nodes|
      ensures FitLoad(virtual, physical.spec(t), Cores, virtual.nodes) <= n * physical.spec(t).cores
      ensures FitLoad(virtual, physical.spec(t), Memory, virtual.nodes) <= n * physical.spec(t).memory
    {
      var s := physical.spec(t);
      var cpuCoresInstance, memoryInstance := s.cores, s.memory;
      var remainingCpuCores, remainingMemory := 0, 0;
      n := 0;
      var nodes := virtual.nodes;
      for i := 0 to |nodes|
        invariant NextFit(n, remainingCpuCores, remainingMemory) == NextFitOver(virtual, s, nodes[..i])
      {
        assert nodes[..i + 1][..i] == nodes[..i];
        var u := nodes[i];
        var reqCores, reqMemory := LowerBound.Demand(virtual, Cores, u), LowerBound.Demand(virtual, Memory, u);
        if reqCores <= remainingCpuCores && reqMemory <= remainingMemory {
          remainingCpuCores := remainingCpuCores - reqCores;
          remainingMemory := remainingMemory - reqMemory;
        } else if reqCores <= cpuCoresInstance && reqMemory <= memoryInstance {
          remainingCpuCores := cpuCoresInstance - reqCores;
          remainingMemory := memoryInstance - reqMemory;
          n := n + 1;
        }
      }
      assert nodes[..|nodes|] == nodes;
      NextFitBounds(virtual, s, nodes);
      NextFitCovers(virtual, s, nodes);
    }

    /** The end of solve: Solved records the solution; Infeasible only the status; a raise neither. */
    method Record(o: Outcome) returns (r: Result<Status>)
      modifies this
      ensures o.Raised? ==> r == Err(o.error) && status == old(status) && solution == old(solution)
      ensures !o.Raised? ==> r == Ok(StatusOf(o)) && status == StatusOf(o)
      ensures solution == (if o.Solved? then Some(o.solution) else old(solution))
    {
      if o.Raised? {
        return Err(o.error);
      }
      if o.Solved? {
        solution := Some(o.solution);
      }
      status := StatusOf(o);
      r := Ok(status);
    }
  }

  /** The cheapest feasible type for a node is one of its feasible instances, and none is cheaper. */
  lemma CheapestAmongFeasible(solver: PackingSolver, u: NodeId)
    ensures var r := CheapestFeasible(solver.physical, LowerBound.Demand(solver.virtual, Cores, u),
                                      LowerBound.Demand(solver.virtual, Memory, u));
      (r.Err? <==> solver.FeasibleInstances(u) == {}) &&
      (r.Ok? ==> (r.value in solver.FeasibleInstances(u) &&
        forall t :: t in solver.FeasibleInstances(u) ==> solver.physical.spec(r.value).hourlyCost <= solver.physical.spec(t).hourlyCost))
  {
    var r := CheapestFeasible(solver.physical, LowerBound.Demand(solver.virtual, Cores, u),
                              LowerBound.Demand(solver.virtual, Memory, u));
    if r.Ok? {
      assert r.value in solver.FeasibleInstances(u);
    } else {
      assert forall t :: t !in solver.FeasibleInstances(u);
    }
  }
}
