/**
 * The four cloud bin-packing heuristics. Each takes the virtual nodes one by
 * one, puts each into an open bin (an instance of a catalogue type) or opens
 * a new one, and hands {(vm_type, i): items} to build_solution:
 *   - Best Fit Dot Product (Silva, Perez and Desprez, CCGrid 2016);
 *   - First Fit Decreasing Priority, with alpha-weighted type ranking;
 *   - First Fit Ordered Deviation (Han, Diehr and Cook, 1994);
 *   - the greedy first fit that upgrades a bin's type when that is cheaper.
 * The invariant they share: every open bin has a catalogue type, holds
 * some nodes, charges exactly their demand and stays within its type's
 * cores and memory, and the bins hold every node processed so far once.
 */
module PackHeuristics {
  import opened Common
  import Virtual
  import LowerBound
  import KBalanced
  import Placement
  import opened Packing

  /*
   * The bins as the heuristics keep them.
   */

  /** A bin the heuristics keep: a catalogue type, some nodes, counters equal to their demand, within capacity. */
  predicate Holds(v: Virtual.VirtualNet, cat: Catalogue, b: BinState)
  {
    b.vmType in cat.options && b.items != {} && Tallied(v, b) && Room(cat, b, 0, 0)
  }

  /** {(bin.vm_type, i): bin.items for i, bin in enumerate(bins)}. */
  function Enumerated(bins: seq<BinState>): (a: Assignment)
    ensures |a| == |bins| && forall i :: 0 <= i < |bins| ==> a[i] == ((bins[i].vmType, i), bins[i].items)
  {
    seq(|bins|, i requires 0 <= i < |bins| => ((bins[i].vmType, i), bins[i].items))
  }

  /** The bins hold exactly the nodes done, each once, and every bin holds. */
  ghost predicate Packed(v: Virtual.VirtualNet, cat: Catalogue, bins: seq<BinState>, done: set<NodeId>)
  {
    (forall j :: 0 <= j < |bins| ==> Holds(v, cat, bins[j])) &&
    KBalanced.Disjoint(Parts(Enumerated(bins))) &&
    Listed(Enumerated(bins)) == done
  }

  /** The dictionary a heuristic hands to build_solution: every node once, on a catalogue type it fits. */
  ghost predicate Packs(v: Virtual.VirtualNet, cat: Catalogue, a: Assignment)
  {
    Listed(a) == KBalanced.NodeSet(v) && KBalanced.Disjoint(Parts(a)) &&
    forall i :: 0 <= i < |a| ==> a[i].0.1 == i && a[i].0.0 in cat.options && a[i].1 != {} && InstanceFits(v, cat, a[i])
  }

  function CoresOf(v: Virtual.VirtualNet, u: NodeId): nat
  {
    LowerBound.Demand(v, Cores, u)
  }

  function MemoryOf(v: Virtual.VirtualNet, u: NodeId): nat
  {
    LowerBound.Demand(v, Memory, u)
  }

  /** No catalogue type has room for the node on its own. */
  predicate Unfit(v: Virtual.VirtualNet, cat: Catalogue, u: NodeId)
  {
    forall t :: t in cat.options ==> !TypeFits(cat, CoresOf(v, u), MemoryOf(v, u), t)
  }

  /** No bins yet, no nodes done. */
  lemma PackedEmpty(v: Virtual.VirtualNet, cat: Catalogue)
    ensures Packed(v, cat, [], {})
  {
    assert Parts(Enumerated([])) == [];
  }

  /** The nodes of a bin are among the nodes done. */
  lemma ItemsDone(v: Virtual.VirtualNet, cat: Catalogue, bins: seq<BinState>, done: set<NodeId>, k: nat)
    requires Packed(v, cat, bins, done) && k < |bins|
    ensures bins[k].items <= done
  {
    forall x | x in bins[k].items ensures x in done {
      ListedMember(Enumerated(bins), x);
    }
  }

  /**
   * Adding a new node to bin k, under type t (its own, or the one it is
   * upgraded to) with room for the bin's usage plus the node, keeps the bins
   * packed and adds the node to those done.
   */
  lemma JoinKeeps(v: Virtual.VirtualNet, cat: Catalogue, bins: seq<BinState>, done: set<NodeId>, k: nat, t: VmType, u: NodeId)
    requires Packed(v, cat, bins, done) && u !in done && k < |bins| && t in cat.options
    requires Fits(cat.spec(t), bins[k].usedCores + CoresOf(v, u), bins[k].usedMemory + MemoryOf(v, u))
    ensures Packed(v, cat, bins[k := Added(bins[k].(vmType := t), u, CoresOf(v, u), MemoryOf(v, u))], done + {u})
  {
    var nb := Added(bins[k].(vmType := t), u, CoresOf(v, u), MemoryOf(v, u));
    ItemsDone(v, cat, bins, done, k);
    AddTallies(v, bins[k].(vmType := t), u);
    assert Holds(v, cat, nb);
    JoinApart(v, cat, bins, done, k, nb, u);
    JoinListed(bins, done, k, nb, u);
  }

  /** Replacing bin k by one that only adds a node not done keeps the bins' items disjoint. */
  lemma JoinApart(v: Virtual.VirtualNet, cat: Catalogue, bins: seq<BinState>, done: set<NodeId>, k: nat, nb: BinState, u: NodeId)
    requires Packed(v, cat, bins, done) && u !in done && k < |bins| && nb.items == bins[k].items + {u}
    ensures KBalanced.Disjoint(Parts(Enumerated(bins[k := nb])))
  {
    var bins' := bins[k := nb];
    var a, a' := Enumerated(bins), Enumerated(bins');
    forall i, j | 0 <= i < j < |bins'| ensures Parts(a')[i] !! Parts(a')[j] {
      assert Parts(a)[i] !! Parts(a)[j];
      if i == k {
        ItemsDone(v, cat, bins, done, j);
      } else if j == k {
        ItemsDone(v, cat, bins, done, i);
      }
    }
  }

  /** Replacing bin k by one that only adds a node lists that node besides those done. */
  lemma JoinListed(bins: seq<BinState>, done: set<NodeId>, k: nat, nb: BinState, u: NodeId)
    requires Listed(Enumerated(bins)) == done && k < |bins| && nb.items == bins[k].items + {u}
    ensures Listed(Enumerated(bins[k := nb])) == done + {u}
  {
    var bins' := bins[k := nb];
    var a, a' := Enumerated(bins), Enumerated(bins');
    forall x ensures x in Listed(a') <==> x in done + {u} {
      ListedMember(a, x);
      ListedMember(a', x);
      if x in Listed(a') {
        var i :| 0 <= i < |a'| && x in a'[i].1;
        if x != u {
          assert x in a[i].1;
        }
      }
      if x in done {
        var i :| 0 <= i < |a| && x in a[i].1;
        assert x in a'[i].1;
      }
      if x == u {
        assert x in a'[k].1;
      }
    }
  }

  /** Opening a bin of a type the new node fits, holding only that node, keeps the bins packed. */
  lemma OpenKeeps(v: Virtual.VirtualNet, cat: Catalogue, bins: seq<BinState>, done: set<NodeId>, t: VmType, u: NodeId)
    requires Packed(v, cat, bins, done) && u !in done && t in cat.options
    requires TypeFits(cat, CoresOf(v, u), MemoryOf(v, u), t)
    ensures Packed(v, cat, bins + [Added(BinState(t, {}, 0, 0), u, CoresOf(v, u), MemoryOf(v, u))], done + {u})
  {
    var nb := Added(BinState(t, {}, 0, 0), u, CoresOf(v, u), MemoryOf(v, u));
    AddTallies(v, BinState(t, {}, 0, 0), u);
    var parts := Parts(Enumerated(bins));
    forall i | 0 <= i < |bins| + 1 ensures Parts(Enumerated(bins + [nb]))[i] == (parts + [{u}])[i] {
      if i < |bins| {
        assert (bins + [nb])[i] == bins[i];
      }
    }
    assert Parts(Enumerated(bins + [nb])) == parts + [{u}];
    assert KBalanced.UnionOf([{u}]) == {u} by {
      assert [{u}][..0] == [];
    }
    KBalanced.JoinPartitions(parts, [{u}], done, {u});
  }

  /** Once every node is done, the dictionary of the bins is a packing and passes verify_solution. */
  lemma PackedVerifies(v: Virtual.VirtualNet, cat: Catalogue, bins: seq<BinState>)
    requires Distinct(v.nodes) && Packed(v, cat, bins, KBalanced.NodeSet(v))
    ensures Packs(v, cat, Enumerated(bins))
    ensures VerifySolution(v, cat, Enumerated(bins)).Ok?
  {
    var a := Enumerated(bins);
    forall i | 0 <= i < |a| ensures InstanceFits(v, cat, a[i]) {
      assert Holds(v, cat, bins[i]);
    }
    assert VerifySolution(v, cat, a).Ok?;
  }

  /**
   * What a heuristic's Solved outcome means: every virtual node is assigned
   * to the instance whose items list it, an instance of a catalogue type
   * with enough cores and memory for all the nodes it holds.
   */
  lemma SolvedMeaning(v: Virtual.VirtualNet, cat: Catalogue, a: Assignment, sol: Solution, u: NodeId)
    requires Distinct(v.nodes) && Packs(v, cat, a) && BuildSolution(v, cat, a, true) == Ok(sol)
    requires u in v.nodes
    ensures u in sol.nodesAssignment
    ensures var (t, i) := sol.nodesAssignment[u];
      i < |a| && a[i].0 == (t, i) && u in a[i].1 && t in cat.options &&
      Fits(cat.spec(t), Load(v, Cores, a[i].1), Load(v, Memory, a[i].1))
  {
    ListedMember(a, u);
    var i :| 0 <= i < |a| && u in a[i].1;
    AssignedToItsInstance(a, i, u);
  }

  /*
   * Bins as objects: a list of distinct Bin objects and its states.
   */

  function States(bins: seq<Bin>): (r: seq<BinState>)
    reads set b | b in bins
    ensures |r| == |bins| && forall j :: 0 <= j < |bins| ==> r[j] == bins[j].State()
  {
    if |bins| == 0 then [] else States(bins[..|bins| - 1]) + [bins[|bins| - 1].State()]
  }

  predicate Separate(bins: seq<Bin>)
  {
    forall i, j :: 0 <= i < j < |bins| ==> bins[i] != bins[j]
  }

  /** selected_bin.add_item(u, req_cores, req_memory): only that bin changes. */
  method Join(bins: seq<Bin>, k: nat, u: NodeId, c: nat, m: nat)
    requires k < |bins| && Separate(bins)
    modifies bins[k]
    ensures States(bins) == old(States(bins))[k := Added(old(bins[k].State()), u, c, m)]
  {
    bins[k].AddItem(u, c, m);
    assert forall j :: 0 <= j < |bins| && j != k ==> bins[j] != bins[k];
  }

  /** bin.vm_type = t; bin.add_item(u, req_cores, req_memory): the upgrade of the greedy heuristic. */
  method Retype(bins: seq<Bin>, k: nat, t: VmType, u: NodeId, c: nat, m: nat)
    requires k < |bins| && Separate(bins)
    modifies bins[k]
    ensures States(bins) == old(States(bins))[k := Added(old(bins[k].State()).(vmType := t), u, c, m)]
  {
    bins[k].vmType := t;
    bins[k].AddItem(u, c, m);
    assert forall j :: 0 <= j < |bins| && j != k ==> bins[j] != bins[k];
  }

  /** new_bin = Bin(t); new_bin.add_item(u, ...); bins.append(new_bin). */
  method Open(bins: seq<Bin>, t: VmType, u: NodeId, c: nat, m: nat) returns (bins': seq<Bin>)
    requires Separate(bins)
    ensures Separate(bins') && |bins'| == |bins| + 1 && bins'[..|bins|] == bins && fresh(bins'[|bins|])
    ensures States(bins') == States(bins) + [Added(BinState(t, {}, 0, 0), u, c, m)]
  {
    var b := new Bin(t);
    b.AddItem(u, c, m);
    bins' := bins + [b];
    assert bins'[..|bins|] == bins;
  }

  /** The node joins open bin k, which has room for it; the bins still pack the nodes done and it. */
  method JoinAt(v: Virtual.VirtualNet, cat: Catalogue, bins: seq<Bin>, ghost done: set<NodeId>, k: nat, u: NodeId)
    requires Separate(bins) && Packed(v, cat, States(bins), done) && u !in done
    requires k < |bins| && Room(cat, States(bins)[k], CoresOf(v, u), MemoryOf(v, u))
    modifies bins[k]
    ensures Separate(bins) && Packed(v, cat, States(bins), done + {u})
    ensures !Unfit(v, cat, u)
  {
    ghost var states := States(bins);
    assert Holds(v, cat, states[k]);
    RoomMeansFit(v, cat, states[k], u);
    JoinKeeps(v, cat, states, done, k, states[k].vmType, u);
    assert states[k].(vmType := states[k].vmType) == states[k];
    Join(bins, k, u, CoresOf(v, u), MemoryOf(v, u));
  }

  /** Bin k becomes an instance of type t, which holds its load and the node. */
  method UpgradeAt(v: Virtual.VirtualNet, cat: Catalogue, bins: seq<Bin>, ghost done: set<NodeId>, k: nat, t: VmType, u: NodeId)
    requires Separate(bins) && Packed(v, cat, States(bins), done) && u !in done
    requires k < |bins| && t in cat.options
    requires Fits(cat.spec(t), States(bins)[k].usedCores + CoresOf(v, u), States(bins)[k].usedMemory + MemoryOf(v, u))
    modifies bins[k]
    ensures Separate(bins) && Packed(v, cat, States(bins), done + {u})
  {
    JoinKeeps(v, cat, States(bins), done, k, t, u);
    Retype(bins, k, t, u, CoresOf(v, u), MemoryOf(v, u));
  }

  /** A new bin of type t, which fits the node, holds the node alone. */
  method OpenNew(v: Virtual.VirtualNet, cat: Catalogue, bins: seq<Bin>, ghost done: set<NodeId>, t: VmType, u: NodeId)
    returns (bins': seq<Bin>)
    requires Separate(bins) && Packed(v, cat, States(bins), done) && u !in done
    requires t in cat.options && TypeFits(cat, CoresOf(v, u), MemoryOf(v, u), t)
    ensures Separate(bins') && Packed(v, cat, States(bins'), done + {u})
    ensures forall b :: b in bins' ==> b in bins || fresh(b)
    ensures !Unfit(v, cat, u)
  {
    OpenKeeps(v, cat, States(bins), done, t, u);
    bins' := Open(bins, t, u, CoresOf(v, u), MemoryOf(v, u));
    assert forall b :: b in bins' ==> b in bins'[..|bins|] || b == bins'[|bins|];
  }

  /** The nodes of the listing up to position i. */
  function Seen(order: seq<NodeId>, i: nat): set<NodeId>
    requires i <= |order|
  {
    set x | x in order[..i]
  }

  lemma SeenNext(order: seq<NodeId>, i: nat)
    requires i < |order| && Distinct(order)
    ensures Seen(order, i + 1) == Seen(order, i) + {order[i]}
    ensures order[i] !in Seen(order, i)
  {
    assert order[..i + 1] == order[..i] + [order[i]];
  }

  lemma SeenAll(v: Virtual.VirtualNet, order: seq<NodeId>)
    requires multiset(order) == multiset(v.nodes)
    ensures Seen(order, |order|) == KBalanced.NodeSet(v)
    ensures forall x :: x in order <==> x in v.nodes
  {
    assert order[..|order|] == order;
    forall x ensures x in order <==> x in v.nodes {
      assert x in order <==> x in multiset(order);
      assert x in v.nodes <==> x in multiset(v.nodes);
    }
  }

  /** A sorted permutation of the distinct virtual nodes lists each once. */
  lemma OrderLists(v: Virtual.VirtualNet, order: seq<NodeId>)
    requires Distinct(v.nodes) && multiset(order) == multiset(v.nodes)
    ensures Distinct(order) && Seen(order, |order|) == KBalanced.NodeSet(v)
    ensures forall x :: x in order <==> x in v.nodes
  {
    Placement.DistinctPermutation(v.nodes, order);
    SeenAll(v, order);
    assert order[..|order|] == order;
  }

  /** An open bin with room for a node means its type fits the node on its own. */
  lemma RoomMeansFit(v: Virtual.VirtualNet, cat: Catalogue, b: BinState, u: NodeId)
    requires b.vmType in cat.options && Room(cat, b, CoresOf(v, u), MemoryOf(v, u))
    ensures !Unfit(v, cat, u)
  {
    assert TypeFits(cat, CoresOf(v, u), MemoryOf(v, u), b.vmType);
  }

  /*
   * Item orders.
   */

  /** cores * 1000 + memory, the size key of the decreasing heuristics. */
  function SizeKey(v: Virtual.VirtualNet): NodeId -> int
  {
    u => CoresOf(v, u) * 1000 + MemoryOf(v, u)
  }

  predicate NonDecreasing<T>(s: seq<T>, key: T -> real)
  {
    forall a, b :: 0 <= a < b < |s| ==> key(s[a]) <= key(s[b])
  }

  /** Insert x after every element whose key is at most x's, as a stable ascending sort does. */
  function InsertAscending<T>(x: T, s: seq<T>, key: T -> real): (r: seq<T>)
    ensures multiset(r) == multiset(s) + multiset{x}
  {
    if |s| == 0 then [x]
    else if key(s[0]) <= key(x) then
      assert s == [s[0]] + s[1..];
      [s[0]] + InsertAscending(x, s[1..], key)
    else [x] + s
  }

  lemma {:induction false} InsertKeepsAscending<T>(x: T, s: seq<T>, key: T -> real)
    requires NonDecreasing(s, key)
    ensures NonDecreasing(InsertAscending(x, s, key), key)
  {
    var r := InsertAscending(x, s, key);
    if |s| > 0 && key(s[0]) <= key(x) {
      var tail := s[1..];
      var rest := InsertAscending(x, tail, key);
      assert NonDecreasing(tail, key) by {
        forall a, b | 0 <= a < b < |tail| ensures key(tail[a]) <= key(tail[b]) {
          assert tail[a] == s[a + 1] && tail[b] == s[b + 1];
        }
      }
      InsertKeepsAscending(x, tail, key);
      forall k | 0 <= k < |rest| ensures key(s[0]) <= key(rest[k]) {
        assert rest[k] in multiset(rest);
        if rest[k] != x {
          assert rest[k] in multiset(tail);
          var j :| 0 <= j < |tail| && tail[j] == rest[k];
          assert s[j + 1] == rest[k];
        }
      }
      assert r == [s[0]] + rest;
      forall a, b | 0 <= a < b < |r| ensures key(r[a]) <= key(r[b]) {
        assert r[b] == rest[b - 1];
        if a > 0 {
          assert r[a] == rest[a - 1];
        }
      }
    } else if |s| > 0 {
      assert r == [x] + s;
      forall a, b | 0 <= a < b < |r| ensures key(r[a]) <= key(r[b]) {
        assert r[b] == s[b - 1];
        if a > 0 {
          assert r[a] == s[a - 1];
        } else {
          assert key(s[0]) <= key(s[b - 1]);
        }
      }
    }
  }

  /** Python's stable sorted(xs, key=key) on a real-valued key. */
  function SortAscending<T>(s: seq<T>, key: T -> real): (r: seq<T>)
    ensures multiset(r) == multiset(s)
    ensures NonDecreasing(r, key)
  {
    if |s| == 0 then []
    else
      assert s == s[..|s| - 1] + [s[|s| - 1]];
      var sorted := SortAscending(s[..|s| - 1], key);
      InsertKeepsAscending(s[|s| - 1], sorted, key);
      InsertAscending(s[|s| - 1], sorted, key)
  }

  /** The order of Best Fit Dot Product and First Fit Decreasing Priority: largest size key first. */
  function DecreasingSize(v: Virtual.VirtualNet): (r: seq<NodeId>)
    ensures multiset(r) == multiset(v.nodes)
    ensures forall a, b :: 0 <= a < b < |r| ==> SizeKey(v)(r[a]) >= SizeKey(v)(r[b])
  {
    Placement.SortDescending(v.nodes, SizeKey(v))
  }

  /*
   * Best Fit Dot Product.
   */

  /** The score of an open bin for a node: (1/cost) * (1000 * req_cores * sum cores + req_memory * sum memory). */
  function DotBin(v: Virtual.VirtualNet, cat: Catalogue, c: nat, m: nat): BinState -> real
  {
    (b: BinState) => (1.0 / cat.spec(b.vmType).hourlyCost) *
         ((1000 * c * Load(v, Cores, b.items)) as real + (m * Load(v, Memory, b.items)) as real)
  }

  /** The score of a new type for a node: (1/cost) * (req_memory * memory + 1000 * req_cores * cores). */
  function DotType(cat: Catalogue, c: nat, m: nat): VmType -> real
  {
    t => (1.0 / cat.spec(t).hourlyCost) * ((m * cat.spec(t).memory) as real + (1000 * c * cat.spec(t).cores) as real)
  }

  function RoomFor(cat: Catalogue, c: nat, m: nat): BinState -> bool
  {
    b => Room(cat, b, c, m)
  }

  function FitsNode(cat: Catalogue, c: nat, m: nat): VmType -> bool
  {
    t => TypeFits(cat, c, m, t)
  }

  /**
   * One node of Best Fit Dot Product: the best-scoring open bin with room,
   * or else a new bin of the best-scoring type that fits; when no type fits,
   * max raises ValueError inside the except block.
   */
  method BfdpPlace(v: Virtual.VirtualNet, cat: Catalogue, bins: seq<Bin>, ghost done: set<NodeId>, u: NodeId)
    returns (bins': seq<Bin>, placed: bool)
    requires Separate(bins) && Packed(v, cat, States(bins), done) && u !in done
    modifies set b | b in bins
    ensures placed <==> !Unfit(v, cat, u)
    ensures placed ==> Separate(bins') && Packed(v, cat, States(bins'), done + {u})
    ensures forall b :: b in bins' ==> b in bins || fresh(b)
  {
    var c, m := CoresOf(v, u), MemoryOf(v, u);
    var states := States(bins);
    var selected := FirstMax(states, RoomFor(cat, c, m), DotBin(v, cat, c, m));
    if selected.Some? {
      JoinAt(v, cat, bins, done, selected.value, u);
      return bins, true;
    }
    var open := FirstMax(cat.options, FitsNode(cat, c, m), DotType(cat, c, m));
    if open.None? {
      return bins, false;
    }
    bins' := OpenNew(v, cat, bins, done, cat.options[open.value], u);
    placed := true;
  }

  /**
   * BestFitDotProduct.solve: the nodes, largest first, each into the open
   * bin of best dot-product score that has room, or else into a new bin of
   * the type of best score. It raises ValueError exactly when some node fits
   * no type; otherwise every node lands in exactly one bin and
   * build_solution accepts the bins.
   */
  method BestFitDotProduct(v: Virtual.VirtualNet, cat: Catalogue) returns (o: Outcome)
    requires Distinct(v.nodes)
    ensures o.Raised? <==> exists u :: u in v.nodes && Unfit(v, cat, u)
    ensures o.Raised? ==> o.error == ValueError
    ensures !o.Infeasible?
    ensures o.Solved? ==> Packs(v, cat, o.assignment) && BuildSolution(v, cat, o.assignment, true) == Ok(o.solution)
  {
    var order := DecreasingSize(v);
    OrderLists(v, order);
    var bins, failed := PackInOrder(v, cat, BestFitRule, order);
    if failed {
      return Raised(ValueError);
    }
    o := Finish(v, cat, order, States(bins));
  }

  /** build_solution on the bins once every node of the order is packed. */
  method Finish(v: Virtual.VirtualNet, cat: Catalogue, order: seq<NodeId>, states: seq<BinState>) returns (o: Outcome)
    requires Distinct(v.nodes) && multiset(order) == multiset(v.nodes)
    requires Packed(v, cat, states, Seen(order, |order|))
    requires forall j :: 0 <= j < |order| ==> !Unfit(v, cat, order[j])
    ensures o.Solved? && Packs(v, cat, o.assignment) && BuildSolution(v, cat, o.assignment, true) == Ok(o.solution)
    ensures forall u :: u in v.nodes ==> !Unfit(v, cat, u)
  {
    OrderLists(v, order);
    PackedVerifies(v, cat, states);
    var a := Enumerated(states);
    var sol := BuildSolution(v, cat, a, true);
    o := Outcome.Solved(a, sol.value);
    forall u | u in v.nodes ensures !Unfit(v, cat, u) {
      var j :| 0 <= j < |order| && order[j] == u;
    }
  }

  /*
   * First Fit Decreasing Priority.
   */

  /** sum(cores(vm) for vm in vm_options), or the same for memory. */
  function CatalogueTotal(cat: Catalogue, res: Resource): nat
  {
    SumBy(cat.options, (t: VmType) => if res == Cores then cat.spec(t).cores as nat else cat.spec(t).memory as nat)
  }

  lemma CatalogueTotalPositive(cat: Catalogue, res: Resource)
    requires |cat.options| > 0
    ensures CatalogueTotal(cat, res) > 0
  {
    SumByElement(cat.options, (t: VmType) => if res == Cores then cat.spec(t).cores as nat else cat.spec(t).memory as nat, 0);
  }

  /** alpha: per resource, the total demand over the total capacity of the catalogue. */
  datatype Alpha = Alpha(cores: real, memory: real)

  function AlphaOf(v: Virtual.VirtualNet, cat: Catalogue): (a: Alpha)
    requires |cat.options| > 0
    ensures a.cores >= 0.0 && a.memory >= 0.0
  {
    CatalogueTotalPositive(cat, Cores);
    CatalogueTotalPositive(cat, Memory);
    Alpha(LowerBound.Total(v, Cores) as real / CatalogueTotal(cat, Cores) as real,
          LowerBound.Total(v, Memory) as real / CatalogueTotal(cat, Memory) as real)
  }

  /** The rank of a type: (1/cost) * (alpha_cores * 1000 * cores + alpha_memory * memory). */
  function Priority(cat: Catalogue, alpha: Alpha): VmType -> real
  {
    t => (1.0 / cat.spec(t).hourlyCost) * (alpha.cores * 1000.0 * cat.spec(t).cores as real + alpha.memory * cat.spec(t).memory as real)
  }

  /** sorted_bin_types: the catalogue, highest priority first, ties in dictionary order. */
  function RankedTypes(cat: Catalogue, alpha: Alpha): (r: seq<VmType>)
    ensures multiset(r) == multiset(cat.options)
    ensures forall a, b :: 0 <= a < b < |r| ==> Priority(cat, alpha)(r[a]) >= Priority(cat, alpha)(r[b])
  {
    var r := SortAscending(cat.options, t => -Priority(cat, alpha)(t));
    assert forall a, b :: 0 <= a < b < |r| ==> -Priority(cat, alpha)(r[a]) <= -Priority(cat, alpha)(r[b]);
    r
  }

  /** The score of an open bin: (1/cost) * (sum of alpha_cores * 1000 * cores + sum of alpha_memory * memory). */
  function PriorityBin(v: Virtual.VirtualNet, cat: Catalogue, alpha: Alpha): BinState -> real
  {
    (b: BinState) => (1.0 / cat.spec(b.vmType).hourlyCost) *
      (alpha.cores * 1000.0 * Load(v, Cores, b.items) as real + alpha.memory * Load(v, Memory, b.items) as real)
  }

  /**
   * One node of First Fit Decreasing Priority: the open bin of highest
   * score with room, or else a new bin of the first ranked type that fits;
   * when none fits, next gives None.
   */
  method FfdpPlace(v: Virtual.VirtualNet, cat: Catalogue, alpha: Alpha, ranked: seq<VmType>,
                   bins: seq<Bin>, ghost done: set<NodeId>, u: NodeId)
    returns (bins': seq<Bin>, placed: bool)
    requires forall t :: t in ranked <==> t in cat.options
    requires Separate(bins) && Packed(v, cat, States(bins), done) && u !in done
    modifies set b | b in bins
    ensures placed <==> !Unfit(v, cat, u)
    ensures placed ==> Separate(bins') && Packed(v, cat, States(bins'), done + {u})
    ensures forall b :: b in bins' ==> b in bins || fresh(b)
  {
    var c, m := CoresOf(v, u), MemoryOf(v, u);
    var states := States(bins);
    var selected := FirstMax(states, RoomFor(cat, c, m), PriorityBin(v, cat, alpha));
    if selected.Some? {
      JoinAt(v, cat, bins, done, selected.value, u);
      return bins, true;
    }
    var open := FirstWhere(ranked, FitsNode(cat, c, m));
    if open.None? {
      assert forall t :: t in cat.options ==> !TypeFits(cat, c, m, t) by {
        forall t | t in cat.options ensures !TypeFits(cat, c, m, t) {
          var j :| 0 <= j < |ranked| && ranked[j] == t;
        }
      }
      return bins, false;
    }
    bins' := OpenNew(v, cat, bins, done, ranked[open.value], u);
    placed := true;
  }

  /**
   * FirstFitDecreasingPriority.solve: alpha divides by the catalogue's
   * total capacity, so an empty catalogue raises ZeroDivisionError; a node
   * that fits no type makes it Infeasible; otherwise every node lands in
   * exactly one bin and build_solution accepts the bins.
   */
  method FirstFitDecreasingPriority(v: Virtual.VirtualNet, cat: Catalogue) returns (o: Outcome)
    requires Distinct(v.nodes)
    ensures o.Raised? <==> |cat.options| == 0
    ensures o.Raised? ==> o.error == ZeroDivision
    ensures o.Infeasible? <==> |cat.options| > 0 && exists u :: u in v.nodes && Unfit(v, cat, u)
    ensures o.Solved? ==> Packs(v, cat, o.assignment) && BuildSolution(v, cat, o.assignment, true) == Ok(o.solution)
  {
    var order := DecreasingSize(v);
    OrderLists(v, order);
    if |cat.options| == 0 {
      return Raised(ZeroDivision);
    }
    var alpha := AlphaOf(v, cat);
    var ranked := RankedTypes(cat, alpha);
    assert forall t :: t in ranked <==> t in cat.options by {
      forall t ensures t in ranked <==> t in cat.options {
        assert t in ranked <==> t in multiset(ranked);
        assert t in cat.options <==> t in multiset(cat.options);
      }
    }
    var bins, failed := PackInOrder(v, cat, PriorityRule(alpha, ranked), order);
    if failed {
      return Outcome.Infeasible;
    }
    o := Finish(v, cat, order, States(bins));
  }

  /*
   * First Fit Ordered Deviation.
   */

  /** A node asking for no cores and no memory: its deviation divides by zero. */
  predicate Weightless(v: Virtual.VirtualNet, u: NodeId)
  {
    CoresOf(v, u) == 0 && MemoryOf(v, u) == 0
  }

  /**
   * |memory - 1000 * cores| / (memory + 1000 * cores); the order is only
   * built once no node is weightless, so the denominator is positive there.
   */
  function Deviation(v: Virtual.VirtualNet): NodeId -> real
  {
    u =>
      var c, m := 1000 * CoresOf(v, u), MemoryOf(v, u);
      if c + m == 0 then 0.0 else (if m >= c then m - c else c - m) as real / (m + c) as real
  }

  function Larger(a: real, b: real): real
  {
    if b > a then b else a
  }

  /** The cost of a new instance for a node: cost * max(req_cores / cores, req_memory / memory). */
  function TypeCost(cat: Catalogue, c: nat, m: nat, t: VmType): real
  {
    cat.spec(t).hourlyCost * Larger(c as real / cat.spec(t).cores as real, m as real / cat.spec(t).memory as real)
  }

  function NewCost(cat: Catalogue, c: nat, m: nat): VmType -> real
  {
    t => TypeCost(cat, c, m, t)
  }

  /** The cost of an open bin for a node, by which resource the bin already leans on. */
  function OpenCost(cat: Catalogue, c: nat, m: nat, b: BinState): real
  {
    var s := cat.spec(b.vmType);
    var rc, rm := c as real / s.cores as real, m as real / s.memory as real;
    var uc, um := b.usedCores as real / s.cores as real, b.usedMemory as real / s.memory as real;
    s.hourlyCost * (if uc > um then Larger(rc, rm - uc + um) else Larger(rm, rc + uc - um))
  }

  function DeviationCost(cat: Catalogue, c: nat, m: nat): BinState -> real
  {
    (b: BinState) => OpenCost(cat, c, m, b)
  }

  /**
   * One node of First Fit Ordered Deviation: the cheapest new type is found
   * first (ValueError when none fits); the node goes to the cheapest open
   * bin with room when that costs no more, and to a new bin of that type
   * otherwise.
   */
  method FfodPlace(v: Virtual.VirtualNet, cat: Catalogue, bins: seq<Bin>, ghost done: set<NodeId>, u: NodeId)
    returns (bins': seq<Bin>, placed: bool)
    requires Separate(bins) && Packed(v, cat, States(bins), done) && u !in done
    modifies set b | b in bins
    ensures placed <==> !Unfit(v, cat, u)
    ensures placed ==> Separate(bins') && Packed(v, cat, States(bins'), done + {u})
    ensures forall b :: b in bins' ==> b in bins || fresh(b)
  {
    var c, m := CoresOf(v, u), MemoryOf(v, u);
    var cheapestNew := FirstMin(cat.options, FitsNode(cat, c, m), NewCost(cat, c, m));
    if cheapestNew.None? {
      return bins, false;
    }
    var typeNew := cat.options[cheapestNew.value];
    var costNew := TypeCost(cat, c, m, typeNew);
    var states := States(bins);
    var cheapestOpen := FirstMin(states, RoomFor(cat, c, m), DeviationCost(cat, c, m));
    if cheapestOpen.Some? && OpenCost(cat, c, m, states[cheapestOpen.value]) <= costNew {
      JoinAt(v, cat, bins, done, cheapestOpen.value, u);
      return bins, true;
    }
    bins' := OpenNew(v, cat, bins, done, typeNew, u);
    placed := true;
  }

  /**
   * FirstFitOrderedDeviation.solve: a weightless node makes the sort key
   * divide by zero; otherwise a node that fits no type raises ValueError;
   * otherwise every node lands in exactly one bin and build_solution
   * accepts the bins. It never reports Infeasible.
   */
  method FirstFitOrderedDeviation(v: Virtual.VirtualNet, cat: Catalogue) returns (o: Outcome)
    requires Distinct(v.nodes)
    ensures o == Raised(ZeroDivision) <==> exists u :: u in v.nodes && Weightless(v, u)
    ensures o == Raised(ValueError) <==>
      (forall u :: u in v.nodes ==> !Weightless(v, u)) && exists u :: u in v.nodes && Unfit(v, cat, u)
    ensures o.Raised? ==> o.error == ZeroDivision || o.error == ValueError
    ensures !o.Infeasible?
    ensures o.Solved? ==> Packs(v, cat, o.assignment) && BuildSolution(v, cat, o.assignment, true) == Ok(o.solution)
  {
    if exists u :: u in v.nodes && Weightless(v, u) {
      return Raised(ZeroDivision);
    }
    var order := SortAscending(v.nodes, Deviation(v));
    OrderLists(v, order);
    var bins, failed := PackInOrder(v, cat, DeviationRule, order);
    if failed {
      return Raised(ValueError);
    }
    o := Finish(v, cat, order, States(bins));
  }

  /*
   * The greedy first fit with upgrades.
   */

  /** Upgrading the bin to t beats opening a new bin of the node's own cheapest type; t must be truthy. */
  predicate Worth(cat: Catalogue, b: BinState, t: VmType, single: VmType)
  {
    |t| > 0 && cat.spec(t).hourlyCost < cat.spec(single).hourlyCost + cat.spec(b.vmType).hourlyCost
  }

  /** _get_cheapest_feasible for the bin's load plus the node. */
  function UpgradeOf(cat: Catalogue, b: BinState, c: nat, m: nat): (r: Result<VmType>)
    ensures r.Err? ==> r.error == ValueError
    ensures r.Ok? ==> r.value in cat.options && Fits(cat.spec(r.value), b.usedCores + c, b.usedMemory + m)
  {
    CheapestFeasible(cat, b.usedCores + c, b.usedMemory + m)
  }

  /** The bin plus the node fits some type, but upgrading to the cheapest one does not pay. */
  predicate Declines(cat: Catalogue, b: BinState, c: nat, m: nat, single: VmType)
  {
    var up := UpgradeOf(cat, b, c, m);
    up.Ok? && !Worth(cat, b, up.value, single)
  }

  /** Every bin from position j on declines the upgrade. */
  predicate DeclinedFrom(cat: Catalogue, states: seq<BinState>, c: nat, m: nat, single: VmType, j: nat)
  {
    forall i :: j <= i < |states| ==> Declines(cat, states[i], c, m, single)
  }

  /**
   * Scanning newest first, some bin that together with the node fits no
   * type is reached: every bin after it declines the upgrade.
   */
  predicate ScanRaises(cat: Catalogue, states: seq<BinState>, c: nat, m: nat, single: VmType)
  {
    exists j :: 0 <= j < |states| && UpgradeOf(cat, states[j], c, m).Err? && DeclinedFrom(cat, states, c, m, single, j + 1)
  }

  /** The first open bin, in creation order, with room for the node. */
  method FirstFitting(cat: Catalogue, states: seq<BinState>, c: nat, m: nat) returns (k: Option<nat>)
    ensures k.None? <==> forall j :: 0 <= j < |states| ==> !Room(cat, states[j], c, m)
    ensures k.Some? ==> k.value < |states| && Room(cat, states[k.value], c, m)
    ensures k.Some? ==> forall j :: 0 <= j < k.value ==> !Room(cat, states[j], c, m)
  {
    for j := 0 to |states|
      invariant forall i :: 0 <= i < j ==> !Room(cat, states[i], c, m)
    {
      if Room(cat, states[j], c, m) {
        return Some(j);
      }
    }
    return None;
  }

  /**
   * The upgrade scan, newest bin first: the first bin whose upgrade pays is
   * chosen; a bin that together with the node fits no type makes
   * _get_cheapest_feasible raise ValueError before any later choice.
   */
  method ScanUpgrades(cat: Catalogue, states: seq<BinState>, c: nat, m: nat, single: VmType)
    returns (r: Result<Option<(nat, VmType)>>)
    ensures r.Err? ==> r.error == ValueError
    ensures r.Err? <==> ScanRaises(cat, states, c, m, single)
    ensures r == Ok(None) ==> DeclinedFrom(cat, states, c, m, single, 0)
    ensures r.Ok? && r.value.Some? ==> (r.value.value.0 < |states| &&
      UpgradeOf(cat, states[r.value.value.0], c, m) == Ok(r.value.value.1) &&
      Worth(cat, states[r.value.value.0], r.value.value.1, single) &&
      DeclinedFrom(cat, states, c, m, single, r.value.value.0 + 1))
  {
    var j := |states|;
    while j > 0
      invariant 0 <= j <= |states|
      invariant DeclinedFrom(cat, states, c, m, single, j)
    {
      j := j - 1;
      DeclinedStep(cat, states, c, m, single, j);
      var up := UpgradeOf(cat, states[j], c, m);
      if up.Err? {
        RaisesAt(cat, states, c, m, single, j);
        return Err(ValueError);
      }
      if Worth(cat, states[j], up.value, single) {
        ChosenNoRaise(cat, states, c, m, single, j);
        return Ok(Some((j, up.value)));
      }
    }
    DeclinedNoRaise(cat, states, c, m, single);
    return Ok(None);
  }

  /** The bins from j on decline when bin j does and those after it do. */
  lemma DeclinedStep(cat: Catalogue, states: seq<BinState>, c: nat, m: nat, single: VmType, j: nat)
    requires j < |states|
    ensures DeclinedFrom(cat, states, c, m, single, j) <==>
      Declines(cat, states[j], c, m, single) && DeclinedFrom(cat, states, c, m, single, j + 1)
  {
  }

  /** A bin that fits no type, reached after every later bin declined, raises. */
  lemma RaisesAt(cat: Catalogue, states: seq<BinState>, c: nat, m: nat, single: VmType, j: nat)
    requires j < |states| && UpgradeOf(cat, states[j], c, m).Err? && DeclinedFrom(cat, states, c, m, single, j + 1)
    ensures ScanRaises(cat, states, c, m, single)
  {
  }

  /** A bin whose upgrade pays, reached after every later bin declined, stops the scan before any raise. */
  lemma ChosenNoRaise(cat: Catalogue, states: seq<BinState>, c: nat, m: nat, single: VmType, j: nat)
    requires j < |states| && UpgradeOf(cat, states[j], c, m).Ok?
    requires Worth(cat, states[j], UpgradeOf(cat, states[j], c, m).value, single)
    requires DeclinedFrom(cat, states, c, m, single, j + 1)
    ensures !ScanRaises(cat, states, c, m, single)
  {
    forall i | 0 <= i < |states|
      ensures UpgradeOf(cat, states[i], c, m).Err? ==> !DeclinedFrom(cat, states, c, m, single, i + 1)
    {
      if i < j {
        assert !Declines(cat, states[j], c, m, single);
      } else if i > j {
        assert Declines(cat, states[i], c, m, single);
      }
    }
  }

  /** When every bin declines, none fits no type. */
  lemma DeclinedNoRaise(cat: Catalogue, states: seq<BinState>, c: nat, m: nat, single: VmType)
    requires DeclinedFrom(cat, states, c, m, single, 0)
    ensures !ScanRaises(cat, states, c, m, single)
  {
    forall i | 0 <= i < |states|
      ensures UpgradeOf(cat, states[i], c, m).Ok?
    {
      assert Declines(cat, states[i], c, m, single);
    }
  }

  /**
   * One catalogue type of 2 vCPUs and 2 units of memory, one bin already
   * full with a node of that size, and a second node of the same size: the
   * node fits the type on its own, so a new bin would take it, yet the bin
   * plus the node fits no type, and the scan as written raises ValueError
   * instead of passing the bin over.
   */
  lemma UpgradeScanRaises()
    ensures var cat := Catalogue(["m"], _ => VmSpec(2, 2, 1.0));
      var b := BinState("m", {1}, 2, 2);
      CheapestFeasible(cat, 2, 2) == Ok("m") && !Room(cat, b, 2, 2) && ScanRaises(cat, [b], 2, 2, "m")
  {
    var cat := Catalogue(["m"], _ => VmSpec(2, 2, 1.0));
    var b := BinState("m", {1}, 2, 2);
    assert TypeFits(cat, 2, 2, "m");
    assert !TypeFits(cat, 4, 4, "m");
    assert UpgradeOf(cat, b, 2, 2).Err?;
    assert [b][0] == b && DeclinedFrom(cat, [b], 2, 2, "m", 1);
  }

  /**
   * The bin is passed over: together with the node it fits no type, or its
   * cheapest upgrade does not pay. This is what the guard `if vm_to_upgrade`
   * evidently expects of a lookup that yields nothing instead of raising.
   */
  predicate Passes(cat: Catalogue, b: BinState, c: nat, m: nat, single: VmType)
  {
    var up := UpgradeOf(cat, b, c, m);
    up.Err? || !Worth(cat, b, up.value, single)
  }

  /** Every bin from position j on is passed over. */
  predicate PassedFrom(cat: Catalogue, states: seq<BinState>, c: nat, m: nat, single: VmType, j: nat)
  {
    forall i :: j <= i < |states| ==> Passes(cat, states[i], c, m, single)
  }

  /** The bins from j on are passed over when bin j is and those after it are. */
  lemma PassedStep(cat: Catalogue, states: seq<BinState>, c: nat, m: nat, single: VmType, j: nat)
    requires j < |states|
    ensures PassedFrom(cat, states, c, m, single, j) <==>
      Passes(cat, states[j], c, m, single) && PassedFrom(cat, states, c, m, single, j + 1)
  {
  }

  /** The upgrade scan, newest bin first, with bins that fit no type passed over. */
  method ScanWorthUpgrades(cat: Catalogue, states: seq<BinState>, c: nat, m: nat, single: VmType)
    returns (r: Option<(nat, VmType)>)
    ensures r.None? <==> PassedFrom(cat, states, c, m, single, 0)
    ensures r.Some? ==> (r.value.0 < |states| &&
      UpgradeOf(cat, states[r.value.0], c, m) == Ok(r.value.1) &&
      Worth(cat, states[r.value.0], r.value.1, single) &&
      PassedFrom(cat, states, c, m, single, r.value.0 + 1))
  {
    var j := |states|;
    while j > 0
      invariant 0 <= j <= |states|
      invariant PassedFrom(cat, states, c, m, single, j)
    {
      j := j - 1;
      PassedStep(cat, states, c, m, single, j);
      var up := UpgradeOf(cat, states[j], c, m);
      if up.Ok? && Worth(cat, states[j], up.value, single) {
        PassedNot(cat, states, c, m, single, j);
        return Some((j, up.value));
      }
    }
    return None;
  }

  /** A bin that is not passed over stops every run of passed-over bins through it. */
  lemma PassedNot(cat: Catalogue, states: seq<BinState>, c: nat, m: nat, single: VmType, j: nat)
    requires j < |states| && !Passes(cat, states[j], c, m, single)
    ensures !PassedFrom(cat, states, c, m, single, 0)
  {
  }

  /**
   * No open bin has room: the upgrade scan, newest bin first, and else a
   * new bin of the node's cheapest type single. The scan passes over a bin
   * that together with the node fits no type.
   */
  method UpgradeOrOpen(v: Virtual.VirtualNet, cat: Catalogue, bins: seq<Bin>, ghost done: set<NodeId>, u: NodeId, single: VmType)
    returns (bins': seq<Bin>)
    requires Separate(bins) && Packed(v, cat, States(bins), done) && u !in done
    requires single in cat.options && TypeFits(cat, CoresOf(v, u), MemoryOf(v, u), single)
    modifies set b | b in bins
    ensures Separate(bins') && Packed(v, cat, States(bins'), done + {u})
    ensures forall b :: b in bins' ==> b in bins || fresh(b)
  {
    var c, m := CoresOf(v, u), MemoryOf(v, u);
    var states := States(bins);
    var up := ScanWorthUpgrades(cat, states, c, m, single);
    if up.Some? {
      var j, t := up.value.0, up.value.1;
      assert UpgradeOf(cat, states[j], c, m) == Ok(t);
      UpgradeAt(v, cat, bins, done, j, t, u);
      return bins;
    }
    bins' := OpenNew(v, cat, bins, done, single, u);
  }

  /**
   * One node of the greedy heuristic: the first open bin with room; else
   * the node's cheapest type (ValueError when none fits), then the upgrade
   * scan or a new bin. A false placed stands for that ValueError.
   */
  method GreedyPlace(v: Virtual.VirtualNet, cat: Catalogue, bins: seq<Bin>, ghost done: set<NodeId>, u: NodeId)
    returns (bins': seq<Bin>, placed: bool)
    requires Separate(bins) && Packed(v, cat, States(bins), done) && u !in done
    modifies set b | b in bins
    ensures placed <==> !Unfit(v, cat, u)
    ensures placed ==> Separate(bins') && Packed(v, cat, States(bins'), done + {u})
    ensures forall b :: b in bins' ==> b in bins || fresh(b)
  {
    var c, m := CoresOf(v, u), MemoryOf(v, u);
    var k := FirstFitting(cat, States(bins), c, m);
    if k.Some? {
      JoinAt(v, cat, bins, done, k.value, u);
      return bins, true;
    }
    var single := CheapestFeasible(cat, c, m);
    if single.Err? {
      return bins, false;
    }
    assert !Unfit(v, cat, u) by {
      assert TypeFits(cat, c, m, single.value);
    }
    bins' := UpgradeOrOpen(v, cat, bins, done, u, single.value);
    placed := true;
  }

  /**
   * PackGreedy.solve: the largest-type lookups raise ValueError on an empty
   * catalogue, and so does a node that fits no type, and nothing else
   * raises once the upgrade scan passes over bins that fit no type; a Solved
   * outcome packs every node once, in bins that build_solution accepts. It
   * never reports Infeasible.
   */
  method PackGreedy(v: Virtual.VirtualNet, cat: Catalogue) returns (o: Outcome)
    requires Distinct(v.nodes)
    ensures o.Raised? <==> |cat.options| == 0 || exists u :: u in v.nodes && Unfit(v, cat, u)
    ensures o.Raised? ==> o.error == ValueError
    ensures !o.Infeasible?
    ensures o.Solved? ==> Packs(v, cat, o.assignment) && BuildSolution(v, cat, o.assignment, true) == Ok(o.solution)
  {
    if |cat.options| == 0 {
      return Raised(ValueError);
    }
    var nodes := v.nodes;
    var bins, failed := PackInOrder(v, cat, UpgradeRule, nodes);
    if failed {
      return Raised(ValueError);
    }
    o := Finish(v, cat, nodes, States(bins));
  }

  /*
   * The loop the four heuristics share.
   */

  /** How one node is placed: the rule of each heuristic; First Fit Decreasing Priority carries its ranking. */
  datatype Rule = BestFitRule | PriorityRule(alpha: Alpha, ranked: seq<VmType>) | DeviationRule | UpgradeRule

  /** The ranking of First Fit Decreasing Priority lists the catalogue's types. */
  ghost predicate RuleFor(cat: Catalogue, rule: Rule)
  {
    rule.PriorityRule? ==> forall t :: t in rule.ranked <==> t in cat.options
  }

  /** One node placed by the heuristic's rule: placed exactly when some type fits it. */
  method PlaceBy(v: Virtual.VirtualNet, cat: Catalogue, rule: Rule, bins: seq<Bin>, ghost done: set<NodeId>, u: NodeId)
    returns (bins': seq<Bin>, placed: bool)
    requires RuleFor(cat, rule)
    requires Separate(bins) && Packed(v, cat, States(bins), done) && u !in done
    modifies set b | b in bins
    ensures placed <==> !Unfit(v, cat, u)
    ensures placed ==> Separate(bins') && Packed(v, cat, States(bins'), done + {u})
    ensures forall b :: b in bins' ==> b in bins || fresh(b)
  {
    match rule {
      case BestFitRule => bins', placed := BfdpPlace(v, cat, bins, done, u);
      case PriorityRule(alpha, ranked) => bins', placed := FfdpPlace(v, cat, alpha, ranked, bins, done, u);
      case DeviationRule => bins', placed := FfodPlace(v, cat, bins, done, u);
      case UpgradeRule => bins', placed := GreedyPlace(v, cat, bins, done, u);
    }
  }

  /**
   * for u in order: place u by the rule. The loop stops at the first node
   * that fits no type (the heuristic then raises or gives up); otherwise the
   * bins end holding every node of the order once.
   */
  method PackInOrder(v: Virtual.VirtualNet, cat: Catalogue, rule: Rule, order: seq<NodeId>)
    returns (bins: seq<Bin>, failed: bool)
    requires RuleFor(cat, rule) && Distinct(order)
    ensures failed <==> exists j :: 0 <= j < |order| && Unfit(v, cat, order[j])
    ensures !failed ==> Separate(bins) && Packed(v, cat, States(bins), Seen(order, |order|))
  {
    bins := [];
    PackedEmpty(v, cat);
    for i := 0 to |order|
      invariant Separate(bins) && forall b :: b in bins ==> fresh(b)
      invariant Packed(v, cat, States(bins), Seen(order, i))
      invariant forall j :: 0 <= j < i ==> !Unfit(v, cat, order[j])
    {
      SeenNext(order, i);
      var placed;
      bins, placed := PlaceBy(v, cat, rule, bins, Seen(order, i), order[i]);
      if !placed {
        return bins, true;
      }
    }
    failed := false;
  }

  /*
   * solve on a PackingSolver.
   */

  datatype Heuristic = Bfdp | Ffdp | Ffod | Greedy

  /**
   * solve: run the heuristic on the solver's nodes and catalogue and record
   * its end. A raise leaves the solver as it was; otherwise the status is
   * the one returned, and Solved records a solution that packs every node
   * once in instances build_solution accepts.
   */
  method Solve(solver: PackingSolver, h: Heuristic) returns (r: Result<Status>)
    requires Distinct(solver.virtual.nodes)
    modifies solver
    ensures r.Err? ==> solver.status == old(solver.status) && solver.solution == old(solver.solution)
    ensures r.Ok? ==> r.value != NotSolved && solver.status == r.value
    ensures r == Ok(Status.Infeasible) ==> solver.solution == old(solver.solution)
    ensures r == Ok(Status.Solved) ==> solver.solution.Some?
    ensures r == Ok(Status.Solved) ==> exists a :: (Packs(solver.virtual, solver.physical, a) &&
      BuildSolution(solver.virtual, solver.physical, a, true) == Ok(solver.solution.value))
  {
    var o: Outcome;
    match h {
      case Bfdp => o := BestFitDotProduct(solver.virtual, solver.physical);
      case Ffdp => o := FirstFitDecreasingPriority(solver.virtual, solver.physical);
      case Ffod => o := FirstFitOrderedDeviation(solver.virtual, solver.physical);
      case Greedy => o := PackGreedy(solver.virtual, solver.physical);
    }
    r := solver.Record(o);
  }
}
