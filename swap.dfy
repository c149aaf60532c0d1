/**
 * get_partitions of the partition heuristics (the same function in the
 * current library, the mapping revision and the grid5000 heuristic2): the
 * shuffled virtual nodes are dealt round-robin into n_partitions bins, then
 * n_swaps random pairs of nodes in different bins are swapped, a swap being
 * kept only when it strictly lowers the cut weight; the bins are returned in
 * the order their first node appears. The shuffle and the random pairs are
 * oracle inputs.
 */
module SwapPartition {
  import opened Common
  import Virtual

  /** The default n_swaps. */
  const NSwaps: nat := 100

  /** nodes_partition: the bin of each node. */
  type Bins = map<NodeId, nat>

  /** Every link has both ends in a bin. */
  predicate Covers(links: seq<Virtual.VLink>, part: Bins)
  {
    forall t :: 0 <= t < |links| ==> links[t].u in part && links[t].v in part
  }

  function TotalRate(links: seq<Virtual.VLink>): nat
  {
    if |links| == 0 then 0 else TotalRate(links[..|links| - 1]) + links[|links| - 1].rate
  }

  /** The cut weight: the summed rate of the links whose ends are in different bins. */
  function CutCost(links: seq<Virtual.VLink>, part: Bins): (c: nat)
    requires Covers(links, part)
    ensures c <= TotalRate(links)
    ensures c == 0 <== forall t :: 0 <= t < |links| ==> part[links[t].u] == part[links[t].v]
  {
    if |links| == 0 then 0
    else
      var l := links[|links| - 1];
      CutCost(links[..|links| - 1], part) + (if part[l.u] != part[l.v] then l.rate else 0)
  }

  /** `id_node % n_partitions` for each node of the shuffled list. */
  function RoundRobin(order: seq<NodeId>, n: nat): (part: Bins)
    requires Distinct(order) && n > 0
    ensures forall x :: x in part <==> x in order
    ensures forall i :: 0 <= i < |order| ==> order[i] in part && part[order[i]] == i % n
  {
    if |order| == 0 then map[]
    else
      var m := |order| - 1;
      var init := order[..m];
      assert forall i :: 0 <= i < m ==> init[i] == order[i];
      assert forall x :: x in init <==> exists i :: 0 <= i < m && order[i] == x;
      RoundRobin(init, n)[order[m] := m % n]
  }

  /** Every node of the list has a bin. */
  predicate Placed(order: seq<NodeId>, part: Bins)
  {
    forall i :: 0 <= i < |order| ==> order[i] in part
  }

  /** How many nodes of the list sit in bin b. */
  function Members(order: seq<NodeId>, part: Bins, b: nat): nat
    requires Placed(order, part)
  {
    if |order| == 0 then 0
    else Members(order[..|order| - 1], part, b) + (if part[order[|order| - 1]] == b then 1 else 0)
  }

  /** The size of bin b after dealing m nodes round-robin into n bins. */
  function Dealt(m: nat, n: nat, b: nat): nat
    requires n > 0
  {
    if b < n then m / n + (if b < m % n then 1 else 0) else 0
  }

  lemma DivModUnique(a: nat, n: nat, q: nat, r: nat)
    requires n > 0 && a == q * n + r && r < n
    ensures a / n == q && a % n == r
  {
    var q' := a / n;
    if q' < q {
      MulMono(q' + 1, q, n);
    } else if q < q' {
      MulMono(q + 1, q', n);
    }
  }

  lemma MulMono(x: nat, y: nat, n: nat)
    requires x <= y
    ensures x * n <= y * n
  {
  }

  /** Dealing one more node adds it to bin m mod n. */
  lemma DealtStep(m: nat, n: nat, b: nat)
    requires n > 0
    ensures Dealt(m + 1, n, b) == Dealt(m, n, b) + (if b == m % n then 1 else 0)
  {
    var q, r := m / n, m % n;
    assert m == q * n + r;
    if r + 1 < n {
      DivModUnique(m + 1, n, q, r + 1);
    } else {
      DivModUnique(m + 1, n, q + 1, 0);
    }
  }

  /** Round-robin dealing fills bin b with Dealt(|order|, n, b) nodes. */
  lemma {:induction false} RoundRobinSizes(order: seq<NodeId>, n: nat, j: nat, b: nat)
    requires Distinct(order) && n > 0 && j <= |order|
    ensures Members(order[..j], RoundRobin(order, n), b) == Dealt(j, n, b)
  {
    var part := RoundRobin(order, n);
    if j == 0 {
      assert Dealt(0, n, b) == 0 by {
        if b < n {
          DivModUnique(0, n, 0, 0);
        }
      }
    } else {
      RoundRobinSizes(order, n, j - 1, b);
      assert order[..j][..j - 1] == order[..j - 1];
      DealtStep(j - 1, n, b);
      if b >= n {
        assert part[order[j - 1]] < n;
      }
    }
  }

  /** Round-robin bins differ in size by at most one. */
  lemma DealtBalanced(m: nat, n: nat, b: nat)
    requires n > 0 && b < n
    ensures m / n <= Dealt(m, n, b) <= m / n + 1
  {
  }

  /*
   * The swap loop.
   */

  /** random.sample(nodes, k=2): two different nodes of the list. */
  predicate Drawn(order: seq<NodeId>, pick: (NodeId, NodeId))
  {
    pick.0 in order && pick.1 in order && pick.0 != pick.1
  }

  /** One iteration: skip a pair in one bin; else swap, and keep the swap only if the cut weight drops. */
  function Step(links: seq<Virtual.VLink>, part: Bins, pick: (NodeId, NodeId)): Bins
    requires Covers(links, part) && pick.0 in part && pick.1 in part
  {
    if part[pick.0] == part[pick.1] then part
    else
      var swapped := part[pick.0 := part[pick.1]][pick.1 := part[pick.0]];
      if CutCost(links, swapped) < CutCost(links, part) then swapped else part
  }

  /** The bins after every drawn pair has been tried, in order. */
  function Climb(links: seq<Virtual.VLink>, part: Bins, picks: seq<(NodeId, NodeId)>): (r: Bins)
    requires Covers(links, part) && forall k :: 0 <= k < |picks| ==> picks[k].0 in part && picks[k].1 in part
    ensures r.Keys == part.Keys
    decreases |picks|
  {
    if |picks| == 0 then part
    else Climb(links, Step(links, part, picks[0]), picks[1..])
  }

  /** A swap keeps the cut weight or lowers it. */
  lemma StepNoWorse(links: seq<Virtual.VLink>, part: Bins, pick: (NodeId, NodeId))
    requires Covers(links, part) && pick.0 in part && pick.1 in part
    ensures Step(links, part, pick).Keys == part.Keys
    ensures CutCost(links, Step(links, part, pick)) <= CutCost(links, part)
  {
  }

  /** Exchanging the bins of two different nodes leaves the size of every bin as it was. */
  lemma {:induction false} SwapSizes(order: seq<NodeId>, part: Bins, x: NodeId, y: NodeId, b: nat)
    requires Distinct(order) && Placed(order, part) && x in part && y in part && x != y
    requires x in order <==> y in order
    ensures Members(order, part[x := part[y]][y := part[x]], b) == Members(order, part, b)
    decreases |order|
  {
    var swapped := part[x := part[y]][y := part[x]];
    if |order| > 0 {
      var last := order[|order| - 1];
      var init := order[..|order| - 1];
      assert forall i, j :: 0 <= i < j < |init| ==> init[i] != init[j] by {
        forall i, j | 0 <= i < j < |init| ensures init[i] != init[j] {
          assert init[i] == order[i] && init[j] == order[j];
        }
      }
      if last == x || last == y {
        var other := if last == x then y else x;
        assert other in init by {
          var k :| 0 <= k < |order| && order[k] == other;
          assert k != |order| - 1;
          assert init[k] == other;
        }
        assert last !in init;
        assert swapped == part[last := part[other]][other := part[last]];
        OneSwapped(init, part, last, other, b);
        assert Members(init, swapped, b) + (if swapped[last] == b then 1 else 0) ==
               Members(init, part, b) + (if part[last] == b then 1 else 0);
      } else {
        assert x in init <==> y in init;
        SwapSizes(init, part, x, y, b);
      }
    }
  }

  /**
   * When only one of the two swapped nodes is in the list, that node now
   * counts in the other's bin.
   */
  lemma {:induction false} OneSwapped(order: seq<NodeId>, part: Bins, out: NodeId, inside: NodeId, b: nat)
    requires Placed(order, part) && out in part && inside in part && out != inside
    requires out !in order && inside in order && Distinct(order)
    ensures Members(order, part[out := part[inside]][inside := part[out]], b) + (if part[inside] == b then 1 else 0) ==
            Members(order, part, b) + (if part[out] == b then 1 else 0)
    decreases |order|
  {
    var swapped := part[out := part[inside]][inside := part[out]];
    var last := order[|order| - 1];
    var init := order[..|order| - 1];
    assert forall i, j :: 0 <= i < j < |init| ==> init[i] != init[j] by {
      forall i, j | 0 <= i < j < |init| ensures init[i] != init[j] {
        assert init[i] == order[i] && init[j] == order[j];
      }
    }
    if last == inside {
      assert inside !in init;
      Unswapped(init, part, out, inside, b);
    } else {
      assert inside in init by {
        var k :| 0 <= k < |order| && order[k] == inside;
        assert init[k] == inside;
      }
      OneSwapped(init, part, out, inside, b);
    }
  }

  /** A swap of two nodes outside the list changes none of its counts. */
  lemma {:induction false} Unswapped(order: seq<NodeId>, part: Bins, x: NodeId, y: NodeId, b: nat)
    requires Placed(order, part) && x in part && y in part
    requires x !in order && y !in order
    ensures Members(order, part[x := part[y]][y := part[x]], b) == Members(order, part, b)
    decreases |order|
  {
    if |order| > 0 {
      var init := order[..|order| - 1];
      assert forall z :: z in init ==> z in order;
      Unswapped(init, part, x, y, b);
    }
  }

  /** Every bin number of a map is below n. */
  predicate Below(part: Bins, n: nat)
  {
    forall x :: x in part ==> part[x] < n
  }

  /**
   * The hill climb never raises the cut weight, keeps every node in some bin
   * below n, and never changes the size of a bin.
   */
  lemma {:induction false} ClimbKeeps(links: seq<Virtual.VLink>, order: seq<NodeId>, part: Bins, picks: seq<(NodeId, NodeId)>,
                                      n: nat, b: nat)
    requires Covers(links, part) && Distinct(order) && Placed(order, part) && Below(part, n)
    requires forall x :: x in part ==> x in order
    requires forall k :: 0 <= k < |picks| ==> Drawn(order, picks[k]) && picks[k].0 in part && picks[k].1 in part
    ensures CutCost(links, Climb(links, part, picks)) <= CutCost(links, part)
    ensures Below(Climb(links, part, picks), n)
    ensures Members(order, Climb(links, part, picks), b) == Members(order, part, b)
    decreases |picks|
  {
    if |picks| > 0 {
      var pick := picks[0];
      var next := Step(links, part, pick);
      StepNoWorse(links, part, pick);
      if next != part {
        SwapSizes(order, part, pick.0, pick.1, b);
      }
      ClimbKeeps(links, order, next, picks[1..], n, b);
    }
  }

  /**
   * The loop `for _ in range(n_swaps)`: the running old_cost is the cut
   * weight of the current bins, and the bins end as the hill climb says.
   */
  method HillClimb(links: seq<Virtual.VLink>, start: Bins, picks: seq<(NodeId, NodeId)>)
    returns (part: Bins, cost: nat)
    requires Covers(links, start) && forall k :: 0 <= k < |picks| ==> picks[k].0 in start && picks[k].1 in start
    ensures part == Climb(links, start, picks) && cost == CutCost(links, part)
  {
    part := start;
    cost := CutCost(links, part);
    var k := 0;
    while k < |picks|
      invariant 0 <= k <= |picks| && part.Keys == start.Keys && Covers(links, part)
      invariant Climb(links, part, picks[k..]) == Climb(links, start, picks)
      invariant cost == CutCost(links, part)
    {
      var (x, y) := picks[k];
      assert picks[k..][1..] == picks[k + 1..];
      ghost var before := part;
      assert Climb(links, before, picks[k..]) == Climb(links, Step(links, before, (x, y)), picks[k + 1..]);
      if part[x] != part[y] {
        var binX, binY := part[x], part[y];
        part := part[x := binY][y := binX];
        var newCost := CutCost(links, part);
        if newCost < cost {
          cost := newCost;
        } else {
          part := part[x := binX][y := binY];
          assert part == before;
        }
      }
      assert part == Step(links, before, (x, y));
      k := k + 1;
    }
  }

  /*
   * Collecting the bins.
   */

  function Flatten(groups: seq<seq<NodeId>>): seq<NodeId>
  {
    if |groups| == 0 then [] else Flatten(groups[..|groups| - 1]) + groups[|groups| - 1]
  }

  lemma {:induction false} FlattenGrow(groups: seq<seq<NodeId>>, p: nat, x: NodeId)
    requires p < |groups|
    ensures multiset(Flatten(groups[p := groups[p] + [x]])) == multiset(Flatten(groups)) + multiset{x}
    decreases |groups|
  {
    var grown := groups[p := groups[p] + [x]];
    var n := |groups|;
    assert grown[..n - 1] == if p == n - 1 then groups[..n - 1] else groups[..n - 1][p := groups[p] + [x]];
    if p < n - 1 {
      FlattenGrow(groups[..n - 1], p, x);
    }
  }

  /** A node is in the flattened bins exactly when one of the bins holds it. */
  lemma {:induction false} InFlatten(groups: seq<seq<NodeId>>, x: NodeId)
    ensures x in Flatten(groups) <==> exists k :: 0 <= k < |groups| && x in groups[k]
    decreases |groups|
  {
    var n := |groups|;
    if n > 0 {
      InFlatten(groups[..n - 1], x);
      if x !in groups[n - 1] && x in Flatten(groups) {
        var k :| 0 <= k < n - 1 && x in groups[..n - 1][k];
        assert groups[k] == groups[..n - 1][k];
      }
      if exists k :: 0 <= k < n - 1 && x in groups[k] {
        var k :| 0 <= k < n - 1 && x in groups[k];
        assert groups[..n - 1][k] == groups[k];
      }
    }
  }

  /**
   * The returned bins: the i-th was opened by the i-th distinct bin number,
   * holds exactly the nodes of that bin, and all of them together are the
   * listed nodes, each once.
   */
  ghost predicate GroupedBy(order: seq<NodeId>, part: Bins, groups: seq<seq<NodeId>>, ids: seq<nat>)
    requires Placed(order, part)
  {
    |ids| == |groups| && Distinct(ids) &&
    (forall k :: 0 <= k < |groups| ==> |groups[k]| > 0 && |groups[k]| == Members(order, part, ids[k])) &&
    (forall k, x :: 0 <= k < |groups| && x in groups[k] ==> x in part && part[x] == ids[k]) &&
    (forall b :: b !in ids ==> Members(order, part, b) == 0) &&
    multiset(Flatten(groups)) == multiset(order)
  }

  /** The listed nodes that sit in bin b, in list order. */
  function InBin(order: seq<NodeId>, part: Bins, b: nat): (r: seq<NodeId>)
    requires Placed(order, part)
    ensures |r| == Members(order, part, b)
  {
    if |order| == 0 then []
    else InBin(order[..|order| - 1], part, b) + (if part[order[|order| - 1]] == b then [order[|order| - 1]] else [])
  }

  /** The bin numbers of the listed nodes, each once, in the order they are first met. */
  function FirstMet(order: seq<NodeId>, part: Bins): (ids: seq<nat>)
    requires Placed(order, part)
    ensures forall b :: b in ids <==> Members(order, part, b) > 0
  {
    if |order| == 0 then []
    else
      var ids := FirstMet(order[..|order| - 1], part);
      if part[order[|order| - 1]] in ids then ids else ids + [part[order[|order| - 1]]]
  }

  /** The bins come in the order their numbers were first met, each listing its nodes in list order. */
  ghost predicate InFirstMetOrder(order: seq<NodeId>, part: Bins, groups: seq<seq<NodeId>>, ids: seq<nat>)
    requires Placed(order, part)
  {
    ids == FirstMet(order, part) && |groups| == |ids| &&
    forall k :: 0 <= k < |groups| ==> groups[k] == InBin(order, part, ids[k])
  }

  /** Appending x to the list of its bin, already open. */
  lemma MetGrow(prefix: seq<NodeId>, x: NodeId, part: Bins, groups: seq<seq<NodeId>>, ids: seq<nat>, p: nat)
    requires Placed(prefix, part) && x in part && Distinct(ids)
    requires InFirstMetOrder(prefix, part, groups, ids)
    requires p < |ids| && ids[p] == part[x]
    ensures Placed(prefix + [x], part)
    ensures InFirstMetOrder(prefix + [x], part, groups[p := groups[p] + [x]], ids)
  {
    var order := prefix + [x];
    assert order[..|order| - 1] == prefix;
    forall k | 0 <= k < |groups| && k != p
      ensures InBin(order, part, ids[k]) == InBin(prefix, part, ids[k])
    {
      assert ids[k] != ids[p];
    }
  }

  /** Opening a new list for x, whose bin was not met before. */
  lemma MetOpen(prefix: seq<NodeId>, x: NodeId, part: Bins, groups: seq<seq<NodeId>>, ids: seq<nat>)
    requires Placed(prefix, part) && x in part && part[x] !in ids
    requires InFirstMetOrder(prefix, part, groups, ids)
    ensures Placed(prefix + [x], part)
    ensures InFirstMetOrder(prefix + [x], part, groups + [[x]], ids + [part[x]])
  {
    var order := prefix + [x];
    assert order[..|order| - 1] == prefix;
    assert Members(prefix, part, part[x]) == 0;
    forall k | 0 <= k < |groups|
      ensures InBin(order, part, ids[k]) == InBin(prefix, part, ids[k])
    {
      assert ids[k] != part[x];
    }
  }

  /**
   * `partitions[id_partition].append(node)` over nodes_partition.items():
   * a defaultdict of lists, whose values come out in the order each bin
   * number was first met.
   */
  method Collect(order: seq<NodeId>, part: Bins) returns (groups: seq<seq<NodeId>>, ghost ids: seq<nat>)
    requires Placed(order, part)
    ensures GroupedBy(order, part, groups, ids)
    ensures InFirstMetOrder(order, part, groups, ids)
  {
    groups, ids := [], [];
    var slot: map<nat, nat> := map[];
    var i := 0;
    ghost var seen: seq<NodeId> := [];
    while i < |order|
      invariant 0 <= i <= |order| && seen == order[..i]
      invariant Slots(slot, ids) && Placed(seen, part)
      invariant GroupedBy(seen, part, groups, ids) && InFirstMetOrder(seen, part, groups, ids)
    {
      groups, ids, slot := CollectOne(seen, order[i], part, groups, ids, slot);
      PrefixGrows(order, i);
      seen := seen + [order[i]];
      i := i + 1;
    }
    assert seen == order[..|order|] == order;
  }

  /** One node of nodes_partition.items() appended to its bin's list. */
  method CollectOne(ghost prefix: seq<NodeId>, x: NodeId, part: Bins, groups: seq<seq<NodeId>>, ghost ids: seq<nat>, slot: map<nat, nat>)
    returns (groups': seq<seq<NodeId>>, ghost ids': seq<nat>, slot': map<nat, nat>)
    requires Placed(prefix, part) && x in part
    requires Slots(slot, ids) && GroupedBy(prefix, part, groups, ids) && InFirstMetOrder(prefix, part, groups, ids)
    ensures Placed(prefix + [x], part)
    ensures Slots(slot', ids') && GroupedBy(prefix + [x], part, groups', ids')
    ensures InFirstMetOrder(prefix + [x], part, groups', ids')
  {
    var b := part[x];
    if b in slot {
      SlotAt(slot, ids, b);
      var p := slot[b];
      GroupGrow(prefix, x, part, groups, ids, p);
      MetGrow(prefix, x, part, groups, ids, p);
      groups', ids', slot' := groups[p := groups[p] + [x]], ids, slot;
    } else {
      GroupOpen(prefix, x, part, groups, ids);
      MetOpen(prefix, x, part, groups, ids);
      SlotOpen(slot, ids, b);
      groups', ids', slot' := groups + [[x]], ids + [b], slot[b := |groups|];
    }
  }

  /** `slot` maps each bin number met so far to the position of its list. */
  ghost predicate Slots(slot: map<nat, nat>, ids: seq<nat>)
  {
    (forall b :: b in slot <==> b in ids) &&
    forall k :: 0 <= k < |ids| ==> slot[ids[k]] == k
  }

  lemma SlotAt(slot: map<nat, nat>, ids: seq<nat>, b: nat)
    requires Slots(slot, ids) && b in slot
    ensures slot[b] < |ids| && ids[slot[b]] == b
  {
    var k :| 0 <= k < |ids| && ids[k] == b;
  }

  lemma SlotOpen(slot: map<nat, nat>, ids: seq<nat>, b: nat)
    requires Slots(slot, ids) && b !in slot
    ensures Slots(slot[b := |ids|], ids + [b])
  {
    var ids' := ids + [b];
    forall k | 0 <= k < |ids'| ensures slot[b := |ids|][ids'[k]] == k {
      if k < |ids| {
        assert ids'[k] == ids[k] && ids[k] in slot;
      }
    }
  }

  /** A node whose bin is already open joins that bin's list. */
  lemma GroupGrow(prefix: seq<NodeId>, x: NodeId, part: Bins, groups: seq<seq<NodeId>>, ids: seq<nat>, p: nat)
    requires Placed(prefix, part) && x in part
    requires GroupedBy(prefix, part, groups, ids)
    requires p < |ids| && ids[p] == part[x]
    ensures Placed(prefix + [x], part)
    ensures GroupedBy(prefix + [x], part, groups[p := groups[p] + [x]], ids)
  {
    var order := prefix + [x];
    var grown := groups[p := groups[p] + [x]];
    assert order[..|order| - 1] == prefix;
    FlattenGrow(groups, p, x);
    forall k | 0 <= k < |grown| ensures |grown[k]| > 0 && |grown[k]| == Members(order, part, ids[k]) {
      assert Members(order, part, ids[k]) == Members(prefix, part, ids[k]) + (if k == p then 1 else 0);
    }
    forall k, y | 0 <= k < |grown| && y in grown[k] ensures y in part && part[y] == ids[k] {
      if k != p || y != x {
        assert y in groups[k];
      }
    }
    forall b | b !in ids ensures Members(order, part, b) == 0 {
      assert Members(order, part, b) == Members(prefix, part, b);
    }
  }

  /** Appending x counts it in its own bin and nowhere else. */
  lemma MembersPush(prefix: seq<NodeId>, x: NodeId, part: Bins)
    requires Placed(prefix, part) && x in part
    ensures Placed(prefix + [x], part)
    ensures forall c :: Members(prefix + [x], part, c) == Members(prefix, part, c) + (if part[x] == c then 1 else 0)
  {
    assert (prefix + [x])[..|prefix|] == prefix;
  }

  /** A node whose bin is not open yet opens a new list, after the others. */
  lemma GroupOpen(prefix: seq<NodeId>, x: NodeId, part: Bins, groups: seq<seq<NodeId>>, ids: seq<nat>)
    requires Placed(prefix, part) && x in part
    requires GroupedBy(prefix, part, groups, ids)
    requires part[x] !in ids
    ensures Placed(prefix + [x], part)
    ensures GroupedBy(prefix + [x], part, groups + [[x]], ids + [part[x]])
  {
    var order := prefix + [x];
    var b := part[x];
    var grown, ids' := groups + [[x]], ids + [b];
    MembersPush(prefix, x, part);
    assert grown[..|groups|] == groups;
    assert Flatten(grown) == Flatten(groups) + [x];
    assert multiset(Flatten(grown)) == multiset(order);
    assert Distinct(ids');
    forall k | 0 <= k < |grown| ensures |grown[k]| > 0 && |grown[k]| == Members(order, part, ids'[k]) {
      if k < |groups| {
        assert ids'[k] == ids[k] && ids[k] != b;
      }
    }
    forall k, y | 0 <= k < |grown| && y in grown[k] ensures y in part && part[y] == ids'[k] {
      if k < |groups| {
        assert y in groups[k];
      }
    }
    forall c | c !in ids' ensures Members(order, part, c) == 0 {
      assert Members(order, part, c) == Members(prefix, part, c);
    }
  }

  /** After the climb every bin still holds its round-robin share. */
  lemma ClimbSizes(links: seq<Virtual.VLink>, order: seq<NodeId>, start: Bins, picks: seq<(NodeId, NodeId)>, n: nat)
    requires n > 0 && Distinct(order) && start == RoundRobin(order, n) && Covers(links, start)
    requires forall k :: 0 <= k < |picks| ==> Drawn(order, picks[k]) && picks[k].0 in start && picks[k].1 in start
    ensures Placed(order, Climb(links, start, picks)) && Below(Climb(links, start, picks), n)
    ensures CutCost(links, Climb(links, start, picks)) <= CutCost(links, start)
    ensures forall b :: Members(order, Climb(links, start, picks), b) == Dealt(|order|, n, b)
  {
    forall b ensures Members(order, Climb(links, start, picks), b) == Dealt(|order|, n, b) {
      ClimbKeeps(links, order, start, picks, n, b);
      RoundRobinSizes(order, n, |order|, b);
      assert order[..|order|] == order;
    }
    ClimbKeeps(links, order, start, picks, n, 0);
  }

  /** Every returned bin is non-empty and all its nodes share one bin number. */
  ghost predicate Uniform(part: Bins, groups: seq<seq<NodeId>>)
  {
    forall k :: 0 <= k < |groups| ==> (|groups[k]| > 0 && groups[k][0] in part &&
      forall x :: x in groups[k] ==> x in part && part[x] == part[groups[k][0]])
  }

  /** Different returned bins hold different bin numbers. */
  ghost predicate Separate(part: Bins, groups: seq<seq<NodeId>>)
    requires Uniform(part, groups)
  {
    forall k, l :: 0 <= k < l < |groups| ==> part[groups[k][0]] != part[groups[l][0]]
  }

  /** The i-th collected list holds the nodes of the i-th bin number met. */
  lemma GroupsUniform(order: seq<NodeId>, part: Bins, groups: seq<seq<NodeId>>, ids: seq<nat>)
    requires Placed(order, part) && GroupedBy(order, part, groups, ids)
    ensures Uniform(part, groups) && Separate(part, groups)
    ensures forall k :: 0 <= k < |groups| ==> part[groups[k][0]] == ids[k]
  {
    assert forall k, x :: 0 <= k < |groups| && x in groups[k] ==> x in part && part[x] == ids[k];
    forall k | 0 <= k < |groups| ensures groups[k][0] in part && part[groups[k][0]] == ids[k] {
      assert |groups[k]| > 0;
      assert groups[k][0] in groups[k];
    }
  }

  /** Collected round-robin-sized bins: at most n of them, each of a round-robin share's size. */
  lemma GroupsSized(order: seq<NodeId>, n: nat, part: Bins, groups: seq<seq<NodeId>>, ids: seq<nat>)
    requires n > 0 && Placed(order, part) && Below(part, n) && GroupedBy(order, part, groups, ids)
    requires forall b :: Members(order, part, b) == Dealt(|order|, n, b)
    ensures |groups| <= n
    ensures forall k :: 0 <= k < |groups| ==> |order| / n <= |groups[k]| <= |order| / n + 1
  {
    GroupsUniform(order, part, groups, ids);
    forall k | 0 <= k < |groups| ensures ids[k] < n && |order| / n <= |groups[k]| <= |order| / n + 1 {
      DealtBalanced(|order|, n, ids[k]);
    }
    DistinctLength(ids, Range(n));
  }

  /*
   * get_partitions.
   */

  /** The shuffled list holds every virtual node once. */
  ghost predicate Shuffled(v: Virtual.VirtualNet, order: seq<NodeId>)
  {
    Distinct(order) && forall x :: x in order <==> x in v.nodes
  }

  /** The n numbers below n. */
  function Range(n: nat): (r: set<nat>)
    ensures |r| == n && forall b: int :: b in r <==> 0 <= b < n
  {
    if n == 0 then {}
    else
      var r := Range(n - 1);
      assert n - 1 !in r;
      r + {n - 1}
  }

  /** At most n non-empty groups holding every node once, their sizes the floor or the ceiling of the average. */
  predicate EvenGroups(order: seq<NodeId>, n: nat, groups: seq<seq<NodeId>>)
  {
    n > 0 && |groups| <= n && multiset(Flatten(groups)) == multiset(order) &&
    (forall k :: 0 <= k < |groups| ==> |order| / n <= |groups[k]| <= |order| / n + 1) &&
    (forall k :: 0 <= k < |groups| ==> |groups[k]| > 0)
  }

  /**
   * The groups are the bins of `part`, met in the order's sequence, and
   * `part` cuts no more link rate than the round-robin deal of the order.
   */
  ghost predicate Climbed(v: Virtual.VirtualNet, order: seq<NodeId>, n: nat, part: Bins, groups: seq<seq<NodeId>>)
  {
    Distinct(order) && n > 0 && Covers(v.links, part) && Covers(v.links, RoundRobin(order, n)) &&
    CutCost(v.links, part) <= CutCost(v.links, RoundRobin(order, n)) &&
    Uniform(part, groups) && Separate(part, groups) &&
    Placed(order, part) && InFirstMetOrder(order, part, groups, FirstMet(order, part))
  }

  /**
   * get_partitions(virtual, n_partitions): with no node there is nothing to
   * sample two from (ValueError); with nodes, n_partitions = 0 is a division
   * by zero; with a single node, sample raises ValueError. Otherwise at most
   * n non-empty bins, together holding every node once, each of round-robin
   * size (the sizes differ by at most one), whose cut weight is at most that
   * of the round-robin deal.
   */
  method GetPartitions(v: Virtual.VirtualNet, n: nat, order: seq<NodeId>, picks: seq<(NodeId, NodeId)>)
    returns (r: Result<seq<seq<NodeId>>>)
    requires Virtual.Valid(v) && Shuffled(v, order) && |picks| == NSwaps
    requires |order| >= 2 ==> forall k :: 0 <= k < |picks| ==> Drawn(order, picks[k])
    ensures r.Err? <==> |order| < 2 || n == 0
    ensures r.Err? ==> r.error == (if n == 0 && |order| > 0 then ZeroDivision else ValueError)
    ensures r.Ok? ==> EvenGroups(order, n, r.value)
    ensures r.Ok? ==> Climbed(v, order, n, ClimbedDeal(v, order, n, picks), r.value)
  {
    if |order| > 0 && n == 0 {
      return Err(ZeroDivision);
    }
    if |order| < 2 {
      return Err(ValueError);
    }
    var part, groups := ClimbFromDeal(v, order, n, picks);
    r := Ok(groups);
  }

  /** The round-robin deal of the order into n bins, climbed by the drawn swaps. */
  ghost function ClimbedDeal(v: Virtual.VirtualNet, order: seq<NodeId>, n: nat, picks: seq<(NodeId, NodeId)>): Bins
    requires Shuffled(v, order) && Virtual.Valid(v) && n > 0
    requires forall k :: 0 <= k < |picks| ==> Drawn(order, picks[k])
  {
    DealReady(v, order, n, picks);
    Climb(v.links, RoundRobin(order, n), picks)
  }

  /** The deal places every node of the virtual network, the drawn ones among them. */
  lemma DealReady(v: Virtual.VirtualNet, order: seq<NodeId>, n: nat, picks: seq<(NodeId, NodeId)>)
    requires Shuffled(v, order) && Virtual.Valid(v) && n > 0
    requires forall k :: 0 <= k < |picks| ==> Drawn(order, picks[k])
    ensures Covers(v.links, RoundRobin(order, n))
    ensures forall k :: 0 <= k < |picks| ==> picks[k].0 in RoundRobin(order, n) && picks[k].1 in RoundRobin(order, n)
  {
    var start := RoundRobin(order, n);
    assert Covers(v.links, start);
    assert forall k :: 0 <= k < |picks| ==> picks[k].0 in start && picks[k].1 in start;
  }

  /** The round-robin deal of the order, climbed by the drawn swaps, its bins collected into lists. */
  method ClimbFromDeal(v: Virtual.VirtualNet, order: seq<NodeId>, n: nat, picks: seq<(NodeId, NodeId)>)
    returns (part: Bins, groups: seq<seq<NodeId>>)
    requires Shuffled(v, order) && Virtual.Valid(v) && n > 0
    requires forall k :: 0 <= k < |picks| ==> Drawn(order, picks[k])
    ensures part == ClimbedDeal(v, order, n, picks)
    ensures EvenGroups(order, n, groups) && Climbed(v, order, n, part, groups)
  {
    var start := RoundRobin(order, n);
    DealReady(v, order, n, picks);
    var cost;
    part, cost := HillClimb(v.links, start, picks);
    ClimbSizes(v.links, order, start, picks, n);
    groups := Regroup(order, n, part);
    assert Covers(v.links, part);
  }

  /** The bins of the climbed partition collected into lists, with the sizes of the round-robin deal. */
  method Regroup(order: seq<NodeId>, n: nat, part: Bins) returns (groups: seq<seq<NodeId>>)
    requires n > 0 && Placed(order, part) && Below(part, n)
    requires forall b :: Members(order, part, b) == Dealt(|order|, n, b)
    ensures EvenGroups(order, n, groups)
    ensures Uniform(part, groups) && Separate(part, groups)
    ensures InFirstMetOrder(order, part, groups, FirstMet(order, part))
  {
    ghost var ids;
    groups, ids := Collect(order, part);
    GroupsUniform(order, part, groups, ids);
    GroupsSized(order, n, part, groups, ids);
  }
}
