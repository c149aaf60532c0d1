/*
 * The greedy embedding of distriopt (distriopt/embedding/algorithms/greedy.py):
 * a binary tree of partitions of the virtual nodes, built by repeated min
 * cuts or bisections, then visited breadth first; each partition not yet
 * placed goes on the first machine with room for its demands, for its
 * outgoing rate and for a path to each neighbour already placed elsewhere.
 */
module Greedy {
  import opened Common
  import opened PathSearch
  import Virtual
  import Physical
  import LowerBound
  import Placement
  import KBalanced
  import Karger
  import EmbedVerify
  import EmbedBuild
  import Ungroup

  /**
   * A Node of the partition tree: its partition, the partition's total
   * demands, and its parent and its two halves as positions in the list
   * of the nodes created so far (the root first).
   */
  datatype TreeNode = TreeNode(partition: set<NodeId>, cores: nat, memory: nat,
                               parent: Option<nat>, left: Option<nat>, right: Option<nat>)

  /*
   * Demands of a set of nodes.
   */

  /** sum(req(u) for u in s): the demands of the members of s, taken in node order. */
  function SetDemand(v: Virtual.VirtualNet, res: Resource, nodes: seq<NodeId>, s: set<NodeId>): nat
  {
    if |nodes| == 0 then 0
    else
      var last := nodes[|nodes| - 1];
      SetDemand(v, res, nodes[..|nodes| - 1], s) + (if last in s then LowerBound.Demand(v, res, last) else 0)
  }

  function PartDemand(v: Virtual.VirtualNet, res: Resource, s: set<NodeId>): nat
  {
    SetDemand(v, res, v.nodes, s)
  }

  /** The demand of two disjoint sets is the sum of their demands. */
  lemma {:induction false} SetDemandSplits(v: Virtual.VirtualNet, res: Resource, nodes: seq<NodeId>,
                                           a: set<NodeId>, b: set<NodeId>)
    requires a !! b
    ensures SetDemand(v, res, nodes, a + b) == SetDemand(v, res, nodes, a) + SetDemand(v, res, nodes, b)
  {
    if |nodes| > 0 {
      SetDemandSplits(v, res, nodes[..|nodes| - 1], a, b);
    }
  }

  /** The root's demand, over a set holding every node, is the total demand of the lower bound. */
  lemma {:induction false} SetDemandAll(v: Virtual.VirtualNet, res: Resource, nodes: seq<NodeId>, s: set<NodeId>)
    requires forall x :: x in nodes ==> x in s
    ensures SetDemand(v, res, nodes, s) == LowerBound.DemandOf(v, res, nodes)
  {
    if |nodes| > 0 {
      SetDemandAll(v, res, nodes[..|nodes| - 1], s);
    }
  }

  /*
   * The subgraph a partition induces.
   */

  /** The links of the subgraph induced by s, in link order. */
  function SubLinks(links: seq<Virtual.VLink>, s: set<NodeId>): (r: seq<Virtual.VLink>)
    ensures forall t :: 0 <= t < |r| ==> r[t].u in s && r[t].v in s && r[t] in links
  {
    if |links| == 0 then []
    else
      var last := links[|links| - 1];
      var init := SubLinks(links[..|links| - 1], s);
      if last.u in s && last.v in s then init + [last] else init
  }

  /** The two halves of a split: non-empty, disjoint, and together the split set. */
  predicate Halves(s: set<NodeId>, a: set<NodeId>, b: set<NodeId>)
  {
    a != {} && b != {} && a !! b && a + b == s
  }

  /** The edge orders numpy's choice draws for the cuts: a permutation of the links of each subgraph it can draw from. */
  ghost predicate Draws(v: Virtual.VirtualNet, draws: set<NodeId> -> seq<nat>)
  {
    forall s :: Karger.Drawable(SubLinks(v.links, s)) ==> Karger.Permutes(draws(s), |SubLinks(v.links, s)|)
  }

  /**
   * One split of partition(): min_cut or kernighan_lin_bisection of the
   * subgraph induced by p, any other algorithm name being ValueError
   * ("undefined"). A split returns two halves of p.
   */
  method Split(v: Virtual.VirtualNet, algo: string, bisect: KBalanced.Bisection,
               draws: set<NodeId> -> seq<nat>, p: set<NodeId>)
    returns (r: Result<(set<NodeId>, set<NodeId>)>)
    requires Virtual.Valid(v) && KBalanced.IsBisection(bisect) && Draws(v, draws)
    requires |p| >= 2 && p <= KBalanced.NodeSet(v)
    ensures r.Ok? ==> Halves(p, r.value.0, r.value.1)
    ensures algo == "bisection" ==> r == Ok(bisect(p))
    ensures algo != "min_cut" && algo != "bisection" ==> r == Err(ValueError)
    ensures algo == "min_cut" ==> (r == Err(ValueError) <==> !Karger.Drawable(SubLinks(v.links, p)))
    ensures algo == "min_cut" && r.Err? ==> r.error == ValueError || r.error == StopIteration
  {
    if algo == "min_cut" {
      var nodes := Restrict(v.nodes, p);
      var links := SubLinks(v.links, p);
      assert forall x :: x in nodes <==> x in p;
      Karger.ListSize(nodes, p);
      var cut := Karger.MinCut(nodes, links, draws(p));
      if cut.Err? {
        return Err(cut.error);
      }
      var parts := cut.value;
      assert KBalanced.UnionOf(parts) == parts[0] + parts[1] by {
        assert parts[..1] == [parts[0]] && [parts[0]][..0] == [];
        assert KBalanced.UnionOf([parts[0]]) == parts[0];
      }
      r := Ok((parts[0], parts[1]));
    } else if algo == "bisection" {
      var h := bisect(p);
      assert KBalanced.Bisects(p, h);
      r := Ok(h);
    } else {
      r := Err(ValueError);
    }
  }

  /*
   * The partition tree.
   */

  /** A node created for the half s of the node at position parent, not split yet. */
  function Child(v: Virtual.VirtualNet, s: set<NodeId>, parent: nat): TreeNode
  {
    TreeNode(s, PartDemand(v, Cores, s), PartDemand(v, Memory, s), Some(parent), None, None)
  }

  /**
   * Node i carries its partition's demands, and when split it has two
   * halves of its partition, created after it, that name it as parent.
   */
  ghost predicate NodeShaped(v: Virtual.VirtualNet, tree: seq<TreeNode>, i: nat)
    requires i < |tree|
  {
    var n := tree[i];
    n.partition <= KBalanced.NodeSet(v) &&
    n.cores == PartDemand(v, Cores, n.partition) && n.memory == PartDemand(v, Memory, n.partition) &&
    n.left.Some? == n.right.Some? &&
    (n.left.Some? ==>
      i < n.left.value < |tree| && i < n.right.value < |tree| &&
      Halves(n.partition, tree[n.left.value].partition, tree[n.right.value].partition) &&
      tree[n.left.value].parent == Some(i) && tree[n.right.value].parent == Some(i))
  }

  ghost predicate Shaped(v: Virtual.VirtualNet, tree: seq<TreeNode>)
  {
    forall i :: 0 <= i < |tree| ==> NodeShaped(v, tree, i)
  }

  /**
   * What partition() returns: a root holding every virtual node, every
   * node shaped, and every node holding two or more virtual nodes split.
   */
  ghost predicate PartitionTree(v: Virtual.VirtualNet, tree: seq<TreeNode>)
  {
    |tree| > 0 && tree[0].partition == KBalanced.NodeSet(v) && tree[0].parent == None && Shaped(v, tree) &&
    forall i :: 0 <= i < |tree| && tree[i].left.None? ==> |tree[i].partition| <= 1
  }

  /** partitions_nodes: every key leads to the node of that partition, and every node is found under its partition. */
  ghost predicate Indexed(tree: seq<TreeNode>, ids: map<set<NodeId>, nat>)
  {
    (forall s :: s in ids ==> ids[s] < |tree| && tree[ids[s]].partition == s) &&
    (forall i :: 0 <= i < |tree| ==> tree[i].partition in ids && ids[tree[i].partition] == i)
  }

  /** Two sets of a laminar family: equal, nested, or apart. */
  predicate Nested(w: set<NodeId>, q: set<NodeId>)
  {
    w == q || w <= q || w !! q
  }

  /**
   * The stack to_be_processed: distinct partitions of unsplit nodes, each
   * inside, equal to or apart from every partition of the tree, and holding
   * every unsplit node of two or more virtual nodes.
   */
  ghost predicate Pending(tree: seq<TreeNode>, ids: map<set<NodeId>, nat>, work: seq<set<NodeId>>)
  {
    Distinct(work) &&
    (forall k :: 0 <= k < |work| ==> work[k] in ids && ids[work[k]] < |tree| && tree[ids[work[k]]].left.None?) &&
    (forall k, j :: 0 <= k < |work| && 0 <= j < |tree| ==> Nested(work[k], tree[j].partition)) &&
    (forall i :: 0 <= i < |tree| && tree[i].left.None? ==> |tree[i].partition| <= 1 || tree[i].partition in work)
  }

  /** A stack's measure: a split replaces a set of n >= 2 nodes (weight 2n - 1) by two of total weight 2n - 2. */
  function Weight(work: seq<set<NodeId>>): nat
  {
    if |work| == 0 then 0
    else Weight(work[..|work| - 1]) + (if |work[|work| - 1]| == 0 then 1 else 2 * |work[|work| - 1]| - 1)
  }

  /** A strict half of a pending partition is not a partition of the tree yet. */
  lemma Fresh(tree: seq<TreeNode>, ids: map<set<NodeId>, nat>, work: seq<set<NodeId>>, k: nat, q: set<NodeId>)
    requires Indexed(tree, ids) && Pending(tree, ids, work) && k < |work|
    requires q != {} && q <= work[k] && q != work[k]
    ensures q !in ids
  {
    forall j | 0 <= j < |tree| ensures tree[j].partition != q {
      assert Nested(work[k], tree[j].partition);
    }
  }

  /** The tree after splitting the node of the top partition into the halves p1, p2. */
  function Grown(v: Virtual.VirtualNet, tree: seq<TreeNode>, i: nat, p1: set<NodeId>, p2: set<NodeId>): seq<TreeNode>
    requires i < |tree|
  {
    var n := |tree|;
    tree[i := tree[i].(left := Some(n), right := Some(n + 1))] + [Child(v, p1, i), Child(v, p2, i)]
  }

  lemma ShapedStep(v: Virtual.VirtualNet, tree: seq<TreeNode>, i: nat, p1: set<NodeId>, p2: set<NodeId>)
    requires Shaped(v, tree) && i < |tree| && tree[i].left.None?
    requires Halves(tree[i].partition, p1, p2)
    ensures Shaped(v, Grown(v, tree, i, p1, p2))
  {
    var t := Grown(v, tree, i, p1, p2);
    assert NodeShaped(v, tree, i);
    forall j | 0 <= j < |t| ensures NodeShaped(v, t, j) {
      if j < |tree| {
        assert NodeShaped(v, tree, j);
        if j != i && tree[j].left.Some? {
          var l, r := tree[j].left.value, tree[j].right.value;
          assert t[l].partition == tree[l].partition && t[l].parent == tree[l].parent;
          assert t[r].partition == tree[r].partition && t[r].parent == tree[r].parent;
        }
      }
    }
  }

  lemma IndexedStep(v: Virtual.VirtualNet, tree: seq<TreeNode>, ids: map<set<NodeId>, nat>, work: seq<set<NodeId>>,
                    p1: set<NodeId>, p2: set<NodeId>)
    requires Indexed(tree, ids) && Pending(tree, ids, work) && |work| > 0
    requires Halves(work[|work| - 1], p1, p2)
    ensures var i := ids[work[|work| - 1]]; var n := |tree|;
      Indexed(Grown(v, tree, i, p1, p2), ids[p1 := n][p2 := n + 1])
  {
    var p := work[|work| - 1];
    Fresh(tree, ids, work, |work| - 1, p1);
    Fresh(tree, ids, work, |work| - 1, p2);
  }

  lemma PendingStep(v: Virtual.VirtualNet, tree: seq<TreeNode>, ids: map<set<NodeId>, nat>, work: seq<set<NodeId>>,
                    p1: set<NodeId>, p2: set<NodeId>)
    requires Indexed(tree, ids) && Pending(tree, ids, work) && |work| > 0
    requires Halves(work[|work| - 1], p1, p2)
    ensures var i := ids[work[|work| - 1]]; var n := |tree|;
      Pending(Grown(v, tree, i, p1, p2), ids[p1 := n][p2 := n + 1], work[..|work| - 1] + [p1, p2])
  {
    var p := work[|work| - 1];
    var i := ids[p];
    var n := |tree|;
    var t := Grown(v, tree, i, p1, p2);
    var ids2 := ids[p1 := n][p2 := n + 1];
    var rest := work[..|work| - 1];
    var work2 := rest + [p1, p2];
    Fresh(tree, ids, work, |work| - 1, p1);
    Fresh(tree, ids, work, |work| - 1, p2);
    assert forall k :: 0 <= k < |rest| ==> rest[k] != p && rest[k] in ids && ids[rest[k]] != i;
    assert Distinct(work2);
    forall k, j | 0 <= k < |work2| && 0 <= j < |t| ensures Nested(work2[k], t[j].partition) {
      if k < |rest| {
        if j < n {
          assert t[j].partition == tree[j].partition;
        } else {
          assert Nested(rest[k], p) by { assert Nested(work[k], tree[i].partition); }
          if rest[k] <= p && rest[k] != p {
            assert Nested(p, tree[ids[rest[k]]].partition);
          }
        }
      } else if j < n {
        assert Nested(p, tree[j].partition) by { assert Nested(work[|work| - 1], tree[j].partition); }
      }
    }
    forall j | 0 <= j < |t| && t[j].left.None? ensures |t[j].partition| <= 1 || t[j].partition in work2 {
      if j < n && |t[j].partition| > 1 {
        assert j != i;
        assert tree[j].partition in work;
        assert tree[j].partition != p;
      }
    }
  }

  /** Dropping a partition of at most one node from the stack keeps it pending. */
  lemma PopStep(tree: seq<TreeNode>, ids: map<set<NodeId>, nat>, work: seq<set<NodeId>>)
    requires Indexed(tree, ids) && Pending(tree, ids, work) && |work| > 0 && |work[|work| - 1]| <= 1
    ensures Pending(tree, ids, work[..|work| - 1])
  {
    var rest := work[..|work| - 1];
    forall j | 0 <= j < |tree| && tree[j].left.None? ensures |tree[j].partition| <= 1 || tree[j].partition in rest {
      if |tree[j].partition| > 1 {
        assert tree[j].partition in work;
      }
    }
  }

  /** A split lowers the stack's weight. */
  lemma WeightDrops(work: seq<set<NodeId>>, p1: set<NodeId>, p2: set<NodeId>)
    requires |work| > 0 && Halves(work[|work| - 1], p1, p2)
    ensures Weight(work[..|work| - 1] + [p1, p2]) < Weight(work)
  {
    var rest := work[..|work| - 1];
    var w := rest + [p1, p2];
    assert w[..|w| - 1] == rest + [p1];
    assert (rest + [p1])[..|rest|] == rest;
    assert |p1 + p2| == |p1| + |p2|;
  }

  /**
   * The pieces of partition()'s state: the nodes created (the root
   * first), partitions_nodes, and the stack to_be_processed.
   */
  datatype Building = Building(tree: seq<TreeNode>, ids: map<set<NodeId>, nat>, work: seq<set<NodeId>>)

  ghost predicate Builds(v: Virtual.VirtualNet, b: Building)
  {
    |b.tree| > 0 && b.tree[0].partition == KBalanced.NodeSet(v) && b.tree[0].parent == None &&
    Shaped(v, b.tree) && Indexed(b.tree, b.ids) && Pending(b.tree, b.ids, b.work)
  }

  /**
   * One turn of partition()'s loop: pop the top partition; one of at most
   * one node is left as it is, a larger one is split and its halves become
   * children of its node and go on the stack.
   */
  method Process(v: Virtual.VirtualNet, algo: string, bisect: KBalanced.Bisection, draws: set<NodeId> -> seq<nat>,
                 b: Building)
    returns (r: Result<Building>)
    requires Virtual.Valid(v) && KBalanced.IsBisection(bisect) && Draws(v, draws)
    requires Builds(v, b) && |b.work| > 0
    ensures r.Ok? ==> Builds(v, r.value) && Weight(r.value.work) < Weight(b.work)
    ensures r.Ok? && |b.work[|b.work| - 1]| <= 1 ==> r.value.tree == b.tree
    ensures r.Err? ==> |b.work[|b.work| - 1]| >= 2
    ensures r.Err? ==> r.error == ValueError || (algo == "min_cut" && r.error == StopIteration)
    ensures algo == "bisection" ==> r.Ok?
    ensures algo != "min_cut" && algo != "bisection" ==> (r.Ok? <==> |b.work[|b.work| - 1]| <= 1)
  {
    var tree, ids, work := b.tree, b.ids, b.work;
    var p := work[|work| - 1];
    if |p| <= 1 {
      PopStep(tree, ids, work);
      return Ok(Building(tree, ids, work[..|work| - 1]));
    }
    assert p == tree[ids[p]].partition;
    assert NodeShaped(v, tree, ids[p]);
    var halves := Split(v, algo, bisect, draws, p);
    if halves.Err? {
      return Err(halves.error);
    }
    SplitKeeps(v, b, halves.value.0, halves.value.1);
    r := Ok(Splitted(v, b, halves.value.0, halves.value.1));
  }

  /** The state after the top partition's node gets the halves p1 and p2. */
  function Splitted(v: Virtual.VirtualNet, b: Building, p1: set<NodeId>, p2: set<NodeId>): Building
    requires |b.work| > 0 && b.work[|b.work| - 1] in b.ids && b.ids[b.work[|b.work| - 1]] < |b.tree|
  {
    var i := b.ids[b.work[|b.work| - 1]];
    var n := |b.tree|;
    Building(Grown(v, b.tree, i, p1, p2), b.ids[p1 := n][p2 := n + 1], b.work[..|b.work| - 1] + [p1, p2])
  }

  lemma SplitKeeps(v: Virtual.VirtualNet, b: Building, p1: set<NodeId>, p2: set<NodeId>)
    requires Builds(v, b) && |b.work| > 0 && Halves(b.work[|b.work| - 1], p1, p2)
    ensures Builds(v, Splitted(v, b, p1, p2)) && Weight(Splitted(v, b, p1, p2).work) < Weight(b.work)
  {
    var p := b.work[|b.work| - 1];
    var i := b.ids[p];
    ShapedStep(v, b.tree, i, p1, p2);
    IndexedStep(v, b.tree, b.ids, b.work, p1, p2);
    PendingStep(v, b.tree, b.ids, b.work, p1, p2);
    WeightDrops(b.work, p1, p2);
    if i == 0 {
      assert Grown(v, b.tree, i, p1, p2)[0].partition == b.tree[0].partition;
    }
  }

  /**
   * partition(virtual, algo): the stack to_be_processed starts with all
   * the nodes under the root, and is worked off until empty. The result
   * is a partition tree; a split's error ends it.
   */
  method BuildTree(v: Virtual.VirtualNet, algo: string, bisect: KBalanced.Bisection, draws: set<NodeId> -> seq<nat>)
    returns (r: Result<seq<TreeNode>>)
    requires Virtual.Valid(v) && KBalanced.IsBisection(bisect) && Draws(v, draws)
    ensures r.Ok? ==> PartitionTree(v, r.value)
    ensures r.Err? ==> r.error == ValueError || (algo == "min_cut" && r.error == StopIteration)
    ensures algo == "bisection" || |v.nodes| <= 1 ==> r.Ok?
    ensures algo != "min_cut" && algo != "bisection" ==> (r.Ok? <==> |v.nodes| <= 1)
  {
    var all := KBalanced.NodeSet(v);
    Karger.ListSize(v.nodes, all);
    var b := Building([TreeNode(all, PartDemand(v, Cores, all), PartDemand(v, Memory, all), None, None, None)],
                      map[all := 0], [all]);
    while |b.work| > 0
      invariant Builds(v, b)
      invariant algo != "min_cut" && algo != "bisection" ==> |b.tree| == 1
      decreases Weight(b.work)
    {
      var next := Process(v, algo, bisect, draws, b);
      if next.Err? {
        var p := b.work[|b.work| - 1];
        assert NodeShaped(v, b.tree, b.ids[p]);
        Karger.SubsetSize(p, all);
        return Err(next.error);
      }
      b := next.value;
    }
    assert NodeShaped(v, b.tree, 0);
    r := Ok(b.tree);
  }

  /*
   * The links leaving a partition.
   */

  /** [(u, w) for w in ws if w not in s]: u's links out of s, in neighbour order. */
  function Leaving(u: NodeId, ws: seq<NodeId>, s: set<NodeId>): (r: seq<Pair>)
    ensures forall e :: e in r <==> e.0 == u && e.1 in ws && e.1 !in s
    ensures Distinct(ws) ==> Distinct(r)
  {
    if |ws| == 0 then []
    else
      var init := Leaving(u, ws[..|ws| - 1], s);
      var last := ws[|ws| - 1];
      assert forall x :: x in ws <==> x in ws[..|ws| - 1] || x == last;
      if last !in s then
        assert Distinct(ws) ==> last !in ws[..|ws| - 1];
        init + [(u, last)]
      else init
  }

  /**
   * [(u, w) for u in xs for w in neighbors(u) if w not in s]: the virtual
   * links leaving s, from its members xs.
   */
  function Outgoing(v: Virtual.VirtualNet, xs: seq<NodeId>, s: set<NodeId>): (r: seq<Pair>)
    ensures forall e :: e in r <==> e.0 in xs && e.1 in Virtual.Neighbors(v, e.0) && e.1 !in s
  {
    if |xs| == 0 then []
    else
      var last := xs[|xs| - 1];
      assert forall x :: x in xs <==> x in xs[..|xs| - 1] || x == last;
      Outgoing(v, xs[..|xs| - 1], s) + Leaving(last, Virtual.Neighbors(v, last), s)
  }

  /** Over distinct members, each leaving link comes once. */
  lemma {:induction false} OutgoingDistinct(v: Virtual.VirtualNet, xs: seq<NodeId>, s: set<NodeId>)
    requires Virtual.Valid(v) && Distinct(xs)
    ensures Distinct(Outgoing(v, xs, s))
  {
    if |xs| > 0 {
      var init := xs[..|xs| - 1];
      var last := xs[|xs| - 1];
      OutgoingDistinct(v, init, s);
      Virtual.NeighborsDistinct(v.links, last);
      assert last !in init;
      DistinctJoin(Outgoing(v, init, s), Leaving(last, Virtual.Neighbors(v, last), s));
    }
  }

  /** A neighbour is joined by a link, read either way, which has a rate. */
  lemma NeighborLink(v: Virtual.VirtualNet, u: NodeId, w: NodeId)
    requires w in Virtual.Neighbors(v, u)
    ensures Virtual.IsEdge(v, u, w) && Virtual.IsEdge(v, w, u) && Virtual.RateIn(v.links, u, w).Some?
  {
    var t :| 0 <= t < |v.links| && Virtual.Joins(v.links[t], u, w);
    assert Virtual.Joins(v.links[t], w, u);
  }

  /** sum(req_rate(u, w) for w in ws if w not in s), over a list ws of u's neighbours. */
  function RateLeaving(v: Virtual.VirtualNet, u: NodeId, ws: seq<NodeId>, s: set<NodeId>): nat
    requires forall w :: w in ws ==> w in Virtual.Neighbors(v, u)
  {
    if |ws| == 0 then 0
    else
      var last := ws[|ws| - 1];
      NeighborLink(v, u, last);
      RateLeaving(v, u, ws[..|ws| - 1], s) + (if last !in s then Virtual.ReqRate(v, u, last) else 0)
  }

  /** The same sum over the members us of s, each over all its neighbours. */
  function RateFrom(v: Virtual.VirtualNet, us: seq<NodeId>, s: set<NodeId>): nat
  {
    if |us| == 0 then 0
    else
      var last := us[|us| - 1];
      RateFrom(v, us[..|us| - 1], s) + RateLeaving(v, last, Virtual.Neighbors(v, last), s)
  }

  /** The rate of the virtual links leaving s, summed over its members. */
  function OutRate(v: Virtual.VirtualNet, s: set<NodeId>): nat
  {
    RateFrom(v, Restrict(v.nodes, s), s)
  }

  /*
   * Rate counters.
   */

  /**
   * Counter(a) + Counter(b), and rate_used after `rate_used[k] += temp_rate[k]`
   * for every key k: the counts added key by key.
   */
  function Sum(a: Placement.Used, b: Placement.Used): (r: Placement.Used)
    ensures forall k :: Get(r, k) == Get(a, k) + Get(b, k)
  {
    map k | k in a.Keys + b.Keys :: Get(a, k) + Get(b, k)
  }

  /** Booking a path on any counter adds the path's own counts. */
  lemma {:induction false} ChargeFrom(m: Placement.Used, hops: seq<Hop<Physical.DeviceKey>>, req: nat)
    ensures forall k :: Get(Placement.Charge(m, hops, req), k) == Get(m, k) + Get(Placement.Charge(map[], hops, req), k)
  {
    if |hops| > 0 {
      ChargeFrom(m, hops[..|hops| - 1], req);
    }
  }

  /** Within reads only the counts. */
  lemma SameCounts(g: Physical.Network, m1: Placement.Used, m2: Placement.Used)
    requires forall k :: Get(m1, k) == Get(m2, k)
    requires Placement.Within(g, m1)
    ensures Placement.Within(g, m2)
  {
  }

  /** The counts of the stored paths of links, each booked with its virtual link's rate. */
  function Booked(v: Virtual.VirtualNet, routing: EmbedVerify.Routing, links: seq<Pair>): Placement.Used
  {
    if |links| == 0 then map[]
    else
      var e := links[|links| - 1];
      Placement.Charge(Booked(v, routing, links[..|links| - 1]), if e in routing then routing[e] else [],
                       EmbedVerify.RateOf(v, e))
  }

  /** The bookings of two runs of links add up. */
  lemma {:induction false} BookedAppend(v: Virtual.VirtualNet, routing: EmbedVerify.Routing, a: seq<Pair>, b: seq<Pair>)
    ensures forall k :: Get(Booked(v, routing, a + b), k) == Get(Booked(v, routing, a), k) + Get(Booked(v, routing, b), k)
    decreases |b|
  {
    if |b| == 0 {
      assert a + b == a;
    } else {
      var init := b[..|b| - 1];
      var e := b[|b| - 1];
      assert (a + b)[..|a + b| - 1] == a + init;
      BookedAppend(v, routing, a, init);
      var hops := if e in routing then routing[e] else [];
      ChargeFrom(Booked(v, routing, a + init), hops, EmbedVerify.RateOf(v, e));
      ChargeFrom(Booked(v, routing, init), hops, EmbedVerify.RateOf(v, e));
    }
  }

  /** Bookings read only the paths of the links booked. */
  lemma {:induction false} BookedSame(v: Virtual.VirtualNet, r1: EmbedVerify.Routing, r2: EmbedVerify.Routing, links: seq<Pair>)
    requires forall k :: 0 <= k < |links| ==> (links[k] in r1 <==> links[k] in r2)
    requires forall k :: 0 <= k < |links| && links[k] in r1 ==> r1[links[k]] == r2[links[k]]
    ensures Booked(v, r1, links) == Booked(v, r2, links)
  {
    if |links| > 0 {
      BookedSame(v, r1, r2, links[..|links| - 1]);
      assert links[|links| - 1] in r1 <==> links[|links| - 1] in r2;
    }
  }

  /*
   * One attempt of solve(): its results and counters.
   */

  /**
   * The state of an attempt: res_node_mapping and res_link_mapping (each
   * with its insertion order), cores_used, memory_used, rate_used, the
   * nodes assigned to each machine, and the nodes placed so far.
   */
  datatype Booking = Booking(mapping: map<NodeId, NodeId>, order: seq<NodeId>,
                             routing: EmbedVerify.Routing, pathOrder: seq<Pair>,
                             coresUsed: map<NodeId, nat>, memoryUsed: map<NodeId, nat>,
                             used: Placement.Used, hosted: map<NodeId, set<NodeId>>, placed: set<NodeId>)

  /** set(assigned[phy]), empty for a machine not used yet. */
  function AssignedTo(hosted: map<NodeId, set<NodeId>>, phy: NodeId): set<NodeId>
  {
    if phy in hosted then hosted[phy] else {}
  }

  /** Every placed node is a virtual node on a machine that lists it, and every listed node is placed there. */
  ghost predicate Assignment(v: Virtual.VirtualNet, g: Physical.Network, b: Booking)
  {
    b.placed == b.mapping.Keys && Enumerates(b.order, b.mapping) &&
    (forall u :: u in b.mapping ==>
      u in v.nodes && b.mapping[u] in Physical.ComputeNodes(g) && u in AssignedTo(b.hosted, b.mapping[u])) &&
    (forall phy, u :: phy in b.hosted && u in b.hosted[phy] ==> u in b.mapping && b.mapping[u] == phy)
  }

  /**
   * On every machine in use, the counters hold the demands of its nodes,
   * which fit its cores and memory, and the rate leaving its nodes fits
   * its rate_out.
   */
  ghost predicate Capacities(v: Virtual.VirtualNet, g: Physical.Network, b: Booking)
  {
    b.coresUsed.Keys == b.hosted.Keys && b.memoryUsed.Keys == b.hosted.Keys &&
    forall phy :: phy in b.hosted ==>
      b.coresUsed[phy] == PartDemand(v, Cores, b.hosted[phy]) && b.coresUsed[phy] <= Physical.Cores(g, phy) &&
      b.memoryUsed[phy] == PartDemand(v, Memory, b.hosted[phy]) && b.memoryUsed[phy] <= Physical.Memory(g, phy) &&
      OutRate(v, b.hosted[phy]) <= Physical.RateOut(g, phy)
  }

  /** rate_used counts exactly the stored paths, each with its link's rate, and no interface is over its rate. */
  ghost predicate Accounted(v: Virtual.VirtualNet, g: Physical.Network, b: Booking)
  {
    Enumerates(b.pathOrder, b.routing) && Placement.Within(g, b.used) &&
    forall k :: Get(b.used, k) == Get(Booked(v, b.routing, b.pathOrder), k)
  }

  /**
   * Every stored path belongs to a virtual link between nodes on different
   * machines and leads along links of the network from the first end's
   * machine to the second's.
   */
  ghost predicate Routes(v: Virtual.VirtualNet, g: Physical.Network, b: Booking)
  {
    forall e :: e in b.routing ==>
      Virtual.IsEdge(v, e.0, e.1) && Placement.RoutedBy(b.mapping, b.routing, e) && Placement.OnLinks(g, b.routing[e])
  }

  /** Every virtual link between placed nodes on different machines has a stored path, read one way or the other. */
  ghost predicate Connected(v: Virtual.VirtualNet, b: Booking)
  {
    forall u, w :: Placement.Crossing(b.mapping, (u, w)) && Virtual.IsEdge(v, u, w) ==>
      (u, w) in b.routing || (w, u) in b.routing
  }

  ghost predicate Sound(v: Virtual.VirtualNet, g: Physical.Network, b: Booking)
  {
    Assignment(v, g, b) && Capacities(v, g, b) && Accounted(v, g, b) && Routes(v, g, b) && Connected(v, b)
  }

  /** The state an attempt starts from. */
  function Empty(): Booking
  {
    Booking(map[], [], map[], [], map[], map[], map[], map[], {})
  }

  lemma EmptySound(v: Virtual.VirtualNet, g: Physical.Network)
    ensures Sound(v, g, Empty())
  {
  }

  /** Each stored path leads from phy, along links, to the machine of its link's second end. */
  ghost predicate FromMachine(g: Physical.Network, mapping: map<NodeId, NodeId>, phy: NodeId, paths: EmbedVerify.Routing)
  {
    forall e :: e in paths ==> (e.1 in mapping &&
      Chains(paths[e], phy, mapping[e.1]) && SimpleHops(paths[e], mapping[e.1]) && Placement.OnLinks(g, paths[e]))
  }

  /** temp_rate counts exactly the paths of temp_paths, and rate_used plus temp_rate fits every interface. */
  ghost predicate Tally(v: Virtual.VirtualNet, g: Physical.Network, used: Placement.Used, temp: Placement.Used,
                        paths: EmbedVerify.Routing, order: seq<Pair>)
  {
    Enumerates(order, paths) && Placement.Within(g, Sum(used, temp)) &&
    forall k :: Get(temp, k) == Get(Booked(v, paths, order), k)
  }

  /** find_path between two different machines, and what booking its hops keeps. */
  method PathFrom(g: Physical.Network, source: NodeId, target: NodeId, req: nat, used: Placement.Used)
    returns (r: Result<seq<Hop<Physical.DeviceKey>>>)
    requires Physical.Valid(g) && source in g.adj && source != target && Placement.Within(g, used)
    ensures r.Err? ==> r.error == NoPathFound
    ensures r.Ok? ==> Chains(r.value, source, target) && SimpleHops(r.value, target) && Placement.OnLinks(g, r.value)
    ensures r.Ok? ==> Placement.Within(g, Placement.Charge(used, r.value, req))
  {
    r := Physical.FindPath(g, source, target, req, used);
    if r.Ok? {
      Placement.RouteKeepsWithin(g, used, r.value, req, source, target);
      forall j | 0 <= j < |r.value| ensures Physical.LinkBetween(g, r.value[j].src, r.value[j].dst).Some? {
        assert Physical.FirstFitting(g, req, used, r.value[j]);
      }
    }
  }

  /**
   * One pair of the link loop: find_path from phy to the machine of w
   * against rate_used plus temp_rate, then the path's hops booked in
   * temp_rate with the link's rate and appended to temp_paths[(u, w)].
   */
  method RoutePair(v: Virtual.VirtualNet, g: Physical.Network, mapping: map<NodeId, NodeId>, used: Placement.Used,
                   phy: NodeId, e: Pair, temp: Placement.Used, paths: EmbedVerify.Routing, order: seq<Pair>)
    returns (r: Result<(Placement.Used, EmbedVerify.Routing, seq<Pair>)>)
    requires Physical.Valid(g) && phy in g.adj && Tally(v, g, used, temp, paths, order)
    requires FromMachine(g, mapping, phy, paths) && e !in paths
    requires e.1 in Virtual.Neighbors(v, e.0) && e.1 in mapping && mapping[e.1] != phy
    ensures r.Err? ==> r.error == NoPathFound
    ensures r.Ok? ==> Tally(v, g, used, r.value.0, r.value.1, r.value.2)
    ensures r.Ok? ==> FromMachine(g, mapping, phy, r.value.1)
    ensures r.Ok? ==> forall x :: x in r.value.1 <==> x in paths || x == e
  {
    NeighborLink(v, e.0, e.1);
    var req := Virtual.ReqRate(v, e.0, e.1);
    var base := Sum(used, temp);
    var found := PathFrom(g, phy, mapping[e.1], req, base);
    if found.Err? {
      return Err(NoPathFound);
    }
    var booked, recorded := Placement.ChargePath(temp, found.value, req);
    assert Placement.Within(g, Sum(used, booked)) by {
      ChargeFrom(base, found.value, req);
      ChargeFrom(temp, found.value, req);
      SameCounts(g, Placement.Charge(base, found.value, req), Sum(used, booked));
    }
    // temp_paths[(u, w)] is still the empty list: every pair comes once.
    var paths' := paths[e := recorded];
    var order' := order + [e];
    TallyStep(v, g, used, temp, paths, order, e, found.value, booked);
    FromMachineStep(g, mapping, phy, paths, e, found.value);
    r := Ok((booked, paths', order'));
  }

  /** Booking one more path, of a link not stored yet, keeps the tally. */
  lemma TallyStep(v: Virtual.VirtualNet, g: Physical.Network, used: Placement.Used, temp: Placement.Used,
                  paths: EmbedVerify.Routing, order: seq<Pair>, e: Pair, hops: seq<Hop<Physical.DeviceKey>>,
                  booked: Placement.Used)
    requires Tally(v, g, used, temp, paths, order) && e !in paths && Virtual.RateIn(v.links, e.0, e.1).Some?
    requires booked == Placement.Charge(temp, hops, Virtual.ReqRate(v, e.0, e.1))
    requires Placement.Within(g, Sum(used, booked))
    ensures Tally(v, g, used, booked, paths[e := hops], order + [e])
  {
    var paths' := paths[e := hops];
    var order' := order + [e];
    BookedSame(v, paths, paths', order);
    assert order'[..|order|] == order;
    DistinctJoin(order, [e]);
    ChargeFrom(temp, hops, Virtual.ReqRate(v, e.0, e.1));
    ChargeFrom(Booked(v, paths, order), hops, Virtual.ReqRate(v, e.0, e.1));
  }

  lemma FromMachineStep(g: Physical.Network, mapping: map<NodeId, NodeId>, phy: NodeId, paths: EmbedVerify.Routing,
                        e: Pair, hops: seq<Hop<Physical.DeviceKey>>)
    requires FromMachine(g, mapping, phy, paths) && e.1 in mapping
    requires Chains(hops, phy, mapping[e.1]) && SimpleHops(hops, mapping[e.1]) && Placement.OnLinks(g, hops)
    ensures FromMachine(g, mapping, phy, paths[e := hops])
  {
  }

  /**
   * The link loop of one machine: every pair (u, w) leaving the partition
   * whose w is placed on another machine gets a path, in pair order;
   * NoPathFoundError ends the loop.
   */
  method RoutePairs(v: Virtual.VirtualNet, g: Physical.Network, mapping: map<NodeId, NodeId>, used: Placement.Used,
                    phy: NodeId, pairs: seq<Pair>)
    returns (r: Result<(Placement.Used, EmbedVerify.Routing, seq<Pair>)>)
    requires Physical.Valid(g) && phy in g.adj && Placement.Within(g, used)
    requires Distinct(pairs) && forall k :: 0 <= k < |pairs| ==> pairs[k].1 in Virtual.Neighbors(v, pairs[k].0)
    ensures r.Err? ==> r.error == NoPathFound
    ensures r.Ok? ==> Tally(v, g, used, r.value.0, r.value.1, r.value.2) && FromMachine(g, mapping, phy, r.value.1)
    ensures r.Ok? ==> forall e :: e in r.value.1 <==> e in pairs && e.1 in mapping && mapping[e.1] != phy
  {
    var temp: Placement.Used := map[];
    var paths: EmbedVerify.Routing := map[];
    var order: seq<Pair> := [];
    assert Sum(used, temp) == used;
    var k := 0;
    while k < |pairs|
      invariant 0 <= k <= |pairs|
      invariant Tally(v, g, used, temp, paths, order) && FromMachine(g, mapping, phy, paths)
      invariant forall e :: e in paths <==> e in pairs[..k] && e.1 in mapping && mapping[e.1] != phy
    {
      var e := pairs[k];
      assert pairs[..k + 1] == pairs[..k] + [e];
      if e.1 in mapping && mapping[e.1] != phy {
        assert e !in pairs[..k];
        var next := RoutePair(v, g, mapping, used, phy, e, temp, paths, order);
        if next.Err? {
          return Err(NoPathFound);
        }
        temp, paths, order := next.value.0, next.value.1, next.value.2;
      }
      k := k + 1;
    }
    assert pairs[..k] == pairs;
    r := Ok((temp, paths, order));
  }

  /*
   * Placing a partition on a machine.
   */

  /** node.cores + cores_used[phy] and node.memory + memory_used[phy] within the machine's. */
  predicate DemandsFit(g: Physical.Network, node: TreeNode, phy: NodeId, b: Booking)
  {
    node.cores + Get(b.coresUsed, phy) <= Physical.Cores(g, phy) &&
    node.memory + Get(b.memoryUsed, phy) <= Physical.Memory(g, phy)
  }

  /** res_node_mapping after the commit loop: the entries before, and every node of xs on phy. */
  ghost predicate PlacedOn(before: map<NodeId, NodeId>, mapping: map<NodeId, NodeId>, xs: seq<NodeId>, phy: NodeId)
  {
    (forall u :: u in mapping <==> u in before || u in xs) &&
    (forall u :: u in mapping ==> mapping[u] == if u in xs then phy else before[u])
  }

  /**
   * The commit loop: `res_node_mapping[u] = phy` and
   * `assigned[phy].append(u)` for every node u of the partition, listed
   * as xs; none of them is placed yet.
   */
  method AssignAll(mapping: map<NodeId, NodeId>, order: seq<NodeId>, hosted: set<NodeId>, xs: seq<NodeId>, phy: NodeId)
    returns (mapping': map<NodeId, NodeId>, order': seq<NodeId>, hosted': set<NodeId>)
    requires Distinct(xs) && forall u :: u in xs ==> u !in mapping
    ensures PlacedOn(mapping, mapping', xs, phy) && order' == order + xs
    ensures forall u :: u in hosted' <==> u in hosted || u in xs
  {
    mapping', order', hosted' := mapping, order, hosted;
    for k := 0 to |xs|
      invariant PlacedOn(mapping, mapping', xs[..k], phy) && order' == order + xs[..k]
      invariant forall u :: u in hosted' <==> u in hosted || u in xs[..k]
    {
      assert xs[..k + 1] == xs[..k] + [xs[k]];
      mapping' := mapping'[xs[k] := phy];
      order' := order' + [xs[k]];
      hosted' := hosted' + {xs[k]};
    }
    assert xs[..|xs|] == xs;
  }

  /** The commit keeps every placed node listed by its machine and every listed node placed there. */
  lemma CommitAssignment(v: Virtual.VirtualNet, g: Physical.Network, b: Booking, phy: NodeId, X: set<NodeId>,
                         xs: seq<NodeId>, b': Booking)
    requires Assignment(v, g, b) && phy in Physical.ComputeNodes(g)
    requires X <= KBalanced.NodeSet(v) && X !! b.placed && Lists(xs, X)
    requires PlacedOn(b.mapping, b'.mapping, xs, phy) && b'.order == b.order + xs
    requires b'.hosted == b.hosted[phy := AssignedTo(b.hosted, phy) + X] && b'.placed == b.placed + X
    ensures Assignment(v, g, b')
  {
    forall u | u in xs ensures u !in b.order {
      assert u in X;
    }
    DistinctJoin(b.order, xs);
    assert b'.placed == b'.mapping.Keys by {
      forall u ensures u in b'.placed <==> u in b'.mapping {
        assert u in X <==> u in xs;
      }
    }
    forall u | u in b'.mapping
      ensures u in v.nodes && b'.mapping[u] in Physical.ComputeNodes(g) && u in AssignedTo(b'.hosted, b'.mapping[u])
    {
      if u in xs {
        assert u in X;
      }
    }
    forall p, u | p in b'.hosted && u in b'.hosted[p] ensures u in b'.mapping && b'.mapping[u] == p {
      if p == phy && u !in X {
        assert u in AssignedTo(b.hosted, phy);
        assert u in b.placed;
        assert u !in xs;
      } else if p != phy {
        assert u in b.placed;
        assert u !in xs;
      }
    }
  }

  /** The commit keeps every machine's counters equal to its nodes' demands, and within its capacities. */
  lemma CommitCapacities(v: Virtual.VirtualNet, g: Physical.Network, b: Booking, phy: NodeId, node: TreeNode, b': Booking)
    requires Assignment(v, g, b) && Capacities(v, g, b) && node.partition !! b.placed
    requires node.cores == PartDemand(v, Cores, node.partition) && node.memory == PartDemand(v, Memory, node.partition)
    requires DemandsFit(g, node, phy, b)
    requires OutRate(v, node.partition + AssignedTo(b.hosted, phy)) <= Physical.RateOut(g, phy)
    requires b'.coresUsed == b.coresUsed[phy := Get(b.coresUsed, phy) + node.cores]
    requires b'.memoryUsed == b.memoryUsed[phy := Get(b.memoryUsed, phy) + node.memory]
    requires b'.hosted == b.hosted[phy := AssignedTo(b.hosted, phy) + node.partition]
    ensures Capacities(v, g, b')
  {
    var X := node.partition;
    var A := AssignedTo(b.hosted, phy);
    assert A !! X by {
      forall u | u in A ensures u in b.placed {
        assert u in b.hosted[phy];
      }
    }
    SetDemandSplits(v, Cores, v.nodes, A, X);
    SetDemandSplits(v, Memory, v.nodes, A, X);
    assert X + A == A + X;
    if phy !in b.hosted {
      assert A + X == X;
    }
  }

  /** The link loop's pairs: the links leaving X, from X's members xs. */
  ghost predicate LoopPaths(v: Virtual.VirtualNet, mapping: map<NodeId, NodeId>, phy: NodeId, X: set<NodeId>,
                            xs: seq<NodeId>, paths: EmbedVerify.Routing)
  {
    forall e :: e in paths <==> e in Outgoing(v, xs, X) && e.1 in mapping && mapping[e.1] != phy
  }

  /** The commit keeps rate_used the tally of the stored paths, and within the interfaces' rates. */
  lemma CommitAccounted(v: Virtual.VirtualNet, g: Physical.Network, b: Booking, temp: Placement.Used,
                        paths: EmbedVerify.Routing, porder: seq<Pair>, b': Booking)
    requires Accounted(v, g, b) && Tally(v, g, b.used, temp, paths, porder)
    requires b.routing.Keys !! paths.Keys
    requires b'.routing == b.routing + paths && b'.pathOrder == b.pathOrder + porder && b'.used == Sum(b.used, temp)
    ensures Accounted(v, g, b')
  {
    forall e | e in porder ensures e !in b.pathOrder {
      assert e in paths;
    }
    DistinctJoin(b.pathOrder, porder);
    BookedAppend(v, b'.routing, b.pathOrder, porder);
    BookedSame(v, b.routing, b'.routing, b.pathOrder);
    BookedSame(v, paths, b'.routing, porder);
  }

  /** The commit keeps every stored path leading between its link's machines, the new ones from phy. */
  lemma CommitRoutes(v: Virtual.VirtualNet, g: Physical.Network, b: Booking, phy: NodeId, X: set<NodeId>,
                     xs: seq<NodeId>, paths: EmbedVerify.Routing, b': Booking)
    requires Routes(v, g, b) && Lists(xs, X) && b.routing.Keys !! paths.Keys
    requires (forall e :: e in b.routing ==> e.0 !in xs && e.1 !in xs)
    requires FromMachine(g, b.mapping, phy, paths) && LoopPaths(v, b.mapping, phy, X, xs, paths)
    requires PlacedOn(b.mapping, b'.mapping, xs, phy) && b'.routing == b.routing + paths
    ensures Routes(v, g, b')
  {
    forall e | e in b'.routing
      ensures Virtual.IsEdge(v, e.0, e.1) && Placement.RoutedBy(b'.mapping, b'.routing, e) && Placement.OnLinks(g, b'.routing[e])
    {
      if e in paths {
        assert e in Outgoing(v, xs, X);
        NeighborLink(v, e.0, e.1);
        assert e.1 !in xs;
      } else {
        assert Placement.RoutedBy(b.mapping, b.routing, e);
      }
    }
  }

  /** After the commit, every link between placed nodes on different machines still has a stored path. */
  lemma CommitConnected(v: Virtual.VirtualNet, b: Booking, phy: NodeId, X: set<NodeId>, xs: seq<NodeId>,
                        paths: EmbedVerify.Routing, b': Booking)
    requires Connected(v, b) && Lists(xs, X)
    requires LoopPaths(v, b.mapping, phy, X, xs, paths)
    requires PlacedOn(b.mapping, b'.mapping, xs, phy) && b'.routing == b.routing + paths
    ensures Connected(v, b')
  {
    forall u, w | Placement.Crossing(b'.mapping, (u, w)) && Virtual.IsEdge(v, u, w)
      ensures (u, w) in b'.routing || (w, u) in b'.routing
    {
      var t :| 0 <= t < |v.links| && Virtual.Joins(v.links[t], u, w);
      assert Virtual.Joins(v.links[t], w, u);
      if u in xs {
        assert w !in xs;
        assert w in Virtual.Neighbors(v, u);
        assert (u, w) in Outgoing(v, xs, X);
      } else if w in xs {
        assert u in Virtual.Neighbors(v, w);
        assert (w, u) in Outgoing(v, xs, X);
      } else {
        assert Placement.Crossing(b.mapping, (u, w));
      }
    }
  }

  /** Stored paths join placed nodes, so none touches a partition not placed yet, nor a pair leaving it. */
  lemma RoutedApart(v: Virtual.VirtualNet, g: Physical.Network, b: Booking, phy: NodeId, X: set<NodeId>,
                    xs: seq<NodeId>, paths: EmbedVerify.Routing)
    requires Routes(v, g, b) && b.placed == b.mapping.Keys && X !! b.placed && Lists(xs, X)
    requires LoopPaths(v, b.mapping, phy, X, xs, paths)
    ensures b.routing.Keys !! paths.Keys
    ensures forall e :: e in b.routing ==> e.0 !in xs && e.1 !in xs
  {
    forall e | e in b.routing ensures e.0 !in xs && e.1 !in xs && e !in paths {
      assert Placement.RoutedBy(b.mapping, b.routing, e);
      assert e.0 !in X && e.1 !in X;
      assert e.0 !in xs;
    }
  }

  /**
   * One machine of the first fit: NodeResourceError when the partition's
   * cores or memory do not fit beside what the machine already holds,
   * LinkCapacityError when the rate leaving the partition and the
   * machine's nodes together exceeds its rate_out, NoPathFoundError when a
   * link to a node placed elsewhere finds no path; otherwise the
   * partition is committed to the machine. (The source raises
   * NodeResourceError without arguments; the model names the machine and
   * the first resource short.)
   */
  method TryMachine(v: Virtual.VirtualNet, g: Physical.Network, node: TreeNode, phy: NodeId, b: Booking)
    returns (r: Result<Booking>)
    requires Virtual.Valid(v) && Physical.Valid(g) && Sound(v, g, b) && phy in Physical.ComputeNodes(g)
    requires node.partition <= KBalanced.NodeSet(v) && node.partition !! b.placed
    requires node.cores == PartDemand(v, Cores, node.partition) && node.memory == PartDemand(v, Memory, node.partition)
    ensures r.Err? ==> r.error == NodeResource(phy, Cores) || r.error == NodeResource(phy, Memory) ||
                       r.error == LinkCapacity || r.error == NoPathFound
    ensures (r.Err? && r.error.NodeResource?) <==> !DemandsFit(g, node, phy, b)
    ensures r == Err(LinkCapacity) <==>
      DemandsFit(g, node, phy, b) && OutRate(v, node.partition + AssignedTo(b.hosted, phy)) > Physical.RateOut(g, phy)
    ensures r.Err? ==> Refused(v, g, node, phy, b, r.error)
    ensures r.Ok? ==> Sound(v, g, r.value) && r.value.placed == b.placed + node.partition
    ensures r.Ok? ==> forall u :: u in node.partition ==> u in r.value.mapping && r.value.mapping[u] == phy
    ensures r.Ok? ==> forall u :: u in b.mapping ==> u in r.value.mapping && r.value.mapping[u] == b.mapping[u]
  {
    var X := node.partition;
    if node.cores + Get(b.coresUsed, phy) > Physical.Cores(g, phy) {
      return Err(NodeResource(phy, Cores));
    }
    if node.memory + Get(b.memoryUsed, phy) > Physical.Memory(g, phy) {
      return Err(NodeResource(phy, Memory));
    }
    var A := AssignedTo(b.hosted, phy);
    if OutRate(v, X + A) > Physical.RateOut(g, phy) {
      return Err(LinkCapacity);
    }
    var xs := Placement.ListSet(X);
    OutgoingDistinct(v, xs, X);
    var pairs := Outgoing(v, xs, X);
    var routed := RoutePairs(v, g, b.mapping, b.used, phy, pairs);
    if routed.Err? {
      return Err(NoPathFound);
    }
    var b' := Commit(v, g, node, phy, b, xs, routed.value.0, routed.value.1, routed.value.2);
    r := Ok(b');
  }

  /**
   * The commit of a partition that passed every check of a machine: its
   * nodes mapped to the machine and assigned to it, the link loop's paths
   * added to res_link_mapping, the partition's demands to the machine's
   * counters and temp_rate to rate_used.
   */
  method Commit(v: Virtual.VirtualNet, g: Physical.Network, node: TreeNode, phy: NodeId, b: Booking,
                xs: seq<NodeId>, temp: Placement.Used, paths: EmbedVerify.Routing, porder: seq<Pair>)
    returns (b': Booking)
    requires Virtual.Valid(v) && Sound(v, g, b) && phy in Physical.ComputeNodes(g)
    requires node.partition <= KBalanced.NodeSet(v) && node.partition !! b.placed && Lists(xs, node.partition)
    requires node.cores == PartDemand(v, Cores, node.partition) && node.memory == PartDemand(v, Memory, node.partition)
    requires DemandsFit(g, node, phy, b)
    requires OutRate(v, node.partition + AssignedTo(b.hosted, phy)) <= Physical.RateOut(g, phy)
    requires Tally(v, g, b.used, temp, paths, porder) && FromMachine(g, b.mapping, phy, paths)
    requires LoopPaths(v, b.mapping, phy, node.partition, xs, paths)
    ensures Sound(v, g, b') && b'.placed == b.placed + node.partition
    ensures forall u :: u in node.partition ==> u in b'.mapping && b'.mapping[u] == phy
    ensures forall u :: u in b.mapping ==> u in b'.mapping && b'.mapping[u] == b.mapping[u]
  {
    var X := node.partition;
    var A := AssignedTo(b.hosted, phy);
    forall u | u in xs ensures u !in b.mapping {
      assert u in X;
    }
    var mapping, order, hosted := AssignAll(b.mapping, b.order, A, xs, phy);
    assert hosted == A + X by {
      forall u ensures u in hosted <==> u in A + X {
        assert u in xs <==> u in X;
      }
    }
    b' := Booking(mapping, order, b.routing + paths, b.pathOrder + porder,
                  b.coresUsed[phy := Get(b.coresUsed, phy) + node.cores],
                  b.memoryUsed[phy := Get(b.memoryUsed, phy) + node.memory],
                  Sum(b.used, temp), b.hosted[phy := hosted], b.placed + X);
    RoutedApart(v, g, b, phy, X, xs, paths);
    CommitAssignment(v, g, b, phy, X, xs, b');
    CommitCapacities(v, g, b, phy, node, b');
    CommitAccounted(v, g, b, temp, paths, porder, b');
    CommitRoutes(v, g, b, phy, X, xs, paths, b');
    CommitConnected(v, b, phy, X, xs, paths, b');
    forall u | u in X ensures u in b'.mapping && b'.mapping[u] == phy {
      assert u in xs;
    }
  }

  /**
   * The error a machine refuses a partition with: NodeResourceError exactly
   * when its cores or memory would be exceeded, LinkCapacityError exactly
   * when they fit but its outgoing rate would be exceeded, and otherwise
   * NoPathFoundError from the link loop.
   */
  ghost predicate Refused(v: Virtual.VirtualNet, g: Physical.Network, node: TreeNode, phy: NodeId, b: Booking, err: Error)
  {
    (err == NodeResource(phy, Cores) || err == NodeResource(phy, Memory) || err == LinkCapacity || err == NoPathFound) &&
    (err.NodeResource? <==> !DemandsFit(g, node, phy, b)) &&
    (err == LinkCapacity <==>
      DemandsFit(g, node, phy, b) && OutRate(v, node.partition + AssignedTo(b.hosted, phy)) > Physical.RateOut(g, phy))
  }

  /**
   * The first fit over the machines considered: the first machine whose
   * checks pass takes the partition; the three errors move on to the next
   * machine, and when every machine refused, the state is as it was.
   */
  method PlaceNode(v: Virtual.VirtualNet, g: Physical.Network, machines: seq<NodeId>, node: TreeNode, b: Booking)
    returns (b': Booking, host: Option<nat>, ghost refusals: seq<Error>)
    requires Virtual.Valid(v) && Physical.Valid(g) && Sound(v, g, b)
    requires forall k :: 0 <= k < |machines| ==> machines[k] in Physical.ComputeNodes(g)
    requires node.partition <= KBalanced.NodeSet(v) && node.partition !! b.placed
    requires node.cores == PartDemand(v, Cores, node.partition) && node.memory == PartDemand(v, Memory, node.partition)
    ensures Sound(v, g, b')
    ensures |refusals| == (if host.Some? then host.value else |machines|)
    ensures forall k :: 0 <= k < |refusals| ==> k < |machines| && Refused(v, g, node, machines[k], b, refusals[k])
    ensures host.None? ==> b' == b
    ensures host.Some? ==> (host.value < |machines| && b'.placed == b.placed + node.partition &&
      forall u :: u in node.partition ==> u in b'.mapping && b'.mapping[u] == machines[host.value])
    ensures forall u :: u in b.mapping ==> u in b'.mapping && b'.mapping[u] == b.mapping[u]
  {
    refusals := [];
    var k := 0;
    while k < |machines|
      invariant 0 <= k <= |machines| && |refusals| == k
      invariant forall j :: 0 <= j < k ==> Refused(v, g, node, machines[j], b, refusals[j])
    {
      var tried := TryMachine(v, g, node, machines[k], b);
      if tried.Ok? {
        return tried.value, Some(k), refusals;
      }
      refusals := refusals + [tried.error];
      k := k + 1;
    }
    b', host := b, None;
  }

  /*
   * The breadth-first visit.
   */

  /** Children come after their parent. */
  ghost predicate Ordered(tree: seq<TreeNode>)
  {
    forall i :: 0 <= i < |tree| ==>
      (tree[i].left.Some? ==> i < tree[i].left.value < |tree|) && (tree[i].right.Some? ==> i < tree[i].right.value < |tree|)
  }

  lemma ShapedOrdered(v: Virtual.VirtualNet, tree: seq<TreeNode>)
    requires Shaped(v, tree)
    ensures Ordered(tree)
  {
    forall i | 0 <= i < |tree| ensures
      (tree[i].left.Some? ==> i < tree[i].left.value < |tree|) && (tree[i].right.Some? ==> i < tree[i].right.value < |tree|)
    {
      assert NodeShaped(v, tree, i);
    }
  }

  /** The number of nodes of the subtree under i. */
  function Size(tree: seq<TreeNode>, i: nat): nat
    requires Ordered(tree) && i < |tree|
    decreases |tree| - i
  {
    1 + (match tree[i].left case Some(l) => Size(tree, l) case None => 0)
      + (match tree[i].right case Some(r) => Size(tree, r) case None => 0)
  }

  /** The nodes the visit may still reach from the queue. */
  function Load(tree: seq<TreeNode>, queue: seq<nat>): nat
    requires Ordered(tree) && forall k :: 0 <= k < |queue| ==> queue[k] < |tree|
  {
    if |queue| == 0 then 0 else Load(tree, queue[..|queue| - 1]) + Size(tree, queue[|queue| - 1])
  }

  lemma {:induction false} LoadFront(tree: seq<TreeNode>, queue: seq<nat>)
    requires Ordered(tree) && |queue| > 0 && forall k :: 0 <= k < |queue| ==> queue[k] < |tree|
    ensures Load(tree, queue) == Size(tree, queue[0]) + Load(tree, queue[1..])
  {
    if |queue| > 1 {
      var init := queue[..|queue| - 1];
      LoadFront(tree, init);
      assert init[1..] == queue[1..][..|queue| - 2];
    }
  }

  /**
   * The queue of the visit: nodes of the tree whose partitions are
   * pairwise apart, each placed whole or not at all.
   */
  ghost predicate Visiting(tree: seq<TreeNode>, queue: seq<nat>, placed: set<NodeId>)
  {
    (forall k :: 0 <= k < |queue| ==> queue[k] < |tree|) &&
    (forall k :: 0 <= k < |queue| ==> tree[queue[k]].partition <= placed || tree[queue[k]].partition !! placed) &&
    (forall k, l :: 0 <= k < l < |queue| ==> tree[queue[k]].partition !! tree[queue[l]].partition)
  }

  /** Popping a node, placed or not, and queueing its halves keeps the queue's shape. */
  lemma VisitStep(v: Virtual.VirtualNet, tree: seq<TreeNode>, queue: seq<nat>, placed: set<NodeId>, placed': set<NodeId>)
    requires Shaped(v, tree) && |queue| > 0 && Visiting(tree, queue, placed)
    requires var p := tree[queue[0]].partition; p !! placed && (placed' == placed || placed' == placed + p)
    ensures var n := tree[queue[0]]; n.left.Some? && n.right.Some? ==>
      Visiting(tree, queue[1..] + [n.left.value, n.right.value], placed')
  {
    var n := tree[queue[0]];
    assert NodeShaped(v, tree, queue[0]);
    if n.left.Some? {
      var q := queue[1..] + [n.left.value, n.right.value];
      forall k | 0 <= k < |queue| - 1 ensures q[k] == queue[k + 1] && tree[q[k]].partition !! n.partition {
        assert tree[queue[0]].partition !! tree[queue[k + 1]].partition;
      }
    }
  }

  /** Queueing two nodes adds their sizes to the load. */
  lemma LoadPush(tree: seq<TreeNode>, rest: seq<nat>, l: nat, r: nat)
    requires Ordered(tree) && l < |tree| && r < |tree| && forall k :: 0 <= k < |rest| ==> rest[k] < |tree|
    ensures Load(tree, rest + [l, r]) == Load(tree, rest) + Size(tree, l) + Size(tree, r)
  {
    var q := rest + [l, r];
    assert q[..|rest| + 1] == rest + [l];
    assert (rest + [l])[..|rest|] == rest;
  }

  /** The queue without a node that was skipped, or without a leaf, keeps its shape. */
  lemma VisitDrop(tree: seq<TreeNode>, queue: seq<nat>, placed: set<NodeId>, placed': set<NodeId>)
    requires |queue| > 0 && Visiting(tree, queue, placed)
    requires var p := tree[queue[0]].partition; placed' == placed || (p !! placed && placed' == placed + p)
    ensures Visiting(tree, queue[1..], placed')
  {
    forall k | 0 <= k < |queue| - 1 ensures queue[1..][k] == queue[k + 1] {
    }
    if placed' != placed {
      forall k | 1 <= k < |queue| ensures tree[queue[0]].partition !! tree[queue[k]].partition {
      }
    }
  }

  /** The queue of the visit and the attempt's state, each consistent with the other. */
  ghost predicate Visits(v: Virtual.VirtualNet, g: Physical.Network, tree: seq<TreeNode>, machines: seq<NodeId>,
                         queue: seq<nat>, b: Booking)
  {
    Sound(v, g, b) && Visiting(tree, queue, b.placed) && forall u :: u in b.mapping ==> b.mapping[u] in machines
  }

  /**
   * One step of the visit: pop a node; one whose partition is placed
   * whole is skipped, any other goes to the first fit and has its halves
   * queued.
   */
  method Visit(v: Virtual.VirtualNet, g: Physical.Network, tree: seq<TreeNode>, machines: seq<NodeId>,
               queue: seq<nat>, b: Booking)
    returns (queue': seq<nat>, b': Booking)
    requires Virtual.Valid(v) && Physical.Valid(g) && PartitionTree(v, tree) && Ordered(tree)
    requires forall k :: 0 <= k < |machines| ==> machines[k] in Physical.ComputeNodes(g)
    requires |queue| > 0 && Visits(v, g, tree, machines, queue, b)
    ensures Visits(v, g, tree, machines, queue', b') && Load(tree, queue') < Load(tree, queue)
    ensures forall u :: u in b.mapping ==> u in b'.mapping && b'.mapping[u] == b.mapping[u]
  {
    var current := queue[0];
    LoadFront(tree, queue);
    var node := tree[current];
    if node.partition <= b.placed {
      VisitDrop(tree, queue, b.placed, b.placed);
      return queue[1..], b;
    }
    assert NodeShaped(v, tree, current);
    var host;
    ghost var refusals;
    b', host, refusals := PlaceNode(v, g, machines, node, b);
    if node.left.Some? {
      VisitStep(v, tree, queue, b.placed, b'.placed);
      var rest := queue[1..];
      queue' := rest + [node.left.value, node.right.value];
      LoadPush(tree, rest, node.left.value, node.right.value);
      assert Load(tree, queue') < Load(tree, queue);
    } else {
      VisitDrop(tree, queue, b.placed, b'.placed);
      queue' := queue[1..];
    }
    assert Assignment(v, g, b') && Assignment(v, g, b);
    forall u | u in b'.mapping ensures b'.mapping[u] in machines {
      if u !in b.mapping {
        assert host.Some? && u in node.partition;
      }
    }
  }

  /**
   * One attempt of solve() on the machines considered: fresh counters,
   * then bfs_visit() from the root, skipping every partition already
   * placed whole; each partition it yields goes on the first machine that
   * takes it, and its halves are queued either way.
   */
  method Attempt(v: Virtual.VirtualNet, g: Physical.Network, tree: seq<TreeNode>, machines: seq<NodeId>)
    returns (b: Booking)
    requires Virtual.Valid(v) && Physical.Valid(g) && PartitionTree(v, tree)
    requires forall k :: 0 <= k < |machines| ==> machines[k] in Physical.ComputeNodes(g)
    ensures Sound(v, g, b)
    ensures forall u :: u in b.mapping ==> b.mapping[u] in machines
  {
    ShapedOrdered(v, tree);
    b := Empty();
    var queue: seq<nat> := [0];
    while |queue| > 0
      invariant Visits(v, g, tree, machines, queue, b)
      decreases Load(tree, queue)
    {
      queue, b := Visit(v, g, tree, machines, queue, b);
    }
  }

  /**
   * The end of a successful attempt: build_solution without its check,
   * which in a grouped network needs the machines' paths to meet only
   * through switches.
   */
  method Finish(solver: Placement.EmbedSolver, b: Booking) returns (o: Placement.Outcome)
    requires Virtual.Valid(solver.virtual) && Sound(solver.virtual, solver.physical, b)
    requires solver.physical.grouped ==> KBalanced.MachinesApart(solver.physical)
    modifies solver
    ensures o.Solved? ==> o.mapping == b.mapping && o.routing == b.routing
    ensures o.Solved? ==> solver.status == Placement.StatusOf(o) && solver.solution == Some((o.mapping, o.routing))
    ensures !o.Solved? ==> solver.status == old(solver.status) && solver.solution == old(solver.solution)
    ensures !o.Infeasible?
  {
    var v, g := solver.virtual, solver.physical;
    assert Assignment(v, g, b) && Routes(v, g, b) && Accounted(v, g, b);
    if g.grouped {
      KBalanced.RoutesEndApart(g, b.mapping, b.routing);
    }
    var built := EmbedBuild.BuildSolution(v, g, b.mapping, b.order, b.routing, b.pathOrder, false);
    match built {
      case Returns(_) =>
        o := Placement.Solved(b.mapping, b.routing);
        solver.Record(o);
      case Raises(err) => o := Placement.Raised(err);
      case Diverges => o := Placement.Diverges;
    }
  }

  /**
   * EmbedGreedy.solve: the partition tree is built once (its errors end
   * the solve); the compute nodes are sorted by cores * 1000 + memory +
   * rate_out, largest first; for n from the lower bound up to the number
   * of machines, an attempt on the first n. The first attempt that places
   * every virtual node is built into the solution without a check and is
   * Solved; Infeasible when every n falls short.
   */
  method SolveGreedy(solver: Placement.EmbedSolver, algo: string, bisect: KBalanced.Bisection,
                     draws: set<NodeId> -> seq<nat>)
    returns (o: Placement.Outcome, ghost tries: nat)
    requires Virtual.Valid(solver.virtual) && Physical.Valid(solver.physical)
    requires solver.physical.grouped ==> KBalanced.MachinesApart(solver.physical)
    requires KBalanced.IsBisection(bisect) && Draws(solver.virtual, draws)
    modifies solver
    ensures o.Solved? ==> o.mapping.Keys == KBalanced.NodeSet(solver.virtual)
    ensures o.Solved? ==> exists b :: Sound(solver.virtual, solver.physical, b) && b.mapping == o.mapping && b.routing == o.routing
    ensures Physical.ComputeNodes(solver.physical) == {} ==> o.Raised? && o.error in {ZeroDivision, ValueError, StopIteration} && tries == 0
    ensures o.Solved? ==> (Physical.ComputeNodes(solver.physical) != {} &&
      LowerBound.Value(solver.virtual, solver.physical) + tries <= |Physical.ComputeNodes(solver.physical)|)
    ensures o.Infeasible? ==> (Physical.ComputeNodes(solver.physical) != {} &&
      tries == LowerBound.Span(LowerBound.Value(solver.virtual, solver.physical), |Physical.ComputeNodes(solver.physical)|))
    ensures o.Solved? || o.Infeasible? ==> solver.status == Placement.StatusOf(o)
    ensures o.Solved? ==> solver.solution == Some((o.mapping, o.routing))
    ensures !(o.Solved? || o.Infeasible?) ==> solver.status == old(solver.status) && solver.solution == old(solver.solution)
  {
    var v, g := solver.virtual, solver.physical;
    var tree := BuildTree(v, algo, bisect, draws);
    if tree.Err? {
      return Placement.Raised(tree.error), 0;
    }
    var machines := Placement.SortedMachines(g, Placement.ResourceRateKey(g));
    var bound := solver.LowerBoundOf();
    if bound.Err? {
      return Placement.Raised(bound.error), 0;
    }
    var lb := bound.value;
    var n := lb;
    tries := 0;
    while n <= |machines|
      invariant n == lb + tries && (tries == 0 || n <= |machines| + 1)
      invariant solver.status == old(solver.status) && solver.solution == old(solver.solution)
      decreases |machines| + 1 - n
    {
      var b := Attempt(v, g, tree.value, machines[..n]);
      if b.mapping.Keys == KBalanced.NodeSet(v) {
        o := Finish(solver, b);
        return o, tries;
      }
      tries := tries + 1;
      n := n + 1;
    }
    o := Placement.Infeasible;
    solver.Record(o);
  }
}
