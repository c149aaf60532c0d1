/*
 * The min-cut splitter of the greedy embedding's partition tree: the
 * union-find helper (union by rank, with the members of every class kept
 * beside its root) and Karger's random contraction, with numpy's weighted
 * permutation of the edges taken as a given order.
 */
module Karger {
  import opened Common
  import Virtual
  import KBalanced

  /**
   * The parent forest of a union-find: every parent is itself a node, a
   * parent other than the node itself has a strictly larger rank, and no
   * rank reaches the number of nodes.
   */
  ghost predicate Forest(parents: map<NodeId, NodeId>, ranks: map<NodeId, nat>)
  {
    parents.Keys == ranks.Keys &&
    forall x {:trigger parents[x]} :: x in parents ==>
      parents[x] in parents && ranks[x] < |ranks| && (parents[x] != x ==> ranks[x] < ranks[parents[x]])
  }

  /** find(u): follow the parents up to the node that is its own parent. */
  function Root(parents: map<NodeId, NodeId>, ranks: map<NodeId, nat>, x: NodeId): (r: NodeId)
    requires Forest(parents, ranks) && x in parents
    ensures r in parents && parents[r] == r
    decreases |ranks| - ranks[x]
  {
    if parents[x] == x then x else Root(parents, ranks, parents[x])
  }

  /** The keys of subsets are exactly the roots. */
  ghost predicate Rooted(parents: map<NodeId, NodeId>, subsets: map<NodeId, set<NodeId>>)
  {
    forall r {:trigger r in subsets} :: r in subsets <==> r in parents && parents[r] == r
  }

  /** Every member of a class has that class's key as its root. */
  ghost predicate Members(parents: map<NodeId, NodeId>, ranks: map<NodeId, nat>, subsets: map<NodeId, set<NodeId>>)
    requires Forest(parents, ranks)
  {
    forall r, x {:trigger x in subsets[r]} :: r in subsets && x in subsets[r] ==> x in parents && Root(parents, ranks, x) == r
  }

  /** Every node is in the class of its root. */
  ghost predicate Covered(parents: map<NodeId, NodeId>, ranks: map<NodeId, nat>, subsets: map<NodeId, set<NodeId>>)
    requires Forest(parents, ranks)
  {
    forall x {:trigger Root(parents, ranks, x)} :: x in parents ==>
      Root(parents, ranks, x) in subsets && x in subsets[Root(parents, ranks, x)]
  }

  /** subsets has one entry per root, holding exactly the nodes whose root it is. */
  ghost predicate Classes(parents: map<NodeId, NodeId>, ranks: map<NodeId, nat>, subsets: map<NodeId, set<NodeId>>)
    requires Forest(parents, ranks)
  {
    Rooted(parents, subsets) && Members(parents, ranks, subsets) && Covered(parents, ranks, subsets)
  }

  /** A root of rank k heads more than k nodes (union by rank). */
  ghost predicate Sized(ranks: map<NodeId, nat>, subsets: map<NodeId, set<NodeId>>)
  {
    forall r :: r in subsets ==> r in ranks && ranks[r] < |subsets[r]|
  }

  lemma {:induction false} SubsetSize(a: set<NodeId>, b: set<NodeId>)
    requires a <= b
    ensures |a| <= |b|
    decreases |a|
  {
    if a != {} {
      NonEmptyHasNode(a);
      var x :| x in a;
      SubsetSize(a - {x}, b - {x});
    }
  }

  /**
   * Hanging root a under root b: every node whose root was a now reaches
   * b, and every other node keeps its root.
   */
  lemma {:induction false} RootAfterLink(parents: map<NodeId, NodeId>, ranks: map<NodeId, nat>, ranks2: map<NodeId, nat>,
                                         a: NodeId, b: NodeId, x: NodeId)
    requires Forest(parents, ranks) && a in parents && b in parents && parents[a] == a && parents[b] == b && a != b
    requires Forest(parents[a := b], ranks2) && x in parents
    ensures Root(parents[a := b], ranks2, x) ==
      if Root(parents, ranks, x) == a then b else Root(parents, ranks, x)
    decreases |ranks| - ranks[x]
  {
    var linked := parents[a := b];
    if parents[x] == x {
      if x == a {
        assert Root(linked, ranks2, b) == b;
      }
    } else {
      assert linked[x] == parents[x];
      RootAfterLink(parents, ranks, ranks2, a, b, parents[x]);
    }
  }

  /** Two different classes share no node, and together stay within the nodes. */
  lemma ClassesApart(parents: map<NodeId, NodeId>, ranks: map<NodeId, nat>, subsets: map<NodeId, set<NodeId>>,
                     a: NodeId, b: NodeId)
    requires Forest(parents, ranks) && Classes(parents, ranks, subsets)
    requires a in subsets && b in subsets && a != b
    ensures subsets[a] !! subsets[b] && subsets[a] + subsets[b] <= parents.Keys
  {
    forall x | x in subsets[a] ensures x !in subsets[b] && x in parents {
      assert Root(parents, ranks, x) == a;
    }
    forall x | x in subsets[b] ensures x in parents {
      assert Root(parents, ranks, x) == b;
    }
  }

  /** Union by rank keeps the forest: the new parent outranks a, and b's rank stays below the node count. */
  lemma LinkForest(parents: map<NodeId, NodeId>, ranks: map<NodeId, nat>, subsets: map<NodeId, set<NodeId>>,
                   a: NodeId, b: NodeId, ranks2: map<NodeId, nat>)
    requires Forest(parents, ranks) && Classes(parents, ranks, subsets) && Sized(ranks, subsets)
    requires a in subsets && b in subsets && a != b
    requires ranks[a] < ranks[b] ==> ranks2 == ranks
    requires ranks[a] == ranks[b] ==> ranks2 == ranks[b := ranks[b] + 1]
    requires ranks[a] <= ranks[b]
    ensures Forest(parents[a := b], ranks2)
    ensures ranks2[b] < |subsets[b] + subsets[a]|
  {
    ClassesApart(parents, ranks, subsets, a, b);
    assert subsets[b] + subsets[a] == subsets[a] + subsets[b];
    assert |subsets[a] + subsets[b]| == |subsets[a]| + |subsets[b]|;
    SubsetSize(subsets[a] + subsets[b], parents.Keys);
    assert ranks2.Keys == ranks.Keys;
  }

  /**
   * The classes after one union: after hanging root a under root b, b's
   * class is the two old ones and a's entry is gone.
   */
  lemma LinkClasses(parents: map<NodeId, NodeId>, ranks: map<NodeId, nat>, subsets: map<NodeId, set<NodeId>>,
                    a: NodeId, b: NodeId, ranks2: map<NodeId, nat>)
    requires Forest(parents, ranks) && Classes(parents, ranks, subsets)
    requires a in subsets && b in subsets && a != b
    requires Forest(parents[a := b], ranks2)
    ensures Classes(parents[a := b], ranks2, subsets[b := subsets[b] + subsets[a]] - {a})
  {
    var linked := parents[a := b];
    var merged := subsets[b := subsets[b] + subsets[a]] - {a};
    assert Members(linked, ranks2, merged) by {
      forall r, x | r in merged && x in merged[r] ensures x in linked && Root(linked, ranks2, x) == r {
        if r == b {
          assert x in subsets[b] || x in subsets[a];
        } else {
          assert x in subsets[r];
        }
        RootAfterLink(parents, ranks, ranks2, a, b, x);
      }
    }
    assert Covered(linked, ranks2, merged) by {
      forall x | x in linked ensures Root(linked, ranks2, x) in merged && x in merged[Root(linked, ranks2, x)] {
        assert x in subsets[Root(parents, ranks, x)];
        RootAfterLink(parents, ranks, ranks2, a, b, x);
      }
    }
    assert Rooted(linked, merged) by {
      forall r ensures r in merged <==> r in linked && linked[r] == r {
        assert r in merged <==> r in subsets && r != a;
      }
    }
  }

  /** One union keeps all three invariants of the structure. */
  lemma LinkKeeps(parents: map<NodeId, NodeId>, ranks: map<NodeId, nat>, subsets: map<NodeId, set<NodeId>>,
                  a: NodeId, b: NodeId, ranks2: map<NodeId, nat>)
    requires Forest(parents, ranks) && Classes(parents, ranks, subsets) && Sized(ranks, subsets)
    requires a in subsets && b in subsets && a != b
    requires ranks[a] < ranks[b] ==> ranks2 == ranks
    requires ranks[a] == ranks[b] ==> ranks2 == ranks[b := ranks[b] + 1]
    requires ranks[a] <= ranks[b]
    ensures Forest(parents[a := b], ranks2)
    ensures Classes(parents[a := b], ranks2, subsets[b := subsets[b] + subsets[a]] - {a})
    ensures Sized(ranks2, subsets[b := subsets[b] + subsets[a]] - {a})
  {
    LinkForest(parents, ranks, subsets, a, b, ranks2);
    LinkClasses(parents, ranks, subsets, a, b, ranks2);
  }

  class UnionFind {
    var parents: map<NodeId, NodeId>
    var ranks: map<NodeId, nat>
    var subsets: map<NodeId, set<NodeId>>

    ghost predicate Valid()
      reads this
    {
      Forest(parents, ranks) && Classes(parents, ranks, subsets) && Sized(ranks, subsets)
    }

    /** Every node its own root, of rank 0, alone in its class. */
    constructor (nodes: seq<NodeId>)
      ensures Valid()
      ensures parents == (map x | x in nodes :: x) && ranks == (map x | x in nodes :: 0)
      ensures subsets == map x | x in nodes :: {x}
    {
      parents := map x | x in nodes :: x;
      ranks := map x | x in nodes :: 0;
      subsets := map x | x in nodes :: {x};
      new;
      forall x | x in parents ensures ranks[x] < |ranks| {
        assert ranks != map[];
      }
      assert forall x :: x in parents ==> Root(parents, ranks, x) == x;
    }

    /** The root of x's class, which holds x. */
    function Find(x: NodeId): (r: NodeId)
      reads this
      requires Valid() && x in parents
      ensures r in subsets && x in subsets[r]
    {
      Root(parents, ranks, x)
    }

    /**
     * union(u, v) of two different classes: the root of lower rank hangs
     * under the other; on equal ranks v's root hangs under u's, whose rank
     * goes up by one. The surviving root's class absorbs the other one,
     * whose entry is deleted.
     */
    method Union(u: NodeId, v: NodeId)
      requires Valid() && u in parents && v in parents && Find(u) != Find(v)
      modifies this
      ensures Valid()
      ensures var ur, vr := old(Find(u)), old(Find(v));
        var a, b := if old(ranks[ur] < ranks[vr]) then ur else vr, if old(ranks[ur] < ranks[vr]) then vr else ur;
        parents == old(parents)[a := b] &&
        ranks == (if old(ranks[ur] == ranks[vr]) then old(ranks)[b := old(ranks[b]) + 1] else old(ranks)) &&
        subsets == old(subsets)[b := old(subsets[b] + subsets[a])] - {a}
      ensures parents.Keys == old(parents).Keys && |subsets.Keys| == |old(subsets).Keys| - 1
      ensures Find(u) == Find(v)
    {
      var ur, vr := Find(u), Find(v);
      ghost var S := subsets;
      if ranks[ur] < ranks[vr] {
        LinkKeeps(parents, ranks, subsets, ur, vr, ranks);
        RootAfterLink(parents, ranks, ranks, ur, vr, u);
        RootAfterLink(parents, ranks, ranks, ur, vr, v);
        parents := parents[ur := vr];
        subsets := subsets[vr := subsets[vr] + subsets[ur]] - {ur};
        assert subsets.Keys == S.Keys - {ur};
      } else if ranks[ur] > ranks[vr] {
        LinkKeeps(parents, ranks, subsets, vr, ur, ranks);
        RootAfterLink(parents, ranks, ranks, vr, ur, u);
        RootAfterLink(parents, ranks, ranks, vr, ur, v);
        parents := parents[vr := ur];
        subsets := subsets[ur := subsets[ur] + subsets[vr]] - {vr};
        assert subsets.Keys == S.Keys - {vr};
      } else {
        var raised := ranks[ur := ranks[ur] + 1];
        LinkKeeps(parents, ranks, subsets, vr, ur, raised);
        RootAfterLink(parents, ranks, raised, vr, ur, u);
        RootAfterLink(parents, ranks, raised, vr, ur, v);
        parents := parents[vr := ur];
        ranks := raised;
        subsets := subsets[ur := subsets[ur] + subsets[vr]] - {vr};
        assert subsets.Keys == S.Keys - {vr};
      }
    }
  }

  /** subsets.values(): the classes in the order their roots were first inserted. */
  function Values(order: seq<NodeId>, m: map<NodeId, set<NodeId>>): (parts: seq<set<NodeId>>)
  {
    var keys := Restrict(order, m.Keys);
    seq(|keys|, i requires 0 <= i < |keys| => m[keys[i]])
  }

  /** A list without repeats that holds exactly the members of s is as long as s is large. */
  lemma {:induction false} ListSize(keys: seq<NodeId>, s: set<NodeId>)
    requires Distinct(keys) && forall x :: x in keys <==> x in s
    ensures |keys| == |s|
  {
    if |keys| > 0 {
      var last := keys[|keys| - 1];
      var init := keys[..|keys| - 1];
      assert forall x :: x in init <==> x in s - {last} by {
        forall x ensures x in init <==> x in s - {last} {
          if x in init {
            var i :| 0 <= i < |init| && init[i] == x;
            assert keys[i] == x && i < |keys| - 1;
          }
        }
      }
      assert last in s;
      ListSize(init, s - {last});
    } else {
      assert forall x :: x !in s;
      assert s == {};
    }
  }

  /** Each listed class holds its root. */
  lemma ValuesNonEmpty(parents: map<NodeId, NodeId>, ranks: map<NodeId, nat>, subsets: map<NodeId, set<NodeId>>,
                       nodes: seq<NodeId>)
    requires Forest(parents, ranks) && Classes(parents, ranks, subsets)
    ensures var parts := Values(nodes, subsets); forall k :: 0 <= k < |parts| ==> parts[k] != {}
  {
    var keys := Restrict(nodes, subsets.Keys);
    var parts := Values(nodes, subsets);
    forall k | 0 <= k < |parts| ensures parts[k] != {} {
      var key := keys[k];
      assert key in subsets;
      assert Rooted(parents, subsets);
      assert key in subsets <==> key in parents && parents[key] == key;
      assert key in parents && parents[key] == key;
      assert Root(parents, ranks, keys[k]) == keys[k];
      assert keys[k] in parts[k];
    }
  }

  /** Classes listed under different roots share no node. */
  lemma ValuesDisjoint(parents: map<NodeId, NodeId>, ranks: map<NodeId, nat>, subsets: map<NodeId, set<NodeId>>,
                       nodes: seq<NodeId>)
    requires Forest(parents, ranks) && Classes(parents, ranks, subsets) && Distinct(nodes)
    ensures KBalanced.Disjoint(Values(nodes, subsets))
  {
    var keys := Restrict(nodes, subsets.Keys);
    var parts := Values(nodes, subsets);
    forall i, j | 0 <= i < j < |parts| ensures parts[i] !! parts[j] {
      forall x | x in parts[i] ensures x !in parts[j] {
        assert keys[i] in subsets && keys[j] in subsets;
        assert Root(parents, ranks, x) == keys[i];
      }
    }
  }

  /** Every node of the structure is in the class of its root, which is listed. */
  lemma ValuesCover(parents: map<NodeId, NodeId>, ranks: map<NodeId, nat>, subsets: map<NodeId, set<NodeId>>,
                    nodes: seq<NodeId>)
    requires Forest(parents, ranks) && Classes(parents, ranks, subsets)
    requires forall x :: x in parents <==> x in nodes
    ensures KBalanced.UnionOf(Values(nodes, subsets)) == set x | x in nodes
  {
    var keys := Restrict(nodes, subsets.Keys);
    var parts := Values(nodes, subsets);
    var all := set x | x in nodes;
    forall x ensures x in KBalanced.UnionOf(parts) <==> x in all {
      KBalanced.InUnion(parts, x);
      if x in all {
        var root := Root(parents, ranks, x);
        assert root in keys;
        var k :| 0 <= k < |keys| && keys[k] == root;
        assert x in parts[k];
      }
      if x in KBalanced.UnionOf(parts) {
        var k :| 0 <= k < |parts| && x in parts[k];
        var key := keys[k];
        assert key in subsets && x in subsets[key];
        assert Members(parents, ranks, subsets);
        assert x in parents;
      }
    }
  }

  /**
   * With every node of a distinct node list in the structure, the classes
   * listed in node order are non-empty, pairwise disjoint, hold every
   * node, and there is one per root.
   */
  lemma ValuesPartition(parents: map<NodeId, NodeId>, ranks: map<NodeId, nat>, subsets: map<NodeId, set<NodeId>>,
                        nodes: seq<NodeId>)
    requires Forest(parents, ranks) && Classes(parents, ranks, subsets)
    requires Distinct(nodes) && forall x :: x in parents <==> x in nodes
    ensures var parts := Values(nodes, subsets);
      KBalanced.Partitions(parts, set x | x in nodes) && |parts| == |subsets.Keys| &&
      forall k :: 0 <= k < |parts| ==> parts[k] != {}
  {
    var keys := Restrict(nodes, subsets.Keys);
    assert forall x :: x in keys <==> x in subsets.Keys;
    ListSize(keys, subsets.Keys);
    ValuesNonEmpty(parents, ranks, subsets, nodes);
    ValuesDisjoint(parents, ranks, subsets, nodes);
    ValuesCover(parents, ranks, subsets, nodes);
  }

  /** choice refuses the weights unless there is an edge and every edge has a positive rate. */
  predicate Drawable(links: seq<Virtual.VLink>)
  {
    |links| > 0 && forall t :: 0 <= t < |links| ==> links[t].rate > 0
  }

  /** A permutation of the edge indices, as choice(arange(m), size=m, replace=False) draws it. */
  ghost predicate Permutes(order: seq<nat>, m: nat)
  {
    |order| == m && Distinct(order) && forall k :: 0 <= k < |order| ==> order[k] < m
  }

  /**
   * One drawn edge: its ends' classes are merged when they differ, which
   * leaves one class fewer; otherwise nothing changes.
   */
  method Contract(uf: UnionFind, u: NodeId, v: NodeId) returns (merged: bool)
    requires uf.Valid() && u in uf.parents && v in uf.parents
    modifies uf
    ensures uf.Valid() && uf.parents.Keys == old(uf.parents.Keys)
    ensures merged <==> old(uf.Find(u) != uf.Find(v))
    ensures |uf.subsets.Keys| == old(|uf.subsets.Keys|) - (if merged then 1 else 0)
    ensures !merged ==> unchanged(uf)
  {
    merged := uf.Find(u) != uf.Find(v);
    if merged {
      uf.Union(u, v);
    }
  }

  /**
   * min_cut(g): Karger's contraction over the edges in the drawn order,
   * merging the classes of an edge's ends while more than two classes are
   * left. The draw itself fails (ValueError) without an edge or with an
   * edge of rate 0; running out of edges is StopIteration. The classes
   * returned split the nodes: one class per node up to two nodes, two
   * classes otherwise.
   */
  method MinCut(nodes: seq<NodeId>, links: seq<Virtual.VLink>, order: seq<nat>)
    returns (r: Result<seq<set<NodeId>>>)
    requires Distinct(nodes)
    requires forall t :: 0 <= t < |links| ==> links[t].u in nodes && links[t].v in nodes
    requires Drawable(links) ==> Permutes(order, |links|)
    ensures r == Err(ValueError) <==> !Drawable(links)
    ensures r.Err? ==> r.error == ValueError || r.error == StopIteration
    ensures Drawable(links) && |nodes| <= 2 ==> r.Ok?
    ensures r.Ok? ==> KBalanced.Partitions(r.value, set x | x in nodes)
    ensures r.Ok? ==> forall k :: 0 <= k < |r.value| ==> r.value[k] != {}
    ensures r.Ok? ==> |r.value| == if |nodes| <= 2 then |nodes| else 2
  {
    var uf := new UnionFind(nodes);
    assert forall x :: x in uf.subsets.Keys <==> x in nodes;
    ListSize(nodes, uf.subsets.Keys);
    if !Drawable(links) {
      return Err(ValueError);
    }
    var count := |nodes|;
    var k := 0;
    while count > 2
      invariant uf.Valid() && forall x :: x in uf.parents <==> x in nodes
      invariant count == |uf.subsets.Keys|
      invariant |nodes| <= 2 ==> count == |nodes|
      invariant |nodes| > 2 ==> count >= 2
      invariant 0 <= k <= |order|
      decreases |order| - k
    {
      if k == |order| {
        return Err(StopIteration);
      }
      var merged := Contract(uf, links[order[k]].u, links[order[k]].v);
      k := k + 1;
      if merged {
        count := count - 1;
      }
    }
    ValuesPartition(uf.parents, uf.ranks, uf.subsets, nodes);
    r := Ok(Values(nodes, uf.subsets));
  }
}
