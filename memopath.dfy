/**
 * The path finder of the two older revisions of the physical network: the
 * same depth-first search without any capacity test, returning the path as
 * sorted endpoint pairs and remembering every path it computed on the network
 * object. A path asked for in the opposite direction of a remembered one is
 * the remembered list reversed, and is remembered too.
 */
module MemoPath {
  import opened Common
  import opened PathSearch
  import Physical

  function Reverse<T>(s: seq<T>): (r: seq<T>)
    ensures |r| == |s| && forall k :: 0 <= k < |s| ==> r[k] == s[|s| - 1 - k]
  {
    seq(|s|, k requires 0 <= k < |s| => s[|s| - 1 - k])
  }

  /** The edges of a node path as sorted pairs. */
  function PairsOf(p: seq<NodeId>): (ps: seq<Pair>)
    requires |p| > 0
    ensures |ps| == |p| - 1
  {
    seq(|p| - 1, k requires 0 <= k < |p| - 1 => Normalise(p[k], p[k + 1]))
  }

  /**
   * A path of the graph from s to t: consecutive nodes are neighbours, no
   * interior node repeats, and no interior node is an endpoint.
   */
  ghost predicate SimplePath(adj: map<NodeId, seq<NodeId>>, s: NodeId, t: NodeId, p: seq<NodeId>)
  {
    |p| >= 2 && p[0] == s && p[|p| - 1] == t &&
    (forall k :: 0 <= k < |p| - 1 ==> p[k] in adj && p[k + 1] in adj[p[k]]) &&
    (forall a, b :: 0 < a < b < |p| - 1 ==> p[a] != p[b]) &&
    (forall k :: 0 < k < |p| - 1 ==> p[k] != s && p[k] != t)
  }

  /** Neighbourhood is symmetric. */
  ghost predicate Symmetric(adj: map<NodeId, seq<NodeId>>)
  {
    forall n, m :: n in adj && m in adj[n] ==> m in adj && n in adj[m]
  }

  /** Read backwards, a simple path from s to t is a simple path from t to s. */
  lemma {:induction false} ReversedPath(adj: map<NodeId, seq<NodeId>>, s: NodeId, t: NodeId, p: seq<NodeId>)
    requires Symmetric(adj) && SimplePath(adj, s, t, p)
    ensures SimplePath(adj, t, s, Reverse(p))
  {
    var r := Reverse(p);
    var m := |p| - 1;
    assert r[0] == t && r[m] == s;
    forall k | 0 <= k < m ensures r[k] in adj && r[k + 1] in adj[r[k]] {
      var a := m - k - 1;
      assert r[k] == p[a + 1] && r[k + 1] == p[a];
      assert p[a] in adj && p[a + 1] in adj[p[a]];
    }
    forall a, b | 0 < a < b < m ensures r[a] != r[b] {
      assert r[a] == p[m - a] && r[b] == p[m - b];
    }
    forall k | 0 < k < m ensures r[k] != t && r[k] != s {
      assert r[k] == p[m - k];
    }
  }

  /** The pair list of the reversed path is the reversed pair list, which is what the memo stores. */
  lemma {:induction false} ReversedPairs(p: seq<NodeId>)
    requires |p| > 0
    ensures PairsOf(Reverse(p)) == Reverse(PairsOf(p))
  {
    var r := Reverse(p);
    var m := |p| - 1;
    var q := PairsOf(p);
    var pr, rp := PairsOf(r), Reverse(q);
    forall k | 0 <= k < m ensures pr[k] == rp[k] {
      var j := m - 1 - k;
      assert rp[k] == q[j];
      assert r[k] == p[j + 1] && r[k + 1] == p[j];
    }
  }

  /** Every remembered entry (s, t) is the pair list of a simple path from s to t. */
  ghost predicate MemoValid(adj: map<NodeId, seq<NodeId>>, computed: map<(NodeId, NodeId), seq<Pair>>,
                            walks: map<(NodeId, NodeId), seq<NodeId>>)
  {
    walks.Keys == computed.Keys &&
    forall st :: st in computed ==> SimplePath(adj, st.0, st.1, walks[st]) && computed[st] == PairsOf(walks[st])
  }

  lemma Remember(adj: map<NodeId, seq<NodeId>>, computed: map<(NodeId, NodeId), seq<Pair>>,
                 walks: map<(NodeId, NodeId), seq<NodeId>>, s: NodeId, t: NodeId, p: seq<NodeId>)
    requires MemoValid(adj, computed, walks) && SimplePath(adj, s, t, p)
    ensures MemoValid(adj, computed[(s, t) := PairsOf(p)], walks[(s, t) := p])
  {
  }

  /** The nodes visited by a list of hops. */
  function NodesOf<L>(hops: seq<Hop<L>>): (p: seq<NodeId>)
    requires |hops| > 0
    ensures |p| == |hops| + 1 && p[0] == hops[0].src
    ensures forall k :: 0 < k <= |hops| ==> p[k] == hops[k - 1].dst
  {
    seq(|hops| + 1, k requires 0 <= k <= |hops| => if k == 0 then hops[0].src else hops[k - 1].dst)
  }

  lemma SearchResultIsSimplePath<L>(adj: map<NodeId, seq<NodeId>>, accept: (NodeId, NodeId) -> Option<L>,
                                    s: NodeId, t: NodeId, hops: seq<Hop<L>>)
    requires Chains(hops, s, t) && Accepted(adj, accept, hops) && SimpleHops(hops, t)
    ensures SimplePath(adj, s, t, NodesOf(hops))
  {
    var p := NodesOf(hops);
    var m := |hops|;
    forall k | 0 <= k < m ensures p[k] == hops[k].src {
      if k > 0 { assert hops[k - 1].dst == hops[k].src; }
    }
    forall k | 0 <= k < m ensures p[k] in adj && p[k + 1] in adj[p[k]] {
      assert hops[k].src in adj && hops[k].dst in adj[hops[k].src];
    }
    forall a, b | 0 < a < b < m ensures p[a] != p[b] {
      assert hops[a].src != hops[b].src;
    }
    forall k | 0 < k < m ensures p[k] != s && p[k] != t {
      assert hops[0].src != hops[k].src && hops[k].src != t;
    }
  }

  /**
   * A physical network object of the older revisions, with its path memo.
   * `walks` keeps, for each remembered pair list, the node path it was read
   * from.
   */
  class PathCache {
    const g: Physical.Network
    var computed: map<(NodeId, NodeId), seq<Pair>>
    ghost var walks: map<(NodeId, NodeId), seq<NodeId>>

    /** Every remembered entry (s, t) is the pair list of a simple path from s to t. */
    ghost predicate Valid()
      reads this
    {
      Physical.Valid(g) && Symmetric(g.adj) && MemoValid(g.adj, computed, walks)
    }

    constructor(g: Physical.Network)
      requires Physical.Valid(g) && Symmetric(g.adj)
      ensures Valid() && this.g == g && computed == map[]
    {
      this.g := g;
      computed := map[];
      walks := map[];
    }

    /**
     * find_path(source, target) of the grid5000 revision: a remembered path
     * is returned unchanged, a remembered reverse path is reversed and
     * remembered, otherwise the search result is remembered; None when there
     * is no path (nothing is remembered then).
     */
    method FindPath(source: NodeId, target: NodeId) returns (r: Option<seq<Pair>>)
      requires Valid() && source in g.adj
      modifies this
      ensures Valid()
      ensures (source, target) in old(computed) ==>
        r == Some(old(computed)[(source, target)]) && computed == old(computed)
      ensures (source, target) !in old(computed) && (target, source) in old(computed) ==>
        r == Some(Reverse(old(computed)[(target, source)])) && computed == old(computed)[(source, target) := r.value]
      ensures (source, target) !in old(computed) && (target, source) !in old(computed) ==>
        computed == (if r.Some? then old(computed)[(source, target) := r.value] else old(computed))
      ensures r.Some? ==> (source, target) in computed && computed[(source, target)] == r.value
    {
      if (source, target) in computed {
        r := Some(computed[(source, target)]);
      } else if (target, source) in computed {
        var back := walks[(target, source)];
        ReversedPath(g.adj, target, source, back);
        ReversedPairs(back);
        Remember(g.adj, computed, walks, source, target, Reverse(back));
        r := Some(Reverse(computed[(target, source)]));
        computed := computed[(source, target) := r.value];
        walks := walks[(source, target) := Reverse(back)];
      } else {
        var found := Search(g.adj, source, target, (i: NodeId, j: NodeId) => Some(()));
        if found.Some? {
          var p := NodesOf(found.value);
          SearchResultIsSimplePath(g.adj, (i: NodeId, j: NodeId) => Some(()), source, target, found.value);
          Remember(g.adj, computed, walks, source, target, p);
          r := Some(PairsOf(p));
          computed := computed[(source, target) := r.value];
          walks := walks[(source, target) := p];
        } else {
          r := None;
        }
      }
    }

    /** find_path(source, target) of the mapping revision: the same, with ValueError when there is no path. */
    method FindPathOrRaise(source: NodeId, target: NodeId) returns (r: Result<seq<Pair>>)
      requires Valid() && source in g.adj
      modifies this
      ensures Valid()
      ensures r.Ok? ==> (source, target) in computed && computed[(source, target)] == r.value
      ensures r.Err? ==> r.error == ValueError && computed == old(computed)
      ensures (source, target) in old(computed) ==> r == Ok(old(computed)[(source, target)])
    {
      var found := FindPath(source, target);
      match found {
        case Some(ps) => r := Ok(ps);
        case None => r := Err(ValueError);
      }
    }
  }
}
