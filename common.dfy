/**
 * Shared vocabulary of the placement engine: node identifiers, the solver
 * status, the errors raised by verification and by the heuristics, and the
 * sums that the capacity bookkeeping is built from.
 */
module Common {

  /** A node of the virtual or of the physical graph; only equality and order are used. */
  type NodeId = int

  /** Outcome recorded by a solver: 0, 1 and -1 in the source. */
  datatype Status = NotSolved | Solved | Infeasible

  /** The resource whose capacity a node exceeded. */
  datatype Resource = Cores | Memory

  /** The exceptions raised by verification, by the heuristics and by Python built-ins they rely on. */
  datatype Error =
    | EmptySolution
    | Assignment
    | NodeResource(node: NodeId, resource: Resource)
    | LinkCapacity
    | NoPathFound
    | InfeasibleInstance
    | ValueError
    | IndexError
    | StopIteration
    | KeyError
    | AssertionFailed
    | ZeroDivision
    | TypeError
    | OverflowError

  /** An undirected edge written (min, max). */
  type Pair = (NodeId, NodeId)

  function Normalise(a: NodeId, b: NodeId): (p: Pair)
    ensures p.0 <= p.1 && {p.0, p.1} == {a, b}
  {
    if a < b then (a, b) else (b, a)
  }

  datatype Option<T> = None | Some(value: T)

  datatype Result<T> = Ok(value: T) | Err(error: Error)

  predicate Distinct<T(==)>(s: seq<T>)
  {
    forall i, j :: 0 <= i < j < |s| ==> s[i] != s[j]
  }

  /** Sum of f over a sequence, peeling the last element (so appending is one unfolding). */
  function SumBy<T>(s: seq<T>, f: T -> nat): nat
  {
    if |s| == 0 then 0 else SumBy(s[..|s| - 1], f) + f(s[|s| - 1])
  }

  function SumReal(s: seq<real>): real
  {
    if |s| == 0 then 0.0 else SumReal(s[..|s| - 1]) + s[|s| - 1]
  }

  /** ceil(a / b) for natural numbers, as Python's math.ceil of the quotient. */
  function CeilDiv(a: nat, b: nat): (c: nat)
    requires b > 0
    ensures c * b >= a
    ensures c == 0 || (c - 1) * b < a
  {
    (a + b - 1) / b
  }

  function Get<K>(m: map<K, nat>, k: K): nat
  {
    if k in m then m[k] else 0
  }

  /** Python's `d[k] += x` on a counter dictionary. */
  function Add<K(!new)>(m: map<K, nat>, k: K, x: nat): (r: map<K, nat>)
    ensures r.Keys == m.Keys + {k}
    ensures Get(r, k) == Get(m, k) + x
    ensures forall k' :: k' != k ==> Get(r, k') == Get(m, k')
  {
    m[k := Get(m, k) + x]
  }

  lemma {:induction false} SumByAppend<T>(a: seq<T>, b: seq<T>, f: T -> nat)
    ensures SumBy(a + b, f) == SumBy(a, f) + SumBy(b, f)
    decreases |b|
  {
    if |b| == 0 {
      assert a + b == a;
    } else {
      var b' := b[..|b| - 1];
      assert (a + b)[..|a + b| - 1] == a + b';
      SumByAppend(a, b', f);
    }
  }

  lemma {:induction false} SumByPointwise<T>(s: seq<T>, f: T -> nat, g: T -> nat)
    requires forall i :: 0 <= i < |s| ==> f(s[i]) <= g(s[i])
    ensures SumBy(s, f) <= SumBy(s, g)
  {
    if |s| > 0 {
      SumByPointwise(s[..|s| - 1], f, g);
    }
  }

  lemma {:induction false} SumByElement<T>(s: seq<T>, f: T -> nat, k: nat)
    requires k < |s|
    ensures f(s[k]) <= SumBy(s, f)
  {
    if k < |s| - 1 {
      SumByElement(s[..|s| - 1], f, k);
    }
  }

  /** The members of nodes that are in s, in the order of nodes. */
  function Restrict(nodes: seq<NodeId>, s: set<NodeId>): (r: seq<NodeId>)
    ensures forall x :: x in r <==> x in nodes && x in s
    ensures Distinct(nodes) ==> Distinct(r)
  {
    if |nodes| == 0 then []
    else
      var last := nodes[|nodes| - 1];
      var init := Restrict(nodes[..|nodes| - 1], s);
      assert forall x :: x in nodes <==> x in nodes[..|nodes| - 1] || x == last;
      if last in s then init + [last] else init
  }

  lemma NonEmptyHasNode(s: set<NodeId>)
    requires s != {}
    ensures exists x :: x in s
  {
    if forall x :: x !in s {
      assert false;
    }
  }

  lemma NonEmptyHasPair(s: set<Pair>)
    requires s != {}
    ensures exists x :: x in s
  {
    if forall x :: x !in s {
      assert false;
    }
  }

  lemma Pick(s: set<NodeId>) returns (x: NodeId)
    requires s != {}
    ensures x in s
  {
    NonEmptyHasNode(s);
    x :| x in s;
  }

  lemma {:induction false} LeastOf(s: set<NodeId>) returns (m: NodeId)
    requires s != {}
    ensures m in s && forall y :: y in s ==> m <= y
    decreases |s|
  {
    var x := Pick(s);
    if s == {x} {
      m := x;
    } else {
      var rest := LeastOf(s - {x});
      m := if x < rest then x else rest;
      forall y | y in s ensures m <= y {
        if y != x {
          assert y in s - {x};
        }
      }
    }
  }

  lemma HasLeast(s: set<NodeId>)
    requires s != {}
    ensures exists m :: m in s && forall y :: y in s ==> m <= y
  {
    var m := LeastOf(s);
  }

  /** The smallest member of a non-empty set of node ids. */
  function Least(s: set<NodeId>): (m: NodeId)
    requires s != {}
    ensures m in s && forall y :: y in s ==> m <= y
  {
    HasLeast(s);
    var m :| m in s && forall y :: y in s ==> m <= y; m
  }

  /** order lists the keys of m, each once: the iteration order of a dictionary. */
  ghost predicate Enumerates<K(!new), V>(order: seq<K>, m: map<K, V>)
  {
    Distinct(order) && (forall k :: k in order <==> k in m)
  }

  /** Storing under a key appends the key to the order when it is new and keeps the order otherwise. */
  lemma EnumeratesPut<K(!new), V>(order: seq<K>, m: map<K, V>, k: K, x: V)
    requires Enumerates(order, m)
    ensures Enumerates(if k in m then order else order + [k], m[k := x])
  {
    if k !in m {
      var o := order + [k];
      forall i, j | 0 <= i < j < |o|
        ensures o[i] != o[j]
      {
        if j == |order| {
          assert o[i] in order;
        }
      }
    }
  }

  /** order lists the members of s, each once: the iteration order of a set. */
  ghost predicate Lists<K(!new)>(order: seq<K>, s: set<K>)
  {
    Distinct(order) && (forall k :: k in order <==> k in s)
  }

  /** A sequence without repetitions that stays inside a set is no longer than the set. */
  lemma {:induction false} DistinctLength<T>(s: seq<T>, within: set<T>)
    requires Distinct(s)
    requires forall x :: x in s ==> x in within
    ensures |s| <= |within|
  {
    if |s| > 0 {
      var last := s[|s| - 1];
      var init := s[..|s| - 1];
      assert forall x :: x in init ==> x in within - {last} by {
        forall x | x in init ensures x in within - {last} {
          var i :| 0 <= i < |init| && init[i] == x;
          assert s[i] == x && i < |s| - 1;
        }
      }
      DistinctLength(init, within - {last});
    }
  }

  /** Two sequences without repeats and without a common member join into one without repeats. */
  lemma DistinctJoin<T>(a: seq<T>, b: seq<T>)
    requires Distinct(a) && Distinct(b) && forall x :: x in a ==> x !in b
    ensures Distinct(a + b)
  {
    forall i, j | 0 <= i < j < |a + b| ensures (a + b)[i] != (a + b)[j] {
      if j < |a| {
      } else if i < |a| {
        assert (a + b)[i] in a && (a + b)[j] == b[j - |a|];
      } else {
        assert (a + b)[i] == b[i - |a|] && (a + b)[j] == b[j - |a|];
      }
    }
  }

  /** Walking an order one more step adds its next member to the prefix seen. */
  lemma PrefixGrows<T>(s: seq<T>, i: nat)
    requires i < |s|
    ensures s[..i + 1] == s[..i] + [s[i]]
  {
  }
}
