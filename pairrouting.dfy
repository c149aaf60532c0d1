/**
 * Routing in the two older revisions (mapping/ and embedding/grid5000/).
 * Their find_path returns a path as sorted endpoint pairs with no
 * interface. The heuristic then takes, pair by pair, the first interface
 * whose rate minus what rate_used already booked on (i, j, interface)
 * covers the request, and books the request there. Bookings are keyed by
 * the sorted pair, so only one direction of a link is ever booked, and
 * the one-direction test is enough to keep every interface within its
 * rate.
 *
 * The mapping revision writes each hop starting from the node it reached
 * last (next_node), giving a path from u's machine to v's. The grid5000
 * revision keeps only the interface leaving u's machine and the one
 * reaching v's machine, as a single entry of fraction 1.
 */
module PairRouting {
  import opened Common
  import opened PathSearch
  import Physical
  import Virtual
  import MemoPath
  import Placement
  import EmbedVerify
  import EmbedBuild
  import FractionVerify
  import KBalanced

  type Key = Physical.DeviceKey
  type Used = Placement.Used

  /** Python truthiness of an interface key: the integer 0 and the empty string are false. */
  predicate Truthy(k: Key)
  {
    match k
    case Auto(n) => n != 0
    case Named(s) => s != ""
  }

  /** rate(i, j, interface) - rate_used[(i, j, interface)] >= req: one direction only. */
  predicate Room(i: NodeId, j: NodeId, f: Physical.Interface, req: nat, used: Used)
  {
    f.rate >= req + Get(used, (i, j, f.key))
  }

  /** The position of the first interface with room, where next() over the generator stops. */
  function FirstRoom(ifs: seq<Physical.Interface>, i: NodeId, j: NodeId, req: nat, used: Used): (r: Option<nat>)
    ensures r.Some? ==> r.value < |ifs| && Room(i, j, ifs[r.value], req, used)
    ensures r.Some? ==> forall l :: 0 <= l < r.value ==> !Room(i, j, ifs[l], req, used)
    ensures r.None? ==> forall l :: 0 <= l < |ifs| ==> !Room(i, j, ifs[l], req, used)
  {
    if |ifs| == 0 then None
    else if Room(i, j, ifs[0], req, used) then Some(0)
    else match FirstRoom(ifs[1..], i, j, req, used)
      case Some(k) => Some(k + 1)
      case None => None
  }

  /** key belongs to the first interface of the link (i, j) with room for req. */
  predicate FirstWithRoom(g: Physical.Network, i: NodeId, j: NodeId, req: nat, used: Used, key: Key)
  {
    var ifs := Physical.InterfacesOf(g, i, j);
    exists l :: 0 <= l < |ifs| && ifs[l].key == key && Room(i, j, ifs[l], req, used) &&
      forall m :: 0 <= m < l ==> !Room(i, j, ifs[m], req, used)
  }

  /** key names an interface of the link (i, j) with room for req. */
  predicate KeyHasRoom(g: Physical.Network, i: NodeId, j: NodeId, req: nat, used: Used, key: Key)
  {
    var ifs := Physical.InterfacesOf(g, i, j);
    exists l :: 0 <= l < |ifs| && ifs[l].key == key && Room(i, j, ifs[l], req, used)
  }

  lemma FirstHasRoom(g: Physical.Network, i: NodeId, j: NodeId, req: nat, used: Used, key: Key)
    requires FirstWithRoom(g, i, j, req, used, key)
    ensures KeyHasRoom(g, i, j, req, used, key)
  {
  }

  /** Some interface of the link (i, j) has room for req. */
  predicate AnyRoom(g: Physical.Network, i: NodeId, j: NodeId, req: nat, used: Used)
  {
    var ifs := Physical.InterfacesOf(g, i, j);
    exists l :: 0 <= l < |ifs| && Room(i, j, ifs[l], req, used)
  }

  /**
   * next(generator, None) tested with `is None` (mapping partition
   * heuristic): the key of the first interface with room, and
   * LinkCapacityError exactly when no interface has room.
   */
  function ChooseSome(g: Physical.Network, i: NodeId, j: NodeId, req: nat, used: Used): (r: Result<Key>)
    ensures r.Ok? <==> AnyRoom(g, i, j, req, used)
    ensures r.Ok? ==> FirstWithRoom(g, i, j, req, used, r.value)
    ensures r.Err? ==> r.error == LinkCapacity
  {
    var ifs := Physical.InterfacesOf(g, i, j);
    match FirstRoom(ifs, i, j, req, used)
    case Some(k) => Ok(ifs[k].key)
    case None => Err(LinkCapacity)
  }

  /**
   * The same choice tested with `if not chosen` (mapping k-balanced and the
   * grid5000 heuristics): a chosen key Python reads as false is treated as
   * no interface at all.
   */
  function ChooseTruthy(g: Physical.Network, i: NodeId, j: NodeId, req: nat, used: Used): (r: Result<Key>)
    ensures r.Ok? <==> ChooseSome(g, i, j, req, used).Ok? && Truthy(ChooseSome(g, i, j, req, used).value)
    ensures r.Ok? ==> r == ChooseSome(g, i, j, req, used)
    ensures r.Err? ==> r.error == LinkCapacity
  {
    var ifs := Physical.InterfacesOf(g, i, j);
    match FirstRoom(ifs, i, j, req, used)
    case Some(k) => if Truthy(ifs[k].key) then Ok(ifs[k].key) else Err(LinkCapacity)
    case None => Err(LinkCapacity)
  }

  /** A link (1, 2) whose one interface has networkx's first automatic key, 0, and rate 10. */
  function KeyZeroNetwork(): (g: Physical.Network)
    ensures Physical.InterfacesOf(g, 1, 2) == [Physical.Interface(Physical.Auto(0), 10, map[])]
  {
    Physical.Network([1, 2], map[], map[], map[1 := [2], 2 := [1]],
                     map[(1, 2) := Physical.Link([Physical.Interface(Physical.Auto(0), 10, map[])], [])], false)
  }

  /**
   * The truthiness test rejects an interface with room when its key is 0:
   * a request of 5 fits the link of KeyZeroNetwork, yet LinkCapacityError
   * is raised. An ungrouped network of the mapping revision keys the first
   * interface of every link 0.
   */
  lemma KeyZeroRejected()
    ensures ChooseSome(KeyZeroNetwork(), 1, 2, 5, map[]) == Ok(Physical.Auto(0))
    ensures ChooseTruthy(KeyZeroNetwork(), 1, 2, 5, map[]) == Err(LinkCapacity)
  {
    var ifs := Physical.InterfacesOf(KeyZeroNetwork(), 1, 2);
    assert Room(1, 2, ifs[0], 5, map[]);
  }

  /** Every interface key of the network is truthy (grid5000 keys are device names or "dummy_interface"). */
  ghost predicate TruthyKeys(g: Physical.Network)
  {
    forall e, k :: e in g.links && 0 <= k < |g.links[e].interfaces| ==> Truthy(g.links[e].interfaces[k].key)
  }

  /** With truthy keys the two tests agree. */
  lemma TruthyAgrees(g: Physical.Network, i: NodeId, j: NodeId, req: nat, used: Used)
    requires TruthyKeys(g)
    ensures ChooseTruthy(g, i, j, req, used) == ChooseSome(g, i, j, req, used)
  {
    var c := ChooseSome(g, i, j, req, used);
    if c.Ok? {
      var ifs := Physical.InterfacesOf(g, i, j);
      var l :| 0 <= l < |ifs| && ifs[l].key == c.value && Room(i, j, ifs[l], req, used) &&
        forall m :: 0 <= m < l ==> !Room(i, j, ifs[m], req, used);
      var e := if (i, j) in g.links then (i, j) else (j, i);
      assert ifs == g.links[e].interfaces;
    }
  }

  /*
   * Booking on sorted pairs.
   */

  /** Every booking is on a sorted pair of two different nodes, as find_path writes them. */
  predicate SortedSlots(used: Used)
  {
    forall x :: x in used ==> x.0 < x.1
  }

  /**
   * Booking req on an interface with room of a sorted pair keeps
   * every interface within its rate: the other direction of that link
   * holds no booking.
   */
  lemma BookKeepsWithin(g: Physical.Network, used: Used, i: NodeId, j: NodeId, key: Key, req: nat)
    requires Physical.Valid(g) && Placement.Within(g, used) && SortedSlots(used) && i < j
    requires KeyHasRoom(g, i, j, req, used, key)
    ensures Placement.Within(g, Add(used, (i, j, key), req)) && SortedSlots(Add(used, (i, j, key), req))
  {
    var booked := Add(used, (i, j, key), req);
    var ifs := Physical.InterfacesOf(g, i, j);
    var l :| 0 <= l < |ifs| && ifs[l].key == key && Room(i, j, ifs[l], req, used);
    forall e, k | e in g.links && 0 <= k < |g.links[e].interfaces|
      ensures Get(booked, (e.0, e.1, g.links[e].interfaces[k].key)) + Get(booked, (e.1, e.0, g.links[e].interfaces[k].key))
        <= g.links[e].interfaces[k].rate
    {
      var f := g.links[e].interfaces[k];
      if (e.0, e.1, f.key) == (i, j, key) || (e.1, e.0, f.key) == (i, j, key) {
        assert (e.1, e.0) !in g.links;
        assert ifs == g.links[e].interfaces;
        assert Distinct(Physical.Keys(ifs));
        assert Physical.Keys(ifs)[l] == Physical.Keys(ifs)[k];
        assert (j, i, key) !in used;
      }
    }
  }

  /** Consecutive nodes of a simple path between two different nodes differ. */
  lemma StepDiffers(adj: map<NodeId, seq<NodeId>>, s: NodeId, t: NodeId, p: seq<NodeId>, k: nat)
    requires MemoPath.SimplePath(adj, s, t, p) && s != t && k + 1 < |p|
    ensures p[k] != p[k + 1]
  {
    if 0 < k {
      assert p[k] != t;
      if k + 1 < |p| - 1 {
        assert p[k] != p[k + 1];
      }
    }
  }

  /** The k-th pair of a path is its k-th step, sorted. */
  lemma PairAt(adj: map<NodeId, seq<NodeId>>, s: NodeId, t: NodeId, p: seq<NodeId>, k: nat)
    requires MemoPath.SimplePath(adj, s, t, p) && s != t && k + 1 < |p|
    ensures var q := MemoPath.PairsOf(p)[k];
      q.0 < q.1 && ((q.0 == p[k] && q.1 == p[k + 1]) || (q.0 == p[k + 1] && q.1 == p[k]))
  {
    StepDiffers(adj, s, t, p, k);
  }

  /*
   * The mapping revision: hops oriented by next_node.
   */

  /** The k-th hop runs from the k-th node of the walk to the next, on an interface of the k-th pair. */
  predicate Along(g: Physical.Network, pairs: seq<Pair>, walk: seq<NodeId>, hops: seq<Hop<Key>>, k: nat)
    requires k < |pairs| && k < |hops| && k + 1 < |walk|
  {
    hops[k].src == walk[k] && hops[k].dst == walk[k + 1] &&
    hops[k].device in Physical.InterfaceIds(g, pairs[k].0, pairs[k].1)
  }

  /** A key with room names one of the link's interfaces. */
  lemma KeyIsInterface(g: Physical.Network, i: NodeId, j: NodeId, req: nat, used: Used, key: Key)
    requires KeyHasRoom(g, i, j, req, used, key)
    ensures key in Physical.InterfaceIds(g, i, j)
  {
    var ifs := Physical.InterfacesOf(g, i, j);
    var l :| 0 <= l < |ifs| && ifs[l].key == key && Room(i, j, ifs[l], req, used);
    assert Physical.InterfaceIds(g, i, j)[l] == key;
  }

  /** Appending the hop for the k-th pair keeps every hop so far along the walk. */
  lemma HopAlong(g: Physical.Network, pairs: seq<Pair>, walk: seq<NodeId>, hops: seq<Hop<Key>>, k: nat, hop: Hop<Key>)
    requires k < |pairs| && |pairs| + 1 == |walk| && |hops| == k
    requires forall m :: 0 <= m < k ==> Along(g, pairs, walk, hops, m)
    requires hop.src == walk[k] && hop.dst == walk[k + 1] && hop.device in Physical.InterfaceIds(g, pairs[k].0, pairs[k].1)
    ensures forall m :: 0 <= m <= k ==> Along(g, pairs, walk, hops + [hop], m)
  {
    AlongExtend(g, pairs, walk, hops, hop);
    assert (hops + [hop])[k] == hop;
  }

  lemma AlongExtend(g: Physical.Network, pairs: seq<Pair>, walk: seq<NodeId>, hops: seq<Hop<Key>>, hop: Hop<Key>)
    requires |hops| < |pairs| && |pairs| + 1 == |walk|
    requires forall m :: 0 <= m < |hops| ==> Along(g, pairs, walk, hops, m)
    ensures forall m :: 0 <= m < |hops| ==> Along(g, pairs, walk, hops + [hop], m)
  {
    forall m | 0 <= m < |hops| ensures Along(g, pairs, walk, hops + [hop], m) {
      assert Along(g, pairs, walk, hops, m);
      assert (hops + [hop])[m] == hops[m];
    }
  }

  /** Hops that follow a simple path step by step chain from its start to its end, without revisiting. */
  lemma WalkHops(g: Physical.Network, pairs: seq<Pair>, pu: NodeId, pv: NodeId, walk: seq<NodeId>, hops: seq<Hop<Key>>)
    requires MemoPath.SimplePath(g.adj, pu, pv, walk) && pairs == MemoPath.PairsOf(walk) && pu != pv
    requires |hops| == |pairs| && forall k :: 0 <= k < |pairs| ==> Along(g, pairs, walk, hops, k)
    ensures Chains(hops, pu, pv) && SimpleHops(hops, pv)
  {
    var n := |hops|;
    assert Along(g, pairs, walk, hops, 0) && Along(g, pairs, walk, hops, n - 1);
    forall k | 0 <= k < n - 1 ensures hops[k].dst == hops[k + 1].src {
      assert Along(g, pairs, walk, hops, k) && Along(g, pairs, walk, hops, k + 1);
    }
    forall a, b | 0 <= a < b < n ensures hops[a].src != hops[b].src {
      assert Along(g, pairs, walk, hops, a) && Along(g, pairs, walk, hops, b);
      assert walk[b] != pu;
    }
    forall k | 0 < k < n ensures hops[k].src != pv {
      assert Along(g, pairs, walk, hops, k);
    }
  }

  /** Which test a call site applies to the chosen interface: `is None` or `if not`. */
  datatype Test = IsNone | NotTruthy

  /** The choice of a call site: ChooseSome or ChooseTruthy. */
  function Choose(test: Test, g: Physical.Network, i: NodeId, j: NodeId, req: nat, used: Used): (r: Result<Key>)
    ensures r.Ok? ==> r == ChooseSome(g, i, j, req, used)
    ensures r.Err? ==> r.error == LinkCapacity
    ensures test == IsNone ==> (r.Ok? <==> AnyRoom(g, i, j, req, used))
    ensures test == NotTruthy ==> (r.Ok? <==> ChooseSome(g, i, j, req, used).Ok? && Truthy(ChooseSome(g, i, j, req, used).value))
  {
    if test == IsNone then ChooseSome(g, i, j, req, used) else ChooseTruthy(g, i, j, req, used)
  }

  /*
   * What the hop loops book.
   */

  /** rate_used after `rate_used[(i, j, key)] += req` for the k-th pair (i, j) and the k-th key, in turn. */
  function Book(used: Used, pairs: seq<Pair>, keys: seq<Key>, req: nat): Used
    requires |keys| <= |pairs|
    decreases |keys|
  {
    if |keys| == 0 then used
    else
      var k := |keys| - 1;
      Add(Book(used, pairs, keys[..k], req), (pairs[k].0, pairs[k].1, keys[k]), req)
  }

  /** One more key books the request on the next pair on top of the bookings before it. */
  lemma BookSnoc(used: Used, pairs: seq<Pair>, keys: seq<Key>, key: Key, req: nat)
    requires |keys| < |pairs|
    ensures (keys + [key])[..|keys|] == keys
    ensures Book(used, pairs, keys + [key], req) == Add(Book(used, pairs, keys, req), (pairs[|keys|].0, pairs[|keys|].1, key), req)
  {
    assert (keys + [key])[..|keys|] == keys;
  }

  /** The interfaces of a list of hops, in order. */
  function Devices(hops: seq<Hop<Key>>): (r: seq<Key>)
    ensures |r| == |hops| && forall k :: 0 <= k < |hops| ==> r[k] == hops[k].device
  {
    seq(|hops|, k requires 0 <= k < |hops| => hops[k].device)
  }

  /** One more hop adds its interface at the end. */
  lemma DevicesSnoc(hops: seq<Hop<Key>>, hop: Hop<Key>)
    ensures Devices(hops + [hop]) == Devices(hops) + [hop.device]
  {
    assert forall k :: 0 <= k < |hops| ==> (hops + [hop])[k] == hops[k];
  }

  /** The pairs a list of hops runs over, each with its smaller end first, as find_path writes them. */
  function PairsAlong(hops: seq<Hop<Key>>): (r: seq<Pair>)
    ensures |r| == |hops| && forall k :: 0 <= k < |hops| ==> r[k] == Normalise(hops[k].src, hops[k].dst)
  {
    seq(|hops|, k requires 0 <= k < |hops| => Normalise(hops[k].src, hops[k].dst))
  }

  /** Each key is the one the call site's test accepts on its pair once the keys before it are booked. */
  ghost predicate Chosen(test: Test, g: Physical.Network, pairs: seq<Pair>, used: Used, req: nat, keys: seq<Key>)
    decreases |keys|
  {
    |keys| <= |pairs| &&
    (|keys| == 0 ||
      var k := |keys| - 1;
      Chosen(test, g, pairs, used, req, keys[..k]) &&
      Choose(test, g, pairs[k].0, pairs[k].1, req, Book(used, pairs, keys[..k], req)) == Ok(keys[k]))
  }

  /** After the keys chosen so far, the test accepts no interface of the next pair. */
  ghost predicate Refused(test: Test, g: Physical.Network, pairs: seq<Pair>, used: Used, req: nat, keys: seq<Key>)
  {
    |keys| < |pairs| && Choose(test, g, pairs[|keys|].0, pairs[|keys|].1, req, Book(used, pairs, keys, req)).Err?
  }

  /** Choosing one more key books it on the next pair on top of the earlier bookings. */
  lemma ChosenExtend(test: Test, g: Physical.Network, pairs: seq<Pair>, used: Used, req: nat, keys: seq<Key>, key: Key)
    requires Chosen(test, g, pairs, used, req, keys) && |keys| < |pairs|
    requires Choose(test, g, pairs[|keys|].0, pairs[|keys|].1, req, Book(used, pairs, keys, req)) == Ok(key)
    ensures Chosen(test, g, pairs, used, req, keys + [key])
    ensures Book(used, pairs, keys + [key], req) == Add(Book(used, pairs, keys, req), (pairs[|keys|].0, pairs[|keys|].1, key), req)
  {
    BookSnoc(used, pairs, keys, key, req);
  }

  /** One virtual link's booking: the link, the pairs of its path, the interfaces chosen on them and the rate. */
  datatype Booking = Booking(edge: Pair, pairs: seq<Pair>, keys: seq<Key>, req: nat)

  /** No booking names more interfaces than its path has pairs. */
  ghost predicate Sized(trail: seq<Booking>)
  {
    forall n :: 0 <= n < |trail| ==> |trail[n].keys| <= |trail[n].pairs|
  }

  /** rate_used after the bookings of a trail, one link after the other. */
  function Booked(used: Used, trail: seq<Booking>): Used
    requires Sized(trail)
    decreases |trail|
  {
    if |trail| == 0 then used
    else
      var n := |trail| - 1;
      Book(Booked(used, trail[..n]), trail[n].pairs, trail[n].keys, trail[n].req)
  }

  /** Every booking of the trail chose its keys on top of the bookings before it. */
  ghost predicate TrailChosen(test: Test, g: Physical.Network, used: Used, trail: seq<Booking>)
    decreases |trail|
  {
    Sized(trail) &&
    (|trail| == 0 ||
      var n := |trail| - 1;
      TrailChosen(test, g, used, trail[..n]) &&
      Chosen(test, g, trail[n].pairs, Booked(used, trail[..n]), trail[n].req, trail[n].keys))
  }

  /** A booking chosen on top of a trail extends it. */
  lemma TrailExtend(test: Test, g: Physical.Network, used: Used, trail: seq<Booking>, b: Booking)
    requires TrailChosen(test, g, used, trail) && |b.keys| <= |b.pairs|
    requires Chosen(test, g, b.pairs, Booked(used, trail), b.req, b.keys)
    ensures TrailChosen(test, g, used, trail + [b])
  {
    BookedSnoc(used, trail, b);
  }

  /** One more booking is booked on top of the trail before it. */
  lemma BookedSnoc(used: Used, trail: seq<Booking>, b: Booking)
    requires Sized(trail) && |b.keys| <= |b.pairs|
    ensures Sized(trail + [b]) && (trail + [b])[..|trail|] == trail
    ensures Booked(used, trail + [b]) == Book(Booked(used, trail), b.pairs, b.keys, b.req)
  {
    var tr := trail + [b];
    assert tr[..|trail|] == trail;
    assert forall n :: 0 <= n < |tr| ==> tr[n] == if n < |trail| then trail[n] else b;
  }

  /**
   * One pass of the hop loop: the interface the call site's test accepts
   * on the k-th pair, booked for req, and the hop written from the node
   * reached so far.
   */
  method NextHop(test: Test, g: Physical.Network, pairs: seq<Pair>, pu: NodeId, pv: NodeId, req: nat, booked: Used,
                 ghost walk: seq<NodeId>, ghost hops: seq<Hop<Key>>, k: nat, next: NodeId)
    returns (r: Result<(Hop<Key>, Used)>)
    requires Physical.Valid(g) && Placement.Within(g, booked) && SortedSlots(booked)
    requires MemoPath.SimplePath(g.adj, pu, pv, walk) && pairs == MemoPath.PairsOf(walk) && pu != pv
    requires k < |pairs| && |hops| == k && next == walk[k]
    requires forall m :: 0 <= m < k ==> Along(g, pairs, walk, hops, m)
    ensures r.Err? <==> Choose(test, g, pairs[k].0, pairs[k].1, req, booked).Err?
    ensures r.Err? ==> r.error == LinkCapacity
    ensures r.Ok? ==> Choose(test, g, pairs[k].0, pairs[k].1, req, booked) == Ok(r.value.0.device)
    ensures r.Ok? ==> r.value.1 == Add(booked, (pairs[k].0, pairs[k].1, r.value.0.device), req)
    ensures r.Ok? ==> Placement.Within(g, r.value.1) && SortedSlots(r.value.1)
    ensures r.Ok? ==> forall m :: 0 <= m <= k ==> Along(g, pairs, walk, hops + [r.value.0], m)
  {
    var i, j := pairs[k].0, pairs[k].1;
    var chosen := Choose(test, g, i, j, req, booked);
    if chosen.Err? {
      return Err(LinkCapacity);
    }
    var key := chosen.value;
    PairAt(g.adj, pu, pv, walk, k);
    FirstHasRoom(g, i, j, req, booked, key);
    BookKeepsWithin(g, booked, i, j, key, req);
    KeyIsInterface(g, i, j, req, booked, key);
    var hop := if i == next then Hop(i, j, key) else Hop(j, i, key);
    HopAlong(g, pairs, walk, hops, k, hop);
    r := Ok((hop, Add(booked, (i, j, key), req)));
  }

  /**
   * The hop loop of the mapping revision for one virtual link: each pair
   * of the path gets its first interface with room (under the call site's
   * test), the request is booked on (i, j, interface), and the hop is
   * written (i, interface, j) when i is next_node and (j, interface, i)
   * otherwise. The recorded hops follow the path from u's machine to v's.
   */
  method RoutePairs(test: Test, g: Physical.Network, pairs: seq<Pair>, pu: NodeId, pv: NodeId, req: nat, used: Used,
                    ghost walk: seq<NodeId>)
    returns (r: Result<(seq<Hop<Key>>, Used)>, ghost tried: seq<Key>)
    requires Physical.Valid(g) && Placement.Within(g, used) && SortedSlots(used)
    requires MemoPath.SimplePath(g.adj, pu, pv, walk) && pairs == MemoPath.PairsOf(walk) && pu != pv
    ensures Chosen(test, g, pairs, used, req, tried)
    ensures r.Err? ==> r.error == LinkCapacity && Refused(test, g, pairs, used, req, tried)
    ensures r.Ok? ==> tried == Devices(r.value.0) && |tried| == |pairs| && r.value.1 == Book(used, pairs, tried, req)
    ensures r.Ok? ==> Placement.Within(g, r.value.1) && SortedSlots(r.value.1)
    ensures r.Ok? ==> |r.value.0| == |pairs| && forall k :: 0 <= k < |pairs| ==> Along(g, pairs, walk, r.value.0, k)
    ensures r.Ok? ==> Chains(r.value.0, pu, pv) && SimpleHops(r.value.0, pv)
  {
    var hops: seq<Hop<Key>> := [];
    var booked := used;
    var next := pu;
    tried := [];
    var k := 0;
    while k < |pairs|
      invariant HopsUpTo(test, g, pairs, walk, used, req, hops, tried, booked, k) && next == walk[k]
    {
      var step := NextHop(test, g, pairs, pu, pv, req, booked, walk, hops, k, next);
      if step.Err? {
        return Err(LinkCapacity), tried;
      }
      HopsStep(test, g, pairs, walk, used, req, hops, tried, booked, k, step.value.0, step.value.1);
      hops := hops + [step.value.0];
      tried := tried + [step.value.0.device];
      booked := step.value.1;
      next := step.value.0.dst;
      k := k + 1;
    }
    WalkHops(g, pairs, pu, pv, walk, hops);
    r := Ok((hops, booked));
  }

  /** The hop loop's invariant after k pairs. */
  ghost predicate HopsUpTo(test: Test, g: Physical.Network, pairs: seq<Pair>, walk: seq<NodeId>, used: Used, req: nat,
                           hops: seq<Hop<Key>>, tried: seq<Key>, booked: Used, k: nat)
  {
    k <= |pairs| && |walk| == |pairs| + 1 && |hops| == k &&
    Placement.Within(g, booked) && SortedSlots(booked) &&
    (forall m :: 0 <= m < k ==> Along(g, pairs, walk, hops, m)) &&
    tried == Devices(hops) && Chosen(test, g, pairs, used, req, tried) && booked == Book(used, pairs, tried, req)
  }

  /** A hop chosen and booked on the k-th pair keeps the hop loop's invariant. */
  lemma HopsStep(test: Test, g: Physical.Network, pairs: seq<Pair>, walk: seq<NodeId>, used: Used, req: nat,
                 hops: seq<Hop<Key>>, tried: seq<Key>, booked: Used, k: nat, hop: Hop<Key>, booked': Used)
    requires HopsUpTo(test, g, pairs, walk, used, req, hops, tried, booked, k) && k < |pairs|
    requires Choose(test, g, pairs[k].0, pairs[k].1, req, booked) == Ok(hop.device)
    requires booked' == Add(booked, (pairs[k].0, pairs[k].1, hop.device), req)
    requires Placement.Within(g, booked') && SortedSlots(booked')
    requires forall m :: 0 <= m <= k ==> Along(g, pairs, walk, hops + [hop], m)
    ensures HopsUpTo(test, g, pairs, walk, used, req, hops + [hop], tried + [hop.device], booked', k + 1)
    ensures hop.dst == walk[k + 1]
  {
    ChosenExtend(test, g, pairs, used, req, tried, hop.device);
    DevicesSnoc(hops, hop);
    assert Along(g, pairs, walk, hops + [hop], k) && (hops + [hop])[k] == hop;
  }

  /** Hops along a walk run over the walk's pairs. */
  lemma PairsAlongWalk(g: Physical.Network, pairs: seq<Pair>, walk: seq<NodeId>, hops: seq<Hop<Key>>)
    requires |walk| >= 2 && pairs == MemoPath.PairsOf(walk)
    requires |hops| == |pairs| && forall k :: 0 <= k < |pairs| ==> Along(g, pairs, walk, hops, k)
    ensures PairsAlong(hops) == pairs
  {
    forall k | 0 <= k < |pairs| ensures PairsAlong(hops)[k] == pairs[k] {
      assert Along(g, pairs, walk, hops, k);
    }
  }

  /** Every crossing link among the first t is routed from its first end's machine to its second's. */
  ghost predicate RoutedUpTo(mapping: map<NodeId, NodeId>, routing: EmbedVerify.Routing, edges: seq<Pair>, t: nat)
    requires t <= |edges|
  {
    forall s :: 0 <= s < t && Placement.Crossing(mapping, edges[s]) ==> Placement.RoutedBy(mapping, routing, edges[s])
  }

  /** Every routed link is a crossing link among the first t, and its hops run along links. */
  ghost predicate RoutesListed(g: Physical.Network, mapping: map<NodeId, NodeId>, routing: EmbedVerify.Routing,
                               edges: seq<Pair>, t: nat)
    requires t <= |edges|
  {
    forall e :: e in routing ==> (Placement.Crossing(mapping, e) && Placement.OnLinks(g, routing[e]) &&
      exists s :: 0 <= s < t && e == edges[s])
  }

  lemma RouteAdd(g: Physical.Network, mapping: map<NodeId, NodeId>, routing: EmbedVerify.Routing, edges: seq<Pair>,
                 t: nat, hops: seq<Hop<Key>>)
    requires t < |edges| && RoutedUpTo(mapping, routing, edges, t) && RoutesListed(g, mapping, routing, edges, t)
    requires Placement.Crossing(mapping, edges[t]) && Placement.OnLinks(g, hops)
    requires Chains(hops, mapping[edges[t].0], mapping[edges[t].1]) && SimpleHops(hops, mapping[edges[t].1])
    ensures RoutedUpTo(mapping, routing[edges[t] := hops], edges, t + 1)
    ensures RoutesListed(g, mapping, routing[edges[t] := hops], edges, t + 1)
  {
    var routing' := routing[edges[t] := hops];
    forall s | 0 <= s < t + 1 && Placement.Crossing(mapping, edges[s])
      ensures Placement.RoutedBy(mapping, routing', edges[s])
    {
      if edges[s] != edges[t] {
        assert Placement.RoutedBy(mapping, routing, edges[s]);
      }
    }
    forall e | e in routing'
      ensures Placement.Crossing(mapping, e) && Placement.OnLinks(g, routing'[e]) &&
        exists s :: 0 <= s < t + 1 && e == edges[s]
    {
      if e != edges[t] {
        var s :| 0 <= s < t && e == edges[s];
      }
    }
  }

  lemma RouteSkip(g: Physical.Network, mapping: map<NodeId, NodeId>, routing: EmbedVerify.Routing, edges: seq<Pair>,
                  t: nat)
    requires t < |edges| && RoutedUpTo(mapping, routing, edges, t) && RoutesListed(g, mapping, routing, edges, t)
    requires !Placement.Crossing(mapping, edges[t])
    ensures RoutedUpTo(mapping, routing, edges, t + 1) && RoutesListed(g, mapping, routing, edges, t + 1)
  {
    forall e | e in routing ensures exists s :: 0 <= s < t + 1 && e == edges[s] {
      var s :| 0 <= s < t && e == edges[s];
    }
  }

  /** Each booking of the trail is a crossing link booked in full for its own rate, and is still routed. */
  ghost predicate TrailLinks(v: Virtual.VirtualNet, mapping: map<NodeId, NodeId>, routing: EmbedVerify.Routing,
                             trail: seq<Booking>)
  {
    forall n :: 0 <= n < |trail| ==>
      |trail[n].keys| == |trail[n].pairs| && Placement.Crossing(mapping, trail[n].edge) &&
      Virtual.RateIn(v.links, trail[n].edge.0, trail[n].edge.1) == Some(trail[n].req) && trail[n].edge in routing
  }

  /** The hops stored for each routed link are those of one of its bookings. */
  ghost predicate TrailRoutes(routing: EmbedVerify.Routing, trail: seq<Booking>)
  {
    forall e :: e in routing ==>
      exists n :: (0 <= n < |trail| && trail[n].edge == e &&
        trail[n].pairs == PairsAlong(routing[e]) && trail[n].keys == Devices(routing[e]))
  }

  /**
   * The trail books the crossing links in the order they were routed, each
   * for its own rate, on the interfaces the call site's test chose, and
   * the hops stored for a link are those of one of its bookings.
   */
  ghost predicate Traced(test: Test, v: Virtual.VirtualNet, g: Physical.Network, mapping: map<NodeId, NodeId>,
                         routing: EmbedVerify.Routing, trail: seq<Booking>)
  {
    TrailChosen(test, g, map[], trail) && TrailLinks(v, mapping, routing, trail) && TrailRoutes(routing, trail)
  }

  lemma TrailLinksAdd(v: Virtual.VirtualNet, mapping: map<NodeId, NodeId>, routing: EmbedVerify.Routing,
                      trail: seq<Booking>, b: Booking, hops: seq<Hop<Key>>)
    requires TrailLinks(v, mapping, routing, trail)
    requires |b.keys| == |b.pairs| && Placement.Crossing(mapping, b.edge)
    requires Virtual.RateIn(v.links, b.edge.0, b.edge.1) == Some(b.req)
    ensures TrailLinks(v, mapping, routing[b.edge := hops], trail + [b])
  {
    assert forall n :: 0 <= n < |trail| + 1 ==> (trail + [b])[n] == if n < |trail| then trail[n] else b;
  }

  lemma TrailRoutesAdd(routing: EmbedVerify.Routing, trail: seq<Booking>, e: Pair, hops: seq<Hop<Key>>, req: nat)
    requires TrailRoutes(routing, trail)
    ensures TrailRoutes(routing[e := hops], trail + [Booking(e, PairsAlong(hops), Devices(hops), req)])
  {
    var b := Booking(e, PairsAlong(hops), Devices(hops), req);
    var tr := trail + [b];
    var routing' := routing[e := hops];
    forall e' | e' in routing'
      ensures exists n :: (0 <= n < |tr| && tr[n].edge == e' &&
        tr[n].pairs == PairsAlong(routing'[e']) && tr[n].keys == Devices(routing'[e']))
    {
      if e' == e {
        assert tr[|trail|] == b;
      } else {
        var n :| 0 <= n < |trail| && trail[n].edge == e' &&
          trail[n].pairs == PairsAlong(routing[e']) && trail[n].keys == Devices(routing[e']);
        assert tr[n] == trail[n];
      }
    }
  }

  /**
   * Where the link loop stopped on LinkCapacity: a crossing sorted link,
   * the path memoised between its machines, and the interfaces chosen on
   * its first pairs before the test refused every interface of the next.
   */
  ghost predicate Stuck(test: Test, v: Virtual.VirtualNet, g: Physical.Network, mapping: map<NodeId, NodeId>,
                        computed: map<(NodeId, NodeId), seq<Pair>>, trail: seq<Booking>, stuck: Booking)
  {
    TrailChosen(test, g, map[], trail) &&
    (exists t :: 0 <= t < |v.links| && stuck.edge == Normalise(v.links[t].u, v.links[t].v)) &&
    Placement.Crossing(mapping, stuck.edge) &&
    Virtual.RateIn(v.links, stuck.edge.0, stuck.edge.1) == Some(stuck.req) &&
    (mapping[stuck.edge.0], mapping[stuck.edge.1]) in computed &&
    stuck.pairs == computed[(mapping[stuck.edge.0], mapping[stuck.edge.1])] &&
    Chosen(test, g, stuck.pairs, Booked(map[], trail), stuck.req, stuck.keys) &&
    Refused(test, g, stuck.pairs, Booked(map[], trail), stuck.req, stuck.keys)
  }

  /** Some trail books the routed links, and what it books leaves every interface within its rate. */
  ghost predicate BookedWithin(test: Test, v: Virtual.VirtualNet, g: Physical.Network, mapping: map<NodeId, NodeId>,
                               routing: EmbedVerify.Routing)
  {
    exists trail :: Traced(test, v, g, mapping, routing, trail) && Placement.Within(g, Booked(map[], trail))
  }

  /**
   * The link loop of the mapping revision: every link of sorted_edges()
   * whose ends sit on different machines is routed on the memoised
   * find_path (ValueError when there is no path, not caught) and then
   * pair by pair. A missing end is Python's KeyError.
   */
  method RouteSorted(test: Test, v: Virtual.VirtualNet, g: Physical.Network, paths: MemoPath.PathCache,
                     mapping: map<NodeId, NodeId>)
    returns (r: Result<(EmbedVerify.Routing, seq<Pair>, Used)>, ghost trail: seq<Booking>, ghost stuck: Booking)
    requires paths.Valid() && paths.g == g
    requires forall u :: u in mapping ==> mapping[u] in g.adj
    modifies paths
    ensures paths.Valid()
    ensures r.Err? ==> r.error in {KeyError, ValueError, LinkCapacity}
    ensures r.Err? && r.error == LinkCapacity ==> Stuck(test, v, g, mapping, paths.computed, trail, stuck)
    ensures r.Ok? ==> Traced(test, v, g, mapping, r.value.0, trail) && r.value.2 == Booked(map[], trail)
    ensures r.Ok? ==> Placement.Within(g, r.value.2) && Enumerates(r.value.1, r.value.0)
    ensures r.Ok? ==> Routed(v, g, mapping, r.value.0)
  {
    var edges := Virtual.SortedList(v.links);
    var routing: EmbedVerify.Routing := map[];
    var pathOrder: seq<Pair> := [];
    var used: Used := map[];
    trail := [];
    stuck := Booking((0, 0), [], [], 0);
    Placement.NothingUsed(g);
    var t := 0;
    while t < |edges|
      invariant 0 <= t <= |edges| && paths.Valid()
      invariant LinksUpTo(v, g, mapping, edges, t, routing, pathOrder, used, trail) && TrailChosen(test, g, map[], trail)
    {
      var step;
      step, trail, stuck := RouteLink(test, v, g, paths, mapping, edges, t, routing, pathOrder, used, trail);
      if step.Err? {
        return Err(step.error), trail, stuck;
      }
      routing, pathOrder, used := step.value.0, step.value.1, step.value.2;
      t := t + 1;
    }
    LinksDone(v, g, mapping, edges, routing, pathOrder, used, trail);
    r := Ok((routing, pathOrder, used));
  }

  /** Every crossing virtual link has a path between its machines, and every path belongs to such a link. */
  ghost predicate Routed(v: Virtual.VirtualNet, g: Physical.Network, mapping: map<NodeId, NodeId>, routing: EmbedVerify.Routing)
  {
    (forall t :: 0 <= t < |v.links| ==>
      (var e := Normalise(v.links[t].u, v.links[t].v);
        Placement.Crossing(mapping, e) ==> Placement.RoutedBy(mapping, routing, e))) &&
    (forall e :: e in routing ==>
      (Placement.Crossing(mapping, e) && Placement.OnLinks(g, routing[e]) &&
       exists t :: 0 <= t < |v.links| && e == Normalise(v.links[t].u, v.links[t].v)))
  }

  /** Once every sorted link is through the loop, the crossing links are exactly the routed ones. */
  lemma LinksDone(v: Virtual.VirtualNet, g: Physical.Network, mapping: map<NodeId, NodeId>,
                  edges: seq<Pair>, routing: EmbedVerify.Routing, pathOrder: seq<Pair>, used: Used, trail: seq<Booking>)
    requires edges == Virtual.SortedList(v.links)
    requires LinksUpTo(v, g, mapping, edges, |edges|, routing, pathOrder, used, trail)
    ensures Routed(v, g, mapping, routing)
  {
  }

  /**
   * One pass of the link loop: the t-th sorted link, routed and booked
   * when its ends sit on different machines.
   */
  method RouteLink(test: Test, v: Virtual.VirtualNet, g: Physical.Network, paths: MemoPath.PathCache,
                   mapping: map<NodeId, NodeId>, edges: seq<Pair>, t: nat, routing: EmbedVerify.Routing,
                   pathOrder: seq<Pair>, used: Used, ghost trail: seq<Booking>)
    returns (r: Result<(EmbedVerify.Routing, seq<Pair>, Used)>, ghost trail': seq<Booking>, ghost stuck: Booking)
    requires paths.Valid() && paths.g == g
    requires forall u :: u in mapping ==> mapping[u] in g.adj
    requires edges == Virtual.SortedList(v.links) && t < |edges|
    requires LinksUpTo(v, g, mapping, edges, t, routing, pathOrder, used, trail) && TrailChosen(test, g, map[], trail)
    modifies paths
    ensures paths.Valid()
    ensures r.Err? ==> r.error in {KeyError, ValueError, LinkCapacity}
    ensures r.Err? && r.error == LinkCapacity ==> Stuck(test, v, g, mapping, paths.computed, trail', stuck)
    ensures r.Ok? ==> LinksUpTo(v, g, mapping, edges, t + 1, r.value.0, r.value.1, r.value.2, trail')
    ensures r.Ok? ==> TrailChosen(test, g, map[], trail')
  {
    trail' := trail;
    stuck := Booking((0, 0), [], [], 0);
    var e := edges[t];
    if e.0 !in mapping || e.1 !in mapping {
      return Err(KeyError), trail', stuck;
    }
    var pu, pv := mapping[e.0], mapping[e.1];
    if pu == pv {
      RouteSkip(g, mapping, routing, edges, t);
      return Ok((routing, pathOrder, used)), trail', stuck;
    }
    Placement.SortedLinkHasRate(v, t);
    var req := Virtual.ReqRate(v, e.0, e.1);
    var routed, tried := RouteOne(test, g, paths, pu, pv, req, used);
    if routed.Err? {
      if routed.error == LinkCapacity {
        stuck := Booking(e, paths.computed[(pu, pv)], tried, req);
      }
      return Err(routed.error), trail', stuck;
    }
    var pathOrder' := if e !in routing then pathOrder + [e] else pathOrder;
    LinksAdd(v, g, mapping, edges, t, routing, pathOrder, used, trail, routed.value.0, routed.value.1, req, pathOrder');
    TrailExtend(test, g, map[], trail, Booking(e, PairsAlong(routed.value.0), Devices(routed.value.0), req));
    trail' := trail + [Booking(e, PairsAlong(routed.value.0), Devices(routed.value.0), req)];
    r := Ok((routing[e := routed.value.0], pathOrder', routed.value.1));
  }

  /**
   * The link loop's invariant after t sorted links, whatever picks the
   * interfaces: the routes so far, and a trail of bookings that adds up to
   * rate_used.
   */
  ghost predicate LinksUpTo(v: Virtual.VirtualNet, g: Physical.Network, mapping: map<NodeId, NodeId>,
                            edges: seq<Pair>, t: nat, routing: EmbedVerify.Routing, pathOrder: seq<Pair>, used: Used,
                            trail: seq<Booking>)
  {
    t <= |edges| &&
    Placement.Within(g, used) && SortedSlots(used) && Enumerates(pathOrder, routing) &&
    RoutedUpTo(mapping, routing, edges, t) && RoutesListed(g, mapping, routing, edges, t) &&
    Sized(trail) && TrailLinks(v, mapping, routing, trail) && TrailRoutes(routing, trail) &&
    used == Booked(map[], trail)
  }

  /** Routing the t-th sorted link, when it crosses machines, keeps the link loop's invariant. */
  lemma LinksAdd(v: Virtual.VirtualNet, g: Physical.Network, mapping: map<NodeId, NodeId>,
                 edges: seq<Pair>, t: nat, routing: EmbedVerify.Routing, pathOrder: seq<Pair>, used: Used,
                 trail: seq<Booking>, hops: seq<Hop<Key>>, used': Used, req: nat, pathOrder': seq<Pair>)
    requires LinksUpTo(v, g, mapping, edges, t, routing, pathOrder, used, trail) && t < |edges|
    requires Placement.Crossing(mapping, edges[t]) && Virtual.RateIn(v.links, edges[t].0, edges[t].1) == Some(req)
    requires used' == Book(used, PairsAlong(hops), Devices(hops), req)
    requires Placement.Within(g, used') && SortedSlots(used')
    requires Chains(hops, mapping[edges[t].0], mapping[edges[t].1]) && SimpleHops(hops, mapping[edges[t].1])
    requires Placement.OnLinks(g, hops)
    requires pathOrder' == if edges[t] !in routing then pathOrder + [edges[t]] else pathOrder
    ensures LinksUpTo(v, g, mapping, edges, t + 1, routing[edges[t] := hops], pathOrder', used',
                      trail + [Booking(edges[t], PairsAlong(hops), Devices(hops), req)])
  {
    var b := Booking(edges[t], PairsAlong(hops), Devices(hops), req);
    BookedSnoc(map[], trail, b);
    TrailLinksAdd(v, mapping, routing, trail, b, hops);
    TrailRoutesAdd(routing, trail, edges[t], hops, req);
    RouteAdd(g, mapping, routing, edges, t, hops);
    EnumeratesPut(pathOrder, routing, edges[t], hops);
  }

  /**
   * One crossing link of the mapping revision: the memoised find_path
   * between the two machines (ValueError when there is none), then the hop
   * loop; every hop runs along a link of the network.
   */
  method RouteOne(test: Test, g: Physical.Network, paths: MemoPath.PathCache, pu: NodeId, pv: NodeId, req: nat, used: Used)
    returns (r: Result<(seq<Hop<Key>>, Used)>, ghost tried: seq<Key>)
    requires paths.Valid() && paths.g == g && pu in g.adj && pu != pv
    requires Placement.Within(g, used) && SortedSlots(used)
    modifies paths
    ensures paths.Valid()
    ensures r.Err? ==> r.error == ValueError || r.error == LinkCapacity
    ensures r.Err? && r.error == LinkCapacity ==>
      ((pu, pv) in paths.computed &&
       Chosen(test, g, paths.computed[(pu, pv)], used, req, tried) &&
       Refused(test, g, paths.computed[(pu, pv)], used, req, tried))
    ensures r.Ok? ==>
      (tried == Devices(r.value.0) && Chosen(test, g, PairsAlong(r.value.0), used, req, tried) &&
       r.value.1 == Book(used, PairsAlong(r.value.0), tried, req))
    ensures r.Ok? ==> Placement.Within(g, r.value.1) && SortedSlots(r.value.1)
    ensures r.Ok? ==> Chains(r.value.0, pu, pv) && SimpleHops(r.value.0, pv) && Placement.OnLinks(g, r.value.0)
  {
    tried := [];
    var found := paths.FindPathOrRaise(pu, pv);
    if found.Err? {
      return Err(ValueError), tried;
    }
    ghost var walk := paths.walks[(pu, pv)];
    var routed;
    routed, tried := RoutePairs(test, g, found.value, pu, pv, req, used, walk);
    if routed.Err? {
      return Err(LinkCapacity), tried;
    }
    var hops := routed.value.0;
    PairsAlongWalk(g, found.value, walk, hops);
    forall k | 0 <= k < |hops| ensures Physical.LinkBetween(g, hops[k].src, hops[k].dst).Some? {
      assert Along(g, found.value, walk, hops, k);
      assert walk[k] in g.adj && walk[k + 1] in g.adj[walk[k]];
      OnAdjacency(g, walk[k], walk[k + 1]);
    }
    r := routed;
  }

  /** Neighbours in the adjacency are joined by a stored link. */
  lemma OnAdjacency(g: Physical.Network, a: NodeId, b: NodeId)
    requires Physical.Valid(g) && a in g.adj && b in g.adj[a]
    ensures Physical.LinkBetween(g, a, b).Some?
  {
    var k :| 0 <= k < |g.adj[a]| && g.adj[a][k] == b;
  }

  /*
   * The grid5000 revision: one entry from u's machine to v's.
   */

  /** (node, interface, neighbour): one end of an entry. */
  datatype End = End(node: NodeId, key: Key, next: NodeId)

  /**
   * The hop loop of the grid5000 heuristics for one virtual link: each
   * pair of the path gets its first interface that passes `if not`, the
   * request is booked on it, and the hop that touches u's machine gives
   * the source end, the hop that touches v's machine the destination end.
   * The source leaves u's machine towards the second node of the path,
   * the destination leaves v's machine towards the node before it; on a
   * path of one hop both come from that hop.
   */
  method GridPairs(g: Physical.Network, pairs: seq<Pair>, pu: NodeId, pv: NodeId, req: nat, used: Used,
                   ghost walk: seq<NodeId>)
    returns (r: Result<(End, End, Used)>, ghost tried: seq<Key>)
    requires Physical.Valid(g) && Placement.Within(g, used) && SortedSlots(used)
    requires MemoPath.SimplePath(g.adj, pu, pv, walk) && pairs == MemoPath.PairsOf(walk) && pu != pv
    ensures Chosen(NotTruthy, g, pairs, used, req, tried)
    ensures r.Err? ==> r.error == LinkCapacity && Refused(NotTruthy, g, pairs, used, req, tried)
    ensures r.Ok? ==> |tried| == |pairs| && r.value.2 == Book(used, pairs, tried, req)
    ensures r.Ok? ==> Placement.Within(g, r.value.2) && SortedSlots(r.value.2)
    ensures r.Ok? ==> (r.value.0 == End(pu, tried[0], walk[1]) &&
      r.value.1 == End(pv, tried[|pairs| - 1], walk[|walk| - 2]))
  {
    var booked := used;
    var source: Option<End> := None;
    var dest: Option<End> := None;
    tried := [];
    var k := 0;
    while k < |pairs|
      invariant GridUpTo(g, pairs, pu, pv, walk, used, req, k, tried, booked, source, dest)
    {
      var hop := GridHop(g, pairs, pu, pv, req, used, booked, walk, k, tried, source, dest);
      if hop.Err? {
        return Err(LinkCapacity), tried;
      }
      source, dest, booked := hop.value.0, hop.value.1, hop.value.2;
      tried := tried + [hop.value.3];
      k := k + 1;
    }
    r := Ok((source.value, dest.value, booked));
  }

  /**
   * The ends after the hops that got the given keys: the source end is
   * set from the first hop on, and the destination end is set by the last
   * hop and by no earlier one.
   */
  predicate EndsUpTo(pairs: seq<Pair>, pu: NodeId, pv: NodeId, walk: seq<NodeId>, keys: seq<Key>,
                     source: Option<End>, dest: Option<End>)
    requires 2 <= |walk| == |pairs| + 1 && |keys| <= |pairs|
  {
    (|keys| > 0 ==> source == Some(End(pu, keys[0], walk[1]))) &&
    (|keys| < |pairs| ==> dest.None?) &&
    (|keys| == |pairs| ==> dest == Some(End(pv, keys[|pairs| - 1], walk[|pairs| - 1])))
  }

  /** The grid5000 hop loop's invariant after k pairs. */
  ghost predicate GridUpTo(g: Physical.Network, pairs: seq<Pair>, pu: NodeId, pv: NodeId, walk: seq<NodeId>,
                           used: Used, req: nat, k: nat, tried: seq<Key>, booked: Used,
                           source: Option<End>, dest: Option<End>)
  {
    2 <= |walk| == |pairs| + 1 && k <= |pairs| && |tried| == k &&
    Placement.Within(g, booked) && SortedSlots(booked) &&
    Chosen(NotTruthy, g, pairs, used, req, tried) && booked == Book(used, pairs, tried, req) &&
    EndsUpTo(pairs, pu, pv, walk, tried, source, dest)
  }

  /**
   * One pass of the grid5000 hop loop: the first interface of the k-th
   * pair that passes `if not`, booked for req, and the ends the hop sets.
   */
  method GridHop(g: Physical.Network, pairs: seq<Pair>, pu: NodeId, pv: NodeId, req: nat, used: Used, booked: Used,
                 ghost walk: seq<NodeId>, k: nat, ghost tried: seq<Key>, source: Option<End>, dest: Option<End>)
    returns (r: Result<(Option<End>, Option<End>, Used, Key)>)
    requires Physical.Valid(g)
    requires MemoPath.SimplePath(g.adj, pu, pv, walk) && pairs == MemoPath.PairsOf(walk) && pu != pv
    requires k < |pairs| && GridUpTo(g, pairs, pu, pv, walk, used, req, k, tried, booked, source, dest)
    ensures r.Err? ==> r.error == LinkCapacity && Refused(NotTruthy, g, pairs, used, req, tried)
    ensures r.Ok? ==> GridUpTo(g, pairs, pu, pv, walk, used, req, k + 1, tried + [r.value.3], r.value.2, r.value.0, r.value.1)
  {
    PairAt(g.adj, pu, pv, walk, k);
    var (i, j) := pairs[k];
    var chosen := Choose(NotTruthy, g, i, j, req, booked);
    if chosen.Err? {
      return Err(LinkCapacity);
    }
    var key := chosen.value;
    FirstHasRoom(g, i, j, req, booked, key);
    BookKeepsWithin(g, booked, i, j, key, req);
    ChosenExtend(NotTruthy, g, pairs, used, req, tried, key);
    var ends := SetBothEnds(pairs[k], key, pu, pv, source, dest);
    EndsStep(g.adj, pairs, pu, pv, walk, tried, source, dest, key);
    r := Ok((ends.0, ends.1, Add(booked, (i, j, key), req), key));
  }

  /**
   * The ends after a hop (i, key, j) as the grid5000 heuristics write
   * them: the source end when the hop touches u's machine, else (`elif`)
   * the destination end when it touches v's, each written from the
   * machine towards the other node.
   */
  function SetEnds(hop: Pair, key: Key, pu: NodeId, pv: NodeId, source: Option<End>, dest: Option<End>)
    : (Option<End>, Option<End>)
  {
    var (i, j) := hop;
    if i == pu || j == pu then (if i == pu then Some(End(i, key, j)) else Some(End(j, key, i)), dest)
    else if i == pv || j == pv then (source, if i == pv then Some(End(i, key, j)) else Some(End(j, key, i)))
    else (source, dest)
  }

  /** The ends after a hop with two separate tests: the destination end is set even when the hop also sets the source. */
  function SetBothEnds(hop: Pair, key: Key, pu: NodeId, pv: NodeId, source: Option<End>, dest: Option<End>)
    : (Option<End>, Option<End>)
  {
    var (i, j) := hop;
    (if i == pu then Some(End(i, key, j)) else if j == pu then Some(End(j, key, i)) else source,
     if i == pv then Some(End(i, key, j)) else if j == pv then Some(End(j, key, i)) else dest)
  }

  /**
   * On a path of one hop between the two machines, the `elif` leaves the
   * destination end as it was (unbound on the first link, left over from
   * an earlier link otherwise); the two separate tests set it.
   */
  lemma OneHopUnset(pu: NodeId, pv: NodeId, key: Key, source: Option<End>, dest: Option<End>)
    requires pu != pv
    ensures SetEnds(Normalise(pu, pv), key, pu, pv, source, dest) == (Some(End(pu, key, pv)), dest)
    ensures SetBothEnds(Normalise(pu, pv), key, pu, pv, source, dest) == (Some(End(pu, key, pv)), Some(End(pv, key, pu)))
  {
  }

  /** On a path of at least two hops no hop touches both machines, so the `elif` and the two tests agree. */
  lemma LongWalkAgrees(adj: map<NodeId, seq<NodeId>>, pairs: seq<Pair>, pu: NodeId, pv: NodeId, walk: seq<NodeId>,
                       k: nat, key: Key, source: Option<End>, dest: Option<End>)
    requires MemoPath.SimplePath(adj, pu, pv, walk) && pairs == MemoPath.PairsOf(walk) && pu != pv
    requires |walk| >= 3 && k < |pairs|
    ensures SetEnds(pairs[k], key, pu, pv, source, dest) == SetBothEnds(pairs[k], key, pu, pv, source, dest)
  {
    PairAt(adj, pu, pv, walk, k);
    if k == 0 {
      assert walk[1] != pv;
    } else {
      assert walk[k] != pu && walk[k + 1] != pu;
    }
  }

  /**
   * On a simple walk only the first hop touches u's machine and only the
   * last touches v's, so the ends are set by those hops and kept after.
   */
  lemma EndsStep(adj: map<NodeId, seq<NodeId>>, pairs: seq<Pair>, pu: NodeId, pv: NodeId, walk: seq<NodeId>,
                 keys: seq<Key>, source: Option<End>, dest: Option<End>, key: Key)
    requires MemoPath.SimplePath(adj, pu, pv, walk) && pairs == MemoPath.PairsOf(walk) && pu != pv
    requires |walk| == |pairs| + 1 && |keys| < |pairs| && EndsUpTo(pairs, pu, pv, walk, keys, source, dest)
    ensures var ends := SetBothEnds(pairs[|keys|], key, pu, pv, source, dest);
      EndsUpTo(pairs, pu, pv, walk, keys + [key], ends.0, ends.1)
  {
    var k := |keys|;
    PairAt(adj, pu, pv, walk, k);
    if k > 0 {
      assert walk[k] != pu;
      assert walk[k + 1] != pu;
    }
    if k + 1 < |pairs| {
      assert walk[k + 1] != pv;
      assert walk[k] != pv;
    }
  }

  /** Two machines are never neighbours, so a path between two of them has at least two hops. */
  lemma LongWalk(g: Physical.Network, pu: NodeId, pv: NodeId, walk: seq<NodeId>)
    requires Physical.Valid(g) && KBalanced.MachinesApart(g)
    requires Physical.IsCompute(g, pu) && Physical.IsCompute(g, pv)
    requires MemoPath.SimplePath(g.adj, pu, pv, walk)
    ensures |walk| >= 3
  {
    if |walk| == 2 {
      OnAdjacency(g, pu, pv);
    }
  }

  /** The entry a link gets: source + dest + (1,). */
  function EntryOf(source: End, dest: End): FractionVerify.Entry
  {
    FractionVerify.Entry(source.node, source.key, source.next, dest.node, dest.key, dest.next, 1.0)
  }

  /** The entry of a path of at least two hops leaves and arrives on two different links. */
  lemma EntryApart(g: Physical.Network, pu: NodeId, pv: NodeId, walk: seq<NodeId>, source: End, dest: End)
    requires MemoPath.SimplePath(g.adj, pu, pv, walk) && pu != pv && |walk| >= 3
    requires source.node == pu && source.next == walk[1] && dest.node == pv && dest.next == walk[|walk| - 2]
    ensures FractionVerify.ApartEntry(g, EntryOf(source, dest))
  {
    assert walk[|walk| - 2] != pu;
  }

  /** Between two machines that are not neighbours, the entry leaves and arrives on two different links. */
  lemma MachinesEntryApart(g: Physical.Network, pu: NodeId, pv: NodeId, walk: seq<NodeId>, source: End, dest: End)
    requires Physical.Valid(g) && MemoPath.SimplePath(g.adj, pu, pv, walk) && pu != pv
    requires source.node == pu && source.next == walk[1] && dest.node == pv && dest.next == walk[|walk| - 2]
    ensures KBalanced.MachinesApart(g) && Physical.IsCompute(g, pu) && Physical.IsCompute(g, pv) ==>
      FractionVerify.ApartEntry(g, EntryOf(source, dest))
  {
    if KBalanced.MachinesApart(g) && Physical.IsCompute(g, pu) && Physical.IsCompute(g, pv) {
      LongWalk(g, pu, pv, walk);
      EntryApart(g, pu, pv, walk, source, dest);
    }
  }

  /** A single entry of fraction 1 between the two machines spreads the link. */
  lemma OneEntrySpread(x: FractionVerify.Entry, pu: NodeId, pv: NodeId)
    requires x.s1 == pu && x.s2 == pv && x.fraction == 1.0
    ensures FractionVerify.Spread([x], pu, pv)
  {
    assert FractionVerify.FractionsOf([x]) == [1.0];
    assert [1.0][..0] == [];
  }

  /** The entries of a link are still there after another link's entries are written. */
  ghost predicate SpreadUpTo(v: Virtual.VirtualNet, mapping: map<NodeId, NodeId>, lm: FractionVerify.Entries, t: nat)
    requires t <= |v.links|
  {
    forall s :: 0 <= s < t ==> (v.links[s].u in mapping && v.links[s].v in mapping &&
      (mapping[v.links[s].u] != mapping[v.links[s].v] ==>
        FractionVerify.Edge(v.links[s]) in lm &&
        FractionVerify.Spread(lm[FractionVerify.Edge(v.links[s])], mapping[v.links[s].u], mapping[v.links[s].v])))
  }

  /** A link whose ends share a machine needs no entry. */
  lemma SpreadSkip(v: Virtual.VirtualNet, mapping: map<NodeId, NodeId>, lm: FractionVerify.Entries, t: nat)
    requires t < |v.links| && SpreadUpTo(v, mapping, lm, t)
    requires v.links[t].u in mapping && v.links[t].v in mapping && mapping[v.links[t].u] == mapping[v.links[t].v]
    ensures SpreadUpTo(v, mapping, lm, t + 1)
  {
  }

  lemma SpreadAdd(v: Virtual.VirtualNet, mapping: map<NodeId, NodeId>, lm: FractionVerify.Entries, t: nat,
                  es: seq<FractionVerify.Entry>)
    requires Virtual.Valid(v) && t < |v.links| && SpreadUpTo(v, mapping, lm, t)
    requires v.links[t].u in mapping && v.links[t].v in mapping
    requires FractionVerify.Spread(es, mapping[v.links[t].u], mapping[v.links[t].v])
    ensures SpreadUpTo(v, mapping, lm[FractionVerify.Edge(v.links[t]) := es], t + 1)
  {
    forall s | 0 <= s < t
      ensures FractionVerify.Edge(v.links[s]) != FractionVerify.Edge(v.links[t])
    {
      assert !Virtual.Joins(v.links[t], v.links[s].u, v.links[s].v);
    }
  }

  /** Writing one apart entry under a link keeps every link's first entry apart. */
  lemma ApartAdd(g: Physical.Network, lm: FractionVerify.Entries, e: (NodeId, NodeId), x: FractionVerify.Entry)
    requires FractionVerify.EntriesApart(g, lm) && FractionVerify.ApartEntry(g, x)
    ensures FractionVerify.EntriesApart(g, lm[e := [x]])
  {
    var lm' := lm[e := [x]];
    forall d | d in lm' && |lm'[d]| > 0 ensures FractionVerify.ApartEntry(g, lm'[d][0]) {
      if d != e {
        assert lm'[d] == lm[d];
      }
    }
  }

  /**
   * The path of one link of the grid5000 heuristics between two machines:
   * the one remembered for this attempt, or the reverse of the one
   * remembered the other way round, or the memoised find_path (None when
   * there is no path). What is found is remembered for the attempt.
   */
  method GridPath(g: Physical.Network, paths: MemoPath.PathCache, computed: map<(NodeId, NodeId), seq<Pair>>,
                  ghost walks: map<(NodeId, NodeId), seq<NodeId>>, pu: NodeId, pv: NodeId)
    returns (r: Option<seq<Pair>>, computed': map<(NodeId, NodeId), seq<Pair>>,
             ghost walks': map<(NodeId, NodeId), seq<NodeId>>)
    requires paths.Valid() && paths.g == g && MemoPath.MemoValid(g.adj, computed, walks) && pu in g.adj
    modifies paths
    ensures paths.Valid() && MemoPath.MemoValid(g.adj, computed', walks')
    ensures (pu, pv) in computed ==> r == Some(computed[(pu, pv)])
    ensures r.Some? ==> (pu, pv) in computed' && computed'[(pu, pv)] == r.value
  {
    computed', walks' := computed, walks;
    if (pu, pv) !in computed {
      if (pv, pu) in computed {
        var back := walks[(pv, pu)];
        MemoPath.ReversedPath(g.adj, pv, pu, back);
        MemoPath.ReversedPairs(back);
        MemoPath.Remember(g.adj, computed, walks, pu, pv, MemoPath.Reverse(back));
        computed' := computed[(pu, pv) := MemoPath.Reverse(computed[(pv, pu)])];
        walks' := walks[(pu, pv) := MemoPath.Reverse(back)];
      } else {
        var found := paths.FindPath(pu, pv);
        if found.None? {
          return None, computed', walks';
        }
        MemoPath.Remember(g.adj, computed, walks, pu, pv, paths.walks[(pu, pv)]);
        computed' := computed[(pu, pv) := found.value];
        walks' := walks[(pu, pv) := paths.walks[(pu, pv)]];
      }
    }
    r := Some(computed'[(pu, pv)]);
  }

  /**
   * The entry of one link of the grid5000 heuristics: the hop loop on the
   * path between the two machines, then source + dest + (1,), written
   * with the interfaces chosen on the first and the last pair. Between two
   * machines that are not neighbours it leaves u's machine and reaches
   * v's on two different links.
   */
  method GridEntry(g: Physical.Network, pairs: seq<Pair>, pu: NodeId, pv: NodeId, req: nat, used: Used,
                   ghost walk: seq<NodeId>)
    returns (r: Result<(FractionVerify.Entry, Used)>, ghost tried: seq<Key>)
    requires Physical.Valid(g) && Placement.Within(g, used) && SortedSlots(used)
    requires MemoPath.SimplePath(g.adj, pu, pv, walk) && pairs == MemoPath.PairsOf(walk) && pu != pv
    ensures Chosen(NotTruthy, g, pairs, used, req, tried)
    ensures r.Err? ==> r.error == LinkCapacity && Refused(NotTruthy, g, pairs, used, req, tried)
    ensures r.Ok? ==> |tried| == |pairs| && r.value.1 == Book(used, pairs, tried, req)
    ensures r.Ok? ==> Placement.Within(g, r.value.1) && SortedSlots(r.value.1)
    ensures r.Ok? ==> r.value.0 == FractionVerify.Entry(pu, tried[0], walk[1], pv, tried[|pairs| - 1], walk[|walk| - 2], 1.0)
    ensures r.Ok? && KBalanced.MachinesApart(g) && Physical.IsCompute(g, pu) && Physical.IsCompute(g, pv) ==>
      FractionVerify.ApartEntry(g, r.value.0)
  {
    var ends;
    ends, tried := GridPairs(g, pairs, pu, pv, req, used, walk);
    if ends.Err? {
      return Err(LinkCapacity), tried;
    }
    var (source, dest, booked) := ends.value;
    MachinesEntryApart(g, pu, pv, walk, source, dest);
    r := Ok((EntryOf(source, dest), booked));
  }

  /*
   * What the grid5000 link loop books, one virtual link after the other.
   */

  /**
   * The booking of the s-th virtual link: under its edge, for its rate,
   * on no pair when its ends share a machine, otherwise on the pairs of a
   * simple path between the two machines.
   */
  ghost predicate GridBooking(v: Virtual.VirtualNet, g: Physical.Network, mapping: map<NodeId, NodeId>, s: nat, b: Booking)
  {
    s < |v.links| && v.links[s].u in mapping && v.links[s].v in mapping &&
    b.edge == FractionVerify.Edge(v.links[s]) && b.req == FractionVerify.LinkRate(v, s) && |b.keys| <= |b.pairs| &&
    (mapping[v.links[s].u] == mapping[v.links[s].v] ==> b.pairs == []) &&
    (mapping[v.links[s].u] != mapping[v.links[s].v] ==>
      exists w :: MemoPath.SimplePath(g.adj, mapping[v.links[s].u], mapping[v.links[s].v], w) && b.pairs == MemoPath.PairsOf(w))
  }

  /** The bookings of the first links, one per link in order, each with a key for every pair. */
  ghost predicate GridTrail(v: Virtual.VirtualNet, g: Physical.Network, mapping: map<NodeId, NodeId>, trail: seq<Booking>)
  {
    |trail| <= |v.links| &&
    forall s :: 0 <= s < |trail| ==> GridBooking(v, g, mapping, s, trail[s]) && |trail[s].keys| == |trail[s].pairs|
  }

  /**
   * LinkCapacityError in the grid5000 link loop: the links before the
   * stuck one were booked in order, each pair on its first interface that
   * passed `if not`, and the stuck link took keys on its first pairs
   * before the test refused every interface of the next.
   */
  ghost predicate GridStuck(v: Virtual.VirtualNet, g: Physical.Network, mapping: map<NodeId, NodeId>,
                            trail: seq<Booking>, stuck: Booking)
  {
    GridTrail(v, g, mapping, trail) && TrailChosen(NotTruthy, g, map[], trail) &&
    GridBooking(v, g, mapping, |trail|, stuck) &&
    Chosen(NotTruthy, g, stuck.pairs, Booked(map[], trail), stuck.req, stuck.keys) &&
    Refused(NotTruthy, g, stuck.pairs, Booked(map[], trail), stuck.req, stuck.keys)
  }

  /**
   * Every link is booked in order, each pair on its first interface that
   * passed `if not`, and what the trail books leaves every interface
   * within its rate.
   */
  ghost predicate GridBookedWithin(v: Virtual.VirtualNet, g: Physical.Network, mapping: map<NodeId, NodeId>)
  {
    exists trail :: GridTrail(v, g, mapping, trail) && |trail| == |v.links| &&
      TrailChosen(NotTruthy, g, map[], trail) && Placement.Within(g, Booked(map[], trail))
  }

  /**
   * The link loop of the grid5000 heuristics: the virtual links in the
   * graph's order; for a link between two machines, a path remembered for
   * this attempt, or the reverse of one remembered the other way round,
   * or the memoised find_path (None there makes list() raise TypeError);
   * then the hop loop, and one entry of fraction 1 under (u, v).
   */
  method RouteGrid(v: Virtual.VirtualNet, g: Physical.Network, paths: MemoPath.PathCache, mapping: map<NodeId, NodeId>)
    returns (r: Result<(FractionVerify.Entries, Used)>, ghost trail: seq<Booking>, ghost stuck: Booking)
    requires Virtual.Valid(v) && paths.Valid() && paths.g == g
    requires KBalanced.OnMachines(g, mapping)
    modifies paths
    ensures paths.Valid()
    ensures r.Err? ==> r.error in {KeyError, TypeError, LinkCapacity}
    ensures r.Err? && r.error == LinkCapacity ==> GridStuck(v, g, mapping, trail, stuck)
    ensures r.Ok? ==> FractionVerify.AllSpread(v, mapping, r.value.0)
    ensures r.Ok? && KBalanced.MachinesApart(g) ==> FractionVerify.EntriesApart(g, r.value.0)
    ensures r.Ok? ==> (GridTrail(v, g, mapping, trail) && |trail| == |v.links| &&
      TrailChosen(NotTruthy, g, map[], trail) && r.value.1 == Booked(map[], trail))
    ensures r.Ok? ==> Placement.Within(g, r.value.1)
  {
    var lm: FractionVerify.Entries := map[];
    var used: Used := map[];
    var computed: map<(NodeId, NodeId), seq<Pair>> := map[];
    ghost var walks: map<(NodeId, NodeId), seq<NodeId>> := map[];
    trail, stuck := [], Booking((0, 0), [], [], 0);
    var t := 0;
    GridStart(v, g, mapping);
    while t < |v.links|
      invariant paths.Valid() && GridRouted(v, g, mapping, t, lm, used, computed, walks, trail)
    {
      var step, computed', walks', b := GridVisit(v, g, paths, mapping, t, lm, used, computed, walks, trail);
      if step.Err? {
        return Err(step.error), trail, b;
      }
      lm, used, computed, walks := step.value.0, step.value.1, computed', walks';
      trail := trail + [b];
      t := t + 1;
    }
    assert SpreadUpTo(v, mapping, lm, |v.links|);
    r := Ok((lm, used));
  }

  /**
   * One pass of the grid5000 link loop: KeyError for an end without a
   * machine, nothing for a link whose ends share a machine, GridLink
   * otherwise; b is the link's booking.
   */
  method GridVisit(v: Virtual.VirtualNet, g: Physical.Network, paths: MemoPath.PathCache, mapping: map<NodeId, NodeId>,
                   t: nat, lm: FractionVerify.Entries, used: Used, computed: map<(NodeId, NodeId), seq<Pair>>,
                   ghost walks: map<(NodeId, NodeId), seq<NodeId>>, ghost trail: seq<Booking>)
    returns (r: Result<(FractionVerify.Entries, Used)>, computed': map<(NodeId, NodeId), seq<Pair>>,
             ghost walks': map<(NodeId, NodeId), seq<NodeId>>, ghost b: Booking)
    requires Virtual.Valid(v) && paths.Valid() && paths.g == g
    requires KBalanced.OnMachines(g, mapping) && t < |v.links|
    requires GridRouted(v, g, mapping, t, lm, used, computed, walks, trail)
    modifies paths
    ensures paths.Valid()
    ensures r.Err? ==> r.error in {KeyError, TypeError, LinkCapacity}
    ensures r.Err? && r.error == LinkCapacity ==> GridStuck(v, g, mapping, trail, b)
    ensures r.Ok? ==> GridRouted(v, g, mapping, t + 1, r.value.0, r.value.1, computed', walks', trail + [b])
  {
    var l := v.links[t];
    b := Booking(FractionVerify.Edge(l), [], [], FractionVerify.LinkRate(v, t));
    computed', walks' := computed, walks;
    if l.u !in mapping || l.v !in mapping {
      return Err(KeyError), computed', walks', b;
    }
    if mapping[l.u] != mapping[l.v] {
      r, computed', walks', b := GridLink(v, g, paths, mapping, t, lm, used, computed, walks, trail);
    } else {
      GridSkip(v, g, mapping, t, lm, used, computed, walks, trail);
      r := Ok((lm, used));
    }
  }

  /**
   * The state of the grid5000 link loop before the t-th link: bookings
   * within every rate on sorted pairs, made by a trail of the first t
   * links; remembered paths that are simple paths; and the entries of
   * every earlier link between two machines spread over its machines,
   * and apart when no two machines are neighbours.
   */
  ghost predicate GridRouted(v: Virtual.VirtualNet, g: Physical.Network, mapping: map<NodeId, NodeId>, t: nat,
                             lm: FractionVerify.Entries, used: Used, computed: map<(NodeId, NodeId), seq<Pair>>,
                             walks: map<(NodeId, NodeId), seq<NodeId>>, trail: seq<Booking>)
  {
    t <= |v.links| && Placement.Within(g, used) && SortedSlots(used) && MemoPath.MemoValid(g.adj, computed, walks) &&
    SpreadUpTo(v, mapping, lm, t) && (KBalanced.MachinesApart(g) ==> FractionVerify.EntriesApart(g, lm)) &&
    GridTrail(v, g, mapping, trail) && |trail| == t && TrailChosen(NotTruthy, g, map[], trail) &&
    used == Booked(map[], trail)
  }

  /** Nothing booked, remembered or written yet. */
  lemma GridStart(v: Virtual.VirtualNet, g: Physical.Network, mapping: map<NodeId, NodeId>)
    ensures GridRouted(v, g, mapping, 0, map[], map[], map[], map[], [])
  {
    Placement.NothingUsed(g);
  }

  /** One more booking of the next link extends the trail. */
  lemma GridTrailAdd(v: Virtual.VirtualNet, g: Physical.Network, mapping: map<NodeId, NodeId>,
                     trail: seq<Booking>, b: Booking)
    requires GridTrail(v, g, mapping, trail) && GridBooking(v, g, mapping, |trail|, b) && |b.keys| == |b.pairs|
    ensures GridTrail(v, g, mapping, trail + [b])
  {
    var tr := trail + [b];
    forall s | 0 <= s < |tr| ensures GridBooking(v, g, mapping, s, tr[s]) && |tr[s].keys| == |tr[s].pairs| {
      if s < |trail| {
        assert tr[s] == trail[s];
      }
    }
  }

  /** A link whose ends share a machine books nothing and needs no entry. */
  lemma GridSkip(v: Virtual.VirtualNet, g: Physical.Network, mapping: map<NodeId, NodeId>, t: nat,
                 lm: FractionVerify.Entries, used: Used, computed: map<(NodeId, NodeId), seq<Pair>>,
                 walks: map<(NodeId, NodeId), seq<NodeId>>, trail: seq<Booking>)
    requires GridRouted(v, g, mapping, t, lm, used, computed, walks, trail) && t < |v.links|
    requires v.links[t].u in mapping && v.links[t].v in mapping && mapping[v.links[t].u] == mapping[v.links[t].v]
    ensures GridRouted(v, g, mapping, t + 1, lm, used, computed, walks,
      trail + [Booking(FractionVerify.Edge(v.links[t]), [], [], FractionVerify.LinkRate(v, t))])
  {
    var b := Booking(FractionVerify.Edge(v.links[t]), [], [], FractionVerify.LinkRate(v, t));
    SpreadSkip(v, mapping, lm, t);
    GridTrailAdd(v, g, mapping, trail, b);
    TrailExtend(NotTruthy, g, map[], trail, b);
    BookedSnoc(map[], trail, b);
  }

  /** A link between two machines, booked on top of the trail and given its entry, keeps the loop's state. */
  lemma GridAdd(v: Virtual.VirtualNet, g: Physical.Network, mapping: map<NodeId, NodeId>, t: nat,
                lm: FractionVerify.Entries, used: Used, computed: map<(NodeId, NodeId), seq<Pair>>,
                walks: map<(NodeId, NodeId), seq<NodeId>>, trail: seq<Booking>,
                b: Booking, x: FractionVerify.Entry, booked: Used)
    requires Virtual.Valid(v) && t < |v.links| && t == |trail|
    requires Placement.Within(g, used) && SortedSlots(used) && SpreadUpTo(v, mapping, lm, t)
    requires KBalanced.MachinesApart(g) ==> FractionVerify.EntriesApart(g, lm)
    requires GridTrail(v, g, mapping, trail) && TrailChosen(NotTruthy, g, map[], trail) && used == Booked(map[], trail)
    requires MemoPath.MemoValid(g.adj, computed, walks)
    requires GridBooking(v, g, mapping, t, b) && |b.keys| == |b.pairs|
    requires Chosen(NotTruthy, g, b.pairs, used, b.req, b.keys) && booked == Book(used, b.pairs, b.keys, b.req)
    requires Placement.Within(g, booked) && SortedSlots(booked)
    requires x.s1 == mapping[v.links[t].u] && x.s2 == mapping[v.links[t].v] && x.fraction == 1.0
    requires KBalanced.MachinesApart(g) ==> FractionVerify.ApartEntry(g, x)
    ensures GridRouted(v, g, mapping, t + 1, lm[FractionVerify.Edge(v.links[t]) := [x]], booked, computed, walks, trail + [b])
  {
    OneEntrySpread(x, x.s1, x.s2);
    SpreadAdd(v, mapping, lm, t, [x]);
    if KBalanced.MachinesApart(g) {
      ApartAdd(g, lm, FractionVerify.Edge(v.links[t]), x);
    }
    GridTrailAdd(v, g, mapping, trail, b);
    TrailExtend(NotTruthy, g, map[], trail, b);
    BookedSnoc(map[], trail, b);
  }

  /**
   * One pass of the grid5000 link loop for a link between two machines:
   * its path, the hop loop on it, and one entry of fraction 1 written
   * under the link; b is the link's booking.
   */
  method GridLink(v: Virtual.VirtualNet, g: Physical.Network, paths: MemoPath.PathCache, mapping: map<NodeId, NodeId>,
                  t: nat, lm: FractionVerify.Entries, used: Used, computed: map<(NodeId, NodeId), seq<Pair>>,
                  ghost walks: map<(NodeId, NodeId), seq<NodeId>>, ghost trail: seq<Booking>)
    returns (r: Result<(FractionVerify.Entries, Used)>, computed': map<(NodeId, NodeId), seq<Pair>>,
             ghost walks': map<(NodeId, NodeId), seq<NodeId>>, ghost b: Booking)
    requires Virtual.Valid(v) && paths.Valid() && paths.g == g
    requires KBalanced.OnMachines(g, mapping)
    requires t < |v.links| && v.links[t].u in mapping && v.links[t].v in mapping
    requires mapping[v.links[t].u] != mapping[v.links[t].v]
    requires GridRouted(v, g, mapping, t, lm, used, computed, walks, trail)
    modifies paths
    ensures paths.Valid()
    ensures r.Err? ==> r.error in {TypeError, LinkCapacity}
    ensures r.Err? && r.error == LinkCapacity ==> GridStuck(v, g, mapping, trail, b)
    ensures r.Ok? ==> GridRouted(v, g, mapping, t + 1, r.value.0, r.value.1, computed', walks', trail + [b])
  {
    var l := v.links[t];
    var pu, pv := mapping[l.u], mapping[l.v];
    var req := FractionVerify.LinkRate(v, t);
    b := Booking(FractionVerify.Edge(l), [], [], req);
    KBalanced.HostIsCompute(g, mapping, l.u);
    KBalanced.HostIsCompute(g, mapping, l.v);
    var found;
    found, computed', walks' := GridPath(g, paths, computed, walks, pu, pv);
    if found.None? {
      return Err(TypeError), computed', walks', b;
    }
    ghost var walk := walks'[(pu, pv)];
    var entry;
    ghost var tried;
    entry, tried := GridEntry(g, found.value, pu, pv, req, used, walk);
    b := Booking(FractionVerify.Edge(l), found.value, tried, req);
    assert GridBooking(v, g, mapping, t, b);
    if entry.Err? {
      return Err(LinkCapacity), computed', walks', b;
    }
    var (x, booked) := entry.value;
    GridAdd(v, g, mapping, t, lm, used, computed', walks', trail, b, x, booked);
    r := Ok((lm[FractionVerify.Edge(l) := [x]], booked));
  }
}
