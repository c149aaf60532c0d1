/**
 * The physical network of the current library: a multigraph whose nodes may
 * carry cores and memory, and whose links carry one or more interfaces, each
 * with a key, a rate and a device name at each endpoint. In grouped mode every
 * link has a single aggregate interface keyed "dummy" whose rate is the sum
 * of the real interfaces it stands for.
 */
module Physical {
  import opened Common
  import opened PathSearch

  /** Interface keys: networkx's automatic integer keys, or a name ("dummy", a device name). */
  datatype DeviceKey = Auto(index: nat) | Named(name: string)

  /** The key of the aggregate interface of a grouped link. */
  const Dummy: DeviceKey := Named("dummy")

  /** One interface of a link: its key, its rate and the device name at each endpoint. */
  datatype Interface = Interface(key: DeviceKey, rate: nat, devices: map<NodeId, string>)

  /**
   * A link: its interfaces in enumeration order and, in grouped mode, the real
   * interfaces behind the aggregate.
   */
  datatype Link = Link(interfaces: seq<Interface>, associated: seq<Interface>)

  /**
   * A physical network. `adj` gives every node's neighbours in enumeration
   * order; `links` holds each link once, under the orientation the graph
   * reports it in.
   */
  datatype Network = Network(
    nodes: seq<NodeId>,
    cores: map<NodeId, nat>,
    memory: map<NodeId, nat>,
    adj: map<NodeId, seq<NodeId>>,
    links: map<(NodeId, NodeId), Link>,
    grouped: bool)

  function Keys(ifs: seq<Interface>): (ks: seq<DeviceKey>)
    ensures |ks| == |ifs| && forall k :: 0 <= k < |ifs| ==> ks[k] == ifs[k].key
  {
    seq(|ifs|, k requires 0 <= k < |ifs| => ifs[k].key)
  }

  function RateSum(ifs: seq<Interface>): nat
  {
    SumBy(ifs, (f: Interface) => f.rate)
  }

  /**
   * The shape every loader produces: distinct nodes, a symmetric adjacency
   * without repetitions whose edges are exactly the stored links, distinct
   * interface keys on each link and, in grouped mode, one aggregate "dummy"
   * interface per link whose rate is the sum of the associated real rates.
   */
  ghost predicate Valid(g: Network)
  {
    Distinct(g.nodes) &&
    (forall n :: n in g.adj <==> n in g.nodes) &&
    Closed(g.adj) &&
    (forall n :: n in g.adj ==> Distinct(g.adj[n])) &&
    (forall n, k :: n in g.adj && 0 <= k < |g.adj[n]| ==>
      n in g.adj[g.adj[n][k]] && LinkBetween(g, n, g.adj[n][k]).Some?) &&
    (forall e :: e in g.links ==> e.0 in g.adj && e.1 in g.adj[e.0] && (e.1, e.0) !in g.links) &&
    (forall e :: e in g.links ==> Distinct(Keys(g.links[e].interfaces))) &&
    (forall e :: e in g.links ==> Distinct(Keys(g.links[e].associated))) &&
    (g.grouped ==> forall e :: e in g.links ==>
      |g.links[e].interfaces| == 1 && g.links[e].interfaces[0].key == Dummy &&
      g.links[e].interfaces[0].rate == RateSum(g.links[e].associated))
  }

  /** cores(node): the "cores" attribute, 0 when the node has none. */
  function Cores(g: Network, n: NodeId): nat
  {
    if n in g.cores then g.cores[n] else 0
  }

  /** memory(node): the "memory" attribute, 0 when the node has none. */
  function Memory(g: Network, n: NodeId): nat
  {
    if n in g.memory then g.memory[n] else 0
  }

  predicate IsCompute(g: Network, n: NodeId)
  {
    Cores(g, n) > 0 && Memory(g, n) > 0
  }

  /** The nodes able to host virtual nodes: both attributes present and positive. */
  function ComputeNodes(g: Network): (r: set<NodeId>)
    ensures forall n :: n in r <==>
      n in g.nodes && n in g.cores && n in g.memory && g.cores[n] > 0 && g.memory[n] > 0
  {
    set n | n in g.nodes && IsCompute(g, n)
  }

  /** The link between i and j, whichever orientation it is stored under. */
  function LinkBetween(g: Network, i: NodeId, j: NodeId): Option<Link>
  {
    if (i, j) in g.links then Some(g.links[(i, j)])
    else if (j, i) in g.links then Some(g.links[(j, i)])
    else None
  }

  function InterfacesOf(g: Network, i: NodeId, j: NodeId): seq<Interface>
  {
    match LinkBetween(g, i, j)
    case Some(l) => l.interfaces
    case None => []
  }

  /** interfaces_ids(i, j): the keys of the link's interfaces, in enumeration order. */
  function InterfaceIds(g: Network, i: NodeId, j: NodeId): (ks: seq<DeviceKey>)
    ensures |ks| == |InterfacesOf(g, i, j)|
  {
    Keys(InterfacesOf(g, i, j))
  }

  /** The interface with the given key, if the list has one. */
  function Lookup(ifs: seq<Interface>, key: DeviceKey): (r: Option<Interface>)
    ensures r.Some? ==> r.value in ifs && r.value.key == key
    ensures r.None? ==> forall k :: 0 <= k < |ifs| ==> ifs[k].key != key
  {
    if |ifs| == 0 then None
    else if ifs[0].key == key then Some(ifs[0])
    else Lookup(ifs[1..], key)
  }

  /** rate(i, j, device_id); a missing link or key is Python's KeyError. */
  function Rate(g: Network, i: NodeId, j: NodeId, key: DeviceKey): Result<nat>
  {
    match Lookup(InterfacesOf(g, i, j), key)
    case Some(f) => Ok(f.rate)
    case None => Err(KeyError)
  }

  /** interface_name(i, j, device_id): the device name of the interface at endpoint i. */
  function InterfaceName(g: Network, i: NodeId, j: NodeId, key: DeviceKey): Result<string>
  {
    match Lookup(InterfacesOf(g, i, j), key)
    case Some(f) => if i in f.devices then Ok(f.devices[i]) else Err(KeyError)
    case None => Err(KeyError)
  }

  function Neighbors(g: Network, i: NodeId): seq<NodeId>
  {
    if i in g.adj then g.adj[i] else []
  }

  /** rate_out(i): the rates of every interface of every link at i, added up. */
  function RateOut(g: Network, i: NodeId): nat
  {
    SumBy(Neighbors(g, i), (j: NodeId) => RateSum(InterfacesOf(g, i, j)))
  }

  /** associated_nw_interfaces(i, j): only defined on grouped networks. */
  function AssociatedInterfaces(g: Network, i: NodeId, j: NodeId): (r: Result<seq<Interface>>)
    ensures r.Err? <==> !g.grouped || LinkBetween(g, i, j).None?
    ensures r.Ok? ==> r.value == LinkBetween(g, i, j).value.associated
  {
    if !g.grouped then Err(ValueError)
    else match LinkBetween(g, i, j)
      case Some(l) => Ok(l.associated)
      case None => Err(KeyError)
  }

  /** rate_associated_nw_interface(i, j, device_id). */
  function RateAssociated(g: Network, i: NodeId, j: NodeId, key: DeviceKey): (r: Result<nat>)
    ensures !g.grouped ==> r == Err(ValueError)
    ensures r.Ok? ==> (LinkBetween(g, i, j).Some? &&
      exists f :: f in LinkBetween(g, i, j).value.associated && f.key == key && f.rate == r.value)
  {
    match AssociatedInterfaces(g, i, j)
    case Err(e) => Err(e)
    case Ok(ifs) =>
      match Lookup(ifs, key)
      case Some(f) => Ok(f.rate)
      case None => Err(KeyError)
  }

  /** name_associated_nw_interface(i, j, device_id): the device name at endpoint i. */
  function NameAssociated(g: Network, i: NodeId, j: NodeId, key: DeviceKey): (r: Result<string>)
    ensures !g.grouped ==> r == Err(ValueError)
    ensures r.Ok? ==> (LinkBetween(g, i, j).Some? &&
      exists f :: (f in LinkBetween(g, i, j).value.associated && f.key == key &&
        i in f.devices && f.devices[i] == r.value))
  {
    match AssociatedInterfaces(g, i, j)
    case Err(e) => Err(e)
    case Ok(ifs) =>
      match Lookup(ifs, key)
      case Some(f) => if i in f.devices then Ok(f.devices[i]) else Err(KeyError)
      case None => Err(KeyError)
  }

  /** Residual test of find_path: the rate covers the request plus what both directions already use. */
  predicate Fits(i: NodeId, j: NodeId, f: Interface, req: nat, used: map<(NodeId, NodeId, DeviceKey), nat>)
  {
    f.rate >= req + Get(used, (i, j, f.key)) + Get(used, (j, i, f.key))
  }

  /** Index of the first interface that fits, in enumeration order. */
  function FirstFit(ifs: seq<Interface>, i: NodeId, j: NodeId, req: nat,
                    used: map<(NodeId, NodeId, DeviceKey), nat>): (r: Option<nat>)
    ensures r.Some? ==> r.value < |ifs| && Fits(i, j, ifs[r.value], req, used)
    ensures r.Some? ==> forall l :: 0 <= l < r.value ==> !Fits(i, j, ifs[l], req, used)
    ensures r.None? ==> forall l :: 0 <= l < |ifs| ==> !Fits(i, j, ifs[l], req, used)
  {
    if |ifs| == 0 then None
    else if Fits(i, j, ifs[0], req, used) then Some(0)
    else match FirstFit(ifs[1..], i, j, req, used)
      case Some(k) => Some(k + 1)
      case None => None
  }

  /** The device find_path uses for the edge (i, j), if any fits. */
  function ChooseDevice(g: Network, req: nat, used: map<(NodeId, NodeId, DeviceKey), nat>,
                        i: NodeId, j: NodeId): Option<DeviceKey>
  {
    match FirstFit(InterfacesOf(g, i, j), i, j, req, used)
    case Some(k) => Some(InterfacesOf(g, i, j)[k].key)
    case None => None
  }

  /** The device chosen for a hop is the first interface of the link whose residual covers the request. */
  predicate FirstFitting(g: Network, req: nat, used: map<(NodeId, NodeId, DeviceKey), nat>, h: Hop<DeviceKey>)
  {
    var ifs := InterfacesOf(g, h.src, h.dst);
    exists k :: 0 <= k < |ifs| && ifs[k].key == h.device && Fits(h.src, h.dst, ifs[k], req, used) &&
      forall l :: 0 <= l < k ==> !Fits(h.src, h.dst, ifs[l], req, used)
  }

  /**
   * find_path(source, target, req_rate, used_rate): a simple path of
   * (i, j, device) hops from source to target, each on the first interface
   * whose residual covers req_rate; NoPathFoundError when the search runs dry.
   */
  method FindPath(g: Network, source: NodeId, target: NodeId, req: nat,
                  used: map<(NodeId, NodeId, DeviceKey), nat>)
    returns (r: Result<seq<Hop<DeviceKey>>>)
    requires Valid(g) && source in g.adj
    ensures r.Ok? ==> Chains(r.value, source, target) && SimpleHops(r.value, target)
    ensures r.Ok? ==> forall k :: 0 <= k < |r.value| ==>
      r.value[k].dst in Neighbors(g, r.value[k].src) && FirstFitting(g, req, used, r.value[k])
    ensures r.Err? ==> r.error == NoPathFound
  {
    var found := Search(g.adj, source, target, (i: NodeId, j: NodeId) => ChooseDevice(g, req, used, i, j));
    match found {
      case Some(hops) =>
        forall k | 0 <= k < |hops|
          ensures hops[k].dst in Neighbors(g, hops[k].src) && FirstFitting(g, req, used, hops[k])
        {
          var idx := FirstFit(InterfacesOf(g, hops[k].src, hops[k].dst), hops[k].src, hops[k].dst, req, used);
          assert idx.Some?;
        }
        r := Ok(hops);
      case None =>
        r := Err(NoPathFound);
    }
  }

  /** rate_out bounds the rate of every single interface at i. */
  lemma {:induction false} RateOutBoundsInterface(g: Network, i: NodeId, j: NodeId, f: Interface)
    requires j in Neighbors(g, i) && f in InterfacesOf(g, i, j)
    ensures f.rate <= RateOut(g, i)
  {
    var ifs := InterfacesOf(g, i, j);
    var a :| 0 <= a < |ifs| && ifs[a] == f;
    SumByElement(ifs, (f: Interface) => f.rate, a);
    var ns := Neighbors(g, i);
    var b :| 0 <= b < |ns| && ns[b] == j;
    SumByElement(ns, (j: NodeId) => RateSum(InterfacesOf(g, i, j)), b);
  }

  /** The real rate behind a link: its associated interfaces when grouped, its own interfaces otherwise. */
  function RealRate(g: Network, i: NodeId, j: NodeId): nat
  {
    match LinkBetween(g, i, j)
    case Some(l) => if g.grouped then RateSum(l.associated) else RateSum(l.interfaces)
    case None => 0
  }

  /**
   * On a grouped network the aggregate "dummy" rates add up to the real
   * interface rates, so rate_out is the same whether counted on aggregates or
   * on the real interfaces.
   */
  lemma {:induction false} RateOutCountsRealInterfaces(g: Network, i: NodeId)
    requires Valid(g)
    ensures RateOut(g, i) == SumBy(Neighbors(g, i), (j: NodeId) => RealRate(g, i, j))
  {
    var ns := Neighbors(g, i);
    var f := (j: NodeId) => RateSum(InterfacesOf(g, i, j));
    var h := (j: NodeId) => RealRate(g, i, j);
    forall k | 0 <= k < |ns| ensures f(ns[k]) == h(ns[k]) {
      LinkRealRate(g, i, ns[k]);
    }
    SumByPointwise(ns, f, h);
    SumByPointwise(ns, h, f);
  }

  /** On one link: the interfaces' rates add up to the real rate (the aggregate's rate in grouped mode). */
  lemma LinkRealRate(g: Network, i: NodeId, j: NodeId)
    requires Valid(g)
    ensures RateSum(InterfacesOf(g, i, j)) == RealRate(g, i, j)
  {
    if g.grouped && LinkBetween(g, i, j).Some? {
      var e := if (i, j) in g.links then (i, j) else (j, i);
      var l := g.links[e];
      assert LinkBetween(g, i, j) == Some(l);
      assert |l.interfaces| == 1 && l.interfaces[0].rate == RateSum(l.associated);
      assert l.interfaces[..0] == [];
      assert RateSum(l.interfaces) == SumBy(l.interfaces[..0], (f: Interface) => f.rate) + l.interfaces[0].rate;
      assert InterfacesOf(g, i, j) == l.interfaces;
    }
  }
}
