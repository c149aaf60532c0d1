/**
 * The grid5000 revision (embedding/grid5000/solution.py) and the root
 * revision (solution.py) describe how a virtual link is carried by entries
 * (u's machine, interface, next node, v's machine, interface, next node,
 * fraction) instead of by paths. Both check a solution with
 * verify_solution and turn a solution over grouped interfaces into one
 * over the real interfaces with map_to_multiple_interfaces.
 */
module FractionVerify {
  import opened Common
  import Physical
  import Virtual
  import Ungroup
  import EmbedVerify
  import EmbedBuild
  import LowerBound

  type Key = Physical.DeviceKey
  type Slot = EmbedVerify.Slot

  /** One entry: where it leaves u's machine, where it reaches v's machine, and the fraction of the rate. */
  datatype Entry = Entry(s1: NodeId, i1: Key, t1: NodeId, s2: NodeId, i2: Key, t2: NodeId, fraction: real)

  /** res_link_mapping: the entries of each virtual link. */
  type Entries = map<Pair, seq<Entry>>

  function FractionsOf(es: seq<Entry>): (fs: seq<real>)
    ensures |fs| == |es| && forall k :: 0 <= k < |es| ==> fs[k] == es[k].fraction
  {
    seq(|es|, k requires 0 <= k < |es| => es[k].fraction)
  }

  function Edge(l: Virtual.VLink): Pair
  {
    (l.u, l.v)
  }

  /** The entries of a link between two machines leave from u's machine, arrive at v's, and add up to the whole rate. */
  predicate Spread(es: seq<Entry>, pu: NodeId, pv: NodeId)
  {
    (forall k :: 0 <= k < |es| ==> es[k].s1 == pu && es[k].s2 == pv) && SumReal(FractionsOf(es)) == 1.0
  }

  /** Every virtual link between two different machines has entries, spread as above. */
  predicate AllSpread(v: Virtual.VirtualNet, mapping: map<NodeId, NodeId>, lm: Entries)
  {
    forall t :: 0 <= t < |v.links| ==> (v.links[t].u in mapping && v.links[t].v in mapping &&
      (mapping[v.links[t].u] != mapping[v.links[t].v] ==>
        Edge(v.links[t]) in lm && Spread(lm[Edge(v.links[t])], mapping[v.links[t].u], mapping[v.links[t].v])))
  }

  /*
   * The link phase of both revisions.
   */

  /** The inner loop: add up the fractions, testing the ends of every entry. */
  method CheckSpread(es: seq<Entry>, pu: NodeId, pv: NodeId) returns (ok: bool)
    ensures ok <==> Spread(es, pu, pv)
  {
    var sum := 0.0;
    var k := 0;
    while k < |es|
      invariant 0 <= k <= |es|
      invariant sum == SumReal(FractionsOf(es[..k]))
      invariant forall l :: 0 <= l < k ==> es[l].s1 == pu && es[l].s2 == pv
    {
      assert FractionsOf(es[..k + 1])[..k] == FractionsOf(es[..k]);
      sum := sum + es[k].fraction;
      if es[k].s1 != pu || es[k].s2 != pv {
        return false;
      }
      k := k + 1;
    }
    assert es[..k] == es;
    return sum == 1.0;
  }

  /** The outer loop over the virtual links, in the graph's order. */
  method CheckLinks(v: Virtual.VirtualNet, mapping: map<NodeId, NodeId>, lm: Entries) returns (ok: bool)
    requires Virtual.Valid(v) && EmbedVerify.Assigned(v, mapping)
    ensures ok <==> AllSpread(v, mapping, lm)
  {
    var t := 0;
    while t < |v.links|
      invariant 0 <= t <= |v.links|
      invariant forall s :: 0 <= s < t ==> (v.links[s].u in mapping && v.links[s].v in mapping &&
        (mapping[v.links[s].u] != mapping[v.links[s].v] ==>
          Edge(v.links[s]) in lm && Spread(lm[Edge(v.links[s])], mapping[v.links[s].u], mapping[v.links[s].v])))
    {
      var l := v.links[t];
      assert l.u in v.nodes && l.v in v.nodes;
      var pu, pv := mapping[l.u], mapping[l.v];
      if pu != pv {
        if Edge(l) !in lm {
          return false;
        }
        var spread := CheckSpread(lm[Edge(l)], pu, pv);
        if !spread {
          return false;
        }
      }
      t := t + 1;
    }
    return true;
  }

  /*
   * The node phase: totals first, then cores machine by machine, then memory.
   */

  /**
   * The capacity a revision reads: cores/memory with 0 for a missing
   * attribute (grid5000), or nb_cores/ram_size read directly, a KeyError
   * when missing (root, `strict`).
   */
  function CapacityOf(g: Physical.Network, res: Resource, p: NodeId, strict: bool): (r: Result<nat>)
    ensures !strict ==> r == Ok(LowerBound.Capacity(g, res, p))
    ensures strict ==> (r.Ok? <==> p in (if res == Cores then g.cores else g.memory))
  {
    var m := if res == Cores then g.cores else g.memory;
    if !strict then Ok(LowerBound.Capacity(g, res, p))
    else if p in m then Ok(m[p])
    else Err(KeyError)
  }

  /** Every machine hosting a listed node can be read and holds the total demand placed on it. */
  predicate TotalWithin(v: Virtual.VirtualNet, g: Physical.Network, mapping: map<NodeId, NodeId>, order: seq<NodeId>,
                        res: Resource, strict: bool)
  {
    forall k :: 0 <= k < |order| && order[k] in mapping ==> (CapacityOf(g, res, mapping[order[k]], strict).Ok? &&
      EmbedVerify.Load(v, res, mapping, order, mapping[order[k]]) <= CapacityOf(g, res, mapping[order[k]], strict).value)
  }

  /** Add up both demands per machine, in placement order. */
  method Totals(v: Virtual.VirtualNet, mapping: map<NodeId, NodeId>, order: seq<NodeId>)
    returns (r: Result<(map<NodeId, nat>, map<NodeId, nat>)>)
    requires forall n :: n in order ==> n in mapping
    ensures r.Ok? <==> EmbedVerify.Known(v, order)
    ensures r.Err? ==> r.error == KeyError
    ensures r.Ok? ==> forall p :: (Get(r.value.0, p) == EmbedVerify.Load(v, Cores, mapping, order, p) &&
      Get(r.value.1, p) == EmbedVerify.Load(v, Memory, mapping, order, p))
  {
    var coresUsed: map<NodeId, nat> := map[];
    var memoryUsed: map<NodeId, nat> := map[];
    var i := 0;
    while i < |order|
      invariant 0 <= i <= |order|
      invariant EmbedVerify.Known(v, order[..i])
      invariant forall p :: Get(coresUsed, p) == EmbedVerify.Load(v, Cores, mapping, order[..i], p)
      invariant forall p :: Get(memoryUsed, p) == EmbedVerify.Load(v, Memory, mapping, order[..i], p)
    {
      var n := order[i];
      EmbedVerify.LoadStep(v, Cores, mapping, order, i);
      EmbedVerify.LoadStep(v, Memory, mapping, order, i);
      if n !in v.cores || n !in v.memory {
        return Err(KeyError);
      }
      coresUsed := Add(coresUsed, mapping[n], v.cores[n]);
      memoryUsed := Add(memoryUsed, mapping[n], v.memory[n]);
      PrefixGrows(order, i);
      i := i + 1;
    }
    assert order[..i] == order;
    return Ok((coresUsed, memoryUsed));
  }

  /**
   * Test the total of one resource on every machine in use. The source
   * walks its per-machine dictionary, whose order is that of first use in
   * the placement; walking the placement itself meets the same machines
   * in the same order, some of them again.
   */
  method CheckTotal(v: Virtual.VirtualNet, g: Physical.Network, mapping: map<NodeId, NodeId>, order: seq<NodeId>,
                    res: Resource, strict: bool, used: map<NodeId, nat>)
    returns (r: Result<()>)
    requires forall n :: n in order ==> n in mapping
    requires forall p :: Get(used, p) == EmbedVerify.Load(v, res, mapping, order, p)
    ensures r.Ok? <==> TotalWithin(v, g, mapping, order, res, strict)
    ensures r.Err? ==> (r.error == KeyError ||
      (r.error.NodeResource? && r.error.resource == res && CapacityOf(g, res, r.error.node, strict).Ok? &&
       EmbedVerify.Load(v, res, mapping, order, r.error.node) > CapacityOf(g, res, r.error.node, strict).value))
  {
    var k := 0;
    while k < |order|
      invariant 0 <= k <= |order|
      invariant forall l :: 0 <= l < k && order[l] in mapping ==> (CapacityOf(g, res, mapping[order[l]], strict).Ok? &&
        EmbedVerify.Load(v, res, mapping, order, mapping[order[l]]) <= CapacityOf(g, res, mapping[order[l]], strict).value)
    {
      var n := order[k];
      assert n in order;
      var p := mapping[n];
      var cap := CapacityOf(g, res, p, strict);
      if cap.Err? {
        return Err(KeyError);
      }
      if Get(used, p) > cap.value {
        return Err(NodeResource(p, res));
      }
      k := k + 1;
    }
    return Ok(());
  }

  /** The node phase: totals, every machine's cores, then every machine's memory. */
  method CheckNodes(v: Virtual.VirtualNet, g: Physical.Network, mapping: map<NodeId, NodeId>, order: seq<NodeId>,
                    strict: bool)
    returns (r: Result<()>)
    requires forall n :: n in order ==> n in mapping
    ensures r.Ok? <==> (EmbedVerify.Known(v, order) && TotalWithin(v, g, mapping, order, Cores, strict) &&
      TotalWithin(v, g, mapping, order, Memory, strict))
    ensures r.Err? ==> (r.error == KeyError || (r.error.NodeResource? &&
      CapacityOf(g, r.error.resource, r.error.node, strict).Ok? &&
      EmbedVerify.Load(v, r.error.resource, mapping, order, r.error.node) >
        CapacityOf(g, r.error.resource, r.error.node, strict).value))
    ensures r.Err? && r.error.NodeResource? && r.error.resource == Memory ==> TotalWithin(v, g, mapping, order, Cores, strict)
  {
    var totals := Totals(v, mapping, order);
    if totals.Err? {
      return Err(KeyError);
    }
    r := CheckTotal(v, g, mapping, order, Cores, strict, totals.value.0);
    if r.Err? {
      return r;
    }
    r := CheckTotal(v, g, mapping, order, Memory, strict, totals.value.1);
  }

  /*
   * The link-capacity phase of the grid5000 revision.
   */

  /** The interfaces the phase counts on: the real ones behind the aggregate when grouped. */
  function Checked(g: Physical.Network, e: Pair): seq<Physical.Interface>
    requires e in g.links
  {
    if g.grouped then g.links[e].associated else g.links[e].interfaces
  }

  /** The stored link an entry's end (s, i, t) is charged to: (s, t) if it has interface i, else (t, s). */
  function ResolveEnd(g: Physical.Network, s: NodeId, i: Key, t: NodeId): (r: Option<Pair>)
    ensures r.Some? ==> r.value in g.links && i in Physical.Keys(Checked(g, r.value))
    ensures r.Some? ==> r.value == (s, t) || r.value == (t, s)
  {
    if (s, t) in g.links && i in Physical.Keys(Checked(g, (s, t))) then Some((s, t))
    else if (t, s) in g.links && i in Physical.Keys(Checked(g, (t, s))) then Some((t, s))
    else None
  }

  function EndCharge(g: Physical.Network, s: NodeId, i: Key, t: NodeId, slot: Slot, amount: real): real
  {
    if ResolveEnd(g, s, i, t) == Some((slot.0, slot.1)) && i == slot.2 then amount else 0.0
  }

  /** What one entry puts on an interface: its share of the rate, at both ends. */
  function EntryCharge(g: Physical.Network, x: Entry, rate: nat, slot: Slot): real
  {
    EndCharge(g, x.s1, x.i1, x.t1, slot, x.fraction * rate as real) +
    EndCharge(g, x.s2, x.i2, x.t2, slot, x.fraction * rate as real)
  }

  function EntriesUsage(g: Physical.Network, es: seq<Entry>, rate: nat, slot: Slot): real
  {
    if |es| == 0 then 0.0
    else EntriesUsage(g, es[..|es| - 1], rate, slot) + EntryCharge(g, es[|es| - 1], rate, slot)
  }

  /** The rate all listed links' entries put on an interface. */
  function Usage(v: Virtual.VirtualNet, g: Physical.Network, lm: Entries, order: seq<Pair>, slot: Slot): real
  {
    if |order| == 0 then 0.0
    else
      var e := order[|order| - 1];
      Usage(v, g, lm, order[..|order| - 1], slot) +
        (if e in lm then EntriesUsage(g, lm[e], EmbedVerify.RateOf(v, e), slot) else 0.0)
  }

  /** Both ends of every entry can be charged, and entries belong to a virtual link. */
  predicate Chargeable(v: Virtual.VirtualNet, g: Physical.Network, e: Pair, es: seq<Entry>)
  {
    |es| == 0 || (Virtual.RateIn(v.links, e.0, e.1).Some? && Resolved(g, es))
  }

  predicate AllChargeable(v: Virtual.VirtualNet, g: Physical.Network, lm: Entries, order: seq<Pair>)
  {
    forall i :: 0 <= i < |order| ==> order[i] in lm && Chargeable(v, g, order[i], lm[order[i]])
  }

  /** No counted interface carries more than its rate. */
  ghost predicate LinksWithin(g: Physical.Network, used: Slot -> real)
  {
    forall e, k :: e in g.links && 0 <= k < |Checked(g, e)| ==>
      used((e.0, e.1, Checked(g, e)[k].key)) <= Checked(g, e)[k].rate as real
  }

  function GetReal(m: map<Slot, real>, s: Slot): real
  {
    if s in m then m[s] else 0.0
  }

  /** One end of an entry: `used[(s, t)][i] += amount`, or on (t, s) when that raises. */
  method ChargeEnd(g: Physical.Network, s: NodeId, i: Key, t: NodeId, amount: real, used: map<Slot, real>)
    returns (r: Result<map<Slot, real>>)
    ensures r.Ok? <==> ResolveEnd(g, s, i, t).Some?
    ensures r.Err? ==> r.error == KeyError
    ensures r.Ok? ==> forall slot :: GetReal(r.value, slot) == GetReal(used, slot) + EndCharge(g, s, i, t, slot, amount)
  {
    match ResolveEnd(g, s, i, t) {
      case None =>
        return Err(KeyError);
      case Some(e) =>
        var slot := (e.0, e.1, i);
        return Ok(used[slot := GetReal(used, slot) + amount]);
    }
  }

  lemma EntriesUsageStep(g: Physical.Network, es: seq<Entry>, rate: nat, j: nat)
    requires j < |es|
    ensures forall slot :: (EntriesUsage(g, es[..j + 1], rate, slot) ==
      EntriesUsage(g, es[..j], rate, slot) + EntryCharge(g, es[j], rate, slot))
  {
    assert es[..j + 1][..j] == es[..j];
  }

  /** Both ends of one entry. */
  method ChargeEntry(g: Physical.Network, x: Entry, rate: nat, used: map<Slot, real>)
    returns (r: Result<map<Slot, real>>)
    ensures r.Ok? <==> (ResolveEnd(g, x.s1, x.i1, x.t1).Some? && ResolveEnd(g, x.s2, x.i2, x.t2).Some?)
    ensures r.Err? ==> r.error == KeyError
    ensures r.Ok? ==> forall slot :: GetReal(r.value, slot) == GetReal(used, slot) + EntryCharge(g, x, rate, slot)
  {
    var amount := x.fraction * rate as real;
    var first := ChargeEnd(g, x.s1, x.i1, x.t1, amount, used);
    if first.Err? {
      return Err(KeyError);
    }
    var second := ChargeEnd(g, x.s2, x.i2, x.t2, amount, first.value);
    if second.Err? {
      return Err(KeyError);
    }
    return second;
  }

  /** Both ends of every entry resolve to a stored link. */
  predicate Resolved(g: Physical.Network, es: seq<Entry>)
  {
    forall k :: 0 <= k < |es| ==>
      ResolveEnd(g, es[k].s1, es[k].i1, es[k].t1).Some? && ResolveEnd(g, es[k].s2, es[k].i2, es[k].t2).Some?
  }

  /** The inner loop: charge both ends of every entry of a link. */
  method ChargeEntries(g: Physical.Network, es: seq<Entry>, rate: nat, used0: map<Slot, real>)
    returns (r: Result<map<Slot, real>>)
    ensures r.Ok? <==> Resolved(g, es)
    ensures r.Err? ==> r.error == KeyError
    ensures r.Ok? ==> forall slot :: GetReal(r.value, slot) == GetReal(used0, slot) + EntriesUsage(g, es, rate, slot)
  {
    var used := used0;
    var j := 0;
    while j < |es|
      invariant 0 <= j <= |es|
      invariant Resolved(g, es[..j])
      invariant forall slot :: GetReal(used, slot) == GetReal(used0, slot) + EntriesUsage(g, es[..j], rate, slot)
    {
      EntriesUsageStep(g, es, rate, j);
      var next := ChargeEntry(g, es[j], rate, used);
      if next.Err? {
        assert !Resolved(g, es);
        return Err(KeyError);
      }
      used := next.value;
      PrefixGrows(es, j);
      j := j + 1;
    }
    assert es[..j] == es;
    return Ok(used);
  }

  lemma UsageStep(v: Virtual.VirtualNet, g: Physical.Network, lm: Entries, order: seq<Pair>, i: nat)
    requires i < |order| && order[i] in lm
    ensures forall slot :: (Usage(v, g, lm, order[..i + 1], slot) ==
      Usage(v, g, lm, order[..i], slot) + EntriesUsage(g, lm[order[i]], EmbedVerify.RateOf(v, order[i]), slot))
  {
    assert order[..i + 1][..i] == order[..i];
  }

  /** The usage counters, filled link by link in the entries' order. */
  method ChargeAll(v: Virtual.VirtualNet, g: Physical.Network, lm: Entries, order: seq<Pair>)
    returns (r: Result<map<Slot, real>>)
    requires forall e :: e in order ==> e in lm
    ensures r.Ok? <==> AllChargeable(v, g, lm, order)
    ensures r.Err? ==> r.error == KeyError
    ensures r.Ok? ==> forall slot :: GetReal(r.value, slot) == Usage(v, g, lm, order, slot)
  {
    var used: map<Slot, real> := map[];
    var i := 0;
    while i < |order|
      invariant 0 <= i <= |order|
      invariant AllChargeable(v, g, lm, order[..i])
      invariant forall slot :: GetReal(used, slot) == Usage(v, g, lm, order[..i], slot)
    {
      var e := order[i];
      var es := lm[e];
      UsageStep(v, g, lm, order, i);
      if |es| > 0 && Virtual.RateIn(v.links, e.0, e.1).None? {
        return Err(KeyError);
      }
      var next := ChargeEntries(g, es, EmbedVerify.RateOf(v, e), used);
      if next.Err? {
        return Err(KeyError);
      }
      used := next.value;
      PrefixGrows(order, i);
      i := i + 1;
    }
    assert order[..i] == order;
    return Ok(used);
  }

  /** Every counted interface of every stored link against its rate. */
  method CheckCapacity(g: Physical.Network, used: map<Slot, real>) returns (ok: bool)
    ensures ok <==> LinksWithin(g, slot => GetReal(used, slot))
  {
    var rest := g.links.Keys;
    while rest != {}
      invariant rest <= g.links.Keys
      invariant forall e, k :: e in g.links.Keys - rest && 0 <= k < |Checked(g, e)| ==>
        GetReal(used, (e.0, e.1, Checked(g, e)[k].key)) <= Checked(g, e)[k].rate as real
      decreases |rest|
    {
      NonEmptyHasPair(rest);
      var e :| e in rest;
      var ifs := Checked(g, e);
      var k := 0;
      while k < |ifs|
        invariant 0 <= k <= |ifs|
        invariant forall l :: 0 <= l < k ==> GetReal(used, (e.0, e.1, ifs[l].key)) <= ifs[l].rate as real
      {
        if GetReal(used, (e.0, e.1, ifs[k].key)) > ifs[k].rate as real {
          return false;
        }
        k := k + 1;
      }
      rest := rest - {e};
    }
    return true;
  }

  /** Everything verify_solution of the grid5000 revision checks. */
  ghost predicate GridVerified(v: Virtual.VirtualNet, g: Physical.Network, mapping: map<NodeId, NodeId>, order: seq<NodeId>,
                               lm: Entries, lmOrder: seq<Pair>)
  {
    |mapping| > 0 && EmbedVerify.Assigned(v, mapping) && AllSpread(v, mapping, lm) &&
    EmbedVerify.Known(v, order) && TotalWithin(v, g, mapping, order, Cores, false) &&
    TotalWithin(v, g, mapping, order, Memory, false) &&
    AllChargeable(v, g, lm, lmOrder) && LinksWithin(g, slot => Usage(v, g, lm, lmOrder, slot))
  }

  /**
   * verify_solution of the grid5000 revision, with `order` and `lmOrder` the
   * iteration orders of the two dictionaries.
   */
  method VerifyGrid(v: Virtual.VirtualNet, g: Physical.Network, mapping: map<NodeId, NodeId>, order: seq<NodeId>,
                    lm: Entries, lmOrder: seq<Pair>)
    returns (r: Result<()>)
    requires Virtual.Valid(v) && Enumerates(order, mapping) && Enumerates(lmOrder, lm)
    ensures r == Err(EmptySolution) <==> |mapping| == 0
    ensures r == Err(Assignment) <==> |mapping| > 0 && !(EmbedVerify.Assigned(v, mapping) && AllSpread(v, mapping, lm))
    ensures r.Ok? <==> GridVerified(v, g, mapping, order, lm, lmOrder)
    ensures r.Err? && r.error.NodeResource? ==>
      EmbedVerify.Load(v, r.error.resource, mapping, order, r.error.node) >
        LowerBound.Capacity(g, r.error.resource, r.error.node)
    ensures r == Err(LinkCapacity) ==> !LinksWithin(g, slot => Usage(v, g, lm, lmOrder, slot))
  {
    if |mapping| == 0 {
      return Err(EmptySolution);
    }
    var placed := EmbedVerify.CheckAssigned(v, mapping);
    if !placed {
      return Err(Assignment);
    }
    var spread := CheckLinks(v, mapping, lm);
    if !spread {
      return Err(Assignment);
    }
    r := CheckNodes(v, g, mapping, order, false);
    if r.Err? {
      return r;
    }
    var charged := ChargeAll(v, g, lm, lmOrder);
    if charged.Err? {
      return Err(KeyError);
    }
    var within := CheckCapacity(g, charged.value);
    assert LinksWithin(g, slot => GetReal(charged.value, slot)) <==>
      LinksWithin(g, slot => Usage(v, g, lm, lmOrder, slot));
    if !within {
      return Err(LinkCapacity);
    }
    return Ok(());
  }

  /**
   * verify_solution of the root revision: nothing placed or nothing routed
   * is an empty solution; nb_cores and ram_size are read directly; link
   * capacity is not checked.
   */
  method VerifyRoot(v: Virtual.VirtualNet, g: Physical.Network, mapping: map<NodeId, NodeId>, order: seq<NodeId>,
                    lm: Entries)
    returns (r: Result<()>)
    requires Virtual.Valid(v) && Enumerates(order, mapping)
    ensures r == Err(EmptySolution) <==> |mapping| == 0 || |lm| == 0
    ensures r == Err(Assignment) <==>
      |mapping| > 0 && |lm| > 0 && !(EmbedVerify.Assigned(v, mapping) && AllSpread(v, mapping, lm))
    ensures r.Ok? <==> (|mapping| > 0 && |lm| > 0 && EmbedVerify.Assigned(v, mapping) && AllSpread(v, mapping, lm) &&
      EmbedVerify.Known(v, order) && TotalWithin(v, g, mapping, order, Cores, true) &&
      TotalWithin(v, g, mapping, order, Memory, true))
    ensures r.Err? && r.error.NodeResource? ==>
      CapacityOf(g, r.error.resource, r.error.node, true).Ok? &&
      EmbedVerify.Load(v, r.error.resource, mapping, order, r.error.node) >
        CapacityOf(g, r.error.resource, r.error.node, true).value
  {
    if |mapping| == 0 || |lm| == 0 {
      return Err(EmptySolution);
    }
    var placed := EmbedVerify.CheckAssigned(v, mapping);
    if !placed {
      return Err(Assignment);
    }
    var spread := CheckLinks(v, mapping, lm);
    if !spread {
      return Err(Assignment);
    }
    r := CheckNodes(v, g, mapping, order, true);
  }

  /*
   * map_to_multiple_interfaces: spread each link over the real interfaces
   * behind the aggregate its first entry names at both ends.
   */

  /**
   * The links of an entry's two ends are different stored links (or the
   * first is none). Where they are the same, both sides of the loop work
   * on one and the same residual dictionary; that case is not modelled.
   */
  predicate ApartEntry(g: Physical.Network, x: Entry)
  {
    EmbedBuild.Stored(g, x.s1, x.t1).None? || EmbedBuild.Stored(g, x.s1, x.t1) != EmbedBuild.Stored(g, x.s2, x.t2)
  }

  predicate EntriesApart(g: Physical.Network, lm: Entries)
  {
    forall e :: e in lm && |lm[e]| > 0 ==> ApartEntry(g, lm[e][0])
  }

  /** The requested rate of the t-th virtual link. */
  function LinkRate(v: Virtual.VirtualNet, t: nat): nat
    requires t < |v.links|
  {
    assert Virtual.Joins(v.links[t], v.links[t].u, v.links[t].v);
    Virtual.ReqRate(v, v.links[t].u, v.links[t].v)
  }

  /** Both ends of the t-th virtual link are placed, on different machines. */
  predicate CrossAt(v: Virtual.VirtualNet, mapping: map<NodeId, NodeId>, t: nat)
    requires t < |v.links|
  {
    v.links[t].u in mapping && v.links[t].v in mapping && mapping[v.links[t].u] != mapping[v.links[t].v]
  }

  /** The new entries keep the nodes of the grouped entry and can be charged by the verifier. */
  predicate Carries(g: Physical.Network, x: Entry, es: seq<Entry>)
  {
    (forall k :: 0 <= k < |es| ==> es[k].s1 == x.s1 && es[k].t1 == x.t1 && es[k].s2 == x.s2 && es[k].t2 == x.t2) &&
    Resolved(g, es)
  }

  /** No residual rate went up, and the table still matches the interfaces. */
  predicate Shrunk(g: Physical.Network, res: map<Pair, seq<nat>>, res': map<Pair, seq<nat>>)
  {
    EmbedBuild.Aligned(g, res') && res'.Keys == res.Keys &&
    forall e :: e in res && e in res' ==> (|res'[e]| == |res[e]| &&
      forall k :: 0 <= k < |res[e]| ==> res'[e][k] <= res[e][k])
  }

  /** One entry per chunk, on the chosen real interfaces, with the given fractions. */
  function Spell(x: Entry, ku: seq<Key>, kv: seq<Key>, cs: seq<Ungroup.Chunk>, fs: seq<real>): (es: seq<Entry>)
    requires |fs| == |cs| && forall c :: c in cs ==> c.iu < |ku| && c.iv < |kv|
    ensures |es| == |cs| && FractionsOf(es) == fs
    ensures forall k :: 0 <= k < |cs| ==> es[k] == Entry(x.s1, ku[cs[k].iu], x.t1, x.s2, kv[cs[k].iv], x.t2, fs[k])
  {
    var es := seq(|cs|, k requires 0 <= k < |cs| => Entry(x.s1, ku[cs[k].iu], x.t1, x.s2, kv[cs[k].iv], x.t2, fs[k]));
    assert forall k :: 0 <= k < |cs| ==> FractionsOf(es)[k] == fs[k];
    es
  }

  /** An interface of the stored link of an end can be charged at that end. */
  lemma StoredResolves(g: Physical.Network, s: NodeId, i: Key, t: NodeId)
    requires g.grouped && EmbedBuild.Stored(g, s, t).Some?
    requires i in Physical.Keys(g.links[EmbedBuild.Stored(g, s, t).value].associated)
    ensures ResolveEnd(g, s, i, t) == EmbedBuild.Stored(g, s, t)
  {
  }

  /** Entries spelled from chunks of the stored links at both ends can be charged. */
  lemma SpelledResolve(g: Physical.Network, x: Entry, cs: seq<Ungroup.Chunk>, fs: seq<real>)
    requires g.grouped && EmbedBuild.Stored(g, x.s1, x.t1).Some? && EmbedBuild.Stored(g, x.s2, x.t2).Some?
    requires var ku := Physical.Keys(g.links[EmbedBuild.Stored(g, x.s1, x.t1).value].associated);
      var kv := Physical.Keys(g.links[EmbedBuild.Stored(g, x.s2, x.t2).value].associated);
      |fs| == |cs| && forall c :: c in cs ==> c.iu < |ku| && c.iv < |kv|
    ensures Carries(g, x, Spell(x, Physical.Keys(g.links[EmbedBuild.Stored(g, x.s1, x.t1).value].associated),
      Physical.Keys(g.links[EmbedBuild.Stored(g, x.s2, x.t2).value].associated), cs, fs))
  {
    var ku := Physical.Keys(g.links[EmbedBuild.Stored(g, x.s1, x.t1).value].associated);
    var kv := Physical.Keys(g.links[EmbedBuild.Stored(g, x.s2, x.t2).value].associated);
    var es := Spell(x, ku, kv, cs, fs);
    forall k | 0 <= k < |es|
      ensures ResolveEnd(g, es[k].s1, es[k].i1, es[k].t1).Some? && ResolveEnd(g, es[k].s2, es[k].i2, es[k].t2).Some?
    {
      assert cs[k] in cs;
      StoredResolves(g, x.s1, ku[cs[k].iu], x.t1);
      StoredResolves(g, x.s2, kv[cs[k].iv], x.t2);
    }
  }

  /** What the grid5000 loop records for a link of rate `req`. */
  predicate CappedCarried(g: Physical.Network, x: Entry, req: nat, es: seq<Entry>)
  {
    Carries(g, x, es) && (req == 0 ==> es == []) &&
    (req > 0 ==> 1.0 <= SumReal(FractionsOf(es)) < 2.0)
  }

  /** The grid5000 loop body for one link between different machines, from its first grouped entry. */
  method CappedLink(g: Physical.Network, x: Entry, req: nat, res: map<Pair, seq<nat>>)
    returns (run: Ungroup.Run<(seq<Entry>, map<Pair, seq<nat>>)>)
    requires (g.grouped || g.links == map[]) && EmbedBuild.Aligned(g, res) && ApartEntry(g, x)
    ensures run.Raises? ==> run.error in {KeyError, ValueError}
    ensures run.Returns? ==> CappedCarried(g, x, req, run.value.0) && Shrunk(g, res, run.value.1)
    ensures run == LinkStep(CappedShares, g, x, req, res)
  {
    var su := EmbedBuild.Stored(g, x.s1, x.t1);
    var sv := EmbedBuild.Stored(g, x.s2, x.t2);
    if su.None? || sv.None? {
      return Ungroup.Raises(KeyError);
    }
    var split := Ungroup.UngroupCapped(res[su.value], res[sv.value], req);
    match split {
      case Raises(e) =>
        return Ungroup.Raises(ValueError);
      case Diverges =>
        return Ungroup.Diverges;
      case Returns(o) =>
        var es := CappedSpell(g, x, req, res[su.value], res[sv.value]);
        Ungroup.CappedShrinks(res[su.value], res[sv.value], req, req);
        ShrunkUpdate(g, res, su.value, sv.value, o.ru, o.rv);
        return Ungroup.Returns((es, res[su.value := o.ru][sv.value := o.rv]));
    }
  }

  /** The entries of a finished capped split over the stored links of both ends. */
  function CappedSpell(g: Physical.Network, x: Entry, req: nat, ru: seq<nat>, rv: seq<nat>): (es: seq<Entry>)
    requires g.grouped && EmbedBuild.Stored(g, x.s1, x.t1).Some? && EmbedBuild.Stored(g, x.s2, x.t2).Some?
    requires |ru| == |g.links[EmbedBuild.Stored(g, x.s1, x.t1).value].associated|
    requires |rv| == |g.links[EmbedBuild.Stored(g, x.s2, x.t2).value].associated|
    requires Ungroup.SplitCapped(ru, rv, req, req).Returns?
    ensures CappedCarried(g, x, req, es)
  {
    var cs := Ungroup.SplitCapped(ru, rv, req, req).value.chunks;
    Ungroup.CappedShrinks(ru, rv, req, req);
    var fs := FractionsFor(cs, req);
    SpelledResolve(g, x, cs, fs);
    if req > 0 then
      Ungroup.CappedFractions(ru, rv, req);
      Spell(x, Physical.Keys(g.links[EmbedBuild.Stored(g, x.s1, x.t1).value].associated),
        Physical.Keys(g.links[EmbedBuild.Stored(g, x.s2, x.t2).value].associated), cs, fs)
    else
      assert Ungroup.SplitCapped(ru, rv, 0, 0) == Ungroup.Returns(Ungroup.Outcome([], ru, rv));
      Spell(x, Physical.Keys(g.links[EmbedBuild.Stored(g, x.s1, x.t1).value].associated),
        Physical.Keys(g.links[EmbedBuild.Stored(g, x.s2, x.t2).value].associated), cs, fs)
  }

  /** Writing back two shrunk residual lists of different links keeps the table shrunk. */
  lemma ShrunkUpdate(g: Physical.Network, res: map<Pair, seq<nat>>, su: Pair, sv: Pair, ru: seq<nat>, rv: seq<nat>)
    requires EmbedBuild.Aligned(g, res) && su in res && sv in res && su != sv
    requires |ru| == |res[su]| && forall k :: 0 <= k < |ru| ==> ru[k] <= res[su][k]
    requires |rv| == |res[sv]| && forall k :: 0 <= k < |rv| ==> rv[k] <= res[sv][k]
    ensures Shrunk(g, res, res[su := ru][sv := rv])
  {
  }

  /** mapped_rate / float(requested_rate) for every chunk. */
  function FractionsFor(cs: seq<Ungroup.Chunk>, req: nat): (fs: seq<real>)
    ensures |fs| == |cs|
    ensures req > 0 ==> fs == Ungroup.Fractions(cs, req)
  {
    if req == 0 then seq(|cs|, k => 0.0) else Ungroup.Fractions(cs, req)
  }

  /** What each loop records for a link of rate `req`. */
  predicate Carried(how: Ungrouping, g: Physical.Network, x: Entry, req: nat, es: seq<Entry>)
  {
    match how
    case CappedShares => CappedCarried(g, x, req, es)
    case RemainingShares => RemainingCarried(g, x, req, es)
    case WholeShares => WholeCarried(g, x, req, es)
  }

  /**
   * A loop over the virtual links has met every link before the t-th with
   * both ends placed, has a key for each one crossing machines, and `who`
   * names the crossing link each key's entries were recorded for.
   */
  ghost predicate MappedUpTo(how: Ungrouping, v: Virtual.VirtualNet, g: Physical.Network, mapping: map<NodeId, NodeId>,
                             lm: Entries, t: nat, out: Entries, who: map<Pair, nat>)
    requires t <= |v.links|
  {
    who.Keys == out.Keys && KeyedUpTo(v, mapping, t, out) && RecordsUpTo(how, v, g, mapping, lm, t, out, who)
  }

  /** Every link before the t-th has both ends placed, and each one crossing machines has a key. */
  ghost predicate KeyedUpTo(v: Virtual.VirtualNet, mapping: map<NodeId, NodeId>, t: nat, out: Entries)
    requires t <= |v.links|
  {
    forall s :: 0 <= s < t ==> (v.links[s].u in mapping && v.links[s].v in mapping &&
      (CrossAt(v, mapping, s) ==> Edge(v.links[s]) in out))
  }

  /** Every key holds the entries carried for the crossing link `who` names, one before the t-th. */
  ghost predicate RecordsUpTo(how: Ungrouping, v: Virtual.VirtualNet, g: Physical.Network, mapping: map<NodeId, NodeId>,
                              lm: Entries, t: nat, out: Entries, who: map<Pair, nat>)
    requires t <= |v.links| && who.Keys == out.Keys
  {
    forall e :: e in out ==> (who[e] < t && CrossAt(v, mapping, who[e]) && Edge(v.links[who[e]]) == e &&
      e in lm && |lm[e]| > 0 && Carried(how, g, lm[e][0], LinkRate(v, who[e]), out[e]))
  }

  /** A link kept on one machine records nothing. */
  lemma MappedSkip(how: Ungrouping, v: Virtual.VirtualNet, g: Physical.Network, mapping: map<NodeId, NodeId>, lm: Entries,
                   t: nat, out: Entries, who: map<Pair, nat>)
    requires t < |v.links| && MappedUpTo(how, v, g, mapping, lm, t, out, who)
    requires v.links[t].u in mapping && v.links[t].v in mapping && !CrossAt(v, mapping, t)
    ensures MappedUpTo(how, v, g, mapping, lm, t + 1, out, who)
  {
  }

  /** A crossing link records its entries under its own key. */
  lemma MappedAdd(how: Ungrouping, v: Virtual.VirtualNet, g: Physical.Network, mapping: map<NodeId, NodeId>, lm: Entries,
                  t: nat, out: Entries, who: map<Pair, nat>, es: seq<Entry>)
    requires t < |v.links| && MappedUpTo(how, v, g, mapping, lm, t, out, who) && CrossAt(v, mapping, t)
    requires Edge(v.links[t]) in lm && |lm[Edge(v.links[t])]| > 0
    requires Carried(how, g, lm[Edge(v.links[t])][0], LinkRate(v, t), es)
    ensures MappedUpTo(how, v, g, mapping, lm, t + 1, out[Edge(v.links[t]) := es], who[Edge(v.links[t]) := t])
  {
    KeyedAdd(v, mapping, t, out, es);
    RecordsAdd(how, v, g, mapping, lm, t, out, who, es);
  }

  /** Adding the t-th link's key keeps every earlier crossing link keyed. */
  lemma KeyedAdd(v: Virtual.VirtualNet, mapping: map<NodeId, NodeId>, t: nat, out: Entries, es: seq<Entry>)
    requires t < |v.links| && KeyedUpTo(v, mapping, t, out) && CrossAt(v, mapping, t)
    ensures KeyedUpTo(v, mapping, t + 1, out[Edge(v.links[t]) := es])
  {
  }

  /** The new key is recorded for the t-th link, and every other key keeps its record. */
  lemma RecordsAdd(how: Ungrouping, v: Virtual.VirtualNet, g: Physical.Network, mapping: map<NodeId, NodeId>, lm: Entries,
                   t: nat, out: Entries, who: map<Pair, nat>, es: seq<Entry>)
    requires t < |v.links| && who.Keys == out.Keys && RecordsUpTo(how, v, g, mapping, lm, t, out, who) && CrossAt(v, mapping, t)
    requires Edge(v.links[t]) in lm && |lm[Edge(v.links[t])]| > 0
    requires Carried(how, g, lm[Edge(v.links[t])][0], LinkRate(v, t), es)
    ensures RecordsUpTo(how, v, g, mapping, lm, t + 1, out[Edge(v.links[t]) := es], who[Edge(v.links[t]) := t])
  {
    var e, out', who' := Edge(v.links[t]), out[Edge(v.links[t]) := es], who[Edge(v.links[t]) := t];
    forall d | d in out'
      ensures who'[d] < t + 1 && CrossAt(v, mapping, who'[d]) && Edge(v.links[who'[d]]) == d &&
        d in lm && |lm[d]| > 0 && Carried(how, g, lm[d][0], LinkRate(v, who'[d]), out'[d])
    {
      if d != e {
        assert d in out && who'[d] == who[d] && out'[d] == out[d];
      }
    }
  }

  /** Two links between the same ends request the same rate. */
  lemma SameEdgeRate(v: Virtual.VirtualNet, s: nat, t: nat)
    requires s < |v.links| && t < |v.links| && Edge(v.links[s]) == Edge(v.links[t])
    ensures LinkRate(v, s) == LinkRate(v, t)
  {
  }

  /**
   * Every virtual link has both ends placed; the key of every link between
   * two machines holds the entries the loop records at its rate; and no
   * other key is recorded.
   */
  predicate LinksMapped(how: Ungrouping, v: Virtual.VirtualNet, g: Physical.Network, mapping: map<NodeId, NodeId>,
                        lm: Entries, out: Entries)
  {
    (forall t :: 0 <= t < |v.links| ==> (v.links[t].u in mapping && v.links[t].v in mapping &&
      (CrossAt(v, mapping, t) ==> (Edge(v.links[t]) in out && Edge(v.links[t]) in lm && |lm[Edge(v.links[t])]| > 0 &&
        Carried(how, g, lm[Edge(v.links[t])][0], LinkRate(v, t), out[Edge(v.links[t])]))))) &&
    (forall e :: e in out ==> exists t :: 0 <= t < |v.links| && CrossAt(v, mapping, t) && Edge(v.links[t]) == e)
  }

  /** After the last link, every crossing link's key holds its entries, and nothing else is recorded. */
  lemma MappedDone(how: Ungrouping, v: Virtual.VirtualNet, g: Physical.Network, mapping: map<NodeId, NodeId>, lm: Entries,
                   out: Entries, who: map<Pair, nat>)
    requires MappedUpTo(how, v, g, mapping, lm, |v.links|, out, who)
    ensures LinksMapped(how, v, g, mapping, lm, out)
  {
    forall t | 0 <= t < |v.links| && CrossAt(v, mapping, t)
      ensures Edge(v.links[t]) in out && Edge(v.links[t]) in lm && |lm[Edge(v.links[t])]| > 0 &&
        Carried(how, g, lm[Edge(v.links[t])][0], LinkRate(v, t), out[Edge(v.links[t])])
    {
      var e := Edge(v.links[t]);
      assert e in out;
      SameEdgeRate(v, who[e], t);
    }
    forall e | e in out
      ensures exists t :: 0 <= t < |v.links| && CrossAt(v, mapping, t) && Edge(v.links[t]) == e
    {
      assert CrossAt(v, mapping, who[e]) && Edge(v.links[who[e]]) == e;
    }
  }

  /**
   * map_to_multiple_interfaces of the grid5000 revision: the residual rate
   * of every real interface, then the virtual links in the graph's order.
   * A grouped network is required: otherwise reading the real interfaces
   * of the first physical link raises ValueError.
   */
  method MapCapped(v: Virtual.VirtualNet, g: Physical.Network, mapping: map<NodeId, NodeId>, lm: Entries)
    returns (run: Ungroup.Run<Entries>)
    requires EntriesApart(g, lm)
    ensures !g.grouped && g.links != map[] ==> run == Ungroup.Raises(ValueError)
    ensures run.Raises? ==> run.error in {KeyError, IndexError, ValueError}
    ensures run.Returns? ==> LinksMapped(CappedShares, v, g, mapping, lm, run.value)
    ensures g.grouped || g.links == map[] ==> run == EntriesOf(MapFold(CappedShares, v, g, mapping, lm, 0, map[], EmbedBuild.Residuals(g)))
  {
    if !g.grouped && g.links != map[] {
      return Ungroup.Raises(ValueError);
    }
    var res := EmbedBuild.Residuals(g);
    var out: Entries := map[];
    ghost var who: map<Pair, nat> := map[];
    var t := 0;
    while t < |v.links|
      invariant 0 <= t <= |v.links| && EmbedBuild.Aligned(g, res)
      invariant MappedUpTo(CappedShares, v, g, mapping, lm, t, out, who)
      invariant MapFold(CappedShares, v, g, mapping, lm, 0, map[], EmbedBuild.Residuals(g)) == MapFold(CappedShares, v, g, mapping, lm, t, out, res)
    {
      var l := v.links[t];
      if l.u !in mapping || l.v !in mapping {
        return Ungroup.Raises(KeyError);
      }
      if mapping[l.u] != mapping[l.v] {
        if Edge(l) !in lm {
          return Ungroup.Raises(KeyError);
        }
        if |lm[Edge(l)]| == 0 {
          return Ungroup.Raises(IndexError);
        }
        var step := CappedLink(g, lm[Edge(l)][0], LinkRate(v, t), res);
        if !step.Returns? {
          return if step.Raises? then Ungroup.Raises(step.error) else Ungroup.Diverges;
        }
        MappedAdd(CappedShares, v, g, mapping, lm, t, out, who, step.value.0);
        out := out[Edge(l) := step.value.0];
        who := who[Edge(l) := t];
        res := step.value.1;
      } else {
        MappedSkip(CappedShares, v, g, mapping, lm, t, out, who);
      }
      t := t + 1;
    }
    MappedDone(CappedShares, v, g, mapping, lm, out, who);
    return Ungroup.Returns(out);
  }

  /**
   * What the root revision's loop records for a link of rate `req`: one
   * chunk is recorded as the whole rate, and two or more chunks add up to
   * more than the whole rate, since each is divided by what was still to
   * be mapped.
   */
  predicate RemainingCarried(g: Physical.Network, x: Entry, req: nat, es: seq<Entry>)
  {
    Carries(g, x, es) && (req == 0 ==> es == []) &&
    (|es| == 1 ==> SumReal(FractionsOf(es)) == 1.0) &&
    (|es| >= 2 ==> SumReal(FractionsOf(es)) > 1.0)
  }

  /** The entries of a finished split, each chunk over the rate still to be mapped before it. */
  function RemainingSpell(g: Physical.Network, x: Entry, req: nat, ru: seq<nat>, rv: seq<nat>): (es: seq<Entry>)
    requires g.grouped && EmbedBuild.Stored(g, x.s1, x.t1).Some? && EmbedBuild.Stored(g, x.s2, x.t2).Some?
    requires |ru| == |g.links[EmbedBuild.Stored(g, x.s1, x.t1).value].associated|
    requires |rv| == |g.links[EmbedBuild.Stored(g, x.s2, x.t2).value].associated|
    requires Ungroup.Split(ru, rv, req).Returns?
    ensures RemainingCarried(g, x, req, es)
  {
    var cs := Ungroup.Split(ru, rv, req).value.chunks;
    Ungroup.SplitConserves(ru, rv, req);
    var fs := Ungroup.RemainingFractions(cs, req);
    SpelledResolve(g, x, cs, fs);
    if |cs| >= 2 then
      Ungroup.RemainingFractionsExceedOne(cs, req);
      Spell(x, Physical.Keys(g.links[EmbedBuild.Stored(g, x.s1, x.t1).value].associated),
        Physical.Keys(g.links[EmbedBuild.Stored(g, x.s2, x.t2).value].associated), cs, fs)
    else if |cs| == 1 then
      Ungroup.LastFractionIsOne(cs, req);
      Spell(x, Physical.Keys(g.links[EmbedBuild.Stored(g, x.s1, x.t1).value].associated),
        Physical.Keys(g.links[EmbedBuild.Stored(g, x.s2, x.t2).value].associated), cs, fs)
    else
      Spell(x, Physical.Keys(g.links[EmbedBuild.Stored(g, x.s1, x.t1).value].associated),
        Physical.Keys(g.links[EmbedBuild.Stored(g, x.s2, x.t2).value].associated), cs, fs)
  }

  /** The root revision's loop body for one link between different machines. */
  method RemainingLink(g: Physical.Network, x: Entry, req: nat, res: map<Pair, seq<nat>>)
    returns (run: Ungroup.Run<(seq<Entry>, map<Pair, seq<nat>>)>)
    requires (g.grouped || g.links == map[]) && EmbedBuild.Aligned(g, res) && ApartEntry(g, x)
    ensures run.Raises? ==> run.error in {KeyError, ValueError}
    ensures run.Returns? ==> RemainingCarried(g, x, req, run.value.0) && Shrunk(g, res, run.value.1)
    ensures run == LinkStep(RemainingShares, g, x, req, res)
  {
    var su := EmbedBuild.Stored(g, x.s1, x.t1);
    var sv := EmbedBuild.Stored(g, x.s2, x.t2);
    if su.None? || sv.None? {
      return Ungroup.Raises(KeyError);
    }
    var split := Ungroup.UngroupLink(res[su.value], res[sv.value], req);
    match split {
      case Raises(e) =>
        return Ungroup.Raises(ValueError);
      case Diverges =>
        return Ungroup.Diverges;
      case Returns(o) =>
        var es := RemainingSpell(g, x, req, res[su.value], res[sv.value]);
        Ungroup.SplitShrinks(res[su.value], res[sv.value], req);
        ShrunkUpdate(g, res, su.value, sv.value, o.ru, o.rv);
        return Ungroup.Returns((es, res[su.value := o.ru][sv.value := o.rv]));
    }
  }

  /**
   * map_to_multiple_interfaces of the root revision. The residual rates it
   * works on are the physical graph's own interface attributes, so the
   * residual table it leaves is returned with the new entries. A network
   * without the aggregate interfaces raises KeyError on its first link.
   */
  method MapRemaining(v: Virtual.VirtualNet, g: Physical.Network, mapping: map<NodeId, NodeId>, lm: Entries)
    returns (run: Ungroup.Run<(Entries, map<Pair, seq<nat>>)>)
    requires EntriesApart(g, lm)
    ensures !g.grouped && g.links != map[] ==> run == Ungroup.Raises(KeyError)
    ensures run.Raises? ==> run.error in {KeyError, IndexError, ValueError}
    ensures run.Returns? ==> LinksMapped(RemainingShares, v, g, mapping, lm, run.value.0)
    ensures run.Returns? ==> Shrunk(g, EmbedBuild.Residuals(g), run.value.1)
    ensures g.grouped || g.links == map[] ==> run == MapFold(RemainingShares, v, g, mapping, lm, 0, map[], EmbedBuild.Residuals(g))
  {
    if !g.grouped && g.links != map[] {
      return Ungroup.Raises(KeyError);
    }
    var res := EmbedBuild.Residuals(g);
    var out: Entries := map[];
    ghost var who: map<Pair, nat> := map[];
    var t := 0;
    while t < |v.links|
      invariant 0 <= t <= |v.links| && Shrunk(g, EmbedBuild.Residuals(g), res)
      invariant MappedUpTo(RemainingShares, v, g, mapping, lm, t, out, who)
      invariant EmbedBuild.Aligned(g, res)
      invariant MapFold(RemainingShares, v, g, mapping, lm, 0, map[], EmbedBuild.Residuals(g)) == MapFold(RemainingShares, v, g, mapping, lm, t, out, res)
    {
      var l := v.links[t];
      if l.u !in mapping || l.v !in mapping {
        return Ungroup.Raises(KeyError);
      }
      if mapping[l.u] != mapping[l.v] {
        if Edge(l) !in lm {
          return Ungroup.Raises(KeyError);
        }
        if |lm[Edge(l)]| == 0 {
          return Ungroup.Raises(IndexError);
        }
        var step := RemainingLink(g, lm[Edge(l)][0], LinkRate(v, t), res);
        if !step.Returns? {
          return if step.Raises? then Ungroup.Raises(step.error) else Ungroup.Diverges;
        }
        MappedAdd(RemainingShares, v, g, mapping, lm, t, out, who, step.value.0);
        out := out[Edge(l) := step.value.0];
        who := who[Edge(l) := t];
        ShrunkTwice(g, EmbedBuild.Residuals(g), res, step.value.1);
        res := step.value.1;
      } else {
        MappedSkip(RemainingShares, v, g, mapping, lm, t, out, who);
      }
      t := t + 1;
    }
    MappedDone(RemainingShares, v, g, mapping, lm, out, who);
    return Ungroup.Returns((out, res));
  }

  /*
   * The corrected ungrouping: each chunk is recorded as its share of the
   * whole request, so the fractions of a link add up to exactly 1, as
   * verify_solution demands.
   */

  /** What the corrected loop records for a link of rate `req`. */
  predicate WholeCarried(g: Physical.Network, x: Entry, req: nat, es: seq<Entry>)
  {
    Carries(g, x, es) && (req == 0 ==> es == []) &&
    (req > 0 ==> SumReal(FractionsOf(es)) == 1.0)
  }

  /** The entries of a finished split, each chunk over the whole request. */
  function WholeSpell(g: Physical.Network, x: Entry, req: nat, ru: seq<nat>, rv: seq<nat>): (es: seq<Entry>)
    requires g.grouped && EmbedBuild.Stored(g, x.s1, x.t1).Some? && EmbedBuild.Stored(g, x.s2, x.t2).Some?
    requires |ru| == |g.links[EmbedBuild.Stored(g, x.s1, x.t1).value].associated|
    requires |rv| == |g.links[EmbedBuild.Stored(g, x.s2, x.t2).value].associated|
    requires Ungroup.Split(ru, rv, req).Returns?
    ensures WholeCarried(g, x, req, es)
  {
    var cs := Ungroup.Split(ru, rv, req).value.chunks;
    Ungroup.SplitConserves(ru, rv, req);
    var fs := FractionsFor(cs, req);
    SpelledResolve(g, x, cs, fs);
    if req > 0 then
      Ungroup.FractionsSumToOne(cs, req);
      Spell(x, Physical.Keys(g.links[EmbedBuild.Stored(g, x.s1, x.t1).value].associated),
        Physical.Keys(g.links[EmbedBuild.Stored(g, x.s2, x.t2).value].associated), cs, fs)
    else
      assert Ungroup.Split(ru, rv, 0) == Ungroup.Returns(Ungroup.Outcome([], ru, rv));
      Spell(x, Physical.Keys(g.links[EmbedBuild.Stored(g, x.s1, x.t1).value].associated),
        Physical.Keys(g.links[EmbedBuild.Stored(g, x.s2, x.t2).value].associated), cs, fs)
  }

  /** The corrected loop body for one link between different machines. */
  method WholeLink(g: Physical.Network, x: Entry, req: nat, res: map<Pair, seq<nat>>)
    returns (run: Ungroup.Run<(seq<Entry>, map<Pair, seq<nat>>)>)
    requires (g.grouped || g.links == map[]) && EmbedBuild.Aligned(g, res) && ApartEntry(g, x)
    ensures run.Raises? ==> run.error in {KeyError, ValueError}
    ensures run.Returns? ==> WholeCarried(g, x, req, run.value.0) && Shrunk(g, res, run.value.1)
    ensures run == LinkStep(WholeShares, g, x, req, res)
  {
    var su := EmbedBuild.Stored(g, x.s1, x.t1);
    var sv := EmbedBuild.Stored(g, x.s2, x.t2);
    if su.None? || sv.None? {
      return Ungroup.Raises(KeyError);
    }
    var split := Ungroup.UngroupLink(res[su.value], res[sv.value], req);
    match split {
      case Raises(e) =>
        return Ungroup.Raises(ValueError);
      case Diverges =>
        return Ungroup.Diverges;
      case Returns(o) =>
        var es := WholeSpell(g, x, req, res[su.value], res[sv.value]);
        Ungroup.SplitShrinks(res[su.value], res[sv.value], req);
        ShrunkUpdate(g, res, su.value, sv.value, o.ru, o.rv);
        return Ungroup.Returns((es, res[su.value := o.ru][sv.value := o.rv]));
    }
  }

  /**
   * map_to_multiple_interfaces as both revisions evidently intend it: the
   * grid5000 revision's loop over the virtual links, with every chunk
   * recorded as its share of the link's whole rate. Entries that leave u's
   * machine and reach v's machine stay so, and their fractions add up to 1.
   */
  method MapWhole(v: Virtual.VirtualNet, g: Physical.Network, mapping: map<NodeId, NodeId>, lm: Entries)
    returns (run: Ungroup.Run<Entries>)
    requires EntriesApart(g, lm)
    ensures !g.grouped && g.links != map[] ==> run == Ungroup.Raises(ValueError)
    ensures run.Raises? ==> run.error in {KeyError, IndexError, ValueError}
    ensures run.Returns? ==> LinksMapped(WholeShares, v, g, mapping, lm, run.value)
  {
    if !g.grouped && g.links != map[] {
      return Ungroup.Raises(ValueError);
    }
    var res := EmbedBuild.Residuals(g);
    var out: Entries := map[];
    ghost var who: map<Pair, nat> := map[];
    var t := 0;
    while t < |v.links|
      invariant 0 <= t <= |v.links| && EmbedBuild.Aligned(g, res)
      invariant MappedUpTo(WholeShares, v, g, mapping, lm, t, out, who)
    {
      var l := v.links[t];
      if l.u !in mapping || l.v !in mapping {
        return Ungroup.Raises(KeyError);
      }
      if mapping[l.u] != mapping[l.v] {
        if Edge(l) !in lm {
          return Ungroup.Raises(KeyError);
        }
        if |lm[Edge(l)]| == 0 {
          return Ungroup.Raises(IndexError);
        }
        var step := WholeLink(g, lm[Edge(l)][0], LinkRate(v, t), res);
        if !step.Returns? {
          return if step.Raises? then Ungroup.Raises(step.error) else Ungroup.Diverges;
        }
        MappedAdd(WholeShares, v, g, mapping, lm, t, out, who, step.value.0);
        out := out[Edge(l) := step.value.0];
        who := who[Edge(l) := t];
        res := step.value.1;
      } else {
        MappedSkip(WholeShares, v, g, mapping, lm, t, out, who);
      }
      t := t + 1;
    }
    MappedDone(WholeShares, v, g, mapping, lm, out, who);
    return Ungroup.Returns(out);
  }

  /** Replacing the grouped entries of a link with positive rate keeps them spread between its machines. */
  lemma WholeSpreads(g: Physical.Network, xs: seq<Entry>, req: nat, es: seq<Entry>, pu: NodeId, pv: NodeId)
    requires Spread(xs, pu, pv) && |xs| > 0 && req > 0 && WholeCarried(g, xs[0], req, es)
    ensures Spread(es, pu, pv)
  {
  }

  lemma ShrunkTwice(g: Physical.Network, a: map<Pair, seq<nat>>, b: map<Pair, seq<nat>>, c: map<Pair, seq<nat>>)
    requires Shrunk(g, a, b) && Shrunk(g, b, c)
    ensures Shrunk(g, a, c)
  {
  }

  /*
   * The three loops as functions: one link's step, and the loop over the
   * virtual links with what it has recorded so far and the residual table
   * it works on.
   */

  /** How a loop splits a link and what fraction it records for each chunk. */
  datatype Ungrouping = CappedShares | RemainingShares | WholeShares

  /** The real interface keys of the stored link between i and j, in enumeration order. */
  function EndKeys(g: Physical.Network, i: NodeId, j: NodeId): (ks: seq<Key>)
    requires EmbedBuild.Stored(g, i, j).Some?
    ensures |ks| == |g.links[EmbedBuild.Stored(g, i, j).value].associated|
  {
    Physical.Keys(g.links[EmbedBuild.Stored(g, i, j).value].associated)
  }

  /**
   * One link's step from its grouped entry x: KeyError when an end has no
   * stored link, ValueError when a side has no interface; otherwise one
   * entry per chunk of the split, on the chunk's real interfaces, with the
   * ungrouping's fraction, and the table with both ends' residuals replaced
   * by what the split left.
   */
  function LinkStep(how: Ungrouping, g: Physical.Network, x: Entry, req: nat, res: map<Pair, seq<nat>>)
    : (run: Ungroup.Run<(seq<Entry>, map<Pair, seq<nat>>)>)
    requires EmbedBuild.Aligned(g, res)
    ensures run.Returns? ==> EmbedBuild.Aligned(g, run.value.1)
  {
    var su, sv := EmbedBuild.Stored(g, x.s1, x.t1), EmbedBuild.Stored(g, x.s2, x.t2);
    if su.None? || sv.None? then Ungroup.Raises(KeyError)
    else
      var ru, rv := res[su.value], res[sv.value];
      var split := if how == CappedShares then Ungroup.SplitCapped(ru, rv, req, req) else Ungroup.Split(ru, rv, req);
      match split
      case Raises(_) => Ungroup.Raises(ValueError)
      case Diverges => Ungroup.Diverges
      case Returns(o) =>
        var table := res[su.value := o.ru][sv.value := o.rv];
        if how == CappedShares then
          Ungroup.CappedShrinks(ru, rv, req, req);
          Ungroup.Returns((Spell(x, EndKeys(g, x.s1, x.t1), EndKeys(g, x.s2, x.t2), o.chunks, FractionsFor(o.chunks, req)), table))
        else
          Ungroup.SplitAmounts(ru, rv, req);
          var fs := if how == RemainingShares then Ungroup.RemainingFractions(o.chunks, req) else FractionsFor(o.chunks, req);
          Ungroup.Returns((Spell(x, EndKeys(g, x.s1, x.t1), EndKeys(g, x.s2, x.t2), o.chunks, fs), table))
  }

  /**
   * The loop over the virtual links from the t-th on, with the entries
   * recorded so far and the residual table as it stands.
   */
  function MapFold(how: Ungrouping, v: Virtual.VirtualNet, g: Physical.Network, mapping: map<NodeId, NodeId>, lm: Entries,
                   t: nat, out: Entries, res: map<Pair, seq<nat>>)
    : (run: Ungroup.Run<(Entries, map<Pair, seq<nat>>)>)
    requires t <= |v.links| && EmbedBuild.Aligned(g, res)
    decreases |v.links| - t
  {
    if t == |v.links| then Ungroup.Returns((out, res))
    else
      var l := v.links[t];
      if l.u !in mapping || l.v !in mapping then Ungroup.Raises(KeyError)
      else if mapping[l.u] == mapping[l.v] then MapFold(how, v, g, mapping, lm, t + 1, out, res)
      else if Edge(l) !in lm then Ungroup.Raises(KeyError)
      else if |lm[Edge(l)]| == 0 then Ungroup.Raises(IndexError)
      else match LinkStep(how, g, lm[Edge(l)][0], LinkRate(v, t), res)
        case Returns(p) => MapFold(how, v, g, mapping, lm, t + 1, out[Edge(l) := p.0], p.1)
        case Raises(e) => Ungroup.Raises(e)
        case Diverges => Ungroup.Diverges
  }

  /** The entries a finished loop returns, without its residual table. */
  function EntriesOf(run: Ungroup.Run<(Entries, map<Pair, seq<nat>>)>): Ungroup.Run<Entries>
  {
    match run
    case Returns(p) => Ungroup.Returns(p.0)
    case Raises(e) => Ungroup.Raises(e)
    case Diverges => Ungroup.Diverges
  }
}
