/**
 * build_solution: turn a verified placement and routing into the solution
 * object. Every virtual link (u, v) gets link maps (from u's host and
 * device to v's host and device, with the fraction of the rate they carry)
 * and, in the current library, the physical paths with device names at
 * every hop; (v, u) gets the mirror entries.
 *
 * In grouped mode a link's rate is spread over the real interfaces behind
 * the aggregates at both ends by the ungroup loop (module Ungroup), with
 * residual rates kept per physical link across all virtual links. In
 * ungrouped mode every link gets one entry of fraction 1.
 */
module EmbedBuild {
  import opened Common
  import opened PathSearch
  import Physical
  import Virtual
  import Ungroup
  import EmbedVerify

  type Key = Physical.DeviceKey
  type Routing = EmbedVerify.Routing

  /** LinkMap: from u's host and device to v's host and device, carrying a fraction of the rate. */
  datatype LinkMap<D> = LinkMap(sNode: NodeId, sDevice: D, dNode: NodeId, dDevice: D, fraction: real)

  /** A hop of a named path: (s, device at s, device at t, t). */
  datatype NamedHop = NamedHop(src: NodeId, srcDevice: string, dstDevice: string, dst: NodeId)

  /** Path: the named hops and the fraction of the rate routed over them. */
  datatype PathMap = PathMap(hops: seq<NamedHop>, fraction: real)

  /**
   * The solution object: the placement, the link maps and the paths. D is a
   * device name in the current library and an interface key in the
   * algorithms revision, which keeps no paths.
   */
  datatype Embedding<D> = Embedding(mapping: map<NodeId, NodeId>, links: map<Pair, seq<LinkMap<D>>>,
                                    paths: map<Pair, seq<PathMap>>)

  /** The machines a placement uses: the distinct physical nodes among its values. */
  function Hosts(mapping: map<NodeId, NodeId>, on: set<NodeId>): set<NodeId>
  {
    set n | n in on && n in mapping :: mapping[n]
  }

  /** n_machines_used: the number of distinct physical nodes hosting a virtual node. */
  function MachinesUsed<D>(s: Embedding<D>): (n: nat)
    ensures n <= |s.mapping|
    ensures |s.mapping| > 0 ==> n > 0
  {
    HostsBound(s.mapping, s.mapping.Keys);
    |Hosts(s.mapping, s.mapping.Keys)|
  }

  /** No more machines than virtual nodes, and at least one when some node is placed. */
  lemma {:induction false} HostsBound(m: map<NodeId, NodeId>, on: set<NodeId>)
    requires on <= m.Keys
    ensures |Hosts(m, on)| <= |on|
    ensures |on| > 0 ==> |Hosts(m, on)| > 0
    decreases |on|
  {
    if |on| > 0 {
      NonEmptyHasNode(on);
      var k :| k in on;
      HostsBound(m, on - {k});
      assert m[k] in Hosts(m, on);
      assert Hosts(m, on) == Hosts(m, on - {k}) + {m[k]};
    }
  }

  /** link_info(link): the link maps of the link, none when it has no entry. */
  function LinkInfo<D>(s: Embedding<D>, e: Pair): seq<LinkMap<D>>
  {
    if e in s.links then s.links[e] else []
  }

  /** path_info(link): the paths of the link, none when it has no entry. */
  function PathInfo<D>(s: Embedding<D>, e: Pair): seq<PathMap>
  {
    if e in s.paths then s.paths[e] else []
  }

  /*
   * Entries and how they relate to the routing.
   */

  function Mirror<D>(l: LinkMap<D>): LinkMap<D>
  {
    LinkMap(l.dNode, l.dDevice, l.sNode, l.sDevice, l.fraction)
  }

  function Mirrored<D>(ls: seq<LinkMap<D>>): (ms: seq<LinkMap<D>>)
    ensures |ms| == |ls| && forall k :: 0 <= k < |ls| ==> ms[k] == Mirror(ls[k])
  {
    seq(|ls|, k requires 0 <= k < |ls| => Mirror(ls[k]))
  }

  function FractionsOf<D>(ls: seq<LinkMap<D>>): (fs: seq<real>)
    ensures |fs| == |ls| && forall k :: 0 <= k < |ls| ==> fs[k] == ls[k].fraction
  {
    seq(|ls|, k requires 0 <= k < |ls| => ls[k].fraction)
  }

  /** Both virtual nodes are placed, on different machines. */
  predicate Cross(mapping: map<NodeId, NodeId>, e: Pair)
  {
    e.0 in mapping && e.1 in mapping && mapping[e.0] != mapping[e.1]
  }

  /** The entry runs from where the path starts to where it ends. */
  predicate EndsOn<D>(l: LinkMap<D>, path: seq<Hop<Key>>)
  {
    |path| > 0 && l.sNode == path[0].src && l.dNode == path[|path| - 1].dst
  }

  /** Each entry of e lies over e's own path, or over the path of (e.1, e.0) read backwards. */
  predicate FromRouting<D>(routing: Routing, e: Pair, ls: seq<LinkMap<D>>)
  {
    forall k :: 0 <= k < |ls| ==>
      (e in routing && EndsOn(ls[k], routing[e])) ||
      ((e.1, e.0) in routing && EndsOn(ls[k], Backward(routing[(e.1, e.0)])))
  }

  /** The requested rate is carried in full: the fractions add up to 1, and nothing is listed for a rate of 0. */
  predicate Carried<D>(v: Virtual.VirtualNet, e: Pair, ls: seq<LinkMap<D>>)
  {
    match Virtual.RateIn(v.links, e.0, e.1)
    case None => false
    case Some(req) => if req == 0 then ls == [] else SumReal(FractionsOf(ls)) == 1.0
  }

  /** (v, u) holds the mirror image of the entries of (u, v), u and v different. */
  ghost predicate Mirrors<D>(links: map<Pair, seq<LinkMap<D>>>)
  {
    forall e :: e in links && e.0 != e.1 ==> (e.1, e.0) in links && links[(e.1, e.0)] == Mirrored(links[e])
  }

  /** A named path follows the hops of a routed path, node for node. */
  predicate Follows(pm: PathMap, path: seq<Hop<Key>>)
  {
    |pm.hops| == |path| && forall k :: 0 <= k < |path| ==> pm.hops[k].src == path[k].src && pm.hops[k].dst == path[k].dst
  }

  /**
   * The link maps of the grouped builders: exactly the links of `done` (in
   * either orientation) whose ends are on different machines have entries,
   * mirrored, carrying their whole rate, over their routed path.
   */
  ghost predicate SplitBuilt<D>(v: Virtual.VirtualNet, mapping: map<NodeId, NodeId>, routing: Routing, done: set<Pair>,
                                links: map<Pair, seq<LinkMap<D>>>)
  {
    (forall e :: e in links <==> (e in done || (e.1, e.0) in done) && Cross(mapping, e)) &&
    Mirrors(links) &&
    (forall e :: e in links ==> Carried(v, e, links[e]) && FromRouting(routing, e, links[e]))
  }

  /**
   * The link maps of the ungrouped builders: every link of `done`, in either
   * orientation, has a single entry of fraction 1 over its routed path, and
   * the entries are mirrored.
   */
  ghost predicate DirectBuilt<D>(routing: Routing, done: set<Pair>, links: map<Pair, seq<LinkMap<D>>>)
  {
    (forall e :: e in links <==> e in done || (e.1, e.0) in done) &&
    Mirrors(links) &&
    (forall e :: e in links ==> |links[e]| == 1 && links[e][0].fraction == 1.0 && FromRouting(routing, e, links[e]))
  }

  /** The paths match the link maps entry for entry, in fraction and over the routed hops. */
  ghost predicate PathsBuilt<D>(routing: Routing, links: map<Pair, seq<LinkMap<D>>>, paths: map<Pair, seq<PathMap>>)
  {
    paths.Keys == links.Keys &&
    forall e :: e in paths ==> (|paths[e]| == |links[e]| &&
      forall k :: 0 <= k < |paths[e]| ==> (paths[e][k].fraction == links[e][k].fraction &&
        ((e in routing && Follows(paths[e][k], routing[e])) ||
         ((e.1, e.0) in routing && Follows(paths[e][k], Backward(routing[(e.1, e.0)]))))))
  }

  /*
   * Device names.
   */

  /**
   * Name every hop (s, device, t) as (s, name(s, t, device), name(t, s, device), t);
   * None when a name lookup raises KeyError.
   */
  function NameHops(hops: seq<Hop<Key>>, name: (NodeId, NodeId, Key) -> Result<string>): (r: Option<seq<NamedHop>>)
    ensures r.Some? <==> forall k :: 0 <= k < |hops| ==>
      name(hops[k].src, hops[k].dst, hops[k].device).Ok? && name(hops[k].dst, hops[k].src, hops[k].device).Ok?
    ensures r.Some? ==> (|r.value| == |hops| && forall k :: 0 <= k < |hops| ==>
      r.value[k] == NamedHop(hops[k].src, name(hops[k].src, hops[k].dst, hops[k].device).value,
                             name(hops[k].dst, hops[k].src, hops[k].device).value, hops[k].dst))
  {
    if |hops| == 0 then Some([])
    else
      var h := hops[0];
      var a := name(h.src, h.dst, h.device);
      var b := name(h.dst, h.src, h.device);
      var rest := NameHops(hops[1..], name);
      assert forall k :: 0 < k < |hops| ==> hops[k] == hops[1..][k - 1];
      if a.Ok? && b.Ok? && rest.Some? then Some([NamedHop(h.src, a.value, b.value, h.dst)] + rest.value)
      else None
  }

  /** The four entries one turn of the grouped loop appends: both link maps and both paths. */
  datatype Step = Step(forward: LinkMap<string>, backward: LinkMap<string>, forwardPath: PathMap, backwardPath: PathMap)

  /**
   * The entries of one turn on the real interfaces ku (u's side) and kv (v's
   * side): every name is that of the chosen real interface, looked up on
   * every hop's link; None when a lookup raises KeyError.
   */
  function StepEntries(g: Physical.Network, path: seq<Hop<Key>>, ku: Key, kv: Key, fraction: real): (r: Option<Step>)
    requires |path| > 0
    ensures r.Some? ==> (r.value.backward == Mirror(r.value.forward) && EndsOn(r.value.forward, path) &&
      r.value.forward.fraction == fraction && r.value.forwardPath.fraction == fraction &&
      r.value.backwardPath.fraction == fraction &&
      Follows(r.value.forwardPath, path) && Follows(r.value.backwardPath, Backward(path)))
  {
    var first, last := path[0], path[|path| - 1];
    var nu := Physical.NameAssociated(g, first.src, first.dst, ku);
    var nv := Physical.NameAssociated(g, last.dst, last.src, kv);
    var fp := NameHops(path, (s, t, d) => Physical.NameAssociated(g, s, t, ku));
    var bp := NameHops(Backward(path), (s, t, d) => Physical.NameAssociated(g, s, t, kv));
    if nu.Ok? && nv.Ok? && fp.Some? && bp.Some? then
      var fwd := LinkMap(first.src, nu.value, last.dst, nv.value, fraction);
      Some(Step(fwd, Mirror(fwd), PathMap(fp.value, fraction), PathMap(bp.value, fraction)))
    else None
  }

  function Fraction(amount: nat, req: nat): real
  {
    if req == 0 then 0.0 else amount as real / req as real
  }

  /** Every chunk can be named: its entries exist. */
  predicate Nameable(g: Physical.Network, path: seq<Hop<Key>>, ku: seq<Key>, kv: seq<Key>, req: nat,
                     chunks: seq<Ungroup.Chunk>)
    requires |path| > 0
  {
    forall k :: 0 <= k < |chunks| ==> (chunks[k].iu < |ku| && chunks[k].iv < |kv| &&
      StepEntries(g, path, ku[chunks[k].iu], kv[chunks[k].iv], Fraction(chunks[k].amount, req)).Some?)
  }

  /** The steps are the entries of the chunks, one for one. */
  predicate Named(g: Physical.Network, path: seq<Hop<Key>>, ku: seq<Key>, kv: seq<Key>, req: nat,
                  chunks: seq<Ungroup.Chunk>, steps: seq<Step>)
    requires |path| > 0
  {
    |steps| == |chunks| &&
    forall k :: 0 <= k < |chunks| ==> (chunks[k].iu < |ku| && chunks[k].iv < |kv| &&
      StepEntries(g, path, ku[chunks[k].iu], kv[chunks[k].iv], Fraction(chunks[k].amount, req)) == Some(steps[k]))
  }

  /** A chunk named by its step keeps the chunks so far named. */
  lemma NamedStep(g: Physical.Network, path: seq<Hop<Key>>, ku: seq<Key>, kv: seq<Key>, req: nat,
                  chunks: seq<Ungroup.Chunk>, steps: seq<Step>, c: Ungroup.Chunk, st: Step)
    requires |path| > 0 && Named(g, path, ku, kv, req, chunks, steps) && c.iu < |ku| && c.iv < |kv|
    requires StepEntries(g, path, ku[c.iu], kv[c.iv], Fraction(c.amount, req)) == Some(st)
    ensures Named(g, path, ku, kv, req, chunks + [c], steps + [st])
  {
    var chunks', steps' := chunks + [c], steps + [st];
    forall k | 0 <= k < |chunks'|
      ensures chunks'[k].iu < |ku| && chunks'[k].iv < |kv| &&
        StepEntries(g, path, ku[chunks'[k].iu], kv[chunks'[k].iv], Fraction(chunks'[k].amount, req)) == Some(steps'[k])
    {
      if k < |chunks| {
        assert chunks'[k] == chunks[k] && steps'[k] == steps[k];
      } else {
        assert chunks'[k] == c && steps'[k] == st;
      }
    }
  }

  /** The entries of named steps carry the fractions of their chunks. */
  lemma NamedFractions(g: Physical.Network, path: seq<Hop<Key>>, ku: seq<Key>, kv: seq<Key>, req: nat,
                       chunks: seq<Ungroup.Chunk>, steps: seq<Step>)
    requires |path| > 0 && req > 0 && Named(g, path, ku, kv, req, chunks, steps)
    ensures FractionsOf(Forwards(steps)) == Ungroup.Fractions(chunks, req)
  {
    var fs, cs := FractionsOf(Forwards(steps)), Ungroup.Fractions(chunks, req);
    forall k | 0 <= k < |fs|
      ensures fs[k] == cs[k]
    {
      var c := chunks[k];
      assert StepEntries(g, path, ku[c.iu], kv[c.iv], Fraction(c.amount, req)) == Some(steps[k]);
    }
  }

  /** Every named step's entries end on the path's ends and follow the path, each way, at the step's fraction. */
  lemma NamedFollow(g: Physical.Network, path: seq<Hop<Key>>, ku: seq<Key>, kv: seq<Key>, req: nat,
                    chunks: seq<Ungroup.Chunk>, steps: seq<Step>)
    requires |path| > 0 && Named(g, path, ku, kv, req, chunks, steps)
    ensures forall k :: 0 <= k < |steps| ==> (EndsOn(Forwards(steps)[k], path) &&
      Follows(steps[k].forwardPath, path) && Follows(steps[k].backwardPath, Backward(path)) &&
      steps[k].forwardPath.fraction == Forwards(steps)[k].fraction &&
      steps[k].backwardPath.fraction == Forwards(steps)[k].fraction)
  {
    forall k | 0 <= k < |steps|
      ensures EndsOn(Forwards(steps)[k], path) && Follows(steps[k].forwardPath, path) &&
        Follows(steps[k].backwardPath, Backward(path)) &&
        steps[k].forwardPath.fraction == Forwards(steps)[k].fraction &&
        steps[k].backwardPath.fraction == Forwards(steps)[k].fraction
    {
      var c := chunks[k];
      assert StepEntries(g, path, ku[c.iu], kv[c.iv], Fraction(c.amount, req)) == Some(steps[k]);
    }
  }

  /** What the grouped loop leaves for one link: its chunks, their entries and both sides' residuals. */
  datatype Grouped = Grouped(chunks: seq<Ungroup.Chunk>, steps: seq<Step>, ru: seq<nat>, rv: seq<nat>)

  /**
   * The grouped ungroup loop of the current library for one link, naming the
   * chosen interfaces as it goes: it maps exactly the chunks of
   * Ungroup.Split, and raises KeyError at the first chunk it cannot name.
   */
  method UngroupNamed(g: Physical.Network, path: seq<Hop<Key>>, ku: seq<Key>, kv: seq<Key>,
                      ru0: seq<nat>, rv0: seq<nat>, req: nat)
    returns (run: Ungroup.Run<Grouped>)
    requires |path| > 0 && |ku| == |ru0| && |kv| == |rv0|
    ensures run.Returns? ==>
      Ungroup.Split(ru0, rv0, req) == Ungroup.Returns(Ungroup.Outcome(run.value.chunks, run.value.ru, run.value.rv)) &&
      Named(g, path, ku, kv, req, run.value.chunks, run.value.steps)
    ensures run.Diverges? ==> Ungroup.Split(ru0, rv0, req).Diverges?
    ensures run.Raises? ==> (run.error == ValueError <==> Ungroup.Split(ru0, rv0, req).Raises?)
    ensures run.Raises? ==> run.error == ValueError || run.error == KeyError
    ensures Ungroup.Split(ru0, rv0, req).Returns? && Nameable(g, path, ku, kv, req, Ungroup.Split(ru0, rv0, req).value.chunks)
      ==> run.Returns?
  {
    var ru, rv := ru0, rv0;
    var tbm: nat := req;
    var chunks: seq<Ungroup.Chunk> := [];
    var steps: seq<Step> := [];
    ghost var whole := Ungroup.Split(ru0, rv0, req);
    Ungroup.PrependNothing(whole);
    while tbm > 0
      invariant |ru| == |ru0| && |rv| == |rv0| && tbm <= req
      invariant whole == Ungroup.Prepend(chunks, Ungroup.Split(ru, rv, tbm))
      invariant Named(g, path, ku, kv, req, chunks, steps)
      decreases tbm
    {
      if |ru| == 0 || |rv| == 0 {
        return Ungroup.Raises(ValueError);
      }
      var a := Ungroup.ArgMax(ru);
      var b := Ungroup.ArgMax(rv);
      var m := Ungroup.Min(tbm, Ungroup.Min(ru[a], rv[b]));
      var st := StepEntries(g, path, ku[a], kv[b], Fraction(m, req));
      if st.None? {
        Unnameable(g, path, ku, kv, req, whole, ru, rv, tbm, chunks);
        return Ungroup.Raises(KeyError);
      }
      if m == 0 {
        return Ungroup.Diverges;
      }
      NamedStep(g, path, ku, kv, req, chunks, steps, Ungroup.Chunk(a, b, m), st.value);
      ru, rv, tbm, chunks := Advance(whole, ru, rv, tbm, chunks);
      steps := steps + [st.value];
    }
    assert chunks + [] == chunks;
    run := Ungroup.Returns(Grouped(chunks, steps, ru, rv));
  }

  /** One turn of the loop: record the chunk, take it off both residuals and off what remains to be mapped. */
  method Advance(ghost whole: Ungroup.Run<Ungroup.Outcome>, ru: seq<nat>, rv: seq<nat>, tbm: nat, chunks: seq<Ungroup.Chunk>)
    returns (ru': seq<nat>, rv': seq<nat>, tbm': nat, chunks': seq<Ungroup.Chunk>)
    requires tbm > 0 && |ru| > 0 && |rv| > 0
    requires Ungroup.Min(tbm, Ungroup.Min(ru[Ungroup.ArgMax(ru)], rv[Ungroup.ArgMax(rv)])) > 0
    requires whole == Ungroup.Prepend(chunks, Ungroup.Split(ru, rv, tbm))
    ensures var a, b := Ungroup.ArgMax(ru), Ungroup.ArgMax(rv);
      var m := Ungroup.Min(tbm, Ungroup.Min(ru[a], rv[b]));
      chunks' == chunks + [Ungroup.Chunk(a, b, m)] && ru' == Ungroup.Take(ru, a, m) && rv' == Ungroup.Take(rv, b, m) && tbm' == tbm - m
    ensures whole == Ungroup.Prepend(chunks', Ungroup.Split(ru', rv', tbm'))
  {
    var a, b := Ungroup.ArgMax(ru), Ungroup.ArgMax(rv);
    var m := Ungroup.Min(tbm, Ungroup.Min(ru[a], rv[b]));
    Ungroup.SplitStep(ru, rv, tbm, chunks, a, b, m);
    chunks' := chunks + [Ungroup.Chunk(a, b, m)];
    ru' := Ungroup.Take(ru, a, m);
    rv' := Ungroup.Take(rv, b, m);
    tbm' := tbm - m;
  }

  /** A turn whose chunk cannot be named: the loop as a whole neither raises ValueError nor has only nameable chunks. */
  lemma Unnameable(g: Physical.Network, path: seq<Hop<Key>>, ku: seq<Key>, kv: seq<Key>, req: nat,
                   whole: Ungroup.Run<Ungroup.Outcome>, ru: seq<nat>, rv: seq<nat>, tbm: nat, chunks: seq<Ungroup.Chunk>)
    requires |path| > 0 && tbm > 0 && 0 < |ru| == |ku| && 0 < |rv| == |kv|
    requires whole == Ungroup.Prepend(chunks, Ungroup.Split(ru, rv, tbm))
    requires var a, b := Ungroup.ArgMax(ru), Ungroup.ArgMax(rv);
      StepEntries(g, path, ku[a], kv[b], Fraction(Ungroup.Min(tbm, Ungroup.Min(ru[a], rv[b])), req)).None?
    ensures !whole.Raises?
    ensures whole.Returns? ==> !Nameable(g, path, ku, kv, req, whole.value.chunks)
  {
    Ungroup.SplitRaises(ru, rv, tbm);
    if whole.Returns? {
      NextChunk(whole, ru, rv, tbm, chunks);
      var a, b := Ungroup.ArgMax(ru), Ungroup.ArgMax(rv);
      assert whole.value.chunks[|chunks|] == Ungroup.Chunk(a, b, Ungroup.Min(tbm, Ungroup.Min(ru[a], rv[b])));
    }
  }

  /** A turn that can map nothing leaves the loop running for ever. */
  lemma Stuck(ru: seq<nat>, rv: seq<nat>, tbm: nat)
    requires tbm > 0 && |ru| > 0 && |rv| > 0
    requires Ungroup.Min(tbm, Ungroup.Min(ru[Ungroup.ArgMax(ru)], rv[Ungroup.ArgMax(rv)])) == 0
    ensures Ungroup.Split(ru, rv, tbm) == Ungroup.Diverges
  {
  }

  /** When the whole loop returns, the chunk the next turn records is the next one of its result. */
  lemma NextChunk(whole: Ungroup.Run<Ungroup.Outcome>, ru: seq<nat>, rv: seq<nat>, tbm: nat, chunks: seq<Ungroup.Chunk>)
    requires tbm > 0 && |ru| > 0 && |rv| > 0
    requires whole == Ungroup.Prepend(chunks, Ungroup.Split(ru, rv, tbm)) && whole.Returns?
    ensures var a, b := Ungroup.ArgMax(ru), Ungroup.ArgMax(rv);
      |chunks| < |whole.value.chunks| &&
      whole.value.chunks[|chunks|] == Ungroup.Chunk(a, b, Ungroup.Min(tbm, Ungroup.Min(ru[a], rv[b])))
  {
    var a, b := Ungroup.ArgMax(ru), Ungroup.ArgMax(rv);
    var m := Ungroup.Min(tbm, Ungroup.Min(ru[a], rv[b]));
    if m == 0 {
      Stuck(ru, rv, tbm);
      assert false;
    } else {
      var rest := Ungroup.Split(Ungroup.Take(ru, a, m), Ungroup.Take(rv, b, m), tbm - m);
      assert Ungroup.Split(ru, rv, tbm) == Ungroup.Prepend([Ungroup.Chunk(a, b, m)], rest);
      assert rest.Returns?;
      var cs := chunks + ([Ungroup.Chunk(a, b, m)] + rest.value.chunks);
      assert whole.value.chunks == cs;
      assert cs[|chunks|] == Ungroup.Chunk(a, b, m);
    }
  }

  /*
   * Building the entries, link by link.
   */

  function Forwards(steps: seq<Step>): (ls: seq<LinkMap<string>>)
    ensures |ls| == |steps| && forall k :: 0 <= k < |steps| ==> ls[k] == steps[k].forward
  {
    seq(|steps|, k requires 0 <= k < |steps| => steps[k].forward)
  }

  function ForwardPaths(steps: seq<Step>): (ps: seq<PathMap>)
    ensures |ps| == |steps| && forall k :: 0 <= k < |steps| ==> ps[k] == steps[k].forwardPath
  {
    seq(|steps|, k requires 0 <= k < |steps| => steps[k].forwardPath)
  }

  function BackwardPaths(steps: seq<Step>): (ps: seq<PathMap>)
    ensures |ps| == |steps| && forall k :: 0 <= k < |steps| ==> ps[k] == steps[k].backwardPath
  {
    seq(|steps|, k requires 0 <= k < |steps| => steps[k].backwardPath)
  }

  /**
   * The entries of a finished grouped loop carry the link's whole rate: no
   * entry when the rate is 0, fractions adding up to 1 otherwise.
   */
  lemma {:induction false} StepsCarry(v: Virtual.VirtualNet, e: Pair, g: Physical.Network, path: seq<Hop<Key>>,
                                      ku: seq<Key>, kv: seq<Key>, ru: seq<nat>, rv: seq<nat>, req: nat, o: Grouped)
    requires |path| > 0 && Virtual.RateIn(v.links, e.0, e.1) == Some(req)
    requires Ungroup.Split(ru, rv, req) == Ungroup.Returns(Ungroup.Outcome(o.chunks, o.ru, o.rv))
    requires Named(g, path, ku, kv, req, o.chunks, o.steps)
    ensures Carried(v, e, Forwards(o.steps))
  {
    if req > 0 {
      Ungroup.SplitConserves(ru, rv, req);
      Ungroup.FractionsSumToOne(o.chunks, req);
      NamedFractions(g, path, ku, kv, req, o.chunks, o.steps);
    }
  }

  /** The key of the link between i and j in the residual table: (i, j) when stored so, else (j, i). */
  function Stored(g: Physical.Network, i: NodeId, j: NodeId): (r: Option<Pair>)
    ensures r.Some? <==> (i, j) in g.links || (j, i) in g.links
    ensures r.Some? ==> r.value in g.links && (r.value == (i, j) || r.value == (j, i))
  {
    if (i, j) in g.links then Some((i, j))
    else if (j, i) in g.links then Some((j, i))
    else None
  }

  function Rates(ifs: seq<Physical.Interface>): (r: seq<nat>)
    ensures |r| == |ifs| && forall k :: 0 <= k < |ifs| ==> r[k] == ifs[k].rate
  {
    seq(|ifs|, k requires 0 <= k < |ifs| => ifs[k].rate)
  }

  /** rate_interfaces: for every stored link, the rates of its real interfaces in enumeration order. */
  function Residuals(g: Physical.Network): (r: map<Pair, seq<nat>>)
    ensures r.Keys == g.links.Keys
    ensures forall e :: e in r ==> r[e] == Rates(g.links[e].associated)
  {
    map e | e in g.links :: Rates(g.links[e].associated)
  }

  /** The residual table has one entry per stored link, aligned with its real interfaces. */
  predicate Aligned(g: Physical.Network, res: map<Pair, seq<nat>>)
  {
    res.Keys == g.links.Keys && forall e :: e in res ==> |res[e]| == |g.links[e].associated|
  }

  /** The first and the last hop lie on different links (or the first on none). */
  predicate ApartEnds(g: Physical.Network, path: seq<Hop<Key>>)
  {
    |path| > 0 ==>
      var first, last := path[0], path[|path| - 1];
      Stored(g, first.src, first.dst).None? || Stored(g, first.src, first.dst) != Stored(g, last.src, last.dst)
  }

  /** Every routed path between different machines has its ends on different links. */
  predicate EndsApart(g: Physical.Network, mapping: map<NodeId, NodeId>, routing: Routing)
  {
    forall e :: e in routing && Cross(mapping, e) ==> ApartEnds(g, routing[e])
  }

  /** The entries of one virtual link in the grouped build of the current library. */
  datatype LinkEntries = LinkEntries(links: seq<LinkMap<string>>, forward: seq<PathMap>, backward: seq<PathMap>,
                                     res: map<Pair, seq<nat>>)

  /**
   * What the grouped build enters for a link e over a non-empty path: entries
   * carrying e's rate, each ending on the path's ends with its forward and
   * backward path maps at the entry's fraction, and the residual tables of the
   * path's first and last links as the ungroup split leaves them.
   */
  ghost predicate Entered(v: Virtual.VirtualNet, g: Physical.Network, e: Pair, path: seq<Hop<Key>>,
                          res: map<Pair, seq<nat>>, le: LinkEntries)
  {
    |path| > 0 && Carried(v, e, le.links) && Aligned(g, le.res) &&
    Stored(g, path[0].src, path[0].dst).Some? && Stored(g, path[|path| - 1].src, path[|path| - 1].dst).Some? &&
    Virtual.RateIn(v.links, e.0, e.1).Some? &&
    |le.forward| == |le.links| && |le.backward| == |le.links| &&
    (forall k :: 0 <= k < |le.links| ==> (EndsOn(le.links[k], path) &&
      le.forward[k].fraction == le.links[k].fraction && le.backward[k].fraction == le.links[k].fraction &&
      Follows(le.forward[k], path) && Follows(le.backward[k], Backward(path)))) &&
    var su, sv := Stored(g, path[0].src, path[0].dst).value, Stored(g, path[|path| - 1].src, path[|path| - 1].dst).value;
    su in res && sv in res &&
    var split := Ungroup.Split(res[su], res[sv], Virtual.RateIn(v.links, e.0, e.1).value);
    split.Returns? && le.res == res[su := split.value.ru][sv := split.value.rv]
  }

  /** The entries built from a named ungroup run are what the grouped build enters. */
  lemma EnteredFrom(v: Virtual.VirtualNet, g: Physical.Network, e: Pair, path: seq<Hop<Key>>, res: map<Pair, seq<nat>>,
                    ku: seq<Key>, kv: seq<Key>, su: Pair, sv: Pair, req: nat, o: Grouped, le: LinkEntries)
    requires |path| > 0 && Aligned(g, res)
    requires Stored(g, path[0].src, path[0].dst) == Some(su) && Stored(g, path[|path| - 1].src, path[|path| - 1].dst) == Some(sv)
    requires Virtual.RateIn(v.links, e.0, e.1) == Some(req)
    requires |ku| == |res[su]| && |kv| == |res[sv]|
    requires Ungroup.Split(res[su], res[sv], req) == Ungroup.Returns(Ungroup.Outcome(o.chunks, o.ru, o.rv))
    requires Named(g, path, ku, kv, req, o.chunks, o.steps)
    requires le == LinkEntries(Forwards(o.steps), ForwardPaths(o.steps), BackwardPaths(o.steps), res[su := o.ru][sv := o.rv])
    ensures Entered(v, g, e, path, res, le)
  {
    StepsCarry(v, e, g, path, ku, kv, res[su], res[sv], req, o);
    NamedFollow(g, path, ku, kv, req, o.chunks, o.steps);
  }

  /**
   * The body of the grouped build for a link (u, v) between different
   * machines: the residual tables of the links at both ends of the path,
   * the requested rate, then the ungroup loop.
   */
  method GroupedLink(v: Virtual.VirtualNet, g: Physical.Network, e: Pair, path: seq<Hop<Key>>, res: map<Pair, seq<nat>>)
    returns (run: Ungroup.Run<LinkEntries>)
    requires Aligned(g, res) && ApartEnds(g, path)
    ensures run.Returns? ==> Entered(v, g, e, path, res, run.value)
    ensures run.Raises? ==> (run.error == IndexError <==> |path| == 0)
    ensures run.Raises? ==> run.error in {IndexError, KeyError, ValueError}
  {
    if |path| == 0 {
      return Ungroup.Raises(IndexError);
    }
    var first, last := path[0], path[|path| - 1];
    var su := Stored(g, first.src, first.dst);
    var sv := Stored(g, last.src, last.dst);
    if su.None? || sv.None? {
      return Ungroup.Raises(KeyError);
    }
    var rate := Virtual.RateIn(v.links, e.0, e.1);
    if rate.None? {
      return Ungroup.Raises(KeyError);
    }
    var ku := Physical.Keys(g.links[su.value].associated);
    var kv := Physical.Keys(g.links[sv.value].associated);
    var out := UngroupNamed(g, path, ku, kv, res[su.value], res[sv.value], rate.value);
    match out {
      case Raises(err) =>
        return Ungroup.Raises(err);
      case Diverges =>
        return Ungroup.Diverges;
      case Returns(o) =>
        var le := LinkEntries(Forwards(o.steps), ForwardPaths(o.steps), BackwardPaths(o.steps),
                              res[su.value := o.ru][sv.value := o.rv]);
        EnteredFrom(v, g, e, path, res, ku, kv, su.value, sv.value, rate.value, o, le);
        return Ungroup.Returns(le);
    }
  }

  /*
   * The build state, one virtual link at a time.
   */

  lemma MirroredTwice<D>(ls: seq<LinkMap<D>>)
    ensures Mirrored(Mirrored(ls)) == ls
    ensures FractionsOf(Mirrored(ls)) == FractionsOf(ls)
  {
    assert forall k :: 0 <= k < |ls| ==> Mirrored(Mirrored(ls))[k] == ls[k];
  }

  /** Mirroring entries over a path gives entries over the path read backwards. */
  lemma MirroredEnds<D>(ls: seq<LinkMap<D>>, path: seq<Hop<Key>>)
    requires forall k :: 0 <= k < |ls| ==> EndsOn(ls[k], path)
    ensures forall k :: 0 <= k < |ls| ==> EndsOn(Mirrored(ls)[k], Backward(path))
  {
    var b := Backward(path);
    if |path| > 0 {
      assert b[0].src == path[|path| - 1].dst && b[|b| - 1].dst == path[0].src;
    }
  }

  /** Entering entries for a link and their mirror image under the reverse key keeps the map mirrored. */
  lemma MirrorsAdd<D>(links: map<Pair, seq<LinkMap<D>>>, e: Pair, ls: seq<LinkMap<D>>)
    requires Mirrors(links)
    ensures Mirrors(links[e := ls][(e.1, e.0) := Mirrored(ls)])
  {
    var r := (e.1, e.0);
    var nl := links[e := ls][r := Mirrored(ls)];
    MirroredTwice(ls);
    forall f | f in nl && f.0 != f.1
      ensures (f.1, f.0) in nl && nl[(f.1, f.0)] == Mirrored(nl[f])
    {
      if f != e && f != r {
        assert (f.1, f.0) != e && (f.1, f.0) != r;
      }
    }
  }

  /** Entering a link between two machines: its entries and their mirror image under the reverse key. */
  lemma {:induction false} SplitBuiltAdd<D>(v: Virtual.VirtualNet, mapping: map<NodeId, NodeId>, routing: Routing,
                                            done: set<Pair>, links: map<Pair, seq<LinkMap<D>>>, e: Pair, ls: seq<LinkMap<D>>)
    requires SplitBuilt(v, mapping, routing, done, links)
    requires e in routing && Cross(mapping, e) && Carried(v, e, ls)
    requires forall k :: 0 <= k < |ls| ==> EndsOn(ls[k], routing[e])
    ensures SplitBuilt(v, mapping, routing, done + {e}, links[e := ls][(e.1, e.0) := Mirrored(ls)])
  {
    var r := (e.1, e.0);
    var nl := links[e := ls][r := Mirrored(ls)];
    MirrorsAdd(links, e, ls);
    MirrorEntries(v, routing, e, ls);
    assert Cross(mapping, r);
    forall f
      ensures f in nl <==> (f in done + {e} || (f.1, f.0) in done + {e}) && Cross(mapping, f)
    {
      if f == e || f == r {
        assert f in nl;
      }
    }
    forall f | f in nl
      ensures Carried(v, f, nl[f]) && FromRouting(routing, f, nl[f])
    {
      if f != e && f != r {
        assert nl[f] == links[f];
      }
    }
  }

  /** The mirror image of a link's entries carries the reverse link's rate, over the path read backwards. */
  lemma MirrorEntries<D>(v: Virtual.VirtualNet, routing: Routing, e: Pair, ls: seq<LinkMap<D>>)
    requires e in routing && Carried(v, e, ls)
    requires forall k :: 0 <= k < |ls| ==> EndsOn(ls[k], routing[e])
    ensures Carried(v, (e.1, e.0), Mirrored(ls)) && FromRouting(routing, (e.1, e.0), Mirrored(ls))
  {
    MirroredTwice(ls);
    MirroredEnds(ls, routing[e]);
    Virtual.ReqRateSymmetric(v, e.0, e.1);
  }

  /** A link inside one machine adds no entry. */
  lemma SplitBuiltSkip<D>(v: Virtual.VirtualNet, mapping: map<NodeId, NodeId>, routing: Routing,
                          done: set<Pair>, links: map<Pair, seq<LinkMap<D>>>, e: Pair)
    requires SplitBuilt(v, mapping, routing, done, links)
    requires !Cross(mapping, e)
    ensures SplitBuilt(v, mapping, routing, done + {e}, links)
  {
    assert !Cross(mapping, (e.1, e.0));
  }

  /** Entering the paths of a link alongside its entries keeps paths and entries matched. */
  lemma {:induction false} PathsBuiltAdd<D>(routing: Routing, links: map<Pair, seq<LinkMap<D>>>, paths: map<Pair, seq<PathMap>>,
                                            e: Pair, ls: seq<LinkMap<D>>, forward: seq<PathMap>, backward: seq<PathMap>)
    requires PathsBuilt(routing, links, paths)
    requires e in routing && |forward| == |ls| && |backward| == |ls|
    requires forall k :: 0 <= k < |ls| ==> (forward[k].fraction == ls[k].fraction && backward[k].fraction == ls[k].fraction &&
      Follows(forward[k], routing[e]) && Follows(backward[k], Backward(routing[e])))
    ensures PathsBuilt(routing, links[e := ls][(e.1, e.0) := Mirrored(ls)], paths[e := forward][(e.1, e.0) := backward])
  {
    var r := (e.1, e.0);
    var nl := links[e := ls][r := Mirrored(ls)];
    var np := paths[e := forward][r := backward];
    assert np.Keys == nl.Keys;
    forall f | f in np
      ensures |np[f]| == |nl[f]| &&
        forall k :: 0 <= k < |np[f]| ==> (np[f][k].fraction == nl[f][k].fraction &&
          ((f in routing && Follows(np[f][k], routing[f])) ||
           ((f.1, f.0) in routing && Follows(np[f][k], Backward(routing[(f.1, f.0)])))))
    {
      if f == r {
        assert (f.1, f.0) == e;
      } else if f != e {
        assert np[f] == paths[f] && nl[f] == links[f];
      }
    }
  }

  /**
   * build_solution in grouped mode, current library: for each routed link
   * in the routing's order, a link between two machines gets its entries
   * from the ungroup loop over the residual rates left by the links before
   * it, and its reverse the mirror entries; a link inside one machine gets
   * none.
   */
  method BuildGroupedNamed(v: Virtual.VirtualNet, g: Physical.Network, mapping: map<NodeId, NodeId>, routing: Routing,
                           pathOrder: seq<Pair>)
    returns (run: Ungroup.Run<Embedding<string>>)
    requires Enumerates(pathOrder, routing) && EndsApart(g, mapping, routing)
    ensures run.Returns? ==> run.value.mapping == mapping
    ensures run.Returns? ==> SplitBuilt(v, mapping, routing, routing.Keys, run.value.links)
    ensures run.Returns? ==> PathsBuilt(routing, run.value.links, run.value.paths)
    ensures run.Raises? ==> run.error in {KeyError, IndexError, ValueError}
  {
    var res := Residuals(g);
    var links: map<Pair, seq<LinkMap<string>>> := map[];
    var paths: map<Pair, seq<PathMap>> := map[];
    ghost var done: set<Pair> := {};
    var i := 0;
    while i < |pathOrder|
      invariant 0 <= i <= |pathOrder|
      invariant forall f :: f in done <==> f in pathOrder[..i]
      invariant Aligned(g, res)
      invariant SplitBuilt(v, mapping, routing, done, links)
      invariant PathsBuilt(routing, links, paths)
    {
      var e := pathOrder[i];
      assert e in routing;
      if e.0 !in mapping || e.1 !in mapping {
        return Ungroup.Raises(KeyError);
      }
      if mapping[e.0] != mapping[e.1] {
        var out := GroupedLink(v, g, e, routing[e], res);
        match out {
          case Raises(err) =>
            return Ungroup.Raises(err);
          case Diverges =>
            return Ungroup.Diverges;
          case Returns(le) =>
            SplitBuiltAdd(v, mapping, routing, done, links, e, le.links);
            PathsBuiltAdd(routing, links, paths, e, le.links, le.forward, le.backward);
            links := links[e := le.links][(e.1, e.0) := Mirrored(le.links)];
            paths := paths[e := le.forward][(e.1, e.0) := le.backward];
            res := le.res;
        }
      } else {
        SplitBuiltSkip(v, mapping, routing, done, links, e);
      }
      PrefixGrows(pathOrder, i);
      done := done + {e};
      i := i + 1;
    }
    assert pathOrder[..i] == pathOrder;
    assert done == routing.Keys;
    return Ungroup.Returns(Embedding(mapping, links, paths));
  }

  /** Entering a link's single entry of fraction 1 and its mirror image under the reverse key. */
  lemma {:induction false} DirectBuiltAdd<D>(routing: Routing, done: set<Pair>, links: map<Pair, seq<LinkMap<D>>>,
                                             e: Pair, l: LinkMap<D>)
    requires DirectBuilt(routing, done, links)
    requires e in routing && EndsOn(l, routing[e]) && l.fraction == 1.0
    ensures DirectBuilt(routing, done + {e}, links[e := [l]][(e.1, e.0) := Mirrored([l])])
  {
    var r := (e.1, e.0);
    var nl: map<Pair, seq<LinkMap<D>>> := links[e := [l]][r := Mirrored([l])];
    MirrorsAdd(links, e, [l]);
    MirroredEnds([l], routing[e]);
    assert r.1 == e.0 && r.0 == e.1;
    forall f | f in nl
      ensures |nl[f]| == 1 && nl[f][0].fraction == 1.0 && FromRouting(routing, f, nl[f])
    {
      if f != e && f != r {
        assert nl[f] == links[f];
      }
    }
  }

  /*
   * Ungrouped mode, current library.
   */

  /** interface_name as a naming function of the hops. */
  function Namer(g: Physical.Network): (NodeId, NodeId, Key) -> Result<string>
  {
    (s: NodeId, t: NodeId, d: Key) => Physical.InterfaceName(g, s, t, d)
  }

  /** A path whose hops can be named forwards can be named backwards. */
  lemma BackwardNameable(g: Physical.Network, path: seq<Hop<Key>>)
    requires NameHops(path, Namer(g)).Some?
    ensures NameHops(Backward(path), Namer(g)).Some?
  {
    var b := Backward(path);
    var n := |path|;
    forall k | 0 <= k < |b|
      ensures Namer(g)(b[k].src, b[k].dst, b[k].device).Ok? && Namer(g)(b[k].dst, b[k].src, b[k].device).Ok?
    {
      assert b[k] == Hop(path[n - 1 - k].dst, path[n - 1 - k].src, path[n - 1 - k].device);
    }
  }

  /** The entries of a link in ungrouped mode: one link map and the path both ways, all of fraction 1. */
  datatype Direct = Direct(link: LinkMap<string>, forward: PathMap, backward: PathMap)

  /**
   * The entries of one routed link in ungrouped mode. The hops are named
   * first (interface_name of each end of each hop), so an unknown interface
   * is a KeyError even on a path whose first hop is then missing; only an
   * empty path reaches the IndexError.
   */
  /** Every hop of the path can be named on both of its ends. */
  predicate DirectNameable(g: Physical.Network, path: seq<Hop<Key>>)
  {
    |path| > 0 && NameHops(path, Namer(g)).Some?
  }

  function DirectEntries(g: Physical.Network, path: seq<Hop<Key>>): (r: Result<Direct>)
    ensures r.Err? ==> r.error in {KeyError, IndexError}
    ensures r == Err(IndexError) <==> |path| == 0
    ensures r.Ok? <==> DirectNameable(g, path)
    ensures r.Ok? ==> (EndsOn(r.value.link, path) && r.value.link.fraction == 1.0 &&
      r.value.forward.fraction == 1.0 && r.value.backward.fraction == 1.0 &&
      Follows(r.value.forward, path) && Follows(r.value.backward, Backward(path)))
    ensures r.Ok? ==> (r.value.link.sDevice == r.value.forward.hops[0].srcDevice &&
      r.value.link.dDevice == r.value.forward.hops[|path| - 1].dstDevice)
  {
    var fwd := NameHops(path, Namer(g));
    if fwd.None? then Err(KeyError)
    else
      BackwardNameable(g, path);
      var bwd := NameHops(Backward(path), Namer(g));
      if |path| == 0 then Err(IndexError)
      else
        var n := |path|;
        Ok(Direct(LinkMap(path[0].src, fwd.value[0].srcDevice, path[n - 1].dst, fwd.value[n - 1].dstDevice, 1.0),
                  PathMap(fwd.value, 1.0), PathMap(bwd.value, 1.0)))
  }

  /**
   * build_solution in ungrouped mode, current library: every routed link,
   * in the routing's order, gets one link map and one path of fraction 1,
   * and its reverse the mirror entries, whatever the placement.
   */
  method BuildDirectNamed(g: Physical.Network, mapping: map<NodeId, NodeId>, routing: Routing, pathOrder: seq<Pair>)
    returns (r: Result<Embedding<string>>)
    requires Enumerates(pathOrder, routing)
    ensures r.Ok? <==> forall e :: e in routing ==> DirectNameable(g, routing[e])
    ensures r.Err? ==> r.error in {KeyError, IndexError}
    ensures r.Ok? ==> (r.value.mapping == mapping && DirectBuilt(routing, routing.Keys, r.value.links) &&
      PathsBuilt(routing, r.value.links, r.value.paths))
  {
    var links: map<Pair, seq<LinkMap<string>>> := map[];
    var paths: map<Pair, seq<PathMap>> := map[];
    ghost var done: set<Pair> := {};
    var i := 0;
    while i < |pathOrder|
      invariant 0 <= i <= |pathOrder|
      invariant forall f :: f in done <==> f in pathOrder[..i]
      invariant forall f :: f in done ==> f in routing && DirectNameable(g, routing[f])
      invariant DirectBuilt(routing, done, links)
      invariant PathsBuilt(routing, links, paths)
    {
      var e := pathOrder[i];
      assert e in routing;
      var failure;
      failure, links, paths := DirectTurn(g, routing, done, e, links, paths);
      if failure.Some? {
        return Err(failure.value);
      }
      PrefixGrows(pathOrder, i);
      done := done + {e};
      i := i + 1;
    }
    assert pathOrder[..i] == pathOrder;
    assert done == routing.Keys;
    return Ok(Embedding(mapping, links, paths));
  }

  /** One turn of the ungrouped loop: name the path's hops, or report the error naming raises. */
  method DirectTurn(g: Physical.Network, routing: Routing, ghost done: set<Pair>, e: Pair,
                    links: map<Pair, seq<LinkMap<string>>>, paths: map<Pair, seq<PathMap>>)
    returns (failure: Option<Error>, links': map<Pair, seq<LinkMap<string>>>, paths': map<Pair, seq<PathMap>>)
    requires DirectBuilt(routing, done, links) && PathsBuilt(routing, links, paths) && e in routing
    ensures failure.None? <==> DirectNameable(g, routing[e])
    ensures failure.Some? ==> failure.value in {KeyError, IndexError}
    ensures failure.None? ==> DirectBuilt(routing, done + {e}, links') && PathsBuilt(routing, links', paths')
  {
    var d := DirectEntries(g, routing[e]);
    if d.Err? {
      return Some(d.error), links, paths;
    }
    failure := None;
    links', paths' := EnterDirect(routing, done, e, d.value, links, paths);
  }

  /** One turn of the ungrouped loop: the link's entries, and the mirror entries under the reverse key. */
  method EnterDirect(ghost routing: Routing, ghost done: set<Pair>, e: Pair, d: Direct,
                        links: map<Pair, seq<LinkMap<string>>>, paths: map<Pair, seq<PathMap>>)
    returns (links': map<Pair, seq<LinkMap<string>>>, paths': map<Pair, seq<PathMap>>)
    requires DirectBuilt(routing, done, links) && PathsBuilt(routing, links, paths)
    requires e in routing && EndsOn(d.link, routing[e]) && d.link.fraction == 1.0
    requires d.forward.fraction == 1.0 && d.backward.fraction == 1.0
    requires Follows(d.forward, routing[e]) && Follows(d.backward, Backward(routing[e]))
    ensures DirectBuilt(routing, done + {e}, links') && PathsBuilt(routing, links', paths')
  {
    DirectBuiltAdd(routing, done, links, e, d.link);
    PathsBuiltAdd(routing, links, paths, e, [d.link], [d.forward], [d.backward]);
    links' := links[e := [d.link]][(e.1, e.0) := Mirrored([d.link])];
    paths' := paths[e := [d.forward]][(e.1, e.0) := [d.backward]];
  }

  /*
   * The algorithms revision: link maps name interface keys, and no paths are kept.
   */

  /** The link maps of a grouped link from its chunks: the chosen interface keys on both sides. */
  function KeyMaps(chunks: seq<Ungroup.Chunk>, src: NodeId, dst: NodeId, ku: seq<Key>, kv: seq<Key>, req: nat)
    : (ls: seq<LinkMap<Key>>)
    requires forall c :: c in chunks ==> c.iu < |ku| && c.iv < |kv|
    ensures |ls| == |chunks|
    ensures forall k :: 0 <= k < |chunks| ==>
      ls[k] == LinkMap(src, ku[chunks[k].iu], dst, kv[chunks[k].iv], Fraction(chunks[k].amount, req))
  {
    seq(|chunks|, k requires 0 <= k < |chunks| => LinkMap(src, ku[chunks[k].iu], dst, kv[chunks[k].iv], Fraction(chunks[k].amount, req)))
  }

  /** The link maps built from a finished split carry the whole rate. */
  lemma {:induction false} KeyMapsCarry(v: Virtual.VirtualNet, e: Pair, ru: seq<nat>, rv: seq<nat>, req: nat,
                                        src: NodeId, dst: NodeId, ku: seq<Key>, kv: seq<Key>)
    requires Virtual.RateIn(v.links, e.0, e.1) == Some(req) && |ku| == |ru| && |kv| == |rv|
    requires Ungroup.Split(ru, rv, req).Returns?
    ensures var cs := Ungroup.Split(ru, rv, req).value.chunks;
      (forall c :: c in cs ==> c.iu < |ku| && c.iv < |kv|) &&
      Carried(v, e, KeyMaps(cs, src, dst, ku, kv, req))
  {
    Ungroup.SplitConserves(ru, rv, req);
    var cs := Ungroup.Split(ru, rv, req).value.chunks;
    if req > 0 {
      Ungroup.FractionsSumToOne(cs, req);
      assert FractionsOf(KeyMaps(cs, src, dst, ku, kv, req)) == Ungroup.Fractions(cs, req);
    } else {
      assert cs == [];
    }
  }

  /**
   * The body of the grouped build for a link between different machines in
   * the algorithms revision: the path, the residual tables at both ends,
   * the requested rate, then the ungroup loop with interface keys.
   */
  method GroupedKeysLink(v: Virtual.VirtualNet, g: Physical.Network, e: Pair, path: seq<Hop<Key>>, res: map<Pair, seq<nat>>)
    returns (run: Ungroup.Run<(seq<LinkMap<Key>>, map<Pair, seq<nat>>)>)
    requires Aligned(g, res) && ApartEnds(g, path)
    ensures run.Returns? ==> (|path| > 0 && Carried(v, e, run.value.0) && Aligned(g, run.value.1) &&
      forall k :: 0 <= k < |run.value.0| ==> EndsOn(run.value.0[k], path))
    ensures run.Returns? ==> (Stored(g, path[0].src, path[0].dst).Some? &&
      Stored(g, path[|path| - 1].src, path[|path| - 1].dst).Some? &&
      Virtual.RateIn(v.links, e.0, e.1).Some?)
    ensures run.Returns? ==>
      var su, sv := Stored(g, path[0].src, path[0].dst).value, Stored(g, path[|path| - 1].src, path[|path| - 1].dst).value;
      var split := Ungroup.Split(res[su], res[sv], Virtual.RateIn(v.links, e.0, e.1).value);
      split.Returns? && run.value.1 == res[su := split.value.ru][sv := split.value.rv] &&
      (forall c :: c in split.value.chunks ==> c.iu < |res[su]| && c.iv < |res[sv]|) &&
      run.value.0 == KeyMaps(split.value.chunks, path[0].src, path[|path| - 1].dst, Physical.Keys(g.links[su].associated),
                             Physical.Keys(g.links[sv].associated), Virtual.RateIn(v.links, e.0, e.1).value)
    ensures run.Raises? ==> run.error in {IndexError, KeyError, ValueError}
    ensures run.Raises? ==> (run.error == IndexError <==> |path| == 0)
  {
    if |path| == 0 {
      return Ungroup.Raises(IndexError);
    }
    var first, last := path[0], path[|path| - 1];
    var su := Stored(g, first.src, first.dst);
    var sv := Stored(g, last.src, last.dst);
    if su.None? || sv.None? {
      return Ungroup.Raises(KeyError);
    }
    var rate := Virtual.RateIn(v.links, e.0, e.1);
    if rate.None? {
      return Ungroup.Raises(KeyError);
    }
    var ku := Physical.Keys(g.links[su.value].associated);
    var kv := Physical.Keys(g.links[sv.value].associated);
    var out := Ungroup.UngroupLink(res[su.value], res[sv.value], rate.value);
    match out {
      case Raises(err) =>
        return Ungroup.Raises(err);
      case Diverges =>
        return Ungroup.Diverges;
      case Returns(o) =>
        KeyMapsCarry(v, e, res[su.value], res[sv.value], rate.value, first.src, last.dst, ku, kv);
        var ls := KeyMaps(o.chunks, first.src, last.dst, ku, kv, rate.value);
        var res' := res[su.value := o.ru][sv.value := o.rv];
        assert Aligned(g, res');
        forall k | 0 <= k < |ls|
          ensures EndsOn(ls[k], path)
        {
        }
        return Ungroup.Returns((ls, res'));
    }
  }

  /**
   * build_solution in grouped mode, algorithms revision: the virtual links
   * are taken from sorted_edges (in `sorted`, the set's iteration order),
   * not from the routing; entries as in the current library, naming
   * interface keys.
   */
  method BuildGroupedKeys(v: Virtual.VirtualNet, g: Physical.Network, mapping: map<NodeId, NodeId>, routing: Routing,
                          sorted: seq<Pair>)
    returns (run: Ungroup.Run<Embedding<Key>>)
    requires Virtual.Valid(v) && Lists(sorted, Virtual.SortedEdges(v)) && EndsApart(g, mapping, routing)
    ensures run.Returns? ==> run.value.mapping == mapping && run.value.paths == map[]
    ensures run.Returns? ==> SplitBuilt(v, mapping, routing, Virtual.SortedEdges(v), run.value.links)
    ensures run.Raises? ==> run.error in {KeyError, IndexError, ValueError}
  {
    var res := Residuals(g);
    var links: map<Pair, seq<LinkMap<Key>>> := map[];
    ghost var done: set<Pair> := {};
    var i := 0;
    while i < |sorted|
      invariant 0 <= i <= |sorted|
      invariant forall f :: f in done <==> f in sorted[..i]
      invariant Aligned(g, res)
      invariant SplitBuilt(v, mapping, routing, done, links)
    {
      var e := sorted[i];
      if e.0 !in mapping || e.1 !in mapping {
        return Ungroup.Raises(KeyError);
      }
      if mapping[e.0] != mapping[e.1] {
        if e !in routing {
          return Ungroup.Raises(KeyError);
        }
        var out := GroupedKeysLink(v, g, e, routing[e], res);
        match out {
          case Raises(err) =>
            return Ungroup.Raises(err);
          case Diverges =>
            return Ungroup.Diverges;
          case Returns(lr) =>
            SplitBuiltAdd(v, mapping, routing, done, links, e, lr.0);
            links := links[e := lr.0][(e.1, e.0) := Mirrored(lr.0)];
            res := lr.1;
        }
      } else {
        SplitBuiltSkip(v, mapping, routing, done, links, e);
      }
      PrefixGrows(sorted, i);
      done := done + {e};
      i := i + 1;
    }
    assert sorted[..i] == sorted;
    assert done == Virtual.SortedEdges(v);
    return Ungroup.Returns(Embedding(mapping, links, map[]));
  }

  /** The link map of a routed link in ungrouped mode, algorithms revision: first and last hop's device keys. */
  function DirectKeys(path: seq<Hop<Key>>): (r: Result<LinkMap<Key>>)
    ensures r.Err? <==> |path| == 0
    ensures r.Err? ==> r.error == IndexError
    ensures r.Ok? ==> (EndsOn(r.value, path) && r.value.fraction == 1.0 &&
      r.value.sDevice == path[0].device && r.value.dDevice == path[|path| - 1].device)
  {
    if |path| == 0 then Err(IndexError)
    else Ok(LinkMap(path[0].src, path[0].device, path[|path| - 1].dst, path[|path| - 1].device, 1.0))
  }

  /**
   * build_solution in ungrouped mode, algorithms revision: every routed
   * link gets one link map of fraction 1 between the devices of its first
   * and last hop, and its reverse the mirror entry.
   */
  method BuildDirectKeys(mapping: map<NodeId, NodeId>, routing: Routing, pathOrder: seq<Pair>)
    returns (r: Result<Embedding<Key>>)
    requires Enumerates(pathOrder, routing)
    ensures r.Ok? <==> forall e :: e in routing ==> |routing[e]| > 0
    ensures r.Err? ==> r.error == IndexError
    ensures r.Ok? ==> (r.value.mapping == mapping && r.value.paths == map[] &&
      DirectBuilt(routing, routing.Keys, r.value.links))
  {
    var links: map<Pair, seq<LinkMap<Key>>> := map[];
    ghost var done: set<Pair> := {};
    var i := 0;
    while i < |pathOrder|
      invariant 0 <= i <= |pathOrder|
      invariant forall f :: f in done <==> f in pathOrder[..i]
      invariant forall f :: f in done ==> f in routing && |routing[f]| > 0
      invariant DirectBuilt(routing, done, links)
    {
      var e := pathOrder[i];
      assert e in routing;
      var d := DirectKeys(routing[e]);
      if d.Err? {
        return Err(d.error);
      }
      DirectBuiltAdd(routing, done, links, e, d.value);
      links := links[e := [d.value]][(e.1, e.0) := Mirrored([d.value])];
      PrefixGrows(pathOrder, i);
      done := done + {e};
      i := i + 1;
    }
    assert pathOrder[..i] == pathOrder;
    assert done == routing.Keys;
    return Ok(Embedding(mapping, links, map[]));
  }

  /*
   * build_solution, both revisions.
   */

  /**
   * build_solution(virtual, physical, node_mapping, link_path,
   * check_solution), current library: verify_solution first when asked,
   * then the grouped or the ungrouped build.
   */
  method BuildSolution(v: Virtual.VirtualNet, g: Physical.Network, mapping: map<NodeId, NodeId>, order: seq<NodeId>,
                       routing: Routing, pathOrder: seq<Pair>, check: bool)
    returns (run: Ungroup.Run<Embedding<string>>)
    requires Virtual.Valid(v) && Enumerates(order, mapping) && Enumerates(pathOrder, routing)
    requires g.grouped ==> EndsApart(g, mapping, routing)
    ensures check && run.Returns? ==> EmbedVerify.Verified(v, g, mapping, order, routing, pathOrder)
    ensures check && !EmbedVerify.Verified(v, g, mapping, order, routing, pathOrder) ==> run.Raises?
    ensures run.Returns? ==> run.value.mapping == mapping && PathsBuilt(routing, run.value.links, run.value.paths)
    ensures run.Returns? && g.grouped ==> SplitBuilt(v, mapping, routing, routing.Keys, run.value.links)
    ensures run.Returns? && !g.grouped ==> DirectBuilt(routing, routing.Keys, run.value.links)
    ensures !g.grouped && !check ==> (run.Returns? <==> forall e :: e in routing ==> DirectNameable(g, routing[e]))
  {
    if check {
      var verdict := EmbedVerify.VerifySolution(v, g, mapping, order, routing, pathOrder);
      if verdict.Err? {
        return Ungroup.Raises(verdict.error);
      }
    }
    if g.grouped {
      run := BuildGroupedNamed(v, g, mapping, routing, pathOrder);
    } else {
      var r := BuildDirectNamed(g, mapping, routing, pathOrder);
      run := if r.Ok? then Ungroup.Returns(r.value) else Ungroup.Raises(r.error);
    }
  }

  /**
   * build_solution, algorithms revision: verify_solution first when asked,
   * then the grouped build over sorted_edges or the ungrouped build over
   * the routing.
   */
  method BuildSolutionKeys(v: Virtual.VirtualNet, g: Physical.Network, mapping: map<NodeId, NodeId>, order: seq<NodeId>,
                           routing: Routing, pathOrder: seq<Pair>, sorted: seq<Pair>, check: bool)
    returns (run: Ungroup.Run<Embedding<Key>>)
    requires Virtual.Valid(v) && Enumerates(order, mapping) && Enumerates(pathOrder, routing)
    requires Lists(sorted, Virtual.SortedEdges(v))
    requires g.grouped ==> EndsApart(g, mapping, routing)
    ensures check && run.Returns? ==> EmbedVerify.Verified(v, g, mapping, order, routing, pathOrder)
    ensures check && !EmbedVerify.Verified(v, g, mapping, order, routing, pathOrder) ==> run.Raises?
    ensures run.Returns? ==> run.value.mapping == mapping && run.value.paths == map[]
    ensures run.Returns? && g.grouped ==> SplitBuilt(v, mapping, routing, Virtual.SortedEdges(v), run.value.links)
    ensures run.Returns? && !g.grouped ==> DirectBuilt(routing, routing.Keys, run.value.links)
    ensures !g.grouped && !check ==> (run.Returns? <==> forall e :: e in routing ==> |routing[e]| > 0)
  {
    if check {
      var verdict := EmbedVerify.VerifySolution(v, g, mapping, order, routing, pathOrder);
      if verdict.Err? {
        return Ungroup.Raises(verdict.error);
      }
    }
    if g.grouped {
      run := BuildGroupedKeys(v, g, mapping, routing, sorted);
    } else {
      var r := BuildDirectKeys(mapping, routing, pathOrder);
      run := if r.Ok? then Ungroup.Returns(r.value) else Ungroup.Raises(r.error);
    }
  }
}
