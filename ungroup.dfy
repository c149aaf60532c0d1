/**
 * Ungrouping: a virtual link routed over aggregate interfaces is spread
 * over the real interfaces behind the aggregates at both ends. Each step
 * takes the real interface with the highest residual rate on the first
 * link of the path (u's side) and on the last one (v's side), maps as much
 * of the remaining request as both can carry, and takes that amount off
 * both residuals. The fraction of the request carried by a step is
 * recorded with it.
 *
 * Residual rates of one side are a sequence aligned with the associated
 * interfaces of that link, in their enumeration order. The source's
 * `while` loop does not end once a side is exhausted while rate remains to
 * be mapped; the model reports that as `Diverges`.
 */
module Ungroup {
  import opened Common

  /** How a loop of the source ends: with a value, with an exception, or not at all. */
  datatype Run<T> = Returns(value: T) | Raises(error: Error) | Diverges

  /** One step: the interfaces chosen on each side and the rate mapped on them. */
  datatype Chunk = Chunk(iu: nat, iv: nat, amount: nat)

  /** The chunks of a link, and the residual rates of both sides afterwards. */
  datatype Outcome = Outcome(chunks: seq<Chunk>, ru: seq<nat>, rv: seq<nat>)

  function Sum(r: seq<nat>): nat
  {
    if |r| == 0 then 0 else Sum(r[..|r| - 1]) + r[|r| - 1]
  }

  function Min(a: nat, b: nat): nat
  {
    if a <= b then a else b
  }

  /** max(interfaces, key=interfaces.get): the first interface of highest residual. */
  function ArgMax(r: seq<nat>): (k: nat)
    requires |r| > 0
    ensures k < |r|
    ensures forall l :: 0 <= l < |r| ==> r[l] <= r[k]
    ensures forall l :: 0 <= l < k ==> r[l] < r[k]
  {
    if |r| == 1 then 0
    else
      var k := ArgMax(r[..|r| - 1]);
      if r[|r| - 1] > r[k] then |r| - 1 else k
  }

  /** The residuals after m was taken from interface k. */
  function Take(r: seq<nat>, k: nat, m: nat): (r': seq<nat>)
    requires k < |r| && m <= r[k]
    ensures |r'| == |r|
  {
    r[k := r[k] - m]
  }

  /** The chunks put in front of whatever a later part of the loop produces. */
  function Prepend(cs: seq<Chunk>, run: Run<Outcome>): Run<Outcome>
  {
    match run
    case Returns(o) => Returns(Outcome(cs + o.chunks, o.ru, o.rv))
    case Raises(e) => Raises(e)
    case Diverges => Diverges
  }

  /**
   * The ungroup loop of the current library and of the algorithms revision:
   * map min(to_be_mapped, best residual on u's side, best on v's side) until
   * nothing remains. An empty side makes max() raise ValueError.
   */
  function Split(ru: seq<nat>, rv: seq<nat>, tbm: nat): (run: Run<Outcome>)
    ensures run.Returns? ==> |run.value.ru| == |ru| && |run.value.rv| == |rv|
    ensures run.Raises? ==> run.error == ValueError
    decreases tbm
  {
    if tbm == 0 then Returns(Outcome([], ru, rv))
    else if |ru| == 0 || |rv| == 0 then Raises(ValueError)
    else
      var a, b := ArgMax(ru), ArgMax(rv);
      var m := Min(tbm, Min(ru[a], rv[b]));
      if m == 0 then Diverges
      else Prepend([Chunk(a, b, m)], Split(Take(ru, a, m), Take(rv, b, m), tbm - m))
  }

  /** Total rate of a list of chunks. */
  function Amounts(cs: seq<Chunk>): nat
  {
    if |cs| == 0 then 0 else Amounts(cs[..|cs| - 1]) + cs[|cs| - 1].amount
  }

  /** Rate the chunks took from interface k of u's side (left) or of v's side. */
  function TakenFrom(cs: seq<Chunk>, k: nat, left: bool): nat
  {
    if |cs| == 0 then 0
    else
      var c := cs[0];
      (if (if left then c.iu else c.iv) == k then c.amount else 0) + TakenFrom(cs[1..], k, left)
  }

  /** The fraction of the request each chunk carries: mapped / requested. */
  function Fractions(cs: seq<Chunk>, req: nat): (fs: seq<real>)
    requires req > 0
    ensures |fs| == |cs| && forall i :: 0 <= i < |cs| ==> fs[i] == cs[i].amount as real / req as real
  {
    seq(|cs|, i requires 0 <= i < |cs| => cs[i].amount as real / req as real)
  }

  /*
   * Facts about residual sums.
   */

  lemma {:induction false} SumUpdate(r: seq<nat>, k: nat, x: nat)
    requires k < |r|
    ensures Sum(r[k := x]) + r[k] == Sum(r) + x
    decreases |r|
  {
    var n := |r| - 1;
    if k < n {
      assert r[k := x][..n] == r[..n][k := x];
      SumUpdate(r[..n], k, x);
    } else {
      assert r[k := x][..n] == r[..n];
    }
  }

  lemma {:induction false} ElementBelowSum(r: seq<nat>, k: nat)
    requires k < |r|
    ensures r[k] <= Sum(r)
    decreases |r|
  {
    if k < |r| - 1 {
      ElementBelowSum(r[..|r| - 1], k);
    }
  }

  /** A side whose best residual is 0 has nothing left. */
  lemma {:induction false} ZeroMaxZeroSum(r: seq<nat>)
    requires forall l :: 0 <= l < |r| ==> r[l] == 0
    ensures Sum(r) == 0
  {
    if |r| > 0 {
      ZeroMaxZeroSum(r[..|r| - 1]);
    }
  }

  /**
   * The loop ends with a mapping exactly when both sides together offer
   * at least the requested rate (or nothing is requested).
   */
  lemma {:induction false} SplitReturns(ru: seq<nat>, rv: seq<nat>, tbm: nat)
    ensures Split(ru, rv, tbm).Returns? <==> tbm == 0 || (Sum(ru) >= tbm && Sum(rv) >= tbm)
    decreases tbm
  {
    if tbm > 0 && |ru| > 0 && |rv| > 0 {
      var a, b := ArgMax(ru), ArgMax(rv);
      var m := Min(tbm, Min(ru[a], rv[b]));
      if m == 0 {
        assert Split(ru, rv, tbm) == Diverges;
        if ru[a] == 0 {
          ZeroMaxZeroSum(ru);
        } else {
          ZeroMaxZeroSum(rv);
        }
      } else {
        var ru', rv' := Take(ru, a, m), Take(rv, b, m);
        assert Split(ru, rv, tbm) == Prepend([Chunk(a, b, m)], Split(ru', rv', tbm - m));
        StepSums(ru, a, m, tbm);
        StepSums(rv, b, m, tbm);
        SplitReturns(ru', rv', tbm - m);
      }
    }
  }

  /** Taking m (at most what is left to map) from interface k keeps "enough rate" unchanged. */
  lemma StepSums(r: seq<nat>, k: nat, m: nat, tbm: nat)
    requires k < |r| && 0 < m <= r[k] && m <= tbm
    ensures (Sum(r) >= tbm) <==> m == tbm || Sum(Take(r, k, m)) >= tbm - m
  {
    SumUpdate(r, k, r[k] - m);
    ElementBelowSum(r, k);
  }

  /** max() of an empty side is the only way the loop raises. */
  lemma {:induction false} SplitRaises(ru: seq<nat>, rv: seq<nat>, tbm: nat)
    ensures Split(ru, rv, tbm).Raises? <==> tbm > 0 && (|ru| == 0 || |rv| == 0)
    decreases tbm
  {
    if tbm > 0 && |ru| > 0 && |rv| > 0 {
      var a, b := ArgMax(ru), ArgMax(rv);
      var m := Min(tbm, Min(ru[a], rv[b]));
      if m > 0 {
        SplitRaises(Take(ru, a, m), Take(rv, b, m), tbm - m);
      }
    }
  }

  /**
   * What a finished loop did: the chunks carry exactly the request, each
   * is positive and names a real interface of each side, and every
   * interface's residual went down by exactly what the chunks took from it.
   */
  ghost predicate Conserves(ru: seq<nat>, rv: seq<nat>, tbm: nat, o: Outcome)
  {
    Amounts(o.chunks) == tbm &&
    (forall c :: c in o.chunks ==> c.iu < |ru| && c.iv < |rv| && c.amount > 0) &&
    |o.ru| == |ru| && |o.rv| == |rv| &&
    (forall k :: 0 <= k < |ru| ==> o.ru[k] + TakenFrom(o.chunks, k, true) == ru[k]) &&
    (forall k :: 0 <= k < |rv| ==> o.rv[k] + TakenFrom(o.chunks, k, false) == rv[k])
  }

  lemma SplitConserves(ru: seq<nat>, rv: seq<nat>, tbm: nat)
    requires Split(ru, rv, tbm).Returns?
    ensures Conserves(ru, rv, tbm, Split(ru, rv, tbm).value)
  {
    SplitAmounts(ru, rv, tbm);
    SplitTaken(ru, rv, tbm);
  }

  /** No interface ends with more residual rate than it started with. */
  lemma SplitShrinks(ru: seq<nat>, rv: seq<nat>, tbm: nat)
    requires Split(ru, rv, tbm).Returns?
    ensures var o := Split(ru, rv, tbm).value;
      |o.ru| == |ru| && (forall k :: 0 <= k < |ru| ==> o.ru[k] <= ru[k]) &&
      |o.rv| == |rv| && (forall k :: 0 <= k < |rv| ==> o.rv[k] <= rv[k])
  {
    SplitTaken(ru, rv, tbm);
  }

  /** The chunks carry exactly the request, and each is positive and names a real interface of each side. */
  lemma {:induction false} SplitAmounts(ru: seq<nat>, rv: seq<nat>, tbm: nat)
    requires Split(ru, rv, tbm).Returns?
    ensures var o := Split(ru, rv, tbm).value;
      Amounts(o.chunks) == tbm && forall c :: c in o.chunks ==> c.iu < |ru| && c.iv < |rv| && c.amount > 0
    decreases tbm
  {
    if tbm > 0 {
      var a, b := ArgMax(ru), ArgMax(rv);
      var m := Min(tbm, Min(ru[a], rv[b]));
      var ru', rv' := Take(ru, a, m), Take(rv, b, m);
      SplitAmounts(ru', rv', tbm - m);
      var rest := Split(ru', rv', tbm - m).value.chunks;
      assert Split(ru, rv, tbm).value.chunks == [Chunk(a, b, m)] + rest;
      AmountsCons(Chunk(a, b, m), rest);
    }
  }

  /** Every interface's residual went down by exactly what the chunks took from it. */
  lemma {:induction false} SplitTaken(ru: seq<nat>, rv: seq<nat>, tbm: nat)
    requires Split(ru, rv, tbm).Returns?
    ensures var o := Split(ru, rv, tbm).value;
      (forall k :: 0 <= k < |ru| ==> o.ru[k] + TakenFrom(o.chunks, k, true) == ru[k]) &&
      (forall k :: 0 <= k < |rv| ==> o.rv[k] + TakenFrom(o.chunks, k, false) == rv[k])
    decreases tbm
  {
    if tbm > 0 {
      var a, b := ArgMax(ru), ArgMax(rv);
      var m := Min(tbm, Min(ru[a], rv[b]));
      var ru', rv' := Take(ru, a, m), Take(rv, b, m);
      SplitTaken(ru', rv', tbm - m);
      var rest := Split(ru', rv', tbm - m).value;
      var cs := [Chunk(a, b, m)] + rest.chunks;
      assert Split(ru, rv, tbm).value == Outcome(cs, rest.ru, rest.rv);
      assert cs[1..] == rest.chunks;
      forall k | 0 <= k < |ru|
        ensures rest.ru[k] + TakenFrom(cs, k, true) == ru[k]
      {
        assert TakenFrom(cs, k, true) == (if a == k then m else 0) + TakenFrom(rest.chunks, k, true);
      }
      forall k | 0 <= k < |rv|
        ensures rest.rv[k] + TakenFrom(cs, k, false) == rv[k]
      {
        assert TakenFrom(cs, k, false) == (if b == k then m else 0) + TakenFrom(rest.chunks, k, false);
      }
    }
  }

  lemma {:induction false} AmountsCons(c: Chunk, cs: seq<Chunk>)
    ensures Amounts([c] + cs) == c.amount + Amounts(cs)
    decreases |cs|
  {
    if |cs| == 0 {
      assert [c] + cs == [c];
      assert [c][..0] == [];
    } else {
      var n := |cs| - 1;
      assert ([c] + cs)[..n + 1] == [c] + cs[..n];
      AmountsCons(c, cs[..n]);
    }
  }

  /** Fractions of chunks that carry the whole request add up to 1. */
  lemma {:induction false} FractionsSumToOne(cs: seq<Chunk>, req: nat)
    requires req > 0 && Amounts(cs) == req
    ensures SumReal(Fractions(cs, req)) == 1.0
  {
    FractionsSum(cs, req);
    DivSelf(req as real);
  }

  lemma DivSelf(x: real)
    requires x > 0.0
    ensures x / x == 1.0
  {
  }

  lemma {:induction false} FractionsSum(cs: seq<Chunk>, req: nat)
    requires req > 0
    ensures SumReal(Fractions(cs, req)) == Amounts(cs) as real / req as real
    decreases |cs|
  {
    if |cs| > 0 {
      var n := |cs| - 1;
      var fs := Fractions(cs, req);
      assert fs[..n] == Fractions(cs[..n], req);
      assert SumReal(fs) == SumReal(Fractions(cs[..n], req)) + cs[n].amount as real / req as real;
      FractionsSum(cs[..n], req);
      DivAdd(Amounts(cs[..n]) as real, cs[n].amount as real, req as real);
    }
  }

  lemma DivAdd(x: real, y: real, d: real)
    requires d > 0.0
    ensures x / d + y / d == (x + y) / d
  {
  }

  /** The loop written out, returning what it would leave behind. */
  method UngroupLink(ru0: seq<nat>, rv0: seq<nat>, req: nat) returns (run: Run<Outcome>)
    ensures run == Split(ru0, rv0, req)
  {
    var ru, rv, tbm := ru0, rv0, req;
    var chunks: seq<Chunk> := [];
    PrependNothing(Split(ru, rv, tbm));
    while tbm > 0
      invariant Split(ru0, rv0, req) == Prepend(chunks, Split(ru, rv, tbm))
      decreases tbm
    {
      if |ru| == 0 || |rv| == 0 {
        assert Split(ru, rv, tbm) == Raises(ValueError);
        return Raises(ValueError);
      }
      var a := ArgMax(ru);
      var b := ArgMax(rv);
      var m := Min(tbm, Min(ru[a], rv[b]));
      if m == 0 {
        assert Split(ru, rv, tbm) == Diverges;
        return Diverges;
      }
      SplitStep(ru, rv, tbm, chunks, a, b, m);
      chunks := chunks + [Chunk(a, b, m)];
      ru := Take(ru, a, m);
      rv := Take(rv, b, m);
      tbm := tbm - m;
    }
    assert chunks + [] == chunks;
    run := Returns(Outcome(chunks, ru, rv));
  }

  /** One turn of the loop: the chunk it records goes after those already recorded. */
  lemma SplitStep(ru: seq<nat>, rv: seq<nat>, tbm: nat, chunks: seq<Chunk>, a: nat, b: nat, m: nat)
    requires tbm > 0 && |ru| > 0 && |rv| > 0
    requires a == ArgMax(ru) && b == ArgMax(rv) && m == Min(tbm, Min(ru[a], rv[b])) && m > 0
    ensures Prepend(chunks, Split(ru, rv, tbm)) ==
            Prepend(chunks + [Chunk(a, b, m)], Split(Take(ru, a, m), Take(rv, b, m), tbm - m))
  {
    PrependTwice(chunks, [Chunk(a, b, m)], Split(Take(ru, a, m), Take(rv, b, m), tbm - m));
  }

  lemma PrependNothing(run: Run<Outcome>)
    ensures Prepend([], run) == run
  {
    if run.Returns? {
      assert [] + run.value.chunks == run.value.chunks;
    }
  }

  lemma PrependTwice(a: seq<Chunk>, b: seq<Chunk>, run: Run<Outcome>)
    ensures Prepend(a, Prepend(b, run)) == Prepend(a + b, run)
  {
    if run.Returns? {
      assert a + (b + run.value.chunks) == (a + b) + run.value.chunks;
    }
  }

  /*
   * The grid5000 revision caps each step by the original request instead
   * of by what remains to be mapped.
   */

  /** map_to_multiple_interfaces of the grid5000 revision: min(requested_rate, ...) per step. */
  function SplitCapped(ru: seq<nat>, rv: seq<nat>, tbm: int, req: nat): (run: Run<Outcome>)
    ensures run.Returns? ==> |run.value.ru| == |ru| && |run.value.rv| == |rv|
    decreases if tbm > 0 then tbm else 0
  {
    if tbm <= 0 then Returns(Outcome([], ru, rv))
    else if |ru| == 0 || |rv| == 0 then Raises(ValueError)
    else
      var a, b := ArgMax(ru), ArgMax(rv);
      var m := Min(req, Min(ru[a], rv[b]));
      if m == 0 then Diverges
      else Prepend([Chunk(a, b, m)], SplitCapped(Take(ru, a, m), Take(rv, b, m), tbm - m, req))
  }

  /**
   * A request of 10 over two interfaces of 6 on each side: the second step
   * maps 6 again, so 12 is mapped and the fractions add up to 1.2, which
   * the revision's own verifier rejects. The current split maps 6 and 4.
   */
  lemma CappedOvershoots()
    ensures SplitCapped([6, 6], [6, 6], 10, 10) ==
      Returns(Outcome([Chunk(0, 0, 6), Chunk(1, 1, 6)], [0, 0], [0, 0]))
    ensures SumReal(Fractions([Chunk(0, 0, 6), Chunk(1, 1, 6)], 10)) == 1.2
    ensures Split([6, 6], [6, 6], 10) == Returns(Outcome([Chunk(0, 0, 6), Chunk(1, 1, 4)], [0, 2], [0, 2]))
  {
    assert ArgMax([6, 6]) == 0;
    assert ArgMax([0, 6]) == 1;
    assert [6, 6][0 := 6 - 6] == [0, 6];
    assert [0, 6][1 := 6 - 6] == [0, 0];
    assert [0, 6][1 := 6 - 4] == [0, 2];
    var last := SplitCapped([0, 0], [0, 0], -2, 10);
    assert last == Returns(Outcome([], [0, 0], [0, 0]));
    assert SplitCapped([0, 6], [0, 6], 4, 10) == Prepend([Chunk(1, 1, 6)], last);
    assert [Chunk(1, 1, 6)] + [] == [Chunk(1, 1, 6)];
    assert SplitCapped([0, 6], [0, 6], 4, 10) == Returns(Outcome([Chunk(1, 1, 6)], [0, 0], [0, 0]));
    assert SplitCapped([6, 6], [6, 6], 10, 10) == Prepend([Chunk(0, 0, 6)], SplitCapped([0, 6], [0, 6], 4, 10));
    assert [Chunk(0, 0, 6)] + [Chunk(1, 1, 6)] == [Chunk(0, 0, 6), Chunk(1, 1, 6)];
    var done := Split([0, 2], [0, 2], 0);
    assert done == Returns(Outcome([], [0, 2], [0, 2]));
    assert Split([0, 6], [0, 6], 4) == Prepend([Chunk(1, 1, 4)], done);
    assert [Chunk(1, 1, 4)] + [] == [Chunk(1, 1, 4)];
    assert Split([0, 6], [0, 6], 4) == Returns(Outcome([Chunk(1, 1, 4)], [0, 2], [0, 2]));
    assert Split([6, 6], [6, 6], 10) == Prepend([Chunk(0, 0, 6)], Split([0, 6], [0, 6], 4));
    assert [Chunk(0, 0, 6)] + [Chunk(1, 1, 4)] == [Chunk(0, 0, 6), Chunk(1, 1, 4)];
    var fs := Fractions([Chunk(0, 0, 6), Chunk(1, 1, 6)], 10);
    assert fs[..1][..0] == [];
    assert fs[..1] == [0.6];
  }

  /**
   * The capped split maps at least what was asked and overshoots by less
   * than one request: every chunk is positive and at most `req`.
   */
  lemma {:induction false} CappedCovers(ru: seq<nat>, rv: seq<nat>, tbm: int, req: nat)
    requires SplitCapped(ru, rv, tbm, req).Returns?
    ensures var cs := SplitCapped(ru, rv, tbm, req).value.chunks;
      Amounts(cs) >= tbm && (tbm > 0 ==> Amounts(cs) < tbm + req) &&
      (forall c :: c in cs ==> 0 < c.amount <= req)
    decreases if tbm > 0 then tbm else 0
  {
    if tbm > 0 {
      assert |ru| > 0 && |rv| > 0;
      var a, b := ArgMax(ru), ArgMax(rv);
      var m := Min(req, Min(ru[a], rv[b]));
      assert m > 0;
      var rest := SplitCapped(Take(ru, a, m), Take(rv, b, m), tbm - m, req);
      assert SplitCapped(ru, rv, tbm, req) == Prepend([Chunk(a, b, m)], rest);
      assert rest.Returns?;
      var cs := [Chunk(a, b, m)] + rest.value.chunks;
      assert SplitCapped(ru, rv, tbm, req).value.chunks == cs;
      CappedCovers(Take(ru, a, m), Take(rv, b, m), tbm - m, req);
      AmountsCons(Chunk(a, b, m), rest.value.chunks);
      assert forall c :: c in cs ==> c == Chunk(a, b, m) || c in rest.value.chunks;
    }
  }

  /** With the request capped per step, the fractions of a link add up to at least 1. */
  lemma CappedFractions(ru: seq<nat>, rv: seq<nat>, req: nat)
    requires req > 0 && SplitCapped(ru, rv, req, req).Returns?
    ensures var s := SumReal(Fractions(SplitCapped(ru, rv, req, req).value.chunks, req));
      1.0 <= s < 2.0
  {
    var cs := SplitCapped(ru, rv, req, req).value.chunks;
    CappedCovers(ru, rv, req, req);
    FractionsSum(cs, req);
    QuotientBetween(Amounts(cs) as real, req as real);
  }

  lemma QuotientBetween(x: real, d: real)
    requires d > 0.0 && d <= x < 2.0 * d
    ensures 1.0 <= x / d < 2.0
  {
    var q := x / d;
    assert q * d == x;
    assert (2.0 - q) * d == 2.0 * d - x;
    assert (q - 1.0) * d == x - d;
    FactorPositive(2.0 - q, d);
    FactorNonNegative(q - 1.0, d);
  }

  lemma FactorPositive(a: real, d: real)
    requires d > 0.0 && a * d > 0.0
    ensures a > 0.0
  {
  }

  lemma FactorNonNegative(a: real, d: real)
    requires d > 0.0 && a * d >= 0.0
    ensures a >= 0.0
  {
  }

  /**
   * The capped split only names real interfaces and never raises a
   * residual.
   */
  lemma {:induction false} CappedShrinks(ru: seq<nat>, rv: seq<nat>, tbm: int, req: nat)
    requires SplitCapped(ru, rv, tbm, req).Returns?
    ensures var o := SplitCapped(ru, rv, tbm, req).value;
      (forall c :: c in o.chunks ==> c.iu < |ru| && c.iv < |rv|) &&
      (forall k :: 0 <= k < |ru| ==> o.ru[k] <= ru[k]) &&
      (forall k :: 0 <= k < |rv| ==> o.rv[k] <= rv[k])
    decreases if tbm > 0 then tbm else 0
  {
    if tbm > 0 {
      var a, b := ArgMax(ru), ArgMax(rv);
      var m := Min(req, Min(ru[a], rv[b]));
      var ru', rv' := Take(ru, a, m), Take(rv, b, m);
      var rest := SplitCapped(ru', rv', tbm - m, req);
      assert SplitCapped(ru, rv, tbm, req) == Prepend([Chunk(a, b, m)], rest);
      CappedShrinks(ru', rv', tbm - m, req);
      var cs := [Chunk(a, b, m)] + rest.value.chunks;
      assert forall c :: c in cs ==> c == Chunk(a, b, m) || c in rest.value.chunks;
    }
  }

  /** One turn of the capped loop. */
  lemma CappedStep(ru: seq<nat>, rv: seq<nat>, tbm: int, req: nat, chunks: seq<Chunk>)
    requires tbm > 0 && |ru| > 0 && |rv| > 0
    requires Min(req, Min(ru[ArgMax(ru)], rv[ArgMax(rv)])) > 0
    ensures var a, b := ArgMax(ru), ArgMax(rv);
      var m := Min(req, Min(ru[a], rv[b]));
      Prepend(chunks, SplitCapped(ru, rv, tbm, req)) ==
      Prepend(chunks + [Chunk(a, b, m)], SplitCapped(Take(ru, a, m), Take(rv, b, m), tbm - m, req))
  {
    var a, b := ArgMax(ru), ArgMax(rv);
    var m := Min(req, Min(ru[a], rv[b]));
    PrependTwice(chunks, [Chunk(a, b, m)], SplitCapped(Take(ru, a, m), Take(rv, b, m), tbm - m, req));
  }

  /** The grid5000 loop written out: to_be_mapped may end below 0. */
  method UngroupCapped(ru0: seq<nat>, rv0: seq<nat>, req: nat) returns (run: Run<Outcome>)
    ensures run == SplitCapped(ru0, rv0, req, req)
  {
    ghost var whole := SplitCapped(ru0, rv0, req, req);
    var ru, rv := ru0, rv0;
    var tbm: int := req;
    var chunks: seq<Chunk> := [];
    PrependNothing(whole);
    while tbm > 0
      invariant whole == Prepend(chunks, SplitCapped(ru, rv, tbm, req))
      decreases tbm
    {
      if |ru| == 0 || |rv| == 0 {
        assert SplitCapped(ru, rv, tbm, req) == Raises(ValueError);
        return Raises(ValueError);
      }
      var a, b := ArgMax(ru), ArgMax(rv);
      var m := Min(req, Min(ru[a], rv[b]));
      if m == 0 {
        assert SplitCapped(ru, rv, tbm, req) == Diverges;
        return Diverges;
      }
      ru, rv, tbm, chunks := CappedAdvance(whole, ru, rv, tbm, req, chunks);
    }
    assert SplitCapped(ru, rv, tbm, req) == Returns(Outcome([], ru, rv));
    assert chunks + [] == chunks;
    run := Returns(Outcome(chunks, ru, rv));
  }
  /** The body of the capped loop: record the chunk and take it from both sides and from the request. */
  method CappedAdvance(ghost whole: Run<Outcome>, ru: seq<nat>, rv: seq<nat>, tbm: int, req: nat, chunks: seq<Chunk>)
    returns (ru': seq<nat>, rv': seq<nat>, tbm': int, chunks': seq<Chunk>)
    requires tbm > 0 && |ru| > 0 && |rv| > 0 && Min(req, Min(ru[ArgMax(ru)], rv[ArgMax(rv)])) > 0
    requires whole == Prepend(chunks, SplitCapped(ru, rv, tbm, req))
    ensures whole == Prepend(chunks', SplitCapped(ru', rv', tbm', req)) && tbm' < tbm
  {
    var a, b := ArgMax(ru), ArgMax(rv);
    var m := Min(req, Min(ru[a], rv[b]));
    CappedStep(ru, rv, tbm, req, chunks);
    chunks' := chunks + [Chunk(a, b, m)];
    tbm' := tbm - m;
    ru' := Take(ru, a, m);
    rv' := Take(rv, b, m);
  }



  /*
   * The root revision maps the same chunks as the current one but divides
   * each by the rate still to be mapped before that step.
   */

  /** The root revision's fractions: each chunk over the remaining request. */
  function RemainingFractions(cs: seq<Chunk>, remaining: nat): (fs: seq<real>)
    requires Amounts(cs) == remaining
    requires forall c :: c in cs ==> c.amount > 0
    ensures |fs| == |cs|
    decreases |cs|
  {
    if |cs| == 0 then []
    else
      AmountsCons(cs[0], cs[1..]);
      assert [cs[0]] + cs[1..] == cs;
      [cs[0].amount as real / remaining as real] + RemainingFractions(cs[1..], remaining - cs[0].amount)
  }

  /**
   * The last step of the root revision always records fraction 1 (it maps
   * all that remains), so as soon as a link needs two steps its fractions
   * add up to more than 1.
   */
  lemma {:induction false} RemainingFractionsExceedOne(cs: seq<Chunk>, remaining: nat)
    requires Amounts(cs) == remaining && |cs| >= 2
    requires forall c :: c in cs ==> c.amount > 0
    ensures SumReal(RemainingFractions(cs, remaining)) > 1.0
    decreases |cs|
  {
    AmountsCons(cs[0], cs[1..]);
    assert [cs[0]] + cs[1..] == cs;
    var rest := cs[1..];
    var left := remaining - cs[0].amount;
    var head := cs[0].amount as real / remaining as real;
    assert RemainingFractions(cs, remaining) == [head] + RemainingFractions(rest, left);
    SumRealCons(head, RemainingFractions(rest, left));
    if |rest| >= 2 {
      RemainingFractionsExceedOne(rest, left);
    } else {
      LastFractionIsOne(rest, left);
    }
  }

  /** A single chunk that carries all that remains is recorded with fraction 1. */
  lemma LastFractionIsOne(cs: seq<Chunk>, remaining: nat)
    requires Amounts(cs) == remaining && |cs| == 1
    requires forall c :: c in cs ==> c.amount > 0
    ensures SumReal(RemainingFractions(cs, remaining)) == 1.0
  {
    AmountsCons(cs[0], cs[1..]);
    assert cs[1..] == [];
    assert [cs[0]] + cs[1..] == cs;
    var r := remaining as real;
    assert cs[0].amount as real == r;
    var fs := RemainingFractions(cs, remaining);
    assert fs == [r / r];
    assert fs[..0] == [];
  }

  lemma {:induction false} SumRealCons(x: real, s: seq<real>)
    ensures SumReal([x] + s) == x + SumReal(s)
    decreases |s|
  {
    if |s| == 0 {
      assert [x] + s == [x];
      assert [x][..0] == [];
    } else {
      var n := |s| - 1;
      assert ([x] + s)[..n + 1] == [x] + s[..n];
      SumRealCons(x, s[..n]);
    }
  }

  /** The root revision's fractions for a request of 10 over two interfaces of 6: 0.6 and 1.0. */
  lemma RemainingFractionsExample()
    ensures Split([6, 6], [6, 6], 10).Returns?
    ensures var cs := Split([6, 6], [6, 6], 10).value.chunks;
      Amounts(cs) == 10 && (forall c :: c in cs ==> c.amount > 0) && RemainingFractions(cs, 10) == [0.6, 1.0]
  {
    CappedOvershoots();
    var cs := [Chunk(0, 0, 6), Chunk(1, 1, 4)];
    assert cs[..1] == [Chunk(0, 0, 6)] && cs[..1][..0] == [];
    assert cs[1..] == [Chunk(1, 1, 4)] && cs[1..][1..] == [];
  }
}
