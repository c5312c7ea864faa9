/**
 Parlay arithmetic: conversion between American and decimal odds, the combined
 decimal odds of several legs, and the payout of a stake at given decimal odds.
 Odds are exact rationals; `Math.round` is `JsNum.Round`.
 */
module Parlay {
  import opened JsNum

  /**
   `americanToDecimal` on its mathematical domain. Positive odds `a` pay `a` per 100
   staked, negative odds `a` need `|a|` staked to win 100; the returned multiplier
   `d` is the total return per unit staked, so it exceeds 1.
   At `a = 0` the negative branch divides by zero, so 0 lies outside the domain.
   */
  function AmericanToDecimal(american: real): (d: real)
    requires american != 0.0
    ensures d > 1.0
    ensures american > 0.0 ==> (d - 1.0) * 100.0 == american
    ensures american < 0.0 ==> (d - 1.0) * -american == 100.0
  {
    if american > 0.0 then american / 100.0 + 1.0 else 100.0 / Abs(american) + 1.0
  }

  /**
   The same expression evaluated on every JavaScript number, as the callers that
   do not exclude 0 (or NaN) reach it: `100 / |0|` is `Infinity`, NaN propagates,
   and `100 / |-Infinity|` is 0.
   */
  function AmericanToDecimalJs(american: Num): (d: Num)
    ensures american.Finite? && american.v != 0.0 ==> d == Finite(AmericanToDecimal(american.v))
    ensures american == Finite(0.0) ==> d == Inf(false)
    ensures american.NaN? ==> d.NaN?
  {
    match american
    case NaN => NaN
    case Inf(negative) => if negative then Finite(1.0) else Inf(false)
    case Finite(a) =>
      if a > 0.0 then Finite(a / 100.0 + 1.0)
      else if a == 0.0 then Inf(false)
      else Finite(100.0 / Abs(a) + 1.0)
  }

  /**
   `decimalToAmerican`: at or above even money (2.0) the profit per 100 staked,
   below it the (negative) stake needed to win 100, each rounded.
   */
  function DecimalToAmerican(decimal: real): (american: int)
    requires decimal != 1.0
    ensures decimal >= 2.0 ==> american >= 100
    ensures 1.0 < decimal < 2.0 ==> american <= -100
  {
    if decimal >= 2.0 then Round((decimal - 1.0) * 100.0)
    else
      assert 1.0 < decimal < 2.0 ==> -100.0 / (decimal - 1.0) < -100.0;
      Round(-100.0 / (decimal - 1.0))
  }

  /**
   Converting whole American odds to decimal and back returns them whenever
   `|a| >= 100`, except that -100 (even money) comes back as +100.
   */
  lemma DecimalAmericanRoundTrip(a: int)
    requires a >= 100 || a <= -100
    ensures DecimalToAmerican(AmericanToDecimal(a as real)) == (if a == -100 then 100 else a)
  {
    var d := AmericanToDecimal(a as real);
    if a >= 100 {
      assert (d - 1.0) * 100.0 == a as real;
      RoundOfInt(a);
    } else if a == -100 {
      assert d == 2.0;
      RoundOfInt(100);
    } else {
      assert d < 2.0;
      assert -100.0 / (d - 1.0) == a as real;
      RoundOfInt(a);
    }
  }

  /** Inside (-100, 100) the round trip is lossy: +50 comes back as -200. */
  lemma DecimalAmericanRoundTripLossy()
    ensures DecimalToAmerican(AmericanToDecimal(50.0)) == -200
  {
    assert AmericanToDecimal(50.0) == 1.5;
    assert -100.0 / (1.5 - 1.0) == -200.0;
    RoundOfInt(-200);
  }

  /** `parlayDecimal`: `reduce((acc, odds) => acc * odds, 1)`, a left fold from 1. */
  function ParlayDecimal(odds: seq<real>): real
  {
    if |odds| == 0 then 1.0 else ParlayDecimal(odds[..|odds| - 1]) * odds[|odds| - 1]
  }

  lemma ParlayOfNone()
    ensures ParlayDecimal([]) == 1.0
  {
  }

  lemma ParlayOfOne(x: real)
    ensures ParlayDecimal([x]) == x
  {
    assert [x][..0] == [];
  }

  lemma ParlayAppend(odds: seq<real>, x: real)
    ensures ParlayDecimal(odds + [x]) == ParlayDecimal(odds) * x
  {
    assert (odds + [x])[..|odds|] == odds;
  }

  lemma {:induction false} ParlayConcat(a: seq<real>, b: seq<real>)
    ensures ParlayDecimal(a + b) == ParlayDecimal(a) * ParlayDecimal(b)
    decreases |b|
  {
    if |b| == 0 {
      assert a + b == a;
    } else {
      var b' := b[..|b| - 1];
      var x := b[|b| - 1];
      assert b == b' + [x];
      assert a + b == (a + b') + [x];
      ParlayAppend(a + b', x);
      ParlayConcat(a, b');
      ParlayAppend(b', x);
    }
  }

  lemma Rearrange(p: real, x: real, q: real)
    ensures (p * x) * q == (p * q) * x
  {
  }

  lemma {:induction false} ParlayExtractParts(pre: seq<real>, x: real, post: seq<real>)
    ensures ParlayDecimal(pre + [x] + post) == ParlayDecimal(pre + post) * x
  {
    var p, q := ParlayDecimal(pre), ParlayDecimal(post);
    assert ParlayDecimal(pre + [x] + post) == (p * x) * q by {
      ParlayConcat(pre + [x], post);
      ParlayAppend(pre, x);
    }
    assert ParlayDecimal(pre + post) == p * q by {
      ParlayConcat(pre, post);
    }
    Rearrange(p, x, q);
  }

  /** Taking one leg out of the product divides it by that leg's odds. */
  lemma {:induction false} ParlayExtract(b: seq<real>, i: int)
    requires 0 <= i < |b|
    ensures ParlayDecimal(b) == ParlayDecimal(b[..i] + b[i + 1..]) * b[i]
  {
    assert b == b[..i] + [b[i]] + b[i + 1..];
    ParlayExtractParts(b[..i], b[i], b[i + 1..]);
  }

  lemma SameProduct(p: real, q: real, x: real, y: real)
    requires p == q && x == y
    ensures p * x == q * y
  {
  }

  lemma MultisetRemoveAt(b: seq<real>, i: int)
    requires 0 <= i < |b|
    ensures multiset(b[..i] + b[i + 1..]) == multiset(b) - multiset{b[i]}
  {
    assert b == b[..i] + [b[i]] + b[i + 1..];
  }

  /** The combined odds do not depend on the order of the legs. */
  lemma {:induction false} ParlayPermutation(a: seq<real>, b: seq<real>)
    requires multiset(a) == multiset(b)
    ensures ParlayDecimal(a) == ParlayDecimal(b)
    decreases |a|
  {
    if |a| == 0 {
      assert |b| == |multiset(b)| == 0;
    } else {
      var n := |a| - 1;
      assert a[n] in multiset(b);
      var i :| 0 <= i < |b| && b[i] == a[n];
      MultisetRemoveAt(a, n);
      MultisetRemoveAt(b, i);
      assert a[..n] + a[n + 1..] == a[..n];
      ParlayPermutation(a[..n], b[..i] + b[i + 1..]);
      ParlayPermutationStep(a, b, i);
    }
  }

  /** The inductive step: both sides lose the same leg, and what remains has equal products. */
  lemma {:induction false} ParlayPermutationStep(a: seq<real>, b: seq<real>, i: int)
    requires |a| > 0 && 0 <= i < |b| && b[i] == a[|a| - 1]
    requires ParlayDecimal(a[..|a| - 1]) == ParlayDecimal(b[..i] + b[i + 1..])
    ensures ParlayDecimal(a) == ParlayDecimal(b)
  {
    ParlayExtract(b, i);
    SameProduct(ParlayDecimal(a[..|a| - 1]), ParlayDecimal(b[..i] + b[i + 1..]), a[|a| - 1], b[i]);
  }

  /**
   When every leg pays more than its stake back, so does the parlay, and the
   combined odds are at least those of each single leg.
   */
  lemma {:induction false} ParlayDominatesLegs(odds: seq<real>)
    requires |odds| > 0
    requires forall i :: 0 <= i < |odds| ==> odds[i] > 1.0
    ensures ParlayDecimal(odds) > 1.0
    ensures forall i :: 0 <= i < |odds| ==> ParlayDecimal(odds) >= odds[i]
    decreases |odds|
  {
    var init := odds[..|odds| - 1];
    var p := ParlayDecimal(init);
    if |init| == 0 {
      assert p == 1.0;
    } else {
      assert forall i :: 0 <= i < |init| ==> init[i] == odds[i];
      ParlayDominatesLegs(init);
    }
    LastFactorDominates(odds, p, ParlayDecimal(odds));
  }

  /** The step of the induction: a product of at least 1 and a last leg above 1 dominates both. */
  lemma LastFactorDominates(odds: seq<real>, p: real, r: real)
    requires |odds| > 0 && p >= 1.0 && odds[|odds| - 1] > 1.0 && r == p * odds[|odds| - 1]
    requires forall i :: 0 <= i < |odds| - 1 ==> odds[i] <= p
    ensures r > 1.0
    ensures forall i :: 0 <= i < |odds| ==> r >= odds[i]
  {
    GrowsBothFactors(p, odds[|odds| - 1], r);
  }

  lemma GrowsBothFactors(p: real, x: real, r: real)
    requires p >= 1.0 && x > 1.0 && r == p * x
    ensures r > 1.0 && r >= p && r >= x
  {
    ProductAboveLeft(p, x, r);
    ProductAboveRight(p, x, r);
  }

  lemma ProductAboveLeft(p: real, x: real, r: real)
    requires p >= 1.0 && x > 1.0 && r == p * x
    ensures r >= p
  {
    assert p * (x - 1.0) > 0.0;
    assert r - p == p * (x - 1.0);
  }

  lemma ProductAboveRight(p: real, x: real, r: real)
    requires p >= 1.0 && x > 1.0 && r == p * x
    ensures r >= x
  {
    assert (p - 1.0) * x >= 0.0;
    assert r - x == (p - 1.0) * x;
  }

  /**
   `parlayPayout`: the stake in cents is turned into major units, profit and stake
   are added and the total is rounded back to cents. In exact arithmetic this is
   the stake times the decimal odds, rounded.
   */
  function ParlayPayout(stakeCents: int, decimal: real): (payoutCents: int)
    ensures payoutCents == Round(stakeCents as real * decimal)
  {
    var stake := stakeCents as real / 100.0;
    var profit := (decimal - 1.0) * stake;
    Round((profit + stake) * 100.0)
  }

  /** At decimal odds of 1 the payout is the stake itself. */
  lemma PayoutAtEvenReturn(stakeCents: int)
    ensures ParlayPayout(stakeCents, 1.0) == stakeCents
  {
    RoundOfInt(stakeCents);
  }

  /** For a non-negative stake, better odds never pay less. */
  lemma PayoutMonotone(stakeCents: int, d1: real, d2: real)
    requires stakeCents >= 0 && d1 <= d2
    ensures ParlayPayout(stakeCents, d1) <= ParlayPayout(stakeCents, d2)
  {
    assert stakeCents as real * d1 <= stakeCents as real * d2;
    RoundMonotone(stakeCents as real * d1, stakeCents as real * d2);
  }

  /** A stake of 10.00 on three legs at 1.91, 2.50 and 1.80 returns 85.95. */
  lemma ThreeLegScenario()
    ensures ParlayDecimal([1.91, 2.50, 1.80]) == 8.595
    ensures ParlayPayout(1000, 8.595) == 8595
  {
    assert [1.91, 2.50, 1.80][..2] == [1.91, 2.50];
    assert [1.91, 2.50][..1] == [1.91];
    assert [1.91][..0] == [];
    RoundOfInt(8595);
  }
}
