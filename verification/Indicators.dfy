/**
 Wilder smoothing, true ranges and the average directional index, over `real`.
 */
module Indicators {
  import opened Options
  import opened Arithmetic

  // ---- Wilder smoothing ----

  ghost function Smooth(values: seq<real>, alpha: real): real
    requires values != []
  {
    if |values| == 1 then values[0]
    else
      var before := Smooth(values[..|values| - 1], alpha);
      before + alpha * (values[|values| - 1] - before)
  }

  // The value after each prefix.
  ghost predicate IsWilder(output: seq<real>, values: seq<real>, alpha: real) {
    |output| == |values| && forall i | 0 <= i < |values| :: output[i] == Smooth(values[..i + 1], alpha)
  }

  lemma SmoothSnoc(values: seq<real>, alpha: real, i: nat)
    requires 0 < i < |values|
    ensures Smooth(values[..i + 1], alpha)
         == Smooth(values[..i], alpha) + alpha * (values[i] - Smooth(values[..i], alpha))
  {
    assert values[..i + 1][..i] == values[..i];
  }

  // A value between two bounds at every step stays between them: smoothing averages.
  lemma {:induction false} SmoothWithin(values: seq<real>, alpha: real, lo: real, hi: real)
    requires values != [] && 0.0 <= alpha <= 1.0 && forall i | 0 <= i < |values| :: lo <= values[i] <= hi
    ensures lo <= Smooth(values, alpha) <= hi
  {
    if |values| > 1 {
      SmoothWithin(values[..|values| - 1], alpha, lo, hi);
      BetweenPoints(Smooth(values[..|values| - 1], alpha), values[|values| - 1], alpha, lo, hi);
    }
  }

  lemma BetweenPoints(a: real, b: real, alpha: real, lo: real, hi: real)
    requires 0.0 <= alpha <= 1.0 && lo <= a <= hi && lo <= b <= hi
    ensures lo <= a + alpha * (b - a) <= hi
  {
    Scale(alpha, a - lo, b - lo);
    Scale(alpha, hi - a, hi - b);
    assert a + alpha * (b - a) - lo == (a - lo) + alpha * ((b - lo) - (a - lo));
    assert hi - (a + alpha * (b - a)) == (hi - a) + alpha * ((hi - b) - (hi - a));
  }

  lemma Scale(alpha: real, x: real, y: real)
    requires 0.0 <= alpha <= 1.0 && x >= 0.0 && y >= 0.0
    ensures x + alpha * (y - x) >= 0.0
  {
    NonNegativeProduct(1.0 - alpha, x);
    NonNegativeProduct(alpha, y);
    assert x + alpha * (y - x) == (1.0 - alpha) * x + alpha * y;
  }

  // Smoothing is linear and monotone, so it keeps `a + b <= c`.
  lemma {:induction false} SmoothKeepsSum(a: seq<real>, b: seq<real>, c: seq<real>, alpha: real)
    requires 0 < |a| == |b| == |c| && 0.0 <= alpha <= 1.0
    requires forall i | 0 <= i < |a| :: a[i] + b[i] <= c[i]
    ensures Smooth(a, alpha) + Smooth(b, alpha) <= Smooth(c, alpha)
  {
    var n := |a| - 1;
    if n > 0 {
      SmoothKeepsSum(a[..n], b[..n], c[..n], alpha);
      StepKeepsSum(Smooth(a[..n], alpha), Smooth(b[..n], alpha), Smooth(c[..n], alpha), a[n], b[n], c[n], alpha);
    }
  }

  lemma StepKeepsSum(sa: real, sb: real, sc: real, a: real, b: real, c: real, alpha: real)
    requires 0.0 <= alpha <= 1.0 && sa + sb <= sc && a + b <= c
    ensures (sa + alpha * (a - sa)) + (sb + alpha * (b - sb)) <= sc + alpha * (c - sc)
  {
    var x, y := sc - sa - sb, c - a - b;
    Scale(alpha, x, y);
    assert alpha * (y - x) == alpha * (c - sc) - alpha * (a - sa) - alpha * (b - sb);
  }

  method Wilder(values: seq<real>, period: int) returns (output: Option<seq<real>>)
    ensures output.None? <==> period <= 0 || values == []
    ensures output.Some? ==> IsWilder(output.value, values, 1.0 / period as real)
  {
    if period <= 0 || values == [] {
      return None;
    }
    var alpha := 1.0 / period as real;
    var out := [values[0]];
    for i := 1 to |values|
      invariant |out| == i && forall j | 0 <= j < i :: out[j] == Smooth(values[..j + 1], alpha)
    {
      SmoothSnoc(values, alpha, i);
      out := out + [out[i - 1] + alpha * (values[i] - out[i - 1])];
    }
    return Some(out);
  }

  // ---- bars ----

  datatype Bars = Bars(highs: seq<real>, lows: seq<real>, closes: seq<real>)

  predicate SameLengths(b: Bars) {
    |b.highs| == |b.lows| == |b.closes|
  }

  // Each close lies between its low and its high.
  ghost predicate Proper(b: Bars) {
    SameLengths(b) && forall i | 0 <= i < |b.closes| :: b.lows[i] <= b.closes[i] <= b.highs[i]
  }

  function Abs(a: real): real { if a < 0.0 then -a else a }

  function RangeAt(b: Bars, i: nat): real
    requires SameLengths(b) && i < |b.closes|
  {
    var span := b.highs[i] - b.lows[i];
    if i == 0 then span
    else Max(span, Max(Abs(b.highs[i] - b.closes[i - 1]), Abs(b.lows[i] - b.closes[i - 1])))
  }

  function PlusAt(b: Bars, i: nat): real
    requires SameLengths(b) && i < |b.closes|
  {
    if i == 0 then 0.0
    else
      var up, down := b.highs[i] - b.highs[i - 1], b.lows[i - 1] - b.lows[i];
      if up > down && up > 0.0 then up else 0.0
  }

  function MinusAt(b: Bars, i: nat): real
    requires SameLengths(b) && i < |b.closes|
  {
    if i == 0 then 0.0
    else
      var up, down := b.highs[i] - b.highs[i - 1], b.lows[i - 1] - b.lows[i];
      if down > up && down > 0.0 then down else 0.0
  }

  // The two movements of a bar never exceed its true range together.
  lemma MovementsWithinRange(b: Bars, i: nat)
    requires Proper(b) && i < |b.closes|
    ensures PlusAt(b, i) >= 0.0 && MinusAt(b, i) >= 0.0 && RangeAt(b, i) >= 0.0
    ensures PlusAt(b, i) + MinusAt(b, i) <= RangeAt(b, i)
  {
    if i > 0 { assert b.lows[i - 1] <= b.closes[i - 1] <= b.highs[i - 1]; }
  }

  // The true range is what the bar spans together with the close before it.
  lemma TrueRangeIsSpan(b: Bars, i: nat)
    requires Proper(b) && i < |b.closes|
    ensures RangeAt(b, i)
         == if i == 0 then b.highs[0] - b.lows[0]
            else Max(b.highs[i], b.closes[i - 1]) - Min(b.lows[i], b.closes[i - 1])
  {
    assert b.lows[i] <= b.closes[i] <= b.highs[i];
  }

  // A bar that moves further up than down counts its new high ground, one that moves further down its new
  // low ground; otherwise, and on the first bar, nothing counts.
  lemma MovementsExactly(b: Bars, i: nat)
    requires SameLengths(b) && i < |b.closes|
    ensures i == 0 ==> PlusAt(b, i) == MinusAt(b, i) == 0.0
    ensures i > 0 ==>
              var up, down := Max(b.highs[i] - b.highs[i - 1], 0.0), Max(b.lows[i - 1] - b.lows[i], 0.0);
              && (up > down ==> PlusAt(b, i) == up && MinusAt(b, i) == 0.0)
              && (down > up ==> MinusAt(b, i) == down && PlusAt(b, i) == 0.0)
              && (up == down ==> PlusAt(b, i) == MinusAt(b, i) == 0.0)
  {
  }

  ghost function Ranges(b: Bars): seq<real>
    requires SameLengths(b)
  {
    seq(|b.closes|, i requires 0 <= i < |b.closes| => RangeAt(b, i))
  }

  ghost function Pluses(b: Bars): seq<real>
    requires SameLengths(b)
  {
    seq(|b.closes|, i requires 0 <= i < |b.closes| => PlusAt(b, i))
  }

  ghost function Minuses(b: Bars): seq<real>
    requires SameLengths(b)
  {
    seq(|b.closes|, i requires 0 <= i < |b.closes| => MinusAt(b, i))
  }

  // At every bar: smoothed movements are non-negative and sum to at most the smoothed range.
  lemma SmoothedMovementsWithinRange(b: Bars, alpha: real, n: nat)
    requires Proper(b) && 0 < n <= |b.closes| && 0.0 <= alpha <= 1.0
    ensures var plus, minus := Smooth(Pluses(b)[..n], alpha), Smooth(Minuses(b)[..n], alpha);
            plus >= 0.0 && minus >= 0.0 && plus + minus <= Smooth(Ranges(b)[..n], alpha)
  {
    var p, m, r := Pluses(b)[..n], Minuses(b)[..n], Ranges(b)[..n];
    forall i | 0 <= i < n ensures p[i] >= 0.0 && m[i] >= 0.0 && p[i] + m[i] <= r[i] { MovementsWithinRange(b, i); }
    SmoothKeepsSum(p, m, r, alpha);
    NonNegativeSmooth(p, alpha);
    NonNegativeSmooth(m, alpha);
  }

  lemma {:induction false} NonNegativeSmooth(values: seq<real>, alpha: real)
    requires values != [] && 0.0 <= alpha <= 1.0 && forall i | 0 <= i < |values| :: values[i] >= 0.0
    ensures Smooth(values, alpha) >= 0.0
  {
    if |values| > 1 {
      NonNegativeSmooth(values[..|values| - 1], alpha);
      Scale(alpha, Smooth(values[..|values| - 1], alpha), values[|values| - 1]);
    }
  }

  // ---- the directional index ----

  function DirectionalIndex(range: real, plus: real, minus: real): real {
    if range <= 0.0 then 0.0
    else
      var plusDi, minusDi := 100.0 * plus / range, 100.0 * minus / range;
      var total := plusDi + minusDi;
      if total == 0.0 then 0.0 else 100.0 * Abs(plusDi - minusDi) / total
  }

  lemma IndicatorsWithinHundred(range: real, plus: real, minus: real)
    requires range > 0.0 && plus >= 0.0 && minus >= 0.0 && plus + minus <= range
    ensures 100.0 * plus / range >= 0.0 && 100.0 * minus / range >= 0.0
    ensures 100.0 * plus / range + 100.0 * minus / range <= 100.0
  {
    NonNegativeQuotient(100.0 * plus, range);
    NonNegativeQuotient(100.0 * minus, range);
    QuotientAgainst(100.0 * plus + 100.0 * minus, range, 100.0);
    assert 100.0 * plus / range + 100.0 * minus / range == (100.0 * plus + 100.0 * minus) / range;
  }

  // The index is the imbalance of the two movements in percent of their sum, whatever the range is; without
  // range or without movement it is zero.
  lemma DirectionalIndexIsImbalance(range: real, plus: real, minus: real)
    requires plus >= 0.0 && minus >= 0.0
    ensures range > 0.0 && plus + minus > 0.0 ==>
              DirectionalIndex(range, plus, minus) * (plus + minus) == 100.0 * Max(plus - minus, minus - plus)
    ensures range <= 0.0 || plus + minus == 0.0 ==> DirectionalIndex(range, plus, minus) == 0.0
  {
    if range > 0.0 && plus + minus > 0.0 {
      var p, m := 100.0 * plus / range, 100.0 * minus / range;
      assert p * range == 100.0 * plus && m * range == 100.0 * minus;
      assert (p + m) * range == 100.0 * (plus + minus);
      if p + m <= 0.0 { NonPositiveSum(p + m, range); }
      Imbalance(p, m, range, plus, minus, 100.0 * Abs(p - m) / (p + m));
    }
  }

  lemma NonPositiveSum(total: real, range: real)
    requires total <= 0.0 && range > 0.0
    ensures total * range <= 0.0
  {
  }

  lemma Imbalance(p: real, m: real, range: real, plus: real, minus: real, index: real)
    requires range > 0.0 && p + m > 0.0 && index == 100.0 * Abs(p - m) / (p + m)
    requires p * range == 100.0 * plus && m * range == 100.0 * minus
    ensures index * (plus + minus) == 100.0 * Max(plus - minus, minus - plus)
  {
    assert index * (p + m) == 100.0 * Abs(p - m);
    assert (index * (p + m)) * range == (100.0 * Abs(p - m)) * range;
    assert index * ((p + m) * range) == index * (100.0 * (plus + minus));
    assert Abs(p - m) * range == Max(p - m, m - p) * range;
    if p >= m {
      assert (p - m) * range == 100.0 * (plus - minus);
      SameSign(p - m, range, plus - minus);
    } else {
      assert (m - p) * range == 100.0 * (minus - plus);
      SameSign(m - p, range, minus - plus);
    }
  }

  lemma SameSign(a: real, range: real, b: real)
    requires a >= 0.0 && range > 0.0 && a * range == 100.0 * b
    ensures b >= 0.0
  {
    NonNegativeProduct(a, range);
  }

  lemma DirectionalIndexBounds(range: real, plus: real, minus: real)
    requires plus >= 0.0 && minus >= 0.0 && plus + minus <= range
    ensures 0.0 <= DirectionalIndex(range, plus, minus) <= 100.0
  {
    if range > 0.0 {
      IndicatorsWithinHundred(range, plus, minus);
      var p, m := 100.0 * plus / range, 100.0 * minus / range;
      if p + m != 0.0 {
        NonNegativeQuotient(100.0 * Abs(p - m), p + m);
        QuotientAgainst(100.0 * Abs(p - m), p + m, 100.0);
      }
    }
  }

  ghost function IndexAt(b: Bars, alpha: real, i: nat): real
    requires SameLengths(b) && i < |b.closes|
  {
    DirectionalIndex(Smooth(Ranges(b)[..i + 1], alpha), Smooth(Pluses(b)[..i + 1], alpha),
                     Smooth(Minuses(b)[..i + 1], alpha))
  }

  lemma IndexAtBounds(b: Bars, alpha: real, i: nat)
    requires Proper(b) && i < |b.closes| && 0.0 <= alpha <= 1.0
    ensures 0.0 <= IndexAt(b, alpha, i) <= 100.0
  {
    SmoothedMovementsWithinRange(b, alpha, i + 1);
    DirectionalIndexBounds(Smooth(Ranges(b)[..i + 1], alpha), Smooth(Pluses(b)[..i + 1], alpha),
                           Smooth(Minuses(b)[..i + 1], alpha));
  }

  ghost function Indices(b: Bars, alpha: real): seq<real>
    requires SameLengths(b)
  {
    seq(|b.closes|, i requires 0 <= i < |b.closes| => IndexAt(b, alpha, i))
  }

  // Every ADX value of proper bars lies in [0, 100].
  lemma AdxWithinBounds(b: Bars, alpha: real, n: nat)
    requires Proper(b) && 0 < n <= |b.closes| && 0.0 <= alpha <= 1.0
    ensures 0.0 <= Smooth(Indices(b, alpha)[..n], alpha) <= 100.0
  {
    forall i | 0 <= i < n ensures 0.0 <= Indices(b, alpha)[..n][i] <= 100.0 { IndexAtBounds(b, alpha, i); }
    SmoothWithin(Indices(b, alpha)[..n], alpha, 0.0, 100.0);
  }

  // ---- the loops ----

  method TrueRanges(b: Bars) returns (output: Option<seq<real>>)
    ensures output.None? <==> !SameLengths(b) || b.closes == []
    ensures output.Some? ==> output.value == Ranges(b)
  {
    if !SameLengths(b) || b.closes == [] {
      return None;
    }
    var out := [b.highs[0] - b.lows[0]];
    for i := 1 to |b.closes|
      invariant |out| == i && forall j | 0 <= j < i :: out[j] == RangeAt(b, j)
    {
      var jump := Max(Abs(b.highs[i] - b.closes[i - 1]), Abs(b.lows[i] - b.closes[i - 1]));
      out := out + [Max(b.highs[i] - b.lows[i], jump)];
    }
    assert out == Ranges(b);
    return Some(out);
  }

  method Movements(b: Bars) returns (plus: seq<real>, minus: seq<real>)
    requires SameLengths(b) && b.closes != []
    ensures plus == Pluses(b) && minus == Minuses(b)
  {
    plus, minus := [0.0], [0.0];
    for i := 1 to |b.closes|
      invariant |plus| == |minus| == i
      invariant forall j | 0 <= j < i :: plus[j] == PlusAt(b, j) && minus[j] == MinusAt(b, j)
    {
      var up, down := b.highs[i] - b.highs[i - 1], b.lows[i - 1] - b.lows[i];
      plus := plus + [if up > down && up > 0.0 then up else 0.0];
      minus := minus + [if down > up && down > 0.0 then down else 0.0];
    }
  }

  // None is the ValueError of mismatched lists or a non-positive period.
  method Adx(b: Bars, period: int) returns (output: Option<seq<real>>)
    ensures |b.closes| < 2 ==> output == Some(seq(|b.closes|, i => 0.0))
    ensures |b.closes| >= 2 ==> (output.None? <==> !SameLengths(b) || period <= 0)
    ensures |b.closes| >= 2 && output.Some? ==>
              IsWilder(output.value, Indices(b, 1.0 / period as real), 1.0 / period as real)
    ensures Proper(b) && output.Some? ==> forall i | 0 <= i < |output.value| :: 0.0 <= output.value[i] <= 100.0
  {
    if |b.closes| < 2 {
      return Some(seq(|b.closes|, i => 0.0));
    }
    var ranges := TrueRanges(b);
    if ranges.None? || period <= 0 {
      return None;
    }
    var plus, minus := Movements(b);
    var atr := Wilder(ranges.value, period);
    var plusSmoothed := Wilder(plus, period);
    var minusSmoothed := Wilder(minus, period);
    ghost var alpha := 1.0 / period as real;
    var dx := DxLoop(b, alpha, atr.value, plusSmoothed.value, minusSmoothed.value);
    output := Wilder(dx, period);
    if Proper(b) {
      UnitFraction(period);
      forall i | 0 <= i < |output.value| ensures 0.0 <= output.value[i] <= 100.0 { AdxWithinBounds(b, alpha, i + 1); }
    }
  }

  lemma UnitFraction(period: int)
    requires period >= 1
    ensures 0.0 <= 1.0 / period as real <= 1.0
  {
    NonNegativeQuotient(1.0, period as real);
    QuotientAgainst(1.0, period as real, 1.0);
  }

  method DxLoop(ghost b: Bars, ghost alpha: real, atr: seq<real>, plus: seq<real>, minus: seq<real>)
    returns (dx: seq<real>)
    requires SameLengths(b)
    requires IsWilder(atr, Ranges(b), alpha) && IsWilder(plus, Pluses(b), alpha) && IsWilder(minus, Minuses(b), alpha)
    ensures dx == Indices(b, alpha)
  {
    dx := [];
    for i := 0 to |atr|
      invariant |dx| == i && forall j | 0 <= j < i :: dx[j] == IndexAt(b, alpha, j)
    {
      dx := dx + [DirectionalIndex(atr[i], plus[i], minus[i])];
    }
  }
}
