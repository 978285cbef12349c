/**
 The exponential moving average and Wilder's relative strength index of
 backend/app/routes/ai_chat.py, over exact reals.
 */
module Indicators {
  import opened Basics

  // ---------------------------------------------------------------- arithmetic

  function Times(a: real, x: real): real {
    a * x
  }

  lemma {:induction false} MulNonNeg(a: real, b: real)
    requires a >= 0.0 && b >= 0.0
    ensures a * b >= 0.0
  {
  }

  lemma {:induction false} MulOrder(a: real, b: real, c: real)
    requires a <= b && c >= 0.0
    ensures a * c <= b * c
  {
    MulNonNeg(b - a, c);
  }

  lemma {:induction false} DivOrder(a: real, b: real, c: real)
    requires a <= b && c > 0.0
    ensures a / c <= b / c
  {
    var x, y := a / c, b / c;
    assert x * c == a && y * c == b;
    if x > y {
      DifferentProducts(x, y, c);
    }
  }

  lemma {:induction false} DivMul(a: real, b: real, c: real)
    requires c != 0.0
    ensures a * (b / c) == (a * b) / c && (a * c) / c == a
  {
  }

  lemma {:induction false} DivAdd(a: real, b: real, c: real)
    requires c != 0.0
    ensures (a + b) / c == a / c + b / c
  {
  }

  function Sum(s: seq<real>): real {
    if s == [] then 0.0 else Sum(s[..|s| - 1]) + s[|s| - 1]
  }

  // ---------------------------------------------------------------- exponential average

  function Mean(total: real, n: nat): real
    requires n >= 1
  {
    total / n as real
  }

  /** `current` moved towards `value` by the share `k`. */
  function Blend(value: real, current: real, k: real): real {
    (value - current) * k + current
  }

  /** One part new to n - 1 parts old. */
  function Wilder(avg: real, gain: real, n: nat): real
    requires n >= 1
  {
    (avg * (n - 1) as real + gain) / n as real
  }

  /** The weight of the newest value. */
  function Weight(period: nat): (k: real)
    requires period >= 1
    ensures 0.0 < k <= 1.0
  {
    2.0 / (period as real + 1.0)
  }

  function Smoothed(values: seq<real>, period: nat): real
    requires period >= 1 && |values| >= period
  {
    if |values| == period then Mean(Sum(values), period)
    else Blend(values[|values| - 1], Smoothed(values[..|values| - 1], period), Weight(period))
  }

  method Ema(values: seq<real>, period: nat) returns (r: Option<real>)
    requires period >= 1
    ensures r == if |values| < period then None else Some(Smoothed(values, period))
  {
    if |values| < period {
      return None;
    }
    var first := SumOf(values[..period]);
    var seed := first / period as real;
    var k := 2.0 / (period as real + 1.0);
    assert k == Weight(period);
    var current := seed;
    for i := period to |values|
      invariant current == Smoothed(values[..i], period)
    {
      assert values[..i + 1][..i] == values[..i];
      assert Smoothed(values[..i + 1], period) == Blend(values[i], current, k);
      current := (values[i] - current) * k + current;
    }
    assert values[..|values|] == values;
    return Some(current);
  }

  method SumOf(s: seq<real>) returns (total: real)
    ensures total == Sum(s)
  {
    total := 0.0;
    for i := 0 to |s|
      invariant total == Sum(s[..i])
    {
      assert s[..i + 1][..i] == s[..i];
      total := total + s[i];
    }
    assert s[..|s|] == s;
  }

  ghost predicate Below(a: seq<real>, b: seq<real>) {
    |a| == |b| && forall i :: 0 <= i < |a| ==> a[i] <= b[i]
  }

  lemma {:induction false} SumBelow(a: seq<real>, b: seq<real>)
    requires Below(a, b)
    ensures Sum(a) <= Sum(b)
  {
    if a != [] {
      SumBelow(a[..|a| - 1], b[..|b| - 1]);
    }
  }

  lemma {:induction false} BlendParts(v: real, x: real, k: real)
    ensures Blend(v, x, k) == Times(k, v) + Times(1.0 - k, x)
  {
  }

  lemma {:induction false} TimesOrder(k: real, v: real, w: real)
    requires v <= w && k >= 0.0
    ensures Times(k, v) <= Times(k, w)
  {
    MulOrder(v, w, k);
  }

  /** A weighted mean lies in order with its parts. */
  lemma {:induction false} BlendOrder(v: real, w: real, x: real, y: real, k: real)
    requires v <= w && x <= y && 0.0 <= k <= 1.0
    ensures Blend(v, x, k) <= Blend(w, y, k)
  {
    hide Blend, Times;
    TimesOrder(k, v, w);
    TimesOrder(1.0 - k, x, y);
    BlendParts(v, x, k);
    BlendParts(w, y, k);
  }

  lemma {:induction false} BlendSame(c: real, k: real)
    ensures Blend(c, c, k) == c
  {
  }

  /** The average is monotone in every input. */
  lemma {:induction false} EmaMonotone(a: seq<real>, b: seq<real>, period: nat)
    requires period >= 1 && |a| >= period && Below(a, b)
    ensures Smoothed(a, period) <= Smoothed(b, period)
  {
    if |a| == period {
      SumBelow(a, b);
      DivOrder(Sum(a), Sum(b), period as real);
    } else {
      var x, y := a[..|a| - 1], b[..|b| - 1];
      EmaMonotone(x, y, period);
      BlendOrder(a[|a| - 1], b[|b| - 1], Smoothed(x, period), Smoothed(y, period), Weight(period));
      hide Blend, Weight, Mean;
    }
  }

  function Constant(c: real, n: nat): seq<real> {
    seq(n, i => c)
  }

  lemma {:induction false} SumConstant(c: real, n: nat)
    ensures Sum(Constant(c, n)) == c * n as real
  {
    if n > 0 {
      assert Constant(c, n)[..n - 1] == Constant(c, n - 1);
      SumConstant(c, n - 1);
    }
  }

  lemma {:induction false} EmaOfConstant(c: real, n: nat, period: nat)
    requires 1 <= period <= n
    ensures Smoothed(Constant(c, n), period) == c
  {
    if n == period {
      SumConstant(c, n);
      DivMul(c, c, n as real);
      hide Sum;
    } else {
      assert Constant(c, n)[..n - 1] == Constant(c, n - 1);
      EmaOfConstant(c, n - 1, period);
      BlendSame(c, Weight(period));
      hide Blend, Weight, Mean;
    }
  }

  /** The average lies between any bounds of the values, so between their minimum and maximum. */
  lemma {:induction false} EmaBetween(values: seq<real>, period: nat, lo: real, hi: real)
    requires 1 <= period <= |values| && forall i :: 0 <= i < |values| ==> lo <= values[i] <= hi
    ensures lo <= Smoothed(values, period) <= hi
  {
    var n := |values|;
    EmaOfConstant(lo, n, period);
    EmaOfConstant(hi, n, period);
    EmaMonotone(Constant(lo, n), values, period);
    EmaMonotone(values, Constant(hi, n), period);
  }

  // ---------------------------------------------------------------- relative strength

  function Gain(delta: real): real {
    if delta > 0.0 then delta else 0.0
  }

  function Gains(values: seq<real>): seq<real>
    requires values != []
  {
    seq(|values| - 1, i requires 0 <= i < |values| - 1 => Gain(values[i + 1] - values[i]))
  }

  function Negated(values: seq<real>): seq<real> {
    seq(|values|, i requires 0 <= i < |values| => -values[i])
  }

  /** Wilder's average of the gains: a plain mean, then one part new to `period` - 1 parts old. */
  function AvgGain(values: seq<real>, period: nat): real
    requires period >= 1 && |values| > period
  {
    if |values| == period + 1 then Mean(Sum(Gains(values)), period)
    else Wilder(AvgGain(values[..|values| - 1], period), Gain(values[|values| - 1] - values[|values| - 2]), period)
  }

  function AvgLoss(values: seq<real>, period: nat): real
    requires period >= 1 && |values| > period
  {
    AvgGain(Negated(values), period)
  }

  function Strength(gain: real, loss: real): real
    requires gain >= 0.0 && loss >= 0.0
  {
    if loss == 0.0 then 100.0
    else
      var rs := gain / loss;
      RatioNonNeg(gain, loss);
      100.0 - 100.0 / (1.0 + rs)
  }

  lemma {:induction false} RatioNonNeg(a: real, b: real)
    requires a >= 0.0 && b > 0.0
    ensures a / b >= 0.0
  {
    DivOrder(0.0, a, b);
  }

  lemma {:induction false} SumNonNeg(s: seq<real>)
    requires forall i :: 0 <= i < |s| ==> s[i] >= 0.0
    ensures Sum(s) >= 0.0
  {
    if s != [] {
      SumNonNeg(s[..|s| - 1]);
    }
  }

  lemma {:induction false} WilderNonNeg(avg: real, gain: real, n: nat)
    requires n >= 1 && avg >= 0.0 && gain >= 0.0
    ensures Wilder(avg, gain, n) >= 0.0
  {
    MulNonNeg(avg, (n - 1) as real);
    RatioNonNeg(avg * (n - 1) as real + gain, n as real);
  }

  lemma {:induction false} AvgNonNeg(values: seq<real>, period: nat)
    requires period >= 1 && |values| > period
    ensures AvgGain(values, period) >= 0.0
  {
    hide Wilder;
    if |values| == period + 1 {
      SumNonNeg(Gains(values));
      RatioNonNeg(Sum(Gains(values)), period as real);
    } else {
      AvgNonNeg(values[..|values| - 1], period);
      WilderNonNeg(AvgGain(values[..|values| - 1], period), Gain(values[|values| - 1] - values[|values| - 2]), period);
    }
  }

  function RsiOf(values: seq<real>, period: nat): real
    requires period >= 1 && |values| > period
  {
    AvgNonNeg(values, period);
    AvgNonNeg(Negated(values), period);
    Strength(AvgGain(values, period), AvgLoss(values, period))
  }

  method Rsi(values: seq<real>, period: nat) returns (r: Option<real>)
    requires period >= 1
    ensures r == if |values| <= period then None else Some(RsiOf(values, period))
  {
    if |values| <= period {
      return None;
    }
    var avgGain, avgLoss := Averages(values, period);
    RsiParts(values, period);
    hide AvgGain, AvgLoss, RsiOf;
    if avgLoss == 0.0 {
      return Some(100.0);
    }
    var rs := avgGain / avgLoss;
    RatioNonNeg(avgGain, avgLoss);
    return Some(100.0 - 100.0 / (1.0 + rs));
  }

  /** The two running averages. */
  method Averages(values: seq<real>, period: nat) returns (avgGain: real, avgLoss: real)
    requires period >= 1 && |values| > period
    ensures avgGain == AvgGain(values, period) && avgLoss == AvgLoss(values, period)
  {
    hide AvgGain, AvgLoss, Wilder, Mean, Gain, Sum, Gains, Negated;
    var gains, losses := FirstMoves(values, period);
    var sumGain := SumOf(gains);
    var sumLoss := SumOf(losses);
    avgGain, avgLoss := Mean(sumGain, period), Mean(sumLoss, period);
    FirstAverages(values[..period + 1], period);
    for i := period + 1 to |values|
      invariant avgGain == AvgGain(values[..i], period) && avgLoss == AvgLoss(values[..i], period)
    {
      var delta := values[i] - values[i - 1];
      AvgStep(values, period, i);
      avgGain := Wilder(avgGain, Gain(delta), period);
      avgLoss := Wilder(avgLoss, Gain(-delta), period);
    }
    assert values[..|values|] == values;
  }

  lemma {:induction false} FirstAverages(values: seq<real>, period: nat)
    requires period >= 1 && |values| == period + 1
    ensures AvgGain(values, period) == Mean(Sum(Gains(values)), period)
    ensures AvgLoss(values, period) == Mean(Sum(Gains(Negated(values))), period)
  {
  }

  method FirstMoves(values: seq<real>, period: nat) returns (gains: seq<real>, losses: seq<real>)
    requires period >= 1 && |values| > period
    ensures gains == Gains(values[..period + 1]) && losses == Gains(Negated(values[..period + 1]))
  {
    gains, losses := [], [];
    for i := 1 to period + 1
      invariant gains == Gains(values[..i]) && losses == Gains(Negated(values[..i]))
    {
      var delta := values[i] - values[i - 1];
      GainsStep(values, i);
      hide Gain, Gains, Negated;
      gains := gains + [Gain(delta)];
      losses := losses + [Gain(-delta)];
    }
  }

  lemma {:induction false} RsiParts(values: seq<real>, period: nat)
    requires period >= 1 && |values| > period
    ensures AvgGain(values, period) >= 0.0 && AvgLoss(values, period) >= 0.0
    ensures RsiOf(values, period) == Strength(AvgGain(values, period), AvgLoss(values, period))
  {
    AvgNonNeg(values, period);
    AvgNonNeg(Negated(values), period);
  }

  lemma {:induction false} GainsStep(values: seq<real>, i: nat)
    requires 1 <= i < |values|
    ensures Gains(values[..i + 1]) == Gains(values[..i]) + [Gain(values[i] - values[i - 1])]
    ensures Gains(Negated(values[..i + 1])) == Gains(Negated(values[..i])) + [Gain(-(values[i] - values[i - 1]))]
  {
    assert -values[i] - -values[i - 1] == -(values[i] - values[i - 1]);
  }

  lemma {:induction false} AvgStep(values: seq<real>, period: nat, i: nat)
    requires 1 <= period < i < |values|
    ensures AvgGain(values[..i + 1], period) ==
              Wilder(AvgGain(values[..i], period), Gain(values[i] - values[i - 1]), period)
    ensures AvgLoss(values[..i + 1], period) ==
              Wilder(AvgLoss(values[..i], period), Gain(-(values[i] - values[i - 1])), period)
  {
    hide Wilder;
    assert values[..i + 1][..i] == values[..i];
    assert Negated(values[..i + 1])[..i] == Negated(values[..i]);
    assert -values[i] - -values[i - 1] == -(values[i] - values[i - 1]);
  }

  /** The index lies between 0 and 100, and where there are losses it is the gains' share of all moves. */
  lemma {:induction false} StrengthShare(gain: real, loss: real)
    requires gain >= 0.0 && loss >= 0.0
    ensures 0.0 <= Strength(gain, loss) <= 100.0
    ensures gain + loss > 0.0 ==> Strength(gain, loss) == 100.0 * gain / (gain + loss)
    ensures Strength(gain, loss) == 100.0 <==> loss == 0.0
  {
    if loss == 0.0 {
      if gain > 0.0 {
        DivMul(100.0, 100.0, gain);
      }
    } else {
      var rs := gain / loss;
      RatioNonNeg(gain, loss);
      assert rs * loss == gain;
      assert (1.0 + rs) * loss == gain + loss;
      Fraction(100.0, 1.0 + rs, loss);
      DivAdd(100.0 * gain, 100.0 * loss, gain + loss);
      DivMul(100.0, 100.0, gain + loss);
      RatioNonNeg(100.0 * gain, gain + loss);
      RatioNonNeg(100.0 * loss, gain + loss);
      PositiveRatio(100.0 * loss, gain + loss);
    }
  }

  lemma {:induction false} Fraction(c: real, d: real, e: real)
    requires d > 0.0 && e > 0.0
    ensures d * e > 0.0 && c / d == (c * e) / (d * e)
  {
    var x := c / d;
    assert x * d == c;
    assert x * (d * e) == c * e;
    Quotient(x, d * e, c * e);
  }

  lemma {:induction false} Quotient(x: real, d: real, n: real)
    requires d > 0.0 && x * d == n
    ensures x == n / d
  {
    var y := n / d;
    assert y * d == n;
    if x > y {
      DifferentProducts(x, y, d);
    } else if y > x {
      DifferentProducts(y, x, d);
    }
  }

  lemma {:induction false} DifferentProducts(x: real, y: real, d: real)
    requires x > y && d > 0.0
    ensures x * d > y * d
  {
    PositiveProduct(x - y, d);
  }

  lemma {:induction false} PositiveProduct(x: real, d: real)
    requires x > 0.0 && d > 0.0
    ensures x * d > 0.0
  {
  }

  lemma {:induction false} PositiveRatio(n: real, d: real)
    requires n > 0.0 && d > 0.0
    ensures n / d > 0.0
  {
    RatioNonNeg(n, d);
    assert (n / d) * d == n;
  }

  lemma {:induction false} RsiInRange(values: seq<real>, period: nat)
    requires period >= 1 && |values| > period
    ensures 0.0 <= RsiOf(values, period) <= 100.0
  {
    AvgNonNeg(values, period);
    AvgNonNeg(Negated(values), period);
    StrengthShare(AvgGain(values, period), AvgLoss(values, period));
  }

  // ---------------------------------------------------------------- scaling and shifting

  function Line(a: real, b: real, x: real): real {
    a * x + b
  }

  function Affine(values: seq<real>, a: real, b: real): seq<real> {
    seq(|values|, i requires 0 <= i < |values| => Line(a, b, values[i]))
  }

  function Scaled(s: seq<real>, a: real): seq<real> {
    Affine(s, a, 0.0)
  }

  lemma {:induction false} SumScaled(s: seq<real>, a: real)
    ensures Sum(Scaled(s, a)) == Times(a, Sum(s))
  {
    if s != [] {
      var front, x := s[..|s| - 1], s[|s| - 1];
      var all := Scaled(s, a);
      assert all[..|s| - 1] == Scaled(front, a);
      SumScaled(front, a);
      assert Sum(s) == Sum(front) + x && Sum(all) == Sum(Scaled(front, a)) + Line(a, 0.0, x);
      hide Sum;
      assert a * (Sum(front) + x) == a * Sum(front) + a * x;
    }
  }

  lemma {:induction false} GainScaled(x: real, y: real, a: real, b: real)
    requires a > 0.0
    ensures Gain(Line(a, b, x) - Line(a, b, y)) == Line(a, 0.0, Gain(x - y))
  {
    assert Line(a, b, x) - Line(a, b, y) == a * (x - y);
    if x > y {
      PositiveProduct(a, x - y);
    } else {
      MulNonNeg(a, y - x);
    }
  }

  lemma {:induction false} WilderScaled(g: real, d: real, n: nat, a: real)
    requires n >= 1
    ensures Wilder(Times(a, g), Line(a, 0.0, d), n) == Times(a, Wilder(g, d, n))
  {
    assert (a * g) * (n - 1) as real == a * (g * (n - 1) as real);
    DivMul(a, g * (n - 1) as real + d, n as real);
  }

  lemma {:induction false} MeanScaled(total: real, n: nat, a: real)
    requires n >= 1
    ensures Mean(Times(a, total), n) == Times(a, Mean(total, n))
  {
    DivMul(a, total, n as real);
  }

  lemma {:induction false} AvgScaled(values: seq<real>, period: nat, a: real, b: real)
    requires period >= 1 && |values| > period && a > 0.0
    ensures AvgGain(Affine(values, a, b), period) == Times(a, AvgGain(values, period))
  {
    hide Wilder, Mean, Line, Gain, Times;
    var moved, n := Affine(values, a, b), |values|;
    if n == period + 1 {
      forall i | 0 <= i < n - 1
        ensures Gains(moved)[i] == Line(a, 0.0, Gains(values)[i])
      {
        GainScaled(values[i + 1], values[i], a, b);
      }
      assert Gains(moved) == Scaled(Gains(values), a);
      SumScaled(Gains(values), a);
      MeanScaled(Sum(Gains(values)), period, a);
    } else {
      assert moved[..n - 1] == Affine(values[..n - 1], a, b);
      AvgScaled(values[..n - 1], period, a, b);
      GainScaled(values[n - 1], values[n - 2], a, b);
      WilderScaled(AvgGain(values[..n - 1], period), Gain(values[n - 1] - values[n - 2]), period, a);
    }
  }

  lemma {:induction false} NegatedAffine(values: seq<real>, a: real, b: real)
    ensures Negated(Affine(values, a, b)) == Affine(Negated(values), a, -b)
  {
    forall i | 0 <= i < |values|
      ensures -Line(a, b, values[i]) == Line(a, -b, -values[i])
    {
      NegatedLine(a, b, values[i]);
    }
    hide Line;
  }

  lemma {:induction false} NegatedLine(a: real, b: real, x: real)
    ensures -Line(a, b, x) == Line(a, -b, -x)
  {
  }

  lemma {:induction false} StrengthScaled(gain: real, loss: real, a: real)
    requires gain >= 0.0 && loss >= 0.0 && a > 0.0 && Times(a, gain) >= 0.0 && Times(a, loss) >= 0.0
    ensures Strength(Times(a, gain), Times(a, loss)) == Strength(gain, loss)
  {
    if loss > 0.0 {
      PositiveProduct(a, loss);
      Fraction(gain, loss, a);
    }
  }

  /** The index does not change under positive scaling and shifting of the prices. */
  lemma {:induction false} RsiUnits(values: seq<real>, period: nat, a: real, b: real)
    requires period >= 1 && |values| > period && a > 0.0
    ensures RsiOf(Affine(values, a, b), period) == RsiOf(values, period)
  {
    var moved := Affine(values, a, b);
    NegatedAffine(values, a, b);
    AvgScaled(values, period, a, b);
    AvgScaled(Negated(values), period, a, -b);
    RsiParts(values, period);
    RsiParts(moved, period);
    hide AvgGain, Affine, Negated, RsiOf, Strength, Times;
    StrengthScaled(AvgGain(values, period), AvgLoss(values, period), a);
  }

  // ---------------------------------------------------------------- extremes and mirror

  ghost predicate NonDecreasing(values: seq<real>) {
    forall i :: 0 <= i < |values| - 1 ==> values[i] <= values[i + 1]
  }

  lemma {:induction false} SumZero(s: seq<real>)
    requires forall i :: 0 <= i < |s| ==> s[i] >= 0.0
    ensures Sum(s) == 0.0 <==> forall i :: 0 <= i < |s| ==> s[i] == 0.0
  {
    if s != [] {
      var front := s[..|s| - 1];
      SumZero(front);
      SumNonNeg(front);
      assert forall i :: 0 <= i < |front| ==> front[i] == s[i];
    }
  }

  lemma {:induction false} ZeroRatio(n: real, d: real)
    requires d > 0.0
    ensures n / d == 0.0 <==> n == 0.0
  {
    assert (n / d) * d == n;
  }

  lemma {:induction false} WilderZero(g: real, d: real, n: nat)
    requires n >= 2 && g >= 0.0 && d >= 0.0
    ensures Wilder(g, d, n) == 0.0 <==> g == 0.0 && d == 0.0
  {
    MulNonNeg(g, (n - 1) as real);
    ZeroRatio(g * (n - 1) as real + d, n as real);
    if g > 0.0 {
      PositiveProduct(g, (n - 1) as real);
    }
  }

  ghost predicate NonIncreasing(values: seq<real>) {
    forall i :: 0 <= i < |values| - 1 ==> values[i] >= values[i + 1]
  }

  lemma {:induction false} NoGains(values: seq<real>)
    requires values != []
    ensures Sum(Gains(values)) == 0.0 <==> NonIncreasing(values)
  {
    var gains := Gains(values);
    SumZero(gains);
    assert forall i :: 0 <= i < |gains| ==> (gains[i] == 0.0 <==> values[i] >= values[i + 1]);
    if NonIncreasing(values) {
      assert forall i :: 0 <= i < |gains| ==> gains[i] == 0.0;
    } else {
      var i :| 0 <= i < |values| - 1 && !(values[i] >= values[i + 1]);
      assert gains[i] != 0.0;
    }
  }

  /** With a period of at least 2, smoothing forgets no gain: the average is 0 only if there was none. */
  lemma {:induction false} AvgZero(values: seq<real>, period: nat)
    requires period >= 2 && |values| > period
    ensures AvgGain(values, period) == 0.0 <==> NonIncreasing(values)
  {
    hide Wilder, Sum, Gains;
    var n := |values|;
    if n == period + 1 {
      NoGains(values);
      ZeroRatio(Sum(Gains(values)), period as real);
    } else {
      AvgZero(values[..n - 1], period);
      AvgNonNeg(values[..n - 1], period);
      WilderZero(AvgGain(values[..n - 1], period), Gain(values[n - 1] - values[n - 2]), period);
      LastStep(values);
    }
  }

  lemma {:induction false} Mirrored(values: seq<real>)
    ensures NonIncreasing(Negated(values)) <==> NonDecreasing(values)
  {
    var down := Negated(values);
    forall i | 0 <= i < |values| - 1
      ensures down[i] >= down[i + 1] <==> values[i] <= values[i + 1]
    {
    }
    if !NonDecreasing(values) {
      var i :| 0 <= i < |values| - 1 && !(values[i] <= values[i + 1]);
      assert !(down[i] >= down[i + 1]);
    }
  }

  lemma {:induction false} LastStep(s: seq<real>)
    requires |s| >= 2
    ensures NonIncreasing(s) <==> NonIncreasing(s[..|s| - 1]) && s[|s| - 2] >= s[|s| - 1]
  {
    var front := s[..|s| - 1];
    if NonIncreasing(s) {
      forall i | 0 <= i < |front| - 1
        ensures front[i] >= front[i + 1]
      {
        assert s[i] >= s[i + 1];
      }
    } else {
      var i :| 0 <= i < |s| - 1 && !(s[i] >= s[i + 1]);
      assert i < |s| - 2 ==> !(front[i] >= front[i + 1]);
    }
  }

  lemma {:induction false} NegatedTwice(values: seq<real>)
    ensures Negated(Negated(values)) == values
  {
  }

  /** For a period of at least 2 the index is 100 exactly for a series that never falls. */
  lemma {:induction false} FullStrength(values: seq<real>, period: nat)
    requires period >= 2 && |values| > period
    ensures RsiOf(values, period) == 100.0 <==> NonDecreasing(values)
  {
    AvgNonNeg(values, period);
    AvgNonNeg(Negated(values), period);
    StrengthShare(AvgGain(values, period), AvgLoss(values, period));
    AvgZero(Negated(values), period);
    Mirrored(values);
  }

  /** With period 1 only the last move counts. */
  lemma {:induction false} FullStrengthPeriodOne(values: seq<real>)
    requires |values| >= 2
    ensures RsiOf(values, 1) == 100.0 <==> values[|values| - 2] <= values[|values| - 1]
  {
    AvgNonNeg(values, 1);
    AvgNonNeg(Negated(values), 1);
    StrengthShare(AvgGain(values, 1), AvgLoss(values, 1));
    AvgOfOne(Negated(values));
  }

  lemma {:induction false} AvgOfOne(values: seq<real>)
    requires |values| >= 2
    ensures AvgGain(values, 1) == Gain(values[|values| - 1] - values[|values| - 2])
  {
    if |values| == 2 {
      assert Gains(values)[..0] == [];
      assert Sum(Gains(values)) == Gains(values)[0];
    } else {
      AvgOfOne(values[..|values| - 1]);
    }
  }

  /**
   Negating the prices mirrors the index exactly when some price differs from the next, or for
   period 1 when the last move is not zero.
   */
  lemma {:induction false} Mirror(values: seq<real>, period: nat)
    requires period >= 1 && |values| > period
    ensures RsiOf(Negated(values), period) == 100.0 - RsiOf(values, period)
       <==> if period == 1 then values[|values| - 2] != values[|values| - 1]
            else exists i :: 0 <= i < |values| - 1 && values[i] != values[i + 1]
  {
    NegatedTwice(values);
    RsiParts(values, period);
    RsiParts(Negated(values), period);
    if period == 1 {
      AvgOfOne(values);
      AvgOfOne(Negated(values));
    } else {
      AvgZero(values, period);
      AvgZero(Negated(values), period);
      Mirrored(values);
      Flat(values);
    }
    hide AvgGain, RsiOf, NonIncreasing, NonDecreasing, Strength;
    StrengthMirror(AvgGain(values, period), AvgLoss(values, period));
  }

  lemma {:induction false} StrengthMirror(g: real, l: real)
    requires g >= 0.0 && l >= 0.0
    ensures Strength(l, g) == 100.0 - Strength(g, l) <==> !(g == 0.0 && l == 0.0)
  {
    StrengthShare(g, l);
    StrengthShare(l, g);
    hide Strength;
    if g + l > 0.0 {
      DivAdd(100.0 * g, 100.0 * l, g + l);
      DivMul(100.0, 100.0, g + l);
    }
  }

  lemma {:induction false} Flat(values: seq<real>)
    ensures NonDecreasing(values) && NonIncreasing(values) <==>
              !exists i :: 0 <= i < |values| - 1 && values[i] != values[i + 1]
  {
    if NonDecreasing(values) && NonIncreasing(values) {
      forall i | 0 <= i < |values| - 1
        ensures values[i] == values[i + 1]
      {
        assert values[i] <= values[i + 1] && values[i] >= values[i + 1];
      }
    }
  }

  // ---------------------------------------------------------------- true range

  /** Where `_summarize_klines` looks for the close before bar `i` of the last fifteen. */
  function PreviousCloseIndex(count: nat, i: nat): nat {
    if count >= 16 && i == 0 then count - 16 else Max(0, count - 15 + i - 1)
  }

  /** The bar before it, or the first bar when there is none. */
  function BarBefore(count: nat, i: nat): nat {
    Max(0, Max(0, count - 15) + i - 1)
  }

  /** The look-up is right for all fifteen bars exactly when there are at least fifteen, or at most two. */
  lemma {:induction false} PreviousCloseExactly(count: nat)
    ensures (forall i: nat :: i < count && i < 15 ==> PreviousCloseIndex(count, i) == BarBefore(count, i))
       <==> count >= 15 || count <= 2
  {
    if 2 < count < 15 {
      assert PreviousCloseIndex(count, 2) != BarBefore(count, 2);
    }
  }

  // ---------------------------------------------------------------- the recurrences in numbers

  lemma {:induction false} TimesQuotient(a: real, d: real)
    requires d > 0.0
    ensures d * (a / d) == a
  {
  }

  /**
   The first average is the mean of `period` values; each further value x makes it
   (2x + (period - 1) * old) / (period + 1).
   */
  lemma {:induction false} EmaStep(values: seq<real>, period: nat)
    requires period >= 1 && |values| >= period
    ensures |values| == period ==> period as real * Smoothed(values, period) == Sum(values)
    ensures |values| > period ==>
              (period as real + 1.0) * Smoothed(values, period) ==
                2.0 * values[|values| - 1] + (period as real - 1.0) * Smoothed(values[..|values| - 1], period)
  {
    if |values| == period {
      TimesQuotient(Sum(values), period as real);
    } else {
      BlendInNumbers(values[|values| - 1], Smoothed(values[..|values| - 1], period), period as real);
    }
  }

  lemma {:induction false} BlendInNumbers(v: real, x: real, n: real)
    requires n > 0.0
    ensures (n + 1.0) * Blend(v, x, 2.0 / (n + 1.0)) == 2.0 * v + (n - 1.0) * x
  {
    var m, k := n + 1.0, 2.0 / (n + 1.0);
    TimesQuotient(2.0, m);
    calc {
      m * ((v - x) * k + x);
      (v - x) * (m * k) + m * x;
      (v - x) * 2.0 + m * x;
    }
  }

  /** The sum of the upward moves, or of the downward ones. */
  function Rises(values: seq<real>): real {
    if |values| <= 1 then 0.0
    else
      var (x, y) := (values[|values| - 2], values[|values| - 1]);
      Rises(values[..|values| - 1]) + if y > x then y - x else 0.0
  }

  function Falls(values: seq<real>): real {
    if |values| <= 1 then 0.0
    else
      var (x, y) := (values[|values| - 2], values[|values| - 1]);
      Falls(values[..|values| - 1]) + if y < x then x - y else 0.0
  }

  lemma {:induction false} RisesAreGains(values: seq<real>)
    requires values != []
    ensures Sum(Gains(values)) == Rises(values) && Sum(Gains(Negated(values))) == Falls(values)
  {
    if |values| > 1 {
      var n := |values| - 1;
      RisesAreGains(values[..n]);
      GainsStep(values, n);
      assert values[..n + 1] == values;
      SumSnoc(Gains(values[..n]), Gain(values[n] - values[n - 1]));
      SumSnoc(Gains(Negated(values[..n])), Gain(-(values[n] - values[n - 1])));
    } else {
      assert Gains(values) == [] && Gains(Negated(values)) == [];
    }
  }

  lemma {:induction false} SumSnoc(s: seq<real>, x: real)
    ensures Sum(s + [x]) == Sum(s) + x
  {
    assert (s + [x])[..|s|] == s;
  }

  lemma {:induction false} WilderInNumbers(avg: real, gain: real, n: nat)
    requires n >= 1
    ensures Times(n as real, Wilder(avg, gain, n)) == Times(n as real - 1.0, avg) + gain
  {
    TimesQuotient(avg * (n - 1) as real + gain, n as real);
  }

  lemma {:induction false} MeanInNumbers(total: real, n: nat)
    requires n >= 1
    ensures Times(n as real, Mean(total, n)) == total
  {
    TimesQuotient(total, n as real);
  }

  lemma {:induction false} AvgInNumbers(values: seq<real>, period: nat)
    requires period >= 1 && |values| > period
    ensures |values| == period + 1 ==> Times(period as real, AvgGain(values, period)) == Sum(Gains(values))
    ensures |values| > period + 1 ==>
              Times(period as real, AvgGain(values, period)) ==
                Times(period as real - 1.0, AvgGain(values[..|values| - 1], period))
                + Gain(values[|values| - 1] - values[|values| - 2])
  {
    hide Wilder, Mean, Times;
    if |values| == period + 1 {
      MeanInNumbers(Sum(Gains(values)), period);
    } else {
      WilderInNumbers(AvgGain(values[..|values| - 1], period), Gain(values[|values| - 1] - values[|values| - 2]), period);
    }
  }

  /**
   Wilder's averages in numbers: the first are the means of the rises and falls of `period` moves,
   each further move counts one part in `period`; the index is the rises' share in percent, and
   100 when nothing fell.
   */
  lemma {:induction false} RsiInNumbers(values: seq<real>, period: nat)
    requires period >= 1 && |values| > period
    ensures var (g, l, n) := (AvgGain(values, period), AvgLoss(values, period), period as real);
      && g >= 0.0 && l >= 0.0
      && (|values| == period + 1 ==> Times(n, g) == Rises(values) && Times(n, l) == Falls(values))
      && (|values| > period + 1 ==>
            var (front, x, y) := (values[..|values| - 1], values[|values| - 2], values[|values| - 1]);
            && Times(n, g) == Times(n - 1.0, AvgGain(front, period)) + (if y > x then y - x else 0.0)
            && Times(n, l) == Times(n - 1.0, AvgLoss(front, period)) + (if y < x then x - y else 0.0))
      && (l == 0.0 ==> RsiOf(values, period) == 100.0)
      && (l > 0.0 ==> RsiOf(values, period) == 100.0 * g / (g + l))
  {
    RsiParts(values, period);
    StrengthShare(AvgGain(values, period), AvgLoss(values, period));
    AvgInNumbers(values, period);
    AvgInNumbers(Negated(values), period);
    RisesAreGains(values);
    if |values| > period + 1 {
      assert Negated(values)[..|values| - 1] == Negated(values[..|values| - 1]);
    }
    hide AvgGain, Times, Strength, RsiOf, Sum, Rises, Falls, Gains;
  }
}
