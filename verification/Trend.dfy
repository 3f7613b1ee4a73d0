/**
 Trend analysis of the monitor's risk engine: a bounded window of samples, the ordinary
 least-squares slope of that window, and the extrapolated time to a threshold.
 Floating-point values are modelled as reals; time stamps are whole seconds.
 */
module Trend {
  import opened Common

  const I64_MAX: int := 0x7FFF_FFFF_FFFF_FFFF

  /** The guard below which the denominator of the slope is taken for zero. */
  const DEGENERATE: real := 0.0000000001

  datatype Sample = Sample(ts: int, value: real)

  // ---------------------------------------------------------------- window

  /** One push: drop the oldest sample when the window is full, then append. */
  function Pushed(data: seq<Sample>, capacity: nat, s: Sample): seq<Sample> {
    (if |data| >= capacity && data != [] then data[1..] else data) + [s]
  }

  function PushedAll(data: seq<Sample>, capacity: nat, ss: seq<Sample>): seq<Sample> {
    if ss == [] then data else Pushed(PushedAll(data, capacity, ss[..|ss| - 1]), capacity, ss[|ss| - 1])
  }

  lemma SuffixGrows(capacity: nat, ss: seq<Sample>)
    requires capacity > 0 && ss != []
    ensures var k := |ss| - 1;
      Pushed(ss[..k][Max(0, k - capacity)..], capacity, ss[k]) == ss[Max(0, k + 1 - capacity)..]
  {
    var k := |ss| - 1;
    var low, low' := Max(0, k - capacity), Max(0, k + 1 - capacity);
    var before, after := ss[..k][low..], ss[low'..];
    assert |before| == k - low && |after| == k + 1 - low';
    if |before| >= capacity {
      assert before[1..] + [ss[k]] == after;
    } else {
      assert before + [ss[k]] == after;
    }
  }

  /** The window after any number of pushes is the most recent `capacity` samples, in order. */
  lemma {:induction false} WindowIsRecentSuffix(capacity: nat, ss: seq<Sample>)
    requires capacity > 0
    ensures PushedAll([], capacity, ss) == ss[Max(0, |ss| - capacity)..]
  {
    if ss == [] {
    } else {
      var k := |ss| - 1;
      WindowIsRecentSuffix(capacity, ss[..k]);
      SuffixGrows(capacity, ss);
    }
  }

  class RingBuffer {
    var data: seq<Sample>
    const capacity: nat

    constructor (cap: nat)
      ensures data == [] && capacity == cap
    {
      data := [];
      capacity := cap;
    }

    method Push(ts: int, value: real)
      modifies this`data
      ensures data == Pushed(old(data), capacity, Sample(ts, value))
      ensures 0 < capacity && |old(data)| <= capacity ==> |data| <= capacity
    {
      if |data| >= capacity {
        if data != [] { data := data[1..]; }
      }
      data := data + [Sample(ts, value)];
    }
  }

  // ---------------------------------------------------------------- sums

  function SumTs(d: seq<Sample>): real {
    if d == [] then 0.0 else SumTs(d[..|d| - 1]) + d[|d| - 1].ts as real
  }

  function SumValue(d: seq<Sample>): real {
    if d == [] then 0.0 else SumValue(d[..|d| - 1]) + d[|d| - 1].value
  }

  /** A product under a name, so that proofs can treat it as a whole. */
  function Mul(x: real, y: real): real { x * y }

  function Dx(s: Sample, mx: real): real { s.ts as real - mx }

  /** Sum of (x - mx) * (y - my). */
  function Cross(d: seq<Sample>, mx: real, my: real): real {
    if d == [] then 0.0
    else Cross(d[..|d| - 1], mx, my) + Mul(Dx(d[|d| - 1], mx), d[|d| - 1].value - my)
  }

  /** Sum of (x - mx) squared. */
  function Spread(d: seq<Sample>, mx: real): real {
    if d == [] then 0.0
    else Spread(d[..|d| - 1], mx) + Mul(Dx(d[|d| - 1], mx), Dx(d[|d| - 1], mx))
  }

  function MeanTs(d: seq<Sample>): real requires d != [] { SumTs(d) / |d| as real }

  function MeanValue(d: seq<Sample>): real requires d != [] { SumValue(d) / |d| as real }

  function Abs(x: real): real { if x < 0.0 then -x else x }

  /** The ordinary least-squares slope as the monitor computes it. */
  function Slope(d: seq<Sample>): real
    requires d != []
  {
    var den := Spread(d, MeanTs(d));
    if Abs(den) < DEGENERATE then 0.0 else Cross(d, MeanTs(d), MeanValue(d)) / den
  }

  function TrendPerSecond(d: seq<Sample>): real {
    if |d| < 2 then 0.0 else Slope(d)
  }

  /** Truncating float-to-i64 cast of a non-negative value; the cast saturates. */
  function ToI64(x: real): int
    requires x >= 0.0
  {
    if x >= (I64_MAX + 1) as real then I64_MAX else x.Floor
  }

  function EtaRising(d: seq<Sample>, threshold: real): Option<int> {
    var slope := TrendPerSecond(d);
    if slope <= 0.0 then None
    else
      var current := d[|d| - 1].value;
      if current >= threshold then Some(0) else Some(ToI64((threshold - current) / slope))
  }

  function EtaFalling(d: seq<Sample>, threshold: real): Option<int> {
    var slope := TrendPerSecond(d);
    if slope >= 0.0 then None
    else
      var current := d[|d| - 1].value;
      if current <= threshold then Some(0) else Some(ToI64((current - threshold) / -slope))
  }

  // ---------------------------------------------------------------- products

  lemma MulRules(u: real, c: real, v: real, w: real, s: real)
    ensures Mul(u, v) == Mul(v, u)
    ensures Mul(u + Mul(c, v), w) == Mul(u, w) + Mul(c, Mul(v, w))
    ensures Mul(c, s + v) == Mul(c, s) + Mul(c, v)
    ensures Mul(c, Mul(c, v)) == Mul(Mul(c, c), v)
  {
  }

  lemma MulZero(x: real)
    ensures Mul(0.0, x) == 0.0 && Mul(x, 0.0) == 0.0 && Mul(x, 1.0) == x
  {
  }

  lemma ProductSign(x: real, y: real)
    requires (x >= 0.0 && y >= 0.0) || (x <= 0.0 && y <= 0.0)
    ensures Mul(x, y) >= 0.0
    ensures x != 0.0 && y != 0.0 ==> Mul(x, y) > 0.0
  {
    if x < 0.0 {
      assert x * y == (-x) * (-y);
    }
  }

  lemma SquareSign(x: real)
    ensures Mul(x, x) >= 0.0
    ensures x != 0.0 ==> Mul(x, x) > 0.0
  {
    ProductSign(x, x);
  }

  // ---------------------------------------------------------------- residuals as vectors

  // The fitted residual is orthogonal to the time stamps and to the constant vector, so the
  // residual of any other line is longer (Pythagoras).

  function Dot(u: seq<real>, v: seq<real>): real
    requires |u| == |v|
  {
    if u == [] then 0.0 else Dot(u[..|u| - 1], v[..|v| - 1]) + Mul(u[|u| - 1], v[|v| - 1])
  }

  /** u + c * v, component by component. */
  function Shift(u: seq<real>, c: real, v: seq<real>): (r: seq<real>)
    requires |u| == |v|
    ensures |r| == |u|
  {
    if u == [] then []
    else Shift(u[..|u| - 1], c, v[..|v| - 1]) + [u[|u| - 1] + Mul(c, v[|v| - 1])]
  }

  function Ones(n: nat): (r: seq<real>)
    ensures |r| == n
  {
    if n == 0 then [] else Ones(n - 1) + [1.0]
  }

  function Total(u: seq<real>): real {
    if u == [] then 0.0 else Total(u[..|u| - 1]) + u[|u| - 1]
  }

  lemma {:induction false} DotSymmetric(u: seq<real>, v: seq<real>)
    requires |u| == |v|
    ensures Dot(u, v) == Dot(v, u)
  {
    hide Mul;
    if u == [] {
    } else {
      var k := |u| - 1;
      DotSymmetric(u[..k], v[..k]);
      MulRules(u[k], 0.0, v[k], 0.0, 0.0);
    }
  }

  lemma ShiftSplit(u: seq<real>, c: real, v: seq<real>)
    requires |u| == |v| > 0
    ensures var k := |u| - 1;
      Shift(u, c, v)[..k] == Shift(u[..k], c, v[..k]) && Shift(u, c, v)[k] == u[k] + Mul(c, v[k])
  {
  }

  lemma {:induction false} DotShift(u: seq<real>, c: real, v: seq<real>, w: seq<real>)
    requires |u| == |v| == |w|
    ensures Dot(Shift(u, c, v), w) == Dot(u, w) + Mul(c, Dot(v, w))
  {
    hide Mul, Shift;
    if u == [] {
      MulZero(c);
    } else {
      var k := |u| - 1;
      DotShift(u[..k], c, v[..k], w[..k]);
      ShiftSplit(u, c, v);
      MulRules(u[k], c, v[k], w[k], 0.0);
      MulRules(0.0, c, Mul(v[k], w[k]), 0.0, Dot(v[..k], w[..k]));
    }
  }

  lemma DotShiftRight(w: seq<real>, u: seq<real>, c: real, v: seq<real>)
    requires |u| == |v| == |w|
    ensures Dot(w, Shift(u, c, v)) == Dot(w, u) + Mul(c, Dot(w, v))
  {
    hide Mul, Dot, Shift;
    DotSymmetric(w, Shift(u, c, v));
    DotShift(u, c, v, w);
    DotSymmetric(w, u);
    DotSymmetric(w, v);
  }

  lemma Pythagoras(u: seq<real>, c: real, v: seq<real>)
    requires |u| == |v|
    requires Dot(u, v) == 0.0
    ensures Dot(Shift(u, c, v), Shift(u, c, v)) == Dot(u, u) + Mul(Mul(c, c), Dot(v, v))
  {
    hide Mul, Dot, Shift;
    var w := Shift(u, c, v);
    DotShift(u, c, v, w);
    DotShiftRight(u, u, c, v);
    DotShiftRight(v, u, c, v);
    DotSymmetric(u, v);
    MulZero(c);
    MulRules(0.0, c, Dot(v, v), 0.0, 0.0);
  }

  lemma {:induction false} DotOnes(u: seq<real>)
    ensures Dot(u, Ones(|u|)) == Total(u)
  {
    if u == [] {
    } else {
      DotOnes(u[..|u| - 1]);
      assert Ones(|u|)[..|u| - 1] == Ones(|u| - 1);
    }
  }

  lemma {:induction false} NormOfOnes(n: nat)
    ensures Dot(Ones(n), Ones(n)) == n as real
  {
    if n == 0 {
    } else {
      NormOfOnes(n - 1);
      assert Ones(n)[..n - 1] == Ones(n - 1);
    }
  }

  function DevTs(d: seq<Sample>, mx: real): (r: seq<real>)
    ensures |r| == |d|
  {
    if d == [] then [] else DevTs(d[..|d| - 1], mx) + [Dx(d[|d| - 1], mx)]
  }

  function DevValue(d: seq<Sample>, my: real): (r: seq<real>)
    ensures |r| == |d|
  {
    if d == [] then [] else DevValue(d[..|d| - 1], my) + [d[|d| - 1].value - my]
  }

  /** Height of the line with intercept `a` and slope `b` at time `x`. */
  function Line(a: real, b: real, x: real): real { a + b * x }

  function Residuals(d: seq<Sample>, a: real, b: real): (r: seq<real>)
    ensures |r| == |d|
  {
    if d == [] then []
    else Residuals(d[..|d| - 1], a, b) + [d[|d| - 1].value - Line(a, b, d[|d| - 1].ts as real)]
  }

  /** Squared error of a line over the window. */
  function SquaredError(d: seq<Sample>, a: real, b: real): real {
    if d == [] then 0.0
    else
      var r := d[|d| - 1].value - Line(a, b, d[|d| - 1].ts as real);
      SquaredError(d[..|d| - 1], a, b) + Mul(r, r)
  }

  lemma ResidualsSplit(d: seq<Sample>, a: real, b: real)
    requires d != []
    ensures var k, r := |d| - 1, Residuals(d, a, b);
      r[..k] == Residuals(d[..k], a, b) && r[k] == d[k].value - Line(a, b, d[k].ts as real)
  {
    hide Line;
  }

  lemma {:induction false} ErrorIsNorm(d: seq<Sample>, a: real, b: real)
    ensures SquaredError(d, a, b) == Dot(Residuals(d, a, b), Residuals(d, a, b))
  {
    hide Mul, Line, Residuals;
    if d == [] {
    } else {
      ErrorIsNorm(d[..|d| - 1], a, b);
      ResidualsSplit(d, a, b);
    }
  }

  lemma DeviationsSplit(d: seq<Sample>, mx: real, my: real)
    requires d != []
    ensures var k, u, v := |d| - 1, DevTs(d, mx), DevValue(d, my);
      && u[..k] == DevTs(d[..k], mx) && u[k] == Dx(d[k], mx)
      && v[..k] == DevValue(d[..k], my) && v[k] == d[k].value - my
  {
  }

  lemma {:induction false} SpreadsAreDots(d: seq<Sample>, mx: real, my: real)
    ensures Cross(d, mx, my) == Dot(DevTs(d, mx), DevValue(d, my))
    ensures Spread(d, mx) == Dot(DevTs(d, mx), DevTs(d, mx))
  {
    hide Mul, DevTs, DevValue;
    if d == [] {
    } else {
      SpreadsAreDots(d[..|d| - 1], mx, my);
      DeviationsSplit(d, mx, my);
    }
  }

  /** m added up n times. */
  function Times(n: nat, m: real): real {
    if n == 0 then 0.0 else Times(n - 1, m) + m
  }

  lemma {:induction false} TimesIsProduct(n: nat, m: real)
    ensures Times(n, m) == Mul(m, n as real)
  {
    hide Mul;
    MulZero(m);
    if n == 0 {
    } else {
      TimesIsProduct(n - 1, m);
      MulRules(0.0, m, 1.0, 0.0, (n - 1) as real);
    }
  }

  lemma {:induction false} TotalDeviation(d: seq<Sample>, mx: real, my: real)
    ensures Total(DevTs(d, mx)) == SumTs(d) - Times(|d|, mx)
    ensures Total(DevValue(d, my)) == SumValue(d) - Times(|d|, my)
  {
    if d == [] {
    } else {
      var k := |d| - 1;
      TotalDeviation(d[..k], mx, my);
      assert DevTs(d, mx)[..k] == DevTs(d[..k], mx);
      assert DevValue(d, my)[..k] == DevValue(d[..k], my);
    }
  }

  lemma Quotient(s: real, n: real)
    requires n != 0.0
    ensures Mul(s / n, n) == s
  {
  }

  /** Deviations from the mean sum to zero. */
  lemma Centred(d: seq<Sample>)
    requires d != []
    ensures Total(DevTs(d, MeanTs(d))) == 0.0
    ensures Dot(DevTs(d, MeanTs(d)), Ones(|d|)) == 0.0
    ensures Dot(DevValue(d, MeanValue(d)), Ones(|d|)) == 0.0
  {
    hide Mul, Dot, Ones, DevTs, DevValue, Total;
    TotalDeviation(d, MeanTs(d), MeanValue(d));
    TimesIsProduct(|d|, MeanTs(d));
    TimesIsProduct(|d|, MeanValue(d));
    DotOnes(DevTs(d, MeanTs(d)));
    DotOnes(DevValue(d, MeanValue(d)));
    Quotient(SumTs(d), |d| as real);
    Quotient(SumValue(d), |d| as real);
  }

  // ---------------------------------------------------------------- the guard

  lemma {:induction false} SpreadNonNegative(d: seq<Sample>, mx: real)
    ensures Spread(d, mx) >= 0.0
  {
    hide Mul;
    if d == [] {
    } else {
      SpreadNonNegative(d[..|d| - 1], mx);
      SquareSign(Dx(d[|d| - 1], mx));
    }
  }

  lemma {:induction false} SpreadDominates(d: seq<Sample>, mx: real, i: nat)
    requires i < |d|
    ensures Spread(d, mx) >= Mul(Dx(d[i], mx), Dx(d[i], mx))
  {
    hide Mul;
    var k := |d| - 1;
    SquareSign(Dx(d[k], mx));
    if i < k {
      SpreadDominates(d[..k], mx, i);
    } else {
      SpreadNonNegative(d[..k], mx);
    }
  }

  lemma {:induction false} SpreadDominatesTwo(d: seq<Sample>, mx: real, i: nat, j: nat)
    requires i < j < |d|
    ensures Spread(d, mx) >= Mul(Dx(d[i], mx), Dx(d[i], mx)) + Mul(Dx(d[j], mx), Dx(d[j], mx))
  {
    hide Mul;
    var k := |d| - 1;
    SquareSign(Dx(d[k], mx));
    if j < k {
      SpreadDominatesTwo(d[..k], mx, i, j);
    } else {
      SpreadDominates(d[..k], mx, i);
    }
  }

  lemma HalfGap(p: real, q: real)
    ensures Mul(p, p) + Mul(q, q) >= Mul(p - q, p - q) / 2.0
  {
    SquareSign(p + q);
    assert Mul(p + q, p + q) == p * p + 2.0 * (p * q) + q * q;
    assert Mul(p - q, p - q) == p * p - 2.0 * (p * q) + q * q;
  }

  lemma WholeGap(x: int, y: int)
    requires x != y
    ensures Mul(x as real - y as real, x as real - y as real) >= 1.0
  {
    var g := x as real - y as real;
    assert g == (x - y) as real;
    assert g >= 1.0 || g <= -1.0;
    if g <= -1.0 {
      assert g * g == (-g) * (-g);
    }
  }

  predicate AllSameTime(d: seq<Sample>) {
    forall i, j :: 0 <= i < j < |d| ==> d[i].ts == d[j].ts
  }

  lemma {:induction false} SumsOfSame(d: seq<Sample>, x: real, my: real)
    requires forall i :: 0 <= i < |d| ==> d[i].ts as real == x
    ensures SumTs(d) == Times(|d|, x) && Spread(d, x) == 0.0 && Cross(d, x, my) == 0.0
  {
    hide Mul;
    if d == [] {
    } else {
      SumsOfSame(d[..|d| - 1], x, my);
      MulZero(d[|d| - 1].value - my);
      MulZero(0.0);
    }
  }

  lemma DivideBack(x: real, n: real)
    requires n != 0.0
    ensures Mul(x, n) / n == x
  {
  }

  lemma MeanOfSame(d: seq<Sample>)
    requires d != [] && AllSameTime(d)
    ensures Spread(d, MeanTs(d)) == 0.0
    ensures Cross(d, MeanTs(d), MeanValue(d)) == 0.0
  {
    var x, n := d[0].ts as real, |d| as real;
    SumsOfSame(d, x, MeanValue(d));
    TimesIsProduct(|d|, x);
    DivideBack(x, n);
  }

  /** The zero-denominator guard fires exactly when all time stamps in the window coincide. */
  lemma GuardExactlyOnEqualTimes(d: seq<Sample>)
    requires d != []
    ensures Abs(Spread(d, MeanTs(d))) < DEGENERATE <==> AllSameTime(d)
    ensures !AllSameTime(d) ==> Spread(d, MeanTs(d)) >= 0.5
  {
    hide Mul, Spread, Cross, MeanTs, MeanValue;
    if AllSameTime(d) {
      MeanOfSame(d);
    } else {
      var i, j :| 0 <= i < j < |d| && d[i].ts != d[j].ts;
      var mx := MeanTs(d);
      SpreadDominatesTwo(d, mx, i, j);
      HalfGap(Dx(d[i], mx), Dx(d[j], mx));
      WholeGap(d[i].ts, d[j].ts);
      assert Dx(d[i], mx) - Dx(d[j], mx) == d[i].ts as real - d[j].ts as real;
    }
  }

  // ---------------------------------------------------------------- optimality

  lemma SlopeTimesSpread(d: seq<Sample>)
    requires d != []
    ensures Mul(Slope(d), Spread(d, MeanTs(d))) == Cross(d, MeanTs(d), MeanValue(d))
  {
    hide Mul, Spread, Cross, MeanTs, MeanValue;
    GuardExactlyOnEqualTimes(d);
    if AllSameTime(d) {
      MeanOfSame(d);
      MulZero(0.0);
    } else {
      Quotient(Cross(d, MeanTs(d), MeanValue(d)), Spread(d, MeanTs(d)));
    }
  }

  /** Residuals of the fitted line, written around the mean point. */
  function FitResiduals(d: seq<Sample>): (r: seq<real>)
    requires d != []
    ensures |r| == |d|
  {
    Shift(DevValue(d, MeanValue(d)), -Slope(d), DevTs(d, MeanTs(d)))
  }

  lemma MulMinus(b: real, s: real)
    ensures Mul(-b, s) == -Mul(b, s)
  {
  }

  /** The normal equations. */
  lemma FitIsOrthogonal(d: seq<Sample>)
    requires d != []
    ensures Dot(FitResiduals(d), DevTs(d, MeanTs(d))) == 0.0
    ensures Dot(FitResiduals(d), Ones(|d|)) == 0.0
  {
    hide Mul, Dot, Shift, DevTs, DevValue, Ones, Slope, Spread, Cross, MeanTs, MeanValue;
    var u, v, b := DevValue(d, MeanValue(d)), DevTs(d, MeanTs(d)), Slope(d);
    DotShift(u, -b, v, v);
    DotShift(u, -b, v, Ones(|d|));
    Centred(d);
    SpreadsAreDots(d, MeanTs(d), MeanValue(d));
    DotSymmetric(u, v);
    SlopeTimesSpread(d);
    MulMinus(b, Dot(v, v));
    MulZero(-b);
  }

  lemma {:induction false} ShiftAt(u: seq<real>, c: real, v: seq<real>, i: nat)
    requires |u| == |v| && i < |u|
    ensures Shift(u, c, v)[i] == u[i] + Mul(c, v[i])
  {
    if i == |u| - 1 {
    } else {
      ShiftAt(u[..|u| - 1], c, v[..|v| - 1], i);
    }
  }

  lemma {:induction false} VectorsAt(d: seq<Sample>, a: real, b: real, mx: real, my: real, i: nat)
    requires i < |d|
    ensures DevTs(d, mx)[i] == Dx(d[i], mx)
    ensures DevValue(d, my)[i] == d[i].value - my
    ensures Residuals(d, a, b)[i] == d[i].value - Line(a, b, d[i].ts as real)
    ensures Ones(|d|)[i] == 1.0
  {
    hide Line;
    if i == |d| - 1 {
    } else {
      VectorsAt(d[..|d| - 1], a, b, mx, my, i);
    }
  }

  lemma PointResidual(y: real, x: real, a: real, b: real, mx: real, my: real, b0: real)
    ensures y - Line(a, b, x)
         == y - my + Mul(-b0, x - mx) + Mul(b0 - b, x - mx) + Mul(my - Line(a, b, mx), 1.0)
  {
  }

  /** The residual of any line is the fitted residual shifted along the two spanning vectors. */
  lemma LineAroundMean(d: seq<Sample>, a: real, b: real)
    requires d != []
    ensures Residuals(d, a, b)
         == Shift(Shift(FitResiduals(d), Slope(d) - b, DevTs(d, MeanTs(d))),
                  MeanValue(d) - Line(a, b, MeanTs(d)), Ones(|d|))
  {
    hide Mul, Line, Shift, DevTs, DevValue, Ones, Residuals, Slope, MeanTs, MeanValue;
    var b0, mx, my := Slope(d), MeanTs(d), MeanValue(d);
    var v, c := DevTs(d, mx), my - Line(a, b, mx);
    var s1 := Shift(FitResiduals(d), b0 - b, v);
    forall i | 0 <= i < |d|
      ensures Residuals(d, a, b)[i] == Shift(s1, c, Ones(|d|))[i]
    {
      VectorsAt(d, a, b, mx, my, i);
      ShiftAt(DevValue(d, my), -b0, v, i);
      ShiftAt(FitResiduals(d), b0 - b, v, i);
      ShiftAt(s1, c, Ones(|d|), i);
      PointResidual(d[i].value, d[i].ts as real, a, b, mx, my, b0);
    }
  }

  lemma ErrorOfLine(d: seq<Sample>, a: real, b: real)
    requires d != []
    ensures var p, q := Slope(d) - b, MeanValue(d) - Line(a, b, MeanTs(d));
      SquaredError(d, a, b)
      == Dot(FitResiduals(d), FitResiduals(d)) + Mul(Mul(p, p), Spread(d, MeanTs(d))) + Mul(Mul(q, q), |d| as real)
  {
    hide Mul, Line, Dot, Shift, DevTs, DevValue, Ones, Slope, Residuals, Spread, SquaredError, MeanTs, MeanValue,
      FitResiduals;
    var r, v := FitResiduals(d), DevTs(d, MeanTs(d));
    var p, q := Slope(d) - b, MeanValue(d) - Line(a, b, MeanTs(d));
    FitIsOrthogonal(d);
    var r1 := Shift(r, p, v);
    assert Dot(r1, Ones(|d|)) == 0.0 by {
      DotShift(r, p, v, Ones(|d|));
      Centred(d);
      MulZero(p);
    }
    Pythagoras(r, p, v);
    Pythagoras(r1, q, Ones(|d|));
    SpreadsAreDots(d, MeanTs(d), MeanValue(d));
    NormOfOnes(|d|);
    ErrorIsNorm(d, a, b);
    LineAroundMean(d, a, b);
  }

  /** Intercept of the line with the computed slope through the mean point. */
  function Intercept(d: seq<Sample>): real
    requires d != []
  {
    MeanValue(d) - Slope(d) * MeanTs(d)
  }

  lemma ThroughMean(d: seq<Sample>)
    requires d != []
    ensures Line(Intercept(d), Slope(d), MeanTs(d)) == MeanValue(d)
  {
  }

  /**
   Least-squares decomposition, for every window: the squared error of any line is that of the
   fitted line plus one square for the slope and one for the height at the mean time.
   */
  lemma LeastSquares(d: seq<Sample>, a: real, b: real)
    requires d != []
    ensures var p, q := Slope(d) - b, MeanValue(d) - Line(a, b, MeanTs(d));
      SquaredError(d, a, b)
      == SquaredError(d, Intercept(d), Slope(d)) + Mul(Mul(p, p), Spread(d, MeanTs(d))) + Mul(Mul(q, q), |d| as real)
  {
    hide Mul, Line, Dot, Slope, Spread, SquaredError, MeanTs, MeanValue, FitResiduals, Intercept;
    ErrorOfLine(d, a, b);
    ErrorOfLine(d, Intercept(d), Slope(d));
    ThroughMean(d);
    MulZero(0.0);
    MulZero(Spread(d, MeanTs(d)));
    MulZero(|d| as real);
  }

  lemma TwoSquares(p: real, s: real, q: real, n: real)
    requires s >= 0.0 && n > 0.0
    ensures Mul(Mul(p, p), s) + Mul(Mul(q, q), n) >= 0.0
    ensures Mul(Mul(p, p), s) + Mul(Mul(q, q), n) == 0.0 && s > 0.0 ==> p == 0.0 && q == 0.0
  {
    hide Mul;
    SquareSign(p);
    SquareSign(q);
    ProductSign(Mul(p, p), s);
    ProductSign(Mul(q, q), n);
  }

  lemma SameLine(a: real, b: real, a': real, x: real)
    requires Line(a, b, x) == Line(a', b, x)
    ensures a == a'
  {
  }

  /** No line fits the window better, and with two distinct times no other line fits as well. */
  lemma BestLine(d: seq<Sample>, a: real, b: real)
    requires d != []
    ensures SquaredError(d, Intercept(d), Slope(d)) <= SquaredError(d, a, b)
    ensures !AllSameTime(d) && SquaredError(d, Intercept(d), Slope(d)) == SquaredError(d, a, b)
            ==> a == Intercept(d) && b == Slope(d)
  {
    hide Mul, Line, Slope, Spread, SquaredError, MeanTs, MeanValue, Intercept;
    LeastSquares(d, a, b);
    SpreadNonNegative(d, MeanTs(d));
    GuardExactlyOnEqualTimes(d);
    ThroughMean(d);
    TwoSquares(Slope(d) - b, Spread(d, MeanTs(d)), MeanValue(d) - Line(a, b, MeanTs(d)), |d| as real);
    if b == Slope(d) && Line(a, b, MeanTs(d)) == MeanValue(d) {
      SameLine(a, b, Intercept(d), MeanTs(d));
    }
  }

  // ---------------------------------------------------------------- direction of the trend

  predicate Increasing(d: seq<Sample>) {
    forall i, j :: 0 <= i < j < |d| ==> d[i].ts < d[j].ts
  }

  predicate NeverFalls(d: seq<Sample>) {
    forall i, j :: 0 <= i < j < |d| ==> d[i].value <= d[j].value
  }

  /** Centring the values elsewhere moves the cross sum by a multiple of the total deviation. */
  lemma {:induction false} CrossMoves(d: seq<Sample>, mx: real, my: real, c: real)
    ensures Cross(d, mx, my) == Cross(d, mx, c) + Mul(c - my, Total(DevTs(d, mx)))
  {
    hide Mul;
    MulZero(c - my);
    if d == [] {
    } else {
      var k := |d| - 1;
      CrossMoves(d[..k], mx, my, c);
      assert DevTs(d, mx)[..k] == DevTs(d[..k], mx);
      CrossMovesPoint(Dx(d[k], mx), d[k].value, my, c);
      MulRules(0.0, c - my, Dx(d[k], mx), 0.0, Total(DevTs(d[..k], mx)));
    }
  }

  lemma CrossMovesPoint(v: real, y: real, my: real, c: real)
    ensures Mul(v, y - my) == Mul(v, y - c) + Mul(c - my, v)
  {
  }

  lemma CrossAround(d: seq<Sample>, c: real)
    requires d != []
    ensures Cross(d, MeanTs(d), MeanValue(d)) == Cross(d, MeanTs(d), c)
  {
    hide Mul, Cross, DevTs, Total, Dot, Ones, MeanTs, MeanValue;
    CrossMoves(d, MeanTs(d), MeanValue(d), c);
    Centred(d);
    MulZero(c - MeanValue(d));
  }

  /** A sum of non-negative products is at least each of them. */
  lemma {:induction false} CrossAtLeastTerm(d: seq<Sample>, mx: real, c: real, i: nat)
    requires forall j :: 0 <= j < |d| ==> Mul(Dx(d[j], mx), d[j].value - c) >= 0.0
    ensures Cross(d, mx, c) >= 0.0
    ensures i < |d| ==> Cross(d, mx, c) >= Mul(Dx(d[i], mx), d[i].value - c)
  {
    hide Mul;
    if d == [] {
    } else {
      var k := |d| - 1;
      assert forall j :: 0 <= j < k ==> d[..k][j] == d[j];
      CrossAtLeastTerm(d[..k], mx, c, i);
    }
  }

  lemma {:induction false} TotalSign(u: seq<real>)
    requires u != [] && forall i :: 0 <= i < |u| ==> u[i] >= 0.0
    ensures Total(u) >= u[|u| - 1]
  {
    if |u| == 1 {
    } else {
      TotalSign(u[..|u| - 1]);
    }
  }

  lemma {:induction false} TotalSignBelow(u: seq<real>)
    requires u != [] && forall i :: 0 <= i < |u| ==> u[i] <= 0.0
    ensures Total(u) <= u[0]
  {
    if |u| == 1 {
    } else {
      TotalSignBelow(u[..|u| - 1]);
    }
  }

  /** The mean of increasing time stamps lies strictly inside the window. */
  lemma MeanInside(d: seq<Sample>)
    requires |d| >= 2 && Increasing(d)
    ensures Dx(d[0], MeanTs(d)) < 0.0 < Dx(d[|d| - 1], MeanTs(d))
  {
    hide Mul, MeanTs, DevTs, Total, Dot, Ones;
    var mx, last := MeanTs(d), |d| - 1;
    var u := DevTs(d, mx);
    Centred(d);
    forall i | 0 <= i < |d|
      ensures u[i] == Dx(d[i], mx) && Dx(d[0], mx) <= u[i] <= Dx(d[last], mx)
      ensures i < last ==> u[i] < Dx(d[last], mx)
    {
      VectorsAt(d, 0.0, 0.0, mx, 0.0, i);
    }
    if Dx(d[0], mx) >= 0.0 {
      TotalSign(u);
    }
    if Dx(d[last], mx) <= 0.0 {
      TotalSignBelow(u);
    }
  }

  /** The last sample not after the mean time. */
  lemma Pivot(d: seq<Sample>, mx: real) returns (k: nat)
    requires |d| >= 2 && Increasing(d)
    requires Dx(d[0], mx) < 0.0
    ensures k < |d|
    ensures forall i :: 0 <= i <= k ==> Dx(d[i], mx) <= 0.0
    ensures forall i :: k < i < |d| ==> Dx(d[i], mx) > 0.0
  {
    k := 0;
    while k + 1 < |d| && Dx(d[k + 1], mx) <= 0.0
      invariant k < |d|
      invariant forall i :: 0 <= i <= k ==> Dx(d[i], mx) <= 0.0
    {
      k := k + 1;
    }
  }

  /** Chebyshev's argument: around the pivot every term of the cross sum has the right sign. */
  lemma CrossOfRising(d: seq<Sample>)
    requires |d| >= 2 && Increasing(d) && NeverFalls(d)
    requires d[0].value < d[|d| - 1].value
    ensures Cross(d, MeanTs(d), MeanValue(d)) > 0.0
  {
    hide Mul, Cross, MeanTs, MeanValue;
    var mx, last := MeanTs(d), |d| - 1;
    MeanInside(d);
    var k := Pivot(d, mx);
    var c := d[k].value;
    CrossAround(d, c);
    forall i | 0 <= i < |d|
      ensures Mul(Dx(d[i], mx), d[i].value - c) >= 0.0
    {
      ProductSign(Dx(d[i], mx), d[i].value - c);
    }
    var w := if d[0].value < c then 0 else last;
    ProductSign(Dx(d[w], mx), d[w].value - c);
    CrossAtLeastTerm(d, mx, c, w);
  }

  lemma QuotientSign(x: real, y: real)
    requires x > 0.0 && y > 0.0
    ensures x / y > 0.0
  {
  }

  /** Rising values give a strictly positive slope, hence a prediction for every threshold. */
  lemma RisingTrend(d: seq<Sample>, threshold: real)
    requires |d| >= 2 && Increasing(d) && NeverFalls(d)
    requires d[0].value < d[|d| - 1].value
    ensures TrendPerSecond(d) > 0.0
    ensures EtaRising(d, threshold).Some? && EtaRising(d, threshold).value >= 0
    ensures EtaFalling(d, threshold).None?
  {
    hide Cross, Spread, MeanTs, MeanValue;
    CrossOfRising(d);
    assert d[0].ts != d[1].ts;
    GuardExactlyOnEqualTimes(d);
    QuotientSign(Cross(d, MeanTs(d), MeanValue(d)), Spread(d, MeanTs(d)));
  }

  // ---------------------------------------------------------------- falling by reflection

  function Flip(d: seq<Sample>): (r: seq<Sample>)
    ensures |r| == |d|
    ensures forall i :: 0 <= i < |d| ==> r[i] == Sample(d[i].ts, -d[i].value)
  {
    seq(|d|, i requires 0 <= i < |d| => Sample(d[i].ts, -d[i].value))
  }

  lemma MulNeg(v: real, y: real, my: real)
    ensures Mul(v, -y - -my) == -Mul(v, y - my)
  {
  }

  lemma {:induction false} FlipSums(d: seq<Sample>, mx: real, my: real)
    ensures SumTs(Flip(d)) == SumTs(d) && SumValue(Flip(d)) == -SumValue(d)
    ensures Spread(Flip(d), mx) == Spread(d, mx)
    ensures Cross(Flip(d), mx, -my) == -Cross(d, mx, my)
  {
    hide Mul;
    if d == [] {
    } else {
      var k := |d| - 1;
      FlipSums(d[..k], mx, my);
      assert Flip(d)[..k] == Flip(d[..k]);
      MulNeg(Dx(d[k], mx), d[k].value, my);
    }
  }

  lemma NegQuotient(x: real, y: real)
    requires y != 0.0
    ensures (-x) / y == -(x / y)
  {
  }

  lemma FlipSlope(d: seq<Sample>)
    requires d != []
    ensures Slope(Flip(d)) == -Slope(d)
  {
    hide Spread, Cross, SumTs, SumValue, Flip;
    FlipSums(d, MeanTs(d), MeanValue(d));
    NegQuotient(SumValue(d), |d| as real);
    assert MeanTs(Flip(d)) == MeanTs(d) && MeanValue(Flip(d)) == -MeanValue(d);
    if Abs(Spread(d, MeanTs(d))) >= DEGENERATE {
      NegQuotient(Cross(d, MeanTs(d), MeanValue(d)), Spread(d, MeanTs(d)));
    }
  }

  /** Predicting a fall is predicting the rise of the reflected window. */
  lemma FallingIsReflectedRising(d: seq<Sample>, threshold: real)
    ensures TrendPerSecond(Flip(d)) == -TrendPerSecond(d)
    ensures EtaFalling(d, threshold) == EtaRising(Flip(d), -threshold)
  {
    hide Slope;
    if d != [] {
      FlipSlope(d);
      assert -threshold - -d[|d| - 1].value == d[|d| - 1].value - threshold;
    }
  }

  lemma FallingTrend(d: seq<Sample>, threshold: real)
    requires |d| >= 2 && Increasing(d) && NeverFalls(Flip(d))
    requires d[0].value > d[|d| - 1].value
    ensures TrendPerSecond(d) < 0.0
    ensures EtaFalling(d, threshold).Some? && EtaFalling(d, threshold).value >= 0
  {
    hide Slope, EtaFalling, EtaRising, TrendPerSecond;
    FallingIsReflectedRising(d, threshold);
    RisingTrend(Flip(d), -threshold);
  }

  // ---------------------------------------------------------------- exact prediction

  predicate Linear(d: seq<Sample>, a: real, m: real) {
    forall i :: 0 <= i < |d| ==> d[i].value == Line(a, m, d[i].ts as real)
  }

  lemma {:induction false} ErrorOfLinear(d: seq<Sample>, a: real, m: real)
    requires Linear(d, a, m)
    ensures SquaredError(d, a, m) == 0.0
  {
    hide Line, Mul;
    if d == [] {
    } else {
      ErrorOfLinear(d[..|d| - 1], a, m);
      MulZero(0.0);
    }
  }

  lemma {:induction false} ErrorNonNegative(d: seq<Sample>, a: real, m: real)
    ensures SquaredError(d, a, m) >= 0.0
  {
    hide Line, Mul;
    if d == [] {
    } else {
      ErrorNonNegative(d[..|d| - 1], a, m);
      SquareSign(d[|d| - 1].value - Line(a, m, d[|d| - 1].ts as real));
    }
  }

  /** On exactly linear data the computed slope is the true one. */
  lemma SlopeOfLinear(d: seq<Sample>, a: real, m: real)
    requires d != [] && Linear(d, a, m) && !AllSameTime(d)
    ensures Slope(d) == m && Intercept(d) == a
  {
    hide Slope, Intercept, SquaredError, Line;
    ErrorOfLinear(d, a, m);
    ErrorNonNegative(d, Intercept(d), Slope(d));
    BestLine(d, a, m);
  }

  lemma CrossingTime(a: real, m: real, x: real, t: real)
    requires m > 0.0
    ensures (Line(a, m, t) - Line(a, m, x)) / m == t - x
  {
  }

  /**
   On exactly linear rising data, the prediction plus the last sample's time brackets the true
   crossing time within one second, unless the crossing is beyond the range of i64.
   */
  lemma EtaBracketsCrossing(d: seq<Sample>, a: real, m: real, threshold: real, t: real)
    requires d != [] && Linear(d, a, m) && !AllSameTime(d) && m > 0.0
    requires Line(a, m, t) == threshold && d[|d| - 1].value < threshold
    ensures EtaRising(d, threshold).Some?
    ensures var ahead, eta := t - d[|d| - 1].ts as real, EtaRising(d, threshold).value;
      && 0.0 <= eta as real <= ahead
      && (ahead < (I64_MAX + 1) as real <==> ahead < eta as real + 1.0)
      && (ahead >= (I64_MAX + 1) as real ==> eta == I64_MAX)
  {
    hide Slope, Line;
    SlopeOfLinear(d, a, m);
    CrossingTime(a, m, d[|d| - 1].ts as real, t);
    QuotientSign(threshold - d[|d| - 1].value, m);
  }

  lemma LinearFlips(d: seq<Sample>, a: real, m: real, t: real)
    requires Linear(d, a, m)
    ensures Linear(Flip(d), -a, -m) && Line(-a, -m, t) == -Line(a, m, t)
  {
    forall i | 0 <= i < |d|
      ensures Flip(d)[i].value == Line(-a, -m, d[i].ts as real)
    {
    }
  }

  lemma EtaFallingBracketsCrossing(d: seq<Sample>, a: real, m: real, threshold: real, t: real)
    requires d != [] && Linear(d, a, m) && !AllSameTime(d) && m < 0.0
    requires Line(a, m, t) == threshold && d[|d| - 1].value > threshold
    ensures EtaFalling(d, threshold).Some?
    ensures var ahead, eta := t - d[|d| - 1].ts as real, EtaFalling(d, threshold).value;
      && 0.0 <= eta as real <= ahead
      && (ahead < (I64_MAX + 1) as real <==> ahead < eta as real + 1.0)
  {
    hide Slope, Line, EtaFalling, EtaRising;
    LinearFlips(d, a, m, t);
    var i, j :| 0 <= i < j < |d| && d[i].ts != d[j].ts;
    assert Flip(d)[i].ts != Flip(d)[j].ts;
    FallingIsReflectedRising(d, threshold);
    EtaBracketsCrossing(Flip(d), -a, -m, -threshold, t);
  }

  // ---------------------------------------------------------------- the number predicted

  lemma FloorTimes(x: real, b: real)
    requires b > 0.0 && x >= 0.0
    ensures x / b >= 0.0 && (x / b).Floor >= 0
    ensures Mul((x / b).Floor as real, b) <= x < Mul((x / b).Floor as real + 1.0, b)
  {
    var q := x / b;
    var e := q.Floor as real;
    assert e <= q < e + 1.0;
    assert x == Mul(q, b) by { Quotient(x, b); }
    MulMonotone(e, q, b);
    MulMonotone(q, e + 1.0, b);
  }

  lemma MulMonotone(u: real, v: real, b: real)
    requires u <= v && b > 0.0
    ensures Mul(u, b) <= Mul(v, b) && (u < v ==> Mul(u, b) < Mul(v, b))
  {
    ProductSign(v - u, b);
    assert Mul(v - u, b) == Mul(v, b) - Mul(u, b);
  }

  /** Whether the prediction fits in 64 bits. */
  predicate Fits(room: real, b: real) { room < Mul((I64_MAX + 1) as real, b) }

  lemma FitsIff(room: real, b: real)
    requires b > 0.0 && room >= 0.0
    ensures Fits(room, b) <==> room / b < (I64_MAX + 1) as real
  {
    hide I64_MAX;
    var q, top := room / b, (I64_MAX + 1) as real;
    assert room == Mul(q, b) by { Quotient(room, b); }
    if q < top {
      MulMonotone(q, top, b);
    } else {
      MulMonotone(top, q, b);
    }
  }

  /**
   The number predicted, for every window with a rising slope b and last value y: the largest whole
   number of seconds e with e * b not beyond the distance to the threshold, which is zero once the
   threshold is reached, or the largest 64-bit number if that does not fit.
   */
  lemma EtaRisingIs(d: seq<Sample>, threshold: real)
    requires TrendPerSecond(d) > 0.0
    ensures EtaRising(d, threshold).Some?
    ensures var b, e, y := TrendPerSecond(d), EtaRising(d, threshold).value, d[|d| - 1].value;
      var room := if threshold > y then threshold - y else 0.0;
      && (Fits(room, b) ==> e >= 0 && Mul(e as real, b) <= room < Mul(e as real + 1.0, b))
      && (!Fits(room, b) ==> e == I64_MAX)
      && (y >= threshold ==> e == 0)
  {
    var b, y := TrendPerSecond(d), d[|d| - 1].value;
    var room := if threshold > y then threshold - y else 0.0;
    hide TrendPerSecond, Mul;
    FloorTimes(room, b);
    FitsIff(room, b);
    MulZero(b);
    MulOneReal(b);
    hide Fits;
  }

  lemma MulOneReal(b: real)
    ensures Mul(0.0 + 1.0, b) == b && Mul(0.0, b) == 0.0
  {
  }

  /** The same for a falling slope, with the distance measured downwards. */
  lemma EtaFallingIs(d: seq<Sample>, threshold: real)
    requires TrendPerSecond(d) < 0.0
    ensures EtaFalling(d, threshold).Some?
    ensures var b, e, y := -TrendPerSecond(d), EtaFalling(d, threshold).value, d[|d| - 1].value;
      var room := if y > threshold then y - threshold else 0.0;
      && (Fits(room, b) ==> e >= 0 && Mul(e as real, b) <= room < Mul(e as real + 1.0, b))
      && (!Fits(room, b) ==> e == I64_MAX)
      && (y <= threshold ==> e == 0)
  {
    FallingIsReflectedRising(d, threshold);
    hide EtaRising, EtaFalling, TrendPerSecond, Mul, Fits;
    EtaRisingIs(Flip(d), -threshold);
  }

  /** No prediction is made without a trend in the right direction. */
  lemma NoTrendNoEta(d: seq<Sample>, threshold: real)
    ensures EtaRising(d, threshold).None? <==> TrendPerSecond(d) <= 0.0
    ensures EtaFalling(d, threshold).None? <==> TrendPerSecond(d) >= 0.0
  {
    hide Slope;
  }
}
