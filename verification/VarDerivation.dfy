/** The hand derivation of a fund's parametric VaR up to its radicand, over exact reals: factor
    exposures accumulated from quantized contributions, a quantized sample covariance, and the
    quadratic form the two make.
 */
module VarDerivation {
  import opened Wrappers

  type Vector = seq<real>
  type Matrix = seq<Vector>

  // ---------------------------------------------------------------------------------
  // Quantization to 20 decimal places, halves away from zero
  // ---------------------------------------------------------------------------------

  const SCALE: real := 100000000000000000000.0
  const HALF: real := 0.000000000000000000005

  function HalfUp(x: real): real {
    if x >= 0.0 then (x * SCALE + 0.5).Floor as real / SCALE
    else -((-x * SCALE + 0.5).Floor as real / SCALE)
  }

  function Abs(x: real): real {
    if x >= 0.0 then x else -x
  }

  /** `x` and `y` differ by at most `d`. */
  predicate Near(x: real, y: real, d: real) {
    x - y <= d && y - x <= d
  }

  /** `y` has at most 20 decimal places. */
  predicate OnGrid(y: real) {
    (y * SCALE).Floor as real == y * SCALE
  }

  lemma HalfUpOnGrid(x: real)
    ensures OnGrid(HalfUp(x))
  {
    var k := if x >= 0.0 then (x * SCALE + 0.5).Floor else -((-x * SCALE + 0.5).Floor);
    assert HalfUp(x) * SCALE == k as real;
  }

  lemma HalfUpIsClose(x: real)
    ensures Near(HalfUp(x), x, HALF)
  {
  }

  lemma HalfUpIsOdd(x: real)
    ensures HalfUp(-x) == -HalfUp(x)
  {
  }

  /** What the rounding is, said without its formula: the one grid point within half a unit that,
      at a tie, lies away from zero. */
  lemma HalfUpIsTheOne(x: real, y: real)
    requires OnGrid(y) && Near(y, x, HALF)
    requires Abs(y - x) == HALF ==> Abs(y) > Abs(x)
    ensures y == HalfUp(x)
  {
    var k := (y * SCALE).Floor;
    assert y * SCALE - x * SCALE == (y - x) * SCALE;
    if x >= 0.0 {
      assert x * SCALE - 0.5 < k as real <= x * SCALE + 0.5;
      assert (x * SCALE + 0.5).Floor == k;
    } else {
      assert -x * SCALE - 0.5 < -k as real <= -x * SCALE + 0.5;
      assert (-x * SCALE + 0.5).Floor == -k;
    }
  }

  // ---------------------------------------------------------------------------------
  // Sums
  // ---------------------------------------------------------------------------------

  function Sum(v: Vector): real {
    if v == [] then 0.0 else v[0] + Sum(v[1..])
  }

  function Dot(u: Vector, v: Vector): real
    requires |u| == |v|
  {
    if u == [] then 0.0 else u[0] * v[0] + Dot(u[1..], v[1..])
  }

  lemma {:induction false} DotCommutes(u: Vector, v: Vector)
    requires |u| == |v|
    ensures Dot(u, v) == Dot(v, u)
  {
    if u != [] { DotCommutes(u[1..], v[1..]); }
  }

  lemma {:induction false} SquareIsNonNegative(u: Vector)
    ensures Dot(u, u) >= 0.0
  {
    if u != [] {
      SquareIsNonNegative(u[1..]);
      assert u[0] * u[0] >= 0.0;
    }
  }

  function Scaled(c: real, v: Vector): (r: Vector)
    ensures |r| == |v|
  {
    if v == [] then [] else [c * v[0]] + Scaled(c, v[1..])
  }

  function Plus(u: Vector, v: Vector): (r: Vector)
    requires |u| == |v|
    ensures |r| == |u|
  {
    seq(|u|, i requires 0 <= i < |u| => u[i] + v[i])
  }

  lemma {:induction false} DotScaled(c: real, u: Vector, w: Vector)
    requires |u| == |w|
    ensures Dot(Scaled(c, u), w) == c * Dot(u, w)
  {
    if u != [] {
      DotScaled(c, u[1..], w[1..]);
      Distribute(c, u[0] * w[0], Dot(u[1..], w[1..]));
      assert c * u[0] * w[0] == c * (u[0] * w[0]);
    }
  }

  lemma Distribute(c: real, x: real, y: real)
    ensures c * (x + y) == c * x + c * y
  {
  }

  lemma {:induction false} DotPlus(u: Vector, v: Vector, w: Vector)
    requires |u| == |v| == |w|
    ensures Dot(Plus(u, v), w) == Dot(u, w) + Dot(v, w)
  {
    if u != [] {
      assert Plus(u, v)[1..] == Plus(u[1..], v[1..]);
      DotPlus(u[1..], v[1..], w[1..]);
      assert (u[0] + v[0]) * w[0] == u[0] * w[0] + v[0] * w[0];
    }
  }

  function Norm(u: Vector): (r: real)
    ensures r >= 0.0
  {
    if u == [] then 0.0 else Abs(u[0]) + Norm(u[1..])
  }

  lemma AbsTimes(x: real, y: real, d: real)
    requires -d <= y <= d
    ensures -(Abs(x) * d) <= x * y <= Abs(x) * d
  {
  }

  /** `Norm(u) * d`, entry by entry. */
  function Spread(u: Vector, d: real): real {
    if u == [] then 0.0 else Abs(u[0]) * d + Spread(u[1..], d)
  }

  lemma {:induction false} SpreadIsNorm(u: Vector, d: real)
    ensures Spread(u, d) == Norm(u) * d
  {
    if u != [] {
      SpreadIsNorm(u[1..], d);
      assert (Abs(u[0]) + Norm(u[1..])) * d == Abs(u[0]) * d + Norm(u[1..]) * d;
    }
  }

  function Minus(u: Vector, v: Vector): (r: Vector)
    requires |u| == |v|
    ensures |r| == |u|
  {
    seq(|u|, i requires 0 <= i < |u| => u[i] - v[i])
  }

  lemma {:induction false} DotMinus(u: Vector, x: Vector, y: Vector)
    requires |u| == |x| == |y|
    ensures Dot(u, Minus(x, y)) == Dot(u, x) - Dot(u, y)
  {
    if u != [] {
      assert Minus(x, y)[1..] == Minus(x[1..], y[1..]);
      DotMinus(u[1..], x[1..], y[1..]);
      assert u[0] * (x[0] - y[0]) == u[0] * x[0] - u[0] * y[0];
    }
  }

  lemma {:induction false} SmallEntriesSmallDot(u: Vector, z: Vector, d: real)
    requires |u| == |z| && forall i | 0 <= i < |u| :: -d <= z[i] <= d
    ensures -Spread(u, d) <= Dot(u, z) <= Spread(u, d)
  {
    if u != [] {
      SmallEntriesSmallDot(u[1..], z[1..], d);
      AbsTimes(u[0], z[0], d);
    }
  }

  /** Entries that are each off by at most `d` put a weighted sum off by at most `Norm(u) * d`. */
  lemma DotIsLipschitz(u: Vector, x: Vector, y: Vector, d: real)
    requires |u| == |x| == |y|
    requires forall i | 0 <= i < |u| :: Near(x[i], y[i], d)
    ensures Near(Dot(u, x), Dot(u, y), Spread(u, d))
  {
    SmallEntriesSmallDot(u, Minus(x, y), d);
    DotMinus(u, x, y);
  }

  // ---------------------------------------------------------------------------------
  // The sample covariance
  // ---------------------------------------------------------------------------------

  /** One series per factor, all over the same window of at least two days. */
  predicate Window(series: Matrix, n: nat) {
    n >= 2 && forall a | 0 <= a < |series| :: |series[a]| == n
  }

  function Mean(v: Vector): real
    requires v != []
  {
    Sum(v) / |v| as real
  }

  function Deviations(v: Vector): (r: Vector)
    requires v != []
    ensures |r| == |v|
  {
    seq(|v|, t requires 0 <= t < |v| => v[t] - Mean(v))
  }

  function Exact(series: Matrix, n: nat, a: nat, b: nat): real
    requires Window(series, n) && a < |series| && b < |series|
  {
    Dot(Deviations(series[a]), Deviations(series[b])) / (n - 1) as real
  }

  /** The row of covariances of the deviations `d` against every series. */
  function ExactRow(d: Vector, series: Matrix, n: nat): (r: Vector)
    requires Window(series, n) && |d| == n
    ensures |r| == |series|
    ensures forall b | 0 <= b < |series| :: r[b] == Dot(d, Deviations(series[b])) / (n - 1) as real
    decreases |series|
  {
    if series == [] then []
    else [Dot(d, Deviations(series[0])) / (n - 1) as real] + ExactRow(d, series[1..], n)
  }

  function ExactRows(first: Matrix, series: Matrix, n: nat): (m: Matrix)
    requires Window(first, n) && Window(series, n)
    ensures |m| == |first|
    ensures forall a | 0 <= a < |first| :: m[a] == ExactRow(Deviations(first[a]), series, n)
    decreases |first|
  {
    if first == [] then []
    else [ExactRow(Deviations(first[0]), series, n)] + ExactRows(first[1..], series, n)
  }

  function ExactMatrix(series: Matrix, n: nat): (m: Matrix)
    requires Window(series, n)
    ensures Square(m, |series|)
    ensures forall a, b | 0 <= a < |series| && 0 <= b < |series| :: m[a][b] == Exact(series, n, a, b)
  {
    ExactRows(series, series, n)
  }

  predicate Square(m: Matrix, k: nat) {
    |m| == k && forall a | 0 <= a < k :: |m[a]| == k
  }

  function Quantized(m: Matrix): (q: Matrix)
    ensures |q| == |m| && forall a | 0 <= a < |m| :: q[a] == QuantizedRow(m[a])
  {
    if m == [] then [] else [QuantizedRow(m[0])] + Quantized(m[1..])
  }

  function QuantizedRow(v: Vector): (q: Vector)
    ensures |q| == |v| && forall b | 0 <= b < |v| :: q[b] == HalfUp(v[b])
  {
    if v == [] then [] else [HalfUp(v[0])] + QuantizedRow(v[1..])
  }

  predicate Symmetric(m: Matrix) {
    Square(m, |m|) && forall a, b | 0 <= a < |m| && 0 <= b < |m| :: m[a][b] == m[b][a]
  }

  /** The covariance the derivation uses is symmetric, quantization included. */
  lemma CovarianceIsSymmetric(series: Matrix, n: nat)
    requires Window(series, n)
    ensures Symmetric(ExactMatrix(series, n)) && Symmetric(Quantized(ExactMatrix(series, n)))
  {
    var m := ExactMatrix(series, n);
    forall a, b | 0 <= a < |m| && 0 <= b < |m| ensures m[a][b] == m[b][a] {
      DotCommutes(Deviations(series[a]), Deviations(series[b]));
    }
  }

  // ---------------------------------------------------------------------------------
  // The covariance on the raw series
  // ---------------------------------------------------------------------------------

  /** The sample covariance of two series of returns, without their means. */
  function RawCovariance(u: Vector, v: Vector, n: nat): real
    requires |u| == |v| == n && n >= 2
  {
    (Dot(u, v) - ProductOfMeans(u, v)) / (n - 1) as real
  }

  /** The product of the two means, times the number of days. */
  function ProductOfMeans(u: Vector, v: Vector): real
    requires |u| == |v| > 0
  {
    Sum(u) * Sum(v) / |u| as real
  }

  function Constant(n: nat, x: real): (v: Vector)
    ensures |v| == n
  {
    seq(n, t => x)
  }

  lemma {:induction false} SumOfConstant(n: nat, x: real)
    ensures Sum(Constant(n, x)) == n as real * x
  {
    if n > 0 {
      assert Constant(n, x)[1..] == Constant(n - 1, x);
      SumOfConstant(n - 1, x);
      assert x + (n - 1) as real * x == n as real * x;
    }
  }

  lemma {:induction false} DotOfConstant(u: Vector, x: real)
    ensures Dot(u, Constant(|u|, x)) == Sum(u) * x
  {
    if u != [] {
      assert Constant(|u|, x)[1..] == Constant(|u[1..]|, x);
      DotOfConstant(u[1..], x);
      assert u[0] * x + Sum(u[1..]) * x == (u[0] + Sum(u[1..])) * x;
    }
  }

  lemma {:induction false} SumOfMinus(u: Vector, v: Vector)
    requires |u| == |v|
    ensures Sum(Minus(u, v)) == Sum(u) - Sum(v)
  {
    if u != [] {
      assert Minus(u, v)[1..] == Minus(u[1..], v[1..]);
      SumOfMinus(u[1..], v[1..]);
    }
  }

  lemma MeanTimesCount(v: Vector)
    requires v != []
    ensures |v| as real * Mean(v) == Sum(v)
  {
  }

  /** The deviations sum to zero and differ from one another as the returns do. */
  lemma DeviationsAreCentred(v: Vector)
    requires v != []
    ensures Sum(Deviations(v)) == 0.0
    ensures forall s, t | 0 <= s < |v| && 0 <= t < |v| :: Deviations(v)[s] - Deviations(v)[t] == v[s] - v[t]
  {
    assert Deviations(v) == Minus(v, Constant(|v|, Mean(v)));
    SumOfMinus(v, Constant(|v|, Mean(v)));
    SumOfConstant(|v|, Mean(v));
    MeanTimesCount(v);
  }

  lemma DotShifted(x: Vector, v: Vector, mean: real) returns (p: real)
    requires |x| == |v|
    ensures p == Sum(x) * mean && Dot(x, Minus(v, Constant(|v|, mean))) == Dot(x, v) - p
  {
    p := Sum(x) * mean;
    DotMinus(x, v, Constant(|v|, mean));
    DotOfConstant(x, mean);
  }

  lemma DeviationsAreShifted(v: Vector)
    requires v != []
    ensures Deviations(v) == Minus(v, Constant(|v|, Mean(v)))
  {
  }

  /** Against centred deviations the other mean does not matter. */
  lemma OneMeanOnly(u: Vector, v: Vector)
    requires |u| == |v| > 0
    ensures Dot(Deviations(u), Deviations(v)) == Dot(Deviations(u), v)
  {
    DeviationsAreShifted(v);
    var p := DotShifted(Deviations(u), v, Mean(v));
    DeviationsAreCentred(u);
  }

  lemma MeanProduct(su: real, sv: real, n: real, mean: real, p: real)
    requires n > 0.0 && mean == su / n && p == sv * mean
    ensures p == su * sv / n
  {
  }

  lemma ShiftedByMean(u: Vector, v: Vector) returns (p: real)
    requires |u| == |v| > 0
    ensures p == ProductOfMeans(u, v) && Dot(Deviations(u), v) == Dot(u, v) - p
  {
    p := DotShifted(v, u, Mean(u));
    MeanProduct(Sum(u), Sum(v), |u| as real, Mean(u), p);
    DeviationsAreShifted(u);
    DotCommutes(Deviations(u), v);
    DotCommutes(v, u);
  }

  lemma ExactIsRaw(u: Vector, v: Vector, n: nat)
    requires |u| == |v| == n && n >= 2
    ensures Dot(Deviations(u), Deviations(v)) / (n - 1) as real == RawCovariance(u, v, n)
  {
    OneMeanOnly(u, v);
    var p := ShiftedByMean(u, v);
    RawCovarianceIs(u, v, n, p, Dot(Deviations(u), Deviations(v)));
  }

  lemma RawCovarianceIs(u: Vector, v: Vector, n: nat, p: real, x: real)
    requires |u| == |v| == n && n >= 2 && p == ProductOfMeans(u, v) && x == Dot(u, v) - p
    ensures x / (n - 1) as real == RawCovariance(u, v, n)
  {
    var y := Dot(u, v) - ProductOfMeans(u, v);
    assert x == y;
  }

  /** Every entry of the unquantized matrix is the sample covariance of the returns as they are given. */
  lemma EntriesAreCovariances(series: Matrix, n: nat, a: nat, b: nat)
    requires Window(series, n) && a < |series| && b < |series|
    ensures ExactMatrix(series, n)[a][b] == RawCovariance(series[a], series[b], n)
  {
    ExactIsRaw(series[a], series[b], n);
    EntryIs(series, n, a, b, RawCovariance(series[a], series[b], n));
  }

  lemma EntryIs(series: Matrix, n: nat, a: nat, b: nat, c: real)
    requires Window(series, n) && a < |series| && b < |series|
    requires Dot(Deviations(series[a]), Deviations(series[b])) / (n - 1) as real == c
    ensures ExactMatrix(series, n)[a][b] == c
  {
    assert ExactMatrix(series, n)[a][b] == Exact(series, n, a, b);
  }

  // ---------------------------------------------------------------------------------
  // The quadratic form
  // ---------------------------------------------------------------------------------

  function Image(m: Matrix, e: Vector): (r: Vector)
    requires forall a | 0 <= a < |m| :: |m[a]| == |e|
    ensures |r| == |m| && forall a | 0 <= a < |m| :: r[a] == Dot(m[a], e)
  {
    if m == [] then [] else [Dot(m[0], e)] + Image(m[1..], e)
  }

  /** w' M w. */
  function Form(m: Matrix, e: Vector): real
    requires Square(m, |e|)
  {
    Dot(e, Image(m, e))
  }

  /** The combination of the deviation series that the exposures make: one number a day. */
  function Combination(e: Vector, series: Matrix, n: nat): (r: Vector)
    requires |e| == |series| && Window(series, n)
    ensures |r| == n
  {
    if e == [] then seq(n, t => 0.0)
    else Plus(Scaled(e[0], Deviations(series[0])), Combination(e[1..], series[1..], n))
  }

  function Against(series: Matrix, n: nat, w: Vector): (r: Vector)
    requires Window(series, n) && |w| == n
    ensures |r| == |series| && forall a | 0 <= a < |series| :: r[a] == Dot(Deviations(series[a]), w)
    decreases |series|
  {
    if series == [] then [] else [Dot(Deviations(series[0]), w)] + Against(series[1..], n, w)
  }

  lemma {:induction false} ZeroDot(n: nat, w: Vector)
    requires |w| == n
    ensures Dot(seq(n, t => 0.0), w) == 0.0
  {
    if n > 0 {
      assert seq(n, t => 0.0)[1..] == seq(n - 1, t => 0.0);
      ZeroDot(n - 1, w[1..]);
    }
  }

  /** The first exchange: a dot product with the combination is the combination of dot products. */
  lemma {:induction false} CombinationDistributes(e: Vector, series: Matrix, n: nat, w: Vector)
    requires |e| == |series| && Window(series, n) && |w| == n
    ensures Dot(Combination(e, series, n), w) == Dot(e, Against(series, n, w))
    decreases |e|
  {
    if e == [] {
      ZeroDot(n, w);
    } else {
      CombinationDistributes(e[1..], series[1..], n, w);
      HeadsAgree(e, series, n, w, e[0], Deviations(series[0]));
    }
  }

  lemma HeadsAgree(e: Vector, series: Matrix, n: nat, w: Vector, c: real, d: Vector)
    requires |e| == |series| > 0 && Window(series, n) && |w| == n && c == e[0] && d == Deviations(series[0])
    ensures Dot(Combination(e, series, n), w) - Dot(Combination(e[1..], series[1..], n), w) ==
            Dot(e, Against(series, n, w)) - Dot(e[1..], Against(series[1..], n, w))
  {
    CombinationHead(e, series, n, w, c, d);
    AgainstHead(series, n, w, d);
    HeadsMeet(c, d, w, e, Against(series, n, w));
  }

  lemma CombinationHead(e: Vector, series: Matrix, n: nat, w: Vector, c: real, d: Vector)
    requires |e| == |series| > 0 && Window(series, n) && |w| == n && c == e[0] && d == Deviations(series[0])
    ensures Dot(Combination(e, series, n), w) == Dot(Scaled(c, d), w) + Dot(Combination(e[1..], series[1..], n), w)
  {
    DotPlus(Scaled(c, d), Combination(e[1..], series[1..], n), w);
  }

  lemma AgainstHead(series: Matrix, n: nat, w: Vector, d: Vector)
    requires series != [] && Window(series, n) && |w| == n && d == Deviations(series[0])
    ensures Against(series, n, w)[0] == Dot(d, w) && Against(series, n, w)[1..] == Against(series[1..], n, w)
  {
  }

  lemma HeadsMeet(c: real, d: Vector, w: Vector, u: Vector, v: Vector)
    requires |d| == |w| && |u| == |v| > 0 && u[0] == c && v[0] == Dot(d, w)
    ensures Dot(Scaled(c, d), w) == Dot(u, v) - Dot(u[1..], v[1..])
  {
    var x, p := ScaledDot(c, d, w);
    DotHead(u, v, c, x, p);
  }

  lemma ScaledDot(c: real, d: Vector, w: Vector) returns (x: real, p: real)
    requires |d| == |w|
    ensures x == Dot(d, w) && p == Dot(Scaled(c, d), w) && p == c * x
  {
    x, p := Dot(d, w), Dot(Scaled(c, d), w);
    DotScaled(c, d, w);
  }

  lemma DotHead(u: Vector, v: Vector, c: real, x: real, p: real)
    requires |u| == |v| > 0 && u[0] == c && v[0] == x && p == c * x
    ensures Dot(u, v) == p + Dot(u[1..], v[1..])
  {
    assert u[0] * v[0] == p;
  }

  lemma {:induction false} DotDivided(e: Vector, x: Vector, y: Vector, c: real)
    requires |e| == |x| == |y| && c > 0.0
    requires forall i | 0 <= i < |e| :: y[i] == x[i] / c
    ensures Dot(e, y) == Dot(e, x) / c
  {
    if e != [] {
      DotDivided(e[1..], x[1..], y[1..], c);
      assert e[0] * (x[0] / c) == e[0] * x[0] / c;
    }
  }

  /** The second exchange: the exact quadratic form is a sum of squares over the days. */
  lemma FormIsSumOfSquares(series: Matrix, n: nat, e: Vector)
    requires Window(series, n) && |e| == |series|
    ensures var c := Combination(e, series, n);
            Form(ExactMatrix(series, n), e) == Dot(c, c) / (n - 1) as real
  {
    var m, c, k := ExactMatrix(series, n), Combination(e, series, n), (n - 1) as real;
    var against := Against(series, n, c);
    forall a | 0 <= a < |series| ensures Dot(m[a], e) == against[a] / k {
      var d := Deviations(series[a]);
      var row := Against(series, n, d);
      forall b | 0 <= b < |series| ensures m[a][b] == row[b] / k {
        DotCommutes(d, Deviations(series[b]));
      }
      DotCommutes(m[a], e);
      DotDivided(e, row, m[a], k);
      CombinationDistributes(e, series, n, d);
      DotCommutes(d, c);
    }
    DotDivided(e, against, Image(m, e), k);
    CombinationDistributes(e, series, n, c);
  }

  /** So the unquantized radicand is never negative. */
  lemma ExactRadicandIsNonNegative(series: Matrix, n: nat, e: Vector)
    requires Window(series, n) && |e| == |series|
    ensures Form(ExactMatrix(series, n), e) >= 0.0
  {
    var c := Combination(e, series, n);
    FormIsSumOfSquares(series, n, e);
    SquareIsNonNegative(c);
    assert Dot(c, c) / (n - 1) as real >= 0.0;
  }

  predicate Close(x: Vector, y: Vector, h: real) {
    |x| == |y| && forall b | 0 <= b < |x| :: Near(x[b], y[b], h)
  }

  lemma RowError(e: Vector, x: Vector, y: Vector, h: real)
    requires |e| == |x| && Close(x, y, h)
    ensures Near(Dot(x, e), Dot(y, e), Spread(e, h))
  {
    DotCommutes(x, e);
    DotCommutes(y, e);
    DotIsLipschitz(e, x, y, h);
  }

  predicate Wide(m: Matrix, k: nat) {
    forall a | 0 <= a < |m| :: |m[a]| == k
  }

  lemma {:induction false} ImagesAreClose(q: Matrix, m: Matrix, e: Vector, h: real)
    requires |q| == |m| && Wide(q, |e|) && Wide(m, |e|)
    requires forall a | 0 <= a < |m| :: Close(q[a], m[a], h)
    ensures Close(Image(q, e), Image(m, e), Spread(e, h))
  {
    if m != [] {
      RowError(e, q[0], m[0], h);
      ImagesAreClose(q[1..], m[1..], e, h);
    }
  }

  lemma FormError(q: Matrix, m: Matrix, e: Vector, h: real)
    requires Square(q, |e|) && Square(m, |e|)
    requires forall a | 0 <= a < |e| :: Close(q[a], m[a], h)
    ensures Near(Form(q, e), Form(m, e), Spread(e, Spread(e, h)))
  {
    ImagesAreClose(q, m, e, h);
    DotIsLipschitz(e, Image(q, e), Image(m, e), Spread(e, h));
  }

  lemma QuantizedIsClose(v: Vector)
    ensures Close(QuantizedRow(v), v, HALF)
  {
  }

  /** The square of the total absolute exposure times half a unit. */
  function Tolerance(e: Vector): real {
    Norm(e) * Norm(e) * HALF
  }

  lemma ToleranceSpreads(e: Vector)
    ensures Tolerance(e) == Spread(e, Spread(e, HALF))
  {
    SpreadIsNorm(e, HALF);
    SpreadIsNorm(e, Norm(e) * HALF);
  }

  /** The error bound: quantizing the matrix moves the radicand by at most the tolerance. */
  lemma RadicandError(m: Matrix, e: Vector)
    requires Square(m, |e|)
    ensures Near(Form(Quantized(m), e), Form(m, e), Tolerance(e))
  {
    forall a | 0 <= a < |e| ensures Close(Quantized(m)[a], m[a], HALF) {
      QuantizedIsClose(m[a]);
    }
    FormError(Quantized(m), m, e, HALF);
    ToleranceSpreads(e);
  }

  /** The radicand the derivation takes the root of. */
  function Radicand(series: Matrix, n: nat, e: Vector): real
    requires Window(series, n) && |e| == |series|
  {
    Form(Quantized(ExactMatrix(series, n)), e)
  }

  lemma RadicandNearSumOfSquares(series: Matrix, n: nat, e: Vector)
    requires Window(series, n) && |e| == |series|
    ensures var c := Combination(e, series, n);
            Near(Radicand(series, n, e), Dot(c, c) / (n - 1) as real, Tolerance(e))
    ensures Radicand(series, n, e) >= -Tolerance(e)
  {
    FormIsSumOfSquares(series, n, e);
    RadicandError(ExactMatrix(series, n), e);
    ExactRadicandIsNonNegative(series, n, e);
  }

  // ---------------------------------------------------------------------------------
  // The loops
  // ---------------------------------------------------------------------------------

  lemma {:induction false} DotSnoc(u: Vector, v: Vector, x: real, y: real)
    requires |u| == |v|
    ensures Dot(u + [x], v + [y]) == Dot(u, v) + x * y
  {
    if u == [] {
      assert [x][1..] == [] && [y][1..] == [];
      assert u + [x] == [x] && v + [y] == [y];
    } else {
      assert (u + [x])[1..] == u[1..] + [x] && (v + [y])[1..] == v[1..] + [y];
      DotSnoc(u[1..], v[1..], x, y);
    }
  }

  lemma DotGrows(u: Vector, v: Vector, k: nat)
    requires |u| == |v| && k < |u|
    ensures Dot(u[..k + 1], v[..k + 1]) == Dot(u[..k], v[..k]) + u[k] * v[k]
  {
    assert u[..k + 1] == u[..k] + [u[k]] && v[..k + 1] == v[..k] + [v[k]];
    DotSnoc(u[..k], v[..k], u[k], v[k]);
  }

  lemma WholeDot(u: Vector, v: Vector)
    requires |u| == |v|
    ensures Dot(u[..|u|], v[..|u|]) == Dot(u, v)
  {
    assert u[..|u|] == u && v[..|u|] == v;
  }

  lemma Associate(x: real, y: real, z: real)
    ensures x * (y * z) == x * y * z
  {
  }

  datatype Pair = Pair(a: nat, b: nat)
  type Pairs = map<Pair, real>

  /** `cov` holds the entries of `m` and nothing else. */
  predicate Tabulates(cov: Pairs, m: Matrix) {
    && Square(m, |m|)
    && (forall p <- cov :: p.a < |m| && p.b < |m| && cov[p] == m[p.a][p.b])
    && forall a: nat, b: nat | a < |m| && b < |m| :: Pair(a, b) in cov
  }

  method Entry(series: Matrix, n: nat, a: nat, b: nat, ghost m: Matrix) returns (entry: real)
    requires Window(series, n) && a < |series| && b < |series| && m == Quantized(ExactMatrix(series, n))
    ensures entry == m[a][b]
  {
    var acc := Dot(Deviations(series[a]), Deviations(series[b]));
    entry := HalfUp(acc / (n - 1) as real);
  }

  /** The first `a` rows of `m`, and the first `b` entries of the next, are in the table. */
  predicate Filled(cov: Pairs, m: Matrix, a: nat, b: nat)
    requires Square(m, |m|)
  {
    && (forall p <- cov :: p.a < |m| && p.b < |m| && cov[p] == m[p.a][p.b])
    && (forall i: nat, j: nat | i < |m| && j < |m| && (i < a || (i == a && j < b)) :: Pair(i, j) in cov)
  }

  lemma FillOne(cov: Pairs, m: Matrix, a: nat, b: nat)
    requires Square(m, |m|) && a < |m| && b < |m| && Filled(cov, m, a, b)
    ensures Filled(cov[Pair(a, b) := m[a][b]], m, a, b + 1)
  {
  }

  lemma NextRow(cov: Pairs, m: Matrix, a: nat)
    requires Square(m, |m|) && Filled(cov, m, a, |m|)
    ensures Filled(cov, m, a + 1, 0)
  {
  }

  /** The sample covariance, pair by pair, each entry quantized as it is stored. */
  method Covariance(series: Matrix, n: nat) returns (cov: Pairs)
    requires Window(series, n)
    ensures Tabulates(cov, Quantized(ExactMatrix(series, n)))
    ensures forall a: nat, b: nat | a < |series| && b < |series| ::
              Pair(a, b) in cov && cov[Pair(a, b)] == HalfUp(RawCovariance(series[a], series[b], n))
  {
    ghost var m := Quantized(ExactMatrix(series, n));
    cov := FillTable(series, n, m);
    TableOfCovariances(series, n, cov);
  }

  lemma TableOfCovariances(series: Matrix, n: nat, cov: Pairs)
    requires Window(series, n) && Tabulates(cov, Quantized(ExactMatrix(series, n)))
    ensures forall a: nat, b: nat | a < |series| && b < |series| ::
              Pair(a, b) in cov && cov[Pair(a, b)] == HalfUp(RawCovariance(series[a], series[b], n))
  {
    forall a: nat, b: nat | a < |series| && b < |series|
      ensures Pair(a, b) in cov && cov[Pair(a, b)] == HalfUp(RawCovariance(series[a], series[b], n))
    {
      EntriesAreCovariances(series, n, a, b);
    }
  }

  method FillTable(series: Matrix, n: nat, ghost m: Matrix) returns (cov: Pairs)
    requires Window(series, n) && m == Quantized(ExactMatrix(series, n)) && Square(m, |series|)
    ensures Tabulates(cov, m)
  {
    cov := map[];
    for a := 0 to |series|
      invariant Filled(cov, m, a, 0)
    {
      for b := 0 to |series|
        invariant Filled(cov, m, a, b)
      {
        var entry := Entry(series, n, a, b, m);
        FillOne(cov, m, a, b);
        cov := cov[Pair(a, b) := entry];
      }
      NextRow(cov, m, a);
    }
  }

  /** The radicand as it is summed: every pair of factors in turn. */
  method SumOverPairs(cov: Pairs, ghost m: Matrix, e: Vector) returns (rad: real)
    requires Tabulates(cov, m) && |e| == |m|
    ensures rad == Form(m, e)
  {
    rad := 0.0;
    ghost var image := Image(m, e);
    for a := 0 to |e|
      invariant rad == Dot(e[..a], image[..a])
    {
      rad := SumOverRow(cov, m, e, a, rad);
      DotGrows(e, image, a);
    }
    WholeDot(e, image);
  }

  /** The pairs whose first factor is `a`. */
  method SumOverRow(cov: Pairs, ghost m: Matrix, e: Vector, a: nat, before: real) returns (rad: real)
    requires Tabulates(cov, m) && |e| == |m| && a < |e|
    ensures rad == before + e[a] * Dot(m[a], e)
  {
    rad := before;
    assert m[a][..0] == [] && e[..0] == [];
    for b := 0 to |e|
      invariant rad == before + e[a] * Dot(m[a][..b], e[..b])
    {
      OneMorePair(m[a], e, e[a], b);
      rad := rad + e[a] * cov[Pair(a, b)] * e[b];
    }
    WholeDot(m[a], e);
  }

  lemma OneMorePair(row: Vector, e: Vector, x: real, b: nat)
    requires |row| == |e| && b < |e|
    ensures x * Dot(row[..b + 1], e[..b + 1]) == x * Dot(row[..b], e[..b]) + x * row[b] * e[b]
  {
    DotGrows(row, e, b);
    Distribute(x, Dot(row[..b], e[..b]), row[b] * e[b]);
    Associate(x, row[b], e[b]);
  }

  /** The covariance, then the form: what the derivation takes the root of. */
  method DeriveRadicand(series: Matrix, n: nat, e: Vector) returns (rad: real)
    requires Window(series, n) && |e| == |series|
    ensures rad == Radicand(series, n, e)
    ensures var c := Combination(e, series, n);
            Near(rad, Dot(c, c) / (n - 1) as real, Tolerance(e))
  {
    var cov := Covariance(series, n);
    rad := SumOverPairs(cov, Quantized(ExactMatrix(series, n)), e);
    RadicandNearSumOfSquares(series, n, e);
  }

  // ---------------------------------------------------------------------------------
  // Factor exposures
  // ---------------------------------------------------------------------------------

  type Factor = string

  datatype Instrument = Instrument(quantity: real, mark: real, rateLoading: real,
                                   creditFactor: Option<Factor>, creditLoading: real)
  {
    function Value(): real {
      quantity * mark
    }

    function RateRow(rateFactor: Factor): seq<(Factor, real)> {
      if rateLoading != 0.0 then [(rateFactor, rateLoading)] else []
    }

    function CreditRow(): seq<(Factor, real)> {
      if creditFactor.Some? && creditLoading != 0.0 then [(creditFactor.value, creditLoading)] else []
    }

    /** The (factor, loading) rows of this instrument: only the loadings that are not zero. */
    function Rows(rateFactor: Factor): seq<(Factor, real)> {
      RateRow(rateFactor) + CreditRow()
    }

    /** The exact exposure to `f` of market value `v`, zero loadings and all, and nothing rounded. */
    function Exact(rateFactor: Factor, v: real, f: Factor): real {
      RateExact(rateFactor, v, f) + CreditExact(v, f)
    }

    function RateExact(rateFactor: Factor, v: real, f: Factor): real {
      if f == rateFactor then rateLoading * v else 0.0
    }

    function CreditExact(v: real, f: Factor): real {
      if creditFactor == Some(f) then creditLoading * v else 0.0
    }
  }

  /** A rounding that is never off by more than `h`. */
  ghost predicate Rounding(q: real -> real, h: real) {
    forall x :: Near(q(x), x, h)
  }

  /** What the rows add to the exposure to `f`, each contribution rounded. */
  function Contribution(q: real -> real, rows: seq<(Factor, real)>, value: real, f: Factor): real {
    if rows == [] then 0.0 else Share(q, rows[0], value, f) + Contribution(q, rows[1..], value, f)
  }

  function Share(q: real -> real, r: (Factor, real), value: real, f: Factor): real {
    if r.0 == f then q(r.1 * value) else 0.0
  }

  lemma {:induction false} ContributionSplits(q: real -> real, a: seq<(Factor, real)>, b: seq<(Factor, real)>, value: real, f: Factor)
    ensures Contribution(q, a + b, value, f) == Contribution(q, a, value, f) + Contribution(q, b, value, f)
  {
    if a == [] {
      assert a + b == b;
    } else {
      assert (a + b)[0] == a[0] && (a + b)[1..] == a[1..] + b;
      ContributionSplits(q, a[1..], b, value, f);
    }
  }

  lemma OneContribution(q: real -> real, r: (Factor, real), value: real, f: Factor)
    ensures Contribution(q, [r], value, f) == Share(q, r, value, f)
  {
  }

  function Count(rows: seq<(Factor, real)>, f: Factor): nat {
    if rows == [] then 0 else (if rows[0].0 == f then 1 else 0) + Count(rows[1..], f)
  }

  function Exposure(q: real -> real, specs: seq<Instrument>, rate: Factor, f: Factor): real {
    if specs == [] then 0.0
    else Contribution(q, specs[0].Rows(rate), specs[0].Value(), f) + Exposure(q, specs[1..], rate, f)
  }

  function ExactExposure(specs: seq<Instrument>, rate: Factor, f: Factor): real {
    if specs == [] then 0.0
    else specs[0].Exact(rate, specs[0].quantity * specs[0].mark, f) + ExactExposure(specs[1..], rate, f)
  }

  /** How many rows contribute to `f`. */
  function Contributors(specs: seq<Instrument>, rate: Factor, f: Factor): nat {
    if specs == [] then 0 else Count(specs[0].Rows(rate), f) + Contributors(specs[1..], rate, f)
  }

  lemma {:induction false} CountSplits(a: seq<(Factor, real)>, b: seq<(Factor, real)>, f: Factor)
    ensures Count(a + b, f) == Count(a, f) + Count(b, f)
  {
    if a == [] {
      assert a + b == b;
    } else {
      assert (a + b)[0] == a[0] && (a + b)[1..] == a[1..] + b;
      CountSplits(a[1..], b, f);
    }
  }

  /** `k` times `h`. */
  function Times(k: nat, h: real): real {
    if k == 0 then 0.0 else h + Times(k - 1, h)
  }

  lemma {:induction false} TimesAdds(j: nat, k: nat, h: real)
    ensures Times(j + k, h) == Times(j, h) + Times(k, h)
  {
    if j > 0 { TimesAdds(j - 1, k, h); }
  }

  lemma {:induction false} TimesIsProduct(k: nat, h: real)
    ensures Times(k, h) == k as real * h
  {
    if k > 0 { TimesIsProduct(k - 1, h); }
  }

  lemma NearAdds(a: real, b: real, c: real, d: real, j: nat, k: nat, h: real)
    requires Near(a, b, Times(j, h)) && Near(c, d, Times(k, h))
    ensures Near(a + c, b + d, Times(j + k, h))
  {
    TimesAdds(j, k, h);
  }

  lemma TwoLoadings(q: real -> real, h: real, a: seq<(Factor, real)>, b: seq<(Factor, real)>, v: real, f: Factor, x: real, y: real)
    requires Near(Contribution(q, a, v, f), x, Times(Count(a, f), h))
    requires Near(Contribution(q, b, v, f), y, Times(Count(b, f), h))
    ensures Near(Contribution(q, a + b, v, f), x + y, Times(Count(a + b, f), h))
  {
    ContributionSplits(q, a, b, v, f);
    CountSplits(a, b, f);
    NearAdds(Contribution(q, a, v, f), x, Contribution(q, b, v, f), y, Count(a, f), Count(b, f), h);
  }

  lemma InstrumentError(q: real -> real, h: real, i: Instrument, v: real, rate: Factor, f: Factor)
    requires Rounding(q, h)
    ensures Near(Contribution(q, i.Rows(rate), v, f), i.Exact(rate, v, f), Times(Count(i.Rows(rate), f), h))
  {
    RateError(q, h, i, v, rate, f);
    CreditError(q, h, i, v, f);
    TwoLoadings(q, h, i.RateRow(rate), i.CreditRow(), v, f, i.RateExact(rate, v, f), i.CreditExact(v, f));
  }

  lemma RateError(q: real -> real, h: real, i: Instrument, v: real, rate: Factor, f: Factor)
    requires Rounding(q, h)
    ensures Near(Contribution(q, i.RateRow(rate), v, f), i.RateExact(rate, v, f), Times(Count(i.RateRow(rate), f), h))
  {
  }

  lemma CreditError(q: real -> real, h: real, i: Instrument, v: real, f: Factor)
    requires Rounding(q, h)
    ensures Near(Contribution(q, i.CreditRow(), v, f), i.CreditExact(v, f), Times(Count(i.CreditRow(), f), h))
  {
  }

  lemma {:induction false} AccumulatedError(q: real -> real, h: real, specs: seq<Instrument>, rate: Factor, f: Factor)
    requires Rounding(q, h)
    ensures Near(Exposure(q, specs, rate, f), ExactExposure(specs, rate, f), Times(Contributors(specs, rate, f), h))
  {
    if specs != [] {
      InstrumentError(q, h, specs[0], specs[0].Value(), rate, f);
      AccumulatedError(q, h, specs[1..], rate, f);
      NearAdds(Contribution(q, specs[0].Rows(rate), specs[0].Value(), f), specs[0].Exact(rate, specs[0].Value(), f),
               Exposure(q, specs[1..], rate, f), ExactExposure(specs[1..], rate, f),
               Count(specs[0].Rows(rate), f), Contributors(specs[1..], rate, f), h);
    }
  }

  /** The accumulated exposure is within half a unit per contributing row of the exact sum of
      loading times market value. */
  lemma ExposureError(specs: seq<Instrument>, rate: Factor, f: Factor)
    ensures Near(Exposure(HalfUp, specs, rate, f), ExactExposure(specs, rate, f), Contributors(specs, rate, f) as real * HALF)
  {
    assert Rounding(HalfUp, HALF) by {
      forall x ensures Near(HalfUp(x), x, HALF) { HalfUpIsClose(x); }
    }
    AccumulatedError(HalfUp, HALF, specs, rate, f);
    TimesIsProduct(Contributors(specs, rate, f), HALF);
  }

  lemma {:induction false} ExposureSplits(q: real -> real, a: seq<Instrument>, b: seq<Instrument>, rate: Factor, f: Factor)
    ensures Exposure(q, a + b, rate, f) == Exposure(q, a, rate, f) + Exposure(q, b, rate, f)
  {
    if a == [] {
      assert a + b == b;
    } else {
      assert (a + b)[1..] == a[1..] + b;
      ExposureSplits(q, a[1..], b, rate, f);
    }
  }

  /** The order of the instruments does not matter, rounding included. */
  lemma {:induction false} OrderDoesNotMatter(q: real -> real, a: seq<Instrument>, b: seq<Instrument>, rate: Factor, f: Factor)
    requires multiset(a) == multiset(b)
    ensures Exposure(q, a, rate, f) == Exposure(q, b, rate, f)
    decreases |a|
  {
    if a == [] {
      assert |multiset(b)| == |b|;
    } else {
      var k := TakenOut(a, b);
      OrderDoesNotMatter(q, a[1..], b[..k] + b[k + 1..], rate, f);
      OneTakenOut(q, a, 0, rate, f);
      OneTakenOut(q, b, k, rate, f);
      assert a[..0] + a[1..] == a[1..];
    }
  }

  lemma TakenOut(a: seq<Instrument>, b: seq<Instrument>) returns (k: nat)
    requires a != [] && multiset(a) == multiset(b)
    ensures k < |b| && b[k] == a[0] && multiset(a[1..]) == multiset(b[..k] + b[k + 1..])
  {
    assert a[0] in multiset(b);
    k :| 0 <= k < |b| && b[k] == a[0];
    assert b == b[..k] + ([b[k]] + b[k + 1..]);
    assert a == [a[0]] + a[1..];
    assert multiset(a[1..]) == multiset(a) - multiset{a[0]};
    assert multiset(b[..k] + b[k + 1..]) == multiset(b) - multiset{a[0]};
  }

  lemma OneTakenOut(q: real -> real, b: seq<Instrument>, k: nat, rate: Factor, f: Factor)
    requires k < |b|
    ensures Exposure(q, b, rate, f) == Exposure(q, [b[k]], rate, f) + Exposure(q, b[..k] + b[k + 1..], rate, f)
  {
    assert b == b[..k] + ([b[k]] + b[k + 1..]);
    ExposureSplits(q, b[..k], [b[k]] + b[k + 1..], rate, f);
    ExposureSplits(q, [b[k]], b[k + 1..], rate, f);
    ExposureSplits(q, b[..k], b[k + 1..], rate, f);
  }

  /** When that is so: the rate factor is needed by a rate loading that is not zero, and an instrument's
      credit factor by a credit loading that is not zero. */
  lemma KnownExactly(specs: seq<Instrument>, rate: Factor, factors: seq<Factor>)
    ensures Known(specs, rate, factors) <==>
            forall k | 0 <= k < |specs| ::
              && (specs[k].rateLoading != 0.0 ==> rate in factors)
              && (specs[k].creditLoading != 0.0 && specs[k].creditFactor.Some? ==> specs[k].creditFactor.value in factors)
  {
    forall k | 0 <= k < |specs|
      ensures RowsKnown(specs[k].Rows(rate), factors) <==>
              && (specs[k].rateLoading != 0.0 ==> rate in factors)
              && (specs[k].creditLoading != 0.0 && specs[k].creditFactor.Some? ==> specs[k].creditFactor.value in factors)
    {
      var i := specs[k];
      if i.rateLoading != 0.0 { assert i.Rows(rate)[0] == (rate, i.rateLoading); }
      if i.creditLoading != 0.0 && i.creditFactor.Some? {
        assert i.Rows(rate)[|i.Rows(rate)| - 1] == (i.creditFactor.value, i.creditLoading);
      }
    }
  }

  /** Every row names a factor the derivation keeps. */
  predicate Known(specs: seq<Instrument>, rate: Factor, factors: seq<Factor>) {
    forall k | 0 <= k < |specs| :: RowsKnown(specs[k].Rows(rate), factors)
  }

  predicate RowsKnown(rows: seq<(Factor, real)>, factors: seq<Factor>) {
    forall r <- rows :: r.0 in factors
  }

  lemma ContributionGrows(q: real -> real, rows: seq<(Factor, real)>, j: nat, value: real, f: Factor)
    requires j < |rows|
    ensures Contribution(q, rows[..j + 1], value, f) == Contribution(q, rows[..j], value, f) + Share(q, rows[j], value, f)
  {
    assert rows[..j + 1] == rows[..j] + [rows[j]];
    ContributionSplits(q, rows[..j], [rows[j]], value, f);
    OneContribution(q, rows[j], value, f);
  }

  lemma ExposureGrows(q: real -> real, specs: seq<Instrument>, k: nat, rate: Factor, f: Factor)
    requires k < |specs|
    ensures Exposure(q, specs[..k + 1], rate, f) ==
            Exposure(q, specs[..k], rate, f) + Contribution(q, specs[k].Rows(rate), specs[k].Value(), f)
  {
    assert specs[..k + 1] == specs[..k] + [specs[k]];
    ExposureSplits(q, specs[..k], [specs[k]], rate, f);
    assert [specs[k]][1..] == [];
  }

  /** One instrument's rows, added to the running exposures. A row for a factor outside the
      dictionary is a missing key, which stops the derivation. */
  method AddRows(q: real -> real, expo: map<Factor, real>, rows: seq<(Factor, real)>, value: real)
    returns (result: Option<map<Factor, real>>)
    ensures result.Some? <==> forall r <- rows :: r.0 in expo
    ensures result.Some? ==> result.value.Keys == expo.Keys
    ensures result.Some? ==> forall f <- expo :: result.value[f] == expo[f] + Contribution(q, rows, value, f)
  {
    var sums := expo;
    for j := 0 to |rows|
      invariant sums.Keys == expo.Keys
      invariant forall r <- rows[..j] :: r.0 in expo
      invariant forall f <- expo :: sums[f] == expo[f] + Contribution(q, rows[..j], value, f)
    {
      var f := rows[j].0;
      if f !in sums {
        assert rows[j] in rows;
        return None;
      }
      forall g ensures Contribution(q, rows[..j + 1], value, g) ==
                       Contribution(q, rows[..j], value, g) + Share(q, rows[j], value, g) {
        ContributionGrows(q, rows, j, value, g);
      }
      assert rows[..j + 1] == rows[..j] + [rows[j]];
      sums := sums[f := sums[f] + Share(q, rows[j], value, f)];
    }
    assert rows[..|rows|] == rows;
    return Some(sums);
  }

  /** `expo` holds the exposures that `specs` accumulate. */
  predicate Accumulated(q: real -> real, expo: map<Factor, real>, specs: seq<Instrument>, rate: Factor) {
    forall f <- expo :: expo[f] == Exposure(q, specs, rate, f)
  }

  lemma AccumulateOne(q: real -> real, expo: map<Factor, real>, specs: seq<Instrument>, k: nat, rate: Factor, next: map<Factor, real>)
    requires k < |specs| && Accumulated(q, expo, specs[..k], rate) && next.Keys == expo.Keys
    requires forall f <- expo :: next[f] == expo[f] + Contribution(q, specs[k].Rows(rate), specs[k].Value(), f)
    ensures Accumulated(q, next, specs[..k + 1], rate)
  {
    forall f <- next ensures next[f] == Exposure(q, specs[..k + 1], rate, f) {
      ExposureGrows(q, specs, k, rate, f);
    }
  }

  lemma KeysKnow(rows: seq<(Factor, real)>, expo: map<Factor, real>, factors: seq<Factor>)
    requires expo.Keys == set f | f in factors
    ensures RowsKnown(rows, factors) <==> forall r <- rows :: r.0 in expo
  {
    assert forall f :: f in expo <==> f in factors;
  }

  lemma KnownGrows(specs: seq<Instrument>, k: nat, rate: Factor, factors: seq<Factor>)
    requires k < |specs| && Known(specs[..k], rate, factors)
    ensures Known(specs[..k + 1], rate, factors) <==> RowsKnown(specs[k].Rows(rate), factors)
    ensures Known(specs, rate, factors) ==> RowsKnown(specs[k].Rows(rate), factors)
  {
    assert specs[..k + 1][k] == specs[k];
    assert forall j | 0 <= j < k :: specs[..k + 1][j] == specs[..k][j];
  }

  /** The accumulation over the instruments, in their order. */
  method Exposures(q: real -> real, specs: seq<Instrument>, rate: Factor, factors: seq<Factor>)
    returns (result: Option<map<Factor, real>>)
    ensures result.Some? <==> Known(specs, rate, factors)
    ensures result.Some? ==> result.value.Keys == set f | f in factors
    ensures result.Some? ==> forall f <- factors :: result.value[f] == Exposure(q, specs, rate, f)
  {
    var expo: map<Factor, real> := map f | f in factors :: 0.0;
    for k := 0 to |specs|
      invariant expo.Keys == set f | f in factors
      invariant Known(specs[..k], rate, factors)
      invariant Accumulated(q, expo, specs[..k], rate)
    {
      var next := AddRows(q, expo, specs[k].Rows(rate), specs[k].Value());
      KeysKnow(specs[k].Rows(rate), expo, factors);
      KnownGrows(specs, k, rate, factors);
      if next.None? {
        return None;
      }
      AccumulateOne(q, expo, specs, k, rate, next.value);
      expo := next.value;
    }
    assert specs[..|specs|] == specs;
    return Some(expo);
  }

  /** The derivation's own exposures: rounded half up to 20 places. */
  method FactorExposures(specs: seq<Instrument>, rate: Factor, factors: seq<Factor>)
    returns (result: Option<map<Factor, real>>)
    ensures result.Some? <==> Known(specs, rate, factors)
    ensures result.Some? ==> forall f <- factors ::
      f in result.value
      && Near(result.value[f], ExactExposure(specs, rate, f), Contributors(specs, rate, f) as real * HALF)
  {
    result := Exposures(HalfUp, specs, rate, factors);
    forall f ensures Near(Exposure(HalfUp, specs, rate, f), ExactExposure(specs, rate, f), Contributors(specs, rate, f) as real * HALF) {
      ExposureError(specs, rate, f);
    }
  }
}
