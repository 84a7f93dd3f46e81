/** The derivation from end to end: how far its radicand, of rounded exposures and a rounded covariance,
    can lie from the form that nothing rounded would give.
 */
module WholeDerivation {
  import opened Wrappers
  import opened VarDerivation

  // ---------------------------------------------------------------------------------
  // The exposures as a vector
  // ---------------------------------------------------------------------------------

  function Rounded(specs: seq<Instrument>, rate: Factor, factors: seq<Factor>): (e: Vector)
    ensures |e| == |factors|
  {
    seq(|factors|, a requires 0 <= a < |factors| => Exposure(HalfUp, specs, rate, factors[a]))
  }

  function Ideal(specs: seq<Instrument>, rate: Factor, factors: seq<Factor>): (x: Vector)
    ensures |x| == |factors|
  {
    seq(|factors|, a requires 0 <= a < |factors| => ExactExposure(specs, rate, factors[a]))
  }

  /** How far each exposure can be off. */
  function Margins(specs: seq<Instrument>, rate: Factor, factors: seq<Factor>): (k: Vector)
    ensures |k| == |factors|
  {
    seq(|factors|, a requires 0 <= a < |factors| => Contributors(specs, rate, factors[a]) as real * HALF)
  }

  predicate Within(e: Vector, x: Vector, k: Vector) {
    |e| == |x| == |k| && forall a | 0 <= a < |e| :: Near(e[a], x[a], k[a])
  }

  lemma RoundedIsWithin(specs: seq<Instrument>, rate: Factor, factors: seq<Factor>)
    ensures Within(Rounded(specs, rate, factors), Ideal(specs, rate, factors), Margins(specs, rate, factors))
  {
    forall a | 0 <= a < |factors|
      ensures Near(Exposure(HalfUp, specs, rate, factors[a]), ExactExposure(specs, rate, factors[a]),
                   Contributors(specs, rate, factors[a]) as real * HALF)
    {
      ExposureError(specs, rate, factors[a]);
    }
  }

  // ---------------------------------------------------------------------------------
  // Moving the exposures
  // ---------------------------------------------------------------------------------

  lemma {:induction false} NormsDiffer(e: Vector, x: Vector, k: Vector)
    requires Within(e, x, k)
    ensures Norm(Minus(e, x)) <= Sum(k) && Norm(e) <= Norm(x) + Sum(k)
  {
    if e != [] {
      NormsDiffer(e[1..], x[1..], k[1..]);
      assert Minus(e, x)[1..] == Minus(e[1..], x[1..]);
    }
  }

  /** No entry of `m` exceeds `mu` in size. */
  predicate Bounded(m: Matrix, mu: real) {
    forall a, b | 0 <= a < |m| && 0 <= b < |m[a]| :: Near(m[a][b], 0.0, mu)
  }

  lemma SpreadIs(u: Vector, d: real, nu: real, h: real)
    requires nu == Norm(u) && h == nu * d
    ensures Spread(u, d) == h
  {
    SpreadIsNorm(u, d);
  }

  lemma SmallDot(u: Vector, y: Vector, d: real, nu: real, h: real)
    requires |u| == |y| && nu == Norm(u) && h == nu * d && forall b | 0 <= b < |y| :: Near(y[b], 0.0, d)
    ensures Near(Dot(u, y), 0.0, h)
  {
    SmallEntriesSmallDot(u, y, d);
    SpreadIs(u, d, nu, h);
  }

  lemma ImageIsSmall(m: Matrix, v: Vector, mu: real, nv: real, h: real)
    requires Square(m, |v|) && Bounded(m, mu) && nv == Norm(v) && h == nv * mu
    ensures forall a | 0 <= a < |m| :: Near(Image(m, v)[a], 0.0, h)
  {
    forall a | 0 <= a < |m| ensures Near(Dot(m[a], v), 0.0, h) {
      DotCommutes(m[a], v);
      SmallDot(v, m[a], mu, nv, h);
    }
  }

  lemma BilinearBound(m: Matrix, u: Vector, v: Vector, mu: real, nu: real, nv: real, h: real, bound: real)
    requires Square(m, |v|) && |u| == |v| && Bounded(m, mu)
    requires nu == Norm(u) && nv == Norm(v) && h == nv * mu && bound == nu * h
    ensures Near(Dot(u, Image(m, v)), 0.0, bound)
  {
    ImageIsSmall(m, v, mu, nv, h);
    SmallDot(u, Image(m, v), h, nu, bound);
  }

  lemma ImageOfDifference(m: Matrix, e: Vector, x: Vector)
    requires Square(m, |e|) && |x| == |e|
    ensures Image(m, Minus(e, x)) == Minus(Image(m, e), Image(m, x))
  {
    forall a | 0 <= a < |m| ensures Image(m, Minus(e, x))[a] == Minus(Image(m, e), Image(m, x))[a] {
      DotMinus(m[a], e, x);
    }
  }

  /** The form changes by one term for each place the difference stands in. */
  lemma FormOfDifference(m: Matrix, e: Vector, x: Vector, d: Vector)
    requires Square(m, |e|) && |x| == |e| && d == Minus(e, x)
    ensures Form(m, e) - Form(m, x) == Dot(d, Image(m, e)) + Dot(x, Image(m, d))
  {
    ImageOfDifference(m, e, x);
    DotMinus(x, Image(m, e), Image(m, x));
    DotCommutes(d, Image(m, e));
    DotMinus(Image(m, e), e, x);
    DotCommutes(Image(m, e), e);
    DotCommutes(Image(m, e), x);
  }

  lemma ProductsGrow(a: real, b: real, x: real, y: real)
    requires 0.0 <= a <= b && 0.0 <= x <= y
    ensures a * x <= b * y
  {
    assert a * x <= b * x;
    assert b * x <= b * y;
  }

  /** What the rounding of the exposures can cost: `n` is the norm of the exact ones, `d` bounds their
      total error, `mu` the entries of the matrix. */
  function ExposureSlack(n: real, d: real, mu: real): real {
    d * ((n + d) * mu) + n * (d * mu)
  }

  /** What the rounding of the matrix can cost on exposures of norm `n`. */
  function MatrixSlack(n: real): real {
    n * n * HALF
  }

  lemma FirstTerm(delta: real, e: real, x: real, d: real, mu: real)
    requires 0.0 <= delta <= d && 0.0 <= e <= x + d && 0.0 <= mu
    ensures delta * (e * mu) <= d * ((x + d) * mu)
  {
    ProductsGrow(e, x + d, mu, mu);
    ProductsGrow(delta, d, e * mu, (x + d) * mu);
  }

  lemma SecondTerm(delta: real, x: real, d: real, mu: real)
    requires 0.0 <= delta <= d && 0.0 <= x && 0.0 <= mu
    ensures x * (delta * mu) <= x * (d * mu)
  {
    ProductsGrow(delta, d, mu, mu);
    ProductsGrow(x, x, delta * mu, d * mu);
  }

  lemma TwoTerms(m: Matrix, e: Vector, x: Vector, diff: Vector, p: real, q: real)
    requires Square(m, |e|) && |x| == |e| && diff == Minus(e, x)
    requires Near(Dot(diff, Image(m, e)), 0.0, p) && Near(Dot(x, Image(m, diff)), 0.0, q)
    ensures Near(Form(m, e), Form(m, x), p + q)
  {
    FormOfDifference(m, e, x, diff);
  }

  /** Exposures that are off move the form of a bounded matrix by no more than that. */
  lemma ExposuresMoveTheForm(m: Matrix, e: Vector, x: Vector, k: Vector, mu: real)
    requires Square(m, |e|) && Within(e, x, k) && Bounded(m, mu) && mu >= 0.0
    ensures Near(Form(m, e), Form(m, x), ExposureSlack(Norm(x), Sum(k), mu))
  {
    NormsDiffer(e, x, k);
    MovedWithin(m, e, x, Minus(e, x), mu, Norm(Minus(e, x)), Norm(e), Norm(x), Sum(k), ExposureSlack(Norm(x), Sum(k), mu));
  }

  lemma MovedWithin(m: Matrix, e: Vector, x: Vector, diff: Vector, mu: real, delta: real, ne: real, nx: real, d: real, slack: real)
    requires Square(m, |e|) && |x| == |e| && diff == Minus(e, x) && Bounded(m, mu) && mu >= 0.0
    requires delta == Norm(diff) && ne == Norm(e) && nx == Norm(x) && delta <= d && ne <= nx + d
    requires slack == ExposureSlack(nx, d, mu)
    ensures Near(Form(m, e), Form(m, x), slack)
  {
    var h, g, p, q := Parts(delta, ne, nx, d, mu, slack);
    MovedBy(m, e, x, diff, mu, delta, ne, nx, h, g, p, q);
  }

  lemma MovedBy(m: Matrix, e: Vector, x: Vector, diff: Vector, mu: real, delta: real, ne: real, nx: real,
                h: real, g: real, p: real, q: real)
    requires Square(m, |e|) && |x| == |e| && diff == Minus(e, x) && Bounded(m, mu)
    requires delta == Norm(diff) && ne == Norm(e) && nx == Norm(x)
    requires h == ne * mu && g == delta * mu && p == delta * h && q == nx * g
    ensures Near(Form(m, e), Form(m, x), p + q)
  {
    BilinearBound(m, diff, e, mu, delta, ne, h, p);
    BilinearBound(m, x, diff, mu, nx, delta, g, q);
    TwoTerms(m, e, x, diff, p, q);
  }

  lemma Parts(delta: real, ne: real, nx: real, d: real, mu: real, slack: real) returns (h: real, g: real, p: real, q: real)
    requires 0.0 <= delta <= d && 0.0 <= ne <= nx + d && 0.0 <= nx && 0.0 <= mu && slack == ExposureSlack(nx, d, mu)
    ensures h == ne * mu && g == delta * mu && p == delta * h && q == nx * g
    ensures p + q <= slack
  {
    h, g := ne * mu, delta * mu;
    p, q := delta * h, nx * g;
    FirstTerm(delta, ne, nx, d, mu);
    SecondTerm(delta, nx, d, mu);
  }

  lemma MatrixSlackGrows(a: real, b: real)
    requires 0.0 <= a <= b
    ensures MatrixSlack(a) <= MatrixSlack(b)
  {
    ProductsGrow(a, b, a, b);
    ProductsGrow(a * a, b * b, HALF, HALF);
  }

  lemma NearChain(a: real, b: real, c: real, first: real, second: real, more: real)
    requires Near(a, b, first) && Near(b, c, second) && first <= more
    ensures Near(a, c, more + second)
  {
  }

  /** Both roundings together. */
  lemma RoundingsCompose(m: Matrix, e: Vector, x: Vector, k: Vector, mu: real)
    requires Square(m, |e|) && Within(e, x, k) && Bounded(m, mu) && mu >= 0.0
    ensures Near(Form(Quantized(m), e), Form(m, x), MatrixSlack(Norm(x) + Sum(k)) + ExposureSlack(Norm(x), Sum(k), mu))
  {
    RadicandError(m, e);
    ExposuresMoveTheForm(m, e, x, k, mu);
    NormsDiffer(e, x, k);
    MatrixSlackGrows(Norm(e), Norm(x) + Sum(k));
    NearChain(Form(Quantized(m), e), Form(m, e), Form(m, x), Tolerance(e), ExposureSlack(Norm(x), Sum(k), mu),
              MatrixSlack(Norm(x) + Sum(k)));
  }

  // ---------------------------------------------------------------------------------
  // How many roundings there are
  // ---------------------------------------------------------------------------------

  predicate Distinct(factors: seq<Factor>) {
    forall i, j | 0 <= i < j < |factors| :: factors[i] != factors[j]
  }

  function Rows(specs: seq<Instrument>, rate: Factor): nat {
    if specs == [] then 0 else |specs[0].Rows(rate)| + Rows(specs[1..], rate)
  }

  /** The contributions to all the factors. */
  function Total(specs: seq<Instrument>, rate: Factor, factors: seq<Factor>): nat {
    if factors == [] then 0 else Contributors(specs, rate, factors[0]) + Total(specs, rate, factors[1..])
  }

  function Counts(rows: seq<(Factor, real)>, factors: seq<Factor>): nat {
    if factors == [] then 0 else Count(rows, factors[0]) + Counts(rows, factors[1..])
  }

  lemma {:induction false} MarginsSum(specs: seq<Instrument>, rate: Factor, factors: seq<Factor>)
    ensures Sum(Margins(specs, rate, factors)) == Total(specs, rate, factors) as real * HALF
  {
    if factors != [] {
      MarginsSum(specs, rate, factors[1..]);
      assert Margins(specs, rate, factors)[1..] == Margins(specs, rate, factors[1..]);
    }
  }

  lemma {:induction false} TotalSplits(specs: seq<Instrument>, rate: Factor, factors: seq<Factor>)
    requires specs != []
    ensures Total(specs, rate, factors) == Counts(specs[0].Rows(rate), factors) + Total(specs[1..], rate, factors)
  {
    if factors != [] { TotalSplits(specs, rate, factors[1..]); }
  }

  lemma {:induction false} NoRowsNoCounts(factors: seq<Factor>)
    ensures Counts([], factors) == 0
  {
    if factors != [] { NoRowsNoCounts(factors[1..]); }
  }

  lemma {:induction false} NothingTotal(rate: Factor, factors: seq<Factor>)
    ensures Total([], rate, factors) == 0
  {
    if factors != [] { NothingTotal(rate, factors[1..]); }
  }

  /** A row counts for one factor at most. */
  lemma {:induction false} OneRowOneFactor(rows: seq<(Factor, real)>, factors: seq<Factor>)
    requires rows != [] && Distinct(factors)
    ensures Counts(rows, factors) <= Counts(rows[1..], factors) + (if rows[0].0 in factors then 1 else 0)
  {
    if factors != [] {
      OneRowOneFactor(rows, factors[1..]);
    }
  }

  lemma {:induction false} CountsAreRows(rows: seq<(Factor, real)>, factors: seq<Factor>)
    requires Distinct(factors)
    ensures Counts(rows, factors) <= |rows|
  {
    if rows == [] {
      NoRowsNoCounts(factors);
    } else {
      OneRowOneFactor(rows, factors);
      CountsAreRows(rows[1..], factors);
    }
  }

  /** There are at most two roundings for each instrument. */
  lemma {:induction false} TwoRoundingsEach(specs: seq<Instrument>, rate: Factor, factors: seq<Factor>)
    requires Distinct(factors)
    ensures Total(specs, rate, factors) <= 2 * |specs|
  {
    if specs == [] {
      NothingTotal(rate, factors);
    } else {
      TotalSplits(specs, rate, factors);
      CountsAreRows(specs[0].Rows(rate), factors);
      TwoRoundingsEach(specs[1..], rate, factors);
    }
  }

  // ---------------------------------------------------------------------------------
  // The derivation
  // ---------------------------------------------------------------------------------

  /** The bound in the number of instruments alone: no margin but one unit of the last place for each. */
  function Slack(instruments: nat, n: real, mu: real): real {
    MatrixSlack(n + instruments as real * (2.0 * HALF)) + ExposureSlack(n, instruments as real * (2.0 * HALF), mu)
  }

  lemma SlackGrows(n: real, d: real, c: real, mu: real)
    requires 0.0 <= n && 0.0 <= d <= c && 0.0 <= mu
    ensures MatrixSlack(n + d) + ExposureSlack(n, d, mu) <= MatrixSlack(n + c) + ExposureSlack(n, c, mu)
  {
    MatrixSlackGrows(n + d, n + c);
    ProductsGrow(n + d, n + c, mu, mu);
    ProductsGrow(d, c, (n + d) * mu, (n + c) * mu);
    ProductsGrow(d, c, mu, mu);
    ProductsGrow(n, n, d * mu, c * mu);
  }

  /** The radicand of the whole derivation against the form of the exact exposures and the exact
      covariance, in the number of instruments, the exact exposures and a bound on the covariances. */
  lemma DerivationError(specs: seq<Instrument>, rate: Factor, factors: seq<Factor>, series: Matrix, n: nat, mu: real)
    requires Distinct(factors) && Window(series, n) && |series| == |factors|
    requires Bounded(ExactMatrix(series, n), mu) && mu >= 0.0
    ensures var x := Ideal(specs, rate, factors);
            Near(Radicand(series, n, Rounded(specs, rate, factors)), Form(ExactMatrix(series, n), x),
                 Slack(|specs|, Norm(x), mu))
  {
    var m, x, k := ExactMatrix(series, n), Ideal(specs, rate, factors), Margins(specs, rate, factors);
    RoundedIsWithin(specs, rate, factors);
    RoundingsCompose(m, Rounded(specs, rate, factors), x, k, mu);
    MarginsSum(specs, rate, factors);
    TwoRoundingsEach(specs, rate, factors);
    OneUnitEach(Total(specs, rate, factors), |specs|, Sum(k));
    SlackGrows(Norm(x), Sum(k), |specs| as real * (2.0 * HALF), mu);
  }

  lemma OneUnitEach(total: nat, instruments: nat, sum: real)
    requires total <= 2 * instruments && sum == total as real * HALF
    ensures 0.0 <= sum <= instruments as real * (2.0 * HALF)
  {
  }

  /** The script: exposures, covariance, radicand. It stops on a factor it does not keep; otherwise its
      radicand is that of the rounded exposures, within the bound of the exact one. */
  method Derive(specs: seq<Instrument>, rate: Factor, factors: seq<Factor>, series: Matrix, n: nat)
    returns (rad: Option<real>)
    requires Distinct(factors) && Window(series, n) && |series| == |factors|
    ensures rad.Some? <==> Known(specs, rate, factors)
    ensures rad.Some? ==> rad.value == Radicand(series, n, Rounded(specs, rate, factors))
    ensures rad.Some? ==> forall mu | Bounded(ExactMatrix(series, n), mu) && mu >= 0.0 ::
              var x := Ideal(specs, rate, factors);
              Near(rad.value, Form(ExactMatrix(series, n), x), Slack(|specs|, Norm(x), mu))
  {
    var expo := Exposures(HalfUp, specs, rate, factors);
    if expo.None? {
      return None;
    }
    var e := seq(|factors|, a requires 0 <= a < |factors| => expo.value[factors[a]]);
    assert e == Rounded(specs, rate, factors);
    var r := DeriveRadicand(series, n, e);
    forall mu | Bounded(ExactMatrix(series, n), mu) && mu >= 0.0
      ensures var x := Ideal(specs, rate, factors); Near(r, Form(ExactMatrix(series, n), x), Slack(|specs|, Norm(x), mu))
    {
      DerivationError(specs, rate, factors, series, n, mu);
    }
    return Some(r);
  }
}
