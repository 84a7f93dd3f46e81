/** A book for which the derivation has no root to take: two positions and three factors, over a window
    of any length. One factor hardly moves, so that its variance rounds to zero while its covariance
    with the second does not.
 */
module WorkedDerivation {
  import opened Wrappers
  import opened VarDerivation
  import RadicandRoot
  import opened WholeDerivation

  // ---------------------------------------------------------------------------------
  // The series
  // ---------------------------------------------------------------------------------

  function Still(n: nat): Vector {
    seq(n, t => 0.0)
  }

  /** Up by `x` on the first day, down by it on the next, and still from then on. */
  function Spike(x: real, n: nat): (v: Vector)
    requires n >= 2
    ensures |v| == n
  {
    [x, -x] + Still(n - 2)
  }

  lemma {:induction false} StillSum(n: nat)
    ensures Sum(Still(n)) == 0.0
  {
    if n > 0 {
      assert Still(n)[1..] == Still(n - 1);
      StillSum(n - 1);
    }
  }

  lemma SpikeTails(x: real, n: nat)
    requires n >= 2
    ensures Spike(x, n)[0] == x && Spike(x, n)[1..] == [-x] + Still(n - 2)
    ensures ([-x] + Still(n - 2))[0] == -x && ([-x] + Still(n - 2))[1..] == Still(n - 2)
  {
  }

  lemma SpikeIsCentred(x: real, n: nat)
    requires n >= 2
    ensures Deviations(Spike(x, n)) == Spike(x, n)
  {
    SpikeTails(x, n);
    StillSum(n - 2);
    assert Sum([-x] + Still(n - 2)) == -x;
    assert Sum(Spike(x, n)) == 0.0;
    assert Mean(Spike(x, n)) == 0.0;
  }

  lemma SpikeDot(x: real, y: real, n: nat)
    requires n >= 2
    ensures Dot(Spike(x, n), Spike(y, n)) == 2.0 * (x * y)
  {
    SpikeTails(x, n);
    SpikeTails(y, n);
    ZeroDot(n - 2, Still(n - 2));
    assert Dot([-x] + Still(n - 2), [-y] + Still(n - 2)) == -x * -y;
  }

  /** A move of 0.00000000004, one of `n - 1`, and none at all. */
  const TINY := 0.00000000004

  function Moves(n: nat): Vector {
    [TINY, (n - 1) as real, 0.0]
  }

  function Series(n: nat): (s: Matrix)
    requires n >= 2
    ensures Window(s, n) && |s| == 3
    ensures forall a | 0 <= a < 3 :: s[a] == Spike(Moves(n)[a], n)
  {
    [Spike(TINY, n), Spike((n - 1) as real, n), Spike(0.0, n)]
  }

  lemma EntryOf(n: nat, k: real, a: nat, b: nat, x: real, y: real, v: real)
    requires n >= 2 && k == (n - 1) as real && a < 3 && b < 3 && x == Moves(n)[a] && y == Moves(n)[b]
    requires v == 2.0 * (x * y) / k
    ensures ExactMatrix(Series(n), n)[a][b] == v
  {
    SpikeIsCentred(x, n);
    SpikeIsCentred(y, n);
    SpikeDot(x, y, n);
    assert ExactMatrix(Series(n), n)[a][b] == Exact(Series(n), n, a, b);
  }

  lemma GridIsKept(k: int, x: real)
    requires x * SCALE == k as real
    ensures HalfUp(x) == x
  {
    assert OnGrid(x);
    HalfUpIsTheOne(x, x);
  }

  /** Less than half a unit is nothing. */
  lemma SmallIsLost(x: real)
    requires 0.0 <= x < HALF
    ensures HalfUp(x) == 0.0
  {
    HalfUpIsTheOne(x, 0.0);
  }

  lemma QuantizedEntry(n: nat, q: Matrix, a: nat, b: nat, v: real, r: real)
    requires n >= 2 && a < 3 && b < 3 && q == Quantized(ExactMatrix(Series(n), n))
    requires ExactMatrix(Series(n), n)[a][b] == v && r == HalfUp(v)
    ensures |q| == 3 && |q[a]| == 3 && q[a][b] == r
  {
  }

  /** An entry of less than half a unit is gone. */
  lemma LostEntry(n: nat, k: real, q: Matrix, a: nat, b: nat, x: real, y: real, v: real)
    requires n >= 2 && k == (n - 1) as real && a < 3 && b < 3 && x == Moves(n)[a] && y == Moves(n)[b]
    requires q == Quantized(ExactMatrix(Series(n), n)) && v == 2.0 * (x * y) / k && 0.0 <= v < HALF
    ensures |q| == 3 && |q[a]| == 3 && q[a][b] == 0.0
  {
    EntryOf(n, k, a, b, x, y, v);
    SmallIsLost(v);
    QuantizedEntry(n, q, a, b, v, 0.0);
  }

  /** An entry that has 20 places is kept. */
  lemma KeptEntry(n: nat, k: real, q: Matrix, a: nat, b: nat, x: real, y: real, v: real, j: int)
    requires n >= 2 && k == (n - 1) as real && a < 3 && b < 3 && x == Moves(n)[a] && y == Moves(n)[b]
    requires q == Quantized(ExactMatrix(Series(n), n)) && v == 2.0 * (x * y) / k && v * SCALE == j as real
    ensures |q| == 3 && |q[a]| == 3 && q[a][b] == v
  {
    EntryOf(n, k, a, b, x, y, v);
    GridIsKept(j, v);
    QuantizedEntry(n, q, a, b, v, v);
  }

  /** The variance of the first factor is gone. */
  lemma FirstVariance(n: nat, q: Matrix, k: real, x: real)
    requires n >= 2 && k == (n - 1) as real && x == TINY && q == Quantized(ExactMatrix(Series(n), n))
    ensures |q| == 3 && |q[0]| == 3 && q[0][0] == 0.0
  {
    var v := TinyVariance(x, k);
    LostEntry(n, k, q, 0, 0, x, x, v);
  }

  /** Its covariance with the second is not. */
  lemma FirstCovariance(n: nat, q: Matrix, k: real)
    requires n >= 2 && k == (n - 1) as real && q == Quantized(ExactMatrix(Series(n), n))
    ensures |q| == 3 && |q[0]| == 3 && q[0][1] == 2.0 * TINY
  {
    Shares(k);
    KeptEntry(n, k, q, 0, 1, TINY, k, 2.0 * TINY, 8000000000);
  }

  lemma SecondVariance(n: nat, q: Matrix, k: real)
    requires n >= 2 && k == (n - 1) as real && q == Quantized(ExactMatrix(Series(n), n))
    ensures |q| == 3 && |q[1]| == 3 && q[1][1] == 2.0 * k
  {
    Shares(k);
    KeptEntry(n, k, q, 1, 1, k, k, 2.0 * k, 200000000000000000000 * (n - 1));
  }

  /** The third factor stands still. */
  lemma ThirdIsZero(n: nat, q: Matrix, k: real, a: nat, x: real)
    requires n >= 2 && k == (n - 1) as real && a < 3 && x == Moves(n)[a] && q == Quantized(ExactMatrix(Series(n), n))
    ensures |q| == 3 && |q[a]| == 3 && q[a][2] == 0.0
  {
    var y, v := Nothing(x, k);
    LostEntry(n, k, q, a, 2, x, y, v);
  }

  lemma Nothing(x: real, k: real) returns (y: real, v: real)
    requires k >= 1.0
    ensures y == 0.0 && v == 2.0 * (x * y) / k && 0.0 <= v < HALF
  {
    y, v := 0.0, 0.0;
  }

  lemma TinyVariance(x: real, k: real) returns (v: real)
    requires k >= 1.0 && x == TINY
    ensures v == 2.0 * (x * x) / k && 0.0 <= v < HALF
  {
    v := 2.0 * (x * x) / k;
  }

  lemma Shares(k: real)
    requires k >= 1.0
    ensures 2.0 * (TINY * k) / k == 2.0 * TINY && 2.0 * (k * k) / k == 2.0 * k
  {
  }

  lemma WholeIsKept(j: nat, x: real)
    requires x == 2.0 * j as real
    ensures HalfUp(x) == x
  {
    GridIsKept(200000000000000000000 * j, x);
  }

  /** What is left is not a covariance: its first principal minor of two factors is negative, and so is
      its form at the exposures below. */
  lemma NoCovariance(n: nat, q: Matrix, e: Vector, k: real)
    requires n >= 2 && k == (n - 1) as real && q == Quantized(ExactMatrix(Series(n), n))
    requires e == [20000000000.0 * k, -1.0, 0.0]
    ensures Square(q, 3) && !RadicandRoot.MinorsOf(q)
    ensures Form(q, e) == -1.2 * k
  {
    FirstVariance(n, q, k, TINY);
    FirstCovariance(n, q, k);
    SecondVariance(n, q, k);
    ThirdIsZero(n, q, k, 0, TINY);
    ThirdIsZero(n, q, k, 1, k);
    ThirdIsZero(n, q, k, 2, 0.0);
    CovarianceIsSymmetric(Series(n), n);
    RadicandRoot.FormOfThree(q, e);
    FormValue(k);
  }

  lemma FormValue(k: real)
    ensures RadicandRoot.Form3(0.0, 2.0 * TINY, 0.0, 2.0 * k, 0.0, 0.0, 20000000000.0 * k, -1.0, 0.0) == -1.2 * k
    ensures !RadicandRoot.Minors2(0.0, 2.0 * TINY, 2.0 * k)
  {
  }

  // ---------------------------------------------------------------------------------
  // The positions
  // ---------------------------------------------------------------------------------

  const RATES := "RATES_EUR_10Y"
  const FACTORS: seq<Factor> := [RATES, "CREDIT_IG", "CREDIT_HY"]

  /** A long position in rates alone, and a short one in credit alone. */
  function Book(n: nat): seq<Instrument>
    requires n >= 2
  {
    [Instrument(20000000000.0, (n - 1) as real, 1.0, None, 0.0), Instrument(-1.0, 1.0, 0.0, Some("CREDIT_IG"), 1.0)]
  }

  /** An instrument with one row of loading one. */
  lemma OneRow(i: Instrument, g: Factor, f: Factor)
    requires i.Rows(RATES) == [(g, 1.0)] && HalfUp(i.Value()) == i.Value()
    ensures Exposure(HalfUp, [i], RATES, f) == if f == g then i.Value() else 0.0
  {
    assert [i][1..] == [];
    OneContribution(HalfUp, (g, 1.0), i.Value(), f);
    assert 1.0 * i.Value() == i.Value();
  }

  lemma BookIsRounded(n: nat, k: real)
    requires n >= 2 && k == (n - 1) as real
    ensures Known(Book(n), RATES, FACTORS) && Rounded(Book(n), RATES, FACTORS) == [20000000000.0 * k, -1.0, 0.0]
  {
    var a, b := Book(n)[0], Book(n)[1];
    assert a.Rows(RATES) == [(RATES, 1.0)] && b.Rows(RATES) == [("CREDIT_IG", 1.0)];
    WholeIsKept(10000000000 * (n - 1), 20000000000.0 * k);
    GridIsKept(-100000000000000000000, -1.0);
    forall f ensures Exposure(HalfUp, Book(n), RATES, f) ==
                     (if f == RATES then 20000000000.0 * k else 0.0) + (if f == "CREDIT_IG" then -1.0 else 0.0)
    {
      assert Book(n) == [a] + [b];
      ExposureSplits(HalfUp, [a], [b], RATES, f);
      OneRow(a, RATES, f);
      OneRow(b, "CREDIT_IG", f);
    }
  }

  /** The script's three factors, two positions, any window of at least two days: the exposures and the
      covariance are what the script makes of them, and the radicand is negative. */
  lemma RadicandCanBeNegative(n: nat)
    requires n >= 2
    ensures Window(Series(n), n) && |Series(n)| == |FACTORS| == 3 && Known(Book(n), RATES, FACTORS)
    ensures Radicand(Series(n), n, Rounded(Book(n), RATES, FACTORS)) < 0.0
    ensures !RadicandRoot.MinorsOf(Quantized(ExactMatrix(Series(n), n)))
  {
    BookIsRounded(n, (n - 1) as real);
    NoCovariance(n, Quantized(ExactMatrix(Series(n), n)), Rounded(Book(n), RATES, FACTORS), (n - 1) as real);
  }

  /** The derivation, run on that book over the script's thirty days. */
  method DeriveTheBook() returns (rad: Option<real>)
    ensures rad.Some? && rad.value < 0.0
  {
    RadicandCanBeNegative(30);
    rad := Derive(Book(30), RATES, FACTORS, Series(30), 30);
  }
}
