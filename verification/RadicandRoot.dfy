/** When the radicand of the derivation has a root. Rounding is known only entry by entry; and the
    derivation itself runs on three factors.
 */
module RadicandRoot {
  import opened VarDerivation

  // ---------------------------------------------------------------------------------
  // Against every rounding of the matrix
  // ---------------------------------------------------------------------------------

  /** `w` is a symmetric matrix that differs from `m` by at most half a unit, entry by entry. */
  predicate RoundingOf(w: Matrix, m: Matrix) {
    && |w| == |m| && Symmetric(w)
    && forall a | 0 <= a < |m| :: Close(w[a], m[a], HALF)
  }

  /** No rounding of `m` makes the radicand of `e` negative. */
  ghost predicate AlwaysRooted(m: Matrix, e: Vector)
    requires Square(m, |e|)
  {
    forall w: Matrix | RoundingOf(w, m) :: Form(w, e) >= 0.0
  }

  function Sign(x: real): real {
    if x >= 0.0 then 1.0 else -1.0
  }

  function Signs(e: Vector): (s: Vector)
    ensures |s| == |e| && forall a | 0 <= a < |e| :: s[a] == Sign(e[a])
  {
    if e == [] then [] else [Sign(e[0])] + Signs(e[1..])
  }

  lemma {:induction false} SignsMakeTheNorm(e: Vector)
    ensures Dot(Signs(e), e) == Norm(e)
  {
    if e != [] {
      SignsMakeTheNorm(e[1..]);
      assert Sign(e[0]) * e[0] == Abs(e[0]);
    }
  }

  lemma {:induction false} ScaledAt(c: real, v: Vector, a: nat)
    requires a < |v|
    ensures Scaled(c, v)[a] == c * v[a]
  {
    if a > 0 {
      ScaledAt(c, v[1..], a - 1);
    }
  }

  /** `x` moved against `s` by the coefficient `k`. */
  function Moved(x: Vector, k: real, s: Vector): (r: Vector)
    requires |x| == |s|
    ensures |r| == |x|
  {
    seq(|x|, b requires 0 <= b < |x| => x[b] - s[b] * k)
  }

  lemma MovedIsMinus(x: Vector, k: real, s: Vector)
    requires |x| == |s|
    ensures Moved(x, k, s) == Minus(x, Scaled(k, s))
  {
    forall b | 0 <= b < |x| ensures Moved(x, k, s)[b] == Minus(x, Scaled(k, s))[b] {
      ScaledAt(k, s, b);
    }
  }

  lemma DotMoved(e: Vector, x: Vector, k: real, s: Vector)
    requires |e| == |x| == |s|
    ensures Dot(e, Moved(x, k, s)) == Dot(e, x) - k * Dot(s, e)
  {
    MovedIsMinus(x, k, s);
    DotMinus(e, x, Scaled(k, s));
    DotCommutes(e, Scaled(k, s));
    DotScaled(k, s, e);
  }

  /** `m` with each row moved against `s`, by its own coefficient. */
  function Shifted(m: Matrix, ks: Vector, s: Vector): (w: Matrix)
    requires |m| == |ks| && forall a | 0 <= a < |m| :: |m[a]| == |s|
    ensures |w| == |m|
    ensures forall a | 0 <= a < |m| :: w[a] == Moved(m[a], ks[a], s)
  {
    seq(|m|, a requires 0 <= a < |m| => Moved(m[a], ks[a], s))
  }

  lemma ShiftedRow(row: Vector, k: real, s: Vector, e: Vector)
    requires |row| == |s| == |e|
    ensures Dot(Moved(row, k, s), e) == Dot(row, e) - k * Dot(s, e)
  {
    DotCommutes(Moved(row, k, s), e);
    DotMoved(e, row, k, s);
    DotCommutes(e, row);
  }

  lemma RowShifts(row: Vector, w: Vector, k: real, s: Vector, e: Vector)
    requires |row| == |s| == |e| && w == Moved(row, k, s)
    ensures Dot(w, e) == Dot(row, e) - k * Dot(s, e)
  {
    ShiftedRow(row, k, s, e);
  }

  lemma ShiftedImage(m: Matrix, ks: Vector, s: Vector, e: Vector)
    requires |m| == |ks| && |s| == |e| && forall a | 0 <= a < |m| :: |m[a]| == |e|
    ensures Image(Shifted(m, ks, s), e) == Moved(Image(m, e), Dot(s, e), ks)
  {
    var w := Shifted(m, ks, s);
    forall a | 0 <= a < |m| ensures Dot(w[a], e) == Dot(m[a], e) - ks[a] * Dot(s, e) {
      RowShifts(m[a], w[a], ks[a], s, e);
    }
    ImageMoves(m, w, e, Dot(s, e), ks);
  }

  lemma ImageMoves(m: Matrix, w: Matrix, e: Vector, norm: real, ks: Vector)
    requires |m| == |w| == |ks| && forall a | 0 <= a < |m| :: |m[a]| == |w[a]| == |e|
    requires forall a | 0 <= a < |m| :: Dot(w[a], e) == Dot(m[a], e) - ks[a] * norm
    ensures Image(w, e) == Moved(Image(m, e), norm, ks)
  {
    MovedFrom(Image(m, e), Image(w, e), norm, ks);
  }

  lemma MovedFrom(x: Vector, y: Vector, k: real, s: Vector)
    requires |x| == |y| == |s| && forall a | 0 <= a < |x| :: y[a] == x[a] - s[a] * k
    ensures y == Moved(x, k, s)
  {
    forall a | 0 <= a < |x| ensures y[a] == Moved(x, k, s)[a] {
    }
  }

  lemma ShiftedForm(m: Matrix, ks: Vector, s: Vector, e: Vector, norm: real)
    requires Square(m, |e|) && |s| == |e| && |ks| == |e| && norm == Dot(s, e)
    ensures Form(Shifted(m, ks, s), e) == Form(m, e) - norm * Dot(ks, e)
  {
    ShiftedImage(m, ks, s, e);
    DotMoved(e, Image(m, e), norm, ks);
  }

  /** The rounding that lowers the radicand of `e` most: every entry goes half a unit against the
      signs of its two exposures. */
  function Worst(m: Matrix, e: Vector): (w: Matrix)
    requires Square(m, |e|)
    ensures Square(w, |e|)
  {
    Shifted(m, Scaled(HALF, Signs(e)), Signs(e))
  }

  /** Half a unit, up or down as the signs of two exposures agree or not. */
  function Nudge(x: real, y: real): real {
    if (x >= 0.0) == (y >= 0.0) then HALF else -HALF
  }

  lemma SignsMakeTheNudge(k: real, x: real, y: real)
    requires k == HALF * Sign(x)
    ensures Sign(y) * k == Nudge(x, y)
  {
    if y >= 0.0 {
      assert Sign(y) == 1.0;
    } else {
      assert Sign(y) == -1.0;
    }
  }

  lemma ShiftedAt(m: Matrix, ks: Vector, s: Vector, a: nat, b: nat, k: real, t: real)
    requires |m| == |ks| && (forall i | 0 <= i < |m| :: |m[i]| == |s|) && a < |m| && b < |s|
    requires k == ks[a] && t == s[b]
    ensures Shifted(m, ks, s)[a][b] == m[a][b] - t * k
  {
  }

  lemma NudgedIsARounding(w: Matrix, m: Matrix, e: Vector)
    requires Square(m, |e|) && Symmetric(m) && Square(w, |e|)
    requires forall a, b {:trigger w[a][b]} | 0 <= a < |e| && 0 <= b < |e| :: w[a][b] == m[a][b] - Nudge(e[a], e[b])
    ensures RoundingOf(w, m)
  {
    forall a | 0 <= a < |e| ensures Close(w[a], m[a], HALF) {
    }
  }

  lemma WorstIsARounding(m: Matrix, e: Vector)
    requires Square(m, |e|) && Symmetric(m)
    ensures RoundingOf(Worst(m, e), m)
  {
    var w, ks, s := Worst(m, e), Scaled(HALF, Signs(e)), Signs(e);
    forall a, b | 0 <= a < |e| && 0 <= b < |e| ensures w[a][b] == m[a][b] - Nudge(e[a], e[b]) {
      ScaledAt(HALF, s, a);
      ShiftedAt(m, ks, s, a, b, ks[a], Sign(e[b]));
      SignsMakeTheNudge(ks[a], e[a], e[b]);
    }
    NudgedIsARounding(w, m, e);
  }

  /** It lowers the radicand by exactly the tolerance. */
  lemma WorstCostsTheTolerance(m: Matrix, e: Vector)
    requires Square(m, |e|)
    ensures Form(Worst(m, e), e) == Form(m, e) - Tolerance(e)
  {
    SignsMakeTheNorm(e);
    DotScaled(HALF, Signs(e), e);
    ShiftedForm(m, Scaled(HALF, Signs(e)), Signs(e), e, Norm(e));
    Commuted(HALF, Norm(e));
  }

  lemma Commuted(h: real, norm: real)
    ensures norm * (h * norm) == norm * norm * h
  {
  }

  /** The tolerance is the exact price of not knowing the last place: the unquantized radicand is at
      least the tolerance if and only if no rounding of the matrix makes the radicand negative. */
  lemma ToleranceExactly(m: Matrix, e: Vector)
    requires Square(m, |e|) && Symmetric(m)
    ensures Form(m, e) >= Tolerance(e) <==> AlwaysRooted(m, e)
  {
    WorstIsARounding(m, e);
    WorstCostsTheTolerance(m, e);
    forall w: Matrix | RoundingOf(w, m) ensures Form(w, e) >= Form(m, e) - Tolerance(e) {
      FormError(w, m, e, HALF);
      ToleranceSpreads(e);
    }
  }

  /** The quantized covariance is one such rounding, so from the tolerance up the root is safe. */
  lemma RootIsSafe(series: Matrix, n: nat, e: Vector)
    requires Window(series, n) && |e| == |series|
    ensures Form(ExactMatrix(series, n), e) >= Tolerance(e) <==> AlwaysRooted(ExactMatrix(series, n), e)
    ensures Form(ExactMatrix(series, n), e) >= Tolerance(e) ==> Radicand(series, n, e) >= 0.0
  {
    CovarianceIsSymmetric(series, n);
    ToleranceExactly(ExactMatrix(series, n), e);
    RadicandError(ExactMatrix(series, n), e);
  }

  // ---------------------------------------------------------------------------------
  // Two factors
  // ---------------------------------------------------------------------------------

  /** The quadratic form of [[a, b], [b, c]]. */
  function Form2(a: real, b: real, c: real, x: real, y: real): real {
    a * x * x + 2.0 * b * x * y + c * y * y
  }

  ghost predicate Definite2(a: real, b: real, c: real) {
    forall x, y :: Form2(a, b, c, x, y) >= 0.0
  }

  predicate Minors2(a: real, b: real, c: real) {
    a >= 0.0 && c >= 0.0 && a * c - b * b >= 0.0
  }

  lemma Positive(x: real)
    requires x != 0.0
    ensures x * x > 0.0
  {
  }

  lemma SquarePositive(x: real)
    ensures x * x >= 0.0 && (x == 0.0 || x * x > 0.0)
  {
    if x != 0.0 {
      Positive(x);
    }
  }

  lemma NonNegativeFactor(a: real, x: real)
    requires a > 0.0 && a * x >= 0.0
    ensures x >= 0.0
  {
  }

  lemma NonNegativeProduct(a: real, x: real)
    requires a >= 0.0 && x >= 0.0
    ensures a * x >= 0.0
  {
  }

  lemma CompleteSquare2(a: real, b: real, c: real, x: real, y: real)
    ensures a * Form2(a, b, c, x, y) == (a * x + b * y) * (a * x + b * y) + (a * c - b * b) * (y * y)
  {
  }

  lemma MinorsSuffice2(a: real, b: real, c: real, x: real, y: real)
    requires Minors2(a, b, c)
    ensures Form2(a, b, c, x, y) >= 0.0
  {
    SquarePositive(y);
    if a == 0.0 {
      SquarePositive(b);
      NonNegativeProduct(c, y * y);
    } else {
      CompleteSquare2(a, b, c, x, y);
      SquarePositive(a * x + b * y);
      NonNegativeProduct(a * c - b * b, y * y);
      NonNegativeFactor(a, Form2(a, b, c, x, y));
    }
  }

  lemma MinorsNeeded2(a: real, b: real, c: real)
    requires Definite2(a, b, c)
    ensures Minors2(a, b, c)
  {
    assert Form2(a, b, c, 1.0, 0.0) == a;
    assert Form2(a, b, c, 0.0, 1.0) == c;
    if a > 0.0 {
      assert Form2(a, b, c, -b, a) >= 0.0;
      Determinant2(a, b, c);
      NonNegativeFactor(a, a * c - b * b);
    } else if b != 0.0 {
      var x := -(c + 1.0) / (2.0 * b);
      assert Form2(a, b, c, x, 1.0) >= 0.0;
      Slope(b, c, x);
    }
  }

  lemma Determinant2(a: real, b: real, c: real)
    ensures Form2(a, b, c, -b, a) == a * (a * c - b * b)
  {
  }

  lemma Slope(b: real, c: real, x: real)
    requires b != 0.0 && x == -(c + 1.0) / (2.0 * b)
    ensures Form2(0.0, b, c, x, 1.0) == -1.0
  {
    assert 2.0 * b * x == -(c + 1.0);
  }

  // ---------------------------------------------------------------------------------
  // Three factors
  // ---------------------------------------------------------------------------------

  /** The quadratic form of [[a, b, c], [b, d, f], [c, f, g]]. */
  function Form3(a: real, b: real, c: real, d: real, f: real, g: real, x: real, y: real, z: real): real {
    a * x * x + d * y * y + g * z * z + 2.0 * b * x * y + 2.0 * c * x * z + 2.0 * f * y * z
  }

  ghost predicate Definite3(a: real, b: real, c: real, d: real, f: real, g: real) {
    forall x, y, z :: Form3(a, b, c, d, f, g, x, y, z) >= 0.0
  }

  function Det3(a: real, b: real, c: real, d: real, f: real, g: real): real {
    a * (d * g - f * f) - b * (b * g - c * f) + c * (b * f - c * d)
  }

  /** Every principal minor is non-negative. */
  predicate Minors3(a: real, b: real, c: real, d: real, f: real, g: real) {
    Minors2(a, b, d) && Minors2(a, c, g) && Minors2(d, f, g) && Det3(a, b, c, d, f, g) >= 0.0
  }

  /** What is left of the form once the first factor is eliminated, and its determinant. */
  lemma Eliminate(a: real, b: real, c: real, d: real, f: real, g: real) returns (p: real, q: real, r: real)
    ensures p == a * d - b * b && q == a * f - b * c && r == a * g - c * c
    ensures p * r - q * q == a * Det3(a, b, c, d, f, g)
  {
    p, q, r := a * d - b * b, a * f - b * c, a * g - c * c;
  }

  lemma CompleteSquare3(a: real, b: real, c: real, d: real, f: real, g: real, p: real, q: real, r: real,
                        x: real, y: real, z: real) returns (whole: real, t: real, rest: real)
    requires p == a * d - b * b && q == a * f - b * c && r == a * g - c * c
    ensures whole == a * Form3(a, b, c, d, f, g, x, y, z) && t == a * x + b * y + c * z && rest == Form2(p, q, r, y, z)
    ensures whole == t * t + rest
  {
    whole, t, rest := a * Form3(a, b, c, d, f, g, x, y, z), a * x + b * y + c * z, Form2(p, q, r, y, z);
  }

  lemma Bounded3(a: real, b: real, c: real, d: real, f: real, g: real, p: real, q: real, r: real,
                 x: real, y: real, z: real)
    requires p == a * d - b * b && q == a * f - b * c && r == a * g - c * c
    ensures a * Form3(a, b, c, d, f, g, x, y, z) >= Form2(p, q, r, y, z)
    ensures a * x + b * y + c * z == 0.0 ==> a * Form3(a, b, c, d, f, g, x, y, z) == Form2(p, q, r, y, z)
  {
    var whole, t, rest := CompleteSquare3(a, b, c, d, f, g, p, q, r, x, y, z);
    Bounded(whole, t, rest);
  }

  lemma Bounded(whole: real, t: real, rest: real)
    requires whole == t * t + rest
    ensures whole >= rest && (t == 0.0 ==> whole == rest)
  {
    SquarePositive(t);
  }

  lemma ProductOfPositives(x: real, y: real, q: real)
    requires x > 0.0 && y > 0.0 && q == x * y
    ensures q > 0.0
  {
  }

  lemma SquareOf(x: real, q: real)
    requires x != 0.0 && q == x * x
    ensures q > 0.0
  {
    var y := if x > 0.0 then x else -x;
    assert y * y == q;
    ProductOfPositives(y, y, q);
  }

  lemma EdgeIsNegative(a: real, b: real, d: real)
    requires a == 0.0 && b != 0.0
    ensures a * d - b * b < 0.0
  {
    var p, q := a * d, b * b;
    SquareOf(b, q);
    assert p == 0.0;
    assert p - q < 0.0;
  }

  lemma MinorsSuffice3(a: real, b: real, c: real, d: real, f: real, g: real, x: real, y: real, z: real)
    requires Minors3(a, b, c, d, f, g)
    ensures Form3(a, b, c, d, f, g, x, y, z) >= 0.0
  {
    if a == 0.0 {
      if b != 0.0 { EdgeIsNegative(a, b, d); }
      if c != 0.0 { EdgeIsNegative(a, c, g); }
      MinorsSuffice2(d, f, g, y, z);
      assert Form3(a, b, c, d, f, g, x, y, z) == Form2(d, f, g, y, z);
    } else {
      var p, q, r := Eliminate(a, b, c, d, f, g);
      NonNegativeProduct(a, Det3(a, b, c, d, f, g));
      MinorsSuffice2(p, q, r, y, z);
      Bounded3(a, b, c, d, f, g, p, q, r, x, y, z);
      NonNegativeFactor(a, Form3(a, b, c, d, f, g, x, y, z));
    }
  }

  lemma MinorsNeeded3(a: real, b: real, c: real, d: real, f: real, g: real)
    requires Definite3(a, b, c, d, f, g)
    ensures Minors3(a, b, c, d, f, g)
  {
    forall x, y ensures Form2(a, b, d, x, y) >= 0.0 { assert Form3(a, b, c, d, f, g, x, y, 0.0) >= 0.0; }
    MinorsNeeded2(a, b, d);
    forall x, y ensures Form2(a, c, g, x, y) >= 0.0 { assert Form3(a, b, c, d, f, g, x, 0.0, y) >= 0.0; }
    MinorsNeeded2(a, c, g);
    forall x, y ensures Form2(d, f, g, x, y) >= 0.0 { assert Form3(a, b, c, d, f, g, 0.0, x, y) >= 0.0; }
    MinorsNeeded2(d, f, g);
    DeterminantNeeded(a, b, c, d, f, g);
  }

  lemma DeterminantNeeded(a: real, b: real, c: real, d: real, f: real, g: real)
    requires Definite3(a, b, c, d, f, g) && Minors2(a, b, d) && Minors2(a, c, g)
    ensures Det3(a, b, c, d, f, g) >= 0.0
  {
    if a == 0.0 {
      SquarePositive(b);
      SquarePositive(c);
    } else {
      var p, q, r := Eliminate(a, b, c, d, f, g);
      forall y, z ensures Form2(p, q, r, y, z) >= 0.0 {
        Eliminated(a, b, c, d, f, g, p, q, r, y, z);
      }
      MinorsNeeded2(p, q, r);
      NonNegativeFactor(a, Det3(a, b, c, d, f, g));
    }
  }

  lemma Eliminated(a: real, b: real, c: real, d: real, f: real, g: real, p: real, q: real, r: real, y: real, z: real)
    requires a > 0.0 && Definite3(a, b, c, d, f, g)
    requires p == a * d - b * b && q == a * f - b * c && r == a * g - c * c
    ensures Form2(p, q, r, y, z) >= 0.0
  {
    var x := -(b * y + c * z) / a;
    assert Form3(a, b, c, d, f, g, x, y, z) >= 0.0;
    assert a * x + b * y + c * z == 0.0;
    Bounded3(a, b, c, d, f, g, p, q, r, x, y, z);
    NonNegativeProduct(a, Form3(a, b, c, d, f, g, x, y, z));
  }

  lemma TripleDot(u: Vector, v: Vector)
    requires |u| == |v| == 3
    ensures Dot(u, v) == u[0] * v[0] + u[1] * v[1] + u[2] * v[2]
  {
    assert u[1..][1..] == [u[2]] && v[1..][1..] == [v[2]];
    assert Dot([u[2]], [v[2]]) == u[2] * v[2] by {
      assert [u[2]][1..] == [] && [v[2]][1..] == [];
    }
  }

  lemma FormOfThree(m: Matrix, e: Vector)
    requires Square(m, 3) && |e| == 3 && Symmetric(m)
    ensures Form(m, e) == Form3(m[0][0], m[0][1], m[0][2], m[1][1], m[1][2], m[2][2], e[0], e[1], e[2])
  {
    TripleDot(m[0], e);
    TripleDot(m[1], e);
    TripleDot(m[2], e);
    TripleDot(e, Image(m, e));
    assert m[1][0] == m[0][1] && m[2][0] == m[0][2] && m[2][1] == m[1][2];
    Expand(m[0][0], m[0][1], m[0][2], m[1][1], m[1][2], m[2][2], e[0], e[1], e[2]);
  }

  lemma Expand(a: real, b: real, c: real, d: real, f: real, g: real, x: real, y: real, z: real)
    ensures x * (a * x + b * y + c * z) + y * (b * x + d * y + f * z) + z * (c * x + f * y + g * z) ==
            Form3(a, b, c, d, f, g, x, y, z)
  {
  }

  predicate MinorsOf(m: Matrix)
    requires Square(m, 3)
  {
    Minors3(m[0][0], m[0][1], m[0][2], m[1][1], m[1][2], m[2][2])
  }

  lemma MinorsSuffice(q: Matrix, e: Vector)
    requires Square(q, 3) && Symmetric(q) && MinorsOf(q) && |e| == 3
    ensures Form(q, e) >= 0.0
  {
    FormOfThree(q, e);
    MinorsSuffice3(q[0][0], q[0][1], q[0][2], q[1][1], q[1][2], q[2][2], e[0], e[1], e[2]);
  }

  lemma MinorsNeeded(q: Matrix)
    requires Square(q, 3) && Symmetric(q) && forall e: Vector | |e| == 3 :: Form(q, e) >= 0.0
    ensures MinorsOf(q)
  {
    var a, b, c, d, f, g := q[0][0], q[0][1], q[0][2], q[1][1], q[1][2], q[2][2];
    forall x, y, z ensures Form3(a, b, c, d, f, g, x, y, z) >= 0.0 {
      FormOfThree(q, [x, y, z]);
      assert Form(q, [x, y, z]) >= 0.0;
    }
    MinorsNeeded3(a, b, c, d, f, g);
  }

  /** For the three factors of the derivation, the radicand has a root for every exposure whatever if
      and only if no principal minor of the quantized covariance is negative. */
  lemma EveryExposureHasARootExactly(series: Matrix, n: nat)
    requires Window(series, n) && |series| == 3
    ensures (forall e: Vector | |e| == 3 :: Radicand(series, n, e) >= 0.0) <==> MinorsOf(Quantized(ExactMatrix(series, n)))
  {
    var q := Quantized(ExactMatrix(series, n));
    CovarianceIsSymmetric(series, n);
    if MinorsOf(q) {
      forall e: Vector | |e| == 3 ensures Radicand(series, n, e) >= 0.0 {
        MinorsSuffice(q, e);
      }
    }
    if forall e: Vector | |e| == 3 :: Radicand(series, n, e) >= 0.0 {
      forall e: Vector | |e| == 3 ensures Form(q, e) >= 0.0 {
        assert Radicand(series, n, e) >= 0.0;
      }
      MinorsNeeded(q);
    }
  }
}
