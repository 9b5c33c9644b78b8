/** The vector primitives of the recommender (backend/src/utils/mathUtils.js):
    cosine similarity, mean absolute error, root mean squared error and the
    rounded mean, over `real` sequences. */
module VectorMath {
  import opened Arith
  import opened Rounding

  function Sum(xs: seq<real>): real
  {
    if |xs| == 0 then 0.0 else xs[0] + Sum(xs[1..])
  }

  /** `a · b` as the loop in `cosineSimilarity` accumulates it. */
  function Dot(a: seq<real>, b: seq<real>): real
    requires |a| == |b|
  {
    if |a| == 0 then 0.0 else a[0] * b[0] + Dot(a[1..], b[1..])
  }

  function Abs(x: real): real
  {
    if x < 0.0 then -x else x
  }

  predicate NonNegative(xs: seq<real>)
  {
    forall i :: 0 <= i < |xs| ==> xs[i] >= 0.0
  }

  /** `actual[i] - predicted[i]` for every index. */
  function Errors(actual: seq<real>, predicted: seq<real>): (e: seq<real>)
    requires |actual| == |predicted|
    ensures |e| == |actual|
    ensures forall i :: 0 <= i < |e| ==> e[i] == actual[i] - predicted[i]
  {
    seq(|actual|, i requires 0 <= i < |actual| => actual[i] - predicted[i])
  }

  function AbsValues(xs: seq<real>): (r: seq<real>)
    ensures |r| == |xs|
    ensures forall i :: 0 <= i < |r| ==> r[i] == Abs(xs[i])
  {
    seq(|xs|, i requires 0 <= i < |xs| => Abs(xs[i]))
  }

  // ---------------------------------------------------------------------
  // Cosine similarity

  /** `Math.round(D / (|a| |b|) * 10000) / 10000` for the dot product `D`
      and the squared magnitudes `A == a·a`, `B == b·b`, both positive;
      `|a| |b| == sqrt(A * B)`. */
  function RoundedCosine(D: real, A: real, B: real): real
    requires A > 0.0 && B > 0.0
  {
    MulPositive(A, B);
    RoundOverRoot(10000.0 * D, A * B) as real / 10000.0
  }

  /** `cosineSimilarity(a, b)`: 0 for vectors of different length, for empty
      vectors and when either magnitude is 0; otherwise the rounded cosine. */
  function CosineSimilarity(a: seq<real>, b: seq<real>): (r: real)
    ensures |a| != |b| || |a| == 0 ==> r == 0.0
    ensures |a| == |b| && (Dot(a, a) == 0.0 || Dot(b, b) == 0.0) ==> r == 0.0
  {
    if |a| != |b| || |a| == 0 then 0.0
    else if Dot(a, a) == 0.0 || Dot(b, b) == 0.0 then 0.0
    else
      DotSelfNonNegative(a);
      DotSelfNonNegative(b);
      RoundedCosine(Dot(a, b), Dot(a, a), Dot(b, b))
  }

  lemma {:induction false} DotSelfNonNegative(a: seq<real>)
    ensures Dot(a, a) >= 0.0
  {
    if |a| > 0 {
      DotSelfNonNegative(a[1..]);
      SquareNonNegative(a[0]);
    }
  }

  lemma {:induction false} DotSymmetric(a: seq<real>, b: seq<real>)
    requires |a| == |b|
    ensures Dot(a, b) == Dot(b, a)
  {
    if |a| > 0 {
      DotSymmetric(a[1..], b[1..]);
    }
  }

  lemma {:induction false} DotNonNegative(a: seq<real>, b: seq<real>)
    requires |a| == |b|
    requires NonNegative(a) && NonNegative(b)
    ensures Dot(a, b) >= 0.0
  {
    if |a| > 0 {
      DotNonNegative(a[1..], b[1..]);
      MulLeft(0.0, b[0], a[0]);
    }
  }

  /** One step of Cauchy–Schwarz: the cross term is bounded by the mixed squares. */
  lemma CrossTerm(x: real, y: real, d: real, a: real, b: real)
    requires a >= 0.0 && b >= 0.0
    requires d * d <= a * b
    ensures 2.0 * (x * y * d) <= x * x * b + y * y * a
  {
    var p, q := x * x * b, y * y * a;
    var w := 2.0 * (x * y * d);
    var s := x * x * (y * y);
    SquareNonNegative(x);
    SquareNonNegative(y);
    MulLeft(0.0, b, x * x);
    MulLeft(0.0, a, y * y);
    assert s >= 0.0 by {
      MulLeft(0.0, y * y, x * x);
    }
    assert w * w == 4.0 * (s * (d * d));
    assert s * (d * d) <= s * (a * b) by {
      MulLeft(d * d, a * b, s);
    }
    assert s * (a * b) == p * q;
    BoundedBySum(w, p, q);
  }

  lemma CauchySchwarzStep(x: real, y: real, d: real, a: real, b: real)
    requires d * d <= a * b
    requires 2.0 * (x * y * d) <= x * x * b + y * y * a
    ensures (x * y + d) * (x * y + d) <= (x * x + a) * (y * y + b)
  {
    assert (x * y + d) * (x * y + d) == x * x * (y * y) + 2.0 * (x * y * d) + d * d;
    assert (x * x + a) * (y * y + b) == x * x * (y * y) + x * x * b + y * y * a + a * b;
  }

  /** The inductive step of Cauchy–Schwarz on the unfolded dot products. */
  lemma CauchySchwarzInduct(x: real, y: real, d: real, p: real, q: real, D: real, A: real, B: real)
    requires p >= 0.0 && q >= 0.0 && d * d <= p * q
    requires D == x * y + d && A == x * x + p && B == y * y + q
    ensures D * D <= A * B
  {
    CrossTerm(x, y, d, p, q);
    CauchySchwarzStep(x, y, d, p, q);
  }

  /** Cauchy–Schwarz: `(a·b)^2 <= (a·a)(b·b)`, the squared form of
      "the unrounded cosine lies in [-1, 1]". */
  lemma {:induction false} CauchySchwarz(a: seq<real>, b: seq<real>)
    requires |a| == |b|
    ensures Dot(a, b) * Dot(a, b) <= Dot(a, a) * Dot(b, b)
  {
    if |a| > 0 {
      var a', b' := a[1..], b[1..];
      CauchySchwarz(a', b');
      DotSelfNonNegative(a');
      DotSelfNonNegative(b');
      CauchySchwarzInduct(a[0], b[0], Dot(a', b'), Dot(a', a'), Dot(b', b'),
                          Dot(a, b), Dot(a, a), Dot(b, b));
    }
  }

  lemma RoundedCosineSymmetric(D: real, A: real, B: real)
    requires A > 0.0 && B > 0.0
    ensures RoundedCosine(D, A, B) == RoundedCosine(D, B, A)
  {
    assert A * B == B * A;
  }

  /** The similarity is symmetric in its two arguments. */
  lemma CosineSymmetric(a: seq<real>, b: seq<real>)
    ensures CosineSimilarity(a, b) == CosineSimilarity(b, a)
  {
    if |a| == |b| && |a| > 0 && Dot(a, a) != 0.0 && Dot(b, b) != 0.0 {
      DotSelfNonNegative(a);
      DotSelfNonNegative(b);
      DotSymmetric(a, b);
      RoundedCosineSymmetric(Dot(a, b), Dot(a, a), Dot(b, b));
    }
  }

  /** For square roots `sa`, `sb` of `A` and `B`, the squared-form computation
      is `Math.round(D / (sa * sb) * 10000) / 10000`. */
  lemma RoundedCosineMeaning(D: real, A: real, B: real, sa: real, sb: real)
    requires A > 0.0 && B > 0.0
    requires sa > 0.0 && sa * sa == A
    requires sb > 0.0 && sb * sb == B
    ensures RoundedCosine(D, A, B) == Round4(D / (sa * sb))
  {
    var s := sa * sb;
    MulPositive(sa, sb);
    SquareOfProduct(sa, sb);
    MulPositive(A, B);
    RoundOverRootMeaning(10000.0 * D, A * B, s);
    ScaleQuotient(10000.0, D, s);
  }

  /** The model computes exactly the source's formula, for the true
      magnitudes `sa == sqrt(a·a)` and `sb == sqrt(b·b)`. */
  lemma CosineMeaning(a: seq<real>, b: seq<real>, sa: real, sb: real)
    requires |a| == |b| && |a| > 0
    requires sa > 0.0 && sa * sa == Dot(a, a)
    requires sb > 0.0 && sb * sb == Dot(b, b)
    ensures CosineSimilarity(a, b) == Round4(Dot(a, b) / (sa * sb))
  {
    SquareOfPositive(sa, Dot(a, a));
    SquareOfPositive(sb, Dot(b, b));
    RoundedCosineMeaning(Dot(a, b), Dot(a, a), Dot(b, b), sa, sb);
  }

  /** Outside the degenerate cases, `(n - 1/2)·sqrt(m) <= u` fails for every n > 10000 ... */
  lemma CutAboveUnit(c: real, m: real, u: real)
    requires m > 0.0
    requires u * u <= 100000000.0 * m
    requires c >= 10000.5
    ensures !RootScaledAtMost(c, m, u)
  {
    SquareLeIff(10000.5, c);
    assert c * c * m > 100000000.0 * m by {
      MulPositive(c * c - 100000000.0, m);
    }
  }

  /** ... and holds for every n < -10000. */
  lemma CutBelowUnit(c: real, m: real, u: real)
    requires m > 0.0
    requires u * u <= 100000000.0 * m
    requires c <= -10000.5
    ensures RootScaledAtMost(c, m, u)
  {
    SquareLeIff(10000.5, -c);
    assert c * c * m > 100000000.0 * m by {
      MulPositive(c * c - 100000000.0, m);
    }
  }

  /** With Cauchy–Schwarz as hypothesis, the rounded cosine lies in [-1, 1]. */
  lemma RoundedCosineInUnitRange(D: real, A: real, B: real)
    requires A > 0.0 && B > 0.0
    requires D * D <= A * B
    ensures -1.0 <= RoundedCosine(D, A, B) <= 1.0
  {
    MulPositive(A, B);
    var m := A * B;
    var u := 10000.0 * D;
    assert u * u <= 100000000.0 * m by {
      assert u * u == 100000000.0 * (D * D);
    }
    var n := RoundOverRoot(u, m);
    if n > 10000 {
      CutAboveUnit(n as real - 0.5, m, u);
    }
    if n < -10000 {
      CutBelowUnit(n as real + 0.5, m, u);
    }
  }

  /** The rounded cosine of a non-negative dot product is non-negative. */
  lemma RoundedCosineNonNegative(D: real, A: real, B: real)
    requires A > 0.0 && B > 0.0
    requires D >= 0.0
    ensures RoundedCosine(D, A, B) >= 0.0
  {
    MulPositive(A, B);
    var n := RoundOverRoot(10000.0 * D, A * B);
    assert n >= 0;
  }

  /** The rounded similarity lies in [-1, 1]. */
  lemma CosineInUnitRange(a: seq<real>, b: seq<real>)
    ensures -1.0 <= CosineSimilarity(a, b) <= 1.0
  {
    if |a| == |b| && |a| > 0 && Dot(a, a) != 0.0 && Dot(b, b) != 0.0 {
      DotSelfNonNegative(a);
      DotSelfNonNegative(b);
      CauchySchwarz(a, b);
      RoundedCosineInUnitRange(Dot(a, b), Dot(a, a), Dot(b, b));
    }
  }

  /** Non-negative vectors (ratings) have a similarity in [0, 1], as the
      source's doc comment says. */
  lemma CosineOfNonNegative(a: seq<real>, b: seq<real>)
    requires NonNegative(a) && NonNegative(b)
    ensures 0.0 <= CosineSimilarity(a, b) <= 1.0
  {
    CosineInUnitRange(a, b);
    if |a| == |b| && |a| > 0 && Dot(a, a) != 0.0 && Dot(b, b) != 0.0 {
      DotSelfNonNegative(a);
      DotSelfNonNegative(b);
      DotNonNegative(a, b);
      RoundedCosineNonNegative(Dot(a, b), Dot(a, a), Dot(b, b));
    }
  }

  lemma SelfQuotient(A: real, m: real)
    requires A > 0.0 && m == A * A && m > 0.0
    ensures RoundOverRoot(10000.0 * A, m) == 10000
  {
    RoundOverRootMeaning(10000.0 * A, m, A);
    UnitQuotientRounds(A);
  }

  lemma UnitQuotientRounds(A: real)
    requires A > 0.0
    ensures (10000.0 * A / A + 0.5).Floor == 10000
  {
    assert 10000.0 * A / A == 10000.0;
  }

  lemma RoundedCosineSelf(A: real)
    requires A > 0.0
    ensures RoundedCosine(A, A, A) == 1.0
  {
    SquareOfPositive(A, A * A);
    SelfQuotient(A, A * A);
  }

  /** A non-zero vector is perfectly similar to itself. */
  lemma CosineSelf(a: seq<real>)
    requires Dot(a, a) > 0.0
    ensures CosineSimilarity(a, a) == 1.0
  {
    assert |a| > 0;
    RoundedCosineSelf(Dot(a, a));
  }

  // ---------------------------------------------------------------------
  // Error metrics

  /** The unrounded mean absolute error. */
  function AbsErrorMean(actual: seq<real>, predicted: seq<real>): real
    requires |actual| == |predicted| && |actual| > 0
  {
    Sum(AbsValues(Errors(actual, predicted))) / (|actual| as real)
  }

  /** The unrounded mean squared error (the square of the unrounded RMSE). */
  function SquaredErrorMean(actual: seq<real>, predicted: seq<real>): real
    requires |actual| == |predicted| && |actual| > 0
  {
    var e := Errors(actual, predicted);
    Dot(e, e) / (|actual| as real)
  }

  /** `calculateMAE`. */
  function MeanAbsoluteError(actual: seq<real>, predicted: seq<real>): (r: real)
    ensures r >= 0.0
    ensures |actual| != |predicted| || |actual| == 0 ==> r == 0.0
  {
    if |actual| != |predicted| || |actual| == 0 then 0.0
    else
      SumNonNegative(AbsValues(Errors(actual, predicted)));
      DivideLe(0.0, Sum(AbsValues(Errors(actual, predicted))), |actual| as real);
      Round4(AbsErrorMean(actual, predicted))
  }

  /** `calculateRMSE`: `Math.round(Math.sqrt(q) * 10000) / 10000` for the
      mean squared error `q`; `sqrt(q) * 10000 == 10000 q / sqrt(q)` when q > 0. */
  function RootMeanSquaredError(actual: seq<real>, predicted: seq<real>): (r: real)
    ensures r >= 0.0
    ensures |actual| != |predicted| || |actual| == 0 ==> r == 0.0
  {
    if |actual| != |predicted| || |actual| == 0 then 0.0
    else
      var q := SquaredErrorMean(actual, predicted);
      if q <= 0.0 then 0.0
      else
        RoundOverRoot(10000.0 * q, q) as real / 10000.0
  }

  lemma {:induction false} SumNonNegative(xs: seq<real>)
    requires NonNegative(xs)
    ensures Sum(xs) >= 0.0
  {
    if |xs| > 0 {
      SumNonNegative(xs[1..]);
    }
  }

  function Ones(n: nat): (r: seq<real>)
    ensures |r| == n
  {
    seq(n, i => 1.0)
  }

  lemma {:induction false} DotOnes(xs: seq<real>)
    ensures Dot(xs, Ones(|xs|)) == Sum(xs)
    ensures Dot(Ones(|xs|), Ones(|xs|)) == |xs| as real
  {
    if |xs| > 0 {
      assert Ones(|xs|)[1..] == Ones(|xs| - 1);
      DotOnes(xs[1..]);
    }
  }

  lemma {:induction false} DotAbs(e: seq<real>)
    ensures Dot(AbsValues(e), AbsValues(e)) == Dot(e, e)
  {
    if |e| > 0 {
      assert AbsValues(e)[1..] == AbsValues(e[1..]);
      DotAbs(e[1..]);
      assert Abs(e[0]) * Abs(e[0]) == e[0] * e[0];
    }
  }

  /** `(S/n)^2 <= T/n` from `S^2 <= n T`. */
  lemma MeanSquareStep(s: real, t: real, n: real)
    requires n > 0.0
    requires s * s <= n * t
    ensures (s / n) * (s / n) <= t / n
  {
    var m := s / n;
    DivMulCancel(s, n);
    assert m * m * (n * n) == s * s;
    assert (m * m * n) * n <= t * n;
    DivideBoth(m * m * n, t, n);
    DivMulCancel(t, n);
    DivideBoth(m * m, t / n, n);
  }

  /** Before rounding, the mean absolute error is at most the root mean
      squared error; in squared form, `MAE^2 <= MSE`. */
  lemma AbsMeanSquaredAtMostSquaredMean(actual: seq<real>, predicted: seq<real>)
    requires |actual| == |predicted| && |actual| > 0
    ensures AbsErrorMean(actual, predicted) >= 0.0
    ensures AbsErrorMean(actual, predicted) * AbsErrorMean(actual, predicted)
            <= SquaredErrorMean(actual, predicted)
  {
    var e := Errors(actual, predicted);
    var x := AbsValues(e);
    var n := |actual| as real;
    SumNonNegative(x);
    DivideLe(0.0, Sum(x), n);
    CauchySchwarz(x, Ones(|x|));
    DotOnes(x);
    DotAbs(e);
    assert Sum(x) * Sum(x) <= n * Dot(e, e) by {
      assert Sum(x) * Sum(x) <= Dot(e, e) * n;
    }
    MeanSquareStep(Sum(x), Dot(e, e), n);
  }

  /** If `c > 0` and `c^2 > 10^8 q` then `c > 10000 m` for any `m >= 0` with `m^2 <= q`. */
  lemma CutAboveMean(c: real, q: real, m: real)
    requires q > 0.0 && m >= 0.0 && m * m <= q
    requires !RootScaledAtMost(c, q, 10000.0 * q)
    ensures c > 10000.0 * m
  {
    var u := 10000.0 * q;
    assert c > 0.0;
    assert c * c * q > u * u;
    assert u * u == (100000000.0 * q) * q;
    DivideBoth(100000000.0 * q, c * c, q);
    assert c * c > 100000000.0 * q;
    assert (10000.0 * m) * (10000.0 * m) == 100000000.0 * (m * m);
    SquareLeIff(c, 10000.0 * m);
  }

  /** Rounding keeps `m <= sqrt(q)`: `Round4(m) <= Math.round(sqrt(q) * 10000) / 10000`. */
  lemma RoundedRootAtLeast(m: real, q: real)
    requires q > 0.0 && m >= 0.0 && m * m <= q
    ensures Round4(m) <= RoundOverRoot(10000.0 * q, q) as real / 10000.0
  {
    var n := RoundOverRoot(10000.0 * q, q);
    var k := (m * 10000.0 + 0.5).Floor;
    if n < k {
      CutAboveMean(n as real + 0.5, q, m);
      assert false;
    }
    assert k as real / 10000.0 <= n as real / 10000.0;
  }

  /** The model computes exactly the source's formula: for the true root
      `s == sqrt(q)` of the mean squared error, the result is `round4(s)`. */
  lemma RmseMeaning(actual: seq<real>, predicted: seq<real>, s: real)
    requires |actual| == |predicted| && |actual| > 0
    requires s >= 0.0 && s * s == SquaredErrorMean(actual, predicted)
    ensures RootMeanSquaredError(actual, predicted) == Round4(s)
  {
    var q := SquaredErrorMean(actual, predicted);
    if s == 0.0 {
      RoundToWhole(0, 10000.0);
    } else {
      SquareOfPositive(s, q);
      RoundOverRootMeaning(10000.0 * q, q, s);
      ScaledRoot(q, s);
    }
  }

  /** `10000 q / sqrt(q) == sqrt(q) * 10000`. */
  lemma ScaledRoot(q: real, s: real)
    requires s > 0.0 && s * s == q
    ensures 10000.0 * q / s == s * 10000.0
  {
    SquareRootQuotient(q, s);
    ScaleQuotient(10000.0, q, s);
  }

  /** The reported RMSE is never below the reported MAE. */
  lemma RmseAtLeastMae(actual: seq<real>, predicted: seq<real>)
    ensures MeanAbsoluteError(actual, predicted) <= RootMeanSquaredError(actual, predicted)
  {
    if |actual| == |predicted| && |actual| > 0 {
      var m := AbsErrorMean(actual, predicted);
      var q := SquaredErrorMean(actual, predicted);
      AbsMeanSquaredAtMostSquaredMean(actual, predicted);
      if q <= 0.0 {
        SquareZero(m);
        RoundToWhole(0, 10000.0);
      } else {
        RoundedRootAtLeast(m, q);
      }
    }
  }

  // ---------------------------------------------------------------------
  // Rounded mean

  /** `average(arr)`: 0 for an empty array, else the mean rounded to 2 decimals. */
  function Average(xs: seq<real>): (r: real)
    ensures |xs| == 0 ==> r == 0.0
  {
    if |xs| == 0 then 0.0 else Round2(Sum(xs) / (|xs| as real))
  }

  lemma {:induction false} SumWithin(xs: seq<real>, lo: real, hi: real)
    requires forall i :: 0 <= i < |xs| ==> lo <= xs[i] <= hi
    ensures (|xs| as real) * lo <= Sum(xs) <= (|xs| as real) * hi
  {
    if |xs| > 0 {
      SumWithin(xs[1..], lo, hi);
      assert (|xs| as real) * lo == (|xs[1..]| as real) * lo + lo;
      assert (|xs| as real) * hi == (|xs[1..]| as real) * hi + hi;
    }
  }

  /** The unrounded mean of values in [lo, hi] lies in [lo, hi]. */
  lemma MeanWithin(xs: seq<real>, lo: real, hi: real)
    requires |xs| > 0
    requires forall i :: 0 <= i < |xs| ==> lo <= xs[i] <= hi
    ensures lo <= Sum(xs) / (|xs| as real) <= hi
  {
    var n := |xs| as real;
    SumWithin(xs, lo, hi);
    DivideLe(n * lo, Sum(xs), n);
    DivideLe(Sum(xs), n * hi, n);
    MulDivCancel(n, lo);
    MulDivCancel(n, hi);
  }

  /** The rounded mean of values in [lo, hi] lies between the rounded bounds. */
  lemma AverageWithin(xs: seq<real>, lo: real, hi: real)
    requires |xs| > 0
    requires forall i :: 0 <= i < |xs| ==> lo <= xs[i] <= hi
    ensures Round2(lo) <= Average(xs) <= Round2(hi)
  {
    MeanWithin(xs, lo, hi);
    RoundToMonotone(lo, Sum(xs) / (|xs| as real), 100.0);
    RoundToMonotone(Sum(xs) / (|xs| as real), hi, 100.0);
  }
}
