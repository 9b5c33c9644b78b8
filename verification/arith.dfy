/** Facts about real arithmetic that the solver needs spelled out: each
    lemma states one non-linear step on its own. */
module Arith {

  lemma MulPositive(a: real, b: real)
    requires a > 0.0 && b > 0.0
    ensures a * b > 0.0
  {
  }

  lemma DivideBoth(a: real, b: real, s: real)
    requires s > 0.0
    ensures a * s <= b * s <==> a <= b
  {
    if a <= b {
      assert (b - a) * s >= 0.0;
    } else {
      MulPositive(a - b, s);
    }
  }

  lemma DivMulCancel(u: real, s: real)
    requires s != 0.0
    ensures u / s * s == u
  {
  }

  lemma SquareLeIff(x: real, y: real)
    requires 0.0 <= x && 0.0 <= y
    ensures x * x <= y * y <==> x <= y
  {
    if x <= y {
      assert (y - x) * (x + y) == y * y - x * x;
      assert (y - x) * (x + y) >= 0.0;
    } else {
      assert (x - y) * (x + y) == x * x - y * y;
      MulPositive(x - y, x + y);
    }
  }

  lemma MulLeft(a: real, b: real, c: real)
    requires a <= b && 0.0 <= c
    ensures c * a <= c * b
  {
    assert c * (b - a) >= 0.0;
  }

  lemma SquareNonNegative(x: real)
    ensures x * x >= 0.0
  {
    if x < 0.0 {
      MulPositive(-x, -x);
    }
  }

  /** The square-root-free form of the AM-GM step: `w^2 <= 4pq` gives `w <= p + q`. */
  lemma BoundedBySum(w: real, p: real, q: real)
    requires p >= 0.0 && q >= 0.0
    requires w * w <= 4.0 * (p * q)
    ensures w <= p + q
  {
    assert (p + q) * (p + q) == (p - q) * (p - q) + 4.0 * (p * q);
    SquareNonNegative(p - q);
    if w > 0.0 {
      SquareLeIff(w, p + q);
    }
  }

  /** Dividing both sides of `a <= b` by a positive `n`. */
  lemma DivideLe(a: real, b: real, n: real)
    requires n > 0.0 && a <= b
    ensures a / n <= b / n
  {
    DivMulCancel(a, n);
    DivMulCancel(b, n);
    DivideBoth(a / n, b / n, n);
  }

  lemma MulDivCancel(n: real, x: real)
    requires n != 0.0
    ensures n * x / n == x
  {
  }

  lemma ScaleQuotient(k: real, d: real, s: real)
    requires s != 0.0
    ensures (k * d) / s == (d / s) * k
  {
  }

  lemma SquareOfProduct(x: real, y: real)
    ensures (x * y) * (x * y) == (x * x) * (y * y)
  {
  }

  lemma SquareZero(m: real)
    requires m >= 0.0 && m * m <= 0.0
    ensures m == 0.0
  {
    SquareLeIff(m, 0.0);
  }

  /** A positive number's square, named. */
  lemma SquareOfPositive(s: real, m: real)
    requires s > 0.0 && s * s == m
    ensures m > 0.0
  {
    SquareRootQuotient(m, s);
  }

  lemma SquareRootQuotient(m: real, s: real)
    requires s > 0.0 && s * s == m
    ensures m / s == s
  {
  }
}
