/** Decimal rounding as JavaScript writes it, `Math.round(x * scale) / scale`,
    and the rounding of a quotient by a square root, `Math.round(u / Math.sqrt(m))`,
    computed exactly without a square-root function.

    `Math.round` rounds half-way cases towards positive infinity, so
    `Math.round(y) == Floor(y + 1/2)` for every `y`. */
module Rounding {
  import opened Arith

  /** `Math.round(x * scale) / scale`. */
  function RoundTo(x: real, scale: real): (r: real)
    requires scale > 0.0
    ensures x - 0.5 / scale < r <= x + 0.5 / scale
    ensures x >= 0.0 ==> r >= 0.0
  {
    var n := (x * scale + 0.5).Floor;
    assert n as real <= x * scale + 0.5 < n as real + 1.0;
    assert (n as real) / scale <= x + 0.5 / scale by {
      assert (n as real) / scale * scale == n as real;
      assert (x + 0.5 / scale) * scale == x * scale + 0.5;
    }
    assert x - 0.5 / scale < (n as real) / scale by {
      assert (n as real) / scale * scale == n as real;
      assert (x - 0.5 / scale) * scale == x * scale - 0.5;
    }
    (n as real) / scale
  }

  /** Two decimals: predicted ratings, averages. */
  function Round2(x: real): real
  {
    RoundTo(x, 100.0)
  }

  /** Four decimals: similarities, errors, metrics. */
  function Round4(x: real): real
  {
    RoundTo(x, 10000.0)
  }

  /** Rounding never reverses the order of two values. */
  lemma RoundToMonotone(x: real, y: real, scale: real)
    requires scale > 0.0
    requires x <= y
    ensures RoundTo(x, scale) <= RoundTo(y, scale)
  {
    assert x * scale <= y * scale;
    var n, m := (x * scale + 0.5).Floor, (y * scale + 0.5).Floor;
    assert n <= m;
    assert (n as real) / scale <= (m as real) / scale;
  }

  /** Whole numbers are left unchanged. */
  lemma RoundToWhole(n: int, scale: real)
    requires scale == 100.0 || scale == 10000.0
    ensures RoundTo(n as real, scale) == n as real
  {
    if scale == 100.0 {
      assert (n as real * 100.0 + 0.5).Floor == n * 100;
    } else {
      assert (n as real * 10000.0 + 0.5).Floor == n * 10000;
    }
  }

  // ---------------------------------------------------------------------
  // Rounding a quotient by a square root, in squared form.

  /** `c * sqrt(m) <= u`, decided by comparing squares (for `m >= 0`). */
  predicate RootScaledAtMost(c: real, m: real, u: real)
  {
    if c <= 0.0 then u >= 0.0 || c * c * m >= u * u
    else u >= 0.0 && c * c * m <= u * u
  }

  /** The squared form means what it says, for any square root `s` of `m`. */
  lemma RootScaledAtMostMeaning(c: real, m: real, u: real, s: real)
    requires s >= 0.0 && s * s == m
    ensures RootScaledAtMost(c, m, u) <==> c * s <= u
  {
    assert c * c * m == (c * s) * (c * s);
    if c <= 0.0 {
      assert c * s <= 0.0;
      if u < 0.0 {
        SquareLeIff(-u, -(c * s));
      }
    } else {
      assert c * s >= 0.0;
      if u >= 0.0 {
        SquareLeIff(c * s, u);
      }
    }
  }

  /** Lowering the factor keeps the inequality. */
  lemma RootScaledAtMostMonotone(c1: real, c2: real, m: real, u: real)
    requires m >= 0.0
    requires c1 <= c2
    requires RootScaledAtMost(c2, m, u)
    ensures RootScaledAtMost(c1, m, u)
  {
    if c1 <= 0.0 && c2 <= 0.0 {
      if u < 0.0 {
        SquareLeIff(-c2, -c1);
        assert c2 * c2 * m <= c1 * c1 * m;
      }
    } else if c1 > 0.0 {
      SquareLeIff(c1, c2);
      assert c1 * c1 * m <= c2 * c2 * m;
    }
  }

  /** Largest `n` in `lo..hi` with `(n - 1/2) * sqrt(m) <= u`. */
  function RoundSearch(u: real, m: real, hi: int, lo: int): (n: int)
    requires m > 0.0
    requires lo <= hi
    requires RootScaledAtMost(lo as real - 0.5, m, u)
    requires !RootScaledAtMost(hi as real + 0.5, m, u)
    ensures lo <= n <= hi
    ensures RootScaledAtMost(n as real - 0.5, m, u)
    ensures !RootScaledAtMost(n as real + 0.5, m, u)
    decreases hi - lo
  {
    if RootScaledAtMost(hi as real - 0.5, m, u) then hi
    else RoundSearch(u, m, hi - 1, lo)
  }

  /** `Math.round(u / Math.sqrt(m))` for `m > 0`: the integer `n` with
      `(n - 1/2) * sqrt(m) <= u < (n + 1/2) * sqrt(m)`. */
  function RoundOverRoot(u: real, m: real): (n: int)
    requires m > 0.0
    ensures RootScaledAtMost(n as real - 0.5, m, u)
    ensures !RootScaledAtMost(n as real + 0.5, m, u)
  {
    var b := (u * u / m).Floor + 1;
    var c := b as real + 0.5;
    assert u * u < c * c * m by {
      assert u * u / m < b as real;
      assert b as real <= b as real * b as real < c * c;
      assert u * u / m * m == u * u;
      assert u * u / m * m < c * c * m;
    }
    RoundSearch(u, m, b, -b)
  }

  /** The two inequalities pin the integer down. */
  lemma RoundOverRootUnique(u: real, m: real, n: int)
    requires m > 0.0
    requires RootScaledAtMost(n as real - 0.5, m, u)
    requires !RootScaledAtMost(n as real + 0.5, m, u)
    ensures RoundOverRoot(u, m) == n
  {
    var r := RoundOverRoot(u, m);
    if r < n {
      RootScaledAtMostMonotone(r as real + 0.5, n as real - 0.5, m, u);
    } else if n < r {
      RootScaledAtMostMonotone(n as real + 0.5, r as real - 0.5, m, u);
    }
  }

  /** `c <= u / sqrt(m)` in squared form. */
  lemma QuotientAtLeast(c: real, m: real, u: real, s: real)
    requires s > 0.0 && s * s == m
    requires RootScaledAtMost(c, m, u)
    ensures c <= u / s
  {
    RootScaledAtMostMeaning(c, m, u, s);
    DivMulCancel(u, s);
    DivideBoth(c, u / s, s);
  }

  /** `u / sqrt(m) < c` in squared form. */
  lemma QuotientBelow(c: real, m: real, u: real, s: real)
    requires s > 0.0 && s * s == m
    requires !RootScaledAtMost(c, m, u)
    ensures u / s < c
  {
    RootScaledAtMostMeaning(c, m, u, s);
    DivMulCancel(u, s);
    DivideBoth(c, u / s, s);
  }

  /** `RoundOverRoot` is `Math.round(u / s)` for the square root `s` of `m`. */
  lemma RoundOverRootMeaning(u: real, m: real, s: real)
    requires m > 0.0 && s > 0.0 && s * s == m
    ensures RoundOverRoot(u, m) == (u / s + 0.5).Floor
  {
    var n := RoundOverRoot(u, m);
    QuotientAtLeast(n as real - 0.5, m, u, s);
    QuotientBelow(n as real + 0.5, m, u, s);
    var q := u / s;
    assert n as real <= q + 0.5 < n as real + 1.0;
  }
}
