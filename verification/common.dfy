/** Shared vocabulary: optional values, results with an error, and the bound
    JavaScript's `Array.prototype.slice(0, end)` uses. */
module Common {

  /** A JavaScript `null`-or-value. */
  datatype Option<+T> = None | Some(value: T)

  /** A value, or the error a controller answers with / a service throws. */
  datatype Result<+T, +E> = Ok(value: T) | Err(error: E)

  function Min(a: int, b: int): int
  {
    if a <= b then a else b
  }

  /** The index at which `xs.slice(0, end)` stops for an array of length
      `len`: a negative `end` counts back from the end of the array, an `end`
      past the array is clipped to its length. */
  function SliceEnd(len: nat, end: int): (r: nat)
    ensures r <= len
    ensures 0 <= end ==> r == Min(end, len)
    ensures end < 0 ==> r + Min(-end, len) == len
  {
    if end < 0 then (if len + end > 0 then len + end else 0)
    else Min(end, len)
  }

  /** `xs.slice(0, end)`. */
  function Slice<T>(xs: seq<T>, end: int): (r: seq<T>)
    ensures |r| <= |xs| && r == xs[..|r|]
    ensures 0 <= end ==> |r| == Min(end, |xs|)
    ensures end < 0 ==> |r| + Min(-end, |xs|) == |xs|
  {
    xs[..SliceEnd(|xs|, end)]
  }

  /** The present results of `f` over `xs`, in the order of `xs`: the loops
      that skip an item whose result is `null`. */
  function Collect<A, B>(xs: seq<A>, f: A -> Option<B>): (r: seq<B>)
    ensures |r| <= |xs|
  {
    if |xs| == 0 then []
    else (match f(xs[0]) case None => [] case Some(y) => [y]) + Collect(xs[1..], f)
  }

  /** `y` is collected exactly when some item of `xs` has result `y`. */
  lemma {:induction false} CollectMembers<A, B>(xs: seq<A>, f: A -> Option<B>, y: B)
    ensures y in Collect(xs, f) <==> exists x :: x in xs && f(x) == Some(y)
  {
    if |xs| > 0 {
      CollectMembers(xs[1..], f, y);
      assert xs == [xs[0]] + xs[1..];
    }
  }

  /** `r` keeps some of the elements of `s`, in their order in `s`. */
  predicate IsSubsequence<T(==)>(r: seq<T>, s: seq<T>)
    decreases |s|
  {
    if |r| == 0 then true
    else if |s| == 0 then false
    else if r[0] == s[0] then IsSubsequence(r[1..], s[1..])
    else IsSubsequence(r, s[1..])
  }
}
