/** `Array.prototype.sort((a, b) => key(b) - key(a))`: JavaScript's sort is
    stable, so the result is the input ordered by non-increasing key, with
    elements of equal key left in their input order. Modelled as an insertion
    sort on sequences. */
module StableSort {

  predicate SortedDesc<T>(s: seq<T>, key: T -> real)
  {
    forall i, j :: 0 <= i < j < |s| ==> key(s[i]) >= key(s[j])
  }

  /** The elements of `s` whose key is `v`, in their order in `s`. */
  function WithKey<T>(s: seq<T>, key: T -> real, v: real): seq<T>
  {
    if |s| == 0 then []
    else (if key(s[0]) == v then [s[0]] else []) + WithKey(s[1..], key, v)
  }

  /** Inserts `x` after every element whose key is at least `key(x)`. */
  function Insert<T>(x: T, s: seq<T>, key: T -> real): (r: seq<T>)
    ensures multiset(r) == multiset(s) + multiset{x}
  {
    if |s| == 0 || key(s[0]) < key(x) then [x] + s
    else
      assert s == [s[0]] + s[1..];
      [s[0]] + Insert(x, s[1..], key)
  }

  /** A head at least as large as every key of a sorted tail gives a sorted sequence. */
  lemma ConsSorted<T>(h: T, t: seq<T>, key: T -> real)
    requires SortedDesc(t, key)
    requires forall j :: 0 <= j < |t| ==> key(h) >= key(t[j])
    ensures SortedDesc([h] + t, key)
  {
    var r := [h] + t;
    forall i, j | 0 <= i < j < |r|
      ensures key(r[i]) >= key(r[j])
    {
      assert r[j] == t[j - 1];
      if i > 0 {
        assert r[i] == t[i - 1];
      }
    }
  }

  /** Every element of `Insert(x, s)` is `x` or an element of `s`. */
  lemma InsertBounded<T>(x: T, s: seq<T>, key: T -> real, m: real)
    requires m >= key(x) && forall j :: 0 <= j < |s| ==> m >= key(s[j])
    ensures forall j :: 0 <= j < |Insert(x, s, key)| ==> m >= key(Insert(x, s, key)[j])
  {
    var t := Insert(x, s, key);
    forall j | 0 <= j < |t|
      ensures m >= key(t[j])
    {
      assert t[j] in multiset(t);
      if t[j] != x {
        assert t[j] in multiset(s);
        var i :| 0 <= i < |s| && s[i] == t[j];
      }
    }
  }

  /** Inserting into a sorted sequence keeps it sorted. */
  lemma {:induction false} InsertSorted<T>(x: T, s: seq<T>, key: T -> real)
    requires SortedDesc(s, key)
    ensures SortedDesc(Insert(x, s, key), key)
  {
    if |s| == 0 || key(s[0]) < key(x) {
      ConsSorted(x, s, key);
    } else {
      var t := Insert(x, s[1..], key);
      InsertSorted(x, s[1..], key);
      InsertBounded(x, s[1..], key, key(s[0]));
      ConsSorted(s[0], t, key);
    }
  }

  /** The stable sort by non-increasing key. */
  function SortDesc<T>(s: seq<T>, key: T -> real): (r: seq<T>)
    ensures multiset(r) == multiset(s)
    ensures |r| == |s|
    ensures SortedDesc(r, key)
  {
    if |s| == 0 then []
    else
      assert s == s[..|s| - 1] + [s[|s| - 1]];
      var sorted := SortDesc(s[..|s| - 1], key);
      InsertSorted(s[|s| - 1], sorted, key);
      var r := Insert(s[|s| - 1], sorted, key);
      assert |r| == |multiset(r)|;
      r
  }

  lemma SortDescLast<T>(s: seq<T>, key: T -> real)
    requires |s| > 0
    ensures SortDesc(s, key) == Insert(s[|s| - 1], SortDesc(s[..|s| - 1], key), key)
  {
  }

  lemma {:induction false} WithKeyAppend<T>(a: seq<T>, b: seq<T>, key: T -> real, v: real)
    ensures WithKey(a + b, key, v) == WithKey(a, key, v) + WithKey(b, key, v)
  {
    if |a| > 0 {
      assert (a + b)[1..] == a[1..] + b;
      WithKeyAppend(a[1..], b, key, v);
    } else {
      assert a + b == b;
    }
  }

  lemma {:induction false} WithKeyNone<T>(s: seq<T>, key: T -> real, v: real)
    requires forall i :: 0 <= i < |s| ==> key(s[i]) < v
    ensures WithKey(s, key, v) == []
  {
    if |s| > 0 {
      WithKeyNone(s[1..], key, v);
    }
  }

  lemma WithKeyCons<T>(h: T, t: seq<T>, key: T -> real, v: real)
    ensures WithKey([h] + t, key, v) == (if key(h) == v then [h] else []) + WithKey(t, key, v)
  {
    assert ([h] + t)[1..] == t;
  }

  /** Inserting `x` puts it behind every element of its own key. */
  lemma {:induction false} InsertWithKey<T>(x: T, s: seq<T>, key: T -> real, v: real)
    requires SortedDesc(s, key)
    ensures WithKey(Insert(x, s, key), key, v)
            == WithKey(s, key, v) + (if key(x) == v then [x] else [])
  {
    var X := if key(x) == v then [x] else [];
    if |s| == 0 || key(s[0]) < key(x) {
      assert Insert(x, s, key) == [x] + s;
      WithKeyCons(x, s, key, v);
      if key(x) == v {
        forall i | 0 <= i < |s|
          ensures key(s[i]) < v
        {
          assert key(s[0]) >= key(s[i]);
        }
        WithKeyNone(s, key, v);
      }
    } else {
      var h, t := s[0], Insert(x, s[1..], key);
      var H := if key(h) == v then [h] else [];
      assert Insert(x, s, key) == [h] + t;
      assert s == [h] + s[1..];
      WithKeyCons(h, s[1..], key, v);
      WithKeyCons(h, t, key, v);
      InsertWithKey(x, s[1..], key, v);
      assert WithKey(Insert(x, s, key), key, v) == H + (WithKey(s[1..], key, v) + X);
      assert WithKey(s, key, v) == H + WithKey(s[1..], key, v);
    }
  }

  /** Stability: among elements of equal key the input order is kept. */
  lemma {:induction false} SortDescStable<T>(s: seq<T>, key: T -> real, v: real)
    ensures WithKey(SortDesc(s, key), key, v) == WithKey(s, key, v)
  {
    if |s| > 0 {
      var init, last := s[..|s| - 1], s[|s| - 1];
      assert s == init + [last];
      SortDescLast(s, key);
      InsertWithKey(last, SortDesc(init, key), key, v);
      SortDescStable(init, key, v);
      WithKeyLast(init, last, key, v);
    }
  }

  lemma WithKeyLast<T>(init: seq<T>, last: T, key: T -> real, v: real)
    ensures WithKey(init + [last], key, v)
            == WithKey(init, key, v) + (if key(last) == v then [last] else [])
  {
    WithKeyAppend(init, [last], key, v);
    assert [last][1..] == [];
  }

  lemma WithKeyMember<T>(s: seq<T>, key: T -> real, v: real)
    requires WithKey(s, key, v) != []
    ensures exists i :: 0 <= i < |s| && key(s[i]) == v
    decreases |s|
  {
    if key(s[0]) != v {
      WithKeyMember(s[1..], key, v);
      var i :| 0 <= i < |s[1..]| && key(s[1..][i]) == v;
      assert key(s[i + 1]) == v;
    }
  }

  /** The head of a non-empty sequence is in its own key class. */
  lemma WithKeyOfHead<T>(r: seq<T>, key: T -> real)
    ensures |r| > 0 ==> WithKey(r, key, key(r[0])) == [r[0]] + WithKey(r[1..], key, key(r[0]))
  {
  }

  /** A non-empty sorted sequence starts with its largest key. */
  lemma HeadIsLargest<T>(r: seq<T>, key: T -> real, v: real)
    requires SortedDesc(r, key) && WithKey(r, key, v) != []
    ensures |r| > 0 && key(r[0]) >= v
  {
    WithKeyMember(r, key, v);
  }

  /** Dropping the head of both sides keeps every key class equal. */
  lemma AgreeOnTails<T>(r1: seq<T>, r2: seq<T>, key: T -> real)
    requires |r1| > 0 && |r2| > 0 && r1[0] == r2[0]
    requires forall v :: WithKey(r1, key, v) == WithKey(r2, key, v)
    ensures forall v :: WithKey(r1[1..], key, v) == WithKey(r2[1..], key, v)
  {
    forall v
      ensures WithKey(r1[1..], key, v) == WithKey(r2[1..], key, v)
    {
      var h := if key(r1[0]) == v then [r1[0]] else [];
      var t1, t2 := WithKey(r1[1..], key, v), WithKey(r2[1..], key, v);
      assert WithKey(r1, key, v) == h + t1;
      assert WithKey(r2, key, v) == h + t2;
      assert t1 == (h + t1)[|h|..];
      assert t2 == (h + t2)[|h|..];
    }
  }

  /** Two sorted sequences that agree on every key class are equal. */
  lemma {:induction false} SortedStableUnique<T>(r1: seq<T>, r2: seq<T>, key: T -> real)
    requires SortedDesc(r1, key) && SortedDesc(r2, key)
    requires forall v :: WithKey(r1, key, v) == WithKey(r2, key, v)
    ensures r1 == r2
    decreases |r1|
  {
    WithKeyOfHead(r1, key);
    WithKeyOfHead(r2, key);
    if |r1| > 0 && |r2| > 0 {
      var m := key(r1[0]);
      HeadIsLargest(r2, key, m);
      HeadIsLargest(r1, key, key(r2[0]));
      assert m == key(r2[0]);
      assert r1[0] == WithKey(r1, key, m)[0];
      assert r2[0] == WithKey(r2, key, m)[0];
      AgreeOnTails(r1, r2, key);
      SortedStableUnique(r1[1..], r2[1..], key);
      assert r1 == [r1[0]] + r1[1..];
      assert r2 == [r2[0]] + r2[1..];
    }
  }

  /** Any sorted rearrangement of `s` that keeps the order within each key
      class is `SortDesc(s)`: the model fixes the result of every stable sort. */
  lemma SortDescUnique<T>(s: seq<T>, r: seq<T>, key: T -> real)
    requires SortedDesc(r, key)
    requires forall v :: WithKey(r, key, v) == WithKey(s, key, v)
    ensures r == SortDesc(s, key)
  {
    forall v
      ensures WithKey(r, key, v) == WithKey(SortDesc(s, key), key, v)
    {
      SortDescStable(s, key, v);
    }
    SortedStableUnique(r, SortDesc(s, key), key);
  }
}
