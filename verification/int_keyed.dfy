/** A JavaScript object whose keys are integer ids (`matrix[userId]`,
    `row.ratings[guitarId]`, `byUser[userId]`). Such an object enumerates its
    keys (`Object.entries`, `Object.values`) in ascending numeric order,
    whatever order they were assigned in, so it is modelled as a sequence of
    entries kept sorted by key. */
module IntKeyed {
  import opened Common

  datatype Entry<V> = Entry(key: nat, value: V)

  predicate Ascending<V>(es: seq<Entry<V>>)
  {
    forall i, j :: 0 <= i < j < |es| ==> es[i].key < es[j].key
  }

  function Keys<V>(es: seq<Entry<V>>): set<nat>
  {
    set i | 0 <= i < |es| :: es[i].key
  }

  /** `obj[k]`: `None` when the key is absent (JavaScript's `undefined`). */
  function Get<V>(es: seq<Entry<V>>, k: nat): (r: Option<V>)
    ensures r.None? <==> k !in Keys(es)
  {
    if |es| == 0 then None
    else if es[0].key == k then Some(es[0].value)
    else
      KeysCons(es);
      Get(es[1..], k)
  }

  /** In an ascending sequence, reading an entry's key gives that entry's value. */
  lemma {:induction false} GetAt<V>(es: seq<Entry<V>>, i: nat)
    requires Ascending(es) && i < |es|
    ensures Get(es, es[i].key) == Some(es[i].value)
  {
    if i > 0 {
      assert es[0].key < es[i].key;
      GetAt(es[1..], i - 1);
    }
  }

  lemma KeysCons<V>(es: seq<Entry<V>>)
    requires |es| > 0
    ensures Keys(es) == {es[0].key} + Keys(es[1..])
  {
    forall k | k in Keys(es)
      ensures k in {es[0].key} + Keys(es[1..])
    {
      var i :| 0 <= i < |es| && es[i].key == k;
      if i > 0 {
        assert es[1..][i - 1].key == k;
      }
    }
    forall k | k in Keys(es[1..])
      ensures k in Keys(es)
    {
      var i :| 0 <= i < |es[1..]| && es[1..][i].key == k;
      assert es[i + 1].key == k;
    }
  }

  /** In an ascending sequence the head's key is below every other key. */
  lemma HeadBelowRest<V>(es: seq<Entry<V>>)
    requires |es| > 0 && Ascending(es)
    ensures forall k :: k in Keys(es[1..]) ==> es[0].key < k
  {
    forall k | k in Keys(es[1..])
      ensures es[0].key < k
    {
      var i :| 0 <= i < |es[1..]| && es[1..][i].key == k;
      assert es[i + 1].key == k;
    }
  }

  /** Putting an entry in front of an ascending sequence of larger keys. */
  lemma AscendingCons<V>(x: Entry<V>, t: seq<Entry<V>>)
    requires Ascending(t)
    requires forall k :: k in Keys(t) ==> x.key < k
    ensures Ascending([x] + t)
    ensures Keys([x] + t) == {x.key} + Keys(t)
  {
    var r := [x] + t;
    forall j | 0 < j < |r|
      ensures x.key < r[j].key
    {
      assert r[j] == t[j - 1];
      assert r[j].key in Keys(t);
    }
    KeysCons(r);
    assert r[1..] == t;
  }

  /** `obj[k] = v`: replaces the value of an existing key, otherwise adds the
      key at its place in the enumeration order. */
  function Put<V>(es: seq<Entry<V>>, k: nat, v: V): (r: seq<Entry<V>>)
    requires Ascending(es)
    ensures Ascending(r)
    ensures Keys(r) == Keys(es) + {k}
  {
    if |es| == 0 then
      assert Keys(es) == {};
      AscendingCons(Entry(k, v), es);
      [Entry(k, v)] + es
    else
      KeysCons(es);
      HeadBelowRest(es);
      if k < es[0].key then
        AscendingCons(Entry(k, v), es);
        [Entry(k, v)] + es
      else if k == es[0].key then
        AscendingCons(Entry(k, v), es[1..]);
        [Entry(k, v)] + es[1..]
      else
        var t := Put(es[1..], k, v);
        AscendingCons(es[0], t);
        [es[0]] + t
  }

  /** Reading back: the key just written holds the new value ... */
  lemma {:induction false} GetPutSame<V>(es: seq<Entry<V>>, k: nat, v: V)
    requires Ascending(es)
    ensures Get(Put(es, k, v), k) == Some(v)
  {
    if |es| > 0 && k > es[0].key {
      GetPutSame(es[1..], k, v);
      assert Put(es, k, v)[1..] == Put(es[1..], k, v);
    }
  }

  /** ... and every other key is untouched. */
  lemma {:induction false} GetPutOther<V>(es: seq<Entry<V>>, k: nat, v: V, k': nat)
    requires Ascending(es)
    requires k' != k
    ensures Get(Put(es, k, v), k') == Get(es, k')
  {
    if |es| == 0 {
      GetCons(Entry(k, v), es, k');
    } else if k < es[0].key {
      GetCons(Entry(k, v), es, k');
    } else if k == es[0].key {
      GetCons(Entry(k, v), es[1..], k');
      GetCons(es[0], es[1..], k');
    } else {
      GetPutOther(es[1..], k, v, k');
      GetCons(es[0], Put(es[1..], k, v), k');
      GetCons(es[0], es[1..], k');
    }
  }

  /** Reading a sequence with one more entry in front. */
  lemma GetCons<V>(x: Entry<V>, t: seq<Entry<V>>, k: nat)
    ensures Get([x] + t, k) == if x.key == k then Some(x.value) else Get(t, k)
  {
    assert ([x] + t)[1..] == t;
  }

  /** A property every value has survives writing a value that has it. */
  lemma {:induction false} PutKeeps<V>(es: seq<Entry<V>>, k: nat, v: V, P: V -> bool)
    requires Ascending(es)
    requires forall i :: 0 <= i < |es| ==> P(es[i].value)
    requires P(v)
    ensures forall i :: 0 <= i < |Put(es, k, v)| ==> P(Put(es, k, v)[i].value)
  {
    if |es| > 0 && k > es[0].key {
      PutKeeps(es[1..], k, v, P);
      assert Put(es, k, v) == [es[0]] + Put(es[1..], k, v);
    }
  }

  /** The value list `Object.values(obj)`, in key order. */
  function Values<V>(es: seq<Entry<V>>): (r: seq<V>)
    ensures |r| == |es|
    ensures forall i :: 0 <= i < |es| ==> r[i] == es[i].value
  {
    seq(|es|, i requires 0 <= i < |es| => es[i].value)
  }
}
