/**
 * Python values and insertion-ordered dicts, as the source's metadata and JSON payloads use them.
 * A dict is a sequence of (key, value) pairs; assignment d[k] = v replaces the value in place when
 * k is present and appends the pair otherwise, so the key order is the insertion order.
 */
module PyDict {

  import opened Wrappers

  /** A metadata value: the scalar types the source tests for, None, and any other object
      (a list, a dict, a date, ...) carried together with the text str() gives for it. */
  datatype PyValue =
    | PyNone
    | PyStr(s: string)
    | PyInt(i: int)
    | PyFloat(f: real)
    | PyBool(b: bool)
    | PyObject(typeName: string, text: string)

  type Dict<V> = seq<(string, V)>

  function Keys<V>(d: Dict<V>): (ks: seq<string>)
    ensures |ks| == |d| && forall i :: 0 <= i < |d| ==> ks[i] == d[i].0
  {
    seq(|d|, i requires 0 <= i < |d| => d[i].0)
  }

  predicate UniqueKeys<V>(d: Dict<V>) {
    forall i, j :: 0 <= i < j < |d| ==> d[i].0 != d[j].0
  }

  /** d.get(k): the value stored under k, if any. */
  function Get<V>(d: Dict<V>, k: string): (r: Option<V>)
    ensures r.None? <==> k !in Keys(d)
  {
    if d == [] then None
    else if d[|d| - 1].0 == k && k !in Keys(d[..|d| - 1]) then Some(d[|d| - 1].1)
    else Get(d[..|d| - 1], k)
  }

  /** d[k] = v. */
  function Put<V>(d: Dict<V>, k: string, v: V): Dict<V> {
    if d == [] then [(k, v)]
    else if d[0].0 == k then [(k, v)] + d[1..]
    else [d[0]] + Put(d[1..], k, v)
  }

  /** After d[k] = v, d[k] is v and every other key reads as before. */
  lemma {:induction false} GetPut<V>(d: Dict<V>, k: string, v: V, k': string)
    requires UniqueKeys(d)
    ensures Get(Put(d, k, v), k') == if k' == k then Some(v) else Get(d, k')
  {
    PutKeys(d, k, v);
    GetFirst(Put(d, k, v), k');
    GetFirst(d, k');
    if d != [] && d[0].0 != k {
      assert UniqueKeys(d[1..]);
      GetPut(d[1..], k, v, k');
      GetFirst(d[1..], k');
      GetFirst(Put(d[1..], k, v), k');
    } else if d != [] {
      GetFirst(d[1..], k');
    }
  }

  /** Assignment keeps the key order: an existing key stays where it is, a new key goes last. */
  lemma {:induction false} PutKeys<V>(d: Dict<V>, k: string, v: V)
    requires UniqueKeys(d)
    ensures Keys(Put(d, k, v)) == if k in Keys(d) then Keys(d) else Keys(d) + [k]
    ensures UniqueKeys(Put(d, k, v))
  {
    if d != [] {
      var rest := d[1..];
      assert d == [d[0]] + rest;
      UniqueTail(d);
      KeysCons(d[0], rest);
      if d[0].0 == k {
        KeysCons((k, v), rest);
        UniqueCons((k, v), rest);
      } else {
        PutKeys(rest, k, v);
        KeysCons(d[0], Put(rest, k, v));
        UniqueCons(d[0], Put(rest, k, v));
      }
    }
  }

  lemma KeysCons<V>(x: (string, V), d: Dict<V>)
    ensures Keys([x] + d) == [x.0] + Keys(d)
  {
  }

  lemma UniqueTail<V>(d: Dict<V>)
    requires UniqueKeys(d) && d != []
    ensures UniqueKeys(d[1..]) && d[0].0 !in Keys(d[1..])
  {
    forall a, b | 0 <= a < b < |d[1..]|
      ensures d[1..][a].0 != d[1..][b].0
    {
      assert d[1..][a] == d[a + 1] && d[1..][b] == d[b + 1];
    }
  }

  lemma UniqueCons<V>(x: (string, V), d: Dict<V>)
    requires UniqueKeys(d) && x.0 !in Keys(d)
    ensures UniqueKeys([x] + d)
  {
    forall a, b | 0 <= a < b < |[x] + d|
      ensures ([x] + d)[a].0 != ([x] + d)[b].0
    {
      assert ([x] + d)[b] == d[b - 1];
      if a > 0 {
        assert ([x] + d)[a] == d[a - 1];
      } else {
        assert Keys(d)[b - 1] == d[b - 1].0;
      }
    }
  }

  /** Get reads the first (with unique keys: the only) pair holding the key. */
  lemma {:induction false} GetFirst<V>(d: Dict<V>, k: string)
    ensures d != [] && d[0].0 == k ==> Get(d, k) == Some(d[0].1)
    ensures d != [] && d[0].0 != k ==> Get(d, k) == Get(d[1..], k)
  {
    if d != [] && |d| > 1 {
      var init := d[..|d| - 1];
      GetFirst(init, k);
      assert init[1..] == d[1..][..|d[1..]| - 1];
      assert Keys(init)[1..] == Keys(init[1..]);
      if d[0].0 == k {
        assert k in Keys(init);
      }
    }
  }

  /** A dict literal {k1: v1, k2: v2, ...}, read left to right. */
  function FromPairs<V>(pairs: seq<(string, V)>): Dict<V> {
    PutAll([], pairs)
  }

  /** {**d, **pairs}: assign every pair of the second argument in order. */
  function PutAll<V>(d: Dict<V>, pairs: seq<(string, V)>): Dict<V>
    decreases |pairs|
  {
    if pairs == [] then d else PutAll(Put(d, pairs[0].0, pairs[0].1), pairs[1..])
  }

  /** Spreading a dict with unique keys over another: its own keys win, the rest read as before. */
  lemma {:induction false} GetPutAll<V>(d: Dict<V>, pairs: Dict<V>, k: string)
    requires UniqueKeys(d) && UniqueKeys(pairs)
    ensures UniqueKeys(PutAll(d, pairs))
    ensures Get(PutAll(d, pairs), k) == if k in Keys(pairs) then Get(pairs, k) else Get(d, k)
    decreases |pairs|
  {
    if pairs != [] {
      var rest := pairs[1..];
      var d' := Put(d, pairs[0].0, pairs[0].1);
      assert PutAll(d, pairs) == PutAll(d', rest);
      PutKeys(d, pairs[0].0, pairs[0].1);
      GetPut(d, pairs[0].0, pairs[0].1, k);
      GetCons(pairs, k);
      GetPutAll(d', rest, k);
    }
  }

  /** A dict with unique keys read as its first pair followed by the rest. */
  lemma GetCons<V>(d: Dict<V>, k: string)
    requires UniqueKeys(d) && d != []
    ensures UniqueKeys(d[1..]) && d[0].0 !in Keys(d[1..])
    ensures (k in Keys(d)) == (k == d[0].0 || k in Keys(d[1..]))
    ensures Get(d, k) == if k == d[0].0 then Some(d[0].1) else Get(d[1..], k)
  {
    UniqueTail(d);
    GetFirst(d, k);
    assert d == [d[0]] + d[1..];
    KeysCons(d[0], d[1..]);
  }

  /** In a dict with unique keys the entry at position i is what Get finds for its key. */
  lemma {:induction false} GetUnique<V>(d: Dict<V>, i: nat)
    requires UniqueKeys(d) && i < |d|
    ensures Get(d, d[i].0) == Some(d[i].1)
  {
    GetFirst(d, d[i].0);
    if i > 0 {
      UniqueTail(d);
      assert d[0].0 != d[i].0;
      GetUnique(d[1..], i - 1);
    }
  }
}
