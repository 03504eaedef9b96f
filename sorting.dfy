/**
 * Ordering rows by an integer key, as an SQL ORDER BY does. SQL leaves the order of equal keys
 * unspecified; the insertion sort here is stable (a new row goes after every row with an equal
 * key, so equal keys keep their input order), which is one of the orders SQL may return.
 */
module Sorting {

  predicate SortedBy<T>(s: seq<T>, key: T -> int) {
    forall i, j :: 0 <= i < j < |s| ==> key(s[i]) <= key(s[j])
  }

  function Insert<T>(x: T, s: seq<T>, key: T -> int): (r: seq<T>)
    requires SortedBy(s, key)
    ensures SortedBy(r, key)
    ensures multiset(r) == multiset(s) + multiset{x}
    ensures forall i :: 0 <= i < |r| ==> r[i] == x || r[i] in s
  {
    if s == [] then [x]
    else if key(x) < key(s[0]) then
      ConsSorted(x, s, key);
      [x] + s
    else
      var rest := Insert(x, s[1..], key);
      HeadBelowRest(s, x, rest, key);
      [s[0]] + rest
  }

  /** An element no larger than the head of a sorted sequence can go in front of it. */
  lemma ConsSorted<T>(h: T, s: seq<T>, key: T -> int)
    requires SortedBy(s, key) && (s != [] ==> key(h) <= key(s[0]))
    ensures SortedBy([h] + s, key)
  {
    var r := [h] + s;
    forall i, j | 0 <= i < j < |r|
      ensures key(r[i]) <= key(r[j])
    {
      assert r[j] == s[j - 1];
      if i > 0 {
        assert r[i] == s[i - 1];
      }
    }
  }

  /** The head of a sorted sequence stays in front when the rest is replaced by a sorted
      sequence of rest's elements and an x no smaller than the head. */
  lemma HeadBelowRest<T>(s: seq<T>, x: T, rest: seq<T>, key: T -> int)
    requires s != [] && SortedBy(s, key) && key(s[0]) <= key(x) && SortedBy(rest, key)
    requires forall i :: 0 <= i < |rest| ==> rest[i] == x || rest[i] in s[1..]
    requires multiset(rest) == multiset(s[1..]) + multiset{x}
    ensures SortedBy([s[0]] + rest, key)
    ensures multiset([s[0]] + rest) == multiset(s) + multiset{x}
    ensures forall i :: 0 <= i < |[s[0]] + rest| ==> ([s[0]] + rest)[i] == x || ([s[0]] + rest)[i] in s
  {
    if rest != [] && rest[0] != x {
      var j :| 0 <= j < |s[1..]| && s[1..][j] == rest[0];
      assert s[j + 1] == rest[0];
    }
    ConsSorted(s[0], rest, key);
    assert s == [s[0]] + s[1..];
    var r := [s[0]] + rest;
    forall i | 0 <= i < |r|
      ensures r[i] == x || r[i] in s
    {
      if i > 0 {
        assert r[i] == rest[i - 1];
        if rest[i - 1] != x {
          var j :| 0 <= j < |s[1..]| && s[1..][j] == rest[i - 1];
          assert s[j + 1] == r[i];
        }
      }
    }
  }

  /** The rows of s in ascending key order: a sorted permutation of s. */
  function SortBy<T>(s: seq<T>, key: T -> int): (r: seq<T>)
    ensures SortedBy(r, key)
    ensures multiset(r) == multiset(s)
  {
    if s == [] then []
    else
      assert s == s[..|s| - 1] + [s[|s| - 1]];
      Insert(s[|s| - 1], SortBy(s[..|s| - 1], key), key)
  }

  /** The rows of s that satisfy p, in their original order. */
  function Filter<T(!new)>(s: seq<T>, p: T -> bool): (r: seq<T>)
    ensures |r| <= |s|
  {
    if s == [] then []
    else
      var init := Filter(s[..|s| - 1], p);
      assert s == s[..|s| - 1] + [s[|s| - 1]];
      if p(s[|s| - 1]) then init + [s[|s| - 1]] else init
  }

  /** Filter keeps every row that satisfies p, as often as it occurs, and no other row. */
  lemma {:induction false} FilterCount<T(!new)>(s: seq<T>, p: T -> bool, x: T)
    ensures multiset(Filter(s, p))[x] == if p(x) then multiset(s)[x] else 0
  {
    if s != [] {
      var init := s[..|s| - 1];
      assert s == init + [s[|s| - 1]];
      FilterCount(init, p, x);
    }
  }

  /** The rows whose key is k. */
  function KeyIs<T>(key: T -> int, k: int): T -> bool {
    y => key(y) == k
  }

  lemma {:induction false} FilterAppend<T(!new)>(a: seq<T>, b: seq<T>, p: T -> bool)
    ensures Filter(a + b, p) == Filter(a, p) + Filter(b, p)
  {
    if b == [] {
      assert a + b == a;
    } else {
      var init := b[..|b| - 1];
      var last := b[|b| - 1];
      var ab := a + b;
      var tail := if p(last) then [last] else [];
      calc {
        Filter(ab, p);
        { FilterLast(ab, p); assert ab[..|ab| - 1] == a + init && ab[|ab| - 1] == last; }
        Filter(a + init, p) + tail;
        { FilterAppend(a, init, p); }
        Filter(a, p) + Filter(init, p) + tail;
        { FilterLast(b, p); }
        Filter(a, p) + Filter(b, p);
      }
    }
  }

  /** One unfolding of Filter at the last row. */
  lemma FilterLast<T(!new)>(s: seq<T>, p: T -> bool)
    requires s != []
    ensures Filter(s, p) == Filter(s[..|s| - 1], p) + (if p(s[|s| - 1]) then [s[|s| - 1]] else [])
  {
  }

  lemma {:induction false} FilterNone<T(!new)>(s: seq<T>, p: T -> bool)
    requires forall i :: 0 <= i < |s| ==> !p(s[i])
    ensures Filter(s, p) == []
  {
    if s != [] {
      FilterNone(s[..|s| - 1], p);
    }
  }

  lemma FilterSingle<T(!new)>(x: T, p: T -> bool)
    ensures Filter([x], p) == if p(x) then [x] else []
  {
    assert [x][..0] == [];
  }

  /** Inserting x adds it behind the rows with its key, and leaves the rows of every other
      key as they were. */
  lemma {:induction false} InsertFilter<T(!new)>(x: T, s: seq<T>, key: T -> int, k: int)
    requires SortedBy(s, key)
    ensures Filter(Insert(x, s, key), KeyIs(key, k)) ==
      if key(x) == k then Filter(s, KeyIs(key, k)) + [x] else Filter(s, KeyIs(key, k))
  {
    if s == [] {
      FilterSingle(x, KeyIs(key, k));
    } else if key(x) < key(s[0]) {
      InsertFront(x, s, key, k);
    } else {
      InsertFilter(x, s[1..], key, k);
      InsertStep(x, s, key);
      FilterBehind(Insert(x, s, key), s, Insert(x, s[1..], key), x, KeyIs(key, k), key(x) == k);
    }
  }

  lemma InsertFront<T(!new)>(x: T, s: seq<T>, key: T -> int, k: int)
    requires SortedBy(s, key) && s != [] && key(x) < key(s[0])
    ensures Filter(Insert(x, s, key), KeyIs(key, k)) ==
      if key(x) == k then Filter(s, KeyIs(key, k)) + [x] else Filter(s, KeyIs(key, k))
  {
    var p := KeyIs(key, k);
    assert Insert(x, s, key) == [x] + s;
    FilterAppend([x], s, p);
    FilterSingle(x, p);
    if key(x) == k {
      assert forall i :: 0 <= i < |s| ==> key(s[0]) <= key(s[i]);
      FilterNone(s, p);
    }
  }

  lemma Regroup<T>(head: seq<T>, rest: seq<T>, tail: seq<T>, x: T, b: bool)
    requires rest == if b then tail + [x] else tail
    ensures head + rest == if b then head + tail + [x] else head + tail
  {
  }

  /** One unfolding of Insert past a head no larger than x. */
  lemma InsertStep<T>(x: T, s: seq<T>, key: T -> int)
    requires SortedBy(s, key) && s != [] && key(s[0]) <= key(x) && SortedBy(s[1..], key)
    ensures Insert(x, s, key) == [s[0]] + Insert(x, s[1..], key)
  {
  }

  /** Filtering a sequence whose head is s's head and whose rest filters like s's rest with
      x added (when b holds) filters like s with x added. */
  lemma FilterBehind<T(!new)>(ins: seq<T>, s: seq<T>, rest: seq<T>, x: T, p: T -> bool, b: bool)
    requires s != [] && ins == [s[0]] + rest
    requires Filter(rest, p) == if b then Filter(s[1..], p) + [x] else Filter(s[1..], p)
    ensures Filter(ins, p) == if b then Filter(s, p) + [x] else Filter(s, p)
  {
    FilterAppend([s[0]], rest, p);
    assert s == [s[0]] + s[1..];
    FilterAppend([s[0]], s[1..], p);
    Regroup(Filter([s[0]], p), Filter(rest, p), Filter(s[1..], p), x, b);
  }


  /** SortBy is stable: for every key, the rows with that key come out in their input order. */
  lemma {:induction false} SortByStable<T(!new)>(s: seq<T>, key: T -> int, k: int)
    ensures Filter(SortBy(s, key), KeyIs(key, k)) == Filter(s, KeyIs(key, k))
  {
    if s != [] {
      var init := s[..|s| - 1];
      SortByStable(init, key, k);
      InsertFilter(s[|s| - 1], SortBy(init, key), key, k);
    }
  }
}
