/**
 * LINQ `OrderBy(key)`: a stable sort on an integer key, as an insertion sort.
 * `OrderByDescending(key)` is the same sort on the negated key.
 */
module Sorting {
  import opened Sequences

  /** The keys never decrease along `s`. */
  ghost predicate SortedBy<T>(s: seq<T>, key: T -> int) {
    forall i, j :: 0 <= i < j < |s| ==> key(s[i]) <= key(s[j])
  }

  lemma SortedPrepend<T>(a: T, t: seq<T>, key: T -> int)
    requires SortedBy(t, key)
    requires forall k :: 0 <= k < |t| ==> key(a) <= key(t[k])
    ensures SortedBy([a] + t, key)
  {
    var r := [a] + t;
    forall i, j | 0 <= i < j < |r| ensures key(r[i]) <= key(r[j]) {
      assert r[j] == t[j - 1];
      if i > 0 { assert r[i] == t[i - 1]; }
    }
  }

  /** What follows the head of a sorted list, with `x` put in, keeps keys at least the head's. */
  lemma BoundAfterInsert<T>(head: T, x: T, s: seq<T>, rest: seq<T>, key: T -> int)
    requires SortedBy(s, key) && s != [] && head == s[0] && key(head) <= key(x)
    requires multiset(rest) == multiset(s[1..]) + multiset{x}
    ensures forall k :: 0 <= k < |rest| ==> key(head) <= key(rest[k])
  {
    forall k | 0 <= k < |rest| ensures key(head) <= key(rest[k]) {
      assert rest[k] in multiset(rest);
      if rest[k] != x {
        assert rest[k] in multiset(s[1..]);
        var j :| 0 <= j < |s[1..]| && s[1..][j] == rest[k];
        assert s[j + 1] == rest[k];
      }
    }
  }

  /** Places `x` before the first element whose key is at least its own. */
  function Insert<T(==)>(x: T, s: seq<T>, key: T -> int): (r: seq<T>)
    requires SortedBy(s, key)
    ensures SortedBy(r, key)
    ensures multiset(r) == multiset(s) + multiset{x}
    ensures |r| == |s| + 1
  {
    if s == [] || key(x) <= key(s[0]) then
      SortedPrepend(x, s, key);
      [x] + s
    else
      var rest := Insert(x, s[1..], key);
      assert multiset(s) == multiset{s[0]} + multiset(s[1..]) by { assert s == [s[0]] + s[1..]; }
      BoundAfterInsert(s[0], x, s, rest, key);
      SortedPrepend(s[0], rest, key);
      [s[0]] + rest
  }

  /** `OrderBy(key)`: sorted by key and a permutation of the input. */
  function SortBy<T(==)>(s: seq<T>, key: T -> int): (r: seq<T>)
    ensures SortedBy(r, key)
    ensures multiset(r) == multiset(s)
    ensures |r| == |s|
  {
    if s == [] then []
    else
      assert s == [s[0]] + s[1..];
      Insert(s[0], SortBy(s[1..], key), key)
  }

  lemma WhereCons<T(!new)>(a: T, t: seq<T>, p: T -> bool)
    ensures Where([a] + t, p) == (if p(a) then [a] else []) + Where(t, p)
  {
    assert ([a] + t)[1..] == t;
  }

  /** Two pieces of which at most one is non-empty can be concatenated in either order. */
  lemma SwapAroundEmpty<T>(a: seq<T>, b: seq<T>, t: seq<T>)
    requires a == [] || b == []
    ensures a + (b + t) == b + (a + t)
  {
    if a == [] {
      assert a + (b + t) == b + t;
      assert a + t == t;
    } else {
      assert b + t == t;
      assert b + (a + t) == a + t;
    }
  }

  /** Inserting `x` puts it first among the elements with its key and keeps their order. */
  lemma {:induction false} InsertStable<T(!new)>(x: T, s: seq<T>, key: T -> int, v: int)
    requires SortedBy(s, key)
    ensures Where(Insert(x, s, key), KeyIs(key, v))
         == (if key(x) == v then [x] else []) + Where(s, KeyIs(key, v))
  {
    var p := KeyIs(key, v);
    if s == [] || key(x) <= key(s[0]) {
      WhereCons(x, s, p);
    } else {
      var rest := Insert(x, s[1..], key);
      var head: seq<T> := if p(s[0]) then [s[0]] else [];
      var mid: seq<T> := if key(x) == v then [x] else [];
      var tail := Where(s[1..], p);
      assert Insert(x, s, key) == [s[0]] + rest;
      assert Where(rest, p) == mid + tail by {
        assert SortedBy(s[1..], key);
        InsertStable(x, s[1..], key, v);
      }
      assert Where(Insert(x, s, key), p) == head + (mid + tail) by {
        WhereCons(s[0], rest, p);
      }
      assert Where(s, p) == head + tail;
      // `x` lands after `s[0]`, so at most one of them has key `v`.
      assert head == [] || mid == [] by {
        if key(x) == v {
          assert !p(s[0]);
        }
      }
      SwapAroundEmpty(head, mid, tail);
    }
  }

  /**
   * The sort is stable: for every key, the elements with that key appear in the output
   * in the order they had in the input.
   */
  lemma {:induction false} SortByStable<T(!new)>(s: seq<T>, key: T -> int, v: int)
    ensures Where(SortBy(s, key), KeyIs(key, v)) == Where(s, KeyIs(key, v))
  {
    if s != [] {
      SortByStable(s[1..], key, v);
      InsertStable(s[0], SortBy(s[1..], key), key, v);
      WhereCons(s[0], s[1..], KeyIs(key, v));
      assert [s[0]] + s[1..] == s;
    }
  }

  /**
   * Sorting by a negated key is stable as well: for every value, the elements whose key
   * has that value keep their input order.
   */
  lemma SortByNegatedStable<T(!new)>(s: seq<T>, key: T -> int, negated: T -> int, v: int)
    requires forall x :: negated(x) == -key(x)
    ensures Where(SortBy(s, negated), KeyIs(key, v)) == Where(s, KeyIs(key, v))
  {
    var sorted := SortBy(s, negated);
    SortByStable(s, negated, -v);
    assert forall x :: KeyIs(negated, -v)(x) == KeyIs(key, v)(x);
    WhereCongruent(sorted, KeyIs(negated, -v), KeyIs(key, v));
    WhereCongruent(s, KeyIs(negated, -v), KeyIs(key, v));
  }

  /** A list already sorted by the key is left exactly as it is. */
  lemma {:induction false} SortBySorted<T>(s: seq<T>, key: T -> int)
    requires SortedBy(s, key)
    ensures SortBy(s, key) == s
  {
    if s != [] {
      assert SortedBy(s[1..], key);
      SortBySorted(s[1..], key);
      assert [s[0]] + s[1..] == s;
    }
  }

  /** Sorting twice by the same key is sorting once. */
  lemma SortByIdempotent<T>(s: seq<T>, key: T -> int)
    ensures SortBy(SortBy(s, key), key) == SortBy(s, key)
  {
    SortBySorted(SortBy(s, key), key);
  }

  /** Distinct keys in a sorted list are strictly increasing. */
  lemma SortedDistinctKeys<T>(s: seq<T>, key: T -> int)
    requires SortedBy(s, key)
    requires forall i, j :: 0 <= i < j < |s| ==> key(s[i]) != key(s[j])
    ensures forall i, j :: 0 <= i < j < |s| ==> key(s[i]) < key(s[j])
  {
  }
}
