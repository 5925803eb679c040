/** Generic sequence operations standing for the LINQ operators the catalog uses. */
module Sequences {

  /** Number of occurrences of `x` in `s`. */
  function Count<T(==)>(s: seq<T>, x: T): (n: nat)
    ensures n <= |s|
    ensures n == 0 <==> x !in s
  {
    if s == [] then 0 else (if s[0] == x then 1 else 0) + Count(s[1..], x)
  }

  lemma {:induction false} CountAppend<T>(s: seq<T>, y: T, x: T)
    ensures Count(s + [y], x) == Count(s, x) + (if y == x then 1 else 0)
  {
    if s != [] {
      assert (s + [y])[1..] == s[1..] + [y];
      CountAppend(s[1..], y, x);
    }
  }

  ghost predicate NoDuplicates<T>(s: seq<T>) {
    forall i, j :: 0 <= i < j < |s| ==> s[i] != s[j]
  }

  /** Index of the first occurrence of `x` in `s`. */
  function FirstIndex<T(==)>(s: seq<T>, x: T): (i: nat)
    requires x in s
    ensures i < |s| && s[i] == x
    ensures forall k :: 0 <= k < i ==> s[k] != x
  {
    if s[0] == x then 0 else 1 + FirstIndex(s[1..], x)
  }

  lemma {:induction false} FirstIndexOfPrefix<T>(s: seq<T>, n: nat, x: T)
    requires n <= |s| && x in s[..n]
    ensures FirstIndex(s, x) == FirstIndex(s[..n], x)
  {
    var i := FirstIndex(s[..n], x);
    assert s[i] == x;
  }

  /** LINQ `Distinct`: each element once, in order of first occurrence. */
  function Distinct<T(==,!new)>(s: seq<T>): (r: seq<T>)
    ensures NoDuplicates(r)
    ensures forall x :: x in r <==> x in s
    ensures forall i, j :: 0 <= i < j < |r| ==> FirstIndex(s, r[i]) < FirstIndex(s, r[j])
    decreases |s|
  {
    if s == [] then []
    else
      var front := s[..|s| - 1];
      var d := Distinct(front);
      var last := s[|s| - 1];
      assert s == front + [last];
      assert forall x :: x in s <==> x in front || x == last;
      forall x | x in d ensures FirstIndex(s, x) == FirstIndex(front, x) < |s| - 1 {
        FirstIndexOfPrefix(s, |s| - 1, x);
      }
      if last in d then d
      else
        assert FirstIndex(s, last) == |s| - 1;
        d + [last]
  }

  /** LINQ `Where`: the elements satisfying `p`, in their order. */
  function Where<T(!new)>(s: seq<T>, p: T -> bool): (r: seq<T>)
    ensures |r| <= |s|
    ensures forall i :: 0 <= i < |r| ==> p(r[i])
    ensures forall x :: x in r <==> x in s && p(x)
  {
    if s == [] then [] else (if p(s[0]) then [s[0]] else []) + Where(s[1..], p)
  }

  /** `a` can be obtained from `b` by deleting elements. */
  ghost predicate IsSubsequence<T>(a: seq<T>, b: seq<T>)
    decreases |b|
  {
    if b == [] then a == []
    else (a != [] && a[0] == b[0] && IsSubsequence(a[1..], b[1..])) || IsSubsequence(a, b[1..])
  }

  lemma {:induction false} WhereIsSubsequence<T(!new)>(s: seq<T>, p: T -> bool)
    ensures IsSubsequence(Where(s, p), s)
  {
    if s != [] {
      WhereIsSubsequence(s[1..], p);
      if p(s[0]) {
        assert Where(s, p) == [s[0]] + Where(s[1..], p);
        assert Where(s, p)[1..] == Where(s[1..], p);
      } else {
        assert Where(s, p) == Where(s[1..], p);
      }
    }
  }

  /** Filtering distributes over appending one element. */
  lemma {:induction false} WhereAppend<T(!new)>(s: seq<T>, y: T, p: T -> bool)
    ensures Where(s + [y], p) == Where(s, p) + (if p(y) then [y] else [])
  {
    if s == [] {
      assert [y][1..] == [];
    } else {
      var t := s + [y];
      var head := if p(s[0]) then [s[0]] else [];
      var last := if p(y) then [y] else [];
      var rest := Where(s[1..], p);
      assert t[0] == s[0] && t[1..] == s[1..] + [y];
      WhereAppend(s[1..], y, p);
      assert Where(t, p) == head + (rest + last);
      assert Where(s, p) == head + rest;
      AppendAssociative(head, rest, last);
    }
  }

  lemma AppendAssociative<T>(a: seq<T>, b: seq<T>, c: seq<T>)
    ensures a + (b + c) == (a + b) + c
  {
  }

  /** Filtering twice by the same predicate is filtering once. */
  lemma {:induction false} WhereIdempotent<T(!new)>(s: seq<T>, p: T -> bool)
    ensures Where(Where(s, p), p) == Where(s, p)
  {
    if s != [] {
      WhereIdempotent(s[1..], p);
      var w := Where(s, p);
      if p(s[0]) {
        assert w == [s[0]] + Where(s[1..], p);
        assert w[1..] == Where(s[1..], p);
        assert Where(w, p) == [w[0]] + Where(w[1..], p);
      } else {
        assert w == Where(s[1..], p);
      }
    }
  }

  lemma {:induction false} WhereMultiset<T(!new)>(s: seq<T>, p: T -> bool)
    ensures multiset(Where(s, p)) <= multiset(s)
  {
    if s != [] {
      var head := if p(s[0]) then [s[0]] else [];
      var rest := Where(s[1..], p);
      WhereMultiset(s[1..], p);
      assert Where(s, p) == head + rest;
      assert s == [s[0]] + s[1..];
      MultisetSumMonotone(multiset(head), multiset(rest), multiset([s[0]]), multiset(s[1..]));
    }
  }

  lemma MultisetSumMonotone<T>(a: multiset<T>, b: multiset<T>, c: multiset<T>, d: multiset<T>)
    requires a <= c && b <= d
    ensures a + b <= c + d
  {
  }

  /** Every sequence is a subsequence of itself. */
  lemma {:induction false} SubsequenceReflexive<T>(s: seq<T>)
    ensures IsSubsequence(s, s)
  {
    if s != [] {
      SubsequenceReflexive(s[1..]);
    }
  }

  /** Filtering depends only on the values of the predicate. */
  lemma {:induction false} WhereCongruent<T(!new)>(s: seq<T>, p: T -> bool, q: T -> bool)
    requires forall x :: x in s ==> p(x) == q(x)
    ensures Where(s, p) == Where(s, q)
  {
    if s != [] {
      WhereCongruent(s[1..], p, q);
    }
  }

  /** LINQ `Select`: `f` applied to each element, in order. */
  function Map<T, K>(s: seq<T>, f: T -> K): (r: seq<K>)
    ensures |r| == |s|
    ensures forall i :: 0 <= i < |s| ==> r[i] == f(s[i])
  {
    if s == [] then [] else [f(s[0])] + Map(s[1..], f)
  }

  /** Holds for exactly the elements whose key is `v`. */
  function KeyIs<T, K(==)>(key: T -> K, v: K): T -> bool {
    x => key(x) == v
  }

  /** The number of keys equal to `v` is the number of elements whose key is `v`. */
  lemma {:induction false} CountMap<T(!new), K>(s: seq<T>, key: T -> K, v: K)
    ensures Count(Map(s, key), v) == |Where(s, KeyIs(key, v))|
  {
    if s != [] {
      CountMap(s[1..], key, v);
      assert Map(s, key)[1..] == Map(s[1..], key);
    }
  }

  /** A value not yet in a list without repeats can join it at the end. */
  lemma NoDuplicatesAppend<T>(s: seq<T>, x: T)
    requires NoDuplicates(s) && x !in s
    ensures NoDuplicates(s + [x])
  {
    var t := s + [x];
    forall i, j | 0 <= i < j < |t| ensures t[i] != t[j] {
      assert t[i] == s[i];
      if j == |s| { assert t[i] in s; } else { assert t[j] == s[j]; }
    }
  }

  /** A list without repeats holds each value at most once. */
  lemma {:induction false} NoDuplicatesMultiset<T>(s: seq<T>, x: T)
    requires NoDuplicates(s)
    ensures multiset(s)[x] <= 1
  {
    if s != [] {
      assert s == [s[0]] + s[1..];
      assert NoDuplicates(s[1..]);
      NoDuplicatesMultiset(s[1..], x);
      if s[0] == x {
        assert x !in s[1..];
      }
    }
  }

  /** A rearrangement of a list without repeats has none either. */
  lemma PermutationNoDuplicates<T>(a: seq<T>, b: seq<T>)
    requires multiset(a) == multiset(b) && NoDuplicates(a)
    ensures NoDuplicates(b)
  {
    forall i, j | 0 <= i < j < |b| ensures b[i] != b[j] {
      if b[i] == b[j] {
        assert b == b[..j] + b[j..];
        assert b[i] in multiset(b[..j]);
        assert b[j] in multiset(b[j..]);
        assert multiset(b)[b[i]] >= 2;
        NoDuplicatesMultiset(a, b[i]);
      }
    }
  }
}
