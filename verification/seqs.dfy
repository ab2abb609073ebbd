/** Small sequence vocabulary shared by the whole model: optional values,
    duplicate-freedom, first-occurrence deduplication (the effect of
    `[...new Set(xs)]`), first-match search, filtering and counting. */
module Seqs {

  datatype Option<T> = None | Some(value: T)

  /** No element occurs twice. */
  predicate NoDup<T(==)>(s: seq<T>) {
    forall i, j :: 0 <= i < j < |s| ==> s[i] != s[j]
  }

  /** The first occurrence of every element, in order of first appearance:
      what spreading a JavaScript `Set` built from `s` yields. */
  function Dedup<T(==,!new)>(s: seq<T>): (r: seq<T>)
    ensures NoDup(r)
    ensures forall x :: x in r <==> x in s
    ensures |r| <= |s|
  {
    if |s| == 0 then []
    else
      var d := Dedup(s[..|s| - 1]);
      var x := s[|s| - 1];
      assert forall y :: y in s <==> y in s[..|s| - 1] || y == x by {
        assert s == s[..|s| - 1] + [x];
      }
      if x in d then d else d + [x]
  }

  lemma {:induction false} DedupOfDistinct<T(!new)>(s: seq<T>)
    requires NoDup(s)
    ensures Dedup(s) == s
  {
    if |s| > 0 {
      DedupOfDistinct(s[..|s| - 1]);
      assert s[|s| - 1] !in s[..|s| - 1];
      assert s[..|s| - 1] + [s[|s| - 1]] == s;
    }
  }

  /** The elements of `s` that satisfy `p`, in order. */
  function Filter<T(!new)>(s: seq<T>, p: T -> bool): (r: seq<T>)
    ensures forall x :: x in r <==> x in s && p(x)
    ensures |r| <= |s|
  {
    if |s| == 0 then []
    else (if p(s[0]) then [s[0]] else []) + Filter(s[1..], p)
  }

  lemma {:induction false} FilterAppend<T(!new)>(a: seq<T>, b: seq<T>, p: T -> bool)
    ensures Filter(a + b, p) == Filter(a, p) + Filter(b, p)
  {
    if |a| > 0 {
      assert (a + b)[1..] == a[1..] + b;
      FilterAppend(a[1..], b, p);
    } else {
      assert a + b == b;
    }
  }

  lemma {:induction false} FilterDistinct<T(!new)>(s: seq<T>, p: T -> bool)
    requires NoDup(s)
    ensures NoDup(Filter(s, p))
  {
    if |s| > 0 {
      FilterDistinct(s[1..], p);
      assert s[0] !in s[1..];
    }
  }

  /** The number of elements of `ids` that do not occur in `xs`. */
  function CountNotIn<T(==)>(ids: seq<T>, xs: seq<T>): nat {
    if |ids| == 0 then 0
    else (if ids[0] in xs then 0 else 1) + CountNotIn(ids[1..], xs)
  }

  /** Growing `xs` can only lower the count, and putting a missing member of
      `ids` into it lowers it strictly. */
  lemma {:induction false} CountNotInShrinks<T>(ids: seq<T>, xs: seq<T>, ys: seq<T>, a: T)
    requires forall x :: x in xs ==> x in ys
    ensures CountNotIn(ids, ys) <= CountNotIn(ids, xs)
    ensures a in ids && a !in xs && a in ys ==> CountNotIn(ids, ys) < CountNotIn(ids, xs)
  {
    if |ids| > 0 {
      CountNotInShrinks(ids[1..], xs, ys, a);
    }
  }

  lemma PrefixMembers<T>(xs: seq<T>, ys: seq<T>)
    requires xs <= ys
    ensures forall x :: x in xs ==> x in ys
  {
    forall x | x in xs ensures x in ys {
      var i :| 0 <= i < |xs| && xs[i] == x;
      assert ys[i] == x;
    }
  }

  /** A duplicate-free sequence holding three distinct values has at least
      three elements. */
  lemma ThreeDistinct<T>(s: seq<T>, a: T, b: T, c: T)
    requires a in s && b in s && c in s
    requires a != b && b != c && a != c
    ensures |s| >= 3
  {
    var i :| 0 <= i < |s| && s[i] == a;
    var j :| 0 <= j < |s| && s[j] == b;
    var k :| 0 <= k < |s| && s[k] == c;
    assert i != j && j != k && i != k;
  }

  lemma NoDupAppend<T>(a: seq<T>, b: seq<T>)
    requires NoDup(a) && NoDup(b)
    requires forall x :: x in b ==> x !in a
    ensures NoDup(a + b)
  {
    forall i, j | 0 <= i < j < |a + b| ensures (a + b)[i] != (a + b)[j] {
      if j >= |a| && i < |a| {
        assert (a + b)[j] == b[j - |a|];
        assert b[j - |a|] in b;
      } else if i >= |a| {
        assert (a + b)[i] == b[i - |a|] && (a + b)[j] == b[j - |a|];
      }
    }
  }

  /** The first `n` elements, or all of them when there are fewer. */
  function Take<T>(s: seq<T>, n: nat): (r: seq<T>)
    ensures r <= s
    ensures |r| == if |s| < n then |s| else n
  {
    if |s| <= n then s else s[..n]
  }

  /** `xs` without its occurrences of `c`. */
  function Without<T(==,!new)>(xs: seq<T>, c: T): (r: seq<T>)
    ensures forall x :: x in r <==> x in xs && x != c
    ensures |r| <= |xs|
  {
    if |xs| == 0 then []
    else (if xs[0] == c then [] else [xs[0]]) + Without(xs[1..], c)
  }

  /** Removing one value from a duplicate-free list keeps it duplicate-free
      and shortens it by at most one. */
  lemma {:induction false} WithoutDistinct<T(!new)>(xs: seq<T>, c: T)
    requires NoDup(xs)
    ensures NoDup(Without(xs, c))
    ensures |Without(xs, c)| == if c in xs then |xs| - 1 else |xs|
  {
    if |xs| > 0 {
      WithoutDistinct(xs[1..], c);
      assert xs[0] !in xs[1..];
      assert c in xs <==> c == xs[0] || c in xs[1..];
    }
  }

  /** A duplicate-free list whose members all occur in another duplicate-free
      list is no longer than it. */
  lemma {:induction false} DistinctSubsetLength<T(!new)>(b: seq<T>, c: seq<T>)
    requires NoDup(b) && NoDup(c)
    requires forall x :: x in b ==> x in c
    ensures |b| <= |c|
  {
    if |b| > 0 {
      var c' := Without(c, b[0]);
      WithoutDistinct(c, b[0]);
      assert b[0] in b;
      forall x | x in b[1..] ensures x in c' {
        assert x in b;
        assert x != b[0];
      }
      DistinctSubsetLength(b[1..], c');
    }
  }

  /** The first position whose element satisfies `p`, as `Array.find`,
      `findIndex` and an object-literal lookup all scan: none iff no
      element does. */
  function FirstIndex<T>(s: seq<T>, p: T -> bool): (r: Option<nat>)
    ensures r.None? <==> forall k :: 0 <= k < |s| ==> !p(s[k])
    ensures r.Some? ==> r.value < |s| && p(s[r.value]) && forall j :: 0 <= j < r.value ==> !p(s[j])
  {
    if |s| == 0 then None
    else if p(s[0]) then Some(0)
    else
      var r := FirstIndex(s[1..], p);
      assert forall k :: 0 < k < |s| ==> s[k] == s[1..][k - 1];
      if r.Some? then Some(r.value + 1) else None
  }

  /** Looking a key up in a table of pairs (a JavaScript object literal):
      the value of the first row with that key, or nothing. */
  function Lookup<K(==), V>(table: seq<(K, V)>, key: K): (r: Option<V>)
    ensures r.None? <==> forall i :: 0 <= i < |table| ==> table[i].0 != key
    ensures forall i :: (0 <= i < |table| && table[i].0 == key
                         && forall j :: 0 <= j < i ==> table[j].0 != key) ==> r == Some(table[i].1)
    ensures r.Some? ==> exists i :: 0 <= i < |table| && table[i].1 == r.value
  {
    match FirstIndex(table, (row: (K, V)) => row.0 == key)
    case Some(i) =>
      assert forall k :: (0 <= k < |table| && table[k].0 == key
                          && forall j :: 0 <= j < k ==> table[j].0 != key) ==> k == i;
      Some(table[i].1)
    case None => None
  }
}
