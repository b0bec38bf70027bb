/** Sequence helpers that stand for the JavaScript array operations the
    application relies on: `filter`, `find`, `findIndex`, counting with
    `filter(...).length`, and the stable `sort` used with a descending
    numeric comparator. */
module Collections {

  datatype Option<+T> = None | Some(value: T)

  /** `Array.prototype.filter`: the elements satisfying `p`, in order. */
  function Filter<T(!new)>(s: seq<T>, p: T -> bool): (r: seq<T>)
    ensures |r| == Count(s, p)
    ensures forall x :: x in r <==> x in s && p(x)
  {
    if s == [] then [] else (if p(s[0]) then [s[0]] else []) + Filter(s[1..], p)
  }

  /** `s.filter(p).length`. */
  function Count<T>(s: seq<T>, p: T -> bool): (n: nat)
    ensures n <= |s|
  {
    if s == [] then 0 else (if p(s[0]) then 1 else 0) + Count(s[1..], p)
  }

  /** Filtering distributes over concatenation, so the result keeps the
      input order. */
  lemma {:induction false} FilterAppend<T(!new)>(a: seq<T>, b: seq<T>, p: T -> bool)
    ensures Filter(a + b, p) == Filter(a, p) + Filter(b, p)
  {
    if a == [] {
      assert a + b == b;
    } else {
      assert (a + b)[1..] == a[1..] + b;
      FilterAppend(a[1..], b, p);
    }
  }

  /** The head of a non-empty filter is the first element that passes. */
  lemma {:induction false} FilterHead<T(!new)>(s: seq<T>, p: T -> bool)
    requires Filter(s, p) != []
    ensures exists i :: 0 <= i < |s| && s[i] == Filter(s, p)[0] && p(s[i]) && forall j :: 0 <= j < i ==> !p(s[j])
  {
    if !p(s[0]) {
      FilterHead(s[1..], p);
      var i :| 0 <= i < |s[1..]| && s[1..][i] == Filter(s[1..], p)[0] && p(s[1..][i])
               && forall j :: 0 <= j < i ==> !p(s[1..][j]);
      assert s[i + 1] == Filter(s, p)[0];
      assert forall j :: 1 <= j < i + 1 ==> s[j] == s[1..][j - 1];
    }
  }

  /** Filtering keeps a sequence unchanged exactly when every element passes. */
  lemma {:induction false} FilterAllKept<T(!new)>(s: seq<T>, p: T -> bool)
    ensures Filter(s, p) == s <==> forall i :: 0 <= i < |s| ==> p(s[i])
  {
    if s != [] {
      FilterAllKept(s[1..], p);
      if !p(s[0]) {
        assert |Filter(s, p)| < |s|;
      }
    }
  }

  /** Filters by predicates that agree on the elements give the same
      result. */
  lemma {:induction false} FilterSame<T(!new)>(s: seq<T>, p: T -> bool, q: T -> bool)
    requires forall i :: 0 <= i < |s| ==> p(s[i]) == q(s[i])
    ensures Filter(s, p) == Filter(s, q)
  {
    if s != [] {
      FilterSame(s[1..], p, q);
    }
  }

  /** `Array.prototype.findIndex`, with `None` for -1. */
  function FindIndex<T>(s: seq<T>, p: T -> bool): (r: Option<nat>)
    ensures r.Some? ==> r.value < |s| && p(s[r.value]) && forall j :: 0 <= j < r.value ==> !p(s[j])
    ensures r.None? ==> forall j :: 0 <= j < |s| ==> !p(s[j])
  {
    if s == [] then None
    else if p(s[0]) then Some(0)
    else match FindIndex(s[1..], p)
      case None => None
      case Some(i) => Some(i + 1)
  }

  /** `Array.prototype.find`, with `None` for undefined: the first element
      satisfying `p`. */
  function Find<T>(s: seq<T>, p: T -> bool): (r: Option<T>)
    ensures r.None? <==> forall j :: 0 <= j < |s| ==> !p(s[j])
    ensures r.Some? ==> p(r.value) && exists i :: 0 <= i < |s| && s[i] == r.value && forall j :: 0 <= j < i ==> !p(s[j])
  {
    match FindIndex(s, p)
    case None => None
    case Some(i) => Some(s[i])
  }

  /** The number of elements whose `key` equals `v`. */
  function CountKey<T>(s: seq<T>, key: T -> string, v: string): (n: nat)
    ensures n <= |s|
  {
    if s == [] then 0 else (if key(s[0]) == v then 1 else 0) + CountKey(s[1..], key, v)
  }

  /** The sum of `CountKey` over a list of key values. */
  function SumCounts<T>(s: seq<T>, key: T -> string, vs: seq<string>): nat
  {
    if vs == [] then 0 else CountKey(s, key, vs[0]) + SumCounts(s, key, vs[1..])
  }

  predicate Distinct<T(==)>(s: seq<T>)
  {
    forall i, j :: 0 <= i < j < |s| ==> s[i] != s[j]
  }

  /** How many entries of `vs` equal `v`. */
  function Hits(vs: seq<string>, v: string): nat
  {
    if vs == [] then 0 else (if vs[0] == v then 1 else 0) + Hits(vs[1..], v)
  }

  lemma {:induction false} HitsDistinct(vs: seq<string>, v: string)
    requires Distinct(vs)
    ensures Hits(vs, v) <= 1
  {
    if vs != [] {
      HitsDistinct(vs[1..], v);
      if vs[0] == v {
        HitsAbsent(vs[1..], v);
      }
    }
  }

  lemma {:induction false} HitsAbsent(vs: seq<string>, v: string)
    requires v !in vs
    ensures Hits(vs, v) == 0
  {
    if vs != [] {
      HitsAbsent(vs[1..], v);
    }
  }

  lemma {:induction false} SumCountsStep<T>(s: seq<T>, key: T -> string, vs: seq<string>)
    requires s != []
    ensures SumCounts(s, key, vs) == Hits(vs, key(s[0])) + SumCounts(s[1..], key, vs)
  {
    if vs != [] {
      SumCountsStep(s, key, vs[1..]);
    }
  }

  lemma {:induction false} SumCountsEmpty<T>(key: T -> string, vs: seq<string>)
    ensures SumCounts([], key, vs) == 0
  {
    if vs != [] {
      SumCountsEmpty(key, vs[1..]);
    }
  }

  /** Counting the elements per distinct key value never counts an element
      twice, so the counts add up to at most the length. */
  lemma {:induction false} SumCountsBound<T>(s: seq<T>, key: T -> string, vs: seq<string>)
    requires Distinct(vs)
    ensures SumCounts(s, key, vs) <= |s|
  {
    if s == [] {
      SumCountsEmpty(key, vs);
    } else {
      SumCountsStep(s, key, vs);
      HitsDistinct(vs, key(s[0]));
      SumCountsBound(s[1..], key, vs);
    }
  }

  /** The sum over three key values, written out. */
  lemma SumCountsThree<T>(s: seq<T>, key: T -> string, a: string, b: string, c: string)
    ensures SumCounts(s, key, [a, b, c]) == CountKey(s, key, a) + CountKey(s, key, b) + CountKey(s, key, c)
  {
    assert [a, b, c][1..] == [b, c];
    assert [b, c][1..] == [c];
    assert [c][1..] == [];
    assert SumCounts(s, key, [c]) == CountKey(s, key, c) + SumCounts(s, key, []);
    assert SumCounts(s, key, [b, c]) == CountKey(s, key, b) + SumCounts(s, key, [c]);
  }

  /** The sum over five key values, written out. */
  lemma SumCountsFive<T>(s: seq<T>, key: T -> string, a: string, b: string, c: string, d: string, e: string)
    ensures SumCounts(s, key, [a, b, c, d, e])
         == CountKey(s, key, a) + CountKey(s, key, b) + CountKey(s, key, c) + CountKey(s, key, d) + CountKey(s, key, e)
  {
    assert [a, b, c, d, e][1..] == [b, c, d, e];
    SumCountsThree(s, key, c, d, e);
    assert [b, c, d, e][1..] == [c, d, e];
    assert SumCounts(s, key, [b, c, d, e]) == CountKey(s, key, b) + SumCounts(s, key, [c, d, e]);
  }

  predicate SortedDesc<T>(s: seq<T>, key: T -> int)
  {
    forall i, j :: 0 <= i < j < |s| ==> key(s[i]) >= key(s[j])
  }

  /** Insert `x` before the first element whose key is not larger, which
      keeps `x` ahead of the elements with an equal key. */
  function InsertDesc<T>(x: T, s: seq<T>, key: T -> int): (r: seq<T>)
    ensures |r| == |s| + 1
    ensures multiset(r) == multiset(s) + multiset{x}
  {
    if s == [] || key(x) >= key(s[0]) then
      [x] + s
    else
      assert s == [s[0]] + s[1..];
      [s[0]] + InsertDesc(x, s[1..], key)
  }

  lemma {:induction false} InsertDescSorted<T>(x: T, s: seq<T>, key: T -> int)
    requires SortedDesc(s, key)
    ensures SortedDesc(InsertDesc(x, s, key), key)
  {
    if s != [] && key(x) < key(s[0]) {
      var tail := s[1..];
      InsertDescSorted(x, tail, key);
      var rest := InsertDesc(x, tail, key);
      forall i | 0 <= i < |rest|
        ensures key(rest[i]) <= key(s[0])
      {
        assert rest[i] in multiset(rest);
        if rest[i] != x {
          assert rest[i] in multiset(tail);
          var j :| 0 <= j < |tail| && tail[j] == rest[i];
          assert s[j + 1] == rest[i];
        }
      }
    }
  }

  /** The elements of `s` whose key is `k`, in order. */
  function WithKey<T>(s: seq<T>, key: T -> int, k: int): seq<T>
  {
    if s == [] then [] else (if key(s[0]) == k then [s[0]] else []) + WithKey(s[1..], key, k)
  }

  lemma WithKeyCons<T>(y: T, t: seq<T>, key: T -> int, k: int)
    ensures WithKey([y] + t, key, k) == (if key(y) == k then [y] else []) + WithKey(t, key, k)
  {
    assert ([y] + t)[1..] == t;
  }

  /** Every element ahead of the inserted one has a strictly larger key,
      so among the elements with any one key the inserted one comes
      first. */
  lemma {:induction false} InsertDescStable<T>(x: T, s: seq<T>, key: T -> int, k: int)
    ensures WithKey(InsertDesc(x, s, key), key, k) == (if key(x) == k then [x] else []) + WithKey(s, key, k)
  {
    if s == [] || key(x) >= key(s[0]) {
      WithKeyCons(x, s, key, k);
    } else {
      var rest := InsertDesc(x, s[1..], key);
      var kept := if key(x) == k then [x] else [];
      var head := if key(s[0]) == k then [s[0]] else [];
      InsertDescStable(x, s[1..], key, k);
      assert InsertDesc(x, s, key) == [s[0]] + rest;
      WithKeyCons(s[0], rest, key, k);
      // x and s[0] have different keys, so at most one of them is kept
      if key(x) == k {
        assert head == [];
      } else {
        assert kept == [];
      }
    }
  }

  /** `Array.prototype.sort((a, b) => key(b) - key(a))`: descending by
      `key`, and stable: the elements with any one key keep their input
      order. */
  function SortDesc<T>(s: seq<T>, key: T -> int): (r: seq<T>)
    ensures |r| == |s|
    ensures multiset(r) == multiset(s)
    ensures SortedDesc(r, key)
    ensures forall k :: WithKey(r, key, k) == WithKey(s, key, k)
  {
    if s == [] then []
    else
      assert s == [s[0]] + s[1..];
      var sortedTail := SortDesc(s[1..], key);
      InsertDescSorted(s[0], sortedTail, key);
      assert forall k :: WithKey(InsertDesc(s[0], sortedTail, key), key, k) == WithKey(s, key, k) by {
        forall k ensures WithKey(InsertDesc(s[0], sortedTail, key), key, k) == WithKey(s, key, k) {
          InsertDescStable(s[0], sortedTail, key, k);
        }
      }
      InsertDesc(s[0], sortedTail, key)
  }

  /** The elements with one key in a prefix are a prefix of the elements
      with that key. */
  lemma {:induction false} WithKeyPrefix<T>(s: seq<T>, key: T -> int, n: nat, k: int)
    requires n <= |s|
    ensures WithKey(s[..n], key, k) <= WithKey(s, key, k)
  {
    if n > 0 {
      var t := s[..n];
      var head := if key(s[0]) == k then [s[0]] else [];
      WithKeyPrefix(s[1..], key, n - 1, k);
      assert t[0] == s[0];
      assert t[1..] == s[1..][..n - 1];
      PrefixAfter(head, WithKey(t[1..], key, k), WithKey(s[1..], key, k));
    }
  }

  lemma PrefixAfter<T>(h: seq<T>, a: seq<T>, b: seq<T>)
    requires a <= b
    ensures h + a <= h + b
  {
    assert (h + b)[..|h + a|] == h + a;
  }

  /** The first `n` of the sorted elements hold, for every key, the
      earliest of the input's elements with that key, in input order. */
  lemma SortPrefixStable<T>(s: seq<T>, key: T -> int, n: nat)
    requires n <= |s|
    ensures forall k :: WithKey(SortDesc(s, key)[..n], key, k) <= WithKey(s, key, k)
  {
    forall k ensures WithKey(SortDesc(s, key)[..n], key, k) <= WithKey(s, key, k) {
      WithKeyPrefix(SortDesc(s, key), key, n, k);
    }
  }

  /** The head of the sorted elements is the earliest of the input's
      elements with its key. */
  lemma SortHeadFirst<T>(s: seq<T>, key: T -> int)
    requires |s| > 0
    ensures var h := SortDesc(s, key)[0];
            && h in s
            && (forall x :: x in s ==> key(x) <= key(h))
            && |WithKey(s, key, key(h))| > 0 && WithKey(s, key, key(h))[0] == h
  {
    var sorted := SortDesc(s, key);
    assert sorted[0] in multiset(s);
    assert WithKey(sorted, key, key(sorted[0])) == WithKey(s, key, key(sorted[0]));
    forall x | x in s ensures key(x) <= key(sorted[0]) {
      assert x in multiset(sorted);
      var j :| 0 <= j < |sorted| && sorted[j] == x;
    }
  }

  /** In a descending sequence the first `n` elements are at least as
      large as every element after them. */
  lemma TopPrefix<T>(s: seq<T>, key: T -> int, n: nat)
    requires SortedDesc(s, key) && n <= |s|
    ensures forall x, y :: x in s[..n] && y in multiset(s) - multiset(s[..n]) ==> key(y) <= key(x)
  {
    assert s == s[..n] + s[n..];
    assert multiset(s) - multiset(s[..n]) == multiset(s[n..]);
    forall x, y | x in s[..n] && y in multiset(s) - multiset(s[..n])
      ensures key(y) <= key(x)
    {
      var i :| 0 <= i < n && s[..n][i] == x;
      assert y in s[n..];
      var j :| 0 <= j < |s| - n && s[n..][j] == y;
      assert s[i] == x && s[n + j] == y;
    }
  }

  /** `Array.prototype.slice(0, end)`: a negative end counts back from the
      length. */
  function SliceEnd(len: nat, end: int): (r: nat)
    ensures r <= len
    ensures end >= 0 ==> r == if end < len then end else len
    ensures end < 0 ==> r == if len + end > 0 then len + end else 0
  {
    if end < 0 then (if len + end > 0 then len + end else 0)
    else if end < len then end else len
  }
}
