/** Sequence helpers shared by the ledger folds: filter, map, reverse,
    de-duplication, sums and the lemmas that make them compose. */
module Seqs {

  /** The elements of `s` that satisfy `p`, in their original order
      (JavaScript's `Array.prototype.filter`). */
  function Filter<T>(s: seq<T>, p: T -> bool): (r: seq<T>)
    ensures |r| <= |s|
    ensures forall i :: 0 <= i < |r| ==> r[i] in s && p(r[i])
    ensures forall i :: 0 <= i < |s| && p(s[i]) ==> s[i] in r
  {
    if s == [] then [] else (if p(s[0]) then [s[0]] else []) + Filter(s[1..], p)
  }

  /** Membership in a filtered sequence, by value. */
  lemma FilterMembership<T>(s: seq<T>, p: T -> bool)
    ensures forall y :: y in Filter(s, p) <==> y in s && p(y)
  {
    forall y | y in s && p(y)
      ensures y in Filter(s, p)
    {
      var i :| 0 <= i < |s| && s[i] == y;
    }
  }

  /** `Array.prototype.map`. */
  function Map<T, U>(s: seq<T>, f: T -> U): (r: seq<U>)
    ensures |r| == |s|
    ensures forall i :: 0 <= i < |s| ==> r[i] == f(s[i])
  {
    seq(|s|, i requires 0 <= i < |s| => f(s[i]))
  }

  /** `Array.prototype.reverse` on a copy. */
  function Reverse<T>(s: seq<T>): (r: seq<T>)
    ensures |r| == |s|
    ensures forall i :: 0 <= i < |s| ==> r[i] == s[|s| - 1 - i]
  {
    if s == [] then [] else Reverse(s[1..]) + [s[0]]
  }

  /** The first `n` elements, or all of them when there are fewer
      (`Array.prototype.slice(0, n)`). */
  function Take<T>(s: seq<T>, n: nat): (r: seq<T>)
    ensures |r| == if |s| < n then |s| else n
    ensures forall i :: 0 <= i < |r| ==> r[i] == s[i]
  {
    if |s| <= n then s else s[..n]
  }

  function Elems<T>(s: seq<T>): set<T>
  {
    set x | x in s
  }

  predicate Distinct<T(==)>(s: seq<T>)
  {
    forall i, j :: 0 <= i < j < |s| ==> s[i] != s[j]
  }

  /** The position of the first occurrence of `x` (`Array.prototype.indexOf`). */
  function IndexOf<T(==)>(s: seq<T>, x: T): (i: nat)
    requires x in s
    ensures i < |s| && s[i] == x
    ensures forall j :: 0 <= j < i ==> s[j] != x
  {
    if s[0] == x then 0 else 1 + IndexOf(s[1..], x)
  }

  /** The values of `s` without repetitions, each at the place of its first
      occurrence: what `Array.from(new Set(s))` yields. */
  function Dedupe<T(==)>(s: seq<T>): (r: seq<T>)
    ensures Distinct(r)
    ensures forall i :: 0 <= i < |r| ==> r[i] in s
    ensures forall i :: 0 <= i < |s| ==> s[i] in r
    ensures forall i, j :: 0 <= i < j < |r| ==> IndexOf(s, r[i]) < IndexOf(s, r[j])
  {
    if s == [] then []
    else
      var init := s[..|s| - 1];
      var d := Dedupe(init);
      assert s == init + [s[|s| - 1]];
      DedupeStep(init, s[|s| - 1], d);
      if s[|s| - 1] in d then d else d + [s[|s| - 1]]
  }

  /** `r` lists the values of `s` once each, in order of first occurrence. */
  predicate DedupedFrom<T(==)>(s: seq<T>, r: seq<T>)
  {
    && Distinct(r)
    && (forall i :: 0 <= i < |r| ==> r[i] in s)
    && (forall i :: 0 <= i < |s| ==> s[i] in r)
    && (forall i, j :: 0 <= i < j < |r| ==> IndexOf(s, r[i]) < IndexOf(s, r[j]))
  }

  /** One step of `Dedupe`: a de-duplication of `init`, extended by `x` when
      `x` is new, is a de-duplication of `init + [x]`. */
  lemma DedupeStep<T>(init: seq<T>, x: T, d: seq<T>)
    requires DedupedFrom(init, d)
    ensures DedupedFrom(init + [x], if x in d then d else d + [x])
  {
    if x in d {
      DedupeStepSeen(init, x, d);
    } else {
      DedupeStepNew(init, x, d);
    }
  }

  lemma DedupeStepSeen<T>(init: seq<T>, x: T, d: seq<T>)
    requires DedupedFrom(init, d) && x in d
    ensures DedupedFrom(init + [x], d)
  {
    var s := init + [x];
    forall y | y in init
      ensures IndexOf(s, y) == IndexOf(init, y)
    {
      IndexOfUnique(s, y, IndexOf(init, y));
    }
    forall i | 0 <= i < |s|
      ensures s[i] in d
    {
      if i < |init| {
        assert s[i] == init[i];
      }
    }
  }

  lemma DedupeStepNew<T>(init: seq<T>, x: T, d: seq<T>)
    requires DedupedFrom(init, d) && x !in d
    ensures DedupedFrom(init + [x], d + [x])
  {
    var s, r := init + [x], d + [x];
    assert x !in init;
    forall y | y in init
      ensures IndexOf(s, y) == IndexOf(init, y)
    {
      IndexOfUnique(s, y, IndexOf(init, y));
    }
    IndexOfUnique(s, x, |init|);
    forall i | 0 <= i < |s|
      ensures s[i] in r
    {
      if i < |init| {
        assert s[i] == init[i];
      }
    }
    forall i, j | 0 <= i < j < |r|
      ensures r[i] in s && r[j] in s && IndexOf(s, r[i]) < IndexOf(s, r[j])
    {
      assert r[i] == d[i];
      if j < |d| {
        assert r[j] == d[j];
      }
    }
  }

  /** A position holding `x` with no earlier `x` is the first occurrence. */
  lemma {:induction false} IndexOfUnique<T>(s: seq<T>, x: T, k: nat)
    requires k < |s| && s[k] == x
    requires forall j :: 0 <= j < k ==> s[j] != x
    ensures IndexOf(s, x) == k
  {
    if k > 0 {
      IndexOfUnique(s[1..], x, k - 1);
    }
  }

  lemma IndexOfPrefix<T>(p: seq<T>, q: seq<T>)
    ensures forall x :: x in p ==> IndexOf(p + q, x) == IndexOf(p, x)
    ensures forall x :: x !in p && x in q ==> IndexOf(p + q, x) == |p| + IndexOf(q, x)
  {
    forall x | x in p
      ensures IndexOf(p + q, x) == IndexOf(p, x)
    {
      IndexOfUnique(p + q, x, IndexOf(p, x));
    }
    forall x | x !in p && x in q
      ensures IndexOf(p + q, x) == |p| + IndexOf(q, x)
    {
      var k := IndexOf(q, x);
      forall j | 0 <= j < |p| + k
        ensures (p + q)[j] != x
      {
        if j >= |p| {
          assert (p + q)[j] == q[j - |p|];
        }
      }
      IndexOfUnique(p + q, x, |p| + k);
    }
  }

  /** The sum of `f` over `s`, folded from the left as `reduce` does. */
  function Sum<T>(s: seq<T>, f: T -> real): real
  {
    if s == [] then 0.0 else f(s[0]) + Sum(s[1..], f)
  }

  lemma SumSingleton<T>(x: T, f: T -> real)
    ensures Sum([x], f) == f(x)
  {
    assert [x][1..] == [];
  }

  /** The integer version of `Sum`, for minute counts. */
  function IntSum<T>(s: seq<T>, f: T -> int): int
  {
    if s == [] then 0 else f(s[0]) + IntSum(s[1..], f)
  }

  /** The number of elements satisfying `p`. */
  function Count<T>(s: seq<T>, p: T -> bool): nat
  {
    |Filter(s, p)|
  }

  lemma {:induction false} FilterAppend<T>(a: seq<T>, b: seq<T>, p: T -> bool)
    ensures Filter(a + b, p) == Filter(a, p) + Filter(b, p)
  {
    if a == [] {
      assert a + b == b;
    } else {
      assert (a + b)[1..] == a[1..] + b;
      FilterAppend(a[1..], b, p);
    }
  }

  lemma {:induction false} FilterMultiplicity<T>(s: seq<T>, p: T -> bool, x: T)
    ensures multiset(Filter(s, p))[x] == if p(x) then multiset(s)[x] else 0
  {
    if s != [] {
      assert s == [s[0]] + s[1..];
      FilterMultiplicity(s[1..], p, x);
    }
  }

  /** `r` can be obtained from `s` by deleting elements: the elements of `r`
      occur in `s` in the same order. */
  predicate IsSubsequence<T(==)>(r: seq<T>, s: seq<T>)
    decreases |s|
  {
    r == [] || (s != [] && ((r[0] == s[0] && IsSubsequence(r[1..], s[1..])) || IsSubsequence(r, s[1..])))
  }

  /** Filtering only deletes: what it keeps stays in order. */
  lemma {:induction false} FilterSubsequence<T>(s: seq<T>, p: T -> bool)
    ensures IsSubsequence(Filter(s, p), s)
  {
    if s != [] {
      var r, rest := Filter(s, p), Filter(s[1..], p);
      FilterSubsequence(s[1..], p);
      if p(s[0]) {
        assert r == [s[0]] + rest;
        assert r[0] == s[0] && r[1..] == rest;
      } else {
        assert r == rest;
      }
    }
  }

  /** Filtering commutes with permutation. */
  lemma FilterPermutation<T>(a: seq<T>, b: seq<T>, p: T -> bool)
    requires multiset(a) == multiset(b)
    ensures multiset(Filter(a, p)) == multiset(Filter(b, p))
  {
    forall x
      ensures multiset(Filter(a, p))[x] == multiset(Filter(b, p))[x]
    {
      FilterMultiplicity(a, p, x);
      FilterMultiplicity(b, p, x);
    }
  }

  /** Filtering twice is filtering by the conjunction, in either order. */
  lemma {:induction false} FilterCommute<T>(s: seq<T>, p: T -> bool, q: T -> bool)
    ensures Filter(Filter(s, p), q) == Filter(Filter(s, q), p)
  {
    if s != [] {
      FilterCommute(s[1..], p, q);
      var h := [s[0]];
      if p(s[0]) {
        FilterAppend(h, Filter(s[1..], p), q);
      } else {
        assert Filter(s, p) == Filter(s[1..], p);
      }
      if q(s[0]) {
        FilterAppend(h, Filter(s[1..], q), p);
      } else {
        assert Filter(s, q) == Filter(s[1..], q);
      }
    }
  }

  lemma ReverseMembership<T>(s: seq<T>)
    ensures forall y :: y in Reverse(s) <==> y in s
  {
    forall y | y in s
      ensures y in Reverse(s)
    {
      var i :| 0 <= i < |s| && s[i] == y;
      assert Reverse(s)[|s| - 1 - i] == y;
    }
  }

  lemma {:induction false} ReverseAppend<T>(a: seq<T>, b: seq<T>)
    ensures Reverse(a + b) == Reverse(b) + Reverse(a)
  {
  }

  lemma {:induction false} SumAppend<T>(a: seq<T>, b: seq<T>, f: T -> real)
    ensures Sum(a + b, f) == Sum(a, f) + Sum(b, f)
  {
    if a == [] {
      assert a + b == b;
    } else {
      assert (a + b)[1..] == a[1..] + b;
      SumAppend(a[1..], b, f);
    }
  }

  lemma {:induction false} IntSumAppend<T>(a: seq<T>, b: seq<T>, f: T -> int)
    ensures IntSum(a + b, f) == IntSum(a, f) + IntSum(b, f)
  {
    if a == [] {
      assert a + b == b;
    } else {
      assert (a + b)[1..] == a[1..] + b;
      IntSumAppend(a[1..], b, f);
    }
  }

  /** Summing `f` over the elements that satisfy `p`, when those terms are
      never negative: the sum is at least each of them. */
  lemma {:induction false} IntSumFilterBounds<T>(s: seq<T>, p: T -> bool, f: T -> int)
    requires forall i :: 0 <= i < |s| && p(s[i]) ==> f(s[i]) >= 0
    ensures IntSum(Filter(s, p), f) >= 0
    ensures forall i :: 0 <= i < |s| && p(s[i]) ==> f(s[i]) <= IntSum(Filter(s, p), f)
  {
    if s != [] {
      var rest := s[1..];
      IntSumFilterStep(s, p, f);
      IntSumFilterBounds(rest, p, f);
      forall i | 1 <= i < |s| && p(s[i])
        ensures f(s[i]) <= IntSum(Filter(s, p), f)
      {
        assert s[i] == rest[i - 1];
      }
    }
  }

  /** ... and the sum is 0 exactly when each of them is. */
  lemma {:induction false} IntSumFilterZero<T>(s: seq<T>, p: T -> bool, f: T -> int)
    requires forall i :: 0 <= i < |s| && p(s[i]) ==> f(s[i]) >= 0
    ensures IntSum(Filter(s, p), f) == 0 <==> forall i :: 0 <= i < |s| && p(s[i]) ==> f(s[i]) == 0
  {
    if s != [] {
      var rest := s[1..];
      IntSumFilterStep(s, p, f);
      IntSumFilterBounds(rest, p, f);
      IntSumFilterZero(rest, p, f);
      if forall i :: 0 <= i < |rest| && p(rest[i]) ==> f(rest[i]) == 0 {
        forall i | 1 <= i < |s| && p(s[i])
          ensures f(s[i]) == 0
        {
          assert s[i] == rest[i - 1];
        }
      }
    }
  }

  /** The first element's share of a filtered sum, and the hypothesis of the
      lemmas above passed on to the rest. */
  lemma IntSumFilterStep<T>(s: seq<T>, p: T -> bool, f: T -> int)
    requires s != []
    requires forall i :: 0 <= i < |s| && p(s[i]) ==> f(s[i]) >= 0
    ensures IntSum(Filter(s, p), f) == (if p(s[0]) then f(s[0]) else 0) + IntSum(Filter(s[1..], p), f)
    ensures forall i :: 0 <= i < |s[1..]| && p(s[1..][i]) ==> f(s[1..][i]) >= 0
    ensures forall i :: 0 <= i < |s[1..]| ==> s[1..][i] == s[i + 1]
  {
    if p(s[0]) {
      assert Filter(s, p)[1..] == Filter(s[1..], p);
    } else {
      assert Filter(s, p) == Filter(s[1..], p);
    }
  }

  /** A sum does not depend on the order of its terms. */
  lemma {:induction false} SumPermutation<T>(a: seq<T>, b: seq<T>, f: T -> real)
    requires multiset(a) == multiset(b)
    ensures Sum(a, f) == Sum(b, f)
    decreases |a|
  {
    if a == [] {
      assert |multiset(b)| == 0;
    } else {
      var x := a[0];
      assert x in multiset(b);
      var i :| 0 <= i < |b| && b[i] == x;
      var rest := b[..i] + b[i + 1..];
      assert b == b[..i] + [x] + b[i + 1..];
      assert a == [x] + a[1..];
      assert multiset(rest) == multiset(b) - multiset{x};
      SumPermutation(a[1..], rest, f);
      SumAppend(b[..i], b[i + 1..], f);
      SumAppend(b[..i] + [x], b[i + 1..], f);
      SumAppend(b[..i], [x], f);
    }
  }

  /** `Sum` over a filtered sequence does not depend on the order of the input. */
  lemma SumFilterPermutation<T>(a: seq<T>, b: seq<T>, p: T -> bool, f: T -> real)
    requires multiset(a) == multiset(b)
    ensures Sum(Filter(a, p), f) == Sum(Filter(b, p), f)
  {
    FilterPermutation(a, b, p);
    SumPermutation(Filter(a, p), Filter(b, p), f);
  }

  lemma {:induction false} SumNonNegative<T>(s: seq<T>, f: T -> real)
    requires forall i :: 0 <= i < |s| ==> f(s[i]) >= 0.0
    ensures Sum(s, f) >= 0.0
  {
    if s != [] {
      SumNonNegative(s[1..], f);
    }
  }

  /** Pointwise `total == a + b + c + d` lifts to the sums. */
  lemma {:induction false} SumSplit4<T>(s: seq<T>, total: T -> real, a: T -> real, b: T -> real, c: T -> real, d: T -> real)
    requires forall i :: 0 <= i < |s| ==> total(s[i]) == a(s[i]) + b(s[i]) + c(s[i]) + d(s[i])
    ensures Sum(s, total) == Sum(s, a) + Sum(s, b) + Sum(s, c) + Sum(s, d)
  {
    if s != [] {
      SumSplit4(s[1..], total, a, b, c, d);
    }
  }

  /** Pointwise `total == a + b + c` lifts to the sums. */
  lemma {:induction false} SumSplit3<T>(s: seq<T>, total: T -> real, a: T -> real, b: T -> real, c: T -> real)
    requires forall i :: 0 <= i < |s| ==> total(s[i]) == a(s[i]) + b(s[i]) + c(s[i])
    ensures Sum(s, total) == Sum(s, a) + Sum(s, b) + Sum(s, c)
  {
    if s != [] {
      SumSplit3(s[1..], total, a, b, c);
    }
  }

  /** The largest value of `f` over a non-empty sequence (`Math.max(...)`). */
  function MaxOf<T>(s: seq<T>, f: T -> real): (m: real)
    requires |s| > 0
    ensures forall i :: 0 <= i < |s| ==> f(s[i]) <= m
    ensures exists i :: 0 <= i < |s| && f(s[i]) == m
  {
    if |s| == 1 then f(s[0])
    else
      var rest := MaxOf(s[1..], f);
      assert forall i :: 1 <= i < |s| ==> s[i] == s[1..][i - 1];
      if f(s[0]) >= rest then f(s[0]) else rest
  }

  /** The smallest value of `f` over a non-empty sequence. */
  function MinOf<T>(s: seq<T>, f: T -> real): (m: real)
    requires |s| > 0
    ensures forall i :: 0 <= i < |s| ==> m <= f(s[i])
    ensures exists i :: 0 <= i < |s| && f(s[i]) == m
  {
    if |s| == 1 then f(s[0])
    else
      var rest := MinOf(s[1..], f);
      assert forall i :: 1 <= i < |s| ==> s[i] == s[1..][i - 1];
      if f(s[0]) <= rest then f(s[0]) else rest
  }

  /** `n` copies of `c` added up. */
  function Scaled(n: nat, c: real): real
  {
    n as real * c
  }

  /** If no term exceeds `c`, the sum is at most `|s| * c`. */
  lemma {:induction false} SumAtMost<T>(s: seq<T>, f: T -> real, c: real)
    requires forall i :: 0 <= i < |s| ==> f(s[i]) <= c
    ensures Sum(s, f) <= Scaled(|s|, c)
  {
    if s != [] {
      SumAtMost(s[1..], f, c);
    }
  }

  /** If no term is below `c`, the sum is at least `|s| * c`. */
  lemma {:induction false} SumAtLeast<T>(s: seq<T>, f: T -> real, c: real)
    requires forall i :: 0 <= i < |s| ==> f(s[i]) >= c
    ensures Sum(s, f) >= Scaled(|s|, c)
  {
    if s != [] {
      SumAtLeast(s[1..], f, c);
    }
  }

  /** The mean of a non-empty sequence lies between its least and greatest
      term. */
  lemma MeanBetween<T>(s: seq<T>, f: T -> real)
    requires |s| > 0
    ensures MinOf(s, f) <= Sum(s, f) / |s| as real <= MaxOf(s, f)
  {
    SumAtMost(s, f, MaxOf(s, f));
    SumAtLeast(s, f, MinOf(s, f));
    MeanBounds(Sum(s, f), |s|, MinOf(s, f), MaxOf(s, f));
  }

  lemma MeanBounds(total: real, n: nat, lo: real, hi: real)
    requires n > 0 && Scaled(n, lo) <= total <= Scaled(n, hi)
    ensures lo <= total / n as real <= hi
  {
    var m := n as real;
    var q := total / m;
    assert q * m == total;
    assert m * lo <= m * q;
    assert m * q <= m * hi;
  }

  /** Terms that are zero can be filtered out of a sum. */
  lemma {:induction false} SumDropZeros<T>(s: seq<T>, p: T -> bool, f: T -> real)
    requires forall i :: 0 <= i < |s| ==> !p(s[i]) ==> f(s[i]) == 0.0
    ensures Sum(Filter(s, p), f) == Sum(s, f)
  {
    if s != [] {
      SumDropZeros(s[1..], p, f);
      if p(s[0]) {
        assert Filter(s, p) == [s[0]] + Filter(s[1..], p);
        SumAppend([s[0]], Filter(s[1..], p), f);
      } else {
        assert Filter(s, p) == Filter(s[1..], p);
      }
    }
  }

  /** A distinct sequence has as many elements as its set. */
  lemma {:induction false} DistinctCardinality<T>(s: seq<T>)
    requires Distinct(s)
    ensures |Elems(s)| == |s|
  {
    if s != [] {
      var t := s[1..];
      assert Distinct(t);
      DistinctCardinality(t);
      assert Elems(s) == Elems(t) + {s[0]};
      forall k | 0 <= k < |t|
        ensures t[k] != s[0]
      {
        assert t[k] == s[k + 1];
      }
    }
  }

  /** The predicate "the key of `x` is `k`", as a function value. */
  function HasKey<T, K(==)>(key: T -> K, k: K): T -> bool
  {
    x => key(x) == k
  }

  /** For each key in `ks`, the sum of `f` over the elements having that key. */
  function SumPerKey<T, K(==)>(ks: seq<K>, s: seq<T>, key: T -> K, f: T -> real): real
  {
    if ks == [] then 0.0 else Sum(Filter(s, HasKey(key, ks[0])), f) + SumPerKey(ks[1..], s, key, f)
  }

  /** For each key in `ks`, the number of elements having that key. */
  function CountPerKey<T, K(==)>(ks: seq<K>, s: seq<T>, key: T -> K): nat
  {
    if ks == [] then 0 else Count(s, HasKey(key, ks[0])) + CountPerKey(ks[1..], s, key)
  }

  /** Grouping by a key loses and duplicates nothing: over distinct keys that
      cover every element, the per-key sums add up to the whole sum. */
  lemma {:induction false} PartitionSum<T, K>(ks: seq<K>, s: seq<T>, key: T -> K, f: T -> real)
    requires Distinct(ks)
    requires forall x :: x in s ==> key(x) in ks
    ensures SumPerKey(ks, s, key, f) == Sum(s, f)
    decreases |s|
  {
    if s == [] {
      PerKeyOfEmpty(ks, s, key, f);
    } else {
      PerKeyStep(ks, s, key, f);
      PartitionSum(ks, s[1..], key, f);
    }
  }

  lemma {:induction false} PerKeyOfEmpty<T, K>(ks: seq<K>, s: seq<T>, key: T -> K, f: T -> real)
    requires s == []
    ensures SumPerKey(ks, s, key, f) == 0.0
    ensures CountPerKey(ks, s, key) == 0
  {
    if ks != [] {
      PerKeyOfEmpty(ks[1..], s, key, f);
    }
  }

  /** Removing the head of `s` removes `f(s[0])` from exactly the one key it has. */
  lemma {:induction false} PerKeyStep<T, K>(ks: seq<K>, s: seq<T>, key: T -> K, f: T -> real)
    requires s != []
    requires Distinct(ks)
    ensures key(s[0]) in ks ==> SumPerKey(ks, s, key, f) == f(s[0]) + SumPerKey(ks, s[1..], key, f)
    ensures key(s[0]) !in ks ==> SumPerKey(ks, s, key, f) == SumPerKey(ks, s[1..], key, f)
    ensures key(s[0]) in ks ==> CountPerKey(ks, s, key) == 1 + CountPerKey(ks, s[1..], key)
    ensures key(s[0]) !in ks ==> CountPerKey(ks, s, key) == CountPerKey(ks, s[1..], key)
  {
    if ks != [] {
      assert Distinct(ks[1..]);
      PerKeyStep(ks[1..], s, key, f);
      var p := HasKey(key, ks[0]);
      assert p(s[0]) <==> key(s[0]) == ks[0];
      if p(s[0]) {
        assert Filter(s, p) == [s[0]] + Filter(s[1..], p);
        SumAppend([s[0]], Filter(s[1..], p), f);
        assert Sum(Filter(s, p), f) == f(s[0]) + Sum(Filter(s[1..], p), f);
        forall k | 0 <= k < |ks| - 1
          ensures ks[1..][k] != key(s[0])
        {
          assert ks[1..][k] == ks[k + 1];
        }
        assert key(s[0]) !in ks[1..];
      } else {
        assert Filter(s, p) == Filter(s[1..], p);
      }
    }
  }

  /** The per-key counts over distinct covering keys add up to the length. */
  lemma {:induction false} PartitionCount<T, K>(ks: seq<K>, s: seq<T>, key: T -> K)
    requires Distinct(ks)
    requires forall x :: x in s ==> key(x) in ks
    ensures CountPerKey(ks, s, key) == |s|
    decreases |s|
  {
    var f: T -> real := _ => 0.0;
    if s == [] {
      PerKeyOfEmpty(ks, s, key, f);
    } else {
      PerKeyStep(ks, s, key, f);
      PartitionCount(ks, s[1..], key);
    }
  }
}
