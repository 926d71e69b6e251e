/** The orderings the screens impose: a stable sort by a string key in
    descending order (`Array.prototype.sort` with
    `(a, b) => key(b).localeCompare(key(a))`), and de-duplicated sorted key
    lists for grouping. */
module Sorting {
  import opened Strings
  import opened Seqs

  /** `s` is ordered non-increasingly by `key`. */
  predicate SortedDescBy<T>(s: seq<T>, key: T -> string)
  {
    forall i, j :: 0 <= i < j < |s| ==> !Less(key(s[i]), key(s[j]))
  }

  lemma InsertAtHeadSorted<T>(xs: seq<T>, x: T, key: T -> string)
    requires SortedDescBy(xs, key)
    requires xs != [] && Less(key(xs[0]), key(x))
    ensures SortedDescBy([x] + xs, key)
  {
    var r := [x] + xs;
    forall i, j | 0 <= i < j < |r|
      ensures !Less(key(r[i]), key(r[j]))
    {
      if i == 0 {
        if j == 1 {
          LessAsymmetric(key(xs[0]), key(x));
        } else if Less(key(x), key(xs[j - 1])) {
          LessTransitive(key(xs[0]), key(x), key(xs[j - 1]));
        }
      }
    }
  }

  lemma InsertBehindHeadSorted<T>(xs: seq<T>, x: T, rest: seq<T>, key: T -> string)
    requires SortedDescBy(xs, key) && SortedDescBy(rest, key)
    requires xs != [] && !Less(key(xs[0]), key(x))
    requires multiset(rest) == multiset(xs[1..]) + multiset{x}
    ensures SortedDescBy([xs[0]] + rest, key)
  {
    var r := [xs[0]] + rest;
    forall i, j | 0 <= i < j < |r|
      ensures !Less(key(r[i]), key(r[j]))
    {
      if i == 0 {
        var y := rest[j - 1];
        assert y in multiset(rest);
        if y != x {
          assert y in multiset(xs[1..]);
          var k :| 0 <= k < |xs[1..]| && xs[1..][k] == y;
          assert xs[k + 1] == y;
        }
      }
    }
  }

  /** Inserts `x` behind every element whose key is not smaller, so that
      elements with equal keys keep their order of arrival. */
  function InsertDescBy<T>(xs: seq<T>, x: T, key: T -> string): (r: seq<T>)
    requires SortedDescBy(xs, key)
    ensures SortedDescBy(r, key)
    ensures multiset(r) == multiset(xs) + multiset{x}
    decreases |xs|
  {
    if xs == [] then [x]
    else if Less(key(xs[0]), key(x)) then
      InsertAtHeadSorted(xs, x, key);
      [x] + xs
    else
      var rest := InsertDescBy(xs[1..], x, key);
      InsertBehindHeadSorted(xs, x, rest, key);
      assert xs == [xs[0]] + xs[1..];
      [xs[0]] + rest
  }

  /** A stable sort of `s`, greatest key first. */
  function SortDescBy<T>(s: seq<T>, key: T -> string): (r: seq<T>)
    ensures SortedDescBy(r, key)
    ensures multiset(r) == multiset(s)
    decreases |s|
  {
    if s == [] then []
    else
      assert s == s[..|s| - 1] + [s[|s| - 1]];
      InsertDescBy(SortDescBy(s[..|s| - 1], key), s[|s| - 1], key)
  }

  /** Inserting keeps, per key value, the arrival order: `x` comes after
      every earlier element with the same key. */
  lemma {:induction false} InsertDescByStable<T>(xs: seq<T>, x: T, key: T -> string, k: string)
    requires SortedDescBy(xs, key)
    ensures Filter(InsertDescBy(xs, x, key), HasKey(key, k))
         == Filter(xs, HasKey(key, k)) + Filter([x], HasKey(key, k))
    decreases |xs|
  {
    var p := HasKey(key, k);
    if xs == [] {
    } else if Less(key(xs[0]), key(x)) {
      InsertAtHeadStable(xs, x, key, k);
    } else {
      InsertDescByStable(xs[1..], x, key, k);
      InsertBehindHeadStable(xs, x, key, k);
    }
  }

  lemma InsertAtHeadStable<T>(xs: seq<T>, x: T, key: T -> string, k: string)
    requires SortedDescBy(xs, key)
    requires xs != [] && Less(key(xs[0]), key(x))
    ensures Filter([x] + xs, HasKey(key, k)) == Filter(xs, HasKey(key, k)) + Filter([x], HasKey(key, k))
  {
    var p := HasKey(key, k);
    FilterAppend([x], xs, p);
    if key(x) == k {
      NewGreatestKeyIsFresh(xs, x, key, k);
      NoneMatch(xs, p);
    } else {
      assert Filter([x], p) == [];
    }
  }

  lemma InsertBehindHeadStable<T>(xs: seq<T>, x: T, key: T -> string, k: string)
    requires SortedDescBy(xs, key)
    requires xs != [] && !Less(key(xs[0]), key(x))
    requires Filter(InsertDescBy(xs[1..], x, key), HasKey(key, k))
          == Filter(xs[1..], HasKey(key, k)) + Filter([x], HasKey(key, k))
    ensures Filter(InsertDescBy(xs, x, key), HasKey(key, k))
         == Filter(xs, HasKey(key, k)) + Filter([x], HasKey(key, k))
  {
    assert [xs[0]] + xs[1..] == xs;
    var rest := InsertDescBy(xs[1..], x, key);
    assert InsertDescBy(xs, x, key) == [xs[0]] + rest;
    ConsFilterShift(xs[0], xs[1..], rest, x, HasKey(key, k));
  }

  lemma ConsFilterShift<T>(y: T, xs: seq<T>, rest: seq<T>, x: T, p: T -> bool)
    requires Filter(rest, p) == Filter(xs, p) + Filter([x], p)
    ensures Filter([y] + rest, p) == Filter([y] + xs, p) + Filter([x], p)
  {
    FilterAppend([y], rest, p);
    FilterAppend([y], xs, p);
  }

  /** A key above the head of a descending list occurs nowhere in it. */
  lemma NewGreatestKeyIsFresh<T>(xs: seq<T>, x: T, key: T -> string, k: string)
    requires SortedDescBy(xs, key)
    requires xs != [] && Less(key(xs[0]), key(x)) && key(x) == k
    ensures forall i :: 0 <= i < |xs| ==> !HasKey(key, k)(xs[i])
  {
    LessIrreflexive(k);
  }

  lemma {:induction false} NoneMatch<T>(s: seq<T>, p: T -> bool)
    requires forall i :: 0 <= i < |s| ==> !p(s[i])
    ensures Filter(s, p) == []
  {
    if s != [] {
      NoneMatch(s[1..], p);
    }
  }

  /** The sort is stable: the elements sharing a key appear in the same
      relative order as in the input. */
  lemma {:induction false} SortDescByStable<T>(s: seq<T>, key: T -> string, k: string)
    ensures Filter(SortDescBy(s, key), HasKey(key, k)) == Filter(s, HasKey(key, k))
    decreases |s|
  {
    if s != [] {
      var init, last := s[..|s| - 1], s[|s| - 1];
      assert s == init + [last];
      var p := HasKey(key, k);
      var sortedInit := SortDescBy(init, key);
      assert SortDescBy(s, key) == InsertDescBy(sortedInit, last, key);
      SortDescByStable(init, key, k);
      InsertDescByStable(sortedInit, last, key, k);
      FilterAppend(init, [last], p);
    }
  }

  predicate StrictlyAscending(s: seq<string>)
  {
    forall i, j :: 0 <= i < j < |s| ==> Less(s[i], s[j])
  }

  predicate StrictlyDescending(s: seq<int>)
  {
    forall i, j :: 0 <= i < j < |s| ==> s[i] > s[j]
  }

  /** Adds `k` to a strictly ascending list unless it is already there. */
  function InsertUnique(xs: seq<string>, k: string): (r: seq<string>)
    requires StrictlyAscending(xs)
    ensures StrictlyAscending(r)
    ensures forall y :: y in r <==> y in xs || y == k
    decreases |xs|
  {
    if xs == [] then [k]
    else if Less(k, xs[0]) then
      LessAfterHead(xs, k);
      [k] + xs
    else if k == xs[0] then xs
    else
      LessTotal(k, xs[0]);
      var rest := InsertUnique(xs[1..], k);
      forall j | 0 <= j < |rest|
        ensures Less(xs[0], rest[j])
      {
        if rest[j] != k {
          assert rest[j] in xs[1..];
          var m :| 0 <= m < |xs[1..]| && xs[1..][m] == rest[j];
          assert xs[m + 1] == rest[j];
        }
      }
      [xs[0]] + rest
  }

  lemma LessAfterHead(xs: seq<string>, k: string)
    requires StrictlyAscending(xs) && xs != [] && Less(k, xs[0])
    ensures StrictlyAscending([k] + xs)
  {
    forall j | 1 <= j < |xs|
      ensures Less(k, xs[j])
    {
      LessTransitive(k, xs[0], xs[j]);
    }
  }

  /** The distinct values of `s` in ascending order: what
      `Array.from(new Set(s)).sort()` produces. */
  function SortUnique(s: seq<string>): (r: seq<string>)
    ensures StrictlyAscending(r)
    ensures forall y :: y in r <==> y in s
    decreases |s|
  {
    if s == [] then []
    else
      var rest := SortUnique(s[..|s| - 1]);
      assert s == s[..|s| - 1] + [s[|s| - 1]];
      InsertUnique(rest, s[|s| - 1])
  }

  /** Reversing a strictly ascending list gives a strictly descending one. */
  lemma ReverseAscending(s: seq<string>)
    requires StrictlyAscending(s)
    ensures forall i, j :: 0 <= i < j < |s| ==> Less(Reverse(s)[j], Reverse(s)[i])
  {
  }

  /** Adds `k` to a strictly descending list of integers unless present. */
  function InsertUniqueDesc(xs: seq<int>, k: int): (r: seq<int>)
    requires StrictlyDescending(xs)
    ensures StrictlyDescending(r)
    ensures forall y :: y in r <==> y in xs || y == k
    decreases |xs|
  {
    if xs == [] then [k]
    else if k > xs[0] then [k] + xs
    else if k == xs[0] then xs
    else
      var rest := InsertUniqueDesc(xs[1..], k);
      forall j | 0 <= j < |rest|
        ensures xs[0] > rest[j]
      {
        if rest[j] != k {
          assert rest[j] in xs[1..];
          var m :| 0 <= m < |xs[1..]| && xs[1..][m] == rest[j];
          assert xs[m + 1] == rest[j];
        }
      }
      [xs[0]] + rest
  }

  /** The distinct values of `s`, greatest first. */
  function SortUniqueDesc(s: seq<int>): (r: seq<int>)
    ensures StrictlyDescending(r)
    ensures forall y :: y in r <==> y in s
    decreases |s|
  {
    if s == [] then []
    else
      var rest := SortUniqueDesc(s[..|s| - 1]);
      assert s == s[..|s| - 1] + [s[|s| - 1]];
      InsertUniqueDesc(rest, s[|s| - 1])
  }
}
