/** The quick launch form: the carousel of known stores (most recent
    first), its search, the canonical spelling of a typed store name and the
    income launch the form submits. */
module QuickLaunch {
  import opened Types
  import opened Seqs
  import opened Strings
  import opened Calculations

  /** The store names of the incomes, in list order. */
  function IncomeStoreNames(entries: seq<Entry>): seq<string>
  {
    Map(Incomes(entries), StoreOf)
  }

  /** The position of the last occurrence of `x`. */
  function LastIndexOf<T(==)>(s: seq<T>, x: T): (i: nat)
    requires x in s
    ensures i < |s| && s[i] == x
    ensures forall j :: i < j < |s| ==> s[j] != x
    decreases |s|
  {
    if s[|s| - 1] == x then |s| - 1 else LastIndexOf(s[..|s| - 1], x)
  }

  /** Reading a sequence backwards, the first occurrence of `x` is its last
      occurrence in the original. */
  lemma IndexOfReverse<T>(s: seq<T>, x: T)
    requires x in s
    ensures x in Reverse(s)
    ensures IndexOf(Reverse(s), x) == |s| - 1 - LastIndexOf(s, x)
  {
    var r := Reverse(s);
    var last := LastIndexOf(s, x);
    var k := |s| - 1 - last;
    assert r[k] == s[last];
    forall j | 0 <= j < k
      ensures r[j] != x
    {
      assert r[j] == s[|s| - 1 - j];
      assert last < |s| - 1 - j;
    }
    IndexOfUnique(r, x, k);
  }

  /** A name is among the incomes' store names iff some income carries it. */
  lemma IncomeStoreNamesMembership(entries: seq<Entry>)
    ensures forall y :: y in IncomeStoreNames(entries) <==>
      exists i :: 0 <= i < |entries| && IsIncome(entries[i]) && entries[i].storeName == y
  {
    var names := IncomeStoreNames(entries);
    FilterMembership(entries, IsIncome);
    forall y | y in names
      ensures exists i :: 0 <= i < |entries| && IsIncome(entries[i]) && entries[i].storeName == y
    {
      var k :| 0 <= k < |names| && names[k] == y;
      var i :| 0 <= i < |entries| && entries[i] == Incomes(entries)[k];
    }
    forall i | 0 <= i < |entries| && IsIncome(entries[i])
      ensures entries[i].storeName in names
    {
      var k :| 0 <= k < |Incomes(entries)| && Incomes(entries)[k] == entries[i];
      assert names[k] == entries[i].storeName;
    }
  }

  /** `r` lists names of `names` by their last occurrence, latest first. */
  predicate LatestFirst(names: seq<string>, r: seq<string>)
  {
    forall i, j :: 0 <= i < j < |r| ==>
      r[i] in names && r[j] in names && LastIndexOf(names, r[i]) > LastIndexOf(names, r[j])
  }

  /** De-duplicating the reversed names orders them latest first. */
  lemma LatestFirstOrder(names: seq<string>)
    ensures LatestFirst(names, Dedupe(Reverse(names)))
  {
    var r := Dedupe(Reverse(names));
    ReverseMembership(names);
    forall i, j | 0 <= i < j < |r|
      ensures r[i] in names && r[j] in names && LastIndexOf(names, r[i]) > LastIndexOf(names, r[j])
    {
      IndexOfReverse(names, r[i]);
      IndexOfReverse(names, r[j]);
    }
  }

  /** De-duplicating keeps exactly the values. */
  lemma DedupeMembership(s: seq<string>)
    ensures forall y :: y in Dedupe(s) <==> y in s
  {
    var r := Dedupe(s);
    forall y | y in r
      ensures y in s
    {
      var i :| 0 <= i < |r| && r[i] == y;
    }
    forall y | y in s
      ensures y in r
    {
      var i :| 0 <= i < |s| && s[i] == y;
    }
  }

  /** The carousel: each store name of an income once, the store of the
      latest income first (`new Set(names.reverse())`). */
  function AllStores(entries: seq<Entry>): (r: seq<string>)
    ensures Distinct(r)
    ensures forall y :: y in r <==> y in IncomeStoreNames(entries)
    ensures LatestFirst(IncomeStoreNames(entries), r)
  {
    var names := IncomeStoreNames(entries);
    ReverseMembership(names);
    LatestFirstOrder(names);
    DedupeMembership(Reverse(names));
    Dedupe(Reverse(names))
  }

  /** The latest income's store leads the carousel. */
  lemma LatestStoreFirst(entries: seq<Entry>, e: Entry)
    requires IsIncome(e)
    ensures AllStores(entries + [e]) != []
    ensures AllStores(entries + [e])[0] == e.storeName
  {
    var es := entries + [e];
    var names := IncomeStoreNames(es);
    FilterAppend(entries, [e], IsIncome);
    assert names[|names| - 1] == e.storeName;
    var r := AllStores(es);
    assert e.storeName in r;
    assert LastIndexOf(names, e.storeName) == |names| - 1;
    forall j | 0 < j < |r|
      ensures r[j] != e.storeName
    {
      assert LastIndexOf(names, r[0]) > LastIndexOf(names, r[j]);
    }
  }

  /** Filtering a sequence without repetitions keeps it without
      repetitions. */
  lemma {:induction false} FilterKeepsDistinct<T>(s: seq<T>, p: T -> bool)
    requires Distinct(s)
    ensures Distinct(Filter(s, p))
  {
    if s != [] {
      FilterKeepsDistinct(s[1..], p);
      assert s[0] !in s[1..];
      assert s[0] !in Filter(s[1..], p);
    }
  }

  /** The elements of `r` come from `s` in the order `s` has them. */
  predicate KeepsOrder<T(==)>(s: seq<T>, r: seq<T>)
  {
    forall i, j :: 0 <= i < j < |r| ==> r[i] in s && r[j] in s && IndexOf(s, r[i]) < IndexOf(s, r[j])
  }

  /** An element after the head is found one place further in the whole. */
  lemma IndexOfTail<T>(s: seq<T>, x: T)
    requires s != [] && x in s[1..] && x != s[0]
    ensures IndexOf(s, x) == 1 + IndexOf(s[1..], x)
  {
  }

  /** An order kept relative to the tail is kept relative to the whole,
      one place later. */
  lemma ShiftOrder<T>(s: seq<T>, r: seq<T>)
    requires s != [] && s[0] !in s[1..] && KeepsOrder(s[1..], r)
    requires forall x :: x in r ==> x in s[1..]
    ensures KeepsOrder(s, r)
    ensures forall x :: x in r ==> x != s[0] && IndexOf(s, x) >= 1
  {
    forall x | x in r
      ensures x != s[0] && IndexOf(s, x) == 1 + IndexOf(s[1..], x)
    {
      IndexOfTail(s, x);
    }
  }

  /** Putting the head in front of an order kept after it keeps it. */
  lemma ConsOrder<T>(s: seq<T>, r: seq<T>)
    requires s != [] && KeepsOrder(s, r)
    requires forall x :: x in r ==> x in s && IndexOf(s, x) >= 1
    ensures KeepsOrder(s, [s[0]] + r)
  {
    var r' := [s[0]] + r;
    forall i, j | 0 <= i < j < |r'|
      ensures r'[i] in s && r'[j] in s && IndexOf(s, r'[i]) < IndexOf(s, r'[j])
    {
      assert r'[j] == r[j - 1];
      if i > 0 {
        assert r'[i] == r[i - 1];
      }
    }
  }

  /** Filtering a sequence without repetitions keeps the relative order of
      what it keeps. */
  lemma {:induction false} FilterKeepsOrder<T>(s: seq<T>, p: T -> bool)
    requires Distinct(s)
    ensures KeepsOrder(s, Filter(s, p))
  {
    if s != [] {
      var rest := Filter(s[1..], p);
      FilterKeepsOrder(s[1..], p);
      assert s[0] !in s[1..];
      ShiftOrder(s, rest);
      if p(s[0]) {
        assert Filter(s, p) == [s[0]] + rest;
        ConsOrder(s, rest);
      } else {
        assert Filter(s, p) == rest;
      }
    }
  }

  function Matches(query: string): string -> bool
  {
    (s: string) => Contains(Lower(s), Lower(query))
  }

  /** The carousel under the search box: all stores for a blank query,
      otherwise the stores containing the query, ignoring case, in the
      carousel's order. The test
      uses the query as typed; only the blank check trims it. */
  function FilteredStores(entries: seq<Entry>, query: string): (r: seq<string>)
    ensures Trim(query) == [] ==> r == AllStores(entries)
    ensures Trim(query) != [] ==> forall y :: y in r <==> y in AllStores(entries) && Contains(Lower(y), Lower(query))
    ensures Distinct(r)
    ensures KeepsOrder(AllStores(entries), r)
  {
    var all := AllStores(entries);
    if Trim(query) == [] then
      SelfOrder(all);
      all
    else
      FilterMembership(all, Matches(query));
      FilterKeepsDistinct(all, Matches(query));
      FilterKeepsOrder(all, Matches(query));
      Filter(all, Matches(query))
  }

  /** A sequence without repetitions lists itself in its own order. */
  lemma SelfOrder<T>(s: seq<T>)
    requires Distinct(s)
    ensures KeepsOrder(s, s)
  {
    forall i, j | 0 <= i < j < |s|
      ensures s[i] in s && s[j] in s && IndexOf(s, s[i]) < IndexOf(s, s[j])
    {
      IndexOfUnique(s, s[i], i);
      IndexOfUnique(s, s[j], j);
    }
  }

  /** The first store equal to `t` up to case. */
  function FindIgnoringCase(all: seq<string>, t: string): (m: Option<string>)
    ensures m.Some? ==> m.value in all && Lower(m.value) == Lower(t)
    ensures m.None? <==> forall i :: 0 <= i < |all| ==> Lower(all[i]) != Lower(t)
  {
    if all == [] then None
    else if Lower(all[0]) == Lower(t) then Some(all[0])
    else FindIgnoringCase(all[1..], t)
  }

  /** The store name a launch is saved under: the typed name trimmed, or
      the spelling of a known store equal to it up to case (an empty known
      name is falsy and left alone, to the same effect). */
  function CanonicalName(all: seq<string>, typed: string): (r: string)
    ensures Lower(r) == Lower(Trim(typed))
    ensures r == Trim(typed) || r in all
    ensures (exists i :: 0 <= i < |all| && Lower(all[i]) == Lower(Trim(typed))) ==> r in all || r == []
    ensures (forall i :: 0 <= i < |all| ==> Lower(all[i]) != Lower(Trim(typed))) ==> r == Trim(typed)
  {
    var t := Trim(typed);
    var m := FindIgnoringCase(all, t);
    if m.Some? && m.value != [] then m.value else t
  }

  /** Lower-casing neither creates nor removes white space at the ends. */
  lemma LowerKeepsEnds(a: string, b: string)
    requires Lower(a) == Lower(b)
    requires b == [] || (!IsSpace(b[0]) && !IsSpace(b[|b| - 1]))
    ensures a == [] || (!IsSpace(a[0]) && !IsSpace(a[|a| - 1]))
  {
    if a != [] {
      assert Lower(a)[0] == LowerChar(a[0]) && Lower(b)[0] == LowerChar(b[0]);
      assert Lower(a)[|a| - 1] == LowerChar(a[|a| - 1]) && Lower(b)[|b| - 1] == LowerChar(b[|b| - 1]);
    }
  }

  lemma TrimUnspaced(s: string)
    requires s == [] || (!IsSpace(s[0]) && !IsSpace(s[|s| - 1]))
    ensures Trim(s) == s
  {
    assert TrimStart(s) == s;
    assert TrimEnd(s) == s;
  }

  /** Canonicalising a canonical name changes nothing. */
  lemma CanonicalIdempotent(all: seq<string>, typed: string)
    ensures CanonicalName(all, CanonicalName(all, typed)) == CanonicalName(all, typed)
  {
    var t := Trim(typed);
    var m := FindIgnoringCase(all, t);
    var c := CanonicalName(all, typed);
    assert c == (if m.Some? && m.value != [] then m.value else t);
    LowerKeepsEnds(c, t);
    TrimUnspaced(c);
    FindDependsOnLower(all, c, t);
  }

  lemma {:induction false} FindDependsOnLower(all: seq<string>, a: string, b: string)
    requires Lower(a) == Lower(b)
    ensures FindIgnoringCase(all, a) == FindIgnoringCase(all, b)
  {
    if all != [] {
      FindDependsOnLower(all[1..], a, b);
    }
  }

  /** The launch the form submits: nothing for an amount that does not
      parse or is not positive; otherwise an income under the canonical
      store name, with no km and no fuel price. */
  function HandleSubmit(id: string, entries: seq<Entry>, amount: Field, storeName: string, date: string,
                        time: string, paymentMethod: Payment, config: AppConfig): (r: Option<Entry>)
    ensures r.Some? <==> PositiveField(amount)
    ensures r.Some? ==> IsIncome(r.value) && r.value.grossAmount == amount.v
    ensures r.Some? ==> r.value.kmDriven == None && r.value.fuelPrice == None
    ensures r.Some? ==> r.value.paymentMethod == Some(paymentMethod)
    ensures r.Some? ==>
      var c := CanonicalName(AllStores(entries), storeName);
      r.value.storeName == (if c == [] then "Geral" else c)
  {
    if !PositiveField(amount) then None
    else Some(CalculateDailyEntry(id, amount.v, date, time, CanonicalName(AllStores(entries), storeName),
                                  config, None, None, Some(paymentMethod)))
  }

  /** Adding an income under a store the carousel already shows leaves
      the carousel's set of stores as it was. */
  lemma KnownStoreKeepsStores(entries: seq<Entry>, e: Entry)
    requires IsIncome(e) && e.storeName in AllStores(entries)
    ensures forall y :: y in AllStores(entries + [e]) <==> y in AllStores(entries)
  {
    var names := IncomeStoreNames(entries);
    IncomeNamesAppend(entries, e);
    forall y
      ensures y in AllStores(entries + [e]) <==> y in AllStores(entries)
    {
      assert y in names + [e.storeName] <==> y in names;
    }
  }

  /** An income adds its store name at the end of the names. */
  lemma IncomeNamesAppend(entries: seq<Entry>, e: Entry)
    requires IsIncome(e)
    ensures IncomeStoreNames(entries + [e]) == IncomeStoreNames(entries) + [e.storeName]
  {
    FilterAppend(entries, [e], IsIncome);
  }

  /** Typing a known store in another case or with surrounding blanks adds
      no new store to the carousel. */
  lemma KnownStoreAddsNoStore(id: string, entries: seq<Entry>, amount: Field, storeName: string, date: string,
                              time: string, paymentMethod: Payment, config: AppConfig, k: nat)
    requires PositiveField(amount)
    requires k < |AllStores(entries)| && AllStores(entries)[k] != []
    requires Lower(AllStores(entries)[k]) == Lower(Trim(storeName))
    ensures var e := HandleSubmit(id, entries, amount, storeName, date, time, paymentMethod, config).value;
      forall y :: y in AllStores(entries + [e]) <==> y in AllStores(entries)
  {
    var all := AllStores(entries);
    var e := HandleSubmit(id, entries, amount, storeName, date, time, paymentMethod, config).value;
    var t := Trim(storeName);
    assert |all[k]| == |Lower(t)|;
    var c := CanonicalName(all, storeName);
    assert c in all || c == [];
    assert |c| == |Lower(t)|;
    assert e.storeName == c;
    KnownStoreKeepsStores(entries, e);
  }
}
