/** The three edits the application makes to its stored lists of launches
    and work sessions: append a record, replace the records carrying an id
    by a new version, and drop the records carrying an id. */
module Collections {
  import opened Seqs

  /** Every record carrying `x`'s id becomes `x`; the others stay where
      they are (`list.map(e => e.id === x.id ? x : e)`). */
  function ReplaceById<T>(s: seq<T>, id: T -> string, x: T): (r: seq<T>)
    ensures |r| == |s|
    ensures forall i :: 0 <= i < |s| && id(s[i]) == id(x) ==> r[i] == x
    ensures forall i :: 0 <= i < |s| && id(s[i]) != id(x) ==> r[i] == s[i]
  {
    Map(s, (e: T) => if id(e) == id(x) then x else e)
  }

  /** `r` is `s` with exactly the records whose id is `k` taken out: the
      survivors keep their order, every other record stays as often as it
      occurs in `s`, and no record with that id is left. */
  ghost predicate Without<T(!new)>(r: seq<T>, s: seq<T>, id: T -> string, k: string)
  {
    && IsSubsequence(r, s)
    && forall x :: multiset(r)[x] == if id(x) != k then multiset(s)[x] else 0
  }

  /** The records whose id is not `k`, in their order
      (`list.filter(e => e.id !== k)`). */
  function RemoveById<T(!new)>(s: seq<T>, id: T -> string, k: string): (r: seq<T>)
    ensures forall i :: 0 <= i < |r| ==> id(r[i]) != k && r[i] in s
    ensures forall i :: 0 <= i < |s| && id(s[i]) != k ==> s[i] in r
    ensures Without(r, s, id, k)
  {
    FilterWithout(s, id, k);
    Filter(s, (e: T) => id(e) != k)
  }

  /** Filtering by id takes out exactly the records with that id. */
  lemma FilterWithout<T(!new)>(s: seq<T>, id: T -> string, k: string)
    ensures Without(Filter(s, (e: T) => id(e) != k), s, id, k)
  {
    var p := (e: T) => id(e) != k;
    FilterSubsequence(s, p);
    forall x
      ensures multiset(Filter(s, p))[x] == if id(x) != k then multiset(s)[x] else 0
    {
      FilterMultiplicity(s, p, x);
    }
  }

  /** Replacing keeps the list of ids, position by position. */
  lemma ReplaceKeepsIds<T>(s: seq<T>, id: T -> string, x: T)
    ensures Map(ReplaceById(s, id, x), id) == Map(s, id)
  {
  }

  /** Replacing with an id nobody carries changes nothing. */
  lemma ReplaceUnknownId<T>(s: seq<T>, id: T -> string, x: T)
    requires forall i :: 0 <= i < |s| ==> id(s[i]) != id(x)
    ensures ReplaceById(s, id, x) == s
  {
  }

  /** Replacing twice with the same record is replacing once. */
  lemma ReplaceIdempotent<T>(s: seq<T>, id: T -> string, x: T)
    ensures ReplaceById(ReplaceById(s, id, x), id, x) == ReplaceById(s, id, x)
  {
  }

  /** Removing drops exactly the records with that id: the count of the
      survivors is the length less the matching ones. */
  lemma {:induction false} RemoveCount<T(!new)>(s: seq<T>, id: T -> string, k: string)
    ensures |RemoveById(s, id, k)| + Count(s, HasKey(id, k)) == |s|
  {
    if s != [] {
      RemoveCount(s[1..], id, k);
    }
  }

  /** Removing an id nobody carries changes nothing. */
  lemma {:induction false} RemoveUnknownId<T(!new)>(s: seq<T>, id: T -> string, k: string)
    requires forall i :: 0 <= i < |s| ==> id(s[i]) != k
    ensures RemoveById(s, id, k) == s
  {
    if s != [] {
      RemoveUnknownId(s[1..], id, k);
    }
  }

  /** Removing the id of a record just appended with a fresh id gives back
      the list as it was before the append. */
  lemma RemoveUndoesAppend<T(!new)>(s: seq<T>, id: T -> string, x: T)
    requires forall i :: 0 <= i < |s| ==> id(s[i]) != id(x)
    ensures RemoveById(s + [x], id, id(x)) == s
  {
    var p := (e: T) => id(e) != id(x);
    FilterAppend(s, [x], p);
    RemoveUnknownId(s, id, id(x));
  }

  /** Removing is a filter, so a property every record had before holds of
      every survivor. */
  lemma RemoveKeeps<T(!new)>(s: seq<T>, id: T -> string, k: string, p: T -> bool)
    requires forall i :: 0 <= i < |s| ==> p(s[i])
    ensures forall i :: 0 <= i < |RemoveById(s, id, k)| ==> p(RemoveById(s, id, k)[i])
  {
    var r := RemoveById(s, id, k);
    forall i | 0 <= i < |r|
      ensures p(r[i])
    {
      var j :| 0 <= j < |s| && s[j] == r[i];
    }
  }
}
