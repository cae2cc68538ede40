/** Ordering completion dates: `Vec::sort_by` on `completed_at`, ascending
    (oldest first) or descending (newest first). Only the dates matter to
    the streak engine, so the sorts are stated on sequences of dates. */
module Sorting {

  predicate IsSortedAsc(s: seq<int>) {
    forall i, j :: 0 <= i < j < |s| ==> s[i] <= s[j]
  }

  predicate IsSortedDesc(s: seq<int>) {
    forall i, j :: 0 <= i < j < |s| ==> s[i] >= s[j]
  }

  function Insert(x: int, s: seq<int>): (r: seq<int>)
    requires IsSortedAsc(s)
    ensures IsSortedAsc(r)
    ensures |r| == |s| + 1
    ensures forall i :: 0 <= i < |r| ==> r[i] == x || r[i] in s
  {
    if s == [] then [x]
    else if x <= s[0] then [x] + s
    else [s[0]] + Insert(x, s[1..])
  }

  lemma {:induction false} InsertMultiset(x: int, s: seq<int>)
    requires IsSortedAsc(s)
    ensures multiset(Insert(x, s)) == multiset(s) + multiset{x}
  {
    if s != [] && x > s[0] {
      InsertMultiset(x, s[1..]);
      assert s == [s[0]] + s[1..];
    }
  }

  /** Oldest first: a sorted permutation of the dates. */
  function SortAsc(s: seq<int>): (r: seq<int>)
    ensures IsSortedAsc(r)
    ensures multiset(r) == multiset(s)
    ensures |r| == |s|
  {
    if s == [] then []
    else
      assert s == [s[0]] + s[1..];
      InsertMultiset(s[0], SortAsc(s[1..]));
      Insert(s[0], SortAsc(s[1..]))
  }

  function Reverse(s: seq<int>): (r: seq<int>)
    ensures |r| == |s|
    ensures forall i :: 0 <= i < |s| ==> r[i] == s[|s| - 1 - i]
  {
    if s == [] then [] else Reverse(s[1..]) + [s[0]]
  }

  lemma {:induction false} ReverseMultiset(s: seq<int>)
    ensures multiset(Reverse(s)) == multiset(s)
  {
    if s != [] {
      ReverseMultiset(s[1..]);
      assert s == [s[0]] + s[1..];
    }
  }

  /** Newest first: the descending order `b.completed_at.cmp(&a.completed_at)` gives. */
  function SortDesc(s: seq<int>): (r: seq<int>)
    ensures IsSortedDesc(r)
    ensures multiset(r) == multiset(s)
    ensures |r| == |s|
  {
    ReverseMultiset(SortAsc(s));
    Reverse(SortAsc(s))
  }

  /** The first date of a newest-first order is the latest date. */
  lemma FirstIsLatest(s: seq<int>)
    requires |s| > 0
    ensures SortDesc(s)[0] in s
    ensures forall x :: x in s ==> x <= SortDesc(s)[0]
  {
    var r := SortDesc(s);
    assert r[0] in multiset(r);
    forall x | x in s
      ensures x <= r[0]
    {
      assert x in multiset(s);
      assert x in multiset(r);
      var i :| 0 <= i < |r| && r[i] == x;
      assert i == 0 || r[0] >= r[i];
    }
  }
}
