/** Sorting: a stable insertion sort for any total preorder, and the order of strings by code point. */
module Ordering {
  import opened Basics

  ghost predicate TotalPreorder<T(!new)>(le: (T, T) -> bool) {
    && (forall a, b :: le(a, b) || le(b, a))
    && (forall a, b, c :: le(a, b) && le(b, c) ==> le(a, c))
  }

  ghost predicate Antisymmetric<T(!new)>(le: (T, T) -> bool) {
    forall a, b :: le(a, b) && le(b, a) ==> a == b
  }

  ghost predicate Sorted<T>(le: (T, T) -> bool, s: seq<T>) {
    forall i, j :: 0 <= i < j < |s| ==> le(s[i], s[j])
  }

  /** Puts x after everything that is not greater than it. */
  function Insert<T>(le: (T, T) -> bool, x: T, s: seq<T>): seq<T> {
    if s == [] then [x]
    else if le(s[|s| - 1], x) then s + [x]
    else Insert(le, x, s[..|s| - 1]) + [s[|s| - 1]]
  }

  function Sort<T>(le: (T, T) -> bool, s: seq<T>): seq<T> {
    if s == [] then [] else Insert(le, s[|s| - 1], Sort(le, s[..|s| - 1]))
  }

  lemma {:induction false} InsertKeepsElements<T>(le: (T, T) -> bool, x: T, s: seq<T>)
    ensures multiset(Insert(le, x, s)) == multiset(s) + multiset{x}
    ensures |Insert(le, x, s)| == |s| + 1
  {
    if s == [] || le(s[|s| - 1], x) {
      assert Insert(le, x, s) == s + [x];
    } else {
      var init, last := s[..|s| - 1], s[|s| - 1];
      InsertKeepsElements(le, x, init);
      assert s == init + [last];
      assert Insert(le, x, s) == Insert(le, x, init) + [last];
    }
  }

  lemma InsertBelow<T>(le: (T, T) -> bool, x: T, s: seq<T>, top: T)
    requires le(x, top) && forall i :: 0 <= i < |s| ==> le(s[i], top)
    ensures forall i :: 0 <= i < |Insert(le, x, s)| ==> le(Insert(le, x, s)[i], top)
  {
    var r := Insert(le, x, s);
    InsertKeepsElements(le, x, s);
    forall i | 0 <= i < |r| ensures le(r[i], top) {
      assert r[i] in multiset(r);
      assert r[i] == x || r[i] in multiset(s);
    }
  }

  lemma SortedAppend<T>(le: (T, T) -> bool, s: seq<T>, top: T)
    requires Sorted(le, s) && forall i :: 0 <= i < |s| ==> le(s[i], top)
    ensures Sorted(le, s + [top])
  {
  }

  lemma {:induction false} InsertSorts<T(!new)>(le: (T, T) -> bool, x: T, s: seq<T>)
    requires TotalPreorder(le) && Sorted(le, s)
    ensures Sorted(le, Insert(le, x, s))
  {
    if s == [] {
      assert Insert(le, x, s) == [x];
    } else {
      var init, last := s[..|s| - 1], s[|s| - 1];
      if le(last, x) {
        assert forall i :: 0 <= i < |init| ==> le(s[i], last);
        SortedAppend(le, s, x);
      } else {
        InsertSorts(le, x, init);
        InsertBelow(le, x, init, last);
        SortedAppend(le, Insert(le, x, init), last);
      }
    }
  }

  lemma {:induction false} SortIsSorted<T(!new)>(le: (T, T) -> bool, s: seq<T>)
    requires TotalPreorder(le)
    ensures Sorted(le, Sort(le, s)) && multiset(Sort(le, s)) == multiset(s) && |Sort(le, s)| == |s|
  {
    if s != [] {
      var n := |s| - 1;
      SortIsSorted(le, s[..n]);
      InsertSorts(le, s[n], Sort(le, s[..n]));
      InsertKeepsElements(le, s[n], Sort(le, s[..n]));
      assert s == s[..n] + [s[n]];
    }
  }

  /** Sorting is stable enough to leave a sorted list as it is. */
  lemma {:induction false} SortOfSorted<T>(le: (T, T) -> bool, s: seq<T>)
    requires Sorted(le, s)
    ensures Sort(le, s) == s
  {
    if s != [] {
      var n := |s| - 1;
      SortOfSorted(le, s[..n]);
      assert n > 0 ==> le(s[n - 1], s[n]);
      assert s == s[..n] + [s[n]];
    }
  }

  lemma LastIsGreatest<T>(le: (T, T) -> bool, s: seq<T>, x: T)
    requires Sorted(le, s) && x in s
    ensures x == s[|s| - 1] || le(x, s[|s| - 1])
  {
  }

  lemma SameLast<T(!new)>(le: (T, T) -> bool, a: seq<T>, b: seq<T>)
    requires Antisymmetric(le) && Sorted(le, a) && Sorted(le, b) && multiset(a) == multiset(b) && a != []
    ensures |a| == |b| && a[|a| - 1] == b[|b| - 1]
  {
    assert |multiset(a)| == |a| && |multiset(b)| == |b|;
    var x, y := a[|a| - 1], b[|b| - 1];
    assert x in multiset(b) && y in multiset(a);
    LastIsGreatest(le, b, x);
    LastIsGreatest(le, a, y);
  }

  lemma SortedPrefix<T>(le: (T, T) -> bool, s: seq<T>)
    requires Sorted(le, s) && s != []
    ensures Sorted(le, s[..|s| - 1])
    ensures multiset(s[..|s| - 1]) == multiset(s) - multiset{s[|s| - 1]}
  {
    assert s == s[..|s| - 1] + [s[|s| - 1]];
  }

  lemma SamePrefixSameLast<T>(a: seq<T>, b: seq<T>)
    requires a != [] && b != [] && a[..|a| - 1] == b[..|b| - 1] && a[|a| - 1] == b[|b| - 1]
    ensures a == b
  {
    assert a == a[..|a| - 1] + [a[|a| - 1]] && b == b[..|b| - 1] + [b[|b| - 1]];
  }

  /** A sorted list is determined by its elements: the order they arrived in does not matter. */
  lemma {:induction false} SortedIsUnique<T(!new)>(le: (T, T) -> bool, a: seq<T>, b: seq<T>)
    requires Antisymmetric(le) && Sorted(le, a) && Sorted(le, b) && multiset(a) == multiset(b)
    ensures a == b
  {
    assert |multiset(a)| == |a| && |multiset(b)| == |b|;
    if a != [] {
      SameLast(le, a, b);
      SortedPrefix(le, a);
      SortedPrefix(le, b);
      SortedIsUnique(le, a[..|a| - 1], b[..|b| - 1]);
      SamePrefixSameLast(a, b);
    }
  }

  // ----- strings -----

  /** Lexicographic order by code point. */
  predicate StringLe(a: string, b: string) {
    if a == "" then true
    else if b == "" then false
    else a[0] < b[0] || (a[0] == b[0] && StringLe(a[1..], b[1..]))
  }

  lemma {:induction false} StringLeTotal(a: string, b: string)
    ensures StringLe(a, b) || StringLe(b, a)
    ensures StringLe(a, b) && StringLe(b, a) ==> a == b
    decreases |a|
  {
    if a != "" && b != "" {
      StringLeTotal(a[1..], b[1..]);
      assert a == [a[0]] + a[1..] && b == [b[0]] + b[1..];
    }
  }

  lemma {:induction false} StringLeTransitive(a: string, b: string, c: string)
    requires StringLe(a, b) && StringLe(b, c)
    ensures StringLe(a, c)
    decreases |a|
  {
    if a != "" && a[0] == b[0] && b[0] == c[0] { StringLeTransitive(a[1..], b[1..], c[1..]); }
  }

  lemma StringOrder()
    ensures TotalPreorder(StringLe) && Antisymmetric(StringLe)
  {
    forall a, b ensures (StringLe(a, b) || StringLe(b, a)) && (StringLe(a, b) && StringLe(b, a) ==> a == b) {
      StringLeTotal(a, b);
    }
    forall a, b, c | StringLe(a, b) && StringLe(b, c) ensures StringLe(a, c) { StringLeTransitive(a, b, c); }
  }

  function SortStrings(s: seq<string>): seq<string> {
    Sort(StringLe, s)
  }

  lemma SortedStrings(s: seq<string>)
    ensures Sorted(StringLe, SortStrings(s)) && multiset(SortStrings(s)) == multiset(s)
    ensures |SortStrings(s)| == |s| && forall x :: x in SortStrings(s) <==> x in s
  {
    StringOrder();
    SortIsSorted(StringLe, s);
    forall x ensures x in SortStrings(s) <==> x in s {
      assert x in s <==> x in multiset(s);
      assert x in SortStrings(s) <==> x in multiset(SortStrings(s));
    }
  }

  /** Two orders of arrival, one sorted list. */
  lemma SortIgnoresArrival(a: seq<string>, b: seq<string>)
    requires multiset(a) == multiset(b)
    ensures SortStrings(a) == SortStrings(b)
  {
    SortedStrings(a);
    SortedStrings(b);
    StringOrder();
    SortedIsUnique(StringLe, SortStrings(a), SortStrings(b));
  }

  lemma DistinctSort(s: seq<string>)
    requires Distinct(s)
    ensures Distinct(SortStrings(s))
  {
    SortedStrings(s);
    DistinctCounts(s);
    MultisetDistinct(SortStrings(s));
  }
}
