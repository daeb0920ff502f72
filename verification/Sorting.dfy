/** A stable insertion sort, by any total order on keys. */
module Sorting {
  /** Any two elements compare, and the comparison is transitive. */
  ghost predicate Orders<T(!new)>(atOrBefore: (T, T) -> bool) {
    && (forall a, b :: atOrBefore(a, b) || atOrBefore(b, a))
    && (forall a, b, c :: atOrBefore(a, b) && atOrBefore(b, c) ==> atOrBefore(a, c))
  }

  ghost predicate SortedBy<T>(s: seq<T>, atOrBefore: (T, T) -> bool) {
    forall i, j :: 0 <= i < j < |s| ==> atOrBefore(s[i], s[j])
  }

  /** `x` put after every element at or before it. */
  function Place<T>(s: seq<T>, x: T, atOrBefore: (T, T) -> bool): seq<T> {
    if s == [] || atOrBefore(s[|s|-1], x) then s + [x]
    else Place(s[..|s|-1], x, atOrBefore) + [s[|s|-1]]
  }

  lemma {:induction false} PlaceKeeps<T>(s: seq<T>, x: T, atOrBefore: (T, T) -> bool)
    ensures multiset(Place(s, x, atOrBefore)) == multiset(s) + multiset{x}
  {
    if !(s == [] || atOrBefore(s[|s|-1], x)) {
      PlaceKeeps(s[..|s|-1], x, atOrBefore);
      assert s == s[..|s|-1] + [s[|s|-1]];
    }
  }

  lemma {:induction false} PlaceSorts<T(!new)>(s: seq<T>, x: T, atOrBefore: (T, T) -> bool)
    requires Orders(atOrBefore) && SortedBy(s, atOrBefore)
    ensures SortedBy(Place(s, x, atOrBefore), atOrBefore)
    ensures forall y :: y in Place(s, x, atOrBefore) ==> y in s || y == x
  {
    if !(s == [] || atOrBefore(s[|s|-1], x)) {
      var k := |s| - 1;
      var init := Place(s[..k], x, atOrBefore);
      PlaceSorts(s[..k], x, atOrBefore);
      forall i | 0 <= i < |init| ensures atOrBefore(init[i], s[k]) { assert init[i] in init; }
    } else if s != [] {
      forall i | 0 <= i < |s| ensures atOrBefore(s[i], x) { assert i == |s| - 1 || atOrBefore(s[i], s[|s|-1]); }
    }
  }

  method Sort<T(!new)>(xs: seq<T>, atOrBefore: (T, T) -> bool) returns (sorted: seq<T>)
    requires Orders(atOrBefore)
    ensures SortedBy(sorted, atOrBefore) && multiset(sorted) == multiset(xs)
  {
    hide Place, Orders, SortedBy;
    sorted := [];
    NothingToSort(sorted, atOrBefore);
    for i := 0 to |xs|
      invariant SortedBy(sorted, atOrBefore) && multiset(sorted) == multiset(xs[..i])
    {
      PlaceKeeps(sorted, xs[i], atOrBefore);
      PlaceSorts(sorted, xs[i], atOrBefore);
      sorted := Place(sorted, xs[i], atOrBefore);
      assert xs[..i + 1] == xs[..i] + [xs[i]];
    }
    assert xs[..|xs|] == xs;
  }

  lemma NothingToSort<T>(s: seq<T>, atOrBefore: (T, T) -> bool)
    requires s == []
    ensures SortedBy(s, atOrBefore)
  {
  }

  /** A permutation has the same elements. */
  lemma SameElements<T>(a: seq<T>, b: seq<T>)
    requires multiset(a) == multiset(b)
    ensures |a| == |b| && forall x :: x in a <==> x in b
  {
    assert |multiset(a)| == |a| && |multiset(b)| == |b|;
    forall x ensures x in a <==> x in b { assert x in multiset(a) <==> x in multiset(b); }
  }

  ghost predicate NoRepeats<T>(s: seq<T>) {
    forall i, j :: 0 <= i < j < |s| ==> s[i] != s[j]
  }

  /** The elements of a set, in some order. */
  method Listed<T(==)>(elements: set<T>) returns (list: seq<T>)
    ensures NoRepeats(list) && |list| == |elements| && forall x :: x in list <==> x in elements
  {
    list := [];
    var rest := elements;
    while rest != {}
      invariant NoRepeats(list) && |list| + |rest| == |elements|
      invariant forall x :: x in elements <==> x in list || x in rest
      invariant forall x :: x in list ==> x !in rest
      decreases |rest|
    {
      var x :| x in rest;
      list, rest := list + [x], rest - {x};
    }
  }

  lemma PermutedRepeats<T>(a: seq<T>, b: seq<T>)
    requires NoRepeats(a) && multiset(a) == multiset(b)
    ensures NoRepeats(b)
  {
    forall i, j | 0 <= i < j < |b| ensures b[i] != b[j] {
      if b[i] == b[j] {
        Twice(b, i, j);
        Once(a, b[i]);
      }
    }
  }

  lemma Twice<T>(s: seq<T>, i: nat, j: nat)
    requires i < j < |s| && s[i] == s[j]
    ensures multiset(s)[s[i]] >= 2
  {
    assert s == s[..j] + [s[j]] + s[j + 1..];
    assert s[i] in s[..j];
    assert multiset(s) == multiset(s[..j]) + multiset{s[j]} + multiset(s[j + 1..]);
  }

  lemma {:induction false} Once<T>(s: seq<T>, x: T)
    requires NoRepeats(s)
    ensures multiset(s)[x] <= 1
  {
    if s != [] {
      var k := |s| - 1;
      Once(s[..k], x);
      assert s == s[..k] + [s[k]];
      assert s[k] == x ==> x !in s[..k];
    }
  }
}
