/** Sorting by a numeric key. The source leaves it to its library; equal keys may come out in any order. */
module Sorting {

  predicate SortedBy<T>(s: seq<T>, key: T -> nat) {
    forall i, j | 0 <= i < j < |s| :: key(s[i]) <= key(s[j])
  }

  lemma SortedConcat<T>(a: seq<T>, b: seq<T>, key: T -> nat)
    requires SortedBy(a, key) && SortedBy(b, key)
    requires forall i, j | 0 <= i < |a| && 0 <= j < |b| :: key(a[i]) <= key(b[j])
    ensures SortedBy(a + b, key)
  {
  }

  lemma InsertedIsSorted<T>(s: seq<T>, x: T, i: nat, key: T -> nat)
    requires SortedBy(s, key) && i <= |s|
    requires i > 0 ==> key(s[i - 1]) <= key(x)
    requires i < |s| ==> key(x) <= key(s[i])
    ensures SortedBy(s[..i] + [x] + s[i..], key)
  {
    SortedConcat(s[..i], [x], key);
    SortedConcat(s[..i] + [x], s[i..], key);
  }

  method InsertSorted<T>(s: seq<T>, x: T, key: T -> nat) returns (s': seq<T>)
    requires SortedBy(s, key)
    ensures SortedBy(s', key) && multiset(s') == multiset(s) + multiset{x}
  {
    var i := |s|;
    while i > 0 && key(s[i - 1]) > key(x)
      invariant 0 <= i <= |s|
      invariant i < |s| ==> key(s[i]) > key(x)
    {
      i := i - 1;
    }
    InsertedIsSorted(s, x, i, key);
    assert s == s[..i] + s[i..];
    s' := s[..i] + [x] + s[i..];
  }

  method Sort<T>(s: seq<T>, key: T -> nat) returns (sorted: seq<T>)
    ensures SortedBy(sorted, key) && multiset(sorted) == multiset(s)
  {
    sorted := [];
    var n := 0;
    while n < |s|
      invariant n <= |s| && SortedBy(sorted, key) && multiset(sorted) == multiset(s[..n])
    {
      sorted := InsertSorted(sorted, s[n], key);
      assert s[..n + 1] == s[..n] + [s[n]];
      n := n + 1;
    }
    assert s[..n] == s;
  }
}
