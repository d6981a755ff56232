/** Integer sorting, as `sort.Ints` promises it, and why a sorted arrangement is unique. */
module Sorting {

  ghost predicate IsSorted(s: seq<int>) {
    forall i, j | 0 <= i < j < |s| :: s[i] <= s[j]
  }

  function Insert(x: int, s: seq<int>): (r: seq<int>)
    requires IsSorted(s)
    ensures IsSorted(r) && multiset(r) == multiset(s) + multiset{x}
  {
    if s == [] || x <= s[0] then [x] + s
    else
      var rest := Insert(x, s[1..]);
      InsertBelow(s[0], x, s, rest);
      [s[0]] + rest
  }

  lemma InsertBelow(least: int, x: int, s: seq<int>, rest: seq<int>)
    requires IsSorted(s) && s != [] && least == s[0] && least < x
    requires IsSorted(rest) && multiset(rest) == multiset(s[1..]) + multiset{x}
    ensures IsSorted([least] + rest) && multiset([least] + rest) == multiset(s) + multiset{x}
  {
    assert s == [least] + s[1..];
    forall i | 0 <= i < |rest|
      ensures least <= rest[i]
    {
      assert rest[i] in multiset(rest);
      assert rest[i] == x || rest[i] in s[1..];
    }
  }

  function Sort(s: seq<int>): (r: seq<int>)
    ensures IsSorted(r) && multiset(r) == multiset(s) && |r| == |s|
  {
    if s == [] then []
    else
      assert s == [s[0]] + s[1..];
      var r := Insert(s[0], Sort(s[1..]));
      assert |multiset(r)| == |r| && |multiset(s)| == |s|;
      r
  }

  /** Two sorted sequences with the same elements are the same sequence. */
  lemma {:induction false} SortedIsUnique(a: seq<int>, b: seq<int>)
    requires IsSorted(a) && IsSorted(b) && multiset(a) == multiset(b)
    ensures a == b
  {
    hide IsSorted;
    assert |multiset(a)| == |a| && |multiset(b)| == |b|;
    if a != [] {
      SameFirst(a, b);
      RestIsSorted(a);
      RestIsSorted(b);
      SortedIsUnique(a[1..], b[1..]);
      assert a == [a[0]] + a[1..] && b == [b[0]] + b[1..];
    }
  }

  lemma SameFirst(a: seq<int>, b: seq<int>)
    requires IsSorted(a) && IsSorted(b) && multiset(a) == multiset(b) && a != [] && b != []
    ensures a[0] == b[0]
  {
    assert a[0] in multiset(a) && b[0] in multiset(b);
    LeastIsFirst(a, b[0]);
    LeastIsFirst(b, a[0]);
  }

  lemma LeastIsFirst(s: seq<int>, x: int)
    requires s != [] && IsSorted(s)
    ensures x in multiset(s) ==> s[0] <= x
  {
  }

  lemma RestIsSorted(s: seq<int>)
    requires s != [] && IsSorted(s)
    ensures IsSorted(s[1..]) && multiset(s[1..]) == multiset(s) - multiset{s[0]}
  {
    assert s == [s[0]] + s[1..];
  }

  /** Sorted results agree exactly when the inputs agree as multisets. */
  lemma SortDecidesMultisetEquality(a: seq<int>, b: seq<int>)
    ensures Sort(a) == Sort(b) <==> multiset(a) == multiset(b)
  {
    if multiset(a) == multiset(b) {
      SortedIsUnique(Sort(a), Sort(b));
    }
  }

  lemma SortIsIdempotent(s: seq<int>)
    ensures Sort(Sort(s)) == Sort(s)
    ensures IsSorted(s) ==> Sort(s) == s
  {
    SortedIsUnique(Sort(Sort(s)), Sort(s));
    if IsSorted(s) {
      SortedIsUnique(Sort(s), s);
    }
  }

  /** Sorting what is collected so far, then appending and sorting again, is sorting once at the end. */
  lemma SortAfterEachRound(a: seq<int>, b: seq<int>)
    ensures Sort(Sort(a) + b) == Sort(a + b)
  {
    SortDecidesMultisetEquality(Sort(a) + b, a + b);
  }
}
