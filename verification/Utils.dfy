/** `controllers/utils.go`: the namespace filter and the in-place slice comparison. */
module Utils {
  import opened Sorting

  /** The names of `names` that are not denied, in order and with repetitions. */
  function Allowed(names: seq<string>, denied: seq<string>): (r: seq<string>)
    ensures forall x :: x in r <==> x in names && x !in denied
    ensures (forall i, j | 0 <= i < j < |names| :: names[i] != names[j])
        ==> (forall i, j | 0 <= i < j < |r| :: r[i] != r[j])
  {
    if names == [] then []
    else
      assert names == names[..|names| - 1] + [names[|names| - 1]];
      var init, last := Allowed(names[..|names| - 1], denied), names[|names| - 1];
      if last in denied then init else init + [last]
  }

  lemma AllowedLast(names: seq<string>, last: string, denied: seq<string>)
    ensures Allowed(names + [last], denied) == Allowed(names, denied) + if last in denied then [] else [last]
  {
    assert (names + [last])[..|names|] == names;
  }

  /** Each name is kept or dropped by itself, so order and repetitions stay. */
  lemma {:induction false} AllowedOneByOne(a: seq<string>, b: seq<string>, denied: seq<string>)
    ensures Allowed(a + b, denied) == Allowed(a, denied) + Allowed(b, denied)
    ensures |a| == 1 ==> Allowed(a, denied) == if a[0] in denied then [] else a
    decreases |b|
  {
    hide Allowed;
    NothingAllowed(denied);
    if b == [] {
      assert a + b == a;
    } else {
      var init, last := b[..|b| - 1], b[|b| - 1];
      assert b == init + [last] && a + b == a + init + [last];
      AllowedOneByOne(a, init, denied);
      AllowedLast(init, last, denied);
      AllowedLast(a + init, last, denied);
    }
    if |a| == 1 {
      assert a == [] + [a[0]];
      AllowedLast([], a[0], denied);
    }
  }

  lemma NothingAllowed(denied: seq<string>)
    ensures Allowed([], denied) == []
  {
  }

  method Contains(s: seq<string>, str: string) returns (found: bool)
    ensures found <==> str in s
  {
    for i := 0 to |s|
      invariant str !in s[..i]
    {
      if s[i] == str {
        return true;
      }
    }
    return false;
  }

  method Filter(namespaces: seq<string>, deniedNamespaces: seq<string>) returns (filtered: seq<string>)
    ensures filtered == Allowed(namespaces, deniedNamespaces)
  {
    filtered := [];
    for i := 0 to |namespaces|
      invariant filtered == Allowed(namespaces[..i], deniedNamespaces)
    {
      assert namespaces[..i + 1][..i] == namespaces[..i];
      var denied := Contains(deniedNamespaces, namespaces[i]);
      if !denied {
        filtered := filtered + [namespaces[i]];
      }
    }
    assert namespaces[..|namespaces|] == namespaces;
  }

  /** `sort.Ints`: a library routine, known only by its effect on the slice. */
  method SortInts(a: array<int>)
    modifies a
    ensures a[..] == Sort(old(a[..]))
  {
    var sorted := Sort(a[..]);
    for i := 0 to a.Length
      invariant a[..i] == sorted[..i]
    {
      a[i] := sorted[i];
    }
    assert a[..a.Length] == a[..];
  }

  /**
   * True exactly when the two slices hold the same elements with the same multiplicities. Slices of
   * equal length are left sorted; slices of different lengths are left alone. The two arguments may
   * be the same slice.
   */
  method CompareSlices(slice1: array<int>, slice2: array<int>) returns (same: bool)
    modifies slice1, slice2
    ensures same <==> multiset(old(slice1[..])) == multiset(old(slice2[..]))
    ensures slice1.Length == slice2.Length ==>
              slice1[..] == Sort(old(slice1[..])) && slice2[..] == Sort(old(slice2[..]))
    ensures slice1.Length != slice2.Length ==>
              slice1[..] == old(slice1[..]) && slice2[..] == old(slice2[..])
  {
    hide Sort;
    ghost var before1, before2 := slice1[..], slice2[..];
    assert |multiset(before1)| == slice1.Length && |multiset(before2)| == slice2.Length;
    if slice1.Length != slice2.Length {
      return false;
    }
    SortInts(slice1);
    SortInts(slice2);
    SortIsIdempotent(before1);
    SortDecidesMultisetEquality(before1, before2);
    for i := 0 to slice1.Length
      invariant slice1[..i] == slice2[..i]
    {
      if slice1[i] != slice2[i] {
        return false;
      }
    }
    assert slice1[..slice1.Length] == slice1[..] && slice2[..slice2.Length] == slice2[..];
    return true;
  }
}
