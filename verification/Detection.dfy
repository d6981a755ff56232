/**
 * The change detector compares revisions as a multiset and forgets which release has which. Why that
 * is enough while releases are only added and upgraded, and what it misses otherwise.
 */
module Detection {
  import opened Api
  import opened SafeRuns
  import opened Sorting

  function Sum(s: seq<int>): int {
    if s == [] then 0 else s[0] + Sum(s[1..])
  }

  lemma {:induction false} SumOfInsert(x: int, s: seq<int>)
    requires IsSorted(s)
    ensures Sum(Insert(x, s)) == x + Sum(s)
  {
    if s != [] && x > s[0] {
      SumOfInsert(x, s[1..]);
      assert ([s[0]] + Insert(x, s[1..]))[1..] == Insert(x, s[1..]);
    } else {
      assert ([x] + s)[1..] == s;
    }
  }

  lemma {:induction false} SumOfSort(s: seq<int>)
    ensures Sum(Sort(s)) == Sum(s)
  {
    if s != [] {
      SumOfInsert(s[0], Sort(s[1..]));
      SumOfSort(s[1..]);
    }
  }

  /** Equal multisets have equal sums. */
  lemma SumByMultiset(a: seq<int>, b: seq<int>)
    requires multiset(a) == multiset(b)
    ensures Sum(a) == Sum(b) && |a| == |b|
  {
    SortDecidesMultisetEquality(a, b);
    SumOfSort(a);
    SumOfSort(b);
    assert |multiset(a)| == |a| && |multiset(b)| == |b|;
  }

  /** Every recorded release is still visible, at a revision no smaller. */
  ghost predicate Advanced(recorded: seq<HelmInfo>, visible: seq<HelmInfo>) {
    forall a | a in recorded :: exists b :: b in visible && InfoKey(b) == InfoKey(a) && a.revision <= b.revision
  }

  /** Exactly the recorded releases are visible, each at its recorded revision. */
  ghost predicate Unchanged(recorded: seq<HelmInfo>, visible: seq<HelmInfo>) {
    && |visible| == |recorded|
    && forall a | a in recorded :: exists b :: b in visible && InfoKey(b) == InfoKey(a) && a.revision == b.revision
  }

  function Dropped(infos: seq<HelmInfo>, j: nat): (r: seq<HelmInfo>)
    requires j < |infos|
    ensures |r| == |infos| - 1
  {
    infos[..j] + infos[j + 1..]
  }

  lemma DroppedRevisions(infos: seq<HelmInfo>, j: nat)
    requires j < |infos|
    ensures multiset(Revisions(infos)) == multiset(Revisions(Dropped(infos, j))) + multiset{infos[j].revision}
  {
    var r := Revisions(infos);
    assert Revisions(Dropped(infos, j)) == r[..j] + r[j + 1..];
    assert r == r[..j] + [r[j]] + r[j + 1..];
  }

  lemma DroppedIsDistinct(infos: seq<HelmInfo>, j: nat)
    requires j < |infos| && DistinctInfos(infos)
    ensures DistinctInfos(Dropped(infos, j))
    ensures forall b :: b in Dropped(infos, j) <==> b in infos && InfoKey(b) != InfoKey(infos[j])
  {
    hide InfoKey;
    var d := Dropped(infos, j);
    assert forall i | 0 <= i < |d| :: d[i] == infos[if i < j then i else i + 1];
    assert DistinctInfos(d);
    forall b | b in infos && InfoKey(b) != InfoKey(infos[j])
      ensures b in d
    {
      var i :| 0 <= i < |infos| && infos[i] == b;
      assert d[if i < j then i else i - 1] == b;
    }
  }

  lemma RestHasOtherKeys(recorded: seq<HelmInfo>)
    requires recorded != [] && DistinctInfos(recorded)
    ensures DistinctInfos(recorded[1..])
    ensures forall c :: c in recorded <==> c == recorded[0] || c in recorded[1..]
    ensures forall c | c in recorded[1..] :: InfoKey(c) != InfoKey(recorded[0])
  {
    forall c | c in recorded[1..]
      ensures InfoKey(c) != InfoKey(recorded[0])
    {
      var i :| 0 <= i < |recorded[1..]| && recorded[1..][i] == c;
      assert recorded[i + 1] == c;
    }
  }

  /** The visible counterpart of the first recorded release. */
  lemma Counterpart(recorded: seq<HelmInfo>, visible: seq<HelmInfo>) returns (j: nat)
    requires recorded != [] && Advanced(recorded, visible) && DistinctInfos(recorded) && DistinctInfos(visible)
    ensures j < |visible| && InfoKey(visible[j]) == InfoKey(recorded[0]) && recorded[0].revision <= visible[j].revision
    ensures DistinctInfos(Dropped(visible, j)) && DistinctInfos(recorded[1..])
    ensures Advanced(recorded[1..], Dropped(visible, j))
    ensures visible[j].revision == recorded[0].revision ==>
              (Unchanged(recorded[1..], Dropped(visible, j)) <==> Unchanged(recorded, visible))
    ensures Unchanged(recorded, visible) ==> visible[j].revision == recorded[0].revision
  {
    hide Dropped, InfoKey, Unchanged, DistinctInfos;
    var a := recorded[0];
    assert a in recorded;
    var b :| b in visible && InfoKey(b) == InfoKey(a) && a.revision <= b.revision;
    j :| 0 <= j < |visible| && visible[j] == b;
    DroppedIsDistinct(visible, j);
    RestHasOtherKeys(recorded);
    CounterpartDecides(recorded, visible, j);
  }

  lemma CounterpartDecides(recorded: seq<HelmInfo>, visible: seq<HelmInfo>, j: nat)
    requires recorded != [] && DistinctInfos(recorded) && DistinctInfos(visible)
    requires j < |visible| && InfoKey(visible[j]) == InfoKey(recorded[0])
    ensures visible[j].revision == recorded[0].revision ==>
              (Unchanged(recorded[1..], Dropped(visible, j)) <==> Unchanged(recorded, visible))
    ensures Unchanged(recorded, visible) ==> visible[j].revision == recorded[0].revision
  {
    hide Dropped, InfoKey;
    DroppedIsDistinct(visible, j);
    RestHasOtherKeys(recorded);
    if Unchanged(recorded, visible) {
      var d :| d in visible && InfoKey(d) == InfoKey(recorded[0]) && recorded[0].revision == d.revision;
      var i :| 0 <= i < |visible| && visible[i] == d;
      assert i == j;
    }
  }

  lemma SumOfDropped(infos: seq<HelmInfo>, j: nat)
    requires j < |infos|
    ensures Sum(Revisions(infos)) == infos[j].revision + Sum(Revisions(Dropped(infos, j)))
  {
    var rest := Revisions(Dropped(infos, j));
    DroppedRevisions(infos, j);
    SumByMultiset(Revisions(infos), [infos[j].revision] + rest);
    assert ([infos[j].revision] + rest)[1..] == rest;
  }

  lemma DroppedFirst(infos: seq<HelmInfo>)
    requires infos != []
    ensures Dropped(infos, 0) == infos[1..]
  {
  }

  /** With equally many releases the visible sum is no smaller, and equal only when nothing moved. */
  lemma {:induction false} SumsDecide(recorded: seq<HelmInfo>, visible: seq<HelmInfo>)
    requires Advanced(recorded, visible) && DistinctInfos(recorded) && DistinctInfos(visible) && |visible| == |recorded|
    ensures Sum(Revisions(recorded)) <= Sum(Revisions(visible))
    ensures Sum(Revisions(recorded)) == Sum(Revisions(visible)) ==> Unchanged(recorded, visible)
    decreases |recorded|
  {
    hide Advanced, Unchanged, DistinctInfos, Sum, Revisions, Dropped;
    if recorded != [] {
      var j := Counterpart(recorded, visible);
      DroppedFirst(recorded);
      SumOfDropped(recorded, 0);
      SumOfDropped(visible, j);
      SumsDecide(recorded[1..], Dropped(visible, j));
    } else {
      NothingIsUnchanged(visible);
    }
  }

  /** Unchanged releases have the same revisions, in whatever order they are listed. */
  lemma {:induction false} UnchangedRevisions(recorded: seq<HelmInfo>, visible: seq<HelmInfo>)
    requires Advanced(recorded, visible) && DistinctInfos(recorded) && DistinctInfos(visible)
    requires Unchanged(recorded, visible)
    ensures multiset(Revisions(recorded)) == multiset(Revisions(visible))
    decreases |recorded|
  {
    hide Advanced, Unchanged, DistinctInfos, Revisions, Dropped;
    UnchangedLength(recorded, visible);
    if recorded != [] {
      var j := Counterpart(recorded, visible);
      DroppedFirst(recorded);
      DroppedRevisions(recorded, 0);
      DroppedRevisions(visible, j);
      UnchangedRevisions(recorded[1..], Dropped(visible, j));
    }
  }

  lemma UnchangedLength(recorded: seq<HelmInfo>, visible: seq<HelmInfo>)
    requires Unchanged(recorded, visible)
    ensures |recorded| == |visible|
  {
  }

  lemma NothingIsUnchanged(visible: seq<HelmInfo>)
    requires visible == []
    ensures Unchanged([], visible)
  {
  }

  /**
   * No change is missed, and none is imagined: while the recorded releases stay visible at revisions
   * no smaller, the revisions agree as multisets exactly when no release was added and none moved.
   */
  lemma DetectionIsExact(recorded: seq<HelmInfo>, visible: seq<HelmInfo>)
    requires Advanced(recorded, visible) && DistinctInfos(recorded) && DistinctInfos(visible)
    ensures multiset(Revisions(recorded)) == multiset(Revisions(visible)) <==> Unchanged(recorded, visible)
  {
    if multiset(Revisions(recorded)) == multiset(Revisions(visible)) {
      SumByMultiset(Revisions(recorded), Revisions(visible));
      SumsDecide(recorded, visible);
    } else if Unchanged(recorded, visible) {
      UnchangedRevisions(recorded, visible);
    }
  }

  /** For a persisted status this is the comparison `handleExistingCluster` makes. */
  lemma ExistingClusterDetects(status: Status, collected: seq<HelmInfo>)
    requires StatusOk(status) && DistinctInfos(collected) && Advanced(status.helmStatus, collected)
    ensures multiset(status.revision) == multiset(Revisions(collected)) <==> Unchanged(status.helmStatus, collected)
  {
    DetectionIsExact(status.helmStatus, collected);
  }

  /** Adding one release and removing another at the same revision goes unnoticed. */
  lemma SwapIsMissed(a: HelmInfo, b: HelmInfo)
    requires InfoKey(a) != InfoKey(b) && a.revision == b.revision
    ensures multiset(Revisions([a])) == multiset(Revisions([b])) && !Unchanged([a], [b])
  {
    assert Revisions([a]) == [a.revision] && Revisions([b]) == [b.revision];
    assert a in [a];
  }

  /** So does reinstalling one release while another takes over its revision. */
  lemma ExchangeIsMissed(a: HelmInfo, b: HelmInfo)
    requires InfoKey(a) != InfoKey(b) && a.revision != b.revision
    ensures var before, after := [a, b], [a.(revision := b.revision), b.(revision := a.revision)];
            multiset(Revisions(before)) == multiset(Revisions(after)) && !Unchanged(before, after)
  {
    var before, after := [a, b], [a.(revision := b.revision), b.(revision := a.revision)];
    assert Revisions(before) == [a.revision, b.revision] && Revisions(after) == [b.revision, a.revision];
    assert a in before;
  }
}
