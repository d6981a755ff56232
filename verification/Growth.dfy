/** How the operator's own steps change the releases, and what of it can be seen in the record. */
module Growth {
  import opened Api
  import opened Detection
  import opened Reconciliation
  import opened World

  // ---- rows ------------------------------------------------------------------------------------

  /** What a listing and a record have in common: a release and its revision. */
  function Row(info: HelmInfo): (Key, int) {
    (InfoKey(info), info.revision)
  }

  function ReleaseRow(r: Release): (Key, int) {
    (ReleaseKey(r), r.revision)
  }

  function Rows(infos: seq<HelmInfo>): seq<(Key, int)> {
    seq(|infos|, i requires 0 <= i < |infos| => Row(infos[i]))
  }

  function ReleaseRows(releases: seq<Release>): seq<(Key, int)> {
    seq(|releases|, i requires 0 <= i < |releases| => ReleaseRow(releases[i]))
  }

  function ReleaseRevisions(releases: seq<Release>): seq<int> {
    seq(|releases|, i requires 0 <= i < |releases| => releases[i].revision)
  }

  lemma SameRowsSameRevisions(infos: seq<HelmInfo>, releases: seq<Release>)
    requires Rows(infos) == ReleaseRows(releases)
    ensures Revisions(infos) == ReleaseRevisions(releases)
  {
    forall i | 0 <= i < |infos|
      ensures infos[i].revision == releases[i].revision
    {
      assert Rows(infos)[i] == ReleaseRows(releases)[i];
    }
  }

  lemma RowsAlike(a: seq<Release>, b: seq<Release>)
    requires ReleaseRows(a) == ReleaseRows(b)
    ensures ReleaseRevisions(a) == ReleaseRevisions(b)
  {
    forall i | 0 <= i < |a|
      ensures a[i].revision == b[i].revision
    {
      assert ReleaseRows(a)[i] == ReleaseRows(b)[i];
    }
  }

  /** The releases of the given namespaces, as a collection meets them. */
  function Visible(helm: seq<Release>, namespaces: seq<string>): seq<Release> {
    if namespaces == [] then [] else InNamespace(helm, namespaces[0]) + Visible(helm, namespaces[1..])
  }

  // ---- growth ----------------------------------------------------------------------------------

  /**
   * From `a` to `b` the releases of `raised` got new revisions, the other ones stayed as they were, and
   * releases of the operator's own namespace may have been installed.
   */
  ghost predicate HelmGrows(a: seq<Release>, b: seq<Release>, raised: set<Key>) {
    && |a| <= |b|
    && (forall i | 0 <= i < |a| ::
          && ReleaseKey(b[i]) == ReleaseKey(a[i])
          && if ReleaseKey(a[i]) in raised then b[i].revision > a[i].revision else b[i].revision == a[i].revision)
    && (forall i | |a| <= i < |b| :: b[i].namespace == PLATFORM && b[i].revision >= 1)
  }

  lemma HelmStays(a: seq<Release>)
    ensures HelmGrows(a, a, {})
  {
  }

  lemma HelmGrowsOn(a: seq<Release>, b: seq<Release>, c: seq<Release>, some: set<Key>, more: set<Key>)
    requires HelmGrows(a, b, some) && HelmGrows(b, c, more)
    ensures HelmGrows(a, c, some + more)
  {
    forall i | 0 <= i < |a|
      ensures ReleaseKey(c[i]) == ReleaseKey(a[i])
      ensures if ReleaseKey(a[i]) in some + more then c[i].revision > a[i].revision else c[i].revision == a[i].revision
    {
      assert ReleaseKey(c[i]) == ReleaseKey(b[i]) == ReleaseKey(a[i]);
    }
  }

  lemma BumpGrows(helm: seq<Release>, key: Key, hosted: bool, about: string)
    ensures HelmGrows(helm, Bump(helm, key, hosted, about), {key})
  {
  }

  lemma InstallGrows(helm: seq<Release>, r: Release)
    requires r.namespace == PLATFORM && r.revision >= 1
    ensures HelmGrows(helm, helm + [r], {})
  {
  }

  /** Without a new release the names are the same. */
  lemma SameLengthSameKeys(a: seq<Release>, b: seq<Release>, raised: set<Key>)
    requires HelmGrows(a, b, raised) && |a| == |b|
    ensures Keys(b) == Keys(a)
  {
    forall k | k in Keys(a)
      ensures k in Keys(b)
    {
      var i :| 0 <= i < |a| && ReleaseKey(a[i]) == k;
      assert b[i] in b;
    }
    forall k | k in Keys(b)
      ensures k in Keys(a)
    {
      var i :| 0 <= i < |b| && ReleaseKey(b[i]) == k;
      assert a[i] in a;
    }
  }

  lemma RestGrows(a: seq<Release>, b: seq<Release>, raised: set<Key>)
    requires HelmGrows(a, b, raised) && a != []
    ensures HelmGrows(a[1..], b[1..], raised)
  {
    forall i | 0 <= i < |a| - 1
      ensures ReleaseKey(b[1..][i]) == ReleaseKey(a[1..][i])
      ensures if ReleaseKey(a[1..][i]) in raised then b[1..][i].revision > a[1..][i].revision
              else b[1..][i].revision == a[1..][i].revision
    {
      assert a[1..][i] == a[i + 1] && b[1..][i] == b[i + 1];
    }
    forall i | |a| - 1 <= i < |b| - 1
      ensures b[1..][i].namespace == PLATFORM && b[1..][i].revision >= 1
    {
      assert b[1..][i] == b[i + 1];
    }
  }

  // ---- what stays hidden -----------------------------------------------------------------------

  /** Some of these releases are in one of the namespaces. */
  predicate Shown(keys: set<Key>, list: seq<string>) {
    exists k | k in keys :: k.namespace in list
  }

  lemma {:induction false} HiddenListing(a: seq<Release>, b: seq<Release>, raised: set<Key>, namespace: string)
    requires HelmGrows(a, b, raised) && (|a| == |b| || namespace != PLATFORM)
    requires forall k | k in raised :: k.namespace != namespace
    ensures ReleaseRows(InNamespace(b, namespace)) == ReleaseRows(InNamespace(a, namespace))
    decreases |b|
  {
    if a != [] {
      RestGrows(a, b, raised);
      HiddenListing(a[1..], b[1..], raised, namespace);
      FirstListed(a, namespace);
      FirstListed(b, namespace);
      assert ReleaseKey(b[0]) == ReleaseKey(a[0]);
    } else if b != [] {
      HiddenListing(a, b[1..], raised, namespace);
      assert b[0].namespace == PLATFORM;
    }
  }

  lemma FirstListed(helm: seq<Release>, namespace: string)
    requires helm != []
    ensures var rest := ReleaseRows(InNamespace(helm[1..], namespace));
            ReleaseRows(InNamespace(helm, namespace))
            == if helm[0].namespace == namespace then [ReleaseRow(helm[0])] + rest else rest
  {
  }

  /** Changes outside the listed namespaces leave every listing as it was. */
  lemma {:induction false} HiddenGrowth(a: seq<Release>, b: seq<Release>, raised: set<Key>, list: seq<string>)
    requires HelmGrows(a, b, raised) && !Shown(raised, list) && (|a| == |b| || PLATFORM !in list)
    ensures ReleaseRows(Visible(b, list)) == ReleaseRows(Visible(a, list))
    decreases |list|
  {
    hide HelmGrows, InNamespace;
    if list != [] {
      HiddenListing(a, b, raised, list[0]);
      HiddenGrowth(a, b, raised, list[1..]);
      RowsConcat(InNamespace(a, list[0]), Visible(a, list[1..]));
      RowsConcat(InNamespace(b, list[0]), Visible(b, list[1..]));
    }
  }

  lemma RowsConcat(a: seq<Release>, b: seq<Release>)
    ensures ReleaseRows(a + b) == ReleaseRows(a) + ReleaseRows(b)
  {
  }

  // ---- what shows ------------------------------------------------------------------------------

  /** Counts releases and revisions, so that every change that shows makes it larger. */
  function Weight(releases: seq<Release>): int {
    Sum(ReleaseRevisions(releases)) + |releases|
  }

  lemma {:induction false} SumConcat(a: seq<int>, b: seq<int>)
    ensures Sum(a + b) == Sum(a) + Sum(b)
  {
    if a == [] {
      assert a + b == b;
    } else {
      SumConcat(a[1..], b);
      assert (a + b)[1..] == a[1..] + b;
    }
  }

  lemma WeightConcat(a: seq<Release>, b: seq<Release>)
    ensures Weight(a + b) == Weight(a) + Weight(b)
  {
    SumConcat(ReleaseRevisions(a), ReleaseRevisions(b));
    assert ReleaseRevisions(a + b) == ReleaseRevisions(a) + ReleaseRevisions(b);
  }

  lemma WeightOfOne(r: Release)
    ensures Weight([r]) == r.revision + 1 && Weight([]) == 0
  {
    assert ReleaseRevisions([r]) == [r.revision] && ReleaseRevisions([]) == [];
    assert [r.revision][1..] == [] && Sum([]) == 0;
  }

  /** Equal records have equal weight. */
  lemma WeightByMultiset(a: seq<Release>, b: seq<Release>)
    requires multiset(ReleaseRevisions(a)) == multiset(ReleaseRevisions(b))
    ensures Weight(a) == Weight(b)
  {
    SumByMultiset(ReleaseRevisions(a), ReleaseRevisions(b));
  }

  lemma FirstWeighs(helm: seq<Release>, namespace: string)
    requires helm != []
    ensures Weight(InNamespace(helm, namespace))
         == Weight(InNamespace(helm[1..], namespace))
            + if helm[0].namespace == namespace then helm[0].revision + 1 else 0
  {
    WeightOfOne(helm[0]);
    WeightConcat([helm[0]], InNamespace(helm[1..], namespace));
  }

  /** A listing gains weight when it shows a raised release or a new one. */
  ghost predicate Gains(a: seq<Release>, b: seq<Release>, raised: set<Key>, namespace: string) {
    || (exists r | r in a :: r.namespace == namespace && ReleaseKey(r) in raised)
    || (|b| > |a| && namespace == PLATFORM)
  }

  lemma {:induction false} ListingGains(a: seq<Release>, b: seq<Release>, raised: set<Key>, namespace: string)
    requires HelmGrows(a, b, raised)
    ensures Weight(InNamespace(b, namespace)) >= Weight(InNamespace(a, namespace))
    ensures Gains(a, b, raised, namespace) ==> Weight(InNamespace(b, namespace)) > Weight(InNamespace(a, namespace))
    decreases |b|
  {
    hide Weight;
    if a != [] {
      RestGrows(a, b, raised);
      ListingGains(a[1..], b[1..], raised, namespace);
      FirstWeighs(a, namespace);
      FirstWeighs(b, namespace);
      assert ReleaseKey(b[0]) == ReleaseKey(a[0]);
      assert forall r :: r in a <==> r == a[0] || r in a[1..];
    } else if b != [] {
      ListingGains(a, b[1..], raised, namespace);
      FirstWeighs(b, namespace);
      assert b[0].namespace == PLATFORM && b[0].revision >= 1;
    }
  }

  /** So does what is visible. */
  lemma {:induction false} VisibleGains(a: seq<Release>, b: seq<Release>, raised: set<Key>, list: seq<string>)
    requires HelmGrows(a, b, raised)
    ensures Weight(Visible(b, list)) >= Weight(Visible(a, list))
    ensures (exists namespace | namespace in list :: Gains(a, b, raised, namespace)) ==>
              Weight(Visible(b, list)) > Weight(Visible(a, list))
    decreases |list|
  {
    hide HelmGrows, Gains, Weight, InNamespace;
    if list != [] {
      ListingGains(a, b, raised, list[0]);
      VisibleGains(a, b, raised, list[1..]);
      WeightConcat(InNamespace(a, list[0]), Visible(a, list[1..]));
      WeightConcat(InNamespace(b, list[0]), Visible(b, list[1..]));
    }
  }

  // ---- the upgrades ----------------------------------------------------------------------------

  /** The declared releases that an upgrade in order reaches: it stops at the first that is not installed. */
  function UpgradedKeys(installs: seq<HelmInstall>, keys: set<Key>): set<Key> {
    if installs == [] || InstallKey(installs[0]) !in keys then {}
    else {InstallKey(installs[0])} + UpgradedKeys(installs[1..], keys)
  }

  lemma {:induction false} UpgradedAreInstalled(installs: seq<HelmInstall>, keys: set<Key>)
    ensures UpgradedKeys(installs, keys) <= keys
  {
    if installs != [] && InstallKey(installs[0]) in keys {
      UpgradedAreInstalled(installs[1..], keys);
    }
  }
}
