/**
 * Which UUIDs a collection hands out: a release without one on record gets the next from the source,
 * so no two entries share one.
 */
module Naming {
  import opened Api
  import opened Reconciliation
  import opened Text
  import opened Utils
  import opened World

  predicate New(prior: seq<HelmInfo>, info: HelmInfo) {
    FindExistingUUID(prior, info.name, info.namespace) == ""
  }

  /** The namespace's secret imposes this part of a UUID at some time. */
  ghost predicate Imposes(env: Environment, namespace: string, uuid: string) {
    exists t: nat :: Imposed(env.turn(t).secrets(namespace)) == Some(uuid)
  }

  /** The entry's UUID is one that the secret of its namespace imposes. */
  ghost predicate ImposedOn(env: Environment, info: HelmInfo) {
    exists uuid :: Imposes(env, info.namespace, uuid) && info.appUUID == "A-" + uuid
  }

  /** `mints[i]` is the draw from the source, in `lo..hi`, that entry `i` got; no two new entries share one. */
  ghost predicate Numbered(
    env: Environment, prior: seq<HelmInfo>, lo: nat, hi: nat, infos: seq<HelmInfo>, mints: seq<nat>)
  {
    && |mints| == |infos|
    && (forall i | 0 <= i < |infos| && New(prior, infos[i]) ::
          && lo <= mints[i] < hi
          && (infos[i].appUUID == "A-" + env.uuid(mints[i]) || ImposedOn(env, infos[i])))
    && (forall i, j | 0 <= i < j < |infos| && New(prior, infos[i]) && New(prior, infos[j]) :: mints[i] != mints[j])
  }

  ghost predicate Apart(env: Environment, prior: seq<HelmInfo>, lo: nat, hi: nat, infos: seq<HelmInfo>) {
    lo <= hi && exists mints :: Numbered(env, prior, lo, hi, infos, mints)
  }

  lemma ApartLater(env: Environment, prior: seq<HelmInfo>, lo: nat, hi: nat, later: nat, infos: seq<HelmInfo>)
    requires Apart(env, prior, lo, hi, infos) && hi <= later
    ensures Apart(env, prior, lo, later, infos)
  {
    var mints :| Numbered(env, prior, lo, hi, infos, mints);
    assert Numbered(env, prior, lo, later, infos, mints);
  }

  lemma NoneApart(env: Environment, prior: seq<HelmInfo>, lo: nat, hi: nat)
    requires lo <= hi
    ensures Apart(env, prior, lo, hi, [])
  {
    assert Numbered(env, prior, lo, hi, [], []);
  }

  lemma OneMoreApart(env: Environment, prior: seq<HelmInfo>, lo: nat, hi: nat, later: nat,
                     infos: seq<HelmInfo>, info: HelmInfo)
    requires Apart(env, prior, lo, hi, infos) && hi <= later
    requires New(prior, info) ==> hi < later && (info.appUUID == "A-" + env.uuid(hi) || ImposedOn(env, info))
    ensures Apart(env, prior, lo, later, infos + [info])
  {
    var mints :| Numbered(env, prior, lo, hi, infos, mints);
    assert Numbered(env, prior, lo, later, infos + [info], mints + [hi]);
  }

  // ---- what the DNS step leaves alone ----------------------------------------------------------

  /** Later, with the same record in the copy and no UUID drawn. */
  ghost predicate KeepsNames(w: World, copy: Copy, w1: World, copy1: Copy) {
    && w1.env == w.env && w.clock <= w1.clock && w1.minted == w.minted
    && copy1.status.helmStatus == copy.status.helmStatus && copy1.spec == copy.spec
    && copy1.status.clusterUUID == copy.status.clusterUUID
  }

  lemma {:induction false} UpgradesKeepNames(w: World, copy: Copy, installs: seq<HelmInstall>, host: string)
    ensures var (w1, copy1, _) := UpgradeAll(w, copy, installs, host); KeepsNames(w, copy, w1, copy1)
    decreases |installs|
  {
    hide Tweaked;
    if installs != [] {
      var w1 := Upgrade(w, Tweaked(installs[0], host)).0;
      var (w2, copy2, _) := UpdateStatus(w1, copy.(status := copy.status.(dnsUpdated := true)), DnsDone);
      UpgradesKeepNames(w2, copy2, installs[1..], host);
    }
  }

  lemma {:induction false} AwaitKeepsNames(w: World, name: string, retryCount: nat)
    ensures var w1 := AwaitAddress(w, name, retryCount).0;
            w1.env == w.env && w.clock <= w1.clock && w1.minted == w.minted
    decreases MAX_RETRIES - retryCount
  {
    if retryCount < MAX_RETRIES {
      AwaitKeepsNames(w.Wake(), name, retryCount + 1);
    }
  }

  lemma DnsKeepsNames(w: World, copy: Copy, namespace: string, appUUID: string)
    ensures var (w1, copy1, _) := GetDns(w, copy, namespace, appUUID); KeepsNames(w, copy, w1, copy1)
  {
    hide AwaitAddress, UpgradeAll;
    var (w1, market) := ReadMarket(w);
    if market.Some? && namespace == market.value {
      var (w2, custom) := ReadCustomName(w1);
      if custom.Some? {
        AwaitKeepsNames(w2, IngressName(custom.value, market.value), 0);
        var (w3, ing) := AwaitAddress(w2, IngressName(custom.value, market.value), 0);
        if ing.Some? {
          UpgradesKeepNames(Post(w3, DnsRecord(copy, ing.value, appUUID)).0, copy, copy.spec.helm, HostName(appUUID));
        }
      }
    }
  }

  // ---- a collection ----------------------------------------------------------------------------

  /** What a collection keeps, and that it draws a UUID for each new entry. */
  ghost predicate Names(
    w: World, copy: Copy, before: seq<HelmInfo>, w1: World, copy1: Copy, all: Option<seq<HelmInfo>>)
  {
    && KeepsNames(w, copy, w1.(minted := w.minted), copy1) && w.minted <= w1.minted
    && (all.Some? ==>
          forall lo: nat | Apart(w.env, copy.status.helmStatus, lo, w.minted, before) ::
            Apart(w.env, copy.status.helmStatus, lo, w1.minted, all.value))
  }

  lemma ReleaseNames(w: World, copy: Copy, r: Release, before: seq<HelmInfo>)
    ensures var (w1, copy1, info) := CollectRelease(w, copy, r);
            Names(w, copy, before, w1, copy1, if info.None? then None else Some(before + [info.value]))
  {
    hide GetDns, Apart;
    var prior := copy.status.helmStatus;
    var (w1, found) := GetHelmInfo(w, copy, r);
    var (w2, info) := ApplySecret(w1, r, found);
    DnsKeepsNames(w2, copy, r.namespace, info.appUUID);
    var (w3, copy3, collected) := CollectRelease(w, copy, r);
    if collected.Some? {
      if info != found {
        var uuid := Imposed(w.env.turn(w1.clock).secrets(info.namespace)).value;
        assert Imposes(w.env, info.namespace, uuid) && info.appUUID == "A-" + uuid;
      }
      forall lo: nat | Apart(w.env, prior, lo, w.minted, before)
        ensures Apart(w.env, prior, lo, w3.minted, before + [info])
      {
        OneMoreApart(w.env, prior, lo, w.minted, w3.minted, before, info);
      }
    }
  }

  lemma NamesChain(w: World, copy: Copy, a: seq<HelmInfo>, w1: World, copy1: Copy, b: seq<HelmInfo>,
                   w2: World, copy2: Copy, c: Option<seq<HelmInfo>>)
    requires Names(w, copy, a, w1, copy1, Some(b)) && Names(w1, copy1, b, w2, copy2, c)
    ensures Names(w, copy, a, w2, copy2, c)
  {
    hide Apart;
  }

  lemma {:induction false} ReleasesNames(w: World, copy: Copy, releases: seq<Release>, infos: seq<HelmInfo>)
    ensures var (w1, copy1, all) := CollectReleases(w, copy, releases, infos); Names(w, copy, infos, w1, copy1, all)
    decreases |releases|
  {
    hide CollectRelease, Names;
    if releases != [] {
      ReleaseNames(w, copy, releases[0], infos);
      var (w1, copy1, info) := CollectRelease(w, copy, releases[0]);
      if info.Some? {
        var more := infos + [info.value];
        ReleasesNames(w1, copy1, releases[1..], more);
        var (w2, copy2, all) := CollectReleases(w1, copy1, releases[1..], more);
        NamesChain(w, copy, infos, w1, copy1, more, w2, copy2, all);
      }
    } else {
      NoNames(w, w, copy, infos);
    }
  }

  lemma NoNames(w: World, w1: World, copy: Copy, infos: seq<HelmInfo>)
    requires w1.env == w.env && w.clock <= w1.clock && w1.minted == w.minted
    ensures Names(w, copy, infos, w1, copy, Some(infos)) && Names(w, copy, infos, w1, copy, None)
  {
  }

  lemma {:induction false} NamespacesNames(w: World, copy: Copy, namespaces: seq<string>, infos: seq<HelmInfo>)
    ensures var (w1, copy1, all) := CollectNamespaces(w, copy, namespaces, infos); Names(w, copy, infos, w1, copy1, all)
    decreases |namespaces|
  {
    hide CollectReleases, Names;
    NoNames(w, w, copy, infos);
    if namespaces != [] {
      var (w1, releases) := ListReleases(w, namespaces[0]);
      NoNames(w, w1, copy, infos);
      if releases.Some? {
        ReleasesNames(w1, copy, releases.value, infos);
        var (w2, copy2, more) := CollectReleases(w1, copy, releases.value, infos);
        NamesChain(w, copy, infos, w1, copy, infos, w2, copy2, more);
        if more.Some? {
          NamespacesNames(w2, copy2, namespaces[1..], more.value);
          var (w3, copy3, all) := CollectNamespaces(w2, copy2, namespaces[1..], more.value);
          NamesChain(w, copy, infos, w2, copy2, more.value, w3, copy3, all);
        }
      }
    }
  }

  /** A collection draws a UUID of its own for each release without a record. */
  lemma CollectionNames(w: World, copy: Copy, lo: nat)
    requires lo <= w.minted
    ensures var (w1, copy1, all) := Collect(w, copy);
            && w1.env == w.env && w.minted <= w1.minted
            && copy1.status.clusterUUID == copy.status.clusterUUID && copy1.spec == copy.spec
            && (all.Some? ==> Apart(w.env, copy.status.helmStatus, lo, w1.minted, all.value))
  {
    hide Apart, CollectNamespaces;
    NoneApart(w.env, copy.status.helmStatus, lo, w.minted);
    var (w1, namespaces) := ListNamespaces(w);
    if namespaces.Some? {
      NamespacesNames(w1, copy, Allowed(namespaces.value, copy.spec.denyNamespaces), []);
    }
  }
}
