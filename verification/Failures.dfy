/**
 * What an error does: it ends the reconcile at once and is returned. A call that fails is the last call
 * of its reconcile, except for a few whose errors are only printed or taken for an answer.
 */
module Failures {
  import opened Api
  import opened Naming
  import opened Reconciliation
  import opened Text
  import opened Utils
  import opened World

  /** From `w` to `w1`, any call that was not answered is the last and made the whole fail, apart from those spared. */
  ghost predicate FailsFast(w: World, w1: World, ok: bool, spared: set<nat>) {
    && w1.env == w.env && w.clock <= w1.clock
    && forall t: nat | w.clock <= t < w1.clock && t !in spared && !Answered(w.env, t) ::
         !ok && t == w1.clock - 1
  }

  ghost predicate NoneHosted(helm: seq<Release>) {
    forall r | r in helm :: !r.hosted
  }

  /** No release is hosted, now or later, so no secret is read. */
  ghost predicate NothingHosted(w: World) {
    && NoneHosted(w.helm)
    && forall t: nat :: !w.env.turn(t).hosted && forall h | NoneHosted(h) :: NoneHosted(w.env.turn(t).others(h))
  }

  /** The same, with secret reads as the only calls that are spared. */
  ghost predicate Stops(w: World, w1: World, ok: bool, secrets: set<nat>) {
    FailsFast(w, w1, ok, secrets) && (NothingHosted(w) ==> NothingHosted(w1) && secrets == {})
  }

  lemma StopsChains(a: World, b: World, s1: set<nat>, c: World, ok: bool, s2: set<nat>)
    requires Stops(a, b, true, s1) && Stops(b, c, ok, s2)
    ensures Stops(a, c, ok, s1 + s2)
    ensures s1 == {} ==> Stops(a, c, ok, s2)
    ensures s2 == {} ==> Stops(a, c, ok, s1)
  {
    hide NothingHosted;
    assert s1 == {} ==> s1 + s2 == s2;
    assert s2 == {} ==> s1 + s2 == s1;
  }

  lemma NothingStops(w: World)
    ensures Stops(w, w, true, {}) && Stops(w, w, false, {})
  {
  }

  // ---- single calls ----------------------------------------------------------------------------

  lemma CallStops(w: World, ok: bool)
    requires ok ==> w.Turn().fault.Delivered?
    ensures Stops(w, w.Wake(), ok, {})
  {
  }

  lemma PostStops(w: World, e: Event)
    ensures Stops(w, Post(w, e).0, Post(w, e).1, {})
  {
  }

  lemma UpdateStops(w: World, copy: Copy, writer: Writer)
    ensures Stops(w, UpdateStatus(w, copy, writer).0, UpdateStatus(w, copy, writer).2, {})
  {
  }

  lemma UpgradeStops(w: World, h: HelmInstall)
    ensures Stops(w, Upgrade(w, h).0, Upgrade(w, h).1, {})
  {
    CallStops(w, false);
    if NothingHosted(w) {
      BumpedNotHosted(w.Wake().helm, InstallKey(h), w.Turn().about);
    }
  }

  lemma BumpedNotHosted(helm: seq<Release>, key: Key, about: string)
    requires NoneHosted(helm)
    ensures NoneHosted(Bump(helm, key, false, about))
  {
  }

  lemma ApplyStops(w: World, key: Key)
    ensures Stops(w, Apply(w, key).0, Apply(w, key).1, {})
  {
  }

  lemma DeleteStops(w: World, key: Key)
    ensures Stops(w, Delete(w, key).0, Delete(w, key).1, {})
  {
  }

  // ---- the collector ---------------------------------------------------------------------------

  lemma {:induction false} AwaitStops(w: World, name: string, retryCount: nat)
    ensures Stops(w, AwaitAddress(w, name, retryCount).0, AwaitAddress(w, name, retryCount).1.Some?, {})
    decreases MAX_RETRIES - retryCount
  {
    hide Stops;
    NothingStops(w);
    if retryCount < MAX_RETRIES {
      var (w1, ing) := ReadIngress(w, name);
      CallStops(w, !ing.Failed?);
      if ing.NoAddress? {
        AwaitStops(w1, name, retryCount + 1);
        StopsChains(w, w1, {}, AwaitAddress(w1, name, retryCount + 1).0,
                    AwaitAddress(w1, name, retryCount + 1).1.Some?, {});
      }
    }
  }

  lemma {:induction false} UpgradesStop(w: World, copy: Copy, installs: seq<HelmInstall>, host: string)
    ensures Stops(w, UpgradeAll(w, copy, installs, host).0, UpgradeAll(w, copy, installs, host).2, {})
    decreases |installs|
  {
    hide Stops, Upgrade, UpdateStatus, Tweaked;
    NothingStops(w);
    if installs != [] {
      var h := Tweaked(installs[0], host);
      UpgradeStops(w, h);
      var (w1, upgraded) := Upgrade(w, h);
      if upgraded {
        var marked := copy.(status := copy.status.(dnsUpdated := true));
        UpdateStops(w1, marked, DnsDone);
        var (w2, copy2, updated) := UpdateStatus(w1, marked, DnsDone);
        StopsChains(w, w1, {}, w2, updated, {});
        if updated {
          UpgradesStop(w2, copy2, installs[1..], host);
          var (w3, _, ok) := UpgradeAll(w2, copy2, installs[1..], host);
          StopsChains(w, w2, {}, w3, ok, {});
        }
      }
    }
  }

  lemma AnnounceStops(w: World, copy: Copy, ing: IngressRead, appUUID: string)
    requires ing.Address?
    ensures Stops(w, Announce(w, copy, ing, appUUID).0, Announce(w, copy, ing, appUUID).2, {})
  {
    hide Stops, Post, UpgradeAll, DnsRecord, HostName;
    var e := DnsRecord(copy, ing, appUUID);
    PostStops(w, e);
    var (w1, posted) := Post(w, e);
    if posted {
      UpgradesStop(w1, copy, copy.spec.helm, HostName(appUUID));
      var (w2, _, ok) := UpgradeAll(w1, copy, copy.spec.helm, HostName(appUUID));
      StopsChains(w, w1, {}, w2, ok, {});
    }
  }

  lemma DnsStops(w: World, copy: Copy, namespace: string, appUUID: string)
    ensures Stops(w, GetDns(w, copy, namespace, appUUID).0, GetDns(w, copy, namespace, appUUID).2, {})
  {
    hide Stops, AwaitAddress, Announce;
    var (w1, market) := ReadMarket(w);
    CallStops(w, market.Some?);
    if market == Some(namespace) {
      var (w2, custom) := ReadCustomName(w1);
      CallStops(w1, custom.Some?);
      StopsChains(w, w1, {}, w2, custom.Some?, {});
      if custom.Some? {
        var name := IngressName(custom.value, namespace);
        AwaitStops(w2, name, 0);
        var (w3, ing) := AwaitAddress(w2, name, 0);
        StopsChains(w, w2, {}, w3, ing.Some?, {});
        if ing.Some? {
          AnnounceStops(w3, copy, ing.value, appUUID);
          var (w4, _, ok) := Announce(w3, copy, ing.value, appUUID);
          StopsChains(w, w3, {}, w4, ok, {});
        }
      }
    }
  }

  /** The one call of a collection whose error is taken for an answer is the read of a hosted release's secret. */
  lemma ReleaseStops(w: World, copy: Copy, r: Release) returns (secrets: set<nat>)
    ensures var (w1, _, info) := CollectRelease(w, copy, r);
            && FailsFast(w, w1, info.Some?, secrets)
            && secrets == (if r.hosted then {w.clock} else {})
            && (NothingHosted(w) ==> NothingHosted(w1))
  {
    hide GetDns;
    secrets := if r.hosted then {w.clock} else {};
    var (w1, found) := GetHelmInfo(w, copy, r);
    var (w2, info) := ApplySecret(w1, r, found);
    assert FailsFast(w, w2, true, secrets) && (NothingHosted(w) ==> NothingHosted(w2));
    var (w3, copy3, dns) :=
      if copy.status.dnsUpdated then (w2, copy, true) else GetDns(w2, copy, r.namespace, info.appUUID);
    DnsStops(w2, copy, r.namespace, info.appUUID);
    CallStops(w3, w3.Turn().fault.Delivered?);
  }

  lemma {:induction false} ReleasesStop(w: World, copy: Copy, releases: seq<Release>, infos: seq<HelmInfo>)
    returns (secrets: set<nat>)
    ensures var (w1, _, all) := CollectReleases(w, copy, releases, infos);
            && FailsFast(w, w1, all.Some?, secrets)
            && (NothingHosted(w) ==> NothingHosted(w1)) && (NoneHosted(releases) ==> secrets == {})
    decreases |releases|
  {
    hide CollectRelease, NothingHosted;
    secrets := {};
    if releases != [] {
      secrets := ReleaseStops(w, copy, releases[0]);
      var (w1, copy1, info) := CollectRelease(w, copy, releases[0]);
      if info.Some? {
        var more := ReleasesStop(w1, copy1, releases[1..], infos + [info.value]);
        secrets := secrets + more;
      }
    }
  }

  lemma {:induction false} NamespacesStop(w: World, copy: Copy, namespaces: seq<string>, infos: seq<HelmInfo>)
    returns (secrets: set<nat>)
    ensures var (w1, _, all) := CollectNamespaces(w, copy, namespaces, infos); Stops(w, w1, all.Some?, secrets)
    decreases |namespaces|
  {
    hide CollectReleases, Stops;
    secrets := {};
    NothingStops(w);
    if namespaces != [] {
      var (w1, releases) := ListReleases(w, namespaces[0]);
      CallStops(w, releases.Some?);
      if releases.Some? {
        secrets := ListedStop(w1, copy, namespaces[0], infos);
        var (w2, copy2, more) := CollectReleases(w1, copy, releases.value, infos);
        StopsChains(w, w1, {}, w2, more.Some?, secrets);
        if more.Some? {
          var rest := NamespacesStop(w2, copy2, namespaces[1..], more.value);
          var (w3, _, all) := CollectNamespaces(w2, copy2, namespaces[1..], more.value);
          StopsChains(w, w2, secrets, w3, all.Some?, rest);
          secrets := secrets + rest;
        }
      }
    }
  }

  lemma ListedStop(w: World, copy: Copy, namespace: string, infos: seq<HelmInfo>) returns (secrets: set<nat>)
    ensures var (w1, _, all) := CollectReleases(w, copy, InNamespace(w.helm, namespace), infos);
            Stops(w, w1, all.Some?, secrets)
  {
    hide CollectReleases;
    secrets := ReleasesStop(w, copy, InNamespace(w.helm, namespace), infos);
  }

  lemma CollectStops(w: World, copy: Copy) returns (secrets: set<nat>)
    ensures var (w1, _, all) := Collect(w, copy); Stops(w, w1, all.Some?, secrets)
  {
    hide CollectNamespaces, Stops;
    var (w1, namespaces) := ListNamespaces(w);
    CallStops(w, namespaces.Some?);
    secrets := {};
    if namespaces.Some? {
      var list := Allowed(namespaces.value, copy.spec.denyNamespaces);
      secrets := NamespacesStop(w1, copy, list, []);
      var (w2, _, all) := CollectNamespaces(w1, copy, list, []);
      StopsChains(w, w1, {}, w2, all.Some?, secrets);
    }
  }

  // ---- registration, monitoring, ingress -------------------------------------------------------

  lemma {:induction false} RegistrationStops(w: World, copy: Copy, infos: seq<HelmInfo>)
    ensures Stops(w, RegisterApps(w, copy, infos).0, RegisterApps(w, copy, infos).1, {})
    decreases |infos|
  {
    hide Stops, Post;
    NothingStops(w);
    if infos != [] {
      var e := App(copy.status.clusterUUID, infos[0], copy.version, false);
      PostStops(w, e);
      var (w1, posted) := Post(w, e);
      if posted {
        RegistrationStops(w1, copy, infos[1..]);
        var (w2, ok) := RegisterApps(w1, copy, infos[1..]);
        StopsChains(w, w1, {}, w2, ok, {});
      }
    }
  }

  lemma {:induction false} InstallsStop(w: World, installs: seq<HelmInstall>)
    ensures Stops(w, InstallAll(w, installs).0, InstallAll(w, installs).1, {})
    decreases |installs|
  {
    hide Stops, Apply, InstallKey;
    NothingStops(w);
    if installs != [] {
      var key := InstallKey(installs[0]);
      var (w1, found) := HasRelease(w, key);
      CallStops(w, found.Some?);
      if found.Some? {
        ApplyStops(w1, key);
        NothingStops(w1);
        var (w2, ok) := if found.value then (w1, true) else Apply(w1, key);
        StopsChains(w, w1, {}, w2, ok, {});
        if ok {
          InstallsStop(w2, installs[1..]);
          var (w3, all) := InstallAll(w2, installs[1..]);
          StopsChains(w, w2, {}, w3, all, {});
        }
      }
    }
  }

  /** The calls of an enabled monitoring step after its lookup: only their errors are printed. */
  ghost function Printed(w: World, copy: Copy): set<nat> {
    if copy.spec.monitoring then {w.clock + 1, w.clock + 2, w.clock + 3} else {}
  }

  lemma MonitoringStops(w: World, copy: Copy)
    ensures var (w1, ok) := HandleMonitoring(w, copy);
            && FailsFast(w, w1, ok, Printed(w, copy)) && (NothingHosted(w) ==> NothingHosted(w1))
            && (copy.spec.monitoring ==> w1.clock == w.clock + 1 || (ok && w1.clock == w.clock + 4))
  {
    hide Apply, Delete;
    var (w1, found) := HasRelease(w, if copy.spec.monitoring then ALLOY else ALLOY_CHART);
    CallStops(w, found.Some?);
    if found.Some? && copy.spec.monitoring && !found.value {
      InstallMonitoringStops(w1);
    } else if found.Some? && !copy.spec.monitoring && found.value {
      RemoveMonitoringStops(w1);
    }
  }

  lemma InstallMonitoringStops(w: World)
    ensures var w1 := InstallMonitoring(w);
            w1.env == w.env && w1.clock == w.clock + 3 && (NothingHosted(w) ==> NothingHosted(w1))
  {
    CallStops(w, false);
    ApplyStops(w.Wake(), ALLOY);
    ApplyStops(Apply(w.Wake(), ALLOY).0, STATE_METRICS);
  }

  lemma RemoveMonitoringStops(w: World)
    ensures Stops(w, RemoveMonitoring(w).0, RemoveMonitoring(w).1, {})
  {
    hide Stops, Delete;
    DeleteStops(w, STATE_METRICS);
    var (w1, deleted1) := Delete(w, STATE_METRICS);
    if deleted1 {
      DeleteStops(w1, ALLOY);
      var (w2, deleted2) := Delete(w1, ALLOY);
      StopsChains(w, w1, {}, w2, deleted2, {});
      if deleted2 {
        CallStops(w2, ReadDetails(w2).1);
        StopsChains(w, w2, {}, w2.Wake(), ReadDetails(w2).1, {});
      }
    }
  }

  /** The only error of the ingress step that is printed is that of its installation. */
  lemma IngressStops(w: World, copy: Copy)
    ensures var (w1, ok) := HandleIngress(w, copy);
            FailsFast(w, w1, ok, if copy.spec.ingress then {w.clock + 1} else {})
            && (NothingHosted(w) ==> NothingHosted(w1))
  {
    CallStops(w, false);
    ApplyStops(w.Wake(), INGRESS);
    DeleteStops(w.Wake(), INGRESS_CHART);
  }

  // ---- a reconcile -----------------------------------------------------------------------------

  /** The call at tick `t` is one of the last three, which install monitoring; their errors are only printed. */
  ghost predicate Installing(spec: Spec, w1: World, ok: bool, t: nat) {
    spec.monitoring && ok && w1.clock - 3 <= t
  }

  /** Registering and recording spare no call, and handling monitoring only those that install it. */
  lemma ExistingStops(w: World, copy: Copy, infos: seq<HelmInfo>)
    ensures var (w1, _, ok) := HandleExistingCluster(w, copy, infos);
            && w1.env == w.env && w.clock <= w1.clock && (NothingHosted(w) ==> NothingHosted(w1))
            && (multiset(copy.status.revision) != multiset(Revisions(infos)) ==> FailsFast(w, w1, ok, {}))
            && forall t: nat | w.clock <= t < w1.clock && !Answered(w.env, t) ::
                 Installing(copy.spec, w1, ok, t) || (!ok && t == w1.clock - 1)
  {
    hide RegisterApps, HandleMonitoring, UpdateStatus, Compared, Recorded, NothingHosted;
    var compared := Compared(copy, Revisions(infos));
    ComparedKeepsSpec(copy, Revisions(infos));
    if multiset(copy.status.revision) != multiset(Revisions(infos)) {
      RegistrationStops(w, compared, infos);
      var (w1, registered) := RegisterApps(w, compared, infos);
      if registered {
        UpdateStops(w1, Recorded(compared, infos), Existing);
        var (w2, _, ok) := UpdateStatus(w1, Recorded(compared, infos), Existing);
        StopsChains(w, w1, {}, w2, ok, {});
      }
    } else {
      MonitoringStops(w, compared);
    }
  }

  lemma ComparedKeepsSpec(copy: Copy, revisions: seq<int>)
    ensures Compared(copy, revisions).spec == copy.spec
  {
  }

  lemma NewClusterStops(w: World, copy: Copy) returns (secrets: set<nat>)
    ensures var (w1, _, ok) := HandleNewCluster(w, copy); Stops(w, w1, ok, secrets)
  {
    hide Stops, Post, Collect, RegisterApps, UpdateStatus, Recorded;
    secrets := {};
    var e := Register(copy.status.clusterUUID, copy.version, false);
    PostStops(w, e);
    var (w1, registered) := Post(w, e);
    if registered {
      secrets := CollectStops(w1, copy);
      var (w2, copy2, infos) := Collect(w1, copy);
      StopsChains(w, w1, {}, w2, infos.Some?, secrets);
      if infos.Some? {
        UpdateStops(w2, Recorded(copy2, infos.value), First);
        var (w3, copy3, updated) := UpdateStatus(w2, Recorded(copy2, infos.value), First);
        StopsChains(w, w2, secrets, w3, updated, {});
        if updated {
          RegistrationStops(w3, copy3, infos.value);
          var (w4, posted) := RegisterApps(w3, copy3, infos.value);
          StopsChains(w, w3, secrets, w4, posted, {});
        }
      }
    }
  }

  /** Installing the ingress controller is the third call after the copy was read. */
  lemma FirstDeploymentStops(w: World, copy: Copy) returns (secrets: set<nat>)
    ensures var (w1, _, ok) := FirstDeployment(w, copy);
            && FailsFast(w, w1, ok, secrets + if copy.spec.ingress then {w.clock + 2} else {})
            && (NothingHosted(w) ==> NothingHosted(w1) && secrets == {})
  {
    hide UpdateStatus, HandleIngress, HandleNewCluster, NothingHosted;
    secrets := {};
    var (w1, id) := Mint(w);
    MintStops(w);
    var named := copy.(status := copy.status.(clusterUUID := "K-" + id));
    UpdateStops(w1, named, Claim);
    var (w2, copy2, updated) := UpdateStatus(w1, named, Claim);
    if updated {
      ClaimTakesOneCall(w1, named);
      IngressStops(w2, copy2);
      var (w3, ok) := HandleIngress(w2, copy2);
      if ok {
        secrets := NewClusterStops(w3, copy2);
      }
    }
  }

  lemma MintStops(w: World)
    ensures Stops(w, Mint(w).0, true, {}) && Mint(w).0.clock == w.clock
  {
  }

  lemma ClaimTakesOneCall(w: World, copy: Copy)
    ensures var (w1, copy1, ok) := UpdateStatus(w, copy, Claim); w1.clock == w.clock + 1 && copy1.spec == copy.spec
  {
  }

  /** The calls, other than secret reads, whose errors are only printed. */
  ghost predicate Excused(w: World, w1: World, ok: bool, t: nat) {
    && Get(w).1.Some?
    && var copy := Get(w).1.value;
       && !copy.spec.stop
       && (Installing(copy.spec, w1, ok, t)
           || (copy.spec.ingress && copy.status.clusterUUID == "" && t == w.clock + 3))
  }

  lemma ReconciliationStops(w: World, copy: Copy) returns (secrets: set<nat>)
    ensures var (w1, _, ok) := HandleReconciliation(w, copy);
            && w1.env == w.env && w.clock <= w1.clock && (NothingHosted(w) ==> NothingHosted(w1) && secrets == {})
            && forall t: nat | w.clock <= t < w1.clock && t !in secrets && !Answered(w.env, t) ::
                 || Installing(copy.spec, w1, ok, t)
                 || (copy.spec.ingress && copy.status.clusterUUID == "" && t == w.clock + 2)
                 || (!ok && t == w1.clock - 1)
  {
    hide FirstDeployment, Collect, HandleExistingCluster, NothingHosted;
    secrets := {};
    var (w1, copy1, ok) := if copy.status.clusterUUID == "" then FirstDeployment(w, copy) else (w, copy, true);
    if copy.status.clusterUUID == "" {
      secrets := FirstDeploymentStops(w, copy);
      FirstDeploymentKeepsSpec(w, copy);
    }
    if ok {
      var more := CollectStops(w1, copy1);
      CollectionNames(w1, copy1, w1.minted);
      secrets := secrets + more;
      var (w2, copy2, infos) := Collect(w1, copy1);
      if infos.Some? {
        ExistingStops(w2, copy2, infos.value);
      }
    }
  }

  lemma FirstDeploymentKeepsSpec(w: World, copy: Copy)
    ensures FirstDeployment(w, copy).1.spec == copy.spec
  {
    hide Collect, HandleIngress, RegisterApps;
    var (w1, id) := Mint(w);
    var (w2, copy2, _) := UpdateStatus(w1, copy.(status := copy.status.(clusterUUID := "K-" + id)), Claim);
    var w3 := HandleIngress(w2, copy2).0;
    var w4 := Post(w3, Register(copy2.status.clusterUUID, copy2.version, false)).0;
    CollectionNames(w4, copy2, w4.minted);
  }

  /**
   * A call that is not answered is the last one of its reconcile, which then returns an error, and so
   * nothing is sent, installed or written after it. Spared are the reads of secrets, of which there are
   * none when no release is hosted, and what installs the ingress controller and monitoring.
   */
  lemma ErrorsEndTheReconcile(w: World) returns (secrets: set<nat>)
    ensures var (w1, ok) := Reconcile(w);
            && w1.env == w.env && w.clock < w1.clock && (NothingHosted(w) ==> NothingHosted(w1) && secrets == {})
            && forall t: nat | w.clock <= t < w1.clock && t !in secrets && !Answered(w.env, t) ::
                 Excused(w, w1, ok, t) || (!ok && t == w1.clock - 1)
  {
    hide InstallAll, HandleReconciliation, NothingHosted;
    secrets := {};
    var (w1, copy) := Get(w);
    CallStops(w, copy.Some?);
    if copy.Some? {
      if copy.value.spec.stop {
        InstallsStop(w1, copy.value.spec.helm);
      } else {
        secrets := ReconciliationStops(w1, copy.value);
      }
    }
  }
}
