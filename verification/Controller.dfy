/**
 * The controller as it works: one in-memory copy of the resource whose fields are updated in place,
 * slices that are appended to and sorted, collectors reached through pointers, and a client on which
 * every call moves the world. Each method is proved to do what its function in module Reconciliation
 * says, so what is proved of runs of those functions holds of runs of these methods.
 */
module Controller {
  import opened Api
  import opened IngressValues
  import Reconciliation
  import opened Sorting
  import opened Text
  import opened Utils
  import W = World

  /** The resource in memory. `version` is its resource version. */
  class Hosstedproject {
    var spec: Spec
    var clusterUUID: string
    var helmStatus: seq<HelmInfo>
    var revision: array<int>
    var dnsUpdated: bool
    var version: nat

    function Snapshot(): W.Copy
      reads this, revision
    {
      W.Copy(spec, Status(clusterUUID, helmStatus, revision[..], dnsUpdated), version)
    }

    constructor (copy: W.Copy)
      ensures Snapshot() == copy && fresh(revision)
    {
      spec := copy.spec;
      clusterUUID := copy.status.clusterUUID;
      helmStatus := copy.status.helmStatus;
      dnsUpdated := copy.status.dnsUpdated;
      version := copy.version;
      var stored := copy.status.revision;
      revision := new int[|stored|](i requires 0 <= i < |stored| => stored[i]);
    }
  }

  /** What is posted to `/apps` for one release. */
  class Collector {
    var clusterUUID: string
    const info: HelmInfo

    constructor (clusterUUID: string, info: HelmInfo)
      ensures this.clusterUUID == clusterUUID && this.info == info
    {
      this.clusterUUID := clusterUUID;
      this.info := info;
    }
  }

  /** The collectors describe the recorded entries, index by index. */
  ghost predicate Describe(collectors: seq<Collector>, infos: seq<HelmInfo>) {
    && |collectors| == |infos|
    && forall i | 0 <= i < |infos| :: collectors[i].info == infos[i]
  }

  /** `append` on a slice of ints. */
  method Append(a: array<int>, x: int) returns (b: array<int>)
    ensures fresh(b) && b[..] == a[..] + [x]
  {
    b := new int[a.Length + 1](i requires 0 <= i <= a.Length reads a => if i < a.Length then a[i] else x);
  }

  /** The Kubernetes client, Helm and the HTTP client: each call is one step of the world. */
  class Client {
    var world: W.World

    constructor (world: W.World)
      ensures this.world == world
    {
      this.world := world;
    }

    method Get() returns (copy: Option<W.Copy>)
      modifies this
      ensures (world, copy) == W.Get(old(world))
    {
      var r := W.Get(world);
      world, copy := r.0, r.1;
    }

    method ListNamespaces() returns (namespaces: Option<seq<string>>)
      modifies this
      ensures (world, namespaces) == W.ListNamespaces(old(world))
    {
      var r := W.ListNamespaces(world);
      world, namespaces := r.0, r.1;
    }

    method ListReleases(namespace: string) returns (releases: Option<seq<W.Release>>)
      modifies this
      ensures (world, releases) == W.ListReleases(old(world), namespace)
    {
      var r := W.ListReleases(world, namespace);
      world, releases := r.0, r.1;
    }

    method ListRelease(key: Key) returns (found: Option<bool>)
      modifies this
      ensures (world, found) == W.HasRelease(old(world), key)
    {
      var r := W.HasRelease(world, key);
      world, found := r.0, r.1;
    }

    method GetSecret(namespace: string) returns (secret: W.SecretRead)
      modifies this
      ensures (world, secret) == W.ReadSecret(old(world), namespace)
    {
      var r := W.ReadSecret(world, namespace);
      world, secret := r.0, r.1;
    }

    method GetMarket() returns (market: Option<string>)
      modifies this
      ensures (world, market) == W.ReadMarket(old(world))
    {
      var r := W.ReadMarket(world);
      world, market := r.0, r.1;
    }

    method GetCustomIngressName() returns (name: Option<string>)
      modifies this
      ensures (world, name) == W.ReadCustomName(old(world))
    {
      var r := W.ReadCustomName(world);
      world, name := r.0, r.1;
    }

    method GetIngress(name: string) returns (ing: W.IngressRead)
      modifies this
      ensures (world, ing) == W.ReadIngress(old(world), name)
    {
      var r := W.ReadIngress(world, name);
      world, ing := r.0, r.1;
    }

    method Describe() returns (ok: bool)
      modifies this
      ensures (world, ok) == W.ReadDetails(old(world))
    {
      var r := W.ReadDetails(world);
      world, ok := r.0, r.1;
    }

    method NewString() returns (uuid: string)
      modifies this
      ensures (world, uuid) == W.Mint(old(world))
    {
      var r := W.Mint(world);
      world, uuid := r.0, r.1;
    }

    method HttpRequest(body: W.Event) returns (ok: bool)
      modifies this
      ensures (world, ok) == W.Post(old(world), body)
    {
      var r := W.Post(world, body);
      world, ok := r.0, r.1;
    }

    /** On success the copy is at the new version. */
    method UpdateStatus(instance: Hosstedproject, writer: W.Writer) returns (ok: bool)
      modifies this, instance`version
      ensures (world, instance.Snapshot(), ok) == W.UpdateStatus(old(world), old(instance.Snapshot()), writer)
    {
      var r := W.UpdateStatus(world, instance.Snapshot(), writer);
      world, instance.version, ok := r.0, r.1.version, r.2;
    }

    method Upgrade(install: HelmInstall) returns (ok: bool)
      modifies this
      ensures (world, ok) == W.Upgrade(old(world), install)
    {
      var r := W.Upgrade(world, install);
      world, ok := r.0, r.1;
    }

    method Apply(key: Key) returns (ok: bool)
      modifies this
      ensures (world, ok) == W.Apply(old(world), key)
    {
      var r := W.Apply(world, key);
      world, ok := r.0, r.1;
    }

    method DeleteRelease(key: Key) returns (ok: bool)
      modifies this
      ensures (world, ok) == W.Delete(old(world), key)
    {
      var r := W.Delete(world, key);
      world, ok := r.0, r.1;
    }
  }

  class HosstedProjectReconciler {
    const client: Client

    constructor (client: Client)
      ensures this.client == client
    {
      this.client := client;
    }

    method FindExistingUUID(helmStatus: seq<HelmInfo>, releaseName: string, namespace: string) returns (uuid: string)
      ensures uuid == Api.FindExistingUUID(helmStatus, releaseName, namespace)
    {
      for i := 0 to |helmStatus|
        invariant Api.FindExistingUUID(helmStatus[i..], releaseName, namespace)
               == Api.FindExistingUUID(helmStatus, releaseName, namespace)
      {
        if helmStatus[i].name == releaseName && helmStatus[i].namespace == namespace {
          return helmStatus[i].appUUID;
        }
        assert helmStatus[i..][1..] == helmStatus[i + 1..];
      }
      return "";
    }

    /** The retry loop of `getDns`: it leaves with an address after at most four empty answers. */
    method AwaitAddress(ingressName: string) returns (address: Option<W.IngressRead>)
      modifies client
      ensures (client.world, address) == Reconciliation.AwaitAddress(old(client.world), ingressName, 0)
    {
      var retryCount := 0;
      while retryCount < Reconciliation.MAX_RETRIES
        invariant 0 <= retryCount <= Reconciliation.MAX_RETRIES
        invariant Reconciliation.AwaitAddress(client.world, ingressName, retryCount)
               == Reconciliation.AwaitAddress(old(client.world), ingressName, 0)
      {
        var ing := client.GetIngress(ingressName);
        if ing.Failed? {
          return None;
        }
        if ing.NoAddress? {
          retryCount := retryCount + 1;
          continue;
        }
        return Some(ing);
      }
      return None;
    }

    /** The upgrade loop of `getDns`: the status is persisted after every single upgrade. */
    method UpgradeAll(instance: Hosstedproject, host: string) returns (ok: bool)
      modifies client, instance`dnsUpdated, instance`version
      ensures (client.world, instance.Snapshot(), ok)
           == Reconciliation.UpgradeAll(old(client.world), old(instance.Snapshot()), instance.spec.helm, host)
    {
      hide W.Upgrade, W.UpdateStatus, Tweak;
      var installs := instance.spec.helm;
      for i := 0 to |installs|
        invariant Reconciliation.UpgradeAll(client.world, instance.Snapshot(), installs[i..], host)
               == Reconciliation.UpgradeAll(old(client.world), old(instance.Snapshot()), installs, host)
      {
        var h := installs[i];
        assert installs[i..][1..] == installs[i + 1..];
        var values := TweakIngressHostname(h.values, host);
        var upgraded := client.Upgrade(h.(values := values));
        if !upgraded {
          return false;
        }
        instance.dnsUpdated := true;
        var updated := client.UpdateStatus(instance, W.DnsDone);
        if !updated {
          return false;
        }
      }
      return true;
    }

    method GetDns(instance: Hosstedproject, releaseNamespace: string, appUUID: string) returns (ok: bool)
      modifies client, instance`dnsUpdated, instance`version
      ensures (client.world, instance.Snapshot(), ok)
           == Reconciliation.GetDns(old(client.world), old(instance.Snapshot()), releaseNamespace, appUUID)
    {
      hide W.Post, W.ReadMarket, W.ReadCustomName, Reconciliation.AwaitAddress, Reconciliation.UpgradeAll, ToLower;
      var market := client.GetMarket();
      if market.None? {
        return false;
      }
      if releaseNamespace != market.value {
        return true;
      }
      var custom := client.GetCustomIngressName();
      if custom.None? {
        return false;
      }
      var ingressName := market.value;
      if custom.value != "" {
        ingressName := custom.value;
      }
      var ing := AwaitAddress(ingressName);
      if ing.None? {
        return false;
      }
      var content, kind := "", "";
      if ing.value.ip != "" {
        content, kind := ing.value.ip, "A";
      } else if ing.value.hostname != "" {
        content, kind := ing.value.hostname, "CNAME";
      }
      var name := ToLower(appUUID + ".f.hossted.app");
      var posted := client.HttpRequest(W.Dns(instance.clusterUUID, name, content, kind, instance.version, false));
      if !posted {
        return false;
      }
      ok := UpgradeAll(instance, name);
    }

    method GetHelmInfo(release: W.Release, instance: Hosstedproject) returns (info: HelmInfo)
      modifies client
      ensures (client.world, info)
           == Reconciliation.GetHelmInfo(old(client.world), old(instance.Snapshot()), release)
    {
      var appUUID := FindExistingUUID(instance.helmStatus, release.name, release.namespace);
      if appUUID == "" {
        var id := client.NewString();
        appUUID := "A-" + id;
      }
      return HelmInfo(release.name, release.namespace, appUUID, release.revision, release.about, false);
    }

    /** One turn of the collector's inner loop, up to where its results are appended. */
    method CollectRelease(instance: Hosstedproject, release: W.Release) returns (info: Option<HelmInfo>)
      modifies client, instance`dnsUpdated, instance`version
      ensures (client.world, instance.Snapshot(), info)
           == Reconciliation.CollectRelease(old(client.world), old(instance.Snapshot()), release)
    {
      hide W.ReadSecret, W.ReadDetails, Reconciliation.GetHelmInfo, Reconciliation.GetDns;
      var helmInfo := GetHelmInfo(release, instance);
      if release.hosted {
        var secret := client.GetSecret(release.namespace);
        if !secret.NotFound? {
          var appUUID := if secret.Secret? then secret.uuid else "";
          helmInfo := helmInfo.(appUUID := "A-" + appUUID, hosstedHelm := true);
        }
      }
      if !instance.dnsUpdated {
        var ok := GetDns(instance, release.namespace, helmInfo.appUUID);
        if !ok {
          return None;
        }
      }
      var described := client.Describe();
      if !described {
        return None;
      }
      return Some(helmInfo);
    }

    /** The inner loop of the collector. The appended revisions are not sorted yet. */
    method CollectReleases(instance: Hosstedproject, releases: seq<W.Release>,
                           collectors0: seq<Collector>, revisions0: array<int>, helmStatus0: seq<HelmInfo>)
      returns (collectors: seq<Collector>, revisions: array<int>, helmStatus: seq<HelmInfo>, ok: bool)
      requires Describe(collectors0, helmStatus0)
      requires multiset(revisions0[..]) == multiset(Revisions(helmStatus0))
      modifies client, instance`dnsUpdated, instance`version
      ensures (client.world, instance.Snapshot(), if ok then Some(helmStatus) else None)
           == Reconciliation.CollectReleases(old(client.world), old(instance.Snapshot()), releases, helmStatus0)
      ensures Describe(collectors, helmStatus)
      ensures multiset(revisions[..]) == multiset(Revisions(helmStatus))
      ensures revisions == revisions0 || fresh(revisions)
      ensures forall c | c in collectors :: c in collectors0 || fresh(c)
    {
      hide Reconciliation.CollectRelease;
      collectors, revisions, helmStatus := collectors0, revisions0, helmStatus0;
      for i := 0 to |releases|
        invariant Reconciliation.CollectReleases(client.world, instance.Snapshot(), releases[i..], helmStatus)
               == Reconciliation.CollectReleases(old(client.world), old(instance.Snapshot()), releases, helmStatus0)
        invariant Describe(collectors, helmStatus)
        invariant multiset(revisions[..]) == multiset(Revisions(helmStatus))
        invariant revisions == revisions0 || fresh(revisions)
        invariant forall c | c in collectors :: c in collectors0 || fresh(c)
      {
        assert releases[i..][1..] == releases[i + 1..];
        var helmInfo := CollectRelease(instance, releases[i]);
        if helmInfo.None? {
          return collectors, revisions, helmStatus, false;
        }
        assert Revisions(helmStatus + [helmInfo.value]) == Revisions(helmStatus) + [helmInfo.value.revision];
        revisions := Append(revisions, helmInfo.value.revision);
        var collector := new Collector(instance.clusterUUID, helmInfo.value);
        collectors := collectors + [collector];
        helmStatus := helmStatus + [helmInfo.value];
      }
      ok := true;
    }

    /** The revisions are sorted again after every namespace that has a release. */
    method Collect(instance: Hosstedproject)
      returns (collectors: seq<Collector>, revisions: array<int>, helmStatus: seq<HelmInfo>, ok: bool)
      modifies client, instance`dnsUpdated, instance`version
      ensures (client.world, instance.Snapshot(), if ok then Some(helmStatus) else None)
           == Reconciliation.Collect(old(client.world), old(instance.Snapshot()))
      ensures ok ==> Describe(collectors, helmStatus) && revisions[..] == Sort(Revisions(helmStatus))
      ensures fresh(revisions) && fresh(set c | c in collectors)
    {
      hide W.ListNamespaces, W.ListReleases, Reconciliation.CollectRelease, Sort;
      collectors, revisions, helmStatus := [], new int[0], [];
      var namespaceList := client.ListNamespaces();
      if namespaceList.None? {
        return collectors, revisions, helmStatus, false;
      }
      var filteredNamespaces := Filter(namespaceList.value, instance.spec.denyNamespaces);
      ghost var start := client.world;
      SortIsIdempotent([]);
      for i := 0 to |filteredNamespaces|
        invariant Reconciliation.CollectNamespaces(client.world, instance.Snapshot(),
                                                   filteredNamespaces[i..], helmStatus)
               == Reconciliation.CollectNamespaces(start, old(instance.Snapshot()), filteredNamespaces, [])
        invariant Describe(collectors, helmStatus) && revisions[..] == Sort(Revisions(helmStatus))
        invariant fresh(revisions) && fresh(set c | c in collectors)
      {
        assert filteredNamespaces[i..][1..] == filteredNamespaces[i + 1..];
        var releases := client.ListReleases(filteredNamespaces[i]);
        if releases.None? {
          return collectors, revisions, helmStatus, false;
        }
        if |releases.value| == 0 {
          continue;
        }
        collectors, revisions, helmStatus, ok :=
          CollectReleases(instance, releases.value, collectors, revisions, helmStatus);
        if !ok {
          return;
        }
        SortDecidesMultisetEquality(revisions[..], Revisions(helmStatus));
        SortInts(revisions);
      }
      ok := true;
    }

    /** The id is filled in through the pointer just before each request. */
    method RegisterApps(instance: Hosstedproject, collectors: seq<Collector>, ghost infos: seq<HelmInfo>)
      returns (ok: bool)
      requires Describe(collectors, infos)
      modifies client, set c | c in collectors
      ensures (client.world, ok) == Reconciliation.RegisterApps(old(client.world), instance.Snapshot(), infos)
      ensures ok ==> forall c | c in collectors :: c.clusterUUID == instance.clusterUUID
    {
      hide W.Post;
      for i := 0 to |collectors|
        invariant Reconciliation.RegisterApps(client.world, instance.Snapshot(), infos[i..])
               == Reconciliation.RegisterApps(old(client.world), instance.Snapshot(), infos)
        invariant forall j | 0 <= j < i :: collectors[j].clusterUUID == instance.clusterUUID
      {
        assert infos[i..][1..] == infos[i + 1..];
        collectors[i].clusterUUID := instance.clusterUUID;
        var posted := client.HttpRequest(W.App(collectors[i].clusterUUID, collectors[i].info, instance.version, false));
        if !posted {
          return false;
        }
      }
      return true;
    }

    method RegisterClusterUUID(instance: Hosstedproject, clusterUUID: string) returns (ok: bool)
      modifies client
      ensures (client.world, ok) == W.Post(old(client.world), W.Register(clusterUUID, instance.version, false))
    {
      ok := client.HttpRequest(W.Register(clusterUUID, instance.version, false));
    }

    method HandleMonitoring(instance: Hosstedproject) returns (ok: bool)
      modifies client
      ensures (client.world, ok) == Reconciliation.HandleMonitoring(old(client.world), instance.Snapshot())
    {
      hide W.Apply, W.Delete, W.ReadDetails, W.HasRelease;
      if instance.spec.monitoring {
        var found := client.ListRelease(Reconciliation.ALLOY);
        if found.None? {
          return false;
        }
        if !found.value {
          var created := client.Describe();
          var agent := client.Apply(Reconciliation.ALLOY);
          var metrics := client.Apply(Reconciliation.STATE_METRICS);
        }
      } else {
        var found := client.ListRelease(Reconciliation.ALLOY_CHART);
        if found.None? {
          return false;
        }
        if found.value {
          var deleted := client.DeleteRelease(Reconciliation.STATE_METRICS);
          if !deleted {
            return false;
          }
          deleted := client.DeleteRelease(Reconciliation.ALLOY);
          if !deleted {
            return false;
          }
          deleted := client.Describe();
          return deleted;
        }
      }
      return true;
    }

    method HandleIngress(instance: Hosstedproject) returns (ok: bool)
      modifies client
      ensures (client.world, ok) == Reconciliation.HandleIngress(old(client.world), instance.Snapshot())
    {
      hide W.Apply, W.Delete, W.HasRelease;
      var found := client.ListRelease(Reconciliation.INGRESS_CHART);
      if found.None? {
        return false;
      }
      if instance.spec.ingress {
        if !found.value {
          var installed := client.Apply(Reconciliation.INGRESS);
        }
      } else if found.value {
        ok := client.DeleteRelease(Reconciliation.INGRESS_CHART);
        return;
      }
      return true;
    }

    /**
     * The comparison sorts both slices in place. On a difference every application is posted before
     * the record is replaced; otherwise nothing is written.
     */
    method HandleExistingCluster(instance: Hosstedproject, collectors: seq<Collector>,
                                 currentRevision: array<int>, helmStatus: seq<HelmInfo>) returns (ok: bool)
      requires Describe(collectors, helmStatus) && currentRevision[..] == Sort(Revisions(helmStatus))
      requires instance.revision != currentRevision
      modifies client, instance, instance.revision, currentRevision, set c | c in collectors
      ensures (client.world, instance.Snapshot(), ok)
           == Reconciliation.HandleExistingCluster(old(client.world), old(instance.Snapshot()), helmStatus)
      ensures instance.revision == old(instance.revision) || instance.revision == currentRevision
    {
      hide W.UpdateStatus, Reconciliation.RegisterApps, Reconciliation.HandleMonitoring, Sort;
      SortIsIdempotent(Revisions(helmStatus));
      ghost var before := instance.Snapshot();
      var same := CompareSlices(instance.revision, currentRevision);
      assert instance.Snapshot() == Reconciliation.Compared(before, Revisions(helmStatus));
      if !same {
        var registered := RegisterApps(instance, collectors, helmStatus);
        if !registered {
          return false;
        }
        instance.helmStatus := helmStatus;
        instance.revision := currentRevision;
        ok := client.UpdateStatus(instance, W.Existing);
        return;
      }
      ok := HandleMonitoring(instance);
    }

    /** The record is persisted before the applications are posted. */
    method HandleNewCluster(instance: Hosstedproject) returns (ok: bool)
      modifies client, instance, instance.revision
      ensures (client.world, instance.Snapshot(), ok)
           == Reconciliation.HandleNewCluster(old(client.world), old(instance.Snapshot()))
      ensures instance.revision == old(instance.revision) || fresh(instance.revision)
    {
      hide W.Post, W.UpdateStatus, Reconciliation.Collect, Reconciliation.RegisterApps, Sort;
      var registered := RegisterClusterUUID(instance, instance.clusterUUID);
      if !registered {
        return false;
      }
      var collectors, currentRevision, helmStatus, collected := Collect(instance);
      if !collected {
        return false;
      }
      SortIsIdempotent(Revisions(helmStatus));
      SortInts(currentRevision);
      instance.helmStatus := helmStatus;
      instance.revision := currentRevision;
      var updated := client.UpdateStatus(instance, W.First);
      if !updated {
        return false;
      }
      ok := RegisterApps(instance, collectors, helmStatus);
    }

    /** The branch for a resource without a cluster id is followed by the branch for every resource. */
    method HandleReconciliation(instance: Hosstedproject) returns (ok: bool)
      modifies client, instance, instance.revision
      ensures (client.world, instance.Snapshot(), ok)
           == Reconciliation.HandleReconciliation(old(client.world), old(instance.Snapshot()))
    {
      hide W.Mint, W.UpdateStatus, Reconciliation.HandleIngress, Reconciliation.HandleNewCluster;
      hide Reconciliation.Collect, Reconciliation.HandleExistingCluster, Sort;
      if instance.clusterUUID == "" {
        var id := client.NewString();
        instance.clusterUUID := "K-" + id;
        var updated := client.UpdateStatus(instance, W.Claim);
        if !updated {
          return false;
        }
        var exposed := HandleIngress(instance);
        if !exposed {
          return false;
        }
        var registered := HandleNewCluster(instance);
        if !registered {
          return false;
        }
      }
      var collectors, currentRevision, helmStatus, collected := Collect(instance);
      if !collected {
        return false;
      }
      ok := HandleExistingCluster(instance, collectors, currentRevision, helmStatus);
    }

    /** One reconcile. The in-memory copy is new each time. */
    method Reconcile() returns (ok: bool)
      modifies client
      ensures (client.world, ok) == Reconciliation.Reconcile(old(client.world))
    {
      hide W.Get, W.HasRelease, W.Apply, Reconciliation.HandleReconciliation;
      var copy := client.Get();
      if copy.None? {
        return false;
      }
      var instance := new Hosstedproject(copy.value);
      if !instance.spec.stop {
        ok := HandleReconciliation(instance);
        return;
      }
      ghost var start := client.world;
      var installs := instance.spec.helm;
      for i := 0 to |installs|
        invariant Reconciliation.InstallAll(client.world, installs[i..]) == Reconciliation.InstallAll(start, installs)
      {
        assert installs[i..][1..] == installs[i + 1..];
        var found := client.ListRelease(InstallKey(installs[i]));
        if found.None? {
          return false;
        }
        if !found.value {
          var installed := client.Apply(InstallKey(installs[i]));
          if !installed {
            return false;
          }
        }
      }
      return true;
    }
  }
}
