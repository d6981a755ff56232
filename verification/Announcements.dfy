/**
 * What the DNS step announces: which answers of the cluster make it send a record, what the record says
 * and under which name, and that nothing else is ever sent as one.
 */
module Announcements {
  import opened Api
  import opened Dns
  import opened Failures
  import opened IngressValues
  import opened Naming
  import opened Reconciliation
  import opened Rounds
  import opened Text
  import opened Utils
  import opened World

  /** What a read of the ingress gives `i` ticks after tick `t`. */
  ghost function ReadAt(env: Environment, t: nat, i: nat, ingressName: string): IngressRead {
    if Answered(env, t + i) then env.turn(t + i).ingress(ingressName) else Failed
  }

  /** Read from tick `t` on, the ingress has no address `k` times, fewer than five, and then this one. */
  ghost predicate Comes(env: Environment, t: nat, ingressName: string, k: nat, ip: string, hostname: string) {
    && k < 5
    && (forall i: nat | i < k :: ReadAt(env, t, i, ingressName) == NoAddress)
    && ReadAt(env, t, k, ingressName) == Address(ip, hostname)
  }

  /**
   * The answers from tick `t` on send the DNS step for a release of `namespace` to this address: it is
   * the market namespace, and the ingress is the custom one or else the one named after the namespace.
   */
  ghost predicate Serves(env: Environment, t: nat, namespace: string, k: nat, ip: string, hostname: string) {
    && Answered(env, t) && env.turn(t).market == Some(namespace)
    && Answered(env, t + 1) && env.turn(t + 1).customName.Some?
    && var custom := env.turn(t + 1).customName.value;
       Comes(env, t + 2, if custom == "" then namespace else custom, k, ip, hostname)
  }

  /** A record for this address, under the lower-case name of the application: an IP wins over a host name. */
  ghost predicate Announces(e: Event, appUUID: string, ip: string, hostname: string) {
    && e.Dns? && Lowered(appUUID + ".f.hossted.app", e.name)
    && (ip != "" ==> e.content == ip && e.kind == "A")
    && (ip == "" && hostname != "" ==> e.content == hostname && e.kind == "CNAME")
    && (ip == hostname == "" ==> e.content == e.kind == "")
  }

  /** An upgrade of `h` with its values repointed to `host` and everything else as declared. */
  ghost predicate Repoints(e: Event, h: HelmInstall, host: string) {
    && e.Upgraded? && e.install == h.(values := e.install.values) && |e.install.values| == |h.values|
    && forall i | 0 <= i < |h.values| :: Repointed(h.values[i], e.install.values[i], host)
  }

  /** From `a` to `b` at most `|installs|` upgrades, those of the first of `installs`, in order. */
  ghost predicate RepointsFirst(a: nat, b: seq<Event>, installs: seq<HelmInstall>, host: string) {
    && a <= |b| <= a + |installs|
    && forall i | a <= i < |b| :: Repoints(b[i], installs[i - a], host)
  }

  // ---- the wait --------------------------------------------------------------------------------

  /** The wait finds an address exactly when one comes. */
  lemma AwaitsWhatComes(w: World, ingressName: string)
    ensures var (w1, address) := AwaitAddress(w, ingressName, 0);
            && w1.env == w.env && w1.log == w.log && w.clock <= w1.clock
            && (address.Some? ==>
                  w1.clock > w.clock
                  && Comes(w.env, w.clock, ingressName, w1.clock - w.clock - 1,
                           address.value.ip, address.value.hostname))
            && (forall k: nat, ip, hostname | Comes(w.env, w.clock, ingressName, k, ip, hostname) ::
                  address == Some(Address(ip, hostname)) && w1.clock == w.clock + k + 1)
  {
    hide AwaitAddress;
    WaitStopsAtFirstAnswer(w, ingressName, 0);
    AwaitKeepsNames(w, ingressName, 0);
    var (w1, address) := AwaitAddress(w, ingressName, 0);
    var last: nat := w1.clock - w.clock - 1;
    forall i: nat
      ensures AnswerAt(w, ingressName, i) == ReadAt(w.env, w.clock, i, ingressName)
    {
    }
    forall k: nat, ip, hostname | Comes(w.env, w.clock, ingressName, k, ip, hostname)
      ensures address == Some(Address(ip, hostname)) && w1.clock == w.clock + k + 1
    {
      assert AnswerAt(w, ingressName, k) == Address(ip, hostname);
      assert last < k ==> AnswerAt(w, ingressName, last).NoAddress?;
      assert k < last ==> AnswerAt(w, ingressName, k).NoAddress?;
    }
  }

  // ---- the record and the upgrades -------------------------------------------------------------

  lemma UpgradesRepoint(w: World, copy: Copy, installs: seq<HelmInstall>, host: string)
    ensures var (w1, _, ok) := UpgradeAll(w, copy, installs, host);
            && w.log <= w1.log && RepointsFirst(|w.log|, w1.log, installs, host)
            && (ok ==> |w1.log| == |w.log| + |installs|)
  {
    hide UpgradeAll, Repointed;
    UpgradesArePrefix(w, copy, installs, host);
    var w1 := UpgradeAll(w, copy, installs, host).0;
    forall i | |w.log| <= i < |w1.log|
      ensures Repoints(w1.log[i], installs[i - |w.log|], host)
    {
      var h := installs[i - |w.log|];
      forall v | 0 <= v < |h.values|
        ensures Repointed(h.values[v], w1.log[i].install.values[v], host)
      {
        TweakRepoints(h.values, host, v);
      }
    }
  }

  /** What a DNS step that starts at tick `t` adds to the log and returns. */
  ghost predicate DnsOutcome(
    env: Environment, t: nat, a: seq<Event>, b: seq<Event>, copy: Copy, namespace: string, appUUID: string, ok: bool)
  {
    && a <= b
    && (forall k: nat, ip, hostname |
          Serves(env, t, namespace, k, ip, hostname) && !env.turn(t + k + 3).fault.LostRequest? ::
          && |b| > |a| && Announces(b[|a|], appUUID, ip, hostname)
          && b[|a|].cluster == copy.status.clusterUUID && b[|a|].basis == copy.version
          && (b[|a|].ack <==> Answered(env, t + k + 3))
          && RepointsFirst(|a| + 1, b, copy.spec.helm, b[|a|].name)
          && (if b[|a|].ack then ok ==> |b| == |a| + 1 + |copy.spec.helm| else |b| == |a| + 1 && !ok))
    && ((forall k: nat, ip, hostname :: Serves(env, t, namespace, k, ip, hostname) ==>
           env.turn(t + k + 3).fault.LostRequest?) ==>
          b == a && (ok <==> Answered(env, t) && env.turn(t).market.Some? && env.turn(t).market != Some(namespace)))
  }

  lemma AnnounceOutcome(w: World, copy: Copy, ing: IngressRead, appUUID: string)
    requires ing.Address?
    ensures var (w1, _, ok) := Announce(w, copy, ing, appUUID);
            if w.Turn().fault.LostRequest? then w1.log == w.log && !ok
            else
              && w.log < w1.log && Announces(w1.log[|w.log|], appUUID, ing.ip, ing.hostname)
              && w1.log[|w.log|].cluster == copy.status.clusterUUID && w1.log[|w.log|].basis == copy.version
              && (w1.log[|w.log|].ack <==> w.Turn().fault.Delivered?)
              && RepointsFirst(|w.log| + 1, w1.log, copy.spec.helm, w1.log[|w.log|].name)
              && (if w1.log[|w.log|].ack then ok ==> |w1.log| == |w.log| + 1 + |copy.spec.helm|
                  else |w1.log| == |w.log| + 1 && !ok)
  {
    hide UpgradeAll, ToLower, Lowered, Repoints;
    ToLowerLowers(appUUID + ".f.hossted.app");
    var (w1, posted) := Post(w, DnsRecord(copy, ing, appUUID));
    if posted {
      UpgradesRepoint(w1, copy, copy.spec.helm, HostName(appUUID));
      var w2 := UpgradeAll(w1, copy, copy.spec.helm, HostName(appUUID)).0;
      assert w2.log[|w.log|] == w1.log[|w.log|];
    }
  }

  /**
   * The DNS step, exactly. It sends a record if and only if the answers serve an address and the request
   * arrives: that address, under the name of the application and as the right kind of record, once, and
   * after it only upgrades of the declared releases to that name. A release of another namespace passes.
   */
  lemma GetDnsExactly(w: World, copy: Copy, namespace: string, appUUID: string)
    ensures var (w1, _, ok) := GetDns(w, copy, namespace, appUUID);
            DnsOutcome(w.env, w.clock, w.log, w1.log, copy, namespace, appUUID, ok)
  {
    hide AwaitAddress, Announce, Announces, RepointsFirst, Comes;
    var (w1, market) := ReadMarket(w);
    assert w1.env == w.env && w1.clock == w.clock + 1 && w1.log == w.log;
    if market == Some(namespace) {
      var (w2, custom) := ReadCustomName(w1);
      assert w2.env == w.env && w2.clock == w.clock + 2 && w2.log == w.log;
      if custom.Some? {
        var name := IngressName(custom.value, namespace);
        AwaitsWhatComes(w2, name);
        var (w3, ing) := AwaitAddress(w2, name, 0);
        if ing.Some? {
          var k: nat := w3.clock - w2.clock - 1;
          assert Serves(w.env, w.clock, namespace, k, ing.value.ip, ing.value.hostname);
          AnnounceOutcome(w3, copy, ing.value, appUUID);
        }
      }
    }
  }

  // ---- one release -----------------------------------------------------------------------------

  /** The UUID of a release's entry, given the answer about its namespace's secret. */
  ghost predicate Named(w: World, copy: Copy, r: Release, appUUID: string) {
    var known := FindExistingUUID(copy.status.helmStatus, r.name, r.namespace);
    match w.env.turn(w.clock).secrets(r.namespace)
    case Secret(uuid) => appUUID == if r.hosted then "A-" + uuid else if known != "" then known else Fresh(w)
    case Unreadable => appUUID == if r.hosted then "A-" else if known != "" then known else Fresh(w)
    case NotFound => appUUID == if known != "" then known else Fresh(w)
  }

  ghost function Fresh(w: World): string {
    "A-" + w.env.uuid(w.minted)
  }

  /** `info` is the entry of `r` under that UUID, flagged as the answer `secret` says. */
  ghost predicate IsEntry(r: Release, appUUID: string, secret: SecretRead, info: HelmInfo) {
    && info.name == r.name && info.namespace == r.namespace && info.revision == r.revision && info.about == r.about
    && info.appUUID == appUUID && (info.hosstedHelm <==> r.hosted && !secret.NotFound?)
  }

  lemma EntryComesFirst(w: World, copy: Copy, r: Release)
    ensures var (w1, found) := GetHelmInfo(w, copy, r);
            var (w2, info) := ApplySecret(w1, r, found);
            && Named(w, copy, r, info.appUUID)
            && IsEntry(r, info.appUUID, w.env.turn(w.clock).secrets(r.namespace), info)
            && w2.env == w.env && w2.log == w.log && w2.clock == if r.hosted then w.clock + 1 else w.clock
  {
    hide FindExistingUUID;
    assert "A-" + "" == "A-";
  }

  /**
   * One release, exactly. Its entry describes it, and is flagged if and only if the release is hosted and
   * its namespace has a secret or one that cannot be read, which is looked up first. The DNS step follows,
   * unless the mark is set, for that namespace and under the UUID of the entry. The entry is there if and
   * only if the DNS step completed and the last call, which describes the release, was answered.
   */
  lemma CollectReleaseExactly(w: World, copy: Copy, r: Release) returns (appUUID: string, dns: bool)
    ensures Named(w, copy, r, appUUID)
    ensures var (w1, copy1, info) := CollectRelease(w, copy, r);
            var t := if r.hosted then w.clock + 1 else w.clock;
            && (info.Some? ==> IsEntry(r, appUUID, w.env.turn(w.clock).secrets(r.namespace), info.value))
            && (if copy.status.dnsUpdated then dns && copy1 == copy && w1.log == w.log && w1.clock == t + 1
                else DnsOutcome(w.env, t, w.log, w1.log, copy, r.namespace, appUUID, dns))
            && w1.clock > w.clock && (info.Some? <==> dns && Answered(w.env, w1.clock - 1))
  {
    hide GetDns, DnsOutcome, GetHelmInfo, ApplySecret, Named, IsEntry;
    EntryComesFirst(w, copy, r);
    var (w1, found) := GetHelmInfo(w, copy, r);
    var (w2, info) := ApplySecret(w1, r, found);
    appUUID := info.appUUID;
    dns := true;
    if !copy.status.dnsUpdated {
      GetDnsExactly(w2, copy, r.namespace, appUUID);
      DnsKeepsNames(w2, copy, r.namespace, appUUID);
      dns := GetDns(w2, copy, r.namespace, appUUID).2;
      DnsTakesTime(w2, copy, r.namespace, appUUID);
    }
  }

  lemma DnsTakesTime(w: World, copy: Copy, namespace: string, appUUID: string)
    ensures GetDns(w, copy, namespace, appUUID).0.clock > w.clock
  {
    hide AwaitAddress, Announce;
    var (w1, market) := ReadMarket(w);
    if market == Some(namespace) {
      var (w2, custom) := ReadCustomName(w1);
      if custom.Some? {
        var name := IngressName(custom.value, namespace);
        AwaitsWhatComes(w2, name);
        var (w3, ing) := AwaitAddress(w2, name, 0);
        if ing.Some? {
          AnnounceTakesTime(w3, copy, ing.value, appUUID);
        }
      }
    }
  }

  lemma AnnounceTakesTime(w: World, copy: Copy, ing: IngressRead, appUUID: string)
    requires ing.Address?
    ensures var w1 := Announce(w, copy, ing, appUUID).0; w1.env == w.env && w1.clock > w.clock
  {
    var (w1, posted) := Post(w, DnsRecord(copy, ing, appUUID));
    UpgradesKeepNames(w1, copy, copy.spec.helm, HostName(appUUID));
  }

  // ---- a run -----------------------------------------------------------------------------------

  /** Answers between the ticks `lo` and `hi` sent the operator to the address that this record announces. */
  ghost predicate Served(env: Environment, lo: nat, hi: nat, e: Event) {
    exists t: nat, namespace, k: nat, ip, hostname, appUUID ::
      lo <= t && t + k + 3 < hi && Serves(env, t, namespace, k, ip, hostname) && Announces(e, appUUID, ip, hostname)
  }

  /** Every record that was sent from `a` to `b` announces what was answered in between. */
  ghost predicate AllServed(a: World, b: World) {
    && b.env == a.env && a.clock <= b.clock && a.log <= b.log
    && forall j | |a.log| <= j < |b.log| && b.log[j].Dns? :: Served(a.env, a.clock, b.clock, b.log[j])
  }

  lemma ServedWithin(env: Environment, lo: nat, lo1: nat, hi1: nat, hi: nat, e: Event)
    requires Served(env, lo1, hi1, e) && lo <= lo1 && hi1 <= hi
    ensures Served(env, lo, hi, e)
  {
    hide Serves, Announces;
    var t: nat, namespace, k: nat, ip, hostname, appUUID :|
      lo1 <= t && t + k + 3 < hi1 && Serves(env, t, namespace, k, ip, hostname) && Announces(e, appUUID, ip, hostname);
  }

  lemma ServedChains(a: World, b: World, c: World)
    requires AllServed(a, b) && AllServed(b, c)
    ensures AllServed(a, c)
  {
    hide Served;
    forall j | |a.log| <= j < |c.log| && c.log[j].Dns?
      ensures Served(a.env, a.clock, c.clock, c.log[j])
    {
      if j < |b.log| {
        assert c.log[j] == b.log[j];
        ServedWithin(a.env, a.clock, a.clock, b.clock, c.clock, b.log[j]);
      } else {
        ServedWithin(a.env, a.clock, b.clock, c.clock, c.clock, c.log[j]);
      }
    }
  }

  lemma SilentlyServed(a: World, b: World)
    requires b.env == a.env && a.clock <= b.clock && a.log <= b.log
    requires forall j | |a.log| <= j < |b.log| :: !b.log[j].Dns?
    ensures AllServed(a, b)
  {
  }

  lemma DnsServes(w: World, copy: Copy, namespace: string, appUUID: string)
    ensures AllServed(w, GetDns(w, copy, namespace, appUUID).0)
  {
    hide AwaitAddress, Announce, Announces, RepointsFirst, Comes, Served;
    var (w1, market) := ReadMarket(w);
    if market == Some(namespace) {
      var (w2, custom) := ReadCustomName(w1);
      if custom.Some? {
        var name := IngressName(custom.value, namespace);
        AwaitsWhatComes(w2, name);
        var (w3, ing) := AwaitAddress(w2, name, 0);
        if ing.Some? {
          var k: nat := w3.clock - w2.clock - 1;
          assert Serves(w.env, w.clock, namespace, k, ing.value.ip, ing.value.hostname);
          AnnounceServes(w, w3, copy, ing.value, namespace, k, appUUID);
        }
      }
    }
  }

  lemma AnnounceServes(w: World, w1: World, copy: Copy, ing: IngressRead, namespace: string, k: nat, appUUID: string)
    requires ing.Address? && w1.env == w.env && w1.log == w.log && w1.clock == w.clock + k + 3
    requires Serves(w.env, w.clock, namespace, k, ing.ip, ing.hostname)
    ensures AllServed(w, Announce(w1, copy, ing, appUUID).0)
  {
    hide Announce, Serves, Lowered, Repoints;
    AnnounceOutcome(w1, copy, ing, appUUID);
    AnnounceTakesTime(w1, copy, ing, appUUID);
    var w2 := Announce(w1, copy, ing, appUUID).0;
    if w2.log != w.log {
      assert Served(w.env, w.clock, w2.clock, w2.log[|w.log|]);
      forall j | |w.log| < j < |w2.log|
        ensures !w2.log[j].Dns?
      {
        RepointsUpgrades(w2.log[j], copy.spec.helm[j - (|w.log| + 1)], w2.log[|w.log|].name);
      }
    }
  }

  lemma RepointsUpgrades(e: Event, h: HelmInstall, host: string)
    requires Repoints(e, h, host)
    ensures e.Upgraded?
  {
  }

  lemma ReleaseServes(w: World, copy: Copy, r: Release)
    ensures AllServed(w, CollectRelease(w, copy, r).0)
  {
    hide GetDns, Served;
    var (w1, found) := GetHelmInfo(w, copy, r);
    var (w2, info) := ApplySecret(w1, r, found);
    SilentlyServed(w, w2);
    if !copy.status.dnsUpdated {
      DnsServes(w2, copy, r.namespace, info.appUUID);
      var w3 := GetDns(w2, copy, r.namespace, info.appUUID).0;
      ServedChains(w, w2, w3);
      SilentlyServed(w3, w3.Wake());
      ServedChains(w, w3, w3.Wake());
    } else {
      SilentlyServed(w2, w2.Wake());
      ServedChains(w, w2, w2.Wake());
    }
  }

  lemma {:induction false} ReleasesServe(w: World, copy: Copy, releases: seq<Release>, infos: seq<HelmInfo>)
    ensures AllServed(w, CollectReleases(w, copy, releases, infos).0)
    decreases |releases|
  {
    hide CollectRelease, AllServed;
    SilentlyServed(w, w);
    if releases != [] {
      ReleaseServes(w, copy, releases[0]);
      var (w1, copy1, info) := CollectRelease(w, copy, releases[0]);
      if info.Some? {
        ReleasesServe(w1, copy1, releases[1..], infos + [info.value]);
        ServedChains(w, w1, CollectReleases(w1, copy1, releases[1..], infos + [info.value]).0);
      }
    }
  }

  lemma {:induction false} NamespacesServe(w: World, copy: Copy, namespaces: seq<string>, infos: seq<HelmInfo>)
    ensures AllServed(w, CollectNamespaces(w, copy, namespaces, infos).0)
    decreases |namespaces|
  {
    hide CollectReleases, AllServed;
    SilentlyServed(w, w);
    if namespaces != [] {
      var (w1, releases) := ListReleases(w, namespaces[0]);
      SilentlyServed(w, w1);
      if releases.Some? {
        ReleasesServe(w1, copy, releases.value, infos);
        var (w2, copy2, more) := CollectReleases(w1, copy, releases.value, infos);
        ServedChains(w, w1, w2);
        if more.Some? {
          NamespacesServe(w2, copy2, namespaces[1..], more.value);
          ServedChains(w, w2, CollectNamespaces(w2, copy2, namespaces[1..], more.value).0);
        }
      }
    }
  }

  lemma CollectServes(w: World, copy: Copy)
    ensures AllServed(w, Collect(w, copy).0)
  {
    hide CollectNamespaces, AllServed;
    var (w1, namespaces) := ListNamespaces(w);
    SilentlyServed(w, w1);
    if namespaces.Some? {
      var list := Allowed(namespaces.value, copy.spec.denyNamespaces);
      NamespacesServe(w1, copy, list, []);
      ServedChains(w, w1, CollectNamespaces(w1, copy, list, []).0);
    }
  }

  lemma ExistingServes(w: World, copy: Copy, infos: seq<HelmInfo>)
    ensures AllServed(w, HandleExistingCluster(w, copy, infos).0)
  {
    hide HandleExistingCluster, NothingHosted;
    ExistingLeavesDnsAlone(w, copy, infos);
    ExistingStops(w, copy, infos);
  }

  lemma NewClusterServes(w: World, copy: Copy)
    ensures AllServed(w, HandleNewCluster(w, copy).0)
  {
    hide Collect, RegisterApps, AllServed, NothingHosted;
    var w1 := Post(w, Register(copy.status.clusterUUID, copy.version, false)).0;
    SilentlyServed(w, w1);
    CollectServes(w1, copy);
    var (w2, copy2, infos) := Collect(w1, copy);
    ServedChains(w, w1, w2);
    if infos.Some? {
      var (w3, copy3, _) := UpdateStatus(w2, Recorded(copy2, infos.value), First);
      SilentlyServed(w2, w3);
      ServedChains(w, w2, w3);
      RegistrationSends(w3, copy3, infos.value);
      RegistrationStops(w3, copy3, infos.value);
      SilentlyServed(w3, RegisterApps(w3, copy3, infos.value).0);
      ServedChains(w, w3, RegisterApps(w3, copy3, infos.value).0);
    }
  }

  lemma FirstDeploymentServes(w: World, copy: Copy)
    ensures AllServed(w, FirstDeployment(w, copy).0)
  {
    hide HandleIngress, HandleNewCluster, AllServed, NothingHosted;
    var (w1, id) := Mint(w);
    var named := copy.(status := copy.status.(clusterUUID := "K-" + id));
    var (w2, copy2, updated) := UpdateStatus(w1, named, Claim);
    SilentlyServed(w, w2);
    IngressChurns(w2, copy2);
    IngressStops(w2, copy2);
    var w3 := HandleIngress(w2, copy2).0;
    SilentlyServed(w2, w3);
    ServedChains(w, w2, w3);
    NewClusterServes(w3, copy2);
    ServedChains(w, w3, HandleNewCluster(w3, copy2).0);
  }

  lemma ReconcileServes(w: World)
    ensures AllServed(w, Reconcile(w).0)
  {
    hide InstallAll, FirstDeployment, Collect, HandleExistingCluster, AllServed, NothingHosted;
    var (w1, copy) := Get(w);
    SilentlyServed(w, w1);
    if copy.Some? {
      if copy.value.spec.stop {
        InstallAllChurns(w1, copy.value.spec.helm);
        InstallsStop(w1, copy.value.spec.helm);
        SilentlyServed(w1, InstallAll(w1, copy.value.spec.helm).0);
        ServedChains(w, w1, InstallAll(w1, copy.value.spec.helm).0);
      } else {
        ReconciliationServes(w1, copy.value);
        ServedChains(w, w1, HandleReconciliation(w1, copy.value).0);
      }
    }
  }

  lemma ReconciliationServes(w: World, copy: Copy)
    ensures AllServed(w, HandleReconciliation(w, copy).0)
  {
    hide FirstDeployment, Collect, HandleExistingCluster, AllServed;
    SilentlyServed(w, w);
    FirstDeploymentServes(w, copy);
    var (w1, copy1, ok) := if copy.status.clusterUUID == "" then FirstDeployment(w, copy) else (w, copy, true);
    if ok {
      CollectServes(w1, copy1);
      var (w2, copy2, infos) := Collect(w1, copy1);
      ServedChains(w, w1, w2);
      if infos.Some? {
        ExistingServes(w2, copy2, infos.value);
        ServedChains(w, w2, HandleExistingCluster(w2, copy2, infos.value).0);
      }
    }
  }

  /**
   * Over any run, whatever fails: each DNS record announces the address that the ingress had, as read in
   * that run just before, for the market namespace and in the right form.
   */
  lemma {:induction false} RecordsSayWhatWasRead(w: World, n: nat)
    ensures AllServed(w, Run(w, n))
  {
    hide Reconcile, AllServed;
    if n > 0 {
      RecordsSayWhatWasRead(w, n - 1);
      ReconcileServes(Run(w, n - 1));
      ServedChains(w, Run(w, n - 1), Run(w, n));
    } else {
      SilentlyServed(w, w);
    }
  }
}
