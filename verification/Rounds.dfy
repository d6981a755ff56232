/** What a single collection and a single reconcile see and send. */
module Rounds {
  import opened Api
  import opened Guarantees
  import opened Naming
  import opened Reconciliation
  import opened SafeRuns
  import opened Safety
  import opened Sorting
  import opened Text
  import opened Utils
  import opened World

  // ---- the collector as a flat map -------------------------------------------------------------

  /** The moments at which a collection lists its namespaces, one per namespace. */
  function Moments(w: World, copy: Copy, namespaces: seq<string>, infos: seq<HelmInfo>): seq<World>
    decreases |namespaces|
  {
    if namespaces == [] then []
    else
      var (w1, releases) := ListReleases(w, namespaces[0]);
      if releases.None? then []
      else
        var (w2, copy2, more) := CollectReleases(w1, copy, releases.value, infos);
        if more.None? then [w1] else [w1] + Moments(w2, copy2, namespaces[1..], more.value)
  }

  /** All releases that each namespace has at its moment. */
  function Listings(moments: seq<World>, namespaces: seq<string>): seq<seq<Release>>
    requires |moments| == |namespaces|
  {
    seq(|moments|, i requires 0 <= i < |moments| => InNamespace(moments[i].helm, namespaces[i]))
  }

  function Flatten<T>(lists: seq<seq<T>>): seq<T> {
    if lists == [] then [] else lists[0] + Flatten(lists[1..])
  }

  lemma ReleaseIsDescribed(w: World, copy: Copy, r: Release, tick: nat)
    requires tick <= w.clock
    ensures var (w1, copy1, info) := CollectRelease(w, copy, r);
            && w1.env == w.env && w.clock <= w1.clock && copy1.status.helmStatus == copy.status.helmStatus
            && (info.Some? ==> Describes(w.env, tick, copy.status.helmStatus, r, info.value))
  {
    hide GetDns;
    CollectedIsFaithful(w, copy, r, tick);
    var (w1, found) := GetHelmInfo(w, copy, r);
    var (w2, info) := ApplySecret(w1, r, found);
    DnsKeepsNames(w2, copy, r.namespace, info.appUUID);
  }

  lemma {:induction false} ReleasesAreDescribed(
    w: World, copy: Copy, releases: seq<Release>, infos: seq<HelmInfo>, tick: nat)
    requires tick <= w.clock
    ensures var (w1, copy1, all) := CollectReleases(w, copy, releases, infos);
            && w1.env == w.env && w.clock <= w1.clock && copy1.status.helmStatus == copy.status.helmStatus
            && (all.Some? ==> Gained(w.env, tick, copy.status.helmStatus, releases, infos, all.value))
    decreases |releases|
  {
    hide CollectRelease;
    if releases != [] {
      ReleaseIsDescribed(w, copy, releases[0], tick);
      var (w1, copy1, info) := CollectRelease(w, copy, releases[0]);
      if info.Some? {
        ReleasesAreDescribed(w1, copy1, releases[1..], infos + [info.value], tick);
        var (w2, copy2, all) := CollectReleases(w1, copy1, releases[1..], infos + [info.value]);
        if all.Some? {
          GainedChains(w.env, tick, copy.status.helmStatus, releases, infos, info.value, all.value);
        }
      }
    }
  }

  lemma GainedConcat(env: Environment, tick: nat, prior: seq<HelmInfo>, first: seq<Release>, rest: seq<Release>,
                     a: seq<HelmInfo>, b: seq<HelmInfo>, c: seq<HelmInfo>)
    requires Gained(env, tick, prior, first, a, b) && Gained(env, tick, prior, rest, b, c)
    ensures Gained(env, tick, prior, first + rest, a, c)
  {
    assert c[..|a|] == c[..|b|][..|a|];
    forall i | 0 <= i < |first + rest|
      ensures Describes(env, tick, prior, (first + rest)[i], c[|a| + i])
    {
      if i < |first| {
        assert c[|a| + i] == c[..|b|][|a| + i];
      } else {
        assert c[|b| + (i - |first|)] == c[|a| + i];
      }
    }
  }

  /** Between `w` and `end`, in order. */
  ghost predicate InOrder(w: World, moments: seq<World>, end: World) {
    && w.clock <= end.clock
    && (forall i | 0 <= i < |moments| ::
          moments[i].env == w.env && w.clock < moments[i].clock <= end.clock)
    && (forall i, j | 0 <= i < j < |moments| :: moments[i].clock < moments[j].clock)
  }

  lemma {:induction false} NamespacesAreFlatMap(
    w: World, copy: Copy, namespaces: seq<string>, infos: seq<HelmInfo>, tick: nat)
    requires tick <= w.clock
    requires CollectNamespaces(w, copy, namespaces, infos).2.Some?
    ensures var (w1, _, all) := CollectNamespaces(w, copy, namespaces, infos);
            var moments := Moments(w, copy, namespaces, infos);
            && |moments| == |namespaces| && InOrder(w, moments, w1)
            && Gained(w.env, tick, copy.status.helmStatus, Flatten(Listings(moments, namespaces)), infos, all.value)
    decreases |namespaces|
  {
    hide CollectReleases, Gained, InNamespace;
    if namespaces != [] {
      var (w1, releases) := ListReleases(w, namespaces[0]);
      ReleasesAreDescribed(w1, copy, releases.value, infos, tick);
      var (w2, copy2, more) := CollectReleases(w1, copy, releases.value, infos);
      NamespacesAreFlatMap(w2, copy2, namespaces[1..], more.value, tick);
      var rest := Moments(w2, copy2, namespaces[1..], more.value);
      var all := CollectNamespaces(w2, copy2, namespaces[1..], more.value).2.value;
      var moments := Moments(w, copy, namespaces, infos);
      assert moments == [w1] + rest;
      assert Listings(moments, namespaces) == [releases.value] + Listings(rest, namespaces[1..]);
      assert Flatten([releases.value] + Listings(rest, namespaces[1..]))
          == releases.value + Flatten(Listings(rest, namespaces[1..])) by {
        assert ([releases.value] + Listings(rest, namespaces[1..]))[1..] == Listings(rest, namespaces[1..]);
      }
      GainedConcat(w.env, tick, copy.status.helmStatus, releases.value, Flatten(Listings(rest, namespaces[1..])),
                   infos, more.value, all);
    } else {
      NothingGained(w.env, tick, copy.status.helmStatus, infos);
    }
  }

  lemma NothingGained(env: Environment, tick: nat, prior: seq<HelmInfo>, infos: seq<HelmInfo>)
    ensures Gained(env, tick, prior, Flatten([]), infos, infos) && Listings([], []) == []
  {
  }

  /**
   * A collection refines the flat map over its listings. Each namespace that is not denied is listed
   * once, one after the other, and the result has exactly one entry, in order, for each release that
   * the namespace has at its moment, flagged as hosted exactly when its namespace's secret says so.
   */
  lemma CollectionIsFlatMap(w: World, copy: Copy) returns (moments: seq<World>)
    requires Collect(w, copy).2.Some?
    ensures var (w1, _, all) := Collect(w, copy);
            var namespaces := Allowed(w.Turn().namespaces, copy.spec.denyNamespaces);
            && |moments| == |namespaces| && InOrder(w, moments, w1)
            && Gained(w.env, w.clock, copy.status.helmStatus, Flatten(Listings(moments, namespaces)), [], all.value)
  {
    var namespaces := Allowed(w.Turn().namespaces, copy.spec.denyNamespaces);
    var w1 := w.Wake();
    moments := Moments(w1, copy, namespaces, []);
    NamespacesAreFlatMap(w1, copy, namespaces, [], w.clock);
  }

  // ---- what a collection sends -----------------------------------------------------------------

  /** Between `a` and `b` only DNS records and upgrades were sent, and nothing when `silent`. */
  ghost predicate Announces(a: World, b: World, silent: bool) {
    && a.log <= b.log
    && (silent ==> b.log == a.log)
    && forall j | |a.log| <= j < |b.log| :: b.log[j].Dns? || b.log[j].Upgraded?
  }

  lemma AnnouncesChains(a: World, b: World, c: World, silent: bool)
    requires Announces(a, b, silent) && Announces(b, c, silent)
    ensures Announces(a, c, silent)
  {
    forall j | |a.log| <= j < |c.log|
      ensures c.log[j].Dns? || c.log[j].Upgraded?
    {
      if j < |b.log| {
        assert c.log[j] == b.log[j];
      }
    }
  }

  lemma {:induction false} UpgradesAnnounce(w: World, copy: Copy, installs: seq<HelmInstall>, host: string)
    ensures Announces(w, UpgradeAll(w, copy, installs, host).0, false)
    decreases |installs|
  {
    if installs != [] {
      var w1 := Upgrade(w, Tweaked(installs[0], host)).0;
      var (w2, copy2, _) := UpdateStatus(w1, copy.(status := copy.status.(dnsUpdated := true)), DnsDone);
      assert Announces(w, w2, false);
      UpgradesAnnounce(w2, copy2, installs[1..], host);
      AnnouncesChains(w, w2, UpgradeAll(w2, copy2, installs[1..], host).0, false);
    }
  }

  lemma {:induction false} AwaitIsSilent(w: World, name: string, retryCount: nat)
    ensures AwaitAddress(w, name, retryCount).0.log == w.log
    decreases MAX_RETRIES - retryCount
  {
    if retryCount < MAX_RETRIES {
      AwaitIsSilent(w.Wake(), name, retryCount + 1);
    }
  }

  lemma DnsAnnounces(w: World, copy: Copy, namespace: string, appUUID: string)
    ensures Announces(w, GetDns(w, copy, namespace, appUUID).0, false)
  {
    hide AwaitAddress, UpgradeAll;
    var (w1, market) := ReadMarket(w);
    if market.Some? && namespace == market.value {
      var (w2, custom) := ReadCustomName(w1);
      if custom.Some? {
        AwaitIsSilent(w2, IngressName(custom.value, market.value), 0);
        var (w3, ing) := AwaitAddress(w2, IngressName(custom.value, market.value), 0);
        if ing.Some? {
          var w4 := Post(w3, DnsRecord(copy, ing.value, appUUID)).0;
          assert Announces(w, w4, false);
          UpgradesAnnounce(w4, copy, copy.spec.helm, HostName(appUUID));
          AnnouncesChains(w, w4, UpgradeAll(w4, copy, copy.spec.helm, HostName(appUUID)).0, false);
        }
      }
    }
  }

  lemma ReleaseAnnounces(w: World, copy: Copy, r: Release)
    ensures var (w1, copy1, _) := CollectRelease(w, copy, r);
            Announces(w, w1, copy.status.dnsUpdated) && (copy.status.dnsUpdated ==> copy1 == copy)
  {
    hide GetDns;
    var (w1, found) := GetHelmInfo(w, copy, r);
    var (w2, info) := ApplySecret(w1, r, found);
    DnsAnnounces(w2, copy, r.namespace, info.appUUID);
  }

  lemma {:induction false} ReleasesAnnounce(w: World, copy: Copy, releases: seq<Release>, infos: seq<HelmInfo>)
    ensures var (w1, copy1, _) := CollectReleases(w, copy, releases, infos);
            Announces(w, w1, copy.status.dnsUpdated) && (copy.status.dnsUpdated ==> copy1 == copy)
    decreases |releases|
  {
    hide CollectRelease;
    if releases != [] {
      ReleaseAnnounces(w, copy, releases[0]);
      var (w1, copy1, info) := CollectRelease(w, copy, releases[0]);
      if info.Some? {
        ReleasesAnnounce(w1, copy1, releases[1..], infos + [info.value]);
        var w2 := CollectReleases(w1, copy1, releases[1..], infos + [info.value]).0;
        AnnouncesChains(w, w1, w2, copy.status.dnsUpdated);
      }
    }
  }

  lemma {:induction false} NamespacesAnnounce(w: World, copy: Copy, namespaces: seq<string>, infos: seq<HelmInfo>)
    ensures var (w1, copy1, _) := CollectNamespaces(w, copy, namespaces, infos);
            Announces(w, w1, copy.status.dnsUpdated) && (copy.status.dnsUpdated ==> copy1 == copy)
    decreases |namespaces|
  {
    hide CollectReleases;
    if namespaces != [] {
      var (w1, releases) := ListReleases(w, namespaces[0]);
      if releases.Some? {
        ReleasesAnnounce(w1, copy, releases.value, infos);
        var (w2, copy2, more) := CollectReleases(w1, copy, releases.value, infos);
        if more.Some? {
          NamespacesAnnounce(w2, copy2, namespaces[1..], more.value);
          AnnouncesChains(w, w2, CollectNamespaces(w2, copy2, namespaces[1..], more.value).0, copy.status.dnsUpdated);
        }
      }
    }
  }

  /** A collection posts no app, and once the DNS mark is set it sends nothing at all. */
  lemma CollectAnnounces(w: World, copy: Copy)
    ensures var (w1, copy1, _) := Collect(w, copy);
            Announces(w, w1, copy.status.dnsUpdated) && (copy.status.dnsUpdated ==> copy1 == copy)
  {
    var (w1, namespaces) := ListNamespaces(w);
    if namespaces.Some? {
      NamespacesAnnounce(w1, copy, Allowed(namespaces.value, copy.spec.denyNamespaces), []);
    }
  }

  // ---- the first reconcile ---------------------------------------------------------------------

  ghost predicate NoApps(a: World, b: World) {
    a.log <= b.log && forall j | |a.log| <= j < |b.log| :: !b.log[j].App?
  }

  lemma NoAppsChains(a: World, b: World, c: World)
    requires NoApps(a, b) && NoApps(b, c)
    ensures NoApps(a, c)
  {
    forall j | |a.log| <= j < |c.log|
      ensures !c.log[j].App?
    {
      if j < |b.log| {
        assert c.log[j] == b.log[j];
      }
    }
  }

  lemma NewClusterPosts(w: World, copy: Copy) returns (before: World)
    requires HandleNewCluster(w, copy).2
    ensures var (w1, copy1, _) := HandleNewCluster(w, copy);
            && NoApps(w, before)
            && w1.log == before.log + Posts(copy1, copy1.status.helmStatus)
            && copy1.status.revision == Sort(Revisions(copy1.status.helmStatus))
  {
    hide Collect, RegisterApps;
    var w1 := Post(w, Register(copy.status.clusterUUID, copy.version, false)).0;
    CollectAnnounces(w1, copy);
    var (w2, copy2, infos) := Collect(w1, copy);
    NoAppsChains(w, w1, w2);
    var (w3, copy3, _) := UpdateStatus(w2, Recorded(copy2, infos.value), First);
    before := w3;
    RegisterAppsPosts(w3, copy3, infos.value);
  }

  /** A completed first deployment sends each recorded app exactly once, after everything else. */
  lemma FirstDeploymentPosts(w: World, copy: Copy) returns (before: World)
    requires FirstDeployment(w, copy).2
    ensures var (w1, copy1, _) := FirstDeployment(w, copy);
            && NoApps(w, before)
            && w1.log == before.log + Posts(copy1, copy1.status.helmStatus)
            && copy1.status.revision == Sort(Revisions(copy1.status.helmStatus))
  {
    hide HandleNewCluster, HandleIngress, UpdateStatus;
    var (w1, id) := Mint(w);
    var named := copy.(status := copy.status.(clusterUUID := "K-" + id));
    UpdateIsSilent(w1, named, Claim);
    var (w2, copy2, _) := UpdateStatus(w1, named, Claim);
    IngressChurns(w2, copy2);
    var w3 := HandleIngress(w2, copy2).0;
    before := NewClusterPosts(w3, copy2);
    NoAppsChains(w, w3, before);
  }

  /**
   * Registration posts the given entries from the first on, each once and in order, also when it fails
   * half-way; an entry whose post is not acknowledged is the last one.
   */
  lemma {:induction false} RegistrationSends(w: World, copy: Copy, infos: seq<HelmInfo>)
    ensures var (w1, ok) := RegisterApps(w, copy, infos);
            && w.log <= w1.log && |w1.log| <= |w.log| + |infos|
            && (forall j | |w.log| <= j < |w1.log| ::
                  w1.log[j] == App(copy.status.clusterUUID, infos[j - |w.log|], copy.version,
                                   j < |w1.log| - 1 || w1.log[j].ack))
            && (ok <==> |w1.log| == |w.log| + |infos| && (infos == [] || w1.log[|w1.log| - 1].ack))
    decreases |infos|
  {
    if infos != [] {
      var (w1, posted) := Post(w, App(copy.status.clusterUUID, infos[0], copy.version, false));
      if posted {
        RegistrationSends(w1, copy, infos[1..]);
        var w2 := RegisterApps(w1, copy, infos[1..]).0;
        forall j | |w.log| <= j < |w2.log|
          ensures w2.log[j] == App(copy.status.clusterUUID, infos[j - |w.log|], copy.version,
                                   j < |w2.log| - 1 || w2.log[j].ack)
        {
          if j < |w1.log| {
            assert w2.log[j] == w1.log[j];
          } else {
            assert infos[1..][j - |w1.log|] == infos[j - |w.log|];
          }
        }
        if infos[1..] == [] {
          assert w2 == w1;
        }
      }
    }
  }

  /** Handling an existing cluster posts entries of the collection only, and none when nothing differs. */
  lemma ExistingSends(w: World, copy: Copy, infos: seq<HelmInfo>)
    ensures var w1 := HandleExistingCluster(w, copy, infos).0;
            && w.log <= w1.log
            && (forall j | |w.log| <= j < |w1.log| && w1.log[j].App? :: w1.log[j].info in infos)
            && (multiset(copy.status.revision) == multiset(Revisions(infos)) ==> NoApps(w, w1))
  {
    hide RegisterApps, HandleMonitoring, UpdateStatus;
    if multiset(copy.status.revision) == multiset(Revisions(infos)) {
      MonitoringChurns(w, Compared(copy, Revisions(infos)));
    } else {
      var compared := Compared(copy, Revisions(infos));
      RegistrationSends(w, compared, infos);
      UpdateIsSilent(RegisterApps(w, compared, infos).0, Recorded(compared, infos), Existing);
    }
  }

  /** What one collection and the handling that follows it send: entries of the collection only. */
  function Round(w: World, copy: Copy): World {
    var (w1, copy1, infos) := Collect(w, copy);
    if infos.None? then w1 else HandleExistingCluster(w1, copy1, infos.value).0
  }

  lemma RoundSends(w: World, copy: Copy)
    ensures var (w1, copy1, infos) := Collect(w, copy);
            var end := Round(w, copy);
            && w.log <= end.log
            && (forall j | |w.log| <= j < |end.log| && end.log[j].App? :: infos.Some? && end.log[j].info in infos.value)
            && (infos.Some? && multiset(copy1.status.revision) == multiset(Revisions(infos.value)) ==> NoApps(w, end))
  {
    hide Collect, HandleExistingCluster;
    CollectAnnounces(w, copy);
    var (w1, copy1, infos) := Collect(w, copy);
    if infos.Some? {
      ExistingSends(w1, copy1, infos.value);
    }
    var end := Round(w, copy);
    assert forall x | |w.log| <= x < |w1.log| :: w1.log[x] == end.log[x] && !end.log[x].App?;
  }

  /** Between `a` and `b` releases were installed and deleted, and nothing else was sent. */
  ghost predicate Churns(a: World, b: World) {
    a.log <= b.log && forall j | |a.log| <= j < |b.log| :: b.log[j].Installed? || b.log[j].Deleted?
  }

  lemma ChurnsChains(a: World, b: World, c: World)
    requires Churns(a, b) && Churns(b, c)
    ensures Churns(a, c)
  {
    forall j | |a.log| <= j < |c.log|
      ensures c.log[j].Installed? || c.log[j].Deleted?
    {
      if j < |b.log| {
        assert c.log[j] == b.log[j];
      }
    }
  }

  lemma UpdateIsSilent(w: World, copy: Copy, writer: Writer)
    ensures UpdateStatus(w, copy, writer).0.log == w.log
  {
  }

  lemma IngressChurns(w: World, copy: Copy)
    ensures Churns(w, HandleIngress(w, copy).0)
  {
  }

  lemma InstallMonitoringChurns(w: World)
    ensures Churns(w, InstallMonitoring(w))
  {
    var w2 := Apply(w.Wake(), ALLOY).0;
    assert Churns(w, w2) && Churns(w2, Apply(w2, STATE_METRICS).0);
    ChurnsChains(w, w2, Apply(w2, STATE_METRICS).0);
  }

  lemma RemoveMonitoringChurns(w: World)
    ensures Churns(w, RemoveMonitoring(w).0)
  {
    var (w1, deleted1) := Delete(w, STATE_METRICS);
    assert Churns(w, w1);
    if deleted1 {
      assert Churns(w1, Delete(w1, ALLOY).0);
      ChurnsChains(w, w1, Delete(w1, ALLOY).0);
    }
  }

  lemma MonitoringChurns(w: World, copy: Copy)
    ensures Churns(w, HandleMonitoring(w, copy).0)
  {
    hide InstallMonitoring, RemoveMonitoring;
    InstallMonitoringChurns(w.Wake());
    RemoveMonitoringChurns(w.Wake());
  }

  /**
   * The first reconcile collects twice. A release recorded by the first round is posted under one
   * UUID throughout, as long as its namespace's secret does not impose another.
   */
  lemma FirstReconcileUsesOneUUID(w: World, copy: Copy, info: HelmInfo, j: nat)
    requires Safe(w, ANY) && Stands(w, copy, ANY) && copy.status.clusterUUID == ""
    requires FirstDeployment(w, copy).2 && info in FirstDeployment(w, copy).1.status.helmStatus
    requires SecretAgrees(w.env, w.clock, info.namespace, info.appUUID)
    requires var end := HandleReconciliation(w, copy).0;
             |w.log| <= j < |end.log| && end.log[j].App? && InfoKey(end.log[j].info) == InfoKey(info)
    ensures HandleReconciliation(w, copy).0.log[j].info.appUUID == info.appUUID
  {
    hide FirstDeployment, Collect, HandleExistingCluster, Safe, Recordable, StatusOk, SecretAgrees;
    var watch := Watch({}, {}, w.clock, |w.past|, |w.log|, 0, None);
    WatchBegins(w, watch);
    SafeFirst(w, copy, watch);
    var before := FirstDeploymentPosts(w, copy);
    var (w1, copy1, _) := FirstDeployment(w, copy);
    RoundSends(w1, copy1);
    SafeCollect(w1, copy1, watch);
    StatusesOk(w1, watch, copy1.version);
    var (w2, copy2, infos) := Collect(w1, copy1);
    var end := HandleReconciliation(w, copy).0;
    assert end == Round(w1, copy1);
    if j < |w1.log| {
      assert end.log[j] == w1.log[j];
      PostedEntryIsRecorded(w, copy1, info, before, w1.log, j);
    } else {
      StatusesOk(w2, watch, copy2.version);
      SecondRoundIsFaithful(w2, watch, copy2, infos.value, end.log[j].info, info);
    }
  }

  lemma PostedEntryIsRecorded(w: World, copy: Copy, info: HelmInfo, before: World, log: seq<Event>, j: nat)
    requires StatusOk(copy.status) && info in copy.status.helmStatus && NoApps(w, before)
    requires log == before.log + Posts(copy, copy.status.helmStatus) && |w.log| <= j < |log|
    requires log[j].App? && InfoKey(log[j].info) == InfoKey(info)
    ensures log[j].info == info
  {
    var infos := copy.status.helmStatus;
    assert forall x | |w.log| <= x < |before.log| :: before.log[x] == log[x] && !log[x].App?;
    var i := j - |before.log|;
    assert log[j] == Posts(copy, infos)[i];
    var i' :| 0 <= i' < |infos| && infos[i'] == info;
    assert i == i';
  }

  lemma SecondRoundIsFaithful(w: World, watch: Watch, copy: Copy, infos: seq<HelmInfo>, sent: HelmInfo, info: HelmInfo)
    requires Stands(w, copy, watch)
    requires Recordable(w.env, watch, watch.tick, copy.version, w.History()[copy.version], w.minted, infos)
    requires sent in infos && info in copy.status.helmStatus && InfoKey(sent) == InfoKey(info)
    requires StatusOk(copy.status) && SecretAgrees(w.env, watch.tick, info.namespace, info.appUUID)
    ensures sent.appUUID == info.appUUID
  {
    FaithfulToRecord(w.env, watch.tick, copy.status, InfoKey(info), info.appUUID, sent);
  }

  /** If no revision moved between the two rounds, each app is posted exactly once. */
  lemma FirstReconcilePostsOnce(w: World, copy: Copy) returns (before: World)
    requires copy.status.clusterUUID == "" && FirstDeployment(w, copy).2
    requires var (w1, copy1, _) := FirstDeployment(w, copy);
             var (_, copy2, infos) := Collect(w1, copy1);
             infos.Some? && multiset(copy2.status.revision) == multiset(Revisions(infos.value))
    ensures var (w1, copy1, _) := FirstDeployment(w, copy);
            && NoApps(w, before)
            && w1.log == before.log + Posts(copy1, copy1.status.helmStatus)
            && NoApps(w1, HandleReconciliation(w, copy).0)
  {
    hide FirstDeployment, Collect, HandleExistingCluster;
    before := FirstDeploymentPosts(w, copy);
    var (w1, copy1, _) := FirstDeployment(w, copy);
    RoundSends(w1, copy1);
    assert HandleReconciliation(w, copy).0 == Round(w1, copy1);
  }

  // ---- settled matters stay settled ------------------------------------------------------------

  ghost predicate LeavesDnsAlone(a: World, b: World) {
    a.log <= b.log && forall j | |a.log| <= j < |b.log| :: !b.log[j].Dns? && !b.log[j].Upgraded?
  }

  lemma ExistingLeavesDnsAlone(w: World, copy: Copy, infos: seq<HelmInfo>)
    ensures LeavesDnsAlone(w, HandleExistingCluster(w, copy, infos).0)
  {
    hide RegisterApps, HandleMonitoring, UpdateStatus, Compared, Recorded, Sort;
    var compared := Compared(copy, Revisions(infos));
    if multiset(copy.status.revision) == multiset(Revisions(infos)) {
      MonitoringChurns(w, compared);
    } else {
      RegistrationSends(w, compared, infos);
      UpdateIsSilent(RegisterApps(w, compared, infos).0, Recorded(compared, infos), Existing);
    }
  }

  /** Once the copy carries the DNS mark, a reconcile sends no DNS record and upgrades nothing. */
  lemma MarkedReconcileLeavesDnsAlone(w: World, copy: Copy)
    requires copy.status.clusterUUID != "" && copy.status.dnsUpdated
    ensures LeavesDnsAlone(w, HandleReconciliation(w, copy).0)
  {
    hide Collect, HandleExistingCluster, FirstDeployment;
    CollectAnnounces(w, copy);
    var (w1, copy1, infos) := Collect(w, copy);
    if infos.Some? {
      ExistingLeavesDnsAlone(w1, copy1, infos.value);
    }
  }

  lemma {:induction false} InstallAllChurns(w: World, installs: seq<HelmInstall>)
    ensures Churns(w, InstallAll(w, installs).0)
    decreases |installs|
  {
    hide InstallKey;
    if installs != [] {
      var (w1, found) := HasRelease(w, InstallKey(installs[0]));
      if found.Some? {
        var (w2, ok) := if found.value then (w1, true) else Apply(w1, InstallKey(installs[0]));
        assert Churns(w, w2);
        if ok {
          InstallAllChurns(w2, installs[1..]);
          ChurnsChains(w, w2, InstallAll(w2, installs[1..]).0);
        }
      }
    }
  }

  lemma LeavesDnsAloneChains(a: World, b: World, c: World)
    requires LeavesDnsAlone(a, b) && LeavesDnsAlone(b, c)
    ensures LeavesDnsAlone(a, c)
  {
    forall j | |a.log| <= j < |c.log|
      ensures !c.log[j].Dns? && !c.log[j].Upgraded?
    {
      if j < |b.log| {
        assert c.log[j] == b.log[j];
      }
    }
  }

  /** A reconcile that reads a marked version, stopped or not. */
  lemma ReadMarkLeavesDnsAlone(w: World)
    requires Safe(w, ANY) && w.current.status.dnsUpdated && w.Turn().lag == 0
    ensures LeavesDnsAlone(w, Reconcile(w).0)
  {
    hide HandleReconciliation, InstallAll, StatusOk;
    var (w1, copy) := Get(w);
    SafeGet(w, ANY);
    SafeWake(w, ANY);
    assert LeavesDnsAlone(w, w1);
    if copy.Some? {
      assert copy.value.status == w.current.status;
      MarkedHasUUID(w);
      if copy.value.spec.stop {
        InstallAllChurns(w1, copy.value.spec.helm);
        assert LeavesDnsAlone(w1, InstallAll(w1, copy.value.spec.helm).0);
        LeavesDnsAloneChains(w, w1, InstallAll(w1, copy.value.spec.helm).0);
      } else {
        MarkedReconcileLeavesDnsAlone(w1, copy.value);
        LeavesDnsAloneChains(w, w1, HandleReconciliation(w1, copy.value).0);
      }
    }
  }

  lemma MarkedHasUUID(w: World)
    requires Safe(w, ANY) && w.current.status.dnsUpdated
    ensures w.current.status.clusterUUID != ""
  {
    StatusesOk(w, ANY, |w.past|);
    assert w.History()[|w.past|] == w.current;
  }

  /**
   * Over runs: once the DNS mark is persisted and reads are up to date, no reconcile ever sends a DNS
   * record or upgrades a release again.
   */
  lemma {:induction false} MarkedRunLeavesDnsAlone(w: World, n: nat, m: nat)
    requires Created(w) && Lawful(w.env) && Run(w, n).current.status.dnsUpdated
    requires forall t: nat | t >= Run(w, n).clock :: w.env.turn(t).lag == 0
    ensures LeavesDnsAlone(Run(w, n), Run(Run(w, n), m))
    decreases m
  {
    hide Created, Safe, Reconcile;
    var start := Run(w, n);
    if m > 0 {
      MarkedRunLeavesDnsAlone(w, n, m - 1);
      RunIsSafe(w, n);
      SafeRun(start, m - 1, ANY);
      var last := Run(start, m - 1);
      MarkStays(start, last);
      ReadMarkLeavesDnsAlone(last);
      LeavesDnsAloneChains(start, last, Run(start, m));
    }
  }

  lemma MarkStays(start: World, end: World)
    requires Later(start, end) && Safe(end, ANY) && start.current.status.dnsUpdated
    ensures end.current.status.dnsUpdated
  {
    RecordIsAtStart(start, end);
    IdentityPersists(end, ANY, |start.past|, |end.past|);
    assert end.History()[|end.past|] == end.current;
  }

  // ---- registering the cluster -----------------------------------------------------------------

  ghost predicate NoRegister(a: World, b: World) {
    a.log <= b.log && forall j | |a.log| <= j < |b.log| :: !b.log[j].Register?
  }

  lemma NoRegisterChains(a: World, b: World, c: World)
    requires NoRegister(a, b) && NoRegister(b, c)
    ensures NoRegister(a, c)
  {
    forall j | |a.log| <= j < |c.log|
      ensures !c.log[j].Register?
    {
      if j < |b.log| {
        assert c.log[j] == b.log[j];
      }
    }
  }

  lemma RoundRegistersNothing(w: World, copy: Copy)
    ensures NoRegister(w, Round(w, copy))
  {
    hide Collect, RegisterApps, HandleMonitoring, UpdateStatus, Compared, Recorded, Sort;
    CollectAnnounces(w, copy);
    var (w1, copy1, infos) := Collect(w, copy);
    assert NoRegister(w, w1);
    if infos.Some? {
      var compared := Compared(copy1, Revisions(infos.value));
      if multiset(copy1.status.revision) == multiset(Revisions(infos.value)) {
        MonitoringChurns(w1, compared);
      } else {
        RegistrationSends(w1, compared, infos.value);
        UpdateIsSilent(RegisterApps(w1, compared, infos.value).0, Recorded(compared, infos.value), Existing);
      }
      assert NoRegister(w1, Round(w, copy));
      NoRegisterChains(w, w1, Round(w, copy));
    }
  }

  /** Once the cluster has its UUID no reconcile registers it, not even one that has not seen the UUID yet. */
  lemma ClaimedRegistersNothing(w: World)
    requires Safe(w, ANY) && w.current.status.clusterUUID != ""
    ensures NoRegister(w, Reconcile(w).0)
  {
    hide HandleNewCluster, HandleIngress, InstallAll, Collect, HandleExistingCluster, Safe;
    SafeGet(w, ANY);
    SafeWake(w, ANY);
    var (w1, copy) := Get(w);
    if copy.Some? {
      if copy.value.spec.stop {
        InstallAllChurns(w1, copy.value.spec.helm);
        assert NoRegister(w1, InstallAll(w1, copy.value.spec.helm).0);
      } else if copy.value.status.clusterUUID == "" {
        StaleClaimFails(w1, copy.value);
      } else {
        RoundRegistersNothing(w1, copy.value);
        assert HandleReconciliation(w1, copy.value).0 == Round(w1, copy.value);
      }
    }
  }

  lemma StaleClaimFails(w: World, copy: Copy)
    requires Safe(w, ANY) && Stands(w, copy, ANY) && copy.status.clusterUUID == "" != w.current.status.clusterUUID
    ensures !FirstDeployment(w, copy).2 && FirstDeployment(w, copy).0.log == w.log
  {
    hide HandleNewCluster, HandleIngress, LegalHistory, LegalLog;
    var (w1, id) := Mint(w);
    SafeMint(w, ANY);
    SafeWake(w1, ANY);
    assert w.History()[|w.past|] == w.current;
    assert copy.version != |w.past|;
  }

  /**
   * Whether the cluster is ever registered is decided by the reconcile that claims it. After that no
   * registration is sent, and every /apps and DNS request of the run follows an accepted registration
   * if and only if that reconcile had one accepted, or there are no such requests.
   */
  lemma RegistrationIsDecidedOnce(w: World, n: nat, m: nat)
    requires Created(w) && Lawful(w.env) && Run(w, n).current.status.clusterUUID != ""
    ensures NoRegister(Run(w, n), Run(Run(w, n), m))
    ensures var start, end := Run(w, n), Run(Run(w, n), m);
            EachFollowsRegistration(end.log)
            <==> Accepted(start.log) || forall j | 0 <= j < |end.log| :: !end.log[j].App? && !end.log[j].Dns?
  {
    hide Created, Run, Safe;
    var start, end := Run(w, n), Run(Run(w, n), m);
    RunRegistersNothing(w, n, m);
    RunIsSafe(w, n);
    SafeRun(start, m, ANY);
    FirstOfAll(end);
    if Accepted(start.log) {
      var i :| 0 <= i < |start.log| && start.log[i].Register? && start.log[i].ack;
      assert end.log[i] == start.log[i];
    }
  }

  ghost predicate Accepted(log: seq<Event>) {
    exists i | 0 <= i < |log| :: log[i].Register? && log[i].ack
  }

  ghost predicate EachFollowsRegistration(log: seq<Event>) {
    forall j | 0 <= j < |log| && (log[j].App? || log[j].Dns?) ::
      exists i | 0 <= i < j :: log[i].Register? && log[i].ack
  }

  lemma FirstOfAll(w: World)
    requires Safe(w, ANY)
    ensures RegisteredFirst(w.log)
  {
  }

  lemma {:induction false} RunRegistersNothing(w: World, n: nat, m: nat)
    requires Created(w) && Lawful(w.env) && Run(w, n).current.status.clusterUUID != ""
    ensures NoRegister(Run(w, n), Run(Run(w, n), m))
    decreases m
  {
    hide Created, Safe, Reconcile, NoRegister;
    var start := Run(w, n);
    if m > 0 {
      RunRegistersNothing(w, n, m - 1);
      RunIsSafe(w, n);
      SafeRun(start, m - 1, ANY);
      var last := Run(start, m - 1);
      RecordIsAtStart(start, last);
      IdentityPersists(last, ANY, |start.past|, |last.past|);
      assert last.History()[|last.past|] == last.current;
      ClaimedRegistersNothing(last);
      NoRegisterChains(start, last, Run(start, m));
    } else {
      NothingRegisters(start);
    }
  }

  lemma NothingRegisters(w: World)
    ensures NoRegister(w, w)
  {
  }

  /**
   * A registration that fails half-way leaves the recorded releases and revisions as they were, so
   * the difference that caused it is still there.
   */
  lemma FailedRegistrationKeepsTheRecord(w: World, copy: Copy, infos: seq<HelmInfo>)
    requires copy.status.clusterUUID != ""
    requires multiset(copy.status.revision) != multiset(Revisions(infos))
    requires !RegisterApps(w, Compared(copy, Revisions(infos)), infos).1
    ensures var end := HandleExistingCluster(w, copy, infos).0;
            end.current.status == w.current.status && !HandleExistingCluster(w, copy, infos).2
  {
    RegistrationKeepsStatus(w, Compared(copy, Revisions(infos)), infos);
  }

  lemma {:induction false} RegistrationKeepsStatus(w: World, copy: Copy, infos: seq<HelmInfo>)
    ensures RegisterApps(w, copy, infos).0.current.status == w.current.status
    decreases |infos|
  {
    if infos != [] {
      var (w1, posted) := Post(w, App(copy.status.clusterUUID, infos[0], copy.version, false));
      RegistrationKeepsStatus(w1, copy, infos[1..]);
    }
  }
}
