/** Every function of module Reconciliation keeps the invariant of module Safety, whatever fails. */
module SafeRuns {
  import opened Api
  import opened Naming
  import opened Reconciliation
  import opened Safety
  import opened Sorting
  import opened Utils
  import opened World

  // ---- getDns ----------------------------------------------------------------------------------

  lemma {:induction false} SafeAwait(w: World, name: string, retryCount: nat, watch: Watch)
    requires Safe(w, watch)
    ensures var w1 := AwaitAddress(w, name, retryCount).0;
            Safe(w1, watch) && Later(w, w1) && w1.log == w.log
    decreases MAX_RETRIES - retryCount
  {
    hide Safe;
    if retryCount < MAX_RETRIES {
      SafeWake(w, watch);
      if ReadIngress(w, name).1.NoAddress? {
        SafeAwait(w.Wake(), name, retryCount + 1, watch);
      }
    }
  }

  /** The log ends with an accepted DNS record, or the first upgrade is already done. */
  ghost predicate Announced(w: World, copy: Copy, installs: seq<HelmInstall>, host: string) {
    || DnsEvidence(w.log, |w.log|, copy.status.clusterUUID, copy.spec)
    || (installs == copy.spec.helm && w.log != []
        && var last := w.log[|w.log| - 1];
           last.Dns? && last.ack && last.cluster == copy.status.clusterUUID && last.name == host)
  }

  lemma UpgradeGivesEvidence(w: World, w1: World, copy: Copy, installs: seq<HelmInstall>, host: string)
    requires installs != [] && Announced(w, copy, installs, host)
    requires w1.log == w.log + [Upgraded(Tweaked(installs[0], host), true)]
    ensures DnsEvidence(w1.log, |w1.log|, copy.status.clusterUUID, copy.spec)
  {
    var cluster, spec := copy.status.clusterUUID, copy.spec;
    if DnsEvidence(w.log, |w.log|, cluster, spec) {
      var p: nat, q: nat :| p < q < |w.log| && w.log[p].Dns? && w.log[p].ack && w.log[p].cluster == cluster
                            && w.log[q] == Upgraded(Tweaked(spec.helm[0], w.log[p].name), true);
      assert w1.log[p] == w.log[p] && w1.log[q] == w.log[q];
    } else {
      var p, q := |w.log| - 1, |w.log|;
      assert w1.log[p] == w.log[p] && w1.log[q] == Upgraded(Tweaked(spec.helm[0], w1.log[p].name), true);
    }
  }

  lemma MarkingIsLegal(w: World, copy: Copy, watch: Watch)
    requires Stands(w, copy, watch) && copy.status.clusterUUID != ""
    requires DnsEvidence(w.log, |w.log|, copy.status.clusterUUID, copy.spec)
    ensures LegalWrite(w.env, watch, w.log, copy.version, w.History()[copy.version],
                       Version(copy.spec, copy.status.(dnsUpdated := true), DnsDone, |w.log|,
                               w.History()[copy.version].named))
  {
    hide DnsEvidence;
  }

  lemma {:induction false} SafeUpgradeAll(w: World, copy: Copy, installs: seq<HelmInstall>, host: string, watch: Watch)
    requires Safe(w, watch) && Stands(w, copy, watch) && copy.status.clusterUUID != ""
    requires Announced(w, copy, installs, host)
    ensures var (w1, copy1, ok) := UpgradeAll(w, copy, installs, host);
            Safe(w1, watch) && Later(w, w1) && (ok ==> Stands(w1, copy1, watch) && SameBase(w, copy, w1, copy1))
    decreases |installs|
  {
    hide Safe, Upgrade, UpdateStatus, LegalWrite, DnsEvidence, Tweaked;
    if installs != [] {
      var (w1, upgraded) := Upgrade(w, Tweaked(installs[0], host));
      SafeUpgrade(w, Tweaked(installs[0], host), watch);
      if upgraded {
        StandsLater(w, w1, copy, watch);
        UpgradeGivesEvidence(w, w1, copy, installs, host);
        var marked := copy.(status := copy.status.(dnsUpdated := true));
        MarkingIsLegal(w1, copy, watch);
        SafeUpdate(w1, marked, DnsDone, watch);
        var (w2, copy2, updated) := UpdateStatus(w1, marked, DnsDone);
        if updated {
          SafeUpgradeAll(w2, copy2, installs[1..], host, watch);
        }
      }
    }
  }

  lemma SafeAnnounce(w: World, copy: Copy, ing: IngressRead, appUUID: string, watch: Watch)
    requires Safe(w, watch) && Stands(w, copy, watch) && copy.status.clusterUUID != "" && !copy.status.dnsUpdated
    requires ing.Address?
    ensures var (w1, copy1, ok) := Announce(w, copy, ing, appUUID);
            Safe(w1, watch) && Later(w, w1) && (ok ==> Stands(w1, copy1, watch) && SameBase(w, copy, w1, copy1))
  {
    hide Safe, UpgradeAll;
    var record := DnsRecord(copy, ing, appUUID);
    SafePost(w, record, watch);
    var (w1, posted) := Post(w, record);
    if posted {
      StandsLater(w, w1, copy, watch);
      SafeUpgradeAll(w1, copy, copy.spec.helm, HostName(appUUID), watch);
    }
  }

  lemma SafeDns(w: World, copy: Copy, namespace: string, appUUID: string, watch: Watch)
    requires Safe(w, watch) && Stands(w, copy, watch) && copy.status.clusterUUID != "" && !copy.status.dnsUpdated
    ensures var (w1, copy1, ok) := GetDns(w, copy, namespace, appUUID);
            Safe(w1, watch) && Later(w, w1) && (ok ==> Stands(w1, copy1, watch) && SameBase(w, copy, w1, copy1))
  {
    hide Safe, AwaitAddress, Announce;
    SafeWake(w, watch);
    var (w1, market) := ReadMarket(w);
    StandsLater(w, w1, copy, watch);
    if market.Some? && namespace == market.value {
      SafeWake(w1, watch);
      var (w2, custom) := ReadCustomName(w1);
      if custom.Some? {
        var name := IngressName(custom.value, market.value);
        SafeAwait(w2, name, 0, watch);
        var (w3, ing) := AwaitAddress(w2, name, 0);
        if ing.Some? {
          StandsLater(w1, w3, copy, watch);
          SafeAnnounce(w3, copy, ing.value, appUUID, watch);
        }
      }
    }
  }

  // ---- collector -------------------------------------------------------------------------------

  /**
   * The secret read at tick `t` decides whether the entry is flagged, and under which UUID it then is:
   * only a hosted release is, and only when there is a secret or it cannot be read.
   */
  ghost predicate FlaggedAt(env: Environment, t: nat, r: Release, info: HelmInfo) {
    match env.turn(t).secrets(r.namespace)
    case NotFound => !info.hosstedHelm
    case Unreadable => (info.hosstedHelm <==> r.hosted) && (r.hosted ==> info.appUUID == "A-")
    case Secret(uuid) => (info.hosstedHelm <==> r.hosted) && (r.hosted ==> info.appUUID == "A-" + uuid)
  }

  /** `info` describes `r`, under a UUID that the record, the source or the secret accounts for. */
  ghost predicate Describes(env: Environment, tick: nat, prior: seq<HelmInfo>, r: Release, info: HelmInfo) {
    && info.namespace == r.namespace && info.name == r.name && info.revision == r.revision && info.about == r.about
    && Faithful(env, tick, prior, info)
    && exists t: nat | t >= tick :: FlaggedAt(env, t, r, info)
  }

  lemma CollectedIsFaithful(w: World, copy: Copy, r: Release, tick: nat)
    requires tick <= w.clock
    ensures var (w1, found) := GetHelmInfo(w, copy, r);
            var (w2, info) := ApplySecret(w1, r, found);
            Describes(w.env, tick, copy.status.helmStatus, r, info)
  {
    var (w1, found) := GetHelmInfo(w, copy, r);
    if FindExistingUUID(copy.status.helmStatus, r.name, r.namespace) == "" {
      assert found.appUUID == "A-" + w.env.uuid(w.minted);
    }
    var (w2, info) := ApplySecret(w1, r, found);
    if r.hosted {
      var imposed := Imposed(w1.env.turn(w1.clock).secrets(r.namespace));
      if imposed.Some? {
        assert info.hosstedHelm && info.appUUID == "A-" + imposed.value;
      }
    }
    assert "A-" + "" == "A-";
    assert FlaggedAt(w.env, w.clock, r, info);
  }

  lemma SafeClock(w: World, watch: Watch)
    requires Safe(w, watch)
    ensures watch.tick <= w.clock && watch.since <= |w.past| && watch.from <= |w.log|
  {
  }

  lemma SafeHelmInfo(w: World, copy: Copy, r: Release, watch: Watch)
    requires Safe(w, watch) && Stands(w, copy, watch)
    ensures var (w1, found) := GetHelmInfo(w, copy, r);
            var w2 := ApplySecret(w1, r, found).0;
            Safe(w2, watch) && Later(w, w2) && w2.log == w.log && Stands(w2, copy, watch) && SameBase(w, copy, w2, copy)
  {
    hide Safe, Stands;
    SafeMint(w, watch);
    var (w1, found) := GetHelmInfo(w, copy, r);
    StandsLater(w, w1, copy, watch);
    SafeWake(w1, watch);
    StandsLater(w1, w1.Wake(), copy, watch);
    BaseChains(w, copy, w1, copy, w1.Wake(), copy);
  }

  lemma BaseChains(a: World, copy: Copy, b: World, copy1: Copy, c: World, copy2: Copy)
    requires SameBase(a, copy, b, copy1) && SameBase(b, copy1, c, copy2)
    ensures SameBase(a, copy, c, copy2)
  {
  }

  lemma SafeCollectRelease(w: World, copy: Copy, r: Release, watch: Watch)
    requires Safe(w, watch) && Stands(w, copy, watch) && copy.status.clusterUUID != ""
    ensures var (w1, copy1, info) := CollectRelease(w, copy, r);
            && Safe(w1, watch) && Later(w, w1)
            && (info.Some? ==>
                  && Stands(w1, copy1, watch) && SameBase(w, copy, w1, copy1)
                  && Describes(w.env, watch.tick, copy.status.helmStatus, r, info.value))
  {
    hide Safe, Stands, GetHelmInfo, ApplySecret, GetDns, Describes;
    SafeClock(w, watch);
    CollectedIsFaithful(w, copy, r, watch.tick);
    SafeHelmInfo(w, copy, r, watch);
    var (w1, found) := GetHelmInfo(w, copy, r);
    var (w2, info) := ApplySecret(w1, r, found);
    if !copy.status.dnsUpdated {
      SafeDns(w2, copy, r.namespace, info.appUUID, watch);
    }
    var (w3, copy3, dns) :=
      if copy.status.dnsUpdated then (w2, copy, true) else GetDns(w2, copy, r.namespace, info.appUUID);
    if dns {
      SafeWake(w3, watch);
      StandsLater(w3, w3.Wake(), copy3, watch);
      if !copy.status.dnsUpdated {
        BaseChains(w, copy, w2, copy, w3, copy3);
      }
      BaseChains(w, copy, w3, copy3, w3.Wake(), copy3);
    }
  }

  /** `infos` gained one faithful entry for each of `releases`, in order. */
  ghost predicate Gained(
    env: Environment, tick: nat, prior: seq<HelmInfo>, releases: seq<Release>,
    before: seq<HelmInfo>, infos: seq<HelmInfo>)
  {
    && |infos| == |before| + |releases|
    && infos[..|before|] == before
    && forall i | 0 <= i < |releases| :: Describes(env, tick, prior, releases[i], infos[|before| + i])
  }

  lemma GainedChains(env: Environment, tick: nat, prior: seq<HelmInfo>, releases: seq<Release>,
                     before: seq<HelmInfo>, info: HelmInfo, all: seq<HelmInfo>)
    requires releases != [] && Describes(env, tick, prior, releases[0], info)
    requires Gained(env, tick, prior, releases[1..], before + [info], all)
    ensures Gained(env, tick, prior, releases, before, all)
  {
    var more := before + [info];
    assert all[..|before|] == before by {
      assert all[..|more|][..|before|] == more[..|before|];
    }
    assert all[|before|] == all[..|more|][|before|] == info;
    forall i | 0 <= i < |releases|
      ensures Describes(env, tick, prior, releases[i], all[|before| + i])
    {
      if i > 0 {
        assert releases[1..][i - 1] == releases[i];
        assert all[|more| + (i - 1)] == all[|before| + i];
      }
    }
  }

  lemma {:induction false} SafeCollectReleases(
    w: World, copy: Copy, releases: seq<Release>, infos: seq<HelmInfo>, watch: Watch)
    requires Safe(w, watch) && Stands(w, copy, watch) && copy.status.clusterUUID != ""
    ensures var (w1, copy1, all) := CollectReleases(w, copy, releases, infos);
            && Safe(w1, watch) && Later(w, w1)
            && (all.Some? ==>
                  && Stands(w1, copy1, watch) && SameBase(w, copy, w1, copy1)
                  && Gained(w.env, watch.tick, copy.status.helmStatus, releases, infos, all.value))
    decreases |releases|
  {
    hide Safe, CollectRelease;
    if releases != [] {
      SafeCollectRelease(w, copy, releases[0], watch);
      var (w1, copy1, info) := CollectRelease(w, copy, releases[0]);
      if info.Some? {
        SafeCollectReleases(w1, copy1, releases[1..], infos + [info.value], watch);
        var (w2, copy2, all) := CollectReleases(w1, copy1, releases[1..], infos + [info.value]);
        if all.Some? {
          GainedChains(w.env, watch.tick, copy.status.helmStatus, releases, infos, info.value, all.value);
        }
      }
    }
  }

  /** What a collection of `namespaces` on top of `before` amounts to. */
  ghost predicate Collected(
    env: Environment, prior: seq<HelmInfo>, watch: Watch,
    namespaces: seq<string>, before: seq<HelmInfo>, infos: seq<HelmInfo>)
  {
    && DistinctInfos(infos)
    && before <= infos
    && (forall i | |before| <= i < |infos| ::
          infos[i].namespace in namespaces && Faithful(env, watch.tick, prior, infos[i]))
    && (forall k | k in watch.keys && k.namespace in namespaces :: k in InfoKeys(infos))
  }

  lemma {:induction false} InNamespaceIsDistinct(helm: seq<Release>, namespace: string)
    requires DistinctReleases(helm)
    ensures DistinctReleases(InNamespace(helm, namespace))
  {
    if helm != [] {
      InNamespaceIsDistinct(helm[1..], namespace);
      var rest := InNamespace(helm[1..], namespace);
      forall r | r in rest
        ensures ReleaseKey(r) != ReleaseKey(helm[0])
      {
        assert r in helm[1..];
      }
    }
  }

  /** Collecting one namespace: new keys, and every watched release of it. */
  lemma GainedIsCollected(env: Environment, prior: seq<HelmInfo>, watch: Watch, helm: seq<Release>, namespace: string,
                          before: seq<HelmInfo>, infos: seq<HelmInfo>)
    requires DistinctReleases(helm) && watch.keys <= Keys(helm) && DistinctInfos(before)
    requires forall info | info in before :: info.namespace != namespace
    requires Gained(env, watch.tick, prior, InNamespace(helm, namespace), before, infos)
    ensures Collected(env, prior, watch, [namespace], before, infos)
  {
    var releases := InNamespace(helm, namespace);
    InNamespaceIsDistinct(helm, namespace);
    forall i | |before| <= i < |infos|
      ensures infos[i].namespace == namespace && Faithful(env, watch.tick, prior, infos[i])
      ensures InfoKey(infos[i]) == ReleaseKey(releases[i - |before|])
    {
      assert Describes(env, watch.tick, prior, releases[i - |before|], infos[|before| + (i - |before|)]);
      assert releases[i - |before|] in releases;
    }
    forall i, j | 0 <= i < j < |infos|
      ensures InfoKey(infos[i]) != InfoKey(infos[j])
    {
      if i < |before| {
        assert infos[i] == before[i] && before[i] in before;
        assert j < |before| ==> infos[j] == before[j];
      }
    }
    forall k | k in watch.keys && k.namespace == namespace
      ensures k in InfoKeys(infos)
    {
      var r :| r in helm && ReleaseKey(r) == k;
      assert r in releases;
      var i :| 0 <= i < |releases| && releases[i] == r;
      assert infos[|before| + i] in infos;
    }
  }

  lemma SafeCollectNamespace(w: World, copy: Copy, namespace: string, infos: seq<HelmInfo>, watch: Watch)
    requires Safe(w, watch) && Stands(w, copy, watch) && copy.status.clusterUUID != ""
    requires DistinctInfos(infos) && forall info | info in infos :: info.namespace != namespace
    ensures var (w1, releases) := ListReleases(w, namespace);
            && Safe(w1, watch) && Later(w, w1)
            && (releases.Some? ==>
                  var (w2, copy2, more) := CollectReleases(w1, copy, releases.value, infos);
                  && Safe(w2, watch) && Later(w, w2)
                  && (more.Some? ==>
                        && Stands(w2, copy2, watch) && SameBase(w, copy, w2, copy2)
                        && Collected(w.env, copy.status.helmStatus, watch, [namespace], infos, more.value)))
  {
    hide CollectReleases, LegalHistory, LegalLog, Gained, Collected, Keeps, Lawful;
    SafeWake(w, watch);
    StandsLater(w, w.Wake(), copy, watch);
    var (w1, releases) := ListReleases(w, namespace);
    if releases.Some? {
      SafeCollectReleases(w1, copy, releases.value, infos, watch);
      var (w2, copy2, more) := CollectReleases(w1, copy, releases.value, infos);
      if more.Some? {
        GainedIsCollected(w.env, copy.status.helmStatus, watch, w1.helm, namespace, infos, more.value);
      }
    }
  }

  lemma CollectedAvoids(env: Environment, prior: seq<HelmInfo>, watch: Watch, namespaces: seq<string>,
                        a: seq<HelmInfo>, b: seq<HelmInfo>)
    requires namespaces != [] && Collected(env, prior, watch, [namespaces[0]], a, b)
    requires forall i, j | 0 <= i < j < |namespaces| :: namespaces[i] != namespaces[j]
    requires forall info | info in a :: info.namespace !in namespaces
    ensures forall info | info in b :: info.namespace !in namespaces[1..]
  {
    forall info | info in b
      ensures info.namespace !in namespaces[1..]
    {
      var i :| 0 <= i < |b| && b[i] == info;
      if i < |a| {
        assert b[i] == a[i] && a[i] in a;
      }
    }
  }

  lemma {:induction false} SafeCollectNamespaces(
    w: World, copy: Copy, namespaces: seq<string>, infos: seq<HelmInfo>, watch: Watch)
    requires Safe(w, watch) && Stands(w, copy, watch) && copy.status.clusterUUID != ""
    requires DistinctInfos(infos)
    requires forall i, j | 0 <= i < j < |namespaces| :: namespaces[i] != namespaces[j]
    requires forall info | info in infos :: info.namespace !in namespaces
    ensures var (w1, copy1, all) := CollectNamespaces(w, copy, namespaces, infos);
            && Safe(w1, watch) && Later(w, w1)
            && (all.Some? ==>
                  && Stands(w1, copy1, watch) && SameBase(w, copy, w1, copy1)
                  && Collected(w.env, copy.status.helmStatus, watch, namespaces, infos, all.value))
    decreases |namespaces|
  {
    hide Safe, CollectReleases, ListReleases;
    if namespaces != [] {
      assert namespaces[0] in namespaces;
      SafeCollectNamespace(w, copy, namespaces[0], infos, watch);
      var (w1, releases) := ListReleases(w, namespaces[0]);
      if releases.Some? {
        var (w2, copy2, more) := CollectReleases(w1, copy, releases.value, infos);
        if more.Some? {
          CollectedAvoids(w.env, copy.status.helmStatus, watch, namespaces, infos, more.value);
          SafeCollectNamespaces(w2, copy2, namespaces[1..], more.value, watch);
          var (w3, copy3, all) := CollectNamespaces(w2, copy2, namespaces[1..], more.value);
          if all.Some? {
            CollectedChains(w.env, copy.status.helmStatus, watch, namespaces, infos, more.value, all.value);
          }
        }
      }
    }
  }

  lemma CollectedChains(env: Environment, prior: seq<HelmInfo>, watch: Watch, namespaces: seq<string>,
                        a: seq<HelmInfo>, b: seq<HelmInfo>, c: seq<HelmInfo>)
    requires namespaces != []
    requires Collected(env, prior, watch, [namespaces[0]], a, b)
    requires Collected(env, prior, watch, namespaces[1..], b, c)
    ensures Collected(env, prior, watch, namespaces, a, c)
  {
    forall i | |a| <= i < |c|
      ensures c[i].namespace in namespaces && Faithful(env, watch.tick, prior, c[i])
    {
      if i < |b| {
        assert c[i] == b[i];
      }
    }
    forall k | k in watch.keys && k.namespace in namespaces
      ensures k in InfoKeys(c)
    {
      if k.namespace == namespaces[0] {
        var info :| info in b && InfoKey(info) == k;
        assert info in c;
      } else {
        assert k.namespace in namespaces[1..];
      }
    }
  }

  lemma StoodAllows(w: World, copy: Copy, watch: Watch)
    requires Safe(w, watch) && Stands(w, copy, watch)
    ensures copy.version >= watch.since ==> Allows(watch, copy.spec)
    ensures copy.version < |w.History()| && w.History()[copy.version].named <= w.minted
    ensures copy.spec == w.History()[copy.version].spec && copy.status == w.History()[copy.version].status
  {
    assert SpecKeeps(watch, copy.version, w.History()[copy.version].spec);
  }

  lemma SafeCollect(w: World, copy: Copy, watch: Watch)
    requires Safe(w, watch) && Stands(w, copy, watch) && copy.status.clusterUUID != ""
    ensures var (w1, copy1, infos) := Collect(w, copy);
            && Safe(w1, watch) && Later(w, w1)
            && (infos.Some? ==>
                  && Stands(w1, copy1, watch) && SameBase(w, copy, w1, copy1)
                  && Recordable(w.env, watch, watch.tick, copy1.version, w1.History()[copy1.version],
                                w1.minted, infos.value))
  {
    hide LegalHistory, LegalLog, FromFloor, RegisteredFirst, Silent, CollectNamespaces, Stands;
    SafeWake(w, watch);
    StandsLater(w, w.Wake(), copy, watch);
    StoodAllows(w, copy, watch);
    CollectionNames(w, copy, w.History()[copy.version].named);
    var (w1, namespaces) := ListNamespaces(w);
    if namespaces.Some? {
      var allowed := Allowed(namespaces.value, copy.spec.denyNamespaces);
      SafeCollectNamespaces(w1, copy, allowed, [], watch);
      var (w2, copy2, infos) := CollectNamespaces(w1, copy, allowed, []);
      if infos.Some? {
        StoodAllows(w2, copy2, watch);
        forall k | k in watch.keys && copy2.version >= watch.since
          ensures k in InfoKeys(infos.value)
        {
          assert k.namespace in w.env.turn(w.clock).namespaces;
          assert k.namespace in allowed;
        }
      }
    }
  }

  // ---- registration ----------------------------------------------------------------------------

  function Posts(copy: Copy, infos: seq<HelmInfo>): (r: seq<Event>)
    ensures |r| == |infos|
  {
    seq(|infos|, i requires 0 <= i < |infos| => App(copy.status.clusterUUID, infos[i], copy.version, true))
  }

  lemma PostsOfRest(copy: Copy, infos: seq<HelmInfo>, log: seq<Event>)
    requires infos != []
    ensures log + [App(copy.status.clusterUUID, infos[0], copy.version, true)] + Posts(copy, infos[1..])
         == log + Posts(copy, infos)
  {
    assert [App(copy.status.clusterUUID, infos[0], copy.version, true)] + Posts(copy, infos[1..]) == Posts(copy, infos);
  }

  /** A completed round of registrations is exactly one accepted post per entry, in order. */
  lemma {:induction false} RegisterAppsPosts(w: World, copy: Copy, infos: seq<HelmInfo>)
    ensures var (w1, ok) := RegisterApps(w, copy, infos); ok ==> w1.log == w.log + Posts(copy, infos)
    decreases |infos|
  {
    if infos != [] {
      var e := App(copy.status.clusterUUID, infos[0], copy.version, false);
      var (w1, posted) := Post(w, e);
      if posted {
        RegisterAppsPosts(w1, copy, infos[1..]);
        PostsOfRest(copy, infos, w.log);
      }
    }
  }

  lemma {:induction false} SafeRegisterApps(w: World, copy: Copy, infos: seq<HelmInfo>, watch: Watch)
    requires Safe(w, watch) && Stands(w, copy, watch) && copy.status.clusterUUID != ""
    requires forall info | info in infos ::
               Faithful(w.env, watch.tick, copy.status.helmStatus, info) && info.namespace !in copy.spec.denyNamespaces
    ensures var (w1, ok) := RegisterApps(w, copy, infos);
            Safe(w1, watch) && Later(w, w1) && w1.current.status == w.current.status
    decreases |infos|
  {
    hide Safe;
    if infos != [] {
      assert infos[0] in infos && forall info | info in infos[1..] :: info in infos;
      var e := App(copy.status.clusterUUID, infos[0], copy.version, false);
      SafePost(w, e, watch);
      var (w1, posted) := Post(w, e);
      if posted {
        StandsLater(w, w1, copy, watch);
        SafeRegisterApps(w1, copy, infos[1..], watch);
      }
    }
  }

  lemma HelmOnlyChains(a: World, b: World, c: World)
    requires HelmOnly(a, b) && HelmOnly(b, c)
    ensures HelmOnly(a, c)
  {
    forall j | |a.log| <= j < |c.log|
      ensures c.log[j].Upgraded? || c.log[j].Installed? || c.log[j].Deleted?
    {
      if j < |b.log| {
        assert c.log[j] == b.log[j];
      }
    }
  }

  lemma SafeInstallMonitoring(w: World, watch: Watch)
    requires Safe(w, watch)
    ensures Safe(InstallMonitoring(w), watch) && HelmOnly(w, InstallMonitoring(w))
  {
    hide Safe, HelmOnly;
    SafeWake(w, watch);
    var w1 := w.Wake();
    SafeApply(w1, ALLOY, watch);
    var w2 := Apply(w1, ALLOY).0;
    HelmOnlyChains(w, w1, w2);
    SafeApply(w2, STATE_METRICS, watch);
    HelmOnlyChains(w, w2, Apply(w2, STATE_METRICS).0);
  }

  lemma SafeRemoveMonitoring(w: World, watch: Watch)
    requires Safe(w, watch) && watch.keys !! {STATE_METRICS, ALLOY}
    ensures Safe(RemoveMonitoring(w).0, watch) && HelmOnly(w, RemoveMonitoring(w).0)
  {
    hide Safe, HelmOnly;
    SafeDelete(w, STATE_METRICS, watch);
    var (w1, deleted1) := Delete(w, STATE_METRICS);
    if deleted1 {
      SafeDelete(w1, ALLOY, watch);
      var (w2, deleted2) := Delete(w1, ALLOY);
      HelmOnlyChains(w, w1, w2);
      if deleted2 {
        SafeWake(w2, watch);
        HelmOnlyChains(w, w2, w2.Wake());
      }
    }
  }

  lemma SafeMonitoring(w: World, copy: Copy, watch: Watch)
    requires Safe(w, watch) && Spares(watch.keys, copy.spec)
    ensures Safe(HandleMonitoring(w, copy).0, watch) && HelmOnly(w, HandleMonitoring(w, copy).0)
  {
    hide Safe, InstallMonitoring, RemoveMonitoring;
    SafeWake(w, watch);
    var w1 := w.Wake();
    SafeInstallMonitoring(w1, watch);
    HelmOnlyChains(w, w1, InstallMonitoring(w1));
    if !copy.spec.monitoring {
      SafeRemoveMonitoring(w1, watch);
      HelmOnlyChains(w, w1, RemoveMonitoring(w1).0);
    }
  }

  lemma SafeIngress(w: World, copy: Copy, watch: Watch)
    requires Safe(w, watch) && INGRESS_CHART !in watch.keys
    ensures Safe(HandleIngress(w, copy).0, watch) && HelmOnly(w, HandleIngress(w, copy).0)
  {
    hide Safe, Apply, Delete;
    SafeWake(w, watch);
    SafeApply(w.Wake(), INGRESS, watch);
    SafeDelete(w.Wake(), INGRESS_CHART, watch);
  }

  // ---- statuses --------------------------------------------------------------------------------

  /** What every persisted status looks like. */
  ghost predicate StatusOk(s: Status) {
    && IsSorted(s.revision)
    && multiset(s.revision) == multiset(Revisions(s.helmStatus))
    && DistinctInfos(s.helmStatus)
    && (forall info | info in s.helmStatus :: info.appUUID != "")
    && (s.clusterUUID == "" ==> s == EMPTY_STATUS)
  }

  lemma StatusStep(env: Environment, watch: Watch, log: seq<Event>, basis: nat, a: Version, b: Version)
    requires StatusOk(a.status) && LegalWrite(env, watch, log, basis, a, b)
    ensures StatusOk(b.status)
  {
    if b.writer.First? || b.writer.Existing? {
      forall info | info in b.status.helmStatus
        ensures info.appUUID != ""
      {
        assert Faithful(env, TickOf(watch, basis), a.status.helmStatus, info);
      }
    }
  }

  lemma {:induction false} StatusesOk(w: World, watch: Watch, i: nat)
    requires Safe(w, watch) && i < |w.History()|
    ensures StatusOk(w.History()[i].status)
  {
    hide StatusOk, LegalWrite;
    if i > 0 {
      StatusesOk(w, watch, i - 1);
      StatusStep(w.env, watch, w.log, i - 1, w.History()[i - 1], w.History()[i]);
    } else {
      FreshStatusOk();
    }
  }

  lemma FreshStatusOk()
    ensures StatusOk(EMPTY_STATUS)
  {
  }

  lemma SortedRecord(copy: Copy, revisions: seq<int>)
    requires StatusOk(copy.status)
    ensures Compared(copy, revisions) == copy
  {
    SortIsIdempotent(copy.status.revision);
  }

  // ---- reconcile -------------------------------------------------------------------------------

  /** A secret read while the watch is on was read. */
  lemma RecordableEver(env: Environment, watch: Watch, basis: nat, a: Version, named: nat, infos: seq<HelmInfo>)
    requires Recordable(env, watch, watch.tick, basis, a, named, infos)
    ensures Recordable(env, watch, TickOf(watch, basis), basis, a, named, infos)
  {
    forall info | info in infos
      ensures Faithful(env, 0, a.status.helmStatus, info)
    {
      assert Faithful(env, watch.tick, a.status.helmStatus, info);
    }
  }

  lemma RecordableLater(env: Environment, watch: Watch, tick: nat, basis: nat, a: Version, named: nat, later: nat,
                        infos: seq<HelmInfo>)
    requires Recordable(env, watch, tick, basis, a, named, infos) && named <= later
    ensures Recordable(env, watch, tick, basis, a, later, infos)
  {
    ApartLater(env, a.status.helmStatus, a.named, named, later, infos);
  }

  lemma RecordingIsLegal(w: World, copy: Copy, infos: seq<HelmInfo>, before: seq<Event>, watch: Watch)
    requires Stands(w, copy, watch) && copy.status.clusterUUID != ""
    requires Recordable(w.env, watch, watch.tick, copy.version, w.History()[copy.version], w.minted, infos)
    requires w.log == before + Posts(copy, infos)
    ensures var r := Recorded(copy, infos);
            LegalWrite(w.env, watch, w.log, copy.version, w.History()[copy.version],
                       Version(r.spec, r.status, Existing, |w.log|, w.minted))
  {
    RecordableEver(w.env, watch, copy.version, w.History()[copy.version], w.minted, infos);
    assert PostedJustBefore(w.log, |w.log|, copy.status.clusterUUID, infos, copy.version) by {
      forall i | 0 <= i < |infos|
        ensures w.log[|w.log| - |infos| + i] == App(copy.status.clusterUUID, infos[i], copy.version, true)
      {
        assert w.log[|before| + i] == Posts(copy, infos)[i];
      }
    }
  }

  /** Registering a collection and recording it, as for an existing cluster. */
  lemma SafeRegisterAndRecord(w: World, copy: Copy, infos: seq<HelmInfo>, watch: Watch)
    requires Safe(w, watch) && Stands(w, copy, watch) && copy.status.clusterUUID != ""
    requires Recordable(w.env, watch, watch.tick, copy.version, w.History()[copy.version], w.minted, infos)
    ensures var (w1, registered) := RegisterApps(w, copy, infos);
            var w2 := UpdateStatus(w1, Recorded(copy, infos), Existing).0;
            && Safe(w1, watch) && Later(w, w1)
            && (registered ==> Safe(w2, watch) && Later(w, w2))
  {
    hide Safe, RegisterApps;
    SafeRegisterApps(w, copy, infos, watch);
    RegisterAppsPosts(w, copy, infos);
    var (w1, registered) := RegisterApps(w, copy, infos);
    if registered {
      StandsLater(w, w1, copy, watch);
      assert w1.History()[copy.version] == w.History()[copy.version];
      RecordableLater(w.env, watch, watch.tick, copy.version, w.History()[copy.version], w.minted, w1.minted, infos);
      RecordingIsLegal(w1, copy, infos, w.log, watch);
      SafeUpdate(w1, Recorded(copy, infos), Existing, watch);
    }
  }

  lemma StoodSpares(w: World, copy: Copy, watch: Watch)
    requires Safe(w, watch) && Stands(w, copy, watch)
    ensures Spares(watch.keys, copy.spec)
  {
    assert SpecKeeps(watch, copy.version, w.History()[copy.version].spec);
  }

  lemma SafeExisting(w: World, copy: Copy, infos: seq<HelmInfo>, watch: Watch)
    requires Safe(w, watch) && Stands(w, copy, watch) && copy.status.clusterUUID != ""
    requires Recordable(w.env, watch, watch.tick, copy.version, w.History()[copy.version], w.minted, infos)
    ensures Safe(HandleExistingCluster(w, copy, infos).0, watch)
    ensures Later(w, HandleExistingCluster(w, copy, infos).0)
  {
    hide Safe, RegisterApps, HandleMonitoring, Recordable, UpdateStatus;
    StatusesOk(w, watch, copy.version);
    SortedRecord(copy, Revisions(infos));
    if multiset(copy.status.revision) == multiset(Revisions(infos)) {
      StoodSpares(w, copy, watch);
      SafeMonitoring(w, copy, watch);
    } else {
      SafeRegisterAndRecord(w, copy, infos, watch);
    }
  }

  lemma FirstRecordIsLegal(w: World, copy: Copy, infos: seq<HelmInfo>, watch: Watch)
    requires Stands(w, copy, watch) && copy.status.clusterUUID != "" && copy.status.helmStatus == []
    requires Recordable(w.env, watch, watch.tick, copy.version, w.History()[copy.version], w.minted, infos)
    ensures var r := Recorded(copy, infos);
            LegalWrite(w.env, watch, w.log, copy.version, w.History()[copy.version],
                       Version(r.spec, r.status, First, |w.log|, w.minted))
  {
    hide Apart;
    RecordableEver(w.env, watch, copy.version, w.History()[copy.version], w.minted, infos);
  }

  /** Recording the first collection and then registering it. */
  lemma SafeRecordAndRegister(w: World, copy: Copy, infos: seq<HelmInfo>, watch: Watch)
    requires Safe(w, watch) && Stands(w, copy, watch)
    requires copy.status.clusterUUID != "" && copy.status.helmStatus == []
    requires Recordable(w.env, watch, watch.tick, copy.version, w.History()[copy.version], w.minted, infos)
    ensures var (w1, copy1, updated) := UpdateStatus(w, Recorded(copy, infos), First);
            var w2 := RegisterApps(w1, copy1, infos).0;
            && Safe(w1, watch) && Later(w, w1)
            && (updated ==>
                  Safe(w2, watch) && Later(w, w2) && Stands(w2, copy1, watch) && copy1.status.clusterUUID != "")
  {
    hide Safe, RegisterApps, UpdateStatus, Apart, LegalWrite, Sort;
    FirstRecordIsLegal(w, copy, infos, watch);
    SafeUpdate(w, Recorded(copy, infos), First, watch);
    var (w1, copy1, updated) := UpdateStatus(w, Recorded(copy, infos), First);
    if updated {
      forall info | info in infos
        ensures Faithful(w.env, watch.tick, copy1.status.helmStatus, info)
      {
        FindsTheEntry(infos, info);
        assert Faithful(w.env, watch.tick, [], info);
        assert info.appUUID != "";
      }
      SafeRegisterApps(w1, copy1, infos, watch);
      StandsLater(w1, RegisterApps(w1, copy1, infos).0, copy1, watch);
    }
  }

  lemma SafeNewCluster(w: World, copy: Copy, watch: Watch)
    requires Safe(w, watch) && Stands(w, copy, watch)
    requires copy.status.clusterUUID != "" && copy.status.helmStatus == []
    requires Silent(w.log) && w.current.status.clusterUUID != ""
    ensures var (w1, copy1, ok) := HandleNewCluster(w, copy);
            Safe(w1, watch) && Later(w, w1) && (ok ==> Stands(w1, copy1, watch) && copy1.status.clusterUUID != "")
  {
    hide Safe, RegisterApps, Collect, Post, Recordable, UpdateStatus;
    var e := Register(copy.status.clusterUUID, copy.version, false);
    SafePost(w, e, watch);
    var (w1, registered) := Post(w, e);
    if registered {
      StandsLater(w, w1, copy, watch);
      SafeCollect(w1, copy, watch);
      var (w2, copy2, infos) := Collect(w1, copy);
      if infos.Some? {
        SafeRecordAndRegister(w2, copy2, infos.value, watch);
      }
    }
  }

  lemma SafeFirst(w: World, copy: Copy, watch: Watch)
    requires Safe(w, watch) && Stands(w, copy, watch) && copy.status.clusterUUID == ""
    ensures var (w1, copy1, ok) := FirstDeployment(w, copy);
            Safe(w1, watch) && Later(w, w1) && (ok ==> Stands(w1, copy1, watch) && copy1.status.clusterUUID != "")
  {
    hide LegalHistory, LegalLog, FromFloor, RegisteredFirst, Keeps, Lawful;
    hide HandleIngress, HandleNewCluster;
    StatusesOk(w, watch, copy.version);
    SafeMint(w, watch);
    var (w1, id) := Mint(w);
    var named := copy.(status := copy.status.(clusterUUID := "K-" + id));
    assert named.status.clusterUUID == "K-" + w.env.uuid(w.minted);
    SafeUpdate(w1, named, Claim, watch);
    var (w2, copy2, updated) := UpdateStatus(w1, named, Claim);
    if updated {
      assert w.current == w.History()[copy.version];
      assert Silent(w2.log);
      SafeIngress(w2, copy2, watch);
      var (w3, ok) := HandleIngress(w2, copy2);
      if ok {
        StandsLater(w2, w3, copy2, watch);
        HelmOnlyKeepsSilent(w2, w3);
        SafeNewCluster(w3, copy2, watch);
      }
    }
  }

  lemma HelmOnlyKeepsSilent(a: World, b: World)
    requires HelmOnly(a, b) && Silent(a.log)
    ensures Silent(b.log)
  {
    forall j | 0 <= j < |b.log|
      ensures !b.log[j].Register? && !b.log[j].App? && !b.log[j].Dns?
    {
      if j < |a.log| {
        assert b.log[j] == a.log[j];
      }
    }
  }

  lemma SafeReconciliation(w: World, copy: Copy, watch: Watch)
    requires Safe(w, watch) && Stands(w, copy, watch)
    ensures Safe(HandleReconciliation(w, copy).0, watch) && Later(w, HandleReconciliation(w, copy).0)
  {
    hide Safe, FirstDeployment, Collect, HandleExistingCluster, Recordable;
    if copy.status.clusterUUID == "" {
      SafeFirst(w, copy, watch);
    }
    var (w1, copy1, ok) :=
      if copy.status.clusterUUID == "" then FirstDeployment(w, copy) else (w, copy, true);
    if ok {
      SafeCollect(w1, copy1, watch);
      var (w2, copy2, infos) := Collect(w1, copy1);
      if infos.Some? {
        SafeExisting(w2, copy2, infos.value, watch);
      }
    }
  }

  lemma {:induction false} SafeInstallAll(w: World, installs: seq<HelmInstall>, watch: Watch)
    requires Safe(w, watch)
    ensures Safe(InstallAll(w, installs).0, watch) && HelmOnly(w, InstallAll(w, installs).0)
    decreases |installs|
  {
    hide Safe, Apply;
    if installs != [] {
      SafeWake(w, watch);
      var w1 := w.Wake();
      SafeApply(w1, InstallKey(installs[0]), watch);
      var (_, found) := HasRelease(w, InstallKey(installs[0]));
      if found.Some? {
        var (w2, ok) := if found.value then (w1, true) else Apply(w1, InstallKey(installs[0]));
        if ok {
          SafeInstallAll(w2, installs[1..], watch);
        }
      }
    }
  }

  lemma SafeReconcile(w: World, watch: Watch)
    requires Safe(w, watch)
    ensures Safe(Reconcile(w).0, watch) && Later(w, Reconcile(w).0) && Reconcile(w).0.clock > w.clock
  {
    hide Safe, InstallAll, HandleReconciliation;
    SafeGet(w, watch);
    var (w1, copy) := Get(w);
    if copy.Some? {
      SafeInstallAll(w1, copy.value.spec.helm, watch);
      SafeReconciliation(w1, copy.value, watch);
    }
  }

  /** The invariant holds after any number of reconciles. */
  lemma {:induction false} SafeRun(w: World, n: nat, watch: Watch)
    requires Safe(w, watch)
    ensures Safe(Run(w, n), watch) && Later(w, Run(w, n))
  {
    hide Safe, Reconcile;
    if n > 0 {
      SafeRun(w, n - 1, watch);
      SafeReconcile(Run(w, n - 1), watch);
    }
  }

  lemma CreatedIsSafe(w: World, watch: Watch)
    requires Created(w) && Lawful(w.env) && Keeps(w.env, watch)
    requires watch.tick <= w.clock && watch.since == watch.from == 0 && INGRESS_CHART !in watch.keys
    requires watch.keys <= Keys(w.helm) && SpecKeeps(watch, 0, w.current.spec)
    ensures Safe(w, watch)
  {
  }

  /** A watch may begin at any point of a run. */
  lemma WatchBegins(w: World, watch: Watch)
    requires Safe(w, ANY) && Keeps(w.env, watch)
    requires watch.tick == w.clock && watch.since == |w.past| && watch.from == |w.log|
    requires watch.keys <= Keys(w.helm) && (INGRESS_CHART in watch.keys ==> w.current.status.clusterUUID != "")
    requires forall i | watch.floor <= i < |w.History()| :: SpecKeeps(watch, i, w.History()[i].spec)
    requires watch.fixed.None?
    ensures Safe(w, watch)
  {
    forall i | 0 <= i < |w.History()| - 1
      ensures LegalWrite(w.env, watch, w.log, i, w.History()[i], w.History()[i + 1])
    {
      assert LegalWrite(w.env, ANY, w.log, i, w.History()[i], w.History()[i + 1]);
    }
  }
}
