/**
 * What happens once calls stop failing and nobody else touches Helm or the resource. At most four
 * reconciles write a status, touch Helm or report apps, and every later one completes and changes
 * nothing, exactly when the operator is not stuck. The DNS upgrade makes revisions stale while they are
 * being collected, so the record may need a second round.
 */
module Convergence {
  import opened Api
  import opened Growth
  import opened Guarantees
  import opened IngressValues
  import opened Reconciliation
  import opened Rounds
  import opened SafeRuns
  import opened Safety
  import opened Text
  import opened Utils
  import opened World

  /**
   * A stretch of time from tick `from` on, with what is answered in it: the namespaces, the market
   * namespace and the custom ingress name, which may be missing or unreadable, and the state of the
   * ingress that these two name.
   */
  datatype Period = Period(
    from: nat, namespaces: seq<string>, market: Option<string>, customName: Option<string>, ingress: IngressRead)

  /** What the DNS step reads is what the period says. */
  ghost predicate SameAnswers(env: Environment, from: nat, p: Period) {
    forall t: nat | t >= from ::
      && env.turn(t).market == p.market && env.turn(t).customName == p.customName
      && (p.market.Some? && p.customName.Some? ==>
            env.turn(t).ingress(IngressName(p.customName.value, p.market.value)) == p.ingress)
  }

  /**
   * From the period's first tick on every request arrives and is answered in the same way, and Helm is
   * the operator's alone.
   */
  ghost predicate Calm(env: Environment, p: Period) {
    && SameAnswers(env, p.from, p)
    && forall t: nat | t >= p.from ::
         && env.turn(t).fault.Delivered? && env.turn(t).edit.None? && env.turn(t).lag == 0
         && (forall h :: env.turn(t).others(h) == h)
         && env.turn(t).namespaces == p.namespaces
  }

  /** The DNS step gets an address for the releases it is for. */
  predicate Answers(p: Period) {
    p.market.Some? && p.customName.Some? && p.ingress.Address?
  }

  /** The DNS step looks further at a release of this namespace. */
  predicate IsMarket(namespace: string, p: Period) {
    p.market.None? || namespace == p.market.value
  }

  /** The period has begun. What happened before does not matter. */
  ghost predicate CalmAt(w: World, p: Period) {
    Calm(w.env, p) && p.from <= w.clock
  }

  /** The copy is what is persisted. */
  ghost predicate Fresh(w: World, copy: Copy) {
    copy == Copy(w.current.spec, w.current.status, |w.past|)
  }

  /** Nothing but DNS records was sent, and nothing changed. */
  ghost predicate Quiet(a: World, b: World) {
    && b.env == a.env && a.clock <= b.clock && b.past == a.past && b.current == a.current && b.helm == a.helm
    && a.log <= b.log
    && forall j | |a.log| <= j < |b.log| :: b.log[j].Dns?
  }

  lemma QuietChains(a: World, b: World, c: World)
    requires Quiet(a, b) && Quiet(b, c)
    ensures Quiet(a, c)
  {
    forall j | |a.log| <= j < |c.log|
      ensures c.log[j].Dns?
    {
      if j < |b.log| {
        assert c.log[j] == b.log[j];
      }
    }
  }

  /** Later, with the same releases by name; revisions may have grown. */
  ghost predicate SameNames(a: World, b: World) {
    b.env == a.env && a.clock <= b.clock && Keys(b.helm) == Keys(a.helm)
  }

  function Declared(spec: Spec): set<Key> {
    set h | h in spec.helm :: Key(h.namespace, h.releaseName)
  }

  /** The next DNS step for a market release does something, or fails. */
  predicate Pending(copy: Copy, p: Period) {
    !copy.status.dnsUpdated && (!Answers(p) || copy.spec.helm != [])
  }

  /** The DNS step gets as far as its first upgrade. */
  predicate Upgrades(spec: Spec, keys: set<Key>, p: Period) {
    Answers(p) && spec.helm != [] && Key(spec.helm[0].namespace, spec.helm[0].releaseName) in keys
  }

  // ---- a calm collection -----------------------------------------------------------------------

  lemma CalmWake(w: World, p: Period)
    requires CalmAt(w, p)
    ensures w.Wake() == w.(clock := w.clock + 1) && Quiet(w, w.Wake()) && CalmAt(w.Wake(), p)
    ensures w.Turn().fault.Delivered? && w.Turn().namespaces == p.namespaces
  {
  }

  /** Upgrading stops at the first declared release that is not installed. */
  lemma {:induction false} CalmUpgradeAll(w: World, copy: Copy, installs: seq<HelmInstall>, host: string, p: Period)
    requires CalmAt(w, p) && Fresh(w, copy)
    ensures var (w1, copy1, ok) := UpgradeAll(w, copy, installs, host);
            && Fresh(w1, copy1) && SameNames(w, w1) && SameRecord(copy, copy1)
            && (ok <==> forall h | h in installs :: InstallKey(h) in Keys(w.helm))
            && (installs == [] ==> w1 == w && copy1 == copy)
            && (installs != [] ==>
                  if InstallKey(installs[0]) in Keys(w.helm) then copy1.status.dnsUpdated
                  else Quiet(w, w1) && copy1 == copy)
            && |w1.helm| == |w.helm| && HelmGrows(w.helm, w1.helm, UpgradedKeys(installs, Keys(w.helm)))
    decreases |installs|
  {
    hide Calm, Tweak, Bump, HelmGrows;
    HelmStays(w.helm);
    if installs != [] {
      assert installs[0] in installs && forall h :: h in installs <==> h == installs[0] || h in installs[1..];
      var h := Tweaked(installs[0], host);
      CalmWake(w, p);
      var t := w.Turn();
      BumpKeepsKeys(w.helm, InstallKey(h), t.hosted, t.about);
      BumpGrows(w.helm, InstallKey(h), t.hosted, t.about);
      var (w1, upgraded) := Upgrade(w, h);
      if upgraded {
        var marked := copy.(status := copy.status.(dnsUpdated := true));
        CalmWake(w1, p);
        var (w2, copy2, updated) := UpdateStatus(w1, marked, DnsDone);
        assert updated && Fresh(w2, copy2);
        CalmUpgradeAll(w2, copy2, installs[1..], host, p);
        HelmGrowsOn(w.helm, w1.helm, UpgradeAll(w2, copy2, installs[1..], host).0.helm,
                    {InstallKey(installs[0])}, UpgradedKeys(installs[1..], Keys(w.helm)));
      }
    }
  }

  /** The wait for an address ends at once, unless the ingress is there without one. */
  lemma {:induction false} CalmAwait(w: World, name: string, retryCount: nat, p: Period)
    requires CalmAt(w, p) && retryCount < MAX_RETRIES
    requires p.market.Some? && p.customName.Some? && name == IngressName(p.customName.value, p.market.value)
    ensures var (w1, address) := AwaitAddress(w, name, retryCount);
            Quiet(w, w1) && address == (if p.ingress.Address? then Some(p.ingress) else None)
    decreases MAX_RETRIES - retryCount
  {
    CalmWake(w, p);
    if p.ingress.NoAddress? && retryCount + 1 < MAX_RETRIES {
      CalmAwait(w.Wake(), name, retryCount + 1, p);
      QuietChains(w, w.Wake(), AwaitAddress(w.Wake(), name, retryCount + 1).0);
    }
  }

  /**
   * The effect of a calm DNS step, or of a collection with DNS steps in it; `meets` when it is for a
   * release of the market namespace.
   */
  ghost predicate DnsEffect(w: World, copy: Copy, meets: bool, w1: World, copy1: Copy, ok: bool, p: Period) {
    && Fresh(w1, copy1) && SameNames(w, w1) && SameRecord(copy, copy1)
    && if meets && Pending(copy, p) && Upgrades(copy.spec, Keys(w.helm), p) then
         && copy1.status.dnsUpdated && (ok <==> Declared(copy.spec) <= Keys(w.helm))
         && |w1.helm| == |w.helm| && HelmGrows(w.helm, w1.helm, UpgradedKeys(copy.spec.helm, Keys(w.helm)))
       else
         Quiet(w, w1) && copy1 == copy && (ok <==> !(meets && Pending(copy, p)))
  }

  /** The DNS step from its record on. */
  lemma CalmAnnounce(w: World, copy: Copy, ing: IngressRead, appUUID: string, p: Period)
    requires CalmAt(w, p) && Fresh(w, copy) && !copy.status.dnsUpdated && Answers(p) && ing.Address?
    ensures var (w1, copy1, ok) := Announce(w, copy, ing, appUUID); DnsEffect(w, copy, true, w1, copy1, ok, p)
  {
    hide Calm, UpgradeAll, ToLower, HelmGrows, UpgradedKeys;
    CalmWake(w, p);
    var (w1, posted) := Post(w, DnsRecord(copy, ing, appUUID));
    assert posted && Quiet(w, w1);
    CalmUpgradeAll(w1, copy, copy.spec.helm, HostName(appUUID), p);
    assert (forall h | h in copy.spec.helm :: InstallKey(h) in Keys(w.helm)) <==> Declared(copy.spec) <= Keys(w.helm);
    if copy.spec.helm != [] && InstallKey(copy.spec.helm[0]) !in Keys(w.helm) {
      assert copy.spec.helm[0] in copy.spec.helm;
      QuietChains(w, w1, UpgradeAll(w1, copy, copy.spec.helm, HostName(appUUID)).0);
    }
  }

  lemma CalmDns(w: World, copy: Copy, namespace: string, appUUID: string, p: Period)
    requires CalmAt(w, p) && Fresh(w, copy) && !copy.status.dnsUpdated
    ensures var (w1, copy1, ok) := GetDns(w, copy, namespace, appUUID);
            DnsEffect(w, copy, IsMarket(namespace, p), w1, copy1, ok, p)
  {
    hide AwaitAddress, Announce, HelmGrows, UpgradedKeys;
    CalmWake(w, p);
    var w1 := ReadMarket(w).0;
    if p.market == Some(namespace) {
      CalmWake(w1, p);
      var (w2, custom) := ReadCustomName(w1);
      QuietChains(w, w1, w2);
      if custom.Some? {
        CalmAwait(w2, IngressName(custom.value, namespace), 0, p);
        var (w3, ing) := AwaitAddress(w2, IngressName(custom.value, namespace), 0);
        QuietChains(w, w2, w3);
        if ing.Some? {
          CalmAnnounce(w3, copy, ing.value, appUUID, p);
          var (w4, copy4, ok) := Announce(w3, copy, ing.value, appUUID);
          DnsEffectChains(w, copy, false, w3, copy, true, w4, copy4, ok, p);
        }
      }
    }
  }

  lemma CalmRelease(w: World, copy: Copy, r: Release, p: Period)
    requires CalmAt(w, p) && Fresh(w, copy)
    ensures var (w1, copy1, info) := CollectRelease(w, copy, r);
            && DnsEffect(w, copy, IsMarket(r.namespace, p), w1, copy1, info.Some?, p)
            && (info.Some? ==> Row(info.value) == ReleaseRow(r))
  {
    hide GetDns, Calm;
    ReleaseIsDescribed(w, copy, r, w.clock);
    var (w1, found) := GetHelmInfo(w, copy, r);
    CalmWake(w1, p);
    var (w2, info) := ApplySecret(w1, r, found);
    assert Quiet(w, w2) && Fresh(w2, copy);
    if !copy.status.dnsUpdated {
      CalmDns(w2, copy, r.namespace, info.appUUID, p);
      var (w3, copy3, ok) := GetDns(w2, copy, r.namespace, info.appUUID);
      DnsEffectChains(w, copy, false, w2, copy, IsMarket(r.namespace, p), w3, copy3, ok, p);
      CalmWake(w3, p);
      if ok {
        DnsEffectChains(w, copy, IsMarket(r.namespace, p), w3, copy3, false, w3.Wake(), copy3, true, p);
      }
    } else {
      CalmWake(w2, p);
    }
  }

  /** After a step that succeeded the effects add up; after one that failed nothing follows. */
  lemma DnsEffectChains(w: World, copy: Copy, meets1: bool, w1: World, copy1: Copy,
                        meets2: bool, w2: World, copy2: Copy, ok: bool, p: Period)
    requires DnsEffect(w, copy, meets1, w1, copy1, true, p) && DnsEffect(w1, copy1, meets2, w2, copy2, ok, p)
    ensures DnsEffect(w, copy, meets1 || meets2, w2, copy2, ok, p)
  {
    hide HelmGrows, UpgradedKeys;
    if !(meets1 && Pending(copy, p)) && Quiet(w1, w2) {
      QuietChains(w, w1, w2);
    }
  }

  predicate Meets(releases: seq<Release>, p: Period) {
    exists r | r in releases :: IsMarket(r.namespace, p)
  }

  lemma MeetsSplits(releases: seq<Release>, p: Period)
    requires releases != []
    ensures Meets(releases, p) <==> IsMarket(releases[0].namespace, p) || Meets(releases[1..], p)
    ensures ReleaseRows(releases) == [ReleaseRow(releases[0])] + ReleaseRows(releases[1..])
  {
    assert forall r :: r in releases <==> r == releases[0] || r in releases[1..];
  }

  lemma {:induction false} CalmReleases(w: World, copy: Copy, releases: seq<Release>, infos: seq<HelmInfo>, p: Period)
    requires CalmAt(w, p) && Fresh(w, copy)
    ensures var (w1, copy1, all) := CollectReleases(w, copy, releases, infos);
            && DnsEffect(w, copy, Meets(releases, p), w1, copy1, all.Some?, p)
            && (all.Some? ==> Rows(all.value) == Rows(infos) + ReleaseRows(releases))
    decreases |releases|
  {
    hide CollectRelease, Calm, Meets;
    if releases != [] {
      CalmRelease(w, copy, releases[0], p);
      MeetsSplits(releases, p);
      var (w1, copy1, info) := CollectRelease(w, copy, releases[0]);
      if info.Some? {
        var more := infos + [info.value];
        CalmReleases(w1, copy1, releases[1..], more, p);
        var (w2, copy2, all) := CollectReleases(w1, copy1, releases[1..], more);
        DnsEffectChains(w, copy, IsMarket(releases[0].namespace, p), w1, copy1, Meets(releases[1..], p),
                        w2, copy2, all.Some?, p);
        assert Rows(more) == Rows(infos) + [ReleaseRow(releases[0])];
      }
    } else {
      assert ReleaseRows(releases) == [] && !Meets(releases, p) by {
        NothingMet(p);
      }
    }
  }

  lemma NothingMet(p: Period)
    ensures !Meets([], p)
  {
  }

  predicate MarketVisible(keys: set<Key>, namespaces: seq<string>, p: Period) {
    exists k | k in keys :: k.namespace in namespaces && IsMarket(k.namespace, p)
  }

  lemma ListingMeets(helm: seq<Release>, namespace: string, p: Period)
    ensures Meets(InNamespace(helm, namespace), p) <==> MarketVisible(Keys(helm), [namespace], p)
  {
    if Meets(InNamespace(helm, namespace), p) {
      var r :| r in InNamespace(helm, namespace) && IsMarket(r.namespace, p);
      assert ReleaseKey(r) in Keys(helm) && ReleaseKey(r).namespace in [namespace];
    }
    if MarketVisible(Keys(helm), [namespace], p) {
      var k :| k in Keys(helm) && k.namespace in [namespace] && IsMarket(k.namespace, p);
      var r :| r in helm && ReleaseKey(r) == k;
      assert r in InNamespace(helm, namespace);
    }
  }

  lemma MarketVisibleSplits(keys: set<Key>, list: seq<string>, p: Period)
    requires list != []
    ensures MarketVisible(keys, list, p) <==> MarketVisible(keys, [list[0]], p) || MarketVisible(keys, list[1..], p)
  {
    assert forall x :: x in list <==> x in [list[0]] || x in list[1..];
  }

  lemma NothingVisible(helm: seq<Release>, p: Period)
    ensures !MarketVisible(Keys(helm), [], p) && ReleaseRows(Visible(helm, [])) == []
  {
  }

  lemma CalmNamespace(w: World, copy: Copy, namespace: string, infos: seq<HelmInfo>, p: Period)
    requires CalmAt(w, p) && Fresh(w, copy)
    ensures var (w1, releases) := ListReleases(w, namespace);
            && releases == Some(InNamespace(w.helm, namespace))
            && var (w2, copy2, more) := CollectReleases(w1, copy, releases.value, infos);
            && DnsEffect(w, copy, MarketVisible(Keys(w.helm), [namespace], p), w2, copy2, more.Some?, p)
            && (more.Some? ==> Rows(more.value) == Rows(infos) + ReleaseRows(releases.value))
  {
    hide CollectReleases, Calm;
    CalmWake(w, p);
    var (w1, releases) := ListReleases(w, namespace);
    CalmReleases(w1, copy, releases.value, infos, p);
    ListingMeets(w.helm, namespace, p);
    var (w2, copy2, more) := CollectReleases(w1, copy, releases.value, infos);
    DnsEffectChains(w, copy, false, w1, copy, MarketVisible(Keys(w.helm), [namespace], p), w2, copy2, more.Some?, p);
  }

  /** Upgrades that do not show in the namespaces leave the later listings as they were. */
  lemma HiddenAfter(w: World, copy: Copy, list: seq<string>, meets: bool, w1: World, copy1: Copy, p: Period)
    requires DnsEffect(w, copy, meets, w1, copy1, true, p) && list != []
    requires !Shown(UpgradedKeys(copy.spec.helm, Keys(w.helm)), list)
    ensures ReleaseRows(Visible(w1.helm, list[1..])) == ReleaseRows(Visible(w.helm, list[1..]))
    ensures !Shown(UpgradedKeys(copy.spec.helm, Keys(w.helm)), list[1..])
    ensures copy1.spec == copy.spec && Keys(w1.helm) == Keys(w.helm)
  {
    hide HelmGrows, UpgradedKeys;
    var upgraded := UpgradedKeys(copy.spec.helm, Keys(w.helm));
    assert forall x | x in list[1..] :: x in list;
    if w1.helm != w.helm {
      HiddenGrowth(w.helm, w1.helm, upgraded, list[1..]);
    }
  }

  lemma {:induction false} CalmNamespaces(w: World, copy: Copy, list: seq<string>, infos: seq<HelmInfo>, p: Period)
    requires CalmAt(w, p) && Fresh(w, copy)
    ensures var (w1, copy1, all) := CollectNamespaces(w, copy, list, infos);
            && DnsEffect(w, copy, MarketVisible(Keys(w.helm), list, p), w1, copy1, all.Some?, p)
            && (!(MarketVisible(Keys(w.helm), list, p) && Pending(copy, p))
                || (all.Some? && !Shown(UpgradedKeys(copy.spec.helm, Keys(w.helm)), list)) ==>
                  Rows(all.value) == Rows(infos) + ReleaseRows(Visible(w.helm, list)))
    decreases |list|
  {
    hide CollectReleases, ListReleases, Calm, MarketVisible, InNamespace, HelmGrows, UpgradedKeys;
    if list != [] {
      MarketVisibleSplits(Keys(w.helm), list, p);
      CalmNamespace(w, copy, list[0], infos, p);
      var (w1, releases) := ListReleases(w, list[0]);
      var (w2, copy2, more) := CollectReleases(w1, copy, releases.value, infos);
      if more.Some? {
        CalmNamespaces(w2, copy2, list[1..], more.value, p);
        var (w3, copy3, all) := CollectNamespaces(w2, copy2, list[1..], more.value);
        DnsEffectChains(w, copy, MarketVisible(Keys(w.helm), [list[0]], p), w2, copy2,
                        MarketVisible(Keys(w2.helm), list[1..], p), w3, copy3, all.Some?, p);
        RowsConcat(releases.value, Visible(w.helm, list[1..]));
        if !Shown(UpgradedKeys(copy.spec.helm, Keys(w.helm)), list) {
          HiddenAfter(w, copy, list, MarketVisible(Keys(w.helm), [list[0]], p), w2, copy2, p);
        }
      }
    } else {
      NothingVisible(w.helm, p);
    }
  }

  function AllowedOf(spec: Spec, namespaces: seq<string>): seq<string> {
    Allowed(namespaces, spec.denyNamespaces)
  }

  /** What the operator sees. */
  function Seen(w: World, p: Period): seq<Release> {
    Visible(w.helm, AllowedOf(w.current.spec, p.namespaces))
  }

  /** The DNS step is due: a release of the market namespace is visible and the mark is missing. */
  predicate DueIn(spec: Spec, status: Status, keys: set<Key>, p: Period) {
    && !status.dnsUpdated && (!Answers(p) || spec.helm != [])
    && MarketVisible(keys, AllowedOf(spec, p.namespaces), p)
  }

  predicate Due(w: World, p: Period) {
    DueIn(w.current.spec, w.current.status, Keys(w.helm), p)
  }

  /** A release that the DNS step upgrades is visible. */
  predicate Shows(w: World, p: Period) {
    Shown(UpgradedKeys(w.current.spec.helm, Keys(w.helm)), AllowedOf(w.current.spec, p.namespaces))
  }

  /**
   * A calm collection. Unless the DNS step is due it completes, changes nothing and sees what there is.
   * When it is due it needs an address and the first declared release to get anywhere, and all of them
   * to complete. Even then it sees what there is, if no upgraded release is visible.
   */
  lemma CalmCollect(w: World, copy: Copy, p: Period)
    requires CalmAt(w, p) && Fresh(w, copy)
    ensures var (w1, copy1, all) := Collect(w, copy);
            && DnsEffect(w, copy, Due(w, p), w1, copy1, all.Some?, p)
            && (!Due(w, p) || (all.Some? && !Shows(w, p)) ==>
                  && Rows(all.value) == ReleaseRows(Seen(w, p))
                  && Revisions(all.value) == ReleaseRevisions(Seen(w, p)))
  {
    hide CollectNamespaces, Calm, MarketVisible, HelmGrows, UpgradedKeys, Shown;
    CalmWake(w, p);
    var w1 := w.Wake();
    var list := AllowedOf(copy.spec, p.namespaces);
    CalmNamespaces(w1, copy, list, [], p);
    var (w2, copy2, all) := CollectNamespaces(w1, copy, list, []);
    DnsEffectChains(w, copy, false, w1, copy, MarketVisible(Keys(w.helm), list, p), w2, copy2, all.Some?, p);
    if !Due(w, p) || (all.Some? && !Shows(w, p)) {
      SameRowsSameRevisions(all.value, Seen(w, p));
    }
  }

  // ---- calm writes -----------------------------------------------------------------------------

  /** Helm may have changed, the resource has not. */
  ghost predicate SameResource(a: World, b: World) {
    b.env == a.env && a.clock <= b.clock && b.past == a.past && b.current == a.current
  }

  lemma {:induction false} CalmRegisterApps(w: World, copy: Copy, infos: seq<HelmInfo>, p: Period)
    requires CalmAt(w, p)
    ensures var (w1, ok) := RegisterApps(w, copy, infos);
            ok && SameResource(w, w1) && w1.helm == w.helm && w1.log == w.log + Posts(copy, infos)
    decreases |infos|
  {
    hide Calm;
    if infos != [] {
      CalmWake(w, p);
      var (w1, posted) := Post(w, App(copy.status.clusterUUID, infos[0], copy.version, false));
      CalmRegisterApps(w1, copy, infos[1..], p);
      PostsOfRest(copy, infos, w.log);
    }
  }

  lemma CalmUpdate(w: World, copy: Copy, writer: Writer, p: Period)
    requires CalmAt(w, p) && copy.version == |w.past| && copy.spec == w.current.spec
    ensures var (w1, copy1, ok) := UpdateStatus(w, copy, writer);
            && ok && Fresh(w1, copy1) && copy1.status == copy.status && copy1.spec == copy.spec
            && w1.env == w.env && w.clock <= w1.clock && w1.helm == w.helm && w1.log == w.log
            && |w1.past| == |w.past| + 1
  {
    CalmWake(w, p);
  }

  lemma AppendKeys(helm: seq<Release>, r: Release)
    ensures Keys(helm + [r]) == Keys(helm) + {ReleaseKey(r)}
  {
    var more := helm + [r];
    forall k | k in Keys(helm)
      ensures k in Keys(more)
    {
      var x :| x in helm && ReleaseKey(x) == k;
      assert x in more;
    }
    assert more[|helm|] in more;
  }

  lemma WithoutKeys(helm: seq<Release>, key: Key)
    ensures Keys(Without(helm, key)) == Keys(helm) - {key}
  {
    forall k | k in Keys(helm) - {key}
      ensures k in Keys(Without(helm, key))
    {
      var r :| r in helm && ReleaseKey(r) == k;
      assert r in Without(helm, key);
    }
  }

  lemma CalmApply(w: World, key: Key, p: Period)
    requires CalmAt(w, p)
    ensures var (w1, ok) := Apply(w, key);
            && SameResource(w, w1) && Keys(w1.helm) == Keys(w.helm) + {key} && Churns(w, w1)
            && (if key in Keys(w.helm) then !ok && Quiet(w, w1) else ok && w1.helm != w.helm)
            && (key.namespace == PLATFORM ==> HelmGrows(w.helm, w1.helm, {}))
  {
    hide Calm, HelmGrows;
    HelmStays(w.helm);
    CalmWake(w, p);
    var w1 := Apply(w, key).0;
    if key !in Keys(w.helm) {
      var r := w1.helm[|w.helm|];
      assert w1.helm == w.helm + [r] && ReleaseKey(r) == key;
      AppendKeys(w.helm, r);
      if key.namespace == PLATFORM {
        InstallGrows(w.helm, r);
      }
    }
  }

  lemma CalmDelete(w: World, key: Key, p: Period)
    requires CalmAt(w, p)
    ensures var (w1, ok) := Delete(w, key);
            && SameResource(w, w1) && Keys(w1.helm) == Keys(w.helm) - {key} && Churns(w, w1)
            && (if key in Keys(w.helm) then ok && |w1.log| > |w.log| else !ok && Quiet(w, w1))
  {
    hide Calm;
    CalmWake(w, p);
    WithoutKeys(w.helm, key);
  }

  // ---- monitoring and ingress ------------------------------------------------------------------

  /** The releases after monitoring was handled: enabling goes by the one name, disabling by the other. */
  function MonitoredKeys(spec: Spec, keys: set<Key>): set<Key> {
    if spec.monitoring then
      if ALLOY in keys then keys else keys + {ALLOY, STATE_METRICS}
    else
      if ALLOY_CHART in keys && STATE_METRICS in keys then keys - {STATE_METRICS, ALLOY} else keys
  }

  /** The releases after the ingress was handled, which happens in the first deployment only. */
  function IngressKeys(spec: Spec, keys: set<Key>): set<Key> {
    if !spec.ingress then keys - {INGRESS_CHART}
    else if INGRESS_CHART in keys then keys
    else keys + {INGRESS}
  }

  /** A release of the name that disabling monitoring looks for. */
  predicate Foreign(spec: Spec, keys: set<Key>) {
    !spec.monitoring && ALLOY_CHART in keys
  }

  predicate Missing(w: World) {
    w.current.spec.monitoring && ALLOY !in Keys(w.helm)
  }

  lemma CalmInstallMonitoring(w: World, p: Period)
    requires CalmAt(w, p) && ALLOY !in Keys(w.helm)
    ensures var w1 := InstallMonitoring(w);
            && SameResource(w, w1) && Keys(w1.helm) == Keys(w.helm) + {ALLOY, STATE_METRICS}
            && Churns(w, w1) && !Quiet(w, w1) && HelmGrows(w.helm, w1.helm, {})
  {
    hide Calm, Apply, HelmGrows;
    CalmWake(w, p);
    var w1 := w.Wake();
    CalmApply(w1, ALLOY, p);
    var w2 := Apply(w1, ALLOY).0;
    CalmApply(w2, STATE_METRICS, p);
    ChurnsChains(w1, w2, Apply(w2, STATE_METRICS).0);
    HelmGrowsOn(w1.helm, w2.helm, Apply(w2, STATE_METRICS).0.helm, {}, {});
    var none: set<Key> := {};
    assert none + none == none;
  }

  lemma CalmRemoveMonitoring(w: World, p: Period)
    requires CalmAt(w, p)
    ensures var (w1, ok) := RemoveMonitoring(w);
            var keys := Keys(w.helm);
            && SameResource(w, w1) && Churns(w, w1)
            && Keys(w1.helm) == (if STATE_METRICS in keys then keys - {STATE_METRICS, ALLOY} else keys)
            && (ok <==> STATE_METRICS in keys && ALLOY in keys)
            && (ok ==> |w1.log| > |w.log| && !w1.log[|w.log|].Dns?)
  {
    hide Calm, Delete;
    CalmDelete(w, STATE_METRICS, p);
    var (w1, deleted1) := Delete(w, STATE_METRICS);
    if deleted1 {
      CalmDelete(w1, ALLOY, p);
      var (w2, deleted2) := Delete(w1, ALLOY);
      ChurnsChains(w, w1, w2);
      CalmWake(w2, p);
    }
  }

  /** A calm monitoring step touches nothing but Helm. It completes quietly when there is nothing to do. */
  lemma CalmMonitoring(w: World, copy: Copy, p: Period)
    requires CalmAt(w, p) && copy.spec == w.current.spec
    ensures var (w1, ok) := HandleMonitoring(w, copy);
            var keys := Keys(w.helm);
            && SameResource(w, w1) && Churns(w, w1)
            && Keys(w1.helm) == MonitoredKeys(copy.spec, keys)
            && (ok <==> !Foreign(copy.spec, keys) || (STATE_METRICS in keys && ALLOY in keys))
            && (ok && Quiet(w, w1) <==> !Missing(w) && !Foreign(copy.spec, keys))
            && (!Foreign(copy.spec, keys) ==> HelmGrows(w.helm, w1.helm, {}))
  {
    hide Calm, InstallMonitoring, RemoveMonitoring, HelmGrows;
    HelmStays(w.helm);
    CalmWake(w, p);
    var w1 := w.Wake();
    if copy.spec.monitoring && ALLOY !in Keys(w.helm) {
      CalmInstallMonitoring(w1, p);
    } else if Foreign(copy.spec, Keys(w.helm)) {
      CalmRemoveMonitoring(w1, p);
    }
  }

  lemma CalmIngress(w: World, copy: Copy, p: Period)
    requires CalmAt(w, p) && copy.spec == w.current.spec
    ensures var (w1, ok) := HandleIngress(w, copy);
            ok && SameResource(w, w1) && Keys(w1.helm) == IngressKeys(copy.spec, Keys(w.helm))
  {
    hide Calm, Apply, Delete;
    CalmWake(w, p);
    CalmApply(w.Wake(), INGRESS, p);
    CalmDelete(w.Wake(), INGRESS_CHART, p);
  }

  // ---- stuck -----------------------------------------------------------------------------------

  /**
   * The DNS step is due and cannot get anywhere: there is no address to announce, or the first declared
   * release, which it upgrades first, is not installed.
   */
  predicate Jammed(spec: Spec, status: Status, keys: set<Key>, p: Period) {
    DueIn(spec, status, keys, p) && !Upgrades(spec, keys, p)
  }

  /** The releases that the first deployment leaves to the reconciles after it. */
  function ComingKeys(w: World): set<Key> {
    if w.current.status.clusterUUID == "" then IngressKeys(w.current.spec, Keys(w.helm)) else Keys(w.helm)
  }

  /**
   * Three things keep the operator from ever settling: the DNS step is jammed; installing monitoring
   * will make it so; or monitoring is disabled and a release bears the name it is looked up by.
   */
  predicate StuckIn(spec: Spec, status: Status, keys: set<Key>, p: Period) {
    || Foreign(spec, keys)
    || Jammed(spec, status, keys, p)
    || (spec.monitoring && !DueIn(spec, status, keys, p) && Jammed(spec, status, MonitoredKeys(spec, keys), p))
  }

  predicate Stuck(w: World, p: Period) {
    StuckIn(w.current.spec, w.current.status, ComingKeys(w), p)
  }

  /** The revisions on record are not those that are visible. */
  predicate Differs(w: World, p: Period) {
    multiset(w.current.status.revision) != multiset(ReleaseRevisions(Seen(w, p)))
  }

  function One(b: bool): nat {
    if b then 1 else 0
  }

  /** An upper bound on the reconciles that still do something, when the operator is not stuck. */
  function Work(w: World, p: Period): (n: nat)
    ensures n <= 4
  {
    var differs, missing := One(Differs(w, p)), One(Missing(w));
    if w.current.status.clusterUUID == "" then 4
    else if Due(w, p) then 2 + 2 * missing
    else if !w.current.status.dnsUpdated && w.current.spec.helm != [] then differs + 3 * missing
    else differs + 2 * missing
  }

  // ---- one round -------------------------------------------------------------------------------

  /** What every calm step keeps: the period, the spec, the cluster UUID and the DNS mark. */
  ghost predicate Continues(a: World, b: World) {
    && b.env == a.env && a.clock <= b.clock && b.current.spec == a.current.spec
    && (a.current.status.clusterUUID != "" ==> b.current.status.clusterUUID == a.current.status.clusterUUID)
    && (a.current.status.dnsUpdated ==> b.current.status.dnsUpdated)
  }

  /** From its collection on, one reconcile of an existing cluster, with a fresh copy. */
  lemma CalmExisting(w: World, copy: Copy, infos: seq<HelmInfo>, p: Period)
    requires CalmAt(w, p) && Fresh(w, copy)
    ensures var (w1, copy1, ok) := HandleExistingCluster(w, copy, infos);
            && Continues(w, w1) && w1.current.status.dnsUpdated == w.current.status.dnsUpdated
            && (if multiset(copy.status.revision) != multiset(Revisions(infos)) then
                  && ok && w1.helm == w.helm && |w1.past| > |w.past|
                  && w1.current.status == Recorded(copy, infos).status
                  && w1.log == w.log + Posts(Compared(copy, Revisions(infos)), infos)
                else
                  && SameResource(w, w1) && Churns(w, w1)
                  && Keys(w1.helm) == MonitoredKeys(copy.spec, Keys(w.helm))
                  && (ok && Quiet(w, w1) <==> !Missing(w) && !Foreign(copy.spec, Keys(w.helm)))
                  && (!Foreign(copy.spec, Keys(w.helm)) ==> ok && HelmGrows(w.helm, w1.helm, {})))
  {
    hide Calm, RegisterApps, HandleMonitoring, UpdateStatus, HelmGrows;
    var compared := Compared(copy, Revisions(infos));
    if multiset(copy.status.revision) != multiset(Revisions(infos)) {
      CalmRegisterApps(w, compared, infos, p);
      var (w1, _) := RegisterApps(w, compared, infos);
      CalmUpdate(w1, Recorded(compared, infos), Existing, p);
    } else {
      CalmMonitoring(w, compared, p);
    }
  }

  /** Whether a collection and what follows it complete. */
  function RoundCompletes(w: World, copy: Copy): bool {
    var (w1, copy1, infos) := Collect(w, copy);
    infos.Some? && HandleExistingCluster(w1, copy1, infos.value).2
  }

  /** Being stuck stays as it is. When not stuck, work is used up, and it is quiet when there was none. */
  ghost predicate Progress(w: World, end: World, ok: bool, p: Period) {
    && Continues(w, end)
    && (Stuck(end, p) <==> Stuck(w, p))
    && (Stuck(w, p) ==> !(ok && Quiet(w, end)))
    && (!Stuck(w, p) ==>
          && Work(end, p) <= (if Work(w, p) > 0 then Work(w, p) - 1 else 0)
          && (Work(w, p) == 0 <==> ok && Quiet(w, end)))
  }

  /** The DNS step completes. */
  predicate GoesThrough(w: World, p: Period) {
    Upgrades(w.current.spec, Keys(w.helm), p) && Declared(w.current.spec) <= Keys(w.helm)
  }

  /** The DNS step stops the round, before its first upgrade or at a later one. */
  lemma RoundStops(w: World, copy: Copy, p: Period)
    requires CalmAt(w, p) && Fresh(w, copy) && copy.status.clusterUUID != ""
    requires Due(w, p) && !GoesThrough(w, p)
    ensures !RoundCompletes(w, copy) && Progress(w, Round(w, copy), false, p)
    ensures !Upgrades(w.current.spec, Keys(w.helm), p) ==> Quiet(w, Round(w, copy))
  {
    hide Calm, Collect, HandleExistingCluster, MarketVisible, Allowed, Visible, ReleaseRevisions;
    hide HelmGrows, UpgradedKeys;
    CalmCollect(w, copy, p);
    var w1 := Collect(w, copy).0;
    assert Round(w, copy) == w1;
    if !Upgrades(w.current.spec, Keys(w.helm), p) {
      assert Jammed(w.current.spec, w.current.status, Keys(w.helm), p);
    }
  }

  lemma RoundWithUpgrade(w: World, copy: Copy, p: Period)
    requires CalmAt(w, p) && Fresh(w, copy) && copy.status.clusterUUID != ""
    requires Due(w, p) && GoesThrough(w, p)
    ensures Progress(w, Round(w, copy), RoundCompletes(w, copy), p)
  {
    hide Calm, Collect, HandleExistingCluster, MarketVisible, Allowed, Visible, ReleaseRevisions;
    hide Foreign, MonitoredKeys;
    hide Progress;
    CalmCollect(w, copy, p);
    var (w1, copy1, infos) := Collect(w, copy);
    CalmExisting(w1, copy1, infos.value, p);
    UpgradedProgress(w, Round(w, copy), RoundCompletes(w, copy), p);
  }

  lemma UpgradedProgress(w: World, end: World, ok: bool, p: Period)
    requires w.current.status.clusterUUID != "" && Continues(w, end) && Due(w, p)
    requires Upgrades(w.current.spec, Keys(w.helm), p) && end.current.status.dnsUpdated
    requires Keys(end.helm) == Keys(w.helm) || Keys(end.helm) == MonitoredKeys(w.current.spec, Keys(w.helm))
    ensures Progress(w, end, ok, p)
  {
    hide MarketVisible, Allowed, Visible, ReleaseRevisions, MonitoredKeys;
    MonitoredAreStill(w.current.spec, Keys(w.helm));
  }

  lemma RecordedProgress(w: World, end: World, p: Period)
    requires w.current.status.clusterUUID != "" && Continues(w, end) && !Due(w, p) && Differs(w, p)
    requires end.current.status.dnsUpdated == w.current.status.dnsUpdated
    requires end.helm == w.helm && |end.past| > |w.past|
    requires multiset(end.current.status.revision) == multiset(ReleaseRevisions(Seen(w, p)))
    ensures Progress(w, end, true, p)
  {
    hide MarketVisible, Allowed, Visible, ReleaseRevisions, Foreign, MonitoredKeys;
    assert Seen(end, p) == Seen(w, p);
  }

  lemma MonitoredProgress(w: World, end: World, ok: bool, p: Period)
    requires w.current.status.clusterUUID != "" && Continues(w, end) && !Due(w, p) && !Differs(w, p)
    requires end.current.status == w.current.status
    requires Keys(end.helm) == MonitoredKeys(w.current.spec, Keys(w.helm))
    requires ok && Quiet(w, end) <==> !Missing(w) && !Foreign(w.current.spec, Keys(w.helm))
    ensures Progress(w, end, ok, p)
  {
    hide MarketVisible, Allowed, Visible, ReleaseRevisions, MonitoredKeys;
    MonitoredAreStill(w.current.spec, Keys(w.helm));
    MonitoredWhenMissing(w);
    if ok && Quiet(w, end) {
      assert Differs(end, p) == Differs(w, p) && Due(end, p) == Due(w, p);
    }
  }

  lemma MonitoredWhenMissing(w: World)
    ensures w.current.spec.monitoring && !Missing(w) ==> MonitoredKeys(w.current.spec, Keys(w.helm)) == Keys(w.helm)
    ensures !w.current.spec.monitoring && !Foreign(w.current.spec, Keys(w.helm)) ==>
              MonitoredKeys(w.current.spec, Keys(w.helm)) == Keys(w.helm)
  {
  }

  lemma RoundWithoutUpgrade(w: World, copy: Copy, p: Period)
    requires CalmAt(w, p) && Fresh(w, copy) && copy.status.clusterUUID != "" && !Due(w, p)
    ensures Progress(w, Round(w, copy), RoundCompletes(w, copy), p)
  {
    hide Calm, Collect, HandleExistingCluster, Due, Seen, Progress, Allowed, ReleaseRevisions, MonitoredKeys, Foreign;
    CalmCollect(w, copy, p);
    var (w1, copy1, infos) := Collect(w, copy);
    CalmExisting(w1, copy1, infos.value, p);
    var (end, _, ok) := HandleExistingCluster(w1, copy1, infos.value);
    if Differs(w, p) {
      RecordedProgress(w, end, p);
    } else {
      if Quiet(w1, end) {
        QuietChains(w, w1, end);
      }
      MonitoredProgress(w, end, ok, p);
    }
  }

  /** Handling monitoring again changes nothing, and it never touches the name it looks for. */
  lemma MonitoredAreStill(spec: Spec, keys: set<Key>)
    ensures MonitoredKeys(spec, MonitoredKeys(spec, keys)) == MonitoredKeys(spec, keys)
    ensures ALLOY_CHART in MonitoredKeys(spec, keys) <==> ALLOY_CHART in keys
    ensures spec.monitoring ==> ALLOY in MonitoredKeys(spec, keys)
  {
  }

  lemma CalmRound(w: World, copy: Copy, p: Period)
    requires CalmAt(w, p) && Fresh(w, copy) && copy.status.clusterUUID != ""
    ensures Progress(w, Round(w, copy), RoundCompletes(w, copy), p)
  {
    hide Progress, RoundCompletes, Round, Due;
    if !Due(w, p) {
      RoundWithoutUpgrade(w, copy, p);
    } else if GoesThrough(w, p) {
      RoundWithUpgrade(w, copy, p);
    } else {
      RoundStops(w, copy, p);
    }
  }

  /** The releases that a round upgrades. */
  function RaisedKeys(w: World, p: Period): set<Key> {
    if Due(w, p) && Upgrades(w.current.spec, Keys(w.helm), p) then UpgradedKeys(w.current.spec.helm, Keys(w.helm))
    else {}
  }

  /** What a round does to the releases, to the mark and to the record. */
  ghost predicate RoundEffect(w: World, end: World, p: Period) {
    var keys, monitored := Keys(w.helm), MonitoredKeys(w.current.spec, Keys(w.helm));
    && Continues(w, end)
    && (Keys(end.helm) == keys || Keys(end.helm) == monitored)
    && (!Foreign(w.current.spec, keys) ==> HelmGrows(w.helm, end.helm, RaisedKeys(w, p)))
    && (!Foreign(w.current.spec, keys) && !Missing(w) ==> |end.helm| == |w.helm|)
    && (if Due(w, p) then Upgrades(w.current.spec, keys, p) ==> end.current.status.dnsUpdated
        else
          && end.current.status.dnsUpdated == w.current.status.dnsUpdated
          && if Differs(w, p) then end.helm == w.helm && !Differs(end, p) else Keys(end.helm) == monitored)
  }

  /** Unless a foreign release is removed, a round only raises the releases that it upgrades. */
  lemma RoundGrows(w: World, copy: Copy, p: Period)
    requires CalmAt(w, p) && Fresh(w, copy) && copy.status.clusterUUID != "" && !Foreign(w.current.spec, Keys(w.helm))
    ensures HelmGrows(w.helm, Round(w, copy).helm, RaisedKeys(w, p))
  {
    hide Calm, Collect, HandleExistingCluster, MarketVisible, Allowed, Visible, ReleaseRevisions;
    hide Foreign, MonitoredKeys, HelmGrows, UpgradedKeys, Recorded;
    CalmCollect(w, copy, p);
    var (w1, copy1, infos) := Collect(w, copy);
    HelmStays(w.helm);
    HelmStays(w1.helm);
    if infos.Some? {
      CalmExisting(w1, copy1, infos.value, p);
      HelmGrowsOn(w.helm, w1.helm, HandleExistingCluster(w1, copy1, infos.value).0.helm, RaisedKeys(w, p), {});
      assert RaisedKeys(w, p) + {} == RaisedKeys(w, p);
    }
  }

  lemma DueRoundHasEffect(w: World, copy: Copy, p: Period)
    requires CalmAt(w, p) && Fresh(w, copy) && copy.status.clusterUUID != "" && Due(w, p)
    ensures RoundEffect(w, Round(w, copy), p)
  {
    hide Calm, Collect, HandleExistingCluster, MarketVisible, Allowed, Visible, ReleaseRevisions, Differs;
    hide Foreign, MonitoredKeys, HelmGrows, UpgradedKeys, RaisedKeys;
    CalmCollect(w, copy, p);
    var (w1, copy1, infos) := Collect(w, copy);
    if !Foreign(w.current.spec, Keys(w.helm)) {
      RoundGrows(w, copy, p);
    }
    if infos.Some? {
      CalmExisting(w1, copy1, infos.value, p);
    }
  }

  lemma RoundHasEffect(w: World, copy: Copy, p: Period)
    requires CalmAt(w, p) && Fresh(w, copy) && copy.status.clusterUUID != ""
    ensures RoundEffect(w, Round(w, copy), p)
  {
    hide Calm, Collect, HandleExistingCluster, Due, Seen, MarketVisible, Allowed, ReleaseRevisions;
    hide Foreign, MonitoredKeys, HelmGrows, UpgradedKeys, RaisedKeys;
    if Due(w, p) {
      DueRoundHasEffect(w, copy, p);
    } else {
      CalmCollect(w, copy, p);
      var (w1, copy1, infos) := Collect(w, copy);
      if !Foreign(w.current.spec, Keys(w.helm)) {
        RoundGrows(w, copy, p);
      }
      CalmExisting(w1, copy1, infos.value, p);
      var end := HandleExistingCluster(w1, copy1, infos.value).0;
      if end.helm == w.helm && end.current.spec == w.current.spec {
        SeenAgain(w, end, p);
      }
    }
  }

  lemma SeenAgain(a: World, b: World, p: Period)
    requires b.helm == a.helm && b.current.spec == a.current.spec
    ensures Seen(b, p) == Seen(a, p)
  {
  }

  // ---- a reconcile -----------------------------------------------------------------------------

  /** Being stuck depends on the status only through the DNS mark. */
  lemma StuckAlike(a: World, b: World, p: Period)
    requires b.current.spec == a.current.spec && ComingKeys(b) == ComingKeys(a)
    requires b.current.status.dnsUpdated == a.current.status.dnsUpdated
    ensures Stuck(b, p) <==> Stuck(a, p)
  {
    hide Foreign, MonitoredKeys, MarketVisible, Allowed;
  }

  /** Once its first upgrade has gone through, the DNS step is out of the way. */
  lemma StuckUpgraded(a: World, b: World, p: Period)
    requires b.current.spec == a.current.spec && ComingKeys(b) == ComingKeys(a) && b.current.status.dnsUpdated
    requires DueIn(a.current.spec, a.current.status, ComingKeys(a), p)
    requires Upgrades(a.current.spec, ComingKeys(a), p)
    ensures Stuck(b, p) <==> Stuck(a, p)
  {
    hide Foreign, MonitoredKeys, MarketVisible, Allowed;
  }

  lemma CalmNewCluster(w: World, copy: Copy, p: Period)
    requires CalmAt(w, p) && Fresh(w, copy) && copy.status.clusterUUID != ""
    ensures var (w1, copy1, ok) := HandleNewCluster(w, copy);
            && Continues(w, w1) && Fresh(w1, copy1) && Keys(w1.helm) == Keys(w.helm) && (Stuck(w1, p) <==> Stuck(w, p))
            && (!ok ==> Stuck(w1, p) || w1.current.status.dnsUpdated)
  {
    hide Calm, Collect, RegisterApps, UpdateStatus, Due, Stuck;
    CalmWake(w, p);
    var w1 := Post(w, Register(copy.status.clusterUUID, copy.version, false)).0;
    CalmCollect(w1, copy, p);
    var (w2, copy2, infos) := Collect(w1, copy);
    StuckAfterCollect(w, w1, w2, copy, copy2, infos.Some?, p);
    if infos.Some? {
      CalmUpdate(w2, Recorded(copy2, infos.value), First, p);
      var (w3, copy3, _) := UpdateStatus(w2, Recorded(copy2, infos.value), First);
      CalmRegisterApps(w3, copy3, infos.value, p);
      StuckAlike(w2, RegisterApps(w3, copy3, infos.value).0, p);
    }
  }

  /** A collection leaves the operator as stuck as it was. One that fails is stuck or has set the mark. */
  lemma StuckAfterCollect(w: World, w1: World, w2: World, copy: Copy, copy2: Copy, ok: bool, p: Period)
    requires w1.current == w.current && w1.helm == w.helm && Fresh(w1, copy) && copy.status.clusterUUID != ""
    requires DnsEffect(w1, copy, Due(w1, p), w2, copy2, ok, p)
    ensures (Stuck(w2, p) <==> Stuck(w, p)) && (!ok ==> Stuck(w2, p) || w2.current.status.dnsUpdated)
  {
    hide MarketVisible, Allowed, Foreign, MonitoredKeys;
    if Due(w1, p) && Upgrades(copy.spec, Keys(w1.helm), p) {
      StuckUpgraded(w, w2, p);
    } else {
      StuckAlike(w, w2, p);
    }
  }

  lemma CalmFirstDeployment(w: World, copy: Copy, p: Period)
    requires CalmAt(w, p) && Fresh(w, copy) && copy.status.clusterUUID == ""
    ensures var (w1, copy1, ok) := FirstDeployment(w, copy);
            && Continues(w, w1) && Fresh(w1, copy1) && w1.current.status.clusterUUID != ""
            && Keys(w1.helm) == ComingKeys(w)
            && (Stuck(w1, p) <==> Stuck(w, p))
            && (!ok ==> Stuck(w1, p) || w1.current.status.dnsUpdated)
  {
    hide Calm, HandleIngress, HandleNewCluster, UpdateStatus, Stuck, IngressKeys;
    var (w1, id) := Mint(w);
    var named := copy.(status := copy.status.(clusterUUID := "K-" + id));
    CalmUpdate(w1, named, Claim, p);
    var (w2, copy2, _) := UpdateStatus(w1, named, Claim);
    CalmIngress(w2, copy2, p);
    var w3 := HandleIngress(w2, copy2).0;
    StuckAlike(w, w3, p);
    CalmNewCluster(w3, copy2, p);
  }

  /** With no DNS step due the first deployment records what is visible, and completes. */
  lemma NewClusterRecords(w: World, copy: Copy, p: Period)
    requires CalmAt(w, p) && Fresh(w, copy) && copy.status.clusterUUID != "" && !Due(w, p)
    ensures var (w1, copy1, ok) := HandleNewCluster(w, copy);
            ok && !Differs(w1, p) && !Due(w1, p) && w1.helm == w.helm && CalmAt(w1, p) && Fresh(w1, copy1)
            && w1.current.status.clusterUUID != "" && w1.current.spec == w.current.spec
  {
    hide Calm, Collect, RegisterApps, UpdateStatus, MarketVisible, Visible, Allowed, ReleaseRevisions;
    CalmWake(w, p);
    var w1 := Post(w, Register(copy.status.clusterUUID, copy.version, false)).0;
    CalmCollect(w1, copy, p);
    var (w2, copy2, infos) := Collect(w1, copy);
    CalmUpdate(w2, Recorded(copy2, infos.value), First, p);
    var (w3, copy3, _) := UpdateStatus(w2, Recorded(copy2, infos.value), First);
    CalmRegisterApps(w3, copy3, infos.value, p);
    assert Seen(RegisterApps(w3, copy3, infos.value).0, p) == Seen(w1, p);
  }

  lemma FirstDeploymentRecords(w: World, copy: Copy, p: Period)
    requires CalmAt(w, p) && Fresh(w, copy) && copy.status.clusterUUID == ""
    requires !DueIn(w.current.spec, w.current.status, ComingKeys(w), p)
    ensures var (w1, copy1, ok) := FirstDeployment(w, copy);
            && ok && !Differs(w1, p) && !Due(w1, p) && Keys(w1.helm) == ComingKeys(w) && CalmAt(w1, p)
            && Fresh(w1, copy1) && w1.current.status.clusterUUID != "" && w1.current.spec == w.current.spec
  {
    hide Calm, HandleIngress, HandleNewCluster, UpdateStatus, IngressKeys, MarketVisible, Visible, Allowed, Differs;
    var (w1, id) := Mint(w);
    var named := copy.(status := copy.status.(clusterUUID := "K-" + id));
    CalmUpdate(w1, named, Claim, p);
    var (w2, copy2, _) := UpdateStatus(w1, named, Claim);
    CalmIngress(w2, copy2, p);
    var w3 := HandleIngress(w2, copy2).0;
    NewClusterRecords(w3, copy2, p);
  }

  lemma CalmGet(w: World, p: Period)
    requires CalmAt(w, p)
    ensures var (w1, copy) := Get(w);
            w1 == w.(clock := w.clock + 1) && copy.Some? && Fresh(w1, copy.value) && Quiet(w, w1)
  {
  }

  lemma ProgressFrom(w: World, w1: World, end: World, ok: bool, p: Period)
    requires w1 == w.(clock := w.clock + 1) && Progress(w1, end, ok, p)
    ensures Progress(w, end, ok, p)
  {
    assert Quiet(w, end) <==> Quiet(w1, end);
    assert Work(w, p) == Work(w1, p) && (Stuck(w, p) <==> Stuck(w1, p));
  }

  /** From a new cluster, where there is always work left for at most three more reconciles. */
  lemma FirstProgress(w: World, w1: World, end: World, ok: bool, p: Period)
    requires w.current.status.clusterUUID == "" && w1.current.status.clusterUUID != ""
    requires Continues(w, w1) && Continues(w1, end) && (Stuck(w1, p) <==> Stuck(w, p))
    requires Progress(w1, end, ok, p) || (end == w1 && !ok && (Stuck(w1, p) || w1.current.status.dnsUpdated))
    ensures Progress(w, end, ok, p)
  {
    hide Stuck, Differs, Missing;
    assert !Quiet(w, end);
  }

  /** A reconcile is a round, in front of which a new cluster has its first deployment. */
  lemma ReconciliationIsRound(w: World, copy: Copy)
    ensures var (end, _, ok) := HandleReconciliation(w, copy);
            if copy.status.clusterUUID != "" then end == Round(w, copy) && ok == RoundCompletes(w, copy)
            else
              var (w1, copy1, deployed) := FirstDeployment(w, copy);
              if deployed then end == Round(w1, copy1) && ok == RoundCompletes(w1, copy1) else end == w1 && !ok
  {
    hide FirstDeployment, Collect, HandleExistingCluster;
    var (w1, copy1, deployed) :=
      if copy.status.clusterUUID == "" then FirstDeployment(w, copy) else (w, copy, true);
    if deployed {
      var (w2, copy2, infos) := Collect(w1, copy1);
      if infos.Some? {
        var (end, _, ok) := HandleExistingCluster(w2, copy2, infos.value);
        assert HandleReconciliation(w, copy).2 == ok;
        assert RoundCompletes(w1, copy1) == ok;
      }
    }
  }

  /** Each calm reconcile uses up work; it completes and changes nothing exactly when there is none left. */
  lemma CalmReconcile(w: World, p: Period)
    requires CalmAt(w, p) && !w.current.spec.stop
    ensures var (w1, ok) := Reconcile(w);
            && Progress(w, w1, ok, p) && CalmAt(w1, p)
            && !w1.current.spec.stop && w1.current.status.clusterUUID != ""
  {
    hide Calm, FirstDeployment, HandleReconciliation, Round, RoundCompletes, Stuck, Work, Progress;
    CalmGet(w, p);
    var (w1, some) := Get(w);
    var copy := some.value;
    ReconciliationIsRound(w1, copy);
    if w.current.status.clusterUUID == "" {
      CalmFirstDeployment(w1, copy, p);
      var (w2, copy2, ok) := FirstDeployment(w1, copy);
      if ok {
        CalmRound(w2, copy2, p);
        ProgressContinues(w2, Round(w2, copy2), RoundCompletes(w2, copy2), p);
        FirstProgress(w1, w2, Round(w2, copy2), RoundCompletes(w2, copy2), p);
      } else {
        FirstProgress(w1, w2, w2, false, p);
      }
    } else {
      CalmRound(w1, copy, p);
      ProgressContinues(w1, Round(w1, copy), RoundCompletes(w1, copy), p);
    }
    var (end, ok) := Reconcile(w);
    assert Progress(w1, end, ok, p);
    ProgressFrom(w, w1, end, ok, p);
    ProgressContinues(w, end, ok, p);
  }

  lemma ProgressContinues(w: World, end: World, ok: bool, p: Period)
    requires Progress(w, end, ok, p)
    ensures Continues(w, end)
  {
  }

  /** One reconcile of an existing cluster, seen as a round. */
  lemma CalmReconcileHasEffect(w: World, p: Period)
    requires CalmAt(w, p) && !w.current.spec.stop && w.current.status.clusterUUID != ""
    ensures RoundEffect(w, Reconcile(w).0, p)
  {
    hide Calm, HandleReconciliation, Round, RoundCompletes, MonitoredKeys, MarketVisible, Visible, Allowed;
    CalmGet(w, p);
    var (w1, copy) := Get(w);
    ReconciliationIsRound(w1, copy.value);
    RoundHasEffect(w1, copy.value, p);
    assert Seen(w1, p) == Seen(w, p);
  }

  /** The releases after any reconcile. */
  lemma CalmReconcileKeys(w: World, p: Period)
    requires CalmAt(w, p) && !w.current.spec.stop
    ensures var keys := Keys(Reconcile(w).0.helm);
            keys == ComingKeys(w) || keys == MonitoredKeys(w.current.spec, ComingKeys(w))
  {
    hide Calm, FirstDeployment, HandleReconciliation, Round, RoundCompletes, MonitoredKeys, Stuck, RoundEffect;
    CalmGet(w, p);
    var (w1, some) := Get(w);
    var copy := some.value;
    ReconciliationIsRound(w1, copy);
    if w.current.status.clusterUUID == "" {
      CalmFirstDeployment(w1, copy, p);
      var (w2, copy2, ok) := FirstDeployment(w1, copy);
      if ok {
        RoundHasEffect(w2, copy2, p);
        RoundKeys(w2, Round(w2, copy2), p);
      }
    } else {
      RoundHasEffect(w1, copy, p);
      RoundKeys(w1, Round(w1, copy), p);
    }
  }

  lemma RoundKeys(w: World, end: World, p: Period)
    requires RoundEffect(w, end, p)
    ensures Keys(end.helm) == Keys(w.helm) || Keys(end.helm) == MonitoredKeys(w.current.spec, Keys(w.helm))
  {
  }

  // ---- the theorem -----------------------------------------------------------------------------

  lemma {:induction false} WorkRunsOut(w: World, n: nat, p: Period)
    requires CalmAt(w, p) && !w.current.spec.stop
    ensures var end := Run(w, n);
            && CalmAt(end, p) && !end.current.spec.stop && (Stuck(end, p) <==> Stuck(w, p))
            && (!Stuck(w, p) ==> Work(end, p) <= (if n < 4 then 4 - n else 0))
            && (n > 0 ==> end.current.status.clusterUUID != "")
  {
    hide CalmAt, Reconcile, Work, Stuck;
    if n > 0 {
      WorkRunsOut(w, n - 1, p);
      CalmReconcile(Run(w, n - 1), p);
    }
  }

  /**
   * Convergence, exactly: from any status whatever, a reconcile after the fourth completes without
   * writing a status, touching Helm or reporting an app if and only if the operator was not stuck at
   * the start. Then the cluster has its UUID, the record holds the visible revisions, monitoring is in
   * place and no DNS step is due.
   */
  lemma Converges(w: World, n: nat, p: Period)
    requires CalmAt(w, p) && !w.current.spec.stop && n >= 4
    ensures var end := Run(w, n);
            Reconcile(end).1 && Quiet(end, Reconcile(end).0) <==> !Stuck(w, p)
    ensures var end := Run(w, n);
            !Stuck(w, p) ==> end.current.status.clusterUUID != "" && !Differs(end, p) && !Missing(end) && !Due(end, p)
  {
    hide CalmAt, Reconcile, Differs, Missing, Due, Stuck;
    WorkRunsOut(w, n, p);
    CalmReconcile(Run(w, n), p);
  }

  /** Without work nothing happens, however often the operator reconciles. */
  lemma {:induction false} NoWorkStaysQuiet(w: World, n: nat, p: Period)
    requires CalmAt(w, p) && !w.current.spec.stop && !Stuck(w, p) && Work(w, p) == 0
    ensures var end := Run(w, n);
            Quiet(w, end) && CalmAt(end, p) && !end.current.spec.stop && !Stuck(end, p) && Work(end, p) == 0
  {
    hide CalmAt, Reconcile, Work, Stuck;
    if n > 0 {
      NoWorkStaysQuiet(w, n - 1, p);
      CalmReconcile(Run(w, n - 1), p);
      QuietChains(w, Run(w, n - 1), Run(w, n));
    } else {
      assert Quiet(w, w);
    }
  }

  // ---- after faults ----------------------------------------------------------------------------

  lemma {:induction false} ClockAdvances(w: World, n: nat)
    requires Created(w) && Lawful(w.env)
    ensures Run(w, n).clock >= n && Run(w, n).env == w.env
  {
    hide Created, Reconcile, Safe;
    if n > 0 {
      ClockAdvances(w, n - 1);
      RunIsSafe(w, n - 1);
      SafeReconcile(Run(w, n - 1), ANY);
    }
  }

  lemma {:induction false} RunAdds(w: World, m: nat, n: nat)
    ensures Run(w, m + n) == Run(Run(w, m), n)
  {
    hide Reconcile;
    if n > 0 {
      RunAdds(w, m, n - 1);
    }
  }

  /**
   * Recovery: in any run of a created resource, with whatever faults before tick `p.from`, four
   * reconciles after that many have been made the operator settles, if and only if it is not stuck.
   */
  lemma RecoversAfterFaults(w: World, n: nat, p: Period)
    requires Created(w) && Lawful(w.env) && Calm(w.env, p) && n >= p.from + 4
    requires !Run(w, p.from).current.spec.stop
    ensures var end := Run(w, n);
            Reconcile(end).1 && Quiet(end, Reconcile(end).0) <==> !Stuck(Run(w, p.from), p)
  {
    hide Created, Calm, Reconcile, Stuck, Quiet;
    ClockAdvances(w, p.from);
    RunAdds(w, p.from, n - p.from);
    Converges(Run(w, p.from), n - p.from, p);
  }

  /**
   * While the step is jammed no reconcile completes: applications are neither recorded nor reported,
   * and nothing but the DNS record is sent, however often the operator tries.
   */
  lemma {:induction false} JammedForever(w: World, n: nat, p: Period)
    requires CalmAt(w, p) && !w.current.spec.stop && w.current.status.clusterUUID != ""
    requires Jammed(w.current.spec, w.current.status, Keys(w.helm), p)
    ensures Quiet(w, Run(w, n)) && CalmAt(Run(w, n), p) && !Reconcile(Run(w, n)).1
  {
    hide CalmAt, Reconcile, Jammed;
    if n == 0 {
      assert Quiet(w, w);
    } else {
      JammedForever(w, n - 1, p);
      JammedReconcile(Run(w, n - 1), p);
      QuietChains(w, Run(w, n - 1), Run(w, n));
    }
    JammedReconcile(Run(w, n), p);
  }

  lemma JammedReconcile(w: World, p: Period)
    requires CalmAt(w, p) && !w.current.spec.stop && w.current.status.clusterUUID != ""
    requires Jammed(w.current.spec, w.current.status, Keys(w.helm), p)
    ensures !Reconcile(w).1 && Quiet(w, Reconcile(w).0) && CalmAt(Reconcile(w).0, p)
  {
    hide Calm, HandleReconciliation, Round, RoundCompletes, MarketVisible, Allowed;
    CalmGet(w, p);
    var (w1, copy) := Get(w);
    ReconciliationIsRound(w1, copy.value);
    RoundStops(w1, copy.value, p);
    QuietChains(w, w1, Round(w1, copy.value));
  }
}
