/**
 * What becomes of a report that fails. An existing cluster reports first and records after, so the
 * difference is still there for the next reconcile; a new cluster records first, and nobody notices.
 */
module Delivery {
  import opened Api
  import opened Convergence
  import opened Growth
  import opened Naming
  import opened Reconciliation
  import opened Reports
  import opened Rounds
  import opened SafeRuns
  import opened Safety
  import opened Sorting
  import opened Text
  import opened Utils
  import opened World

  lemma PostsAreJustBefore(before: seq<Event>, copy: Copy, infos: seq<HelmInfo>)
    ensures var log := before + Posts(copy, infos);
            PostedJustBefore(log, |log|, copy.status.clusterUUID, infos, copy.version)
  {
    var log := before + Posts(copy, infos);
    forall i | 0 <= i < |infos|
      ensures log[|log| - |infos| + i] == App(copy.status.clusterUUID, infos[i], copy.version, true)
    {
      assert log[|before| + i] == Posts(copy, infos)[i];
    }
  }

  lemma QuietSendsNoApps(a: World, b: World)
    requires Quiet(a, b) || Churns(a, b)
    ensures NoApps(a, b)
  {
  }

  /**
   * For an existing cluster with no DNS step due, a calm reconcile reports the visible releases, all
   * of them in order, and records them, exactly when their revisions differ from the record.
   */
  lemma DifferenceIsDelivered(w: World, p: Period) returns (infos: seq<HelmInfo>)
    requires CalmAt(w, p) && !w.current.spec.stop && w.current.status.clusterUUID != "" && !Due(w, p)
    ensures Rows(infos) == ReleaseRows(Seen(w, p))
    ensures var (end, ok) := Reconcile(w);
            if Differs(w, p) then
              && ok && end.current.status.helmStatus == infos && end.current.status.revision == Sort(Revisions(infos))
              && PostedJustBefore(end.log, |end.log|, w.current.status.clusterUUID, infos, |w.past|)
            else NoApps(w, end) && end.current == w.current
  {
    hide Calm, Collect, HandleExistingCluster, Sort, PostedJustBefore, Posts, Rows, ReleaseRows, Churns, NoApps;
    hide Foreign, Missing, MonitoredKeys, MarketVisible, Allowed, Visible, ReleaseRevisions;
    CalmGet(w, p);
    var (w1, some) := Get(w);
    var copy := some.value;
    assert Due(w1, p) == Due(w, p) && Seen(w1, p) == Seen(w, p);
    CalmCollect(w1, copy, p);
    var (w2, copy2, collected) := Collect(w1, copy);
    infos := collected.value;
    CalmExisting(w2, copy2, infos, p);
    var (end, _, ok) := HandleExistingCluster(w2, copy2, infos);
    assert Reconcile(w) == (end, ok);
    if Differs(w, p) {
      PostsAreJustBefore(w2.log, Compared(copy2, Revisions(infos)), infos);
    } else {
      QuietChains(w, w1, w2);
      QuietSendsNoApps(w, w2);
      QuietSendsNoApps(w2, end);
      NoAppsChains(w, w2, end);
    }
  }

  // ---- an existing cluster ---------------------------------------------------------------------

  /**
   * A reconcile of an existing cluster whose copy is up to date, which collects `infos`, sees that
   * they differ from the record and fails while reporting them.
   */
  ghost predicate RegistrationFails(w: World, infos: seq<HelmInfo>) {
    var (w1, copy) := Get(w);
    && copy.Some? && !copy.value.spec.stop && copy.value.status.clusterUUID != ""
    && var (w2, copy2, collected) := Collect(w1, copy.value);
    && collected == Some(infos) && Fresh(w2, copy2)
    && multiset(copy2.status.revision) != multiset(Revisions(infos))
    && !RegisterApps(w2, Compared(copy2, Revisions(infos)), infos).1
  }

  /** Such a reconcile is over and the record still differs from what was collected. */
  lemma FailedRegistrationKeepsTheDifference(w: World, infos: seq<HelmInfo>)
    requires RegistrationFails(w, infos)
    ensures var (next, ok) := Reconcile(w);
            && !ok && next.current.status.clusterUUID == Get(w).1.value.status.clusterUUID
            && multiset(next.current.status.revision) != multiset(Revisions(infos))
  {
    hide Get, Collect, RegisterApps, UpdateStatus;
    var (w1, copy) := Get(w);
    var (w2, copy2, collected) := Collect(w1, copy.value);
    CollectionNames(w1, copy.value, 0);
    RegistrationKeepsStatus(w2, Compared(copy2, Revisions(infos)), infos);
    assert Reconcile(w).0 == RegisterApps(w2, Compared(copy2, Revisions(infos)), infos).0;
  }

  /**
   * At least once: after a registration that failed half-way, with calls succeeding from then on and
   * the same releases visible at the same revisions, the very next reconcile reports them all, in
   * order and without an error, and records them.
   */
  lemma FailedRegistrationIsRetried(w: World, infos: seq<HelmInfo>, p: Period) returns (sent: seq<HelmInfo>)
    requires RegistrationFails(w, infos)
    requires var next := Reconcile(w).0;
             CalmAt(next, p) && !next.current.spec.stop && !Due(next, p) && ReleaseRows(Seen(next, p)) == Rows(infos)
    ensures Rows(sent) == Rows(infos)
    ensures var next := Reconcile(w).0;
            var (end, ok) := Reconcile(next);
            && ok && end.current.status.helmStatus == sent && end.current.status.revision == Sort(Revisions(sent))
            && PostedJustBefore(end.log, |end.log|, next.current.status.clusterUUID, sent, |next.past|)
  {
    hide RegistrationFails, Calm, Due, Reconcile, Seen, Sort, Rows, ReleaseRows;
    FailedRegistrationKeepsTheDifference(w, infos);
    var next := Reconcile(w).0;
    FailsForExisting(w, infos);
    SameRowsSameRevisions(infos, Seen(next, p));
    sent := DifferenceIsDelivered(next, p);
  }

  lemma FailsForExisting(w: World, infos: seq<HelmInfo>)
    requires RegistrationFails(w, infos)
    ensures Get(w).1.Some? && Get(w).1.value.status.clusterUUID != ""
  {
  }

  // ---- when a step may have become due ---------------------------------------------------------

  /**
   * From `copy` to `copy1` the mark may have been set. Without it, none of the entries from `from` on is
   * one for which the DNS step would do something or fail.
   */
  ghost predicate Unmet(copy: Copy, copy1: Copy, p: Period, from: nat, infos: seq<HelmInfo>) {
    && copy1.spec == copy.spec && (copy.status.dnsUpdated ==> copy1.status.dnsUpdated)
    && (Pending(copy1, p) ==> forall i | from <= i < |infos| :: !IsMarket(infos[i].namespace, p))
  }

  lemma {:induction false} UpgradesMark(w: World, copy: Copy, installs: seq<HelmInstall>, host: string)
    ensures var (_, copy1, ok) := UpgradeAll(w, copy, installs, host);
            && copy1.spec == copy.spec && (copy.status.dnsUpdated ==> copy1.status.dnsUpdated)
            && (ok && installs != [] ==> copy1.status.dnsUpdated)
    decreases |installs|
  {
    hide Upgrade, Tweaked;
    if installs != [] {
      var w1 := Upgrade(w, Tweaked(installs[0], host)).0;
      var (w2, copy2, _) := UpdateStatus(w1, copy.(status := copy.status.(dnsUpdated := true)), DnsDone);
      UpgradesMark(w2, copy2, installs[1..], host);
    }
  }

  /** An address that was waited for is the period's. */
  lemma {:induction false} AwaitedAddress(w: World, name: string, retryCount: nat, from: nat, p: Period)
    requires SameAnswers(w.env, from, p) && from <= w.clock
    requires p.market.Some? && p.customName.Some? && name == IngressName(p.customName.value, p.market.value)
    ensures AwaitAddress(w, name, retryCount).1.Some? ==> p.ingress.Address?
    decreases MAX_RETRIES - retryCount
  {
    if retryCount < MAX_RETRIES {
      AwaitedAddress(w.Wake(), name, retryCount + 1, from, p);
    }
  }

  /** A DNS step for a market release that completes has an address and sets the mark. */
  lemma DnsMarks(w: World, copy: Copy, namespace: string, appUUID: string, from: nat, p: Period)
    requires SameAnswers(w.env, from, p) && from <= w.clock
    ensures var (_, copy1, ok) := GetDns(w, copy, namespace, appUUID);
            && copy1.spec == copy.spec && (copy.status.dnsUpdated ==> copy1.status.dnsUpdated)
            && (ok && IsMarket(namespace, p) ==> Answers(p) && (copy.spec.helm != [] ==> copy1.status.dnsUpdated))
  {
    hide AwaitAddress, UpgradeAll;
    forall w', host
      ensures var (_, copy1, ok) := UpgradeAll(w', copy, copy.spec.helm, host);
              && copy1.spec == copy.spec && (copy.status.dnsUpdated ==> copy1.status.dnsUpdated)
              && (ok && copy.spec.helm != [] ==> copy1.status.dnsUpdated)
    {
      UpgradesMark(w', copy, copy.spec.helm, host);
    }
    var (w1, market) := ReadMarket(w);
    if market == Some(namespace) {
      var (w2, custom) := ReadCustomName(w1);
      if custom.Some? {
        AwaitedAddress(w2, IngressName(custom.value, namespace), 0, from, p);
      }
    }
  }

  lemma ReleaseMarks(w: World, copy: Copy, r: Release, from: nat, p: Period)
    requires SameAnswers(w.env, from, p) && from <= w.clock
    ensures var (w1, copy1, info) := CollectRelease(w, copy, r);
            w1.env == w.env && w.clock <= w1.clock && (info.Some? ==> Unmet(copy, copy1, p, 0, [info.value]))
  {
    hide GetDns, SameAnswers;
    ReleaseNames(w, copy, r, []);
    var (w1, found) := GetHelmInfo(w, copy, r);
    var (w2, info) := ApplySecret(w1, r, found);
    DnsMarks(w2, copy, r.namespace, info.appUUID, from, p);
  }

  lemma UnmetChains(copy: Copy, copy1: Copy, copy2: Copy, p: Period, from: nat, some: nat,
                    a: seq<HelmInfo>, b: seq<HelmInfo>)
    requires Unmet(copy, copy1, p, from, a) && Unmet(copy1, copy2, p, some, b)
    requires a <= b && some <= |a|
    ensures Unmet(copy, copy2, p, from, b)
  {
  }

  lemma {:induction false} ReleasesMark(w: World, copy: Copy, releases: seq<Release>, infos: seq<HelmInfo>,
                                        from: nat, p: Period)
    requires SameAnswers(w.env, from, p) && from <= w.clock
    ensures var (w1, copy1, all) := CollectReleases(w, copy, releases, infos);
            && w1.env == w.env && w.clock <= w1.clock
            && (all.Some? ==> infos <= all.value && Unmet(copy, copy1, p, |infos|, all.value))
    decreases |releases|
  {
    hide CollectRelease, SameAnswers;
    if releases != [] {
      ReleaseMarks(w, copy, releases[0], from, p);
      var (w1, copy1, info) := CollectRelease(w, copy, releases[0]);
      if info.Some? {
        var more := infos + [info.value];
        ReleasesMark(w1, copy1, releases[1..], more, from, p);
        var (_, copy2, all) := CollectReleases(w1, copy1, releases[1..], more);
        if all.Some? {
          assert [info.value][0] == info.value;
          UnmetChains(copy, copy1, copy2, p, |infos|, |more|, more, all.value);
        }
      }
    }
  }

  lemma {:induction false} NamespacesMark(w: World, copy: Copy, list: seq<string>, infos: seq<HelmInfo>,
                                          from: nat, p: Period)
    requires SameAnswers(w.env, from, p) && from <= w.clock
    ensures var (_, copy1, all) := CollectNamespaces(w, copy, list, infos);
            all.Some? ==> infos <= all.value && Unmet(copy, copy1, p, |infos|, all.value)
    decreases |list|
  {
    hide CollectReleases, SameAnswers;
    if list != [] {
      var (w1, releases) := ListReleases(w, list[0]);
      if releases.Some? {
        ReleasesMark(w1, copy, releases.value, infos, from, p);
        var (w2, copy2, more) := CollectReleases(w1, copy, releases.value, infos);
        if more.Some? {
          NamespacesMark(w2, copy2, list[1..], more.value, from, p);
          var (_, copy3, all) := CollectNamespaces(w2, copy2, list[1..], more.value);
          if all.Some? {
            UnmetChains(copy, copy2, copy3, p, |infos|, |more.value|, more.value, all.value);
          }
        }
      }
    }
  }

  lemma {:induction false} MarketIsSeen(helm: seq<Release>, list: seq<string>, p: Period)
    requires MarketVisible(Keys(helm), list, p)
    ensures exists r | r in Visible(helm, list) :: IsMarket(r.namespace, p)
    decreases |list|
  {
    if MarketVisible(Keys(helm), [list[0]], p) {
      var k :| k in Keys(helm) && k.namespace in [list[0]] && IsMarket(k.namespace, p);
      var r :| r in helm && ReleaseKey(r) == k;
      assert r in InNamespace(helm, list[0]);
      assert r in Visible(helm, list);
    } else {
      MarketVisibleSplits(Keys(helm), list, p);
      MarketIsSeen(helm, list[1..], p);
      var r :| r in Visible(helm, list[1..]) && IsMarket(r.namespace, p);
      assert r in Visible(helm, list);
    }
  }

  /**
   * After a registration that failed, with the spec and the answers to the DNS step as they were when
   * that reconcile began and the same releases visible, no DNS step is due: the collection that was to
   * be reported has seen to it.
   */
  lemma NoStepIsDue(w: World, infos: seq<HelmInfo>, p: Period)
    requires RegistrationFails(w, infos) && SameAnswers(w.env, w.clock, p)
    requires var next := Reconcile(w).0;
             next.current.spec == Get(w).1.value.spec && ReleaseRows(Seen(next, p)) == Rows(infos)
    ensures !Due(Reconcile(w).0, p)
  {
    hide Get, CollectNamespaces, RegisterApps, UpdateStatus, SameAnswers, MarketVisible, Visible, Allowed;
    var (w1, some) := Get(w);
    GetKeepsEnv(w);
    var copy := some.value;
    var (w2, copy2, _) := Collect(w1, copy);
    var names := ListNamespaces(w1).1.value;
    NamespacesMark(ListNamespaces(w1).0, copy, Allowed(names, copy.spec.denyNamespaces), [], w.clock, p);
    RegistrationKeepsStatus(w2, Compared(copy2, Revisions(infos)), infos);
    var next := Reconcile(w).0;
    assert next == RegisterApps(w2, Compared(copy2, Revisions(infos)), infos).0;
    if Due(next, p) {
      MarketIsSeen(next.helm, AllowedOf(next.current.spec, p.namespaces), p);
      var r :| r in Seen(next, p) && IsMarket(r.namespace, p);
      RowIsCollected(infos, Seen(next, p), r);
    }
  }

  lemma GetKeepsEnv(w: World)
    ensures Get(w).0.env == w.env && w.clock <= Get(w).0.clock
  {
  }

  lemma RowIsCollected(infos: seq<HelmInfo>, releases: seq<Release>, r: Release)
    requires ReleaseRows(releases) == Rows(infos) && r in releases
    ensures exists i | 0 <= i < |infos| :: infos[i].namespace == r.namespace
  {
    var i :| 0 <= i < |releases| && releases[i] == r;
    assert ReleaseRows(releases)[i] == Rows(infos)[i];
  }

  // ---- a new cluster ---------------------------------------------------------------------------

  /** A reconcile of a new cluster that records its first collection `infos` and fails while reporting it. */
  ghost predicate FirstReportFails(w: World, infos: seq<HelmInfo>) {
    var (w1, copy) := Get(w);
    && copy.Some? && !copy.value.spec.stop && copy.value.status.clusterUUID == ""
    && var (w2, id) := Mint(w1);
       var named := copy.value.(status := copy.value.status.(clusterUUID := "K-" + id));
       var (w3, copy3, claimed) := UpdateStatus(w2, named, Claim);
    && claimed && copy3.status == named.status
    && var (w4, exposed) := HandleIngress(w3, copy3);
    && exposed
    && var (w5, registered) := Post(w4, Register(copy3.status.clusterUUID, copy3.version, false));
    && registered
    && var (w6, copy6, collected) := Collect(w5, copy3);
    && collected == Some(infos)
    && var (w7, copy7, updated) := UpdateStatus(w6, Recorded(copy6, infos), First);
    && updated && !RegisterApps(w7, copy7, infos).1
  }

  lemma FailedFirstReportIsRecorded(w: World, infos: seq<HelmInfo>)
    requires FirstReportFails(w, infos)
    ensures var (next, ok) := Reconcile(w);
            && !ok && next.current.status.clusterUUID != "" && next.current.status.revision == Sort(Revisions(infos))
  {
    hide Get, HandleIngress, Collect, RegisterApps, Sort;
    var (w1, copy) := Get(w);
    var (w2, id) := Mint(w1);
    var named := copy.value.(status := copy.value.status.(clusterUUID := "K-" + id));
    var (w3, copy3, _) := UpdateStatus(w2, named, Claim);
    var (w4, _) := HandleIngress(w3, copy3);
    var (w5, _) := Post(w4, Register(copy3.status.clusterUUID, copy3.version, false));
    CollectionNames(w5, copy3, 0);
    var (w6, copy6, _) := Collect(w5, copy3);
    var (w7, copy7, _) := UpdateStatus(w6, Recorded(copy6, infos), First);
    assert w7.current.status == Recorded(copy6, infos).status;
    RegistrationKeepsStatus(w7, copy7, infos);
    assert FirstDeployment(w1, copy.value).0 == RegisterApps(w7, copy7, infos).0;
  }

  /**
   * The record is then taken for delivered. With requests answered from then on, the recorded releases
   * visible and the operator not stuck, no later reconcile reports anything if and only if neither
   * monitoring is still to be installed into a listed namespace nor a DNS step is due that upgrades a
   * visible release. Otherwise four reconciles later all that is then on record was reported.
   */
  lemma FailedFirstReportIsForgotten(w: World, infos: seq<HelmInfo>, p: Period)
    requires FirstReportFails(w, infos)
    requires var next := Reconcile(w).0;
             && CalmAt(next, p) && !next.current.spec.stop && !Stuck(next, p)
             && ReleaseRows(Seen(next, p)) == Rows(infos)
    ensures var next := Reconcile(w).0;
            && ((forall n: nat :: NoApps(next, Run(next, n))) <==> !Reportable(next, p))
            && (Reportable(next, p) ==> AllReported(next, Run(next, 4)) && !NoApps(next, Run(next, 4)))
  {
    hide FirstReportFails, CalmAt, Seen, Stuck, Reconcile, Run, Sort, Rows, ReleaseRows;
    hide NoApps, AllReported, Reportable;
    FailedFirstReportIsRecorded(w, infos);
    var next := Reconcile(w).0;
    SameRowsSameRevisions(infos, Seen(next, p));
    assert !Differs(next, p);
    NeverReportedExactly(next, p);
  }
}
