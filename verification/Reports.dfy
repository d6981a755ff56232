/**
 * When a record agrees with what is visible, does the operator ever report again? Only a change that
 * shows makes it: installing monitoring into a listed namespace, or upgrading a visible release.
 */
module Reports {
  import opened Api
  import opened Convergence
  import opened Growth
  import opened Reconciliation
  import opened Rounds
  import opened SafeRuns
  import opened Sorting
  import opened Utils
  import opened World

  /** The operator has something left to do that will show. */
  predicate Reportable(w: World, p: Period) {
    || (Missing(w) && PLATFORM in AllowedOf(w.current.spec, p.namespaces))
    || (Due(w, p) && Shows(w, p))
  }

  /** A running operator of a registered cluster in a calm period, not stuck. */
  ghost predicate Runs(w: World, p: Period) {
    CalmAt(w, p) && !w.current.spec.stop && w.current.status.clusterUUID != "" && !Stuck(w, p)
  }

  lemma StillRuns(w: World, p: Period)
    requires Runs(w, p)
    ensures Runs(Reconcile(w).0, p) && Continues(w, Reconcile(w).0) && RoundEffect(w, Reconcile(w).0, p)
    ensures !Foreign(w.current.spec, Keys(w.helm))
  {
    CalmReconcileHasEffect(w, p);
    CalmReconcile(w, p);
    hide CalmAt, Reconcile, RoundEffect;
    ProgressContinues(w, Reconcile(w).0, Reconcile(w).1, p);
  }

  // ---- nothing shows ---------------------------------------------------------------------------

  /** In a round nothing is reported unless what was collected differs from the record. */
  lemma RoundReportsNothing(w: World, copy: Copy, p: Period)
    requires CalmAt(w, p) && Fresh(w, copy) && copy.status.clusterUUID != ""
    requires !Differs(w, p) && !(Due(w, p) && Shows(w, p))
    ensures var end := Round(w, copy);
            && NoApps(w, end) && end.current.status.helmStatus == w.current.status.helmStatus
            && end.current.status.revision == w.current.status.revision
  {
    hide Calm, Collect, HandleExistingCluster, HelmGrows, MarketVisible, Visible, Allowed, Foreign, MonitoredKeys;
    hide Shown, UpgradedKeys, Upgrades, Missing;
    CalmCollect(w, copy, p);
    CollectAnnounces(w, copy);
    var (w1, copy1, infos) := Collect(w, copy);
    if infos.Some? {
      assert multiset(copy1.status.revision) == multiset(Revisions(infos.value));
      CalmExisting(w1, copy1, infos.value, p);
      ExistingSends(w1, copy1, infos.value);
      NoAppsChains(w, w1, HandleExistingCluster(w1, copy1, infos.value).0);
    }
  }

  /** Without anything to report things stay that way. */
  lemma StillNothing(w: World, end: World, p: Period)
    requires RoundEffect(w, end, p) && !Foreign(w.current.spec, Keys(w.helm))
    requires !Differs(w, p) && !Reportable(w, p) && end.current.status.revision == w.current.status.revision
    requires Due(w, p) ==> Upgrades(w.current.spec, Keys(w.helm), p)
    ensures !Differs(end, p) && !Reportable(end, p)
  {
    var list := AllowedOf(w.current.spec, p.namespaces);
    RaisedIsHidden(w, p);
    if PLATFORM in list {
      SameLengthSameKeys(w.helm, end.helm, RaisedKeys(w, p));
    }
    HiddenGrowth(w.helm, end.helm, RaisedKeys(w, p), list);
    RowsAlike(Seen(end, p), Seen(w, p));
    HiddenMarket(w, end, p);
  }

  lemma RaisedIsHidden(w: World, p: Period)
    requires !Reportable(w, p)
    ensures !Shown(RaisedKeys(w, p), AllowedOf(w.current.spec, p.namespaces))
    ensures PLATFORM in AllowedOf(w.current.spec, p.namespaces) ==> !Missing(w)
  {
  }

  /** A step that was not due does not become due through releases of a namespace that is not listed. */
  lemma HiddenMarket(w: World, end: World, p: Period)
    requires RoundEffect(w, end, p) && !Reportable(w, p)
    requires Due(w, p) ==> Upgrades(w.current.spec, Keys(w.helm), p)
    requires PLATFORM in AllowedOf(w.current.spec, p.namespaces) ==> Keys(end.helm) == Keys(w.helm)
    ensures !(Due(end, p) && Shows(end, p))
  {
    hide Allowed, HelmGrows, UpgradedKeys, Differs;
    var list := AllowedOf(w.current.spec, p.namespaces);
    if Due(end, p) && !Due(w, p) {
      var k :| k in Keys(end.helm) && k.namespace in list && IsMarket(k.namespace, p);
    }
  }

  lemma NothingIsReported(w: World, p: Period)
    requires Runs(w, p) && !Differs(w, p) && !Reportable(w, p)
    ensures var end := Reconcile(w).0;
            && NoApps(w, end) && !Differs(end, p) && !Reportable(end, p) && Runs(end, p)
            && end.current.status.helmStatus == w.current.status.helmStatus
            && end.current.status.revision == w.current.status.revision
  {
    hide Calm, HandleReconciliation, Round, RoundCompletes, RoundEffect, Stuck, Foreign;
    StillRuns(w, p);
    CalmGet(w, p);
    var (w1, some) := Get(w);
    var copy := some.value;
    ReconciliationIsRound(w1, copy);
    LaterAlike(w, w1, p);
    DueUpgrades(w, p);
    RoundReportsNothing(w1, copy, p);
    StillNothing(w, Reconcile(w).0, p);
  }

  lemma DueUpgrades(w: World, p: Period)
    requires Runs(w, p)
    ensures Due(w, p) ==> Upgrades(w.current.spec, Keys(w.helm), p)
  {
  }

  lemma LaterAlike(w: World, w1: World, p: Period)
    requires w1 == w.(clock := w.clock + 1)
    ensures Differs(w1, p) == Differs(w, p) && Due(w1, p) == Due(w, p) && Shows(w1, p) == Shows(w, p)
  {
  }

  lemma {:induction false} NothingIsEverReported(w: World, n: nat, p: Period)
    requires Runs(w, p) && !Differs(w, p) && !Reportable(w, p)
    ensures var end := Run(w, n);
            && NoApps(w, end) && !Differs(end, p) && !Reportable(end, p) && Runs(end, p)
            && end.current.status.helmStatus == w.current.status.helmStatus
            && end.current.status.revision == w.current.status.revision
  {
    hide Runs, Reconcile, Differs, Reportable;
    if n > 0 {
      NothingIsEverReported(w, n - 1, p);
      NothingIsReported(Run(w, n - 1), p);
      NoAppsChains(w, Run(w, n - 1), Run(w, n));
    }
  }

  // ---- something shows -------------------------------------------------------------------------

  lemma KeysStay(a: seq<Release>, b: seq<Release>, raised: set<Key>)
    requires HelmGrows(a, b, raised)
    ensures Keys(a) <= Keys(b)
  {
    forall k | k in Keys(a)
      ensures k in Keys(b)
    {
      var i :| 0 <= i < |a| && ReleaseKey(a[i]) == k;
      assert b[i] in b;
    }
  }

  lemma {:induction false} InstalledIsVisible(helm: seq<Release>, list: seq<string>, k: Key)
    requires k in Keys(helm) && k.namespace in list
    ensures Visible(helm, list) != []
    decreases |list|
  {
    if k.namespace == list[0] {
      var r :| r in helm && ReleaseKey(r) == k;
      assert r in InNamespace(helm, list[0]);
    } else {
      InstalledIsVisible(helm, list[1..], k);
    }
  }

  /** A step of the operator never makes what is visible lighter; one that shows makes it heavier. */
  lemma StepGains(w: World, end: World, p: Period)
    requires RoundEffect(w, end, p) && !Foreign(w.current.spec, Keys(w.helm)) && !Stuck(w, p)
    requires w.current.status.clusterUUID != ""
    ensures Keys(w.helm) <= Keys(end.helm) && Weight(Seen(end, p)) >= Weight(Seen(w, p))
    ensures Due(w, p) && Shows(w, p) ==> Weight(Seen(end, p)) > Weight(Seen(w, p))
    ensures PLATFORM in AllowedOf(w.current.spec, p.namespaces) && ALLOY in Keys(end.helm) && ALLOY !in Keys(w.helm) ==>
              Weight(Seen(end, p)) > Weight(Seen(w, p))
  {
    hide HelmGrows, Weight, Visible, Allowed, UpgradedKeys, MarketVisible, Foreign;
    var list := AllowedOf(w.current.spec, p.namespaces);
    var raised := RaisedKeys(w, p);
    KeysStay(w.helm, end.helm, raised);
    VisibleGains(w.helm, end.helm, raised, list);
    if Due(w, p) && Shows(w, p) {
      assert Upgrades(w.current.spec, Keys(w.helm), p);
      UpgradedAreInstalled(w.current.spec.helm, Keys(w.helm));
      var k :| k in raised && k.namespace in list;
      var r :| r in w.helm && ReleaseKey(r) == k;
      assert Gains(w.helm, end.helm, raised, k.namespace);
    }
    if PLATFORM in list && ALLOY in Keys(end.helm) && ALLOY !in Keys(w.helm) {
      if |end.helm| == |w.helm| {
        SameLengthSameKeys(w.helm, end.helm, raised);
      }
      HelmLonger(w.helm, end.helm, raised);
      assert Gains(w.helm, end.helm, raised, PLATFORM);
    }
  }

  lemma HelmLonger(a: seq<Release>, b: seq<Release>, raised: set<Key>)
    requires HelmGrows(a, b, raised)
    ensures |a| <= |b|
  {
  }

  lemma {:induction false} RunGains(w: World, n: nat, p: Period)
    requires Runs(w, p)
    ensures var end := Run(w, n);
            && Runs(end, p) && end.current.spec == w.current.spec
            && Keys(w.helm) <= Keys(end.helm) && Weight(Seen(end, p)) >= Weight(Seen(w, p))
            && (n > 0 && Due(w, p) && Shows(w, p) ==> Weight(Seen(end, p)) > Weight(Seen(w, p)))
            && (PLATFORM in AllowedOf(w.current.spec, p.namespaces)
                && ALLOY in Keys(end.helm) && ALLOY !in Keys(w.helm) ==>
                  Weight(Seen(end, p)) > Weight(Seen(w, p)))
  {
    hide Reconcile, Weight, RoundEffect, Due, Shows, Seen, Foreign, CalmAt, Stuck, Allowed;
    if n > 0 {
      RunGains(w, n - 1, p);
      StillRuns(Run(w, n - 1), p);
      StepGains(Run(w, n - 1), Run(w, n), p);
      if n > 1 && Due(w, p) && Shows(w, p) {
        RunGains(w, 1, p);
        assert n - 1 > 0;
      }
    }
  }

  /** Every entry of the record was reported since `w`, without an error. */
  ghost predicate AllReported(w: World, end: World) {
    && |w.log| <= |end.log|
    && forall info | info in end.current.status.helmStatus ::
         exists j | |w.log| <= j < |end.log| :: end.log[j].App? && end.log[j].ack && end.log[j].info == info
  }

  /** The recorded revisions are those of the recorded releases. */
  ghost predicate Coherent(s: Status) {
    s.revision == Sort(Revisions(s.helmStatus))
  }

  ghost predicate SameNotes(w: World, end: World) {
    && end.current.status.helmStatus == w.current.status.helmStatus
    && end.current.status.revision == w.current.status.revision
  }

  lemma PostsReport(w: World, end: World, copy: Copy, infos: seq<HelmInfo>)
    requires end.log == w.log + Posts(copy, infos) && end.current.status.helmStatus == infos
    ensures AllReported(w, end)
  {
    forall info | info in infos
      ensures exists j | |w.log| <= j < |end.log| :: end.log[j].App? && end.log[j].ack && end.log[j].info == info
    {
      var i :| 0 <= i < |infos| && infos[i] == info;
      assert end.log[|w.log| + i] == Posts(copy, infos)[i];
    }
  }

  /** A round keeps the record or replaces it by what it has just reported. */
  lemma RoundKeepsOrReports(w: World, copy: Copy, p: Period)
    requires CalmAt(w, p) && Fresh(w, copy) && copy.status.clusterUUID != ""
    ensures var end := Round(w, copy);
            && w.log <= end.log
            && (SameNotes(w, end) || (AllReported(w, end) && Coherent(end.current.status)))
  {
    hide Calm, Collect, HandleExistingCluster, HelmGrows, MarketVisible, Visible, Allowed, Foreign, MonitoredKeys;
    hide Shown, UpgradedKeys, Upgrades, Missing, AllReported, Sort, Due, Seen;
    CalmCollect(w, copy, p);
    RoundSends(w, copy);
    CollectAnnounces(w, copy);
    var (w1, copy1, infos) := Collect(w, copy);
    if infos.Some? {
      CalmExisting(w1, copy1, infos.value, p);
      var end := HandleExistingCluster(w1, copy1, infos.value).0;
      if multiset(copy1.status.revision) != multiset(Revisions(infos.value)) {
        PostsReport(w1, end, Compared(copy1, Revisions(infos.value)), infos.value);
        ReportedSince(w, w1, end);
      }
    }
  }

  lemma ReportedSince(a: World, b: World, end: World)
    requires AllReported(b, end) && a.log <= b.log
    ensures AllReported(a, end)
  {
  }

  lemma ReportedThen(a: World, b: World, end: World)
    requires AllReported(a, b) && SameNotes(b, end) && b.log <= end.log
    ensures AllReported(a, end)
  {
    forall info | info in end.current.status.helmStatus
      ensures exists j | |a.log| <= j < |end.log| :: end.log[j].App? && end.log[j].ack && end.log[j].info == info
    {
      var j :| |a.log| <= j < |b.log| && b.log[j].App? && b.log[j].ack && b.log[j].info == info;
      assert end.log[j] == b.log[j];
    }
  }

  lemma ReconcileKeepsOrReports(w: World, p: Period)
    requires Runs(w, p)
    ensures var end := Reconcile(w).0;
            && w.log <= end.log
            && (SameNotes(w, end) || (AllReported(w, end) && Coherent(end.current.status)))
  {
    hide Calm, HandleReconciliation, Round, RoundCompletes, Stuck, AllReported, Sort;
    CalmGet(w, p);
    var (w1, some) := Get(w);
    ReconciliationIsRound(w1, some.value);
    RoundKeepsOrReports(w1, some.value, p);
    var end := Round(w1, some.value);
    if !SameNotes(w, end) {
      ReportedSince(w, w1, end);
    }
  }

  lemma {:induction false} RunKeepsOrReports(w: World, n: nat, p: Period)
    requires Runs(w, p)
    ensures var end := Run(w, n);
            && w.log <= end.log
            && (SameNotes(w, end) || (AllReported(w, end) && Coherent(end.current.status)))
  {
    hide Runs, Reconcile, AllReported, Sort;
    if n > 0 {
      RunKeepsOrReports(w, n - 1, p);
      RunGains(w, n - 1, p);
      var last, end := Run(w, n - 1), Run(w, n);
      ReconcileKeepsOrReports(last, p);
      if SameNotes(last, end) {
        if !SameNotes(w, last) {
          ReportedThen(w, last, end);
        }
      } else {
        ReportedSince(w, last, end);
      }
    }
  }

  /** Once something has shown, four reconciles have reported all that is on record, and there is something. */
  lemma ShownIsReported(w: World, p: Period)
    requires Runs(w, p) && !Differs(w, p) && Reportable(w, p)
    ensures AllReported(w, Run(w, 4)) && Run(w, 4).current.status.helmStatus != []
  {
    hide Reconcile, Run, AllReported, Weight, Sort, Allowed, Visible, Stuck, CalmAt, Upgrades;
    var end := Run(w, 4);
    RunKeepsOrReports(w, 4, p);
    RunGains(w, 4, p);
    Converges(w, 4, p);
    ShownIsVisible(w, end, p);
    if multiset(end.current.status.revision) == multiset(w.current.status.revision) {
      WeightByMultiset(Seen(w, p), Seen(end, p));
    }
    assert |multiset(ReleaseRevisions(Seen(end, p)))| == |Seen(end, p)|;
    assert |multiset(Revisions(end.current.status.helmStatus))| == |end.current.status.helmStatus|;
  }

  /** What shows is visible afterwards. */
  lemma ShownIsVisible(w: World, end: World, p: Period)
    requires Reportable(w, p) && end.current.spec == w.current.spec && Keys(w.helm) <= Keys(end.helm) && !Missing(end)
    ensures Seen(end, p) != []
    ensures Missing(w) ==> ALLOY in Keys(end.helm) && ALLOY !in Keys(w.helm)
  {
    hide Allowed, UpgradedKeys, Due, Visible;
    var list := AllowedOf(w.current.spec, p.namespaces);
    if Missing(w) && PLATFORM in list {
      InstalledIsVisible(end.helm, list, ALLOY);
    } else {
      UpgradedAreInstalled(w.current.spec.helm, Keys(w.helm));
      var k :| k in UpgradedKeys(w.current.spec.helm, Keys(w.helm)) && k.namespace in list;
      InstalledIsVisible(end.helm, list, k);
    }
  }

  lemma ReportedIsSeen(w: World, end: World)
    requires AllReported(w, end) && end.current.status.helmStatus != []
    ensures !NoApps(w, end)
  {
    var info := end.current.status.helmStatus[0];
    assert info in end.current.status.helmStatus;
  }

  /**
   * With a record that agrees with what is visible, no later reconcile of a calm period ever reports
   * anything if and only if nothing is left to do that will show. Otherwise four reconciles report all
   * that is on record after them.
   */
  lemma NeverReportedExactly(w: World, p: Period)
    requires Runs(w, p) && !Differs(w, p)
    ensures (forall n: nat :: NoApps(w, Run(w, n))) <==> !Reportable(w, p)
    ensures Reportable(w, p) ==> AllReported(w, Run(w, 4)) && !NoApps(w, Run(w, 4))
  {
    hide Runs, Differs, Reportable, Run, NoApps, AllReported;
    if Reportable(w, p) {
      ShownIsReported(w, p);
      ReportedIsSeen(w, Run(w, 4));
    } else {
      forall n: nat
        ensures NoApps(w, Run(w, n))
      {
        NothingIsEverReported(w, n, p);
      }
    }
  }
}
