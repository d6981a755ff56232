/**
 * Monitoring and the ingress controller. Both are installed under one name and looked up by another,
 * so what enabling and disabling them achieves depends on releases the operator does not own.
 */
module Platform {
  import opened Api
  import opened Convergence
  import opened Growth
  import opened Reconciliation
  import opened Rounds
  import opened Text
  import opened Utils
  import opened World

  // ---- single steps, whatever fails ------------------------------------------------------------

  /** The call at tick `t` had no effect. */
  ghost predicate Lost(w: World, t: nat) {
    w.env.turn(t).fault.LostRequest?
  }

  /** Nobody else touches Helm. */
  ghost predicate Untouched(w: World) {
    forall t: nat, h | t >= w.clock :: w.env.turn(t).others(h) == h
  }

  lemma UntouchedWakes(w: World, w1: World)
    requires w1.env == w.env && w1.clock >= w.clock
    ensures Untouched(w) ==> w.Wake().helm == w.helm && w1.Wake().helm == w1.helm
  {
  }

  /** At most one log entry: this one. */
  ghost predicate Perhaps(logged: seq<Event>, e: Event) {
    logged == [] || logged == [e]
  }

  /** One installation: the release is there afterwards unless the request was lost, be it answered or not. */
  lemma ApplyInstalls(w: World, key: Key) returns (logged: seq<Event>)
    ensures var (w1, ok) := Apply(w, key);
            && w1.env == w.env && w1.clock == w.clock + 1 && w1.log == w.log + logged
            && Perhaps(logged, Installed(key, Answered(w.env, w.clock)))
            && (!Lost(w, w.clock) ==> key in Keys(w1.helm))
            && (forall k | k in Keys(w.Wake().helm) :: k in Keys(w1.helm))
  {
    var w1 := Apply(w, key).0;
    logged := w1.log[|w.log|..];
    if w1.helm != w.Wake().helm {
      AppendKeys(w.Wake().helm, w1.helm[|w1.helm| - 1]);
    }
  }

  /** One removal: it succeeds exactly when the release was there and the call was answered. */
  lemma DeleteRemoves(w: World, key: Key) returns (logged: seq<Event>)
    ensures var (w1, ok) := Delete(w, key);
            && w1.env == w.env && w1.clock == w.clock + 1 && w1.log == w.log + logged
            && Perhaps(logged, Deleted(key, Answered(w.env, w.clock)))
            && (logged != [] <==> !Lost(w, w.clock) && key in Keys(w.Wake().helm))
            && Keys(w1.helm) == (if logged == [] then Keys(w.Wake().helm) else Keys(w.Wake().helm) - {key})
            && (ok <==> logged == [Deleted(key, true)])
  {
    var w1 := Delete(w, key).0;
    logged := w1.log[|w.log|..];
    WithoutKeys(w.Wake().helm, key);
  }

  /**
   * With monitoring enabled the step fails only when its lookup does. If the agent is not there both
   * releases are installed, the state metrics whatever became of the agent, and no error is returned.
   */
  lemma EnablingInstallsBoth(w: World, copy: Copy) returns (first: seq<Event>, second: seq<Event>)
    requires copy.spec.monitoring
    ensures var (w1, ok) := HandleMonitoring(w, copy);
            var agent := Key("hossted-platform", "hossted-grafana-alloy");
            var metrics := Key("hossted-platform", "kube-state-metrics");
            var t := w.clock;
            && (ok <==> Answered(w.env, t))
            && if !ok || agent in Keys(w.Wake().helm) then w1 == w.Wake()
               else
                 && w1.clock == t + 4 && w1.log == w.log + first + second
                 && Perhaps(first, Installed(agent, Answered(w.env, t + 2)))
                 && Perhaps(second, Installed(metrics, Answered(w.env, t + 3)))
                 && (!Lost(w, t + 3) ==> metrics in Keys(w1.helm))
                 && (!Lost(w, t + 2) && (forall h | agent in Keys(h) :: agent in Keys(w.env.turn(t + 3).others(h))) ==>
                       agent in Keys(w1.helm))
  {
    hide Apply, Keys, Perhaps;
    first, second := [], [];
    var (w1, found) := HasRelease(w, ALLOY);
    if found == Some(false) {
      var w2 := w1.Wake();
      first := ApplyInstalls(w2, ALLOY);
      var w3 := Apply(w2, ALLOY).0;
      second := ApplyInstalls(w3, STATE_METRICS);
    }
  }

  /**
   * With monitoring disabled the step looks for a release `alloy`. If that is there the state metrics, the
   * agent and a DaemonSet are removed, in this order, and the first that cannot be removed ends the step
   * with an error and leaves the rest.
   */
  lemma DisablingStopsAtTheFirst(w: World, copy: Copy) returns (first: seq<Event>, second: seq<Event>)
    requires !copy.spec.monitoring
    ensures var (w1, ok) := HandleMonitoring(w, copy);
            var agent := Key("hossted-platform", "hossted-grafana-alloy");
            var metrics := Key("hossted-platform", "kube-state-metrics");
            var t := w.clock;
            if !Answered(w.env, t) then !ok && w1 == w.Wake()
            else if Key("hossted-platform", "alloy") !in Keys(w.Wake().helm) then ok && w1 == w.Wake()
            else
              && w1.log == w.log + first + second
              && Perhaps(first, Deleted(metrics, Answered(w.env, t + 1)))
              && (if first != [Deleted(metrics, true)] then !ok && second == [] && w1.clock == t + 2
                  else
                    && Perhaps(second, Deleted(agent, Answered(w.env, t + 2)))
                    && if second != [Deleted(agent, true)] then !ok && w1.clock == t + 3
                       else (ok <==> Answered(w.env, t + 3)) && w1.clock == t + 4)
              && (Untouched(w) ==>
                    && (first != [] <==> !Lost(w, t + 1) && metrics in Keys(w.helm))
                    && (second != [] <==>
                          first == [Deleted(metrics, true)] && !Lost(w, t + 2) && agent in Keys(w.helm))
                    && forall k :: k in Keys(w1.helm) <==>
                         k in Keys(w.helm) && !(first != [] && k == metrics) && !(second != [] && k == agent))
  {
    hide Delete, Keys;
    first, second := [], [];
    var (w1, found) := HasRelease(w, ALLOY_CHART);
    if found == Some(true) {
      first := DeleteRemoves(w1, STATE_METRICS);
      var (w2, deleted) := Delete(w1, STATE_METRICS);
      UntouchedWakes(w, w1);
      UntouchedWakes(w, w2);
      if deleted {
        second := DeleteRemoves(w2, ALLOY);
        UntouchedWakes(w, Delete(w2, ALLOY).0);
      }
    }
  }

  /**
   * The ingress step looks for a release `ingress-nginx`. Enabled, it installs `hossted-ingress-nginx` when
   * that is missing and never fails after the lookup; disabled, it removes what it found or fails.
   */
  lemma IngressStep(w: World, copy: Copy) returns (logged: seq<Event>)
    ensures var (w1, ok) := HandleIngress(w, copy);
            var own := Key("hossted-platform", "hossted-ingress-nginx");
            var found := Key("hossted-platform", "ingress-nginx");
            var t := w.clock;
            if !Answered(w.env, t) then !ok && w1 == w.Wake()
            else if copy.spec.ingress <==> found in Keys(w.Wake().helm) then ok && w1 == w.Wake()
            else if copy.spec.ingress then
              && ok && w1.clock == t + 2 && w1.log == w.log + logged
              && Perhaps(logged, Installed(own, Answered(w.env, t + 1))) && (!Lost(w, t + 1) ==> own in Keys(w1.helm))
            else
              && w1.clock == t + 2 && w1.log == w.log + logged
              && Perhaps(logged, Deleted(found, Answered(w.env, t + 1))) && (ok <==> logged == [Deleted(found, true)])
              && (!Lost(w, t + 1) ==> found !in Keys(w1.helm))
  {
    hide Apply, Delete, Keys, Perhaps;
    logged := [];
    var (w1, found) := HasRelease(w, INGRESS_CHART);
    if found == Some(false) && copy.spec.ingress {
      logged := ApplyInstalls(w1, INGRESS);
    } else if found == Some(true) && !copy.spec.ingress {
      logged := DeleteRemoves(w1, INGRESS_CHART);
    }
  }

  // ---- monitoring ------------------------------------------------------------------------------

  /** A bound on the reconciles of an existing cluster before one handles monitoring. */
  function Ahead(w: World, p: Period): nat {
    if Due(w, p) then 2 else One(Differs(w, p))
  }

  predicate JammedAt(w: World, p: Period) {
    Jammed(w.current.spec, w.current.status, Keys(w.helm), p)
  }

  /** A round either comes closer to handling monitoring or leaves what handling it leaves. */
  lemma RoundMonitors(w: World, end: World, p: Period)
    requires RoundEffect(w, end, p) && !JammedAt(w, p)
    ensures || Keys(end.helm) == MonitoredKeys(w.current.spec, Keys(w.helm))
            || (Keys(end.helm) == Keys(w.helm) && !JammedAt(end, p) && Ahead(end, p) < Ahead(w, p))
  {
    hide MonitoredKeys, MarketVisible, HelmGrows, UpgradedKeys;
  }

  /**
   * In three reconciles monitoring is handled, once and for all: the releases are then the monitored
   * ones, for good. Only a jammed DNS step can keep the operator from getting there.
   */
  lemma {:induction false} MonitoringSettles(w: World, n: nat, p: Period)
    requires CalmAt(w, p) && !w.current.spec.stop && w.current.status.clusterUUID != "" && !JammedAt(w, p)
    ensures var end := Run(w, n);
            && CalmAt(end, p) && end.current.spec == w.current.spec && end.current.status.clusterUUID != ""
            && (|| Keys(end.helm) == MonitoredKeys(w.current.spec, Keys(w.helm))
                || (Keys(end.helm) == Keys(w.helm) && !JammedAt(end, p) && Ahead(end, p) + n <= 2))
    ensures n >= 3 ==> Keys(Run(w, n).helm) == MonitoredKeys(w.current.spec, Keys(w.helm))
  {
    hide CalmAt, Reconcile, JammedAt, Ahead, MonitoredKeys;
    if n > 0 {
      MonitoringSettles(w, n - 1, p);
      var last := Run(w, n - 1);
      CalmReconcile(last, p);
      ProgressContinues(last, Reconcile(last).0, Reconcile(last).1, p);
      CalmReconcileKeys(last, p);
      MonitoredAreStill(w.current.spec, Keys(w.helm));
      if !JammedAt(last, p) {
        CalmReconcileHasEffect(last, p);
        RoundMonitors(last, Run(w, n), p);
      }
    } else {
      AheadIsShort(w, p);
    }
  }

  /**
   * The first reconcile of a new cluster does not stop at its deployment: unless a DNS step is due it goes
   * on to what it does for an existing cluster, finds what it has just recorded and handles monitoring.
   */
  lemma FirstReconcileMonitors(w: World, p: Period)
    requires CalmAt(w, p) && !w.current.spec.stop && w.current.status.clusterUUID == ""
    requires !DueIn(w.current.spec, w.current.status, ComingKeys(w), p)
    ensures Keys(Reconcile(w).0.helm) == MonitoredKeys(w.current.spec, ComingKeys(w))
    ensures !Foreign(w.current.spec, ComingKeys(w)) ==> Reconcile(w).1
  {
    hide Calm, FirstDeployment, HandleReconciliation, Round, RoundCompletes, MonitoredKeys, MarketVisible, Differs;
    hide HandleExistingCluster, Collect, Foreign;
    CalmGet(w, p);
    var (w1, copy) := Get(w);
    ReconciliationIsRound(w1, copy.value);
    FirstDeploymentRecords(w1, copy.value, p);
    var (w2, copy2, _) := FirstDeployment(w1, copy.value);
    RoundHasEffect(w2, copy2, p);
    if !Foreign(w.current.spec, ComingKeys(w)) {
      QuietRoundCompletes(w2, copy2, p);
    }
  }

  lemma QuietRoundCompletes(w: World, copy: Copy, p: Period)
    requires CalmAt(w, p) && Fresh(w, copy) && !Due(w, p) && !Differs(w, p) && !Foreign(w.current.spec, Keys(w.helm))
    ensures RoundCompletes(w, copy)
  {
    hide Calm, Collect, HandleExistingCluster, Due, Seen, Visible, Allowed, ReleaseRevisions, Foreign;
    CalmCollect(w, copy, p);
    var (w1, copy1, infos) := Collect(w, copy);
    CalmExisting(w1, copy1, infos.value, p);
  }

  lemma AheadIsShort(w: World, p: Period)
    ensures Ahead(w, p) <= 2
  {
  }

  /**
   * What disabling removes, exactly: the agent is gone after three reconciles, and for good, if and
   * only if it was not there, or a release `alloy` and the state metrics were.
   */
  lemma DisablingRemovesExactly(w: World, n: nat, p: Period)
    requires CalmAt(w, p) && !w.current.spec.stop && w.current.status.clusterUUID != "" && !JammedAt(w, p)
    requires !w.current.spec.monitoring && n >= 3
    ensures ALLOY !in Keys(Run(w, n).helm)
       <==> ALLOY !in Keys(w.helm) || (ALLOY_CHART in Keys(w.helm) && STATE_METRICS in Keys(w.helm))
    ensures ALLOY_CHART in Keys(Run(w, n).helm) <==> ALLOY_CHART in Keys(w.helm)
  {
    hide CalmAt, Run, JammedAt;
    MonitoringSettles(w, n, p);
  }

  /** A user changes the spec between two reconciles. */
  function Edited(w: World, spec: Spec): World {
    w.(past := w.History(), current := Version(spec, w.current.status, User, |w.log|, w.current.named))
  }

  /**
   * Enabling and then disabling: what the operator installed it removes again if and only if somebody
   * else has installed a release `alloy`, and only if the state metrics were not taken away before.
   */
  lemma EnableThenDisable(w: World, n: nat, m: nat, p: Period)
    requires CalmAt(w, p) && !w.current.spec.stop && w.current.status.clusterUUID != "" && !Stuck(w, p)
    requires w.current.spec.monitoring && n >= 4 && m >= 3
    ensures ALLOY in Keys(Run(w, n).helm)
    ensures var keys := Keys(w.helm);
            var end := Run(Edited(Run(w, n), w.current.spec.(monitoring := false)), m);
            ALLOY !in Keys(end.helm) <==> ALLOY_CHART in keys && (STATE_METRICS in keys || ALLOY !in keys)
  {
    hide CalmAt, Run, Differs, Reconcile, MarketVisible;
    MonitoringSettles(w, n, p);
    Converges(w, n, p);
    var start := Run(w, n);
    var spec := w.current.spec.(monitoring := false);
    var edited := Edited(start, spec);
    CalmEdited(start, spec, p);
    assert AllowedOf(spec, p.namespaces) == AllowedOf(w.current.spec, p.namespaces);
    DisablingRemovesExactly(edited, m, p);
  }

  lemma CalmEdited(w: World, spec: Spec, p: Period)
    requires CalmAt(w, p)
    ensures CalmAt(Edited(w, spec), p)
  {
  }

  // ---- ingress ---------------------------------------------------------------------------------

  /**
   * The ingress is decided once, in the first deployment. A new cluster with the ingress disabled loses
   * any release `ingress-nginx`, whoever installed it; with the ingress enabled the operator's own
   * release is there afterwards if and only if it was, or there was no release `ingress-nginx`. For an
   * existing cluster neither release is ever touched, whatever the spec says.
   */
  lemma {:induction false} IngressIsDecidedOnce(w: World, n: nat, p: Period)
    requires CalmAt(w, p) && !w.current.spec.stop && n > 0
    ensures var before, after := Keys(w.helm), Keys(Run(w, n).helm);
            if w.current.status.clusterUUID != "" then
              (INGRESS in after <==> INGRESS in before) && (INGRESS_CHART in after <==> INGRESS_CHART in before)
            else if w.current.spec.ingress then
              && (INGRESS in after <==> INGRESS in before || INGRESS_CHART !in before)
              && (INGRESS_CHART in after <==> INGRESS_CHART in before)
            else
              (INGRESS in after <==> INGRESS in before) && INGRESS_CHART !in after
  {
    hide CalmAt, Reconcile, Stuck;
    if n > 1 {
      IngressIsDecidedOnce(w, n - 1, p);
    } else {
      assert Run(w, 0) == w && Run(w, 1) == Reconcile(w).0;
    }
    WorkRunsOut(w, n - 1, p);
    CalmReconcileKeys(Run(w, n - 1), p);
  }
}
