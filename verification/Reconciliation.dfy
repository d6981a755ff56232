/**
 * What one reconcile does to the world, as functions: `controllers/hosstedproject_controller.go` and
 * the collector of `controllers/collector.go`. Every early return on an error is kept. The methods of
 * module Controller are proved equal to these functions.
 */
module Reconciliation {
  import opened Api
  import opened IngressValues
  import opened Sorting
  import opened Text
  import opened Utils
  import opened World

  const PLATFORM := "hossted-platform"
  const ALLOY := Key(PLATFORM, "hossted-grafana-alloy")
  const ALLOY_CHART := Key(PLATFORM, "alloy")
  const STATE_METRICS := Key(PLATFORM, "kube-state-metrics")
  const INGRESS := Key(PLATFORM, "hossted-ingress-nginx")
  const INGRESS_CHART := Key(PLATFORM, "ingress-nginx")
  const MAX_RETRIES: nat := 5

  // ---- getDns ----------------------------------------------------------------------------------

  /** The retry loop: the address, or nothing after an error or `MAX_RETRIES` empty answers. */
  function AwaitAddress(w: World, ingressName: string, retryCount: nat): (r: (World, Option<IngressRead>))
    ensures r.1.Some? ==> r.1.value.Address?
    decreases MAX_RETRIES - retryCount
  {
    if retryCount >= MAX_RETRIES then (w, None)
    else
      var (w1, ing) := ReadIngress(w, ingressName);
      match ing
      case Failed => (w1, None)
      case NoAddress => AwaitAddress(w1, ingressName, retryCount + 1)
      case Address(_, _) => (w1, Some(ing))
  }

  function DnsContent(ing: IngressRead): string
    requires ing.Address?
  {
    if ing.ip != "" then ing.ip else ing.hostname
  }

  function DnsKind(ing: IngressRead): string
    requires ing.Address?
  {
    if ing.ip != "" then "A" else if ing.hostname != "" then "CNAME" else ""
  }

  function HostName(appUUID: string): string {
    ToLower(appUUID + ".f.hossted.app")
  }

  function Tweaked(h: HelmInstall, host: string): HelmInstall {
    h.(values := Tweak(h.values, host))
  }

  function UpgradeAll(w: World, copy: Copy, installs: seq<HelmInstall>, host: string): (World, Copy, bool)
    decreases |installs|
  {
    if installs == [] then (w, copy, true)
    else
      var (w1, upgraded) := Upgrade(w, Tweaked(installs[0], host));
      if !upgraded then (w1, copy, false)
      else
        var marked := copy.(status := copy.status.(dnsUpdated := true));
        var (w2, copy2, updated) := UpdateStatus(w1, marked, DnsDone);
        if !updated then (w2, copy2, false)
        else UpgradeAll(w2, copy2, installs[1..], host)
  }

  /** A custom ingress name wins over the application's namespace. */
  function IngressName(custom: string, market: string): string {
    if custom != "" then custom else market
  }

  function DnsRecord(copy: Copy, ing: IngressRead, appUUID: string): Event
    requires ing.Address?
  {
    Dns(copy.status.clusterUUID, HostName(appUUID), DnsContent(ing), DnsKind(ing), copy.version, false)
  }

  /** Posting the record and upgrading the declared releases to the new name. */
  function Announce(w: World, copy: Copy, ing: IngressRead, appUUID: string): (World, Copy, bool)
    requires ing.Address?
  {
    var (w1, posted) := Post(w, DnsRecord(copy, ing, appUUID));
    if !posted then (w1, copy, false)
    else UpgradeAll(w1, copy, copy.spec.helm, HostName(appUUID))
  }

  function GetDns(w: World, copy: Copy, releaseNamespace: string, appUUID: string): (World, Copy, bool) {
    var (w1, market) := ReadMarket(w);
    if market.None? then (w1, copy, false)
    else if releaseNamespace != market.value then (w1, copy, true)
    else
      var (w2, custom) := ReadCustomName(w1);
      if custom.None? then (w2, copy, false)
      else
        var (w3, ing) := AwaitAddress(w2, IngressName(custom.value, market.value), 0);
        if ing.None? then (w3, copy, false) else Announce(w3, copy, ing.value, appUUID)
  }

  // ---- collector -------------------------------------------------------------------------------

  function Info(r: Release, appUUID: string): HelmInfo {
    HelmInfo(r.name, r.namespace, appUUID, r.revision, r.about, false)
  }

  function GetHelmInfo(w: World, copy: Copy, r: Release): (World, HelmInfo) {
    var existing := FindExistingUUID(copy.status.helmStatus, r.name, r.namespace);
    if existing != "" then (w, Info(r, existing))
    else var (w1, id) := Mint(w); (w1, Info(r, "A-" + id))
  }

  /** The uuid part a secret read imposes; an unreadable secret imposes the empty one. */
  function Imposed(s: SecretRead): Option<string> {
    match s
    case NotFound => None
    case Unreadable => Some("")
    case Secret(uuid) => Some(uuid)
  }

  function ApplySecret(w: World, r: Release, info: HelmInfo): (World, HelmInfo) {
    if !r.hosted then (w, info)
    else
      var (w1, secret) := ReadSecret(w, r.namespace);
      match Imposed(secret)
      case None => (w1, info)
      case Some(uuid) => (w1, info.(appUUID := "A-" + uuid, hosstedHelm := true))
  }

  function CollectRelease(w: World, copy: Copy, r: Release): (World, Copy, Option<HelmInfo>) {
    var (w1, found) := GetHelmInfo(w, copy, r);
    var (w2, info) := ApplySecret(w1, r, found);
    var (w3, copy3, dns) :=
      if copy.status.dnsUpdated then (w2, copy, true) else GetDns(w2, copy, r.namespace, info.appUUID);
    if !dns then (w3, copy3, None)
    else
      var (w4, described) := ReadDetails(w3);
      (w4, copy3, if described then Some(info) else None)
  }

  function CollectReleases(w: World, copy: Copy, releases: seq<Release>, infos: seq<HelmInfo>)
    : (World, Copy, Option<seq<HelmInfo>>)
    decreases |releases|
  {
    if releases == [] then (w, copy, Some(infos))
    else
      var (w1, copy1, info) := CollectRelease(w, copy, releases[0]);
      if info.None? then (w1, copy1, None)
      else CollectReleases(w1, copy1, releases[1..], infos + [info.value])
  }

  function CollectNamespaces(w: World, copy: Copy, namespaces: seq<string>, infos: seq<HelmInfo>)
    : (World, Copy, Option<seq<HelmInfo>>)
    decreases |namespaces|
  {
    if namespaces == [] then (w, copy, Some(infos))
    else
      var (w1, releases) := ListReleases(w, namespaces[0]);
      if releases.None? then (w1, copy, None)
      else
        var (w2, copy2, more) := CollectReleases(w1, copy, releases.value, infos);
        if more.None? then (w2, copy2, None)
        else CollectNamespaces(w2, copy2, namespaces[1..], more.value)
  }

  /** The collector: the entries of all allowed namespaces, in listing order. */
  function Collect(w: World, copy: Copy): (World, Copy, Option<seq<HelmInfo>>) {
    var (w1, namespaces) := ListNamespaces(w);
    if namespaces.None? then (w1, copy, None)
    else CollectNamespaces(w1, copy, Allowed(namespaces.value, copy.spec.denyNamespaces), [])
  }

  // ---- registration ----------------------------------------------------------------------------

  function RegisterApps(w: World, copy: Copy, infos: seq<HelmInfo>): (World, bool)
    decreases |infos|
  {
    if infos == [] then (w, true)
    else
      var (w1, posted) := Post(w, App(copy.status.clusterUUID, infos[0], copy.version, false));
      if !posted then (w1, false) else RegisterApps(w1, copy, infos[1..])
  }

  /** Errors of these three calls are only printed. The first one creates a ConfigMap. */
  function InstallMonitoring(w: World): World {
    var (w1, _) := ReadDetails(w);
    var (w2, _) := Apply(w1, ALLOY);
    Apply(w2, STATE_METRICS).0
  }

  /** The last call deletes a DaemonSet. */
  function RemoveMonitoring(w: World): (World, bool) {
    var (w1, deleted1) := Delete(w, STATE_METRICS);
    if !deleted1 then (w1, false)
    else
      var (w2, deleted2) := Delete(w1, ALLOY);
      if !deleted2 then (w2, false) else ReadDetails(w2)
  }

  function HandleMonitoring(w: World, copy: Copy): (World, bool) {
    var (w1, found) := HasRelease(w, if copy.spec.monitoring then ALLOY else ALLOY_CHART);
    if found.None? then (w1, false)
    else if copy.spec.monitoring then (if found.value then w1 else InstallMonitoring(w1), true)
    else if found.value then RemoveMonitoring(w1)
    else (w1, true)
  }

  function HandleIngress(w: World, copy: Copy): (World, bool) {
    var (w1, found) := HasRelease(w, INGRESS_CHART);
    if found.None? then (w1, false)
    else if copy.spec.ingress then
      if found.value then (w1, true) else var (w2, _) := Apply(w1, INGRESS); (w2, true)
    else
      if found.value then Delete(w1, INGRESS_CHART) else (w1, true)
  }

  /** `compareSlices` leaves the in-memory revisions sorted when the lengths agree. */
  function Compared(copy: Copy, revisions: seq<int>): Copy {
    if |copy.status.revision| == |revisions|
    then copy.(status := copy.status.(revision := Sort(copy.status.revision)))
    else copy
  }

  function Recorded(copy: Copy, infos: seq<HelmInfo>): Copy {
    copy.(status := copy.status.(helmStatus := infos, revision := Sort(Revisions(infos))))
  }

  function HandleExistingCluster(w: World, copy: Copy, infos: seq<HelmInfo>): (World, Copy, bool) {
    var compared := Compared(copy, Revisions(infos));
    if multiset(copy.status.revision) != multiset(Revisions(infos)) then
      var (w1, registered) := RegisterApps(w, compared, infos);
      if !registered then (w1, compared, false)
      else UpdateStatus(w1, Recorded(compared, infos), Existing)
    else
      var (w1, ok) := HandleMonitoring(w, compared);
      (w1, compared, ok)
  }

  function HandleNewCluster(w: World, copy: Copy): (World, Copy, bool) {
    var (w1, registered) := Post(w, Register(copy.status.clusterUUID, copy.version, false));
    if !registered then (w1, copy, false)
    else
      var (w2, copy2, infos) := Collect(w1, copy);
      if infos.None? then (w2, copy2, false)
      else
        var (w3, copy3, updated) := UpdateStatus(w2, Recorded(copy2, infos.value), First);
        if !updated then (w3, copy3, false)
        else
          var (w4, posted) := RegisterApps(w3, copy3, infos.value);
          (w4, copy3, posted)
  }

  /** The branch taken while the resource has no cluster UUID. */
  function FirstDeployment(w: World, copy: Copy): (World, Copy, bool) {
    var (w1, id) := Mint(w);
    var named := copy.(status := copy.status.(clusterUUID := "K-" + id));
    var (w2, copy2, updated) := UpdateStatus(w1, named, Claim);
    if !updated then (w2, copy2, false)
    else
      var (w3, ok) := HandleIngress(w2, copy2);
      if !ok then (w3, copy2, false) else HandleNewCluster(w3, copy2)
  }

  function HandleReconciliation(w: World, copy: Copy): (World, Copy, bool) {
    var (w1, copy1, ok) :=
      if copy.status.clusterUUID == "" then FirstDeployment(w, copy) else (w, copy, true);
    if !ok then (w1, copy1, false)
    else
      var (w2, copy2, infos) := Collect(w1, copy1);
      if infos.None? then (w2, copy2, false)
      else HandleExistingCluster(w2, copy2, infos.value)
  }

  /** The Stop branch: install what is declared and missing. */
  function InstallAll(w: World, installs: seq<HelmInstall>): (World, bool)
    decreases |installs|
  {
    if installs == [] then (w, true)
    else
      var (w1, found) := HasRelease(w, InstallKey(installs[0]));
      if found.None? then (w1, false)
      else
        var (w2, ok) := if found.value then (w1, true) else Apply(w1, InstallKey(installs[0]));
        if !ok then (w2, false) else InstallAll(w2, installs[1..])
  }

  function Reconcile(w: World): (World, bool) {
    var (w1, copy) := Get(w);
    if copy.None? then (w1, false)
    else if copy.value.spec.stop then InstallAll(w1, copy.value.spec.helm)
    else var (w2, _, ok) := HandleReconciliation(w1, copy.value); (w2, ok)
  }

  /** A run: reconciles one after another, whatever each returns. */
  function Run(w: World, reconciles: nat): World {
    if reconciles == 0 then w else Reconcile(Run(w, reconciles - 1)).0
  }

  /** A freshly created resource in an arbitrary environment. */
  ghost predicate Created(w: World) {
    && w.past == [] && w.log == []
    && w.current.status == EMPTY_STATUS && w.current.named <= w.minted
    && DistinctReleases(w.helm)
  }
}
