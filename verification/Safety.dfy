/**
 * The invariant of every run, under arbitrary faults, stale reads and interference: each persisted
 * version follows from the one before it by one of the operator's writes or a user's edit, and each
 * request carries what the version it is based on says. The theorems of module Guarantees follow.
 */
module Safety {
  import opened Api
  import opened Naming
  import opened Reconciliation
  import opened Sorting
  import opened Text
  import opened World

  /**
   * What is followed through a run: releases that stay installed in allowed namespaces, and namespaces
   * that stay denied. The watch begins at tick `tick`, when the resource is at version `since` and the
   * log is `from` entries long; from then on no version older than `floor` is read. With `fixed` every
   * version has that spec.
   */
  datatype Watch = Watch(
    keys: set<Key>, denied: set<string>, tick: nat, since: nat, from: nat, floor: nat, fixed: Option<Spec>)

  const ANY := Watch({}, {}, 0, 0, 0, 0, None)

  /** What Kubernetes and Helm guarantee: unique namespace names and unique release names. */
  ghost predicate Lawful(env: Environment) {
    && (forall t: nat, h :: DistinctReleases(h) ==> DistinctReleases(env.turn(t).others(h)))
    && (forall t: nat, i, j | 0 <= i < j < |env.turn(t).namespaces| ::
          env.turn(t).namespaces[i] != env.turn(t).namespaces[j])
  }

  /** With this spec the operator deletes none of `keys` from an existing cluster. */
  predicate Spares(keys: set<Key>, spec: Spec) {
    spec.monitoring || keys !! {STATE_METRICS, ALLOY}
  }

  ghost predicate Allows(watch: Watch, spec: Spec) {
    forall k | k in watch.keys :: k.namespace !in spec.denyNamespaces
  }

  /** What a version that may still be read says of the watched names. */
  ghost predicate SpecKeeps(watch: Watch, version: nat, spec: Spec) {
    && (version >= watch.floor ==>
          Spares(watch.keys, spec) && forall namespace | namespace in watch.denied :: namespace in spec.denyNamespaces)
    && (version >= watch.since ==> Allows(watch, spec))
    && (watch.fixed.Some? ==> spec == watch.fixed.value)
  }

  /** While the watch is on, nobody else removes a watched release, hides its namespace or denies it. */
  ghost predicate Keeps(env: Environment, watch: Watch) {
    && (forall t: nat, h, k | t >= watch.tick && k in watch.keys && k in Keys(h) :: k in Keys(env.turn(t).others(h)))
    && (forall t: nat, k | t >= watch.tick && k in watch.keys :: k.namespace in env.turn(t).namespaces)
    && (forall t: nat | t >= watch.tick && env.turn(t).edit.Some? ::
          SpecKeeps(watch, watch.since, env.turn(t).edit.value))
    && watch.floor <= watch.since
    && (watch.floor > 0 ==> forall t: nat | t >= watch.tick :: env.turn(t).lag <= watch.since - watch.floor)
  }

  /**
   * Where an app UUID may come from: of a flagged entry from the namespace's secret, as read from `tick`
   * on, and of any other from the record or else from the uuid source.
   */
  ghost predicate Faithful(env: Environment, tick: nat, prior: seq<HelmInfo>, info: HelmInfo) {
    var known := FindExistingUUID(prior, info.name, info.namespace);
    if info.hosstedHelm then
      exists t: nat | t >= tick ::
        var imposed := Imposed(env.turn(t).secrets(info.namespace));
        imposed.Some? && info.appUUID == "A-" + imposed.value
    else if known != "" then info.appUUID == known
    else exists m: nat :: info.appUUID == "A-" + env.uuid(m)
  }

  /** The tick from which the secret behind a record on the basis of version `basis` was read. */
  function TickOf(watch: Watch, basis: nat): nat {
    if basis >= watch.since then watch.tick else 0
  }

  ghost predicate Recordable(
    env: Environment, watch: Watch, tick: nat, basis: nat, a: Version, named: nat, infos: seq<HelmInfo>)
  {
    && DistinctInfos(infos) && Apart(env, a.status.helmStatus, a.named, named, infos)
    && (basis >= watch.since ==> watch.keys <= InfoKeys(infos))
    && forall info | info in infos ::
         Faithful(env, tick, a.status.helmStatus, info) && info.namespace !in a.spec.denyNamespaces
  }

  /** The log entries just in front of `at` post exactly `infos`, in order and without an error. */
  ghost predicate PostedJustBefore(log: seq<Event>, at: nat, cluster: string, infos: seq<HelmInfo>, basis: nat) {
    && |infos| <= at <= |log|
    && forall i | 0 <= i < |infos| :: log[at - |infos| + i] == App(cluster, infos[i], basis, true)
  }

  /** Before `at` a DNS record was accepted and the first declared release was upgraded to its name. */
  ghost predicate DnsEvidence(log: seq<Event>, at: nat, cluster: string, spec: Spec) {
    && spec.helm != []
    && exists p: nat, q: nat | p < q < at <= |log| ::
         && log[p].Dns? && log[p].ack && log[p].cluster == cluster
         && log[q] == Upgraded(Tweaked(spec.helm[0], log[p].name), true)
  }

  /** Version `b` may follow version `a`, which has index `basis`. */
  ghost predicate LegalWrite(env: Environment, watch: Watch, log: seq<Event>, basis: nat, a: Version, b: Version) {
    match b.writer
    case User => b.status == a.status && b.named == a.named
    case Claim =>
      && b.spec == a.spec && b.named == a.named && a.status.clusterUUID == "" != b.status.clusterUUID
      && b.status == a.status.(clusterUUID := b.status.clusterUUID)
      && exists m: nat :: b.status.clusterUUID == "K-" + env.uuid(m)
    case DnsDone =>
      && b.spec == a.spec && b.named == a.named && a.status.clusterUUID != ""
      && b.status == a.status.(dnsUpdated := true)
      && DnsEvidence(log, b.at, b.status.clusterUUID, b.spec)
    case _ =>
      && b.spec == a.spec && a.status.clusterUUID != ""
      && b.status == a.status.(helmStatus := b.status.helmStatus, revision := Sort(Revisions(b.status.helmStatus)))
      && Recordable(env, watch, TickOf(watch, basis), basis, a, b.named, b.status.helmStatus)
      && (b.writer.First? ==> a.status.helmStatus == [])
      && (b.writer.Existing? ==> PostedJustBefore(log, b.at, b.status.clusterUUID, b.status.helmStatus, basis))
  }

  ghost predicate LegalEvent(env: Environment, tick: nat, history: seq<Version>, e: Event) {
    match e
    case Register(cluster, b, _) => b < |history| && history[b].status.clusterUUID == cluster != ""
    case App(cluster, info, b, _) =>
      && b < |history| && history[b].status.clusterUUID == cluster != ""
      && Faithful(env, tick, history[b].status.helmStatus, info)
      && info.namespace !in history[b].spec.denyNamespaces
    case Dns(cluster, _, _, _, b, _) =>
      b < |history| && history[b].status.clusterUUID == cluster != "" && !history[b].status.dnsUpdated
    case _ => true
  }

  ghost predicate FromFloor(watch: Watch, log: seq<Event>) {
    forall j | watch.from <= j < |log| ::
      (log[j].Register? || log[j].App? || log[j].Dns?) ==> log[j].basis >= watch.floor
  }

  /** Nothing was sent to the Hossted API. */
  ghost predicate Silent(log: seq<Event>) {
    forall j | 0 <= j < |log| :: !log[j].Register? && !log[j].App? && !log[j].Dns?
  }

  /** There is at most one registration, and it comes before every other request. */
  ghost predicate RegisteredFirst(log: seq<Event>) {
    forall i, j | 0 <= i < |log| && 0 <= j < |log| && i != j && log[i].Register? ::
      !log[j].Register? && (log[j].App? || log[j].Dns? ==> i < j)
  }

  ghost predicate LegalHistory(env: Environment, watch: Watch, log: seq<Event>, history: seq<Version>) {
    && |history| > 0
    && history[0].status == EMPTY_STATUS
    && (forall i | 0 <= i < |history| :: SpecKeeps(watch, i, history[i].spec))
    && forall i | 0 <= i < |history| - 1 :: LegalWrite(env, watch, log, i, history[i], history[i + 1])
  }

  ghost predicate LegalLog(env: Environment, watch: Watch, history: seq<Version>, log: seq<Event>) {
    forall j | 0 <= j < |log| :: LegalEvent(env, if j >= watch.from then watch.tick else 0, history, log[j])
  }

  ghost predicate Safe(w: World, watch: Watch) {
    && Lawful(w.env) && Keeps(w.env, watch)
    && (forall i | 0 <= i < |w.History()| :: w.History()[i].named <= w.minted)
    && watch.tick <= w.clock && watch.since <= |w.past| && watch.from <= |w.log|
    && DistinctReleases(w.helm) && watch.keys <= Keys(w.helm)
    && LegalHistory(w.env, watch, w.log, w.History())
    && LegalLog(w.env, watch, w.History(), w.log)
    && FromFloor(watch, w.log)
    && RegisteredFirst(w.log)
    && (w.current.status.clusterUUID == "" ==> Silent(w.log) && INGRESS_CHART !in watch.keys)
  }

  /** The operator's copy is what some persisted version says. */
  ghost predicate Stands(w: World, copy: Copy, watch: Watch) {
    && watch.floor <= copy.version <= |w.past|
    && copy.spec == w.History()[copy.version].spec
    && copy.status == w.History()[copy.version].status
  }

  /** Only the DNS mark may have changed. */
  ghost predicate SameRecord(a: Copy, b: Copy) {
    && a.spec == b.spec
    && (b.status == a.status || b.status == a.status.(dnsUpdated := true))
  }

  /** The same record, by name too, in the versions that two copies are at. */
  ghost predicate SameBase(a: World, copy: Copy, b: World, copy1: Copy) {
    && SameRecord(copy, copy1)
    && copy.version < |a.History()| && copy1.version < |b.History()|
    && b.History()[copy1.version].named == a.History()[copy.version].named
  }

  // ---- growth ----------------------------------------------------------------------------------

  lemma LegalWriteGrows(
    env: Environment, watch: Watch, log: seq<Event>, more: seq<Event>, basis: nat, a: Version, b: Version)
    requires LegalWrite(env, watch, log, basis, a, b)
    ensures LegalWrite(env, watch, log + more, basis, a, b)
  {
    if b.writer.DnsDone? {
      var p: nat, q: nat :| p < q < b.at <= |log| &&
        log[p].Dns? && log[p].ack && log[p].cluster == b.status.clusterUUID &&
        log[q] == Upgraded(Tweaked(b.spec.helm[0], log[p].name), true);
      assert (log + more)[p] == log[p] && (log + more)[q] == log[q];
    }
  }

  lemma SafeAppend(w: World, e: Event, watch: Watch)
    requires Safe(w, watch) && LegalEvent(w.env, watch.tick, w.History(), e)
    requires e.Register? || e.App? || e.Dns? ==> e.basis >= watch.floor
    requires e.Register? ==> Silent(w.log)
    requires e.Register? || e.App? || e.Dns? ==> w.current.status.clusterUUID != ""
    ensures Safe(w.(log := w.log + [e]), watch)
  {
    var w' := w.(log := w.log + [e]);
    forall i | 0 <= i < |w.History()| - 1
      ensures LegalWrite(w.env, watch, w'.log, i, w.History()[i], w.History()[i + 1])
    {
      LegalWriteGrows(w.env, watch, w.log, [e], i, w.History()[i], w.History()[i + 1]);
    }
  }

  lemma LegalLogGrows(env: Environment, watch: Watch, history: seq<Version>, v: Version, log: seq<Event>)
    requires LegalLog(env, watch, history, log)
    ensures LegalLog(env, watch, history + [v], log)
  {
    hide Faithful;
    forall j | 0 <= j < |log|
      ensures LegalEvent(env, if j >= watch.from then watch.tick else 0, history + [v], log[j])
    {
      assert LegalEvent(env, if j >= watch.from then watch.tick else 0, history, log[j]);
    }
  }

  lemma SafeVersion(w: World, v: Version, watch: Watch)
    requires Safe(w, watch) && LegalWrite(w.env, watch, w.log, |w.past|, w.current, v)
    requires SpecKeeps(watch, |w.past| + 1, v.spec) && v.named <= w.minted
    requires v.status.clusterUUID == "" ==> Silent(w.log) && INGRESS_CHART !in watch.keys
    ensures Safe(w.(past := w.History(), current := v), watch)
  {
    hide LegalLog, LegalWrite, SpecKeeps, Keeps, Lawful, FromFloor, RegisteredFirst, Silent;
    var w' := w.(past := w.History(), current := v);
    assert w'.History() == w.History() + [v];
    LegalLogGrows(w.env, watch, w.History(), v, w.log);
  }

  /** `b` is `a` some calls later. */
  ghost predicate Later(a: World, b: World) {
    b.env == a.env && a.clock <= b.clock && a.minted <= b.minted && a.History() <= b.History() && a.log <= b.log
  }

  lemma StandsLater(a: World, b: World, copy: Copy, watch: Watch)
    requires Later(a, b) && Stands(a, copy, watch)
    ensures Stands(b, copy, watch) && SameBase(a, copy, b, copy)
  {
    assert a.History()[copy.version] == b.History()[copy.version];
  }

  // ---- calls -----------------------------------------------------------------------------------

  lemma SafeWake(w: World, watch: Watch)
    requires Safe(w, watch)
    ensures Safe(w.Wake(), watch) && Later(w, w.Wake()) && w.Wake().log == w.log
    ensures w.Wake().current.status == w.current.status
    ensures |w.Wake().past| == |w.past| ==> w.Wake().current == w.current
  {
    var t := w.Turn();
    var w1 := w.(clock := w.clock + 1, helm := t.others(w.helm));
    assert w1.History() == w.History();
    assert Safe(w1, watch);
    match t.edit
    case None =>
    case Some(spec) =>
      var v := Version(spec, w.current.status, User, |w.log|, w.current.named);
      assert w1.History()[|w1.past|] == w1.current;
      SafeVersion(w1, v, watch);
      assert w.Wake().History() == w.History() + [v];
  }

  lemma SafeMint(w: World, watch: Watch)
    requires Safe(w, watch)
    ensures Safe(Mint(w).0, watch) && Later(w, Mint(w).0)
    ensures Mint(w).0.past == w.past && Mint(w).0.current == w.current && Mint(w).0.log == w.log
  {
    assert Mint(w).0.History() == w.History();
  }

  lemma SafeGet(w: World, watch: Watch)
    requires Safe(w, watch)
    ensures Safe(Get(w).0, watch) && Later(w, Get(w).0) && Get(w).0.log == w.log
    ensures Get(w).1.Some? ==> Stands(Get(w).0, Get(w).1.value, watch)
  {
    SafeWake(w, watch);
  }

  /** A cluster UUID is never taken back. */
  lemma {:induction false} ClaimStays(w: World, watch: Watch, i: nat, j: nat)
    requires Safe(w, watch) && i <= j < |w.History()| && w.History()[i].status.clusterUUID != ""
    ensures w.History()[j].status.clusterUUID != ""
    decreases j
  {
    hide Recordable, DnsEvidence, PostedJustBefore;
    if i < j {
      ClaimStays(w, watch, i, j - 1);
      assert LegalWrite(w.env, watch, w.log, j - 1, w.History()[j - 1], w.History()[j]);
    }
  }

  lemma SafePost(w: World, e: Event, watch: Watch)
    requires Safe(w, watch) && (e.Register? || e.App? || e.Dns?)
    requires LegalEvent(w.env, watch.tick, w.History(), e) && e.basis >= watch.floor
    requires e.Register? ==> Silent(w.log) && w.current.status.clusterUUID != ""
    ensures var (w1, ok) := Post(w, e);
            Safe(w1, watch) && Later(w, w1)
            && (ok ==> w1.log == w.log + [Acked(e, true)])
            && w1.current.status == w.current.status
  {
    hide LegalHistory, LegalLog, FromFloor, RegisteredFirst, Keeps, Lawful;
    SafeWake(w, watch);
    ClaimStays(w, watch, e.basis, |w.past|);
    assert w.History()[|w.past|] == w.current;
    var t, w1 := w.Turn(), w.Wake();
    var sent := Acked(e, t.fault.Delivered?);
    assert LegalEvent(w.env, watch.tick, w1.History(), sent);
    SafeAppend(w1, sent, watch);
    assert w1.(log := w1.log + [sent]).History() == w1.History();
  }

  lemma SafeUpdate(w: World, copy: Copy, writer: Writer, watch: Watch)
    requires Safe(w, watch) && watch.floor <= copy.version <= |w.past|
    requires copy.spec == w.History()[copy.version].spec && copy.status.clusterUUID != ""
    requires LegalWrite(w.env, watch, w.log, copy.version, w.History()[copy.version],
                        Version(copy.spec, copy.status, writer, |w.log|,
                                NamedBy(writer, w.History()[copy.version], w.minted)))
    ensures var (w1, copy1, ok) := UpdateStatus(w, copy, writer);
            Safe(w1, watch) && Later(w, w1) && w1.log == w.log
            && (ok ==> Stands(w1, copy1, watch) && copy1.spec == copy.spec && copy1.status == copy.status
                       && w1.current.status == copy.status && copy1.version == |w1.past|
                       && copy.version == |w.past|
                       && w1.History()[copy1.version].named == NamedBy(writer, w.History()[copy.version], w.minted))
  {
    SafeWake(w, watch);
    var t, w1 := w.Turn(), w.Wake();
    if !t.fault.LostRequest? && copy.version == |w1.past| {
      var v := Version(w1.current.spec, copy.status, writer, |w1.log|, NamedBy(writer, w1.current, w1.minted));
      assert w1.past == w.past && w1.current == w.current == w.History()[copy.version];
      SafeVersion(w1, v, watch);
      assert w1.(past := w1.History(), current := v).History() == w1.History() + [v];
    }
  }

  lemma BumpKeepsKeys(helm: seq<Release>, key: Key, hosted: bool, about: string)
    ensures Keys(Bump(helm, key, hosted, about)) == Keys(helm)
    ensures DistinctReleases(helm) ==> DistinctReleases(Bump(helm, key, hosted, about))
  {
    var b := Bump(helm, key, hosted, about);
    assert forall i | 0 <= i < |helm| :: ReleaseKey(b[i]) == ReleaseKey(helm[i]);
    forall k | k in Keys(helm)
      ensures k in Keys(b)
    {
      var i :| 0 <= i < |helm| && ReleaseKey(helm[i]) == k;
      assert b[i] in b;
    }
  }

  lemma {:induction false} WithoutKeepsOthers(helm: seq<Release>, key: Key)
    requires DistinctReleases(helm)
    ensures DistinctReleases(Without(helm, key)) && Keys(Without(helm, key)) == Keys(helm) - {key}
  {
    if helm != [] {
      WithoutKeepsOthers(helm[1..], key);
      var rest := Without(helm[1..], key);
      forall r | r in rest
        ensures ReleaseKey(r) != ReleaseKey(helm[0])
      {
        assert r in helm[1..];
      }
      assert forall r :: r in helm <==> r == helm[0] || r in helm[1..];
    }
  }

  /** Helm writes keep the invariant, given that a deletion spares the watched releases. */
  lemma SafeHelm(w: World, watch: Watch, helm: seq<Release>, e: Event)
    requires Safe(w, watch) && DistinctReleases(helm) && watch.keys <= Keys(helm)
    requires e.Upgraded? || e.Installed? || e.Deleted?
    ensures Safe(w.(helm := helm, log := w.log + [e]), watch)
  {
    var w1 := w.(helm := helm);
    assert w1.History() == w.History();
    assert Safe(w1, watch);
    SafeAppend(w1, e, watch);
  }

  /** A stretch of the run that only touched Helm, as seen from outside. */
  ghost predicate HelmOnly(a: World, b: World) {
    && Later(a, b) && b.current.status == a.current.status
    && forall j | |a.log| <= j < |b.log| :: b.log[j].Upgraded? || b.log[j].Installed? || b.log[j].Deleted?
  }

  lemma SafeUpgrade(w: World, h: HelmInstall, watch: Watch)
    requires Safe(w, watch)
    ensures var (w1, ok) := Upgrade(w, h);
            Safe(w1, watch) && HelmOnly(w, w1)
            && (ok ==> w1.log == w.log + [Upgraded(h, true)])
  {
    hide LegalHistory, LegalLog, FromFloor, RegisteredFirst, Silent, Keeps, Lawful;
    SafeWake(w, watch);
    var t, w1 := w.Turn(), w.Wake();
    BumpKeepsKeys(w1.helm, InstallKey(h), t.hosted, t.about);
    SafeHelm(w1, watch, Bump(w1.helm, InstallKey(h), t.hosted, t.about), Upgraded(h, t.fault.Delivered?));
  }

  lemma SafeApply(w: World, key: Key, watch: Watch)
    requires Safe(w, watch)
    ensures Safe(Apply(w, key).0, watch) && HelmOnly(w, Apply(w, key).0)
  {
    hide LegalHistory, LegalLog, FromFloor, RegisteredFirst, Silent, Keeps, Lawful;
    SafeWake(w, watch);
    var t, w1 := w.Turn(), w.Wake();
    if !t.fault.LostRequest? && key !in Keys(w1.helm) {
      var helm := w1.helm + [Release(key.namespace, key.name, 1, t.hosted, t.about)];
      assert forall r | r in w1.helm :: r in helm && ReleaseKey(r) in Keys(w1.helm);
      SafeHelm(w1, watch, helm, Installed(key, t.fault.Delivered?));
    }
  }

  lemma SafeDelete(w: World, key: Key, watch: Watch)
    requires Safe(w, watch) && key !in watch.keys
    ensures Safe(Delete(w, key).0, watch) && HelmOnly(w, Delete(w, key).0)
  {
    hide LegalHistory, LegalLog, FromFloor, RegisteredFirst, Silent, Keeps, Lawful;
    SafeWake(w, watch);
    var t, w1 := w.Turn(), w.Wake();
    WithoutKeepsOthers(w1.helm, key);
    SafeHelm(w1, watch, Without(w1.helm, key), Deleted(key, t.fault.Delivered?));
  }
}
