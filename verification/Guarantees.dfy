/**
 * What holds of every run of reconciles from a freshly created resource: any number of them, with a
 * fault at any call, stale reads, conflicting edits and other Helm users at work.
 */
module Guarantees {
  import opened Api
  import opened Naming
  import opened Reconciliation
  import opened SafeRuns
  import opened Safety
  import opened Text
  import opened World

  lemma RunIsSafe(w: World, n: nat)
    requires Created(w) && Lawful(w.env)
    ensures Safe(Run(w, n), ANY) && Later(w, Run(w, n))
  {
    CreatedIsSafe(w, ANY);
    SafeRun(w, n, ANY);
  }

  // ---- status and identity ---------------------------------------------------------------------

  /**
   * Every version ever persisted is coherent: revisions sorted and those of the recorded releases,
   * keys distinct, UUIDs present, and nothing recorded before the cluster has its UUID.
   */
  lemma EveryStatusIsCoherent(w: World, n: nat)
    requires Created(w) && Lawful(w.env)
    ensures forall v | v in Run(w, n).History() :: StatusOk(v.status)
  {
    RunIsSafe(w, n);
    var h := Run(w, n).History();
    forall v | v in h
      ensures StatusOk(v.status)
    {
      var i :| 0 <= i < |h| && h[i] == v;
      StatusesOk(Run(w, n), ANY, i);
    }
  }

  lemma {:induction false} IdentityPersists(w: World, watch: Watch, i: nat, j: nat)
    requires Safe(w, watch) && i <= j < |w.History()|
    ensures var a, b := w.History()[i].status, w.History()[j].status;
            && (a.clusterUUID != "" ==> b.clusterUUID == a.clusterUUID)
            && (a.dnsUpdated ==> b.dnsUpdated)
    decreases j
  {
    if i < j {
      IdentityPersists(w, watch, i, j - 1);
      assert LegalWrite(w.env, watch, w.log, j - 1, w.History()[j - 1], w.History()[j]);
    }
  }

  /** The cluster UUID and the DNS mark are written once and never taken back. */
  lemma IdentityIsWriteOnce(w: World, n: nat, i: nat, j: nat)
    requires Created(w) && Lawful(w.env) && i <= j < |Run(w, n).History()|
    ensures var h := Run(w, n).History();
            && (h[i].status.clusterUUID != "" ==> h[j].status.clusterUUID == h[i].status.clusterUUID)
            && (h[i].status.dnsUpdated ==> h[j].status.dnsUpdated)
  {
    RunIsSafe(w, n);
    IdentityPersists(Run(w, n), ANY, i, j);
  }

  lemma {:induction false} ClaimIsDrawn(w: World, i: nat)
    requires Safe(w, ANY) && i < |w.History()| && w.History()[i].status.clusterUUID != ""
    ensures exists m: nat :: w.History()[i].status.clusterUUID == "K-" + w.env.uuid(m)
  {
    hide Recordable, DnsEvidence, PostedJustBefore;
    if i > 0 {
      assert LegalWrite(w.env, ANY, w.log, i - 1, w.History()[i - 1], w.History()[i]);
      if w.History()[i - 1].status.clusterUUID != "" {
        ClaimIsDrawn(w, i - 1);
      }
    }
  }

  /** The cluster UUID of a run is the prefix `K-` and a UUID from the source. */
  lemma ClusterUUIDIsDrawn(w: World, n: nat)
    requires Created(w) && Lawful(w.env) && Run(w, n).current.status.clusterUUID != ""
    ensures exists m: nat :: Run(w, n).current.status.clusterUUID == "K-" + w.env.uuid(m)
  {
    RunIsSafe(w, n);
    var end := Run(w, n);
    assert end.History()[|end.past|] == end.current;
    ClaimIsDrawn(end, |end.past|);
  }

  /** Every request carries the one persisted cluster UUID, and the cluster is registered at most once. */
  lemma RequestsCarryTheIdentity(w: World, n: nat)
    requires Created(w) && Lawful(w.env)
    ensures var end := Run(w, n);
            && (forall e | e in end.log && (e.Register? || e.App? || e.Dns?) ::
                  e.cluster == end.current.status.clusterUUID != "")
            && (forall i, j | 0 <= i < |end.log| && 0 <= j < |end.log|
                              && end.log[i].Register? && end.log[j].Register? ::
                  i == j)
  {
    RunIsSafe(w, n);
    var end := Run(w, n);
    forall e | e in end.log && (e.Register? || e.App? || e.Dns?)
      ensures e.cluster == end.current.status.clusterUUID != ""
    {
      var j :| 0 <= j < |end.log| && end.log[j] == e;
      assert LegalEvent(end.env, 0, end.History(), end.log[j]);
      IdentityPersists(end, ANY, e.basis, |end.past|);
    }
  }

  /** Over any run the registration comes before every other request to the Hossted API. */
  lemma RegistrationComesFirst(w: World, n: nat, i: nat, j: nat)
    requires Created(w) && Lawful(w.env) && i < |Run(w, n).log| && j < |Run(w, n).log|
    requires var e := Run(w, n).log[j]; Run(w, n).log[i].Register? && (e.App? || e.Dns?)
    ensures i < j
  {
    hide Created, Run;
    RunIsSafe(w, n);
  }

  // ---- app UUIDs -------------------------------------------------------------------------------

  /** Whenever the namespace's secret is read from `tick` on and imposes a UUID, it is this one. */
  ghost predicate SecretAgrees(env: Environment, tick: nat, namespace: string, appUUID: string) {
    forall t: nat | t >= tick :: var imposed := Imposed(env.turn(t).secrets(namespace));
      imposed.Some? ==> "A-" + imposed.value == appUUID
  }

  ghost predicate Records(s: Status, k: Key, appUUID: string) {
    exists info :: info in s.helmStatus && InfoKey(info) == k && info.appUUID == appUUID
  }

  /**
   * From `w` on release `k` stays visible: it is installed, its namespace is listed and not denied, and
   * nobody uninstalls it. Versions older than `floor` are no longer read, and with the specs of the
   * others the operator does not uninstall it either.
   */
  ghost predicate StaysVisible(w: World, k: Key, floor: nat) {
    && k in Keys(w.helm) && k.namespace !in w.current.spec.denyNamespaces
    && (forall t: nat, h | t >= w.clock && k in Keys(h) :: k in Keys(w.env.turn(t).others(h)))
    && (forall t: nat | t >= w.clock :: k.namespace in w.env.turn(t).namespaces)
    && (forall t: nat | t >= w.clock && w.env.turn(t).edit.Some? ::
          k.namespace !in w.env.turn(t).edit.value.denyNamespaces && Spares({k}, w.env.turn(t).edit.value))
    && floor <= |w.past|
    && (floor > 0 ==> forall t: nat | t >= w.clock :: w.env.turn(t).lag <= |w.past| - floor)
    && (forall i | floor <= i < |w.History()| :: Spares({k}, w.History()[i].spec))
  }

  function Following(w: World, k: Key, floor: nat): Watch {
    Watch({k}, {}, w.clock, |w.past|, |w.log|, floor, None)
  }

  /** From any point of a run on a visible release can be followed. */
  lemma RunIsFollowed(w: World, n: nat, m: nat, k: Key, floor: nat)
    requires Created(w) && Lawful(w.env) && StaysVisible(Run(w, n), k, floor)
    requires k == INGRESS_CHART ==> Run(w, n).current.status.clusterUUID != ""
    ensures var start := Run(w, n);
            var watch := Following(start, k, floor);
            Safe(start, watch) && Safe(Run(start, m), watch) && Later(start, Run(start, m))
  {
    hide Safe, Run, Created;
    RunIsSafe(w, n);
    var start := Run(w, n);
    FollowingKeeps(start, k, floor);
    WatchBegins(start, Following(start, k, floor));
    SafeRun(start, m, Following(start, k, floor));
  }

  lemma FollowingKeeps(w: World, k: Key, floor: nat)
    requires StaysVisible(w, k, floor)
    ensures Keeps(w.env, Following(w, k, floor))
    ensures forall i | floor <= i < |w.History()| :: SpecKeeps(Following(w, k, floor), i, w.History()[i].spec)
  {
  }

  /** A faithful entry for a recorded release carries the recorded UUID. */
  lemma FaithfulToRecord(env: Environment, tick: nat, s: Status, k: Key, appUUID: string, info: HelmInfo)
    requires StatusOk(s) && Records(s, k, appUUID) && SecretAgrees(env, tick, k.namespace, appUUID)
    requires InfoKey(info) == k && Faithful(env, tick, s.helmStatus, info)
    ensures info.appUUID == appUUID
  {
    var recorded :| recorded in s.helmStatus && InfoKey(recorded) == k && recorded.appUUID == appUUID;
    FindsTheEntry(s.helmStatus, recorded);
  }

  lemma RecordStep(
    env: Environment, watch: Watch, log: seq<Event>, basis: nat, a: Version, b: Version, k: Key, appUUID: string)
    requires LegalWrite(env, watch, log, basis, a, b) && StatusOk(a.status) && k in watch.keys && basis >= watch.since
    requires SecretAgrees(env, watch.tick, k.namespace, appUUID) && Records(a.status, k, appUUID)
    ensures Records(b.status, k, appUUID)
  {
    if b.writer.First? || b.writer.Existing? {
      assert k in InfoKeys(b.status.helmStatus);
      var info :| info in b.status.helmStatus && InfoKey(info) == k;
      FaithfulToRecord(env, watch.tick, a.status, k, appUUID, info);
    }
  }

  lemma {:induction false} RecordPersists(w: World, watch: Watch, k: Key, appUUID: string, j: nat)
    requires Safe(w, watch) && k in watch.keys && watch.since <= j < |w.History()|
    requires SecretAgrees(w.env, watch.tick, k.namespace, appUUID)
    requires Records(w.History()[watch.since].status, k, appUUID)
    ensures Records(w.History()[j].status, k, appUUID)
    decreases j
  {
    hide StatusOk, LegalWrite, Records, SecretAgrees;
    if watch.since < j {
      RecordPersists(w, watch, k, appUUID, j - 1);
      StatusesOk(w, watch, j - 1);
      RecordStep(w.env, watch, w.log, j - 1, w.History()[j - 1], w.History()[j], k, appUUID);
    }
  }

  /**
   * A recorded app UUID stays: as long as the release stays visible and its namespace's secret does not
   * impose another UUID, every later version records the same one. Stale reads do not matter: a write
   * based on one is refused.
   */
  lemma RecordedUUIDIsStable(w: World, n: nat, m: nat, k: Key, appUUID: string, floor: nat, j: nat)
    requires Created(w) && Lawful(w.env) && StaysVisible(Run(w, n), k, floor)
    requires Records(Run(w, n).current.status, k, appUUID)
    requires SecretAgrees(w.env, Run(w, n).clock, k.namespace, appUUID)
    requires |Run(w, n).past| <= j < |Run(Run(w, n), m).History()|
    ensures Records(Run(Run(w, n), m).History()[j].status, k, appUUID)
  {
    hide Safe, Run, Created;
    var start := Run(w, n);
    RecordedClusterHasUUID(w, n, k, appUUID);
    RunIsFollowed(w, n, m, k, floor);
    RecordIsAtStart(start, Run(start, m));
    RecordPersists(Run(start, m), Following(start, k, floor), k, appUUID, j);
  }

  lemma RecordedClusterHasUUID(w: World, n: nat, k: Key, appUUID: string)
    requires Created(w) && Lawful(w.env) && Records(Run(w, n).current.status, k, appUUID)
    ensures Run(w, n).current.status.clusterUUID != "" && Run(w, n).env == w.env
  {
    RunIsSafe(w, n);
    var start := Run(w, n);
    assert start.History()[|start.past|] == start.current;
    StatusesOk(start, ANY, |start.past|);
  }

  lemma RecordIsAtStart(start: World, end: World)
    requires Later(start, end)
    ensures |start.past| < |end.History()| && end.History()[|start.past|] == start.current
  {
    assert start.History()[|start.past|] == start.current;
  }

  /**
   * What is sent is decided by the version that was read: an /apps request for the release carries the
   * recorded UUID whenever the version it is based on records it, and every version from the one that
   * was current at the start on does.
   */
  lemma PostedUUIDFollowsItsBasis(w: World, n: nat, m: nat, k: Key, appUUID: string, floor: nat, j: nat)
    requires Created(w) && Lawful(w.env) && StaysVisible(Run(w, n), k, floor)
    requires Records(Run(w, n).current.status, k, appUUID)
    requires SecretAgrees(w.env, Run(w, n).clock, k.namespace, appUUID)
    requires var start, end := Run(w, n), Run(Run(w, n), m);
             |start.log| <= j < |end.log| && end.log[j].App? && InfoKey(end.log[j].info) == k
    ensures var start, end := Run(w, n), Run(Run(w, n), m);
            var e := end.log[j];
            && e.basis < |end.History()|
            && (e.basis >= |start.past| ==> Records(end.History()[e.basis].status, k, appUUID))
            && (Records(end.History()[e.basis].status, k, appUUID) ==> e.info.appUUID == appUUID)
  {
    hide Safe, Run, Created, StaysVisible;
    var start, end := Run(w, n), Run(Run(w, n), m);
    RecordedClusterHasUUID(w, n, k, appUUID);
    RunIsFollowed(w, n, m, k, floor);
    RecordIsAtStart(start, end);
    PostedFollowsBasis(end, Following(start, k, floor), k, appUUID, j);
  }

  lemma PostedFollowsBasis(w: World, watch: Watch, k: Key, appUUID: string, j: nat)
    requires Safe(w, watch) && k in watch.keys && watch.from <= j < |w.log|
    requires SecretAgrees(w.env, watch.tick, k.namespace, appUUID)
    requires Records(w.History()[watch.since].status, k, appUUID)
    requires w.log[j].App? && InfoKey(w.log[j].info) == k
    ensures var e := w.log[j];
            && watch.floor <= e.basis < |w.History()|
            && (e.basis >= watch.since ==> Records(w.History()[e.basis].status, k, appUUID))
            && (Records(w.History()[e.basis].status, k, appUUID) ==> e.info.appUUID == appUUID)
  {
    hide Records;
    assert LegalEvent(w.env, watch.tick, w.History(), w.log[j]);
    var b := w.log[j].basis;
    if b >= watch.since {
      RecordPersists(w, watch, k, appUUID, b);
    }
    StatusesOk(w, watch, b);
    if Records(w.History()[b].status, k, appUUID) {
      FaithfulToRecord(w.env, watch.tick, w.History()[b].status, k, appUUID, w.log[j].info);
    }
  }

  /** When reads are up to date from then on, every later /apps request for the release carries the UUID. */
  lemma PostedUUIDIsStable(w: World, n: nat, m: nat, k: Key, appUUID: string, j: nat)
    requires Created(w) && Lawful(w.env) && StaysVisible(Run(w, n), k, |Run(w, n).past|)
    requires Records(Run(w, n).current.status, k, appUUID)
    requires SecretAgrees(w.env, Run(w, n).clock, k.namespace, appUUID)
    requires var start, end := Run(w, n), Run(Run(w, n), m);
             |start.log| <= j < |end.log| && end.log[j].App? && InfoKey(end.log[j].info) == k
    ensures Run(Run(w, n), m).log[j].info.appUUID == appUUID
  {
    hide Safe, Run, Created, StaysVisible;
    var start, end := Run(w, n), Run(Run(w, n), m);
    RecordedClusterHasUUID(w, n, k, appUUID);
    RunIsFollowed(w, n, m, k, |start.past|);
    RecordIsAtStart(start, end);
    PostedFollowsBasis(end, Following(start, k, |start.past|), k, appUUID, j);
  }

  /**
   * From the moment a release is visible every record that is written contains it. So every completed
   * registration round covers all releases of the allowed namespaces.
   */
  lemma RecordsCoverTheVisible(w: World, n: nat, m: nat, k: Key, floor: nat, j: nat)
    requires Created(w) && Lawful(w.env) && StaysVisible(Run(w, n), k, floor)
    requires k == INGRESS_CHART ==> Run(w, n).current.status.clusterUUID != ""
    requires |Run(w, n).past| < j < |Run(Run(w, n), m).History()|
    requires var v := Run(Run(w, n), m).History()[j]; v.writer.First? || v.writer.Existing?
    ensures k in InfoKeys(Run(Run(w, n), m).History()[j].status.helmStatus)
  {
    hide Run, Created, StaysVisible;
    RunIsFollowed(w, n, m, k, floor);
    var start, end := Run(w, n), Run(Run(w, n), m);
    assert LegalWrite(end.env, Following(start, k, floor), end.log, j - 1, end.History()[j - 1], end.History()[j]);
  }

  /**
   * The condition on the secret is exact: a collection changes a recorded UUID if and only if the
   * release is hosted and the secret read in that collection imposes another one.
   */
  lemma SecretDecides(w: World, copy: Copy, r: Release, appUUID: string)
    requires StatusOk(copy.status) && Records(copy.status, ReleaseKey(r), appUUID)
    ensures var (w1, found) := GetHelmInfo(w, copy, r);
            var info := ApplySecret(w1, r, found).1;
            var imposed := Imposed(w.env.turn(w.clock).secrets(r.namespace));
            info.appUUID == appUUID <==> !(r.hosted && imposed.Some? && "A-" + imposed.value != appUUID)
  {
    var recorded :|
      recorded in copy.status.helmStatus && InfoKey(recorded) == ReleaseKey(r) && recorded.appUUID == appUUID;
    FindsTheEntry(copy.status.helmStatus, recorded);
  }

  /** Hosted releases whose secrets cannot be read all get the same UUID, in whatever namespace they are. */
  lemma UnreadableSecretsCollide(w: World, copy: Copy, r: Release)
    requires r.hosted && w.env.turn(w.clock).secrets(r.namespace).Unreadable?
    ensures var (w1, found) := GetHelmInfo(w, copy, r);
            ApplySecret(w1, r, found).1.appUUID == "A-"
  {
    assert "A-" + "" == "A-";
  }

  /** The secret of the namespace, as read at some time, makes `appUUID` the UUID of its hosted releases. */
  ghost predicate SecretGives(env: Environment, namespace: string, appUUID: string) {
    exists t: nat ::
      match env.turn(t).secrets(namespace)
      case NotFound => false
      case Unreadable => appUUID == "A-"
      case Secret(uuid) => appUUID == "A-" + uuid
  }

  /** A flagged entry has its UUID from a secret; any other has that of the version `s`, or a new one. */
  ghost predicate Accounted(env: Environment, s: Status, info: HelmInfo) {
    if info.hosstedHelm then SecretGives(env, info.namespace, info.appUUID)
    else Records(s, InfoKey(info), info.appUUID) || exists m: nat :: info.appUUID == "A-" + env.uuid(m)
  }

  lemma FaithfulIsAccounted(env: Environment, tick: nat, s: Status, info: HelmInfo)
    requires Faithful(env, tick, s.helmStatus, info)
    ensures Accounted(env, s, info)
  {
    if info.hosstedHelm {
      var t: nat :| t >= tick && var imposed := Imposed(env.turn(t).secrets(info.namespace));
                    imposed.Some? && info.appUUID == "A-" + imposed.value;
      assert "A-" + "" == "A-";
      assert Imposed(env.turn(t).secrets(info.namespace)).Some?;
      assert !env.turn(t).secrets(info.namespace).NotFound?;
    }
  }

  /**
   * Over any run the flag `hosstedHelm` says where the UUID of an application is from, be it posted or
   * newly recorded.
   */
  lemma FlagTellsTheOrigin(w: World, n: nat, i: nat)
    requires Created(w) && Lawful(w.env) && i + 1 < |Run(w, n).History()|
    ensures var end := Run(w, n);
            && (forall e | e in end.log && e.App? ::
                  e.basis < |end.History()| && Accounted(w.env, end.History()[e.basis].status, e.info))
            && (forall info | info in end.History()[i + 1].status.helmStatus ::
                  || info in end.History()[i].status.helmStatus
                  || Accounted(w.env, end.History()[i].status, info))
  {
    hide Created, Run, Accounted;
    RunIsSafe(w, n);
    var end := Run(w, n);
    forall e | e in end.log && e.App?
      ensures e.basis < |end.History()| && Accounted(w.env, end.History()[e.basis].status, e.info)
    {
      var j :| 0 <= j < |end.log| && end.log[j] == e;
      assert LegalEvent(end.env, 0, end.History(), end.log[j]);
      FaithfulIsAccounted(w.env, 0, end.History()[e.basis].status, e.info);
    }
    var a, b := end.History()[i], end.History()[i + 1];
    assert LegalWrite(end.env, ANY, end.log, i, a, b);
    forall info | info in b.status.helmStatus
      ensures info in a.status.helmStatus || Accounted(w.env, a.status, info)
    {
      if b.writer.First? || b.writer.Existing? {
        FaithfulIsAccounted(w.env, 0, a.status, info);
      }
    }
  }

  // ---- what a UUID identifies ------------------------------------------------------------------

  /** The source never repeats a UUID, no secret imposes one of its, and no two namespaces impose the same. */
  ghost predicate UniqueSource(env: Environment) {
    && (forall i: nat, j: nat | env.uuid(i) == env.uuid(j) :: i == j)
    && (forall namespace, m: nat :: !Imposes(env, namespace, env.uuid(m)))
    && (forall a, b, uuid | Imposes(env, a, uuid) && Imposes(env, b, uuid) :: a == b)
  }

  /** The UUID that draw `m` gives. */
  function Drawn(env: Environment, m: nat): string {
    "A-" + env.uuid(m)
  }

  lemma DrawsDiffer(env: Environment, i: nat, j: nat)
    requires UniqueSource(env) && Drawn(env, i) == Drawn(env, j)
    ensures i == j
  {
    assert Drawn(env, i)[2..] == env.uuid(i) && Drawn(env, j)[2..] == env.uuid(j);
  }

  lemma DrawnIsNotImposed(env: Environment, info: HelmInfo, m: nat)
    requires UniqueSource(env) && info.appUUID == Drawn(env, m)
    ensures !ImposedOn(env, info)
  {
    forall uuid | info.appUUID == "A-" + uuid
      ensures uuid == env.uuid(m)
    {
      assert info.appUUID[2..] == uuid && Drawn(env, m)[2..] == env.uuid(m);
    }
  }

  lemma ImposedAt(env: Environment, info: HelmInfo, t: nat)
    ensures var imposed := Imposed(env.turn(t).secrets(info.namespace));
            imposed.Some? && info.appUUID == "A-" + imposed.value ==> ImposedOn(env, info)
  {
    var imposed := Imposed(env.turn(t).secrets(info.namespace));
    assert imposed.Some? ==> Imposes(env, info.namespace, imposed.value);
  }

  /** Imposed UUIDs tell namespaces apart. */
  lemma ImposedTogether(env: Environment, a: HelmInfo, b: HelmInfo)
    requires UniqueSource(env) && ImposedOn(env, a) && ImposedOn(env, b) && a.appUUID == b.appUUID
    ensures a.namespace == b.namespace
  {
    var u :| Imposes(env, a.namespace, u) && a.appUUID == "A-" + u;
    var v :| Imposes(env, b.namespace, v) && b.appUUID == "A-" + v;
    assert a.appUUID[2..] == u && b.appUUID[2..] == v;
  }

  /** An entry of a record is carried over from the record before, imposed, or drawn for this record alone. */
  lemma CarriedOrDrawn(w: World, j: nat, y: nat) returns (carried: Option<HelmInfo>, m: nat)
    requires Safe(w, ANY) && UniqueSource(w.env) && 0 < j < |w.History()| && y < |w.History()[j].status.helmStatus|
    requires !ImposedOn(w.env, w.History()[j].status.helmStatus[y])
    ensures var a, b, info := w.History()[j - 1], w.History()[j], w.History()[j].status.helmStatus[y];
            if carried.Some? then
              && carried.value in a.status.helmStatus
              && InfoKey(carried.value) == InfoKey(info) && carried.value.appUUID == info.appUUID
            else
              && New(a.status.helmStatus, info) && a.named <= m < b.named && info.appUUID == Drawn(w.env, m)
              && forall x | 0 <= x < |b.status.helmStatus| && x != y
                            && b.status.helmStatus[x].appUUID == info.appUUID ::
                   !New(a.status.helmStatus, b.status.helmStatus[x])
  {
    var a, b := w.History()[j - 1], w.History()[j];
    var info := b.status.helmStatus[y];
    assert LegalWrite(w.env, ANY, w.log, j - 1, a, b);
    m := 0;
    if !(b.writer.First? || b.writer.Existing?) {
      carried := Some(info);
    } else if !New(a.status.helmStatus, info) {
      var prior := FaithfulIsCarried(w.env, a.status.helmStatus, info);
      carried := Some(prior);
    } else {
      carried := None;
      var infos := b.status.helmStatus;
      var mints :| Numbered(w.env, a.status.helmStatus, a.named, b.named, infos, mints);
      m := mints[y];
      forall x | x != y && 0 <= x < |infos| && infos[x].appUUID == info.appUUID
        ensures !New(a.status.helmStatus, infos[x])
      {
        if New(a.status.helmStatus, infos[x]) {
          DrawnIsNotImposed(w.env, infos[x], m);
          DrawsDiffer(w.env, mints[x], m);
        }
      }
    }
  }

  lemma FaithfulIsCarried(env: Environment, prior: seq<HelmInfo>, info: HelmInfo) returns (carried: HelmInfo)
    requires Faithful(env, 0, prior, info) && !New(prior, info) && !ImposedOn(env, info)
    ensures carried in prior && InfoKey(carried) == InfoKey(info) && carried.appUUID == info.appUUID
  {
    var known := FindExistingUUID(prior, info.name, info.namespace);
    forall t: nat
      ensures var imposed := Imposed(env.turn(t).secrets(info.namespace));
              !(imposed.Some? && info.appUUID == "A-" + imposed.value)
    {
      ImposedAt(env, info, t);
    }
    carried :| carried in prior && InfoKey(carried) == InfoKey(info) && carried.appUUID == known;
  }

  /** What is on record was imposed, or drawn before the record was written. */
  lemma {:induction false} RecordedWasDrawn(w: World, j: nat, y: nat) returns (m: nat)
    requires Safe(w, ANY) && UniqueSource(w.env) && j < |w.History()| && y < |w.History()[j].status.helmStatus|
    requires !ImposedOn(w.env, w.History()[j].status.helmStatus[y])
    ensures m < w.History()[j].named && w.History()[j].status.helmStatus[y].appUUID == Drawn(w.env, m)
    decreases j
  {
    hide Safe, UniqueSource, Drawn, ImposedOn;
    FirstVersionIsEmpty(w);
    var carried: Option<HelmInfo>;
    carried, m := CarriedOrDrawn(w, j, y);
    if carried.Some? {
      var prior := w.History()[j - 1].status.helmStatus;
      var i :| 0 <= i < |prior| && prior[i] == carried.value;
      CarriedIsNotImposed(w.env, prior[i], w.History()[j].status.helmStatus[y]);
      m := RecordedWasDrawn(w, j - 1, i);
      NamedGrows(w, j - 1, j);
    }
  }

  lemma CarriedIsNotImposed(env: Environment, a: HelmInfo, b: HelmInfo)
    requires InfoKey(a) == InfoKey(b) && a.appUUID == b.appUUID
    ensures ImposedOn(env, a) <==> ImposedOn(env, b)
  {
  }

  lemma FirstVersionIsEmpty(w: World)
    requires Safe(w, ANY)
    ensures w.History()[0].status.helmStatus == []
  {
  }

  lemma {:induction false} NamedGrows(w: World, i: nat, j: nat)
    requires Safe(w, ANY) && i <= j < |w.History()|
    ensures w.History()[i].named <= w.History()[j].named
    decreases j
  {
    if i < j {
      NamedGrows(w, i, j - 1);
      assert LegalWrite(w.env, ANY, w.log, j - 1, w.History()[j - 1], w.History()[j]);
    }
  }

  lemma {:induction false} SameUUIDSameKey(w: World, i: nat, x: nat, j: nat, y: nat)
    requires Safe(w, ANY) && UniqueSource(w.env) && i <= j < |w.History()|
    requires x < |w.History()[i].status.helmStatus| && y < |w.History()[j].status.helmStatus|
    requires w.History()[i].status.helmStatus[x].appUUID == w.History()[j].status.helmStatus[y].appUUID
    requires !ImposedOn(w.env, w.History()[i].status.helmStatus[x])
    requires !ImposedOn(w.env, w.History()[j].status.helmStatus[y])
    ensures InfoKey(w.History()[i].status.helmStatus[x]) == InfoKey(w.History()[j].status.helmStatus[y])
    decreases j, i
  {
    hide Safe, UniqueSource, InfoKey, Drawn, New, ImposedOn;
    FirstVersionIsEmpty(w);
    var h := w.History();
    var carried, m := CarriedOrDrawn(w, j, y);
    if carried.Some? {
      var prior := h[j - 1].status.helmStatus;
      var z :| 0 <= z < |prior| && prior[z] == carried.value;
      CarriedIsNotImposed(w.env, prior[z], h[j].status.helmStatus[y]);
      if i < j {
        SameUUIDSameKey(w, i, x, j - 1, z);
      } else {
        var carriedX, mx := CarriedOrDrawn(w, i, x);
        if carriedX.Some? {
          var zx :| 0 <= zx < |prior| && prior[zx] == carriedX.value;
          CarriedIsNotImposed(w.env, prior[zx], h[i].status.helmStatus[x]);
          SameUUIDSameKey(w, j - 1, zx, j - 1, z);
        } else {
          var mz := RecordedWasDrawn(w, j - 1, z);
          DrawsDiffer(w.env, mx, mz);
        }
      }
    } else if i < j {
      var mx := RecordedWasDrawn(w, i, x);
      NamedGrows(w, i, j - 1);
      DrawsDiffer(w.env, mx, m);
    } else if x != y {
      var carriedX, mx := CarriedOrDrawn(w, i, x);
      if carriedX.Some? {
        var prior := h[j - 1].status.helmStatus;
        var zx :| 0 <= zx < |prior| && prior[zx] == carriedX.value;
        CarriedIsNotImposed(w.env, prior[zx], h[i].status.helmStatus[x]);
        var mz := RecordedWasDrawn(w, j - 1, zx);
        DrawsDiffer(w.env, mz, m);
      }
    }
  }

  /**
   * A UUID identifies an application. With a source that never repeats itself and secrets that impose
   * neither one of its UUIDs nor the same UUID in two namespaces, two entries of any two versions of a
   * run share a UUID only when they are of the same release, or of one namespace whose secret imposed it.
   */
  lemma UUIDsIdentify(w: World, n: nat, v: Version, u: Version, a: HelmInfo, b: HelmInfo)
    requires Created(w) && Lawful(w.env) && UniqueSource(w.env)
    requires v in Run(w, n).History() && u in Run(w, n).History()
    requires a in v.status.helmStatus && b in u.status.helmStatus && a.appUUID == b.appUUID
    ensures InfoKey(a) == InfoKey(b) || (a.namespace == b.namespace && ImposedOn(w.env, a) && ImposedOn(w.env, b))
  {
    hide Safe, UniqueSource, Run, Created, ImposedOn, Drawn;
    RunIsSafe(w, n);
    var end := Run(w, n);
    var h := end.History();
    var i :| 0 <= i < |h| && h[i] == v;
    var j :| 0 <= j < |h| && h[j] == u;
    var x :| 0 <= x < |v.status.helmStatus| && v.status.helmStatus[x] == a;
    var y :| 0 <= y < |u.status.helmStatus| && u.status.helmStatus[y] == b;
    if ImposedOn(w.env, a) && ImposedOn(w.env, b) {
      ImposedTogether(w.env, a, b);
    } else if !ImposedOn(w.env, a) {
      var m := RecordedWasDrawn(end, i, x);
      DrawnIsNotImposed(w.env, b, m);
      if i <= j {
        SameUUIDSameKey(end, i, x, j, y);
      } else {
        SameUUIDSameKey(end, j, y, i, x);
      }
    } else {
      var m := RecordedWasDrawn(end, j, y);
      DrawnIsNotImposed(w.env, a, m);
    }
  }

  // ---- denied namespaces -----------------------------------------------------------------------

  /** From `w` on every version that may still be read denies the namespace. */
  ghost predicate StaysDenied(w: World, namespace: string, floor: nat) {
    && floor <= |w.past|
    && (floor > 0 ==> forall t: nat | t >= w.clock :: w.env.turn(t).lag <= |w.past| - floor)
    && (forall i | floor <= i < |w.History()| :: namespace in w.History()[i].spec.denyNamespaces)
    && (forall t: nat | t >= w.clock && w.env.turn(t).edit.Some? ::
          namespace in w.env.turn(t).edit.value.denyNamespaces)
  }

  function Denying(w: World, namespace: string, floor: nat): Watch {
    Watch({}, {namespace}, w.clock, |w.past|, |w.log|, floor, None)
  }

  ghost predicate Avoids(infos: seq<HelmInfo>, namespace: string) {
    forall info | info in infos :: info.namespace != namespace
  }

  lemma {:induction false} RecordAvoidsDenied(w: World, watch: Watch, namespace: string, i: nat)
    requires Safe(w, watch) && watch.floor <= watch.since <= i < |w.History()| && namespace in watch.denied
    ensures var infos := w.History()[i].status.helmStatus;
            infos == w.History()[watch.since].status.helmStatus || Avoids(infos, namespace)
    decreases i
  {
    if i > watch.since {
      RecordAvoidsDenied(w, watch, namespace, i - 1);
      assert SpecKeeps(watch, i - 1, w.History()[i - 1].spec);
      assert LegalWrite(w.env, watch, w.log, i - 1, w.History()[i - 1], w.History()[i]);
    }
  }

  lemma PostAvoidsDenied(w: World, watch: Watch, namespace: string, j: nat)
    requires Safe(w, watch) && watch.from <= j < |w.log| && w.log[j].App? && namespace in watch.denied
    ensures w.log[j].info.namespace != namespace
  {
    assert LegalEvent(w.env, watch.tick, w.History(), w.log[j]);
    assert SpecKeeps(watch, w.log[j].basis, w.History()[w.log[j].basis].spec);
  }

  /**
   * From any point of a run on at which a namespace is denied for good, no /apps request names a release
   * of it, and every record is the one of that point or names none.
   */
  lemma DeniedNamespacesStayOut(w: World, n: nat, m: nat, namespace: string, floor: nat)
    requires Created(w) && Lawful(w.env) && StaysDenied(Run(w, n), namespace, floor)
    ensures var start, end := Run(w, n), Run(Run(w, n), m);
            && (forall j | |start.log| <= j < |end.log| && end.log[j].App? :: end.log[j].info.namespace != namespace)
            && (forall i | |start.past| <= i < |end.History()| ::
                  || end.History()[i].status.helmStatus == start.current.status.helmStatus
                  || Avoids(end.History()[i].status.helmStatus, namespace))
  {
    hide Created, Run, Avoids;
    var start, end := Run(w, n), Run(Run(w, n), m);
    var watch := Denying(start, namespace, floor);
    RunIsSafe(w, n);
    WatchBegins(start, watch);
    SafeRun(start, m, watch);
    RecordIsAtStart(start, end);
    forall j | |start.log| <= j < |end.log| && end.log[j].App?
      ensures end.log[j].info.namespace != namespace
    {
      PostAvoidsDenied(end, watch, namespace, j);
    }
    forall i | |start.past| <= i < |end.History()|
      ensures end.History()[i].status.helmStatus == start.current.status.helmStatus
           || Avoids(end.History()[i].status.helmStatus, namespace)
    {
      RecordAvoidsDenied(end, watch, namespace, i);
    }
  }

  // ---- delivery --------------------------------------------------------------------------------

  /**
   * The recorded releases and revisions change in two places only: once when a new cluster fills the
   * empty record, and otherwise right after every recorded app was posted, in order and without an
   * error, on the basis of the version before.
   */
  lemma RecordChangesAreDelivered(w: World, n: nat, i: nat)
    requires Created(w) && Lawful(w.env) && 0 < i < |Run(w, n).History()|
    ensures var end := Run(w, n);
            var a, b := end.History()[i - 1], end.History()[i];
            || (b.status.helmStatus == a.status.helmStatus && b.status.revision == a.status.revision)
            || (b.writer.First? && a.status.helmStatus == [])
            || PostedJustBefore(end.log, b.at, b.status.clusterUUID, b.status.helmStatus, i - 1)
  {
    RunIsSafe(w, n);
    var end := Run(w, n);
    assert LegalWrite(end.env, ANY, end.log, i - 1, end.History()[i - 1], end.History()[i]);
  }

  // ---- DNS -------------------------------------------------------------------------------------

  lemma {:induction false} DnsMarkHasWriter(w: World, watch: Watch, i: nat) returns (v: nat)
    requires Safe(w, watch) && i < |w.History()| && w.History()[i].status.dnsUpdated
    ensures 0 < v <= i && w.History()[v].writer.DnsDone?
    ensures w.History()[v].status.clusterUUID == w.History()[i].status.clusterUUID
  {
    assert i > 0;
    var a, b := w.History()[i - 1], w.History()[i];
    assert LegalWrite(w.env, watch, w.log, i - 1, a, b);
    if b.writer.DnsDone? {
      v := i;
    } else {
      v := DnsMarkHasWriter(w, watch, i - 1);
      assert LegalWrite(w.env, watch, w.log, v - 1, w.History()[v - 1], w.History()[v]);
      IdentityPersists(w, watch, v, i);
    }
  }

  /**
   * A persisted DNS mark was earned: some version up to it was written after a DNS record of this
   * cluster was accepted and the first release declared in that version's spec was upgraded to that
   * record's name. DNS records are only ever sent on the basis of a version without the mark.
   */
  lemma DnsMarkIsEarned(w: World, n: nat, i: nat)
    requires Created(w) && Lawful(w.env) && i < |Run(w, n).History()|
    ensures var end := Run(w, n);
            end.History()[i].status.dnsUpdated ==>
              exists v: nat | v <= i ::
                DnsEvidence(end.log, end.History()[v].at, end.current.status.clusterUUID, end.History()[v].spec)
    ensures var end := Run(w, n);
            forall e | e in end.log && e.Dns? ::
              e.basis < |end.History()| && !end.History()[e.basis].status.dnsUpdated
  {
    RunIsSafe(w, n);
    var end := Run(w, n);
    if end.History()[i].status.dnsUpdated {
      var v := DnsMarkHasWriter(end, ANY, i);
      var a, b := end.History()[v - 1], end.History()[v];
      assert LegalWrite(end.env, ANY, end.log, v - 1, a, b);
      IdentityPersists(end, ANY, v, |end.past|);
      assert DnsEvidence(end.log, b.at, end.current.status.clusterUUID, b.spec);
    }
    forall e | e in end.log && e.Dns?
      ensures e.basis < |end.History()| && !end.History()[e.basis].status.dnsUpdated
    {
      var j :| 0 <= j < |end.log| && end.log[j] == e;
      assert LegalEvent(end.env, 0, end.History(), end.log[j]);
    }
  }
}
