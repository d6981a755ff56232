/**
 * Everything the operator talks to: the API server's copy of the custom resource, the Helm releases
 * and the Hossted API. Each external call is one tick of `clock`. What goes wrong at a tick, and what
 * other actors do before it, is given by an arbitrary `Environment`.
 */
module World {
  import opened Api
  import opened Text

  /** A request may never arrive, or arrive while its reply is lost; a caller sees an error either way. */
  datatype Fault = Delivered | LostRequest | LostReply

  datatype SecretRead = NotFound | Unreadable | Secret(uuid: string)

  /** `address` is the load balancer's IP, `hostname` its name; either may be empty. */
  datatype IngressRead = Failed | NoAddress | Address(ip: string, hostname: string)

  /** `hosted` is the answer of `isHostedHelm` on the release's manifest. */
  datatype Release = Release(namespace: string, name: string, revision: int, hosted: bool, about: string)

  datatype Turn = Turn(
    fault: Fault,
    others: seq<Release> -> seq<Release>, // what other Helm users did since the last call
    edit: Option<Spec>,                   // an edit of the resource's spec since the last call
    lag: nat,                             // how many versions behind the cached read is
    namespaces: seq<string>,
    secrets: string -> SecretRead,        // the `uuid` secret of each namespace
    market: Option<string>,               // namespace in `access-object-info`; None when missing or malformed
    customName: Option<string>,           // custom ingress name, "" when not set; None when unreadable
    ingress: string -> IngressRead,
    hosted: bool,                         // manifest and description of a release written by this call
    about: string)

  datatype Environment = Environment(turn: nat -> Turn, uuid: nat -> string)

  /** The call at tick `t` was carried out and answered. */
  predicate Answered(env: Environment, t: nat) {
    env.turn(t).fault.Delivered?
  }

  /** The place in the code that wrote a version of the resource. */
  datatype Writer = User | Claim | DnsDone | First | Existing

  /**
   * One persisted version: `at` is the length of the log when it was written, and `named` the number of
   * UUIDs that had been handed out when the record in it was.
   */
  datatype Version = Version(spec: Spec, status: Status, writer: Writer, at: nat, named: nat)

  /**
   * What happened outside. `ack` says that the operator saw no error; `basis` is the version of the
   * resource that the operator's copy was at.
   */
  datatype Event =
    | Register(cluster: string, basis: nat, ack: bool)
    | App(cluster: string, info: HelmInfo, basis: nat, ack: bool)
    | Dns(cluster: string, name: string, content: string, kind: string, basis: nat, ack: bool)
    | Upgraded(install: HelmInstall, ack: bool)
    | Installed(key: Key, ack: bool)
    | Deleted(key: Key, ack: bool)

  datatype World = World(
    env: Environment, clock: nat, minted: nat,
    past: seq<Version>, current: Version,
    helm: seq<Release>, log: seq<Event>)
  {
    function Turn(): Turn {
      env.turn(clock)
    }

    /** All persisted versions; a resource version is an index into it. */
    function History(): (h: seq<Version>)
      ensures |h| == |past| + 1
    {
      past + [current]
    }

    /** The environment's move in front of a call. */
    function Wake(): World {
      var t := Turn();
      var w := this.(clock := clock + 1, helm := t.others(helm));
      match t.edit
      case None => w
      case Some(spec) => w.(past := History(), current := Version(spec, current.status, User, |log|, current.named))
    }
  }

  function Acked(e: Event, ack: bool): Event {
    e.(ack := ack)
  }

  /** The operator's in-memory copy of the resource. */
  datatype Copy = Copy(spec: Spec, status: Status, version: nat)

  function ReleaseKey(r: Release): Key {
    Key(r.namespace, r.name)
  }

  function Keys(helm: seq<Release>): set<Key> {
    set r | r in helm :: ReleaseKey(r)
  }

  ghost predicate DistinctReleases(helm: seq<Release>) {
    forall i, j | 0 <= i < j < |helm| :: ReleaseKey(helm[i]) != ReleaseKey(helm[j])
  }

  /** `helm.ListReleases`: the releases of one namespace, in the order Helm lists them. */
  function InNamespace(helm: seq<Release>, namespace: string): (r: seq<Release>)
    ensures forall x :: x in r <==> x in helm && x.namespace == namespace
  {
    if helm == [] then []
    else
      var rest := InNamespace(helm[1..], namespace);
      if helm[0].namespace == namespace then [helm[0]] + rest else rest
  }

  // ---- calls that read -------------------------------------------------------------------------

  /** `r.Get`: a cached read, possibly several versions old. */
  function Get(w: World): (r: (World, Option<Copy>)) {
    var t, w1 := w.Turn(), w.Wake();
    if !t.fault.Delivered? then (w1, None)
    else
      var v := if t.lag <= |w1.past| then |w1.past| - t.lag else 0;
      var version := w1.History()[v];
      (w1, Some(Copy(version.spec, version.status, v)))
  }

  function ListNamespaces(w: World): (World, Option<seq<string>>) {
    (w.Wake(), if w.Turn().fault.Delivered? then Some(w.Turn().namespaces) else None)
  }

  function ListReleases(w: World, namespace: string): (World, Option<seq<Release>>) {
    (w.Wake(), if w.Turn().fault.Delivered? then Some(InNamespace(w.Wake().helm, namespace)) else None)
  }

  /** `helm.ListRelease`: is there a release of that name? */
  function HasRelease(w: World, key: Key): (World, Option<bool>) {
    (w.Wake(), if w.Turn().fault.Delivered? then Some(key in Keys(w.Wake().helm)) else None)
  }

  function ReadSecret(w: World, namespace: string): (World, SecretRead) {
    (w.Wake(), w.Turn().secrets(namespace))
  }

  function ReadMarket(w: World): (World, Option<string>) {
    (w.Wake(), if w.Turn().fault.Delivered? then w.Turn().market else None)
  }

  function ReadCustomName(w: World): (World, Option<string>) {
    (w.Wake(), if w.Turn().fault.Delivered? then w.Turn().customName else None)
  }

  function ReadIngress(w: World, name: string): (World, IngressRead) {
    (w.Wake(), if w.Turn().fault.Delivered? then w.Turn().ingress(name) else Failed)
  }

  /** The reads that only describe a release (pods, services, volumes, values, access information). */
  function ReadDetails(w: World): (World, bool) {
    (w.Wake(), w.Turn().fault.Delivered?)
  }

  // ---- calls that write ------------------------------------------------------------------------

  /** `uuid.NewString`: the next value of the source. */
  function Mint(w: World): (World, string) {
    (w.(minted := w.minted + 1), w.env.uuid(w.minted))
  }

  /** `HttpRequest`: any HTTP answer is a success; only the transport can fail. */
  function Post(w: World, e: Event): (World, bool) {
    var t, w1 := w.Turn(), w.Wake();
    if t.fault.LostRequest? then (w1, false)
    else (w1.(log := w1.log + [Acked(e, t.fault.Delivered?)]), t.fault.Delivered?)
  }

  /** A write that replaces the record uses what was minted for it. */
  function NamedBy(writer: Writer, basis: Version, minted: nat): nat {
    if writer.First? || writer.Existing? then minted else basis.named
  }

  /** `r.Status().Update`: accepted only when the copy is at the current version. */
  function UpdateStatus(w: World, copy: Copy, writer: Writer): (World, Copy, bool) {
    var t, w1 := w.Turn(), w.Wake();
    if t.fault.LostRequest? || copy.version != |w1.past| then (w1, copy, false)
    else
      var named := NamedBy(writer, w1.current, w1.minted);
      var w2 := w1.(past := w1.History(), current := Version(w1.current.spec, copy.status, writer, |w1.log|, named));
      if t.fault.LostReply? then (w2, copy, false) else (w2, copy.(version := |w2.past|), true)
  }

  function Bump(helm: seq<Release>, key: Key, hosted: bool, about: string): (r: seq<Release>)
    ensures |r| == |helm|
  {
    seq(|helm|, i requires 0 <= i < |helm| =>
      if ReleaseKey(helm[i]) == key
      then helm[i].(revision := helm[i].revision + 1, hosted := hosted, about := about)
      else helm[i])
  }

  /** `helm.Upgrade`: a new revision of an existing release. An upgrade that fails half-way still leaves one. */
  function Upgrade(w: World, h: HelmInstall): (World, bool) {
    var t, w1 := w.Turn(), w.Wake();
    if t.fault.LostRequest? || InstallKey(h) !in Keys(w1.helm) then (w1, false)
    else
      (w1.(helm := Bump(w1.helm, InstallKey(h), t.hosted, t.about),
           log := w1.log + [Upgraded(h, t.fault.Delivered?)]),
       t.fault.Delivered?)
  }

  /** `helm.Apply`: installs revision 1; a name in use is refused. */
  function Apply(w: World, key: Key): (World, bool) {
    var t, w1 := w.Turn(), w.Wake();
    if t.fault.LostRequest? || key in Keys(w1.helm) then (w1, false)
    else
      (w1.(helm := w1.helm + [Release(key.namespace, key.name, 1, t.hosted, t.about)],
           log := w1.log + [Installed(key, t.fault.Delivered?)]),
       t.fault.Delivered?)
  }

  function Without(helm: seq<Release>, key: Key): (r: seq<Release>)
    ensures forall x :: x in r <==> x in helm && ReleaseKey(x) != key
  {
    if helm == [] then []
    else if ReleaseKey(helm[0]) == key then Without(helm[1..], key)
    else [helm[0]] + Without(helm[1..], key)
  }

  /** `helm.DeleteRelease`: an unknown name is an error. */
  function Delete(w: World, key: Key): (World, bool) {
    var t, w1 := w.Turn(), w.Wake();
    if t.fault.LostRequest? || key !in Keys(w1.helm) then (w1, false)
    else
      (w1.(helm := Without(w1.helm, key), log := w1.log + [Deleted(key, t.fault.Delivered?)]),
       t.fault.Delivered?)
  }
}
