/**
 * The DNS step by itself: how long it waits for an address, what a failure half-way leaves behind,
 * and when it blocks every later reconcile.
 */
module Dns {
  import opened Api
  import Convergence
  import opened IngressValues
  import opened Reconciliation
  import opened Guarantees
  import opened Rounds
  import opened SafeRuns
  import opened Safety
  import opened Text
  import opened Utils
  import opened World

  // ---- waiting for the load balancer -----------------------------------------------------------

  /** What the cluster answers when the ingress is read `i` calls from now. */
  ghost function AnswerAt(w: World, ingressName: string, i: nat): IngressRead {
    var t := w.env.turn(w.clock + i);
    if t.fault.Delivered? then t.ingress(ingressName) else Failed
  }

  /** `calls` reads were made: only the last one may have had an answer, and it decides the outcome. */
  ghost predicate Waited(w: World, ingressName: string, budget: nat, calls: int, address: Option<IngressRead>) {
    && 1 <= calls <= budget
    && (forall i: nat | i < calls - 1 :: AnswerAt(w, ingressName, i).NoAddress?)
    && var last := AnswerAt(w, ingressName, calls - 1);
       && address == (if last.Address? then Some(last) else None)
       && (last.NoAddress? ==> calls == budget)
  }

  lemma OneMoreWait(w: World, w1: World, ingressName: string, budget: nat, calls: int, address: Option<IngressRead>)
    requires w1.env == w.env && w1.clock == w.clock + 1 && AnswerAt(w, ingressName, 0).NoAddress?
    requires Waited(w1, ingressName, budget, calls, address)
    ensures Waited(w, ingressName, budget + 1, calls + 1, address)
  {
    forall i: nat | 1 <= i < calls + 1
      ensures AnswerAt(w, ingressName, i) == AnswerAt(w1, ingressName, i - 1)
    {
    }
  }

  /** The loop stops at the first answer that is not empty, or after `MAX_RETRIES` empty ones. */
  lemma {:induction false} WaitStopsAtFirstAnswer(w: World, ingressName: string, retryCount: nat)
    requires retryCount < MAX_RETRIES
    ensures var (w1, address) := AwaitAddress(w, ingressName, retryCount);
            w1.log == w.log && Waited(w, ingressName, MAX_RETRIES - retryCount, w1.clock - w.clock, address)
    decreases MAX_RETRIES - retryCount
  {
    var (w1, ing) := ReadIngress(w, ingressName);
    assert ing == AnswerAt(w, ingressName, 0);
    if ing.NoAddress? && retryCount + 1 < MAX_RETRIES {
      hide Waited;
      WaitStopsAtFirstAnswer(w1, ingressName, retryCount + 1);
      var (w2, address) := AwaitAddress(w1, ingressName, retryCount + 1);
      OneMoreWait(w, w1, ingressName, MAX_RETRIES - retryCount - 1, w2.clock - w1.clock, address);
    }
  }

  /** The `k`-th answer is the first that is not empty, and it is an address. */
  ghost predicate AddressAt(w: World, ingressName: string, k: nat) {
    AnswerAt(w, ingressName, k).Address? && forall i: nat | i < k :: AnswerAt(w, ingressName, i).NoAddress?
  }

  /** At most four empty answers before a success; five and the step fails. */
  lemma FiveEmptyAnswersFail(w: World, ingressName: string)
    ensures var (w1, address) := AwaitAddress(w, ingressName, 0);
            && (address.Some? <==> exists k: nat | k <= 4 :: AddressAt(w, ingressName, k))
            && ((forall i: nat | i < 5 :: AnswerAt(w, ingressName, i).NoAddress?) ==> w1.clock == w.clock + 5)
  {
    hide AwaitAddress, AnswerAt;
    WaitStopsAtFirstAnswer(w, ingressName, 0);
    var last: nat := AwaitAddress(w, ingressName, 0).0.clock - w.clock - 1;
    if AnswerAt(w, ingressName, last).Address? {
      assert AddressAt(w, ingressName, last);
    }
    if k: nat :| k <= 4 && AddressAt(w, ingressName, k) {
      assert k == last by {
        assert k < last ==> AnswerAt(w, ingressName, k).NoAddress?;
        assert last < k ==> AnswerAt(w, ingressName, last).NoAddress?;
      }
    }
  }

  // ---- the upgrades ----------------------------------------------------------------------------

  /** From log `a` to log `b`: upgrades of the first few declared releases, in order, to the new name. */
  ghost predicate UpgradedPrefix(a: seq<Event>, b: seq<Event>, installs: seq<HelmInstall>, host: string) {
    && a <= b && |b| - |a| <= |installs|
    && forall i: nat | |a| <= i < |b| :: b[i].Upgraded? && b[i].install == Tweaked(installs[i - |a|], host)
  }

  lemma OneMoreUpgrade(a: seq<Event>, e: Event, b: seq<Event>, installs: seq<HelmInstall>, host: string)
    requires installs != [] && e.Upgraded? && e.install == Tweaked(installs[0], host)
    requires UpgradedPrefix(a + [e], b, installs[1..], host)
    ensures UpgradedPrefix(a, b, installs, host)
  {
    hide Tweaked;
    assert b[|a|] == e;
    forall i: nat | |a| < i < |b|
      ensures b[i].Upgraded? && b[i].install == Tweaked(installs[i - |a|], host)
    {
      assert installs[1..][i - |a + [e]|] == installs[i - |a|];
    }
  }

  /**
   * Whatever fails, the upgrades that reached Helm are those of a prefix of the declared releases, in
   * order and with the new name; a success means all of them.
   */
  lemma {:induction false} UpgradesArePrefix(w: World, copy: Copy, installs: seq<HelmInstall>, host: string)
    ensures var (w1, _, ok) := UpgradeAll(w, copy, installs, host);
            && UpgradedPrefix(w.log, w1.log, installs, host)
            && (ok ==> |w1.log| - |w.log| == |installs|)
    decreases |installs|
  {
    hide UpgradedPrefix, Tweaked;
    NoUpgrade(w.log, installs, host);
    if installs != [] {
      var (w1, upgraded) := Upgrade(w, Tweaked(installs[0], host));
      var marked := copy.(status := copy.status.(dnsUpdated := true));
      var (w2, copy2, updated) := UpdateStatus(w1, marked, DnsDone);
      if w1.log != w.log {
        var e := w1.log[|w.log|];
        NoUpgrade(w2.log, installs[1..], host);
        OneMoreUpgrade(w.log, e, w2.log, installs, host);
        if upgraded && updated {
          UpgradesArePrefix(w2, copy2, installs[1..], host);
          OneMoreUpgrade(w.log, e, UpgradeAll(w2, copy2, installs[1..], host).0.log, installs, host);
        }
      }
    }
  }

  lemma NoUpgrade(log: seq<Event>, installs: seq<HelmInstall>, host: string)
    ensures UpgradedPrefix(log, log, installs, host)
  {
  }

  // ---- does the mark mean that everything was upgraded? ----------------------------------------

  /** The declared releases all amount to one and the same upgrade, whatever the name. */
  ghost predicate SameUpgrade(installs: seq<HelmInstall>) {
    forall h | h in installs :: Tweaked(h, "") == Tweaked(installs[0], "")
  }

  lemma TweakedAlike(a: HelmInstall, b: HelmInstall, first: string, second: string)
    requires Tweaked(a, first) == Tweaked(b, first)
    ensures Tweaked(a, second) == Tweaked(b, second)
  {
    hide Tweak;
    TweakAbsorbs(a.values, first, second);
    TweakAbsorbs(b.values, first, second);
    assert Tweaked(a, second) == Tweaked(a, first).(values := Tweak(a.values, second));
    assert Tweaked(b, second) == Tweaked(b, first).(values := Tweak(b.values, second));
  }

  ghost predicate Unedited(env: Environment) {
    forall t: nat :: env.turn(t).edit.None?
  }

  /** Every declared release was upgraded to some announced name. */
  ghost predicate AllUpgraded(w: World) {
    forall h | h in w.current.spec.helm :: exists name :: Upgraded(Tweaked(h, name), true) in w.log
  }

  function Fixed(spec: Spec): Watch {
    ANY.(fixed := Some(spec))
  }

  /** In a run without edits every version has the spec of the first. */
  lemma UneditedKeepsSpec(w: World, n: nat)
    requires Created(w) && Lawful(w.env) && Unedited(w.env)
    ensures Safe(Run(w, n), Fixed(w.current.spec))
    ensures forall i | 0 <= i < |Run(w, n).History()| :: Run(w, n).History()[i].spec == w.current.spec
  {
    CreatedIsSafe(w, Fixed(w.current.spec));
    SafeRun(w, n, Fixed(w.current.spec));
    FixedSpec(Run(w, n), w.current.spec);
  }

  lemma FixedSpec(w: World, spec: Spec)
    requires Safe(w, Fixed(spec))
    ensures forall i | 0 <= i < |w.History()| :: w.History()[i].spec == spec
  {
    forall i | 0 <= i < |w.History()|
      ensures w.History()[i].spec == spec
    {
      assert SpecKeeps(Fixed(spec), i, w.History()[i].spec);
    }
  }

  lemma MarkMeansAll(w: World, n: nat)
    requires Created(w) && Lawful(w.env) && Unedited(w.env) && SameUpgrade(w.current.spec.helm)
    requires Run(w, n).current.status.dnsUpdated
    ensures AllUpgraded(Run(w, n))
  {
    hide Created, Safe, Run, Tweaked, Lawful, Unedited, StatusOk;
    UneditedKeepsSpec(w, n);
    var end := Run(w, n);
    var spec := w.current.spec;
    assert end.History()[|end.past|] == end.current;
    DnsMarkIsEarned(w, n, |end.past|);
    var v: nat :| v <= |end.past| &&
      DnsEvidence(end.log, end.History()[v].at, end.current.status.clusterUUID, end.History()[v].spec);
    var p: nat, q: nat :|
      p < q < |end.log| && end.log[p].Dns? && end.log[q] == Upgraded(Tweaked(spec.helm[0], end.log[p].name), true);
    forall h | h in spec.helm
      ensures exists name :: Upgraded(Tweaked(h, name), true) in end.log
    {
      TweakedAlike(h, spec.helm[0], "", end.log[p].name);
      assert end.log[q] in end.log;
    }
  }

  /** A stopped operator never sets the mark. */
  lemma {:induction false} StoppedNeverMarks(w: World, n: nat)
    requires Created(w) && Lawful(w.env) && Unedited(w.env) && w.current.spec.stop
    ensures Run(w, n).current.status == EMPTY_STATUS
  {
    hide Safe, Unedited, Lawful;
    if n > 0 {
      StoppedNeverMarks(w, n - 1);
      UneditedKeepsSpec(w, n - 1);
      StoppedKeepsStatus(Run(w, n - 1), w.current.spec);
    }
  }

  lemma StoppedKeepsStatus(w: World, spec: Spec)
    requires Safe(w, Fixed(spec)) && spec.stop
    ensures Reconcile(w).0.current.status == w.current.status
  {
    hide Safe, InstallAll, HandleReconciliation;
    SafeWake(w, Fixed(spec));
    SafeGet(w, Fixed(spec));
    var (w1, copy) := Get(w);
    if copy.Some? {
      FixedSpec(w1, spec);
      SafeInstallAll(w1, copy.value.spec.helm, Fixed(spec));
    }
  }

  // ---- a run that upgrades the first declared release only -------------------------------------

  /** A name that is none of `names`. */
  function NewName(names: seq<string>): (r: string)
    ensures forall x | x in names :: |x| < |r|
  {
    if names == [] then "x" else names[0] + NewName(names[1..])
  }

  /** Two requests are lost, at ticks 2 and 12. Otherwise all calls are answered and nobody interferes. */
  function TwoGlitches(market: string): Environment {
    Environment(
      (t: nat) => Turn(if t == 2 || t == 12 then LostRequest else Delivered, h => h, None, 0, [market],
                       _ => NotFound, Some(market), Some(""), _ => Address("ip", ""), false, ""),
      (m: nat) => "u")
  }

  function FirstDeclared(spec: Spec): Release
    requires spec.helm != []
  {
    Release(spec.helm[0].namespace, spec.helm[0].releaseName, 1, false, "")
  }

  function Market(spec: Spec): string
    requires spec.helm != []
  {
    NewName(spec.denyNamespaces + [spec.helm[0].namespace])
  }

  /** A created resource; an application and the first declared release are installed. */
  function Glitched(spec: Spec): World
    requires spec.helm != []
  {
    World(TwoGlitches(Market(spec)), 0, 0, [], Version(spec, EMPTY_STATUS, User, 0, 0),
          [Release(Market(spec), "app", 1, false, ""), FirstDeclared(spec)], [])
  }

  const CLAIMED := EMPTY_STATUS.(clusterUUID := "K-u")
  const MARKED := CLAIMED.(dnsUpdated := true)

  lemma GlitchedIsCreated(spec: Spec)
    requires spec.helm != []
    ensures Created(Glitched(spec)) && Lawful(Glitched(spec).env) && Unedited(Glitched(spec).env)
    ensures Market(spec) !in spec.denyNamespaces && Market(spec) != spec.helm[0].namespace
  {
    var names := spec.denyNamespaces + [spec.helm[0].namespace];
    assert spec.helm[0].namespace in names && forall x | x in spec.denyNamespaces :: x in names;
  }

  /** The first reconcile claims the resource and fails at tick 2. */
  function Claimed(spec: Spec): World
    requires spec.helm != []
  {
    Glitched(spec).(clock := 3, minted := 1, past := [Version(spec, EMPTY_STATUS, User, 0, 0)],
                    current := Version(spec, CLAIMED, Claim, 0, 0))
  }

  lemma FirstReconcileClaims(spec: Spec)
    requires spec.helm != [] && !spec.stop
    ensures Reconcile(Glitched(spec)).0 == Claimed(spec)
  {
    hide NewName, HandleNewCluster, Collect;
    var w := Glitched(spec);
    assert w.History() == [w.current];
    assert "K-" + "u" == "K-u";
    var w1 := w.(clock := 1);
    var copy := Copy(spec, EMPTY_STATUS, 0);
    assert Get(w) == (w1, Some(copy));
    var w2 := w1.(minted := 1);
    var named := copy.(status := CLAIMED);
    assert [] + [w.current] == [w.current];
    assert UpdateStatus(w2, named, Claim) == (Claimed(spec).(clock := 2), named.(version := 1), true);
    assert HasRelease(Claimed(spec).(clock := 2), INGRESS_CHART) == (Claimed(spec), None);
  }

  lemma FailureStops(w: World, copy: Copy, r: Release)
    requires CollectRelease(w, copy, r).2.None?
    ensures CollectReleases(w, copy, [r], []).0 == CollectRelease(w, copy, r).0
    ensures CollectReleases(w, copy, [r], []).2.None?
  {
    hide CollectRelease;
    assert [r][0] == r;
  }

  lemma FailureStopsListing(w: World, w1: World, copy: Copy, namespace: string, r: Release)
    requires ListReleases(w, namespace) == (w1, Some([r])) && CollectRelease(w1, copy, r).2.None?
    ensures CollectNamespaces(w, copy, [namespace], []).0 == CollectRelease(w1, copy, r).0
    ensures CollectNamespaces(w, copy, [namespace], []).2.None?
  {
    FailureStops(w1, copy, r);
    hide ListReleases, CollectRelease, CollectReleases;
    assert [namespace][0] == namespace;
  }

  /** A collection that lists one release, which fails. */
  lemma OneReleaseFails(w: World, w1: World, w2: World, copy: Copy, namespace: string, r: Release)
    requires ListNamespaces(w) == (w1, Some([namespace])) && namespace !in copy.spec.denyNamespaces
    requires ListReleases(w1, namespace) == (w2, Some([r])) && CollectRelease(w2, copy, r).2.None?
    ensures Collect(w, copy).0 == CollectRelease(w2, copy, r).0 && Collect(w, copy).2.None?
  {
    hide ListNamespaces, ListReleases, CollectRelease, CollectNamespaces, Allowed;
    AllowedMarket(namespace, copy.spec.denyNamespaces);
    FailureStopsListing(w1, w2, copy, namespace, r);
  }

  /** Ticks 3 to 6: the copy, the namespaces and the releases of the market namespace are read. */
  lemma MarketIsRead(spec: Spec)
    requires |spec.helm| > 1
    ensures var w, market := Claimed(spec), Market(spec);
            && Get(w) == (w.(clock := 4), Some(Copy(spec, CLAIMED, 1)))
            && ListNamespaces(w.(clock := 4)) == (w.(clock := 5), Some([market]))
            && ListReleases(w.(clock := 5), market) == (w.(clock := 6), Some([w.helm[0]]))
  {
    hide NewName, InNamespace;
    var w := Claimed(spec);
    GlitchedIsCreated(spec);
    assert w.History()[1] == w.current;
    OneIsListed(Market(spec), w.helm[0], FirstDeclared(spec));
    assert w.helm == [w.helm[0], FirstDeclared(spec)];
  }

  lemma AppFails(spec: Spec) returns (host: string)
    requires |spec.helm| > 1
    ensures var w := Claimed(spec);
            var (end, _, info) := CollectRelease(w.(clock := 6), Copy(spec, CLAIMED, 1), w.helm[0]);
            && info.None? && end.current.status.dnsUpdated && end.current.spec == spec
            && |end.log| == 2 && end.log[0].Dns? && end.log[1] == Upgraded(Tweaked(spec.helm[0], host), true)
  {
    hide NewName, ToLower, Tweak, GetDns;
    var w, copy := Claimed(spec).(clock := 6), Copy(spec, CLAIMED, 1);
    var appUUID := "A-" + "u";
    host := HostName(appUUID);
    assert GetHelmInfo(w, copy, w.helm[0]) == (w.(minted := 2), Info(w.helm[0], appUUID));
    SecondUpgradeIsLost(spec, w.(minted := 2), copy, appUUID);
  }

  /** The second one announces the name, upgrades the first declared release and fails at tick 12. */
  lemma SecondReconcileMarks(spec: Spec) returns (host: string)
    requires !spec.stop && |spec.helm| > 1
    ensures var end := Reconcile(Claimed(spec)).0;
            && end.current.status.dnsUpdated && end.current.spec == spec
            && |end.log| == 2 && end.log[0].Dns? && end.log[1] == Upgraded(Tweaked(spec.helm[0], host), true)
  {
    hide Get, ListNamespaces, ListReleases, CollectRelease, Collect, Market, HandleExistingCluster;
    var w, copy := Claimed(spec), Copy(spec, CLAIMED, 1);
    GlitchedIsCreated(spec);
    MarketIsRead(spec);
    host := AppFails(spec);
    OneReleaseFails(w.(clock := 4), w.(clock := 5), w.(clock := 6), copy, Market(spec), w.helm[0]);
  }

  lemma OneIsListed(namespace: string, a: Release, b: Release)
    requires a.namespace == namespace != b.namespace
    ensures InNamespace([a, b], namespace) == [a]
  {
    assert [a, b][1..] == [b] && [b][1..] == [] && InNamespace([b], namespace) == [];
  }

  lemma AllowedMarket(market: string, denied: seq<string>)
    requires market !in denied
    ensures Allowed([market], denied) == [market]
  {
    assert [market][..0] == [] && Allowed([], denied) == [];
  }

  /** Ticks 6 to 9: the market, the custom name and the ingress are read, and the record is accepted. */
  lemma RecordIsAccepted(spec: Spec, w: World, copy: Copy, appUUID: string) returns (record: Event)
    requires spec.helm != [] && w.env == TwoGlitches(Market(spec)) && w.clock == 6 && w.log == []
    requires copy.spec == spec
    ensures record.Dns?
    ensures GetDns(w, copy, Market(spec), appUUID)
         == UpgradeAll(w.(clock := 10, log := [record]), copy, spec.helm, HostName(appUUID))
  {
    hide Market, ToLower, UpgradeAll;
    var ing := Address("ip", "");
    var w9 := w.(clock := 9);
    assert AwaitAddress(w.(clock := 8), Market(spec), 0) == (w9, Some(ing));
    record := Acked(DnsRecord(copy, ing, appUUID), true);
    assert w9.log + [record] == [record];
    assert Post(w9, DnsRecord(copy, ing, appUUID)) == (w.(clock := 10, log := [record]), true);
  }

  /** From tick 6 on: market, custom name, ingress, record, upgrade, mark, and a lost upgrade. */
  lemma SecondUpgradeIsLost(spec: Spec, w: World, copy: Copy, appUUID: string)
    requires |spec.helm| > 1 && w.env == TwoGlitches(Market(spec)) && w.clock == 6 && w.log == []
    requires w.past == [Version(spec, EMPTY_STATUS, User, 0, 0)] && w.current == Version(spec, CLAIMED, Claim, 0, 0)
    requires w.helm == [Release(Market(spec), "app", 1, false, ""), FirstDeclared(spec)]
    requires copy == Copy(spec, CLAIMED, 1)
    ensures var (end, _, ok) := GetDns(w, copy, Market(spec), appUUID);
            && !ok && end.current.status.dnsUpdated && end.current.spec == spec
            && |end.log| == 2 && end.log[0].Dns?
            && end.log[1] == Upgraded(Tweaked(spec.helm[0], HostName(appUUID)), true)
  {
    hide NewName, ToLower, Tweak, Bump;
    var host := HostName(appUUID);
    var record := RecordIsAccepted(spec, w, copy, appUUID);
    var w10 := w.(clock := 10, log := [record]);
    assert w10.helm[1] in w10.helm && ReleaseKey(w10.helm[1]) == InstallKey(spec.helm[0]);
    var (w11, upgraded) := Upgrade(w10, Tweaked(spec.helm[0], host));
    assert upgraded && w11.clock == 11 && w11.log == [record, Upgraded(Tweaked(spec.helm[0], host), true)];
    var marked := copy.(status := MARKED);
    var (w12, copy12, updated) := UpdateStatus(w11, marked, DnsDone);
    assert updated && w12.clock == 12 && w12.current.status == MARKED && w12.log == w11.log;
    var rest := spec.helm[1..];
    assert !Upgrade(w12, Tweaked(rest[0], host)).1;
    assert UpgradeAll(w12, copy12, rest, host).0 == w12.(clock := 13);
  }

  lemma GlitchedMarks(spec: Spec) returns (host: string)
    requires !spec.stop && |spec.helm| > 1
    ensures var w, start := Glitched(spec), Run(Glitched(spec), 2);
            && Created(w) && Lawful(w.env) && Unedited(w.env) && w.current.spec == spec
            && start.env == w.env && start.current.status.dnsUpdated && |start.log| == 2 && start.log[0].Dns?
            && start.log[1] == Upgraded(Tweaked(spec.helm[0], host), true)
  {
    hide Glitched, Claimed, Reconcile, Created, Lawful, Unedited, Tweaked;
    GlitchedIsCreated(spec);
    GlitchedReadsAreFresh(spec);
    FirstReconcileClaims(spec);
    host := SecondReconcileMarks(spec);
    var w := Glitched(spec);
    assert Run(w, 2) == Reconcile(Run(w, 1)).0 && Run(w, 1) == Reconcile(Run(w, 0)).0;
    RunIsSafe(w, 2);
  }

  /** So the mark stays, and nothing but the first declared release is ever upgraded. */
  lemma GlitchedNeverRecovers(spec: Spec, n: nat)
    requires !spec.stop && !SameUpgrade(spec.helm) && n >= 2
    ensures var end := Run(Glitched(spec), n);
            end.current.status.dnsUpdated && end.current.spec == spec && !AllUpgraded(end)
  {
    hide Glitched, Created, Lawful, Unedited, Tweaked, Reconcile, SameUpgrade, AllUpgraded;
    SomeDiffer(spec);
    GlitchedReadsAreFresh(spec);
    var w := Glitched(spec);
    var host := GlitchedMarks(spec);
    var start, end := Run(w, 2), Run(w, n);
    Convergence.RunAdds(w, 2, n - 2);
    MarkedRunLeavesDnsAlone(w, 2, n - 2);
    UneditedKeepsSpec(w, n);
    assert end.History()[|end.past|] == end.current;
    RunIsSafe(w, 2);
    SafeRun(start, n - 2, ANY);
    MarkStays(start, end);
    OnlyFirstUpgraded(spec, start, end, host);
  }

  /** That run has lost its registration: DNS requests go out for a cluster that is never registered. */
  lemma GlitchedIsNeverRegistered(spec: Spec, n: nat)
    requires !spec.stop && |spec.helm| > 1 && n >= 2
    ensures var log := Run(Glitched(spec), n).log;
            |log| > 0 && log[0].Dns? && forall j | 0 <= j < |log| :: !log[j].Register?
  {
    hide Glitched, Run, Created, Lawful, Unedited, Tweaked, Safe, StatusOk;
    var w := Glitched(spec);
    var host := GlitchedMarks(spec);
    var start, end := Run(w, 2), Run(w, n);
    Convergence.RunAdds(w, 2, n - 2);
    RunIsSafe(w, 2);
    MarkedHasUUID(start);
    RunRegistersNothing(w, 2, n - 2);
    forall j | 0 <= j < |end.log|
      ensures !end.log[j].Register?
    {
      assert j < 2 ==> end.log[j] == start.log[j];
    }
  }

  lemma SomeDiffer(spec: Spec)
    requires !SameUpgrade(spec.helm)
    ensures |spec.helm| > 1
  {
  }

  lemma GlitchedReadsAreFresh(spec: Spec)
    requires spec.helm != []
    ensures forall t: nat :: Glitched(spec).env.turn(t).lag == 0
    ensures Glitched(spec).current.spec == spec
  {
  }

  lemma OnlyFirstUpgraded(spec: Spec, start: World, end: World, host: string)
    requires !SameUpgrade(spec.helm) && end.current.spec == spec && LeavesDnsAlone(start, end)
    requires |start.log| == 2 && start.log[0].Dns? && start.log[1] == Upgraded(Tweaked(spec.helm[0], host), true)
    ensures !AllUpgraded(end)
  {
    hide Tweaked;
    var h :| h in spec.helm && Tweaked(h, "") != Tweaked(spec.helm[0], "");
    forall name
      ensures Upgraded(Tweaked(h, name), true) !in end.log
    {
      if j :| 0 <= j < |end.log| && end.log[j] == Upgraded(Tweaked(h, name), true) {
        assert j < 2 && end.log[j] == start.log[j];
        UpgradedAlike(h, spec.helm[0], name, host);
      }
    }
  }

  /** Values tweaked to any two names agree only when they always agree. */
  lemma UpgradedAlike(a: HelmInstall, b: HelmInstall, first: string, second: string)
    requires Tweaked(a, first) == Tweaked(b, second)
    ensures Tweaked(a, "") == Tweaked(b, "")
  {
    hide Tweak;
    TweakAbsorbs(a.values, first, "");
    TweakAbsorbs(b.values, second, "");
    assert Tweaked(a, "") == Tweaked(a, first).(values := Tweak(a.values, ""));
    assert Tweaked(b, "") == Tweaked(b, second).(values := Tweak(b.values, ""));
  }

  /** In every run from a created resource with this spec and no edits, the mark means that all was upgraded. */
  ghost predicate MarkIsReliable(spec: Spec) {
    forall w: World, n: nat |
      && Created(w) && Lawful(w.env) && Unedited(w.env) && w.current.spec == spec
      && Run(w, n).current.status.dnsUpdated ::
      AllUpgraded(Run(w, n))
  }

  /**
   * That is so exactly when the operator is stopped or the declared releases all amount to the same
   * upgrade; in particular when there is at most one. Otherwise there is a run in which the mark is
   * set and a declared release is never upgraded, however long it goes on.
   */
  lemma MarkIsReliableExactly(spec: Spec)
    ensures MarkIsReliable(spec) <==> spec.stop || SameUpgrade(spec.helm)
    ensures |spec.helm| <= 1 ==> SameUpgrade(spec.helm)
  {
    FewAreSame(spec);
    hide Run, Created, Lawful, Unedited, AllUpgraded, SameUpgrade, Glitched;
    if spec.stop || SameUpgrade(spec.helm) {
      forall w: World, n: nat |
        && Created(w) && Lawful(w.env) && Unedited(w.env) && w.current.spec == spec
        && Run(w, n).current.status.dnsUpdated
        ensures AllUpgraded(Run(w, n))
      {
        if spec.stop {
          StoppedNeverMarks(w, n);
        } else {
          MarkMeansAll(w, n);
        }
      }
    } else {
      GlitchedIsCreated(spec);
      GlitchedReadsAreFresh(spec);
      GlitchedNeverRecovers(spec, 2);
      assert !AllUpgraded(Run(Glitched(spec), 2));
    }
  }

  lemma FewAreSame(spec: Spec)
    ensures |spec.helm| <= 1 ==> SameUpgrade(spec.helm)
    ensures !SameUpgrade(spec.helm) ==> spec.helm != []
  {
  }
}
