/**
 * A run in which two applications get one UUID: both are hosted, their namespaces differ, and neither
 * namespace's secret can be read. The first reconcile records them, and fails while reporting.
 */
module Twins {
  import opened Api
  import opened Reconciliation
  import opened Safety
  import opened Sorting
  import opened Text
  import opened Utils
  import opened World

  const NAMES := ["shop", "store"]
  const ONE := Release("shop", "web", 1, true, "")
  const TWO := Release("store", "web", 1, true, "")
  const INFO1 := HelmInfo("web", "shop", "A-", 1, "", true)
  const INFO2 := HelmInfo("web", "store", "A-", 1, "", true)
  const SPEC := Spec(false, false, false, [], [])
  const CLAIMED := Status("K-u", [], [], false)

  /** Only the request at tick 14 is lost. */
  function Unread(): Environment {
    Environment(
      (t: nat) => Turn(if t == 14 then LostRequest else Delivered, h => h, None, 0, NAMES,
                       _ => Unreadable, Some("market"), Some(""), _ => Address("ip", ""), false, ""),
      (m: nat) => "u")
  }

  function Start(): World {
    World(Unread(), 0, 0, [], Version(SPEC, EMPTY_STATUS, User, 0, 0), [ONE, TWO], [])
  }

  lemma StartIsCreated()
    ensures Created(Start()) && Lawful(Start().env)
  {
  }

  /** Ticks 0 to 3: read, claimed, no ingress, registered. */
  function Registered(): World {
    Start().(clock := 4, minted := 1, past := [Start().current], current := Version(SPEC, CLAIMED, Claim, 0, 0),
             log := [Register("K-u", 1, true)])
  }

  lemma ClusterIsRegistered()
    ensures var copy, claimed := Copy(SPEC, CLAIMED, 1), Registered().(clock := 2, log := []);
            && Get(Start()) == (Start().(clock := 1), Some(Copy(SPEC, EMPTY_STATUS, 0)))
            && UpdateStatus(Start().(clock := 1, minted := 1), Copy(SPEC, CLAIMED, 0), Claim) == (claimed, copy, true)
            && HandleIngress(claimed, copy) == (claimed.(clock := 3), true)
            && Post(claimed.(clock := 3), Register("K-u", 1, false)) == (Registered(), true)
  {
    assert Start().History() == [Start().current];
    assert [] + [Start().current] == [Start().current];
    assert forall r :: r in [ONE, TWO] <==> r == ONE || r == TWO;
    assert [] + [Register("K-u", 1, true)] == [Register("K-u", 1, true)];
  }

  lemma TwinRelease(w: World, copy: Copy, r: Release)
    requires w.env == Unread() && !(w.clock <= 14 < w.clock + 3) && copy.status == CLAIMED
    requires r.hosted && r.revision == 1 && r.about == "" && r.namespace != "market"
    ensures CollectRelease(w, copy, r)
         == (w.(clock := w.clock + 3, minted := w.minted + 1), copy,
             Some(Twin(r)))
  {
    assert "A-" + "" == "A-";
    var w1 := w.(minted := w.minted + 1);
    assert GetHelmInfo(w, copy, r) == (w1, Info(r, "A-" + "u"));
    var w2 := w1.(clock := w1.clock + 1);
    var info := HelmInfo(r.name, r.namespace, "A-", 1, "", true);
    assert ApplySecret(w1, r, Info(r, "A-" + "u")) == (w2, info);
    assert GetDns(w2, copy, r.namespace, "A-") == (w2.(clock := w2.clock + 1), copy, true);
  }

  function Twin(r: Release): HelmInfo {
    HelmInfo(r.name, r.namespace, "A-", 1, "", true)
  }

  lemma TwinReleases(w: World, copy: Copy, r: Release, infos: seq<HelmInfo>)
    requires w.env == Unread() && !(w.clock <= 14 < w.clock + 3) && copy.status == CLAIMED
    requires r.hosted && r.revision == 1 && r.about == "" && r.namespace != "market"
    ensures CollectReleases(w, copy, [r], infos)
         == (w.(clock := w.clock + 3, minted := w.minted + 1), copy, Some(infos + [Twin(r)]))
  {
    hide CollectRelease, Unread;
    TwinRelease(w, copy, r);
    assert [r][0] == r && [r][1..] == [];
    NoReleases(w.(clock := w.clock + 3, minted := w.minted + 1), copy, infos + [Twin(r)]);
  }

  lemma NoReleases(w: World, copy: Copy, infos: seq<HelmInfo>)
    ensures CollectReleases(w, copy, [], infos) == (w, copy, Some(infos))
  {
  }

  /** One namespace with one release. */
  lemma TwinNamespace(w: World, copy: Copy, r: Release, more: seq<string>, infos: seq<HelmInfo>)
    requires w.env == Unread() && !(w.clock <= 14 < w.clock + 4) && copy.status == CLAIMED
    requires r.hosted && r.revision == 1 && r.about == "" && r.namespace != "market"
    requires InNamespace(w.helm, r.namespace) == [r]
    ensures CollectNamespaces(w, copy, [r.namespace] + more, infos)
         == CollectNamespaces(w.(clock := w.clock + 4, minted := w.minted + 1), copy, more, infos + [Twin(r)])
  {
    hide CollectReleases, ListReleases, InNamespace, Unread;
    var namespaces := [r.namespace] + more;
    assert namespaces[0] == r.namespace && namespaces[1..] == more;
    OneListed(w, r);
    TwinReleases(w.(clock := w.clock + 1), copy, r, infos);
  }

  lemma OneListed(w: World, r: Release)
    requires w.env == Unread() && w.clock != 14 && InNamespace(w.helm, r.namespace) == [r]
    ensures ListReleases(w, r.namespace) == (w.(clock := w.clock + 1), Some([r]))
  {
  }

  lemma Listings()
    ensures InNamespace([ONE, TWO], "shop") == [ONE] && InNamespace([ONE, TWO], "store") == [TWO]
    ensures Allowed(NAMES, []) == NAMES
  {
    assert [ONE, TWO][1..] == [TWO] && [TWO][1..] == [];
    assert InNamespace([TWO], "shop") == [] && InNamespace([TWO], "store") == [TWO];
    assert NAMES[..1] == ["shop"] && ["shop"][..0] == [] && Allowed(["shop"], []) == ["shop"];
  }

  /** Ticks 4 to 12. */
  lemma TwinCollect()
    ensures Collect(Registered(), Copy(SPEC, CLAIMED, 1))
         == (Registered().(clock := 13, minted := 3), Copy(SPEC, CLAIMED, 1), Some([INFO1, INFO2]))
  {
    hide CollectNamespaces, InNamespace, Allowed;
    var w, copy := Registered(), Copy(SPEC, CLAIMED, 1);
    Listings();
    assert ListNamespaces(w) == (w.(clock := 5), Some(NAMES));
    TwinNamespace(w.(clock := 5), copy, ONE, ["store"], []);
    assert ["shop"] + ["store"] == NAMES && [] + [INFO1] == [INFO1];
    TwinNamespace(w.(clock := 9, minted := 2), copy, TWO, [], [INFO1]);
    assert ["store"] + [] == ["store"] && [INFO1] + [INFO2] == [INFO1, INFO2];
    NoNamespaces(w.(clock := 13, minted := 3), copy, [INFO1, INFO2]);
  }

  lemma NoNamespaces(w: World, copy: Copy, infos: seq<HelmInfo>)
    ensures CollectNamespaces(w, copy, [], infos) == (w, copy, Some(infos))
  {
  }

  /** Ticks 13 and 14: recorded, and not reported. */
  lemma TwinRecord()
    ensures var recorded := Recorded(Copy(SPEC, CLAIMED, 1), [INFO1, INFO2]);
            var (w1, copy1, ok) := UpdateStatus(Registered().(clock := 13, minted := 3), recorded, First);
            && ok && w1.current.status.helmStatus == [INFO1, INFO2]
            && !RegisterApps(w1, copy1, [INFO1, INFO2]).1
            && RegisterApps(w1, copy1, [INFO1, INFO2]).0.current == w1.current
  {
    hide Sort;
  }

  /** Two recorded releases of different namespaces share one UUID. */
  lemma TwinsShareTheirUUID()
    ensures var infos := Run(Start(), 1).current.status.helmStatus;
            && Created(Start()) && Lawful(Start().env) && infos == [INFO1, INFO2]
            && infos[0].namespace != infos[1].namespace && infos[0].appUUID == infos[1].appUUID
  {
    hide Get, UpdateStatus, HandleIngress, Post, Collect, RegisterApps, Sort, Start, Registered;
    StartIsCreated();
    ClusterIsRegistered();
    TwinCollect();
    TwinRecord();
    MintU();
    assert Run(Start(), 0) == Start();
  }

  lemma MintU()
    ensures Mint(Start().(clock := 1)) == (Start().(clock := 1, minted := 1), "u") && "K-" + "u" == "K-u"
    ensures !SPEC.stop
  {
  }
}
