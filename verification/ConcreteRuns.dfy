/**
 * Two runs from a created resource, call by call. In one a read that lags behind makes the operator
 * report an application under another UUID: the version check refuses the write, but only after the
 * request was sent. In the other the first report is lost and never repeated.
 */
module ConcreteRuns {
  import opened Api
  import opened Convergence
  import opened Delivery
  import opened Growth
  import opened Reconciliation
  import opened Reports
  import opened Sorting
  import opened Text
  import opened World

  const NAMES := ["shop"]
  const SHOP := Release("shop", "web", 1, false, "")
  const WEB := HelmInfo("web", "shop", "A-first", 1, "", false)
  const CLAIMED := Status("K-cluster", [], [], false)
  const RECORDED := Status("K-cluster", [WEB], [1], false)

  /** Nobody interferes, each read is `lag` versions behind, and only the request at tick `lost` fails. */
  ghost predicate Shop(env: Environment, lag: nat, lost: int) {
    forall t: nat ::
      && env.turn(t).fault == (if t == lost then LostRequest else Delivered)
      && env.turn(t).edit.None? && env.turn(t).lag == lag
      && (forall h :: env.turn(t).others(h) == h)
      && env.turn(t).namespaces == NAMES && env.turn(t).market == Some("market")
      && env.turn(t).customName == Some("") && forall name :: env.turn(t).ingress(name) == Address("ip", "")
  }

  /** A created resource, neither stopped nor with anything enabled, next to one installed application. */
  ghost predicate Ready(w: World, lag: nat, lost: int) {
    && Created(w) && Shop(w.env, lag, lost) && w.helm == [SHOP]
    && !w.current.spec.stop && !w.current.spec.monitoring && !w.current.spec.ingress
    && w.current.spec.denyNamespaces == [] && w.current.spec.helm == []
    && w.env.uuid(w.minted) == "cluster" && w.env.uuid(w.minted + 1) == "first"
  }

  /** There is such a world. */
  function ShopWorld(lag: nat, lost: int): World {
    World(
      Environment(
        (t: nat) => Turn(if t == lost then LostRequest else Delivered, h => h, None, lag, NAMES,
                         _ => NotFound, Some("market"), Some(""), _ => Address("ip", ""), false, ""),
        (m: nat) => if m == 0 then "cluster" else if m == 1 then "first" else "other"),
      0, 0, [], Version(Spec(false, false, false, [], []), EMPTY_STATUS, User, 0, 0), [SHOP], [])
  }

  lemma ShopWorldIsReady(lag: nat, lost: int)
    ensures Ready(ShopWorld(lag, lost), lag, lost)
  {
  }

  lemma ShopTurn(w: World, lag: nat, lost: int)
    requires Shop(w.env, lag, lost)
    ensures w.Turn().fault == (if w.clock == lost then LostRequest else Delivered)
    ensures w.Turn().lag == lag && w.Wake() == w.(clock := w.clock + 1)
  {
  }

  // ---- one collection --------------------------------------------------------------------------

  /** The collected entry: what the copy has on record, or a new UUID. */
  function Entry(w: World, copy: Copy): HelmInfo {
    if copy.status == RECORDED then WEB else WEB.(appUUID := "A-" + w.env.uuid(w.minted))
  }

  function Minted(w: World, copy: Copy): World {
    if copy.status == RECORDED then w else w.(minted := w.minted + 1)
  }

  lemma ShopRelease(w: World, copy: Copy, lag: nat, lost: int)
    requires Shop(w.env, lag, lost) && !(w.clock <= lost < w.clock + 2)
    requires copy.status == CLAIMED || copy.status == RECORDED
    ensures CollectRelease(w, copy, SHOP) == (Minted(w, copy).(clock := w.clock + 2), copy, Some(Entry(w, copy)))
  {
    var w1 := Minted(w, copy);
    assert GetHelmInfo(w, copy, SHOP) == (w1, Entry(w, copy));
    var w2 := w1.(clock := w1.clock + 1);
    assert GetDns(w1, copy, "shop", Entry(w, copy).appUUID) == (w2, copy, true);
    assert ReadDetails(w2) == (w2.(clock := w2.clock + 1), true);
  }

  lemma ShopCollect(w: World, copy: Copy, lag: nat, lost: int)
    requires Shop(w.env, lag, lost) && !(w.clock <= lost < w.clock + 4) && w.helm == [SHOP]
    requires (copy.status == CLAIMED || copy.status == RECORDED) && copy.spec.denyNamespaces == []
    ensures Collect(w, copy) == (Minted(w, copy).(clock := w.clock + 4), copy, Some([Entry(w, copy)]))
  {
    hide CollectRelease;
    var w1, w2 := w.(clock := w.clock + 1), w.(clock := w.clock + 2);
    assert ListNamespaces(w) == (w1, Some(NAMES));
    assert NAMES == [] + ["shop"] && NAMES[1..] == [] && [SHOP][1..] == [];
    assert InNamespace([SHOP], "shop") == [SHOP];
    assert ListReleases(w1, "shop") == (w2, Some([SHOP]));
    ShopRelease(w2, copy, lag, lost);
    var w4 := Minted(w, copy).(clock := w.clock + 4);
    var entry := Entry(w, copy);
    assert CollectRelease(w2, copy, [SHOP][0]) == (w4, copy, Some(entry));
    assert [] + [entry] == [entry];
    assert CollectReleases(w4, copy, [], [entry]) == (w4, copy, Some([entry]));
    assert CollectReleases(w2, copy, [SHOP], []) == (w4, copy, Some([entry]));
    assert CollectNamespaces(w1, copy, NAMES, []) == (w4, copy, Some([entry]));
  }

  lemma OnlyShop()
    ensures Keys([SHOP]) == {ReleaseKey(SHOP)}
  {
    assert forall r :: r in [SHOP] <==> r == SHOP;
  }

  // ---- the first reconcile, up to its record ---------------------------------------------------

  /** After the claim, at ticks 0 and 1. */
  function Claimed(w: World): World {
    w.(clock := w.clock + 2, minted := w.minted + 1, past := [w.current],
       current := Version(w.current.spec, CLAIMED, Claim, 0, w.current.named))
  }

  /** After the lookup of the ingress and the registration. */
  function Registered(w: World): World {
    Claimed(w).(clock := w.clock + 4, log := [Register("K-cluster", 1, true)])
  }

  /** After the collection and the record. */
  function Written(w: World): World {
    Registered(w).(clock := w.clock + 9, minted := w.minted + 2,
                   past := [w.current, Version(w.current.spec, CLAIMED, Claim, 0, w.current.named)],
                   current := Version(w.current.spec, RECORDED, First, 1, w.minted + 2))
  }

  lemma ResourceIsClaimed(w: World, lag: nat, lost: int)
    requires Ready(w, lag, lost) && !(w.clock <= lost < w.clock + 2)
    ensures var w1, copy := w.(clock := w.clock + 1), Copy(w.current.spec, EMPTY_STATUS, 0);
            && Get(w) == (w1, Some(copy))
            && Mint(w1) == (w1.(minted := w.minted + 1), "cluster") && "K-" + "cluster" == "K-cluster"
            && UpdateStatus(w1.(minted := w.minted + 1), copy.(status := CLAIMED), Claim)
               == (Claimed(w), copy.(status := CLAIMED, version := 1), true)
  {
    hide Shop;
    assert w.History() == [w.current];
    ShopTurn(w, lag, lost);
    ShopTurn(w.(clock := w.clock + 1, minted := w.minted + 1), lag, lost);
    assert [] + [w.current] == [w.current];
  }

  lemma ClusterIsRegistered(w: World, lag: nat, lost: int)
    requires Ready(w, lag, lost) && !(w.clock + 2 <= lost < w.clock + 4)
    ensures var copy, w3 := Copy(w.current.spec, CLAIMED, 1), Claimed(w).(clock := w.clock + 3);
            && HandleIngress(Claimed(w), copy) == (w3, true)
            && Post(w3, Register("K-cluster", 1, false)) == (Registered(w), true)
  {
    hide Shop;
    OnlyShop();
    ShopTurn(Claimed(w), lag, lost);
    ShopTurn(Claimed(w).(clock := w.clock + 3), lag, lost);
    assert [] + [Register("K-cluster", 1, true)] == [Register("K-cluster", 1, true)];
  }

  lemma AppIsRecorded(w: World, lag: nat, lost: int)
    requires Ready(w, lag, lost) && !(w.clock + 4 <= lost < w.clock + 9)
    ensures var copy := Copy(w.current.spec, CLAIMED, 1);
            var w8 := Registered(w).(clock := w.clock + 8, minted := w.minted + 2);
            && Collect(Registered(w), copy) == (w8, copy, Some([WEB]))
            && UpdateStatus(w8, Recorded(copy, [WEB]), First) == (Written(w), Copy(w.current.spec, RECORDED, 2), true)
  {
    hide Shop, Collect;
    var copy, w8 := Copy(w.current.spec, CLAIMED, 1), Registered(w).(clock := w.clock + 8, minted := w.minted + 2);
    assert "A-" + "first" == "A-first";
    ShopCollect(Registered(w), copy, lag, lost);
    ShopTurn(w8, lag, lost);
    assert Revisions([WEB]) == [1];
    assert Sort([1]) == [1] by {
      SortIsIdempotent([1]);
    }
    assert [w.current] + [w8.current] == [w.current, w8.current];
  }

  // ---- a stale read ----------------------------------------------------------------------------

  /** The first reconcile reports the application too, and its second round finds nothing to do. */
  function AfterFirst(w: World): World {
    Written(w).(clock := w.clock + 15, log := [Register("K-cluster", 1, true), App("K-cluster", WEB, 2, true)])
  }

  lemma AppIsReported(w: World, lag: nat)
    requires Ready(w, lag, -1)
    ensures RegisterApps(Written(w), Copy(w.current.spec, RECORDED, 2), [WEB])
         == (AfterFirst(w).(clock := w.clock + 10), true)
  {
    hide Shop;
    ShopTurn(Written(w), lag, -1);
    assert [WEB][1..] == [];
    assert Written(w).log + [App("K-cluster", WEB, 2, true)] == AfterFirst(w).log;
  }

  lemma SecondRoundIsQuiet(w: World, lag: nat)
    requires Ready(w, lag, -1)
    ensures var copy := Copy(w.current.spec, RECORDED, 2);
            && Collect(AfterFirst(w).(clock := w.clock + 10), copy)
               == (AfterFirst(w).(clock := w.clock + 14), copy, Some([WEB]))
            && HandleExistingCluster(AfterFirst(w).(clock := w.clock + 14), copy, [WEB]).0 == AfterFirst(w)
  {
    hide Shop, Collect;
    var copy := Copy(w.current.spec, RECORDED, 2);
    ShopCollect(AfterFirst(w).(clock := w.clock + 10), copy, lag, -1);
    ShopTurn(AfterFirst(w).(clock := w.clock + 14), lag, -1);
    OnlyShop();
    assert Revisions([WEB]) == [1];
  }

  lemma FirstReconcileReports(w: World, lag: nat)
    requires Ready(w, lag, -1)
    ensures Reconcile(w).0 == AfterFirst(w)
  {
    hide Get, Mint, UpdateStatus, HandleIngress, Post, Collect, RegisterApps, HandleExistingCluster, Shop;
    ResourceIsClaimed(w, lag, -1);
    ClusterIsRegistered(w, lag, -1);
    AppIsRecorded(w, lag, -1);
    AppIsReported(w, lag);
    SecondRoundIsQuiet(w, lag);
    var copy := Copy(w.current.spec, CLAIMED, 1);
    assert HandleNewCluster(Claimed(w).(clock := w.clock + 3), copy)
        == (AfterFirst(w).(clock := w.clock + 10), Copy(w.current.spec, RECORDED, 2), true);
    assert FirstDeployment(w.(clock := w.clock + 1), Copy(w.current.spec, EMPTY_STATUS, 0))
        == (AfterFirst(w).(clock := w.clock + 10), Copy(w.current.spec, RECORDED, 2), true);
  }

  /** With the claimed version as its copy, a reconcile reports the application under a new UUID. */
  lemma StaleReconcile(w: World)
    requires Shop(w.env, 1, -1) && w.helm == [SHOP]
    requires !w.current.spec.stop && w.current.spec.denyNamespaces == [] && w.current.status == RECORDED
    requires w.past != [] && w.past[|w.past| - 1].spec == w.current.spec && w.past[|w.past| - 1].status == CLAIMED
    ensures var (w1, ok) := Reconcile(w);
            var other := WEB.(appUUID := "A-" + w.env.uuid(w.minted));
            && !ok && w1.current == w.current
            && w1.log == w.log + [App("K-cluster", other, |w.past| - 1, true)]
  {
    hide Collect, Shop;
    var copy := Copy(w.current.spec, CLAIMED, |w.past| - 1);
    var w1 := w.(clock := w.clock + 1);
    assert w.History()[|w.past| - 1] == w.past[|w.past| - 1];
    ShopTurn(w, 1, -1);
    assert Get(w) == (w1, Some(copy));
    ShopCollect(w1, copy, 1, -1);
    var other := Entry(w1, copy);
    var w2 := Collect(w1, copy).0;
    ShopTurn(w2, 1, -1);
    var w3 := w2.(clock := w2.clock + 1, log := w2.log + [App("K-cluster", other, copy.version, true)]);
    assert [other][1..] == [];
    assert RegisterApps(w2, copy, [other]) == (w3, true);
    ShopTurn(w3, 1, -1);
    assert Revisions([other]) == [1];
    assert multiset(copy.status.revision) != multiset([1]) by {
      assert 1 in multiset([1]);
    }
  }

  /**
   * The record names an application; a read that is one version old makes the next reconcile report
   * the application under a new UUID, without changing the record.
   */
  lemma StaleReadReportsAnotherUUID(w: World)
    requires Ready(w, 1, -1) && w.env.uuid(w.minted + 2) != "first"
    ensures var first, second := Run(w, 1), Run(w, 2);
            && first.current.status == RECORDED && second.current == first.current
            && exists other :: second.log == first.log + [App("K-cluster", other, 1, true)]
                               && InfoKey(other) == InfoKey(WEB) && other.appUUID != WEB.appUUID
  {
    hide Reconcile;
    FirstReconcileReports(w, 1);
    var first := AfterFirst(w);
    assert Run(w, 0) == w && Run(w, 1) == first && Run(w, 2) == Reconcile(first).0;
    StaleReconcile(first);
    var other := WEB.(appUUID := "A-" + first.env.uuid(first.minted));
    assert other.appUUID[2..] == w.env.uuid(w.minted + 2) && WEB.appUUID[2..] == "first";
  }

  // ---- a lost report ---------------------------------------------------------------------------

  lemma ReportIsLost(w: World)
    requires Ready(w, 0, w.clock + 9)
    ensures FirstReportFails(w, [WEB]) && Reconcile(w).0 == Written(w).(clock := w.clock + 10)
  {
    hide Get, Mint, UpdateStatus, HandleIngress, Post, Collect, Shop;
    var lost := w.clock + 9;
    ResourceIsClaimed(w, 0, lost);
    ClusterIsRegistered(w, 0, lost);
    AppIsRecorded(w, 0, lost);
    LostPost(Written(w), Copy(w.current.spec, RECORDED, 2), lost);
    assert FirstDeployment(w.(clock := w.clock + 1), Copy(w.current.spec, EMPTY_STATUS, 0)).0
        == Written(w).(clock := w.clock + 10);
  }

  lemma LostPost(w: World, copy: Copy, lost: int)
    requires Shop(w.env, 0, lost) && w.clock == lost
    ensures RegisterApps(w, copy, [WEB]) == (w.(clock := w.clock + 1), false)
  {
    hide Shop;
    ShopTurn(w, 0, lost);
  }

  lemma CalmAfterLoss(w: World, p: Period)
    requires Ready(w, 0, w.clock + 9) && p == Period(w.clock + 10, NAMES, Some("market"), Some(""), Address("ip", ""))
    ensures var next := Written(w).(clock := w.clock + 10);
            && CalmAt(next, p) && !next.current.spec.stop && ReleaseRows(Seen(next, p)) == Rows([WEB])
            && !Stuck(next, p) && !Reportable(next, p)
  {
    var next := Written(w).(clock := w.clock + 10);
    OnlyShop();
    assert NAMES == [] + ["shop"] && NAMES[1..] == [] && [SHOP][1..] == [];
    assert AllowedOf(next.current.spec, NAMES) == NAMES;
    assert InNamespace([SHOP], "shop") == [SHOP];
    assert Visible([SHOP], NAMES) == [SHOP] + Visible([SHOP], []);
    assert Seen(next, p) == [SHOP];
  }

  lemma RecordStays(w: World, n: nat, p: Period)
    requires Ready(w, 0, w.clock + 9) && p == Period(w.clock + 10, NAMES, Some("market"), Some(""), Address("ip", ""))
    ensures var next := Written(w).(clock := w.clock + 10);
            Run(next, n).current.status.helmStatus == [WEB] && Run(next, n).current.status.revision == [1]
  {
    hide Reconcile, Ready, CalmAt, Stuck, Reportable, Seen, Rows, ReleaseRows;
    CalmAfterLoss(w, p);
    var next := Written(w).(clock := w.clock + 10);
    SameRowsSameRevisions([WEB], Seen(next, p));
    assert Revisions([WEB]) == [1];
    NothingIsEverReported(next, n, p);
  }

  /**
   * A single lost request: the application is on record from the first reconcile on, every request of
   * every later reconcile is answered, and the application is never reported.
   */
  lemma LostReportIsNeverRepeated(w: World, n: nat)
    requires Ready(w, 0, w.clock + 9) && n > 0
    ensures Run(w, n).current.status.helmStatus == [WEB] && Run(w, n).current.status.revision == [1]
    ensures forall e | e in Run(w, n).log :: !e.App?
  {
    hide Reconcile, Ready, FirstReportFails, CalmAt, Stuck, Reportable, Seen, Rows, ReleaseRows, Differs;
    var p := Period(w.clock + 10, NAMES, Some("market"), Some(""), Address("ip", ""));
    ReportIsLost(w);
    CalmAfterLoss(w, p);
    var next := Reconcile(w).0;
    assert Run(w, 0) == w && Run(w, 1) == next;
    RunAdds(w, 1, n - 1);
    FailedFirstReportIsForgotten(w, [WEB], p);
    RecordStays(w, n - 1, p);
    var end := Run(next, n - 1);
    forall e | e in end.log
      ensures !e.App?
    {
      var j :| 0 <= j < |end.log| && end.log[j] == e;
      assert j < 1 ==> end.log[j] == next.log[j];
    }
  }
}
