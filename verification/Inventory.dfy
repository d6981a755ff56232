/** The nested listing loops of the collector: `getPods` and `getDeployments` (controllers/collector.go). */
module Inventory {
  import opened Text

  datatype Container = Container(name: string, image: string, env: seq<Option<string>>)

  datatype Pod = Pod(name: string, namespace: string, containers: seq<Container>, phase: string)

  /** A vulnerability report: `found` is false when its list of vulnerabilities is nil. */
  datatype Report = Report(containerName: string, found: bool, body: string)

  datatype PodInfo = PodInfo(name: string, namespace: string, image: string, status: string)
  datatype Finding = Finding(image: string, body: string)
  datatype SecurityInfo = SecurityInfo(podName: string, podNamespace: string, containers: seq<Finding>)

  function FindingsOf(c: Container, reports: seq<Report>): seq<Finding> {
    if reports == [] then []
    else
      var last := reports[|reports| - 1];
      FindingsOf(c, reports[..|reports| - 1])
        + (if c.name == last.containerName && last.found then [Finding(c.image, last.body)] else [])
  }

  function PodFindings(containers: seq<Container>, reports: seq<Report>): seq<Finding> {
    if containers == [] then []
    else PodFindings(containers[..|containers| - 1], reports) + FindingsOf(containers[|containers| - 1], reports)
  }

  /** The findings of all the given pods, in order. */
  function AllFindings(pods: seq<Pod>, reports: seq<Report>): seq<Finding> {
    if pods == [] then []
    else AllFindings(pods[..|pods| - 1], reports) + PodFindings(pods[|pods| - 1].containers, reports)
  }

  method CollectFindings(containers: seq<Container>, reports: seq<Report>, before: seq<Finding>)
    returns (holder: seq<Finding>)
    ensures holder == before + PodFindings(containers, reports)
  {
    holder := before;
    for i := 0 to |containers|
      invariant holder == before + PodFindings(containers[..i], reports)
    {
      ghost var start := holder;
      for j := 0 to |reports|
        invariant holder == start + FindingsOf(containers[i], reports[..j])
      {
        assert reports[..j + 1][..j] == reports[..j];
        if containers[i].name == reports[j].containerName && reports[j].found {
          holder := holder + [Finding(containers[i].image, reports[j].body)];
        }
      }
      assert reports[..|reports|] == reports && containers[..i + 1][..i] == containers[..i];
    }
    assert containers[..|containers|] == containers;
  }

  /** The image is that of the first container. */
  predicate IsInfo(info: PodInfo, po: Pod) {
    && po.containers != [] && info.image == po.containers[0].image
    && info.name == po.name && info.namespace == po.namespace && info.status == po.phase
  }

  /** What is found in the first `n` pods; nothing when reports are not asked for. */
  function FoundBy(pods: seq<Pod>, n: nat, vulns: Option<seq<Report>>): seq<Finding>
    requires n <= |pods|
  {
    if vulns.None? then [] else AllFindings(pods[..n], vulns.value)
  }

  lemma OnePodMore(pods: seq<Pod>, n: nat, reports: seq<Report>)
    requires n < |pods|
    ensures AllFindings(pods[..n + 1], reports)
         == AllFindings(pods[..n], reports) + PodFindings(pods[n].containers, reports)
  {
    assert pods[..n + 1][..n] == pods[..n];
  }

  /**
   * One entry per pod, in order. The container findings are collected in one list for all pods, so
   * each pod is given the findings of the pods before it as well. Every pod has a container.
   */
  method GetPods(pods: seq<Pod>, vulns: Option<seq<Report>>)
    returns (podHolder: seq<PodInfo>, security: seq<SecurityInfo>)
    requires forall p | p in pods :: p.containers != []
    ensures |podHolder| == |pods| && |security| == |pods|
    ensures forall i | 0 <= i < |pods| :: IsInfo(podHolder[i], pods[i])
    ensures forall i | 0 <= i < |pods| ::
              security[i] == SecurityInfo(pods[i].name, pods[i].namespace, FoundBy(pods, i + 1, vulns))
  {
    hide AllFindings, PodFindings;
    podHolder, security := [], [];
    var holder: seq<Finding> := [];
    assert FoundBy(pods, 0, vulns) == [] by {
      NothingFound(pods, vulns);
    }
    for n := 0 to |pods|
      invariant |podHolder| == n && |security| == n
      invariant forall i | 0 <= i < n :: IsInfo(podHolder[i], pods[i])
      invariant forall i | 0 <= i < n ::
                  security[i] == SecurityInfo(pods[i].name, pods[i].namespace, FoundBy(pods, i + 1, vulns))
      invariant holder == FoundBy(pods, n, vulns)
    {
      var po := pods[n];
      if vulns.Some? {
        holder := CollectFindings(po.containers, vulns.value, holder);
        OnePodMore(pods, n, vulns.value);
      }
      podHolder := podHolder + [PodInfo(po.name, po.namespace, po.containers[0].image, po.phase)];
      security := security + [SecurityInfo(po.name, po.namespace, holder)];
    }
  }

  lemma NothingFound(pods: seq<Pod>, vulns: Option<seq<Report>>)
    ensures FoundBy(pods, 0, vulns) == []
  {
  }

  lemma LastReport(c: Container, reports: seq<Report>, v: Report)
    ensures FindingsOf(c, reports + [v]) == FindingsOf(c, reports) + FindingsOf(c, [v])
  {
    assert (reports + [v])[..|reports|] == reports && [v][..0] == [];
  }

  lemma {:induction false} ReportsOneByOne(c: Container, a: seq<Report>, b: seq<Report>)
    ensures FindingsOf(c, a + b) == FindingsOf(c, a) + FindingsOf(c, b)
    decreases |b|
  {
    hide FindingsOf;
    if b == [] {
      NoReports(c);
      assert a + b == a;
    } else {
      var init, last := b[..|b| - 1], b[|b| - 1];
      assert b == init + [last] && a + b == a + init + [last];
      ReportsOneByOne(c, a, init);
      LastReport(c, init, last);
      LastReport(c, a + init, last);
    }
  }

  lemma NoReports(c: Container)
    ensures FindingsOf(c, []) == []
  {
  }

  lemma LastContainer(containers: seq<Container>, c: Container, reports: seq<Report>)
    ensures PodFindings(containers + [c], reports) == PodFindings(containers, reports) + PodFindings([c], reports)
  {
    assert (containers + [c])[..|containers|] == containers && [c][..0] == [];
  }

  lemma {:induction false} ContainersOneByOne(a: seq<Container>, b: seq<Container>, reports: seq<Report>)
    ensures PodFindings(a + b, reports) == PodFindings(a, reports) + PodFindings(b, reports)
    decreases |b|
  {
    hide PodFindings;
    if b == [] {
      NoContainers(reports);
      assert a + b == a;
    } else {
      var init, last := b[..|b| - 1], b[|b| - 1];
      assert b == init + [last] && a + b == a + init + [last];
      ContainersOneByOne(a, init, reports);
      LastContainer(init, last, reports);
      LastContainer(a + init, last, reports);
    }
  }

  lemma NoContainers(reports: seq<Report>)
    ensures PodFindings([], reports) == []
  {
  }

  /**
   * The findings of a pod are those of its containers in turn, each going through the reports in turn; one
   * container and one report make a finding exactly when the report names the container and found anything.
   */
  lemma FindingsOneByOne(a: seq<Container>, c: Container, b: seq<Container>, x: seq<Report>, v: Report, y: seq<Report>)
    ensures PodFindings(a + [c] + b, x + [v] + y)
         == PodFindings(a, x + [v] + y)
          + (PodFindings([c], x)
             + (if c.name == v.containerName && v.found then [Finding(c.image, v.body)] else [])
             + PodFindings([c], y))
          + PodFindings(b, x + [v] + y)
    ensures PodFindings([], x) == [] && PodFindings([c], []) == []
  {
    hide FindingsOf;
    var reports := x + [v] + y;
    ContainersOneByOne(a + [c], b, reports);
    ContainersOneByOne(a, [c], reports);
    ReportsOneByOne(c, x + [v], y);
    ReportsOneByOne(c, x, [v]);
    OneFinding(c, v);
    forall r: seq<Report>
      ensures PodFindings([c], r) == FindingsOf(c, r)
    {
      assert [c][..0] == [];
    }
  }

  lemma OneFinding(c: Container, v: Report)
    ensures FindingsOf(c, [v]) == if c.name == v.containerName && v.found then [Finding(c.image, v.body)] else []
    ensures FindingsOf(c, []) == []
  {
    assert [v][..0] == [];
  }

  /** A pod is given exactly its own findings if and only if no pod listed before it has any. */
  lemma OwnFindingsExactly(pods: seq<Pod>, i: nat, reports: seq<Report>)
    requires i < |pods|
    ensures AllFindings(pods[..i + 1], reports) == PodFindings(pods[i].containers, reports)
       <==> forall k | 0 <= k < i :: PodFindings(pods[k].containers, reports) == []
  {
    assert pods[..i + 1][..i] == pods[..i];
    NoFindings(pods[..i], reports);
    assert forall k | 0 <= k < i :: pods[..i][k] == pods[k];
    var earlier, own := AllFindings(pods[..i], reports), PodFindings(pods[i].containers, reports);
    assert |earlier + own| == |earlier| + |own|;
  }

  lemma {:induction false} NoFindings(pods: seq<Pod>, reports: seq<Report>)
    ensures AllFindings(pods, reports) == []
       <==> forall k | 0 <= k < |pods| :: PodFindings(pods[k].containers, reports) == []
  {
    hide PodFindings;
    if pods != [] {
      var init, last := pods[..|pods| - 1], pods[|pods| - 1];
      var earlier, own := AllFindings(init, reports), PodFindings(last.containers, reports);
      NoFindings(init, reports);
      assert AllFindings(pods, reports) == earlier + own && |earlier + own| == |earlier| + |own|;
      forall k | 0 <= k < |init|
        ensures init[k] == pods[k]
      {
      }
    }
  }

  // ---- deployments -----------------------------------------------------------------------------

  datatype Deployment = Deployment(name: string, namespace: string, containers: seq<Container>)
  datatype DeploymentInfo = DeploymentInfo(name: string, namespace: string, secretRef: Option<string>)

  /** Entry `e` of container `c` refers to a secret and none before it does. */
  predicate FirstRef(containers: seq<Container>, c: nat, e: nat) {
    && c < |containers| && e < |containers[c].env| && containers[c].env[e].Some?
    && (forall f | 0 <= f < e :: containers[c].env[f].None?)
    && (forall d | 0 <= d < c :: forall f | 0 <= f < |containers[d].env| :: containers[d].env[f].None?)
  }

  ghost predicate RefersTo(containers: seq<Container>, ref: Option<string>) {
    match ref
    case Some(_) => exists c: nat, e: nat :: FirstRef(containers, c, e) && containers[c].env[e] == ref
    case None =>
      forall d | 0 <= d < |containers| :: forall f | 0 <= f < |containers[d].env| :: containers[d].env[f].None?
  }

  method FindSecretRef(containers: seq<Container>) returns (ref: Option<string>)
    ensures RefersTo(containers, ref)
  {
    for c := 0 to |containers|
      invariant forall d | 0 <= d < c :: forall f | 0 <= f < |containers[d].env| :: containers[d].env[f].None?
    {
      for e := 0 to |containers[c].env|
        invariant forall f | 0 <= f < e :: containers[c].env[f].None?
      {
        if containers[c].env[e].Some? {
          assert FirstRef(containers, c, e);
          return containers[c].env[e];
        }
      }
    }
    return None;
  }

  /** One entry per deployment, in order, with the first secret its environment refers to. */
  method GetDeployments(deployments: seq<Deployment>) returns (holder: seq<DeploymentInfo>)
    ensures |holder| == |deployments|
    ensures forall i | 0 <= i < |deployments| ::
              && holder[i].name == deployments[i].name && holder[i].namespace == deployments[i].namespace
              && RefersTo(deployments[i].containers, holder[i].secretRef)
  {
    holder := [];
    for n := 0 to |deployments|
      invariant |holder| == n
      invariant forall i | 0 <= i < n ::
                  && holder[i].name == deployments[i].name && holder[i].namespace == deployments[i].namespace
                  && RefersTo(deployments[i].containers, holder[i].secretRef)
    {
      var ref := FindSecretRef(deployments[n].containers);
      holder := holder + [DeploymentInfo(deployments[n].name, deployments[n].namespace, ref)];
    }
  }

  /** The first reference is unique, so the result is determined. */
  lemma FirstRefIsUnique(containers: seq<Container>, a: Option<string>, b: Option<string>)
    requires RefersTo(containers, a) && RefersTo(containers, b)
    ensures a == b
  {
    if a.Some? && b.Some? {
      var c: nat, e: nat :| FirstRef(containers, c, e) && containers[c].env[e] == a;
      var d: nat, f: nat :| FirstRef(containers, d, f) && containers[d].env[f] == b;
      assert c == d && e == f;
    }
  }
}
