/** The custom resource (api/v1/hosstedproject_types.go) as values. */
module Api {

  datatype HelmInstall = HelmInstall(
    releaseName: string, namespace: string, values: seq<string>,
    repoName: string, chartName: string, repoUrl: string)

  datatype Spec = Spec(
    stop: bool, monitoring: bool, ingress: bool,
    denyNamespaces: seq<string>, helm: seq<HelmInstall>)

  /** `about` stands for the descriptive fields: Updated, Status, Chart and AppVersion. */
  datatype HelmInfo = HelmInfo(
    name: string, namespace: string, appUUID: string, revision: int, about: string, hosstedHelm: bool)

  datatype Status = Status(
    clusterUUID: string, helmStatus: seq<HelmInfo>, revision: seq<int>, dnsUpdated: bool)

  const EMPTY_STATUS := Status("", [], [], false)

  /** Helm keeps one release per name in a namespace. */
  datatype Key = Key(namespace: string, name: string)

  function InfoKey(info: HelmInfo): Key {
    Key(info.namespace, info.name)
  }

  function InstallKey(h: HelmInstall): Key {
    Key(h.namespace, h.releaseName)
  }

  function InfoKeys(infos: seq<HelmInfo>): set<Key> {
    set info | info in infos :: InfoKey(info)
  }

  ghost predicate DistinctInfos(infos: seq<HelmInfo>) {
    forall i, j | 0 <= i < j < |infos| :: InfoKey(infos[i]) != InfoKey(infos[j])
  }

  function Revisions(infos: seq<HelmInfo>): (r: seq<int>)
    ensures |r| == |infos|
  {
    seq(|infos|, i requires 0 <= i < |infos| => infos[i].revision)
  }

  /** `findExistingUUID`: the first match, or the empty string. */
  function FindExistingUUID(infos: seq<HelmInfo>, name: string, namespace: string): (r: string)
    ensures r != "" ==> exists info :: info in infos && InfoKey(info) == Key(namespace, name) && info.appUUID == r
  {
    if infos == [] then ""
    else if infos[0].name == name && infos[0].namespace == namespace then infos[0].appUUID
    else FindExistingUUID(infos[1..], name, namespace)
  }

  /** With distinct keys the lookup finds exactly the entry of that key. */
  lemma {:induction false} FindsTheEntry(infos: seq<HelmInfo>, info: HelmInfo)
    requires DistinctInfos(infos) && info in infos
    ensures FindExistingUUID(infos, info.name, info.namespace) == info.appUUID
  {
    if infos[0] != info {
      FindsTheEntry(infos[1..], info);
      var i :| 0 <= i < |infos| && infos[i] == info;
      assert InfoKey(infos[0]) != InfoKey(infos[i]);
    }
  }

  /** The first entry of the key answers, whatever comes after it; without one the answer is empty. */
  lemma {:induction false} FirstMatchAnswers(
    before: seq<HelmInfo>, rest: seq<HelmInfo>, name: string, namespace: string)
    requires forall info | info in before :: !(info.name == name && info.namespace == namespace)
    ensures FindExistingUUID(before, name, namespace) == ""
    ensures rest != [] && rest[0].name == name && rest[0].namespace == namespace ==>
              FindExistingUUID(before + rest, name, namespace) == rest[0].appUUID
  {
    if before == [] {
      assert before + rest == rest;
    } else {
      assert before[0] in before && (before + rest)[1..] == before[1..] + rest;
      FirstMatchAnswers(before[1..], rest, name, namespace);
    }
  }
}
