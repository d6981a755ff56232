/**
 * The generated deep copies (api/v1/zz_generated.deepcopy.go) on the heap. A slice is an array, or
 * null for nil; a slice of structs is a sequence of struct locations. The copy of a resource shares
 * nothing with the original, so sorting the copy's revisions in place leaves the original alone.
 */
module DeepCopy {
  import opened Sorting
  import opened Text
  import opened Utils
  import opened Api

  datatype InstallValue = InstallValue(
    releaseName: string, namespace: string, values: Option<seq<string>>,
    repoName: string, chartName: string, repoUrl: string)

  datatype SpecValue = SpecValue(
    stop: bool, monitoring: bool, cve: bool, logging: bool, ingress: bool,
    denyNamespaces: Option<seq<string>>, helm: Option<seq<InstallValue>>)

  datatype StatusValue = StatusValue(
    clusterUUID: string, timestamp: string, reconciled: Option<map<string, string>>,
    helmStatus: Option<seq<HelmInfo>>, revision: Option<seq<int>>, dnsUpdated: bool)

  function Contents<T>(a: array?<T>): Option<seq<T>>
    reads a
  {
    if a == null then None else Some(a[..])
  }

  /** `make` and `copy`. */
  method CopySlice<T>(a: array<T>) returns (b: array<T>)
    ensures fresh(b) && b[..] == a[..]
  {
    b := new T[a.Length](i requires 0 <= i < a.Length reads a => a[i]);
  }

  /** A Go map is a reference. */
  class MapRef {
    var entries: map<string, string>

    constructor ()
      ensures entries == map[]
    {
      entries := map[];
    }
  }

  method CopyMap(m: MapRef) returns (copied: MapRef)
    ensures fresh(copied) && copied.entries == m.entries
  {
    copied := new MapRef();
    var keys := m.entries.Keys;
    while keys != {}
      invariant keys <= m.entries.Keys && m.entries == old(m.entries)
      invariant copied.entries == map k | k in m.entries && k !in keys :: m.entries[k]
      decreases keys
    {
      var key :| key in keys;
      copied.entries := copied.entries[key := m.entries[key]];
      keys := keys - {key};
    }
    assert copied.entries == m.entries;
  }

  class InstallCell {
    var releaseName: string
    var namespace: string
    var values: array?<string>
    var repoName: string
    var chartName: string
    var repoUrl: string

    constructor ()
    {
      releaseName, namespace, values, repoName, chartName, repoUrl := "", "", null, "", "", "";
    }

    function Value(): InstallValue
      reads this, values
    {
      InstallValue(releaseName, namespace, Contents(values), repoName, chartName, repoUrl)
    }

    method DeepCopyInto(out: InstallCell)
      requires out != this
      modifies out
      ensures out.Value() == old(Value())
      ensures out.values != null ==> fresh(out.values)
    {
      out.releaseName, out.namespace, out.values := releaseName, namespace, values;
      out.repoName, out.chartName, out.repoUrl := repoName, chartName, repoUrl;
      out.values := CopyOptional(values);
    }
  }

  /** The arrays inside a slice of installs. */
  ghost function Arrays(cells: seq<InstallCell>): set<object>
    reads cells
  {
    set c | c in cells && c.values != null :: c.values as object
  }

  function Values(cells: seq<InstallCell>): (r: seq<InstallValue>)
    reads cells, Arrays(cells)
    ensures |r| == |cells|
    ensures forall i | 0 <= i < |cells| :: r[i] == cells[i].Value()
  {
    if cells == [] then [] else Values(cells[..|cells| - 1]) + [cells[|cells| - 1].Value()]
  }

  function Cells(helm: Option<seq<InstallCell>>): seq<InstallCell> {
    if helm.None? then [] else helm.value
  }

  ghost function InstallValues(helm: Option<seq<InstallCell>>): Option<seq<InstallValue>>
    reads Cells(helm), Arrays(Cells(helm))
  {
    if helm.None? then None else Some(Values(helm.value))
  }

  /** Installs that nobody writes to keep their values. */
  twostate lemma InstallsFrame(helm: Option<seq<InstallCell>>)
    requires forall c | c in Cells(helm) :: unchanged(c) && (c.values != null ==> unchanged(c.values))
    ensures InstallValues(helm) == old(InstallValues(helm)) && Arrays(Cells(helm)) == old(Arrays(Cells(helm)))
  {
    var cells := Cells(helm);
    forall i | 0 <= i < |cells|
      ensures cells[i].Value() == old(cells[i].Value())
    {
      assert cells[i] in cells;
    }
    assert Values(cells) == old(Values(cells));
  }

  method CopyHelm(helm: Option<seq<InstallCell>>) returns (copied: Option<seq<InstallCell>>)
    ensures InstallValues(copied) == old(InstallValues(helm))
    ensures fresh(set c | c in Cells(copied)) && fresh(Arrays(Cells(copied)))
  {
    copied := helm;
    if helm.Some? {
      var copies := CopyInstalls(helm.value);
      copied := Some(copies);
    }
  }

  method CopyOptional<T>(a: array?<T>) returns (b: array?<T>)
    ensures Contents(b) == Contents(a) && (b != null ==> fresh(b))
  {
    b := a;
    if a != null {
      b := CopySlice(a);
    }
  }

  class SpecCell {
    var stop: bool
    var monitoring: bool
    var cve: bool
    var logging: bool
    var ingress: bool
    var denyNamespaces: array?<string>
    var helm: Option<seq<InstallCell>>

    ghost function Value(): SpecValue
      reads this, denyNamespaces, Cells(helm), Arrays(Cells(helm))
    {
      SpecValue(stop, monitoring, cve, logging, ingress, Contents(denyNamespaces), InstallValues(helm))
    }

    /** Every slice and nested slice of the result is new; only `out` is written to. */
    method DeepCopyInto(out: SpecCell)
      requires out != this
      modifies out
      ensures out.Value() == old(Value())
      ensures out.denyNamespaces != null ==> fresh(out.denyNamespaces)
      ensures fresh(set c | c in Cells(out.helm)) && fresh(Arrays(Cells(out.helm)))
    {
      hide Values, Arrays;
      out.stop, out.monitoring, out.cve, out.logging, out.ingress := stop, monitoring, cve, logging, ingress;
      var deniedCopy := CopyOptional(denyNamespaces);
      InstallsFrame(helm);
      var helmCopy := CopyHelm(helm);
      label Copied:
      out.denyNamespaces, out.helm := deniedCopy, helmCopy;
      InstallsFrame@Copied(helmCopy);
    }
  }

  method CopyInstalls(cells: seq<InstallCell>) returns (copies: seq<InstallCell>)
    ensures Values(copies) == old(Values(cells))
    ensures fresh(set c | c in copies) && fresh(Arrays(copies))
  {
    copies := [];
    for i := 0 to |cells|
      invariant |copies| == i
      invariant forall k | 0 <= k < i :: fresh(copies[k]) && (copies[k].values != null ==> fresh(copies[k].values))
      invariant forall k | 0 <= k < i :: copies[k].Value() == old(cells[k].Value())
    {
      var copy := new InstallCell();
      cells[i].DeepCopyInto(copy);
      copies := copies + [copy];
    }
  }

  class StatusCell {
    var clusterUUID: string
    var timestamp: string
    var reconciled: MapRef?
    var helmStatus: array?<HelmInfo>
    var revision: array?<int>
    var dnsUpdated: bool

    constructor ()
      ensures revision == null
    {
      clusterUUID, timestamp, reconciled, helmStatus, revision, dnsUpdated := "", "", null, null, null, false;
    }

    function Value(): StatusValue
      reads this, reconciled, helmStatus, revision
    {
      StatusValue(clusterUUID, timestamp, if reconciled == null then None else Some(reconciled.entries),
                  Contents(helmStatus), Contents(revision), dnsUpdated)
    }

    method DeepCopyInto(out: StatusCell)
      requires out != this
      modifies out
      ensures out.Value() == old(Value()) && Value() == old(Value())
      ensures out.reconciled != null ==> fresh(out.reconciled)
      ensures out.helmStatus != null ==> fresh(out.helmStatus)
      ensures out.revision != null ==> fresh(out.revision)
    {
      out.clusterUUID, out.timestamp, out.dnsUpdated := clusterUUID, timestamp, dnsUpdated;
      out.reconciled, out.helmStatus, out.revision := reconciled, helmStatus, revision;
      if reconciled != null {
        out.reconciled := CopyMap(reconciled);
      }
      out.helmStatus := CopyOptional(helmStatus);
      out.revision := CopyOptional(revision);
    }
  }

  /**
   * What the separation is for: the comparison sorts the copy's revisions and leaves the cached
   * original, and every slice in it, as it was.
   */
  method CompareOnCopy(cached: StatusCell, current: array<int>) returns (copy: StatusCell, same: bool)
    requires cached.revision != null && cached.revision != current
    modifies current
    ensures fresh(copy) && copy.revision != null && fresh(copy.revision)
    ensures cached.Value() == old(cached.Value()) && cached.revision == old(cached.revision)
    ensures same <==> multiset(old(cached.revision[..])) == multiset(old(current[..]))
    ensures cached.revision.Length == current.Length ==> copy.revision[..] == Sort(old(cached.revision[..]))
  {
    copy := new StatusCell();
    cached.DeepCopyInto(copy);
    assert Some(copy.revision[..]) == Some(cached.revision[..]);
    same := CompareSlices(copy.revision, current);
  }
}
