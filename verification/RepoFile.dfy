/**
 * `repoAdd` (pkg/helm/helm.go): any number of callers add a chart repository to one shared file, each
 * reading, downloading and rewriting it under a file lock. A system of interleaved steps.
 */
module RepoFile {
  import opened Text

  datatype Entry = Entry(name: string, url: string)

  predicate Has(file: seq<Entry>, name: string) {
    exists e | e in file :: e.name == name
  }

  /** `repo.File.Update`: replaces the entry of that name or appends one. */
  function Update(file: seq<Entry>, entry: Entry): seq<Entry> {
    if file == [] then [entry]
    else if file[0].name == entry.name then [entry] + file[1..]
    else [file[0]] + Update(file[1..], entry)
  }

  /** `copy` is the content a caller has read. `Leaving` still holds the lock. */
  datatype Phase =
    | Waiting
    | Locked
    | Loaded(copy: seq<Entry>)
    | Fetched(copy: seq<Entry>)
    | Leaving(added: bool)
    | Done(added: bool)

  datatype Caller = Caller(request: Entry, phase: Phase)

  datatype System = System(file: seq<Entry>, holder: Option<nat>, callers: seq<Caller>)

  predicate Holding(p: Phase) {
    p.Locked? || p.Loaded? || p.Fetched? || p.Leaving?
  }

  function At(s: System, i: nat, phase: Phase): System
    requires i < |s.callers|
  {
    s.(callers := s.callers[i := s.callers[i].(phase := phase)])
  }

  /** One step of caller `i`. A failure can strike at any point before the file is written. */
  ghost predicate StepOf(a: System, b: System, i: nat)
    requires i < |a.callers|
  {
    var c := a.callers[i];
    match c.phase
    case Waiting =>
      || (a.holder == None && b == At(a, i, Locked).(holder := Some(i)))
      || b == At(a, i, Done(false))
    case Locked =>
      b == At(a, i, Loaded(a.file)) || b == At(a, i, Leaving(false))
    case Loaded(copy) =>
      || b == At(a, i, if Has(copy, c.request.name) then Leaving(true) else Fetched(copy))
      || b == At(a, i, Leaving(false))
    case Fetched(copy) =>
      || b == At(a, i, Leaving(true)).(file := Update(copy, c.request))
      || b == At(a, i, Leaving(false))
    case Leaving(added) => b == At(a, i, Done(added)).(holder := None)
    case Done(_) => false
  }

  ghost predicate Step(a: System, b: System) {
    exists i: nat | i < |a.callers| :: StepOf(a, b, i)
  }

  ghost predicate DistinctNames(file: seq<Entry>) {
    forall i, j | 0 <= i < j < |file| :: file[i].name != file[j].name
  }

  ghost predicate Start(s: System) {
    && DistinctNames(s.file) && s.holder == None
    && forall i | 0 <= i < |s.callers| :: s.callers[i].phase == Waiting
  }

  ghost predicate Chain(states: seq<System>) {
    states != [] && forall k | 0 <= k < |states| - 1 :: Step(states[k], states[k + 1])
  }

  /** A run of the system: any interleaving. */
  ghost predicate Trace(states: seq<System>) {
    Chain(states) && Start(states[0])
  }

  /** What a caller knows while it holds the lock, and what it left behind. */
  ghost predicate CallerOk(s: System, i: nat)
    requires i < |s.callers|
  {
    var c := s.callers[i];
    && (Holding(c.phase) <==> s.holder == Some(i))
    && (c.phase.Loaded? || c.phase.Fetched? ==> c.phase.copy == s.file)
    && (c.phase.Fetched? ==> !Has(s.file, c.request.name))
    && ((c.phase.Leaving? || c.phase.Done?) && c.phase.added ==> Has(s.file, c.request.name))
  }

  ghost predicate Inv(s: System) {
    && DistinctNames(s.file)
    && forall i: nat | i < |s.callers| :: CallerOk(s, i)
  }

  lemma {:induction false} UpdateAppends(file: seq<Entry>, entry: Entry)
    requires !Has(file, entry.name)
    ensures Update(file, entry) == file + [entry]
  {
    if file != [] {
      assert file[0] in file && forall e | e in file[1..] :: e in file;
      UpdateAppends(file[1..], entry);
    }
  }

  lemma HasGrows(a: seq<Entry>, b: seq<Entry>, name: string)
    requires a <= b && Has(a, name)
    ensures Has(b, name)
  {
    var e :| e in a && e.name == name;
    assert e in b;
  }

  lemma AppendedIsDistinct(file: seq<Entry>, entry: Entry)
    requires DistinctNames(file) && !Has(file, entry.name)
    ensures DistinctNames(file + [entry]) && Has(file + [entry], entry.name)
  {
    assert forall e | e in file :: e.name != entry.name;
    assert entry in file + [entry];
  }

  /** The step of the caller that moves. */
  lemma OwnStep(a: System, b: System, i: nat)
    requires Inv(a) && i < |a.callers| && StepOf(a, b, i)
    ensures DistinctNames(b.file) && CallerOk(b, i)
    ensures b.file == a.file || (a.callers[i].phase.Fetched? && b.file == a.file + [a.callers[i].request])
  {
    var c := a.callers[i];
    assert CallerOk(a, i);
    if c.phase.Fetched? {
      UpdateAppends(a.file, c.request);
      AppendedIsDistinct(a.file, c.request);
    }
  }

  /** What that step leaves to the others. */
  lemma OtherStep(a: System, b: System, i: nat, j: nat)
    requires Inv(a) && i < |a.callers| && j < |a.callers| && j != i && StepOf(a, b, i)
    requires b.file == a.file || (a.callers[i].phase.Fetched? && b.file == a.file + [a.callers[i].request])
    ensures CallerOk(b, j)
  {
    assert CallerOk(a, i) && CallerOk(a, j);
    var d := a.callers[j];
    if (d.phase.Leaving? || d.phase.Done?) && d.phase.added {
      HasGrows(a.file, b.file, d.request.name);
    }
  }

  /** Each step keeps the invariant and only appends to the file. */
  lemma StepKeepsInv(a: System, b: System)
    requires Inv(a) && Step(a, b)
    ensures Inv(b) && a.file <= b.file && |b.callers| == |a.callers|
    ensures forall j: nat | j < |a.callers| ::
              b.callers[j].request == a.callers[j].request
              && (a.callers[j].phase.Done? ==> b.callers[j].phase == a.callers[j].phase)
  {
    hide CallerOk, DistinctNames, Update;
    var i: nat :| i < |a.callers| && StepOf(a, b, i);
    OwnStep(a, b, i);
    forall j: nat | j < |b.callers| && j != i
      ensures CallerOk(b, j)
    {
      OtherStep(a, b, i, j);
    }
  }

  lemma {:induction false} TraceKeepsInv(states: seq<System>, k: nat)
    requires Trace(states) && k < |states|
    ensures Inv(states[k])
  {
    if k > 0 {
      TraceKeepsInv(states, k - 1);
      assert Step(states[k - 1], states[k]);
      StepKeepsInv(states[k - 1], states[k]);
    }
  }

  /** The lock excludes: no two callers are ever between reading and leaving. */
  lemma LockExcludes(states: seq<System>, k: nat, i: nat, j: nat)
    requires Trace(states) && k < |states| && i < |states[k].callers| && j < |states[k].callers|
    requires Holding(states[k].callers[i].phase) && Holding(states[k].callers[j].phase)
    ensures i == j
  {
    TraceKeepsInv(states, k);
    assert CallerOk(states[k], i) && CallerOk(states[k], j);
  }

  lemma {:induction false} FileOnlyGrows(states: seq<System>, k: nat, m: nat)
    requires Trace(states) && k <= m < |states|
    ensures states[k].file <= states[m].file && |states[m].callers| == |states[k].callers|
    ensures forall j: nat | j < |states[k].callers| ::
              states[m].callers[j].request == states[k].callers[j].request
              && (states[k].callers[j].phase.Done? ==> states[m].callers[j].phase == states[k].callers[j].phase)
    decreases m
  {
    if k < m {
      FileOnlyGrows(states, k, m - 1);
      TraceKeepsInv(states, m - 1);
      assert Step(states[m - 1], states[m]);
      StepKeepsInv(states[m - 1], states[m]);
    }
  }

  /**
   * In any interleaving the file keeps every entry it ever held, under the URL it was first written
   * with; it never holds two entries of one name; and a caller that reported success finds its name
   * there from then on.
   */
  lemma NoAdditionIsLost(states: seq<System>, k: nat, m: nat, i: nat)
    requires Trace(states) && k <= m < |states| && i < |states[k].callers|
    ensures DistinctNames(states[m].file)
    ensures forall e, f | e in states[k].file && f in states[m].file && f.name == e.name :: f == e
    ensures forall e | e in states[k].file :: e in states[m].file
    ensures states[k].callers[i].phase == Done(true) ==> Has(states[m].file, states[k].callers[i].request.name)
  {
    TraceKeepsInv(states, k);
    TraceKeepsInv(states, m);
    FileOnlyGrows(states, k, m);
    forall e, f | e in states[k].file && f in states[m].file && f.name == e.name
      ensures f == e
    {
      var x :| 0 <= x < |states[k].file| && states[k].file[x] == e;
      assert states[m].file[x] == e;
      var y :| 0 <= y < |states[m].file| && states[m].file[y] == f;
      assert x == y;
    }
    assert CallerOk(states[m], i);
  }

  /** Nothing appears in the file that was not there at the start or requested by some caller. */
  lemma {:induction false} EntriesComeFromCallers(states: seq<System>, m: nat, e: Entry)
    requires Trace(states) && m < |states| && e in states[m].file
    ensures e in states[0].file || exists i: nat :: i < |states[0].callers| && states[0].callers[i].request == e
  {
    if m > 0 && e !in states[m - 1].file {
      TraceKeepsInv(states, m - 1);
      FileOnlyGrows(states, 0, m - 1);
      var a, b := states[m - 1], states[m];
      assert Step(a, b);
      var i: nat :| i < |a.callers| && StepOf(a, b, i);
      assert CallerOk(a, i);
      UpdateAppends(a.file, a.callers[i].request);
      assert states[0].callers[i].request == e;
    } else if m > 0 {
      EntriesComeFromCallers(states, m - 1, e);
    }
  }

  // ---- the method ------------------------------------------------------------------------------

  class Repository {
    var file: seq<Entry>
    var locked: bool

    constructor (file: seq<Entry>)
      ensures this.file == file && !locked
    {
      this.file, locked := file, false;
    }
  }

  /** Which of the calls that can fail succeed: taking the lock, reading, downloading the index, writing. */
  datatype Outcome = Outcome(lock: bool, read: bool, fetch: bool, write: bool)

  /** The system as one caller without competition sees it. */
  function Solo(file: seq<Entry>, request: Entry, phase: Phase): System {
    System(file, if Holding(phase) then Some(0) else None, [Caller(request, phase)])
  }

  lemma ChainGrows(states: seq<System>, next: System)
    requires Chain(states) && |states[|states| - 1].callers| == 1 && StepOf(states[|states| - 1], next, 0)
    ensures Chain(states + [next])
  {
    var more := states + [next];
    forall k | 0 <= k < |more| - 1
      ensures Step(more[k], more[k + 1])
    {
      if k < |states| - 1 {
        assert Step(states[k], states[k + 1]);
      }
    }
  }

  /**
   * The body between taking the lock and giving it back. `run` is the run of the system it makes, so
   * what is proved of runs is proved of this method.
   */
  method AddLocked(repo: Repository, request: Entry, outcome: Outcome, ghost before: seq<System>)
    returns (added: bool, ghost run: seq<System>)
    requires Chain(before) && before[|before| - 1] == Solo(repo.file, request, Locked)
    modifies repo`file
    ensures Chain(run) && before <= run && run[|run| - 1] == Solo(repo.file, request, Leaving(added))
    ensures added <==> outcome.read && outcome.fetch && (outcome.write || Has(old(repo.file), request.name))
    ensures repo.file == if added && !Has(old(repo.file), request.name) then old(repo.file) + [request]
                         else old(repo.file)
  {
    run := before;
    if !outcome.read {
      ChainGrows(run, Solo(repo.file, request, Leaving(false)));
      return false, run + [Solo(repo.file, request, Leaving(false))];
    }
    var f := repo.file;
    ChainGrows(run, Solo(f, request, Loaded(f)));
    run := run + [Solo(f, request, Loaded(f))];
    if !outcome.fetch {
      ChainGrows(run, Solo(f, request, Leaving(false)));
      return false, run + [Solo(f, request, Leaving(false))];
    }
    if Has(f, request.name) {
      ChainGrows(run, Solo(f, request, Leaving(true)));
      return true, run + [Solo(f, request, Leaving(true))];
    }
    ChainGrows(run, Solo(f, request, Fetched(f)));
    run := run + [Solo(f, request, Fetched(f))];
    UpdateAppends(f, request);
    added := outcome.write;
    if added {
      repo.file := Update(f, request);
    }
    ChainGrows(run, Solo(repo.file, request, Leaving(added)));
    run := run + [Solo(repo.file, request, Leaving(added))];
  }

  /** The lock is given back on every path; without the lock nothing is touched. */
  method RepoAdd(repo: Repository, request: Entry, outcome: Outcome) returns (added: bool, ghost run: seq<System>)
    modifies repo
    ensures repo.locked == old(repo.locked)
    ensures old(repo.locked) || !outcome.lock ==> !added && repo.file == old(repo.file)
    ensures !old(repo.locked) && outcome.lock ==>
              (added <==> outcome.read && outcome.fetch && (outcome.write || Has(old(repo.file), request.name)))
    ensures repo.file == if added && !Has(old(repo.file), request.name) then old(repo.file) + [request]
                         else old(repo.file)
    ensures Chain(run) && run[0] == Solo(old(repo.file), request, Waiting)
    ensures run[|run| - 1] == Solo(repo.file, request, Done(added))
  {
    run := [Solo(repo.file, request, Waiting)];
    if repo.locked || !outcome.lock {
      ChainGrows(run, Solo(repo.file, request, Done(false)));
      return false, run + [Solo(repo.file, request, Done(false))];
    }
    repo.locked := true;
    ChainGrows(run, Solo(repo.file, request, Locked));
    added, run := AddLocked(repo, request, outcome, run + [Solo(repo.file, request, Locked)]);
    repo.locked := false;
    ChainGrows(run, Solo(repo.file, request, Done(added)));
    run := run + [Solo(repo.file, request, Done(added))];
  }
}
