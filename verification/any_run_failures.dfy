/** Runs that end with an archive nothing refers to: a native Job that ran again under its name, and a
    record that is written over while its cleanup Job exists. */
module AnyRunFailures {
  import opened Options
  import opened Strings
  import opened Snapshots
  import opened Retention
  import opened NativeJobs
  import opened Finalizer
  import opened NfsBackend
  import opened AnyRuns
  import opened AnyRunTheorems
  import O = OperatorRun
  import E = OperatorEvents

  /** Two runs of one native Job, recorded under one name. */
  datatype Twice = Twice(name: string, series: string, storage: string, path: string,
                         first: Package, second: Package)

  predicate Proper(w: Twice) {
    && TrimSpace(w.storage) != "" && TrimSpace(w.path) != ""
    && TrimSpace(w.first.stem) != "" && TrimSpace(w.second.stem) != "" && w.first.stem != w.second.stem
  }

  function Uploading(w: Twice, p: Package): Event {
    Upload(w.path, p, 0, None)
  }

  function Recording(w: Twice, p: Package): Event {
    Record(w.name, w.series, w.storage, FinishedJob("", None, None), Artifact(p.stem, w.path, p.sum, 0), 1, 0)
  }

  function Reconciling(w: Twice): Event {
    ReconcileSnapshot(w.name, {w.storage})
  }

  predicate RefersTo(r: Snapshot, w: Twice, p: Package) {
    r.series == w.series && r.storage == w.storage && r.backendPath == w.path && r.stem == p.stem && r.ready
  }

  /** The record is there by itself, refers to `p`, whose archive is there, and is being deleted or
      not. */
  ghost predicate Holds(s: State, w: Twice, p: Package, deleting: bool, finalizers: set<string>) {
    && s.records.Keys == {w.name} && RefersTo(s.records[w.name], w, p)
    && s.records[w.name].deleting == deleting && s.records[w.name].finalizers == finalizers
    && p.stem in O.DirAt(s, w.path).archives
  }

  lemma UploadAdds(s: State, w: Twice, p: Package)
    requires NotReferred(s, w.path, p.stem)
    ensures var t := Next(s, Uploading(w, p));
            && t.records == s.records && t.jobs == s.jobs
            && O.DirAt(t, w.path).archives.Keys == O.DirAt(s, w.path).archives.Keys + {p.stem}
  {
  }

  lemma RecordHolds(s: State, w: Twice, p: Package)
    requires s.records.Keys <= {w.name} && p.stem in O.DirAt(s, w.path).archives
    ensures var t := Next(s, Recording(w, p));
            && t.jobs == s.jobs && t.dirs == s.dirs
            && Holds(t, w, p, w.name in s.records && s.records[w.name].deleting,
                     if w.name in s.records then s.records[w.name].finalizers else {})
  {
    var recorded := Recorded(s.records, w.name, w.series, w.storage, FinishedJob("", None, None),
                             Artifact(p.stem, w.path, p.sum, 0), 0);
    var after := s.records[w.name := recorded];
    assert Members(after, w.series) == {w.name};
    FewAreKept(after, w.series, 1, w.name);
  }

  lemma FinalizerAdded(s: State, w: Twice, p: Package)
    requires Holds(s, w, p, false, {})
    ensures var t := Next(s, Reconciling(w)); Holds(t, w, p, false, {CLEANUP_FINALIZER}) && t.jobs == s.jobs
  {
  }

  lemma MarkedDeleted(s: State, w: Twice, p: Package)
    requires Holds(s, w, p, false, {CLEANUP_FINALIZER})
    ensures var t := Next(s, UserDelete(w.name)); Holds(t, w, p, true, {CLEANUP_FINALIZER}) && t.jobs == s.jobs
  {
  }

  lemma JobRendered(s: State, w: Twice, p: Package)
    requires Holds(s, w, p, true, {CLEANUP_FINALIZER}) && Removable(s.records[w.name]) && w.name !in s.jobs
    ensures var t := Next(s, Reconciling(w));
            Holds(t, w, p, true, {CLEANUP_FINALIZER}) && t.jobs == s.jobs[w.name := Rendered(s.records[w.name])]
  {
  }

  lemma JobCompletes(s: State, w: Twice)
    requires O.Active(s, w.name)
    ensures var t := Next(s, CleanupCompletes(w.name, 0));
            && t.records == s.records && t.jobs.Keys == s.jobs.Keys
            && RendersSame(t.jobs[w.name], s.jobs[w.name])
            && TerminalState(t.jobs[w.name].conditions) == Some(Succeeded)
  {
    E.CleanedEffect(s, w.name, 0);
  }

  predicate RendersSame(i: CleanupJob, j: CleanupJob) {
    i.stem == j.stem && i.backendPath == j.backendPath
  }

  lemma LetGo(s: State, w: Twice)
    requires s.records.Keys == {w.name} && s.records[w.name].storage == w.storage
    requires s.records[w.name].deleting && s.records[w.name].finalizers == {CLEANUP_FINALIZER}
    requires w.name in s.jobs && TerminalState(s.jobs[w.name].conditions) == Some(Succeeded)
    ensures var t := Next(s, Reconciling(w)); t.records == map[] && t.jobs == s.jobs && t.dirs == s.dirs
  {
    assert s.records[w.name].finalizers - {CLEANUP_FINALIZER} == {};
  }

  lemma Then(run: seq<Event>, e: Event) returns (more: seq<Event>)
    requires Admissible(run) && Enabled(Reached(run), e)
    ensures more == run + [e] && Admissible(more) && Reached(more) == Next(Reached(run), e)
    ensures WrittenOver(more) == OverAfter(Reached(run), e, WrittenOver(run))
  {
    more := run + [e];
    Onwards(run, e);
  }

  /** An upload is recorded; the record gets its finalizer, and a user deletes it. */
  lemma Deleting(run: seq<Event>, w: Twice, p: Package) returns (more: seq<Event>)
    requires Admissible(run)
    requires Reached(run).records == map[] && NotReferred(Reached(run), w.path, p.stem)
    ensures Admissible(more)
    ensures Holds(Reached(more), w, p, true, {CLEANUP_FINALIZER}) && Reached(more).jobs == Reached(run).jobs
  {
    UploadAdds(Reached(run), w, p);
    var run1 := Then(run, Uploading(w, p));
    RecordHolds(Reached(run1), w, p);
    var run2 := Then(run1, Recording(w, p));
    FinalizerAdded(Reached(run2), w, p);
    var run3 := Then(run2, Reconciling(w));
    MarkedDeleted(Reached(run3), w, p);
    more := Then(run3, UserDelete(w.name));
  }

  /** The second run of a native Job is recorded over a record that is being deleted, while the cleanup
      Job for the first is at work: such a state is reached, so by `WrittenOverExact` the cleanup takes
      the first archive, the record goes, and the second archive stays. */
  lemma WrittenOverReached(w: Twice) returns (run: seq<Event>)
    requires Proper(w)
    ensures Admissible(run) && w.name in WrittenOver(run)
    ensures BeingCleaned(Reached(run), w.name, {w.storage})
    ensures Reached(run).records[w.name].stem == w.second.stem
  {
    var run1 := Deleting([], w, w.first);
    JobRendered(Reached(run1), w, w.first);
    var run2 := Then(run1, Reconciling(w));
    UploadAdds(Reached(run2), w, w.second);
    var run3 := Then(run2, Uploading(w, w.second));
    RecordHolds(Reached(run3), w, w.second);
    run := Then(run3, Recording(w, w.second));
  }

  /** The record of the first run is deleted, and goes when its cleanup Job has completed. */
  lemma FirstGone(w: Twice) returns (run: seq<Event>)
    requires Proper(w)
    ensures Admissible(run)
    ensures var s := Reached(run);
            && s.records == map[] && NotReferred(s, w.path, w.second.stem)
            && w.name in s.jobs && TerminalState(s.jobs[w.name].conditions) == Some(Succeeded)
  {
    var run1 := Deleting([], w, w.first);
    JobRendered(Reached(run1), w, w.first);
    var run2 := Then(run1, Reconciling(w));
    JobCompletes(Reached(run2), w);
    var run3 := Then(run2, CleanupCompletes(w.name, 0));
    LetGo(Reached(run3), w);
    run := Then(run3, Reconciling(w));
  }

  /** The second run is recorded after the record of the first has gone, while the completed cleanup Job
      is still there: such a state is reached, and by `LeftoverJobLoses` the second archive stays when
      the new record is deleted. */
  lemma LeftoverReached(w: Twice) returns (run: seq<Event>)
    requires Proper(w)
    ensures Admissible(run)
    ensures var s := Reached(run);
            && Holds(s, w, w.second, true, {CLEANUP_FINALIZER})
            && w.name in s.jobs && TerminalState(s.jobs[w.name].conditions) == Some(Succeeded)
  {
    var gone := FirstGone(w);
    run := Deleting(gone, w, w.second);
  }
}
