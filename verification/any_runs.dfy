/** Runs of the operator without the assumptions of `OperatorRun`: uploads that are never recorded,
    or recorded in any order and under any name, numbers that differ, deletes at any time. What the
    finalizer and the `Latest` flag guarantee, they guarantee here. */
module AnyRuns {
  import opened Options
  import opened Snapshots
  import opened NativeJobs
  import opened Finalizer
  import opened NfsBackend
  import O = OperatorRun

  /** The state of `OperatorRun`, in which nothing is ever noted as waiting. */
  type State = O.State

  datatype Event =
    /** The upload script runs to its end in the directory of a backend path. */
    | Upload(path: string, p: Package, keepLast: int, listing: Option<set<string>>)
    /** The controller records any artifact, under any name: that of a new record, of a record that is
        being deleted, or of one that stems from another run. */
    | Record(name: string, series: string, storage: string, job: FinishedJob, artifact: Artifact,
             keepLast: int, now: int)
    | UserDelete(name: string)
    | ReconcileSnapshot(name: string, storages: set<string>)
    | CleanupCompletes(name: string, at: int)
    | CleanupBreaks(name: string, archive: bool, sum: bool, meta: bool, latest: Option<Metadata>, at: int)
    /** A cleanup Job is deleted, with its record or when its time to live is over. */
    | JobExpires(name: string)

  /** Archive names are not used again while something refers to them. */
  ghost predicate NotReferred(s: State, path: string, stem: string) {
    && (forall n | n in s.records :: !(s.records[n].backendPath == path && s.records[n].stem == stem))
    && (forall n | n in s.jobs :: !(s.jobs[n].backendPath == path && s.jobs[n].stem == stem))
  }

  ghost predicate Enabled(s: State, e: Event) {
    match e
    case Upload(path, p, _, _) => NotReferred(s, path, p.stem)
    case CleanupCompletes(n, _) => O.Active(s, n)
    case CleanupBreaks(n, _, _, _, _, _) => O.Active(s, n)
    case _ => true
  }

  ghost function Next(s: State, e: Event): State {
    if !Enabled(s, e) then s
    else
      match e
      case Upload(path, p, keepLast, listing) =>
        s.(dirs := s.dirs[path := AfterUpload(O.DirAt(s, path), p, keepLast, listing)])
      case Record(n, series, storage, job, artifact, keepLast, now) =>
        s.(records := AfterPersist(s.records, n, series, storage, job, artifact, keepLast, now))
      case UserDelete(n) => s.(records := Deleted(s.records, n))
      case ReconcileSnapshot(n, storages) => O.Reconciled(s, n, storages)
      case CleanupCompletes(n, at) => O.Cleaned(s, n, at)
      case CleanupBreaks(n, archive, sum, meta, latest, at) => O.HalfCleaned(s, n, archive, sum, meta, latest, at)
      case JobExpires(n) => s.(jobs := s.jobs - {n})
  }

  ghost function Reached(run: seq<Event>): State {
    if run == [] then O.INITIAL else Next(Reached(run[..|run| - 1]), run[|run| - 1])
  }

  ghost predicate Admissible(run: seq<Event>) {
    run != [] ==>
      Admissible(run[..|run| - 1]) && Enabled(Reached(run[..|run| - 1]), run[|run| - 1])
  }

  ghost function OverAfter(s: State, e: Event, before: set<string>): set<string> {
    match e
    case Record(n, _, _, _, artifact, _, _) =>
      if n !in s.jobs then before
      else if s.jobs[n].stem == artifact.stem && s.jobs[n].backendPath == artifact.backendPath then before - {n}
      else before + {n}
    case JobExpires(n) => before - {n}
    case _ => before
  }

  /** The names of the records that were written over, since their cleanup Job was rendered, with an
      artifact other than the one the Job removes. */
  ghost function WrittenOver(run: seq<Event>): set<string> {
    if run == [] then {}
    else OverAfter(Reached(run[..|run| - 1]), run[|run| - 1], WrittenOver(run[..|run| - 1]))
  }

  lemma Onwards(run: seq<Event>, e: Event)
    ensures Reached(run + [e]) == Next(Reached(run), e)
    ensures WrittenOver(run + [e]) == OverAfter(Reached(run), e, WrittenOver(run))
    ensures Admissible(run + [e]) <==> Admissible(run) && Enabled(Reached(run), e)
  {
    assert (run + [e])[..|run + [e]| - 1] == run;
  }

  // ---------------------------------------------------------------- what holds throughout

  ghost predicate Sound(records: Records) {
    forall n | n in records :: records[n].name == n && (records[n].deleting ==> records[n].finalizers != {})
  }

  /** At most one undeleted record of a series carries the `Latest` flag. */
  ghost predicate OneLatest(records: Records) {
    forall m, n | m in records && n in records && records[m].series == records[n].series
                  && records[m].latest && records[n].latest
                  && !records[m].deleting && !records[n].deleting ::
      m == n
  }

  /** A completed cleanup Job has removed its files. */
  ghost predicate JobsTell(s: State) {
    forall n | n in s.jobs && TerminalState(s.jobs[n].conditions) == Some(Succeeded) ::
      O.FilesGone(O.DirAt(s, s.jobs[n].backendPath), s.jobs[n].stem)
  }

  predicate RendersFrom(j: CleanupJob, r: Snapshot) {
    j.stem == r.stem && j.backendPath == r.backendPath
  }

  /** `over` are the names whose cleanup Job removes something else than their record refers to. */
  ghost predicate Tracks(s: State, over: set<string>) {
    && over <= s.jobs.Keys
    && forall n | n in s.jobs && n in s.records :: RendersFrom(s.jobs[n], s.records[n]) <==> n !in over
  }

  ghost predicate Inv(s: State, over: set<string>) {
    Sound(s.records) && OneLatest(s.records) && JobsTell(s) && Tracks(s, over)
  }
}
