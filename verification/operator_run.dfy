/** Whole runs of the operator over one namespace: uploads with their pruning, observed backups
    with their retention pass, user deletes, the snapshot reconciler and its cleanup Jobs. */
module OperatorRun {
  import opened Options
  import opened Strings
  import opened Snapshots
  import opened NativeJobs
  import opened Finalizer
  import opened NfsBackend
  import opened Series

  /** An upload that has finished on the backend and has not been recorded yet. */
  datatype Pending = Pending(p: Package, keepLast: int)

  /** The records, the cleanup Jobs by the record they belong to, the backup directories by
      backend path, and the uploads in flight by series. */
  datatype State = State(records: Records, jobs: map<string, CleanupJob>, dirs: map<string, Dir>,
                         pending: map<string, Pending>)

  const INITIAL := State(map[], map[], map[], map[])

  datatype Event =
    /** The upload script of a backup runs to its end. */
    | Upload(series: string, p: Package, keepLast: int, listing: Option<set<string>>)
    /** The controller sees the native Job complete and records the uploaded artifact. */
    | Observe(name: string, series: string, storage: string, job: FinishedJob, keepLast: int, now: int)
    /** The controller sees a Job again whose record is still there. */
    | Reobserve(name: string, keepLast: int)
    /** A Job is seen again whose record is gone: its run is recorded anew, with the artifact that its
        pod still reports. It may be any run, whether it was recorded before or not. */
    | Recreate(name: string, series: string, storage: string, job: FinishedJob, p: Package, keepLast: int, now: int)
    | UserDelete(name: string)
    | ReconcileSnapshot(name: string, storages: set<string>)
    /** The cleanup script of a record's Job runs to its end. */
    | CleanupCompletes(name: string, at: int)
    /** The cleanup script breaks off: it has removed some of its files, and `latest.json` may say
        anything. */
    | CleanupBreaks(name: string, archive: bool, sum: bool, meta: bool, latest: Option<Metadata>, at: int)
    /** A cleanup Job is garbage-collected. */
    | JobExpires(name: string)

  function DirAt(s: State, path: string): Dir {
    if path in s.dirs then s.dirs[path] else EMPTY_DIR
  }

  function WithoutSome(d: Dir, stem: string, archive: bool, sum: bool, meta: bool, latest: Option<Metadata>): Dir {
    Dir(if archive then d.archives - {stem} else d.archives,
        if sum then d.sums - {stem} else d.sums,
        if meta then d.metas - {stem} else d.metas,
        latest)
  }

  function Finished(job: CleanupJob, kind: ConditionType, at: int): CleanupJob {
    job.(conditions := job.conditions + [Condition(kind, true, at)])
  }

  predicate Active(s: State, n: string) {
    n in s.jobs && TerminalState(s.jobs[n].conditions) == None
  }

  function ArtifactOf(p: Package, series: string): Artifact
    requires SeriesLike(series)
  {
    Artifact(p.stem, BackendPathOf(series), p.sum, p.meta.size)
  }

  function Again(records: Records, n: string, keepLast: int): Records
    requires n in records
  {
    var r := records[n];
    AfterPersist(records, n, r.series, r.storage, FinishedJob(r.nativeJob, r.startedAt, r.completedAt),
                 Artifact(r.stem, r.backendPath, r.checksum, r.size), keepLast, r.createdAt)
  }

  // ---------------------------------------------------------------- what each event does

  function Uploaded(s: State, series: string, p: Package, keepLast: int, listing: Option<set<string>>): State
    requires SeriesLike(series)
  {
    var path := BackendPathOf(series);
    s.(dirs := s.dirs[path := AfterUpload(DirAt(s, path), p, keepLast, listing)],
       pending := s.pending[series := Pending(p, keepLast)])
  }

  function Observed(s: State, n: string, series: string, storage: string, job: FinishedJob,
                    keepLast: int, now: int): State
    requires SeriesLike(series) && series in s.pending
  {
    s.(records := AfterPersist(s.records, n, series, storage, job,
                               ArtifactOf(s.pending[series].p, series), keepLast, now),
       pending := s.pending - {series})
  }

  /** The record that seeing a Job again creates. */
  function Anew(n: string, series: string, storage: string, job: FinishedJob, p: Package, now: int): Snapshot
    requires SeriesLike(series)
  {
    Recorded(map[], n, series, storage, job, ArtifactOf(p, series), now)
  }

  function Recreated(s: State, n: string, series: string, storage: string, job: FinishedJob, p: Package,
                     keepLast: int, now: int): State
    requires SeriesLike(series)
  {
    s.(records := AfterPersist(s.records, n, series, storage, job, ArtifactOf(p, series), keepLast, now))
  }

  function Reconciled(s: State, n: string, storages: set<string>): State {
    var c := AfterReconcile(Cluster(s.records, s.jobs), storages, n);
    s.(records := c.records, jobs := c.jobs)
  }

  ghost function Cleaned(s: State, n: string, at: int): State
    requires n in s.jobs
  {
    var j := s.jobs[n];
    s.(dirs := s.dirs[j.backendPath := AfterCleanup(DirAt(s, j.backendPath), j.stem, None)],
       jobs := s.jobs[n := Finished(j, Complete, at)])
  }

  function HalfCleaned(s: State, n: string, archive: bool, sum: bool, meta: bool,
                       latest: Option<Metadata>, at: int): State
    requires n in s.jobs
  {
    var j := s.jobs[n];
    s.(dirs := s.dirs[j.backendPath := WithoutSome(DirAt(s, j.backendPath), j.stem, archive, sum, meta, latest)],
       jobs := s.jobs[n := Finished(j, Failed, at)])
  }

  /** The state after an event; an event that cannot happen changes nothing. */
  ghost function Next(s: State, e: Event): State {
    if !Possible(s, e) then s
    else
      match e
      case Upload(series, p, keepLast, listing) => Uploaded(s, series, p, keepLast, listing)
      case Observe(n, series, storage, job, keepLast, now) => Observed(s, n, series, storage, job, keepLast, now)
      case Reobserve(n, keepLast) => s.(records := Again(s.records, n, keepLast))
      case Recreate(n, series, storage, job, p, keepLast, now) =>
        Recreated(s, n, series, storage, job, p, keepLast, now)
      case UserDelete(n) => s.(records := Deleted(s.records, n))
      case ReconcileSnapshot(n, storages) => Reconciled(s, n, storages)
      case CleanupCompletes(n, at) => Cleaned(s, n, at)
      case CleanupBreaks(n, archive, sum, meta, latest, at) => HalfCleaned(s, n, archive, sum, meta, latest, at)
      case JobExpires(n) => s.(jobs := s.jobs - {n})
  }

  /** What an event needs in order to happen at all. An archive name starts with a time stamp, storage
      and path come from names, `EffectiveKeepLast` is positive, and a complete Job has a completion
      time. */
  ghost predicate Possible(s: State, e: Event) {
    match e
    case Upload(series, p, _, _) => MayName(series, p.stem)
    case Observe(_, series, storage, job, keepLast, _) =>
      && SeriesLike(series) && series in s.pending
      && TrimSpace(storage) != "" && 0 < keepLast && job.completedAt.Some?
    case Reobserve(n, keepLast) => n in s.records && 0 < keepLast
    case Recreate(n, series, storage, job, p, keepLast, _) =>
      && MayName(series, p.stem)
      && n !in s.records
      && TrimSpace(storage) != "" && 0 < keepLast && job.completedAt.Some?
    case UserDelete(n) => n in s.records
    case ReconcileSnapshot(_, _) => true
    case CleanupCompletes(n, _) => Active(s, n)
    case CleanupBreaks(n, _, _, _, _, _) => Active(s, n)
    case JobExpires(n) => n in s.jobs
  }

  predicate MayName(series: string, stem: string) {
    SeriesLike(series) && TrimSpace(stem) != "" && TrimSpace(BackendPathOf(series)) != ""
  }

  // ---------------------------------------------------------------- what is assumed of a run

  /** The assumptions under which the two retention tiers agree. */
  datatype Guard =
    /** An upload comes only when the one before it has been recorded. */
    | EachRecorded
    /** The name of an uploaded archive is the latest of its series. */
    | ArchivesInOrder
    /** The recorded run is the last of its series to complete. */
    | RunsInOrder
    /** Recording an upload keeps no more records than the upload kept archives. */
    | SameNumbers
    /** A run that writes over a record writes over the oldest one left. */
    | OldestOverwritten
    /** A run is not recorded under the name of a record whose cleanup Job is still there. */
    | NoLeftoverJob
    /** A record without finalizers is deleted only when it is the oldest one left. */
    | OldestDeleted
    /** A record that vanishes while an upload waits does not save a record whose archive is gone. */
    | HarmlessVanishing
    /** A Job seen again whose record is gone brings back a record that the pass deletes at once, or one
        whose archive is still there, in line with the others. */
    | HarmlessReturn

  ghost predicate LatestArchive(s: State, series: string, stem: string)
    requires SeriesLike(series)
  {
    && (forall f | f in DirAt(s, BackendPathOf(series)).archives :: ArchiveAfter(stem, f))
    && (forall n | n in s.records && s.records[n].series == series :: ArchiveAfter(stem, s.records[n].stem))
  }

  ghost predicate LatestCompletion(s: State, n: string, series: string, job: FinishedJob) {
    job.completedAt.Some? ==>
      forall m | m in s.records && m != n && s.records[m].series == series ::
        SortTime(s.records[m]) < job.completedAt.value
  }

  ghost predicate WithinNumbers(s: State, series: string, keepLast: int) {
    series in s.pending && 0 < s.pending[series].keepLast ==> keepLast <= s.pending[series].keepLast
  }

  /** No undeleted record of the series is older than `n`. */
  ghost predicate OldestLive(records: Records, n: string)
    requires n in records
  {
    forall m | m in records && m != n && records[m].series == records[n].series && !records[m].deleting ::
      NewerFirst(records[m], records[n])
  }

  ghost predicate OverwritesOldest(s: State, n: string, series: string) {
    n in s.records ==> s.records[n].series == series && OldestLive(s.records, n)
  }

  /** An undeleted record of a series whose archive is not there. */
  ghost predicate Pruned(s: State, k: string, series: string) {
    && k in s.records && s.records[k].series == series && Live(s.records[k])
    && s.records[k].stem !in DirAt(s, s.records[k].backendPath).archives
  }

  /** Every record that the waiting upload pruned and that is older than `m` has `keepLast` newer
      records, so that one of them may go. */
  ghost predicate Harmless(s: State, m: string)
    requires m in s.records
  {
    s.records[m].series in s.pending ==>
      forall k | Pruned(s, k, s.records[m].series) && NewerFirst(s.records[m], s.records[k]) ::
        s.pending[s.records[m].series].keepLast <= Newer(s.records, s.records[k])
  }

  /** The pass that follows deletes the record `r` at once. */
  ghost predicate GoesAtOnce(s: State, r: Snapshot, keepLast: int) {
    keepLast <= Newer(s.records[r.name := r], r)
  }

  /** The record `r` and its archive are in the same order to the others of the series, and every later
      archive has its record or waits for it. */
  ghost predicate InLine(s: State, r: Snapshot) {
    && (forall m | m in s.records && s.records[m].series == r.series ::
          && (NewerFirst(r, s.records[m]) ==> ArchiveAfter(r.stem, s.records[m].stem))
          && (NewerFirst(s.records[m], r) ==> ArchiveAfter(s.records[m].stem, r.stem)))
    && (r.series in s.pending ==> ArchiveAfter(s.pending[r.series].p.stem, r.stem))
    && (forall f | f in DirAt(s, r.backendPath).archives && ArchiveAfter(f, r.stem) ::
          HasRecord(s.records, r.series, f) || (r.series in s.pending && s.pending[r.series].p.stem == f))
  }

  ghost predicate ReturnsHarmlessly(s: State, r: Snapshot, keepLast: int) {
    GoesAtOnce(s, r, keepLast) || (r.stem in DirAt(s, r.backendPath).archives && InLine(s, r))
  }

  ghost predicate Meets(g: Guard, s: State, e: Event)
    requires Possible(s, e)
  {
    match g
    case EachRecorded => e.Upload? ==> e.series !in s.pending
    case ArchivesInOrder => e.Upload? ==> LatestArchive(s, e.series, e.p.stem)
    case RunsInOrder => e.Observe? ==> LatestCompletion(s, e.name, e.series, e.job)
    case SameNumbers => e.Observe? ==> WithinNumbers(s, e.series, e.keepLast)
    case OldestOverwritten => e.Observe? ==> OverwritesOldest(s, e.name, e.series)
    case NoLeftoverJob => e.Observe? || e.Recreate? ==> e.name !in s.jobs
    case OldestDeleted =>
      e.UserDelete? && s.records[e.name].finalizers == {} ==> OldestLive(s.records, e.name)
    case HarmlessVanishing =>
      e.ReconcileSnapshot? && e.name in s.records && e.name !in Reconciled(s, e.name, e.storages).records ==>
        Harmless(s, e.name)
    case HarmlessReturn =>
      e.Recreate? ==> ReturnsHarmlessly(s, Anew(e.name, e.series, e.storage, e.job, e.p, e.now), e.keepLast)
  }

  /** An event may happen, the assumptions other than `waived` being met. */
  ghost predicate Enabled(waived: set<Guard>, s: State, e: Event) {
    Possible(s, e) && forall g: Guard | g !in waived :: Meets(g, s, e)
  }

  ghost predicate Admissible(waived: set<Guard>, s: State, run: seq<Event>)
    decreases |run|
  {
    run != [] ==> Enabled(waived, s, run[0]) && Admissible(waived, Next(s, run[0]), run[1..])
  }

  ghost function Reached(s: State, run: seq<Event>): State
    decreases |run|
  {
    if run == [] then s else Reached(Next(s, run[0]), run[1..])
  }

  // ---------------------------------------------------------------- the assumptions, event by event

  ghost predicate MayUpload(s: State, series: string, p: Package) {
    MayName(series, p.stem) && series !in s.pending && LatestArchive(s, series, p.stem)
  }

  ghost predicate MayObserve(s: State, n: string, series: string, storage: string, job: FinishedJob, keepLast: int) {
    && SeriesLike(series) && series in s.pending
    && TrimSpace(storage) != "" && 0 < keepLast && job.completedAt.Some?
    && LatestCompletion(s, n, series, job) && WithinNumbers(s, series, keepLast)
    && OverwritesOldest(s, n, series) && n !in s.jobs
  }

  ghost predicate MayDelete(s: State, n: string) {
    n in s.records && (s.records[n].finalizers == {} ==> OldestLive(s.records, n))
  }

  ghost predicate MayReconcile(s: State, n: string, storages: set<string>) {
    n in s.records && n !in Reconciled(s, n, storages).records ==> Harmless(s, n)
  }

  ghost predicate MayRecreate(s: State, n: string, series: string, storage: string, job: FinishedJob, p: Package,
                              keepLast: int, now: int) {
    && MayName(series, p.stem) && n !in s.records && n !in s.jobs
    && TrimSpace(storage) != "" && 0 < keepLast && job.completedAt.Some?
    && ReturnsHarmlessly(s, Anew(n, series, storage, job, p, now), keepLast)
  }

  lemma EnabledMay(s: State, e: Event)
    requires Enabled({}, s, e)
    ensures e.Recreate? ==> MayRecreate(s, e.name, e.series, e.storage, e.job, e.p, e.keepLast, e.now)
    ensures e.Upload? ==> MayUpload(s, e.series, e.p)
    ensures e.Observe? ==> MayObserve(s, e.name, e.series, e.storage, e.job, e.keepLast)
    ensures e.UserDelete? ==> MayDelete(s, e.name)
    ensures e.ReconcileSnapshot? ==> MayReconcile(s, e.name, e.storages)
  {
    assert Meets(EachRecorded, s, e) && Meets(ArchivesInOrder, s, e) && Meets(RunsInOrder, s, e);
    assert Meets(SameNumbers, s, e) && Meets(OldestOverwritten, s, e) && Meets(NoLeftoverJob, s, e);
    assert Meets(OldestDeleted, s, e) && Meets(HarmlessVanishing, s, e) && Meets(HarmlessReturn, s, e);
  }

  // ---------------------------------------------------------------- what holds throughout

  predicate Live(r: Snapshot) {
    !r.deleting && r.ready
  }

  ghost predicate RecordOk(n: string, r: Snapshot) {
    && r.name == n
    && SeriesLike(r.series) && r.backendPath == BackendPathOf(r.series)
    && r.completedAt.Some?
    && (r.deleting ==> r.finalizers != {})
  }

  ghost predicate RecordsOk(records: Records) {
    forall n | n in records :: RecordOk(n, records[n])
  }

  ghost predicate AllRemovable(records: Records) {
    forall n | n in records :: Removable(records[n])
  }

  /** Records and archives of a series are in the same order. */
  ghost predicate SameOrders(records: Records) {
    forall m, n | m in records && n in records && records[m].series == records[n].series
                  && NewerFirst(records[m], records[n]) ::
      ArchiveAfter(records[m].stem, records[n].stem)
  }

  ghost predicate HasRecord(records: Records, series: string, stem: string) {
    exists n :: n in records && records[n].series == series && records[n].stem == stem
  }

  /** An archive that sorts after that of an undeleted record has a record of its own, or is about
      to get one. */
  ghost predicate NoStrayArchive(s: State) {
    forall n, f | n in s.records && Live(s.records[n])
                  && f in DirAt(s, s.records[n].backendPath).archives
                  && ArchiveAfter(f, s.records[n].stem) ::
      || HasRecord(s.records, s.records[n].series, f)
      || (s.records[n].series in s.pending && s.pending[s.records[n].series].p.stem == f)
  }

  /** A waiting upload has its archive on the backend, later than every other archive and record
      of the series. */
  ghost predicate PendingAt(s: State, series: string)
    requires series in s.pending
  {
    var stem := s.pending[series].p.stem;
    && SeriesLike(series)
    && TrimSpace(stem) != "" && TrimSpace(BackendPathOf(series)) != ""
    && stem in DirAt(s, BackendPathOf(series)).archives
    && (forall f | f in DirAt(s, BackendPathOf(series)).archives && f != stem :: ArchiveAfter(stem, f))
    && (forall n | n in s.records && s.records[n].series == series :: ArchiveAfter(stem, s.records[n].stem))
  }

  ghost predicate PendingOk(s: State) {
    forall series | series in s.pending :: PendingAt(s, series)
  }

  /** The archive of a record is there; or an upload is waiting to be recorded that pruned it, and
      recording that upload will delete the record too. */
  ghost predicate Restorable(s: State, n: string)
    requires n in s.records
  {
    var r := s.records[n];
    || r.stem in DirAt(s, r.backendPath).archives
    || (r.series in s.pending && 0 < s.pending[r.series].keepLast <= Newer(s.records, r) + 1)
  }

  ghost predicate AllRestorable(s: State) {
    forall n | n in s.records && Live(s.records[n]) :: Restorable(s, n)
  }

  /** What a cleanup Job says about its record. */
  ghost predicate JobOk(s: State, n: string)
    requires n in s.jobs
  {
    var j := s.jobs[n];
    && (n in s.records ==>
          && s.records[n].deleting
          && j.backendPath == s.records[n].backendPath && j.stem == s.records[n].stem
          && (TerminalState(j.conditions) == Some(Succeeded) ==> FilesGone(DirAt(s, j.backendPath), j.stem)))
    && (TerminalState(j.conditions) == None ==> n in s.records)
  }

  ghost predicate JobsOk(s: State) {
    forall n | n in s.jobs :: JobOk(s, n)
  }

  ghost predicate FilesGone(d: Dir, stem: string) {
    stem !in d.archives && stem !in d.sums && stem !in d.metas
  }

  ghost predicate Inv(s: State) {
    && RecordsOk(s.records)
    && AllRemovable(s.records)
    && SameOrders(s.records)
    && NoStrayArchive(s)
    && PendingOk(s)
    && AllRestorable(s)
    && JobsOk(s)
  }
}
