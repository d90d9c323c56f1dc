/** What holds over every run of `AnyRuns`. */
module AnyRunTheorems {
  import opened Options
  import opened Snapshots
  import opened NativeJobs
  import opened Finalizer
  import opened NfsBackend
  import opened AnyRuns
  import O = OperatorRun
  import E = OperatorEvents

  // ---------------------------------------------------------------- recording

  /** What the proofs use of a retention pass, or of any event that only flags, marks and removes. */
  ghost predicate Lesser(a: Records, b: Records) {
    forall n | n in b ::
      && n in a && b[n].stem == a[n].stem && b[n].backendPath == a[n].backendPath
      && b[n].name == a[n].name && (b[n].deleting ==> b[n].finalizers != {})
  }

  lemma LesserInv(s: State, t: State, over: set<string>)
    requires Sound(s.records) && JobsTell(s) && Tracks(s, over)
    requires t == s.(records := t.records) && Lesser(s.records, t.records)
    ensures Sound(t.records) && JobsTell(t) && Tracks(t, over)
  {
  }

  /** No two undeleted records of one series carry the flag, this series aside. */
  ghost predicate OneLatestElsewhere(records: Records, series: string) {
    forall m, n | m in records && n in records && records[m].series == records[n].series != series
                  && records[m].latest && records[n].latest
                  && !records[m].deleting && !records[n].deleting ::
      m == n
  }

  lemma PassLatest(records: Records, series: string, keepLast: int, latestName: string)
    requires OneLatestElsewhere(records, series)
    ensures OneLatest(AfterPass(records, series, keepLast, latestName))
  {
  }

  lemma PassLesser(records: Records, series: string, keepLast: int, latestName: string)
    requires Sound(records)
    ensures Lesser(records, AfterPass(records, series, keepLast, latestName))
  {
    var after := AfterPass(records, series, keepLast, latestName);
    forall n | n in after ensures after[n].deleting ==> after[n].finalizers != {} {
      assert records[n].deleting ==> records[n].finalizers != {};
    }
  }

  lemma RecordedSound(records: Records, n: string, series: string, storage: string, job: FinishedJob,
                      artifact: Artifact, now: int)
    requires Sound(records)
    ensures Sound(records[n := Recorded(records, n, series, storage, job, artifact, now)])
  {
  }

  lemma RecordedTracks(s: State, e: Event, over: set<string>, recorded: Snapshot)
    requires Tracks(s, over) && e.Record?
    requires recorded.stem == e.artifact.stem && recorded.backendPath == e.artifact.backendPath
    ensures Tracks(s.(records := s.records[e.name := recorded]), OverAfter(s, e, over))
  {
  }

  lemma RecordInv(s: State, e: Event, over: set<string>)
    requires Inv(s, over) && e.Record?
    ensures Inv(Next(s, e), OverAfter(s, e, over))
  {
    var recorded := Recorded(s.records, e.name, e.series, e.storage, e.job, e.artifact, e.now);
    var t := s.(records := s.records[e.name := recorded]);
    RecordedSound(s.records, e.name, e.series, e.storage, e.job, e.artifact, e.now);
    RecordedTracks(s, e, over, recorded);
    assert OneLatestElsewhere(t.records, e.series);
    PassLatest(t.records, e.series, e.keepLast, e.name);
    PassLesser(t.records, e.series, e.keepLast, e.name);
    LesserInv(t, Next(s, e), OverAfter(s, e, over));
  }

  // ---------------------------------------------------------------- the other events

  lemma DeleteInv(s: State, n: string, over: set<string>)
    requires Inv(s, over)
    ensures Inv(s.(records := Deleted(s.records, n)), over)
  {
    var t := s.(records := Deleted(s.records, n));
    assert Lesser(s.records, t.records);
    LesserInv(s, t, over);
  }

  /** Neither series nor deletion marks nor flags differ. */
  ghost predicate Reflagless(a: Records, b: Records) {
    forall n | n in b ::
      n in a && b[n].latest == a[n].latest && b[n].deleting == a[n].deleting && b[n].series == a[n].series
  }

  /** The reconciler changes one record, its finalizers only, or drops it; or it adds a cleanup Job
      rendered from the record. */
  lemma ReconcileEffect(s: State, n: string, storages: set<string>)
    requires Sound(s.records)
    ensures var t := O.Reconciled(s, n, storages);
            && t.dirs == s.dirs && Lesser(s.records, t.records)
            && (t.jobs == s.jobs
                || (n in s.records && n !in s.jobs && t.jobs == s.jobs[n := Rendered(s.records[n])]
                    && t.records == s.records))
  {
  }

  lemma ReconcileKeepsFlags(s: State, n: string, storages: set<string>)
    ensures Reflagless(s.records, O.Reconciled(s, n, storages).records)
  {
  }

  lemma ReconcileInv(s: State, n: string, storages: set<string>, over: set<string>)
    requires Inv(s, over)
    ensures Inv(O.Reconciled(s, n, storages), over)
  {
    var t := O.Reconciled(s, n, storages);
    ReconcileEffect(s, n, storages);
    ReconcileKeepsFlags(s, n, storages);
    if t.jobs == s.jobs {
      LesserInv(s, t, over);
    } else {
      assert TerminalState(t.jobs[n].conditions).None?;
    }
  }

  lemma UploadInv(s: State, path: string, p: Package, keepLast: int, listing: Option<set<string>>,
                  over: set<string>)
    requires Inv(s, over) && NotReferred(s, path, p.stem)
    ensures Inv(Next(s, Upload(path, p, keepLast, listing)), over)
  {
  }

  lemma CleanupInv(s: State, t: State, n: string, kind: ConditionType, over: set<string>)
    requires Inv(s, over) && O.Active(s, n) && E.CleanedAt(s, t, n, kind)
    ensures Inv(t, over)
  {
  }

  lemma StepInv(run: seq<Event>, e: Event)
    requires Inv(Reached(run), WrittenOver(run)) && Enabled(Reached(run), e)
    ensures Inv(Reached(run + [e]), WrittenOver(run + [e]))
  {
    var s, over := Reached(run), WrittenOver(run);
    Onwards(run, e);
    match e {
      case Upload(path, p, keepLast, listing) =>
        UploadInv(s, path, p, keepLast, listing, over);
      case Record(_, _, _, _, _, _, _) =>
        RecordInv(s, e, over);
      case UserDelete(n) =>
        DeleteInv(s, n, over);
      case ReconcileSnapshot(n, storages) =>
        ReconcileInv(s, n, storages, over);
      case CleanupCompletes(n, at) =>
        E.CleanedEffect(s, n, at);
        CleanupInv(s, O.Cleaned(s, n, at), n, Complete, over);
      case CleanupBreaks(n, archive, sum, meta, latest, at) =>
        E.HalfCleanedEffect(s, n, archive, sum, meta, latest, at);
        CleanupInv(s, O.HalfCleaned(s, n, archive, sum, meta, latest, at), n, Failed, over);
      case JobExpires(n) =>
    }
  }

  lemma {:induction false} RunInv(run: seq<Event>)
    requires Admissible(run)
    ensures Inv(Reached(run), WrittenOver(run))
  {
    if run != [] {
      var n := |run| - 1;
      RunInv(run[..n]);
      assert run == run[..n] + [run[n]];
      StepInv(run[..n], run[n]);
    }
  }

  // ---------------------------------------------------------------- the guarantees

  /** At most one undeleted record of a series is flagged `Latest`, after any run. */
  lemma OneLatestThroughout(run: seq<Event>, m: string, n: string)
    requires Admissible(run)
    requires var records := Reached(run).records;
             && m in records && n in records && records[m].series == records[n].series
             && records[m].latest && !records[m].deleting && records[n].latest && !records[n].deleting
    ensures m == n
  {
    RunInv(run);
  }

  /** Whether the event takes the cleanup finalizer off record `n`, or the record with its finalizer
      out of the store. */
  ghost predicate LetsGo(s: State, e: Event, n: string) {
    && n in s.records && CLEANUP_FINALIZER in s.records[n].finalizers
    && (n !in Next(s, e).records || CLEANUP_FINALIZER !in Next(s, e).records[n].finalizers)
  }

  /** An event other than a reconciliation leaves the finalizers of a record that has some. */
  lemma OthersKeepFinalizers(s: State, e: Event, n: string)
    requires !e.ReconcileSnapshot? && n in s.records && s.records[n].finalizers != {}
    ensures n in Next(s, e).records && Next(s, e).records[n].finalizers == s.records[n].finalizers
  {
    if e.Record? {
      var recorded := Recorded(s.records, e.name, e.series, e.storage, e.job, e.artifact, e.now);
      PassKeepsFinalizers(s.records[e.name := recorded], e.series, e.keepLast, e.name, n);
    }
  }

  lemma PassKeepsFinalizers(records: Records, series: string, keepLast: int, latestName: string, n: string)
    requires n in records && records[n].finalizers != {}
    ensures var after := AfterPass(records, series, keepLast, latestName);
            n in after && after[n].finalizers == records[n].finalizers
  {
  }

  /** What the reconciler does to the finalizers of any record. */
  lemma ReconcileFinalizers(s: State, storages: set<string>, m: string, n: string)
    requires n in s.records
    ensures var after := O.Reconciled(s, m, storages).records;
            && (n != m ==> n in after && after[n] == s.records[n])
            && (n in after && CLEANUP_FINALIZER !in s.records[n].finalizers && s.records[n].deleting ==>
                  after[n].finalizers == s.records[n].finalizers)
            && (n !in after || CLEANUP_FINALIZER !in after[n].finalizers ==>
                  CLEANUP_FINALIZER !in s.records[n].finalizers
                  || (&& n == m && s.records[n].deleting
                      && (Removable(s.records[n]) ==>
                            n in s.jobs && TerminalState(s.jobs[n].conditions) == Some(Succeeded))))
  {
  }

  /** Finalizer safety: after any run, a record that points at artifacts is let go only by the
      reconciler, while it is being deleted, and when its cleanup Job has completed, so that the three
      files this Job was rendered for are gone. They are the files of the record itself, unless it was
      written over with another artifact since the Job was rendered. */
  lemma FinalizerSafety(run: seq<Event>, e: Event, n: string)
    requires Admissible(run) && LetsGo(Reached(run), e, n) && Removable(Reached(run).records[n])
    ensures var s := Reached(run);
            var r := s.records[n];
            && e.ReconcileSnapshot? && e.name == n && r.deleting
            && n in s.jobs && TerminalState(s.jobs[n].conditions) == Some(Succeeded)
            && O.FilesGone(O.DirAt(s, s.jobs[n].backendPath), s.jobs[n].stem)
            && (n !in WrittenOver(run) ==> O.FilesGone(O.DirAt(s, r.backendPath), r.stem))
  {
    RunInv(run);
    var s := Reached(run);
    if e.ReconcileSnapshot? {
      ReconcileFinalizers(s, e.storages, e.name, n);
    } else {
      OthersKeepFinalizers(s, e, n);
    }
    assert Tracks(s, WrittenOver(run));
  }

  /** After any run, no event adds the finalizer to a record that is already being deleted. */
  lemma FinalizerNotAddedLate(run: seq<Event>, e: Event, n: string)
    requires Admissible(run)
    requires var s := Reached(run);
             n in s.records && s.records[n].deleting && CLEANUP_FINALIZER !in s.records[n].finalizers
    ensures var t := Reached(run + [e]);
            n in t.records ==> CLEANUP_FINALIZER !in t.records[n].finalizers
  {
    RunInv(run);
    Onwards(run, e);
    var s := Reached(run);
    assert s.records[n].finalizers != {};
    if e.ReconcileSnapshot? {
      ReconcileFinalizers(s, e.storages, e.name, n);
    } else {
      OthersKeepFinalizers(s, e, n);
    }
  }

  // ---------------------------------------------------------------- written over while cleaned up

  /** A record that is being deleted, with its cleanup Job at work and its archive on the backend, the
      storage being there. */
  ghost predicate BeingCleaned(s: State, n: string, storages: set<string>) {
    && O.Active(s, n) && n in s.records && s.records[n].deleting
    && s.records[n].finalizers == {CLEANUP_FINALIZER} && Removable(s.records[n])
    && s.records[n].storage in storages
    && s.records[n].stem in O.DirAt(s, s.records[n].backendPath).archives
  }

  /** When the cleanup Job completes and the reconciler lets the record go, the record's files are gone
      exactly if it was not written over with another artifact since the Job was rendered. */
  lemma WrittenOverExact(run: seq<Event>, n: string, at: int, storages: set<string>)
    requires Admissible(run) && BeingCleaned(Reached(run), n, storages)
    ensures Admissible(run + [CleanupCompletes(n, at)] + [ReconcileSnapshot(n, storages)])
    ensures var r := Reached(run).records[n];
            var t := Reached(run + [CleanupCompletes(n, at)] + [ReconcileSnapshot(n, storages)]);
            && n !in t.records
            && (O.FilesGone(O.DirAt(t, r.backendPath), r.stem) <==> n !in WrittenOver(run))
  {
    RunInv(run);
    Onwards(run, CleanupCompletes(n, at));
    Onwards(run + [CleanupCompletes(n, at)], ReconcileSnapshot(n, storages));
    CleanedAndGone(Reached(run), n, at, storages);
    assert Tracks(Reached(run), WrittenOver(run));
  }

  lemma CleanedAndGone(s: State, n: string, at: int, storages: set<string>)
    requires BeingCleaned(s, n, storages)
    ensures Enabled(s, CleanupCompletes(n, at))
    ensures var t := Next(Next(s, CleanupCompletes(n, at)), ReconcileSnapshot(n, storages));
            var r := s.records[n];
            && n !in t.records
            && (O.FilesGone(O.DirAt(t, r.backendPath), r.stem) <==> RendersFrom(s.jobs[n], r))
  {
    E.CleanedEffect(s, n, at);
    assert s.records[n].finalizers - {CLEANUP_FINALIZER} == {};
  }

  /** A record that is being deleted, with its archive on the backend and a cleanup Job that has already
      completed: the Job is that of an earlier artifact, and the record goes at once and leaves its
      archive behind. */
  lemma LeftoverJobLoses(run: seq<Event>, n: string, storages: set<string>)
    requires Admissible(run)
    requires var s := Reached(run);
             && n in s.records && s.records[n].deleting && s.records[n].finalizers == {CLEANUP_FINALIZER}
             && Removable(s.records[n]) && s.records[n].storage in storages
             && s.records[n].stem in O.DirAt(s, s.records[n].backendPath).archives
             && n in s.jobs && TerminalState(s.jobs[n].conditions) == Some(Succeeded)
    ensures n in WrittenOver(run)
    ensures var r := Reached(run).records[n];
            var t := Reached(run + [ReconcileSnapshot(n, storages)]);
            n !in t.records && r.stem in O.DirAt(t, r.backendPath).archives
  {
    RunInv(run);
    Onwards(run, ReconcileSnapshot(n, storages));
    assert Reached(run).records[n].finalizers - {CLEANUP_FINALIZER} == {};
  }
}
