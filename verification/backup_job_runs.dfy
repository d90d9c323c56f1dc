/** Whole runs of the BackupJob controller over all the BackupJobs of a namespace, with native Jobs
    that progress, vanish and are created again, and records that others delete. */
module BackupJobRuns {
  import opened Options
  import opened NativeJobs
  import opened Snapshots
  import opened JobStatus
  import opened Observations
  import opened BackupJobs

  datatype Backup = Backup(own: Own, snapshotRef: string)

  /** The BackupJobs by the name of their native Job, and the snapshot records. */
  datatype Fleet = Fleet(jobs: map<string, Backup>, records: Records)

  const INITIAL := Fleet(map[], map[])

  datatype Event =
    | Ask(job: string)
    | Reconcile(job: string, e: Env)
    /** The cluster reports something new of a native Job. */
    | Progress(job: string, native: NativeJob)
    /** A native Job is deleted, by hand or when its time to live is over. */
    | Collect(job: string)
    /** Users, the snapshot reconciler and other controllers delete or mark records. */
    | Elsewhere(records: Records)

  /** What a record says of the run it stems from. */
  datatype Origin = Origin(run: FinishedJob, artifact: Artifact)

  function OriginOf(s: Snapshot): Origin {
    Origin(FinishedJob(s.nativeJob, s.startedAt, s.completedAt), Artifact(s.stem, s.backendPath, s.checksum, s.size))
  }

  function Yielded(j: NativeJob): Origin
    requires Yields(j)
  {
    Origin(RunOf(j), j.report.artifact.value)
  }

  predicate SameOrigins(records: Records, after: Records) {
    forall n | n in after :: n in records && OriginOf(after[n]) == OriginOf(records[n])
  }

  predicate Enabled(f: Fleet, e: Event) {
    match e
    case Ask(job) => job !in f.jobs
    case Reconcile(job, _) => job in f.jobs
    case Progress(job, native) =>
      job in f.jobs && f.jobs[job].own.native.Some? && Progresses(f.jobs[job].own.native.value, native)
    case Collect(job) => job in f.jobs
    case Elsewhere(records) => SameOrigins(f.records, records)
  }

  function Reconciled(f: Fleet, job: string, e: Env): Fleet
    requires job in f.jobs
  {
    var w := AfterReconcile(World(f.jobs[job].own, f.jobs[job].snapshotRef, f.records), e, job);
    Fleet(f.jobs[job := Backup(w.own, w.snapshotRef)], w.records)
  }

  function WithNative(f: Fleet, job: string, native: Option<NativeJob>): Fleet
    requires job in f.jobs
  {
    f.(jobs := f.jobs[job := f.jobs[job].(own := f.jobs[job].own.(native := native))])
  }

  function Next(f: Fleet, e: Event): Fleet
    requires Enabled(f, e)
  {
    match e
    case Ask(job) => f.(jobs := f.jobs[job := Backup(NEW_OWN, "")])
    case Reconcile(job, env) => Reconciled(f, job, env)
    case Progress(job, native) => WithNative(f, job, Some(native))
    case Collect(job) => WithNative(f, job, None)
    case Elsewhere(records) => f.(records := records)
  }

  predicate Admissible(f: Fleet, run: seq<Event>)
    decreases |run|
  {
    run != [] ==> Enabled(f, run[0]) && Admissible(Next(f, run[0]), run[1..])
  }

  function Reached(f: Fleet, run: seq<Event>): Fleet
    requires Admissible(f, run)
    decreases |run|
  {
    if run == [] then f else Reached(Next(f, run[0]), run[1..])
  }

  // ---------------------------------------------------------------- where records come from

  /** The runs that completed and told of an artifact. */
  function Completed(run: seq<Event>): set<Origin> {
    set i | 0 <= i < |run| && run[i].Progress? && Yields(run[i].native) :: Yielded(run[i].native)
  }

  ghost predicate Stems(f: Fleet, completed: set<Origin>) {
    && (forall n | n in f.records :: OriginOf(f.records[n]) in completed)
    && (forall job | job in f.jobs && f.jobs[job].own.native.Some? && Yields(f.jobs[job].own.native.value) ::
          Yielded(f.jobs[job].own.native.value) in completed)
  }

  lemma PassOrigins(records: Records, series: string, keepLast: int, latestName: string)
    ensures SameOrigins(records, AfterPass(records, series, keepLast, latestName))
  {
  }

  lemma ObserveOrigins(records: Records, j: NativeJob, t: Target, c: Calls, n: string)
    requires n in AfterObserve(records, j, t, c)
    ensures var origin := OriginOf(AfterObserve(records, j, t, c)[n]);
            || (n in records && origin == OriginOf(records[n]))
            || (Yields(j) && origin == Yielded(j))
  {
    if Yields(j) && Found(j, t, c) != CallFailed {
      var recorded := Recorded(records, t.snapshotName, t.series, t.storage, RunOf(j), j.report.artifact.value, c.now);
      assert OriginOf(recorded) == Yielded(j);
      PassOrigins(records[t.snapshotName := recorded], t.series, t.keepLast, t.snapshotName);
    }
  }

  lemma ReconcileStems(f: Fleet, job: string, e: Env, completed: set<Origin>)
    requires Stems(f, completed) && job in f.jobs
    ensures Stems(Reconciled(f, job, e), completed)
  {
    var own := f.jobs[job].own;
    var after := Reconciled(f, job, e);
    assert after.jobs[job].own.native == own.native || after.jobs[job].own.native == Some(NewJob(job));
    forall n | n in after.records ensures OriginOf(after.records[n]) in completed {
      if after.records != f.records {
        ObserveOrigins(f.records, own.native.value, e.resolved.value.target, e.calls, n);
      }
    }
  }

  lemma StepStems(f: Fleet, e: Event, completed: set<Origin>)
    requires Stems(f, completed) && Enabled(f, e)
    ensures Stems(Next(f, e), completed + Completed([e]))
  {
    match e {
      case Reconcile(job, env) =>
        ReconcileStems(f, job, env, completed);
      case Progress(job, native) =>
        assert Yields(native) ==> [e][0].Progress? && Yielded(native) in Completed([e]);
      case _ =>
    }
  }

  lemma CompletedStep(run: seq<Event>)
    requires run != []
    ensures Completed(run) == Completed([run[0]]) + Completed(run[1..])
  {
    var rest := run[1..];
    forall o | o in Completed(rest) ensures o in Completed(run) {
      var i :| 0 <= i < |rest| && rest[i].Progress? && Yields(rest[i].native) && Yielded(rest[i].native) == o;
      assert run[i + 1] == rest[i];
    }
    forall o | o in Completed([run[0]]) ensures o in Completed(run) {
      assert run[0] == [run[0]][0];
    }
    forall o | o in Completed(run) ensures o in Completed([run[0]]) + Completed(rest) {
      var i :| 0 <= i < |run| && run[i].Progress? && Yields(run[i].native) && Yielded(run[i].native) == o;
      if i == 0 {
        assert [run[0]][0] == run[0];
      } else {
        assert rest[i - 1] == run[i];
      }
    }
  }

  lemma {:induction false} RunStems(f: Fleet, run: seq<Event>, completed: set<Origin>)
    requires Stems(f, completed) && Admissible(f, run)
    ensures Stems(Reached(f, run), completed + Completed(run))
    decreases |run|
  {
    if run == [] {
      assert Completed(run) == {};
    } else {
      StepStems(f, run[0], completed);
      RunStems(Next(f, run[0]), run[1..], completed + Completed([run[0]]));
      CompletedStep(run);
      assert completed + Completed(run) == completed + Completed([run[0]]) + Completed(run[1..]);
    }
  }

  /** The native Job is complete, and the record tells its name, its times and the artifact of its pod. */
  ghost predicate Shows(j: NativeJob, s: Snapshot) {
    && HasArtifact(j)
    && s.nativeJob == j.name && s.startedAt == j.startedAt && LatestEnd(j.conditions, s.completedAt)
    && j.report.artifact.value == Artifact(s.stem, s.backendPath, s.checksum, s.size)
  }

  /** Every record there is, after any run, stems from a native Job that was seen complete with an
      artifact summary: it names that Job, carries its times, and has the stem, path, checksum and
      size of that summary. */
  lemma RecordsStem(run: seq<Event>, n: string)
    requires Admissible(INITIAL, run) && n in Reached(INITIAL, run).records
    ensures var s := Reached(INITIAL, run).records[n];
            exists i :: 0 <= i < |run| && run[i].Progress? && Shows(run[i].native, s)
  {
    RunStems(INITIAL, run, {});
    var s := Reached(INITIAL, run).records[n];
    assert OriginOf(s) in {} + Completed(run);
    var i :| 0 <= i < |run| && run[i].Progress? && Yields(run[i].native) && Yielded(run[i].native) == OriginOf(s);
    TerminalStateExact(run[i].native.conditions);
    CompletedTimeIsLatest(run[i].native.conditions);
  }

  // ---------------------------------------------------------------- Ready and the phase

  predicate AllPatched(run: seq<Event>) {
    forall i | 0 <= i < |run| && run[i].Reconcile? :: run[i].e.patch == Patched
  }

  ghost predicate AllConsistent(f: Fleet) {
    forall job | job in f.jobs :: Consistent(f.jobs[job].own)
  }

  lemma ReconcileConsistent(w: World, e: Env, nativeName: string)
    requires Consistent(w.own) && e.patch == Patched
    ensures Consistent(AfterReconcile(w, e, nativeName).own)
  {
  }

  lemma StepConsistent(f: Fleet, e: Event)
    requires AllConsistent(f) && Enabled(f, e) && (e.Reconcile? ==> e.e.patch == Patched)
    ensures AllConsistent(Next(f, e))
  {
    match e {
      case Ask(job) =>
        NewOwnConsistent();
      case Reconcile(job, env) =>
        ReconcileConsistent(World(f.jobs[job].own, f.jobs[job].snapshotRef, f.records), env, job);
      case Progress(job, native) =>
        ProgressConsistent(f.jobs[job].own, native);
      case _ =>
    }
  }

  lemma {:induction false} RunConsistent(f: Fleet, run: seq<Event>)
    requires AllConsistent(f) && Admissible(f, run) && AllPatched(run)
    ensures AllConsistent(Reached(f, run))
    decreases |run|
  {
    if run != [] {
      StepConsistent(f, run[0]);
      assert forall i | 0 <= i < |run[1..]| :: run[1..][i] == run[i + 1];
      RunConsistent(Next(f, run[0]), run[1..]);
    }
  }

  /** As long as every status patch arrives, every BackupJob is Ready exactly while its phase is
      Succeeded, and has been notified of exactly once if its status says so and never otherwise. */
  lemma ReadyThroughout(run: seq<Event>, job: string)
    requires Admissible(INITIAL, run) && AllPatched(run) && job in Reached(INITIAL, run).jobs
    ensures var own := Reached(INITIAL, run).jobs[job].own;
            && (own.status.ready == True <==> own.status.phase == Done)
            && own.deliveries == (if own.status.notification == Delivered then 1 else 0)
  {
    RunConsistent(INITIAL, run);
  }

  /** Whether a reconcile takes the one branch that changes the phase and not the `Ready` condition,
      and finds the condition true. */
  predicate LeavesReady(w: World, e: Env) {
    && e.valid && e.resolved.Some? && !e.resolved.value.paused && e.patch == Patched
    && w.own.native.Some? && !Over(w.own.native.value)
    && w.own.native.value.active == 0 && w.own.native.value.startedAt.None?
    && w.own.status.ready == True
  }

  /** One reconcile keeps the condition and the phase together unless it takes that branch. */
  lemma ReadyExact(w: World, e: Env, nativeName: string)
    requires ReadyAgrees(w.own.status)
    ensures ReadyAgrees(AfterReconcile(w, e, nativeName).own.status) <==> !LeavesReady(w, e)
  {
  }

  function Plain(target: Target, notify: bool, patch: Patch): Env {
    Env(true, Some(Resolution(false, target, notify)), true, Calls(true, true, 0), true, patch)
  }

  function CompletedJob(job: string): NativeJob {
    NativeJob(job, Some(0), 0, [Condition(Complete, true, 1)], NoPod)
  }

  /** Steps taken one after the other. */
  lemma RunStep(f: Fleet, e: Event, rest: seq<Event>)
    requires Enabled(f, e) && Admissible(Next(f, e), rest)
    ensures Admissible(f, [e] + rest) && Reached(f, [e] + rest) == Reached(Next(f, e), rest)
  {
    assert ([e] + rest)[1..] == rest;
  }

  /** One lost patch is enough to break the agreement: the Job of a finished backup is collected and
      created again, the patch after the creation is lost, and the next reconcile reports a Pending
      backup that is Ready. */
  lemma ReadyNeedsPatches(job: string, target: Target) returns (run: seq<Event>)
    ensures Admissible(INITIAL, run) && job in Reached(INITIAL, run).jobs
    ensures var status := Reached(INITIAL, run).jobs[job].own.status;
            status.phase == Pending && status.ready == True
  {
    var good, lost := Reconcile(job, Plain(target, false, Patched)), Reconcile(job, Plain(target, false, PatchFailed));
    var f0 := Next(INITIAL, Ask(job));
    var f1 := Next(f0, good);
    var done := Progress(job, CompletedJob(job));
    var f2 := Next(f1, done);
    assert TerminalState(CompletedJob(job).conditions) == Some(Succeeded);
    var f3 := Next(f2, good);
    assert f3.jobs[job].own.status.ready == True;
    var f4 := Next(f3, Collect(job));
    var f5 := Next(f4, lost);
    assert f5.jobs[job].own.native == Some(NewJob(job)) && f5.jobs[job].own.status.ready == True;
    RunStep(f5, good, []);
    RunStep(f4, lost, [good]);
    RunStep(f3, Collect(job), [lost] + [good]);
    RunStep(f2, good, [Collect(job)] + ([lost] + [good]));
    RunStep(f1, done, [good] + ([Collect(job)] + ([lost] + [good])));
    RunStep(f0, good, [done] + ([good] + ([Collect(job)] + ([lost] + [good]))));
    run := [Ask(job)] + ([good] + ([done] + ([good] + ([Collect(job)] + ([lost] + [good])))));
    RunStep(INITIAL, Ask(job), [good] + ([done] + ([good] + ([Collect(job)] + ([lost] + [good])))));
  }

  /** The native Job of `job` was reported with its Complete condition true, and before any Failed one. */
  ghost predicate CompleteReported(run: seq<Event>, job: string) {
    exists i :: 0 <= i < |run| && run[i].Progress? && run[i].job == job && FirstTrue(run[i].native.conditions, Complete)
  }

  ghost predicate HasCompleted(f: Fleet, job: string) {
    job in f.jobs && f.jobs[job].own.native.Some? && FirstTrue(f.jobs[job].own.native.value.conditions, Complete)
  }

  predicate Claims(f: Fleet, job: string) {
    job in f.jobs && (f.jobs[job].own.status.phase == Done || f.jobs[job].own.status.ready == True)
  }

  lemma ReconcileClaims(f: Fleet, job: string, e: Env)
    requires job in f.jobs
    ensures Claims(Reconciled(f, job, e), job) ==> Claims(f, job) || HasCompleted(f, job)
    ensures HasCompleted(Reconciled(f, job, e), job) ==> HasCompleted(f, job)
  {
    var w := World(f.jobs[job].own, f.jobs[job].snapshotRef, f.records);
    if !Admits(e) {
      RefusedExact(w, e, job);
    } else if w.own.native.None? {
      StartedExact(w, e, job);
    } else {
      ReportedExact(w, e, job);
    }
  }

  lemma StepClaims(f: Fleet, job: string, e: Event)
    requires Enabled(f, e)
    ensures Claims(Next(f, e), job) ==> Claims(f, job) || HasCompleted(f, job)
    ensures HasCompleted(Next(f, e), job) ==>
              HasCompleted(f, job) || (e.Progress? && e.job == job && FirstTrue(e.native.conditions, Complete))
  {
    if e.Reconcile? && e.job == job {
      ReconcileClaims(f, job, e.e);
    }
  }

  lemma {:induction false} ClaimsStem(f: Fleet, job: string, run: seq<Event>)
    requires Admissible(f, run)
    ensures Claims(Reached(f, run), job) ==> Claims(f, job) || HasCompleted(f, job) || CompleteReported(run, job)
    decreases |run|
  {
    if run != [] {
      StepClaims(f, job, run[0]);
      ClaimsStem(Next(f, run[0]), job, run[1..]);
      if CompleteReported(run[1..], job) {
        var i :| 0 <= i < |run[1..]| && run[1..][i].Progress? && run[1..][i].job == job
                 && FirstTrue(run[1..][i].native.conditions, Complete);
        assert run[i + 1] == run[1..][i];
      }
    }
  }

  /** A BackupJob that is Succeeded or Ready after any run had a native Job that was reported complete,
      whatever becomes of its status patches. */
  lemma SucceededStems(run: seq<Event>, job: string)
    requires Admissible(INITIAL, run) && job in Reached(INITIAL, run).jobs
    ensures var s := Reached(INITIAL, run).jobs[job].own.status;
            s.phase == Done || s.ready == True ==>
              exists i :: 0 <= i < |run| && run[i].Progress? && run[i].job == job
                          && FirstTrue(run[i].native.conditions, Complete)
  {
    ClaimsStem(INITIAL, job, run);
  }

  // ---------------------------------------------------------------- notifications

  predicate SameCounts(a: Own, b: Own) {
    a.dispatches == b.dispatches && a.deliveries == b.deliveries
  }

  /** Once the delivery of the notification is recorded, no later reconcile sends it again, whatever
      becomes of the native Job and of the status patches. */
  lemma {:induction false} DeliveredOnce(f: Fleet, run: seq<Event>, job: string)
    requires Admissible(f, run)
    requires job in f.jobs && f.jobs[job].own.status.notification == Delivered
    ensures job in Reached(f, run).jobs
    ensures var own := Reached(f, run).jobs[job].own;
            own.status.notification == Delivered && SameCounts(own, f.jobs[job].own)
    decreases |run|
  {
    if run != [] {
      StaysDelivered(f, run[0], job);
      DeliveredOnce(Next(f, run[0]), run[1..], job);
    }
  }

  lemma ReconcileStaysDelivered(w: World, e: Env, nativeName: string)
    requires w.own.status.notification == Delivered
    ensures var own := AfterReconcile(w, e, nativeName).own;
            own.status.notification == Delivered && SameCounts(own, w.own)
  {
  }

  lemma StaysDelivered(f: Fleet, e: Event, job: string)
    requires Enabled(f, e) && job in f.jobs && f.jobs[job].own.status.notification == Delivered
    ensures job in Next(f, e).jobs
    ensures var own := Next(f, e).jobs[job].own;
            own.status.notification == Delivered && SameCounts(own, f.jobs[job].own)
  {
    if e.Reconcile? && e.job == job {
      ReconcileStaysDelivered(World(f.jobs[job].own, f.jobs[job].snapshotRef, f.records), e.e, job);
    }
  }

  /** So a patch lost after a delivery brings a second one. */
  lemma DeliveredTwice(job: string, target: Target) returns (run: seq<Event>)
    ensures Admissible(INITIAL, run) && job in Reached(INITIAL, run).jobs
    ensures Reached(INITIAL, run).jobs[job].own.deliveries == 2
  {
    var good, lost := Reconcile(job, Plain(target, true, Patched)), Reconcile(job, Plain(target, true, PatchFailed));
    var f0 := Next(INITIAL, Ask(job));
    var f1 := Next(f0, good);
    var done := Progress(job, CompletedJob(job));
    var f2 := Next(f1, done);
    assert TerminalState(CompletedJob(job).conditions) == Some(Succeeded);
    var f3 := Next(f2, lost);
    assert f3.jobs[job].own.deliveries == 1 && f3.jobs[job].own.status.notification == NotTried;
    RunStep(f3, good, []);
    RunStep(f2, lost, [good]);
    RunStep(f1, done, [lost] + [good]);
    RunStep(f0, good, [done] + ([lost] + [good]));
    run := [Ask(job)] + ([good] + ([done] + ([lost] + [good])));
    RunStep(INITIAL, Ask(job), [good] + ([done] + ([lost] + [good])));
  }

  function Deliveries(f: Fleet, job: string): nat {
    if job in f.jobs then f.jobs[job].own.deliveries else 0
  }

  /** The event reconciles the job, finds its native Job over, and gets a notification that is asked for
      through, unless the status says that this has been done. */
  ghost predicate Announces(f: Fleet, e: Event, job: string) {
    && e.Reconcile? && e.job == job && e.e.dispatchOk && Admits(e.e) && e.e.resolved.value.notify
    && job in f.jobs && f.jobs[job].own.native.Some?
    && var j := f.jobs[job].own.native.value;
       && (FirstTrue(j.conditions, Complete) || FirstTrue(j.conditions, Failed)) && CallsSucceed(j, e.e.calls)
  }

  ghost predicate AnnouncesLater(f: Fleet, run: seq<Event>, job: string)
    requires Admissible(f, run)
    decreases |run|
  {
    run != [] && (Announces(f, run[0], job) || AnnouncesLater(Next(f, run[0]), run[1..], job))
  }

  /** The first announcement of the run loses its status patch, and there is another one later. */
  ghost predicate LosesFirst(f: Fleet, run: seq<Event>, job: string)
    requires Admissible(f, run)
    decreases |run|
  {
    && run != []
    && if Announces(f, run[0], job) then
         run[0].e.patch != Patched && AnnouncesLater(Next(f, run[0]), run[1..], job)
       else
         LosesFirst(Next(f, run[0]), run[1..], job)
  }

  /** No delivery is recorded. */
  predicate Unrecorded(f: Fleet, job: string) {
    job in f.jobs ==> f.jobs[job].own.status.notification != Delivered
  }

  lemma ReconcileDelivers(f: Fleet, e: Event, job: string)
    requires Enabled(f, e) && Unrecorded(f, job) && e.Reconcile? && e.job == job
    ensures Deliveries(Next(f, e), job) == Deliveries(f, job) + (if Announces(f, e, job) then 1 else 0)
    ensures Unrecorded(Next(f, e), job) <==> !(Announces(f, e, job) && e.e.patch == Patched)
  {
    NotifiedExact(World(f.jobs[job].own, f.jobs[job].snapshotRef, f.records), e.e, job);
  }

  lemma StepDelivers(f: Fleet, e: Event, job: string)
    requires Enabled(f, e) && Unrecorded(f, job)
    ensures Deliveries(Next(f, e), job) == Deliveries(f, job) + (if Announces(f, e, job) then 1 else 0)
    ensures Unrecorded(Next(f, e), job) <==> !(Announces(f, e, job) && e.e.patch == Patched)
    ensures job in f.jobs ==> job in Next(f, e).jobs
  {
    if e.Reconcile? && e.job == job {
      ReconcileDelivers(f, e, job);
    }
  }

  lemma {:induction false} DeliveriesCounted(f: Fleet, run: seq<Event>, job: string)
    requires Admissible(f, run) && Unrecorded(f, job)
    ensures Deliveries(Reached(f, run), job) >= Deliveries(f, job)
    ensures Deliveries(Reached(f, run), job) >= Deliveries(f, job) + 1 <==> AnnouncesLater(f, run, job)
    ensures Deliveries(Reached(f, run), job) >= Deliveries(f, job) + 2 <==> LosesFirst(f, run, job)
    decreases |run|
  {
    if run != [] {
      var g := Next(f, run[0]);
      StepDelivers(f, run[0], job);
      if Unrecorded(g, job) {
        DeliveriesCounted(g, run[1..], job);
      } else {
        DeliveredOnce(g, run[1..], job);
      }
    }
  }

  /** Over any run, the notification of a BackupJob is delivered twice or more exactly when the first
      announcement that gets through loses its status patch and another one gets through later. */
  lemma DeliveredTwiceExact(run: seq<Event>, job: string)
    requires Admissible(INITIAL, run) && job in Reached(INITIAL, run).jobs
    ensures Reached(INITIAL, run).jobs[job].own.deliveries >= 2 <==> LosesFirst(INITIAL, run, job)
  {
    DeliveriesCounted(INITIAL, run, job);
  }
}
