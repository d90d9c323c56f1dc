/** Restores over whole runs: their phases and notifications, and what the gate guarantees when the
    rest of the operator runs beside them. */
module RestoreRuns {
  import opened Options
  import opened Strings
  import opened Naming
  import opened NativeJobs
  import opened Snapshots
  import Finalizer
  import opened Series
  import opened JobStatus
  import opened RestoreJobs
  import O = OperatorRun
  import C = OperatorEvents
  import N = OperatorNeeds
  import T = OperatorTheorems

  datatype Event = Reconcile(e: Env) | Progress(native: NativeJob) | Collect

  predicate Enabled(w: World, e: Event) {
    e.Progress? ==> w.own.native.Some? && Progresses(w.own.native.value, e.native)
  }

  ghost function Next(w: World, spec: Spec, nativeName: string, e: Event): World {
    match e
    case Reconcile(env) => AfterReconcile(w, spec, env, nativeName)
    case Progress(native) => w.(own := w.own.(native := Some(native)))
    case Collect => w.(own := w.own.(native := None))
  }

  ghost predicate Admissible(w: World, spec: Spec, nativeName: string, run: seq<Event>)
    decreases |run|
  {
    run != [] ==> Enabled(w, run[0]) && Admissible(Next(w, spec, nativeName, run[0]), spec, nativeName, run[1..])
  }

  ghost function Reached(w: World, spec: Spec, nativeName: string, run: seq<Event>): World
    decreases |run|
  {
    if run == [] then w else Reached(Next(w, spec, nativeName, run[0]), spec, nativeName, run[1..])
  }

  predicate AllPatched(run: seq<Event>) {
    forall i | 0 <= i < |run| && run[i].Reconcile? :: run[i].e.patch == Patched
  }

  lemma DecidedConsistent(w: World, spec: Spec, e: Env, admitted: Option<Origin>, nativeName: string)
    requires Consistent(w.own) && e.patch == Patched
    ensures Consistent(Decided(w, spec, e, admitted, nativeName).own)
  {
  }

  lemma DecidedStaysDelivered(w: World, spec: Spec, e: Env, admitted: Option<Origin>, nativeName: string)
    requires w.own.status.notification == Delivered
    ensures var own := Decided(w, spec, e, admitted, nativeName).own;
            own.status.notification == Delivered && own.dispatches == w.own.dispatches
  {
  }

  lemma StepConsistent(w: World, spec: Spec, nativeName: string, e: Event)
    requires Consistent(w.own) && Enabled(w, e) && (e.Reconcile? ==> e.e.patch == Patched)
    ensures Consistent(Next(w, spec, nativeName, e).own)
  {
    match e {
      case Reconcile(env) =>
        DecidedConsistent(w, spec, env, Admitted(spec, env), nativeName);
      case Progress(native) =>
        ProgressConsistent(w.own, native);
      case Collect =>
    }
  }

  /** As long as every status patch arrives, a RestoreJob is Ready exactly while its phase is
      Succeeded, and has been notified of exactly once if its status says so and never otherwise. */
  lemma {:induction false} ReadyThroughout(w: World, spec: Spec, nativeName: string, run: seq<Event>)
    requires Consistent(w.own) && Admissible(w, spec, nativeName, run) && AllPatched(run)
    ensures var own := Reached(w, spec, nativeName, run).own;
            && (own.status.ready == True <==> own.status.phase == Done)
            && own.deliveries == (if own.status.notification == Delivered then 1 else 0)
    decreases |run|
  {
    if run != [] {
      StepConsistent(w, spec, nativeName, run[0]);
      assert forall i | 0 <= i < |run[1..]| :: run[1..][i] == run[i + 1];
      ReadyThroughout(Next(w, spec, nativeName, run[0]), spec, nativeName, run[1..]);
    }
  }

  /** Once its delivery is recorded, the notification is not sent again, whatever happens. */
  lemma {:induction false} DeliveredOnce(w: World, spec: Spec, nativeName: string, run: seq<Event>)
    requires Admissible(w, spec, nativeName, run) && w.own.status.notification == Delivered
    ensures var own := Reached(w, spec, nativeName, run).own;
            own.status.notification == Delivered && own.dispatches == w.own.dispatches
    decreases |run|
  {
    if run != [] {
      if run[0].Reconcile? {
        DecidedStaysDelivered(w, spec, run[0].e, Admitted(spec, run[0].e), nativeName);
      }
      DeliveredOnce(Next(w, spec, nativeName, run[0]), spec, nativeName, run[1..]);
    }
  }

  /** A native Job was reported with its Complete condition true, and before any Failed one. */
  ghost predicate CompleteReported(run: seq<Event>) {
    exists i :: 0 <= i < |run| && run[i].Progress? && FirstTrue(run[i].native.conditions, Complete)
  }

  predicate Claims(s: Status) {
    s.phase == Done || s.ready == True
  }

  lemma StepClaims(w: World, spec: Spec, nativeName: string, e: Event)
    ensures var t := Next(w, spec, nativeName, e);
            && (Claims(t.own.status) ==>
                  Claims(w.own.status) || (w.own.native.Some? && FirstTrue(w.own.native.value.conditions, Complete)))
            && (t.own.native.Some? && FirstTrue(t.own.native.value.conditions, Complete) ==>
                  || (w.own.native.Some? && FirstTrue(w.own.native.value.conditions, Complete))
                  || (e.Progress? && FirstTrue(e.native.conditions, Complete)))
  {
    if e.Reconcile? {
      if !Admits(spec, e.e) {
        RefusedExact(w, spec, e.e, nativeName);
      } else if w.own.native.None? {
        StartedExact(w, spec, e.e, nativeName);
      } else {
        ReportedExact(w, spec, e.e, nativeName);
      }
    }
  }

  lemma {:induction false} ClaimsStem(w: World, spec: Spec, nativeName: string, run: seq<Event>)
    ensures Claims(Reached(w, spec, nativeName, run).own.status) ==>
              || Claims(w.own.status)
              || (w.own.native.Some? && FirstTrue(w.own.native.value.conditions, Complete))
              || CompleteReported(run)
    decreases |run|
  {
    if run != [] {
      StepClaims(w, spec, nativeName, run[0]);
      ClaimsStem(Next(w, spec, nativeName, run[0]), spec, nativeName, run[1..]);
      if CompleteReported(run[1..]) {
        var i :| 0 <= i < |run[1..]| && run[1..][i].Progress? && FirstTrue(run[1..][i].native.conditions, Complete);
        assert run[i + 1] == run[1..][i];
      }
    }
  }

  /** A restore that is Succeeded or Ready after any run had a native Job that was reported complete,
      whatever becomes of its status patches. */
  lemma SucceededStems(w: World, spec: Spec, nativeName: string, run: seq<Event>)
    requires w.own == NEW_OWN
    ensures var s := Reached(w, spec, nativeName, run).own.status;
            s.phase == Done || s.ready == True ==>
              exists i :: 0 <= i < |run| && run[i].Progress? && FirstTrue(run[i].native.conditions, Complete)
  {
    ClaimsStem(w, spec, nativeName, run);
  }

  // ---------------------------------------------------------------- the gate

  /** The event is a reconcile that finds the spec valid and all it names, the snapshot succeeded and
      ready, and whose call to create a Job would be answered well. */
  ghost predicate Opens(spec: Spec, e: Event) {
    e.Reconcile? && Admits(spec, e.e) && e.e.createOk
  }

  lemma {:induction false} DownloadKept(w: World, spec: Spec, nativeName: string, run: seq<Event>)
    requires Admissible(w, spec, nativeName, run)
    ensures var t := Reached(w, spec, nativeName, run);
            || t.download == w.download
            || exists i :: 0 <= i < |run| && Opens(spec, run[i])
                           && t.download == Some(Asked(spec, run[i].e))
    decreases |run|
  {
    if run != [] {
      if run[0].Reconcile? {
        AdmittedExact(spec, run[0].e);
      }
      var g, t := Next(w, spec, nativeName, run[0]), Reached(w, spec, nativeName, run);
      DownloadKept(g, spec, nativeName, run[1..]);
      if t.download == g.download {
        assert g.download != w.download ==> Opens(spec, run[0]);
      } else {
        var i :| 0 <= i < |run[1..]| && Opens(spec, run[1..][i])
                 && t.download == Some(Asked(spec, run[1..][i].e));
        assert run[i + 1] == run[1..][i];
      }
    }
  }

  /** Whatever happens, what a restore last set out to download went through the gate: some reconcile of
      the run found the spec valid and all it names, the snapshot succeeded and ready, and the download
      is what the spec named then. */
  lemma DownloadAdmitted(w: World, spec: Spec, nativeName: string, run: seq<Event>)
    requires Admissible(w, spec, nativeName, run) && w.download.None?
    requires Reached(w, spec, nativeName, run).download.Some?
    ensures exists i :: 0 <= i < |run| && Opens(spec, run[i])
                        && Reached(w, spec, nativeName, run).download == Some(Asked(spec, run[i].e))
  {
    DownloadKept(w, spec, nativeName, run);
  }

  /** How many native Jobs the run creates. */
  ghost function Starts(w: World, spec: Spec, nativeName: string, run: seq<Event>): nat
    decreases |run|
  {
    if run == [] then 0
    else
      var g := Next(w, spec, nativeName, run[0]);
      (if run[0].Reconcile? && w.own.native.None? && g.own.native.Some? then 1 else 0)
      + Starts(g, spec, nativeName, run[1..])
  }

  ghost predicate OpensLater(spec: Spec, run: seq<Event>) {
    run != [] && (Opens(spec, run[0]) || OpensLater(spec, run[1..]))
  }

  ghost predicate CollectsThenOpens(spec: Spec, run: seq<Event>) {
    run != [] && ((run[0] == Collect && OpensLater(spec, run[1..])) || CollectsThenOpens(spec, run[1..]))
  }

  /** The native Job is collected between two reconciles that would create one. */
  ghost predicate OpensCollectsOpens(spec: Spec, run: seq<Event>) {
    run != [] && ((Opens(spec, run[0]) && CollectsThenOpens(spec, run[1..])) || OpensCollectsOpens(spec, run[1..]))
  }

  lemma {:induction false} Shortened(spec: Spec, run: seq<Event>)
    ensures OpensCollectsOpens(spec, run) ==> CollectsThenOpens(spec, run)
    ensures CollectsThenOpens(spec, run) ==> OpensLater(spec, run)
  {
    if run != [] {
      Shortened(spec, run[1..]);
    }
  }

  lemma {:induction false} StartsCounted(w: World, spec: Spec, nativeName: string, run: seq<Event>)
    requires Admissible(w, spec, nativeName, run)
    ensures w.own.native.None? ==>
              && (Starts(w, spec, nativeName, run) >= 1 <==> OpensLater(spec, run))
              && (Starts(w, spec, nativeName, run) >= 2 <==> OpensCollectsOpens(spec, run))
    ensures w.own.native.Some? ==> (Starts(w, spec, nativeName, run) >= 1 <==> CollectsThenOpens(spec, run))
    decreases |run|
  {
    if run != [] {
      Shortened(spec, run[1..]);
      if run[0].Reconcile? {
        AdmittedExact(spec, run[0].e);
      }
      StartsCounted(Next(w, spec, nativeName, run[0]), spec, nativeName, run[1..]);
    }
  }

  /** A restore is carried out twice or more exactly when its native Job is collected between two
      reconciles that would create one. Whether it has succeeded plays no part. */
  lemma RestoredTwiceExact(w: World, spec: Spec, nativeName: string, run: seq<Event>)
    requires Admissible(w, spec, nativeName, run) && w.own.native.None?
    ensures Starts(w, spec, nativeName, run) >= 2 <==> OpensCollectsOpens(spec, run)
  {
    StartsCounted(w, spec, nativeName, run);
  }

  /** Whether the gate lets the snapshot through. */
  predicate Passes(r: Snapshot) {
    MayRestore(FromSnapshot(r))
  }

  /** A restore from an undeleted record that the gate lets through, rendered in any state the
      operator reaches with no upload of the series waiting, finds the archive of that record on the
      backend; and what it downloads is the very file that the upload of that record wrote. */
  lemma RestoreFindsArchive(run: seq<O.Event>, n: string, h: ShortHash, backup: Run)
    requires O.Admissible({}, O.INITIAL, run) && n in O.Reached(O.INITIAL, run).records
    requires var s := O.Reached(O.INITIAL, run);
             var r := s.records[n];
             Passes(r) && !r.deleting && r.series !in s.pending
    ensures var s := O.Reached(O.INITIAL, run);
            var r := s.records[n];
            && r.stem in O.DirAt(s, r.backendPath).archives
            && (r.series == BuildSeries(h, backup) && Free(r.stem, '/') ==>
                  && r.backendPath == BuildBackendPath(h, backup)
                  && DownloadOf(FromSnapshot(r))
                     == Download(r.storage, ArchivePath(BuildBackendPath(h, backup), r.stem)))
  {
    var s := O.Reached(O.INITIAL, run);
    T.InitialInv();
    T.RunInv(O.INITIAL, run);
    assert O.RecordOk(n, s.records[n]) && O.Restorable(s, n);
    if s.records[n].series == BuildSeries(h, backup) && Free(s.records[n].stem, '/') {
      DownloadIsUpload(s.records[n], h, backup);
    }
  }

  lemma DownloadIsUpload(r: Snapshot, h: ShortHash, backup: Run)
    requires SeriesLike(r.series) && r.backendPath == BackendPathOf(r.series)
    requires r.series == BuildSeries(h, backup) && Free(r.stem, '/')
    ensures r.backendPath == BuildBackendPath(h, backup)
    ensures DownloadOf(FromSnapshot(r)) == Download(r.storage, ArchivePath(BuildBackendPath(h, backup), r.stem))
  {
    PathOfSeries(h, backup);
    RestoreReadsUpload(h, backup, r.stem);
  }

  lemma RunStep(s: O.State, e: O.Event, rest: seq<O.Event>)
    requires O.Enabled({}, s, e) && O.Admissible({}, O.Next(s, e), rest)
    ensures O.Admissible({}, s, [e] + rest) && O.Reached(s, [e] + rest) == O.Reached(O.Next(s, e), rest)
  {
    assert ([e] + rest)[1..] == rest;
  }

  /** Deleting a record that the reconciler has seen puts its cleanup Job to work. */
  lemma CleanupAtWork(s: O.State, n: string) returns (run: seq<O.Event>)
    requires n in s.records && Finalizer.Removable(s.records[n]) && !s.records[n].deleting && n !in s.jobs
    ensures O.Admissible({}, s, run)
    ensures var t := O.Reached(s, run);
            O.Active(t, n) && n in t.records && t.records[n].succeeded == s.records[n].succeeded
            && t.records[n].ready
  {
    var reconcile, delete := O.ReconcileSnapshot(n, {s.records[n].storage}), O.UserDelete(n);
    var s1 := O.Next(s, reconcile);
    assert CLEANUP_FINALIZER in s1.records[n].finalizers;
    var s2 := O.Next(s1, delete);
    RunStep(s2, reconcile, []);
    RunStep(s1, delete, [reconcile]);
    RunStep(s, reconcile, [delete] + [reconcile]);
    run := [reconcile] + ([delete] + [reconcile]);
  }

  /** The completion of a cleanup Job leaves the record, with the gate open and its archive gone. */
  lemma CleanupLeavesGate(s: O.State, n: string, at: int)
    requires O.Inv(s) && O.Active(s, n) && n in s.records && Passes(s.records[n])
    ensures O.Enabled({}, s, O.CleanupCompletes(n, at))
    ensures var t := O.Next(s, O.CleanupCompletes(n, at));
            && n in t.records && Passes(t.records[n])
            && t.records[n].stem !in O.DirAt(t, t.records[n].backendPath).archives
  {
    CleanupMay(s, n, at);
    C.CleanedEffect(s, n, at);
    C.CleanupInv(s, O.Cleaned(s, n, at), n, Complete);
    assert O.JobOk(O.Cleaned(s, n, at), n);
  }

  lemma CleanupMay(s: O.State, n: string, at: int)
    requires O.Active(s, n)
    ensures O.Enabled({}, s, O.CleanupCompletes(n, at))
    ensures O.Next(s, O.CleanupCompletes(n, at)) == O.Cleaned(s, n, at)
  {
  }

  /** Without the deletion mark the guarantee is lost: the gate does not ask for it, and from any
      state the operator reaches, any undeleted record the gate lets through can get to a state where
      the gate still lets it through and its archive is gone. */
  lemma GateMissesDeletion(run: seq<O.Event>, n: string, at: int) returns (more: seq<O.Event>)
    requires O.Admissible({}, O.INITIAL, run)
    requires var s := O.Reached(O.INITIAL, run);
             n in s.records && Passes(s.records[n]) && !s.records[n].deleting
    ensures O.Admissible({}, O.Reached(O.INITIAL, run), more)
    ensures var t := O.Reached(O.Reached(O.INITIAL, run), more);
            && n in t.records && Passes(t.records[n])
            && t.records[n].stem !in O.DirAt(t, t.records[n].backendPath).archives
  {
    T.InitialInv();
    T.RunInv(O.INITIAL, run);
    var s := O.Reached(O.INITIAL, run);
    assert n in s.jobs ==> O.JobOk(s, n);
    var first := CleanupAtWork(s, n);
    T.RunInv(s, first);
    CleanupLeavesGate(O.Reached(s, first), n, at);
    more := first + [O.CleanupCompletes(n, at)];
    N.Onwards({}, s, first, O.CleanupCompletes(n, at));
  }

  /** And while an upload waits to be recorded, the gate may be open for an undeleted record that the
      upload has pruned. */
  lemma GateMissesWaiting() returns (run: seq<O.Event>, n: string)
    ensures O.Admissible({}, O.INITIAL, run)
    ensures var s := O.Reached(O.INITIAL, run);
            && n in s.records && Passes(s.records[n]) && !s.records[n].deleting
            && s.records[n].stem !in O.DirAt(s, s.records[n].backendPath).archives
  {
    run, n := N.WaitingHasPruned();
  }

  /** And it is open for a record that is back after its cleanup, because its Job was seen again: no upload
      waits, the record is not being deleted, and its archive is gone. */
  lemma GateMissesReturn() returns (run: seq<O.Event>, n: string)
    ensures O.Admissible({O.HarmlessReturn}, O.INITIAL, run)
    ensures var s := O.Reached(O.INITIAL, run);
            && n in s.records && Passes(s.records[n]) && !s.records[n].deleting
            && s.records[n].series !in s.pending
            && s.records[n].stem !in O.DirAt(s, s.records[n].backendPath).archives
  {
    run, n := N.ReturnedIsLost();
  }
}
