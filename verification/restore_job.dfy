/** One reconciliation of a restore (controllers/restorejob_controller.go), with the validation of
    its spec (api/v1alpha1/validation.go) and the resolution of what it reads
    (controllers/runtime_helpers.go). */
module RestoreJobs {
  import opened Options
  import opened Strings
  import opened NativeJobs
  import opened Snapshots
  import ImportPath
  import opened Series
  import opened JobStatus
  import opened Observations
  import opened Annotations

  datatype Spec = Spec(source: string, snapshotRef: string, importSource: Option<ImportPath.ImportSource>,
                       notificationRefs: seq<string>, secretRefs: seq<string>, ttlSeconds: Option<int>)

  /** A RestoreJob names exactly one source of data, and an acceptable one. */
  ghost predicate Valid(spec: Spec) {
    && TrimSpace(spec.source) != ""
    && (TrimSpace(spec.snapshotRef) != "" <==> spec.importSource.None?)
    && (spec.importSource.Some? ==> ImportPath.ValidateBasic(spec.importSource.value).None?)
    && !HasTwins(spec.notificationRefs) && !HasTwins(spec.secretRefs)
    && (spec.ttlSeconds.Some? ==> spec.ttlSeconds.value >= 0)
  }

  /** `RestoreJobSpec.ValidateBasic`, in the order of its checks. */
  method ValidateBasic(spec: Spec) returns (ok: bool)
    ensures ok <==> Valid(spec)
    ensures ok <==>
              && TrimSpace(spec.source) != ""
              && (if spec.importSource.Some?
                  then TrimSpace(spec.snapshotRef) == "" && ImportPath.ValidateBasic(spec.importSource.value).None?
                  else TrimSpace(spec.snapshotRef) != "")
              && !HasTwins(spec.notificationRefs) && !HasTwins(spec.secretRefs)
              && (spec.ttlSeconds.Some? ==> spec.ttlSeconds.value >= 0)
  {
    if TrimSpace(spec.source) == "" {
      return false;
    }
    var snapshotSpecified := TrimSpace(spec.snapshotRef) != "";
    var importSpecified := spec.importSource.Some?;
    if snapshotSpecified && importSpecified {
      return false;
    } else if !snapshotSpecified && !importSpecified {
      return false;
    } else if importSpecified && ImportPath.ValidateBasic(spec.importSource.value).Some? {
      return false;
    }
    var duplicate := HasDuplicateNames(spec.notificationRefs);
    if duplicate {
      return false;
    }
    duplicate := HasDuplicateNames(spec.secretRefs);
    if duplicate {
      return false;
    }
    return spec.ttlSeconds.Some? ==> spec.ttlSeconds.value >= 0;
  }

  /** What one reconcile meets: whether the source and its addon are there, the records and storages,
      and whether the calls it may make succeed. */
  datatype Env = Env(sourceFound: bool, records: Records, storages: set<string>, createOk: bool, probeOk: bool,
                     dispatchOk: bool, patch: Patch, now: int)

  /** What a restore reads. */
  datatype Origin = FromSnapshot(record: Snapshot) | FromImport(storage: string, path: string)

  function Resolve(spec: Spec, e: Env): Option<Origin>
    requires Valid(spec)
  {
    var name := TrimSpace(spec.snapshotRef);
    if !e.sourceFound then None
    else if name != "" then
      if name in e.records && e.records[name].storage in e.storages then Some(FromSnapshot(e.records[name])) else None
    else
      var i := spec.importSource.value;
      if i.storage in e.storages then Some(FromImport(i.storage, ImportPath.NormalizedPath(i.path))) else None
  }

  /** The gate: a snapshot is restored only when it has succeeded and its artifact is ready. */
  predicate MayRestore(o: Origin) {
    o.FromSnapshot? ==> o.record.succeeded && o.record.ready
  }

  /** The file that a native restore Job downloads. */
  datatype Download = Download(storage: string, path: string)

  function DownloadOf(o: Origin): Download {
    match o
    case FromSnapshot(r) => Download(r.storage, RestorePath(r.backendPath, r.stem))
    case FromImport(storage, path) => Download(storage, ImportPath.NormalizedPath(path))
  }

  datatype World = World(own: Own, download: Option<Download>)

  /** `observeTerminalRestoreJob`. */
  function RestoreFound(j: NativeJob, probeOk: bool): Finding {
    match TerminalState(j.conditions)
    case None => NotDone
    case Some(state) =>
      var phase := if state == Succeeded then Done else Failing;
      var default := if state == Succeeded then ProbeSucceeded else ProbeUnknown;
      match j.report
      case ListError => CallFailed
      case NoPod => Seen(phase, "", default)
      case Pod(probe, _) =>
        if probe.Some? && !probeOk then CallFailed else Seen(phase, "", ProbeOr(Reported(probe), default))
  }

  function Followed(w: World, s: Status, spec: Spec, e: Env, j: NativeJob): World {
    Noted(w, s, spec, e, j, RestoreFound(j, e.probeOk))
  }

  function Noted(w: World, s: Status, spec: Spec, e: Env, j: NativeJob, found: Finding): World {
    match found
    case CallFailed => w
    case NotDone =>
      w.(own := WithStatus(w.own, e.patch, Waiting(s.(startedAt := j.startedAt), j)))
    case Seen(phase, _, probe) =>
      var due := |spec.notificationRefs| > 0 && s.notification != Delivered;
      w.(own := WithStatus(Notified(w.own, due, e.dispatchOk), e.patch,
                           Status(phase, if phase == Done then True else False, j.startedAt,
                                  CompletedTime(j.conditions), probe, Told(s.notification, due, e.dispatchOk))))
  }

  /** The spec is valid, all it names is there, and the snapshot, if it names one, has succeeded and is
      ready. */
  ghost predicate Admits(spec: Spec, e: Env) {
    && Valid(spec) && e.sourceFound
    && if spec.importSource.Some? then spec.importSource.value.storage in e.storages
       else
         var n := TrimSpace(spec.snapshotRef);
         && n in e.records && e.records[n].storage in e.storages
         && e.records[n].succeeded && e.records[n].ready
  }

  /** What such a spec asks to be downloaded. */
  ghost function Asked(spec: Spec, e: Env): Download
    requires Admits(spec, e)
  {
    if spec.importSource.Some? then
      Download(spec.importSource.value.storage, ImportPath.ArtifactPath(spec.importSource.value))
    else
      var r := e.records[TrimSpace(spec.snapshotRef)];
      Download(r.storage, RestorePath(r.backendPath, r.stem))
  }

  lemma AdmittedExact(spec: Spec, e: Env)
    ensures Admitted(spec, e).Some? <==> Admits(spec, e)
    ensures Admits(spec, e) ==> DownloadOf(Admitted(spec, e).value) == Asked(spec, e)
  {
  }

  /** What may be restored, if anything may. */
  ghost function Admitted(spec: Spec, e: Env): Option<Origin> {
    if Valid(spec) && Resolve(spec, e).Some? && MayRestore(Resolve(spec, e).value) then Resolve(spec, e) else None
  }

  function Decided(w: World, spec: Spec, e: Env, admitted: Option<Origin>, nativeName: string): World {
    var own, s := w.own, Started(w.own.status, e.now);
    if admitted.None? then
      w.(own := WithStatus(own, e.patch, s.(phase := Failing, ready := False)))
    else if own.native.None? then
      if !e.createOk then w
      else World(WithStatus(own.(native := Some(NewJob(nativeName))), e.patch, s.(phase := Running, ready := False)),
                 Some(DownloadOf(admitted.value)))
    else Followed(w, s, spec, e, own.native.value)
  }

  /** The state one reconcile leaves. */
  ghost function AfterReconcile(w: World, spec: Spec, e: Env, nativeName: string): World {
    Decided(w, spec, e, Admitted(spec, e), nativeName)
  }

  // ---------------------------------------------------------------- what one reconcile means

  /** A restore whose spec is not admitted fails, and nothing else happens. */
  lemma RefusedExact(w: World, spec: Spec, e: Env, nativeName: string)
    requires !Admits(spec, e)
    ensures var t := AfterReconcile(w, spec, e, nativeName);
            && t == w.(own := w.own.(status := t.own.status))
            && if e.patch != Patched then t == w
               else
                 && t.own.status.phase == Failing && t.own.status.ready == False
                 && t.own.status.notification == w.own.status.notification
                 && t.own.status.completedAt == w.own.status.completedAt
                 && t.own.status.startedAt == Some(if w.own.status.startedAt.Some? then w.own.status.startedAt.value
                                                   else e.now)
  {
    AdmittedExact(spec, e);
  }

  /** Without a native Job, one is created that downloads what the spec asks for. */
  lemma StartedExact(w: World, spec: Spec, e: Env, nativeName: string)
    requires Admits(spec, e) && w.own.native.None?
    ensures var t := AfterReconcile(w, spec, e, nativeName);
            if !e.createOk then t == w
            else
              && t.own.native == Some(NativeJob(nativeName, None, 0, [], NoPod)) && t.download == Some(Asked(spec, e))
              && t.own.dispatches == w.own.dispatches && t.own.deliveries == w.own.deliveries
              && if e.patch != Patched then t.own.status == w.own.status
                 else
                   && t.own.status.phase == Running && t.own.status.ready == False
                   && t.own.status.startedAt == Some(if w.own.status.startedAt.Some? then w.own.status.startedAt.value
                                                     else e.now)
  {
    AdmittedExact(spec, e);
  }

  lemma FoundExact(j: NativeJob, probeOk: bool)
    ensures var found := RestoreFound(j, probeOk);
            && (found == CallFailed <==> !Observable(j, probeOk))
            && (found == NotDone <==> !FirstTrue(j.conditions, Complete) && !FirstTrue(j.conditions, Failed))
            && (found.Seen? ==>
                  && found.phase == (if FirstTrue(j.conditions, Complete) then Done else Failing)
                  && ReportsProbe(found.probe, j))
  {
    TerminalStateExact(j.conditions);
  }

  lemma NotedReports(w: World, s: Status, spec: Spec, e: Env, j: NativeJob, found: Finding)
    requires e.patch == Patched && found != CallFailed
    requires found == NotDone <==> !FirstTrue(j.conditions, Complete) && !FirstTrue(j.conditions, Failed)
    requires found.Seen? ==> found.phase == (if FirstTrue(j.conditions, Complete) then Done else Failing)
    ensures var t := Noted(w, s, spec, e, j, found);
            Reports(t.own.status, j, true) && (found.Seen? ==> t.own.status.probe == found.probe)
  {
    CompletedTimeIsLatest(j.conditions);
  }

  /** With one, the status tells what has become of it: whether its conditions say that it is complete or
      has failed, and when. */
  lemma ReportedExact(w: World, spec: Spec, e: Env, nativeName: string)
    requires Admits(spec, e) && w.own.native.Some?
    ensures var t, j := AfterReconcile(w, spec, e, nativeName), w.own.native.value;
            && t.own.native == w.own.native && t.download == w.download
            && (e.patch != Patched || !Observable(j, e.probeOk) ==> t.own.status == w.own.status)
            && (e.patch == Patched && Observable(j, e.probeOk) ==>
                  && Reports(t.own.status, j, true)
                  && (t.own.status.phase == Done || t.own.status.phase == Failing ==>
                        ReportsProbe(t.own.status.probe, j)))
  {
    var s, j := Started(w.own.status, e.now), w.own.native.value;
    AdmittedExact(spec, e);
    FoundExact(j, e.probeOk);
    if e.patch == Patched && Observable(j, e.probeOk) {
      NotedReports(w, s, spec, e, j, RestoreFound(j, e.probeOk));
    }
  }

  /** A notification is sent exactly if the native Job is over and can be looked at, one is asked for, and
      none is known to have arrived. */
  lemma NotifiedExact(w: World, spec: Spec, e: Env, nativeName: string)
    ensures var t := AfterReconcile(w, spec, e, nativeName);
            var due := && Admits(spec, e) && w.own.native.Some? && Observable(w.own.native.value, e.probeOk)
                       && (|| FirstTrue(w.own.native.value.conditions, Complete)
                           || FirstTrue(w.own.native.value.conditions, Failed))
                       && spec.notificationRefs != [] && w.own.status.notification != Delivered;
            && t.own.dispatches == w.own.dispatches + (if due then 1 else 0)
            && t.own.deliveries == w.own.deliveries + (if due && e.dispatchOk then 1 else 0)
            && t.own.status.notification
               == (if due && e.patch == Patched then (if e.dispatchOk then Delivered else Undelivered)
                   else w.own.status.notification)
  {
    AdmittedExact(spec, e);
    if w.own.native.Some? {
      FoundExact(w.own.native.value, e.probeOk);
    }
  }

  class RestoreJobReconciler {
    var status: Status
    var native: Option<NativeJob>
    var download: Option<Download>
    var dispatches: nat
    var deliveries: nat

    function State(): World
      reads this
    {
      World(Own(status, native, dispatches, deliveries), download)
    }

    method PatchStatus(changed: Status, patch: Patch)
      modifies this`status
      ensures status == if patch == Patched then changed else old(status)
    {
      if patch == Patched {
        status := changed;
      }
    }

    method ObserveTerminalRestoreJob(job: NativeJob, probeOk: bool) returns (found: Finding)
      ensures found == RestoreFound(job, probeOk)
    {
      var state := JobTerminalState(job.conditions);
      if state.None? {
        return NotDone;
      }
      var phase := if state.value == Succeeded then Done else Failing;
      var probe := NoProbe;
      match job.report {
        case ListError =>
          return CallFailed;
        case NoPod =>
        case Pod(reported, _) =>
          if reported.Some? {
            probe := reported.value;
            if !probeOk {
              return CallFailed;
            }
          }
      }
      if probe == NoProbe {
        probe := if phase == Done then ProbeSucceeded else ProbeUnknown;
      }
      found := Seen(phase, "", probe);
    }

    /** The branch of `Reconcile` for a native Job that is there. */
    method Follow(base: Status, spec: Spec, e: Env, job: NativeJob)
      modifies this`status, this`dispatches, this`deliveries
      ensures State() == Followed(old(State()), base, spec, e, job)
    {
      var changed := base.(startedAt := job.startedAt);
      var found := ObserveTerminalRestoreJob(job, e.probeOk);
      match found {
        case CallFailed =>
          return;
        case Seen(phase, _, probe) =>
          var completed := JobCompletedAt(job.conditions);
          changed := changed.(phase := phase, completedAt := completed, probe := probe);
          if |spec.notificationRefs| > 0 && changed.notification != Delivered {
            dispatches := dispatches + 1;
            deliveries := deliveries + (if e.dispatchOk then 1 else 0);
            changed := changed.(notification := if e.dispatchOk then Delivered else Undelivered);
          }
          changed := changed.(ready := if phase == Done then True else False);
        case NotDone =>
          if job.active > 0 || job.startedAt.Some? {
            changed := changed.(phase := Running, ready := False);
          } else {
            changed := changed.(phase := Pending);
          }
      }
      PatchStatus(changed, e.patch);
    }

    /** The three checks of `Reconcile` that fail a restore with the same phase and condition. */
    method Admit(spec: Spec, e: Env) returns (admitted: Option<Origin>)
      ensures admitted == Admitted(spec, e)
    {
      var valid := ValidateBasic(spec);
      if !valid {
        return None;
      }
      var resolved := Resolve(spec, e);
      if resolved.None? {
        return None;
      }
      if resolved.value.FromSnapshot? && (!resolved.value.record.succeeded || !resolved.value.record.ready) {
        return None;
      }
      return resolved;
    }

    method Reconcile(spec: Spec, e: Env, nativeName: string)
      modifies this
      ensures State() == AfterReconcile(old(State()), spec, e, nativeName)
      ensures Admits(spec, e) && old(native).Some? && Observable(old(native).value, e.probeOk) && e.patch == Patched
              ==> Reports(status, old(native).value, true)
    {
      ghost var was := State();
      if Admits(spec, e) && native.Some? {
        ReportedExact(was, spec, e, nativeName);
      }
      var changed := status;
      if changed.startedAt.None? {
        changed := changed.(startedAt := Some(e.now));
      }
      var admitted := Admit(spec, e);
      if admitted.None? {
        PatchStatus(changed.(phase := Failing, ready := False), e.patch);
        return;
      }
      if native.None? {
        if e.createOk {
          native, download := Some(NewJob(nativeName)), Some(DownloadOf(admitted.value));
          PatchStatus(changed.(phase := Running, ready := False), e.patch);
        }
        return;
      }
      Follow(changed, spec, e, native.value);
    }
  }
}
