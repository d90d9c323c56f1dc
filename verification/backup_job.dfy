/** One reconciliation of a manual backup (controllers/backupjob_controller.go): the phase machine,
    the snapshot record it makes and the notification it sends. */
module BackupJobs {
  import opened Options
  import opened NativeJobs
  import opened Snapshots
  import opened JobStatus
  import opened Observations

  /** What the spec of a BackupJob resolves to. */
  datatype Resolution = Resolution(paused: bool, target: Target, notify: bool)

  /** What one reconcile meets: whether the spec is valid, its dependencies, and whether the calls it
      may make succeed. */
  datatype Env = Env(valid: bool, resolved: Option<Resolution>, createOk: bool, calls: Calls, dispatchOk: bool,
                     patch: Patch)

  datatype World = World(own: Own, snapshotRef: string, records: Records)

  /** What a reconcile makes of a native Job that is there. */
  function Followed(w: World, s: Status, r: Resolution, e: Env, j: NativeJob): World {
    Noted(w, s, r, e, j, Found(j, r.target, e.calls))
  }

  function Noted(w: World, s: Status, r: Resolution, e: Env, j: NativeJob, found: Finding): World {
    match found
    case CallFailed => w
    case NotDone => w.(own := WithStatus(w.own, e.patch, Waiting(s.(startedAt := j.startedAt), j)))
    case Seen(phase, snapshotRef, probe) =>
      var due := r.notify && s.notification != Delivered;
      World(WithStatus(Notified(w.own, due, e.dispatchOk), e.patch,
                       Status(phase, if phase == Done then True else False, j.startedAt,
                              CompletedTime(j.conditions), probe, Told(s.notification, due, e.dispatchOk))),
            if e.patch == Patched then snapshotRef else w.snapshotRef,
            AfterObserve(w.records, j, r.target, e.calls))
  }

  /** The state one reconcile leaves. */
  function AfterReconcile(w: World, e: Env, nativeName: string): World {
    var own, s := w.own, Started(w.own.status, e.calls.now);
    if !e.valid || e.resolved.None? then
      w.(own := WithStatus(own, e.patch, s.(phase := Failing, ready := False)))
    else if e.resolved.value.paused then
      w.(own := WithStatus(own, e.patch, s.(phase := Paused, ready := False)))
    else if own.native.None? then
      if !e.createOk then w
      else
        w.(own := WithStatus(own.(native := Some(NewJob(nativeName))), e.patch, s.(phase := Running, ready := False)))
    else Followed(w, s, e.resolved.value, e, own.native.value)
  }

  // ---------------------------------------------------------------- what one reconcile means

  /** The spec is valid, all it names is there, and neither the backup nor what it names is paused. */
  predicate Admits(e: Env) {
    e.valid && e.resolved.Some? && !e.resolved.value.paused
  }

  /** A backup that is not admitted is reported Failed, or Paused if a pause is all that stands in its way,
      and nothing else happens. */
  lemma RefusedExact(w: World, e: Env, nativeName: string)
    requires !Admits(e)
    ensures var t := AfterReconcile(w, e, nativeName);
            && t == w.(own := w.own.(status := t.own.status))
            && if e.patch != Patched then t == w
               else
                 && t.own.status.phase == (if e.valid && e.resolved.Some? then Paused else Failing)
                 && t.own.status.ready == False && t.own.status.notification == w.own.status.notification
                 && t.own.status.completedAt == w.own.status.completedAt
                 && t.own.status.startedAt == Some(if w.own.status.startedAt.Some? then w.own.status.startedAt.value
                                                   else e.calls.now)
  {
  }

  /** Without a native Job, one is created. */
  lemma StartedExact(w: World, e: Env, nativeName: string)
    requires Admits(e) && w.own.native.None?
    ensures var t := AfterReconcile(w, e, nativeName);
            if !e.createOk then t == w
            else
              && t == w.(own := w.own.(status := t.own.status, native := t.own.native))
              && t.own.native == Some(NativeJob(nativeName, None, 0, [], NoPod))
              && if e.patch != Patched then t.own.status == w.own.status
                 else
                   && t.own.status.phase == Running && t.own.status.ready == False
                   && t.own.status.notification == w.own.status.notification
                   && t.own.status.startedAt == Some(if w.own.status.startedAt.Some? then w.own.status.startedAt.value
                                                     else e.calls.now)
  {
  }

  lemma NotedReports(w: World, s: Status, r: Resolution, e: Env, j: NativeJob, found: Finding)
    requires e.patch == Patched && found != CallFailed
    requires found == NotDone <==> !FirstTrue(j.conditions, Complete) && !FirstTrue(j.conditions, Failed)
    requires found.Seen? ==> found.phase == (if Fulfilled(j) then Done else Failing)
    ensures var t := Noted(w, s, r, e, j, found);
            Reports(t.own.status, j, Fulfilled(j))
            && (found.Seen? ==> t.own.status.probe == found.probe && t.snapshotRef == found.snapshotRef)
            && (found == NotDone ==> t.snapshotRef == w.snapshotRef)
  {
    CompletedTimeIsLatest(j.conditions);
  }

  /** With one, the status tells what has become of it: how and when its conditions say that it has ended,
      the record it was given, and what its pod has found of the storage. */
  lemma ReportedExact(w: World, e: Env, nativeName: string)
    requires Admits(e) && w.own.native.Some?
    ensures var t, j := AfterReconcile(w, e, nativeName), w.own.native.value;
            && t.own.native == w.own.native
            && (e.patch != Patched || !CallsSucceed(j, e.calls) ==>
                  t.own.status == w.own.status && t.snapshotRef == w.snapshotRef)
            && (e.patch == Patched && CallsSucceed(j, e.calls) ==>
                  && Reports(t.own.status, j, Fulfilled(j))
                  && t.snapshotRef == (if HasArtifact(j) then e.resolved.value.target.snapshotName
                                       else if !FirstTrue(j.conditions, Complete) && !FirstTrue(j.conditions, Failed)
                                       then w.snapshotRef
                                       else "")
                  && (t.own.status.phase == Done ==> ReportsProbe(t.own.status.probe, j)))
  {
    var s, r, j := Started(w.own.status, e.calls.now), e.resolved.value, w.own.native.value;
    SeenExact(j, r.target, e.calls);
    FoundExact(j, r.target, e.calls);
    if e.patch == Patched && CallsSucceed(j, e.calls) {
      NotedReports(w, s, r, e, j, Found(j, r.target, e.calls));
    }
  }

  /** The run is recorded exactly if the native Job is complete, its pod has told of an artifact and the
      calls succeed: under the target's name, with the times of the Job and that artifact. */
  lemma RecordedExact(w: World, e: Env, nativeName: string)
    ensures var t := AfterReconcile(w, e, nativeName);
            if && Admits(e) && w.own.native.Some? && HasArtifact(w.own.native.value)
               && CallsSucceed(w.own.native.value, e.calls) then
              var j, target := w.own.native.value, e.resolved.value.target;
              exists end :: LatestEnd(j.conditions, end)
                && t.records == AfterPersist(w.records, target.snapshotName, target.series, target.storage,
                                             FinishedJob(j.name, j.startedAt, end), j.report.artifact.value,
                                             target.keepLast, e.calls.now)
            else t.records == w.records
  {
    if Admits(e) && w.own.native.Some? {
      SeenExact(w.own.native.value, e.resolved.value.target, e.calls);
      ObserveExact(w.records, w.own.native.value, e.resolved.value.target, e.calls);
    }
  }

  /** A notification is sent exactly if the native Job is over and can be looked at, one is asked for, and
      none is known to have arrived. */
  lemma NotifiedExact(w: World, e: Env, nativeName: string)
    ensures var t := AfterReconcile(w, e, nativeName);
            var due := && Admits(e) && w.own.native.Some? && CallsSucceed(w.own.native.value, e.calls)
                       && (|| FirstTrue(w.own.native.value.conditions, Complete)
                           || FirstTrue(w.own.native.value.conditions, Failed))
                       && e.resolved.value.notify && w.own.status.notification != Delivered;
            && t.own.dispatches == w.own.dispatches + (if due then 1 else 0)
            && t.own.deliveries == w.own.deliveries + (if due && e.dispatchOk then 1 else 0)
            && t.own.status.notification
               == (if due && e.patch == Patched then (if e.dispatchOk then Delivered else Undelivered)
                   else w.own.status.notification)
  {
    if Admits(e) && w.own.native.Some? {
      SeenExact(w.own.native.value, e.resolved.value.target, e.calls);
    }
  }

  class BackupJobReconciler {
    var status: Status
    var snapshotRef: string
    var native: Option<NativeJob>
    var client: SnapshotClient
    var dispatches: nat
    var deliveries: nat

    constructor (client0: SnapshotClient)
      ensures client == client0
      ensures State() == World(NEW_OWN, "", client.records)
    {
      client, status, snapshotRef, native, dispatches, deliveries := client0, NEW_STATUS, "", None, 0, 0;
    }

    ghost function State(): World
      reads this, client
    {
      World(Own(status, native, dispatches, deliveries), snapshotRef, client.records)
    }

    method PatchStatus(changed: Status, changedRef: string, patch: Patch)
      modifies this`status, this`snapshotRef
      ensures status == if patch == Patched then changed else old(status)
      ensures snapshotRef == if patch == Patched then changedRef else old(snapshotRef)
    {
      if patch == Patched {
        status, snapshotRef := changed, changedRef;
      }
    }

    method Dispatch(dispatchOk: bool) returns (outcome: Delivery)
      modifies this`dispatches, this`deliveries
      ensures dispatches == old(dispatches) + 1
      ensures deliveries == old(deliveries) + (if outcome == Delivered then 1 else 0)
      ensures outcome == if dispatchOk then Delivered else Undelivered
    {
      dispatches := dispatches + 1;
      if !dispatchOk {
        return Undelivered;
      }
      deliveries := deliveries + 1;
      return Delivered;
    }

    /** The branch of `Reconcile` for a native Job that is there. */
    method Follow(base: Status, resolved: Resolution, e: Env, job: NativeJob)
      requires WellKeyed(client.records)
      modifies this`status, this`snapshotRef, this`dispatches, this`deliveries, client
      ensures State() == Followed(old(State()), base, resolved, e, job)
    {
      var changed, changedRef := base.(startedAt := job.startedAt), snapshotRef;
      var found := ObserveTerminalBackupJob(client, job, resolved.target, e.calls);
      match found {
        case CallFailed =>
          return;
        case Seen(phase, observedRef, probe) =>
          var completed := JobCompletedAt(job.conditions);
          changed := changed.(phase := phase, completedAt := completed, probe := probe);
          changedRef := observedRef;
          if resolved.notify && changed.notification != Delivered {
            var outcome := Dispatch(e.dispatchOk);
            changed := changed.(notification := outcome);
          }
          changed := changed.(ready := if phase == Done then True else False);
        case NotDone =>
          if job.active > 0 || job.startedAt.Some? {
            changed := changed.(phase := Running, ready := False);
          } else {
            changed := changed.(phase := Pending);
          }
      }
      PatchStatus(changed, changedRef, e.patch);
    }

    method Reconcile(e: Env, nativeName: string)
      requires WellKeyed(client.records)
      modifies this`status, this`snapshotRef, this`native, this`dispatches, this`deliveries, client
      ensures State() == AfterReconcile(old(State()), e, nativeName)
      ensures Admits(e) && old(native).Some? && CallsSucceed(old(native).value, e.calls) && e.patch == Patched
              ==> Reports(status, old(native).value, Fulfilled(old(native).value))
    {
      ghost var was := State();
      if Admits(e) && native.Some? {
        ReportedExact(was, e, nativeName);
      }
      var changed, changedRef := status, snapshotRef;
      if changed.startedAt.None? {
        changed := changed.(startedAt := Some(e.calls.now));
      }
      if !e.valid || e.resolved.None? {
        PatchStatus(changed.(phase := Failing, ready := False), changedRef, e.patch);
        return;
      }
      var resolved := e.resolved.value;
      if resolved.paused {
        PatchStatus(changed.(phase := Paused, ready := False), changedRef, e.patch);
        return;
      }
      if native.None? {
        if e.createOk {
          native := Some(NewJob(nativeName));
          PatchStatus(changed.(phase := Running, ready := False), changedRef, e.patch);
        }
        return;
      }
      Follow(changed, resolved, e, native.value);
    }
  }
}
