/** What the status of a BackupJob or a RestoreJob tells, the native Job it follows, and what both
    controllers keep true of them whatever happens. */
module JobStatus {
  import opened Options
  import opened NativeJobs
  import opened Snapshots

  datatype Phase = NoPhase | Pending | Running | Paused | Done | Failing

  /** The `Ready` condition. */
  datatype Ready = Unset | True | False

  datatype Delivery = NotTried | Delivered | Undelivered

  datatype Probe = NoProbe | ProbeSucceeded | ProbeFailed | ProbeUnknown

  datatype Status = Status(phase: Phase, ready: Ready, startedAt: Option<int>, completedAt: Option<int>,
                           probe: Probe, notification: Delivery)

  const NEW_STATUS := Status(NoPhase, Unset, None, None, NoProbe, NotTried)

  /** What the latest pod of a native Job has reported. */
  datatype Report = NoPod | ListError | Pod(probe: Option<Probe>, artifact: Option<Artifact>)

  datatype NativeJob = NativeJob(name: string, startedAt: Option<int>, active: nat, conditions: seq<Condition>,
                                 report: Report)

  function NewJob(name: string): NativeJob {
    NativeJob(name, None, 0, [], NoPod)
  }

  predicate Over(j: NativeJob) {
    TerminalState(j.conditions).Some?
  }

  /** How a native Job may change: once it is over, only what is known of its pods does. */
  predicate Progresses(j: NativeJob, k: NativeJob) {
    k.name == j.name && (Over(j) ==> k.conditions == j.conditions && k.startedAt == j.startedAt)
  }

  /** The answer to a status patch. */
  datatype Patch = Patched | PatchNotFound | PatchFailed

  /** A resource with the native Job it owns. The counters tell how many notifications were sent for
      it, and how many of them arrived. */
  datatype Own = Own(status: Status, native: Option<NativeJob>, dispatches: nat, deliveries: nat)

  const NEW_OWN := Own(NEW_STATUS, None, 0, 0)

  function WithStatus(o: Own, patch: Patch, status: Status): Own {
    if patch == Patched then o.(status := status) else o
  }

  /** One notification more, if one is due. */
  function Notified(o: Own, due: bool, dispatchOk: bool): Own {
    if due then o.(dispatches := o.dispatches + 1, deliveries := o.deliveries + (if dispatchOk then 1 else 0)) else o
  }

  function Told(was: Delivery, due: bool, dispatchOk: bool): Delivery {
    if !due then was else if dispatchOk then Delivered else Undelivered
  }

  function Started(s: Status, now: int): Status {
    s.(startedAt := if s.startedAt.None? then Some(now) else s.startedAt)
  }

  /** The status while the native Job is not over. The `Ready` condition is left alone until the Job
      has started. */
  function Waiting(s: Status, j: NativeJob): Status {
    if j.active > 0 || j.startedAt.Some? then s.(phase := Running, ready := False) else s.(phase := Pending)
  }

  /** The status tells what has become of a native Job: whether it runs, how it has ended, and when. A
      complete Job counts as a success if all is `well` otherwise. */
  ghost predicate Reports(s: Status, j: NativeJob, well: bool) {
    var complete, failed := FirstTrue(j.conditions, Complete), FirstTrue(j.conditions, Failed);
    && s.startedAt == j.startedAt
    && (complete || failed ==>
          && s.phase == (if complete && well then Done else Failing)
          && s.ready == (if complete && well then True else False)
          && LatestEnd(j.conditions, s.completedAt))
    && (!complete && !failed ==>
          if j.active > 0 || j.startedAt.Some? then s.phase == Running && s.ready == False else s.phase == Pending)
  }

  /** The call that lists the pods of a native Job succeeds, and so does the one that notes what a pod has
      found of the storage; a Job that is not over needs neither. */
  ghost predicate Observable(j: NativeJob, probeOk: bool) {
    FirstTrue(j.conditions, Complete) || FirstTrue(j.conditions, Failed) ==>
      j.report != ListError && (j.report.Pod? && j.report.probe.Some? ==> probeOk)
  }

  /** What is reported of the storage: what the pod has found, and what the outcome suggests if it has
      found nothing. */
  ghost predicate ReportsProbe(probe: Probe, j: NativeJob) {
    if j.report.Pod? && j.report.probe.Some? && j.report.probe.value != NoProbe then probe == j.report.probe.value
    else probe == if FirstTrue(j.conditions, Complete) then ProbeSucceeded else ProbeUnknown
  }

  /** The `Ready` condition is true exactly when the phase is Succeeded. */
  predicate ReadyAgrees(s: Status) {
    s.ready == True <==> s.phase == Done
  }

  /** What holds as long as every status patch arrives. */
  predicate Consistent(o: Own) {
    && ReadyAgrees(o.status)
    && (o.status.phase == Done ==> o.native.None? || Over(o.native.value))
    && o.deliveries == (if o.status.notification == Delivered then 1 else 0)
  }

  lemma NewOwnConsistent()
    ensures Consistent(NEW_OWN)
  {
  }

  lemma ProgressConsistent(o: Own, k: NativeJob)
    requires Consistent(o) && o.native.Some? && Progresses(o.native.value, k)
    ensures Consistent(o.(native := Some(k)))
  {
  }
}
