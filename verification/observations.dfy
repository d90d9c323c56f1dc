/** How a finished native backup Job is read and recorded
    (controllers/execution_helpers.go, observeTerminalBackupJob). */
module Observations {
  import opened Options
  import opened NativeJobs
  import opened Snapshots
  import opened JobStatus

  /** Where a completed run is recorded. */
  datatype Target = Target(snapshotName: string, series: string, storage: string, keepLast: int)

  /** Whether the calls an observation makes succeed, and the time. */
  datatype Calls = Calls(probeOk: bool, persistOk: bool, now: int)

  datatype Finding = NotDone | CallFailed | Seen(phase: Phase, snapshotRef: string, probe: Probe)

  function ProbeOr(result: Probe, default: Probe): Probe {
    if result == NoProbe then default else result
  }

  /** The probe result a pod reports, if it reports one. */
  function Reported(probe: Option<Probe>): Probe {
    if probe.Some? then probe.value else NoProbe
  }

  function Found(j: NativeJob, t: Target, c: Calls): Finding {
    match TerminalState(j.conditions)
    case None => NotDone
    case Some(Broken) => (
      match j.report
      case ListError => CallFailed
      case NoPod => Seen(Failing, "", ProbeUnknown)
      case Pod(probe, _) =>
        if probe.Some? && !c.probeOk then CallFailed else Seen(Failing, "", ProbeOr(Reported(probe), ProbeUnknown))
    )
    case Some(Succeeded) => (
      match j.report
      case ListError => CallFailed
      case NoPod => Seen(Done, "", ProbeSucceeded)
      case Pod(probe, artifact) =>
        if probe.Some? && !c.probeOk then CallFailed
        else if artifact.None? then Seen(Failing, "", Reported(probe))
        else if !c.persistOk then CallFailed
        else Seen(Done, t.snapshotName, ProbeOr(Reported(probe), ProbeSucceeded))
    )
  }

  /** Whether the run gets a snapshot record: its Job is complete and its latest pod has told of an
      artifact. */
  predicate Yields(j: NativeJob) {
    TerminalState(j.conditions) == Some(Succeeded) && j.report.Pod? && j.report.artifact.Some?
  }

  function RunOf(j: NativeJob): FinishedJob {
    FinishedJob(j.name, j.startedAt, CompletedTime(j.conditions))
  }

  function AfterObserve(records: Records, j: NativeJob, t: Target, c: Calls): Records {
    if Yields(j) && Found(j, t, c) != CallFailed then
      AfterPersist(records, t.snapshotName, t.series, t.storage, RunOf(j), j.report.artifact.value, t.keepLast, c.now)
    else records
  }

  method ObserveTerminalBackupJob(client: SnapshotClient, job: NativeJob, t: Target, c: Calls)
    returns (found: Finding)
    requires WellKeyed(client.records)
    modifies client
    ensures found == Found(job, t, c)
    ensures client.records == AfterObserve(old(client.records), job, t, c)
  {
    var state := JobTerminalState(job.conditions);
    if state.None? {
      return NotDone;
    }
    var phase := if state.value == Succeeded then Done else Failing;
    var probe, snapshotRef := NoProbe, "";
    match job.report {
      case ListError =>
        return CallFailed;
      case NoPod =>
      case Pod(reported, artifact) =>
        if reported.Some? {
          probe := reported.value;
          if !c.probeOk {
            return CallFailed;
          }
        }
        if phase == Done {
          if artifact.None? {
            return Seen(Failing, "", probe);
          }
          if !c.persistOk {
            return CallFailed;
          }
          var completed := JobCompletedAt(job.conditions);
          var _ := client.PersistSnapshot(t.snapshotName, t.series, t.storage,
                                          FinishedJob(job.name, job.startedAt, completed),
                                          artifact.value, t.keepLast, c.now, None);
          snapshotRef := t.snapshotName;
        }
    }
    if probe == NoProbe {
      probe := if phase == Done then ProbeSucceeded else ProbeUnknown;
    }
    found := Seen(phase, snapshotRef, probe);
  }

  /** The Job is complete and its latest pod has told of an artifact. */
  ghost predicate HasArtifact(j: NativeJob) {
    FirstTrue(j.conditions, Complete) && j.report.Pod? && j.report.artifact.Some?
  }

  /** A complete Job counts as a success unless its pod is there and has told of no artifact. */
  ghost predicate Fulfilled(j: NativeJob) {
    FirstTrue(j.conditions, Complete) && (j.report.NoPod? || (j.report.Pod? && j.report.artifact.Some?))
  }

  /** The calls an observation needs succeed, recording the run included. */
  ghost predicate CallsSucceed(j: NativeJob, c: Calls) {
    Observable(j, c.probeOk) && (HasArtifact(j) ==> c.persistOk)
  }

  /** When there is nothing to observe, and when the calls of an observation fail. */
  lemma SeenExact(j: NativeJob, t: Target, c: Calls)
    ensures Found(j, t, c) == NotDone <==> !FirstTrue(j.conditions, Complete) && !FirstTrue(j.conditions, Failed)
    ensures Found(j, t, c) == CallFailed <==> !CallsSucceed(j, c)
  {
    TerminalStateExact(j.conditions);
  }

  /** What is found of a native Job, in terms of its conditions and of what its pod has told: a Job that is
      complete but has no artifact to show has failed, and its probe result stays as its pod gave it. */
  lemma FoundExact(j: NativeJob, t: Target, c: Calls)
    ensures var found := Found(j, t, c);
            found.Seen? ==>
              && found.phase == (if Fulfilled(j) then Done else Failing)
              && found.snapshotRef == (if HasArtifact(j) then t.snapshotName else "")
              && if FirstTrue(j.conditions, Complete) && !Fulfilled(j) then
                   found.probe == (if j.report.Pod? && j.report.probe.Some? then j.report.probe.value else NoProbe)
                 else ReportsProbe(found.probe, j)
  {
    TerminalStateExact(j.conditions);
  }

  /** The records change exactly when the run is kept, and then as recording it under the target's name
      changes them: with the times of the Job and the artifact of the pod. */
  lemma ObserveExact(records: Records, j: NativeJob, t: Target, c: Calls)
    ensures var after := AfterObserve(records, j, t, c);
            if !(HasArtifact(j) && CallsSucceed(j, c)) then after == records
            else
              exists end :: LatestEnd(j.conditions, end)
                && after == AfterPersist(records, t.snapshotName, t.series, t.storage,
                                         FinishedJob(j.name, j.startedAt, end), j.report.artifact.value,
                                         t.keepLast, c.now)
  {
    SeenExact(j, t, c);
    TerminalStateExact(j.conditions);
    CompletedTimeIsLatest(j.conditions);
  }
}
