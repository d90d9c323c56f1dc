/** The reconciler that lets a snapshot record go only after its artifacts are removed
    (controllers/snapshot_controller.go, SnapshotReconciler.Reconcile). */
module Finalizer {
  import opened Options
  import opened Strings
  import opened Snapshots
  import opened NativeJobs

  /** A cleanup Job as rendered from a record; jobs are kept by the name of that record, since
      every record has a cleanup Job name of its own. */
  datatype CleanupJob = CleanupJob(storage: string, backendPath: string, stem: string,
                                   conditions: seq<Condition>)

  datatype Cluster = Cluster(records: Records, jobs: map<string, CleanupJob>)

  datatype Verdict = Settled | Requeue | StorageMissing | CleanupFailed

  /** Whether the record points at artifacts that can be removed. */
  predicate Removable(s: Snapshot) {
    s.ready && TrimSpace(s.storage) != "" && TrimSpace(s.backendPath) != "" && TrimSpace(s.stem) != ""
  }

  /** A patch that takes the cleanup finalizer off: the API server drops a record that is being
      deleted as soon as it has no finalizer left. */
  function Unfinalized(records: Records, n: string): Records
    requires n in records
  {
    var left := records[n].finalizers - {CLEANUP_FINALIZER};
    if records[n].deleting && left == {} then records - {n}
    else records[n := records[n].(finalizers := left)]
  }

  function Rendered(s: Snapshot): CleanupJob {
    CleanupJob(s.storage, s.backendPath, s.stem, [])
  }

  function AfterReconcile(c: Cluster, storages: set<string>, n: string): Cluster {
    if n !in c.records then c
    else
      var s := c.records[n];
      if !s.deleting then
        if s.ready then c.(records := c.records[n := s.(finalizers := s.finalizers + {CLEANUP_FINALIZER})]) else c
      else if CLEANUP_FINALIZER !in s.finalizers then c
      else if !Removable(s) then c.(records := Unfinalized(c.records, n))
      else if s.storage !in storages then c
      else if n !in c.jobs then c.(jobs := c.jobs[n := Rendered(s)])
      else if TerminalState(c.jobs[n].conditions) == Some(Succeeded) then c.(records := Unfinalized(c.records, n))
      else c
  }

  /** How a reconcile ends: it asks to be called again while the cleanup Job is at work, and fails
      when the storage is missing or the Job has failed. */
  function VerdictOf(c: Cluster, storages: set<string>, n: string): Verdict {
    if n !in c.records || !c.records[n].deleting || CLEANUP_FINALIZER !in c.records[n].finalizers
       || !Removable(c.records[n]) then Settled
    else if c.records[n].storage !in storages then StorageMissing
    else if n !in c.jobs || TerminalState(c.jobs[n].conditions).None? then Requeue
    else if TerminalState(c.jobs[n].conditions) == Some(Succeeded) then Settled
    else CleanupFailed
  }

  // ---------------------------------------------------------------- what one reconcile means

  /** The record is being deleted and points at artifacts, which the finalizer guards. */
  predicate Guarded(c: Cluster, n: string) {
    && n in c.records && c.records[n].deleting && CLEANUP_FINALIZER in c.records[n].finalizers
    && c.records[n].ready && TrimSpace(c.records[n].storage) != "" && TrimSpace(c.records[n].backendPath) != ""
    && TrimSpace(c.records[n].stem) != ""
  }

  /** A reconcile asks to be called again exactly if it leaves the cleanup Job of a guarded record at work;
      it fails exactly if the storage of such a record is missing or its Job has failed; and when it settles,
      the record is gone, is not being deleted, or does not carry the finalizer. */
  ghost predicate EndsAs(c: Cluster, storages: set<string>, n: string, after: Cluster, verdict: Verdict) {
    && (verdict == Requeue <==>
          && Guarded(after, n) && after.records[n].storage in storages && n in after.jobs
          && !FirstTrue(after.jobs[n].conditions, Complete) && !FirstTrue(after.jobs[n].conditions, Failed))
    && (verdict == StorageMissing <==> Guarded(c, n) && c.records[n].storage !in storages)
    && (verdict == CleanupFailed <==>
          && Guarded(c, n) && c.records[n].storage in storages
          && n in c.jobs && FirstTrue(c.jobs[n].conditions, Failed))
    && (verdict == Settled ==>
          n !in after.records || !after.records[n].deleting || CLEANUP_FINALIZER !in after.records[n].finalizers)
  }

  lemma VerdictExact(c: Cluster, storages: set<string>, n: string)
    ensures EndsAs(c, storages, n, AfterReconcile(c, storages, n), VerdictOf(c, storages, n))
  {
    if n in c.jobs {
      TerminalStateExact(c.jobs[n].conditions);
    }
    TerminalStateExact([]);
  }

  /** A reconcile touches no record and no Job but its own, and no field of a record but its finalizers. */
  lemma ReconcileTouches(c: Cluster, storages: set<string>, n: string)
    ensures var after := AfterReconcile(c, storages, n);
            && (forall m | m != n :: (m in after.records <==> m in c.records) && (m in after.jobs <==> m in c.jobs))
            && (forall m | m != n && m in c.records :: after.records[m] == c.records[m])
            && (forall m | m != n && m in c.jobs :: after.jobs[m] == c.jobs[m])
            && (n in after.records ==>
                  && n in c.records
                  && after.records[n] == c.records[n].(finalizers := after.records[n].finalizers)
                  && after.records[n].finalizers - {CLEANUP_FINALIZER} == c.records[n].finalizers - {CLEANUP_FINALIZER})
  {
  }

  /** A Job is created exactly for a guarded record that has none, with its storage there: it names the
      storage, the directory and the snapshot of the record, and no Job is changed or removed. */
  lemma JobCreatedExact(c: Cluster, storages: set<string>, n: string)
    ensures var after := AfterReconcile(c, storages, n);
            if Guarded(c, n) && c.records[n].storage in storages && n !in c.jobs then
              && after.records == c.records
              && after.jobs == c.jobs[n := CleanupJob(c.records[n].storage, c.records[n].backendPath,
                                                      c.records[n].stem, [])]
            else after.jobs == c.jobs
  {
  }

  /** The finalizer is put on a record exactly when it is ready and not being deleted. It is taken off
      exactly when the record is being deleted and either points at nothing or has its storage there and
      its cleanup Job complete; and a record that is being deleted goes with its last finalizer. */
  lemma FinalizerExact(c: Cluster, storages: set<string>, n: string)
    requires n in c.records
    ensures var after, s := AfterReconcile(c, storages, n), c.records[n];
            var guarded := CLEANUP_FINALIZER in s.finalizers;
            var removes := && guarded && s.deleting
                           && (|| !Guarded(c, n)
                               || (s.storage in storages && n in c.jobs && FirstTrue(c.jobs[n].conditions, Complete)));
            && (n in after.records && CLEANUP_FINALIZER in after.records[n].finalizers <==>
                  (guarded && !removes) || (s.ready && !s.deleting))
            && (n !in after.records <==> removes && s.finalizers == {CLEANUP_FINALIZER})
  {
    if n in c.jobs {
      TerminalStateExact(c.jobs[n].conditions);
    }
  }

  class SnapshotReconciler {
    var records: Records
    var jobs: map<string, CleanupJob>
    var storages: set<string>

    function State(): Cluster
      reads this
    {
      Cluster(records, jobs)
    }

    method RemoveFinalizer(n: string)
      requires n in records
      modifies this`records
      ensures records == Unfinalized(old(records), n)
    {
      var left := records[n].finalizers - {CLEANUP_FINALIZER};
      if records[n].deleting && left == {} {
        records := records - {n};
      } else {
        records := records[n := records[n].(finalizers := left)];
      }
    }

    method Reconcile(n: string) returns (verdict: Verdict)
      modifies this`records, this`jobs
      ensures State() == AfterReconcile(old(State()), storages, n)
      ensures verdict == VerdictOf(old(State()), storages, n)
      ensures EndsAs(old(State()), storages, n, State(), verdict)
    {
      VerdictExact(State(), storages, n);
      if n !in records {
        return Settled;
      }
      var snapshot := records[n];
      if !snapshot.deleting {
        if snapshot.ready && CLEANUP_FINALIZER !in snapshot.finalizers {
          snapshot := snapshot.(finalizers := snapshot.finalizers + {CLEANUP_FINALIZER});
          records := records[n := snapshot];
        } else {
          assert snapshot.ready ==> snapshot.finalizers + {CLEANUP_FINALIZER} == snapshot.finalizers;
          assert records[n := snapshot] == records;
        }
        return Settled;
      }
      if CLEANUP_FINALIZER !in snapshot.finalizers {
        return Settled;
      }
      if !snapshot.ready || TrimSpace(snapshot.storage) == "" || TrimSpace(snapshot.backendPath) == ""
         || TrimSpace(snapshot.stem) == "" {
        RemoveFinalizer(n);
        return Settled;
      }
      if snapshot.storage !in storages {
        return StorageMissing;
      }
      if n !in jobs {
        jobs := jobs[n := Rendered(snapshot)];
        return Requeue;
      }
      var state := JobTerminalState(jobs[n].conditions);
      if state.None? {
        return Requeue;
      }
      if state.value != Succeeded {
        return CleanupFailed;
      }
      RemoveFinalizer(n);
      return Settled;
    }
  }
}
