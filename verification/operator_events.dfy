/** The events of `OperatorRun` other than uploads keep the invariant too. */
module OperatorEvents {
  import opened Options
  import opened Snapshots
  import opened NativeJobs
  import opened Finalizer
  import opened NfsBackend
  import opened Series
  import opened OperatorRun
  import opened OperatorSafety

  // ---------------------------------------------------------------- flags and finalizers

  /** Only flags and finalizers change. */
  ghost predicate Reflagged(a: Records, b: Records) {
    b.Keys == a.Keys && Thinner(a, b)
  }

  lemma ReflaggedBase(s: State, t: State)
    requires Base(s) && t == s.(records := t.records)
    requires t.records.Keys == s.records.Keys && Thinner(s.records, t.records)
    ensures Base(t)
    ensures AllRestorable(s) ==> AllRestorable(t)
  {
    assert Retained(s.records, t.records, "", 0);
    ThinnerOk(s.records, t.records);
    ThinnerRemovable(s.records, t.records);
    PassJobs(s, t, "", 0);
    PassNoStray(s, t, "", 0);
    PassPending(s, t, "", 0);
    if AllRestorable(s) {
      PassRestorable(s, t, "", 0);
    }
  }

  lemma ReflaggedInv(s: State, t: State)
    requires Inv(s) && t == s.(records := t.records) && Reflagged(s.records, t.records)
    ensures Inv(t)
  {
    ReflaggedBase(s, t);
  }

  // ---------------------------------------------------------------- a record goes

  /** `t` is `s` without the record `m`. */
  ghost predicate Dropped(s: State, t: State, m: string) {
    && t.jobs == s.jobs && t.dirs == s.dirs && t.pending == s.pending
    && (forall n | n in t.records :: n in s.records && n != m && t.records[n] == s.records[n])
    && (forall n | n in s.records && n != m :: n in t.records)
  }

  lemma OldestHasNothingBefore(s: State, m: string, n: string)
    requires RecordsOk(s.records) && SameOrders(s.records)
    requires m in s.records && n in s.records && m != n && s.records[m].series == s.records[n].series
    requires !s.records[n].deleting
    requires s.records[m].stem in DirAt(s, s.records[m].backendPath).archives ==> OldestLive(s.records, m)
    ensures s.records[m].stem in DirAt(s, s.records[n].backendPath).archives ==>
              !ArchiveAfter(s.records[m].stem, s.records[n].stem)
  {
    assert RecordOk(m, s.records[m]) && RecordOk(n, s.records[n]);
    assert WellKeyed(s.records) by {
      assert forall k | k in s.records :: RecordOk(k, s.records[k]);
    }
    OrdersAgree(s.records, m, n);
    Comparable(s.records[m], s.records[n]);
  }

  lemma DroppedHasRecord(s: State, t: State, m: string, n: string, f: string)
    requires RecordsOk(s.records) && SameOrders(s.records) && Dropped(s, t, m)
    requires m in s.records
    requires s.records[m].stem in DirAt(s, s.records[m].backendPath).archives ==> OldestLive(s.records, m)
    requires n in t.records && !t.records[n].deleting
    requires f in DirAt(s, s.records[n].backendPath).archives && ArchiveAfter(f, s.records[n].stem)
    requires HasRecord(s.records, s.records[n].series, f)
    ensures HasRecord(t.records, t.records[n].series, f)
  {
    var k :| k in s.records && s.records[k].series == s.records[n].series && s.records[k].stem == f;
    if s.records[m].series == s.records[n].series {
      OldestHasNothingBefore(s, m, n);
    }
    assert k != m;
    assert t.records[k].stem == f;
  }

  lemma DroppedNoStray(s: State, t: State, m: string)
    requires RecordsOk(s.records) && SameOrders(s.records) && NoStrayArchive(s) && Dropped(s, t, m)
    requires m in s.records
    requires s.records[m].stem in DirAt(s, s.records[m].backendPath).archives ==> OldestLive(s.records, m)
    ensures NoStrayArchive(t)
  {
    forall n, f | n in t.records && Live(t.records[n])
                  && f in DirAt(t, t.records[n].backendPath).archives
                  && ArchiveAfter(f, t.records[n].stem)
      ensures HasRecord(t.records, t.records[n].series, f)
           || (t.records[n].series in t.pending && t.pending[t.records[n].series].p.stem == f)
    {
      if HasRecord(s.records, s.records[n].series, f) {
        DroppedHasRecord(s, t, m, n, f);
      }
    }
  }

  lemma DroppedJobs(s: State, t: State, m: string)
    requires JobsOk(s) && Dropped(s, t, m)
    requires m in s.jobs ==> TerminalState(s.jobs[m].conditions) != None
    ensures JobsOk(t)
  {
    forall n | n in t.jobs ensures JobOk(t, n) {
      assert JobOk(s, n);
    }
  }

  lemma DroppedIs(s: State, t: State, m: string)
    requires Dropped(s, t, m)
    ensures t.records == s.records - {m}
  {
  }

  lemma DroppedRestorableAt(s: State, t: State, m: string, k: string)
    requires RecordsOk(s.records) && Dropped(s, t, m) && m in s.records && Harmless(s, m)
    requires k in t.records && Live(t.records[k]) && Restorable(s, k)
    ensures Restorable(t, k)
  {
    DroppedIs(s, t, m);
    RemovedRank(s.records, m, k);
    if s.records[k].stem !in DirAt(s, s.records[k].backendPath).archives {
      assert Pruned(s, k, s.records[k].series);
    }
  }

  lemma DroppedRestorable(s: State, t: State, m: string)
    requires RecordsOk(s.records) && AllRestorable(s) && Dropped(s, t, m)
    requires m in s.records && Harmless(s, m)
    ensures AllRestorable(t)
  {
    forall k | k in t.records && Live(t.records[k]) ensures Restorable(t, k) {
      assert Restorable(s, k);
      DroppedRestorableAt(s, t, m, k);
    }
  }

  lemma DroppedRecords(s: State, t: State, m: string)
    requires Inv(s) && Dropped(s, t, m)
    ensures RecordsOk(t.records) && AllRemovable(t.records) && SameOrders(t.records)
    ensures PendingOk(t)
  {
  }

  lemma RemovalInv(s: State, t: State, m: string)
    requires Inv(s) && m in s.records && Harmless(s, m) && Dropped(s, t, m)
    requires m in s.jobs ==> TerminalState(s.jobs[m].conditions) != None
    requires s.records[m].stem in DirAt(s, s.records[m].backendPath).archives ==> OldestLive(s.records, m)
    ensures Inv(t)
  {
    DroppedRecords(s, t, m);
    DroppedNoStray(s, t, m);
    DroppedJobs(s, t, m);
    DroppedRestorable(s, t, m);
  }

  /** A record without finalizers has no cleanup Job. */
  lemma UnfinalizedHasNoJob(s: State, n: string)
    requires Inv(s) && n in s.records && s.records[n].finalizers == {}
    ensures n !in s.jobs
  {
    assert RecordOk(n, s.records[n]);
    assert forall m | m in s.jobs :: JobOk(s, m);
  }

  lemma MarkedReflagged(a: Records, n: string)
    requires RecordsOk(a) && n in a && a[n].finalizers != {}
    ensures Reflagged(a, Deleted(a, n))
  {
    forall m | m in a ensures RecordOk(m, a[m]) {
    }
  }

  lemma DropIsDropped(s: State, n: string)
    ensures Dropped(s, s.(records := s.records - {n}), n)
  {
  }

  /** The oldest record left saves no other. */
  lemma OldestIsHarmless(s: State, n: string)
    requires n in s.records && OldestLive(s.records, n)
    ensures Harmless(s, n)
  {
    forall k | Pruned(s, k, s.records[n].series) ensures !NewerFirst(s.records[n], s.records[k]) {
      NewerAsymmetric(s.records[k], s.records[n]);
    }
  }

  lemma NewerAsymmetric(a: Snapshot, b: Snapshot)
    ensures !(NewerFirst(a, b) && NewerFirst(b, a))
    ensures !NewerFirst(a, a)
  {
    AfterStrictTotal({StampOf(a), StampOf(b)});
  }

  lemma DeleteInv(s: State, n: string)
    requires Inv(s) && MayDelete(s, n)
    ensures Inv(s.(records := Deleted(s.records, n)))
  {
    if s.records[n].finalizers == {} {
      UnfinalizedHasNoJob(s, n);
      OldestIsHarmless(s, n);
      DropIsDropped(s, n);
      RemovalInv(s, s.(records := s.records - {n}), n);
    } else {
      MarkedReflagged(s.records, n);
      ReflaggedInv(s, s.(records := Deleted(s.records, n)));
    }
  }

  // ---------------------------------------------------------------- the snapshot reconciler

  lemma ReflagOne(a: Records, n: string, r: Snapshot)
    requires RecordsOk(a) && n in a
    requires r == a[n].(finalizers := r.finalizers)
    requires r.deleting ==> r.finalizers != {}
    ensures Reflagged(a, a[n := r])
  {
    forall m | m in a ensures RecordOk(m, a[m]) {
    }
  }

  /** The reconciler lets a record go only when its cleanup Job has completed, and then its three
      files are gone. */
  lemma LetGo(s: State, n: string, storages: set<string>)
    requires Inv(s) && n in s.records && s.records[n].deleting
    requires CLEANUP_FINALIZER in s.records[n].finalizers
    requires var t := Reconciled(s, n, storages);
             n !in t.records || CLEANUP_FINALIZER !in t.records[n].finalizers
    ensures n in s.jobs && TerminalState(s.jobs[n].conditions) == Some(Succeeded)
    ensures s.jobs[n].stem == s.records[n].stem && s.jobs[n].backendPath == s.records[n].backendPath
    ensures FilesGone(DirAt(s, s.records[n].backendPath), s.records[n].stem)
    ensures Reconciled(s, n, storages) == s.(records := Unfinalized(s.records, n))
  {
    assert Removable(s.records[n]);
    assert n in s.jobs ==> JobOk(s, n);
  }

  /** Only the cleanup Jobs differ. */
  ghost predicate OnlyJobs(s: State, t: State) {
    t.records == s.records && t.dirs == s.dirs && t.pending == s.pending
  }

  lemma OtherJobsNoStray(s: State, t: State)
    requires OnlyJobs(s, t) && NoStrayArchive(s)
    ensures NoStrayArchive(t)
  {
  }

  lemma OtherJobsPending(s: State, t: State)
    requires OnlyJobs(s, t) && PendingOk(s)
    ensures PendingOk(t)
  {
  }

  lemma OtherJobsRestorable(s: State, t: State)
    requires OnlyJobs(s, t) && AllRestorable(s)
    ensures AllRestorable(t)
  {
    forall n | n in t.records && Live(t.records[n]) ensures Restorable(t, n) {
      assert Restorable(s, n);
    }
  }

  lemma OtherJobs(s: State, t: State)
    requires Inv(s) && OnlyJobs(s, t) && JobsOk(t)
    ensures Inv(t)
  {
    OtherJobsNoStray(s, t);
    OtherJobsPending(s, t);
    OtherJobsRestorable(s, t);
  }

  lemma NewJobOk(s: State, n: string)
    requires JobsOk(s) && n in s.records && s.records[n].deleting && n !in s.jobs
    ensures JobsOk(s.(jobs := s.jobs[n := Rendered(s.records[n])]))
  {
    var t := s.(jobs := s.jobs[n := Rendered(s.records[n])]);
    forall m | m in t.jobs ensures JobOk(t, m) {
      assert m != n ==> JobOk(s, m);
    }
  }

  lemma FewerJobsOk(s: State, n: string)
    requires JobsOk(s)
    ensures JobsOk(s.(jobs := s.jobs - {n}))
  {
    var t := s.(jobs := s.jobs - {n});
    forall m | m in t.jobs ensures JobOk(t, m) {
      assert JobOk(s, m);
    }
  }

  lemma UnfinalizeInv(s: State, n: string, storages: set<string>)
    requires Inv(s) && MayReconcile(s, n, storages)
    requires n in s.records && s.records[n].deleting && CLEANUP_FINALIZER in s.records[n].finalizers
    requires Reconciled(s, n, storages) == s.(records := Unfinalized(s.records, n))
    ensures Inv(Reconciled(s, n, storages))
  {
    var left := s.records[n].finalizers - {CLEANUP_FINALIZER};
    if left == {} {
      LetGo(s, n, storages);
      DropIsDropped(s, n);
      RemovalInv(s, s.(records := s.records - {n}), n);
    } else {
      ReflagOne(s.records, n, s.records[n].(finalizers := left));
      ReflaggedInv(s, s.(records := s.records[n := s.records[n].(finalizers := left)]));
    }
  }

  lemma ReconcileInv(s: State, n: string, storages: set<string>)
    requires Inv(s) && MayReconcile(s, n, storages)
    ensures Inv(Reconciled(s, n, storages))
  {
    var t := Reconciled(s, n, storages);
    if t == s {
    } else if !s.records[n].deleting {
      var r := s.records[n].(finalizers := s.records[n].finalizers + {CLEANUP_FINALIZER});
      ReflagOne(s.records, n, r);
      ReflaggedInv(s, t);
    } else if t.records == s.records {
      NewJobOk(s, n);
      OtherJobs(s, s.(jobs := s.jobs[n := Rendered(s.records[n])]));
    } else {
      UnfinalizeInv(s, n, storages);
    }
  }

  // ---------------------------------------------------------------- cleanup Jobs

  /** `t` is `s` with files of one stem missing from one directory, and one Job finished. */
  ghost predicate CleanedAt(s: State, t: State, n: string, kind: ConditionType)
    requires n in s.jobs
  {
    var path, stem := s.jobs[n].backendPath, s.jobs[n].stem;
    && t.records == s.records && t.pending == s.pending
    && t.jobs.Keys == s.jobs.Keys && (forall m | m in s.jobs && m != n :: t.jobs[m] == s.jobs[m])
    && t.jobs[n].backendPath == path && t.jobs[n].stem == stem
    && (TerminalState(t.jobs[n].conditions)
        == if kind == Complete then Some(Succeeded) else Some(Broken))
    && (forall other | other != path :: DirAt(t, other) == DirAt(s, other))
    && (kind == Complete ==> FilesGone(DirAt(t, path), stem))
    && OnlyFewer(DirAt(s, path), DirAt(t, path), stem)
  }

  /** `b` has the files of `a`, those of `stem` possibly excepted. */
  ghost predicate OnlyFewer(a: Dir, b: Dir, stem: string) {
    && b.archives.Keys <= a.archives.Keys && b.sums.Keys <= a.sums.Keys && b.metas.Keys <= a.metas.Keys
    && (forall f | f in a.archives && f != stem :: f in b.archives)
  }

  lemma {:induction false} FinishedState(conditions: seq<Condition>, kind: ConditionType, at: int)
    requires TerminalState(conditions) == None && (kind == Complete || kind == Failed)
    ensures TerminalState(conditions + [Condition(kind, true, at)])
         == Some(if kind == Complete then Succeeded else Broken)
  {
    if conditions != [] {
      FinishedState(conditions[1..], kind, at);
      assert (conditions + [Condition(kind, true, at)])[1..] == conditions[1..] + [Condition(kind, true, at)];
    }
  }

  lemma CleanedEffect(s: State, n: string, at: int)
    requires Active(s, n)
    ensures CleanedAt(s, Cleaned(s, n, at), n, Complete)
  {
    FinishedState(s.jobs[n].conditions, Complete, at);
  }

  lemma HalfCleanedEffect(s: State, n: string, archive: bool, sum: bool, meta: bool,
                          latest: Option<Metadata>, at: int)
    requires Active(s, n)
    ensures CleanedAt(s, HalfCleaned(s, n, archive, sum, meta, latest, at), n, Failed)
  {
    FinishedState(s.jobs[n].conditions, Failed, at);
  }

  lemma CleanupJobs(s: State, t: State, n: string, kind: ConditionType)
    requires JobsOk(s) && Active(s, n) && CleanedAt(s, t, n, kind)
    ensures JobsOk(t)
  {
    forall m | m in t.jobs ensures JobOk(t, m) {
      assert JobOk(s, m);
    }
  }

  /** The files that go belong to a record that is being deleted, and to no other record. */
  lemma CleanupSparesOthers(s: State, n: string, m: string)
    requires RecordsOk(s.records) && SameOrders(s.records) && JobsOk(s) && Active(s, n)
    requires m in s.records && !s.records[m].deleting
    ensures s.records[m].backendPath == s.jobs[n].backendPath ==> s.records[m].stem != s.jobs[n].stem
  {
    assert JobOk(s, n) && RecordOk(n, s.records[n]) && RecordOk(m, s.records[m]);
    if s.records[m].backendPath == s.jobs[n].backendPath {
      BackendPathInjective(s.records[m].series, s.records[n].series);
      assert WellKeyed(s.records) by {
        assert forall k | k in s.records :: RecordOk(k, s.records[k]);
      }
      OrdersAgree(s.records, m, n);
    }
  }

  lemma CleanupRestorable(s: State, t: State, n: string, kind: ConditionType)
    requires RecordsOk(s.records) && SameOrders(s.records) && JobsOk(s) && AllRestorable(s)
    requires Active(s, n) && CleanedAt(s, t, n, kind)
    ensures AllRestorable(t)
  {
    forall m | m in t.records && Live(t.records[m]) ensures Restorable(t, m) {
      assert Restorable(s, m);
      CleanupSparesOthers(s, n, m);
    }
  }

  lemma CleanupPending(s: State, t: State, n: string, kind: ConditionType)
    requires RecordsOk(s.records) && JobsOk(s) && PendingOk(s)
    requires Active(s, n) && CleanedAt(s, t, n, kind)
    ensures PendingOk(t)
  {
    assert JobOk(s, n) && RecordOk(n, s.records[n]);
    forall series | series in t.pending
      ensures t.pending[series].p.stem in DirAt(t, BackendPathOf(series)).archives
    {
      BackendPathInjective(series, s.records[n].series);
      ArchiveAsymmetric(s.records[n].stem, s.records[n].stem);
    }
  }

  lemma CleanupNoStray(s: State, t: State, n: string, kind: ConditionType)
    requires n in s.jobs && NoStrayArchive(s) && CleanedAt(s, t, n, kind)
    ensures NoStrayArchive(t)
  {
  }

  lemma CleanupInv(s: State, t: State, n: string, kind: ConditionType)
    requires Inv(s) && Active(s, n) && CleanedAt(s, t, n, kind)
    ensures Inv(t)
  {
    CleanupJobs(s, t, n, kind);
    CleanupRestorable(s, t, n, kind);
    CleanupPending(s, t, n, kind);
    CleanupNoStray(s, t, n, kind);
  }

  lemma ExpireInv(s: State, n: string)
    requires Inv(s)
    ensures Inv(s.(jobs := s.jobs - {n}))
  {
    FewerJobsOk(s, n);
    OtherJobs(s, s.(jobs := s.jobs - {n}));
  }
}
