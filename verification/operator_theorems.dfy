/** The remaining events of `OperatorRun`, and what holds over every run. */
module OperatorTheorems {
  import opened Ranking
  import opened Snapshots
  import opened NativeJobs
  import opened Finalizer
  import opened NfsBackend
  import opened Series
  import opened OperatorRun
  import opened OperatorSafety
  import opened OperatorSteps
  import opened OperatorEvents

  // ---------------------------------------------------------------- a Job seen again

  function Refreshed(r: Snapshot): Snapshot {
    r.(succeeded := true, ready := true, latest := true)
  }

  lemma AgainIsPass(records: Records, n: string, keepLast: int)
    requires n in records
    ensures Again(records, n, keepLast)
         == AfterPass(records[n := Refreshed(records[n])], records[n].series, keepLast, n)
  {
  }

  lemma RefreshThinner(a: Records, n: string)
    requires RecordsOk(a) && AllRemovable(a) && n in a
    ensures Thinner(a, a[n := Refreshed(a[n])])
  {
    assert Removable(a[n]);
    forall m | m in a ensures RecordOk(m, a[m]) {
    }
  }

  lemma RestorableNow(s: State, series: string, keepLast: int)
    requires AllRestorable(s)
    ensures RestorableOrDoomed(s, series, keepLast)
  {
  }

  lemma RefreshBase(s: State, t: State, n: string)
    requires Base(s) && AllRestorable(s) && n in s.records
    requires t == s.(records := t.records) && t.records == s.records[n := Refreshed(s.records[n])]
    ensures Base(t) && AllRestorable(t)
  {
    RefreshThinner(s.records, n);
    ReflaggedBase(s, t);
  }

  lemma ReobserveInv(s: State, n: string, keepLast: int)
    requires Inv(s) && n in s.records
    ensures Inv(s.(records := Again(s.records, n, keepLast)))
  {
    var t := s.(records := s.records[n := Refreshed(s.records[n])]);
    RefreshBase(s, t, n);
    RestorableNow(t, s.records[n].series, keepLast);
    PassInv(t, s.records[n].series, keepLast, n);
    AgainIsPass(s.records, n, keepLast);
  }

  // ---------------------------------------------------------------- an upload is recorded

  /** `t` is `s` with the waiting upload recorded under `n`, before the retention pass. */
  ghost predicate RecordedIn(s: State, t: State, n: string, series: string) {
    && t.jobs == s.jobs && t.dirs == s.dirs
    && series in s.pending && SeriesLike(series)
    && t.pending.Keys == s.pending.Keys - {series}
    && (forall other | other in t.pending :: t.pending[other] == s.pending[other])
    && t.records.Keys == s.records.Keys + {n}
    && (forall m | m in s.records && m != n :: t.records[m] == s.records[m])
    && t.records[n].series == series && t.records[n].stem == s.pending[series].p.stem
    && RecordOk(n, t.records[n]) && t.records[n].ready
    && n !in s.jobs
    && (n in s.records ==> s.records[n].series == series && OldestLive(s.records, n))
    && (forall m | m in s.records && m != n && s.records[m].series == series ::
          NewerFirst(t.records[n], s.records[m]))
  }

  function RecordedState(s: State, n: string, series: string, storage: string, job: FinishedJob, now: int): State
    requires SeriesLike(series) && series in s.pending
  {
    s.(records := s.records[n := Recorded(s.records, n, series, storage, job,
                                          ArtifactOf(s.pending[series].p, series), now)],
       pending := s.pending - {series})
  }

  lemma RecordEffect(s: State, n: string, series: string, storage: string, job: FinishedJob, keepLast: int, now: int)
    requires RecordsOk(s.records) && MayObserve(s, n, series, storage, job, keepLast)
    ensures RecordedIn(s, RecordedState(s, n, series, storage, job, now), n, series)
  {
    assert n in s.records ==> RecordOk(n, s.records[n]);
    assert forall m | m in s.records :: RecordOk(m, s.records[m]);
  }

  lemma RecordRemovable(s: State, n: string, series: string, storage: string, job: FinishedJob, keepLast: int, now: int)
    requires AllRemovable(s.records) && PendingOk(s) && MayObserve(s, n, series, storage, job, keepLast)
    ensures AllRemovable(RecordedState(s, n, series, storage, job, now).records)
  {
  }

  lemma RecordsStayOk(s: State, t: State, n: string, series: string)
    requires RecordsOk(s.records) && RecordedIn(s, t, n, series)
    ensures RecordsOk(t.records)
  {
    forall m | m in t.records ensures RecordOk(m, t.records[m]) {
      assert m != n ==> RecordOk(m, s.records[m]);
    }
  }

  /** A record newer than all others of its series, with the latest archive, keeps the orders the
      same. */
  lemma OrdersWithTop(a: Records, n: string, top: Snapshot)
    requires SameOrders(a)
    requires forall m | m in a && m != n && a[m].series == top.series ::
               NewerFirst(top, a[m]) && ArchiveAfter(top.stem, a[m].stem)
    ensures SameOrders(a[n := top])
  {
    var b := a[n := top];
    forall m, k | m in b && k in b && b[m].series == b[k].series && NewerFirst(b[m], b[k])
      ensures ArchiveAfter(b[m].stem, b[k].stem)
    {
      NewerAsymmetric(b[m], b[k]);
      NewerAsymmetric(top, top);
    }
  }

  lemma RecordIsUpdate(s: State, t: State, n: string, series: string)
    requires RecordedIn(s, t, n, series)
    ensures t.records == s.records[n := t.records[n]]
  {
  }

  lemma RecordIsTop(s: State, t: State, n: string, series: string)
    requires series in s.pending && PendingAt(s, series) && RecordedIn(s, t, n, series)
    ensures forall m | m in s.records && m != n && s.records[m].series == series ::
              NewerFirst(t.records[n], s.records[m]) && ArchiveAfter(t.records[n].stem, s.records[m].stem)
  {
  }

  lemma RecordOrders(s: State, t: State, n: string, series: string)
    requires RecordsOk(s.records) && SameOrders(s.records) && PendingOk(s) && RecordedIn(s, t, n, series)
    ensures RecordsOk(t.records) && SameOrders(t.records)
  {
    RecordsStayOk(s, t, n, series);
    RecordIsUpdate(s, t, n, series);
    RecordIsTop(s, t, n, series);
    OrdersWithTop(s.records, n, t.records[n]);
  }

  /** An archive known by a record of `s` is known by one of `t`, unless it is that of the record
      written over, which is older than every other record left. */
  lemma StillKnown(s: State, t: State, n: string, series: string, k: string, f: string)
    requires RecordsOk(s.records) && SameOrders(s.records) && RecordedIn(s, t, n, series)
    requires k in s.records && k != n && !s.records[k].deleting
    requires f in DirAt(s, s.records[k].backendPath).archives && ArchiveAfter(f, s.records[k].stem)
    requires HasRecord(s.records, s.records[k].series, f)
    ensures HasRecord(t.records, s.records[k].series, f)
  {
    var m :| m in s.records && s.records[m].series == s.records[k].series && s.records[m].stem == f;
    if n in s.records && s.records[k].series == series {
      OldestHasNothingBefore(s, n, k);
    }
    assert m != n;
    assert t.records[m].stem == f;
  }

  lemma NothingAfterPending(s: State, t: State, n: string, series: string, f: string)
    requires PendingOk(s) && RecordedIn(s, t, n, series)
    requires f in DirAt(t, t.records[n].backendPath).archives
    ensures !ArchiveAfter(f, t.records[n].stem)
  {
    ArchiveAsymmetric(f, t.records[n].stem);
  }

  lemma RecordNoStrayAt(s: State, t: State, n: string, series: string, k: string, f: string)
    requires RecordsOk(s.records) && SameOrders(s.records) && RecordedIn(s, t, n, series)
    requires k in s.records && k != n && !s.records[k].deleting
    requires f in DirAt(s, s.records[k].backendPath).archives && ArchiveAfter(f, s.records[k].stem)
    requires HasRecord(s.records, s.records[k].series, f)
          || (s.records[k].series in s.pending && s.pending[s.records[k].series].p.stem == f)
    ensures HasRecord(t.records, s.records[k].series, f)
         || (s.records[k].series in t.pending && t.pending[s.records[k].series].p.stem == f)
  {
    if HasRecord(s.records, s.records[k].series, f) {
      StillKnown(s, t, n, series, k, f);
    } else if s.records[k].series == series {
      assert t.records[n].stem == f;
    }
  }

  lemma RecordNoStrayIn(s: State, t: State, n: string, series: string, k: string, f: string)
    requires RecordsOk(s.records) && SameOrders(s.records) && NoStrayArchive(s) && PendingOk(s)
    requires RecordedIn(s, t, n, series)
    requires k in t.records && Live(t.records[k])
    requires f in DirAt(t, t.records[k].backendPath).archives && ArchiveAfter(f, t.records[k].stem)
    ensures HasRecord(t.records, t.records[k].series, f)
         || (t.records[k].series in t.pending && t.pending[t.records[k].series].p.stem == f)
  {
    if k == n {
      NothingAfterPending(s, t, n, series, f);
    } else {
      assert t.records[k] == s.records[k];
      RecordNoStrayAt(s, t, n, series, k, f);
    }
  }

  lemma RecordNoStray(s: State, t: State, n: string, series: string)
    requires RecordsOk(s.records) && SameOrders(s.records) && NoStrayArchive(s) && PendingOk(s)
    requires RecordedIn(s, t, n, series)
    ensures NoStrayArchive(t)
  {
    forall k, f | k in t.records && Live(t.records[k])
                  && f in DirAt(t, t.records[k].backendPath).archives
                  && ArchiveAfter(f, t.records[k].stem)
      ensures HasRecord(t.records, t.records[k].series, f)
           || (t.records[k].series in t.pending && t.pending[t.records[k].series].p.stem == f)
    {
      RecordNoStrayIn(s, t, n, series, k, f);
    }
  }

  lemma OtherPending(s: State, t: State, n: string, series: string)
    requires n in t.records && series in s.pending && PendingAt(s, series)
    requires t.dirs == s.dirs && series in t.pending && t.pending[series] == s.pending[series]
    requires t.records == s.records[n := t.records[n]] && t.records[n].series != series
    ensures PendingAt(t, series)
  {
  }

  lemma RecordPending(s: State, t: State, n: string, series: string)
    requires PendingOk(s) && RecordedIn(s, t, n, series)
    ensures PendingOk(t)
  {
    RecordIsUpdate(s, t, n, series);
    forall other | other in t.pending ensures PendingAt(t, other) {
      OtherPending(s, t, n, other);
    }
  }

  lemma RecordJobs(s: State, t: State, n: string, series: string)
    requires JobsOk(s) && RecordedIn(s, t, n, series)
    ensures JobsOk(t)
  {
    forall m | m in t.jobs ensures JobOk(t, m) {
      assert JobOk(s, m);
    }
  }

  /** Recording a newer backup pushes every undeleted record of the series down by one. */
  lemma RecordRank(s: State, t: State, n: string, series: string, k: string)
    requires RecordsOk(s.records) && RecordedIn(s, t, n, series)
    requires k in s.records && k != n && s.records[k].series == series && !s.records[k].deleting
    ensures Newer(t.records, t.records[k]) >= Newer(s.records, s.records[k]) + 1
  {
    var x, top := StampOf(s.records[k]), StampOf(t.records[n]);
    var before, after := Preceding(After, Stamps(s.records, series), x), Preceding(After, Stamps(t.records, series), x);
    AfterStrictTotal({x});
    forall y | y in before ensures y in after && y != top {
      var m :| m in s.records && s.records[m].series == series && StampOf(s.records[m]) == y;
      assert RecordOk(m, s.records[m]) && RecordOk(k, s.records[k]) && RecordOk(n, t.records[n]);
      if m == n {
        Comparable(s.records[k], s.records[n]);
      }
      assert StampOf(t.records[m]) == y;
    }
    assert top in after;
    SubsetSize(before + {top}, after);
  }

  lemma RecordRestorableAt(s: State, t: State, n: string, series: string, keepLast: int, k: string)
    requires RecordsOk(s.records) && RecordedIn(s, t, n, series)
    requires 0 < keepLast && (0 < s.pending[series].keepLast ==> keepLast <= s.pending[series].keepLast)
    requires k in s.records && k != n && !s.records[k].deleting && Restorable(s, k)
    ensures Restorable(t, k) || (t.records[k].series == series && !Kept(t.records, keepLast, t.records[k]))
  {
    if s.records[k].series == series {
      RecordRank(s, t, n, series, k);
    } else {
      StampsUnchanged(s.records, t.records, s.records[k].series);
    }
  }

  lemma RecordRestorable(s: State, t: State, n: string, series: string, keepLast: int)
    requires RecordsOk(s.records) && AllRestorable(s) && PendingOk(s) && RecordedIn(s, t, n, series)
    requires 0 < keepLast && (0 < s.pending[series].keepLast ==> keepLast <= s.pending[series].keepLast)
    ensures RestorableOrDoomed(t, series, keepLast)
  {
    assert Restorable(t, n);
    forall k | k in t.records && Live(t.records[k]) && k != n
      ensures Restorable(t, k) || (t.records[k].series == series && !Kept(t.records, keepLast, t.records[k]))
    {
      RecordRestorableAt(s, t, n, series, keepLast, k);
    }
  }

  lemma ObserveInv(s: State, n: string, series: string, storage: string, job: FinishedJob, keepLast: int, now: int)
    requires Inv(s) && MayObserve(s, n, series, storage, job, keepLast)
    ensures Inv(Observed(s, n, series, storage, job, keepLast, now))
  {
    var t := RecordedState(s, n, series, storage, job, now);
    RecordEffect(s, n, series, storage, job, keepLast, now);
    RecordRemovable(s, n, series, storage, job, keepLast, now);
    RecordOrders(s, t, n, series);
    RecordNoStray(s, t, n, series);
    RecordPending(s, t, n, series);
    RecordJobs(s, t, n, series);
    RecordRestorable(s, t, n, series, keepLast);
    PassInv(t, series, keepLast, n);
  }

  // ---------------------------------------------------------------- a record comes back

  lemma ComesBack(s: State, n: string, r: Snapshot, p: Package, storage: string, job: FinishedJob,
                  keepLast: int, now: int)
    requires SeriesLike(r.series) && n !in s.records && job.completedAt.Some?
    requires r == Anew(n, r.series, storage, job, p, now)
    ensures RecordOk(n, r) && r.ready && !r.deleting && r.finalizers == {} && r.stem == p.stem && r.storage == storage
    ensures Recreated(s, n, r.series, storage, job, p, keepLast, now)
         == s.(records := AfterPass(s.records[n := r], r.series, keepLast, n))
  {
  }

  /** A record older than `r` has one more record before it. */
  lemma OlderRanksLower(records: Records, n: string, m: string)
    requires RecordsOk(records) && n in records && m in records
    requires records[m].series == records[n].series && NewerFirst(records[n], records[m])
    ensures Newer(records, records[m]) >= Newer(records, records[n]) + 1
  {
    var series, x, y := records[n].series, StampOf(records[n]), StampOf(records[m]);
    var stamps := Stamps(records, series);
    AfterStrictTotal(stamps + {x, y});
    SubsetSize(Preceding(After, stamps, x) + {x}, Preceding(After, stamps, y));
  }

  /** Whether a record is kept is not changed by one that is not. */
  lemma KeptBeside(records: Records, n: string, keepLast: int, m: string)
    requires RecordsOk(records) && 0 < keepLast && n in records && !Kept(records, keepLast, records[n])
    requires m in records && m != n && records[m].series == records[n].series
    ensures Kept(records, keepLast, records[m]) <==> Kept(records - {n}, keepLast, records[m])
  {
    RemovedRank(records, n, m);
    if NewerFirst(records[n], records[m]) {
      OlderRanksLower(records, n, m);
    }
  }

  /** So a pass over a record that it deletes at once is a pass over the others. */
  lemma PassWithout(records: Records, n: string, keepLast: int)
    requires RecordsOk(records) && 0 < keepLast && n in records && !Kept(records, keepLast, records[n])
    requires records[n].finalizers == {}
    ensures AfterPass(records, records[n].series, keepLast, n)
         == AfterPass(records - {n}, records[n].series, keepLast, n)
  {
    var series := records[n].series;
    forall m ensures SameAt(AfterPass(records, series, keepLast, n), AfterPass(records - {n}, series, keepLast, n), m) {
      if m in records && m != n && records[m].series == series {
        KeptBeside(records, n, keepLast, m);
      }
    }
    SameEverywhere(AfterPass(records, series, keepLast, n), AfterPass(records - {n}, series, keepLast, n));
  }

  lemma AddedOk(a: Records, n: string, r: Snapshot)
    requires RecordsOk(a) && AllRemovable(a) && RecordOk(n, r) && Removable(r)
    ensures RecordsOk(a[n := r]) && AllRemovable(a[n := r])
  {
    var b := a[n := r];
    forall m | m in b ensures RecordOk(m, b[m]) && Removable(b[m]) {
      assert m != n ==> RecordOk(m, a[m]) && Removable(a[m]);
    }
  }

  lemma AddedInOrder(s: State, n: string, r: Snapshot)
    requires SameOrders(s.records) && n !in s.records && InLine(s, r)
    ensures SameOrders(s.records[n := r])
  {
    NewerAsymmetric(r, r);
  }

  lemma AddedNoStray(s: State, n: string, r: Snapshot)
    requires NoStrayArchive(s) && n !in s.records && r.name == n && InLine(s, r)
    ensures NoStrayArchive(s.(records := s.records[n := r]))
  {
    var t := s.(records := s.records[n := r]);
    forall k, f | k in t.records && Live(t.records[k])
                  && f in DirAt(t, t.records[k].backendPath).archives
                  && ArchiveAfter(f, t.records[k].stem)
      ensures HasRecord(t.records, t.records[k].series, f)
           || (t.records[k].series in t.pending && t.pending[t.records[k].series].p.stem == f)
    {
      if HasRecord(s.records, t.records[k].series, f) {
        var m :| m in s.records && s.records[m].series == t.records[k].series && s.records[m].stem == f;
        assert t.records[m] == s.records[m];
      }
    }
  }

  lemma AddedPendingAt(s: State, t: State, n: string, r: Snapshot, series: string)
    requires t.dirs == s.dirs && t.pending == s.pending && t.records == s.records[n := r]
    requires series in s.pending && PendingAt(s, series)
    requires r.series == series ==> ArchiveAfter(s.pending[series].p.stem, r.stem)
    ensures PendingAt(t, series)
  {
  }

  lemma AddedPending(s: State, n: string, r: Snapshot)
    requires PendingOk(s) && InLine(s, r)
    ensures PendingOk(s.(records := s.records[n := r]))
  {
    var t := s.(records := s.records[n := r]);
    forall series | series in t.pending ensures PendingAt(t, series) {
      AddedPendingAt(s, t, n, r, series);
    }
  }

  lemma AddedJobs(s: State, n: string, r: Snapshot)
    requires JobsOk(s) && n !in s.records && n !in s.jobs
    ensures JobsOk(s.(records := s.records[n := r]))
  {
    var t := s.(records := s.records[n := r]);
    forall m | m in t.jobs ensures JobOk(t, m) {
      assert JobOk(s, m);
    }
  }

  lemma AddedRestorable(s: State, n: string, r: Snapshot)
    requires RecordsOk(s.records[n := r]) && AllRestorable(s) && n !in s.records
    requires r.stem in DirAt(s, r.backendPath).archives
    ensures AllRestorable(s.(records := s.records[n := r]))
  {
    var t := s.(records := s.records[n := r]);
    forall k | k in t.records && Live(t.records[k]) ensures Restorable(t, k) {
      if k != n {
        assert Restorable(s, k);
        RemovedRank(t.records, n, k);
        assert t.records - {n} == s.records;
      }
    }
  }

  lemma PassKeeps(s: State, series: string, keepLast: int, latestName: string)
    requires Inv(s) && 0 < keepLast
    ensures Inv(s.(records := AfterPass(s.records, series, keepLast, latestName)))
  {
    RestorableNow(s, series, keepLast);
    PassInv(s, series, keepLast, latestName);
  }

  lemma GoneAtOnce(records: Records, n: string, r: Snapshot, keepLast: int)
    requires RecordsOk(records[n := r]) && n !in records && 0 < keepLast && r.name == n && r.finalizers == {}
    requires keepLast <= Newer(records[n := r], r)
    ensures AfterPass(records[n := r], r.series, keepLast, n) == AfterPass(records, r.series, keepLast, n)
  {
    var was := records[n := r];
    assert !Kept(was, keepLast, was[n]);
    PassWithout(was, n, keepLast);
    assert was - {n} == records;
  }

  /** A record in line with the others, and with its archive, joins them. */
  lemma JoinsInLine(s: State, n: string, r: Snapshot)
    requires Inv(s) && n !in s.records && n !in s.jobs && RecordOk(n, r) && Removable(r)
    requires InLine(s, r) && r.stem in DirAt(s, r.backendPath).archives
    ensures Inv(s.(records := s.records[n := r]))
  {
    AddedOk(s.records, n, r);
    AddedInOrder(s, n, r);
    AddedNoStray(s, n, r);
    AddedPending(s, n, r);
    AddedJobs(s, n, r);
    AddedRestorable(s, n, r);
  }

  lemma ReturnInv(s: State, n: string, r: Snapshot, keepLast: int)
    requires Inv(s) && n !in s.records && n !in s.jobs && 0 < keepLast
    requires RecordOk(n, r) && Removable(r) && r.finalizers == {} && ReturnsHarmlessly(s, r, keepLast)
    ensures Inv(s.(records := AfterPass(s.records[n := r], r.series, keepLast, n)))
  {
    if GoesAtOnce(s, r, keepLast) {
      AddedOk(s.records, n, r);
      GoneAtOnce(s.records, n, r, keepLast);
      PassKeeps(s, r.series, keepLast, n);
    } else {
      JoinsInLine(s, n, r);
      PassKeeps(s.(records := s.records[n := r]), r.series, keepLast, n);
    }
  }

  lemma RecreateInv(s: State, n: string, series: string, storage: string, job: FinishedJob, p: Package,
                    keepLast: int, now: int)
    requires Inv(s) && MayRecreate(s, n, series, storage, job, p, keepLast, now)
    ensures Inv(Recreated(s, n, series, storage, job, p, keepLast, now))
  {
    var r := Anew(n, series, storage, job, p, now);
    ComesBack(s, n, r, p, storage, job, keepLast, now);
    ReturnInv(s, n, r, keepLast);
  }

  // ---------------------------------------------------------------- when the two tiers disagree

  lemma NewRecordRank(s: State, t: State, n: string, series: string, k: string)
    requires RecordsOk(s.records) && RecordedIn(s, t, n, series) && n !in s.records
    requires k in s.records && s.records[k].series == series && !s.records[k].deleting
    ensures Newer(t.records, t.records[k]) == Newer(s.records, s.records[k]) + 1
  {
    RecordRank(s, t, n, series, k);
    var x, top := StampOf(s.records[k]), StampOf(t.records[n]);
    var before, after := Preceding(After, Stamps(s.records, series), x), Preceding(After, Stamps(t.records, series), x);
    forall y | y in after ensures y in before + {top} {
      var m :| m in t.records && t.records[m].series == series && StampOf(t.records[m]) == y;
      assert m != n ==> t.records[m] == s.records[m];
    }
    SubsetSize(after, before + {top});
    assert |before + {top}| <= |before| + 1;
  }

  lemma PassFate(records: Records, series: string, keepLast: int, latestName: string, k: string)
    requires keepLast > 0 && k in records && records[k].series == series && !records[k].deleting
    ensures var after := AfterPass(records, series, keepLast, latestName);
            (k in after && !after[k].deleting) <==> Newer(records, records[k]) < keepLast
  {
  }

  lemma PrunedBefore(s: State, mid: State, t: State, n: string, series: string, k: string)
    requires RecordedIn(s, mid, n, series) && PendingAt(s, series) && n !in s.records
    requires t.dirs == s.dirs && Thinner(mid.records, t.records)
    ensures Pruned(t, k, series) <==> Pruned(s, k, series) && k in t.records && !t.records[k].deleting
  {
    if k in t.records {
      assert k != n ==> mid.records[k] == s.records[k];
    }
  }

  lemma PrunedAfter(s: State, mid: State, t: State, n: string, series: string, keepLast: int, k: string)
    requires RecordsOk(s.records) && RecordsOk(mid.records) && n !in s.records
    requires series in s.pending && PendingAt(s, series)
    requires RecordedIn(s, mid, n, series) && 0 < keepLast
    requires t.dirs == s.dirs && t.records == AfterPass(mid.records, series, keepLast, n)
    ensures Pruned(t, k, series) <==>
              k in s.records && Pruned(s, k, series) && Newer(s.records, s.records[k]) + 1 < keepLast
  {
    PassThinner(mid.records, series, keepLast, n);
    PrunedBefore(s, mid, t, n, series, k);
    if Pruned(s, k, series) {
      NewRecordRank(s, mid, n, series, k);
      PassFate(mid.records, series, keepLast, n, k);
    }
  }

  /** Recording a waiting upload with any `keepLast` leaves every undeleted record of the series
      with its archive exactly when `keepLast` is at most one more than the number of records newer
      than each record whose archive the upload pruned. */
  lemma ObserveExact(s: State, n: string, series: string, storage: string, job: FinishedJob, keepLast: int, now: int)
    requires RecordsOk(s.records) && series in s.pending && PendingAt(s, series)
    requires n !in s.records && 0 < keepLast
    requires MayObserve(s, n, series, storage, job, 1)
    ensures var t := Observed(s, n, series, storage, job, keepLast, now);
            (forall k :: !Pruned(t, k, series))
            <==> (forall k | Pruned(s, k, series) :: keepLast <= Newer(s.records, s.records[k]) + 1)
  {
    var mid := RecordedState(s, n, series, storage, job, now);
    var t := Observed(s, n, series, storage, job, keepLast, now);
    RecordEffect(s, n, series, storage, job, 1, now);
    RecordsStayOk(s, mid, n, series);
    forall k ensures Pruned(t, k, series) <==>
                       Pruned(s, k, series) && Newer(s.records, s.records[k]) + 1 < keepLast
    {
      PrunedAfter(s, mid, t, n, series, keepLast, k);
    }
  }

  // ---------------------------------------------------------------- runs

  lemma InitialInv()
    ensures Inv(INITIAL)
  {
  }

  /** Every event keeps the invariant. */
  lemma StepInv(s: State, e: Event)
    requires Inv(s) && Enabled({}, s, e)
    ensures Inv(Next(s, e))
  {
    EnabledMay(s, e);
    match e {
      case Upload(series, p, keepLast, listing) =>
        UploadInv(s, series, p, keepLast, listing);
      case Observe(n, series, storage, job, keepLast, now) =>
        ObserveInv(s, n, series, storage, job, keepLast, now);
      case Reobserve(n, keepLast) =>
        ReobserveInv(s, n, keepLast);
      case Recreate(n, series, storage, job, p, keepLast, now) =>
        RecreateInv(s, n, series, storage, job, p, keepLast, now);
      case UserDelete(n) =>
        DeleteInv(s, n);
      case ReconcileSnapshot(n, storages) =>
        ReconcileInv(s, n, storages);
      case CleanupCompletes(n, at) =>
        CleanedEffect(s, n, at);
        CleanupInv(s, Cleaned(s, n, at), n, Complete);
      case CleanupBreaks(n, archive, sum, meta, latest, at) =>
        HalfCleanedEffect(s, n, archive, sum, meta, latest, at);
        CleanupInv(s, HalfCleaned(s, n, archive, sum, meta, latest, at), n, Failed);
      case JobExpires(n) =>
        ExpireInv(s, n);
    }
  }

  lemma {:induction false} RunInv(s: State, run: seq<Event>)
    requires Inv(s) && Admissible({}, s, run)
    ensures Inv(Reached(s, run))
    decreases |run|
  {
    if run != [] {
      StepInv(s, run[0]);
      RunInv(Next(s, run[0]), run[1..]);
    }
  }

  /** Restorability: after any run, every undeleted, ready record has its archive on the backend,
      unless an upload of its series is still waiting to be recorded; and then the record is among
      those that recording the upload will delete. */
  lemma RestorableThroughout(run: seq<Event>, n: string)
    requires Admissible({}, INITIAL, run)
    requires n in Reached(INITIAL, run).records && Live(Reached(INITIAL, run).records[n])
    ensures var s := Reached(INITIAL, run);
            var r := s.records[n];
            || r.stem in DirAt(s, r.backendPath).archives
            || (r.series in s.pending && 0 < s.pending[r.series].keepLast <= Newer(s.records, r) + 1)
  {
    InitialInv();
    RunInv(INITIAL, run);
  }
}
