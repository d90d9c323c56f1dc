/** Why `OperatorRun` restricts which records may go and when: without these guards the two
    retention tiers lose step, although both use the same `keepLast` and every upload is recorded
    before the next one. */
module OperatorGuards {
  import opened Options
  import opened Ranking
  import opened Snapshots
  import opened NfsBackend
  import opened Series
  import opened OperatorRun
  import opened OperatorSafety
  import opened OperatorSteps
  import opened OperatorTheorems
  import opened OperatorRounds

  function Lacking(s: State, m: string): State {
    s.(records := s.records - {m})
  }

  lemma StaysPruned(s: State, m: string, k: string, series: string)
    requires Pruned(s, k, series) && m != k
    ensures Pruned(Lacking(s, m), k, series)
  {
  }

  lemma LackingOk(s: State, m: string, series: string)
    requires RecordsOk(s.records) && series in s.pending && PendingAt(s, series)
    ensures RecordsOk(Lacking(s, m).records) && PendingAt(Lacking(s, m), series)
  {
    LackingRecords(s, m);
  }

  /** While an upload waits that pruned the archive of `k`, a newer record of the series may vanish
      without harm exactly if `k` has at least `keepLast` newer records: otherwise recording the upload
      no longer deletes `k`, and `k` stays behind without its archive. */
  lemma VanishExact(s: State, m: string, k: string, n: string, series: string, storage: string,
                    job: FinishedJob, keepLast: int, now: int)
    requires RecordsOk(s.records) && series in s.pending && PendingAt(s, series)
    requires m in s.records && m != k && s.records[m].series == series
    requires Pruned(s, k, series) && NewerFirst(s.records[m], s.records[k])
    requires n !in Lacking(s, m).records && 0 < keepLast
    requires MayObserve(Lacking(s, m), n, series, storage, job, 1)
    ensures Pruned(Observed(Lacking(s, m), n, series, storage, job, keepLast, now), k, series)
            <==> Newer(s.records, s.records[k]) < keepLast
  {
    var t := Lacking(s, m);
    var mid := RecordedState(t, n, series, storage, job, now);
    LackingOk(s, m, series);
    StaysPruned(s, m, k, series);
    RemovedRank(s.records, m, k);
    RecordEffect(t, n, series, storage, job, 1, now);
    RecordsStayOk(t, mid, n, series);
    PrunedAfter(t, mid, Observed(t, n, series, storage, job, keepLast, now), n, series, keepLast, k);
  }

  // ---------------------------------------------------------------- archives without a record

  ghost function StampAt(records: Records, series: string, stem: string): Stamp {
    if HasRecord(records, series, stem) then
      var n :| n in records && records[n].series == series && records[n].stem == stem;
      StampOf(records[n])
    else Stamp(0, "")
  }

  /** There are no fewer archives of newer records than newer records. */
  lemma ArchivesOfNewer(records: Records, k: string, archives: set<string>)
    requires RecordsOk(records) && SameOrders(records) && k in records
    requires forall m | m in records && records[m].series == records[k].series && NewerFirst(records[m], records[k]) ::
               records[m].stem in archives
    ensures Newer(records, records[k]) <= |archives|
  {
    var series := records[k].series;
    var newer := Preceding(After, Stamps(records, series), StampOf(records[k]));
    var stampOf := (stem: string) => StampAt(records, series, stem);
    forall t | t in newer ensures exists f | f in archives :: stampOf(f) == t {
      var m :| m in records && records[m].series == series && StampOf(records[m]) == t;
      StampAtRecord(records, m);
      assert stampOf(records[m].stem) == t;
    }
    ImageSize(stampOf, archives, newer);
  }

  lemma StampAtRecord(records: Records, m: string)
    requires RecordsOk(records) && SameOrders(records) && m in records
    ensures StampAt(records, records[m].series, records[m].stem) == StampOf(records[m])
  {
    assert WellKeyed(records) by {
      assert forall n | n in records :: RecordOk(n, records[n]);
    }
    forall n | n in records && records[n].series == records[m].series && n != m
      ensures records[n].stem != records[m].stem
    {
      OrdersAgree(records, n, m);
    }
  }

  /** Every newer record of the series of `k` has its archive. */
  ghost predicate NewerRestorable(s: State, k: string)
    requires k in s.records
  {
    forall m | m in s.records && s.records[m].series == s.records[k].series
               && NewerFirst(s.records[m], s.records[k]) ::
      s.records[m].stem in DirAt(s, s.records[k].backendPath).archives
  }

  lemma LaterArchives(s: State, k: string)
    requires RecordsOk(s.records) && SameOrders(s.records) && k in s.records && NewerRestorable(s, k)
    ensures Newer(s.records, s.records[k])
         <= |set f | f in DirAt(s, s.records[k].backendPath).archives && ArchiveAfter(f, s.records[k].stem)|
  {
    var archives := DirAt(s, s.records[k].backendPath).archives;
    ArchivesOfNewer(s.records, k, set f | f in archives && ArchiveAfter(f, s.records[k].stem));
  }

  /** An upload that keeps one archive more than `k` has newer records prunes the archive of `k`, even
      if the record of one of the newer archives is gone. */
  lemma UploadPrunes(s: State, m: string, k: string, series: string, p: Package, keepLast: int)
    requires RecordsOk(s.records) && SameOrders(s.records)
    requires k in s.records && m != k && s.records[k].series == series && Live(s.records[k]) && NewerRestorable(s, k)
    requires MayUpload(Lacking(s, m), series, p)
    requires 0 < keepLast <= Newer(s.records, s.records[k]) + 1
    ensures Pruned(Uploaded(Lacking(s, m), series, p, keepLast, None), k, series)
  {
    var t := Lacking(s, m);
    var path, stem := BackendPathOf(series), s.records[k].stem;
    assert RecordOk(k, s.records[k]) && k in t.records;
    LaterArchives(s, k);
    UploadEffect(t, series, p, keepLast, None);
    ArchiveAsymmetric(p.stem, stem);
    if stem in DirAt(t, path).archives {
      PrunesOlder(DirAt(t, path).archives.Keys, stem, p.stem, keepLast);
    }
  }

  lemma UploadWaits(t: State, series: string, p: Package, keepLast: int)
    requires MayUpload(t, series, p)
    ensures series in Uploaded(t, series, p, keepLast, None).pending
    ensures PendingAt(Uploaded(t, series, p, keepLast, None), series)
  {
    UploadEffect(t, series, p, keepLast, None);
  }

  /** A record that has no finalizer yet, and an older undeleted one of the series, with an archive for
      every record newer than that. If the newer record is deleted, its archive stays and takes a place
      in the pruning. The next upload and its recording, both with one more than the number of records
      newer than the older one as `keepLast`, then leave the older record undeleted and without its
      archive. */
  lemma DeleteNeedsGuard(s: State, m: string, k: string, p: Package, n: string, series: string, storage: string,
                         job: FinishedJob, now: int)
    requires RecordsOk(s.records) && SameOrders(s.records)
    requires m in s.records && s.records[m].series == series && s.records[m].finalizers == {}
    requires k in s.records && m != k && s.records[k].series == series && Live(s.records[k]) && NewerRestorable(s, k)
    requires NewerFirst(s.records[m], s.records[k])
    requires MayUpload(s.(records := Deleted(s.records, m)), series, p)
    requires var keepLast := Newer(s.records, s.records[k]) + 1;
             var waiting := Uploaded(s.(records := Deleted(s.records, m)), series, p, keepLast, None);
             n !in waiting.records && MayObserve(waiting, n, series, storage, job, keepLast)
    ensures var keepLast := Newer(s.records, s.records[k]) + 1;
            var waiting := Uploaded(s.(records := Deleted(s.records, m)), series, p, keepLast, None);
            Pruned(Observed(waiting, n, series, storage, job, keepLast, now), k, series)
  {
    var keepLast := Newer(s.records, s.records[k]) + 1;
    var t := Lacking(s, m);
    assert s.(records := Deleted(s.records, m)) == t;
    var waiting := Uploaded(t, series, p, keepLast, None);
    UploadPrunes(s, m, k, series, p, keepLast);
    UploadWaits(t, series, p, keepLast);
    LackingRecords(s, m);
    RecordedWithout(s, m, waiting, k, n, series, storage, job, keepLast, now);
  }

  lemma LackingRecords(s: State, m: string)
    requires RecordsOk(s.records)
    ensures RecordsOk(Lacking(s, m).records)
  {
    forall n | n in Lacking(s, m).records ensures RecordOk(n, Lacking(s, m).records[n]) {
      assert RecordOk(n, s.records[n]);
    }
  }

  /** Recording an upload with one more than the rank `k` had as `keepLast` keeps `k`, once one of the
      records newer than `k` is gone. */
  lemma RecordedWithout(s: State, m: string, waiting: State, k: string, n: string, series: string, storage: string,
                        job: FinishedJob, keepLast: int, now: int)
    requires RecordsOk(s.records) && m in s.records && s.records[m].series == series
    requires k in s.records && m != k && s.records[k].series == series && NewerFirst(s.records[m], s.records[k])
    requires waiting.records == s.records - {m} && RecordsOk(waiting.records)
    requires series in waiting.pending && PendingAt(waiting, series) && Pruned(waiting, k, series)
    requires keepLast == Newer(s.records, s.records[k]) + 1
    requires n !in waiting.records && MayObserve(waiting, n, series, storage, job, keepLast)
    ensures Pruned(Observed(waiting, n, series, storage, job, keepLast, now), k, series)
  {
    var mid := RecordedState(waiting, n, series, storage, job, now);
    RemovedRank(s.records, m, k);
    RecordEffect(waiting, n, series, storage, job, keepLast, now);
    RecordsStayOk(waiting, mid, n, series);
    PrunedAfter(waiting, mid, Observed(waiting, n, series, storage, job, keepLast, now), n, series, keepLast, k);
  }
}
