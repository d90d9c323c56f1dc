/** Each event of `OperatorRun` keeps the invariant. */
module OperatorSteps {
  import opened Options
  import opened Ranking
  import opened Snapshots
  import opened NfsBackend
  import opened LatestJson
  import opened Series
  import opened OperatorRun
  import opened OperatorSafety

  /** Two records share a backup directory exactly when they share a series. */
  lemma SameDir(s: State, n: string, series: string)
    requires RecordsOk(s.records) && n in s.records && SeriesLike(series)
    ensures s.records[n].backendPath == BackendPathOf(series) <==> s.records[n].series == series
  {
    assert RecordOk(n, s.records[n]);
    BackendPathInjective(s.records[n].series, series);
  }

  // ---------------------------------------------------------------- uploads

  /** What an upload does to the directories: it adds files of one stem to one of them, and prunes
      the `pruned` stems. */
  ghost predicate UploadedTo(s: State, t: State, series: string, stem: string, pruned: set<string>)
    requires SeriesLike(series)
  {
    var path := BackendPathOf(series);
    var d, after := DirAt(s, path), DirAt(t, path);
    && after.archives.Keys == d.archives.Keys + {stem} - pruned
    && stem in after.archives
    && after.sums.Keys <= d.sums.Keys + {stem}
    && after.metas.Keys <= d.metas.Keys + {stem}
    && (forall other | other != path :: DirAt(t, other) == DirAt(s, other))
    && t.records == s.records && t.jobs == s.jobs
    && t.pending.Keys == s.pending.Keys + {series} && t.pending[series].p.stem == stem
    && (forall other | other in s.pending && other != series :: t.pending[other] == s.pending[other])
  }

  function PrunedBy(s: State, series: string, p: Package, keepLast: int, listing: Option<set<string>>): set<string>
    requires SeriesLike(series)
  {
    Victims(Listed(DirAt(s, BackendPathOf(series)).archives.Keys + {p.stem}, listing), keepLast)
  }

  lemma UploadEffect(s: State, series: string, p: Package, keepLast: int, listing: Option<set<string>>)
    requires MayUpload(s, series, p)
    ensures UploadedTo(s, Uploaded(s, series, p, keepLast, listing), series, p.stem,
                       PrunedBy(s, series, p, keepLast, listing))
  {
    var d := DirAt(s, BackendPathOf(series));
    assert Copied(d, p).archives.Keys == d.archives.Keys + {p.stem};
    LatestStays(d.archives.Keys, keepLast, p.stem);
    FewerVictims(d.archives.Keys + {p.stem}, Listed(d.archives.Keys + {p.stem}, listing), keepLast);
  }

  /** An archive that sorts after all others outlives the pruning. */
  lemma LatestStays(stems: set<string>, keepLast: int, stem: string)
    requires forall f | f in stems :: ArchiveAfter(stem, f)
    ensures stem !in Victims(stems + {stem}, keepLast)
  {
    forall f | f in stems + {stem} ensures !ArchiveAfter(f, stem) {
      ArchiveAsymmetric(f, stem);
    }
    assert Preceding(ArchiveAfter, stems + {stem}, stem) == {};
    PruneSparesFirst(stems + {stem}, keepLast, stem);
  }

  lemma UploadNoStrayAt(s: State, t: State, series: string, stem: string, pruned: set<string>, n: string, f: string)
    requires RecordsOk(s.records) && NoStrayArchive(s)
    requires SeriesLike(series) && series !in s.pending && UploadedTo(s, t, series, stem, pruned)
    requires n in t.records && Live(t.records[n])
    requires f in DirAt(t, t.records[n].backendPath).archives && ArchiveAfter(f, t.records[n].stem)
    ensures HasRecord(t.records, t.records[n].series, f)
         || (t.records[n].series in t.pending && t.pending[t.records[n].series].p.stem == f)
  {
    SameDir(s, n, series);
    if f in DirAt(s, s.records[n].backendPath).archives {
      assert HasRecord(s.records, s.records[n].series, f)
          || (s.records[n].series in s.pending && s.pending[s.records[n].series].p.stem == f);
    }
  }

  lemma UploadNoStray(s: State, t: State, series: string, stem: string, pruned: set<string>)
    requires Base(s) && SeriesLike(series) && series !in s.pending && UploadedTo(s, t, series, stem, pruned)
    ensures NoStrayArchive(t)
  {
    forall n, f | n in t.records && Live(t.records[n])
                  && f in DirAt(t, t.records[n].backendPath).archives
                  && ArchiveAfter(f, t.records[n].stem)
      ensures HasRecord(t.records, t.records[n].series, f)
           || (t.records[n].series in t.pending && t.pending[t.records[n].series].p.stem == f)
    {
      UploadNoStrayAt(s, t, series, stem, pruned, n, f);
    }
  }

  lemma UploadPending(s: State, t: State, series: string, p: Package, pruned: set<string>)
    requires Base(s) && MayUpload(s, series, p) && UploadedTo(s, t, series, p.stem, pruned)
    ensures PendingOk(t)
  {
    forall other | other in s.pending
      ensures BackendPathOf(other) != BackendPathOf(series)
    {
      BackendPathInjective(other, series);
    }
  }

  lemma UploadJob(s: State, t: State, series: string, stem: string, pruned: set<string>, n: string)
    requires RecordsOk(s.records) && SeriesLike(series) && UploadedTo(s, t, series, stem, pruned)
    requires n in s.jobs && JobOk(s, n)
    requires n in s.records && s.records[n].series == series ==> s.records[n].stem != stem
    ensures JobOk(t, n)
  {
    if n in s.records {
      SameDir(s, n, series);
    }
  }

  lemma UploadJobs(s: State, t: State, series: string, p: Package, pruned: set<string>)
    requires Base(s) && MayUpload(s, series, p) && UploadedTo(s, t, series, p.stem, pruned)
    ensures JobsOk(t)
  {
    forall n | n in t.jobs ensures JobOk(t, n) {
      ArchiveAsymmetric(p.stem, p.stem);
      UploadJob(s, t, series, p.stem, pruned, n);
    }
  }

  /** As many records are newer than `n` as there are stems of newer records. */
  lemma CountNewer(records: Records, n: string, stems: set<string>)
    requires RecordsOk(records) && n in records
    requires forall f | f in stems :: HasNewer(records, n, f)
    ensures |stems| <= Newer(records, records[n])
  {
    var newer := Preceding(After, Stamps(records, records[n].series), StampOf(records[n]));
    var stemAt := (t: Stamp) => if t.name in records then records[t.name].stem else "";
    forall f | f in stems ensures exists t | t in newer :: stemAt(t) == f {
      var m :| m in records && records[m].series == records[n].series && records[m].stem == f
               && NewerFirst(records[m], records[n]);
      assert RecordOk(m, records[m]);
      assert StampOf(records[m]) in newer && stemAt(StampOf(records[m])) == f;
    }
    ImageSize(stemAt, newer, stems);
  }

  /** Some record of the series of `n` has the stem `f` and is newer than `n`. */
  ghost predicate HasNewer(records: Records, n: string, f: string)
    requires n in records
  {
    exists m :: m in records && records[m].series == records[n].series && records[m].stem == f
                && NewerFirst(records[m], records[n])
  }

  lemma LaterHasNewer(s: State, series: string, n: string, f: string)
    requires Base(s) && SeriesLike(series) && series !in s.pending
    requires n in s.records && Live(s.records[n]) && s.records[n].series == series
    requires f in DirAt(s, BackendPathOf(series)).archives && ArchiveAfter(f, s.records[n].stem)
    ensures HasNewer(s.records, n, f)
  {
    SameDir(s, n, series);
    assert HasRecord(s.records, series, f);
    var m :| m in s.records && s.records[m].series == series && s.records[m].stem == f;
    ArchiveAsymmetric(f, f);
    assert WellKeyed(s.records) by {
      assert forall k | k in s.records :: RecordOk(k, s.records[k]);
    }
    OrdersAgree(s.records, m, n);
  }

  lemma VictimRank(stems: set<string>, keepLast: int, f: string)
    requires f in Victims(stems, keepLast)
    ensures 0 < keepLast <= |Preceding(ArchiveAfter, stems, f)|
  {
  }

  /** Every archive that sorts after that of a live record belongs to a newer record, or is the one
      being uploaded: so an archive is pruned only when recording the upload will delete its record. */
  lemma PrunedIsDoomed(s: State, series: string, p: Package, keepLast: int, listing: Option<set<string>>, n: string)
    requires Base(s) && MayUpload(s, series, p)
    requires n in s.records && Live(s.records[n]) && s.records[n].series == series
    requires s.records[n].stem in PrunedBy(s, series, p, keepLast, listing)
    ensures 0 < keepLast <= Newer(s.records, s.records[n]) + 1
  {
    var d := DirAt(s, BackendPathOf(series));
    var later := Preceding(ArchiveAfter, d.archives.Keys + {p.stem}, s.records[n].stem);
    var known := later - {p.stem};
    forall f | f in known ensures HasNewer(s.records, n, f) {
      LaterHasNewer(s, series, n, f);
    }
    CountNewer(s.records, n, known);
    SubsetSize(later, known + {p.stem});
    FewerVictims(d.archives.Keys + {p.stem}, Listed(d.archives.Keys + {p.stem}, listing), keepLast);
    VictimRank(d.archives.Keys + {p.stem}, keepLast, s.records[n].stem);
  }

  lemma UploadRestorable(s: State, series: string, p: Package, keepLast: int, listing: Option<set<string>>)
    requires Base(s) && AllRestorable(s) && MayUpload(s, series, p)
    ensures AllRestorable(Uploaded(s, series, p, keepLast, listing))
  {
    var t := Uploaded(s, series, p, keepLast, listing);
    UploadEffect(s, series, p, keepLast, listing);
    forall n | n in t.records && Live(t.records[n]) ensures Restorable(t, n) {
      assert Restorable(s, n);
      SameDir(s, n, series);
      if s.records[n].series == series && s.records[n].stem in PrunedBy(s, series, p, keepLast, listing) {
        PrunedIsDoomed(s, series, p, keepLast, listing, n);
      }
    }
  }

  lemma UploadInv(s: State, series: string, p: Package, keepLast: int, listing: Option<set<string>>)
    requires Inv(s) && MayUpload(s, series, p)
    ensures Inv(Uploaded(s, series, p, keepLast, listing))
  {
    var t, pruned := Uploaded(s, series, p, keepLast, listing), PrunedBy(s, series, p, keepLast, listing);
    UploadEffect(s, series, p, keepLast, listing);
    UploadNoStray(s, t, series, p.stem, pruned);
    UploadPending(s, t, series, p, pruned);
    UploadJobs(s, t, series, p, pruned);
    UploadRestorable(s, series, p, keepLast, listing);
  }
}
