/** The invariant of `OperatorRun`, step by step, and what follows from it over whole runs. */
module OperatorSafety {
  import opened Ranking
  import opened Snapshots
  import opened Retention
  import opened Finalizer
  import opened NfsBackend
  import opened OperatorRun

  // ---------------------------------------------------------------- order

  lemma ArchiveAsymmetric(a: string, b: string)
    ensures !(ArchiveAfter(a, b) && ArchiveAfter(b, a))
    ensures !ArchiveAfter(a, a)
  {
    ArchiveOrder({a, b});
  }

  lemma Comparable(a: Snapshot, b: Snapshot)
    requires a.name != b.name
    ensures NewerFirst(a, b) || NewerFirst(b, a)
    ensures !(NewerFirst(a, b) && NewerFirst(b, a))
  {
    AfterStrictTotal({StampOf(a), StampOf(b)});
  }

  /** Of two records of a series, the newer one has the later archive. */
  lemma OrdersAgree(records: Records, m: string, n: string)
    requires WellKeyed(records) && SameOrders(records)
    requires m in records && n in records && m != n && records[m].series == records[n].series
    ensures NewerFirst(records[m], records[n]) <==> ArchiveAfter(records[m].stem, records[n].stem)
    ensures records[m].stem != records[n].stem
  {
    Comparable(records[m], records[n]);
    ArchiveAsymmetric(records[m].stem, records[n].stem);
  }

  lemma StampsUnchanged(a: Records, b: Records, series: string)
    requires forall n | n in a && a[n].series == series ::
               n in b && b[n].series == series && StampOf(b[n]) == StampOf(a[n])
    requires forall n | n in b && b[n].series == series :: n in a && a[n].series == series
    ensures Stamps(a, series) == Stamps(b, series)
  {
    forall t | t in Stamps(a, series) ensures t in Stamps(b, series) {
      var n :| n in a && a[n].series == series && StampOf(a[n]) == t;
      assert StampOf(b[n]) == t;
    }
    forall t | t in Stamps(b, series) ensures t in Stamps(a, series) {
      var n :| n in b && b[n].series == series && StampOf(b[n]) == t;
      assert StampOf(a[n]) == t;
    }
  }

  /** Without a record, the older records of its series rank one higher, and the others as before. */
  lemma RemovedRank(records: Records, m: string, k: string)
    requires RecordsOk(records) && m in records && k in records && m != k
    ensures Newer(records - {m}, records[k])
         == Newer(records, records[k])
            - (if records[m].series == records[k].series && NewerFirst(records[m], records[k]) then 1 else 0)
  {
    var rest, series, x, top := records - {m}, records[k].series, StampOf(records[k]), StampOf(records[m]);
    var before, after := Preceding(After, Stamps(records, series), x), Preceding(After, Stamps(rest, series), x);
    assert RecordOk(m, records[m]);
    forall t | t in after ensures t in before && t != top {
      var n :| n in rest && rest[n].series == series && StampOf(rest[n]) == t;
      assert RecordOk(n, records[n]) && StampOf(records[n]) == t;
    }
    forall t | t in before && t != top ensures t in after {
      var n :| n in records && records[n].series == series && StampOf(records[n]) == t;
      assert StampOf(rest[n]) == t;
    }
    if records[m].series == series && NewerFirst(records[m], records[k]) {
      assert top in before;
      assert before == after + {top};
    } else {
      forall t | t in before ensures t != top {
        var n :| n in records && records[n].series == series && StampOf(records[n]) == t;
        assert RecordOk(n, records[n]);
      }
      assert before == after;
    }
  }

  /** `b` is `a` with some records gone and others flagged; what a record stands for is as before. */
  ghost predicate Thinner(a: Records, b: Records) {
    forall n | n in b ::
      && n in a
      && b[n].name == a[n].name && b[n].series == a[n].series && b[n].stem == a[n].stem
      && b[n].backendPath == a[n].backendPath && b[n].storage == a[n].storage
      && b[n].completedAt == a[n].completedAt && b[n].ready == a[n].ready
      && (a[n].deleting ==> b[n].deleting)
      && (b[n].deleting ==> b[n].finalizers != {})
  }

  lemma ThinnerOk(a: Records, b: Records)
    requires RecordsOk(a) && SameOrders(a) && Thinner(a, b)
    ensures RecordsOk(b) && SameOrders(b)
    ensures forall n | n in b :: StampOf(b[n]) == StampOf(a[n])
  {
    forall n | n in b ensures RecordOk(n, b[n]) && StampOf(b[n]) == StampOf(a[n]) {
      assert RecordOk(n, a[n]);
    }
  }

  lemma ThinnerRemovable(a: Records, b: Records)
    requires AllRemovable(a) && Thinner(a, b)
    ensures AllRemovable(b)
  {
    forall n | n in b ensures Removable(b[n]) {
      assert Removable(a[n]);
    }
  }

  // ---------------------------------------------------------------- a retention pass

  /** What the proofs use of a retention pass over `series`. */
  ghost predicate Retained(a: Records, b: Records, series: string, keepLast: int) {
    && Thinner(a, b)
    && (forall n | n in a && n !in b ::
          a[n].series == series && !Kept(a, keepLast, a[n]) && a[n].finalizers == {})
    && (forall n | n in b && b[n].series == series && !b[n].deleting :: Kept(a, keepLast, a[n]))
  }

  lemma PassThinner(records: Records, series: string, keepLast: int, latestName: string)
    requires RecordsOk(records)
    ensures Thinner(records, AfterPass(records, series, keepLast, latestName))
  {
    var b := AfterPass(records, series, keepLast, latestName);
    forall n | n in b ensures b[n].deleting ==> b[n].finalizers != {} {
      assert RecordOk(n, records[n]);
    }
  }

  lemma PassRetains(records: Records, series: string, keepLast: int, latestName: string)
    requires RecordsOk(records)
    ensures Retained(records, AfterPass(records, series, keepLast, latestName), series, keepLast)
  {
    PassThinner(records, series, keepLast, latestName);
    var b := AfterPass(records, series, keepLast, latestName);
    forall n | n in records && n !in b
      ensures records[n].series == series && !Kept(records, keepLast, records[n]) && records[n].finalizers == {}
    {
    }
    forall n | n in b && b[n].series == series && !b[n].deleting ensures Kept(records, keepLast, records[n]) {
      assert n in records;
    }
  }

  /** What is kept is newer than what is not. */
  lemma KeptNewer(records: Records, keepLast: int, m: string, n: string)
    requires RecordsOk(records)
    requires m in records && n in records && records[m].series == records[n].series
    requires Kept(records, keepLast, records[m]) && !Kept(records, keepLast, records[n])
    ensures NewerFirst(records[m], records[n])
  {
    assert WellKeyed(records) by {
      assert forall k | k in records :: RecordOk(k, records[k]);
    }
    var series := records[n].series;
    RetentionExact(records, series, keepLast, n);
    assert m in KeptNames(records, series, keepLast);
    assert n in Members(records, series) - KeptNames(records, series, keepLast);
  }

  /** Every undeleted record still has its archive, or the pass about to run deletes it. */
  ghost predicate RestorableOrDoomed(s: State, series: string, keepLast: int) {
    forall n | n in s.records && Live(s.records[n]) ::
      Restorable(s, n) || (s.records[n].series == series && !Kept(s.records, keepLast, s.records[n]))
  }

  ghost predicate Base(s: State) {
    && RecordsOk(s.records)
    && AllRemovable(s.records)
    && SameOrders(s.records)
    && NoStrayArchive(s)
    && PendingOk(s)
    && JobsOk(s)
  }

  /** A record with a cleanup Job is not removed by the pass, and is marked already. */
  lemma PassJob(s: State, t: State, n: string)
    requires RecordsOk(s.records) && n in s.jobs && JobOk(s, n)
    requires t.jobs == s.jobs && t.dirs == s.dirs && Thinner(s.records, t.records)
    requires n in s.records && n !in t.records ==> s.records[n].finalizers == {}
    ensures JobOk(t, n)
  {
    if n in s.records {
      assert RecordOk(n, s.records[n]);
    }
  }

  lemma PassJobs(s: State, t: State, series: string, keepLast: int)
    requires Base(s) && t == s.(records := t.records) && Retained(s.records, t.records, series, keepLast)
    ensures JobsOk(t)
  {
    forall n | n in t.jobs ensures JobOk(t, n) {
      PassJob(s, t, n);
    }
  }

  /** The pass does not remove a record newer than one it leaves undeleted. */
  lemma PassSpares(s: State, t: State, series: string, keepLast: int, m: string, n: string)
    requires RecordsOk(s.records) && SameOrders(s.records) && Retained(s.records, t.records, series, keepLast)
    requires m in s.records && n in t.records && !t.records[n].deleting
    requires s.records[m].series == s.records[n].series
    requires ArchiveAfter(s.records[m].stem, s.records[n].stem)
    ensures m in t.records
  {
    assert RecordOk(m, s.records[m]) && RecordOk(n, s.records[n]);
    if m !in t.records {
      KeptNewer(s.records, keepLast, n, m);
      ArchiveAsymmetric(s.records[m].stem, s.records[n].stem);
    }
  }

  lemma PassHasRecord(s: State, t: State, series: string, keepLast: int, n: string, f: string)
    requires RecordsOk(s.records) && SameOrders(s.records) && Retained(s.records, t.records, series, keepLast)
    requires n in t.records && !t.records[n].deleting
    requires HasRecord(s.records, s.records[n].series, f) && ArchiveAfter(f, s.records[n].stem)
    ensures HasRecord(t.records, t.records[n].series, f)
  {
    var m :| m in s.records && s.records[m].series == s.records[n].series && s.records[m].stem == f;
    PassSpares(s, t, series, keepLast, m, n);
    assert t.records[m].stem == f;
  }

  lemma PassNoStrayAt(s: State, t: State, series: string, keepLast: int, n: string, f: string)
    requires RecordsOk(s.records) && SameOrders(s.records) && NoStrayArchive(s)
    requires Retained(s.records, t.records, series, keepLast)
    requires n in t.records && Live(t.records[n])
    requires f in DirAt(s, s.records[n].backendPath).archives && ArchiveAfter(f, s.records[n].stem)
    ensures HasRecord(t.records, t.records[n].series, f)
         || (s.records[n].series in s.pending && s.pending[s.records[n].series].p.stem == f)
  {
    assert Live(s.records[n]);
    if HasRecord(s.records, s.records[n].series, f) {
      PassHasRecord(s, t, series, keepLast, n, f);
    }
  }

  lemma PassNoStray(s: State, t: State, series: string, keepLast: int)
    requires RecordsOk(s.records) && SameOrders(s.records) && NoStrayArchive(s)
    requires t == s.(records := t.records) && Retained(s.records, t.records, series, keepLast)
    ensures NoStrayArchive(t)
  {
    forall n, f | n in t.records && Live(t.records[n])
                  && f in DirAt(t, t.records[n].backendPath).archives
                  && ArchiveAfter(f, t.records[n].stem)
      ensures HasRecord(t.records, t.records[n].series, f)
           || (t.records[n].series in t.pending && t.pending[t.records[n].series].p.stem == f)
    {
      PassNoStrayAt(s, t, series, keepLast, n, f);
    }
  }

  lemma PassPending(s: State, t: State, series: string, keepLast: int)
    requires Base(s) && t == s.(records := t.records) && Retained(s.records, t.records, series, keepLast)
    ensures PendingOk(t)
  {
  }

  lemma PassRank(s: State, t: State, series: string, keepLast: int, n: string)
    requires RecordsOk(s.records) && SameOrders(s.records) && Retained(s.records, t.records, series, keepLast)
    requires n in t.records && !t.records[n].deleting
    ensures Newer(t.records, t.records[n]) == Newer(s.records, s.records[n])
  {
    ThinnerOk(s.records, t.records);
    if s.records[n].series != series || keepLast <= 0 {
      StampsUnchanged(s.records, t.records, s.records[n].series);
    } else {
      RetainedThins(s.records, t.records, series, keepLast);
      ThinnedRanks(s.records, t.records, series, keepLast, n);
    }
  }

  lemma RetainedThins(a: Records, b: Records, series: string, keepLast: int)
    requires RecordsOk(a) && Retained(a, b, series, keepLast)
    requires forall n | n in b :: StampOf(b[n]) == StampOf(a[n])
    ensures Thinned(a, b, series, keepLast)
  {
  }

  lemma RestorableStays(s: State, t: State, n: string)
    requires t.dirs == s.dirs && t.pending == s.pending
    requires n in s.records && Restorable(s, n) && n in t.records
    requires t.records[n].stem == s.records[n].stem && t.records[n].backendPath == s.records[n].backendPath
    requires t.records[n].series == s.records[n].series
    requires Newer(t.records, t.records[n]) == Newer(s.records, s.records[n])
    ensures Restorable(t, n)
  {
  }

  lemma PassLeavesRestorable(s: State, t: State, series: string, keepLast: int, n: string)
    requires Retained(s.records, t.records, series, keepLast)
    requires RestorableOrDoomed(s, series, keepLast) && n in t.records && Live(t.records[n])
    ensures n in s.records && Restorable(s, n)
  {
    assert Live(s.records[n]);
  }

  lemma PassRestorableAt(s: State, t: State, series: string, keepLast: int, n: string)
    requires RecordsOk(s.records) && SameOrders(s.records)
    requires t.dirs == s.dirs && t.pending == s.pending && Retained(s.records, t.records, series, keepLast)
    requires RestorableOrDoomed(s, series, keepLast) && n in t.records && Live(t.records[n])
    ensures Restorable(t, n)
  {
    PassRank(s, t, series, keepLast, n);
    PassLeavesRestorable(s, t, series, keepLast, n);
    RestorableStays(s, t, n);
  }

  lemma PassRestorable(s: State, t: State, series: string, keepLast: int)
    requires Base(s) && t == s.(records := t.records) && Retained(s.records, t.records, series, keepLast)
    requires RestorableOrDoomed(s, series, keepLast)
    ensures AllRestorable(t)
  {
    forall n | n in t.records && Live(t.records[n]) ensures Restorable(t, n) {
      PassRestorableAt(s, t, series, keepLast, n);
    }
  }

  lemma PassInv(s: State, series: string, keepLast: int, latestName: string)
    requires Base(s) && RestorableOrDoomed(s, series, keepLast)
    ensures Inv(s.(records := AfterPass(s.records, series, keepLast, latestName)))
  {
    var t := s.(records := AfterPass(s.records, series, keepLast, latestName));
    PassRetains(s.records, series, keepLast, latestName);
    ThinnerOk(s.records, t.records);
    ThinnerRemovable(s.records, t.records);
    PassJobs(s, t, series, keepLast);
    PassNoStray(s, t, series, keepLast);
    PassPending(s, t, series, keepLast);
    PassRestorable(s, t, series, keepLast);
  }
}
