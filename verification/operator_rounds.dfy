/** Sample runs of the operator over one series: rounds of an upload that is recorded, and what single
    events make of the states they lead to. */
module OperatorRounds {
  import opened Options
  import opened Strings
  import opened Ranking
  import opened Snapshots
  import opened Retention
  import opened NativeJobs
  import opened Finalizer
  import opened NfsBackend
  import opened Series
  import opened OperatorRun
  import opened OperatorSafety

  // ---------------------------------------------------------------- names

  /** A longer word sorts after a shorter one; words serve as archive stems and as record names. */
  function Word(i: nat): (s: string)
    ensures |s| == i + 1
  {
    seq(i + 1, _ => 'a')
  }

  lemma WordOrder(i: nat, j: nat)
    requires i < j
    ensures ArchiveAfter(Word(j), Word(i)) && Word(i) != Word(j)
  {
    var more := Word(j)[i + 1..];
    assert Word(j) + ".tgz" == Word(i) + (more + ".tgz");
    LessAfterCommonPrefix(Word(i), ".tgz", more + ".tgz");
    assert (more + ".tgz")[0] == 'a' && ".tgz"[0] == '.';
  }

  lemma FirstLetter(i: nat)
    ensures TrimSpace(Word(i)) != ""
  {
    assert Word(i)[0] == 'a';
    assert TrimLeft(Word(i), SPACES) == Word(i);
  }

  function Words(a: nat, b: nat): set<string> {
    set j: nat | a <= j < b :: Word(j)
  }

  lemma {:induction false} WordsSize(a: nat, b: nat)
    requires a <= b
    ensures |Words(a, b)| == b - a
    decreases b - a
  {
    if a < b {
      WordsSize(a, b - 1);
      assert Words(a, b) == Words(a, b - 1) + {Word(b - 1)};
      forall j: nat | a <= j < b - 1 ensures Word(j) != Word(b - 1) {
        WordOrder(j, b - 1);
      }
    }
  }

  // ---------------------------------------------------------------- one series

  datatype Site = Site(series: string, storage: string)

  predicate Good(x: Site) {
    SeriesLike(x.series) && TrimSpace(BackendPathOf(x.series)) != "" && TrimSpace(x.storage) != ""
  }

  function Made(stem: string): Package {
    Package(stem, "", "", Metadata("", stem, "", 0))
  }

  function Uploading(x: Site, stem: string, keepLast: int): Event {
    Upload(x.series, Made(stem), keepLast, None)
  }

  function Recording(x: Site, name: string, time: int, keepLast: int): Event {
    Observe(name, x.series, x.storage, FinishedJob("", None, Some(time)), keepLast, 0)
  }

  function Reconciling(x: Site, name: string): Event {
    ReconcileSnapshot(name, {x.storage})
  }

  /** A record of the series. */
  predicate Row(x: Site, r: Snapshot, name: string, stem: string, time: int) {
    && SeriesLike(x.series) && r.backendPath == BackendPathOf(x.series)
    && r.name == name && r.series == x.series && r.storage == x.storage
    && r.stem == stem && r.completedAt == Some(time) && r.ready && r.succeeded
  }

  /** One that nothing has happened to. */
  predicate Fresh(x: Site, r: Snapshot, name: string, stem: string, time: int) {
    Row(x, r, name, stem, time) && !r.deleting && r.finalizers == {}
  }

  ghost predicate AllOf(x: Site, records: Records) {
    forall n | n in records :: records[n].series == x.series
  }

  ghost function Archives(x: Site, s: State): set<string>
    requires SeriesLike(x.series)
  {
    DirAt(s, BackendPathOf(x.series)).archives.Keys
  }

  /** The state after `i` quiet rounds: `i` records and `i` archives. */
  ghost predicate Quiet(x: Site, s: State, i: nat)
    requires SeriesLike(x.series)
  {
    s.records.Keys == Words(0, i) && AllFresh(x, s.records, i) && Archives(x, s) == Words(0, i)
    && s.jobs.Keys == {} && s.pending.Keys == {}
  }

  ghost predicate AllFresh(x: Site, records: Records, i: nat) {
    forall j: nat | j < i :: Word(j) in records && Fresh(x, records[Word(j)], Word(j), Word(j), j)
  }

  lemma QuietIsAllOf(x: Site, s: State, i: nat)
    requires SeriesLike(x.series) && Quiet(x, s, i)
    ensures AllOf(x, s.records)
  {
    forall n | n in s.records ensures s.records[n].series == x.series {
      var j: nat :| j < i && n == Word(j);
    }
  }

  // ---------------------------------------------------------------- uploads

  /** The pruning takes an archive that has `keepLast` archives after it, the new one included. */
  lemma PrunesOlder(archives: set<string>, stem: string, latest: string, keepLast: int)
    requires forall f | f in archives :: ArchiveAfter(latest, f)
    requires stem in archives
    requires 0 < keepLast <= |set f | f in archives && ArchiveAfter(f, stem)| + 1
    ensures stem in Victims(archives + {latest}, keepLast)
  {
    var later := set f | f in archives && ArchiveAfter(f, stem);
    ArchiveAsymmetric(latest, latest);
    SubsetSize(later + {latest}, Preceding(ArchiveAfter, archives + {latest}, stem));
  }

  /** Few archives are all kept. */
  lemma FewStay(archives: set<string>, keepLast: int)
    requires |archives| <= keepLast
    ensures Victims(archives, keepLast) == {}
  {
    ArchiveOrder(archives);
    forall f | f in archives ensures f in Top(ArchiveAfter, archives, keepLast) {
      assert f !in Preceding(ArchiveAfter, archives, f);
      SubsetSize(Preceding(ArchiveAfter, archives, f), archives - {f});
    }
  }

  lemma UploadLeaves(x: Site, s: State, stem: string, keepLast: int)
    requires Good(x) && TrimSpace(stem) != ""
    ensures Possible(s, Uploading(x, stem, keepLast))
    ensures var t := Next(s, Uploading(x, stem, keepLast));
            && t.records == s.records && t.jobs == s.jobs
            && t.pending.Keys == s.pending.Keys + {x.series}
            && t.pending[x.series] == Pending(Made(stem), keepLast)
            && Archives(x, t) == Archives(x, s) + {stem} - Victims(Archives(x, s) + {stem}, keepLast)
  {
    var d := DirAt(s, BackendPathOf(x.series));
    assert Copied(d, Made(stem)).archives.Keys == d.archives.Keys + {stem};
  }

  lemma UploadAdds(x: Site, s: State, stem: string, keepLast: int)
    requires Good(x) && TrimSpace(stem) != "" && |Archives(x, s) + {stem}| <= keepLast
    ensures Archives(x, Next(s, Uploading(x, stem, keepLast))) == Archives(x, s) + {stem}
  {
    UploadLeaves(x, s, stem, keepLast);
    FewStay(Archives(x, s) + {stem}, keepLast);
  }

  /** An upload leaves everything but the archives and the waiting upload. */
  lemma UploadWaits(x: Site, s: State, stem: string, keepLast: int)
    requires Good(x) && TrimSpace(stem) != ""
    ensures var t := Next(s, Uploading(x, stem, keepLast));
            && t.records == s.records && t.jobs == s.jobs
            && t.pending.Keys == s.pending.Keys + {x.series}
            && t.pending[x.series] == Pending(Made(stem), keepLast)
  {
    UploadLeaves(x, s, stem, keepLast);
  }

  lemma LatestWord(x: Site, s: State, i: nat)
    requires Good(x) && AllOf(x, s.records)
    requires Archives(x, s) <= Words(0, i)
    requires forall n | n in s.records :: s.records[n].stem in Words(0, i)
    ensures LatestArchive(s, x.series, Word(i))
  {
    forall f | f in Words(0, i) ensures ArchiveAfter(Word(i), f) {
      var j: nat :| j < i && Word(j) == f;
      WordOrder(j, i);
    }
  }

  /** After `i` quiet rounds, an upload that keeps `i` archives prunes the first. */
  lemma PrunesFirst(x: Site, s: State, i: nat)
    requires Good(x) && Archives(x, s) == Words(0, i) && 0 < i
    ensures Word(0) !in Archives(x, Next(s, Uploading(x, Word(i), i)))
  {
    FirstLetter(i);
    UploadLeaves(x, s, Word(i), i);
    WordsSize(1, i);
    forall f | f in Words(0, i) ensures ArchiveAfter(Word(i), f) {
      var j: nat :| j < i && Word(j) == f;
      WordOrder(j, i);
    }
    forall f | f in Words(1, i) ensures f in Words(0, i) && ArchiveAfter(f, Word(0)) {
      var j: nat :| 1 <= j < i && Word(j) == f;
      WordOrder(0, j);
    }
    SubsetSize(Words(1, i), set f | f in Words(0, i) && ArchiveAfter(f, Word(0)));
    PrunesOlder(Words(0, i), Word(0), Word(i), i);
  }

  // ---------------------------------------------------------------- recordings

  /** What recording the waiting upload leaves while there are no more records than are kept. */
  ghost predicate Noted(x: Site, s: State, t: State, name: string, time: int)
    requires x.series in s.pending && SeriesLike(x.series)
  {
    && t.jobs == s.jobs && t.dirs == s.dirs && t.pending.Keys == s.pending.Keys - {x.series}
    && t.records.Keys == s.records.Keys + {name}
    && (forall n | n in s.records && n != name :: t.records[n] == s.records[n].(latest := false))
    && Row(x, t.records[name], name, s.pending[x.series].p.stem, time)
    && t.records[name].deleting == (name in s.records && s.records[name].deleting)
    && t.records[name].finalizers == (if name in s.records then s.records[name].finalizers else {})
  }

  function RecordedAs(x: Site, s: State, name: string, time: int): Snapshot
    requires SeriesLike(x.series) && x.series in s.pending
  {
    Recorded(s.records, name, x.series, x.storage, FinishedJob("", None, Some(time)),
             ArtifactOf(s.pending[x.series].p, x.series), 0)
  }

  lemma RecordedIsRow(x: Site, s: State, name: string, time: int)
    requires SeriesLike(x.series) && x.series in s.pending
    requires name in s.records ==> s.records[name].name == name
    ensures var r := RecordedAs(x, s, name, time);
            && Row(x, r, name, s.pending[x.series].p.stem, time) && r.latest
            && r.deleting == (name in s.records && s.records[name].deleting)
            && r.finalizers == if name in s.records then s.records[name].finalizers else {}
  {
  }

  lemma PassOverFew(records: Records, name: string, r: Snapshot, series: string, keepLast: int)
    requires r.series == series && r.latest && forall n | n in records :: records[n].series == series
    requires |records.Keys + {name}| <= keepLast
    ensures var after := AfterPass(records[name := r], series, keepLast, name);
            && after.Keys == records.Keys + {name} && after[name] == r
            && forall n | n in records && n != name :: after[n] == records[n].(latest := false)
  {
    var was := records[name := r];
    assert Members(was, series) == records.Keys + {name};
    FewAreKept(was, series, keepLast, name);
    forall n | n in records && n != name
      ensures AfterPass(was, series, keepLast, name)[n] == records[n].(latest := false)
    {
      assert was[n] == records[n];
    }
  }

  lemma RecordingLeaves(x: Site, s: State, name: string, time: int, keepLast: int)
    requires Good(x) && x.series in s.pending && AllOf(x, s.records)
    requires name in s.records ==> s.records[name].name == name
    requires |s.records.Keys + {name}| <= keepLast
    ensures Possible(s, Recording(x, name, time, keepLast))
    ensures Noted(x, s, Next(s, Recording(x, name, time, keepLast)), name, time)
  {
    SomeRecords(s.records.Keys, name);
    RecordedIsRow(x, s, name, time);
    PassOverFew(s.records, name, RecordedAs(x, s, name, time), x.series, keepLast);
  }

  lemma SomeRecords(names: set<string>, name: string)
    ensures |names + {name}| > 0
  {
    assert name in names + {name};
  }

  // ---------------------------------------------------------------- the life of a record

  ghost predicate OnlyRecord(s: State, t: State, name: string) {
    && t.dirs == s.dirs && t.pending == s.pending && t.records.Keys == s.records.Keys
    && forall n | n in s.records && n != name :: t.records[n] == s.records[n]
  }

  /** The reconciler adds the finalizer, a user deletes the record, and unless there is a cleanup Job
      already the reconciler renders one. */
  lemma FinalizerAdded(x: Site, s: State, name: string)
    requires name in s.records && !s.records[name].deleting && s.records[name].ready
    ensures var t := Next(s, Reconciling(x, name));
            && OnlyRecord(s, t, name) && t.jobs == s.jobs
            && t.records[name] == s.records[name].(finalizers := s.records[name].finalizers + {CLEANUP_FINALIZER})
  {
  }

  lemma Marked(s: State, name: string)
    requires name in s.records && s.records[name].finalizers != {}
    ensures var t := Next(s, UserDelete(name));
            && OnlyRecord(s, t, name) && t.jobs == s.jobs
            && t.records[name] == s.records[name].(deleting := true)
  {
  }

  /** A record that is being deleted and has only the cleanup finalizer. */
  predicate Going(x: Site, r: Snapshot) {
    r.deleting && r.finalizers == {CLEANUP_FINALIZER} && Removable(r) && r.storage == x.storage
  }

  lemma JobMade(x: Site, s: State, name: string)
    requires name in s.records && Going(x, s.records[name]) && name !in s.jobs
    ensures Next(s, Reconciling(x, name)) == s.(jobs := s.jobs[name := Rendered(s.records[name])])
  {
  }

  lemma Gone(x: Site, s: State, name: string)
    requires name in s.records && Going(x, s.records[name])
    requires name in s.jobs && TerminalState(s.jobs[name].conditions) == Some(Succeeded)
    ensures Next(s, Reconciling(x, name)) == s.(records := s.records - {name})
  {
    assert s.records[name].finalizers - {CLEANUP_FINALIZER} == {};
  }
}
