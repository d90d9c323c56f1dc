/** That the assumptions of `OperatorRun` are needed, every single one, and what the two configured
    numbers have to do with it. */
module OperatorNeeds {
  import opened Options
  import opened Strings
  import opened Ranking
  import opened Snapshots
  import opened Retention
  import opened NativeJobs
  import opened NfsBackend
  import opened Series
  import opened OperatorRun
  import opened OperatorEvents
  import opened OperatorTheorems
  import opened OperatorRounds

  /** An undeleted, ready record whose archive is gone, and no upload that would have it deleted. */
  ghost predicate Lost(s: State, n: string) {
    && n in s.records && Live(s.records[n]) && s.records[n].series !in s.pending
    && s.records[n].stem !in DirAt(s, s.records[n].backendPath).archives
  }

  /** Uploads keep `kU` archives and recordings keep `kC` records. */
  predicate Keeping(e: Event, kU: int, kC: int) {
    (e.Upload? ==> e.keepLast == kU) && (e.Observe? || e.Recreate? ==> e.keepLast == kC)
  }

  predicate AllKeeping(run: seq<Event>, kU: int, kC: int) {
    forall i | 0 <= i < |run| :: Keeping(run[i], kU, kC)
  }

  // ---------------------------------------------------------------- building a run

  /** A run from the start to `s` that meets all assumptions but the waived ones. */
  datatype Course = Course(waived: set<Guard>, kU: int, kC: int, run: seq<Event>, s: State)

  ghost predicate Taken(c: Course) {
    && Admissible(c.waived, INITIAL, c.run) && AllKeeping(c.run, c.kU, c.kC)
    && Reached(INITIAL, c.run) == c.s
  }

  lemma {:induction false} Onwards(waived: set<Guard>, s: State, run: seq<Event>, e: Event)
    requires Admissible(waived, s, run) && Enabled(waived, Reached(s, run), e)
    ensures Admissible(waived, s, run + [e]) && Reached(s, run + [e]) == Next(Reached(s, run), e)
    decreases |run|
  {
    if run == [] {
      assert run + [e] == [e] && [e][1..] == [];
    } else {
      Onwards(waived, Next(s, run[0]), run[1..], e);
      assert (run + [e])[1..] == run[1..] + [e] && (run + [e])[0] == run[0];
    }
  }

  lemma Then(c: Course, e: Event) returns (d: Course)
    requires Taken(c) && Enabled(c.waived, c.s, e) && Keeping(e, c.kU, c.kC)
    ensures Taken(d) && d == c.(run := c.run + [e], s := Next(c.s, e))
  {
    d := c.(run := c.run + [e], s := Next(c.s, e));
    Onwards(c.waived, INITIAL, c.run, e);
  }

  // ---------------------------------------------------------------- when events are enabled

  lemma UploadEnabled(waived: set<Guard>, x: Site, s: State, stem: string, keepLast: int)
    requires Good(x) && TrimSpace(stem) != ""
    requires EachRecorded !in waived ==> x.series !in s.pending
    requires ArchivesInOrder !in waived ==> LatestArchive(s, x.series, stem)
    ensures Enabled(waived, s, Uploading(x, stem, keepLast))
  {
  }

  /** One upload more. */
  lemma Uploads(b: Course, x: Site, stem: string) returns (d: Course)
    requires Taken(b) && Good(x) && TrimSpace(stem) != "" && b.s.pending.Keys == {}
    requires ArchivesInOrder !in b.waived ==> LatestArchive(b.s, x.series, stem)
    ensures Taken(d) && d == b.(run := d.run, s := d.s)
    ensures d.s.records == b.s.records && d.s.jobs == b.s.jobs
    ensures d.s.pending.Keys == {x.series} && d.s.pending[x.series] == Pending(Made(stem), b.kU)
    ensures Archives(x, d.s) == Archives(x, b.s) + {stem} - Victims(Archives(x, b.s) + {stem}, b.kU)
  {
    UploadEnabled(b.waived, x, b.s, stem, b.kU);
    UploadLeaves(x, b.s, stem, b.kU);
    d := Then(b, Uploading(x, stem, b.kU));
  }

  lemma RecordingEnabled(waived: set<Guard>, x: Site, s: State, name: string, time: int, keepLast: int)
    requires Good(x) && x.series in s.pending && 0 < keepLast
    requires RunsInOrder !in waived ==> LatestCompletion(s, name, x.series, FinishedJob("", None, Some(time)))
    requires SameNumbers !in waived ==> keepLast <= s.pending[x.series].keepLast
    requires OldestOverwritten !in waived ==> OverwritesOldest(s, name, x.series)
    requires NoLeftoverJob !in waived ==> name !in s.jobs
    ensures Enabled(waived, s, Recording(x, name, time, keepLast))
  {
  }

  lemma ReconcileEnabled(waived: set<Guard>, s: State, n: string, storages: set<string>)
    requires HarmlessVanishing !in waived && n in s.records && n !in Reconciled(s, n, storages).records
             ==> s.records[n].series !in s.pending
    ensures Enabled(waived, s, ReconcileSnapshot(n, storages))
  {
  }

  lemma DeleteEnabled(waived: set<Guard>, s: State, n: string)
    requires n in s.records && (OldestDeleted !in waived ==> s.records[n].finalizers != {})
    ensures Enabled(waived, s, UserDelete(n))
  {
  }

  // ---------------------------------------------------------------- quiet rounds

  lemma Start(waived: set<Guard>, kU: int, kC: int, x: Site) returns (c: Course)
    requires Good(x)
    ensures Taken(c) && c == Course(waived, kU, kC, [], INITIAL) && Quiet(x, c.s, 0)
  {
    c := Course(waived, kU, kC, [], INITIAL);
    assert Words(0, 0) == {};
  }

  lemma WordsGrow(i: nat)
    ensures Words(0, i + 1) == Words(0, i) + {Word(i)}
    ensures Word(i) !in Words(0, i)
  {
    forall j: nat | j < i ensures Word(j) != Word(i) {
      WordOrder(j, i);
    }
  }

  /** What `Quiet` says of any record that is there. */
  lemma QuietRecords(x: Site, s: State, i: nat, n: string)
    requires SeriesLike(x.series) && Quiet(x, s, i) && n in s.records
    ensures s.records[n].name == n && s.records[n].stem == n && s.records[n].series == x.series
    ensures SortTime(s.records[n]) < i
  {
    var j: nat :| j < i && n == Word(j);
  }

  lemma QuietUpload(c: Course, x: Site, i: nat) returns (d: Course)
    requires Taken(c) && Good(x) && Quiet(x, c.s, i)
    ensures Taken(d) && d == c.(run := d.run, s := Next(c.s, Uploading(x, Word(i), c.kU)))
  {
    forall n | n in c.s.records ensures c.s.records[n].stem in Words(0, i) {
      QuietRecords(x, c.s, i, n);
    }
    QuietIsAllOf(x, c.s, i);
    LatestWord(x, c.s, i);
    FirstLetter(i);
    UploadEnabled(c.waived, x, c.s, Word(i), c.kU);
    d := Then(c, Uploading(x, Word(i), c.kU));
  }

  /** A quiet state with an upload waiting, none of whose archives is pruned. */
  ghost predicate QuietWaiting(x: Site, s: State, mid: State, i: nat, keepLast: int)
    requires SeriesLike(x.series)
  {
    && mid.records == s.records && mid.jobs.Keys == {}
    && mid.pending.Keys == {x.series} && mid.pending[x.series] == Pending(Made(Word(i)), keepLast)
    && Archives(x, mid) == Words(0, i + 1)
  }

  lemma QuietUploadLeaves(x: Site, s: State, i: nat, keepLast: int)
    requires Good(x) && Archives(x, s) == Words(0, i) && s.jobs.Keys == {} && s.pending.Keys == {} && i < keepLast
    ensures QuietWaiting(x, s, Next(s, Uploading(x, Word(i), keepLast)), i, keepLast)
  {
    FirstLetter(i);
    UploadWaits(x, s, Word(i), keepLast);
    RoomForOne(i, keepLast);
    UploadAdds(x, s, Word(i), keepLast);
  }

  lemma RoomForOne(i: nat, keepLast: int)
    requires i < keepLast
    ensures Words(0, i) + {Word(i)} == Words(0, i + 1) && |Words(0, i) + {Word(i)}| <= keepLast
  {
    WordsGrow(i);
    WordsSize(0, i + 1);
  }

  lemma QuietRecordingEnabled(waived: set<Guard>, x: Site, s: State, mid: State, i: nat, kU: int, kC: int)
    requires Good(x) && Quiet(x, s, i) && QuietWaiting(x, s, mid, i, kU)
    requires 0 < kC && (SameNumbers in waived || kC <= kU)
    ensures Enabled(waived, mid, Recording(x, Word(i), i, kC))
  {
    WordsGrow(i);
    forall n | n in mid.records ensures SortTime(mid.records[n]) < i {
      QuietRecords(x, s, i, n);
    }
    RecordingEnabled(waived, x, mid, Word(i), i, kC);
  }

  lemma QuietRecordingLeaves(x: Site, s: State, mid: State, i: nat, kU: int, kC: int)
    requires Good(x) && Quiet(x, s, i) && QuietWaiting(x, s, mid, i, kU) && i < kC
    ensures Quiet(x, Next(mid, Recording(x, Word(i), i, kC)), i + 1)
  {
    WordsGrow(i);
    WordsSize(0, i + 1);
    QuietIsAllOf(x, s, i);
    RecordingLeaves(x, mid, Word(i), i, kC);
    QuietAgain(x, s, mid, Next(mid, Recording(x, Word(i), i, kC)), i, kU);
  }

  lemma QuietAgain(x: Site, s: State, mid: State, t: State, i: nat, kU: int)
    requires Good(x) && Quiet(x, s, i) && QuietWaiting(x, s, mid, i, kU) && Noted(x, mid, t, Word(i), i)
    ensures Quiet(x, t, i + 1)
  {
    WordsGrow(i);
    assert AllFresh(x, t.records, i + 1) by {
      forall j: nat | j < i + 1
        ensures Word(j) in t.records && Fresh(x, t.records[Word(j)], Word(j), Word(j), j)
      {
        if j < i {
          FreshAgain(x, s, mid, t, i, kU, j);
        }
      }
    }
  }

  lemma FreshAgain(x: Site, s: State, mid: State, t: State, i: nat, kU: int, j: nat)
    requires Good(x) && Quiet(x, s, i) && QuietWaiting(x, s, mid, i, kU) && Noted(x, mid, t, Word(i), i)
    requires j < i
    ensures Word(j) in t.records && Fresh(x, t.records[Word(j)], Word(j), Word(j), j)
  {
    WordOrder(j, i);
    assert Word(j) in Words(0, i);
  }

  /** One more round while nothing is pruned or deleted. */
  lemma QuietRound(c: Course, x: Site, i: nat) returns (d: Course)
    requires Taken(c) && Good(x) && Quiet(x, c.s, i)
    requires i < c.kU && i < c.kC && (SameNumbers in c.waived || c.kC <= c.kU)
    ensures Taken(d) && d == c.(run := d.run, s := d.s) && Quiet(x, d.s, i + 1)
  {
    var mid := QuietUpload(c, x, i);
    QuietUploadLeaves(x, c.s, i, c.kU);
    QuietRecordingEnabled(c.waived, x, c.s, mid.s, i, c.kU, c.kC);
    QuietRecordingLeaves(x, c.s, mid.s, i, c.kU, c.kC);
    d := Then(mid, Recording(x, Word(i), i, c.kC));
  }

  lemma {:induction false} QuietRounds(waived: set<Guard>, kU: int, kC: int, x: Site, i: nat) returns (c: Course)
    requires Good(x) && i <= kU && i <= kC && (SameNumbers in waived || kC <= kU)
    ensures Taken(c) && c == Course(waived, kU, kC, c.run, c.s) && Quiet(x, c.s, i)
  {
    if i == 0 {
      c := Start(waived, kU, kC, x);
    } else {
      var before := QuietRounds(waived, kU, kC, x, i - 1);
      c := QuietRound(before, x, i - 1);
    }
  }

  // ---------------------------------------------------------------- the last steps of a failing run

  /** A waiting upload that has pruned the archive of `k`, beside few records. */
  ghost predicate Doomed(x: Site, s: State, name: string, keepLast: int, k: string)
    requires SeriesLike(x.series)
  {
    && x.series in s.pending && AllOf(x, s.records) && (name in s.records ==> s.records[name].name == name)
    && |s.records.Keys + {name}| <= keepLast && k != name
    && k in s.records && Live(s.records[k]) && s.records[k].backendPath == BackendPathOf(x.series)
    && s.records[k].stem !in Archives(x, s)
  }

  /** Recording it then keeps `k`. */
  lemma Loses(x: Site, s: State, name: string, time: int, keepLast: int, k: string)
    requires Good(x) && Doomed(x, s, name, keepLast, k)
    ensures Lost(Next(s, Recording(x, name, time, keepLast)), k)
  {
    RecordingLeaves(x, s, name, time, keepLast);
  }

  lemma Pair(a: string, b: string)
    ensures |{a} + {b}| <= 2
  {
  }

  /** The first record of a quiet state. */
  lemma FirstRecord(x: Site, s: State, i: nat)
    requires SeriesLike(x.series) && Quiet(x, s, i) && 0 < i
    ensures Word(0) in s.records && Fresh(x, s.records[Word(0)], Word(0), Word(0), 0)
  {
    assert AllFresh(x, s.records, i);
  }

  lemma FewWords()
    ensures Words(0, 1) == {Word(0)} && Words(0, 2) == {Word(0), Word(1)}
    ensures Word(0) != Word(1) && Word(0) != Word(2) && Word(1) != Word(2)
  {
    assert Words(0, 0) == {};
    WordsGrow(0);
    WordsGrow(1);
    WordOrder(0, 1);
    WordOrder(0, 2);
    WordOrder(1, 2);
  }

  /** After quiet rounds, the recording of a run that completes next is enabled. */
  lemma NextCompletion(x: Site, s: State, i: nat, name: string, time: int)
    requires Good(x) && Quiet(x, s, i) && i <= time
    ensures LatestCompletion(s, name, x.series, FinishedJob("", None, Some(time)))
  {
    forall n | n in s.records ensures SortTime(s.records[n]) < time {
      QuietRecords(x, s, i, n);
    }
  }

  // ---------------------------------------------------------------- each recorded before the next

  lemma NeedsEachRecorded(x: Site) returns (c: Course)
    requires Good(x)
    ensures Taken(c) && c.waived == {EachRecorded} && c.kU == c.kC == 2 && Lost(c.s, Word(0))
  {
    var a := QuietRounds({EachRecorded}, 2, 2, x, 1);
    var b := QuietUpload(a, x, 1);
    QuietUploadLeaves(x, a.s, 1, 2);
    FewWords();
    FirstRecord(x, a.s, 1);
    LatestWord(x, b.s, 2);
    FirstLetter(2);
    UploadEnabled(b.waived, x, b.s, Word(2), 2);
    PrunesFirst(x, b.s, 2);
    UploadWaits(x, b.s, Word(2), 2);
    var d := Then(b, Uploading(x, Word(2), 2));
    NextCompletion(x, a.s, 1, Word(1), 1);
    RecordingEnabled(d.waived, x, d.s, Word(1), 1, 2);
    Pair(Word(0), Word(1));
    Loses(x, d.s, Word(1), 1, 2, Word(0));
    c := Then(d, Recording(x, Word(1), 1, 2));
  }

  // ---------------------------------------------------------------- the two numbers

  lemma NeedsSameNumbers(x: Site, kU: int, kC: int) returns (c: Course)
    requires Good(x) && 0 < kU < kC
    ensures Taken(c) && c.waived == {SameNumbers} && c.kU == kU && c.kC == kC && Lost(c.s, Word(0))
  {
    var a := QuietRounds({SameNumbers}, kU, kC, x, kU);
    var b := QuietUpload(a, x, kU);
    FirstLetter(kU);
    PrunesFirst(x, a.s, kU);
    UploadWaits(x, a.s, Word(kU), kU);
    FirstRecord(x, a.s, kU);
    WordsGrow(kU);
    WordsSize(0, kU + 1);
    WordOrder(0, kU);
    QuietIsAllOf(x, a.s, kU);
    NextCompletion(x, a.s, kU, Word(kU), kU);
    RecordingEnabled(b.waived, x, b.s, Word(kU), kU, kC);
    Loses(x, b.s, Word(kU), kU, kC, Word(0));
    c := Then(b, Recording(x, Word(kU), kU, kC));
  }

  // ---------------------------------------------------------------- write-overs

  /** The records of two quiet rounds. */
  ghost predicate TwoRecords(x: Site, records: Records) {
    && records.Keys == {Word(0), Word(1)}
    && Fresh(x, records[Word(0)], Word(0), Word(0), 0) && Fresh(x, records[Word(1)], Word(1), Word(1), 1)
  }

  lemma QuietTwo(x: Site, s: State)
    requires SeriesLike(x.series) && Quiet(x, s, 2)
    ensures TwoRecords(x, s.records)
  {
    FewWords();
    assert AllFresh(x, s.records, 2);
  }

  lemma NeedsOldestOverwritten(x: Site) returns (c: Course)
    requires Good(x)
    ensures Taken(c) && c.waived == {OldestOverwritten} && c.kU == c.kC == 2 && Lost(c.s, Word(0))
  {
    var a := QuietRounds({OldestOverwritten}, 2, 2, x, 2);
    var b := QuietUpload(a, x, 2);
    FirstLetter(2);
    PrunesFirst(x, a.s, 2);
    UploadWaits(x, a.s, Word(2), 2);
    QuietTwo(x, a.s);
    c := OverwriteSecond(b, x);
  }

  lemma OverwriteSecond(b: Course, x: Site) returns (c: Course)
    requires Taken(b) && Good(x) && b.waived == {OldestOverwritten} && b.kU == b.kC == 2
    requires TwoRecords(x, b.s.records) && b.s.jobs.Keys == {} && x.series in b.s.pending
    requires b.s.pending[x.series].keepLast == 2 && Word(0) !in Archives(x, b.s)
    ensures Taken(c) && c.waived == {OldestOverwritten} && c.kU == c.kC == 2 && Lost(c.s, Word(0))
  {
    FewWords();
    RecordingEnabled(b.waived, x, b.s, Word(1), 2, 2);
    Pair(Word(0), Word(1));
    assert b.s.records.Keys + {Word(1)} == {Word(0)} + {Word(1)};
    Loses(x, b.s, Word(1), 2, 2, Word(0));
    c := Then(b, Recording(x, Word(1), 2, 2));
  }

  // ---------------------------------------------------------------- deletes

  lemma NeedsOldestDeleted(x: Site) returns (c: Course)
    requires Good(x)
    ensures Taken(c) && c.waived == {OldestDeleted} && c.kU == c.kC == 2 && Lost(c.s, Word(0))
  {
    var a := QuietRounds({OldestDeleted}, 2, 2, x, 2);
    FewWords();
    FirstRecord(x, a.s, 2);
    QuietTwo(x, a.s);
    DeleteEnabled(a.waived, a.s, Word(1));
    var b := Then(a, UserDelete(Word(1)));
    assert b.s == a.s.(records := a.s.records - {Word(1)});
    assert b.s.records.Keys == {Word(0)};
    c := LoseFirst(b, x);
  }

  /** With the first record and both archives left of two quiet rounds, the next round loses the first
      archive. */
  lemma LoseFirst(b: Course, x: Site) returns (c: Course)
    requires Taken(b) && Good(x) && b.kU == b.kC == 2
    requires Archives(x, b.s) == Words(0, 2) && b.s.pending.Keys == {} && Word(2) !in b.s.jobs
    requires b.s.records.Keys == {Word(0)} && Fresh(x, b.s.records[Word(0)], Word(0), Word(0), 0)
    ensures Taken(c) && c.waived == b.waived && c.kU == c.kC == 2 && Lost(c.s, Word(0))
  {
    FewWords();
    FirstLetter(2);
    LatestWord(x, b.s, 2);
    UploadEnabled(b.waived, x, b.s, Word(2), 2);
    PrunesFirst(x, b.s, 2);
    UploadWaits(x, b.s, Word(2), 2);
    var d := Then(b, Uploading(x, Word(2), 2));
    RecordingEnabled(d.waived, x, d.s, Word(2), 2, 2);
    Pair(Word(0), Word(2));
    Loses(x, d.s, Word(2), 2, 2, Word(0));
    c := Then(d, Recording(x, Word(2), 2, 2));
  }

  // ---------------------------------------------------------------- records that vanish

  /** From two quiet rounds: the second record gets its finalizer, a user deletes it, and its cleanup Job
      is created. */
  lemma SecondGoes(a: Course, x: Site) returns (d: Course)
    requires Taken(a) && Good(x) && Quiet(x, a.s, 2)
    ensures Taken(d) && d == a.(run := d.run, s := d.s)
    ensures d.s.dirs == a.s.dirs && d.s.pending == a.s.pending
    ensures d.s.records.Keys == {Word(0), Word(1)} && d.s.records[Word(0)] == a.s.records[Word(0)]
    ensures Row(x, d.s.records[Word(1)], Word(1), Word(1), 1) && Going(x, d.s.records[Word(1)])
    ensures d.s.jobs.Keys == {Word(1)} && Active(d.s, Word(1))
    ensures d.s.jobs[Word(1)].stem == Word(1) && d.s.jobs[Word(1)].backendPath == BackendPathOf(x.series)
  {
    d := SecondMarked(a, x);
    d := JobComes(d, x, Word(1));
  }

  lemma SecondMarked(a: Course, x: Site) returns (d: Course)
    requires Taken(a) && Good(x) && Quiet(x, a.s, 2)
    ensures Taken(d) && d == a.(run := d.run, s := d.s)
    ensures d.s.dirs == a.s.dirs && d.s.pending == a.s.pending && d.s.jobs.Keys == {}
    ensures d.s.records.Keys == {Word(0), Word(1)} && d.s.records[Word(0)] == a.s.records[Word(0)]
    ensures Row(x, d.s.records[Word(1)], Word(1), Word(1), 1) && Going(x, d.s.records[Word(1)])
  {
    QuietTwo(x, a.s);
    FewWords();
    FirstLetter(1);
    d := Goes(a, x, Word(1));
  }

  lemma JobComes(a: Course, x: Site, name: string) returns (d: Course)
    requires Taken(a) && name in a.s.records && Going(x, a.s.records[name]) && name !in a.s.jobs
    ensures Taken(d) && d == a.(run := d.run, s := d.s)
    ensures d.s.dirs == a.s.dirs && d.s.pending == a.s.pending && d.s.records == a.s.records
    ensures d.s.jobs.Keys == a.s.jobs.Keys + {name} && Active(d.s, name)
    ensures d.s.jobs[name].stem == a.s.records[name].stem
    ensures d.s.jobs[name].backendPath == a.s.records[name].backendPath
  {
    JobMade(x, a.s, name);
    ReconcileEnabled(a.waived, a.s, name, {x.storage});
    d := Then(a, Reconciling(x, name));
  }

  lemma Goes(a: Course, x: Site, name: string) returns (d: Course)
    requires Taken(a) && Good(x) && name in a.s.records && TrimSpace(a.s.records[name].stem) != ""
    requires Fresh(x, a.s.records[name], name, a.s.records[name].stem, SortTime(a.s.records[name]))
    ensures Taken(d) && d == a.(run := d.run, s := d.s)
    ensures OnlyRecord(a.s, d.s, name) && d.s.jobs == a.s.jobs
    ensures Row(x, d.s.records[name], name, a.s.records[name].stem, SortTime(a.s.records[name]))
    ensures Going(x, d.s.records[name])
  {
    FinalizerAdded(x, a.s, name);
    ReconcileEnabled(a.waived, a.s, name, {x.storage});
    d := Then(a, Reconciling(x, name));
    Marked(d.s, name);
    DeleteEnabled(d.waived, d.s, name);
    d := Then(d, UserDelete(name));
  }

  lemma JobDone(s: State, n: string)
    requires Active(s, n)
    ensures var t := Next(s, CleanupCompletes(n, 0));
            && t.records == s.records && t.pending == s.pending && t.jobs.Keys == s.jobs.Keys
            && TerminalState(t.jobs[n].conditions) == Some(Succeeded)
            && DirAt(t, s.jobs[n].backendPath).archives.Keys
               == DirAt(s, s.jobs[n].backendPath).archives.Keys - {s.jobs[n].stem}
  {
    CleanedEffect(s, n, 0);
  }

  lemma CleanupEnabled(waived: set<Guard>, s: State, n: string)
    requires Active(s, n)
    ensures Enabled(waived, s, CleanupCompletes(n, 0))
  {
  }

  /** The cleanup Job of a record completes, and the reconciler lets the record go. */
  lemma Vanishes(a: Course, x: Site, name: string) returns (d: Course)
    requires Taken(a) && SeriesLike(x.series) && Active(a.s, name)
    requires name in a.s.records && Going(x, a.s.records[name]) && a.s.records[name].series == x.series
    requires HarmlessVanishing in a.waived || x.series !in a.s.pending
    requires a.s.jobs[name].backendPath == BackendPathOf(x.series)
    ensures Taken(d) && d == a.(run := d.run, s := d.s)
    ensures d.s.records == a.s.records - {name} && d.s.pending == a.s.pending && d.s.jobs.Keys == a.s.jobs.Keys
    ensures TerminalState(d.s.jobs[name].conditions) == Some(Succeeded)
    ensures Archives(x, d.s) == Archives(x, a.s) - {a.s.jobs[name].stem}
  {
    JobDone(a.s, name);
    CleanupEnabled(a.waived, a.s, name);
    d := Then(a, CleanupCompletes(name, 0));
    Gone(x, d.s, name);
    ReconcileEnabled(d.waived, d.s, name, {x.storage});
    d := Then(d, Reconciling(x, name));
  }

  lemma NeedsHarmlessVanishing(x: Site) returns (c: Course)
    requires Good(x)
    ensures Taken(c) && c.waived == {HarmlessVanishing} && c.kU == c.kC == 2 && Lost(c.s, Word(0))
  {
    var a := QuietRounds({HarmlessVanishing}, 2, 2, x, 2);
    FirstRecord(x, a.s, 2);
    FewWords();
    var b := SecondGoes(a, x);
    c := VanishesBeforeRecording(b, x);
  }

  /** The third upload prunes the first archive; the second record vanishes before it is recorded. */
  lemma VanishesBeforeRecording(b: Course, x: Site) returns (c: Course)
    requires Taken(b) && Good(x) && b.waived == {HarmlessVanishing} && b.kU == b.kC == 2
    requires Archives(x, b.s) == Words(0, 2) && b.s.pending.Keys == {} && b.s.jobs.Keys == {Word(1)}
    requires b.s.records.Keys == {Word(0), Word(1)} && Fresh(x, b.s.records[Word(0)], Word(0), Word(0), 0)
    requires Row(x, b.s.records[Word(1)], Word(1), Word(1), 1) && Going(x, b.s.records[Word(1)])
    requires Active(b.s, Word(1)) && b.s.jobs[Word(1)].backendPath == BackendPathOf(x.series)
    ensures Taken(c) && c.waived == {HarmlessVanishing} && c.kU == c.kC == 2 && Lost(c.s, Word(0))
  {
    FewWords();
    var d := ThirdUpload(b, x);
    d := Vanishes(d, x, Word(1));
    assert d.s.records.Keys == {Word(0)};
    c := RecordThird(d, x);
  }

  /** The third word sorts after the first two. */
  lemma ThirdWord(x: Site, s: State)
    requires Good(x) && AllOf(x, s.records)
    requires Archives(x, s) <= {Word(0), Word(1)}
    requires forall n | n in s.records :: s.records[n].stem == Word(0) || s.records[n].stem == Word(1)
    ensures LatestArchive(s, x.series, Word(2))
  {
    WordOrder(0, 2);
    WordOrder(1, 2);
  }

  lemma ThirdUpload(b: Course, x: Site) returns (d: Course)
    requires Taken(b) && Good(x) && b.kU == 2
    requires Archives(x, b.s) == Words(0, 2) && b.s.pending.Keys == {}
    requires b.s.records.Keys == {Word(0), Word(1)} && Fresh(x, b.s.records[Word(0)], Word(0), Word(0), 0)
    requires Row(x, b.s.records[Word(1)], Word(1), Word(1), 1)
    ensures Taken(d) && d == b.(run := d.run, s := d.s)
    ensures d.s.records == b.s.records && d.s.jobs == b.s.jobs && Word(0) !in Archives(x, d.s)
    ensures d.s.pending.Keys == {x.series} && d.s.pending[x.series] == Pending(Made(Word(2)), 2)
  {
    FewWords();
    FirstLetter(2);
    ThirdWord(x, b.s);
    FirstPruned(x, b.s);
    d := Uploads(b, x, Word(2));
  }

  lemma FirstPruned(x: Site, s: State)
    requires Good(x) && Archives(x, s) == Words(0, 2)
    ensures Word(0) in Victims(Archives(x, s) + {Word(2)}, 2)
  {
    FewWords();
    FirstLetter(2);
    PrunesFirst(x, s, 2);
    UploadLeaves(x, s, Word(2), 2);
  }

  lemma RecordThird(d: Course, x: Site) returns (c: Course)
    requires Taken(d) && Good(x) && d.kU == d.kC == 2
    requires x.series in d.s.pending && d.s.pending[x.series].keepLast == 2 && Word(2) !in d.s.jobs
    requires d.s.records.Keys == {Word(0)} && Fresh(x, d.s.records[Word(0)], Word(0), Word(0), 0)
    requires Word(0) !in Archives(x, d.s)
    ensures Taken(c) && c.waived == d.waived && c.kU == c.kC == 2 && Lost(c.s, Word(0))
  {
    FewWords();
    RecordingEnabled(d.waived, x, d.s, Word(2), 2, 2);
    Pair(Word(0), Word(2));
    Loses(x, d.s, Word(2), 2, 2, Word(0));
    c := Then(d, Recording(x, Word(2), 2, 2));
  }

  // ---------------------------------------------------------------- a leftover cleanup Job

  lemma NeedsNoLeftoverJob(x: Site) returns (c: Course)
    requires Good(x)
    ensures Taken(c) && c.waived == {NoLeftoverJob} && c.kU == c.kC == 2 && Lost(c.s, Word(0))
  {
    var b := SecondGone(x);
    b := SecondAgain(b, x);
    WordOrder(1, 3);
    c := LoseBeforeThird(b, x);
  }

  /** Of two quiet rounds, the second record goes with its archive; its cleanup Job is still there. */
  lemma SecondGone(x: Site) returns (b: Course)
    requires Good(x)
    ensures Taken(b) && b.waived == {NoLeftoverJob} && b.kU == b.kC == 2 && Single(x, b.s)
    ensures Archives(x, b.s) == {Word(0)} && b.s.pending.Keys == {} && b.s.jobs.Keys == {Word(1)}
    ensures TerminalState(b.s.jobs[Word(1)].conditions) == Some(Succeeded)
  {
    var a := QuietRounds({NoLeftoverJob}, 2, 2, x, 2);
    FirstRecord(x, a.s, 2);
    FewWords();
    b := SecondGoes(a, x);
    b := Vanishes(b, x, Word(1));
    assert b.s.records.Keys == {Word(0)} && Archives(x, b.s) == {Word(0)};
  }

  /** One record and its archive. */
  ghost predicate Single(x: Site, s: State)
    requires SeriesLike(x.series)
  {
    && s.records.Keys == {Word(0)} && Fresh(x, s.records[Word(0)], Word(0), Word(0), 0)
    && Word(0) in Archives(x, s)
  }

  lemma SecondUpload(b: Course, x: Site) returns (d: Course)
    requires Taken(b) && Good(x) && b.kU == 2 && Single(x, b.s)
    requires Archives(x, b.s) == {Word(0)} && b.s.pending.Keys == {}
    ensures Taken(d) && d == b.(run := d.run, s := d.s)
    ensures d.s.records == b.s.records && d.s.jobs == b.s.jobs && Archives(x, d.s) == {Word(0), Word(2)}
    ensures d.s.pending.Keys == {x.series} && d.s.pending[x.series] == Pending(Made(Word(2)), 2)
  {
    FirstLetter(2);
    ThirdWord(x, b.s);
    BothStay(Archives(x, b.s));
    d := Uploads(b, x, Word(2));
  }

  lemma BothStay(archives: set<string>)
    requires archives == {Word(0)}
    ensures archives + {Word(2)} - Victims(archives + {Word(2)}, 2) == {Word(0), Word(2)}
  {
    Pair(Word(0), Word(2));
    FewStay(archives + {Word(2)}, 2);
  }

  lemma SecondRecording(b: Course, x: Site) returns (d: Course)
    requires Taken(b) && Good(x) && b.waived == {NoLeftoverJob} && b.kC == 2 && Single(x, b.s)
    requires x.series in b.s.pending && b.s.pending[x.series] == Pending(Made(Word(2)), 2)
    ensures Taken(d) && d == b.(run := d.run, s := Next(b.s, Recording(x, Word(1), 2, 2)))
    ensures Noted(x, b.s, d.s, Word(1), 2)
  {
    FewWords();
    RecordingEnabled(b.waived, x, b.s, Word(1), 2, 2);
    Pair(Word(0), Word(1));
    RecordingLeaves(x, b.s, Word(1), 2, 2);
    d := Then(b, Recording(x, Word(1), 2, 2));
  }

  /** The second record comes back with another archive, while its completed cleanup Job is still there;
      when it is deleted, it goes at once and its archive stays. */
  lemma SecondAgain(b: Course, x: Site) returns (d: Course)
    requires Taken(b) && Good(x) && b.waived == {NoLeftoverJob} && b.kU == b.kC == 2
    requires Single(x, b.s)
    requires Archives(x, b.s) == {Word(0)} && b.s.pending.Keys == {} && b.s.jobs.Keys == {Word(1)}
    requires TerminalState(b.s.jobs[Word(1)].conditions) == Some(Succeeded)
    ensures Taken(d) && d == b.(run := d.run, s := d.s)
    ensures Single(x, d.s)
    ensures Archives(x, d.s) == {Word(0), Word(2)} && d.s.pending.Keys == {} && d.s.jobs.Keys == {Word(1)}
  {
    d := SecondUpload(b, x);
    d := SecondRecording(d, x);
    FewWords();
    d := GoesAgain(d, x);
  }

  lemma GoesAgain(b: Course, x: Site) returns (d: Course)
    requires Taken(b) && Good(x) && b.s.pending.Keys == {}
    requires b.s.records.Keys == {Word(0), Word(1)} && Fresh(x, b.s.records[Word(0)], Word(0), Word(0), 0)
    requires Fresh(x, b.s.records[Word(1)], Word(1), Word(2), 2)
    requires Word(1) in b.s.jobs && TerminalState(b.s.jobs[Word(1)].conditions) == Some(Succeeded)
    ensures Taken(d) && d == b.(run := d.run, s := d.s)
    ensures d.s.records == b.s.records - {Word(1)} && d.s.jobs == b.s.jobs
    ensures d.s.dirs == b.s.dirs && d.s.pending == b.s.pending
  {
    FirstLetter(2);
    FewWords();
    d := Goes(b, x, Word(1));
    Gone(x, d.s, Word(1));
    ReconcileEnabled(d.waived, d.s, Word(1), {x.storage});
    d := Then(d, Reconciling(x, Word(1)));
  }

  lemma LateWords()
    ensures forall f | f in {Word(0), Word(2)} :: ArchiveAfter(Word(3), f)
    ensures Word(0) in Victims({Word(0), Word(2)} + {Word(3)}, 2) && Word(3) != Word(0)
  {
    WordOrder(0, 2);
    WordOrder(0, 3);
    WordOrder(2, 3);
    var later := set f | f in {Word(0), Word(2)} && ArchiveAfter(f, Word(0));
    assert Word(2) in later;
    SubsetSize({Word(2)}, later);
    PrunesOlder({Word(0), Word(2)}, Word(0), Word(3), 2);
  }

  /** The next upload prunes the first archive. */
  lemma PruneBeforeThird(b: Course, x: Site) returns (d: Course)
    requires Taken(b) && Good(x) && b.kU == 2 && Single(x, b.s)
    requires Archives(x, b.s) == {Word(0), Word(2)} && b.s.pending.Keys == {}
    ensures Taken(d) && d == b.(run := d.run, s := d.s)
    ensures d.s.records == b.s.records && d.s.jobs == b.s.jobs && Word(0) !in Archives(x, d.s)
    ensures d.s.pending.Keys == {x.series} && d.s.pending[x.series] == Pending(Made(Word(3)), 2)
  {
    LateWords();
    FirstLetter(3);
    assert LatestArchive(b.s, x.series, Word(3));
    d := Uploads(b, x, Word(3));
  }

  lemma LoseBeforeThird(b: Course, x: Site) returns (c: Course)
    requires Taken(b) && Good(x) && b.kU == b.kC == 2 && Single(x, b.s)
    requires Archives(x, b.s) == {Word(0), Word(2)} && b.s.pending.Keys == {} && Word(3) !in b.s.jobs
    ensures Taken(c) && c.waived == b.waived && c.kU == c.kC == 2 && Lost(c.s, Word(0))
  {
    var d := PruneBeforeThird(b, x);
    WordOrder(0, 3);
    RecordingEnabled(d.waived, x, d.s, Word(3), 3, 2);
    Pair(Word(0), Word(3));
    Loses(x, d.s, Word(3), 3, 2, Word(0));
    c := Then(d, Recording(x, Word(3), 3, 2));
  }

  // ---------------------------------------------------------------- a record that comes back

  lemma RankBesideItself(records: Records, n: string, r: Snapshot)
    requires n !in records
    ensures Newer(records[n := r], r) == Newer(records, r)
  {
    var was, x := records[n := r], StampOf(r);
    AfterStrictTotal({x});
    forall m | m in records && records[m].series == r.series ensures StampOf(records[m]) in Stamps(was, r.series) {
      assert was[m] == records[m];
    }
    assert Stamps(was, r.series) == Stamps(records, r.series) + {x} by { assert was[n] == r; }
    assert Preceding(After, Stamps(was, r.series), x) == Preceding(After, Stamps(records, r.series), x);
  }

  /** When the Job of a record that is gone is seen again, and no upload waits, the record is back without
      an archive exactly if its archive is gone and fewer than `keepLast` records are newer. */
  lemma ReturnExact(s: State, n: string, series: string, storage: string, job: FinishedJob, p: Package,
                    keepLast: int, now: int)
    requires Possible(s, Recreate(n, series, storage, job, p, keepLast, now)) && series !in s.pending
    ensures var r := Anew(n, series, storage, job, p, now);
            Lost(Next(s, Recreate(n, series, storage, job, p, keepLast, now)), n)
            <==> p.stem !in DirAt(s, BackendPathOf(series)).archives && Newer(s.records, r) < keepLast
    ensures var t := Next(s, Recreate(n, series, storage, job, p, keepLast, now));
            n in t.records ==> t.records[n].succeeded
  {
    var r := Anew(n, series, storage, job, p, now);
    var was := s.records[n := r];
    ComesBack(s, n, r, p, storage, job, keepLast, now);
    RankBesideItself(s.records, n, r);
    PassFate(was, series, keepLast, n, n);
  }

  function Returning(x: Site, name: string, keepLast: int): Event {
    Recreate(name, x.series, x.storage, FinishedJob("", None, Some(0)), Made(name), keepLast, 0)
  }

  lemma ReturnEnabled(x: Site, s: State, name: string)
    requires Good(x) && TrimSpace(name) != "" && name !in s.records && name !in s.jobs
    ensures Enabled({HarmlessReturn}, s, Returning(x, name, 2))
  {
    var e := Returning(x, name, 2);
    assert Possible(s, e);
    forall g: Guard | g != HarmlessReturn ensures Meets(g, s, e) {
      assert g.NoLeftoverJob? ==> name !in s.jobs;
    }
  }

  lemma NeedsHarmlessReturn(x: Site) returns (c: Course)
    requires Good(x)
    ensures Taken(c) && c.waived == {HarmlessReturn} && c.kU == c.kC == 2
    ensures Lost(c.s, Word(0)) && c.s.records[Word(0)].succeeded
  {
    var a := QuietRounds({HarmlessReturn}, 2, 2, x, 1);
    FewWords();
    FirstLetter(0);
    FirstRecord(x, a.s, 1);
    a := Goes(a, x, Word(0));
    a := JobComes(a, x, Word(0));
    a := Vanishes(a, x, Word(0));
    c := ReturnsAlone(a, x);
  }

  /** With the first record and its archive gone, its cleanup Job is collected, and then its native Job is
      seen again. */
  lemma ReturnsAlone(b: Course, x: Site) returns (c: Course)
    requires Taken(b) && Good(x) && b.waived == {HarmlessReturn} && b.kU == b.kC == 2
    requires b.s.records.Keys == {} && b.s.pending.Keys == {} && Word(0) in b.s.jobs && Word(0) !in Archives(x, b.s)
    ensures Taken(c) && c.waived == b.waived && c.kU == c.kC == 2
    ensures Lost(c.s, Word(0)) && c.s.records[Word(0)].succeeded
  {
    FirstLetter(0);
    var d := Then(b, JobExpires(Word(0)));
    ReturnEnabled(x, d.s, Word(0));
    ReturnExact(d.s, Word(0), x.series, x.storage, FinishedJob("", None, Some(0)), Made(Word(0)), 2, 0);
    assert Stamps(d.s.records, x.series) == {};
    c := Then(d, Returning(x, Word(0), 2));
  }

  // ---------------------------------------------------------------- the two orders

  /** A recording keeps the newest record, be it the recorded one or another. */
  lemma KeepsNewest(x: Site, s: State, name: string, time: int, k: string)
    requires Good(x) && x.series in s.pending && AllOf(x, s.records)
    requires forall n | n in s.records :: s.records[n].name == n
    requires var records := s.records[name := RecordedAs(x, s, name, time)];
             && k in records && Live(records[k]) && records[k].backendPath == BackendPathOf(x.series)
             && records[k].stem !in Archives(x, s)
             && forall m | m in records && m != k :: NewerFirst(records[k], records[m])
    ensures Lost(Next(s, Recording(x, name, time, 1)), k)
  {
    var records := s.records[name := RecordedAs(x, s, name, time)];
    RecordedIsRow(x, s, name, time);
    NewestSurvives(records, x.series, Some(1), name, k);
    PassKeepsIt(records, x.series, 1, name, k);
  }

  lemma PassKeepsIt(records: Records, series: string, keepLast: int, latestName: string, k: string)
    requires k in records && k in AfterPass(records, series, keepLast, latestName)
    ensures var r := AfterPass(records, series, keepLast, latestName)[k];
            r == records[k].(latest := r.latest, deleting := r.deleting)
  {
  }

  lemma NeedsRunsInOrder(x: Site) returns (c: Course)
    requires Good(x)
    ensures Taken(c) && c.waived == {RunsInOrder} && c.kU == c.kC == 1 && Lost(c.s, Word(0))
  {
    var a := QuietRounds({RunsInOrder}, 1, 1, x, 1);
    var b := QuietUpload(a, x, 1);
    FirstLetter(1);
    PrunesFirst(x, a.s, 1);
    UploadWaits(x, a.s, Word(1), 1);
    FewWords();
    FirstRecord(x, a.s, 1);
    c := RecordSecond(b, x, -1, Word(0));
  }

  /** The second run is recorded, at whatever time; `k` is the newest record then. */
  lemma RecordSecond(b: Course, x: Site, time: int, k: string) returns (c: Course)
    requires Taken(b) && Good(x) && b.kU == b.kC == 1 && (RunsInOrder in b.waived || 0 < time)
    requires b.s.records.Keys == {Word(0)} && Fresh(x, b.s.records[Word(0)], Word(0), Word(0), 0)
    requires b.s.jobs.Keys == {} && x.series in b.s.pending && b.s.pending[x.series].keepLast == 1
    requires if time < 0 then k == Word(0) && Word(0) !in Archives(x, b.s)
             else time > 0 && k == Word(1) && b.s.pending[x.series].p.stem !in Archives(x, b.s)
    ensures Taken(c) && c == b.(run := c.run, s := c.s) && Lost(c.s, k)
  {
    FewWords();
    RecordedIsRow(x, b.s, Word(1), time);
    RecordingEnabled(b.waived, x, b.s, Word(1), time, 1);
    KeepsNewest(x, b.s, Word(1), time, k);
    c := Then(b, Recording(x, Word(1), time, 1));
  }

  lemma EarlyName(stem: string)
    requires stem == "B"
    ensures TrimSpace(stem) != "" && ArchiveAfter(Word(0), stem) && stem != Word(0)
  {
    assert (stem + ".tgz")[0] == 'B' && (Word(0) + ".tgz")[0] == 'a' && Word(0)[0] == 'a';
    assert TrimLeft(stem, SPACES) == stem;
  }

  lemma NeedsArchivesInOrder(x: Site) returns (c: Course)
    requires Good(x)
    ensures Taken(c) && c.waived == {ArchivesInOrder} && c.kU == c.kC == 1 && Lost(c.s, Word(1))
  {
    var stem := "B";
    var a := QuietRounds({ArchivesInOrder}, 1, 1, x, 1);
    EarlyName(stem);
    FewWords();
    FirstRecord(x, a.s, 1);
    PrunesItself(stem);
    var b := Uploads(a, x, stem);
    c := RecordSecond(b, x, 1, Word(1));
  }

  lemma PrunesItself(stem: string)
    requires ArchiveAfter(Word(0), stem)
    ensures stem in Victims({Word(0)} + {stem}, 1)
  {
    assert Word(0) in Preceding(ArchiveAfter, {Word(0)} + {stem}, stem);
  }

  // ---------------------------------------------------------------- what the numbers and the guards mean

  lemma ASite() returns (x: Site)
    ensures Good(x)
  {
    x := Site("source", "s");
    var path := BackendPathOf(x.series);
    assert path[0] == 's' && TrimLeft(path, SPACES) == path;
    assert TrimLeft(x.storage, SPACES) == x.storage;
  }

  /** Every assumption is needed: waive any one of them, and there is a run from the start, meeting all
      others, after which an undeleted, ready record has no archive, and none of whose uploads waits. All
      but the waived `SameNumbers` use one `keepLast` for both tiers. */
  lemma EveryGuardIsNeeded(g: Guard) returns (run: seq<Event>, n: string, keepLast: int)
    ensures Admissible({g}, INITIAL, run) && Lost(Reached(INITIAL, run), n)
    ensures g != SameNumbers ==> AllKeeping(run, keepLast, keepLast)
  {
    var x := ASite();
    var c;
    n := Word(0);
    match g {
      case EachRecorded => c := NeedsEachRecorded(x);
      case ArchivesInOrder =>
        c := NeedsArchivesInOrder(x);
        n := Word(1);
      case RunsInOrder => c := NeedsRunsInOrder(x);
      case SameNumbers => c := NeedsSameNumbers(x, 1, 2);
      case OldestOverwritten => c := NeedsOldestOverwritten(x);
      case NoLeftoverJob => c := NeedsNoLeftoverJob(x);
      case OldestDeleted => c := NeedsOldestDeleted(x);
      case HarmlessVanishing => c := NeedsHarmlessVanishing(x);
      case HarmlessReturn => c := NeedsHarmlessReturn(x);
    }
    run, keepLast := c.run, c.kU;
  }

  /** While an upload waits, an undeleted record may already be without its archive. */
  lemma WaitingHasPruned() returns (run: seq<Event>, n: string)
    ensures Admissible({}, INITIAL, run)
    ensures var s := Reached(INITIAL, run);
            && n in s.records && Live(s.records[n]) && s.records[n].succeeded
            && s.records[n].stem !in DirAt(s, s.records[n].backendPath).archives
  {
    var x := ASite();
    var a := QuietRounds({}, 1, 1, x, 1);
    var b := QuietUpload(a, x, 1);
    FirstLetter(1);
    PrunesFirst(x, a.s, 1);
    UploadWaits(x, a.s, Word(1), 1);
    FirstRecord(x, a.s, 1);
    run, n := b.run, Word(0);
  }

  /** A record that was deleted with its archive may be back, ready and succeeded, without it. */
  lemma ReturnedIsLost() returns (run: seq<Event>, n: string)
    ensures Admissible({HarmlessReturn}, INITIAL, run)
    ensures Lost(Reached(INITIAL, run), n) && Reached(INITIAL, run).records[n].succeeded
  {
    var x := ASite();
    var c := NeedsHarmlessReturn(x);
    run, n := c.run, Word(0);
  }

  /** Every waiting upload kept `kU` archives. */
  ghost predicate WaitingKeep(s: State, kU: int) {
    forall series | series in s.pending :: s.pending[series].keepLast == kU
  }

  lemma StepWithin(s: State, e: Event, kU: int, kC: int)
    requires Enabled({SameNumbers}, s, e) && Keeping(e, kU, kC) && WaitingKeep(s, kU) && kC <= kU
    ensures Enabled({}, s, e) && WaitingKeep(Next(s, e), kU)
  {
    forall g: Guard ensures Meets(g, s, e) {
      assert g == SameNumbers || Meets(g, s, e);
    }
  }

  lemma {:induction false} RunWithin(s: State, run: seq<Event>, kU: int, kC: int)
    requires Admissible({SameNumbers}, s, run) && AllKeeping(run, kU, kC) && WaitingKeep(s, kU) && kC <= kU
    ensures Admissible({}, s, run)
    decreases |run|
  {
    if run != [] {
      StepWithin(s, run[0], kU, kC);
      assert forall i | 0 <= i < |run[1..]| :: run[1..][i] == run[i + 1];
      RunWithin(Next(s, run[0]), run[1..], kU, kC);
    }
  }

  ghost predicate NothingLost(run: seq<Event>) {
    forall n :: !Lost(Reached(INITIAL, run), n)
  }

  /** Whether the tiers agree is told by the two configured numbers alone: with uploads that keep `kU`
      archives and recordings that keep `kC` records, no run ever loses the archive of a record exactly
      if `kC` is not above `kU`. */
  lemma TiersAgreeExact(kU: int, kC: int)
    requires 0 < kU && 0 < kC
    ensures (forall run | Admissible({SameNumbers}, INITIAL, run) && AllKeeping(run, kU, kC) :: NothingLost(run))
            <==> kC <= kU
  {
    if kC <= kU {
      forall run | Admissible({SameNumbers}, INITIAL, run) && AllKeeping(run, kU, kC) ensures NothingLost(run) {
        RunWithin(INITIAL, run, kU, kC);
        NothingLostWithin(run);
      }
    } else {
      var x := ASite();
      var c := NeedsSameNumbers(x, kU, kC);
      assert !NothingLost(c.run);
    }
  }

  lemma NothingLostWithin(run: seq<Event>)
    requires Admissible({}, INITIAL, run)
    ensures NothingLost(run)
  {
    forall n ensures !Lost(Reached(INITIAL, run), n) {
      var s := Reached(INITIAL, run);
      if n in s.records && Live(s.records[n]) {
        RestorableThroughout(run, n);
      }
    }
  }
}
