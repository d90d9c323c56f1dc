/** What one retention pass guarantees, whatever the records were before
    (controllers/execution_helpers.go, reconcileSnapshotSeries). */
module Retention {
  import opened Ranking
  import opened Snapshots

  function KeptNames(records: Records, series: string, keepLast: int): set<string> {
    set n | n in records && records[n].series == series && Kept(records, keepLast, records[n])
  }

  /** The ranks of names and the ranks of stamps count the same thing. */
  lemma StampsOfNames(records: Records, series: string, names: set<string>)
    requires WellKeyed(records)
    requires names <= Members(records, series)
    ensures |set n | n in names :: StampOf(records[n])| == |names|
    decreases names
  {
    if names != {} {
      var n :| n in names;
      StampsOfNames(records, series, names - {n});
      assert (set m | m in names :: StampOf(records[m]))
          == (set m | m in names - {n} :: StampOf(records[m])) + {StampOf(records[n])};
    }
  }

  /** A pass keeps exactly the `min(n, k)` newest records of the series and no other: everything
      it keeps is newer than everything it deletes, whatever is kept stays as undeleted as it was,
      and other series are not touched. */
  lemma RetentionExact(records: Records, series: string, keepLast: int, latestName: string)
    requires WellKeyed(records) && keepLast > 0
    ensures var kept, members := KeptNames(records, series, keepLast), Members(records, series);
            && |kept| == Min(|members|, keepLast)
            && (forall m, n | m in kept && n in members - kept :: NewerFirst(records[m], records[n]))
    ensures var kept, members := KeptNames(records, series, keepLast), Members(records, series);
            var after := AfterPass(records, series, keepLast, latestName);
            && after.Keys <= records.Keys
            && (forall n | n in kept :: n in after && after[n].deleting == records[n].deleting)
            && (forall n | n in members - kept ::
                  if records[n].finalizers == {} then n !in after
                  else n in after && after[n] == records[n].(deleting := true))
            && (forall n | n in kept :: after[n] == records[n].(latest := n == latestName))
            && (forall n | n in records && n !in members :: n in after && after[n] == records[n])
  {
    var kept, stamps := KeptNames(records, series, keepLast), Stamps(records, series);
    AfterStrictTotal(stamps);
    TopExact(After, stamps, keepLast);
    var top := Top(After, stamps, keepLast);
    assert top == set n | n in kept :: StampOf(records[n]);
    StampsOfNames(records, series, kept);
    StampsOfNames(records, series, Members(records, series));
    assert stamps == set n | n in Members(records, series) :: StampOf(records[n]);
    forall m, n | m in kept && n in Members(records, series) - kept
      ensures NewerFirst(records[m], records[n])
    {
      assert StampOf(records[m]) in top && StampOf(records[n]) in stamps && StampOf(records[n]) !in top;
    }
  }

  /** A pass with the number of a policy leaves as many of the newest records of the series as the policy asks
      for, or three if it asks for none; of the others those without finalizers are gone, and the rest are
      marked. */
  lemma PolicyKeeps(records: Records, series: string, policy: Options.Option<int>, latestName: string)
    returns (kept: set<string>)
    requires WellKeyed(records)
    ensures var members := set n | n in records && records[n].series == series;
            && kept <= members
            && |kept| == Min(|members|, if policy.Some? && policy.value > 0 then policy.value else 3)
            && forall m, n | m in kept && n in members - kept :: NewerFirst(records[m], records[n])
    ensures var after := AfterPass(records, series, EffectiveKeepLast(policy), latestName);
            forall n | n in records && records[n].series == series ::
              if n in kept then n in after && after[n] == records[n].(latest := n == latestName)
              else if records[n].finalizers == {} then n !in after
              else n in after && after[n] == records[n].(deleting := true)
  {
    kept := KeptNames(records, series, EffectiveKeepLast(policy));
    RetentionExact(records, series, EffectiveKeepLast(policy), latestName);
    assert Members(records, series) == set n | n in records && records[n].series == series;
  }

  /** The newest record of a series is never deleted, because `EffectiveKeepLast` is positive. */
  lemma NewestSurvives(records: Records, series: string, policy: Options.Option<int>, latestName: string, n: string)
    requires WellKeyed(records)
    requires n in Members(records, series)
    requires forall m | m in Members(records, series) && m != n :: NewerFirst(records[n], records[m])
    ensures var after := AfterPass(records, series, EffectiveKeepLast(policy), latestName);
            n in after && after[n].deleting == records[n].deleting
  {
    var stamps := Stamps(records, series);
    AfterStrictTotal(stamps);
    forall t | t in stamps ensures !After(t, StampOf(records[n])) {
      var m :| m in Members(records, series) && StampOf(records[m]) == t;
      assert StampOf(records[n]) in stamps;
      if m != n {
        assert After(StampOf(records[n]), t);
        assert After(t, StampOf(records[n])) ==> After(t, t);
      }
    }
    assert Preceding(After, stamps, StampOf(records[n])) == {};
  }

  /** `after` is `records` with some records that are not kept taken out; stamps are as before. */
  ghost predicate Thinned(records: Records, after: Records, series: string, keepLast: int) {
    && (forall n | n in after :: n in records && after[n].series == records[n].series
                                 && StampOf(after[n]) == StampOf(records[n]))
    && (forall n | n in KeptNames(records, series, keepLast) :: n in after)
  }

  /** Taking out records that are not kept does not change the rank of those that are. */
  lemma ThinnedRanks(records: Records, after: Records, series: string, keepLast: int, n: string)
    requires Thinned(records, after, series, keepLast)
    requires keepLast > 0 && n in Members(after, series)
    ensures Kept(after, keepLast, after[n]) <==> Kept(records, keepLast, records[n])
    ensures Kept(records, keepLast, records[n]) ==> Newer(after, after[n]) == Newer(records, records[n])
  {
    var s, t := Stamps(records, series), Stamps(after, series);
    AfterStrictTotal(s);
    forall x | x in t ensures x in s {
      var m :| m in after && after[m].series == series && StampOf(after[m]) == x;
      assert StampOf(records[m]) == x;
    }
    forall x | x in Top(After, s, keepLast) ensures x in t {
      var m :| m in records && records[m].series == series && StampOf(records[m]) == x;
      assert m in KeptNames(records, series, keepLast);
      assert StampOf(after[m]) == x;
    }
    TopStable(After, s, t, keepLast);
    assert StampOf(after[n]) in t && StampOf(after[n]) in s;
    assert Kept(records, keepLast, records[n]) <==> StampOf(records[n]) in Top(After, s, keepLast);
    assert Kept(after, keepLast, after[n]) <==> StampOf(after[n]) in Top(After, t, keepLast);
  }

  lemma PassThins(records: Records, series: string, keepLast: int, latestName: string)
    requires WellKeyed(records)
    ensures Thinned(records, AfterPass(records, series, keepLast, latestName), series, keepLast)
    ensures WellKeyed(AfterPass(records, series, keepLast, latestName))
  {
  }

  /** Whether a record is kept is the same question before and after the pass. */
  lemma KeptStable(records: Records, series: string, keepLast: int, latestName: string, n: string)
    requires WellKeyed(records)
    requires n in Members(AfterPass(records, series, keepLast, latestName), series)
    ensures var after := AfterPass(records, series, keepLast, latestName);
            Kept(after, keepLast, after[n]) <==> Kept(records, keepLast, records[n])
  {
    if keepLast > 0 {
      PassThins(records, series, keepLast, latestName);
      ThinnedRanks(records, AfterPass(records, series, keepLast, latestName), series, keepLast, n);
    }
  }

  /** The records of a series that no delete has reached and that carry the flag. */
  function LiveLatest(records: Records, series: string): set<string> {
    set n | n in records && records[n].series == series && records[n].latest && !records[n].deleting
  }

  /** After a pass the flag is on `latestName` alone, provided that record is kept and undeleted,
      and on nothing otherwise. */
  lemma LatestExact(records: Records, series: string, keepLast: int, latestName: string)
    requires WellKeyed(records)
    ensures LiveLatest(AfterPass(records, series, keepLast, latestName), series)
         == if latestName in KeptNames(records, series, keepLast) && !records[latestName].deleting
            then {latestName} else {}
  {
  }

  /** A second identical pass finds nothing to do: it leaves the records as they are, every flag
      it compares is already right, and everything it deletes is already being deleted. */
  lemma PassIdempotent(records: Records, series: string, keepLast: int, latestName: string)
    requires WellKeyed(records)
    ensures var after := AfterPass(records, series, keepLast, latestName);
            && AfterPass(after, series, keepLast, latestName) == after
            && (forall n | n in Members(after, series) ::
                  if Kept(after, keepLast, after[n]) then after[n].latest == (n == latestName)
                  else after[n].deleting)
  {
    var after := AfterPass(records, series, keepLast, latestName);
    forall n | n in Members(after, series) ensures Settled(after, keepLast, latestName, n) {
      KeptStable(records, series, keepLast, latestName, n);
    }
    SettledStays(after, series, keepLast, latestName);
  }

  ghost predicate Settled(records: Records, keepLast: int, latestName: string, n: string)
    requires n in records
  {
    if Kept(records, keepLast, records[n]) then records[n].latest == (n == latestName)
    else records[n].deleting && records[n].finalizers != {}
  }

  lemma SettledStays(records: Records, series: string, keepLast: int, latestName: string)
    requires forall n | n in Members(records, series) :: Settled(records, keepLast, latestName, n)
    ensures AfterPass(records, series, keepLast, latestName) == records
  {
    var after := AfterPass(records, series, keepLast, latestName);
    forall n ensures SameAt(after, records, n) {
      if n in Members(records, series) {
        assert Settled(records, keepLast, latestName, n);
      }
    }
    SameEverywhere(after, records);
  }

  /** A pass that broke off, with every record as before it or as after it, has thinned the series. */
  lemma BegunThins(was: Records, mid: Records, series: string, keepLast: int, latestName: string)
    requires WellKeyed(was) && Begun(was, mid, series, keepLast, latestName)
    ensures Thinned(was, mid, series, keepLast) && WellKeyed(mid)
  {
    forall n | n in mid ensures n in was && mid[n].series == was[n].series && StampOf(mid[n]) == StampOf(was[n]) {
      assert SameAt(mid, was, n) || SameAt(mid, AfterPass(was, series, keepLast, latestName), n);
    }
    forall n | n in KeptNames(was, series, keepLast) ensures n in mid {
      assert SameAt(mid, was, n) || SameAt(mid, AfterPass(was, series, keepLast, latestName), n);
    }
  }

  /** Taken up again, it comes to the same end. */
  lemma BegunEnds(was: Records, mid: Records, series: string, keepLast: int, latestName: string)
    requires WellKeyed(was) && keepLast > 0 && Begun(was, mid, series, keepLast, latestName)
    ensures AfterPass(mid, series, keepLast, latestName) == AfterPass(was, series, keepLast, latestName)
  {
    BegunThins(was, mid, series, keepLast, latestName);
    forall n
      ensures SameAt(AfterPass(mid, series, keepLast, latestName), AfterPass(was, series, keepLast, latestName), n)
    {
      assert SameAt(mid, was, n) || SameAt(mid, AfterPass(was, series, keepLast, latestName), n);
      if n in mid && mid[n].series == series {
        ThinnedRanks(was, mid, series, keepLast, n);
      }
    }
    SameEverywhere(AfterPass(mid, series, keepLast, latestName), AfterPass(was, series, keepLast, latestName));
  }

  /** The same if the record named last is gone by then and is written once more. */
  lemma GoneEnds(was: Records, mid: Records, series: string, keepLast: int, n: string, r: Snapshot)
    requires WellKeyed(was) && keepLast > 0 && Begun(was, mid, series, keepLast, n)
    requires n in was && was[n].series == series && n !in mid
    requires r.series == series && r.finalizers == {} && StampOf(r) == StampOf(was[n])
    ensures AfterPass(mid[n := r], series, keepLast, n) == AfterPass(was, series, keepLast, n)
  {
    var again := mid[n := r];
    BegunThins(was, mid, series, keepLast, n);
    assert SameAt(mid, AfterPass(was, series, keepLast, n), n);
    forall m ensures SameAt(AfterPass(again, series, keepLast, n), AfterPass(was, series, keepLast, n), m) {
      assert SameAt(mid, was, m) || SameAt(mid, AfterPass(was, series, keepLast, n), m);
      if m in again && again[m].series == series {
        ThinnedRanks(was, again, series, keepLast, m);
      }
    }
    SameEverywhere(AfterPass(again, series, keepLast, n), AfterPass(was, series, keepLast, n));
  }

  /** A recording may break off anywhere: once the next reconcile has repeated it, the records are as if it
      had gone through at once, at its own time if it had written anything. */
  lemma PersistRetried(was: Records, mid: Records, name: string, series: string, storage: string, job: FinishedJob,
                       artifact: Artifact, keepLast: int, now: int, later: int)
    requires WellKeyed(was) && keepLast > 0 && job.completedAt.Some?
    requires PersistBegun(was, mid, name, series, storage, job, artifact, keepLast, now)
    ensures AfterPersist(mid, name, series, storage, job, artifact, keepLast, later)
         == AfterPersist(was, name, series, storage, job, artifact, keepLast, if mid == was then later else now)
  {
    var recorded := Recorded(was, name, series, storage, job, artifact, now);
    var whole := was[name := recorded];
    if mid != was && Begun(whole, mid, series, keepLast, name) {
      assert SameAt(mid, whole, name) || SameAt(mid, AfterPass(whole, series, keepLast, name), name);
      if name in mid {
        assert mid[name := Recorded(mid, name, series, storage, job, artifact, later)] == mid;
        BegunEnds(whole, mid, series, keepLast, name);
      } else {
        GoneEnds(whole, mid, series, keepLast, name, Recorded(mid, name, series, storage, job, artifact, later));
      }
    } else if mid != was {
      assert Recorded(mid, name, series, storage, job, artifact, later) == recorded;
      assert mid[name := recorded] == whole;
    }
  }

  /** The record that a recording leaves tells the run, its artifact and where it lies, as succeeded and ready;
      its finalizers and its time of creation stay, if it was there before. */
  lemma PersistExact(records: Records, name: string, series: string, storage: string, job: FinishedJob,
                     artifact: Artifact, keepLast: int, now: int)
    requires WellKeyed(records)
    ensures var after := AfterPersist(records, name, series, storage, job, artifact, keepLast, now);
            name in after ==>
              var r, was := after[name], name in records;
              && r.name == name && r.series == series && r.storage == storage
              && r.stem == artifact.stem && r.backendPath == artifact.backendPath
              && r.checksum == artifact.checksum && r.size == artifact.size
              && r.nativeJob == job.name && r.startedAt == job.startedAt && r.completedAt == job.completedAt
              && r.succeeded && r.ready
              && r.createdAt == (if was then records[name].createdAt else now)
              && r.finalizers == (if was then records[name].finalizers else {})
  {
  }

  /** If fewer than `keepLast` other records of the series are newer, the record stays, as undeleted as it was,
      and has the flag. */
  lemma PersistStays(records: Records, name: string, series: string, storage: string, job: FinishedJob,
                     artifact: Artifact, keepLast: int, now: int)
    requires WellKeyed(records) && keepLast > 0
    requires var r := Recorded(records, name, series, storage, job, artifact, now);
             |set m | m in records && m != name && records[m].series == series && NewerFirst(records[m], r)| < keepLast
    ensures var after := AfterPersist(records, name, series, storage, job, artifact, keepLast, now);
            && name in after && after[name].latest
            && after[name].deleting == (name in records && records[name].deleting)
  {
    var r := Recorded(records, name, series, storage, job, artifact, now);
    var whole := records[name := r];
    var newer := set m | m in records && m != name && records[m].series == series && NewerFirst(records[m], r);
    StampsOfNames(records, series, newer);
    forall t | t in Preceding(After, Stamps(whole, series), StampOf(r))
      ensures t in set m | m in newer :: StampOf(records[m])
    {
      var m :| m in whole && whole[m].series == series && StampOf(whole[m]) == t;
      AfterStrictTotal({t});
      assert m != name && m in newer;
    }
    SubsetSize(Preceding(After, Stamps(whole, series), StampOf(r)), set m | m in newer :: StampOf(records[m]));
  }

  /** Recording a backup leaves at most one undeleted record of its series flagged, whatever the
      flags were before, and that one is the backup just recorded. */
  lemma PersistLatest(records: Records, name: string, series: string, storage: string,
                      job: FinishedJob, artifact: Artifact, keepLast: int, now: int)
    requires WellKeyed(records)
    ensures LiveLatest(AfterPersist(records, name, series, storage, job, artifact, keepLast, now), series) <= {name}
    ensures var after := AfterPersist(records, name, series, storage, job, artifact, keepLast, now);
            forall other | other != series :: LiveLatest(after, other) <= LiveLatest(records, other)
  {
    var recorded := records[name := Recorded(records, name, series, storage, job, artifact, now)];
    LatestExact(recorded, series, keepLast, name);
  }

  /** The flag marks the newest record of the series exactly when the backup just recorded is the
      newest one; a Job seen again after a later one has been recorded takes the flag back. */
  lemma LatestIsNewestExact(records: Records, name: string, series: string, storage: string,
                            job: FinishedJob, artifact: Artifact, keepLast: int, now: int, n: string)
    requires WellKeyed(records) && keepLast > 0
    requires var after := AfterPersist(records, name, series, storage, job, artifact, keepLast, now);
             n in LiveLatest(after, series)
    ensures var recorded := records[name := Recorded(records, name, series, storage, job, artifact, now)];
            var after := AfterPersist(records, name, series, storage, job, artifact, keepLast, now);
            n == name && (Newer(after, after[n]) == 0 <==> Newer(recorded, recorded[name]) == 0)
  {
    var recorded := records[name := Recorded(records, name, series, storage, job, artifact, now)];
    LatestExact(recorded, series, keepLast, name);
    PassThins(recorded, series, keepLast, name);
    ThinnedRanks(recorded, AfterPass(recorded, series, keepLast, name), series, keepLast, name);
  }

  /** A pass over no more records than it keeps deletes none of them, nor does one without a number. */
  lemma FewAreKept(records: Records, series: string, keepLast: int, latestName: string)
    requires |Members(records, series)| <= keepLast || keepLast <= 0
    ensures AfterPass(records, series, keepLast, latestName)
         == map n | n in records ::
              if records[n].series == series then records[n].(latest := n == latestName) else records[n]
  {
    forall n | n in Members(records, series) ensures Kept(records, keepLast, records[n]) {
      var stamps, x := Stamps(records, series), StampOf(records[n]);
      AfterStrictTotal({x});
      var stampOf := (m: string) => if m in records then StampOf(records[m]) else x;
      forall t | t in stamps ensures exists m | m in Members(records, series) :: stampOf(m) == t {
        var m :| m in records && records[m].series == series && StampOf(records[m]) == t;
        assert m in Members(records, series) && stampOf(m) == t;
      }
      ImageSize(stampOf, Members(records, series), stamps);
      assert x in stamps && x !in Preceding(After, stamps, x);
      SubsetSize(Preceding(After, stamps, x), stamps - {x});
    }
  }
}
