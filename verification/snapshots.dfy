/** Snapshot records of one namespace: how a finished backup is recorded, and how each series is
    cut back to its newest records and given its `Latest` flag
    (controllers/execution_helpers.go, controllers/common.go). */
module Snapshots {
  import opened Options
  import opened Strings
  import opened Ranking

  const CLEANUP_FINALIZER := "dataprotection.archinfra.io/storage-cleanup"

  datatype Snapshot = Snapshot(
    name: string,
    series: string,
    storage: string,
    backendPath: string,
    stem: string,
    checksum: string,
    size: int,
    nativeJob: string,
    createdAt: int,
    startedAt: Option<int>,
    completedAt: Option<int>,
    succeeded: bool,
    ready: bool,
    latest: bool,
    deleting: bool,
    finalizers: set<string>)

  type Records = map<string, Snapshot>

  ghost predicate WellKeyed(records: Records) {
    forall n | n in records :: records[n].name == n
  }

  /** What a record is ordered by: time first, then name. */
  datatype Stamp = Stamp(time: int, name: string)

  function SortTime(s: Snapshot): int {
    if s.completedAt.Some? then s.completedAt.value
    else if s.startedAt.Some? then s.startedAt.value
    else s.createdAt
  }

  function StampOf(s: Snapshot): Stamp {
    Stamp(SortTime(s), s.name)
  }

  predicate After(a: Stamp, b: Stamp) {
    if a.time == b.time then Less(b.name, a.name) else a.time > b.time
  }

  predicate NewerFirst(a: Snapshot, b: Snapshot) {
    After(StampOf(a), StampOf(b))
  }

  /** When a record counts as made: when its run completed, or else when it started, or else when the
      record was created. */
  ghost predicate MadeAt(s: Snapshot, time: int) {
    || s.completedAt == Some(time)
    || (s.completedAt.None? && s.startedAt == Some(time))
    || (s.completedAt.None? && s.startedAt.None? && s.createdAt == time)
  }

  /** A record made later is newer, and of two made at the same time the one with the greater name. */
  lemma NewerFirstExact(a: Snapshot, b: Snapshot, s: int, t: int)
    requires MadeAt(a, s) && MadeAt(b, t)
    ensures NewerFirst(a, b) <==> s > t || (s == t && Less(b.name, a.name))
  {
  }

  lemma AfterStrictTotal(stamps: set<Stamp>)
    ensures StrictTotalOn(After, stamps)
  {
    forall x | x in stamps ensures !After(x, x) {
      LessIrreflexive(x.name);
    }
    forall x, y | x in stamps && y in stamps ensures x == y || After(x, y) || After(y, x) {
      LessTotal(x.name, y.name);
    }
    forall x, y, z | x in stamps && y in stamps && z in stamps && After(x, y) && After(y, z)
      ensures After(x, z)
    {
      if x.time == z.time {
        LessTransitive(z.name, y.name, x.name);
      }
    }
  }

  function Members(records: Records, series: string): set<string> {
    set n | n in records && records[n].series == series
  }

  function Stamps(records: Records, series: string): set<Stamp> {
    set n | n in records && records[n].series == series :: StampOf(records[n])
  }

  /** How many records of its series are newer than `s`. */
  function Newer(records: Records, s: Snapshot): nat {
    Rank(After, Stamps(records, s.series), StampOf(s))
  }

  /** Whether retention spares `s`. */
  predicate Kept(records: Records, keepLast: int, s: Snapshot) {
    keepLast > 0 ==> Newer(records, s) < keepLast
  }

  /** A delete request: it removes a record without finalizers, and marks any other. */
  function Deleted(records: Records, n: string): Records {
    if n !in records then records
    else if records[n].finalizers == {} then records - {n}
    else records[n := records[n].(deleting := true)]
  }

  /** The records after one retention pass over a series, stated by rank alone: neither the
      order in which records are listed nor the sort takes part. */
  function AfterPass(records: Records, series: string, keepLast: int, latestName: string): Records {
    map n | n in records
            && (records[n].series == series && !Kept(records, keepLast, records[n])
                ==> records[n].finalizers != {})
      :: if records[n].series != series then records[n]
         else if Kept(records, keepLast, records[n]) then records[n].(latest := n == latestName)
         else records[n].(deleting := true)
  }

  datatype Artifact = Artifact(stem: string, backendPath: string, checksum: string, size: int)

  /** A finished native Job, as far as its snapshot record carries it. */
  datatype FinishedJob = FinishedJob(name: string, startedAt: Option<int>, completedAt: Option<int>)

  /** The record of `artifact`, written over the earlier record of that name if there is one. */
  function Recorded(records: Records, name: string, series: string, storage: string,
                    job: FinishedJob, artifact: Artifact, now: int): Snapshot {
    var base :=
      if name in records then records[name]
      else Snapshot(name, "", "", "", "", "", 0, "", now, None, None, false, false, false, false, {});
    base.(series := series, storage := storage, backendPath := artifact.backendPath,
          stem := artifact.stem, checksum := artifact.checksum, size := artifact.size,
          nativeJob := job.name, startedAt := job.startedAt, completedAt := job.completedAt,
          succeeded := true, ready := true, latest := true)
  }

  function AfterPersist(records: Records, name: string, series: string, storage: string,
                        job: FinishedJob, artifact: Artifact, keepLast: int, now: int): Records {
    AfterPass(records[name := Recorded(records, name, series, storage, job, artifact, now)],
              series, keepLast, name)
  }

  /** `effectiveSuccessfulKeepLast`: the number that is asked for, if it is positive, and else three. */
  function EffectiveKeepLast(policy: Option<int>): (keep: int)
    ensures keep >= 1
    ensures policy.Some? && policy.value > 0 ==> keep == policy.value
    ensures policy.None? || policy.value <= 0 ==> keep == 3
  {
    if policy.Some? && policy.value > 0 then policy.value else 3
  }

  // ---------------------------------------------------------------- what breaks off

  ghost predicate SameAt(a: Records, b: Records, n: string) {
    (n in a <==> n in b) && (n in a ==> a[n] == b[n])
  }

  /** The records are somewhere on their way through a pass: each is as before it or as after it. */
  ghost predicate Begun(was: Records, mid: Records, series: string, keepLast: int, latestName: string) {
    forall n :: SameAt(mid, was, n) || SameAt(mid, AfterPass(was, series, keepLast, latestName), n)
  }

  /** The records after a recording that may have broken off: nothing is written, or all but the status of
      the record, or the pass has begun. */
  ghost predicate PersistBegun(was: Records, mid: Records, name: string, series: string, storage: string,
                               job: FinishedJob, artifact: Artifact, keepLast: int, now: int) {
    var recorded := Recorded(was, name, series, storage, job, artifact, now);
    || mid == was
    || (name in mid && SameRun(mid[name], recorded) && mid == was[name := mid[name]])
    || Begun(was[name := recorded], mid, series, keepLast, name)
  }

  /** Both differ at most in their status. */
  predicate SameRun(r: Snapshot, recorded: Snapshot) {
    r.(startedAt := recorded.startedAt, completedAt := recorded.completedAt, succeeded := recorded.succeeded,
       ready := recorded.ready, latest := recorded.latest) == recorded
  }

  /** The outage as the steps after the first `n` see it. */
  function Beyond(outage: Option<nat>, n: nat): Option<nat> {
    if outage.Some? && n <= outage.value then Some(outage.value - n) else None
  }

  // ---------------------------------------------------------------- the client and the code

  method OfSeries(list: seq<Snapshot>, series: string) returns (items: seq<Snapshot>)
    requires Distinct(list)
    ensures Distinct(items)
    ensures forall s :: s in items <==> s in list && s.series == series
  {
    items := [];
    for i := 0 to |list|
      invariant Distinct(items)
      invariant forall s :: s in items <==> s in list[..i] && s.series == series
    {
      assert list[i] !in list[..i];
      assert list[..i + 1] == list[..i] + [list[i]];
      if list[i].series == series {
        items := items + [list[i]];
      }
    }
    assert list[..|list|] == list;
  }

  method SortSnapshotsNewestFirst(items: array<Snapshot>)
    requires Distinct(items[..]) && StrictTotalOn(NewerFirst, Elements(items[..]))
    modifies items
    ensures Elements(items[..]) == Elements(old(items[..]))
    ensures Distinct(items[..]) && Ordered(NewerFirst, items[..])
  {
    SliceStable(items, NewerFirst);
  }

  class SnapshotClient {
    var records: Records

    /** The API server lists records in no particular order. */
    method List() returns (items: seq<Snapshot>)
      requires WellKeyed(records)
      ensures Distinct(items) && Elements(items) == records.Values
    {
      items := [];
      var rest := records.Keys;
      while rest != {}
        invariant rest <= records.Keys
        invariant Distinct(items)
        invariant Elements(items) == set n | n in records.Keys - rest :: records[n]
      {
        var n :| n in rest;
        assert records[n] !in items by {
          assert forall x | x in items :: x in Elements(items);
        }
        assert Elements(items + [records[n]]) == Elements(items) + {records[n]};
        assert records.Keys - (rest - {n}) == (records.Keys - rest) + {n};
        items := items + [records[n]];
        rest := rest - {n};
      }
      assert records.Keys - {} == records.Keys;
      assert records.Values == set n | n in records.Keys :: records[n];
    }

    method Delete(n: string)
      modifies this
      ensures records == Deleted(old(records), n)
    {
      if n in records {
        if records[n].finalizers == {} {
          records := records - {n};
        } else {
          records := records[n := records[n].(deleting := true)];
        }
      }
    }

    method SetLatest(n: string, latest: bool)
      requires n in records
      modifies this
      ensures records == old(records)[n := old(records)[n].(latest := latest)]
    {
      records := records[n := records[n].(latest := latest)];
    }

    /** The listed records of a series, filtered and sorted newest first. */
    method SeriesNewestFirst(series: string) returns (items: seq<Snapshot>)
      requires WellKeyed(records)
      ensures Distinct(items)
      ensures SeriesListing(records, series, Elements(items))
      ensures forall i | 0 <= i < |items| :: Newer(records, items[i]) == i
    {
      var list := List();
      items := OfSeries(list, series);
      ListedSeries(records, series, list, items);
      var sorted := new Snapshot[|items|](i requires 0 <= i < |items| => items[i]);
      assert sorted[..] == items;
      SortSnapshotsNewestFirst(sorted);
      items := sorted[..];
      SortedRanks(records, series, items);
    }

    /** One turn of the retention loop. */
    method Settle(snapshot: Snapshot, index: nat, keepLast: int, latestName: string)
      requires snapshot.name in records && records[snapshot.name] == snapshot
      modifies this
      ensures records == Handled(old(records), keepLast, latestName, snapshot, index)
    {
      if keepLast > 0 && index >= keepLast {
        Delete(snapshot.name);
      } else {
        var expected := snapshot.name == latestName;
        if snapshot.latest != expected {
          SetLatest(snapshot.name, expected);
        }
      }
    }

    /** The retention loop over the sorted list, which ends early if a call fails in turn `outage`. */
    method SettleAll(series: string, items: seq<Snapshot>, keepLast: int, latestName: string, outage: Option<nat>)
      returns (turns: nat)
      requires SeriesListing(records, series, Elements(items)) && Distinct(items)
      modifies this
      ensures turns == if outage.Some? && outage.value < |items| then outage.value else |items|
      ensures records == PassedOver(old(records), keepLast, latestName, items, turns)
    {
      for index := 0 to |items|
        invariant records == PassedOver(old(records), keepLast, latestName, items, index)
        invariant outage.Some? ==> index <= outage.value
      {
        if outage == Some(index) {
          return index;
        }
        StillListed(old(records), series, keepLast, latestName, items, index);
        Settle(items[index], index, keepLast, latestName);
      }
      turns := |items|;
    }

    method ReconcileSnapshotSeries(series: string, keepLast: int, latestName: string, outage: Option<nat>)
      returns (ok: bool)
      requires WellKeyed(records)
      modifies this
      ensures outage.None? ==> ok
      ensures ok ==> records == AfterPass(old(records), series, keepLast, latestName)
      ensures Begun(old(records), records, series, keepLast, latestName)
    {
      if outage == Some(0) {
        return false;
      }
      var items := SeriesNewestFirst(series);
      var turns := SettleAll(series, items, keepLast, latestName, Beyond(outage, 1));
      PassedOverBegun(old(records), series, keepLast, latestName, items, turns);
      ok := turns == |items|;
      if ok {
        PassedOverAll(old(records), series, keepLast, latestName, items);
      }
    }

    /** Creating or updating the record, updating its status, and the retention pass. If there is an
        `outage`, it tells in which step a call fails. */
    method PersistSnapshot(name: string, series: string, storage: string, job: FinishedJob,
                           artifact: Artifact, keepLast: int, now: int, outage: Option<nat>)
      returns (ok: bool)
      requires WellKeyed(records)
      modifies this
      ensures outage.None? ==> ok
      ensures ok ==> records == AfterPersist(old(records), name, series, storage, job, artifact, keepLast, now)
      ensures PersistBegun(old(records), records, name, series, storage, job, artifact, keepLast, now)
    {
      if outage == Some(0) {
        return false;
      }
      var snapshot :=
        if name in records then records[name]
        else Snapshot(name, "", "", "", "", "", 0, "", now, None, None, false, false, false, false, {});
      snapshot := snapshot.(series := series, storage := storage, nativeJob := job.name,
        backendPath := artifact.backendPath, stem := artifact.stem,
        checksum := artifact.checksum, size := artifact.size);
      records := records[name := snapshot];
      if outage == Some(1) {
        return false;
      }
      var current := records[name];
      current := current.(succeeded := true, startedAt := job.startedAt, completedAt := job.completedAt,
        ready := true, latest := true);
      records := records[name := current];
      assert records == old(records)[name := Recorded(old(records), name, series, storage, job, artifact, now)];
      ok := ReconcileSnapshotSeries(series, keepLast, name, Beyond(outage, 2));
    }
  }

  // ---------------------------------------------------------------- why the loop meets its spec

  lemma ListedSeries(records: Records, series: string, list: seq<Snapshot>, items: seq<Snapshot>)
    requires WellKeyed(records)
    requires Elements(list) == records.Values
    requires forall s :: s in items <==> s in list && s.series == series
    ensures SeriesListing(records, series, Elements(items))
    ensures StrictTotalOn(NewerFirst, Elements(items))
  {
    forall n | n in records && records[n].series == series
      ensures records[n] in Elements(items)
    {
      assert records[n] in records.Values;
      assert records[n] in Elements(list);
    }
    forall s | s in Elements(items) ensures s.name in records && records[s.name] == s && s.series == series {
      assert s in Elements(list);
    }
    NewerFirstStrictTotal(records, series, Elements(items));
  }

  lemma NewerFirstStrictTotal(records: Records, series: string, items: set<Snapshot>)
    requires SeriesListing(records, series, items)
    ensures StrictTotalOn(NewerFirst, items)
  {
    var stamps := set s | s in items :: StampOf(s);
    AfterStrictTotal(stamps);
    assert forall s | s in items :: StampOf(s) in stamps;
    assert forall s, t | s in items && t in items && StampOf(s) == StampOf(t) :: s == t;
  }

  /** `items` are the records of the series. */
  ghost predicate SeriesListing(records: Records, series: string, items: set<Snapshot>) {
    && (forall s | s in items :: s.name in records && records[s.name] == s && s.series == series)
    && (forall n | n in records && records[n].series == series :: records[n] in items && records[n].name == n)
  }

  lemma SortedRanks(records: Records, series: string, xs: seq<Snapshot>)
    requires SeriesListing(records, series, Elements(xs))
    requires Ordered(NewerFirst, xs)
    ensures forall i | 0 <= i < |xs| :: Newer(records, xs[i]) == i
  {
    var stamps := seq(|xs|, i requires 0 <= i < |xs| => StampOf(xs[i]));
    assert Elements(stamps) == Stamps(records, series) by {
      forall i | 0 <= i < |xs| ensures stamps[i] in Stamps(records, series) {
        assert xs[i] in Elements(xs);
      }
      forall t | t in Stamps(records, series) ensures t in Elements(stamps) {
        var n :| n in records && records[n].series == series && StampOf(records[n]) == t;
        assert records[n] in Elements(xs);
        var i :| 0 <= i < |xs| && xs[i] == records[n];
        assert stamps[i] == t;
      }
    }
    forall i | 0 <= i < |xs| ensures Newer(records, xs[i]) == i {
      AfterStrictTotal(Elements(stamps));
      RankIsIndex(After, stamps, i);
      assert xs[i] in Elements(xs);
    }
  }

  /** What the pass makes of one record, found at index `i` of the sorted list. */
  ghost function Handled(records: Records, keepLast: int, latestName: string, s: Snapshot, i: nat): Records {
    if 0 < keepLast <= i then Deleted(records, s.name)
    else if s.latest == (s.name == latestName) then records
    else records[s.name := s.(latest := s.name == latestName)]
  }

  /** The records once the first `i` of the sorted list have been handled. */
  ghost function PassedOver(was: Records, keepLast: int, latestName: string, xs: seq<Snapshot>, i: nat): Records
    requires i <= |xs|
  {
    if i == 0 then was
    else Handled(PassedOver(was, keepLast, latestName, xs, i - 1), keepLast, latestName, xs[i - 1], i - 1)
  }

  ghost predicate NamesDiffer(xs: seq<Snapshot>, n: string, i: nat)
    requires i <= |xs|
  {
    forall j | 0 <= j < i :: xs[j].name != n
  }

  lemma {:induction false} Untouched(was: Records, keepLast: int, latestName: string, xs: seq<Snapshot>,
                                     i: nat, n: string)
    requires i <= |xs| && NamesDiffer(xs, n, i)
    ensures var now := PassedOver(was, keepLast, latestName, xs, i);
            (n in now <==> n in was) && (n in was ==> now[n] == was[n])
  {
    if i > 0 {
      Untouched(was, keepLast, latestName, xs, i - 1, n);
    }
  }

  lemma {:induction false} Touched(was: Records, keepLast: int, latestName: string, xs: seq<Snapshot>,
                                   i: nat, j: nat)
    requires j < i <= |xs|
    requires forall k | 0 <= k < |xs| :: xs[k].name in was && was[xs[k].name] == xs[k]
    requires Distinct(xs)
    ensures var now, s := PassedOver(was, keepLast, latestName, xs, i), xs[j];
            if 0 < keepLast <= j then
              if s.finalizers == {} then s.name !in now
              else s.name in now && now[s.name] == s.(deleting := true)
            else s.name in now && now[s.name] == s.(latest := s.name == latestName)
  {
    if j == i - 1 {
      assert NamesDiffer(xs, xs[j].name, j);
      Untouched(was, keepLast, latestName, xs, j, xs[j].name);
    } else {
      Touched(was, keepLast, latestName, xs, i - 1, j);
      assert xs[i - 1].name != xs[j].name by {
        assert xs[i - 1] != xs[j];
      }
    }
  }

  lemma StillListed(was: Records, series: string, keepLast: int, latestName: string, xs: seq<Snapshot>, i: nat)
    requires i < |xs|
    requires SeriesListing(was, series, Elements(xs)) && Distinct(xs)
    ensures var now := PassedOver(was, keepLast, latestName, xs, i);
            xs[i].name in now && now[xs[i].name] == xs[i]
  {
    forall k | 0 <= k < |xs| ensures xs[k].name in was && was[xs[k].name] == xs[k] {
      assert xs[k] in Elements(xs);
    }
    Untouched(was, keepLast, latestName, xs, i, xs[i].name);
  }

  lemma PassedOverAll(was: Records, series: string, keepLast: int, latestName: string, xs: seq<Snapshot>)
    requires SeriesListing(was, series, Elements(xs))
    requires Distinct(xs)
    requires forall i | 0 <= i < |xs| :: Newer(was, xs[i]) == i
    ensures PassedOver(was, keepLast, latestName, xs, |xs|) == AfterPass(was, series, keepLast, latestName)
  {
    forall n
      ensures SameAt(PassedOver(was, keepLast, latestName, xs, |xs|), AfterPass(was, series, keepLast, latestName), n)
    {
      PassedOverAt(was, series, keepLast, latestName, xs, |xs|, n);
    }
    SameEverywhere(PassedOver(was, keepLast, latestName, xs, |xs|), AfterPass(was, series, keepLast, latestName));
  }

  lemma PassedOverBegun(was: Records, series: string, keepLast: int, latestName: string, xs: seq<Snapshot>, i: nat)
    requires i <= |xs| && SeriesListing(was, series, Elements(xs)) && Distinct(xs)
    requires forall i | 0 <= i < |xs| :: Newer(was, xs[i]) == i
    ensures Begun(was, PassedOver(was, keepLast, latestName, xs, i), series, keepLast, latestName)
  {
    forall n
      ensures || SameAt(PassedOver(was, keepLast, latestName, xs, i), was, n)
              || SameAt(PassedOver(was, keepLast, latestName, xs, i), AfterPass(was, series, keepLast, latestName), n)
    {
      PassedOverAt(was, series, keepLast, latestName, xs, i, n);
    }
  }

  lemma SameEverywhere(a: Records, b: Records)
    requires forall n :: SameAt(a, b, n)
    ensures a == b
  {
    forall n | n in a ensures n in b && a[n] == b[n] {
      assert SameAt(a, b, n);
    }
    forall n | n in b ensures n in a {
      assert SameAt(a, b, n);
    }
  }

  /** Each record is as it was until the loop has come to it, and as the pass leaves it from then on. */
  lemma PassedOverAt(was: Records, series: string, keepLast: int, latestName: string, xs: seq<Snapshot>, i: nat,
                     n: string)
    requires i <= |xs| && SeriesListing(was, series, Elements(xs))
    requires Distinct(xs)
    requires forall i | 0 <= i < |xs| :: Newer(was, xs[i]) == i
    ensures var mid := PassedOver(was, keepLast, latestName, xs, i);
            || SameAt(mid, AfterPass(was, series, keepLast, latestName), n)
            || (i < |xs| && SameAt(mid, was, n))
  {
    forall k | 0 <= k < |xs| ensures xs[k].name in was && was[xs[k].name] == xs[k] && xs[k].series == series {
      assert xs[k] in Elements(xs);
    }
    assert n in was && was[n].series == series ==> was[n] in Elements(xs);
    if j: nat :| j < i && xs[j].name == n {
      Touched(was, keepLast, latestName, xs, i, j);
    } else {
      Untouched(was, keepLast, latestName, xs, i, n);
    }
  }
}
