/** `latest.json` against the snapshots present, over whole runs of the upload and cleanup scripts
    (controllers/runtime_helpers.go, controllers/snapshot_controller.go). */
module LatestJson {
  import opened Options
  import opened Strings
  import opened Ranking
  import opened NfsBackend

  predicate DotFree(s: string) {
    Free(s, '.')
  }

  /** Every archive has its checksum and its metadata, and the metadata names it. */
  ghost predicate Consistent(d: Dir) {
    && d.archives.Keys == d.metas.Keys == d.sums.Keys
    && forall s | s in d.metas :: DotFree(s) && d.metas[s].snapshot == s
  }

  /** `latest.json` is the metadata of the greatest-named snapshot, and absent iff there is none. */
  ghost predicate LatestAgrees(d: Dir) {
    d.latest == NewestOf(d.metas)
  }

  ghost predicate WellFormed(p: Package) {
    DotFree(p.stem) && p.meta.snapshot == p.stem
  }

  /** No archive present sorts after `stem`. */
  ghost predicate SortsLast(d: Dir, stem: string) {
    forall t | t in d.archives :: t == stem || ArchiveAfter(stem, t)
  }

  /** Which of two stems sorts first does not depend on the suffix, because stems have no dot. */
  lemma {:induction false} DotSuffixOrder(a: string, b: string, x: string, y: string)
    requires DotFree(a) && DotFree(b)
    requires x != [] && y != [] && x[0] == y[0] == '.'
    ensures Less(a + x, b + x) <==> Less(a + y, b + y)
  {
    if a == b {
      LessIrreflexive(a + x);
      LessIrreflexive(a + y);
    } else if a == [] {
      assert a + x == x && a + y == y;
    } else if b == [] {
      assert b + x == x && b + y == y;
    } else if a[0] == b[0] {
      assert a == [a[0]] + a[1..] && b == [b[0]] + b[1..];
      assert (a + x)[1..] == a[1..] + x && (b + x)[1..] == b[1..] + x;
      assert (a + y)[1..] == a[1..] + y && (b + y)[1..] == b[1..] + y;
      DotSuffixOrder(a[1..], b[1..], x, y);
    }
  }

  lemma SameOrder(a: string, b: string)
    requires DotFree(a) && DotFree(b)
    ensures ArchiveAfter(a, b) <==> MetaAfter(a, b)
  {
    DotSuffixOrder(b, a, ".tgz", ".metadata.json");
  }

  lemma SameRank(stems: set<string>, s: string)
    requires DotFree(s) && forall t | t in stems :: DotFree(t)
    ensures Rank(ArchiveAfter, stems, s) == Rank(MetaAfter, stems, s)
  {
    forall t | t in stems ensures ArchiveAfter(t, s) <==> MetaAfter(t, s) {
      SameOrder(t, s);
    }
    assert Preceding(ArchiveAfter, stems, s) == Preceding(MetaAfter, stems, s);
  }

  /** Pruning never takes the greatest name. */
  lemma PruneSparesFirst(stems: set<string>, keepLast: int, s: string)
    requires s in stems
    ensures Rank(ArchiveAfter, stems, s) == 0 ==> s !in Victims(stems, keepLast)
    ensures Rank(ArchiveAfter, stems, s) > 0 ==>
              exists t :: t in stems - Victims(stems, keepLast) && ArchiveAfter(t, s)
  {
    if Rank(ArchiveAfter, stems, s) > 0 {
      var t := FirstOfAll(stems, s);
      assert t !in Victims(stems, keepLast);
    }
  }

  /** The greatest name sorts after any other. */
  lemma FirstOfAll(stems: set<string>, s: string) returns (t: string)
    requires s in stems && Rank(ArchiveAfter, stems, s) > 0
    ensures t in stems && Rank(ArchiveAfter, stems, t) == 0 && ArchiveAfter(t, s)
  {
    ArchiveOrder(stems);
    TopExact(ArchiveAfter, stems, 1);
    assert |Top(ArchiveAfter, stems, 1)| == 1;
    t :| t in Top(ArchiveAfter, stems, 1);
    assert s !in Top(ArchiveAfter, stems, 1);
  }

  lemma UploadConsistent(d: Dir, p: Package, keepLast: int, listing: Option<set<string>>)
    requires Consistent(d) && WellFormed(p)
    ensures Consistent(AfterUpload(d, p, keepLast, listing))
    ensures AfterUpload(d, p, keepLast, listing).metas.Keys
         == d.archives.Keys + {p.stem} - Victims(Listed(d.archives.Keys + {p.stem}, listing), keepLast)
  {
    var c := Copied(d, p);
    assert c.archives.Keys == c.metas.Keys == c.sums.Keys == d.archives.Keys + {p.stem};
  }

  /** Among the names left, the given one is the newest exactly when nothing present sorted after it. */
  lemma NewestLeft(all: set<string>, left: set<string>, keepLast: int, s: string)
    requires s in all && (forall t | t in all :: DotFree(t))
    requires all - Victims(all, keepLast) <= left <= all
    ensures left != {}
    ensures (s in left && NewestMeta(left) == s) <==> (forall t | t in all :: t == s || ArchiveAfter(s, t))
  {
    ArchiveOrder(all);
    PruneSparesFirst(all, keepLast, s);
    if forall t | t in all :: t == s || ArchiveAfter(s, t) {
      assert forall t | t in all && ArchiveAfter(t, s) && t != s :: ArchiveAfter(s, s);
      assert Preceding(ArchiveAfter, all, s) == {};
      assert Preceding(ArchiveAfter, left, s) == {};
      SameRank(left, s);
      NewestUnique(left, s);
    } else {
      var u :| u in all && u != s && !ArchiveAfter(s, u);
      assert u in Preceding(ArchiveAfter, all, s);
      var t :| t in left && ArchiveAfter(t, s);
      SameOrder(t, s);
      assert t in Preceding(MetaAfter, left, s);
    }
  }

  /** What an upload leaves of any snapshot: it takes the three files of those that are listed and have
      `keepLast` listed archives after them, and no other; the new snapshot has the files of the package, and
      the others have theirs as before. */
  lemma UploadExact(d: Dir, p: Package, keepLast: int, listing: Option<set<string>>, stem: string)
    ensures var after, all := AfterUpload(d, p, keepLast, listing), d.archives.Keys + {p.stem};
            var listed := set t | t in all && (listing.None? || t in listing.value);
            var removed := && keepLast > 0 && stem in listed
                           && keepLast <= |set t | t in listed && ArchiveAfter(t, stem)|;
            && (stem in after.archives <==> stem in all && !removed)
            && (stem in after.sums <==> (stem in d.sums || stem == p.stem) && !removed)
            && (stem in after.metas <==> (stem in d.metas || stem == p.stem) && !removed)
            && (stem in after.archives ==> after.archives[stem] == if stem == p.stem then p.tgz else d.archives[stem])
            && (stem in after.sums ==> after.sums[stem] == if stem == p.stem then p.sum else d.sums[stem])
            && (stem in after.metas ==> after.metas[stem] == if stem == p.stem then p.meta else d.metas[stem])
            && after.latest == Some(p.meta)
  {
    var all := d.archives.Keys + {p.stem};
    var listed := set t | t in all && (listing.None? || t in listing.value);
    assert Copied(d, p).archives.Keys == all;
    assert Listed(all, listing) == listed;
    assert Preceding(ArchiveAfter, listed, stem) == set t | t in listed && ArchiveAfter(t, stem);
  }

  /** A cleanup removes the three files of the snapshot and no other, and `latest.json` becomes the metadata of
      the listed snapshot whose metadata file sorts last, or goes if none is listed. */
  lemma CleanupExact(d: Dir, stem: string, listing: Option<set<string>>)
    ensures var after := AfterCleanup(d, stem, listing);
            var listed := set t | t in d.metas && t != stem && (listing.None? || t in listing.value);
            && after.archives == d.archives - {stem} && after.sums == d.sums - {stem} && after.metas == d.metas - {stem}
            && (listed == {} <==> after.latest == None)
            && (listed != {} ==>
                  exists s :: s in listed && after.latest == Some(d.metas[s])
                              && forall t | t in listed && t != s :: MetaAfter(s, t))
  {
    var listed := set t | t in d.metas && t != stem && (listing.None? || t in listing.value);
    var metas := ListedMetas((d.metas - {stem}), listing);
    assert metas.Keys == listed;
    if listed != {} {
      var s := NewestMeta(listed);
      MetaOrder(listed);
      forall t | t in listed && t != s ensures MetaAfter(s, t) {
        assert t !in Preceding(MetaAfter, listed, s);
      }
    }
  }

  /** An upload leaves `latest.json` right exactly when no snapshot already present sorts after
      the one it uploads, whatever the listing missed. */
  lemma UploadLatestExact(d: Dir, p: Package, keepLast: int, listing: Option<set<string>>)
    requires Consistent(d) && WellFormed(p)
    ensures LatestAgrees(AfterUpload(d, p, keepLast, listing)) <==> SortsLast(d, p.stem)
  {
    UploadConsistent(d, p, keepLast, listing);
    var all, left := d.archives.Keys + {p.stem}, AfterUpload(d, p, keepLast, listing).metas.Keys;
    FewerVictims(all, Listed(all, listing), keepLast);
    NewestLeft(all, left, keepLast, p.stem);
    assert SortsLast(d, p.stem) <==> forall t | t in all :: t == p.stem || ArchiveAfter(p.stem, t);
  }

  /** The archive an upload copied is still there when the script ends exactly when it is not listed,
      or fewer than `keepLast` listed archives sort after it, or pruning is off. */
  lemma UploadSurvivesExact(d: Dir, p: Package, keepLast: int, listing: Option<set<string>>)
    ensures var after := AfterUpload(d, p, keepLast, listing);
            && (p.stem in after.archives
                <==> || keepLast <= 0 || p.stem !in Listed({p.stem}, listing)
                     || |set t | t in Listed(d.archives.Keys, listing) && ArchiveAfter(t, p.stem)| < keepLast)
            && (p.stem in after.archives ==> after.archives[p.stem] == p.tgz)
  {
    ArchiveOrder({p.stem});
    assert Preceding(ArchiveAfter, Listed(Copied(d, p).archives.Keys, listing), p.stem)
        == set t | t in Listed(d.archives.Keys, listing) && ArchiveAfter(t, p.stem);
  }

  /** An upload whose listing missed something leaves the same archives as a complete one exactly when
      the pruning had the same victims. */
  lemma UploadPrunesExact(d: Dir, p: Package, keepLast: int, listing: Option<set<string>>)
    ensures var all := d.archives.Keys + {p.stem};
            AfterUpload(d, p, keepLast, listing).archives == AfterUpload(d, p, keepLast, None).archives
            <==> Victims(Listed(all, listing), keepLast) == Victims(all, keepLast)
  {
    var all := d.archives.Keys + {p.stem};
    assert Copied(d, p).archives.Keys == all;
    FewerVictims(all, Listed(all, listing), keepLast);
    assert AfterUpload(d, p, keepLast, listing).archives.Keys == all - Victims(Listed(all, listing), keepLast);
    assert AfterUpload(d, p, keepLast, None).archives.Keys == all - Victims(all, keepLast);
  }

  /** A cleanup removes the three files and no other. It leaves `latest.json` right exactly when its
      listing has the greatest-named snapshot that is left, if one is left. */
  lemma CleanupLatest(d: Dir, stem: string, listing: Option<set<string>>)
    requires Consistent(d)
    ensures var after := AfterCleanup(d, stem, listing);
            && Consistent(after)
            && stem !in after.archives && stem !in after.sums && stem !in after.metas
            && after.archives == d.archives - {stem} && after.metas == d.metas - {stem}
            && (LatestAgrees(after)
                <==> (after.metas.Keys == {} || NewestMeta(after.metas.Keys) in Listed(after.metas.Keys, listing)))
  {
    var left := d.metas - {stem};
    var listed := ListedMetas(left, listing);
    if left.Keys != {} && NewestMeta(left.Keys) in listed.Keys {
      var s := NewestMeta(left.Keys);
      assert Preceding(MetaAfter, listed.Keys, s) <= Preceding(MetaAfter, left.Keys, s);
      NewestUnique(listed.Keys, s);
    } else if listed.Keys != {} {
      assert left[NewestMeta(left.Keys)].snapshot != left[NewestMeta(listed.Keys)].snapshot;
    }
  }

  // ---------------------------------------------------------------- runs

  /** One run of a script, with what its listing gives. */
  datatype ScriptRun =
    | UploadRun(p: Package, keepLast: int, listing: Option<set<string>>)
    | CleanupRun(stem: string, listing: Option<set<string>>)

  ghost function AfterRun(d: Dir, r: ScriptRun): Dir {
    match r
    case UploadRun(p, keepLast, listing) => AfterUpload(d, p, keepLast, listing)
    case CleanupRun(stem, listing) => AfterCleanup(d, stem, listing)
  }

  ghost function AfterRuns(d: Dir, runs: seq<ScriptRun>): Dir
    decreases |runs|
  {
    if runs == [] then d else AfterRuns(AfterRun(d, runs[0]), runs[1..])
  }

  /** Uploads come with increasing stems; cleanups may name any snapshot, and list everything. */
  ghost predicate Increasing(d: Dir, runs: seq<ScriptRun>)
    decreases |runs|
  {
    runs != [] ==>
      && (runs[0].UploadRun? ==> WellFormed(runs[0].p) && SortsLast(d, runs[0].p.stem))
      && (runs[0].CleanupRun? ==> runs[0].listing == None)
      && Increasing(AfterRun(d, runs[0]), runs[1..])
  }

  /** Over any run of uploads with increasing stems, whatever their listings miss, and cleanups of any
      snapshot, `latest.json` stays the metadata of the greatest-named snapshot present. */
  lemma {:induction false} LatestAgreesOverRuns(d: Dir, runs: seq<ScriptRun>)
    requires Consistent(d) && LatestAgrees(d) && Increasing(d, runs)
    ensures Consistent(AfterRuns(d, runs)) && LatestAgrees(AfterRuns(d, runs))
    decreases |runs|
  {
    if runs != [] {
      match runs[0] {
        case UploadRun(p, keepLast, listing) =>
          UploadConsistent(d, p, keepLast, listing);
          UploadLatestExact(d, p, keepLast, listing);
        case CleanupRun(stem, listing) =>
          CleanupLatest(d, stem, listing);
      }
      LatestAgreesOverRuns(AfterRun(d, runs[0]), runs[1..]);
    }
  }
}
