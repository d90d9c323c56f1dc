/** The backup directory of one series on an NFS backend, and the two shell scripts that change
    it: the upload script with its pruning loop (controllers/runtime_helpers.go) and the cleanup
    script that recomputes `latest.json` (controllers/snapshot_controller.go). */
module NfsBackend {
  import opened Options
  import opened Strings
  import opened Ranking

  /** The content of a `metadata.json` file. */
  datatype Metadata = Metadata(series: string, snapshot: string, checksum: string, size: int)

  /** What the package stage hands to the upload stage. */
  datatype Package = Package(stem: string, tgz: string, sum: string, meta: Metadata)

  /** `snapshots/STEM.tgz`, `snapshots/STEM.tgz.sha256` and `snapshots/STEM.metadata.json` by
      stem, and `latest.json`. */
  datatype Dir = Dir(archives: map<string, string>, sums: map<string, string>,
                     metas: map<string, Metadata>, latest: Option<Metadata>)

  const EMPTY_DIR := Dir(map[], map[], map[], None)

  /** `sort -r` over the names of archives. */
  predicate ArchiveAfter(a: string, b: string) {
    Less(b + ".tgz", a + ".tgz")
  }

  /** `sort -r` over the names of metadata files. */
  predicate MetaAfter(a: string, b: string) {
    Less(b + ".metadata.json", a + ".metadata.json")
  }

  lemma ArchiveOrder(stems: set<string>)
    ensures StrictTotalOn(ArchiveAfter, stems)
  {
    SuffixOrder(stems, ".tgz");
  }

  lemma MetaOrder(stems: set<string>)
    ensures StrictTotalOn(MetaAfter, stems)
  {
    SuffixOrder(stems, ".metadata.json");
  }

  lemma SuffixOrder(stems: set<string>, suffix: string)
    ensures StrictTotalOn((a: string, b: string) => Less(b + suffix, a + suffix), stems)
  {
    forall x | x in stems ensures !Less(x + suffix, x + suffix) {
      LessIrreflexive(x + suffix);
    }
    forall x, y | x in stems && y in stems
      ensures x == y || Less(y + suffix, x + suffix) || Less(x + suffix, y + suffix)
    {
      LessTotal(x + suffix, y + suffix);
      assert x == (x + suffix)[..|x + suffix| - |suffix|];
      assert y == (y + suffix)[..|y + suffix| - |suffix|];
    }
    forall x, y, z | x in stems && y in stems && z in stems
                     && Less(y + suffix, x + suffix) && Less(z + suffix, y + suffix)
      ensures Less(z + suffix, x + suffix)
    {
      LessTransitive(z + suffix, y + suffix, x + suffix);
    }
  }

  /** The stems the pruning loop removes: those of rank `keepLast` and beyond. */
  function Victims(stems: set<string>, keepLast: int): set<string> {
    if keepLast <= 0 then {} else stems - Top(ArchiveAfter, stems, keepLast)
  }

  function Without(d: Dir, gone: set<string>): Dir {
    Dir(d.archives - gone, d.sums - gone, d.metas - gone, d.latest)
  }

  function Copied(d: Dir, p: Package): Dir {
    Dir(d.archives[p.stem := p.tgz], d.sums[p.stem := p.sum], d.metas[p.stem := p.meta], Some(p.meta))
  }

  /** What a listing gives of the names there are: all of them, unless `find` or `sort` failed, which the loop
      over the listing does not notice. */
  function Listed(names: set<string>, listing: Option<set<string>>): set<string> {
    if listing.None? then names else names * listing.value
  }

  /** The directory after an upload whose pruning went by `listing`. */
  function AfterUpload(d: Dir, p: Package, keepLast: int, listing: Option<set<string>>): Dir {
    var c := Copied(d, p);
    Without(c, Victims(Listed(c.archives.Keys, listing), keepLast))
  }

  /** A listing that misses archives prunes no other archives. */
  lemma FewerVictims(archives: set<string>, listed: set<string>, keepLast: int)
    requires listed <= archives
    ensures Victims(listed, keepLast) <= Victims(archives, keepLast)
  {
    forall f | f in Victims(listed, keepLast) ensures f in Victims(archives, keepLast) {
      SubsetSize(Preceding(ArchiveAfter, listed, f), Preceding(ArchiveAfter, archives, f));
    }
  }

  /** The first name `sort -r` prints. */
  ghost function NewestMeta(stems: set<string>): (s: string)
    requires stems != {}
    ensures s in stems && Rank(MetaAfter, stems, s) == 0
  {
    NewestExists(stems);
    var s :| s in stems && Rank(MetaAfter, stems, s) == 0;
    s
  }

  lemma NewestExists(stems: set<string>)
    requires stems != {}
    ensures exists s :: s in stems && Rank(MetaAfter, stems, s) == 0
  {
    MetaOrder(stems);
    TopExact(MetaAfter, stems, 1);
    assert |Top(MetaAfter, stems, 1)| == 1;
    var s :| s in Top(MetaAfter, stems, 1);
  }

  lemma NewestUnique(stems: set<string>, s: string)
    requires s in stems && Rank(MetaAfter, stems, s) == 0
    ensures NewestMeta(stems) == s
  {
    MetaOrder(stems);
    var t := NewestMeta(stems);
    assert s !in Preceding(MetaAfter, stems, t) && t !in Preceding(MetaAfter, stems, s);
  }

  ghost function NewestOf(metas: map<string, Metadata>): Option<Metadata> {
    if metas.Keys == {} then None else Some(metas[NewestMeta(metas.Keys)])
  }

  function ListedMetas(metas: map<string, Metadata>, listing: Option<set<string>>): (listed: map<string, Metadata>)
    ensures listed.Keys == Listed(metas.Keys, listing)
  {
    map s | s in metas && s in Listed(metas.Keys, listing) :: metas[s]
  }

  /** The directory after a cleanup that looked for the newest metadata in `listing`. */
  ghost function AfterCleanup(d: Dir, stem: string, listing: Option<set<string>>): Dir {
    var w := Without(d, {stem});
    w.(latest := NewestOf(ListedMetas(w.metas, listing)))
  }

  // ---------------------------------------------------------------- the scripts

  class NfsDirectory {
    var archives: map<string, string>
    var sums: map<string, string>
    var metas: map<string, Metadata>
    var latest: Option<Metadata>

    function Contents(): Dir
      reads this
    {
      Dir(archives, sums, metas, latest)
    }

    /** The words of `$(find ... | sort -r)` over a set of stems. */
    static method FindSortedDescending(stems: set<string>, after: (string, string) -> bool)
      returns (words: seq<string>)
      requires StrictTotalOn(after, stems)
      ensures Elements(words) == stems && Distinct(words) && Ordered(after, words)
      ensures forall i | 0 <= i < |words| :: Rank(after, stems, words[i]) == i
    {
      var found: seq<string>, rest := [], stems;
      while rest != {}
        invariant rest <= stems && Distinct(found) && Elements(found) == stems - rest
      {
        var s :| s in rest;
        assert forall x | x in found :: x in Elements(found);
        assert Elements(found + [s]) == Elements(found) + {s};
        found, rest := found + [s], rest - {s};
      }
      var sorted := new string[|found|](i requires 0 <= i < |found| => found[i]);
      assert sorted[..] == found;
      SliceStable(sorted, after);
      words := sorted[..];
      assert Elements(words) == stems;
      forall i | 0 <= i < |words| ensures Rank(after, stems, words[i]) == i {
        RankIsIndex(after, words, i);
      }
    }

    method Remove(stem: string)
      modifies this
      ensures Contents() == Without(old(Contents()), {stem})
    {
      archives := archives - {stem};
      sums := sums - {stem};
      metas := metas - {stem};
    }

    method Prune(keepLast: int, listing: Option<set<string>>)
      modifies this
      ensures Contents() == Without(old(Contents()), Victims(Listed(old(archives).Keys, listing), keepLast))
    {
      if keepLast > 0 {
        var stems := Listed(archives.Keys, listing);
        ArchiveOrder(stems);
        var files := FindSortedDescending(stems, ArchiveAfter);
        VictimsListed(stems, keepLast, files);
        RemoveBeyond(files, keepLast);
      }
    }

    /** The counting loop: `continue` for the first `keepLast` words, `rm -f` for the others. */
    method RemoveBeyond(files: seq<string>, keepLast: nat)
      modifies this
      ensures Contents() == Without(old(Contents()), Elements(files[Min(keepLast, |files|)..]))
    {
      var count := 0;
      for i := 0 to |files|
        invariant count == i
        invariant Contents() == Without(old(Contents()), Elements(files[Min(keepLast, i)..i]))
      {
        count := count + 1;
        if count <= keepLast { continue; }
        Remove(files[i]);
        assert files[keepLast..i + 1] == files[keepLast..i] + [files[i]];
        assert Elements(files[keepLast..i + 1]) == Elements(files[keepLast..i]) + {files[i]};
        WithoutTwice(old(Contents()), Elements(files[keepLast..i]), {files[i]});
      }
      assert files[Min(keepLast, |files|)..|files|] == files[Min(keepLast, |files|)..];
    }

    /** The upload script, from the first copy to the end of the pruning loop. */
    method Upload(p: Package, keepLast: int, listing: Option<set<string>>) returns (found: bool)
      modifies this
      ensures found
      ensures Contents() == AfterUpload(old(Contents()), p, keepLast, listing)
    {
      archives := archives[p.stem := p.tgz];
      sums := sums[p.stem := p.sum];
      metas := metas[p.stem := p.meta];
      latest := Some(p.meta);
      found := p.stem in archives;
      Prune(keepLast, listing);
    }

    /** The cleanup script. */
    method Cleanup(stem: string, listing: Option<set<string>>)
      modifies this
      ensures Contents() == AfterCleanup(old(Contents()), stem, listing)
    {
      Remove(stem);
      var listed := ListedMetas(metas, listing);
      MetaOrder(listed.Keys);
      var names := FindSortedDescending(listed.Keys, MetaAfter);
      if names != [] {
        assert names[0] in Elements(names);
        NewestUnique(listed.Keys, names[0]);
        latest := Some(metas[names[0]]);
      } else {
        latest := None;
      }
    }
  }

  lemma WithoutTwice(d: Dir, a: set<string>, b: set<string>)
    ensures Without(Without(d, a), b) == Without(d, a + b)
  {
    assert d.archives - a - b == d.archives - (a + b);
    assert d.sums - a - b == d.sums - (a + b);
    assert d.metas - a - b == d.metas - (a + b);
  }

  lemma VictimsListed(stems: set<string>, keepLast: int, xs: seq<string>)
    requires keepLast > 0
    requires Elements(xs) == stems && Distinct(xs)
    requires forall i | 0 <= i < |xs| :: Rank(ArchiveAfter, stems, xs[i]) == i
    ensures Elements(xs[Min(keepLast, |xs|)..]) == Victims(stems, keepLast)
  {
    forall s | s in Victims(stems, keepLast) ensures s in Elements(xs[Min(keepLast, |xs|)..]) {
      var i :| 0 <= i < |xs| && xs[i] == s;
      assert xs[keepLast..][i - keepLast] == s;
    }
    forall s | s in Elements(xs[Min(keepLast, |xs|)..]) ensures s in Victims(stems, keepLast) {
      var i :| Min(keepLast, |xs|) <= i < |xs| && xs[i] == s;
      assert xs[i] in Elements(xs);
    }
  }
}
