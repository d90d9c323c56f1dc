/** What the marker files guarantee in every interleaving of the three containers. */
module PodGuarantees {
  import opened Options
  import opened Ranking
  import opened NfsBackend
  import opened LatestJson
  import opened BackupPod

  /** The backend is written only by the upload script, and only once the addon command has succeeded
      and the whole package is in place: the archive of what the addon left, and a checksum and metadata
      that are right exactly as far as the commands that made them succeeded. */
  lemma WritesOnlyCompletePackages(c: Config, output: string, start: Dir, run: seq<Step>, e: Step)
    requires Possible(c, Initial(output, start), run)
    requires Enabled(Reached(c, Initial(output, start), run), e)
    requires var p := Reached(c, Initial(output, start), run); Next(c, p, e).send.backend != p.send.backend
    ensures var p := Reached(c, Initial(output, start), run);
            var output := p.addon.output;
            && e.Send?
            && p.addon.succeeded && p.addon.done
            && p.pack.done && PackageComplete(c, p.addon, p.pack)
            && p.pack.tgz == Some(output)
            && (c.sha256(output) != "" ==> (p.pack.sum == Some(c.sha256(output)) <==> p.pack.summed))
            && (p.pack.meta == Some(Metadata(c.series, p.pack.stem, p.pack.sum.value, |output|)) <==> p.pack.measured)
  {
    ReachedInv(c, output, start, run);
  }

  /** Under `set -e`, and when a template has a command, a script ends badly exactly with a command that fails
      and whose failure is not hidden; its failed marker is then there exactly if its trap fires. */
  lemma FailuresExact(c: Config, output: string, start: Dir, run: seq<Step>, e: Step)
    requires Possible(c, Initial(output, start), run)
    requires Enabled(Reached(c, Initial(output, start), run), e)
    ensures var p := Reached(c, Initial(output, start), run);
            var q := Next(c, p, e);
            match e
            case Work(_) => q == p.(addon := p.addon.(output := q.addon.output))
            case Addon(ok, touched) =>
              c.hasCommand && !p.addon.pc.SetTrap? ==>
                && (q.addon.pc.AddonExit? && q.addon.pc.code != 0 <==> !ok)
                && (q.addon.failed <==> !ok && c.addonTrap.Fires?)
                && (q.addon.done <==> p.addon.pc.Touching? && (ok || touched))
            case Pack(o) =>
              p.pack.pc.Stamp? || p.pack.pc.Tar? || p.pack.pc.Sum? || p.pack.pc.Size? || p.pack.pc.Meta?
              || p.pack.pc.Name? || p.pack.pc.PackTouch? ==>
                && (q.pack.pc.PackExit? && q.pack.pc.code != 0 <==> !o.ok)
                && (q.pack.failed <==> !o.ok && c.packTrap.Fires?)
                && (q.pack.done <==> p.pack.pc.PackTouch? && (o.ok || o.touched))
            case Send(o) =>
              !p.send.pc.SendTestDone? && !p.send.pc.SendTestFailed? ==>
                (q.send.pc.SendExit? && q.send.pc.code != 0 <==> !o.ok && !p.send.pc.Check?)
  {
    ReachedInv(c, output, start, run);
  }

  /** When the addon has ended without its done marker, the backend is as it was. */
  lemma FailureReachesNothing(c: Config, output: string, start: Dir, run: seq<Step>)
    requires Possible(c, Initial(output, start), run)
    ensures var p := Reached(c, Initial(output, start), run); !p.addon.done ==> p.send.backend == start
  {
    ReachedInv(c, output, start, run);
    var p := Reached(c, Initial(output, start), run);
    if !p.addon.done {
      UnsentBackend(c, start, p);
    }
  }

  lemma UnsentBackend(c: Config, start: Dir, p: Pod)
    requires Inv(c, start, p) && !p.pack.done
    ensures p.send.backend == start && p.send.pc != SendExit(0)
  {
  }

  /** With traps that fire and a template that has a command, a container that has ended has left a
      marker, and one that ended well has left its done marker. */
  lemma EndedLeavesMarker(c: Config, output: string, start: Dir, run: seq<Step>)
    requires Possible(c, Initial(output, start), run)
    ensures var p := Reached(c, Initial(output, start), run);
            && (c.addonTrap.Fires? && c.hasCommand && p.addon.pc.AddonExit? ==> p.addon.done || p.addon.failed)
            && (c.packTrap.Fires? && p.pack.pc.PackExit? ==> p.pack.done || p.pack.failed)
            && (p.addon.pc == AddonExit(0) ==> p.addon.done)
            && (p.pack.pc == PackExit(0) ==> p.pack.done)
  {
    ReachedInv(c, output, start, run);
  }

  /** When the upload ends well, the addon had succeeded and the backend is what the upload script makes
      of the package with the listing it got. The archive is there exactly when it is not listed, or
      fewer than `keepLast` listed archives sort after it, and it is the addon's output. */
  lemma UploadEndsWell(c: Config, output: string, start: Dir, run: seq<Step>)
    requires Possible(c, Initial(output, start), run)
    requires Reached(c, Initial(output, start), run).send.pc == SendExit(0)
    ensures var p := Reached(c, Initial(output, start), run);
            var m, backend := Packed(c, p.addon, p.pack), p.send.backend;
            && p.addon.succeeded && p.pack.done
            && backend == AfterUpload(start, m, c.keepLast, p.send.listing)
            && (m.stem in backend.archives
                <==> || c.keepLast <= 0 || m.stem !in Listed({m.stem}, p.send.listing)
                     || |set t | t in Listed(start.archives.Keys, p.send.listing) && ArchiveAfter(t, m.stem)|
                        < c.keepLast)
            && (m.stem in backend.archives ==> backend.archives[m.stem] == p.addon.output)
  {
    ReachedInv(c, output, start, run);
    var p := Reached(c, Initial(output, start), run);
    UploadSurvivesExact(start, Packed(c, p.addon, p.pack), c.keepLast, p.send.listing);
  }

  /** Whatever happens, a snapshot that was there before and has fewer than `keepLast` archives after it, the
      new one included, is as it was, unless the new one has its name. */
  lemma OthersAreSpared(c: Config, output: string, start: Dir, run: seq<Step>, t: string)
    requires Possible(c, Initial(output, start), run)
    requires var p := Reached(c, Initial(output, start), run);
             && t in start.archives && t != p.pack.stem
             && (c.keepLast <= 0
                 || |set u | u in start.archives.Keys + {p.pack.stem} && ArchiveAfter(u, t)| < c.keepLast)
    ensures var b := Reached(c, Initial(output, start), run).send.backend;
            && t in b.archives && b.archives[t] == start.archives[t]
            && (t in start.sums ==> t in b.sums && b.sums[t] == start.sums[t])
            && (t in start.metas ==> t in b.metas && b.metas[t] == start.metas[t])
  {
    ReachedInv(c, output, start, run);
    var p := Reached(c, Initial(output, start), run);
    var m, all := Packed(c, p.addon, p.pack), start.archives.Keys + {p.pack.stem};
    assert Preceding(ArchiveAfter, all, t) == set u | u in all && ArchiveAfter(u, t);
    assert t !in Victims(all, c.keepLast);
    if p.send.pc.Report? {
      var listed := Listed(Copied(start, m).archives.Keys, p.send.listing);
      PruningSpares(start, m, c.keepLast, p.send.listing, Victims(listed, c.keepLast));
    }
  }

  /** A termination summary that can be read is there only when the upload has ended well, and names its
      archive; its checksum is right exactly when `sha256sum` succeeded. */
  lemma SummaryExact(c: Config, output: string, start: Dir, run: seq<Step>)
    requires Possible(c, Initial(output, start), run)
    requires Reached(c, Initial(output, start), run).send.summary.Some?
    ensures var p := Reached(c, Initial(output, start), run);
            && p.send.pc == SendExit(0)
            && p.send.summary.value.snapshot == p.pack.stem
            && (c.sha256(p.addon.output) != "" ==>
                  (p.send.summary.value.checksum == c.sha256(p.addon.output) <==> p.pack.summed))
  {
    ReachedInv(c, output, start, run);
  }

  /** The archives left are those that a complete pruning leaves exactly when the listing, complete or
      not, had the same victims; so they are when it was complete. */
  lemma PruningExact(c: Config, output: string, start: Dir, run: seq<Step>)
    requires Possible(c, Initial(output, start), run)
    requires Reached(c, Initial(output, start), run).send.pc == SendExit(0)
    ensures var p := Reached(c, Initial(output, start), run);
            var m := Packed(c, p.addon, p.pack);
            var all := start.archives.Keys + {m.stem};
            && (p.send.backend.archives == AfterUpload(start, m, c.keepLast, None).archives
                <==> Victims(Listed(all, p.send.listing), c.keepLast) == Victims(all, c.keepLast))
            && (all <= Listed(all, p.send.listing) ==>
                  p.send.backend == AfterUpload(start, m, c.keepLast, None))
  {
    ReachedInv(c, output, start, run);
    var p := Reached(c, Initial(output, start), run);
    var m := Packed(c, p.addon, p.pack);
    UploadPrunesExact(start, m, c.keepLast, p.send.listing);
    var all := start.archives.Keys + {m.stem};
    assert Copied(start, m).archives.Keys == all;
    if all <= Listed(all, p.send.listing) {
      assert Listed(all, p.send.listing) == all;
    }
  }

  // ---------------------------------------------------------------- failures that go unnoticed

  lemma Onwards(c: Config, p: Pod, run: seq<Step>, e: Step)
    requires Possible(c, p, run) && Enabled(Reached(c, p, run), e)
    ensures Possible(c, p, run + [e]) && Reached(c, p, run + [e]) == Next(c, Reached(c, p, run), e)
    decreases |run|
  {
    if run == [] {
      assert run + [e] == [e] && [e][1..] == [];
    } else {
      Onwards(c, Next(c, p, run[0]), run[1..], e);
      assert (run + [e])[1..] == run[1..] + [e];
    }
  }

  datatype Progress = Progress(run: seq<Step>, pod: Pod)

  predicate Taken(c: Config, first: Pod, g: Progress) {
    Possible(c, first, g.run) && Reached(c, first, g.run) == g.pod
  }

  lemma Then(c: Config, first: Pod, g: Progress, e: Step) returns (h: Progress)
    requires Taken(c, first, g) && Enabled(g.pod, e)
    ensures Taken(c, first, h) && h.pod == Next(c, g.pod, e)
  {
    h := Progress(g.run + [e], Next(c, g.pod, e));
    Onwards(c, first, g.run, e);
  }

  lemma AddonSucceeds(c: Config, first: Pod) returns (g: Progress)
    requires !c.addonTrap.Refused? && c.hasCommand && first.addon.pc.SetTrap?
    ensures Taken(c, first, g)
    ensures g.pod == first.(addon := g.pod.addon) && g.pod.addon.done && g.pod.addon.output == first.addon.output
  {
    g := Progress([], first);
    g := Then(c, first, g, Addon(true, true));
    g := Then(c, first, g, Addon(true, true));
    g := Then(c, first, g, Addon(true, true));
  }

  lemma Stamps(c: Config, first: Pod, g: Progress, stem: string, summed: bool) returns (h: Progress)
    requires Taken(c, first, g) && g.pod.pack.pc.PackTrap? && !c.packTrap.Refused? && g.pod.addon.done
    ensures Taken(c, first, h) && h.pod == g.pod.(pack := h.pod.pack)
    ensures h.pod.pack.pc == Size && h.pod.pack.stem == stem && h.pod.pack.summed == summed
    ensures h.pod.pack.tgz.Some? && h.pod.pack.sum.Some?
  {
    var o := PackOutcome(true, true, true, stem);
    h := Then(c, first, g, Pack(o));
    h := Then(c, first, h, Pack(o));
    h := Then(c, first, h, Pack(o));
    h := Then(c, first, h, Pack(o));
    h := Then(c, first, h, Pack(o.(fed := summed)));
  }

  /** The package script up to its end, `sha256sum` and `wc` succeeding or not. */
  lemma Packs(c: Config, first: Pod, g: Progress, stem: string, summed: bool, measured: bool)
    returns (h: Progress)
    requires Taken(c, first, g) && g.pod.pack.pc.PackTrap? && !c.packTrap.Refused? && g.pod.addon.done
    ensures Taken(c, first, h) && h.pod == g.pod.(pack := h.pod.pack)
    ensures h.pod.pack.pc == PackExit(0) && h.pod.pack.stem == stem
    ensures h.pod.pack.summed == summed && h.pod.pack.measured == measured
  {
    h := Stamps(c, first, g, stem, summed);
    h := Writes(c, first, h, measured);
  }

  lemma Writes(c: Config, first: Pod, g: Progress, measured: bool) returns (h: Progress)
    requires Taken(c, first, g) && g.pod.pack.pc.Size? && g.pod.pack.tgz.Some? && g.pod.pack.sum.Some?
    ensures Taken(c, first, h) && h.pod == g.pod.(pack := h.pod.pack)
    ensures h.pod.pack.pc == PackExit(0) && h.pod.pack.stem == g.pod.pack.stem
    ensures h.pod.pack.summed == g.pod.pack.summed && h.pod.pack.measured == measured
  {
    var o := PackOutcome(true, true, measured, "");
    h := Then(c, first, g, Pack(o));
    h := Then(c, first, h, Pack(o));
    h := Then(c, first, h, Pack(o));
    h := Then(c, first, h, Pack(o));
  }

  lemma Sends(c: Config, first: Pod, g: Progress, listing: Option<set<string>>) returns (h: Progress)
    requires Taken(c, first, g) && g.pod.send.pc.SendTestDone? && g.pod.pack.done
    requires PackageComplete(c, g.pod.addon, g.pod.pack)
    ensures Taken(c, first, h) && h.pod == g.pod.(send := h.pod.send)
    ensures h.pod.send.pc == SendExit(0) && h.pod.send.listing == listing && h.pod.send.summary.Some?
  {
    var o := SendOutcome(true, None, {}, listing, true);
    h := Copies(c, first, g);
    h := Then(c, first, h, Send(o));
    h := Then(c, first, h, Send(o));
    h := Then(c, first, h, Send(o));
  }

  /** The upload script up to its last copy. */
  lemma Copies(c: Config, first: Pod, g: Progress) returns (h: Progress)
    requires Taken(c, first, g) && g.pod.send.pc.SendTestDone? && g.pod.pack.done
    requires PackageComplete(c, g.pod.addon, g.pod.pack)
    ensures Taken(c, first, h) && h.pod == g.pod.(send := h.pod.send)
    ensures h.pod.send.pc == Check && h.pod.send.name in h.pod.send.backend.archives
  {
    var o := SendOutcome(true, None, {}, None, true);
    h := Then(c, first, g, Send(o));
    h := Then(c, first, h, Send(o));
    h := Then(c, first, h, Send(o));
    h := Then(c, first, h, Send(o));
    h := Then(c, first, h, Send(o));
    h := Then(c, first, h, Send(o));
  }

  /** A pod can end well all round, with a summary that can be read, although `sha256sum` failed, or the
      listing for the pruning missed anything at all. */
  lemma FailsUnnoticed(c: Config, output: string, start: Dir, stem: string, summed: bool, listing: Option<set<string>>)
    returns (run: seq<Step>)
    requires !c.addonTrap.Refused? && !c.packTrap.Refused? && c.hasCommand
    ensures Possible(c, Initial(output, start), run)
    ensures var p := Reached(c, Initial(output, start), run);
            && p.send.pc == SendExit(0) && p.pack.pc == PackExit(0) && p.send.summary.Some?
            && p.pack.summed == summed && p.send.listing == listing
  {
    var first := Initial(output, start);
    var g := AddonSucceeds(c, first);
    g := Packs(c, first, g, stem, summed, true);
    ReachedInv(c, output, start, g.run);
    g := Sends(c, first, g, listing);
    run := g.run;
  }

  // ---------------------------------------------------------------- no deadlock

  function AddonRank(a: AddonSide): nat {
    match a.pc case SetTrap => 3 case Running => 2 case Touching => 1 case AddonExit(_) => 0
  }

  /** How far the package script is from its end; waiting for a marker that is already there counts
      as progress, waiting for one that is not does not. */
  function PackRank(a: AddonSide, k: PackSide): nat {
    match k.pc
    case PackTrap => 11
    case TestDone => if a.done then 8 else if a.failed then 9 else 10
    case TestFailed => if a.failed then 8 else if a.done then 9 else 10
    case MarkFailed => 1
    case PackExit(_) => 0
    case _ => 8 - Stage(k.pc)
  }

  function SendRank(k: PackSide, u: SendSide): nat {
    match u.pc
    case SendTestDone => if k.done then 9 else if k.failed then 10 else 11
    case SendTestFailed => if k.failed then 9 else if k.done then 10 else 11
    case ReadName => 8 case CopyArchive => 7 case CopySum => 6 case CopyMeta => 5 case CopyLatest => 4
    case Check => 3 case Prune => 2 case Report => 1 case SendExit(_) => 0
  }

  function Rank(p: Pod): nat {
    AddonRank(p.addon) + PackRank(p.addon, p.pack) + SendRank(p.pack, p.send)
  }

  predicate Ended(p: Pod) {
    p.addon.pc.AddonExit? && p.pack.pc.PackExit? && p.send.pc.SendExit?
  }

  lemma AddonRankFalls(c: Config, a: AddonSide, k: PackSide, ok: bool, touched: bool)
    requires AddonOk(c, a) && PackOk(c, a, k) && !a.pc.AddonExit?
    ensures AddonRank(AddonStep(c, a, ok, touched)) < AddonRank(a)
    ensures PackRank(AddonStep(c, a, ok, touched), k) <= PackRank(a, k)
  {
  }

  lemma PackRankFalls(c: Config, a: AddonSide, k: PackSide, o: PackOutcome)
    requires PackOk(c, a, k) && !k.pc.PackExit?
    ensures PackRank(a, PackStep(c, a, k, o)) <= PackRank(a, k)
    ensures a.done || a.failed ==> PackRank(a, PackStep(c, a, k, o)) < PackRank(a, k)
  {
  }

  lemma PackKeepsSendRank(c: Config, a: AddonSide, k: PackSide, u: SendSide, o: PackOutcome)
    requires PackOk(c, a, k) && !k.pc.PackExit?
    ensures SendRank(PackStep(c, a, k, o), u) <= SendRank(k, u)
  {
  }

  lemma SendRankFalls(c: Config, k: PackSide, u: SendSide, o: SendOutcome)
    requires !u.pc.SendExit?
    ensures SendRank(k, SendStep(c, k, u, o)) <= SendRank(k, u)
    ensures k.done || k.failed ==> SendRank(k, SendStep(c, k, u, o)) < SendRank(k, u)
  {
  }

  /** No command of any container takes the pod further from its end. */
  lemma RankNeverGrows(c: Config, start: Dir, p: Pod, e: Step)
    requires Inv(c, start, p) && Enabled(p, e)
    ensures Rank(Next(c, p, e)) <= Rank(p)
  {
    match e {
      case Work(_) =>
      case Addon(ok, touched) => AddonRankFalls(c, p.addon, p.pack, ok, touched);
      case Pack(o) =>
        PackRankFalls(c, p.addon, p.pack, o);
        PackKeepsSendRank(c, p.addon, p.pack, p.send, o);
      case Send(o) => SendRankFalls(c, p.pack, p.send, o);
    }
  }

  datatype Turn = AddonTurn | PackTurn | SendTurn

  predicate OfTurn(e: Step, turn: Turn) {
    match turn
    case AddonTurn => e.Addon?
    case PackTurn => e.Pack?
    case SendTurn => e.Send?
  }

  /** It is the turn of a container that has not ended, and its next command, whatever becomes of
      it, brings the pod nearer to its end. */
  ghost predicate MayAdvance(c: Config, p: Pod, turn: Turn) {
    forall e | OfTurn(e, turn) :: Enabled(p, e) && Rank(Next(c, p, e)) < Rank(p)
  }

  /** The pod never deadlocks: until all three containers have ended, there is one that can act, and
      every command it can issue next brings the pod nearer to its end. */
  lemma NeverStuck(c: Config, output: string, start: Dir, run: seq<Step>)
    requires Possible(c, Initial(output, start), run)
    requires c.addonTrap.Fires? && c.packTrap.Fires? && c.hasCommand
    requires !Ended(Reached(c, Initial(output, start), run))
    ensures exists turn :: MayAdvance(c, Reached(c, Initial(output, start), run), turn)
  {
    ReachedInv(c, output, start, run);
    var p := Reached(c, Initial(output, start), run);
    var turn := if !p.addon.pc.AddonExit? then AddonTurn else if !p.pack.pc.PackExit? then PackTurn else SendTurn;
    forall e | OfTurn(e, turn) ensures Enabled(p, e) && Rank(Next(c, p, e)) < Rank(p) {
      match e {
        case Addon(ok, touched) => AddonRankFalls(c, p.addon, p.pack, ok, touched);
        case Pack(o) =>
          PackRankFalls(c, p.addon, p.pack, o);
          PackKeepsSendRank(c, p.addon, p.pack, p.send, o);
        case Send(o) => SendRankFalls(c, p.pack, p.send, o);
        case Work(_) =>
      }
    }
    assert MayAdvance(c, p, turn);
  }

  function Advances(c: Config, p: Pod, run: seq<Step>): nat
    decreases |run|
  {
    if run == [] then 0
    else (if Rank(Next(c, p, run[0])) < Rank(p) then 1 else 0) + Advances(c, Next(c, p, run[0]), run[1..])
  }

  /** So no run has more than 25 commands that advance it; all others are polls of a marker that is
      not there, or the addon's own work. */
  lemma {:induction false} AdvancesBounded(c: Config, start: Dir, p: Pod, run: seq<Step>)
    requires Inv(c, start, p) && Possible(c, p, run)
    ensures Advances(c, p, run) + Rank(Reached(c, p, run)) <= Rank(p) <= 25
    decreases |run|
  {
    if run != [] {
      StepInv(c, start, p, run[0]);
      RankNeverGrows(c, start, p, run[0]);
      AdvancesBounded(c, start, Next(c, p, run[0]), run[1..]);
    }
  }

  // ---------------------------------------------------------------- when the protocol hangs

  predicate NoMarker(p: Pod) {
    p.addon.pc.AddonExit? && !p.addon.done && !p.addon.failed
  }

  ghost predicate EndsUnmarked(c: Config, p: Pod, run: seq<Step>) {
    Possible(c, p, run) && NoMarker(Reached(c, p, run))
  }

  /** The addon can end without leaving a marker exactly when its shell does not run the trap or the
      template has neither command nor arguments. */
  lemma NoMarkerExact(c: Config, output: string, start: Dir)
    ensures (exists run :: EndsUnmarked(c, Initial(output, start), run)) <==> !(c.addonTrap.Fires? && c.hasCommand)
  {
    var first := Initial(output, start);
    if c.addonTrap.Fires? && c.hasCommand {
      forall run | Possible(c, first, run) ensures !EndsUnmarked(c, first, run) {
        ReachedInv(c, output, start, run);
      }
    } else {
      var g := Then(c, first, Progress([], first), Addon(false, false));
      if !c.addonTrap.Refused? {
        g := Then(c, first, g, Addon(false, false));
      }
      assert EndsUnmarked(c, first, g.run);
    }
  }

  ghost predicate PackEndsUnmarked(c: Config, p: Pod, run: seq<Step>) {
    && Possible(c, p, run)
    && var k := Reached(c, p, run).pack; k.pc.PackExit? && !k.done && !k.failed
  }

  /** The package script can end without leaving a marker exactly when its shell refuses the trap, or ignores it
      and the addon can leave a marker. */
  lemma PackNoMarkerExact(c: Config, output: string, start: Dir)
    ensures (exists run :: PackEndsUnmarked(c, Initial(output, start), run))
            <==> c.packTrap.Refused? || (c.packTrap.Silent? && !c.addonTrap.Refused? && c.hasCommand)
  {
    var first := Initial(output, start);
    if c.packTrap.Refused? || (c.packTrap.Silent? && !c.addonTrap.Refused? && c.hasCommand) {
      var g := Progress([], first);
      var o := PackOutcome(false, false, false, "");
      if !c.packTrap.Refused? {
        g := AddonSucceeds(c, first);
        g := Then(c, first, g, Pack(o));
        g := Then(c, first, g, Pack(o));
      }
      g := Then(c, first, g, Pack(o));
      assert PackEndsUnmarked(c, first, g.run);
    } else {
      forall run | Possible(c, first, run) ensures !PackEndsUnmarked(c, first, run) {
        ReachedInv(c, output, start, run);
      }
    }
  }

  /** A container whose marker is missing keeps the next one at its polls; the package script may also
      have ended over its trap. */
  predicate PollsWithoutMarker(p: Pod) {
    && (!p.pack.pc.PackExit? ==> !p.pack.done && !p.pack.failed)
    && (!p.addon.done && !p.addon.failed ==>
          p.pack.pc.PackTrap? || p.pack.pc.TestDone? || p.pack.pc.TestFailed? || p.pack.pc == PackExit(1))
    && (!p.addon.done && !p.addon.failed ==> !p.pack.done && !p.pack.failed)
    && (!p.pack.done && !p.pack.failed ==> p.send.pc.SendTestDone? || p.send.pc.SendTestFailed?)
  }

  lemma {:induction false} RunPolls(c: Config, p: Pod, run: seq<Step>)
    requires PollsWithoutMarker(p) && Possible(c, p, run)
    requires p.addon.pc.AddonExit? || (!p.addon.done && !p.addon.failed)
    ensures PollsWithoutMarker(Reached(c, p, run))
    decreases |run|
  {
    if run != [] {
      assert PollsWithoutMarker(Next(c, p, run[0]));
      RunPolls(c, Next(c, p, run[0]), run[1..]);
    }
  }

  /** The package script has ended without a marker. */
  predicate PackUnmarked(p: Pod) {
    p.pack.pc.PackExit? && !p.pack.done && !p.pack.failed && (p.send.pc.SendTestDone? || p.send.pc.SendTestFailed?)
  }

  lemma {:induction false} PackStaysUnmarked(c: Config, p: Pod, run: seq<Step>)
    requires PackUnmarked(p) && Possible(c, p, run)
    ensures PackUnmarked(Reached(c, p, run)) && Reached(c, p, run).send.backend == p.send.backend
    decreases |run|
  {
    if run != [] {
      PackStaysUnmarked(c, Next(c, p, run[0]), run[1..]);
    }
  }

  lemma {:induction false} StaysUnmarked(c: Config, p: Pod, run: seq<Step>)
    requires NoMarker(p) && PollsWithoutMarker(p) && Possible(c, p, run)
    ensures var q := Reached(c, p, run);
            NoMarker(q) && PollsWithoutMarker(q) && q.send.backend == p.send.backend
    decreases |run|
  {
    if run != [] {
      StaysUnmarked(c, Next(c, p, run[0]), run[1..]);
    }
  }

  /** Once the addon or the package script has ended without a marker, the pod never ends: however it goes on,
      the upload script still polls, and the backend is as it was. */
  lemma WaitsForEver(c: Config, output: string, start: Dir, run: seq<Step>, more: seq<Step>)
    requires Possible(c, Initial(output, start), run)
    requires var p := Reached(c, Initial(output, start), run);
             NoMarker(p) || (p.pack.pc.PackExit? && !p.pack.done && !p.pack.failed)
    requires Possible(c, Reached(c, Initial(output, start), run), more)
    ensures var q := Reached(c, Reached(c, Initial(output, start), run), more);
            && !Ended(q) && (q.send.pc.SendTestDone? || q.send.pc.SendTestFailed?)
            && q.send.backend == start
  {
    var p := Reached(c, Initial(output, start), run);
    RunPolls(c, Initial(output, start), run);
    ReachedInv(c, output, start, run);
    UnsentBackend(c, start, p);
    if NoMarker(p) {
      StaysUnmarked(c, p, more);
    } else {
      PackStaysUnmarked(c, p, more);
    }
  }
}
