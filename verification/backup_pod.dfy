/** The three containers of a backup pod (controllers/runtime_helpers.go): the wrapped addon
    command, the package script and the upload script run side by side and meet only through
    marker files. The scripts are followed command by command, and any command may fail. Under
    `set -eu` a failure ends the script, except in front of a pipe and in the list of a loop: there
    it goes unnoticed. */
module BackupPod {
  import opened Options
  import opened NfsBackend

  /** What a shell makes of `trap ... ERR`: it runs the trap when a command fails, and the trap's
      `touch` succeeds; it takes the line and never runs the trap; or it refuses the line, which under
      `set -e` ends the script there. */
  datatype Trap = Fires | Silent | Refused

  /** The shells of the addon image and of the package image, whether the addon template has a command
      or arguments, the backend settings, and the checksum tool. */
  datatype Config = Config(addonTrap: Trap, packTrap: Trap, hasCommand: bool, series: string, keepLast: int,
                           sha256: string -> string)

  // ---------------------------------------------------------------- the addon container

  datatype AddonPc = SetTrap | Running | Touching | AddonExit(code: nat)

  /** The workspace the addon fills, whether its command has returned success, and the markers
      plugin.done and plugin.failed. */
  datatype AddonSide = AddonSide(pc: AddonPc, output: string, succeeded: bool, done: bool, failed: bool)

  /** `addonWrappedCommand`: the trap, the command, then `touch plugin.done`. The branch without a
      command exits by itself, which fires no trap. A `touch` that fails may have touched the file. */
  function AddonStep(c: Config, a: AddonSide, ok: bool, touched: bool): AddonSide {
    match a.pc
    case SetTrap => a.(pc := if c.addonTrap.Refused? then AddonExit(1) else Running)
    case Running =>
      if !c.hasCommand then a.(pc := AddonExit(1))
      else if ok then a.(pc := Touching, succeeded := true)
      else a.(pc := AddonExit(1), failed := c.addonTrap.Fires?)
    case Touching =>
      if ok then a.(pc := AddonExit(0), done := true)
      else a.(pc := AddonExit(1), done := touched, failed := c.addonTrap.Fires?)
    case AddonExit(_) => a
  }

  ghost predicate AddonOk(c: Config, a: AddonSide) {
    && (a.pc.Running? || a.pc.Touching? || a.succeeded ==> !c.addonTrap.Refused?)
    && (a.pc.Touching? || a.succeeded || a.failed ==> c.hasCommand)
    && (a.failed ==> c.addonTrap.Fires?)
    && match a.pc
    case SetTrap => !a.done && !a.failed && !a.succeeded
    case Running => !a.done && !a.failed && !a.succeeded
    case Touching => !a.done && !a.failed && a.succeeded
    case AddonExit(code) =>
      && (a.done ==> a.succeeded)
      && (code == 0 ==> a.done)
      && (code != 0 && c.addonTrap.Fires? && c.hasCommand ==> a.failed)
      && (code != 0 && !c.addonTrap.Fires? && !a.succeeded ==> !a.failed)
  }

  // ---------------------------------------------------------------- the package container

  datatype PackPc = PackTrap | TestDone | TestFailed | MarkFailed | Stamp | Tar | Sum | Size | Meta | Name
                  | PackTouch | PackExit(code: nat)

  /** The script's variables, the files it writes, and the markers package.done and package.failed;
      besides, whether `sha256sum` and `wc` have succeeded. */
  datatype PackSide = PackSide(pc: PackPc, stem: string, tgz: Option<string>, sum: Option<string>,
                               meta: Option<Metadata>, current: Option<string>, done: bool, failed: bool,
                               summed: bool, measured: bool)

  function PackFails(c: Config, k: PackSide): PackSide {
    k.(pc := PackExit(1), failed := c.packTrap.Fires?)
  }

  /** What stands for a size left blank. */
  const NO_SIZE := -1

  function SumOf(c: Config, output: string, summed: bool): string {
    if summed then c.sha256(output) else ""
  }

  function SizeOf(output: string, measured: bool): int {
    if measured then |output| else NO_SIZE
  }

  /** How a command ends: with success or not; whether a failing `touch` has touched its file; whether
      the command in front of a pipe succeeded; and the name the stamp would form now. */
  datatype PackOutcome = PackOutcome(ok: bool, touched: bool, fed: bool, stem: string)

  /** The package script. `sha256sum` and `wc` stand in front of a pipe, so that when they fail the
      script goes on with a blank. Other steps that fail may leave a broken file behind, which is of no
      consequence as the done marker is then missing. */
  function PackStep(c: Config, a: AddonSide, k: PackSide, o: PackOutcome): PackSide {
    match k.pc
    case PackTrap => k.(pc := if c.packTrap.Refused? then PackExit(1) else TestDone)
    case TestDone => k.(pc := if a.done then Stamp else TestFailed)
    case TestFailed => k.(pc := if a.failed then MarkFailed else TestDone)
    case MarkFailed => k.(pc := PackExit(1), failed := o.ok || o.touched || c.packTrap.Fires?)
    case Stamp => if o.ok then k.(pc := Tar, stem := o.stem) else PackFails(c, k)
    case Tar => if o.ok then k.(pc := Sum, tgz := Some(a.output)) else PackFails(c, k)
    case Sum =>
      if o.ok && k.tgz.Some? then k.(pc := Size, sum := Some(SumOf(c, k.tgz.value, o.fed)), summed := o.fed)
      else PackFails(c, k)
    case Size => if o.ok then k.(pc := Meta, measured := o.fed) else PackFails(c, k)
    case Meta =>
      if o.ok && k.tgz.Some? && k.sum.Some? then
        k.(pc := Name, meta := Some(Metadata(c.series, k.stem, k.sum.value, SizeOf(k.tgz.value, k.measured))))
      else PackFails(c, k)
    case Name => if o.ok then k.(pc := PackTouch, current := Some(k.stem)) else PackFails(c, k)
    case PackTouch =>
      if o.ok then k.(pc := PackExit(0), done := true)
      else k.(pc := PackExit(1), done := o.touched, failed := c.packTrap.Fires?)
    case PackExit(_) => k
  }

  function Stage(pc: PackPc): nat {
    match pc
    case PackTrap => 0 case TestDone => 0 case TestFailed => 0 case MarkFailed => 0
    case Stamp => 1 case Tar => 2 case Sum => 3 case Size => 4 case Meta => 5 case Name => 6 case PackTouch => 7
    case PackExit(_) => 0
  }

  /** The package made of `output` under the name `stem`, when `sha256sum` and `wc` succeed or not. */
  function Made(c: Config, output: string, stem: string, summed: bool, measured: bool): Package {
    var sum := SumOf(c, output, summed);
    Package(stem, output, sum, Metadata(c.series, stem, sum, SizeOf(output, measured)))
  }

  function Packed(c: Config, a: AddonSide, k: PackSide): Package {
    Made(c, a.output, k.stem, k.summed, k.measured)
  }

  /** All files of the package are there, and belong to what the addon left. */
  ghost predicate PackageComplete(c: Config, a: AddonSide, k: PackSide) {
    var m := Packed(c, a, k);
    k.tgz == Some(m.tgz) && k.sum == Some(m.sum) && k.meta == Some(m.meta) && k.current == Some(m.stem)
  }

  ghost predicate PackOk(c: Config, a: AddonSide, k: PackSide) {
    var m := Packed(c, a, k);
    && (Stage(k.pc) >= 1 ==> a.done)
    && (Stage(k.pc) >= 3 ==> k.tgz == Some(m.tgz))
    && (Stage(k.pc) >= 4 ==> k.sum == Some(m.sum))
    && (Stage(k.pc) >= 6 ==> k.meta == Some(m.meta))
    && (Stage(k.pc) >= 7 ==> k.current == Some(m.stem))
    && (k.pc.MarkFailed? ==> a.failed)
    && (k.pc.PackExit? ==> c.packTrap.Refused? || a.done || a.failed)
    && (!k.pc.PackExit? ==> !k.done && !k.failed)
    && (k.pc == PackExit(0) ==> k.done)
    && (k.pc.PackExit? && k.pc.code != 0 && c.packTrap.Fires? ==> k.failed)
    && (k.done ==> a.done && PackageComplete(c, a, k))
  }

  // ---------------------------------------------------------------- the upload container

  datatype SendPc = SendTestDone | SendTestFailed | ReadName | CopyArchive | CopySum | CopyMeta | CopyLatest
                  | Check | Prune | Report | SendExit(code: nat)

  datatype Summary = Summary(snapshot: string, checksum: string)

  /** The script's variable, the backend directory and the termination message, which is none as long as
      nothing is written that can be read; besides, the listing that the pruning went by. */
  datatype SendSide = SendSide(pc: SendPc, name: string, backend: Dir, summary: Option<Summary>,
                               listing: Option<set<string>>)

  function SendFails(u: SendSide): SendSide {
    u.(pc := SendExit(1))
  }

  /** What a copy that fails leaves in the place of a file. */
  datatype Leftover = Leftover(text: string, meta: Metadata)

  /** How a command ends: with success or not; what a failing copy leaves, if anything; which victims a
      failing pruning loop has removed; what `find` and `sort` list, if not everything; and whether `wc`
      succeeded. */
  datatype SendOutcome = SendOutcome(ok: bool, left: Option<Leftover>, removed: set<string>,
                                     listing: Option<set<string>>, measured: bool)

  /** The upload script; it sets no trap. A listing that fails ends the loop early and not the script,
      and a size left blank makes the termination message unreadable and ends nothing. */
  function SendStep(c: Config, k: PackSide, u: SendSide, o: SendOutcome): SendSide {
    var b := u.backend;
    match u.pc
    case SendTestDone => u.(pc := if k.done then ReadName else SendTestFailed)
    case SendTestFailed => u.(pc := if k.failed then SendExit(1) else SendTestDone)
    case ReadName => if o.ok && k.current.Some? then u.(pc := CopyArchive, name := k.current.value) else SendFails(u)
    case CopyArchive =>
      if o.ok && k.tgz.Some? then u.(pc := CopySum, backend := b.(archives := b.archives[u.name := k.tgz.value]))
      else if o.left.None? then SendFails(u)
      else SendFails(u.(backend := b.(archives := b.archives[u.name := o.left.value.text])))
    case CopySum =>
      if o.ok && k.sum.Some? then u.(pc := CopyMeta, backend := b.(sums := b.sums[u.name := k.sum.value]))
      else if o.left.None? then SendFails(u)
      else SendFails(u.(backend := b.(sums := b.sums[u.name := o.left.value.text])))
    case CopyMeta =>
      if o.ok && k.meta.Some? then u.(pc := CopyLatest, backend := b.(metas := b.metas[u.name := k.meta.value]))
      else if o.left.None? then SendFails(u)
      else SendFails(u.(backend := b.(metas := b.metas[u.name := o.left.value.meta])))
    case CopyLatest =>
      if o.ok && k.meta.Some? then u.(pc := Check, backend := b.(latest := k.meta))
      else if o.left.None? then SendFails(u)
      else SendFails(u.(backend := b.(latest := Some(o.left.value.meta))))
    case Check => if u.name in b.archives then u.(pc := Prune) else SendFails(u)
    case Prune =>
      var victims := Victims(Listed(b.archives.Keys, o.listing), c.keepLast);
      if o.ok then u.(pc := Report, backend := Without(b, victims), listing := o.listing)
      else SendFails(u.(backend := Without(b, victims * o.removed)))
    case Report =>
      if o.ok && k.sum.Some? then
        u.(pc := SendExit(0), summary := if o.measured then Some(Summary(u.name, k.sum.value)) else None)
      else SendFails(u)
    case SendExit(_) => u
  }

  /** Nothing is lost of the snapshots that a complete pruning keeps. */
  ghost predicate Spares(start: Dir, stem: string, keepLast: int, b: Dir) {
    forall t | t != stem && t !in Victims(start.archives.Keys + {stem}, keepLast) ::
      && (t in start.archives ==> t in b.archives && b.archives[t] == start.archives[t])
      && (t in start.sums ==> t in b.sums && b.sums[t] == start.sums[t])
      && (t in start.metas ==> t in b.metas && b.metas[t] == start.metas[t])
  }

  lemma PruningSpares(start: Dir, m: Package, keepLast: int, listing: Option<set<string>>, removed: set<string>)
    requires removed <= Victims(Listed(Copied(start, m).archives.Keys, listing), keepLast)
    ensures Spares(start, m.stem, keepLast, Without(Copied(start, m), removed))
  {
    var all := start.archives.Keys + {m.stem};
    assert Copied(start, m).archives.Keys == all;
    FewerVictims(all, Listed(all, listing), keepLast);
  }

  /** What the backend holds when the upload script stands at a given command. */
  ghost predicate SendOk(c: Config, start: Dir, a: AddonSide, k: PackSide, u: SendSide) {
    var m, b := Packed(c, a, k), u.backend;
    && (u.summary.Some? ==> u.pc == SendExit(0))
    &&
    match u.pc
    case SendTestDone => b == start
    case SendTestFailed => b == start
    case ReadName => b == start && k.done
    case CopyArchive => b == start && k.done && u.name == k.stem
    case CopySum => b == start.(archives := start.archives[m.stem := m.tgz]) && k.done && u.name == k.stem
    case CopyMeta =>
      && b == start.(archives := start.archives[m.stem := m.tgz], sums := start.sums[m.stem := m.sum])
      && k.done && u.name == k.stem
    case CopyLatest => b == Copied(start, m).(latest := start.latest) && k.done && u.name == k.stem
    case Check => b == Copied(start, m) && k.done && u.name == k.stem
    case Prune => b == Copied(start, m) && k.done && u.name == k.stem
    case Report => b == AfterUpload(start, m, c.keepLast, u.listing) && k.done && u.name == k.stem
    case SendExit(code) =>
      && (b != start ==> k.done)
      && Spares(start, m.stem, c.keepLast, b)
      && (code == 0 ==>
            && k.done && b == AfterUpload(start, m, c.keepLast, u.listing)
            && (u.summary.Some? ==> u.summary == Some(Summary(m.stem, m.sum))))
  }

  // ---------------------------------------------------------------- the pod

  datatype Pod = Pod(addon: AddonSide, pack: PackSide, send: SendSide)

  function Initial(output: string, backend: Dir): Pod {
    Pod(AddonSide(SetTrap, output, false, false, false),
        PackSide(PackTrap, "", None, None, None, None, false, false, false, false),
        SendSide(SendTestDone, "", backend, None, None))
  }

  /** One command of one container, or one write of the running addon command. */
  datatype Step =
    | Work(output: string)
    | Addon(ok: bool, touched: bool)
    | Pack(packed: PackOutcome)
    | Send(sent: SendOutcome)

  predicate Enabled(p: Pod, e: Step) {
    match e
    case Work(_) => p.addon.pc.Running?
    case Addon(_, _) => !p.addon.pc.AddonExit?
    case Pack(_) => !p.pack.pc.PackExit?
    case Send(_) => !p.send.pc.SendExit?
  }

  function Next(c: Config, p: Pod, e: Step): Pod {
    match e
    case Work(output) => p.(addon := p.addon.(output := output))
    case Addon(ok, touched) => p.(addon := AddonStep(c, p.addon, ok, touched))
    case Pack(o) => p.(pack := PackStep(c, p.addon, p.pack, o))
    case Send(o) => p.(send := SendStep(c, p.pack, p.send, o))
  }

  predicate Possible(c: Config, p: Pod, run: seq<Step>)
    decreases |run|
  {
    run != [] ==> Enabled(p, run[0]) && Possible(c, Next(c, p, run[0]), run[1..])
  }

  function Reached(c: Config, p: Pod, run: seq<Step>): Pod
    decreases |run|
  {
    if run == [] then p else Reached(c, Next(c, p, run[0]), run[1..])
  }

  ghost predicate Inv(c: Config, start: Dir, p: Pod) {
    AddonOk(c, p.addon) && PackOk(c, p.addon, p.pack) && SendOk(c, start, p.addon, p.pack, p.send)
  }

  // ---------------------------------------------------------------- every command keeps it

  lemma AddonKeeps(c: Config, a: AddonSide, k: PackSide, ok: bool, touched: bool)
    requires AddonOk(c, a) && PackOk(c, a, k)
    ensures AddonOk(c, AddonStep(c, a, ok, touched)) && PackOk(c, AddonStep(c, a, ok, touched), k)
    ensures AddonStep(c, a, ok, touched).output == a.output
  {
  }

  lemma PackKeeps(c: Config, a: AddonSide, k: PackSide, o: PackOutcome)
    requires PackOk(c, a, k)
    ensures PackOk(c, a, PackStep(c, a, k, o))
    ensures k.done ==> PackStep(c, a, k, o) == k
  {
  }

  /** What the other two containers do to the upload script's side of the invariant: nothing, once
      the package is done, and nothing that matters before. */
  lemma OthersKeepSent(c: Config, start: Dir, a: AddonSide, k: PackSide, a': AddonSide, k': PackSide, u: SendSide)
    requires SendOk(c, start, a, k, u)
    requires k.done ==> a'.output == a.output && k' == k
    ensures SendOk(c, start, a', k', u)
  {
  }

  lemma SendCopies(c: Config, start: Dir, a: AddonSide, k: PackSide, u: SendSide, o: SendOutcome)
    requires PackOk(c, a, k) && SendOk(c, start, a, k, u)
    requires u.pc.CopyArchive? || u.pc.CopySum? || u.pc.CopyMeta? || u.pc.CopyLatest?
    ensures SendOk(c, start, a, k, SendStep(c, k, u, o))
  {
  }

  lemma SendEnds(c: Config, start: Dir, a: AddonSide, k: PackSide, u: SendSide, o: SendOutcome)
    requires PackOk(c, a, k) && SendOk(c, start, a, k, u)
    requires u.pc.Check? || u.pc.Prune? || u.pc.Report? || u.pc.SendExit?
    ensures SendOk(c, start, a, k, SendStep(c, k, u, o))
  {
    var m := Packed(c, a, k);
    var copied := Copied(start, m).archives.Keys;
    match u.pc {
      case Check =>
        PruningSpares(start, m, c.keepLast, Some({}), {});
      case Prune =>
        PruningSpares(start, m, c.keepLast, o.listing, Victims(Listed(copied, o.listing), c.keepLast) * o.removed);
      case Report =>
        PruningSpares(start, m, c.keepLast, u.listing, Victims(Listed(copied, u.listing), c.keepLast));
      case _ =>
    }
  }

  lemma SendKeeps(c: Config, start: Dir, a: AddonSide, k: PackSide, u: SendSide, o: SendOutcome)
    requires PackOk(c, a, k) && SendOk(c, start, a, k, u)
    ensures SendOk(c, start, a, k, SendStep(c, k, u, o))
  {
    if u.pc.CopyArchive? || u.pc.CopySum? || u.pc.CopyMeta? || u.pc.CopyLatest? {
      SendCopies(c, start, a, k, u, o);
    } else if u.pc.Check? || u.pc.Prune? || u.pc.Report? || u.pc.SendExit? {
      SendEnds(c, start, a, k, u, o);
    }
  }

  lemma StepInv(c: Config, start: Dir, p: Pod, e: Step)
    requires Inv(c, start, p) && Enabled(p, e)
    ensures Inv(c, start, Next(c, p, e))
  {
    var q := Next(c, p, e);
    match e {
      case Work(_) =>
        OthersKeepSent(c, start, p.addon, p.pack, q.addon, q.pack, p.send);
      case Addon(ok, touched) =>
        AddonKeeps(c, p.addon, p.pack, ok, touched);
        OthersKeepSent(c, start, p.addon, p.pack, q.addon, q.pack, p.send);
      case Pack(o) =>
        PackKeeps(c, p.addon, p.pack, o);
        OthersKeepSent(c, start, p.addon, p.pack, q.addon, q.pack, p.send);
      case Send(o) =>
        SendKeeps(c, start, p.addon, p.pack, p.send, o);
    }
  }

  lemma {:induction false} RunInv(c: Config, start: Dir, p: Pod, run: seq<Step>)
    requires Inv(c, start, p) && Possible(c, p, run)
    ensures Inv(c, start, Reached(c, p, run))
    decreases |run|
  {
    if run != [] {
      StepInv(c, start, p, run[0]);
      RunInv(c, start, Next(c, p, run[0]), run[1..]);
    }
  }

  lemma ReachedInv(c: Config, output: string, start: Dir, run: seq<Step>)
    requires Possible(c, Initial(output, start), run)
    ensures Inv(c, start, Reached(c, Initial(output, start), run))
  {
    RunInv(c, start, Initial(output, start), run);
  }
}
