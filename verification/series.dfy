/** The series a backup belongs to and the backend path it is stored under
    (controllers/runtime_helpers.go, buildSeries, buildBackendPath and artifactPath). */
module Series {
  import opened Strings
  import opened Naming
  import opened ImportPath

  /** Who a backup is run for: a policy, or a manual BackupJob when `policy` is empty. */
  datatype Run = Run(namespace: string, source: string, storage: string, policy: string, manual: string)

  /** The label values of a run. */
  datatype Labels = Labels(namespace: string, source: string, kind: string, owner: string, storage: string)

  function LabelsOf(h: ShortHash, r: Run): Labels {
    Labels(LabelValue(h, r.namespace), LabelValue(h, r.source),
           if r.policy != "" then "policy" else "manual",
           LabelValue(h, if r.policy != "" then r.policy else r.manual),
           LabelValue(h, r.storage))
  }

  function Components(first: string, l: Labels): seq<string> {
    [first, l.namespace, l.source, l.kind, l.owner, "storage", l.storage]
  }

  function BuildSeries(h: ShortHash, r: Run): string {
    Join(Components("source", LabelsOf(h, r)), "/")
  }

  function BuildBackendPath(h: ShortHash, r: Run): string {
    Join(Components("series", LabelsOf(h, r)), "/")
  }

  predicate SeriesLike(series: string) {
    "source" <= series
  }

  /** The backend path of a series. */
  function BackendPathOf(series: string): string
    requires SeriesLike(series)
  {
    "series" + series[6..]
  }

  predicate Component(part: string) {
    Free(part, '/') && Proper(part)
  }

  predicate AllComponents(parts: seq<string>) {
    forall i | 0 <= i < |parts| :: Component(parts[i])
  }

  predicate LabelsProper(l: Labels) {
    Component(l.namespace) && Component(l.source) && Component(l.kind) && Component(l.owner) && Component(l.storage)
  }

  lemma LabelIsComponent(l: string)
    requires IsLabel(l)
    ensures Component(l)
  {
    assert l[0] != '.';
    assert forall i | 0 <= i < |l| :: l[i] != '/';
  }

  lemma LabelPart(h: ShortHash, part: string)
    ensures Component(LabelValue(h, part)) && LabelValue(h, part) != ""
  {
    LabelNameIsLabel(h, MAX_LABEL_VALUE, [part]);
    LabelIsComponent(LabelValue(h, part));
  }

  lemma LabelsAreComponents(h: ShortHash, r: Run)
    ensures LabelsProper(LabelsOf(h, r))
  {
    LabelPart(h, r.namespace);
    LabelPart(h, r.source);
    LabelPart(h, if r.policy != "" then r.policy else r.manual);
    LabelPart(h, r.storage);
    KindIsComponent(r);
  }

  lemma FixedComponents()
    ensures Component("source") && Component("series") && Component("snapshots")
  {
  }

  lemma KindIsComponent(r: Run)
    ensures Component(if r.policy != "" then "policy" else "manual")
  {
  }

  lemma SplitsLabels(first: string, l: Labels)
    requires Component(first) && LabelsProper(l)
    ensures AllComponents(Components(first, l))
    ensures Split(Join(Components(first, l), "/"), '/') == Components(first, l)
  {
    SplitJoin(Components(first, l), '/');
  }

  lemma SplitsIntoLabels(h: ShortHash, r: Run)
    ensures Split(BuildSeries(h, r), '/') == Components("source", LabelsOf(h, r))
    ensures Split(BuildBackendPath(h, r), '/') == Components("series", LabelsOf(h, r))
  {
    LabelsAreComponents(h, r);
    FixedComponents();
    SplitsLabels("source", LabelsOf(h, r));
    SplitsLabels("series", LabelsOf(h, r));
  }

  /** A series and a backend path split back into seven components: the labels of namespace, source, owner and
      storage between fixed ones. */
  lemma SplitsBack(h: ShortHash, r: Run)
    ensures var owner := if r.policy != "" then r.policy else r.manual;
            var rest := [LabelValue(h, r.namespace), LabelValue(h, r.source),
                         if r.policy != "" then "policy" else "manual", LabelValue(h, owner), "storage",
                         LabelValue(h, r.storage)];
            && Split(BuildSeries(h, r), '/') == ["source"] + rest
            && Split(BuildBackendPath(h, r), '/') == ["series"] + rest
  {
    SplitsIntoLabels(h, r);
  }

  lemma JoinFirst(first: string, l: Labels)
    ensures Join(Components(first, l), "/") == first + ("/" + Join(Components(first, l)[1..], "/"))
    ensures Components(first, l)[1..] == [l.namespace, l.source, l.kind, l.owner, "storage", l.storage]
  {
  }

  lemma PathOfLabels(l: Labels)
    ensures var series := Join(Components("source", l), "/");
            SeriesLike(series) && BackendPathOf(series) == Join(Components("series", l), "/")
  {
    JoinFirst("source", l);
    JoinFirst("series", l);
    var rest := "/" + Join(Components("source", l)[1..], "/");
    assert ("source" + rest)[6..] == rest;
  }

  /** The path of a run is its series with another first component. */
  lemma PathOfSeries(h: ShortHash, r: Run)
    ensures SeriesLike(BuildSeries(h, r)) && BackendPathOf(BuildSeries(h, r)) == BuildBackendPath(h, r)
  {
    PathOfLabels(LabelsOf(h, r));
  }

  lemma BackendPathInjective(a: string, b: string)
    requires SeriesLike(a) && SeriesLike(b)
    ensures BackendPathOf(a) == BackendPathOf(b) <==> a == b
  {
    assert a == "source" + a[6..] && b == "source" + b[6..];
    assert BackendPathOf(a)[6..] == a[6..] && BackendPathOf(b)[6..] == b[6..];
  }

  lemma SameLabels(h: ShortHash, a: Run, b: Run)
    ensures LabelsOf(h, a) == LabelsOf(h, b) <==> AlikeLabelled(h, a, b)
  {
  }

  /** Both runs have the same labels, and both are for a policy or both are manual. */
  predicate AlikeLabelled(h: ShortHash, a: Run, b: Run) {
    && LabelValue(h, a.namespace) == LabelValue(h, b.namespace) && LabelValue(h, a.source) == LabelValue(h, b.source)
    && LabelValue(h, a.storage) == LabelValue(h, b.storage)
    && if a.policy != "" then b.policy != "" && LabelValue(h, a.policy) == LabelValue(h, b.policy)
       else b.policy == "" && LabelValue(h, a.manual) == LabelValue(h, b.manual)
  }

  /** Two runs share a series exactly when they share a backend path, and exactly when they have
      the same labels, so the records and the archives are divided among runs in the same way. */
  lemma SeriesAndPathAgree(h: ShortHash, a: Run, b: Run)
    ensures BuildSeries(h, a) == BuildSeries(h, b) <==> BuildBackendPath(h, a) == BuildBackendPath(h, b)
    ensures BuildSeries(h, a) == BuildSeries(h, b) <==> AlikeLabelled(h, a, b)
  {
    PathOfSeries(h, a);
    PathOfSeries(h, b);
    BackendPathInjective(BuildSeries(h, a), BuildSeries(h, b));
    SplitsIntoLabels(h, a);
    SplitsIntoLabels(h, b);
    ComponentsInjective("source", LabelsOf(h, a), LabelsOf(h, b));
    SameLabels(h, a, b);
  }

  lemma ComponentsInjective(first: string, a: Labels, b: Labels)
    ensures Components(first, a) == Components(first, b) <==> a == b
  {
    var s, t := Components(first, a), Components(first, b);
    assert s[1] == a.namespace && s[2] == a.source && s[3] == a.kind && s[4] == a.owner && s[6] == a.storage;
    assert t[1] == b.namespace && t[2] == b.source && t[3] == b.kind && t[4] == b.owner && t[6] == b.storage;
  }

  /** The series the observer falls back to, built from the labels of a scheduled Job, is the one
      the CronJob was rendered with. */
  lemma FallbackSeries(h: ShortHash, namespace: string, source: string, storage: string,
                       policy: string, nativeJob: string)
    requires policy != ""
    ensures BuildSeries(h, Run(namespace, LabelValue(h, source), LabelValue(h, storage),
                               LabelValue(h, policy), nativeJob))
         == BuildSeries(h, Run(namespace, source, storage, policy, ""))
  {
    LabelValueIdempotent(h, source);
    LabelValueIdempotent(h, storage);
    LabelValueIdempotent(h, policy);
    LabelPart(h, policy);
  }

  // ---------------------------------------------------------------- artifact paths

  function NonEmpty(elements: seq<string>): seq<string> {
    if elements == [] then []
    else if elements[0] == "" then NonEmpty(elements[1..])
    else [elements[0]] + NonEmpty(elements[1..])
  }

  /** `path.Join`. */
  function PathJoin(elements: seq<string>): string {
    var rest := NonEmpty(elements);
    if rest == [] then "" else Clean(Join(rest, "/"))
  }

  /** The path the restore reads, relative to the storage root. */
  function RestorePath(backendPath: string, stem: string): string {
    PathJoin([backendPath, "snapshots", stem + ".tgz"])
  }

  /** The path the upload script writes and the cleanup script removes. */
  function ArchivePath(backendPath: string, stem: string): string {
    backendPath + "/snapshots/" + stem + ".tgz"
  }

  lemma JoinPair(a: string, b: string)
    ensures Join([a, b], "/") == a + "/" + b
  {
    assert [a, b][1..] == [b];
  }

  /** A relative path without empty, "." and ".." segments is clean. */
  lemma ProperIsClean(parts: seq<string>)
    requires parts != [] && AllComponents(parts)
    ensures Clean(Join(parts, "/")) == Join(parts, "/")
  {
    SplitJoin(parts, '/');
    CanonicalCleaned(false, parts);
    JoinNonEmpty(parts);
    assert Component(parts[0]) && parts[0][0] in parts[0];
  }

  lemma {:induction false} NonEmptyAll(elements: seq<string>)
    requires forall i | 0 <= i < |elements| :: elements[i] != ""
    ensures NonEmpty(elements) == elements
  {
    if elements != [] {
      NonEmptyAll(elements[1..]);
    }
  }

  lemma FileComponent(stem: string)
    requires Free(stem, '/')
    ensures Component(stem + ".tgz")
  {
    var file := stem + ".tgz";
    assert |file| >= 4 && file[|file| - 1] == 'z';
  }

  /** Joining a file to a clean relative path needs no cleaning. */
  lemma JoinIsPlain(parts: seq<string>, path: string, dir: string, file: string)
    requires parts != [] && AllComponents(parts) && Component(dir) && Component(file)
    requires path == Join(parts, "/")
    ensures PathJoin([path, dir, file]) == path + "/" + dir + "/" + file
  {
    JoinNonEmpty(parts);
    NonEmptyAll([path, dir, file]);
    JoinTwo([path], [dir, file], "/");
    assert [path] + [dir, file] == [path, dir, file];
    JoinPair(dir, file);
    JoinTwo(parts, [dir, file], "/");
    ProperIsClean(parts + [dir, file]);
    assert path + "/" + (dir + "/" + file) == path + "/" + dir + "/" + file;
  }

  /** The restore reads the very archive the upload wrote, because a built backend path is already
      clean. */
  lemma RestoreReadsUpload(h: ShortHash, r: Run, stem: string)
    requires Free(stem, '/')
    ensures RestorePath(BuildBackendPath(h, r), stem) == ArchivePath(BuildBackendPath(h, r), stem)
         == BuildBackendPath(h, r) + "/snapshots/" + stem + ".tgz"
  {
    var l := LabelsOf(h, r);
    LabelsAreComponents(h, r);
    FixedComponents();
    SplitsLabels("series", l);
    FileComponent(stem);
    SameFile(l, stem);
  }

  lemma SameFile(l: Labels, stem: string)
    requires AllComponents(Components("series", l)) && Component(stem + ".tgz") && Component("snapshots")
    ensures var path := Join(Components("series", l), "/"); RestorePath(path, stem) == ArchivePath(path, stem)
  {
    var path := Join(Components("series", l), "/");
    JoinIsPlain(Components("series", l), path, "snapshots", stem + ".tgz");
    assert path + "/" + "snapshots" + "/" + (stem + ".tgz") == ArchivePath(path, stem);
  }
}
