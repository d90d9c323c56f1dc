/** Lexical path cleaning, and the import paths a restore accepts and resolves
    (api/v1alpha1/restorejob_types.go, api/v1alpha1/validation.go). */
module ImportPath {
  import opened Options
  import opened Strings

  // ---------------------------------------------------------------- path.Clean

  /** One segment of `path.Clean`: the segments kept so far, and what becomes of them. */
  function Push(rooted: bool, stack: seq<string>, segment: string): seq<string> {
    if segment == "" || segment == "." then stack
    else if segment != ".." then stack + [segment]
    else if stack != [] && stack[|stack| - 1] != ".." then stack[..|stack| - 1]
    else if rooted then stack
    else stack + [".."]
  }

  function Cleaned(rooted: bool, segments: seq<string>): seq<string> {
    if segments == [] then []
    else Push(rooted, Cleaned(rooted, segments[..|segments| - 1]), segments[|segments| - 1])
  }

  predicate IsAbs(path: string) {
    path != "" && path[0] == '/'
  }

  function Clean(path: string): string {
    if path == "" then "."
    else
      var stack := Cleaned(IsAbs(path), Split(path, '/'));
      if IsAbs(path) then "/" + Join(stack, "/")
      else if stack == [] then "." else Join(stack, "/")
  }

  // ---------------------------------------------------------------- the code

  function Slashed(path: string): string {
    if path == "" then "" else [if path[0] == '\\' then '/' else path[0]] + Slashed(path[1..])
  }

  predicate HasPrefix(s: string, prefix: string) {
    prefix <= s
  }

  function TrimPrefix(s: string, prefix: string): string {
    if prefix <= s then s[|prefix|..] else s
  }

  function NormalizedPath(path: string): string {
    var value := TrimSpace(Slashed(path));
    if value == "" then ""
    else if Clean(value) == "." then ""
    else TrimPrefix(Clean(value), "./")
  }

  datatype Format = Auto | Archive | Filesystem | Unknown(text: string)

  datatype ImportSource = ImportSource(storage: string, path: string, format: Format)

  datatype ImportError = StorageRequired | PathRequired | PathAbsolute | PathEscapes | FormatUnknown

  /** `RestoreImportSource.ValidateBasic`: the first check that fails, if one does. */
  function ValidateBasic(source: ImportSource): Option<ImportError> {
    var raw := TrimSpace(Slashed(source.path));
    var normalized := NormalizedPath(source.path);
    if TrimSpace(source.storage) == "" then Some(StorageRequired)
    else if raw == "" then Some(PathRequired)
    else if IsAbs(raw) then Some(PathAbsolute)
    else if normalized == "" then Some(PathRequired)
    else if normalized == ".." || HasPrefix(normalized, "../") then Some(PathEscapes)
    else if source.format.Unknown? then Some(FormatUnknown)
    else None
  }

  /** The path handed to the download script: resolving a restore normalises the path once, and
      reading it back normalises it again. */
  function ArtifactPath(source: ImportSource): string {
    NormalizedPath(NormalizedPath(source.path))
  }

  // ---------------------------------------------------------------- walking the tree

  /** How far a segment moves from the storage root. */
  function Move(segment: string): int {
    if segment == "" || segment == "." then 0 else if segment == ".." then -1 else 1
  }

  function Depth(segments: seq<string>): int {
    if segments == [] then 0 else Depth(segments[..|segments| - 1]) + Move(segments[|segments| - 1])
  }

  /** At no point does the walk stand above the root. */
  ghost predicate StaysInside(segments: seq<string>) {
    forall k | 0 <= k <= |segments| :: Depth(segments[..k]) >= 0
  }

  predicate Proper(segment: string) {
    segment != "" && segment != "." && segment != ".."
  }

  /** The cleaned segments are the directories the walk stands in, or begin with ".." as soon as
      it has once stood above the root. */
  lemma {:induction false} CleanedWalk(segments: seq<string>)
    ensures var stack := Cleaned(false, segments);
            if StaysInside(segments)
            then |stack| == Depth(segments) && forall i | 0 <= i < |stack| :: Proper(stack[i])
            else stack != [] && stack[0] == ".."
  {
    if segments == [] {
      assert segments[..0] == segments;
    } else {
      CleanedWalk(segments[..|segments| - 1]);
      InsideStep(segments);
    }
  }

  lemma InsideStep(segments: seq<string>)
    requires segments != []
    ensures StaysInside(segments) <==> StaysInside(segments[..|segments| - 1]) && Depth(segments) >= 0
  {
    var init := segments[..|segments| - 1];
    if StaysInside(segments) {
      assert segments[..|segments|] == segments;
      forall k | 0 <= k <= |init| ensures Depth(init[..k]) >= 0 {
        PrefixOfPrefix(segments, k);
      }
    }
    if StaysInside(init) && Depth(segments) >= 0 {
      forall k | 0 <= k <= |segments| ensures Depth(segments[..k]) >= 0 {
        PrefixOfPrefix(segments, k);
      }
    }
  }

  lemma PrefixOfPrefix(segments: seq<string>, k: nat)
    requires segments != [] && k <= |segments|
    ensures if k == |segments| then segments[..k] == segments else segments[..|segments| - 1][..k] == segments[..k]
  {
  }

  predicate Plain(segment: string) {
    Free(segment, '/') && segment != "" && segment != "."
  }

  lemma {:induction false} CleanedPlain(rooted: bool, segments: seq<string>)
    requires forall i | 0 <= i < |segments| :: Free(segments[i], '/')
    ensures forall i | 0 <= i < |Cleaned(rooted, segments)| :: Plain(Cleaned(rooted, segments)[i])
  {
    if segments != [] {
      var n := |segments| - 1;
      CleanedPlain(rooted, segments[..n]);
      assert Plain("..");
      assert segments[n] != "" && segments[n] != "." ==> Plain(segments[n]);
    }
  }

  lemma JoinNonEmpty(parts: seq<string>)
    requires parts != [] && parts[0] != ""
    ensures Join(parts, "/") != "" && Join(parts, "/")[0] == parts[0][0]
  {
  }

  /** Whether a joined path is `first`, or starts with it and a slash, is told by its first
      segment. */
  lemma FirstSegmentIs(stack: seq<string>, first: string)
    requires stack != [] && forall i | 0 <= i < |stack| :: Plain(stack[i])
    requires Free(first, '/')
    ensures var p := Join(stack, "/"); (p == first || HasPrefix(p, first + "/")) <==> stack[0] == first
  {
    var p := Join(stack, "/");
    SplitJoin(stack, '/');
    SplitFree(first, '/');
    if HasPrefix(p, first + "/") {
      assert p == first + ['/'] + p[|first| + 1..];
      SplitFirst(first, p[|first| + 1..], '/');
    }
    if |stack| > 1 {
      assert p == stack[0] + "/" + Join(stack[1..], "/");
    }
  }

  lemma FirstSegment(stack: seq<string>)
    requires stack != [] && forall i | 0 <= i < |stack| :: Plain(stack[i])
    ensures var p := Join(stack, "/"); (p == ".." || HasPrefix(p, "../")) <==> stack[0] == ".."
    ensures var p := Join(stack, "/"); (p == "." || HasPrefix(p, "./")) <==> stack[0] == "."
  {
    assert ".." + "/" == "../" && "." + "/" == "./";
    FirstSegmentIs(stack, "..");
    FirstSegmentIs(stack, ".");
  }

  /** For a path that is relative once trimmed, `NormalizedPath` is the stack of the walk. */
  lemma NormalizedIsStack(path: string)
    requires var raw := TrimSpace(Slashed(path)); raw != "" && !IsAbs(raw)
    ensures NormalizedPath(path) == Join(Cleaned(false, Split(TrimSpace(Slashed(path)), '/')), "/")
  {
    var raw := TrimSpace(Slashed(path));
    var stack := Cleaned(false, Split(raw, '/'));
    CleanedPlain(false, Split(raw, '/'));
    if stack != [] {
      FirstSegment(stack);
    }
  }

  /** An import source is accepted exactly when it names a storage, its format is known, its
      trimmed path is relative, and the walk along the path from the storage root never stands
      above the root and ends strictly below it. */
  lemma AcceptanceExact(source: ImportSource)
    ensures var raw := TrimSpace(Slashed(source.path));
            ValidateBasic(source) == None
            <==> && TrimSpace(source.storage) != ""
                 && !source.format.Unknown?
                 && raw != "" && !IsAbs(raw)
                 && StaysInside(Split(raw, '/')) && Depth(Split(raw, '/')) > 0
  {
    var raw := TrimSpace(Slashed(source.path));
    if raw != "" && !IsAbs(raw) {
      NormalizedIsStack(source.path);
      var stack := Cleaned(false, Split(raw, '/'));
      CleanedWalk(Split(raw, '/'));
      CleanedPlain(false, Split(raw, '/'));
      if stack != [] {
        FirstSegment(stack);
        JoinNonEmpty(stack);
      }
    }
  }

  // ---------------------------------------------------------------- normalising twice

  /** The shape of a cleaned stack: any ".." come first, and only in a relative path. */
  predicate Canonical(rooted: bool, stack: seq<string>) {
    && (forall i | 0 <= i < |stack| :: stack[i] != "" && stack[i] != "." && (rooted ==> stack[i] != ".."))
    && (forall i | 0 < i < |stack| :: stack[i] == ".." ==> stack[i - 1] == "..")
  }

  lemma {:induction false} CleanedCanonical(rooted: bool, segments: seq<string>)
    ensures Canonical(rooted, Cleaned(rooted, segments))
  {
    if segments != [] {
      CleanedCanonical(rooted, segments[..|segments| - 1]);
    }
  }

  lemma {:induction false} CanonicalCleaned(rooted: bool, stack: seq<string>)
    requires Canonical(rooted, stack)
    ensures Cleaned(rooted, stack) == stack
  {
    if stack != [] {
      CanonicalCleaned(rooted, stack[..|stack| - 1]);
    }
  }

  lemma {:induction false} CleanedAfterRoot(segments: seq<string>)
    ensures Cleaned(true, [""] + segments) == Cleaned(true, segments)
  {
    var all := [""] + segments;
    if segments != [] {
      assert all[..|all| - 1] == [""] + segments[..|segments| - 1];
      CleanedAfterRoot(segments[..|segments| - 1]);
    } else {
      assert all[..0] == [];
    }
  }

  /** Cleaning a clean path changes nothing. */
  lemma CleanIdempotent(path: string)
    ensures Clean(Clean(path)) == Clean(path)
  {
    if path != "" {
      var rooted := IsAbs(path);
      var stack := Cleaned(rooted, Split(path, '/'));
      CleanedCanonical(rooted, Split(path, '/'));
      CanonicalCleaned(rooted, stack);
      CleanedPlain(rooted, Split(path, '/'));
      if stack == [] {
        SplitFree("", '/');
        assert Clean(path) == if rooted then "/" else ".";
        CleanLiterals();
      } else {
        assert forall i | 0 <= i < |stack| :: Plain(stack[i]) ==> Free(stack[i], '/');
        SplitJoin(stack, '/');
        JoinNonEmpty(stack);
        if rooted {
          SplitFirst("", Join(stack, "/"), '/');
          assert "" + ['/'] + Join(stack, "/") == Clean(path);
          CleanedAfterRoot(stack);
        } else {
          assert !IsAbs(Clean(path)) by {
            assert stack[0][0] in stack[0];
          }
        }
      }
    } else {
      CleanLiterals();
    }
  }

  lemma CleanLiterals()
    ensures Clean("/") == "/" && Clean(".") == "."
  {
    assert Split("/", '/') == ["", ""];
    CleanedAfterRoot([""]);
    assert [""] + [""] == ["", ""];
    SplitFree(".", '/');
    assert Cleaned(false, []) == [];
    assert ["."][..0] == [];
    assert Cleaned(true, [""][..0]) == [];
  }

  function Size(parts: seq<string>): nat {
    if parts == [] then 0 else Size(parts[..|parts| - 1]) + |parts[|parts| - 1]| + 1
  }

  lemma {:induction false} JoinSize(parts: seq<string>)
    requires parts != []
    ensures |Join(parts, "/")| == Size(parts) - 1
  {
    var n := |parts| - 1;
    if n > 0 {
      JoinSize(parts[..n]);
      JoinSnoc(parts[..n], parts[n], "/");
      assert parts == parts[..n] + [parts[n]];
    } else {
      assert Size(parts[..0]) == 0;
    }
  }

  lemma {:induction false} CleanedSize(rooted: bool, segments: seq<string>)
    ensures Size(Cleaned(rooted, segments)) <= Size(segments)
    ensures segments != [] && segments[0] == "" ==> Size(Cleaned(rooted, segments)) < Size(segments)
  {
    if segments != [] {
      var n := |segments| - 1;
      CleanedSize(rooted, segments[..n]);
      var before := Cleaned(rooted, segments[..n]);
      var after := Cleaned(rooted, segments);
      if after == before + [segments[n]] {
        assert after[..|after| - 1] == before;
      }
      assert Size(after) <= Size(before) + |segments[n]| + 1;
    }
  }

  /** Cleaning never makes a path longer. */
  lemma CleanShrinks(path: string)
    requires path != ""
    ensures |Clean(path)| <= |path|
  {
    var rooted, segments := IsAbs(path), Split(path, '/');
    JoinSplit(path, '/');
    JoinSize(segments);
    CleanedSize(rooted, segments);
    var stack := Cleaned(rooted, segments);
    if stack != [] {
      JoinSize(stack);
    }
    if rooted {
      assert path == "" + ['/'] + path[1..];
      SplitFirst("", path[1..], '/');
    }
  }

  lemma {:induction false} SlashedFree(path: string)
    ensures Free(Slashed(path), '\\')
    ensures Free(path, '\\') ==> Slashed(path) == path
  {
    if path != "" {
      SlashedFree(path[1..]);
    }
  }

  lemma {:induction false} JoinWithin(parts: seq<string>, c: char)
    requires c != '/' && forall i | 0 <= i < |parts| :: Free(parts[i], c)
    ensures Free(Join(parts, "/"), c)
  {
    if |parts| > 1 {
      JoinWithin(parts[1..], c);
    }
  }

  lemma {:induction false} SplitWithin(s: string, c: char)
    requires Free(s, c)
    ensures forall i | 0 <= i < |Split(s, '/')| :: Free(Split(s, '/')[i], c)
  {
    if s != "" {
      SplitWithin(s[1..], c);
    }
  }

  lemma {:induction false} CleanedWithin(rooted: bool, segments: seq<string>, c: char)
    requires c != '.' && forall i | 0 <= i < |segments| :: Free(segments[i], c)
    ensures forall i | 0 <= i < |Cleaned(rooted, segments)| :: Free(Cleaned(rooted, segments)[i], c)
  {
    if segments != [] {
      CleanedWithin(rooted, segments[..|segments| - 1], c);
    }
  }

  lemma CleanFree(path: string)
    requires Free(path, '\\')
    ensures Free(Clean(path), '\\')
  {
    SplitWithin(path, '\\');
    CleanedWithin(IsAbs(path), Split(path, '/'), '\\');
    JoinWithin(Cleaned(IsAbs(path), Split(path, '/')), '\\');
  }

  /** The non-empty results of `NormalizedPath` are the clean paths other than ".". */
  lemma NormalizedIsClean(path: string)
    ensures var n := NormalizedPath(path);
            n == "" || (n == Clean(TrimSpace(Slashed(path))) && Clean(n) == n && n != "." && Free(n, '\\'))
  {
    var value := TrimSpace(Slashed(path));
    if value != "" && Clean(value) != "." {
      CleanIdempotent(value);
      SlashedFree(path);
      if '\\' in value {
        TrimWithin(Slashed(path), SPACES, '\\');
      }
      CleanFree(value);
      var stack := Cleaned(IsAbs(value), Split(value, '/'));
      CleanedPlain(IsAbs(value), Split(value, '/'));
      if !IsAbs(value) {
        FirstSegment(stack);
      } else {
        assert Clean(value)[0] == '/';
      }
    }
  }

  lemma TrimShorter(s: string)
    ensures TrimSpace(s) == s || |TrimSpace(s)| < |s|
  {
    var left := TrimLeft(s, SPACES);
    assert left == s || |left| < |s|;
    assert TrimRight(left, SPACES) == left || |TrimRight(left, SPACES)| < |left|;
  }

  /** Normalising twice is normalising once exactly when the normalised path needs no trimming. */
  lemma NormalizedTwiceTrims(path: string)
    ensures NormalizedPath(NormalizedPath(path)) == NormalizedPath(path)
            <==> TrimSpace(NormalizedPath(path)) == NormalizedPath(path)
  {
    var n := NormalizedPath(path);
    NormalizedIsClean(path);
    SlashedFree(n);
    TrimShorter(n);
    if n != "" && TrimSpace(n) == n {
      assert Clean(n) == n;
      NormalizedIsClean(n);
    } else if n != "" {
      var t := TrimSpace(n);
      NormalizedIsClean(n);
      if t != "" {
        CleanShrinks(t);
      }
    }
  }

  lemma {:induction false} JoinEndsWith(parts: seq<string>)
    requires parts != [] && parts[|parts| - 1] != ""
    ensures var j, last := Join(parts, "/"), parts[|parts| - 1]; j != "" && j[|j| - 1] == last[|last| - 1]
  {
    if |parts| > 1 {
      JoinEndsWith(parts[1..]);
    }
  }

  /** No white space at the outer edges of the first and of the last segment; in a rooted path only the
      last one has an outer edge. */
  predicate BareEdges(rooted: bool, stack: seq<string>) {
    stack != [] ==>
      var first, last := stack[0], stack[|stack| - 1];
      && (rooted || first == "" || first[0] !in SPACES)
      && (last == "" || last[|last| - 1] !in SPACES)
  }

  /** The outer edges of a joined path are those of its first and last segment. */
  lemma JoinedEdges(stack: seq<string>)
    requires stack != [] && forall i | 0 <= i < |stack| :: stack[i] != ""
    ensures var j, first, last := Join(stack, "/"), stack[0], stack[|stack| - 1];
            j != "" && j[0] == first[0] && j[|j| - 1] == last[|last| - 1]
  {
    JoinNonEmpty(stack);
    JoinEndsWith(stack);
  }

  lemma NoSlashSpace(j: string)
    requires j != ""
    ensures TrimSpace("/" + j) == "/" + j <==> j[|j| - 1] !in SPACES
    ensures TrimSpace(j) == j <==> j[0] !in SPACES && j[|j| - 1] !in SPACES
  {
    var n := "/" + j;
    TrimKeeps(n, SPACES);
    TrimKeeps(j, SPACES);
    assert n[0] == '/' && n[|n| - 1] == j[|j| - 1];
  }

  lemma SlashAlone(n: string)
    requires n == "/" || n == ""
    ensures TrimSpace(n) == n
  {
    TrimKeeps(n, SPACES);
  }

  lemma CleanEdges(rooted: bool, stack: seq<string>)
    requires forall i | 0 <= i < |stack| :: stack[i] != ""
    ensures var n := if rooted then "/" + Join(stack, "/") else Join(stack, "/");
            TrimSpace(n) == n <==> BareEdges(rooted, stack)
  {
    if stack == [] {
      SlashAlone("/" + Join(stack, "/"));
      SlashAlone(Join(stack, "/"));
    } else {
      JoinedEdges(stack);
      NoSlashSpace(Join(stack, "/"));
    }
  }

  /** What `NormalizedPath` makes of any path. */
  lemma NormalizedShape(path: string)
    ensures var raw := TrimSpace(Slashed(path));
            var stack := Cleaned(IsAbs(raw), Split(raw, '/'));
            NormalizedPath(path) == if IsAbs(raw) then "/" + Join(stack, "/") else Join(stack, "/")
  {
    var raw := TrimSpace(Slashed(path));
    if IsAbs(raw) {
      assert Clean(raw)[0] == '/';
    } else if raw == "" {
      SplitFree(raw, '/');
      assert [""][..0] == [];
    } else {
      NormalizedIsStack(path);
    }
  }

  /** Normalising twice is normalising once exactly when no white space stands at the outer edges of the
      segments that cleaning leaves of the path. */
  lemma NormalizedTwiceExact(path: string)
    ensures var raw := TrimSpace(Slashed(path));
            NormalizedPath(NormalizedPath(path)) == NormalizedPath(path)
            <==> BareEdges(IsAbs(raw), Cleaned(IsAbs(raw), Split(raw, '/')))
  {
    var raw := TrimSpace(Slashed(path));
    var stack := Cleaned(IsAbs(raw), Split(raw, '/'));
    NormalizedTwiceTrims(path);
    CleanedPlain(IsAbs(raw), Split(raw, '/'));
    NormalizedShape(path);
    CleanEdges(IsAbs(raw), stack);
  }

  lemma {:induction false} CleanedFrom(rooted: bool, segments: seq<string>, segment: string)
    requires segment in Cleaned(rooted, segments)
    ensures segment in segments
  {
    var n := |segments| - 1;
    var init := Cleaned(rooted, segments[..n]);
    assert segments == segments[..n] + [segments[n]];
    if segment in init {
      CleanedFrom(rooted, segments[..n], segment);
    }
  }

  lemma BareSegments(rooted: bool, segments: seq<string>)
    requires forall segment | segment in segments && segment != "" ::
               segment[0] !in SPACES && segment[|segment| - 1] !in SPACES
    ensures BareEdges(rooted, Cleaned(rooted, segments))
  {
    var stack := Cleaned(rooted, segments);
    if stack != [] {
      CleanedFrom(rooted, segments, stack[0]);
      CleanedFrom(rooted, segments, stack[|stack| - 1]);
    }
  }

  /** So a path none of whose segments starts or ends with white space may be normalised any number of
      times. */
  lemma NormalizedTwice(path: string)
    requires forall segment | segment in Split(TrimSpace(Slashed(path)), '/') && segment != "" ::
               segment[0] !in SPACES && segment[|segment| - 1] !in SPACES
    ensures NormalizedPath(NormalizedPath(path)) == NormalizedPath(path)
  {
    var raw := TrimSpace(Slashed(path));
    NormalizedTwiceExact(path);
    BareSegments(IsAbs(raw), Split(raw, '/'));
  }

  /** An accepted path without white space at those edges is resolved to the very directory stack that
      was accepted. */
  lemma ResolvedAsAccepted(source: ImportSource)
    requires ValidateBasic(source) == None
    requires BareEdges(false, Cleaned(false, Split(TrimSpace(Slashed(source.path)), '/')))
    ensures var segments := Split(TrimSpace(Slashed(source.path)), '/');
            ArtifactPath(source) == Join(Cleaned(false, segments), "/")
            && |Cleaned(false, segments)| == Depth(segments) > 0
  {
    NormalizedTwiceExact(source.path);
    AcceptanceExact(source);
    NormalizedIsStack(source.path);
    CleanedWalk(Split(TrimSpace(Slashed(source.path)), '/'));
  }

  lemma NormalizedRelative(path: string, stack: seq<string>)
    requires var raw := TrimSpace(Slashed(path)); raw != "" && !IsAbs(raw)
    requires Cleaned(false, Split(TrimSpace(Slashed(path)), '/')) == stack
    ensures NormalizedPath(path) == Join(stack, "/")
  {
    NormalizedIsStack(path);
  }

  lemma SplitDot(segment: string)
    requires Free(segment, '/')
    ensures Split("." + ['/'] + segment, '/') == [".", segment]
  {
    SplitFirst(".", segment, '/');
    SplitFree(segment, '/');
    assert ["."] + [segment] == [".", segment];
  }

  lemma NormalizedOnce(path: string)
    requires path == "./ a"
    ensures TrimSpace(Slashed(path)) == path && NormalizedPath(path) == " a"
  {
    SlashedFree(path);
    TrimKeeps(path, SPACES);
    SplitDot(" a");
    assert path == "." + ['/'] + " a";
    DotSegment(" a");
    NormalizedRelative(path, [" a"]);
  }

  lemma DotSegment(segment: string)
    requires Proper(segment)
    ensures Cleaned(false, [".", segment]) == [segment]
  {
    assert [".", segment][..1] == ["."] && ["."][..0] == [];
    assert Cleaned(false, ["."]) == [];
  }

  lemma NormalizedAgain(path: string)
    requires path == " a"
    ensures NormalizedPath(path) == "a"
  {
    SlashedFree(path);
    assert path[1..] == "a";
    TrimKeeps("a", SPACES);
    SplitFree("a", '/');
    assert ["a"][..0] == [];
    NormalizedRelative(path, ["a"]);
  }

  /** White space inside the path can come to its edge: the accepted path and the resolved path
      then differ. */
  lemma ResolvedDiffers(source: ImportSource)
    requires source.path == "./ a" && TrimSpace(source.storage) != "" && !source.format.Unknown?
    ensures ValidateBasic(source) == None && NormalizedPath(source.path) == " a" && ArtifactPath(source) == "a"
  {
    NormalizedOnce(source.path);
    NormalizedAgain(NormalizedPath(source.path));
  }
}
