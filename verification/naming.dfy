/** Object names and label values made from arbitrary parts (api/v1alpha1/naming.go). */
module Naming {
  import opened Strings

  const MAX_CRONJOB_NAME := 52
  const MAX_LABEL_VALUE := 63
  const MAX_SNAPSHOT_NAME := 63

  predicate IsLower(c: char) {
    'a' <= c <= 'z'
  }

  predicate IsUpper(c: char) {
    'A' <= c <= 'Z'
  }

  predicate IsDigit(c: char) {
    '0' <= c <= '9'
  }

  predicate IsAlnum(c: char) {
    IsLower(c) || IsUpper(c) || IsDigit(c)
  }

  predicate AllAlnum(s: string) {
    forall i | 0 <= i < |s| :: IsAlnum(s[i])
  }

  function Lower(s: string): (r: string)
    ensures |r| == |s|
    ensures forall i | 0 <= i < |s| :: r[i] == if IsUpper(s[i]) then s[i] - 'A' + 'a' else s[i]
  {
    seq(|s|, i requires 0 <= i < |s| => if IsUpper(s[i]) then s[i] - 'A' + 'a' else s[i])
  }

  function Upper(s: string): (r: string)
    ensures |r| == |s|
    ensures forall i | 0 <= i < |s| :: r[i] == if IsLower(s[i]) then s[i] - 'a' + 'A' else s[i]
  {
    seq(|s|, i requires 0 <= i < |s| => if IsLower(s[i]) then s[i] - 'a' + 'A' else s[i])
  }

  lemma LongerRun(run: string, c: char)
    requires AllAlnum(run) && IsAlnum(c)
    ensures AllAlnum(run + [c])
  {
  }

  /** The maximal runs of letters and digits, left to right. */
  function Runs(s: string): (runs: seq<string>)
    ensures forall i | 0 <= i < |runs| :: runs[i] != "" && AllAlnum(runs[i])
    ensures s != "" && IsAlnum(s[|s| - 1]) ==> runs != []
  {
    if s == "" then []
    else
      var n := |s| - 1;
      var before := Runs(s[..n]);
      if !IsAlnum(s[n]) then before
      else if n > 0 && IsAlnum(s[n - 1]) then
        assert s[..n][n - 1] == s[n - 1];
        LongerRun(before[|before| - 1], s[n]);
        before[..|before| - 1] + [before[|before| - 1] + [s[n]]]
      else before + [[s[n]]]
  }

  /** Splitting at every other character and dropping the empty pieces. */
  function Fields(s: string): seq<string> {
    FieldsFrom(s, "")
  }

  function FieldsFrom(s: string, field: string): seq<string>
    decreases |s|
  {
    if s == "" then (if field == "" then [] else [field])
    else if IsAlnum(s[0]) then FieldsFrom(s[1..], field + [s[0]])
    else (if field == "" then [] else [field]) + FieldsFrom(s[1..], "")
  }

  function OpenRun(s: string): string {
    if s != "" && IsAlnum(s[|s| - 1]) then Runs(s)[|Runs(s)| - 1] else ""
  }

  function ClosedRuns(s: string): seq<string> {
    if s != "" && IsAlnum(s[|s| - 1]) then Runs(s)[..|Runs(s)| - 1] else Runs(s)
  }

  lemma RunsSplit(s: string)
    ensures Runs(s) == ClosedRuns(s) + (if OpenRun(s) == "" then [] else [OpenRun(s)])
  {
  }

  /** What one character more makes of the runs. */
  lemma RunsOfNext(done: string, c: char)
    ensures Runs(done + [c])
         == if !IsAlnum(c) then Runs(done)
            else if done != "" && IsAlnum(done[|done| - 1]) then
              Runs(done)[..|Runs(done)| - 1] + [Runs(done)[|Runs(done)| - 1] + [c]]
            else Runs(done) + [[c]]
  {
    var next, n := done + [c], |done|;
    assert next[..n] == done && next[n] == c;
    if n > 0 {
      assert next[n - 1] == done[n - 1];
    }
  }

  lemma RunsStep(done: string, c: char)
    ensures OpenRun(done + [c]) == if IsAlnum(c) then OpenRun(done) + [c] else ""
    ensures ClosedRuns(done + [c])
         == if IsAlnum(c) || OpenRun(done) == "" then ClosedRuns(done) else ClosedRuns(done) + [OpenRun(done)]
  {
    RunsOfNext(done, c);
    assert (done + [c])[|done + [c]| - 1] == c;
    assert "" + [c] == [c];
  }

  /** The runs, built character by character, are the fields, split from the front. */
  lemma {:induction false} RunsAreFields(done: string, s: string)
    ensures Runs(done + s) == ClosedRuns(done) + FieldsFrom(s, OpenRun(done))
    decreases |s|
  {
    if s == "" {
      assert done + s == done;
    } else {
      assert done + [s[0]] + s[1..] == done + s;
      RunsAreFields(done + [s[0]], s[1..]);
      StepFields(done, s);
    }
  }

  lemma StepFields(done: string, s: string)
    requires s != ""
    ensures ClosedRuns(done) + FieldsFrom(s, OpenRun(done))
         == ClosedRuns(done + [s[0]]) + FieldsFrom(s[1..], OpenRun(done + [s[0]]))
  {
    RunsStep(done, s[0]);
    FieldsStep(ClosedRuns(done), s, OpenRun(done));
  }

  lemma FieldsStep(closed: seq<string>, s: string, field: string)
    requires s != ""
    ensures closed + FieldsFrom(s, field)
         == if IsAlnum(s[0]) then closed + FieldsFrom(s[1..], field + [s[0]])
            else (if field == "" then closed else closed + [field]) + FieldsFrom(s[1..], "")
  {
    if !IsAlnum(s[0]) {
      Regroup(closed, if field == "" then [] else [field], FieldsFrom(s[1..], ""));
    }
  }

  lemma Regroup<T>(a: seq<T>, b: seq<T>, c: seq<T>)
    ensures a + (b + c) == a + b + c
    ensures b == [] ==> a + b == a
  {
  }

  lemma RunsEqualFields(s: string)
    ensures Runs(s) == Fields(s)
  {
    RunsAreFields("", s);
    assert "" + s == s;
  }

  function OrDefault(s: string, default: string): string {
    if s == "" then default else s
  }

  /** What `sanitizeName` means: the runs of letters and digits, lower-cased, joined by single
      hyphens, or "dp" if there are none. */
  function Sanitized(value: string): string {
    OrDefault(Join(Runs(Lower(value)), "-"), "dp")
  }

  // ---------------------------------------------------------------- labels

  /** A DNS label (section 2.3.1 of RFC 1035, with the leading digit that section 2.1 of RFC 1123
      allows), in lower case, without two hyphens in a row. */
  predicate IsLabel(s: string) {
    && s != ""
    && (forall i | 0 <= i < |s| :: IsLower(s[i]) || IsDigit(s[i]) || s[i] == '-')
    && s[0] != '-' && s[|s| - 1] != '-'
    && (forall i | 0 <= i < |s| - 1 :: s[i] == '-' ==> s[i + 1] != '-')
  }

  predicate LowerAlnum(s: string) {
    forall i | 0 <= i < |s| :: IsLower(s[i]) || IsDigit(s[i])
  }

  lemma JoinLabels(a: string, b: string)
    requires IsLabel(a) && IsLabel(b)
    ensures IsLabel(a + "-" + b)
  {
    var s := a + "-" + b;
    assert s[|a|] == '-' && s[..|a|] == a && s[|a| + 1..] == b;
    forall i | 0 <= i < |s| - 1 && s[i] == '-' ensures s[i + 1] != '-' {
      assert s[|a| - 1] == a[|a| - 1];
      if i < |a| - 1 {
        assert s[i] == a[i] && s[i + 1] == a[i + 1];
      } else if i == |a| {
        assert s[i + 1] == b[0];
      } else {
        assert s[i] == b[i - |a| - 1] && s[i + 1] == b[i - |a|];
      }
    }
  }

  lemma {:induction false} JoinAllLabels(parts: seq<string>)
    requires parts != []
    requires forall i | 0 <= i < |parts| :: IsLabel(parts[i])
    ensures IsLabel(Join(parts, "-"))
  {
    if |parts| > 1 {
      JoinAllLabels(parts[1..]);
      JoinLabels(parts[0], Join(parts[1..], "-"));
    }
  }

  lemma {:induction false} RunsOfLower(s: string)
    requires forall i | 0 <= i < |s| :: !IsUpper(s[i])
    ensures forall k | 0 <= k < |Runs(s)| :: LowerAlnum(Runs(s)[k]) && IsLabel(Runs(s)[k])
  {
    if s != "" {
      RunsOfLower(s[..|s| - 1]);
    }
  }

  /** Whatever the value, its sanitised form is a label. */
  lemma SanitizedIsLabel(value: string)
    ensures IsLabel(Sanitized(value))
  {
    var runs := Runs(Lower(value));
    RunsOfLower(Lower(value));
    if runs != [] {
      JoinAllLabels(runs);
    }
  }

  predicate Spaced(s: string) {
    && (forall i | 0 <= i < |s| :: IsAlnum(s[i]) || s[i] == '-')
    && (s != "" ==> s[0] != '-')
    && (forall i | 0 <= i < |s| - 1 :: s[i] == '-' ==> s[i + 1] != '-')
  }

  /** Removing the hyphens of a well-spaced string and joining its runs again gives it back. */
  lemma {:induction false} RunsOfSpaced(s: string)
    requires Spaced(s)
    ensures s != "" ==> Runs(s) != []
    ensures s == Builder(s, "-")
  {
    if s != "" {
      var n := |s| - 1;
      assert Spaced(s[..n]) by {
        assert forall i | 0 <= i < n :: s[..n][i] == s[i];
      }
      RunsOfSpaced(s[..n]);
      assert s == s[..n] + [s[n]];
      BuilderStep(s[..n], s[n], "-");
    }
  }

  lemma {:induction false} JoinLast(runs: seq<string>, tail: string, sep: string)
    requires runs != []
    ensures Join(runs[..|runs| - 1] + [runs[|runs| - 1] + tail], sep) == Join(runs, sep) + tail
  {
    var n := |runs| - 1;
    if n > 0 {
      JoinSnoc(runs[..n], runs[n], sep);
      JoinSnoc(runs[..n], runs[n] + tail, sep);
      assert runs == runs[..n] + [runs[n]];
    }
  }

  /** A label is already sanitised. */
  lemma LabelIsSanitized(tag: string)
    requires IsLabel(tag)
    ensures Sanitized(tag) == tag
  {
    assert Lower(tag) == tag;
    assert Spaced(tag);
    RunsOfSpaced(tag);
  }

  // ---------------------------------------------------------------- sanitizeName

  lemma {:induction false} RunsIgnoreLeft(s: string, t: string)
    requires forall i | 0 <= i < |s| :: !IsAlnum(s[i])
    ensures Runs(s + t) == Runs(t)
    decreases |t|
  {
    if t == "" {
      RunsOfSeparators(s);
      assert s + t == s;
    } else {
      assert (s + t)[..|s + t| - 1] == s + t[..|t| - 1];
      RunsIgnoreLeft(s, t[..|t| - 1]);
    }
  }

  lemma {:induction false} RunsOfSeparators(s: string)
    requires forall i | 0 <= i < |s| :: !IsAlnum(s[i])
    ensures Runs(s) == []
  {
    if s != "" {
      RunsOfSeparators(s[..|s| - 1]);
    }
  }

  lemma {:induction false} RunsIgnoreRight(s: string, t: string)
    requires forall i | 0 <= i < |t| :: !IsAlnum(t[i])
    ensures Runs(s + t) == Runs(s)
    decreases |t|
  {
    if t == "" {
      assert s + t == s;
    } else {
      assert (s + t)[..|s + t| - 1] == s + t[..|t| - 1];
      RunsIgnoreRight(s, t[..|t| - 1]);
    }
  }

  lemma {:induction false} RunsOfTrimLeft(s: string, cut: set<char>)
    requires forall c | c in cut :: !IsAlnum(c)
    ensures Runs(TrimLeft(s, cut)) == Runs(s)
  {
    if s != "" && s[0] in cut {
      RunsOfTrimLeft(s[1..], cut);
      RunsIgnoreLeft([s[0]], s[1..]);
      assert s == [s[0]] + s[1..];
    }
  }

  lemma {:induction false} RunsOfTrimRight(s: string, cut: set<char>)
    requires forall c | c in cut :: !IsAlnum(c)
    ensures Runs(TrimRight(s, cut)) == Runs(s)
  {
    if s != "" && s[|s| - 1] in cut {
      RunsOfTrimRight(s[..|s| - 1], cut);
    }
  }

  /** Trimming separators changes no run. */
  lemma RunsOfTrimmed(s: string, cut: set<char>)
    requires forall c | c in cut :: !IsAlnum(c)
    ensures Runs(Trim(s, cut)) == Runs(s)
  {
    RunsOfTrimLeft(s, cut);
    RunsOfTrimRight(TrimLeft(s, cut), cut);
  }

  /** `sanitizeName`. */
  method SanitizeName(raw: string) returns (result: string)
    requires Ascii(raw)
    ensures result == Sanitized(raw)
  {
    var value := TrimSpace(Lower(raw));
    RunsOfTrimmed(Lower(raw), SPACES);
    if value == "" {
      return "dp";
    }
    NoUpperInTrimmed(Lower(raw));
    var builder := Hyphenate(value);
    result := Trim(builder, {'-'});
    if result == "" {
      result := "dp";
    }
  }

  /** The streaming loop of `sanitizeName`: a builder, and a flag for a trailing hyphen. */
  method Hyphenate(value: string) returns (builder: string)
    requires forall c | c in value :: !IsUpper(c)
    ensures Trim(builder, {'-'}) == Join(Runs(value), "-")
  {
    builder := "";
    var lastHyphen := false;
    for i := 0 to |value|
      invariant builder == Builder(value[..i], "-") && lastHyphen == EndsOpen(value[..i])
    {
      var r := value[i];
      assert value[..i + 1] == value[..i] + [r];
      assert r in value;
      BuilderStep(value[..i], r, "-");
      if IsLower(r) || IsDigit(r) {
        builder := builder + [r];
        lastHyphen := false;
      } else if !lastHyphen && |builder| > 0 {
        builder := builder + "-";
        lastHyphen := true;
      }
    }
    assert value[..|value|] == value;
    TrimJoined(value);
  }

  /** Whether some run has ended and the next has not begun. */
  predicate EndsOpen(s: string) {
    Runs(s) != [] && !IsAlnum(s[|s| - 1])
  }

  /** What the builder holds after the characters of `s`. */
  function Builder(s: string, sep: string): string {
    Join(Runs(s), sep) + (if EndsOpen(s) then sep else "")
  }

  lemma BuilderStep(s: string, c: char, sep: string)
    ensures Builder(s + [c], sep)
         == if IsAlnum(c) then Builder(s, sep) + [c]
            else if !EndsOpen(s) && Runs(s) != [] then Builder(s, sep) + sep
            else Builder(s, sep)
    ensures EndsOpen(s + [c]) == (!IsAlnum(c) && Runs(s) != [])
    ensures Runs(s + [c]) == [] <==> !IsAlnum(c) && Runs(s) == []
    ensures Builder(s, sep) == "" <==> Runs(s) == []
  {
    var t := s + [c];
    assert t[..|s|] == s && t[|s|] == c;
    var runs := Runs(s);
    if runs != [] {
      JoinEnds(runs, sep);
    }
    if IsAlnum(c) {
      if s != "" && IsAlnum(s[|s| - 1]) {
        assert t[|s| - 1] == s[|s| - 1];
        JoinLast(runs, [c], sep);
      } else if runs != [] {
        JoinSnoc(runs, [c], sep);
      }
    }
  }

  lemma NoUpperInTrimmed(s: string)
    requires forall c | c in s :: !IsUpper(c)
    ensures forall c | c in TrimSpace(s) :: !IsUpper(c)
  {
    forall c | c in TrimSpace(s) ensures c in s {
      TrimWithin(s, SPACES, c);
    }
  }

  /** Trimming hyphens off the builder takes off no more than the trailing one. */
  lemma TrimJoined(value: string)
    ensures var joined := Join(Runs(value), "-");
            Trim(joined, {'-'}) == joined && (Runs(value) != [] ==> Trim(joined + "-", {'-'}) == joined)
  {
    var runs := Runs(value);
    var joined := Join(runs, "-");
    if runs != [] {
      JoinEnds(runs, "-");
      assert TrimLeft(joined + "-", {'-'}) == joined + "-";
      assert (joined + "-")[..|joined|] == joined;
      assert TrimRight(joined + "-", {'-'}) == TrimRight(joined, {'-'});
    }
  }

  lemma {:induction false} JoinEnds(runs: seq<string>, sep: string)
    requires runs != []
    requires forall i | 0 <= i < |runs| :: runs[i] != "" && AllAlnum(runs[i])
    ensures var j := Join(runs, sep); j != "" && IsAlnum(j[0]) && IsAlnum(j[|j| - 1])
  {
    if |runs| > 1 {
      JoinEnds(runs[1..], sep);
    }
  }

  // ---------------------------------------------------------------- buildDNSLabelName

  predicate IsHash(s: string) {
    |s| == 8 && forall i | 0 <= i < |s| :: IsDigit(s[i]) || 'a' <= s[i] <= 'f'
  }

  /** The first 32 bits of a SHA-1 sum, of which nothing more is used than their hexadecimal text. */
  type ShortHash = string -> int

  function HexDigit(n: nat): char
    requires n < 16
  {
    if n < 10 then '0' + n as char else 'a' + (n - 10) as char
  }

  function Hex(n: int, width: nat): (s: string)
    ensures |s| == width
    decreases width
  {
    if width == 0 then "" else Hex(n / 16, width - 1) + [HexDigit(n % 16)]
  }

  function HashText(h: ShortHash, name: string): string {
    Hex(h(name), 8)
  }

  lemma {:induction false} HexDigits(n: int, width: nat)
    ensures forall i | 0 <= i < width :: IsDigit(Hex(n, width)[i]) || 'a' <= Hex(n, width)[i] <= 'f'
    decreases width
  {
    if width > 0 {
      HexDigits(n / 16, width - 1);
    }
  }

  lemma TextIsHash(h: ShortHash, name: string)
    ensures IsHash(HashText(h, name))
  {
    HexDigits(h(name), 8);
  }

  /** The name cut down to `maxLength` with a hash in place of its end. */
  function Shortened(name: string, hash: string, maxLength: nat): string
    requires |hash| == 8 && maxLength < |name|
  {
    if maxLength - 9 < 1 then
      if maxLength <= 8 then hash[..maxLength] else hash[..8]
    else
      var prefix := OrDefault(Trim(name[..maxLength - 9], {'-'}), "dp");
      var whole := prefix + "-" + hash;
      if |whole| <= maxLength then whole else Trim(whole[..maxLength], {'-'})
  }

  function SanitizedAll(parts: seq<string>): (r: seq<string>)
    ensures |r| == |parts|
    ensures forall i | 0 <= i < |parts| :: r[i] == Sanitized(parts[i])
  {
    seq(|parts|, i requires 0 <= i < |parts| => Sanitized(parts[i]))
  }

  function JoinedName(parts: seq<string>): string {
    if parts == [] then "dp" else Join(SanitizedAll(parts), "-")
  }

  /** What `buildDNSLabelName` computes. */
  function LabelName(h: ShortHash, maxLength: nat, parts: seq<string>): string {
    var name := JoinedName(parts);
    if |name| <= maxLength then name else Shortened(name, HashText(h, name), maxLength)
  }

  // ---------------------------------------------------------------- what a name is made of

  /** The runs of letters and digits of a part, in lower case; "dp" if it has none. */
  function PartWords(part: string): seq<string> {
    if Fields(Lower(part)) == [] then ["dp"] else Fields(Lower(part))
  }

  function AllWords(parts: seq<string>): seq<string> {
    if parts == [] then [] else PartWords(parts[0]) + AllWords(parts[1..])
  }

  /** The words of all parts in order, and "dp" if there is no part. */
  function NameWords(parts: seq<string>): seq<string> {
    if parts == [] then ["dp"] else AllWords(parts)
  }

  /** What the name of these parts is: the words joined by hyphens, if that is short enough; and else its
      beginning without trailing hyphens and the hash of the whole, or only the hash if there is no room. */
  ghost predicate IsNameOf(h: ShortHash, maxLength: nat, parts: seq<string>, name: string) {
    var text := Join(NameWords(parts), "-");
    if |text| <= maxLength then name == text && Split(name, '-') == NameWords(parts)
    else if maxLength > 9 then
      name == TrimRight(text[..maxLength - 9], {'-'}) + "-" + Hex(h(text), 8)
    else name == Hex(h(text), 8)[..if maxLength < 8 then maxLength else 8]
  }

  lemma PartIsWords(part: string)
    ensures Sanitized(part) == Join(PartWords(part), "-") && PartWords(part) != []
    ensures forall i | 0 <= i < |PartWords(part)| :: PartWords(part)[i] != "" && AllAlnum(PartWords(part)[i])
  {
    var runs := Runs(Lower(part));
    RunsEqualFields(Lower(part));
    if runs != [] {
      JoinEnds(runs, "-");
    }
  }

  lemma {:induction false} JoinedIsWords(parts: seq<string>)
    requires parts != []
    ensures Join(SanitizedAll(parts), "-") == Join(AllWords(parts), "-") && AllWords(parts) != []
    ensures forall i | 0 <= i < |AllWords(parts)| :: AllWords(parts)[i] != "" && AllAlnum(AllWords(parts)[i])
  {
    PartIsWords(parts[0]);
    if |parts| == 1 {
      assert AllWords(parts[1..]) == [];
      assert AllWords(parts) == PartWords(parts[0]);
    } else {
      JoinedIsWords(parts[1..]);
      assert SanitizedAll(parts)[1..] == SanitizedAll(parts[1..]);
      JoinTwo(PartWords(parts[0]), AllWords(parts[1..]), "-");
    }
  }

  lemma NameIsWords(parts: seq<string>)
    ensures JoinedName(parts) == Join(NameWords(parts), "-")
    ensures Split(JoinedName(parts), '-') == NameWords(parts)
  {
    if parts != [] {
      JoinedIsWords(parts);
    }
    assert forall i | 0 <= i < |NameWords(parts)| :: AllAlnum(NameWords(parts)[i]);
    SplitJoin(NameWords(parts), '-');
  }

  lemma TrimHyphens(name: string, n: nat)
    requires IsLabel(name) && 0 < n <= |name|
    ensures Trim(name[..n], {'-'}) == TrimRight(name[..n], {'-'}) != ""
  {
    assert name[..n][0] == name[0];
    TrimRightStart(name[..n], {'-'});
  }

  lemma {:induction false} TrimRightStart(s: string, cut: set<char>)
    requires s != "" && s[0] !in cut
    ensures TrimRight(s, cut) != ""
  {
    if s[|s| - 1] in cut {
      TrimRightStart(s[..|s| - 1], cut);
    }
  }

  /** However many parts there are, the name is made of their words. */
  lemma NameExact(h: ShortHash, maxLength: nat, parts: seq<string>)
    ensures IsNameOf(h, maxLength, parts, LabelName(h, maxLength, parts))
  {
    NameIsWords(parts);
    JoinedNameIsLabel(parts);
    var name := JoinedName(parts);
    if |name| > maxLength > 9 {
      TrimHyphens(name, maxLength - 9);
    }
  }

  /** Names that are short enough are the same exactly if their parts have the same words. */
  lemma ShortNamesDiffer(h: ShortHash, maxLength: nat, p: seq<string>, q: seq<string>)
    requires |Join(NameWords(p), "-")| <= maxLength && |Join(NameWords(q), "-")| <= maxLength
    ensures LabelName(h, maxLength, p) == LabelName(h, maxLength, q) <==> NameWords(p) == NameWords(q)
  {
    NameExact(h, maxLength, p);
    NameExact(h, maxLength, q);
  }

  lemma {:induction false} HexInjective(n: int, m: int, width: nat)
    requires 0 <= n < Power16(width) && 0 <= m < Power16(width)
    ensures Hex(n, width) == Hex(m, width) ==> n == m
    decreases width
  {
    if width > 0 && Hex(n, width) == Hex(m, width) {
      assert Hex(n, width)[..width - 1] == Hex(n / 16, width - 1);
      assert Hex(m, width)[..width - 1] == Hex(m / 16, width - 1);
      assert HexDigit(n % 16) == Hex(n, width)[width - 1] == Hex(m, width)[width - 1] == HexDigit(m % 16);
      HexInjective(n / 16, m / 16, width - 1);
    }
  }

  function Power16(width: nat): nat {
    if width == 0 then 1 else 16 * Power16(width - 1)
  }

  /** Names that are cut differ whenever the hashes of their whole texts do, though all that is left of the
      texts be the same. */
  lemma LongNamesDiffer(h: ShortHash, maxLength: nat, p: seq<string>, q: seq<string>)
    requires maxLength > 9 && |Join(NameWords(p), "-")| > maxLength && |Join(NameWords(q), "-")| > maxLength
    requires 0 <= h(Join(NameWords(p), "-")) < 0x1_0000_0000 && 0 <= h(Join(NameWords(q), "-")) < 0x1_0000_0000
    requires h(Join(NameWords(p), "-")) != h(Join(NameWords(q), "-"))
    ensures LabelName(h, maxLength, p) != LabelName(h, maxLength, q)
  {
    var x, y := h(Join(NameWords(p), "-")), h(Join(NameWords(q), "-"));
    NameExact(h, maxLength, p);
    NameExact(h, maxLength, q);
    var a, b := LabelName(h, maxLength, p), LabelName(h, maxLength, q);
    assert a[|a| - 8..] == Hex(x, 8) && b[|b| - 8..] == Hex(y, 8);
    HexPower();
    HexInjective(x, y, 8);
  }

  lemma HexPower()
    ensures Power16(8) == 0x1_0000_0000
  {
    assert Power16(4) == 0x1_0000;
    assert Power16(8) == 0x1_0000 * Power16(4);
  }

  /** The first two steps: every part sanitised, and the results joined. */
  method JoinSanitized(parts: seq<string>) returns (name: string)
    requires forall i | 0 <= i < |parts| :: Ascii(parts[i])
    ensures name == JoinedName(parts)
  {
    var sanitized: seq<string> := [];
    for i := 0 to |parts|
      invariant sanitized == SanitizedAll(parts[..i])
    {
      var part := SanitizeName(parts[i]);
      SanitizedIsLabel(parts[i]);
      if part != "" {
        sanitized := sanitized + [part];
      }
    }
    assert parts[..|parts|] == parts;
    if |sanitized| == 0 {
      sanitized := ["dp"];
    }
    name := Join(sanitized, "-");
  }

  method BuildDNSLabelName(h: ShortHash, maxLength: nat, parts: seq<string>) returns (name: string)
    requires forall i | 0 <= i < |parts| :: Ascii(parts[i])
    ensures name == LabelName(h, maxLength, parts)
    ensures IsNameOf(h, maxLength, parts, name)
  {
    NameExact(h, maxLength, parts);
    name := JoinSanitized(parts);
    if |name| > maxLength {
      name := Shortened(name, HashText(h, name), maxLength);
    }
  }

  lemma JoinedNameIsLabel(parts: seq<string>)
    ensures IsLabel(JoinedName(parts))
  {
    if parts != [] {
      forall i | 0 <= i < |parts| ensures IsLabel(SanitizedAll(parts)[i]) {
        SanitizedIsLabel(parts[i]);
      }
      JoinAllLabels(SanitizedAll(parts));
    }
  }

  lemma HashIsLabel(hash: string, n: nat)
    requires IsHash(hash) && 0 < n <= 8
    ensures IsLabel(hash[..n])
  {
  }

  /** Cutting a label and trimming hyphens leaves a label. */
  lemma PrefixIsLabel(name: string, n: nat)
    requires IsLabel(name) && 0 < n <= |name|
    ensures IsLabel(Trim(name[..n], {'-'}))
  {
    var cut := name[..n];
    assert cut[0] == name[0];
    assert TrimLeft(cut, {'-'}) == cut;
    var t := TrimRight(cut, {'-'});
    assert cut[0] !in {'-'};
    assert t[0] == name[0];
    forall i | 0 <= i < |t| ensures t[i] == name[i] {
    }
  }

  lemma ShortenedIsLabel(name: string, hash: string, maxLength: nat)
    requires IsLabel(name) && IsHash(hash) && 0 < maxLength < |name|
    ensures IsLabel(Shortened(name, hash, maxLength))
    ensures |Shortened(name, hash, maxLength)| <= maxLength
  {
    if maxLength - 9 < 1 {
      HashIsLabel(hash, if maxLength <= 8 then maxLength else 8);
    } else {
      HashIsLabel(hash, 8);
      assert hash[..8] == hash;
      PrefixIsLabel(name, maxLength - 9);
      JoinLabels(Trim(name[..maxLength - 9], {'-'}), hash);
    }
  }

  /** Every generated name is a label within its limit, the truncating branch included. */
  lemma LabelNameIsLabel(h: ShortHash, maxLength: nat, parts: seq<string>)
    requires maxLength > 0
    ensures IsLabel(LabelName(h, maxLength, parts))
    ensures |LabelName(h, maxLength, parts)| <= maxLength
  {
    var name := JoinedName(parts);
    JoinedNameIsLabel(parts);
    if |name| > maxLength {
      TextIsHash(h, name);
      ShortenedIsLabel(name, HashText(h, name), maxLength);
    }
  }

  /** `BuildLabelValue`. */
  function LabelValue(h: ShortHash, part: string): string {
    LabelName(h, MAX_LABEL_VALUE, [part])
  }

  /** A label of at most `maxLength` characters names itself. */
  lemma LabelNamesItself(h: ShortHash, maxLength: nat, tag: string)
    requires IsLabel(tag) && |tag| <= maxLength
    ensures LabelName(h, maxLength, [tag]) == tag
  {
    LabelIsSanitized(tag);
    assert SanitizedAll([tag]) == [tag];
  }

  /** And nothing else does. */
  lemma LabelValueNamesItselfExact(h: ShortHash, part: string)
    ensures LabelValue(h, part) == part <==> IsLabel(part) && |part| <= MAX_LABEL_VALUE
  {
    LabelNameIsLabel(h, MAX_LABEL_VALUE, [part]);
    if IsLabel(part) && |part| <= MAX_LABEL_VALUE {
      LabelNamesItself(h, MAX_LABEL_VALUE, part);
    }
  }

  /** A label value is its own label value. */
  lemma LabelValueIdempotent(h: ShortHash, part: string)
    ensures LabelValue(h, LabelValue(h, part)) == LabelValue(h, part)
  {
    LabelNameIsLabel(h, MAX_LABEL_VALUE, [part]);
    LabelNamesItself(h, MAX_LABEL_VALUE, LabelValue(h, part));
  }
}
