/** The name the package stage gives a snapshot (controllers/runtime_helpers.go,
    buildArtifactPackageContainer): a UTC time stamp, a hyphen and a suffix. */
module Stems {
  import opened Strings
  import opened NfsBackend
  import opened LatestJson

  datatype Clock = Clock(year: nat, month: nat, day: nat, hour: nat, minute: nat, second: nat)

  ghost predicate FourDigitYear(c: Clock) {
    c.year < 10000 && c.month < 100 && c.day < 100 && c.hour < 100 && c.minute < 100 && c.second < 100
  }

  ghost predicate Earlier(a: Clock, b: Clock) {
    || a.year < b.year
    || (a.year == b.year
        && (|| a.month < b.month
            || (a.month == b.month
                && (|| a.day < b.day
                    || (a.day == b.day
                        && (|| a.hour < b.hour
                            || (a.hour == b.hour
                                && (|| a.minute < b.minute
                                    || (a.minute == b.minute && a.second < b.second)))))))))
  }

  function Padded(n: nat, width: nat): (s: string)
    ensures |s| == width
    ensures forall i | 0 <= i < width :: '0' <= s[i] <= '9'
  {
    if width == 0 then "" else Padded(n / 10, width - 1) + ['0' + (n % 10) as char]
  }

  /** `date -u +%Y%m%dT%H%M%SZ`. */
  function DateText(c: Clock): (s: string)
    ensures |s| == 16 && Free(s, '.')
  {
    Padded(c.year, 4) + Padded(c.month, 2) + Padded(c.day, 2) + "T"
    + Padded(c.hour, 2) + Padded(c.minute, 2) + Padded(c.second, 2) + "Z"
  }

  function ToLower(c: char): char {
    if 'A' <= c <= 'Z' then 'a' + (c - 'A') else c
  }

  /** `tr '[:upper:]' '[:lower:]' | sed 's/[^a-z0-9]/-/g'`; `sed` works line by line, so a line
      break inside the request stays. */
  function Requested(s: string): (r: string)
    ensures |r| == |s| && Free(r, '.')
  {
    if s == "" then ""
    else
      var c := ToLower(s[0]);
      [if 'a' <= c <= 'z' || '0' <= c <= '9' || c == '\n' then c else '-'] + Requested(s[1..])
  }

  function StemOf(c: Clock, executionSlug: string, requested: string): string {
    DateText(c) + "-" + (if requested != "" then Requested(requested) else executionSlug)
  }

  // ---------------------------------------------------------------- what a stem tells

  /** The number a numeral stands for. */
  function Number(s: string): int {
    if s == "" then 0 else 10 * Number(s[..|s| - 1]) + (s[|s| - 1] as int - '0' as int)
  }

  lemma {:induction false} NumberOfPadded(n: nat, width: nat)
    requires n < Power10(width)
    ensures Number(Padded(n, width)) == n
  {
    if width > 0 {
      NumberOfPadded(n / 10, width - 1);
      var s := Padded(n, width);
      assert s[..width - 1] == Padded(n / 10, width - 1);
    }
  }

  lemma NumberOfTwo(n: nat)
    requires n < 100
    ensures Number(Padded(n, 2)) == n
  {
    Powers();
    NumberOfPadded(n, 2);
  }

  lemma NumberOfFour(n: nat)
    requires n < 10000
    ensures Number(Padded(n, 4)) == n
  {
    Powers();
    NumberOfPadded(n, 4);
  }

  lemma Sliced(a: string, b: string, c: string, d: string, e: string, f: string)
    requires |a| == 4 && |b| == |c| == |d| == |e| == |f| == 2
    ensures var s := a + b + c + "T" + d + e + f + "Z";
            && |s| == 16 && s[..4] == a && s[4..6] == b && s[6..8] == c && s[8] == 'T'
            && s[9..11] == d && s[11..13] == e && s[13..15] == f && s[15] == 'Z'
  {
  }

  /** The time stamp can be read back. */
  lemma DateExact(c: Clock)
    requires FourDigitYear(c)
    ensures var s := DateText(c);
            && Number(s[..4]) == c.year && Number(s[4..6]) == c.month && Number(s[6..8]) == c.day && s[8] == 'T'
            && Number(s[9..11]) == c.hour && Number(s[11..13]) == c.minute && Number(s[13..15]) == c.second
            && s[15] == 'Z'
  {
    NumberOfFour(c.year);
    NumberOfTwo(c.month);
    NumberOfTwo(c.day);
    NumberOfTwo(c.hour);
    NumberOfTwo(c.minute);
    NumberOfTwo(c.second);
    Sliced(Padded(c.year, 4), Padded(c.month, 2), Padded(c.day, 2), Padded(c.hour, 2), Padded(c.minute, 2),
           Padded(c.second, 2));
  }

  lemma Powers()
    ensures Power10(2) == 100 && Power10(4) == 10000
  {
    assert Power10(1) == 10;
    assert Power10(3) == 1000;
  }

  /** A requested name keeps its letters, in lower case, its digits and its line breaks; every other character
      becomes a hyphen. */
  lemma {:induction false} RequestedExact(s: string, i: nat)
    requires i < |s|
    ensures Requested(s)[i] == if 'a' <= s[i] <= 'z' || '0' <= s[i] <= '9' || s[i] == '\n' then s[i]
                               else if 'A' <= s[i] <= 'Z' then s[i] - 'A' + 'a'
                               else '-'
  {
    if i > 0 {
      RequestedExact(s[1..], i - 1);
    }
  }

  /** A stem is the time stamp, a hyphen, and the requested name or else the slug of the execution. */
  lemma StemExact(c: Clock, executionSlug: string, requested: string)
    ensures var s := StemOf(c, executionSlug, requested);
            && s[..16] == DateText(c) && s[16] == '-'
            && s[17..] == (if requested == "" then executionSlug else Requested(requested))
  {
    var s := StemOf(c, executionSlug, requested);
    assert s == DateText(c) + ("-" + (if requested != "" then Requested(requested) else executionSlug));
  }

  // ---------------------------------------------------------------- order

  lemma {:induction false} LessConcat(a: string, b: string, x: string, y: string)
    requires |a| == |b|
    ensures Less(a + x, b + y) <==> Less(a, b) || (a == b && Less(x, y))
  {
    if a == [] {
      assert a + x == x && b + y == y;
    } else {
      assert (a + x)[1..] == a[1..] + x && (b + y)[1..] == b[1..] + y;
      LessConcat(a[1..], b[1..], x, y);
      assert a == [a[0]] + a[1..] && b == [b[0]] + b[1..];
    }
  }

  function Power10(w: nat): nat {
    if w == 0 then 1 else 10 * Power10(w - 1)
  }

  /** Fixed-width numerals compare as the numbers do. */
  lemma {:induction false} PaddedOrder(n: nat, m: nat, width: nat)
    requires n < Power10(width) && m < Power10(width)
    ensures Less(Padded(n, width), Padded(m, width)) <==> n < m
    ensures Padded(n, width) == Padded(m, width) <==> n == m
  {
    if width > 0 {
      PaddedOrder(n / 10, m / 10, width - 1);
      var x, y := ['0' + (n % 10) as char], ['0' + (m % 10) as char];
      LessConcat(Padded(n / 10, width - 1), Padded(m / 10, width - 1), x, y);
      assert Less(x, y) <==> n % 10 < m % 10;
      assert n == 10 * (n / 10) + n % 10 && m == 10 * (m / 10) + m % 10;
      if Padded(n, width) == Padded(m, width) {
        assert Padded(n, width)[..width - 1] == Padded(n / 10, width - 1);
        assert Padded(m, width)[..width - 1] == Padded(m / 10, width - 1);
        assert Padded(n, width)[width - 1] == Padded(m, width)[width - 1];
      }
    }
  }

  lemma FieldOrder(n: nat, m: nat, width: nat, x: string, y: string)
    requires n < Power10(width) && m < Power10(width)
    ensures Less(Padded(n, width) + x, Padded(m, width) + y) <==> n < m || (n == m && Less(x, y))
  {
    PaddedOrder(n, m, width);
    LessConcat(Padded(n, width), Padded(m, width), x, y);
  }

  /** The time stamps order as the clocks do, whatever follows them. */
  lemma DateOrder(a: Clock, b: Clock, x: string, y: string)
    requires FourDigitYear(a) && FourDigitYear(b)
    ensures Less(DateText(a) + x, DateText(b) + y) <==> Earlier(a, b) || (a == b && Less(x, y))
  {
    var a6, b6 := Padded(a.second, 2) + ("Z" + x), Padded(b.second, 2) + ("Z" + y);
    var a5, b5 := Padded(a.minute, 2) + a6, Padded(b.minute, 2) + b6;
    var a4, b4 := Padded(a.hour, 2) + a5, Padded(b.hour, 2) + b5;
    var a3, b3 := Padded(a.day, 2) + ("T" + a4), Padded(b.day, 2) + ("T" + b4);
    var a2, b2 := Padded(a.month, 2) + a3, Padded(b.month, 2) + b3;
    Powers();
    assert DateText(a) + x == Padded(a.year, 4) + a2;
    assert DateText(b) + y == Padded(b.year, 4) + b2;
    LessAfterCommonPrefix("Z", x, y);
    FieldOrder(a.second, b.second, 2, "Z" + x, "Z" + y);
    FieldOrder(a.minute, b.minute, 2, a6, b6);
    FieldOrder(a.hour, b.hour, 2, a5, b5);
    LessAfterCommonPrefix("T", a4, b4);
    FieldOrder(a.day, b.day, 2, "T" + a4, "T" + b4);
    FieldOrder(a.month, b.month, 2, a3, b3);
    FieldOrder(a.year, b.year, 4, a2, b2);
  }

  /** A snapshot packaged later sorts after one packaged earlier, whatever their suffixes, and a
      stem has no dot, so archives and metadata files sort alike. */
  lemma LaterStemSortsAfter(a: Clock, b: Clock, slugA: string, requestedA: string,
                            slugB: string, requestedB: string)
    requires FourDigitYear(a) && FourDigitYear(b) && Earlier(a, b)
    requires DotFree(slugA) && DotFree(slugB)
    ensures var older, newer := StemOf(a, slugA, requestedA), StemOf(b, slugB, requestedB);
            && DotFree(older) && DotFree(newer)
            && ArchiveAfter(newer, older) && MetaAfter(newer, older)
  {
    var older, newer := StemOf(a, slugA, requestedA), StemOf(b, slugB, requestedB);
    assert older == DateText(a) + older[16..] && newer == DateText(b) + newer[16..];
    assert older + ".tgz" == DateText(a) + (older[16..] + ".tgz");
    assert newer + ".tgz" == DateText(b) + (newer[16..] + ".tgz");
    DateOrder(a, b, older[16..] + ".tgz", newer[16..] + ".tgz");
    SameOrder(newer, older);
  }
}
