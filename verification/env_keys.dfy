/** Environment variable names made from parameter and secret names
    (controllers/runtime_helpers.go, envKey). */
module EnvKeys {
  import opened Strings
  import opened Naming

  /** A prefix like DP_PARAM_ or DP_SECRET_: a name that starts with a letter, with a single
      underscore at its end. */
  predicate GoodPrefix(prefix: string) {
    && |prefix| >= 2
    && IsUpper(prefix[0])
    && prefix[|prefix| - 1] == '_' && prefix[|prefix| - 2] != '_'
    && forall i | 0 <= i < |prefix| :: NameChar(prefix[i])
  }

  predicate NameChar(c: char) {
    IsUpper(c) || IsDigit(c) || c == '_'
  }

  /** A legal environment variable name (section 8.1 of the POSIX Base Definitions). */
  predicate IsEnvName(s: string) {
    s != "" && !IsDigit(s[0]) && forall i | 0 <= i < |s| :: NameChar(s[i])
  }

  /** The upper-cased runs of letters and digits behind the prefix, or the bare prefix. */
  function EnvName(prefix: string, raw: string): string
    requires prefix != ""
  {
    var runs := Runs(Upper(raw));
    if runs == [] then prefix[..|prefix| - 1] else prefix + Join(runs, "_")
  }

  function TrimSuffix(s: string, suffix: string): string {
    if |suffix| <= |s| && s[|s| - |suffix|..] == suffix then s[..|s| - |suffix|] else s
  }

  method EnvKey(prefix: string, raw: string) returns (key: string)
    requires GoodPrefix(prefix) && Ascii(raw)
    ensures key == EnvName(prefix, raw)
  {
    var upper := Upper(TrimSpace(raw));
    UpperTrimmed(raw);
    if upper == "" {
      return TrimSuffix(prefix, "_");
    }
    NoLowerInUpper(TrimSpace(raw));
    var builder := Underscored(prefix, upper);
    key := Trim(builder, {'_'});
    if key == "" {
      key := TrimSuffix(prefix, "_");
    }
  }

  /** The loop of `envKey`: a builder that starts from the prefix, and a flag for a trailing
      underscore. */
  method Underscored(prefix: string, upper: string) returns (builder: string)
    requires GoodPrefix(prefix)
    requires forall c | c in upper :: !IsLower(c)
    ensures Trim(builder, {'_'})
         == if Runs(upper) == [] then prefix[..|prefix| - 1] else prefix + Join(Runs(upper), "_")
  {
    builder := prefix;
    var lastUnderscore := prefix[|prefix| - 1] == '_';
    for i := 0 to |upper|
      invariant builder == prefix + Builder(upper[..i], "_")
      invariant lastUnderscore == (Runs(upper[..i]) == [] || EndsOpen(upper[..i]))
    {
      var r := upper[i];
      assert upper[..i + 1] == upper[..i] + [r];
      assert r in upper;
      BuilderStep(upper[..i], r, "_");
      if IsUpper(r) || IsDigit(r) {
        builder := builder + [r];
        lastUnderscore := false;
      } else if !lastUnderscore {
        builder := builder + "_";
        lastUnderscore := true;
      }
    }
    assert upper[..|upper|] == upper;
    TrimPrefixed(prefix, upper);
  }

  lemma NoLowerInUpper(s: string)
    ensures forall c | c in Upper(s) :: !IsLower(c)
  {
  }

  /** Upper-casing and trimming do not disturb each other's runs. */
  lemma UpperTrimmed(raw: string)
    ensures Runs(Upper(TrimSpace(raw))) == Runs(Upper(raw))
  {
    assert Upper(TrimSpace(raw)) == TrimSpace(Upper(raw)) by {
      UpperTrimLeft(raw);
      UpperTrimRight(TrimLeft(raw, SPACES));
    }
    RunsOfTrimmedSpace(Upper(raw));
  }

  lemma RunsOfTrimmedSpace(s: string)
    ensures Runs(TrimSpace(s)) == Runs(s)
  {
    RunsOfTrimmed(s, SPACES);
  }

  lemma {:induction false} UpperTrimLeft(s: string)
    ensures Upper(TrimLeft(s, SPACES)) == TrimLeft(Upper(s), SPACES)
  {
    if s != "" && s[0] in SPACES {
      UpperTrimLeft(s[1..]);
      assert Upper(s)[1..] == Upper(s[1..]);
    }
  }

  lemma {:induction false} UpperTrimRight(s: string)
    ensures Upper(TrimRight(s, SPACES)) == TrimRight(Upper(s), SPACES)
  {
    if s != "" && s[|s| - 1] in SPACES {
      UpperTrimRight(s[..|s| - 1]);
      assert Upper(s)[..|s| - 1] == Upper(s[..|s| - 1]);
    }
  }

  lemma TrimPrefixed(prefix: string, upper: string)
    requires GoodPrefix(prefix)
    ensures Trim(prefix + Builder(upper, "_"), {'_'})
         == if Runs(upper) == [] then prefix[..|prefix| - 1] else prefix + Join(Runs(upper), "_")
  {
    var runs := Runs(upper);
    var builder := prefix + Builder(upper, "_");
    assert builder[0] == prefix[0];
    assert TrimLeft(builder, {'_'}) == builder;
    if runs == [] {
      assert builder == prefix;
      assert TrimRight(prefix, {'_'}) == TrimRight(prefix[..|prefix| - 1], {'_'});
    } else {
      JoinEnds(runs, "_");
      var bare := prefix + Join(runs, "_");
      assert TrimRight(bare, {'_'}) == bare;
      if EndsOpen(upper) {
        assert builder == bare + "_";
        assert builder[..|builder| - 1] == bare;
      } else {
        assert builder == bare;
      }
    }
  }

  // ---------------------------------------------------------------- what the names are like

  lemma {:induction false} JoinNameChars(runs: seq<string>)
    requires forall i | 0 <= i < |runs| :: forall k | 0 <= k < |runs[i]| :: NameChar(runs[i][k])
    ensures forall k | 0 <= k < |Join(runs, "_")| :: NameChar(Join(runs, "_")[k])
  {
    if |runs| > 1 {
      JoinNameChars(runs[1..]);
    }
  }

  lemma {:induction false} RunsOfUpper(s: string)
    requires forall i | 0 <= i < |s| :: !IsLower(s[i])
    ensures forall i | 0 <= i < |Runs(s)| :: forall k | 0 <= k < |Runs(s)[i]| :: NameChar(Runs(s)[i][k])
  {
    if s != "" {
      RunsOfUpper(s[..|s| - 1]);
    }
  }

  /** Whatever the key, the variable name is legal. */
  lemma EnvNameIsLegal(prefix: string, raw: string)
    requires GoodPrefix(prefix)
    ensures IsEnvName(EnvName(prefix, raw))
  {
    var runs := Runs(Upper(raw));
    RunsOfUpper(Upper(raw));
    JoinNameChars(runs);
  }

  lemma {:induction false} RunsOfJoined(runs: seq<string>)
    requires forall i | 0 <= i < |runs| :: runs[i] != "" && AllAlnum(runs[i])
    ensures Runs(Join(runs, "_")) == runs
  {
    if |runs| == 1 {
      RunsOfRun(runs[0], "");
      assert "" + runs[0] == runs[0];
      RunsSplit(runs[0]);
      assert [] + [runs[0]] == runs;
    } else if |runs| > 1 {
      var n := |runs| - 1;
      assert runs == runs[..n] + [runs[n]];
      JoinSnoc(runs[..n], runs[n], "_");
      RunsOfJoined(runs[..n]);
      var front := Join(runs[..n], "_") + "_";
      assert front[..|front| - 1] == Join(runs[..n], "_");
      RunsOfRun(runs[n], front);
      RunsSplit(front + runs[n]);
    }
  }

  /** One more run after a separator. */
  lemma {:induction false} RunsOfRun(run: string, front: string)
    requires run != "" && AllAlnum(run)
    requires front != "" ==> !IsAlnum(front[|front| - 1])
    ensures OpenRun(front + run) == run && ClosedRuns(front + run) == Runs(front)
  {
    var n := |run| - 1;
    var done := front + run[..n];
    assert done + [run[n]] == front + run;
    if n > 0 {
      RunsOfRun(run[..n], front);
      assert run[..n] + [run[n]] == run;
    } else {
      assert done == front;
      assert "" + [run[0]] == run;
    }
    RunsStep(done, run[n]);
  }

  /** Two keys share a variable name exactly when they have the same runs, and the part of a name
      behind its prefix is a key that gives the name again. */
  lemma EnvNameExact(prefix: string, raw: string, other: string)
    requires GoodPrefix(prefix)
    ensures EnvName(prefix, raw) == EnvName(prefix, other) <==> Runs(Upper(raw)) == Runs(Upper(other))
    ensures Runs(Upper(raw)) != [] ==>
              EnvName(prefix, EnvName(prefix, raw)[|prefix|..]) == EnvName(prefix, raw)
  {
    var a, b := Runs(Upper(raw)), Runs(Upper(other));
    RunsOfJoined(a);
    RunsOfJoined(b);
    if a != [] {
      var key := EnvName(prefix, raw);
      assert key[|prefix|..] == Join(a, "_");
      RunsOfUpper(Upper(raw));
      JoinNameChars(a);
      assert Upper(Join(a, "_")) == Join(a, "_");
      if b != [] {
        assert EnvName(prefix, other)[|prefix|..] == Join(b, "_");
      } else {
        JoinEnds(a, "_");
      }
    } else if b != [] {
      JoinEnds(b, "_");
    }
  }
}
