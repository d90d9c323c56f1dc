/** Lists of notification endpoints: their annotation (controllers/common.go, notificationRefNames,
    and controllers/jobobserver_controller.go, parseNotificationAnnotation) and the check for
    duplicates (api/v1alpha1/validation.go). */
module Annotations {
  import opened Strings
  import opened Sorting

  /** The trimmed names, without the blank ones. */
  function TrimmedNames(refs: seq<string>): (names: seq<string>)
    ensures forall i | 0 <= i < |names| :: names[i] != "" && TrimSpace(names[i]) == names[i]
  {
    if refs == [] then []
    else
      var n := |refs| - 1;
      TrimTwice(refs[n]);
      if TrimSpace(refs[n]) == "" then TrimmedNames(refs[..n]) else TrimmedNames(refs[..n]) + [TrimSpace(refs[n])]
  }

  lemma TrimTwice(s: string)
    ensures TrimSpace(TrimSpace(s)) == TrimSpace(s)
  {
    TrimKeeps(TrimSpace(s), SPACES);
  }

  method NotificationRefNames(refs: seq<string>) returns (annotation: string)
    ensures annotation == Join(SortStrings(TrimmedNames(refs)), ",")
  {
    var names: seq<string> := [];
    for i := 0 to |refs|
      invariant names == TrimmedNames(refs[..i])
    {
      assert refs[..i + 1][..i] == refs[..i];
      var name := TrimSpace(refs[i]);
      if name != "" {
        names := names + [name];
      }
    }
    assert refs[..|refs|] == refs;
    annotation := Join(SortStrings(names), ",");
  }

  method ParseNotificationAnnotation(value: string) returns (names: seq<string>)
    ensures names == TrimmedNames(Split(value, ','))
  {
    var parts := Split(value, ',');
    names := [];
    for i := 0 to |parts|
      invariant names == TrimmedNames(parts[..i])
    {
      assert parts[..i + 1][..i] == parts[..i];
      var part := TrimSpace(parts[i]);
      if part != "" {
        names := names + [part];
      }
    }
    assert parts[..|parts|] == parts;
  }

  lemma {:induction false} TrimmedAlready(names: seq<string>)
    requires forall i | 0 <= i < |names| :: names[i] != "" && TrimSpace(names[i]) == names[i]
    ensures TrimmedNames(names) == names
  {
    if names != [] {
      TrimmedAlready(names[..|names| - 1]);
      assert names == names[..|names| - 1] + [names[|names| - 1]];
    }
  }

  lemma {:induction false} TrimmedFrom(refs: seq<string>, name: string)
    requires name in TrimmedNames(refs)
    ensures exists i :: 0 <= i < |refs| && name == TrimSpace(refs[i])
  {
    var n := |refs| - 1;
    if name != TrimSpace(refs[n]) {
      TrimmedFrom(refs[..n], name);
      var i :| 0 <= i < n && name == TrimSpace(refs[..n][i]);
      assert name == TrimSpace(refs[i]);
    }
  }

  /** Reading the annotation back gives the trimmed non-blank names, sorted, each as often as it was
      listed, for every list of names without commas. */
  lemma AnnotationRoundTrip(refs: seq<string>)
    requires forall i | 0 <= i < |refs| :: Free(refs[i], ',')
    ensures var names := SortStrings(TrimmedNames(refs));
            TrimmedNames(Split(Join(names, ","), ',')) == names
    ensures Ascending(SortStrings(TrimmedNames(refs)))
         && multiset(SortStrings(TrimmedNames(refs))) == multiset(TrimmedNames(refs))
  {
    var trimmed := TrimmedNames(refs);
    var names := SortStrings(trimmed);
    SortedAscending(trimmed);
    forall i | 0 <= i < |names|
      ensures names[i] != "" && TrimSpace(names[i]) == names[i] && Free(names[i], ',')
    {
      assert names[i] in multiset(trimmed);
      var k :| 0 <= k < |trimmed| && trimmed[k] == names[i];
      TrimmedFrom(refs, names[i]);
      var j :| 0 <= j < |refs| && names[i] == TrimSpace(refs[j]);
      if ',' in names[i] {
        TrimWithin(refs[j], SPACES, ',');
      }
    }
    if names == [] {
      SplitFree("", ',');
      assert Split(Join(names, ","), ',') == [""];
      assert [""][..0] == [];
      TrimKeeps("", SPACES);
    } else {
      SplitJoin(names, ',');
      TrimmedAlready(names);
    }
  }

  // ---------------------------------------------------------------- duplicates

  /** Two references with the same trimmed, non-blank name. */
  ghost predicate HasTwins(refs: seq<string>) {
    exists i, j :: 0 <= i < j < |refs| && TrimSpace(refs[i]) == TrimSpace(refs[j]) != ""
  }

  method HasDuplicateNames(refs: seq<string>) returns (duplicate: bool)
    ensures duplicate <==> HasTwins(refs)
    ensures duplicate <==> exists i, j :: 0 <= i < j < |refs| && TrimSpace(refs[i]) == TrimSpace(refs[j]) != ""
  {
    var seen: set<string> := {};
    for i := 0 to |refs|
      invariant forall n :: n in seen <==> n != "" && exists k :: 0 <= k < i && TrimSpace(refs[k]) == n
      invariant forall j, k | 0 <= j < k < i :: !(TrimSpace(refs[j]) == TrimSpace(refs[k]) != "")
    {
      var name := TrimSpace(refs[i]);
      if name == "" {
        continue;
      }
      if name in seen {
        return true;
      }
      seen := seen + {name};
    }
    return false;
  }
}
