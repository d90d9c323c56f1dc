/** Overlaying lists of named entries: environment variables (controllers/runtime_helpers.go,
    mergeEnvVars) and secret references (mergeRestoreSecretRefs). */
module Overlay {
  import opened Ranking

  datatype Entry<V> = Entry(name: string, value: V)

  /** What a list of entries means: the last entry of a name counts. */
  function Lookup<V>(entries: seq<Entry<V>>): map<string, V> {
    if entries == [] then map[]
    else
      var n := |entries| - 1;
      Lookup(entries[..n])[entries[n].name := entries[n].value]
  }

  function Names<V>(entries: seq<Entry<V>>): (names: seq<string>)
    ensures |names| == |entries|
    ensures forall i | 0 <= i < |entries| :: names[i] == entries[i].name
  {
    seq(|entries|, i requires 0 <= i < |entries| => entries[i].name)
  }

  function Flatten<V>(lists: seq<seq<V>>): seq<V> {
    if lists == [] then [] else Flatten(lists[..|lists| - 1]) + lists[|lists| - 1]
  }

  /** The environments of the overlays put over `env`, one after the other. */
  function Overridden<V>(env: map<string, V>, overlays: seq<seq<Entry<V>>>): map<string, V> {
    if overlays == [] then env
    else Overridden(env, overlays[..|overlays| - 1]) + Lookup(overlays[|overlays| - 1])
  }

  /** The names that are not known yet, each once, in the order of first occurrence. */
  function NewNames(known: seq<string>, names: seq<string>): seq<string> {
    if names == [] then []
    else
      var n := |names| - 1;
      var before := NewNames(known, names[..n]);
      if names[n] in known || names[n] in before then before else before + [names[n]]
  }

  /** No later entry has the name of entry `i`. */
  ghost predicate LastOfName<V>(entries: seq<Entry<V>>, i: nat) {
    i < |entries| && forall j | i < j < |entries| :: entries[j].name != entries[i].name
  }

  /** The whole result of a merge: names of the base in their places and then the new names; each
      entry that is the last of its name has the overridden value, and the others are as in the
      base. */
  ghost predicate IsMerge<V>(base: seq<Entry<V>>, added: seq<Entry<V>>, result: seq<Entry<V>>) {
    && Names(result) == Names(base) + NewNames(Names(base), Names(added))
    && Lookup(result) == Lookup(base + added)
    && (forall i | 0 <= i < |base| && !LastOfName(base, i) :: result[i] == base[i])
  }

  lemma {:induction false} LookupConcat<V>(a: seq<Entry<V>>, b: seq<Entry<V>>)
    ensures Lookup(a + b) == Lookup(a) + Lookup(b)
    decreases |b|
  {
    if b == [] {
      assert a + b == a;
    } else {
      assert (a + b)[..|a + b| - 1] == a + b[..|b| - 1];
      LookupConcat(a, b[..|b| - 1]);
    }
  }

  lemma {:induction false} LookupFlattened<V>(base: seq<Entry<V>>, overlays: seq<seq<Entry<V>>>)
    ensures Lookup(base + Flatten(overlays)) == Overridden(Lookup(base), overlays)
  {
    if overlays == [] {
      assert base + [] == base;
    } else {
      var n := |overlays| - 1;
      LookupFlattened(base, overlays[..n]);
      assert base + Flatten(overlays) == base + Flatten(overlays[..n]) + overlays[n];
      LookupConcat(base + Flatten(overlays[..n]), overlays[n]);
    }
  }

  /** Replacing the last entry of a name replaces what the name means. */
  lemma {:induction false} LookupReplaced<V>(entries: seq<Entry<V>>, i: nat, e: Entry<V>)
    requires LastOfName(entries, i) && entries[i].name == e.name
    ensures Lookup(entries[i := e]) == Lookup(entries)[e.name := e.value]
  {
    var n := |entries| - 1;
    if i == n {
      assert entries[i := e][..n] == entries[..n];
    } else {
      assert entries[i := e][..n] == entries[..n][i := e];
      LookupReplaced(entries[..n], i, e);
    }
  }

  /** The index map of the loop: each name present, at the last entry that has it. */
  ghost predicate Indexed<V>(entries: seq<Entry<V>>, index: map<string, nat>) {
    && (forall n | n in index :: LastOfName(entries, index[n]) && entries[index[n]].name == n)
    && (forall i | 0 <= i < |entries| :: entries[i].name in index)
  }

  /** The last entry of a name in the result is, within the base, the last one there too. */
  lemma LastInBase<V>(base: seq<Entry<V>>, added: seq<Entry<V>>, result: seq<Entry<V>>, i: nat)
    requires IsMerge(base, added, result) && LastOfName(result, i) && i < |base|
    ensures LastOfName(base, i)
  {
    assert Names(result)[i] == Names(base)[i];
    forall j | i < j < |base| ensures base[j].name != base[i].name {
      assert Names(result)[j] == Names(base)[j];
    }
  }

  /** A name that is known already adds no new one. */
  lemma NamesKept<V>(base: seq<Entry<V>>, added: seq<Entry<V>>, result: seq<Entry<V>>, i: nat, e: Entry<V>)
    requires Names(result) == Names(base) + NewNames(Names(base), Names(added))
    requires i < |result| && result[i].name == e.name
    ensures Names(result[i := e]) == Names(base) + NewNames(Names(base), Names(added + [e]))
  {
    var known, extra := Names(base), NewNames(Names(base), Names(added));
    assert Names(added + [e])[..|added|] == Names(added);
    assert Names(result)[i] == e.name;
    assert (known + extra)[i] == if i < |known| then known[i] else extra[i - |known|];
    assert e.name in known || e.name in extra;
    assert Names(result[i := e]) == Names(result);
  }

  lemma MeaningReplaced<V>(base: seq<Entry<V>>, added: seq<Entry<V>>, result: seq<Entry<V>>, i: nat, e: Entry<V>)
    requires Lookup(result) == Lookup(base + added)
    requires LastOfName(result, i) && result[i].name == e.name
    ensures Lookup(result[i := e]) == Lookup(base + (added + [e]))
  {
    LookupReplaced(result, i, e);
    LookupConcat(base + added, [e]);
    assert base + (added + [e]) == base + added + [e];
  }

  lemma IndexReplaced<V>(entries: seq<Entry<V>>, index: map<string, nat>, e: Entry<V>)
    requires Indexed(entries, index) && e.name in index
    ensures Indexed(entries[index[e.name] := e], index)
  {
    var i := index[e.name];
    var next := entries[i := e];
    assert forall k | 0 <= k < |entries| :: next[k].name == entries[k].name;
    forall n | n in index ensures LastOfName(next, index[n]) && next[index[n]].name == n {
      assert LastOfName(entries, index[n]);
    }
  }

  lemma MergeReplaces<V>(base: seq<Entry<V>>, added: seq<Entry<V>>, result: seq<Entry<V>>,
                         index: map<string, nat>, e: Entry<V>)
    requires IsMerge(base, added, result) && Indexed(result, index) && e.name in index
    ensures IsMerge(base, added + [e], result[index[e.name] := e])
    ensures Indexed(result[index[e.name] := e], index)
  {
    var i := index[e.name];
    NamesKept(base, added, result, i, e);
    MeaningReplaced(base, added, result, i, e);
    IndexReplaced(result, index, e);
    if i < |base| {
      LastInBase(base, added, result, i);
    }
  }

  lemma NamesAppended<V>(base: seq<Entry<V>>, added: seq<Entry<V>>, result: seq<Entry<V>>, e: Entry<V>)
    requires Names(result) == Names(base) + NewNames(Names(base), Names(added))
    requires e.name !in Names(result)
    ensures Names(result + [e]) == Names(base) + NewNames(Names(base), Names(added + [e]))
  {
    var known, extra := Names(base), NewNames(Names(base), Names(added));
    assert forall n | n in known :: n in known + extra;
    assert forall n | n in extra :: n in known + extra;
    assert Names(added + [e])[..|added|] == Names(added);
    assert Names(result + [e]) == Names(result) + [e.name];
  }

  lemma IndexAppended<V>(entries: seq<Entry<V>>, index: map<string, nat>, e: Entry<V>)
    requires Indexed(entries, index) && e.name !in index
    ensures Indexed(entries + [e], index[e.name := |entries|])
  {
  }

  lemma MeaningAppended<V>(base: seq<Entry<V>>, added: seq<Entry<V>>, result: seq<Entry<V>>, e: Entry<V>)
    requires Lookup(result) == Lookup(base + added)
    ensures Lookup(result + [e]) == Lookup(base + (added + [e]))
  {
    LookupConcat(result, [e]);
    LookupConcat(base + added, [e]);
    assert base + (added + [e]) == base + added + [e];
  }

  lemma MergeAppends<V>(base: seq<Entry<V>>, added: seq<Entry<V>>, result: seq<Entry<V>>,
                        index: map<string, nat>, e: Entry<V>)
    requires IsMerge(base, added, result) && Indexed(result, index) && e.name !in index
    ensures IsMerge(base, added + [e], result + [e])
    ensures Indexed(result + [e], index[e.name := |result|])
  {
    assert |Names(result)| == |result|;
    MeaningAppended(base, added, result, e);
    UnknownName(result, index, e.name);
    NamesAppended(base, added, result, e);
    IndexAppended(result, index, e);
  }

  lemma UnknownName<V>(entries: seq<Entry<V>>, index: map<string, nat>, n: string)
    requires Indexed(entries, index) && n !in index
    ensures n !in Names(entries)
  {
  }

  method MergeEnvVars<V>(base: seq<Entry<V>>, overlays: seq<seq<Entry<V>>>) returns (result: seq<Entry<V>>)
    ensures IsMerge(base, Flatten(overlays), result)
    ensures Lookup(result) == Overridden(Lookup(base), overlays)
  {
    result := base;
    var index := BaseIndex(base);
    Untouched(base, overlays);
    for k := 0 to |overlays|
      invariant IsMerge(base, Flatten(overlays[..k]), result) && Indexed(result, index)
    {
      result, index := Overlaid(base, Flatten(overlays[..k]), result, index, overlays[k]);
      assert overlays[..k + 1][..k] == overlays[..k];
    }
    assert overlays[..|overlays|] == overlays;
    LookupFlattened(base, overlays);
  }

  lemma Untouched<V>(base: seq<Entry<V>>, overlays: seq<seq<Entry<V>>>)
    ensures IsMerge(base, Flatten(overlays[..0]), base)
  {
    assert base + [] == base;
  }

  /** The first loop, which fills the index map. */
  method BaseIndex<V>(base: seq<Entry<V>>) returns (index: map<string, nat>)
    ensures Indexed(base, index)
  {
    index := map[];
    for i := 0 to |base|
      invariant Indexed(base[..i], index)
    {
      assert base[..i + 1] == base[..i] + [base[i]];
      index := index[base[i].name := i];
    }
    assert base[..|base|] == base;
  }

  /** One turn of the inner loop. */
  method Put<V>(ghost base: seq<Entry<V>>, ghost done: seq<Entry<V>>, result0: seq<Entry<V>>,
                index0: map<string, nat>, env: Entry<V>)
    returns (result: seq<Entry<V>>, index: map<string, nat>)
    requires IsMerge(base, done, result0) && Indexed(result0, index0)
    ensures IsMerge(base, done + [env], result) && Indexed(result, index)
  {
    result, index := result0, index0;
    if env.name in index {
      MergeReplaces(base, done, result, index, env);
      result := result[index[env.name] := env];
    } else {
      MergeAppends(base, done, result, index, env);
      index := index[env.name := |result|];
      result := result + [env];
    }
  }

  /** The inner loop, over one overlay. */
  method Overlaid<V>(ghost base: seq<Entry<V>>, ghost added: seq<Entry<V>>, result0: seq<Entry<V>>,
                     index0: map<string, nat>, overlay: seq<Entry<V>>)
    returns (result: seq<Entry<V>>, index: map<string, nat>)
    requires IsMerge(base, added, result0) && Indexed(result0, index0)
    ensures IsMerge(base, added + overlay, result) && Indexed(result, index)
  {
    result, index := result0, index0;
    SoFar(added, overlay, 0);
    for i := 0 to |overlay|
      invariant IsMerge(base, added + overlay[..i], result) && Indexed(result, index)
    {
      result, index := Put(base, added + overlay[..i], result, index, overlay[i]);
      SoFar(added, overlay, i);
    }
    SoFar(added, overlay, |overlay|);
  }

  lemma SoFar<T>(added: seq<T>, overlay: seq<T>, i: nat)
    requires i <= |overlay|
    ensures i == 0 ==> added + overlay[..i] == added
    ensures i < |overlay| ==> added + overlay[..i] + [overlay[i]] == added + overlay[..i + 1]
    ensures i == |overlay| ==> added + overlay[..i] == added + overlay
  {
  }

  /** `mergeRestoreSecretRefs`: the references of the restore over those of the source. */
  method MergeRestoreSecretRefs<V>(source: seq<Entry<V>>, job: seq<Entry<V>>) returns (result: seq<Entry<V>>)
    ensures IsMerge(source, job, result)
    ensures Lookup(result) == Lookup(source) + Lookup(job)
  {
    LookupConcat(source, job);
    if |job| == 0 {
      assert source + job == source;
      return source;
    }
    result := MergeEnvVars(source, [job]);
    assert Flatten([job]) == job by {
      assert [job][..0] == [];
      assert Flatten([job]) == [] + job;
    }
  }

  // ---------------------------------------------------------------- consequences

  /** Two results of a merge are equal: the specification leaves nothing open. */
  lemma MergeUnique<V>(base: seq<Entry<V>>, added: seq<Entry<V>>, r: seq<Entry<V>>, s: seq<Entry<V>>)
    requires IsMerge(base, added, r) && IsMerge(base, added, s)
    ensures r == s
  {
    assert |Names(r)| == |Names(s)|;
    forall i | 0 <= i < |r| ensures r[i] == s[i] {
      assert Names(r)[i] == Names(s)[i];
      if LastOfName(r, i) {
        assert LastOfName(s, i) by {
          forall j | i < j < |s| ensures s[j].name != s[i].name {
            assert Names(r)[j] == Names(s)[j];
          }
        }
        LookupAt(r, i);
        LookupAt(s, i);
      } else {
        NotLastInBase(base, added, r, i);
      }
    }
  }

  lemma {:induction false} LookupAt<V>(entries: seq<Entry<V>>, i: nat)
    requires LastOfName(entries, i)
    ensures entries[i].name in Lookup(entries) && Lookup(entries)[entries[i].name] == entries[i].value
  {
    if i < |entries| - 1 {
      LookupAt(entries[..|entries| - 1], i);
    }
  }

  /** The new names are those that occur and are not known, each once, in the order of first occurrence: what
      comes later in the list adds names only at the end. */
  lemma {:induction false} NewNamesExact(known: seq<string>, names: seq<string>, k: nat)
    requires k <= |names|
    ensures Distinct(NewNames(known, names))
    ensures forall n :: n in NewNames(known, names) <==> n in names && n !in known
    ensures NewNames(known, names[..k]) <= NewNames(known, names)
  {
    if names != [] {
      var n := |names| - 1;
      NewNamesExact(known, names[..n], if k < n then k else n);
      assert names == names[..n] + [names[n]];
      if k == |names| {
        assert names[..k] == names;
      } else {
        assert names[..n][..k] == names[..k];
      }
    }
  }

  /** Only an entry of the base can be followed by another of its name. */
  lemma NotLastInBase<V>(base: seq<Entry<V>>, added: seq<Entry<V>>, r: seq<Entry<V>>, i: nat)
    requires IsMerge(base, added, r) && i < |r| && !LastOfName(r, i)
    ensures i < |base| && !LastOfName(base, i)
  {
    var known, extra := Names(base), NewNames(Names(base), Names(added));
    NewNamesExact(known, Names(added), 0);
    assert forall k | 0 <= k < |known| :: known[k] in known;
    assert forall k | 0 <= k < |extra| :: extra[k] in extra && extra[k] !in known;
    assert forall k | 0 <= k < |r| :: r[k].name == if k < |base| then known[k] else extra[k - |base|];
    var j :| i < j < |r| && r[j].name == r[i].name;
  }

  /** A base without duplicate names gives a result without duplicate names, whatever the overlays. */
  lemma MergeDistinct<V>(base: seq<Entry<V>>, added: seq<Entry<V>>, result: seq<Entry<V>>)
    requires IsMerge(base, added, result) && Distinct(Names(base))
    ensures Distinct(Names(result))
  {
    var known, extra := Names(base), NewNames(Names(base), Names(added));
    NewNamesExact(known, Names(added), 0);
    assert forall k | 0 <= k < |known| :: known[k] in known;
    assert forall k | 0 <= k < |extra| :: extra[k] in extra && extra[k] !in known;
  }
}
