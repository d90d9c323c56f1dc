/** `sort.Strings`. */
module Sorting {
  import opened Strings

  /** `a <= b` for strings. */
  predicate AtMost(a: string, b: string) {
    !Less(b, a)
  }

  predicate Ascending(xs: seq<string>) {
    forall i, j | 0 <= i < j < |xs| :: AtMost(xs[i], xs[j])
  }

  lemma AtMostTransitive(a: string, b: string, c: string)
    requires AtMost(a, b) && AtMost(b, c)
    ensures AtMost(a, c)
  {
    LessTotal(a, b);
    LessTotal(b, c);
    if Less(a, b) && Less(b, c) {
      LessTransitive(a, b, c);
      LessAsymmetric(a, c);
    }
  }

  function Inserted(x: string, xs: seq<string>): (r: seq<string>)
    ensures multiset(r) == multiset(xs) + multiset{x}
  {
    if xs == [] then [x]
    else if AtMost(x, xs[0]) then [x] + xs
    else
      assert xs == [xs[0]] + xs[1..];
      [xs[0]] + Inserted(x, xs[1..])
  }

  function SortStrings(xs: seq<string>): (r: seq<string>)
    ensures multiset(r) == multiset(xs)
  {
    if xs == [] then []
    else
      assert xs == [xs[0]] + xs[1..];
      Inserted(xs[0], SortStrings(xs[1..]))
  }

  lemma {:induction false} InsertedAscending(x: string, xs: seq<string>)
    requires Ascending(xs)
    ensures Ascending(Inserted(x, xs))
  {
    if xs != [] {
      LessAsymmetricAll(x, xs[0]);
      if AtMost(x, xs[0]) {
        forall j | 0 <= j < |xs| ensures AtMost(x, xs[j]) {
          if j > 0 {
            AtMostTransitive(x, xs[0], xs[j]);
          }
        }
      } else {
        InsertedAscending(x, xs[1..]);
        var rest := Inserted(x, xs[1..]);
        forall j | 0 <= j < |rest| ensures AtMost(xs[0], rest[j]) {
          assert rest[j] in multiset(rest);
          assert rest[j] == x || rest[j] in xs[1..];
        }
      }
    }
  }

  lemma LessAsymmetricAll(x: string, y: string)
    ensures AtMost(x, y) || AtMost(y, x)
  {
    if Less(x, y) {
      LessAsymmetric(x, y);
    }
  }

  /** The result is in order and has the same elements, with multiplicity. */
  lemma {:induction false} SortedAscending(xs: seq<string>)
    ensures Ascending(SortStrings(xs)) && multiset(SortStrings(xs)) == multiset(xs)
  {
    if xs != [] {
      SortedAscending(xs[1..]);
      InsertedAscending(xs[0], SortStrings(xs[1..]));
    }
  }
}
