/** Positions in a strict total order, and the comparator sort that realises them. */
module Ranking {

  ghost predicate StrictTotalOn<T(!new)>(before: (T, T) -> bool, s: set<T>) {
    && (forall x | x in s :: !before(x, x))
    && (forall x, y | x in s && y in s :: x == y || before(x, y) || before(y, x))
    && (forall x, y, z | x in s && y in s && z in s && before(x, y) && before(y, z) :: before(x, z))
  }

  predicate Distinct<T(==)>(xs: seq<T>) {
    forall i, j | 0 <= i < j < |xs| :: xs[i] != xs[j]
  }

  function Elements<T>(xs: seq<T>): set<T> {
    set x | x in xs
  }

  ghost predicate Ordered<T>(before: (T, T) -> bool, xs: seq<T>) {
    forall i, j | 0 <= i < j < |xs| :: before(xs[i], xs[j])
  }

  /** The members of `s` that come before `x`. */
  function Preceding<T>(before: (T, T) -> bool, s: set<T>, x: T): set<T> {
    set y | y in s && before(y, x)
  }

  /** How many members of `s` come before `x`. */
  function Rank<T>(before: (T, T) -> bool, s: set<T>, x: T): nat {
    |Preceding(before, s, x)|
  }

  lemma {:induction false} DistinctSize<T>(xs: seq<T>)
    requires Distinct(xs)
    ensures |Elements(xs)| == |xs|
  {
    if xs != [] {
      var init := xs[..|xs| - 1];
      DistinctSize(init);
      assert Elements(xs) == Elements(init) + {xs[|xs| - 1]};
    }
  }

  /** In an ordered list the index of an element is its rank among the elements. */
  lemma RankIsIndex<T(!new)>(before: (T, T) -> bool, xs: seq<T>, i: nat)
    requires StrictTotalOn(before, Elements(xs))
    requires Ordered(before, xs)
    requires i < |xs|
    ensures Distinct(xs)
    ensures Rank(before, Elements(xs), xs[i]) == i
  {
    assert forall p | 0 <= p < |xs| :: xs[p] in Elements(xs);
    assert Preceding(before, Elements(xs), xs[i]) == Elements(xs[..i]) by {
      forall y | y in Preceding(before, Elements(xs), xs[i])
        ensures y in Elements(xs[..i])
      {
        var p :| 0 <= p < |xs| && xs[p] == y;
        assert p < i;
        assert xs[..i][p] == y;
      }
    }
    DistinctSize(xs[..i]);
  }

  /** A larger set of predecessors can only raise a rank. */
  lemma SubsetSize<T>(a: set<T>, b: set<T>)
    requires a <= b
    ensures |a| <= |b|
  {
    assert b == a + (b - a);
  }

  /** `sort.SliceStable` in place: an insertion sort by adjacent swaps. */
  method SliceStable<T(!new)>(a: array<T>, less: (T, T) -> bool)
    requires StrictTotalOn(less, Elements(a[..]))
    requires Distinct(a[..])
    modifies a
    ensures multiset(a[..]) == multiset(old(a[..]))
    ensures Elements(a[..]) == Elements(old(a[..]))
    ensures Distinct(a[..])
    ensures Ordered(less, a[..])
  {
    ghost var before := a[..];
    for i := 0 to a.Length
      invariant multiset(a[..]) == multiset(before)
      invariant Distinct(a[..])
      invariant Ordered(less, a[..i])
    {
      BagElements(a[..], before);
      Sink(a, i, less);
    }
    BagElements(a[..], before);
    assert a[..a.Length] == a[..];
  }

  /** One round of the insertion sort: moves `a[i]` down to its place in the ordered prefix. */
  method Sink<T(!new)>(a: array<T>, i: nat, less: (T, T) -> bool)
    requires i < a.Length
    requires StrictTotalOn(less, Elements(a[..]))
    requires Distinct(a[..])
    requires Ordered(less, a[..i])
    modifies a
    ensures multiset(a[..]) == multiset(old(a[..]))
    ensures Distinct(a[..])
    ensures Ordered(less, a[..i + 1])
  {
    ghost var before := a[..];
    var j := i;
    while j > 0 && less(a[j], a[j - 1])
      invariant 0 <= j <= i
      invariant multiset(a[..]) == multiset(before)
      invariant Distinct(a[..])
      invariant OrderedExcept(less, a[..], i + 1, j)
    {
      OrderedExceptStep(less, a[..], i + 1, j);
      SwapNeighbours(a, j);
      j := j - 1;
    }
    BagElements(a[..], before);
    OrderedExceptDone(less, a[..], i + 1, j);
  }

  /** The first `n` elements are in order, `xs[j]` aside, which precedes everything after it. */
  ghost predicate OrderedExcept<T>(less: (T, T) -> bool, xs: seq<T>, n: nat, j: nat)
    requires j < n <= |xs|
  {
    forall p, q | 0 <= p < q < n && q != j :: less(xs[p], xs[q])
  }

  lemma OrderedExceptStep<T>(less: (T, T) -> bool, xs: seq<T>, n: nat, j: nat)
    requires 0 < j < n <= |xs|
    requires OrderedExcept(less, xs, n, j)
    requires less(xs[j], xs[j - 1])
    ensures OrderedExcept(less, xs[j - 1 := xs[j]][j := xs[j - 1]], n, j - 1)
  {
  }

  lemma OrderedExceptDone<T(!new)>(less: (T, T) -> bool, xs: seq<T>, n: nat, j: nat)
    requires j < n <= |xs|
    requires StrictTotalOn(less, Elements(xs))
    requires Distinct(xs)
    requires OrderedExcept(less, xs, n, j)
    requires j > 0 ==> !less(xs[j], xs[j - 1])
    ensures Ordered(less, xs[..n])
  {
    forall p | 0 <= p < j ensures less(xs[p], xs[j]) {
      assert xs[p] in Elements(xs) && xs[j - 1] in Elements(xs) && xs[j] in Elements(xs);
      assert less(xs[j - 1], xs[j]);
    }
  }

  method SwapNeighbours<T>(a: array<T>, j: nat)
    requires 0 < j < a.Length
    requires Distinct(a[..])
    modifies a
    ensures a[..] == old(a[..])[j - 1 := old(a[j])][j := old(a[j - 1])]
    ensures multiset(a[..]) == multiset(old(a[..]))
    ensures Distinct(a[..])
  {
    ghost var was := a[..];
    a[j - 1], a[j] := a[j], a[j - 1];
    assert a[..] == was[j - 1 := was[j]][j := was[j - 1]];
  }

  lemma BagElements<T>(xs: seq<T>, ys: seq<T>)
    requires multiset(xs) == multiset(ys)
    ensures Elements(xs) == Elements(ys)
  {
    forall x ensures x in xs <==> x in ys {
      assert x in xs <==> x in multiset(xs);
      assert x in ys <==> x in multiset(ys);
    }
  }

  lemma FirstBefore<T(!new)>(before: (T, T) -> bool, x: T, xs: seq<T>, rest: seq<T>)
    requires xs != [] && Ordered(before, xs) && StrictTotalOn(before, Elements(xs) + {x})
    requires x !in xs && !before(x, xs[0]) && Elements(rest) == Elements(xs[1..]) + {x}
    ensures forall y | y in rest :: before(xs[0], y)
  {
    forall y | y in rest ensures before(xs[0], y) {
      assert y in Elements(rest);
      if y != x {
        var i :| 0 <= i < |xs[1..]| && xs[1..][i] == y;
        assert xs[i + 1] == y;
      } else {
        assert xs[0] in Elements(xs) + {x};
      }
    }
  }

  ghost function InsertOrdered<T(!new)>(before: (T, T) -> bool, x: T, xs: seq<T>): (ys: seq<T>)
    requires Ordered(before, xs)
    requires StrictTotalOn(before, Elements(xs) + {x})
    requires x !in xs
    ensures Elements(ys) == Elements(xs) + {x}
    ensures Ordered(before, ys)
  {
    if xs == [] then [x]
    else
      assert xs[0] in Elements(xs);
      assert Elements(xs) == {xs[0]} + Elements(xs[1..]);
      if before(x, xs[0]) then
        assert Elements([x] + xs) == Elements(xs) + {x};
        [x] + xs
      else
        var rest := InsertOrdered(before, x, xs[1..]);
        assert Elements([xs[0]] + rest) == {xs[0]} + Elements(rest);
        FirstBefore(before, x, xs, rest);
        [xs[0]] + rest
  }

  /** Every finite totally ordered set can be listed in order. */
  lemma {:induction false} OrderedListing<T(!new)>(before: (T, T) -> bool, s: set<T>) returns (xs: seq<T>)
    requires StrictTotalOn(before, s)
    ensures Elements(xs) == s && Ordered(before, xs)
    decreases |s|
  {
    if s == {} {
      xs := [];
    } else {
      var x :| x in s;
      var rest := OrderedListing(before, s - {x});
      assert Elements(rest) + {x} == s;
      assert x !in Elements(rest);
      xs := InsertOrdered(before, x, rest);
    }
  }

  /** The `k` first members of a totally ordered set. */
  function Top<T>(before: (T, T) -> bool, s: set<T>, k: nat): set<T> {
    set x | x in s && Rank(before, s, x) < k
  }

  function Min(a: int, b: int): int {
    if a < b then a else b
  }

  /** There are exactly `min(n, k)` members of rank below `k`, and each precedes all the others. */
  lemma TopExact<T(!new)>(before: (T, T) -> bool, s: set<T>, k: nat)
    requires StrictTotalOn(before, s)
    ensures |Top(before, s, k)| == Min(|s|, k)
    ensures forall x, y | x in Top(before, s, k) && y in s && y !in Top(before, s, k) :: before(x, y)
  {
    var xs := OrderedListing(before, s);
    assert forall i | 0 <= i < |xs| :: xs[i] in Elements(xs);
    forall i | 0 <= i < |xs| ensures Rank(before, s, xs[i]) == i {
      RankIsIndex(before, xs, i);
    }
    var m := Min(|xs|, k);
    assert Distinct(xs);
    DistinctSize(xs);
    DistinctSize(xs[..m]);
    assert Elements(xs[..m]) == Top(before, s, k) by {
      forall x | x in Top(before, s, k) ensures x in Elements(xs[..m]) {
        var i :| 0 <= i < |xs| && xs[i] == x;
        assert xs[..m][i] == x;
      }
    }
    forall x, y | x in Top(before, s, k) && y in s && y !in Top(before, s, k) ensures before(x, y) {
      var i :| 0 <= i < |xs| && xs[i] == x;
      var j :| 0 <= j < |xs| && xs[j] == y;
      assert i < j;
    }
  }

  /** Dropping members that rank `k` or later leaves the ranks of the first `k` as they were. */
  lemma TopStable<T(!new)>(before: (T, T) -> bool, s: set<T>, t: set<T>, k: nat)
    requires StrictTotalOn(before, s)
    requires Top(before, s, k) <= t <= s
    ensures forall x | x in Top(before, s, k) :: Rank(before, t, x) == Rank(before, s, x)
    ensures Top(before, t, k) == Top(before, s, k)
  {
    TopExact(before, s, k);
    forall x | x in Top(before, s, k) ensures Preceding(before, t, x) == Preceding(before, s, x) {
      assert forall y | y in Preceding(before, s, x) :: !before(x, y);
    }
    TopExact(before, t, k);
    SubsetSize(t, s);
    EqualBySize(Top(before, s, k), Top(before, t, k));
  }

  lemma EqualBySize<T>(a: set<T>, b: set<T>)
    requires a <= b && |a| >= |b|
    ensures a == b
  {
    assert b == a + (b - a);
  }

  /** A set covered by the image of another is no larger. */
  lemma {:induction false} ImageSize<S, T>(f: S -> T, a: set<S>, b: set<T>)
    requires forall y | y in b :: exists x | x in a :: f(x) == y
    ensures |b| <= |a|
    decreases |b|
  {
    if b != {} {
      var y :| y in b;
      var x :| x in a && f(x) == y;
      var a' := set z | z in a && f(z) != y;
      ImageSize(f, a', b - {y});
      assert a' <= a - {x};
      SubsetSize(a', a - {x});
    }
  }
}
