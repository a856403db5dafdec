/** A stable sort by an arbitrary strict order, as Python's `sorted` performs it. */
module Sorting {
  import opened Collections

  /** Insertion from the back: behind everything that x does not have to precede. */
  function InsertBy<T(!new)>(sorted: seq<T>, x: T, before: (T, T) -> bool): (r: seq<T>)
    ensures |r| == |sorted| + 1
    ensures forall y :: y in r <==> y in sorted || y == x
  {
    if sorted == [] || !before(x, sorted[|sorted| - 1]) then sorted + [x]
    else
      assert sorted == sorted[..|sorted| - 1] + [sorted[|sorted| - 1]];
      InsertBy(sorted[..|sorted| - 1], x, before) + [sorted[|sorted| - 1]]
  }

  function SortBy<T(!new)>(xs: seq<T>, before: (T, T) -> bool): (r: seq<T>)
    ensures |r| == |xs|
    ensures forall y :: y in r <==> y in xs
  {
    if xs == [] then []
    else
      assert xs == xs[..|xs| - 1] + [xs[|xs| - 1]];
      InsertBy(SortBy(xs[..|xs| - 1], before), xs[|xs| - 1], before)
  }

  /** No element has to precede an earlier one. */
  ghost predicate InOrder<T(!new)>(xs: seq<T>, before: (T, T) -> bool) {
    forall i, j :: 0 <= i < j < |xs| ==> !before(xs[j], xs[i])
  }

  /** `before` is a strict weak order: of three elements the middle one decides the outer two. */
  ghost predicate WeakOrder<T(!new)>(before: (T, T) -> bool) {
    && (forall a, b :: before(a, b) ==> !before(b, a))
    && (forall a, b, c :: !before(b, a) && !before(c, b) ==> !before(c, a))
  }

  lemma {:induction false} InsertByKeepsOrder<T(!new)>(sorted: seq<T>, x: T, before: (T, T) -> bool)
    requires WeakOrder(before) && InOrder(sorted, before)
    ensures InOrder(InsertBy(sorted, x, before), before)
  {
    if sorted != [] && before(x, sorted[|sorted| - 1]) {
      var n := |sorted| - 1;
      InsertByKeepsOrder(sorted[..n], x, before);
      var rest := InsertBy(sorted[..n], x, before);
      forall i | 0 <= i < |rest| ensures !before(sorted[n], rest[i]) {
        assert rest[i] in rest;
      }
    }
  }

  /** A list sorted by a strict weak order is in order, equals in their original order. */
  lemma {:induction false} SortByKeepsOrder<T(!new)>(xs: seq<T>, before: (T, T) -> bool)
    requires WeakOrder(before)
    ensures InOrder(SortBy(xs, before), before)
  {
    if xs != [] {
      var n := |xs| - 1;
      SortByKeepsOrder(xs[..n], before);
      InsertByKeepsOrder(SortBy(xs[..n], before), xs[n], before);
    }
  }

  lemma {:induction false} InsertByPermutes<T(!new)>(sorted: seq<T>, x: T, before: (T, T) -> bool)
    ensures multiset(InsertBy(sorted, x, before)) == multiset(sorted) + multiset{x}
  {
    if !(sorted == [] || !before(x, sorted[|sorted| - 1])) {
      var n := |sorted| - 1;
      assert sorted == sorted[..n] + [sorted[n]];
      InsertByPermutes(sorted[..n], x, before);
    }
  }

  lemma {:induction false} SortByPermutes<T(!new)>(xs: seq<T>, before: (T, T) -> bool)
    ensures multiset(SortBy(xs, before)) == multiset(xs)
  {
    if xs != [] {
      var n := |xs| - 1;
      assert xs == xs[..n] + [xs[n]];
      SortByPermutes(xs[..n], before);
      InsertByPermutes(SortBy(xs[..n], before), xs[n], before);
    }
  }

  /** `before` orders the members of xs strictly and leaves no two of them unordered. */
  ghost predicate StrictOrder<T(!new)>(xs: seq<T>, before: (T, T) -> bool) {
    && (forall a, b :: a in xs && b in xs && before(a, b) ==> !before(b, a))
    && (forall a, b, c :: a in xs && b in xs && c in xs && before(a, b) && before(b, c) ==> before(a, c))
    && (forall a, b :: a in xs && b in xs && a != b ==> before(a, b) || before(b, a))
  }

  ghost predicate Ordered<T(!new)>(xs: seq<T>, before: (T, T) -> bool) {
    forall i, j :: 0 <= i < j < |xs| ==> before(xs[i], xs[j])
  }

  lemma {:induction false} InsertByOrders<T(!new)>(sorted: seq<T>, x: T, before: (T, T) -> bool)
    requires Ordered(sorted, before) && x !in sorted && StrictOrder(sorted + [x], before)
    ensures Ordered(InsertBy(sorted, x, before), before)
  {
    var all := sorted + [x];
    if sorted == [] {
    } else {
      var n := |sorted| - 1;
      var last := sorted[n];
      assert last in all && x in all && last != x;
      if before(x, last) {
        StrictOnPart(sorted[..n] + [x], all, before);
        InsertByOrders(sorted[..n], x, before);
        var rest := InsertBy(sorted[..n], x, before);
        forall i | 0 <= i < |rest| ensures before(rest[i], last) {
          assert rest[i] in rest;
        }
      } else {
        assert before(last, x);
        forall i | 0 <= i <= n ensures before(sorted[i], x) {
          assert sorted[i] in all;
        }
      }
    }
  }

  lemma {:induction false} StrictOnPart<T(!new)>(part: seq<T>, all: seq<T>, before: (T, T) -> bool)
    requires StrictOrder(all, before) && forall x :: x in part ==> x in all
    ensures StrictOrder(part, before)
  {
  }

  /** The result is strictly ordered: stability never has to decide. */
  lemma {:induction false} SortByOrders<T(!new)>(xs: seq<T>, before: (T, T) -> bool)
    requires Distinct(xs) && StrictOrder(xs, before)
    ensures Ordered(SortBy(xs, before), before)
  {
    if xs != [] {
      var n := |xs| - 1;
      var front := SortBy(xs[..n], before);
      assert xs == xs[..n] + [xs[n]];
      StrictOnPart(xs[..n], xs, before);
      SortByOrders(xs[..n], before);
      StrictOnPart(front + [xs[n]], xs, before);
      InsertByOrders(front, xs[n], before);
    }
  }

  /** Two strictly ordered lists with the same members are the same list. */
  /** Two orderings of the same elements end in the same one. */
  lemma {:induction false} SameLast<T(!new)>(xs: seq<T>, ys: seq<T>, before: (T, T) -> bool)
    requires Ordered(xs, before) && Ordered(ys, before) && StrictOrder(xs, before)
    requires forall z :: z in xs <==> z in ys
    requires xs != []
    ensures ys != [] && xs[|xs| - 1] == ys[|ys| - 1]
  {
    hide Ordered;
    assert xs[0] in ys;
    var a, b := xs[|xs| - 1], ys[|ys| - 1];
    assert a in xs && b in ys;
    if a != b {
      LastIsGreatest(xs, b, before);
      LastIsGreatest(ys, a, before);
    }
  }

  lemma {:induction false} OrderedPart<T(!new)>(xs: seq<T>, before: (T, T) -> bool)
    requires xs != [] && Ordered(xs, before) && Distinct(xs)
    ensures Ordered(xs[..|xs| - 1], before) && Distinct(xs[..|xs| - 1])
  {
  }

  lemma {:induction false} OrderedIsUnique<T(!new)>(xs: seq<T>, ys: seq<T>, before: (T, T) -> bool)
    requires Ordered(xs, before) && Ordered(ys, before) && StrictOrder(xs, before)
    requires Distinct(xs) && Distinct(ys)
    requires forall z :: z in xs <==> z in ys
    ensures xs == ys
    decreases |xs|
  {
    hide Ordered, Distinct, StrictOrder;
    assert ys == [] || ys[0] in ys;
    if xs != [] {
      SameLast(xs, ys, before);
      var m, n := |xs| - 1, |ys| - 1;
      OrderedPart(xs, before);
      OrderedPart(ys, before);
      forall z ensures z in xs[..m] <==> z in ys[..n] {
        WithoutLast(xs, z);
        WithoutLast(ys, z);
      }
      StrictOnPart(xs[..m], xs, before);
      OrderedIsUnique(xs[..m], ys[..n], before);
      assert xs == xs[..m] + [xs[m]] && ys == ys[..n] + [ys[n]];
    }
  }

  lemma {:induction false} LastIsGreatest<T(!new)>(xs: seq<T>, z: T, before: (T, T) -> bool)
    requires Ordered(xs, before) && z in xs && z != xs[|xs| - 1]
    ensures before(z, xs[|xs| - 1])
  {
    var i :| 0 <= i < |xs| && xs[i] == z;
  }

  lemma {:induction false} WithoutLast<T(!new)>(xs: seq<T>, z: T)
    requires xs != [] && Distinct(xs)
    ensures z in xs[..|xs| - 1] <==> z in xs && z != xs[|xs| - 1]
  {
    assert xs == xs[..|xs| - 1] + [xs[|xs| - 1]];
  }

  lemma {:induction false} SortedIsDistinct<T(!new)>(xs: seq<T>, before: (T, T) -> bool)
    requires Distinct(xs) && StrictOrder(xs, before)
    ensures Distinct(SortBy(xs, before))
  {
    var r := SortBy(xs, before);
    SortByOrders(xs, before);
    forall i, j | 0 <= i < j < |r| ensures r[i] != r[j] {
      assert before(r[i], r[j]) && r[i] in xs;
    }
  }

  /** Sorting forgets the input order. */
  lemma {:induction false} SortIsCanonical<T(!new)>(xs: seq<T>, ys: seq<T>, before: (T, T) -> bool)
    requires Distinct(xs) && Distinct(ys) && StrictOrder(xs, before)
    requires forall z :: z in xs <==> z in ys
    ensures SortBy(xs, before) == SortBy(ys, before)
  {
    StrictOnPart(ys, xs, before);
    SortByOrders(xs, before);
    SortByOrders(ys, before);
    SortedIsDistinct(xs, before);
    SortedIsDistinct(ys, before);
    StrictOnPart(SortBy(xs, before), xs, before);
    OrderedIsUnique(SortBy(xs, before), SortBy(ys, before), before);
  }

  /** A symmetric relation that holds between any two elements. */
  ghost predicate Pairwise<T(!new)>(xs: seq<T>, rel: (T, T) -> bool) {
    forall i, j :: 0 <= i < j < |xs| ==> rel(xs[i], xs[j])
  }

  lemma {:induction false} InsertKeepsPairwise<T(!new)>(
    sorted: seq<T>, x: T, before: (T, T) -> bool, rel: (T, T) -> bool)
    requires forall a, b :: rel(a, b) ==> rel(b, a)
    requires Pairwise(sorted, rel) && forall y :: y in sorted ==> rel(y, x)
    ensures Pairwise(InsertBy(sorted, x, before), rel)
  {
    if sorted == [] || !before(x, sorted[|sorted| - 1]) {
    } else {
      var n := |sorted| - 1;
      InsertKeepsPairwise(sorted[..n], x, before, rel);
      var rest := InsertBy(sorted[..n], x, before);
      forall i | 0 <= i < |rest| ensures rel(rest[i], sorted[n]) {
        assert rest[i] in rest;
      }
    }
  }

  /** Sorting keeps what holds between any two elements. */
  lemma {:induction false} SortKeepsPairwise<T(!new)>(xs: seq<T>, before: (T, T) -> bool, rel: (T, T) -> bool)
    requires forall a, b :: rel(a, b) ==> rel(b, a)
    requires Pairwise(xs, rel)
    ensures Pairwise(SortBy(xs, before), rel)
  {
    if xs != [] {
      var n := |xs| - 1;
      SortKeepsPairwise(xs[..n], before, rel);
      InsertKeepsPairwise(SortBy(xs[..n], before), xs[n], before, rel);
    }
  }

  // ---------------------------------------------------------------- strings

  /** Lexicographic order of symbols. */
  predicate Less(a: string, b: string) {
    if b == [] then false
    else if a == [] then true
    else if a[0] != b[0] then a[0] < b[0]
    else Less(a[1..], b[1..])
  }

  lemma {:induction false} LessAsymmetric(a: string, b: string)
    ensures Less(a, b) ==> !Less(b, a)
  {
    if a != [] && b != [] && a[0] == b[0] {
      LessAsymmetric(a[1..], b[1..]);
    }
  }

  lemma {:induction false} LessTransitive(a: string, b: string, c: string)
    requires Less(a, b) && Less(b, c)
    ensures Less(a, c)
  {
    if a != [] && a[0] == b[0] && b[0] == c[0] {
      LessTransitive(a[1..], b[1..], c[1..]);
    }
  }

  lemma {:induction false} LessTotal(a: string, b: string)
    ensures a == b || Less(a, b) || Less(b, a)
  {
    if a != [] && b != [] && a[0] == b[0] {
      LessTotal(a[1..], b[1..]);
      assert a == [a[0]] + a[1..] && b == [b[0]] + b[1..];
    }
  }
}
