/** Sorting as the sources use it, and when its result does not depend on the order it started from. */
module Sorting {
  import opened Common

  ghost predicate IsTotalOrder<T(!new)>(le: (T, T) -> bool) {
    && (forall x, y :: le(x, y) || le(y, x))
    && (forall x, y, z :: le(x, y) && le(y, z) ==> le(x, z))
  }

  /** Distinct elements of `xs` are never tied. */
  ghost predicate TiesNothing<T(!new)>(le: (T, T) -> bool, xs: seq<T>) {
    forall x, y :: x in xs && y in xs && le(x, y) && le(y, x) ==> x == y
  }

  ghost predicate IsSorted<T>(le: (T, T) -> bool, xs: seq<T>) {
    forall i, j :: 0 <= i < j < |xs| ==> le(xs[i], xs[j])
  }

  function Insert<T>(x: T, ys: seq<T>, le: (T, T) -> bool): seq<T> {
    if ys == [] || le(x, ys[0]) then [x] + ys else [ys[0]] + Insert(x, ys[1..], le)
  }

  /** A stable sort: tied elements keep their order. */
  function Sort<T>(xs: seq<T>, le: (T, T) -> bool): seq<T> {
    if xs == [] then [] else Insert(xs[0], Sort(xs[1..], le), le)
  }

  lemma {:induction false} InsertSorts<T(!new)>(x: T, ys: seq<T>, le: (T, T) -> bool)
    requires IsTotalOrder(le) && IsSorted(le, ys)
    ensures IsSorted(le, Insert(x, ys, le))
    ensures multiset(Insert(x, ys, le)) == multiset{x} + multiset(ys)
  {
    if ys == [] || le(x, ys[0]) {
      assert multiset([x] + ys) == multiset{x} + multiset(ys);
      forall j | 0 <= j < |ys| ensures le(x, ys[j]) {
        if j > 0 { assert le(ys[0], ys[j]); }
      }
    } else {
      var rest := Insert(x, ys[1..], le);
      InsertSorts(x, ys[1..], le);
      assert ys == [ys[0]] + ys[1..];
      forall z | z in rest ensures le(ys[0], z) {
        assert z in multiset(rest);
        assert z == x || z in ys[1..];
      }
      assert multiset([ys[0]] + rest) == multiset{ys[0]} + multiset(rest);
    }
  }

  lemma {:induction false} SortSorts<T(!new)>(xs: seq<T>, le: (T, T) -> bool)
    requires IsTotalOrder(le)
    ensures IsSorted(le, Sort(xs, le))
    ensures multiset(Sort(xs, le)) == multiset(xs)
  {
    if xs != [] {
      SortSorts(xs[1..], le);
      InsertSorts(xs[0], Sort(xs[1..], le), le);
      assert xs == [xs[0]] + xs[1..];
    }
  }

  lemma HeadsAgree<T(!new)>(xs: seq<T>, ys: seq<T>, le: (T, T) -> bool)
    requires IsSorted(le, xs) && IsSorted(le, ys) && multiset(xs) == multiset(ys)
    requires IsTotalOrder(le) && TiesNothing(le, xs)
    requires xs != [] && ys != []
    ensures xs[0] == ys[0]
  {
    var x, y := xs[0], ys[0];
    assert y in multiset(xs) && x in multiset(ys);
    var i :| 0 <= i < |xs| && xs[i] == y;
    var j :| 0 <= j < |ys| && ys[j] == x;
    assert le(x, xs[i]) && le(y, ys[j]);
  }

  lemma MultisetOfTail<T>(xs: seq<T>)
    requires xs != []
    ensures multiset(xs[1..]) == multiset(xs) - multiset{xs[0]}
  {
    assert xs == [xs[0]] + xs[1..];
  }

  /** A list has one sorted arrangement when the order ties no two of its elements. */
  lemma {:induction false} SortedIsUnique<T(!new)>(xs: seq<T>, ys: seq<T>, le: (T, T) -> bool)
    requires IsSorted(le, xs) && IsSorted(le, ys) && multiset(xs) == multiset(ys)
    requires IsTotalOrder(le) && TiesNothing(le, xs)
    ensures xs == ys
    decreases |xs|
  {
    assert |multiset(xs)| == |multiset(ys)|;
    if xs != [] {
      HeadsAgree(xs, ys, le);
      MultisetOfTail(xs);
      MultisetOfTail(ys);
      SortedIsUnique(xs[1..], ys[1..], le);
    }
  }

  /** Sorting forgets the order it started from. */
  lemma SortForgetsOrder<T(!new)>(xs: seq<T>, ys: seq<T>, le: (T, T) -> bool)
    requires IsTotalOrder(le) && multiset(xs) == multiset(ys) && TiesNothing(le, xs)
    ensures Sort(xs, le) == Sort(ys, le)
  {
    SortSorts(xs, le);
    SortSorts(ys, le);
    forall x | x in Sort(xs, le) ensures x in xs {
      assert x in multiset(Sort(xs, le));
    }
    SortedIsUnique(Sort(xs, le), Sort(ys, le), le);
  }

  // ---------------------------------------------------------------------------------------------
  // Strings by code unit
  // ---------------------------------------------------------------------------------------------

  predicate StringLe(a: string, b: string) {
    a == "" || (b != "" && (a[0] < b[0] || (a[0] == b[0] && StringLe(a[1..], b[1..]))))
  }

  lemma {:induction false} StringLeTotal(a: string, b: string)
    ensures StringLe(a, b) || StringLe(b, a)
    ensures StringLe(a, b) && StringLe(b, a) ==> a == b
  {
    if a != "" && b != "" {
      StringLeTotal(a[1..], b[1..]);
      assert a == [a[0]] + a[1..] && b == [b[0]] + b[1..];
    }
  }

  lemma {:induction false} StringLeTransitive(a: string, b: string, c: string)
    requires StringLe(a, b) && StringLe(b, c)
    ensures StringLe(a, c)
  {
    if a != "" && b[0] == a[0] && c[0] == b[0] {
      StringLeTransitive(a[1..], b[1..], c[1..]);
    }
  }

  lemma StringOrderIsTotal()
    ensures IsTotalOrder(StringLe)
    ensures forall xs :: TiesNothing(StringLe, xs)
  {
    forall a, b ensures StringLe(a, b) || StringLe(b, a) {
      StringLeTotal(a, b);
    }
    forall a, b, c | StringLe(a, b) && StringLe(b, c) ensures StringLe(a, c) {
      StringLeTransitive(a, b, c);
    }
    forall xs: seq<string>, a, b | a in xs && b in xs && StringLe(a, b) && StringLe(b, a) ensures a == b {
      StringLeTotal(a, b);
    }
  }

  /** The elements of a set, sorted: `[...new Set(xs)].sort()`. */
  lemma SortedSetIsCanonical(xs: seq<string>, ys: seq<string>)
    ensures Sort(Dedup(xs), StringLe) == Sort(Dedup(ys), StringLe) <==> SetOf(xs) == SetOf(ys)
  {
    StringOrderIsTotal();
    if SetOf(xs) == SetOf(ys) {
      assert TiesNothing(StringLe, Dedup(xs));
      SameSetSameMultiset(xs, ys);
      SortForgetsOrder(Dedup(xs), Dedup(ys), StringLe);
    } else if Sort(Dedup(xs), StringLe) == Sort(Dedup(ys), StringLe) {
      ElementsOfSortedSet(xs);
      ElementsOfSortedSet(ys);
    }
  }

  lemma ElementsOfSortedSet(xs: seq<string>)
    ensures SetOf(Sort(Dedup(xs), StringLe)) == SetOf(xs)
  {
    StringOrderIsTotal();
    SortSorts(Dedup(xs), StringLe);
    DedupMeans(xs);
    forall x ensures x in Sort(Dedup(xs), StringLe) <==> x in xs {
      assert x in multiset(Sort(Dedup(xs), StringLe)) <==> x in multiset(Dedup(xs));
    }
  }

  lemma SameSetSameMultiset<T(!new)>(xs: seq<T>, ys: seq<T>)
    requires SetOf(xs) == SetOf(ys)
    ensures multiset(Dedup(xs)) == multiset(Dedup(ys))
  {
    DedupMeans(xs);
    DedupMeans(ys);
    forall x ensures multiset(Dedup(xs))[x] == multiset(Dedup(ys))[x] {
      DistinctCount(Dedup(xs), x);
      DistinctCount(Dedup(ys), x);
      assert x in SetOf(xs) <==> x in SetOf(ys);
    }
  }

  lemma {:induction false} DistinctCount<T>(xs: seq<T>, x: T)
    requires NoDuplicates(xs)
    ensures multiset(xs)[x] == if x in xs then 1 else 0
  {
    if xs != [] {
      var n := |xs| - 1;
      DistinctCount(xs[..n], x);
      assert xs == xs[..n] + [xs[n]];
    }
  }
}
