/** Option and Result types shared by every module, and a few facts about sequences. */
module Common {

  datatype Option<+T> = None | Some(value: T) {
    function GetOr(default: T): T {
      match this
      case Some(v) => v
      case None => default
    }

    /** The first of two options that holds a value (the source's `??`). */
    function OrElse(other: Option<T>): Option<T> {
      if Some? then this else other
    }
  }

  /** The two classes of exception the worker tells apart. */
  datatype Error = Temporary | Permanent

  datatype Result<+T> = Ok(value: T) | Err(error: Error) {
    predicate IsFailure() {
      Err?
    }

    function PropagateFailure<U>(): Result<U>
      requires Err?
    {
      Err(error)
    }

    function Extract(): T
      requires Ok?
    {
      value
    }
  }

  ghost predicate NoDuplicates<T>(xs: seq<T>) {
    forall i, j :: 0 <= i < j < |xs| ==> xs[i] != xs[j]
  }

  /** `[...new Set(xs)]`: the first occurrence of every element, in order. */
  function Dedup<T(==)>(xs: seq<T>): seq<T> {
    if xs == [] then []
    else
      var init, last := Dedup(xs[..|xs| - 1]), xs[|xs| - 1];
      if last in init then init else init + [last]
  }

  lemma {:induction false} DedupMeans<T(!new)>(xs: seq<T>)
    ensures forall x :: x in Dedup(xs) <==> x in xs
    ensures NoDuplicates(Dedup(xs))
  {
    if xs != [] {
      var n := |xs| - 1;
      DedupMeans(xs[..n]);
      assert xs == xs[..n] + [xs[n]];
    }
  }

  lemma DedupAppend<T(!new)>(xs: seq<T>, x: T)
    ensures Dedup(xs + [x]) == if x in xs then Dedup(xs) else Dedup(xs) + [x]
  {
    assert (xs + [x])[..|xs|] == xs;
    DedupMeans(xs);
  }

  /** A list without repetition survives as a prefix whatever is appended to it. */
  lemma {:induction false} DedupKeepsPrefix<T(!new)>(first: seq<T>, second: seq<T>)
    requires NoDuplicates(first)
    ensures first <= Dedup(first + second)
  {
    if second == [] {
      assert first + second == first;
      DedupOfDistinct(first);
    } else {
      var n := |second| - 1;
      DedupKeepsPrefix(first, second[..n]);
      assert (first + second)[..|first + second| - 1] == first + second[..n];
    }
  }

  lemma {:induction false} DedupOfDistinct<T(!new)>(xs: seq<T>)
    requires NoDuplicates(xs)
    ensures Dedup(xs) == xs
  {
    if xs != [] {
      var init := xs[..|xs| - 1];
      DedupOfDistinct(init);
      assert xs == init + [xs[|xs| - 1]];
    }
  }

  /** `xs.map(f).filter(defined)`. */
  function FilterMap<T, U>(xs: seq<T>, f: T -> Option<U>): (r: seq<U>)
    ensures |r| <= |xs|
  {
    if xs == [] then []
    else
      var rest := FilterMap(xs[1..], f);
      match f(xs[0])
      case Some(y) => [y] + rest
      case None => rest
  }

  /** Element `k` becomes `y`. */
  predicate Becomes<T, U(==)>(xs: seq<T>, f: T -> Option<U>, k: nat, y: U) {
    k < |xs| && f(xs[k]) == Some(y)
  }

  /** What is kept is what `f` makes of the elements at increasing positions, all those it is defined on. */
  ghost predicate PicksAt<T, U>(xs: seq<T>, f: T -> Option<U>, ys: seq<U>, at: seq<nat>) {
    && |at| == |ys|
    && (forall i, j :: 0 <= i < j < |at| ==> at[i] < at[j])
    && (forall i :: 0 <= i < |at| ==> Becomes(xs, f, at[i], ys[i]))
    && (forall k: nat :: k < |xs| && k !in at ==> f(xs[k]).None?)
  }

  function Shifted(at: seq<nat>): (r: seq<nat>)
    ensures |r| == |at| && forall i :: 0 <= i < |at| ==> r[i] == at[i] + 1
  {
    seq(|at|, i requires 0 <= i < |at| => at[i] + 1)
  }

  lemma ShiftedHas(at: seq<nat>, k: nat)
    ensures k + 1 in Shifted(at) <==> k in at
  {
    if k in at {
      var i :| 0 <= i < |at| && at[i] == k;
      assert Shifted(at)[i] == k + 1;
    }
  }

  /** One more element in front that `f` is not defined on, or that it is. */
  lemma PicksOneLater<T, U>(xs: seq<T>, f: T -> Option<U>, ys: seq<U>, at: seq<nat>)
    requires xs != [] && f(xs[0]).None? && PicksAt(xs[1..], f, ys, at)
    ensures PicksAt(xs, f, ys, Shifted(at))
  {
    forall i | 0 <= i < |at| ensures Becomes(xs, f, Shifted(at)[i], ys[i]) {
      assert Becomes(xs[1..], f, at[i], ys[i]);
    }
    forall k: nat | k < |xs| && k !in Shifted(at) ensures f(xs[k]).None? {
      if k > 0 {
        ShiftedHas(at, k - 1);
        assert xs[1..][k - 1] == xs[k];
      }
    }
  }

  lemma ShiftedAfterZero(at: seq<nat>)
    requires forall i, j :: 0 <= i < j < |at| ==> at[i] < at[j]
    ensures forall i, j :: 0 <= i < j <= |at| ==> ([0] + Shifted(at))[i] < ([0] + Shifted(at))[j]
    ensures 0 in [0] + Shifted(at) && forall k :: k in Shifted(at) ==> k in [0] + Shifted(at)
  {
    assert ([0] + Shifted(at))[0] == 0;
  }

  lemma PicksFirstToo<T, U>(xs: seq<T>, f: T -> Option<U>, ys: seq<U>, at: seq<nat>)
    requires xs != [] && f(xs[0]).Some? && PicksAt(xs[1..], f, ys, at)
    ensures PicksAt(xs, f, [f(xs[0]).value] + ys, [0] + Shifted(at))
  {
    var all, zs := [0] + Shifted(at), [f(xs[0]).value] + ys;
    ShiftedAfterZero(at);
    forall i | 0 <= i < |all| ensures Becomes(xs, f, all[i], zs[i]) {
      if i > 0 {
        assert Becomes(xs[1..], f, at[i - 1], ys[i - 1]);
      }
    }
    forall k: nat | k < |xs| && k !in all ensures f(xs[k]).None? {
      ShiftedHas(at, k - 1);
      assert xs[1..][k - 1] == xs[k];
    }
  }

  lemma {:induction false} FilterMapPicks<T(!new), U(!new)>(xs: seq<T>, f: T -> Option<U>) returns (at: seq<nat>)
    ensures PicksAt(xs, f, FilterMap(xs, f), at)
  {
    if xs == [] {
      at := [];
    } else {
      var rest := FilterMapPicks(xs[1..], f);
      if f(xs[0]).Some? {
        PicksFirstToo(xs, f, FilterMap(xs[1..], f), rest);
        at := [0] + Shifted(rest);
      } else {
        PicksOneLater(xs, f, FilterMap(xs[1..], f), rest);
        at := Shifted(rest);
      }
    }
  }

  /** Nothing is dropped exactly when `f` is defined on everything, and then every element keeps its place. */
  lemma {:induction false} FilterMapKeepsAllIff<T, U>(xs: seq<T>, f: T -> Option<U>)
    ensures |FilterMap(xs, f)| == |xs| <==> forall i :: 0 <= i < |xs| ==> f(xs[i]).Some?
    ensures |FilterMap(xs, f)| == |xs| ==> forall i :: 0 <= i < |xs| ==> f(xs[i]) == Some(FilterMap(xs, f)[i])
  {
    if xs != [] {
      FilterMapKeepsAllIff(xs[1..], f);
      assert forall i :: 0 < i < |xs| ==> xs[i] == xs[1..][i - 1];
    }
  }

  function SetOf<T(==)>(xs: seq<T>): set<T> {
    set x | x in xs
  }

  lemma {:induction false} CardinalityOfSetOf<T>(xs: seq<T>)
    ensures |SetOf(xs)| <= |xs|
    ensures |SetOf(xs)| == |xs| <==> NoDuplicates(xs)
  {
    if xs == [] {
      assert SetOf(xs) == {};
    } else {
      var n := |xs| - 1;
      var init, last := xs[..n], xs[n];
      CardinalityOfSetOf(init);
      assert xs == init + [last];
      assert SetOf(xs) == SetOf(init) + {last};
      if last in init {
        assert SetOf(xs) == SetOf(init);
        var i :| 0 <= i < n && init[i] == last;
        assert xs[i] == xs[n];
      } else if NoDuplicates(init) {
        assert NoDuplicates(xs);
      } else {
        var i, j :| 0 <= i < j < n && init[i] == init[j];
        assert xs[i] == xs[j];
      }
    }
  }
}
