/** Sequences without repetition, first occurrences, filtering and relative order. */
module Lists {

  datatype Option<+T> = None | Some(value: T)

  datatype Result<+T, +E> = Success(value: T) | Failure(error: E) {
    predicate IsFailure() {
      Failure?
    }

    function PropagateFailure<U>(): Result<U, E>
      requires Failure?
    {
      Failure(error)
    }

    function Extract(): T
      requires Success?
    {
      value
    }
  }

  ghost predicate NoDup<T>(xs: seq<T>) {
    forall i, j :: 0 <= i < j < |xs| ==> xs[i] != xs[j]
  }

  ghost function Elems<T>(xs: seq<T>): set<T> {
    set x | x in xs
  }

  /** `a` occurs somewhere before an occurrence of `b`. */
  ghost predicate Before<T>(xs: seq<T>, a: T, b: T) {
    exists i, j :: 0 <= i < j < |xs| && xs[i] == a && xs[j] == b
  }

  function Filter<T>(xs: seq<T>, keep: T -> bool): (r: seq<T>)
    ensures forall x :: x in r ==> x in xs && keep(x)
    ensures forall x :: x in xs && keep(x) ==> x in r
  {
    if xs == [] then []
    else
      var rest := Filter(xs[..|xs| - 1], keep);
      var x := xs[|xs| - 1];
      assert xs == xs[..|xs| - 1] + [x];
      if keep(x) then rest + [x] else rest
  }

  /** The list with every element kept at its first occurrence only. */
  function Dedup<T(==)>(xs: seq<T>): (r: seq<T>)
    ensures NoDup(r)
    ensures forall x :: x in r ==> x in xs
    ensures forall x :: x in xs ==> x in r
  {
    if xs == [] then []
    else
      var rest := Dedup(xs[..|xs| - 1]);
      var x := xs[|xs| - 1];
      assert xs == xs[..|xs| - 1] + [x];
      if x in rest then rest else rest + [x]
  }

  lemma TakeNext<T>(xs: seq<T>, i: nat)
    requires i < |xs|
    ensures xs[..i + 1] == xs[..i] + [xs[i]]
    ensures xs[..i + 1][..i] == xs[..i]
  {
  }

  lemma FilterSnoc<T>(xs: seq<T>, x: T, keep: T -> bool)
    ensures Filter(xs + [x], keep) == if keep(x) then Filter(xs, keep) + [x] else Filter(xs, keep)
  {
    assert (xs + [x])[..|xs|] == xs;
  }

  lemma FilterStep<T>(xs: seq<T>, i: nat, keep: T -> bool)
    requires i < |xs|
    ensures Filter(xs[..i + 1], keep) ==
            if keep(xs[i]) then Filter(xs[..i], keep) + [xs[i]] else Filter(xs[..i], keep)
  {
    TakeNext(xs, i);
  }

  lemma DedupSnoc<T>(xs: seq<T>, x: T)
    ensures Dedup(xs + [x]) == if x in xs then Dedup(xs) else Dedup(xs) + [x]
  {
    assert (xs + [x])[..|xs|] == xs;
  }

  lemma {:induction false} FilterNoDup<T>(xs: seq<T>, keep: T -> bool)
    requires NoDup(xs)
    ensures NoDup(Filter(xs, keep))
  {
    if xs != [] {
      var front := xs[..|xs| - 1];
      FilterNoDup(front, keep);
      assert xs == front + [xs[|xs| - 1]];
      assert xs[|xs| - 1] !in front;
    }
  }

  lemma {:induction false} DedupOfNoDup<T>(xs: seq<T>)
    requires NoDup(xs)
    ensures Dedup(xs) == xs
  {
    if xs != [] {
      var front := xs[..|xs| - 1];
      DedupOfNoDup(front);
      assert xs == front + [xs[|xs| - 1]];
      assert xs[|xs| - 1] !in front;
    }
  }

  lemma {:induction false} FilterAll<T>(xs: seq<T>, keep: T -> bool)
    requires forall x :: x in xs ==> keep(x)
    ensures Filter(xs, keep) == xs
  {
    if xs != [] {
      var front := xs[..|xs| - 1];
      assert xs == front + [xs[|xs| - 1]];
      FilterAll(front, keep);
    }
  }

  lemma {:induction false} FilterNone<T>(xs: seq<T>, keep: T -> bool)
    requires forall x :: x in xs ==> !keep(x)
    ensures Filter(xs, keep) == []
  {
    if xs != [] {
      var front := xs[..|xs| - 1];
      assert xs == front + [xs[|xs| - 1]];
      FilterNone(front, keep);
    }
  }

  /** A repetition-free list has as many entries as elements. */
  lemma {:induction false} NoDupCard<T>(xs: seq<T>)
    requires NoDup(xs)
    ensures |Elems(xs)| == |xs|
  {
    if xs != [] {
      var front := xs[..|xs| - 1];
      var x := xs[|xs| - 1];
      NoDupCard(front);
      assert xs == front + [x];
      assert x !in Elems(front);
      assert Elems(xs) == Elems(front) + {x};
    }
  }

  lemma SubsetCard<T>(a: set<T>, b: set<T>)
    requires a <= b
    ensures |a| <= |b|
    ensures |a| == |b| ==> a == b
  {
    assert b == a + (b - a);
    assert |b| == |a| + |b - a|;
  }

  /** In a repetition-free list `Before` is strict: it never holds both ways. */
  lemma BeforeAsymmetric<T>(xs: seq<T>, a: T, b: T)
    requires NoDup(xs)
    ensures !(Before(xs, a, b) && Before(xs, b, a))
  {
  }

  /** Both occur, and `a` for the first time before `b` does. */
  ghost predicate FirstBefore<T>(xs: seq<T>, a: T, b: T) {
    b in xs && exists i :: 0 <= i < |xs| && xs[i] == a && forall j :: 0 <= j <= i ==> xs[j] != b
  }

  lemma BeforeGrows<T>(xs: seq<T>, x: T, a: T, b: T)
    requires Before(xs, a, b) || (a in xs && x == b)
    ensures Before(xs + [x], a, b)
  {
    if Before(xs, a, b) {
      var j, k :| 0 <= j < k < |xs| && xs[j] == a && xs[k] == b;
      assert (xs + [x])[j] == a && (xs + [x])[k] == b;
    } else {
      var j :| 0 <= j < |xs| && xs[j] == a;
      assert (xs + [x])[j] == a && (xs + [x])[|xs|] == b;
    }
  }

  lemma FirstBeforeShrinks<T>(xs: seq<T>, a: T, b: T)
    requires FirstBefore(xs, a, b)
    ensures a in xs[..|xs| - 1]
    ensures b in xs[..|xs| - 1] ==> FirstBefore(xs[..|xs| - 1], a, b)
    ensures b !in xs[..|xs| - 1] ==> xs[|xs| - 1] == b
  {
    var front := xs[..|xs| - 1];
    var i :| 0 <= i < |xs| && xs[i] == a && forall j :: 0 <= j <= i ==> xs[j] != b;
    var j :| 0 <= j < |xs| && xs[j] == b;
    assert front[i] == a && forall j :: 0 <= j <= i ==> front[j] != b;
    assert xs == front + [xs[|front|]];
  }

  lemma FirstBeforeGrows<T>(xs: seq<T>, x: T, a: T, b: T)
    requires a in xs && a != b
    requires FirstBefore(xs, a, b) || (b !in xs && x == b)
    ensures FirstBefore(xs + [x], a, b)
  {
    var i :| 0 <= i < |xs| && xs[i] == a && forall j :: 0 <= j <= i ==> xs[j] != b;
    assert (xs + [x])[i] == a && forall j :: 0 <= j <= i ==> (xs + [x])[j] == xs[j];
    assert (xs + [x])[|xs|] == x;
  }

  /** Leaving out other elements does not change which of two comes first. */
  lemma {:induction false} FilterInOrder<T>(xs: seq<T>, keep: T -> bool, a: T, b: T)
    requires FirstBefore(xs, a, b) && keep(a) && keep(b)
    ensures FirstBefore(Filter(xs, keep), a, b)
  {
    hide FirstBefore, Filter;
    FirstOnesDiffer(xs, a, b);
    var front, x := xs[..|xs| - 1], xs[|xs| - 1];
    assert xs == front + [x];
    FilterSnoc(front, x, keep);
    FirstBeforeShrinks(xs, a, b);
    if b in front {
      FilterInOrder(front, keep, a, b);
    }
    if keep(x) {
      FirstBeforeGrows(Filter(front, keep), x, a, b);
    }
  }

  lemma FirstOnesDiffer<T>(xs: seq<T>, a: T, b: T)
    requires FirstBefore(xs, a, b)
    ensures xs != [] && a != b
  {
  }

  /** First occurrences stay in order when later ones are dropped. */
  lemma {:induction false} DedupInOrder<T>(xs: seq<T>, a: T, b: T)
    requires FirstBefore(xs, a, b)
    ensures Before(Dedup(xs), a, b)
  {
    hide Before, Dedup;
    var front, x := xs[..|xs| - 1], xs[|xs| - 1];
    assert xs == front + [x];
    DedupSnoc(front, x);
    FirstBeforeShrinks(xs, a, b);
    if b in front {
      DedupInOrder(front, a, b);
    }
    if x !in front {
      BeforeGrows(Dedup(front), x, a, b);
    }
  }
}
