/** Python's `sorted`: a stable sort by a total preorder. */
module Sorting {
  import opened Lists

  ghost predicate TotalPreorder<T(!new)>(leq: (T, T) -> bool) {
    && (forall x, y :: leq(x, y) || leq(y, x))
    && (forall x, y, z :: leq(x, y) && leq(y, z) ==> leq(x, z))
  }

  ghost predicate SortedBy<T>(xs: seq<T>, leq: (T, T) -> bool) {
    forall i, j :: 0 <= i < j < |xs| ==> leq(xs[i], xs[j])
  }

  /** The place behind every element that is not greater than `x`. */
  function Place<T>(xs: seq<T>, x: T, leq: (T, T) -> bool): (k: nat)
    ensures k <= |xs|
    ensures k > 0 ==> leq(xs[k - 1], x)
    ensures forall i :: k <= i < |xs| ==> !leq(xs[i], x)
  {
    if xs == [] then 0
    else if leq(xs[|xs| - 1], x) then |xs|
    else Place(xs[..|xs| - 1], x, leq)
  }

  function Insert<T>(xs: seq<T>, x: T, leq: (T, T) -> bool): (r: seq<T>)
    ensures |r| == |xs| + 1
    ensures multiset(r) == multiset(xs) + multiset{x}
  {
    var k := Place(xs, x, leq);
    assert xs == xs[..k] + xs[k..];
    xs[..k] + [x] + xs[k..]
  }

  function Sort<T>(xs: seq<T>, leq: (T, T) -> bool): (r: seq<T>)
    ensures |r| == |xs|
    ensures multiset(r) == multiset(xs)
  {
    if xs == [] then []
    else
      assert xs == xs[..|xs| - 1] + [xs[|xs| - 1]];
      Insert(Sort(xs[..|xs| - 1], leq), xs[|xs| - 1], leq)
  }

  lemma InsertSorted<T(!new)>(xs: seq<T>, x: T, leq: (T, T) -> bool)
    requires TotalPreorder(leq) && SortedBy(xs, leq)
    ensures SortedBy(Insert(xs, x, leq), leq)
  {
    var k := Place(xs, x, leq);
    forall i | 0 <= i < k ensures leq(xs[i], x) {
      if i < k - 1 { assert leq(xs[i], xs[k - 1]); }
    }
    forall i | k <= i < |xs| ensures leq(x, xs[i]) {
      assert !leq(xs[i], x);
    }
  }

  lemma {:induction false} SortSorted<T(!new)>(xs: seq<T>, leq: (T, T) -> bool)
    requires TotalPreorder(leq)
    ensures SortedBy(Sort(xs, leq), leq)
  {
    if xs != [] {
      SortSorted(xs[..|xs| - 1], leq);
      InsertSorted(Sort(xs[..|xs| - 1], leq), xs[|xs| - 1], leq);
    }
  }

  lemma SortElems<T>(xs: seq<T>, leq: (T, T) -> bool)
    ensures forall x :: x in xs ==> x in Sort(xs, leq)
    ensures forall x :: x in Sort(xs, leq) ==> x in xs
  {
    forall x | x in xs ensures x in Sort(xs, leq) {
      assert x in multiset(Sort(xs, leq));
    }
    forall x | x in Sort(xs, leq) ensures x in xs {
      assert x in multiset(xs);
    }
  }

  lemma InsertNoDup<T>(xs: seq<T>, x: T, leq: (T, T) -> bool)
    requires NoDup(xs) && x !in xs
    ensures NoDup(Insert(xs, x, leq))
  {
    var k := Place(xs, x, leq);
  }

  lemma {:induction false} SortNoDup<T>(xs: seq<T>, leq: (T, T) -> bool)
    requires NoDup(xs)
    ensures NoDup(Sort(xs, leq))
  {
    if xs != [] {
      var front := xs[..|xs| - 1];
      SortNoDup(front, leq);
      SortElems(front, leq);
      assert xs[|xs| - 1] !in front;
      InsertNoDup(Sort(front, leq), xs[|xs| - 1], leq);
    }
  }

  lemma InsertKeepsOrder<T>(xs: seq<T>, x: T, leq: (T, T) -> bool, a: T, b: T)
    requires Before(xs, a, b)
    ensures Before(Insert(xs, x, leq), a, b)
  {
    var k := Place(xs, x, leq);
    var r := Insert(xs, x, leq);
    var i, j :| 0 <= i < j < |xs| && xs[i] == a && xs[j] == b;
    var i', j' := if i < k then i else i + 1, if j < k then j else j + 1;
    assert r[i'] == a && r[j'] == b;
  }

  lemma InsertAfter<T>(xs: seq<T>, x: T, leq: (T, T) -> bool, a: T)
    requires SortedBy(xs, leq) && a in xs && leq(a, x)
    ensures Before(Insert(xs, x, leq), a, x)
  {
    var k := Place(xs, x, leq);
    var i :| 0 <= i < |xs| && xs[i] == a;
    var r := Insert(xs, x, leq);
    assert i < k;
    assert r[i] == a && r[k] == x;
  }

  /** Stability: `a` stays in front of a later `b` that is not strictly smaller. */
  lemma {:induction false} SortStable<T(!new)>(xs: seq<T>, leq: (T, T) -> bool, a: T, b: T)
    requires TotalPreorder(leq) && Before(xs, a, b) && leq(a, b)
    ensures Before(Sort(xs, leq), a, b)
  {
    var front := xs[..|xs| - 1];
    var last := xs[|xs| - 1];
    SortSorted(front, leq);
    SortElems(front, leq);
    var i, j :| 0 <= i < j < |xs| && xs[i] == a && xs[j] == b;
    assert front[i] == a;
    if j < |xs| - 1 {
      assert front[j] == b;
      SortStable(front, leq, a, b);
      InsertKeepsOrder(Sort(front, leq), last, leq, a, b);
    } else {
      InsertAfter(Sort(front, leq), last, leq, a);
    }
  }

  /** A strictly smaller element comes first. */
  lemma SortStrict<T(!new)>(xs: seq<T>, leq: (T, T) -> bool, a: T, b: T)
    requires TotalPreorder(leq) && a in xs && b in xs && !leq(b, a)
    ensures Before(Sort(xs, leq), a, b)
  {
    SortElems(xs, leq);
    SortSorted(xs, leq);
    var r := Sort(xs, leq);
    var i :| 0 <= i < |r| && r[i] == a;
    var j :| 0 <= j < |r| && r[j] == b;
    assert leq(r[i], r[j]) || i >= j;
  }

  /** Exact order of two elements after sorting a list without repetitions. */
  lemma SortPrecedes<T(!new)>(xs: seq<T>, leq: (T, T) -> bool, a: T, b: T)
    requires TotalPreorder(leq) && NoDup(xs) && a in xs && b in xs && a != b
    ensures Before(Sort(xs, leq), a, b) <==> leq(a, b) && (leq(b, a) ==> Before(xs, a, b))
  {
    SortNoDup(xs, leq);
    BeforeAsymmetric(Sort(xs, leq), a, b);
    var i :| 0 <= i < |xs| && xs[i] == a;
    var j :| 0 <= j < |xs| && xs[j] == b;
    assert Before(xs, a, b) || Before(xs, b, a) by {
      if i < j { assert Before(xs, a, b); } else { assert Before(xs, b, a); }
    }
    BeforeAsymmetric(xs, a, b);
    if !leq(b, a) {
      SortStrict(xs, leq, a, b);
    } else if !leq(a, b) {
      SortStrict(xs, leq, b, a);
    } else if Before(xs, a, b) {
      SortStable(xs, leq, a, b);
    } else {
      SortStable(xs, leq, b, a);
    }
  }

  /** `xs[k]` is the first of the least elements. */
  ghost predicate FirstLeast<T>(xs: seq<T>, k: nat, leq: (T, T) -> bool) {
    && k < |xs|
    && (forall j :: 0 <= j < |xs| ==> leq(xs[k], xs[j]))
    && (forall j :: 0 <= j < k ==> !leq(xs[j], xs[k]))
  }

  lemma LeastSnoc<T(!new)>(xs: seq<T>, k: nat, x: T, leq: (T, T) -> bool)
    requires TotalPreorder(leq) && FirstLeast(xs, k, leq)
    ensures leq(xs[k], x) ==> FirstLeast(xs + [x], k, leq)
    ensures !leq(xs[k], x) ==> FirstLeast(xs + [x], |xs|, leq)
  {
    if !leq(xs[k], x) {
      assert leq(x, x) || leq(x, x);
      forall j | 0 <= j < |xs| ensures leq(x, xs[j]) && !leq(xs[j], x) {
        assert leq(x, xs[k]) && leq(xs[k], xs[j]);
      }
    }
  }

  lemma InsertHead<T(!new)>(xs: seq<T>, x: T, leq: (T, T) -> bool)
    requires TotalPreorder(leq) && SortedBy(xs, leq) && xs != []
    ensures Insert(xs, x, leq)[0] == if leq(xs[0], x) then xs[0] else x
  {
    var k := Place(xs, x, leq);
    assert k <= 1 || leq(xs[0], xs[k - 1]);
  }

  /** The head of a sorted list is its first least element. */
  lemma {:induction false} SortHead<T(!new)>(xs: seq<T>, leq: (T, T) -> bool) returns (k: nat)
    requires TotalPreorder(leq) && xs != []
    ensures FirstLeast(xs, k, leq) && Sort(xs, leq)[0] == xs[k]
  {
    var front := xs[..|xs| - 1];
    var last := xs[|xs| - 1];
    assert xs == front + [last];
    if front == [] {
      k := 0;
      assert leq(last, last) || leq(last, last);
    } else {
      k := SortHead(front, leq);
      LeastSnoc(front, k, last, leq);
      SortSorted(front, leq);
      InsertHead(Sort(front, leq), last, leq);
      k := if leq(front[k], last) then k else |front|;
    }
  }
}
