/** Attempts of one SPU are numbered 1..n in creation order, so the greatest index is the last created. */
module AttemptNumbering {
  import opened Lists
  import opened Inspection

  /** Every attempt's index is one more than the number of earlier attempts of its SPU. */
  ghost predicate Numbered(spus: seq<Attempt>) {
    spus == [] ||
    var n := |spus| - 1;
    Numbered(spus[..n]) && spus[n].index == AttemptCount(spus[..n], spus[n].spuId) + 1
  }

  /** The two lists hold the same attempts, in whatever state these are. */
  ghost predicate SameAttempts(xs: seq<Attempt>, ys: seq<Attempt>) {
    && |xs| == |ys|
    && forall i :: 0 <= i < |xs| ==> xs[i].spuId == ys[i].spuId && xs[i].index == ys[i].index
  }

  lemma CountSnoc(spus: seq<Attempt>, a: Attempt, s: string)
    ensures AttemptCount(spus + [a], s) == AttemptCount(spus, s) + if a.spuId == s then 1 else 0
  {
    FilterSnoc(spus, a, Of(s));
  }

  lemma CountLast(spus: seq<Attempt>, s: string)
    requires spus != []
    ensures var n := |spus| - 1;
            AttemptCount(spus, s) == AttemptCount(spus[..n], s) + if spus[n].spuId == s then 1 else 0
  {
    var n := |spus| - 1;
    assert spus == spus[..n] + [spus[n]];
    CountSnoc(spus[..n], spus[n], s);
  }

  lemma {:induction false} NumberedPrefix(spus: seq<Attempt>, n: nat)
    requires Numbered(spus) && n <= |spus|
    ensures Numbered(spus[..n])
    decreases |spus|
  {
    if n == |spus| {
      assert spus[..n] == spus;
    } else {
      NumberedPrefix(spus[..|spus| - 1], n);
      assert spus[..|spus| - 1][..n] == spus[..n];
    }
  }

  lemma {:induction false} IndexInRange(spus: seq<Attempt>, i: nat)
    requires Numbered(spus) && i < |spus|
    ensures 1 <= spus[i].index <= AttemptCount(spus, spus[i].spuId)
  {
    var n := |spus| - 1;
    CountLast(spus, spus[i].spuId);
    if i < n {
      IndexInRange(spus[..n], i);
    }
  }

  /** A later attempt of the same SPU has a greater index, so index and SPU identify an attempt. */
  lemma IndicesIncrease(spus: seq<Attempt>, i: nat, j: nat)
    requires Numbered(spus) && i < j < |spus| && spus[i].spuId == spus[j].spuId
    ensures 1 <= spus[i].index < spus[j].index
  {
    NumberedPrefix(spus, j + 1);
    assert spus[..j + 1][..j] == spus[..j];
    IndexInRange(spus[..j], i);
  }

  /** The indices of an SPU are exactly 1..n, and looking one up finds its only attempt. */
  lemma {:induction false} IndicesComplete(spus: seq<Attempt>, s: string, k: nat) returns (i: nat)
    requires Numbered(spus) && 1 <= k <= AttemptCount(spus, s)
    ensures i < |spus| && spus[i].spuId == s && spus[i].index == k
    ensures FindAt(spus, s, k) == Some(i)
    ensures forall j :: 0 <= j < |spus| && spus[j].spuId == s && spus[j].index == k ==> j == i
    decreases |spus|
  {
    assert spus != [];
    var n := |spus| - 1;
    CountLast(spus, s);
    if k <= AttemptCount(spus[..n], s) {
      i := IndicesComplete(spus[..n], s, k);
    } else {
      i := n;
      forall j | 0 <= j < n && spus[..n][j].spuId == s ensures spus[..n][j].index != k {
        IndicesIncrease(spus, j, n);
      }
    }
  }

  lemma {:induction false} MaxIndexIsCount(spus: seq<Attempt>, s: string)
    requires Numbered(spus)
    ensures MaxIndex(spus, s) == AttemptCount(spus, s)
  {
    if spus != [] {
      MaxIndexIsCount(spus[..|spus| - 1], s);
      CountLast(spus, s);
    }
  }

  /** The attempt at `k` is the last one of `s` in the list. */
  ghost predicate LastOf(spus: seq<Attempt>, s: string, k: nat) {
    && k < |spus| && spus[k].spuId == s
    && forall j :: k < j < |spus| ==> spus[j].spuId != s
  }

  lemma LastOfGrows(spus: seq<Attempt>, s: string, k: nat)
    requires spus != [] && spus[|spus| - 1].spuId != s && LastOf(spus[..|spus| - 1], s, k)
    ensures LastOf(spus, s, k)
  {
  }

  lemma LatestAtLast(spus: seq<Attempt>, s: string)
    requires spus != []
    ensures var n := |spus| - 1; var best := LatestAt(spus[..n], s);
            LatestAt(spus, s) ==
            if spus[n].spuId == s && (best.None? || spus[n].index > spus[best.value].index) then Some(n) else best
  {
  }

  /** The greatest index belongs to the last created attempt and equals the number of attempts. */
  lemma {:induction false} LatestIsLastCreated(spus: seq<Attempt>, s: string)
    requires Numbered(spus)
    ensures LatestAt(spus, s).None? <==> AttemptCount(spus, s) == 0
    ensures LatestAt(spus, s).Some? ==>
              && LastOf(spus, s, LatestAt(spus, s).value)
              && spus[LatestAt(spus, s).value].index == AttemptCount(spus, s)
  {
    if spus == [] {
      NoAttempts(s);
    } else {
      hide AttemptCount, LatestAt;
      var front := spus[..|spus| - 1];
      LatestIsLastCreated(front, s);
      CountLast(spus, s);
      LatestAtLast(spus, s);
      var best := LatestAt(front, s);
      if spus[|front|].spuId != s && best.Some? {
        LastOfGrows(spus, s, best.value);
      }
    }
  }

  lemma NoAttempts(s: string)
    ensures AttemptCount([], s) == 0 && LatestAt([], s) == None
  {
  }

  lemma CreateKeepsNumbering(spus: seq<Attempt>, a: Attempt)
    requires Numbered(spus) && a.index == MaxIndex(spus, a.spuId) + 1
    ensures Numbered(spus + [a])
  {
    MaxIndexIsCount(spus, a.spuId);
    assert (spus + [a])[..|spus|] == spus;
  }

  lemma {:induction false} CountOfSame(xs: seq<Attempt>, ys: seq<Attempt>, s: string)
    requires SameAttempts(xs, ys)
    ensures AttemptCount(xs, s) == AttemptCount(ys, s)
    decreases |xs|
  {
    if xs != [] {
      CountOfSame(xs[..|xs| - 1], ys[..|ys| - 1], s);
      CountLast(xs, s);
      CountLast(ys, s);
    }
  }

  lemma {:induction false} NumberedOfSame(xs: seq<Attempt>, ys: seq<Attempt>)
    requires SameAttempts(xs, ys) && Numbered(xs)
    ensures Numbered(ys)
    decreases |xs|
  {
    if xs != [] {
      var n := |xs| - 1;
      NumberedOfSame(xs[..n], ys[..n]);
      CountOfSame(xs[..n], ys[..n], xs[n].spuId);
    }
  }
}
