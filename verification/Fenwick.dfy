/** The Fenwick tree behind the depth index. */
module Fenwick {
  import opened Types
  import opened Bits

  /** `s[lo] + ... + s[hi - 1]`. */
  function Sum(s: seq<nat>, lo: nat, hi: nat): nat
    requires hi <= |s|
    decreases hi
  {
    if hi <= lo then 0 else Sum(s, lo, hi - 1) + s[hi - 1]
  }

  lemma {:induction false} SumSplits(s: seq<nat>, lo: nat, mid: nat, hi: nat)
    requires lo <= mid <= hi <= |s|
    ensures Sum(s, lo, hi) == Sum(s, lo, mid) + Sum(s, mid, hi)
  {
    if mid < hi {
      SumSplits(s, lo, mid, hi - 1);
    }
  }

  lemma {:induction false} SumUpdate(s: seq<nat>, j: nat, v: nat, lo: nat, hi: nat)
    requires j < |s| && hi <= |s|
    ensures Sum(s[j := v], lo, hi) == if lo <= j < hi then Sum(s, lo, hi) - s[j] + v else Sum(s, lo, hi)
    ensures lo <= j < hi ==> s[j] <= Sum(s, lo, hi)
  {
    if lo < hi {
      SumUpdate(s, j, v, lo, hi - 1);
    }
  }

  lemma {:induction false} SumOfZeros(s: seq<nat>, lo: nat, hi: nat)
    requires hi <= |s|
    requires forall i :: lo <= i < hi ==> s[i] == 0
    ensures Sum(s, lo, hi) == 0
  {
    if lo < hi {
      SumOfZeros(s, lo, hi - 1);
    }
  }

  /** Node `k` of the tree holds the sum of the points of `(k - LowBit(k), k]`, counted from one. */
  predicate Covers(k: nat, j: nat)
    requires k > 0
  {
    k - LowBit(k) < j <= k
  }

  /** Stepping from a node that covers `j` to the next by adding the low bit
      reaches a node that covers `j` and skips only nodes that do not. */
  lemma NextCover(i: nat, j: nat)
    requires i > 0 && Covers(i, j)
    ensures Covers(i + LowBit(i), j)
    ensures forall k :: i < k < i + LowBit(i) ==> !Covers(k, j)
  {
    LowBitCarries(i);
    forall k | i < k < i + LowBit(i) ensures !Covers(k, j) {
      LowBitOfSum(i, k - i);
    }
  }

  /** `i += i & i.wrapping_neg()` goes to the next node that covers `j`. */
  method NextNode(i: nat, ghost j: nat) returns (next: nat)
    requires 0 < i && Covers(i, j)
    ensures i < next && Covers(next, j)
    ensures forall k :: i < k < next ==> !Covers(k, j)
  {
    AndNegIsLowBit(i);
    NextCover(i, j);
    next := i + And(i, WrappingNeg(Word(i), i));
  }

  /** Nodes below `j` do not cover it. */
  lemma CoverIsSelf(j: nat)
    requires j > 0
    ensures Covers(j, j)
    ensures forall k :: 0 < k < j ==> !Covers(k, j)
  {
  }

  ghost predicate Represents(data: seq<nat>, vals: seq<nat>) {
    && |data| == |vals| + 1
    && forall i :: 1 <= i < |data| ==> data[i] == Sum(vals, i - LowBit(i), i)
  }

  /** `data` after adding `delta` (which may be negative) at every node below `limit` that covers `j`. */
  ghost predicate Shifted(data: seq<nat>, was: seq<nat>, j: nat, limit: nat, delta: int) {
    && |data| == |was|
    && forall k :: 1 <= k < |data| ==>
         data[k] == if k < limit && Covers(k, j) then was[k] + delta else was[k]
  }

  /** Shifting every node that covers a point is changing that point. */
  lemma ShiftedRepresents(data: seq<nat>, was: seq<nat>, vals: seq<nat>, index: nat, delta: int)
    requires Represents(was, vals) && index < |vals| && vals[index] + delta >= 0
    requires Shifted(data, was, index + 1, |was|, delta)
    ensures Represents(data, vals[index := vals[index] + delta])
  {
    var vals' := vals[index := vals[index] + delta];
    forall i | 1 <= i < |data| ensures data[i] == Sum(vals', i - LowBit(i), i) {
      SumUpdate(vals, index, vals[index] + delta, i - LowBit(i), i);
    }
  }

  /** One step of the update loop: write the node, go to the next node that covers the point. */
  lemma ShiftStep(data: seq<nat>, was: seq<nat>, j: nat, i: nat, next: nat, delta: int)
    requires Shifted(data, was, j, i, delta) && 0 < i < |data| && Covers(i, j) && data[i] + delta >= 0
    requires i < next && forall k :: i < k < next ==> !Covers(k, j)
    ensures data[i] == was[i]
    ensures Shifted(data[i := data[i] + delta], was, j, next, delta)
  {
  }

  /** A node that covers a point holds at least that point's value. */
  lemma CoveringNodeIsLargeEnough(data: seq<nat>, vals: seq<nat>, index: nat, i: nat)
    requires Represents(data, vals) && index < |vals| && 1 <= i < |data| && Covers(i, index + 1)
    ensures data[i] >= vals[index]
  {
    SumUpdate(vals, index, 0, i - LowBit(i), i);
  }

  class FenwickTree {
    var data: seq<nat>
    /** The point values that the tree stands for. */
    ghost var vals: seq<nat>

    ghost predicate Valid()
      reads this
    {
      Represents(data, vals)
    }

    constructor (size: nat)
      ensures Valid() && vals == seq(size, _ => 0)
    {
      data := seq(size + 1, _ => 0);
      vals := seq(size, _ => 0);
      new;
      ZerosRepresent(size);
    }

    /** Replace the tree by a new one of the given size. */
    method Reset(size: nat)
      modifies this
      ensures Valid() && vals == seq(size, _ => 0)
    {
      data := seq(size + 1, _ => 0);
      vals := seq(size, _ => 0);
      ZerosRepresent(size);
    }

    method Add(index: nat, delta: nat)
      requires Valid() && index < |vals|
      modifies this
      ensures Valid() && vals == old(vals)[index := old(vals)[index] + delta]
    {
      ghost var was := data;
      var i := index + 1;
      CoverIsSelf(i);
      while i < |data|
        invariant 0 < i && Covers(i, index + 1)
        invariant Shifted(data, was, index + 1, i, delta)
        invariant vals == old(vals)
      {
        var next := NextNode(i, index + 1);
        ShiftStep(data, was, index + 1, i, next, delta);
        data := data[i := data[i] + delta];
        i := next;
      }
      ShiftedRepresents(data, was, vals, index, delta);
      vals := vals[index := vals[index] + delta];
    }

    /** Saturating subtraction at every covering node; under the precondition it never saturates. */
    method Sub(index: nat, delta: nat)
      requires Valid() && index < |vals| && delta <= vals[index]
      modifies this
      ensures Valid() && vals == old(vals)[index := old(vals)[index] - delta]
    {
      ghost var was := data;
      var i := index + 1;
      CoverIsSelf(i);
      while i < |data|
        invariant 0 < i && Covers(i, index + 1)
        invariant Shifted(data, was, index + 1, i, -(delta as int))
        invariant vals == old(vals)
      {
        CoveringNodeIsLargeEnough(was, vals, index, i);
        var next := NextNode(i, index + 1);
        assert data[i] >= delta;
        ShiftStep(data, was, index + 1, i, next, -(delta as int));
        data := data[i := SaturatingSub(data[i], delta)];
        i := next;
      }
      ShiftedRepresents(data, was, vals, index, -(delta as int));
      vals := vals[index := vals[index] - delta];
    }

    /** Prefix sum from index 0 to `index` (inclusive). */
    method PrefixSum(index: nat) returns (acc: nat)
      requires Valid() && index < |vals|
      ensures acc == Sum(vals, 0, index + 1)
    {
      var i := index + 1;
      acc := 0;
      while i > 0
        invariant 0 <= i <= index + 1
        invariant acc == Sum(vals, i, index + 1)
      {
        acc := acc + data[i];
        AndNegIsLowBit(i);
        SumSplits(vals, i - LowBit(i), i, index + 1);
        i := i - And(i, WrappingNeg(Word(i), i));
      }
    }

    /** Sum from `index` to the end (inclusive). */
    method SuffixSumGe(index: nat) returns (acc: nat)
      requires Valid() && index <= |vals| && |vals| > 0
      ensures acc == Sum(vals, index, |vals|)
    {
      var total := PrefixSum(|data| - 2);
      var before := 0;
      if index > 0 {
        before := PrefixSum(index - 1);
      }
      SumSplits(vals, 0, index, |vals|);
      acc := total - before;
    }
  }

  lemma ZerosRepresent(size: nat)
    ensures Represents(seq(size + 1, _ => 0), seq(size, _ => 0))
  {
    var vals := seq(size, _ => 0);
    forall i | 1 <= i < size + 1 ensures Sum(vals, i - LowBit(i), i) == 0 {
      SumOfZeros(vals, i - LowBit(i), i);
    }
  }
}
