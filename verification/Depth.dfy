/** Quantity by price: the simple thing that every depth index stands for. */
module Depth {

  /** The quantity recorded at a price; nothing recorded is zero. */
  function At(m: map<nat, nat>, p: nat): nat {
    if p in m then m[p] else 0
  }

  /** The quantity recorded at the prices of `[lo, hi)`. */
  function SumRange(m: map<nat, nat>, lo: nat, hi: nat): nat
    decreases hi - lo
  {
    if hi <= lo then 0 else SumRange(m, lo, hi - 1) + At(m, hi - 1)
  }

  function IndexAdd(m: map<nat, nat>, p: nat, q: nat): map<nat, nat> {
    m[p := At(m, p) + q]
  }

  /** Entries that reach zero are dropped. */
  function IndexSub(m: map<nat, nat>, p: nat, q: nat): map<nat, nat> {
    if At(m, p) <= q then m - {p} else m[p := At(m, p) - q]
  }

  lemma {:induction false} RangeSplits(m: map<nat, nat>, lo: nat, mid: nat, hi: nat)
    requires lo <= mid <= hi
    ensures SumRange(m, lo, hi) == SumRange(m, lo, mid) + SumRange(m, mid, hi)
  {
    if mid < hi {
      RangeSplits(m, lo, mid, hi - 1);
    }
  }

  lemma {:induction false} RangeAgrees(m: map<nat, nat>, n: map<nat, nat>, lo: nat, hi: nat)
    requires forall p :: lo <= p < hi ==> At(m, p) == At(n, p)
    ensures SumRange(m, lo, hi) == SumRange(n, lo, hi)
  {
    if lo < hi {
      RangeAgrees(m, n, lo, hi - 1);
    }
  }

  lemma {:induction false} RangeOfNothing(m: map<nat, nat>, lo: nat, hi: nat)
    requires forall p :: lo <= p < hi ==> At(m, p) == 0
    ensures SumRange(m, lo, hi) == 0
  {
    if lo < hi {
      RangeOfNothing(m, lo, hi - 1);
    }
  }
}

/** The range-volume index of the prices outside the dense window: sorted
    prices with their quantities, and a Fenwick tree over the ranks. */
module SparseIndex {
  import opened Types
  import opened Depth
  import F = Fenwick

  ghost predicate Ascending(s: seq<nat>) {
    forall i, j :: 0 <= i < j < |s| ==> s[i] < s[j]
  }

  /** The parallel lists spell out the map `m`. */
  ghost predicate Spells(prices: seq<nat>, qtys: seq<nat>, m: map<nat, nat>) {
    && |prices| == |qtys|
    && Ascending(prices)
    && (forall p :: p in m <==> p in prices)
    && forall i :: 0 <= i < |prices| ==> prices[i] in m && m[prices[i]] == qtys[i]
  }

  lemma SpellsUpdate(prices: seq<nat>, qtys: seq<nat>, m: map<nat, nat>, rank: nat, q: nat)
    requires Spells(prices, qtys, m) && rank < |prices|
    ensures Spells(prices, qtys[rank := q], m[prices[rank] := q])
  {
  }

  lemma PutMembers(s: seq<nat>, rank: nat, x: nat, y: nat)
    requires rank <= |s|
    ensures y in Inserted(s, rank, x) <==> y in s || y == x
  {
    var t := Inserted(s, rank, x);
    assert t[rank] == x;
    if y in s {
      var i :| 0 <= i < |s| && s[i] == y;
      assert t[if i < rank then i else i + 1] == y;
    }
  }

  lemma DropMembers(s: seq<nat>, rank: nat, y: nat)
    requires rank < |s| && Ascending(s)
    ensures y in Without(s, rank) <==> y in s && y != s[rank]
  {
    var t := Without(s, rank);
    if y in s && y != s[rank] {
      var i :| 0 <= i < |s| && s[i] == y;
      assert t[if i < rank then i else i - 1] == y;
    }
  }

  lemma PutAscends(s: seq<nat>, rank: nat, x: nat)
    requires Ascending(s) && rank <= |s| && x !in s
    requires forall i :: 0 <= i < |s| ==> (s[i] < x <==> i < rank)
    ensures Ascending(Inserted(s, rank, x))
  {
    var t := Inserted(s, rank, x);
    forall i, j | 0 <= i < j < |t| ensures t[i] < t[j] {
      assert t[i] == if i < rank then s[i] else if i == rank then x else s[i - 1];
      assert t[j] == if j < rank then s[j] else if j == rank then x else s[j - 1];
    }
  }

  lemma DropAscends(s: seq<nat>, rank: nat)
    requires Ascending(s) && rank < |s|
    ensures Ascending(Without(s, rank))
  {
    var t := Without(s, rank);
    forall i, j | 0 <= i < j < |t| ensures t[i] < t[j] {
      assert t[i] == s[if i < rank then i else i + 1];
      assert t[j] == s[if j < rank then j else j + 1];
    }
  }

  lemma SpellsInsert(prices: seq<nat>, qtys: seq<nat>, m: map<nat, nat>, rank: nat, p: nat, q: nat)
    requires Spells(prices, qtys, m) && rank <= |prices| && p !in m
    requires forall i :: 0 <= i < |prices| ==> (prices[i] < p <==> i < rank)
    ensures Spells(Inserted(prices, rank, p), Inserted(qtys, rank, q), m[p := q])
  {
    PutAscends(prices, rank, p);
    forall x ensures x in m[p := q] <==> x in Inserted(prices, rank, p) {
      PutMembers(prices, rank, p, x);
    }
    forall i | 0 <= i < |prices| + 1 ensures m[p := q][Inserted(prices, rank, p)[i]] == Inserted(qtys, rank, q)[i] {
      if i != rank {
        assert Inserted(prices, rank, p)[i] == prices[if i < rank then i else i - 1];
      }
    }
  }

  lemma SpellsRemove(prices: seq<nat>, qtys: seq<nat>, m: map<nat, nat>, rank: nat)
    requires Spells(prices, qtys, m) && rank < |prices|
    ensures Spells(Without(prices, rank), Without(qtys, rank), m - {prices[rank]})
  {
    DropAscends(prices, rank);
    forall x ensures x in m - {prices[rank]} <==> x in Without(prices, rank) {
      DropMembers(prices, rank, x);
    }
    forall i | 0 <= i < |prices| - 1 ensures m[Without(prices, rank)[i]] == Without(qtys, rank)[i] {
      assert Without(prices, rank)[i] == prices[if i < rank then i else i + 1];
    }
  }

  /** Summing ranks is summing prices. */
  lemma {:induction false} RankSum(prices: seq<nat>, qtys: seq<nat>, m: map<nat, nat>, n: nat, hi: nat)
    requires Spells(prices, qtys, m) && n <= |prices|
    requires forall i :: 0 <= i < |prices| ==> (prices[i] < hi <==> i < n)
    ensures F.Sum(qtys, 0, n) == SumRange(m, 0, hi)
    decreases hi
  {
    if hi == 0 {
      assert n == 0;
    } else if hi - 1 in m {
      var k :| 0 <= k < |prices| && prices[k] == hi - 1;
      assert prices[k] < hi && prices[n - 1] < hi;
      RankSum(prices, qtys, m, n - 1, hi - 1);
    } else {
      forall i | 0 <= i < |prices| ensures prices[i] < hi - 1 <==> i < n {
        assert prices[i] in m;
      }
      RankSum(prices, qtys, m, n, hi - 1);
    }
  }

  lemma RankSumAbove(prices: seq<nat>, qtys: seq<nat>, m: map<nat, nat>, start: nat, price: nat, limit: nat)
    requires Spells(prices, qtys, m) && start <= |prices| && price <= limit
    requires forall i :: 0 <= i < |prices| ==> (prices[i] < price <==> i < start)
    requires forall p :: p in m ==> p < limit
    ensures F.Sum(qtys, start, |qtys|) == SumRange(m, price, limit)
    ensures F.Sum(qtys, 0, |qtys|) == F.Sum(qtys, 0, start) + F.Sum(qtys, start, |qtys|)
  {
    RankSum(prices, qtys, m, start, price);
    RankSum(prices, qtys, m, |prices|, limit);
    RangeSplits(m, 0, price, limit);
    F.SumSplits(qtys, 0, start, |qtys|);
  }

  /** The first rank whose price is not below `bound`, by bisection. */
  method PartitionPoint(prices: seq<nat>, bound: nat) returns (n: nat)
    requires Ascending(prices)
    ensures n <= |prices|
    ensures forall i :: 0 <= i < |prices| ==> (prices[i] < bound <==> i < n)
  {
    var lo, hi := 0, |prices|;
    while lo < hi
      invariant 0 <= lo <= hi <= |prices|
      invariant forall i :: 0 <= i < lo ==> prices[i] < bound
      invariant forall i :: hi <= i < |prices| ==> prices[i] >= bound
    {
      var mid := lo + (hi - lo) / 2;
      if prices[mid] < bound {
        lo := mid + 1;
      } else {
        hi := mid;
      }
    }
    n := lo;
  }

  /** The partition point of a price is where the price is, if it is anywhere. */
  lemma RankOf(prices: seq<nat>, qtys: seq<nat>, m: map<nat, nat>, price: nat, rank: nat)
    requires Spells(prices, qtys, m) && rank <= |prices|
    requires forall i :: 0 <= i < |prices| ==> (prices[i] < price <==> i < rank)
    ensures rank < |prices| && prices[rank] == price <==> price in m
    ensures price in m ==> m[price] == qtys[rank]
  {
    if price in m {
      var k :| 0 <= k < |prices| && prices[k] == price;
      assert rank <= k;
      assert price <= prices[rank];
    }
  }

  class SparseVolumeIndex {
    var prices: seq<nat>
    var qtys: seq<nat>
    const fenwick: F.FenwickTree
    /** The quantities by price that the index stands for. */
    ghost var entries: map<nat, nat>

    ghost predicate Valid()
      reads this, fenwick
    {
      && Spells(prices, qtys, entries)
      && (forall p :: p in entries ==> p < U64_LIMIT)
      && fenwick.Valid()
      && fenwick.vals == qtys
    }

    constructor ()
      ensures Valid() && fresh(fenwick)
      ensures entries == map[]
    {
      prices, qtys, entries := [], [], map[];
      fenwick := new F.FenwickTree(0);
    }

    method Clear()
      modifies this, fenwick
      ensures Valid() && entries == map[]
    {
      prices, qtys, entries := [], [], map[];
      fenwick.Reset(0);
    }

    method Add(price: nat, qty: nat)
      requires Valid() && price < U64_LIMIT
      modifies this, fenwick
      ensures Valid() && entries == IndexAdd(old(entries), price, qty)
    {
      var rank := PartitionPoint(prices, price);
      RankOf(prices, qtys, entries, price, rank);
      if rank < |prices| && prices[rank] == price {
        SpellsUpdate(prices, qtys, entries, rank, qtys[rank] + qty);
        entries := entries[price := qtys[rank] + qty];
        qtys := qtys[rank := qtys[rank] + qty];
        fenwick.Add(rank, qty);
      } else {
        InsertAt(rank, price, qty);
      }
    }

    method InsertAt(rank: nat, price: nat, qty: nat)
      requires Valid() && price < U64_LIMIT && price !in entries && rank <= |prices|
      requires forall i :: 0 <= i < |prices| ==> (prices[i] < price <==> i < rank)
      modifies this, fenwick
      ensures Valid() && entries == old(entries)[price := qty]
    {
      SpellsInsert(prices, qtys, entries, rank, price, qty);
      prices := Inserted(prices, rank, price);
      qtys := Inserted(qtys, rank, qty);
      entries := entries[price := qty];
      RebuildFenwick();
    }

    /** A missing price and an underflow both panic in the source; the precondition excludes exactly those. */
    method Sub(price: nat, qty: nat)
      requires Valid() && price in entries && qty <= entries[price]
      modifies this, fenwick
      ensures Valid() && entries == IndexSub(old(entries), price, qty)
    {
      var rank := PartitionPoint(prices, price);
      RankOf(prices, qtys, entries, price, rank);
      var left := qtys[rank] - qty;
      SpellsUpdate(prices, qtys, entries, rank, left);
      entries := entries[price := left];
      qtys := qtys[rank := left];
      fenwick.Sub(rank, qty);
      if qtys[rank] == 0 {
        SpellsRemove(prices, qtys, entries, rank);
        prices := Without(prices, rank);
        qtys := Without(qtys, rank);
        entries := entries - {price};
        RebuildFenwick();
        assert entries == old(entries) - {price};
      }
    }

    method RebuildFenwick()
      requires Spells(prices, qtys, entries)
      requires forall p :: p in entries ==> p < U64_LIMIT
      modifies fenwick
      ensures Valid()
    {
      var n := |prices|;
      fenwick.Reset(n);
      for i := 0 to n
        invariant fenwick.Valid() && |fenwick.vals| == n
        invariant forall j :: 0 <= j < i ==> fenwick.vals[j] == qtys[j]
        invariant forall j :: i <= j < n ==> fenwick.vals[j] == 0
      {
        if qtys[i] > 0 {
          fenwick.Add(i, qtys[i]);
        }
      }
    }

    /** Sum of quantities at prices not above `price`. */
    method SumAtOrBelow(price: nat) returns (sum: nat)
      requires Valid()
      ensures sum == SumRange(entries, 0, price + 1)
    {
      var n := PartitionPoint(prices, price + 1);
      RankSum(prices, qtys, entries, n, price + 1);
      if n == 0 {
        return 0;
      }
      sum := fenwick.PrefixSum(n - 1);
    }

    /** Sum of quantities at prices not below `price`. */
    method SumAtOrAbove(price: nat) returns (sum: nat)
      requires Valid() && price <= U64_LIMIT
      ensures sum == SumRange(entries, price, U64_LIMIT)
    {
      var start := PartitionPoint(prices, price);
      var n := |prices|;
      RankSumAbove(prices, qtys, entries, start, price, U64_LIMIT);
      if start >= n {
        return 0;
      }
      var total := fenwick.PrefixSum(n - 1);
      var before := 0;
      if start > 0 {
        before := fenwick.PrefixSum(start - 1);
      }
      sum := total - before;
    }
  }
}
