/** One side of the hybrid book: dense levels inside the price window, sparse
    levels outside it, an occupancy bitset, and a depth index for each part.
    All of it stands for three simple things: the non-empty level records by
    price, the indexed depth by price, and the cached best price. */
module SideBooks {
  import opened Types
  import opened Depth
  import opened BookSpec
  import F = Fenwick
  import S = SparseIndex
  import B = Bitset

  predicate InWindow(base: nat, ticks: nat, p: nat) {
    base <= p < base + ticks
  }

  function RecordAt(recs: map<nat, PriceLevel>, p: nat): PriceLevel {
    if p in recs then recs[p] else EMPTY_LEVEL
  }

  ghost predicate RecordsOk(recs: map<nat, PriceLevel>) {
    forall p :: p in recs ==> recs[p].count > 0 && p < U64_LIMIT
  }

  ghost predicate LevelsOk(base: nat, ticks: nat, dense: seq<PriceLevel>, sparse: map<nat, PriceLevel>,
                           recs: map<nat, PriceLevel>)
  {
    && |dense| == ticks
    && (forall i :: 0 <= i < ticks ==> dense[i] == RecordAt(recs, base + i))
    && (forall p :: p in sparse <==> p in recs && !InWindow(base, ticks, p))
    && forall p :: p in sparse ==> sparse[p] == recs[p]
  }

  ghost predicate BitsOk(base: nat, ticks: nat, occupied: seq<nat>, recs: map<nat, PriceLevel>) {
    && |occupied| == (ticks + 63) / 64
    && B.WordsOk(occupied)
    && forall i: nat :: i < 64 * |occupied| ==> (B.Has(occupied, i) <==> i < ticks && base + i in recs)
  }

  ghost predicate DepthOk(base: nat, ticks: nat, vals: seq<nat>, index: map<nat, nat>) {
    && |vals| == ticks
    && forall i :: 0 <= i < ticks ==> vals[i] == At(index, base + i)
  }

  ghost predicate EntriesOk(base: nat, ticks: nat, entries: map<nat, nat>, index: map<nat, nat>) {
    && (forall p :: p in entries <==> p in index && !InWindow(base, ticks, p))
    && forall p :: p in entries ==> entries[p] == index[p]
  }

  /** Only prices that fit in 64 bits are indexed. */
  ghost predicate IndexFits(index: map<nat, nat>) {
    forall p :: p in index ==> p < U64_LIMIT
  }

  function Rerecord(recs: map<nat, PriceLevel>, p: nat, rec: PriceLevel): map<nat, PriceLevel> {
    if rec.count == 0 then recs - {p} else recs[p := rec]
  }

  function TotalsOf(recs: map<nat, PriceLevel>): map<nat, nat> {
    map p | p in recs :: recs[p].total
  }

  function Pruned(base: nat, ticks: nat, sparse: map<nat, PriceLevel>, p: nat, rec: PriceLevel): map<nat, PriceLevel> {
    if rec.count == 0 && !InWindow(base, ticks, p) then sparse - {p} else sparse
  }

  /* ---- Lemmas about the parts ---- */

  lemma DenseSum(base: nat, ticks: nat, vals: seq<nat>, index: map<nat, nat>, lo: nat, hi: nat)
    requires DepthOk(base, ticks, vals, index) && lo <= hi <= ticks
    ensures F.Sum(vals, lo, hi) == SumRange(index, base + lo, base + hi)
  {
    if lo < hi {
      DenseSum(base, ticks, vals, index, lo, hi - 1);
    }
  }

  /** Outside the window the sparse entries are the index; inside they hold nothing. */
  lemma SparseSumOutside(base: nat, ticks: nat, entries: map<nat, nat>, index: map<nat, nat>, lo: nat, hi: nat)
    requires EntriesOk(base, ticks, entries, index)
    requires hi <= base || base + ticks <= lo
    ensures SumRange(entries, lo, hi) == SumRange(index, lo, hi)
  {
    RangeAgrees(entries, index, lo, hi);
  }

  lemma SparseSumInside(base: nat, ticks: nat, entries: map<nat, nat>, index: map<nat, nat>)
    requires EntriesOk(base, ticks, entries, index)
    ensures SumRange(entries, base, base + ticks) == 0
  {
    RangeOfNothing(entries, base, base + ticks);
  }

  /** The occupied bits name exactly the dense prices, so a scan finds their extreme. */
  lemma DenseBest(side: Side, base: nat, ticks: nat, occupied: seq<nat>, recs: map<nat, PriceLevel>, found: Option<nat>)
    requires BitsOk(base, ticks, occupied, recs)
    requires found.None? ==> forall j: nat :: j < 64 * |occupied| ==> !B.Has(occupied, j)
    requires found.Some? ==> found.value < 64 * |occupied| && B.Has(occupied, found.value)
    requires found.Some? ==> forall j: nat :: j < 64 * |occupied| && B.Has(occupied, j) ==> !Better(side, j, found.value)
    ensures var dense := set p | p in recs && base <= p < base + ticks;
            BestOf(side, dense) == if found.Some? then Some(base + found.value) else None
  {
    var dense := set p | p in recs && base <= p < base + ticks;
    forall p | p in dense ensures B.Has(occupied, p - base) {
    }
    if found.Some? {
      var m := base + found.value;
      forall p | p in dense ensures !Better(side, p, m) {
        assert B.Has(occupied, p - base);
      }
      BestIsUnique(side, dense, m);
    } else {
      assert dense == {};
    }
  }

  class SideBook {
    const side: Side
    var dense: seq<PriceLevel>
    var sparse: map<nat, PriceLevel>
    const depth: F.FenwickTree
    const sparseIndex: S.SparseVolumeIndex
    var occupied: seq<nat>
    var best: Option<nat>
    /** The non-empty level records by price. */
    ghost var recs: map<nat, PriceLevel>
    /** The indexed depth by price. */
    ghost var index: map<nat, nat>

    /** The objects are live and apart. */
    ghost predicate Apart()
      reads this, depth, sparseIndex, sparseIndex.fenwick
    {
      && depth.Valid() && sparseIndex.Valid()
      && depth != sparseIndex.fenwick
    }

    ghost predicate Valid(base: nat, ticks: nat)
      reads this, depth, sparseIndex, sparseIndex.fenwick
    {
      && Apart()
      && RecordsOk(recs)
      && LevelsOk(base, ticks, dense, sparse, recs)
      && BitsOk(base, ticks, occupied, recs)
      && DepthOk(base, ticks, depth.vals, index)
      && EntriesOk(base, ticks, sparseIndex.entries, index)
      && BestOk(best, recs.Keys)
      && IndexFits(index)
    }

    /** A side whose parts did not change is as valid as it was. */
    twostate lemma StillValid()
      requires unchanged(this) && unchanged(depth) && unchanged(sparseIndex) && unchanged(sparseIndex.fenwick)
      ensures forall base, ticks :: old(Valid(base, ticks)) ==> Valid(base, ticks)
    {
    }

    constructor (side: Side, base: nat, ticks: nat)
      ensures Valid(base, ticks) && fresh(depth) && fresh(sparseIndex) && fresh(sparseIndex.fenwick)
      ensures this.side == side && recs == map[] && index == map[] && best == None
    {
      this.side := side;
      dense := seq(ticks, _ => EMPTY_LEVEL);
      sparse := map[];
      depth := new F.FenwickTree(ticks);
      sparseIndex := new S.SparseVolumeIndex();
      occupied := seq((ticks + 63) / 64, _ => 0);
      best, recs, index := None, map[], map[];
      new;
      NoBits(base, ticks, occupied);
    }

    /** The level record at a price, empty if there is none. */
    function Level(base: nat, ticks: nat, p: nat): PriceLevel
      requires Valid(base, ticks)
      reads this, depth, sparseIndex, sparseIndex.fenwick
    {
      if InWindow(base, ticks, p) then dense[p - base]
      else if p in sparse then sparse[p]
      else EMPTY_LEVEL
    }

    /** Write a level record where its price belongs; a vacant sparse price gets an entry,
        and an emptied sparse level keeps one until it is pruned. */
    method SetLevel(base: nat, ticks: nat, p: nat, rec: PriceLevel)
      requires LevelsOk(base, ticks, dense, sparse, recs) && (rec.count == 0 ==> rec == EMPTY_LEVEL)
      modifies this`dense, this`sparse
      ensures LevelsOk(base, ticks, dense, Pruned(base, ticks, sparse, p, rec), Rerecord(recs, p, rec))
    {
      if InWindow(base, ticks, p) {
        dense := dense[p - base := rec];
      } else {
        sparse := sparse[p := rec];
      }
    }

    method DepthAdd(base: nat, ticks: nat, p: nat, qty: nat)
      requires Apart() && p < U64_LIMIT
      requires DepthOk(base, ticks, depth.vals, index) && EntriesOk(base, ticks, sparseIndex.entries, index)
      modifies this`index, depth, sparseIndex, sparseIndex.fenwick
      ensures Apart()
      ensures DepthOk(base, ticks, depth.vals, index) && EntriesOk(base, ticks, sparseIndex.entries, index)
      ensures index == IndexAdd(old(index), p, qty)
    {
      if InWindow(base, ticks, p) {
        depth.Add(p - base, qty);
      } else {
        sparseIndex.Add(p, qty);
      }
      index := IndexAdd(index, p, qty);
    }

    method DepthRemove(base: nat, ticks: nat, p: nat, qty: nat)
      requires Apart() && CanSub(base, ticks, index, p, qty)
      requires DepthOk(base, ticks, depth.vals, index) && EntriesOk(base, ticks, sparseIndex.entries, index)
      modifies this`index, depth, sparseIndex, sparseIndex.fenwick
      ensures Apart()
      ensures DepthOk(base, ticks, depth.vals, index) && EntriesOk(base, ticks, sparseIndex.entries, index)
      ensures index == IndexSub(old(index), p, qty)
    {
      if InWindow(base, ticks, p) {
        depth.Sub(p - base, qty);
      } else {
        sparseIndex.Sub(p, qty);
      }
      index := IndexSub(index, p, qty);
    }

    /** The best dense price by bitset scan: highest for bids, lowest for asks. */
    method FindBestOccupied(base: nat, ticks: nat) returns (r: Option<nat>)
      requires BitsOk(base, ticks, occupied, recs)
      ensures r == BestOf(side, set p | p in recs && base <= p < base + ticks)
    {
      var found;
      if side.Bid? {
        found := B.FindHighest(occupied);
      } else {
        found := B.FindLowest(occupied);
      }
      DenseBest(side, base, ticks, occupied, recs, found);
      r := if found.Some? then Some(base + found.value) else None;
    }

    /** The best sparse key: the last for bids, the first for asks. */
    method BestSparse() returns (r: Option<nat>)
      ensures r == BestOf(side, sparse.Keys)
    {
      r := None;
      var left := sparse.Keys;
      while left != {}
        invariant left <= sparse.Keys
        invariant r == BestOf(side, sparse.Keys - left)
      {
        var p :| p in left;
        var next := left - {p};
        assert sparse.Keys - next == (sparse.Keys - left) + {p};
        if r.None? || Better(side, p, r.value) {
          r := Some(p);
        }
        BestIsUnique(side, sparse.Keys - next, r.value);
        left := next;
      }
      assert sparse.Keys - left == sparse.Keys;
    }

    /** Dense levels first, sparse ones only when no dense level is left. */
    method Refresh(base: nat, ticks: nat) returns (r: Option<nat>)
      requires BitsOk(base, ticks, occupied, recs) && LevelsOk(base, ticks, dense, sparse, recs)
      ensures r == Refreshed(side, base, ticks, recs.Keys)
    {
      r := FindBestOccupied(base, ticks);
      ghost var inside := set p | p in recs.Keys && base <= p < base + ticks;
      assert inside == set p | p in recs && base <= p < base + ticks;
      if r.None? {
        forall p | p in recs.Keys ensures p in sparse.Keys {
          assert p !in inside;
        }
        assert sparse.Keys == recs.Keys;
        r := BestSparse();
      }
    }

    /** Insertion: a longer level, its depth, its bit, and the best price if improved. */
    method Push(base: nat, ticks: nat, p: nat, rec: PriceLevel, qty: nat)
      requires Valid(base, ticks) && p < U64_LIMIT && rec.count > 0
      modifies this, depth, sparseIndex, sparseIndex.fenwick
      ensures Valid(base, ticks)
      ensures recs == old(recs)[p := rec]
      ensures index == IndexAdd(old(index), p, qty)
      ensures best == Improved(side, old(best), p)
    {
      SetLevel(base, ticks, p, rec);
      DepthAdd(base, ticks, p, qty);
      SetOccupied(base, ticks, p, rec);
      recs := recs[p := rec];
      if best.None? || Better(side, p, best.value) {
        best := Some(p);
      }
    }

    method SetOccupied(base: nat, ticks: nat, p: nat, ghost rec: PriceLevel)
      requires BitsOk(base, ticks, occupied, recs)
      modifies this`occupied
      ensures BitsOk(base, ticks, occupied, recs[p := rec])
    {
      if InWindow(base, ticks, p) {
        B.WithBitSets(occupied, p - base);
        occupied := B.WithBit(occupied, p - base);
      }
    }

    method ClearOccupied(base: nat, ticks: nat, p: nat)
      requires BitsOk(base, ticks, occupied, recs)
      modifies this`occupied
      ensures BitsOk(base, ticks, occupied, recs - {p})
    {
      if InWindow(base, ticks, p) {
        B.WithoutBitClears(occupied, p - base);
        occupied := B.WithoutBit(occupied, p - base);
      }
    }

    /** Removal and reduction: a lesser level and less depth; an emptied level is pruned, its bit cleared and the best refreshed. */
    method Pop(base: nat, ticks: nat, p: nat, rec: PriceLevel, qty: nat)
      requires Valid(base, ticks) && p in recs && (rec.count == 0 ==> rec == EMPTY_LEVEL)
      requires CanSub(base, ticks, index, p, qty)
      modifies this, depth, sparseIndex, sparseIndex.fenwick
      ensures Valid(base, ticks)
      ensures recs == Rerecord(old(recs), p, rec)
      ensures index == IndexSub(old(index), p, qty)
      ensures best == if rec.count == 0 && old(best) == Some(p) then Refreshed(side, base, ticks, recs.Keys) else old(best)
    {
      SetLevel(base, ticks, p, rec);
      DepthRemove(base, ticks, p, qty);
      if rec.count == 0 {
        PruneAndRefresh(base, ticks, p);
      } else {
        recs := recs[p := rec];
      }
    }

    method PruneAndRefresh(base: nat, ticks: nat, p: nat)
      requires Apart() && RecordsOk(recs) && p in recs
      requires LevelsOk(base, ticks, dense, Pruned(base, ticks, sparse, p, EMPTY_LEVEL), recs - {p})
      requires BitsOk(base, ticks, occupied, recs)
      requires DepthOk(base, ticks, depth.vals, index) && EntriesOk(base, ticks, sparseIndex.entries, index)
      requires BestOk(best, recs.Keys) && IndexFits(index)
      modifies this`sparse, this`occupied, this`recs, this`best
      ensures Valid(base, ticks) && recs == old(recs) - {p}
      ensures best == if old(best) == Some(p) then Refreshed(side, base, ticks, recs.Keys) else old(best)
    {
      if !InWindow(base, ticks, p) {
        sparse := sparse - {p};
      }
      ClearOccupied(base, ticks, p);
      assert best.Some?;
      recs := recs - {p};
      assert best == Some(p) || best.value in recs;
      if best == Some(p) {
        best := Refresh(base, ticks);
      }
    }

    /** The engine's direct write to a level total: no index is touched. */
    method Overwrite(base: nat, ticks: nat, p: nat, rec: PriceLevel)
      requires Valid(base, ticks) && p in recs && rec.count > 0
      modifies this
      ensures Valid(base, ticks)
      ensures recs == old(recs)[p := rec] && index == old(index) && best == old(best)
    {
      SetLevel(base, ticks, p, rec);
      recs := recs[p := rec];
    }

    /** Indexed depth at prices not above `p`, for `p` below, inside and above the window. */
    method AvailableAtOrBelow(base: nat, ticks: nat, p: nat) returns (sum: nat)
      requires Valid(base, ticks)
      ensures sum == SumRange(index, 0, p + 1)
    {
      if InWindow(base, ticks, p) {
        var d := depth.PrefixSum(p - base);
        var s := 0;
        if base > 0 {
          s := sparseIndex.SumAtOrBelow(base - 1);
        }
        DenseSum(base, ticks, depth.vals, index, 0, p - base + 1);
        SparseSumOutside(base, ticks, sparseIndex.entries, index, 0, base);
        RangeSplits(index, 0, base, p + 1);
        sum := d + s;
      } else if p >= base + ticks {
        var d := DenseTotal(base, ticks);
        var s := sparseIndex.SumAtOrBelow(p);
        SumAcrossWindow(base, ticks, sparseIndex.entries, index, 0, p + 1);
        sum := d + s;
      } else {
        SparseSumOutside(base, ticks, sparseIndex.entries, index, 0, p + 1);
        sum := sparseIndex.SumAtOrBelow(p);
      }
    }

    /** Indexed depth at prices not below `p`, for `p` below, inside and above the window. */
    method AvailableAtOrAbove(base: nat, ticks: nat, p: nat) returns (sum: nat)
      requires Valid(base, ticks) && p < U64_LIMIT && base < U64_LIMIT
      ensures sum == SumRange(index, p, U64_LIMIT)
    {
      var windowEnd := Min(base + ticks, U64_LIMIT - 1);
      if InWindow(base, ticks, p) {
        var d := depth.SuffixSumGe(p - base);
        var s := sparseIndex.SumAtOrAbove(windowEnd);
        SumFromInside(base, ticks, depth.vals, sparseIndex.entries, index, p);
        sum := d + s;
      } else if p < base {
        var d := DenseTotal(base, ticks);
        var s := sparseIndex.SumAtOrAbove(p);
        SumFromBelow(base, ticks, sparseIndex.entries, index, p);
        sum := d + s;
      } else {
        SparseSumOutside(base, ticks, sparseIndex.entries, index, p, U64_LIMIT);
        sum := sparseIndex.SumAtOrAbove(p);
      }
    }

    method DenseTotal(base: nat, ticks: nat) returns (sum: nat)
      requires Valid(base, ticks)
      ensures sum == SumRange(index, base, base + ticks)
    {
      DenseSum(base, ticks, depth.vals, index, 0, ticks);
      sum := 0;
      if ticks > 0 {
        sum := depth.PrefixSum(ticks - 1);
      }
    }

    /** Move the window: evict every dense level, absorb the sparse levels of the new window,
        rebuild bitset and indexes, and repair the best price should its level have gone. */
    method Rebase(base: nat, ticks: nat, newBase: nat)
      requires Valid(base, ticks)
      modifies this, depth, sparseIndex, sparseIndex.fenwick
      ensures Valid(newBase, ticks)
      ensures recs == old(recs) && best == old(best)
      ensures index == TotalsOf(recs)
    {
      Evict(base, ticks);
      Absorb(newBase, ticks);
      RebuildDense(newBase, ticks);
      RebuildSparse(newBase, ticks);
      var fallback := Refresh(newBase, ticks);
      best := if best.Some? && Level(newBase, ticks, best.value).count == 0 then fallback else best;
    }

    method Evict(base: nat, ticks: nat)
      requires RecordsOk(recs) && LevelsOk(base, ticks, dense, sparse, recs)
      modifies this`dense, this`sparse
      ensures sparse == recs && dense == seq(ticks, _ => EMPTY_LEVEL)
    {
      for i := 0 to ticks
        invariant |dense| == ticks
        invariant forall j :: 0 <= j < i ==> dense[j] == EMPTY_LEVEL
        invariant forall j :: i <= j < ticks ==> dense[j] == RecordAt(recs, base + j)
        invariant forall p :: p in sparse <==> p in recs && !InWindow(base + i, ticks - i, p)
        invariant forall p :: p in sparse ==> sparse[p] == recs[p]
      {
        if dense[i].count != 0 {
          sparse := sparse[base + i := dense[i]];
        }
        dense := dense[i := EMPTY_LEVEL];
      }
    }

    method Absorb(base: nat, ticks: nat)
      requires sparse == recs && dense == seq(ticks, _ => EMPTY_LEVEL)
      modifies this`dense, this`sparse
      ensures LevelsOk(base, ticks, dense, sparse, recs)
    {
      var keys := set p | p in sparse && InWindow(base, ticks, p);
      while keys != {}
        invariant |dense| == ticks
        invariant forall p :: p in keys ==> p in sparse && InWindow(base, ticks, p)
        invariant forall p :: p in sparse ==> p in recs && sparse[p] == recs[p]
        invariant forall p :: p in recs && (!InWindow(base, ticks, p) || p in keys) ==> p in sparse
        invariant forall p :: p in sparse && InWindow(base, ticks, p) ==> p in keys
        invariant forall i :: 0 <= i < ticks ==> dense[i] == if base + i in keys then EMPTY_LEVEL else RecordAt(recs, base + i)
        decreases keys
      {
        var p :| p in keys;
        dense := dense[p - base := sparse[p]];
        sparse := sparse - {p};
        keys := keys - {p};
      }
    }

    method RebuildDense(base: nat, ticks: nat)
      requires RecordsOk(recs) && LevelsOk(base, ticks, dense, sparse, recs)
      modifies this`occupied, depth
      ensures depth.Valid() && DepthOk(base, ticks, depth.vals, TotalsOf(recs))
      ensures BitsOk(base, ticks, occupied, recs)
    {
      occupied := seq((ticks + 63) / 64, _ => 0);
      depth.Reset(ticks);
      NoBits(base, ticks, occupied);
      for i := 0 to ticks
        invariant |occupied| == (ticks + 63) / 64 && B.WordsOk(occupied)
        invariant forall j: nat :: j < 64 * |occupied| ==> (B.Has(occupied, j) <==> j < i && base + j in recs)
        invariant depth.Valid() && |depth.vals| == ticks
        invariant forall j :: 0 <= j < i ==> depth.vals[j] == RecordAt(recs, base + j).total
        invariant forall j :: i <= j < ticks ==> depth.vals[j] == 0
      {
        if dense[i].count != 0 {
          B.WithBitSets(occupied, i);
          occupied := B.WithBit(occupied, i);
          depth.Add(i, dense[i].total);
        }
      }
    }

    method RebuildSparse(base: nat, ticks: nat)
      requires RecordsOk(recs) && LevelsOk(base, ticks, dense, sparse, recs) && depth != sparseIndex.fenwick
      modifies this`index, sparseIndex, sparseIndex.fenwick
      ensures sparseIndex.Valid() && EntriesOk(base, ticks, sparseIndex.entries, index)
      ensures index == TotalsOf(recs)
    {
      sparseIndex.Clear();
      var keys := sparse.Keys;
      while keys != {}
        invariant keys <= sparse.Keys
        invariant sparseIndex.Valid()
        invariant forall p :: p in sparseIndex.entries <==> p in sparse && p !in keys
        invariant forall p :: p in sparseIndex.entries ==> sparseIndex.entries[p] == sparse[p].total
      {
        var p :| p in keys;
        if sparse[p].count != 0 {
          sparseIndex.Add(p, sparse[p].total);
        }
        keys := keys - {p};
      }
      index := TotalsOf(recs);
    }
  }

  lemma NoBits(base: nat, ticks: nat, occupied: seq<nat>)
    requires |occupied| == (ticks + 63) / 64 && forall w :: 0 <= w < |occupied| ==> occupied[w] == 0
    ensures BitsOk(base, ticks, occupied, map[])
  {
    forall i: nat | i < 64 * |occupied| ensures !B.Has(occupied, i) {
      B.ZeroWordsAreEmpty(occupied, i);
    }
  }

  /** Of a window that ends beyond the last price, nothing is indexed there, and nothing sparse is behind its base. */
  lemma PastTheLastPrice(base: nat, ticks: nat, entries: map<nat, nat>, index: map<nat, nat>, p: nat)
    requires EntriesOk(base, ticks, entries, index) && IndexFits(index) && p <= base < U64_LIMIT <= base + ticks
    ensures SumRange(index, U64_LIMIT, base + ticks) == 0 && SumRange(entries, base, U64_LIMIT) == 0
    ensures SumRange(entries, U64_LIMIT - 1, U64_LIMIT) == 0
    ensures SumRange(entries, p, U64_LIMIT) == SumRange(index, p, base)
  {
    RangeOfNothing(index, U64_LIMIT, base + ticks);
    RangeOfNothing(entries, base, U64_LIMIT);
    RangeOfNothing(entries, U64_LIMIT - 1, U64_LIMIT);
    RangeSplits(entries, p, base, U64_LIMIT);
    SparseSumOutside(base, ticks, entries, index, p, base);
  }

  /** From a price inside the window: the dense rest of it and the sparse prices from its end on, wherever that is. */
  lemma SumFromInside(base: nat, ticks: nat, vals: seq<nat>, entries: map<nat, nat>, index: map<nat, nat>, p: nat)
    requires DepthOk(base, ticks, vals, index) && EntriesOk(base, ticks, entries, index) && IndexFits(index)
    requires InWindow(base, ticks, p) && p < U64_LIMIT
    ensures F.Sum(vals, p - base, ticks) + SumRange(entries, Min(base + ticks, U64_LIMIT - 1), U64_LIMIT)
         == SumRange(index, p, U64_LIMIT)
  {
    DenseSum(base, ticks, vals, index, p - base, ticks);
    if base + ticks < U64_LIMIT {
      SparseSumOutside(base, ticks, entries, index, base + ticks, U64_LIMIT);
      RangeSplits(index, p, base + ticks, U64_LIMIT);
    } else {
      PastTheLastPrice(base, ticks, entries, index, base);
      RangeSplits(index, p, U64_LIMIT, base + ticks);
    }
  }

  lemma SumFromBelow(base: nat, ticks: nat, entries: map<nat, nat>, index: map<nat, nat>, p: nat)
    requires EntriesOk(base, ticks, entries, index) && IndexFits(index) && p < base < U64_LIMIT
    ensures SumRange(index, base, base + ticks) + SumRange(entries, p, U64_LIMIT) == SumRange(index, p, U64_LIMIT)
  {
    if base + ticks < U64_LIMIT {
      SumAcrossWindow(base, ticks, entries, index, p, U64_LIMIT);
    } else {
      PastTheLastPrice(base, ticks, entries, index, p);
      RangeSplits(index, base, U64_LIMIT, base + ticks);
      RangeSplits(index, p, base, U64_LIMIT);
    }
  }

  /** A range that contains the window is the dense total and the sparse entries. */
  lemma SumAcrossWindow(base: nat, ticks: nat, entries: map<nat, nat>, index: map<nat, nat>, lo: nat, hi: nat)
    requires EntriesOk(base, ticks, entries, index) && lo <= base && base + ticks <= hi
    ensures SumRange(index, lo, hi) == SumRange(index, base, base + ticks) + SumRange(entries, lo, hi)
  {
    RangeSplits(index, lo, base, hi);
    RangeSplits(index, base, base + ticks, hi);
    RangeSplits(entries, lo, base, hi);
    RangeSplits(entries, base, base + ticks, hi);
    SparseSumOutside(base, ticks, entries, index, lo, base);
    SparseSumOutside(base, ticks, entries, index, base + ticks, hi);
    SparseSumInside(base, ticks, entries, index);
  }
}
