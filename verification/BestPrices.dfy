/** When the cached best prices are the true ones, and what the window has to do with it. */
module BestPrices {
  import opened Types
  import opened BookSpec
  import opened BookFacts

  /** A price on the near side of the window's far end. */
  predicate FacingPrice(b: Book, side: Side, p: nat) {
    !Beyond(side, b.base, b.ticks, p)
  }

  predicate Beyond(side: Side, base: nat, ticks: nat, p: nat) {
    if side.Bid? then p >= base + ticks else p < base
  }

  /** No bid at or above the end of the window, no ask below its base. */
  ghost predicate Facing(b: Book) {
    forall pl :: pl in b.queues ==> FacingPrice(b, pl.side, pl.price)
  }

  /** The cached bests are the highest bid and the lowest ask. */
  ghost predicate ExactBest(b: Book) {
    && b.bids.best == BestOf(Bid, Prices(b.queues, Bid))
    && b.asks.best == BestOf(Ask, Prices(b.queues, Ask))
  }

  /** Every resting bid is below every resting ask. */
  ghost predicate Uncrossed(b: Book) {
    forall x, y :: x in b.queues && y in b.queues && x.side == Bid && y.side == Ask ==> x.price < y.price
  }

  /** A refresh finds the true best exactly when nothing dense is left or nothing lies beyond the window. */
  lemma RefreshIsExact(side: Side, base: nat, ticks: nat, prices: set<nat>)
    ensures Refreshed(side, base, ticks, prices) == BestOf(side, prices) <==> LooksRight(side, base, ticks, prices)
  {
    var dense := set p | p in prices && base <= p < base + ticks;
    if dense == {} {
      assert forall p :: p in prices ==> p !in dense;
    } else {
      var m := BestOf(side, dense).value;
      assert m in dense && m in prices;
      if forall p :: p in prices ==> !Beyond(side, base, ticks, p) {
        forall p | p in prices ensures !Better(side, p, m) {
          if base <= p < base + ticks {
            assert p in dense;
          }
        }
        BestIsUnique(side, prices, m);
      } else {
        var p :| p in prices && Beyond(side, base, ticks, p);
        assert Better(side, p, m);
      }
    }
  }

  /** The exact condition of a refresh: nothing dense is left, or nothing lies beyond the window. */
  ghost predicate LooksRight(side: Side, base: nat, ticks: nat, prices: set<nat>) {
    || (forall p :: p in prices ==> !(base <= p < base + ticks))
    || (forall p :: p in prices ==> !Beyond(side, base, ticks, p))
  }

  lemma ImprovedIsExact(side: Side, prices: set<nat>, best: Option<nat>, p: nat)
    requires best == BestOf(side, prices)
    ensures Improved(side, best, p) == BestOf(side, prices + {p})
  {
    if best.None? || Better(side, p, best.value) {
      BestIsUnique(side, prices + {p}, p);
    } else {
      BestIsUnique(side, prices + {p}, best.value);
    }
  }

  lemma InsertKeepsBest(b: Book, o: Order)
    requires ExactBest(b)
    ensures ExactBest(Insert(b, o))
    ensures Facing(b) && FacingPrice(b, o.side, o.price) ==> Facing(Insert(b, o))
  {
    var pl := Place(o.side, o.price);
    PricesInsert(b.queues, pl, QueueAt(b.queues, pl) + [o]);
    ImprovedIsExact(o.side, Prices(b.queues, o.side), b.Of(o.side).best, o.price);
  }

  /** Under the facing condition removal keeps the cached bests exact. */
  lemma RemoveKeepsBest(b: Book, id: nat)
    requires Resting(b, id) && ExactBest(b) && Facing(b)
    ensures ExactBest(Remove(b, id)) && Facing(Remove(b, id))
  {
    var pl := b.ids[id];
    var b' := Remove(b, id);
    var prices, prices' := Prices(b.queues, pl.side), Prices(b'.queues, pl.side);
    PricesRequeue(b.queues, pl, Without(b.queues[pl], PositionOf(b.queues[pl], id)));
    if pl in b'.queues {
      assert prices' == prices;
    } else {
      assert prices' == prices - {pl.price};
      if b.Of(pl.side).best == Some(pl.price) {
        RefreshIsExact(pl.side, b.base, b.ticks, prices');
      } else {
        assert pl.price in prices;
        BestIsUnique(pl.side, prices', b.Of(pl.side).best.value);
      }
    }
  }

  /** The level does not empty, was not the best, or a refresh looks right without it. */
  ghost predicate RemovalLooksRight(b: Book, id: nat)
    requires Resting(b, id)
  {
    var pl := b.ids[id];
    || |b.queues[pl]| > 1
    || b.Of(pl.side).best != Some(pl.price)
    || LooksRight(pl.side, b.base, b.ticks, Prices(b.queues, pl.side) - {pl.price})
  }

  /** From exact bests, a removal leaves exact bests exactly then. */
  lemma RemovalIsExact(b: Book, id: nat)
    requires Shape(b) && Resting(b, id) && ExactBest(b)
    ensures ExactBest(Remove(b, id)) <==> RemovalLooksRight(b, id)
  {
    var pl := b.ids[id];
    var b' := Remove(b, id);
    var prices, prices' := Prices(b.queues, pl.side), Prices(b'.queues, pl.side);
    PricesRequeue(b.queues, pl, Without(b.queues[pl], PositionOf(b.queues[pl], id)));
    if |b.queues[pl]| > 1 {
      assert prices' == prices;
    } else {
      assert prices' == prices - {pl.price};
      if b.Of(pl.side).best == Some(pl.price) {
        RefreshIsExact(pl.side, b.base, b.ticks, prices');
      } else {
        assert pl.price in prices;
        BestIsUnique(pl.side, prices', b.Of(pl.side).best.value);
      }
    }
  }

  lemma FillKeepsBest(b: Book, id: nat, delta: nat)
    requires Resting(b, id) && ExactBest(b) && Facing(b)
    ensures ExactBest(FillOrder(b, id, delta)) && Facing(FillOrder(b, id, delta))
    ensures ExactBest(Reduce(b, id, delta)) && Facing(Reduce(b, id, delta))
  {
    assert forall side :: Prices(FillOrder(b, id, delta).queues, side) == Prices(b.queues, side);
    assert forall side :: Prices(Reduce(b, id, delta).queues, side) == Prices(b.queues, side);
  }

  /** Wherever the window ends up, it covers every price on the near side of both bests. */
  lemma RecenteredFaces(b: Book, side: Side, p: nat)
    requires b.ticks >= 1
    requires b.bids.best.Some? && b.asks.best.Some? ==> b.bids.best.value < b.asks.best.value
    requires side.Bid? ==> b.bids.best.Some? && p <= b.bids.best.value
    requires side.Ask? ==> b.asks.best.Some? && p >= b.asks.best.value
    ensures FacingPrice(Recentered(b), side, p)
  {
    var threshold := b.ticks * 7 / 10;
    assert threshold < b.ticks && b.ticks / 2 < b.ticks;
  }

  /** Recentering never changes a best price, and on an uncrossed book with exact bests
      and a window of at least one tick it always ends facing. */
  lemma RecenterEndsFacing(b: Book)
    requires ExactBest(b) && Uncrossed(b) && b.ticks >= 1
    ensures Facing(Recentered(b)) && ExactBest(Recentered(b))
    ensures Recentered(b).queues == b.queues && Recentered(b).ids == b.ids
  {
    var bids, asks := Prices(b.queues, Bid), Prices(b.queues, Ask);
    if b.bids.best.Some? && b.asks.best.Some? {
      assert Place(Bid, b.bids.best.value) in b.queues && Place(Ask, b.asks.best.value) in b.queues;
    }
    forall pl | pl in b.queues ensures FacingPrice(Recentered(b), pl.side, pl.price) {
      assert pl.price in Prices(b.queues, pl.side);
      RecenteredFaces(b, pl.side, pl.price);
    }
  }

  /** The window starts half its width below `best`, or at zero where that is less. */
  predicate Centred(b: Book, best: nat) {
    if best >= b.ticks / 2 then b.base + b.ticks / 2 == best else b.base == 0
  }

  /** The window moves only when the best bid is at least 70% of its width from its base, or the best ask that far from its end;
      it is then centred on the best bid, or on the best ask if there is no bid, and holds that price. */
  lemma RecenterCentres(b: Book)
    ensures var far := b.ticks * 7 / 10;
            var (bid, ask) := (b.bids.best, b.asks.best);
            var b' := Recentered(b);
            if (bid.Some? && bid.value >= b.base + far) || (ask.Some? && ask.value + far < b.base + b.ticks) then
              var best := if bid.Some? then bid.value else ask.value;
              Centred(b', best) && b'.base <= best && (b.ticks > 0 ==> best < b'.base + b'.ticks)
            else b' == b
  {
  }
}
