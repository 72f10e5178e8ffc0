/** Price-time priority: on a book that faces its window and whose cached bests
    are exact, the route of a taker is the list of the crossable orders, sorted
    by price and then by queue position, and nothing is hidden. */
module Priority {
  import opened Types
  import opened BookSpec
  import opened BestPrices
  import opened EngineSpec
  import opened Routes
  import opened OrderlyBooks
  import opened Greedy

  /** The asks at prices of `[lo, hi)`, lowest price first, then in queue order. */
  function Asks(queues: Queues, lo: nat, hi: nat): seq<Order>
    decreases hi - lo
  {
    if hi <= lo then [] else QueueAt(queues, Place(Ask, lo)) + Asks(queues, lo + 1, hi)
  }

  /** The bids at prices of `[lo, hi)`, highest price first, then in queue order. */
  function Bids(queues: Queues, lo: nat, hi: nat): seq<Order>
    decreases hi - lo
  {
    if hi <= lo then [] else QueueAt(queues, Place(Bid, hi - 1)) + Bids(queues, lo, hi - 1)
  }

  /** The opposing orders that a taker's price reaches, in price-time priority. */
  function Crossable(queues: Queues, t: Taker): seq<Order> {
    if t.side.Bid? then Asks(queues, 0, t.price + 1) else Bids(queues, t.price, U64_LIMIT)
  }

  /* ---- The front of the list ---- */

  lemma {:induction false} AsksSkip(queues: Queues, lo: nat, p: nat, hi: nat)
    requires lo <= p <= hi && forall x :: lo <= x < p ==> QueueAt(queues, Place(Ask, x)) == []
    ensures Asks(queues, lo, hi) == Asks(queues, p, hi)
    decreases p - lo
  {
    if lo < p {
      AsksSkip(queues, lo + 1, p, hi);
      assert QueueAt(queues, Place(Ask, lo)) == [];
    }
  }

  lemma {:induction false} BidsSkip(queues: Queues, lo: nat, p: nat, hi: nat)
    requires lo <= p <= hi && forall x :: p <= x < hi ==> QueueAt(queues, Place(Bid, x)) == []
    ensures Bids(queues, lo, hi) == Bids(queues, lo, p)
    decreases hi - p
  {
    if p < hi {
      assert QueueAt(queues, Place(Bid, hi - 1)) == [];
      BidsSkip(queues, lo, p, hi - 1);
    }
  }

  lemma {:induction false} AsksAgree(queues: Queues, queues': Queues, lo: nat, hi: nat)
    requires forall x :: lo <= x < hi ==> QueueAt(queues, Place(Ask, x)) == QueueAt(queues', Place(Ask, x))
    ensures Asks(queues, lo, hi) == Asks(queues', lo, hi)
    decreases hi - lo
  {
    if lo < hi {
      AsksAgree(queues, queues', lo + 1, hi);
    }
  }

  lemma {:induction false} BidsAgree(queues: Queues, queues': Queues, lo: nat, hi: nat)
    requires forall x :: lo <= x < hi ==> QueueAt(queues, Place(Bid, x)) == QueueAt(queues', Place(Bid, x))
    ensures Bids(queues, lo, hi) == Bids(queues', lo, hi)
    decreases hi - lo
  {
    if lo < hi {
      BidsAgree(queues, queues', lo, hi - 1);
    }
  }

  /** The crossable orders behind the best level. */
  function Behind(queues: Queues, t: Taker, best: nat): seq<Order> {
    if t.side.Bid? then Asks(queues, best + 1, t.price + 1) else Bids(queues, t.price, best)
  }

  /** Where nothing is better than `best`, the crossable orders are its queue and those behind it. */
  lemma BestFirst(queues: Queues, t: Taker, best: nat)
    requires Acceptable(t.side, t.price, best) && best < U64_LIMIT
    requires forall x: nat :: Better(t.side.Opposite(), x, best) ==> QueueAt(queues, Place(t.side.Opposite(), x)) == []
    ensures Crossable(queues, t) == QueueAt(queues, Place(t.side.Opposite(), best)) + Behind(queues, t, best)
  {
    if t.side.Bid? {
      assert t.side.Opposite() == Ask;
      AsksSkip(queues, 0, best, t.price + 1);
    } else {
      assert t.side.Opposite() == Bid;
      BidsSkip(queues, t.price, best + 1, U64_LIMIT);
    }
  }

  lemma NothingCrosses(queues: Queues, t: Taker)
    requires forall x: nat :: x < U64_LIMIT && Acceptable(t.side, t.price, x) ==> QueueAt(queues, Place(t.side.Opposite(), x)) == []
    requires t.price < U64_LIMIT
    ensures Crossable(queues, t) == []
  {
    if t.side.Bid? {
      assert t.side.Opposite() == Ask;
      AsksSkip(queues, 0, t.price + 1, t.price + 1);
    } else {
      assert t.side.Opposite() == Bid;
      BidsSkip(queues, t.price, t.price, U64_LIMIT);
    }
  }

  lemma BehindAgrees(queues: Queues, queues': Queues, t: Taker, best: nat)
    requires forall x: nat :: x != best ==>
               QueueAt(queues, Place(t.side.Opposite(), x)) == QueueAt(queues', Place(t.side.Opposite(), x))
    ensures Behind(queues, t, best) == Behind(queues', t, best)
  {
    if t.side.Bid? {
      assert t.side.Opposite() == Ask;
      AsksAgree(queues, queues', best + 1, t.price + 1);
    } else {
      assert t.side.Opposite() == Bid;
      BidsAgree(queues, queues', t.price, best);
    }
  }

  /* ---- The route is sorted ---- */

  /** The opposing levels hold orders and face the window. */
  ghost predicate LevelsFace(side: Side, base: nat, ticks: nat, queues: Queues) {
    forall pl :: pl in queues && pl.side == side ==>
      queues[pl] != [] && AllAt(queues[pl], pl.price) && pl.price < U64_LIMIT && !Beyond(side, base, ticks, pl.price)
  }

  lemma BestIsUnacceptable(queues: Queues, best: Option<nat>, t: Taker)
    requires best == BestOf(t.side.Opposite(), Prices(queues, t.side.Opposite())) && t.price < U64_LIMIT
    requires best.None? || !Acceptable(t.side, t.price, best.value)
    ensures Crossable(queues, t) == []
    ensures forall pl :: pl in queues && pl.side == t.side.Opposite() ==> !Acceptable(t.side, t.price, pl.price)
  {
    var opp := t.side.Opposite();
    forall pl | pl in queues && pl.side == opp ensures !Acceptable(t.side, t.price, pl.price) {
      assert pl.price in Prices(queues, opp);
    }
    forall x: nat | Acceptable(t.side, t.price, x) ensures QueueAt(queues, Place(opp, x)) == [] {
      assert Place(opp, x) !in queues;
    }
    NothingCrosses(queues, t);
  }

  lemma BestThenRest(queues: Queues, best: nat, t: Taker)
    requires var opp := t.side.Opposite();
             && IsBest(opp, Prices(queues, opp), best) && Acceptable(t.side, t.price, best) && best < U64_LIMIT
    ensures var pl := Place(t.side.Opposite(), best);
            pl in queues && Crossable(queues, t) == queues[pl] + Crossable(queues - {pl}, t)
  {
    var opp := t.side.Opposite();
    var pl := Place(opp, best);
    forall x: nat | Better(opp, x, best)
      ensures QueueAt(queues, Place(opp, x)) == [] && QueueAt(queues - {pl}, Place(opp, x)) == []
    {
      assert x !in Prices(queues, opp);
    }
    BestFirst(queues, t, best);
    BestFirst(queues - {pl}, t, best);
    BehindAgrees(queues, queues - {pl}, t, best);
    assert [] + Behind(queues, t, best) == Behind(queues, t, best);
  }

  lemma {:induction false} RouteFromIsSorted(base: nat, ticks: nat, queues: Queues, best: Option<nat>, t: Taker)
    requires LevelsFace(t.side.Opposite(), base, ticks, queues) && t.price < U64_LIMIT
    requires best == BestOf(t.side.Opposite(), Prices(queues, t.side.Opposite()))
    ensures RouteFrom(base, ticks, queues, best, t) == Crossable(queues, t)
    ensures forall pl :: pl in queues && pl.side == t.side.Opposite() && Acceptable(t.side, t.price, pl.price) ==>
              OnRoute(RouteFrom(base, ticks, queues, best, t), pl.price)
    decreases |queues|
  {
    var opp := t.side.Opposite();
    if best.None? || !Acceptable(t.side, t.price, best.value) {
      BestIsUnacceptable(queues, best, t);
    } else {
      var pl := Place(opp, best.value);
      var queues' := queues - {pl};
      assert best.value in Prices(queues, opp);
      BestThenRest(queues, best.value, t);
      RefreshIsExact(opp, base, ticks, Prices(queues', opp));
      FewerLevels(queues, pl);
      var onward := RouteFrom(base, ticks, queues', Refreshed(opp, base, ticks, Prices(queues', opp)), t);
      RouteFromIsSorted(base, ticks, queues', Refreshed(opp, base, ticks, Prices(queues', opp)), t);
      forall x | x in queues && x.side == opp && Acceptable(t.side, t.price, x.price)
        ensures OnRoute(queues[pl] + onward, x.price)
      {
        OnEither(queues[pl], onward, x.price);
        assert queues[pl][0].price == pl.price;
      }
    }
  }

  /** On an orderly book a match meets the crossable orders in price-time priority, and nothing is hidden from it. */
  lemma RouteIsSorted(b: Book, t: Taker)
    requires Orderly(b) && t.price < U64_LIMIT
    ensures Route(b, t) == Crossable(b.queues, t) && Hidden(b, t) == {}
  {
    var opp := t.side.Opposite();
    forall pl | pl in b.queues && pl.side == opp
      ensures b.queues[pl] != [] && AllAt(b.queues[pl], pl.price) && pl.price < U64_LIMIT && !Beyond(opp, b.base, b.ticks, pl.price)
    {
      assert QueueOk(pl, b.queues[pl], b.ids);
    }
    RouteFromIsSorted(b.base, b.ticks, b.queues, b.Of(opp).best, t);
  }

  /** So on an orderly book matching is price-time priority: what it leaves is what consuming the sorted list from the
      front leaves. */
  lemma MatchIsPriceTime(c: Core, t: Taker, rem: nat)
    requires Orderly(c.book) && t.price < U64_LIMIT
    ensures var r := Match(c, t, rem);
            && Left(r.rem, Crossable(r.c.book.queues, t), r.cancel) == Consume(c.mode, Crossable(c.book.queues, t), t.stp, rem)
            && forall id {:trigger Made(r.c.log, id)} ::
                 Made(r.c.log, id) == Made(c.log, id) + Given(c.mode, Crossable(c.book.queues, t), t.stp, rem, id)
  {
    RouteIsSorted(c.book, t);
    MatchOrderly(c, t, rem);
    RouteIsSorted(Match(c, t, rem).c.book, t);
    MatchIsGreedy(c, t, rem, Match(c, t, rem));
  }
}
