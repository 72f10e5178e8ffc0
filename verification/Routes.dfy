/** The orders that a match can meet, in the order in which it meets them: the
    queue at the cached best, then the queue at the best that a refresh would
    find without it, and so on while the taker's price accepts. On a book whose
    cached best is stale this is not the order of the prices, and acceptable
    levels can stay hidden. */
module Routes {
  import opened Types
  import opened BookSpec
  import opened EngineSpec

  lemma FewerLevels(queues: Queues, pl: Place)
    requires pl in queues
    ensures |queues - {pl}| == |queues| - 1
  {
    assert (queues - {pl}).Keys == queues.Keys - {pl};
  }

  ghost function RouteFrom(base: nat, ticks: nat, queues: Queues, best: Option<nat>, t: Taker): seq<Order>
    decreases |queues|
  {
    var opp := t.side.Opposite();
    if best.None? || !Acceptable(t.side, t.price, best.value) || Place(opp, best.value) !in queues then []
    else
      var pl := Place(opp, best.value);
      FewerLevels(queues, pl);
      queues[pl] + RouteFrom(base, ticks, queues - {pl}, Refreshed(opp, base, ticks, Prices(queues - {pl}, opp)), t)
  }

  ghost function Route(b: Book, t: Taker): seq<Order> {
    RouteFrom(b.base, b.ticks, b.queues, b.Of(t.side.Opposite()).best, t)
  }

  predicate OnRoute(makers: seq<Order>, p: nat) {
    exists k :: 0 <= k < |makers| && makers[k].price == p
  }

  /** The opposing levels that the taker's price accepts and no match of it can meet. */
  ghost function Hidden(b: Book, t: Taker): set<Place> {
    set pl | pl in b.queues && pl.side == t.side.Opposite() && Acceptable(t.side, t.price, pl.price)
             && !OnRoute(Route(b, t), pl.price)
  }

  /** The best opposing level. */
  function BestPlace(b: Book, t: Taker): Place
    requires WouldCross(b, t.side, t.price)
  {
    Place(t.side.Opposite(), b.Of(t.side.Opposite()).best.value)
  }

  /** What comes behind the best opposing level. */
  ghost function Onward(b: Book, t: Taker): seq<Order>
    requires WouldCross(b, t.side, t.price)
  {
    var (opp, queues) := (t.side.Opposite(), b.queues - {BestPlace(b, t)});
    RouteFrom(b.base, b.ticks, queues, Refreshed(opp, b.base, b.ticks, Prices(queues, opp)), t)
  }

  /** One level was rewritten, with what the removal of its last order does to the cached best. */
  ghost predicate Requeued(b: Book, b': Book, pl: Place, q: seq<Order>) {
    && b'.queues == Requeue(b.queues, pl, q) && b'.base == b.base && b'.ticks == b.ticks
    && b'.Of(pl.side).best == BestAfter(b, pl, b'.queues)
  }

  /** Rewriting the best level rewrites the front of the route. */
  lemma Rerouted(b: Book, b': Book, t: Taker, q: seq<Order>)
    requires WouldCross(b, t.side, t.price) && BestPlace(b, t) in b.queues && Requeued(b, b', BestPlace(b, t), q)
    ensures Route(b, t) == b.queues[BestPlace(b, t)] + Onward(b, t)
    ensures Route(b', t) == q + Onward(b, t)
  {
    var pl := BestPlace(b, t);
    if q == [] {
      assert b'.queues == b.queues - {pl};
      assert [] + Onward(b, t) == Onward(b, t);
    } else {
      assert b'.queues - {pl} == b.queues - {pl};
    }
  }

  lemma OnEither(a: seq<Order>, b: seq<Order>, p: nat)
    ensures OnRoute(a + b, p) <==> OnRoute(a, p) || OnRoute(b, p)
  {
    if OnRoute(a, p) {
      var k :| 0 <= k < |a| && a[k].price == p;
      assert (a + b)[k].price == p;
    }
    if OnRoute(b, p) {
      var k :| 0 <= k < |b| && b[k].price == p;
      assert (a + b)[|a| + k].price == p;
    }
  }

  predicate AllAt(q: seq<Order>, p: nat) {
    forall k :: 0 <= k < |q| ==> q[k].price == p
  }

  /** And what was hidden stays hidden. */
  lemma HiddenStays(b: Book, b': Book, t: Taker, q: seq<Order>)
    requires WouldCross(b, t.side, t.price) && BestPlace(b, t) in b.queues && Requeued(b, b', BestPlace(b, t), q)
    requires b.queues[BestPlace(b, t)] != [] && AllAt(b.queues[BestPlace(b, t)], BestPlace(b, t).price)
    requires AllAt(q, BestPlace(b, t).price)
    ensures Hidden(b', t) == Hidden(b, t)
  {
    var best := BestPlace(b, t);
    Rerouted(b, b', t, q);
    forall pl ensures pl in Hidden(b', t) <==> pl in Hidden(b, t) {
      OnEither(b.queues[best], Onward(b, t), pl.price);
      OnEither(q, Onward(b, t), pl.price);
      assert b.queues[best][0].price == best.price;
      assert q != [] ==> q[0].price == best.price;
    }
  }

  /** A match meets nobody exactly when the order would not cross. */
  lemma RouteStarts(b: Book, t: Taker)
    requires Shape(b)
    ensures WouldCross(b, t.side, t.price) <==> Route(b, t) != []
    ensures WouldCross(b, t.side, t.price) ==>
              && BestPlace(b, t) in b.queues && b.queues[BestPlace(b, t)] != []
              && AllAt(b.queues[BestPlace(b, t)], BestPlace(b, t).price)
              && Route(b, t) == b.queues[BestPlace(b, t)] + Onward(b, t)
  {
    if WouldCross(b, t.side, t.price) {
      assert BestPlace(b, t).price in Prices(b.queues, t.side.Opposite());
      assert QueueOk(BestPlace(b, t), b.queues[BestPlace(b, t)], b.ids);
    }
  }
}
