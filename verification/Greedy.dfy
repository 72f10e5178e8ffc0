/** Matching is greedy: on every well-formed book it consumes the orders on the
    taker's route from the front. */
module Greedy {
  import opened Types
  import opened BookSpec
  import opened EngineSpec
  import opened EngineFacts
  import opened EngineRuns
  import opened Routes
  import opened Rounds

  /* ---- The simple form ---- */

  /** What is left of a quantity and of the orders it met, and whether self-trade prevention cancels the rest. */
  datatype Left = Left(qty: nat, makers: seq<Order>, cancel: bool)

  /** The orders after the first of them gave `x`. */
  function Taken(makers: seq<Order>, x: nat): seq<Order>
    requires makers != []
  {
    if x == makers[0].Remaining() then makers[1..]
    else [makers[0].(filled := makers[0].filled + x)] + makers[1..]
  }

  /** Consume orders from the front. An order of one's own group stops it, is passed over, or costs the rest, as the mode has it. */
  function Consume(mode: StpMode, makers: seq<Order>, stp: Option<nat>, qty: nat): Left {
    if qty == 0 || makers == [] then Left(qty, makers, false)
    else
      var m := makers[0];
      if m.Remaining() == 0 then Consume(mode, makers[1..], stp, qty)
      else if SameGroup(stp, m.stp) then
        match mode
        case CancelNewest => Left(qty, makers, false)
        case CancelOldest => Consume(mode, makers[1..], stp, qty)
        case CancelBoth => Left(qty, makers[1..], true)
        case DecrementAndCancel => Left(qty - Min(qty, m.Remaining()), Taken(makers, Min(qty, m.Remaining())), true)
      else if m.Remaining() <= qty then Consume(mode, makers[1..], stp, qty - m.Remaining())
      else Left(0, Taken(makers, qty), false)
  }

  /** What each maker gives. */
  function Given(mode: StpMode, makers: seq<Order>, stp: Option<nat>, qty: nat, id: nat): nat {
    if qty == 0 || makers == [] then 0
    else
      var m := makers[0];
      if m.Remaining() == 0 || (SameGroup(stp, m.stp) && mode.CancelOldest?) then Given(mode, makers[1..], stp, qty, id)
      else if SameGroup(stp, m.stp) then 0
      else
        var x := Min(qty, m.Remaining());
        (if m.id == id then x else 0) + Given(mode, makers[1..], stp, qty - x, id)
  }

  /** What a maker gave according to the log. */
  function Made(log: seq<Event>, id: nat): nat {
    if log == [] then 0
    else
      var e := log[|log| - 1];
      Made(log[..|log| - 1], id) + (if e.Fill? && e.maker == id then e.qty else 0)
  }

  /* ---- One turn ---- */

  /** One turn of the simple form: the orders and the quantity it leaves, whether it goes on or cancels the rest,
      and what the first order gave. */
  datatype Turn = Turn(makers: seq<Order>, qty: nat, again: bool, cancel: bool, given: nat)

  function TurnOf(mode: StpMode, makers: seq<Order>, stp: Option<nat>, qty: nat): Turn {
    if makers == [] then Turn(makers, qty, false, false, 0)
    else
      var m := makers[0];
      if m.Remaining() == 0 then Turn(makers[1..], qty, true, false, 0)
      else if SameGroup(stp, m.stp) then
        match mode
        case CancelNewest => Turn(makers, qty, false, false, 0)
        case CancelOldest => Turn(makers[1..], qty, true, false, 0)
        case CancelBoth => Turn(makers[1..], qty, false, true, 0)
        case DecrementAndCancel => Turn(Taken(makers, Min(qty, m.Remaining())), qty - Min(qty, m.Remaining()), false, true, 0)
      else
        var x := Min(qty, MatchableQty(m));
        Turn(Taken(makers, x), qty - x, true, false, x)
  }

  /** Taking a first slice of an order and then the rest is taking it all. */
  lemma SliceThenRest(mode: StpMode, makers: seq<Order>, stp: Option<nat>, qty: nat, x: nat)
    requires makers != [] && !SameGroup(stp, makers[0].stp) && 0 < x <= qty && x <= makers[0].Remaining()
    ensures Consume(mode, makers, stp, qty) == Consume(mode, Taken(makers, x), stp, qty - x)
  {
    var m := makers[0];
    if x < m.Remaining() {
      var m' := m.(filled := m.filled + x);
      assert Taken(makers, x)[1..] == makers[1..];
      assert m'.Remaining() == m.Remaining() - x;
      if m.Remaining() > qty > x {
        assert m'.(filled := m'.filled + (qty - x)) == m.(filled := m.filled + qty);
        assert Taken(Taken(makers, x), qty - x) == Taken(makers, qty);
      }
    }
  }

  lemma SliceThenGiven(mode: StpMode, makers: seq<Order>, stp: Option<nat>, qty: nat, x: nat, id: nat)
    requires makers != [] && !SameGroup(stp, makers[0].stp) && 0 < x <= qty && x <= makers[0].Remaining()
    ensures Given(mode, makers, stp, qty, id)
         == (if makers[0].id == id then x else 0) + Given(mode, Taken(makers, x), stp, qty - x, id)
  {
    var m, tail := makers[0], makers[1..];
    if x < m.Remaining() {
      var m' := m.(filled := m.filled + x);
      assert ([m'] + tail)[1..] == tail;
      assert Min(qty - x, m'.Remaining()) == Min(qty, m.Remaining()) - x;
    }
  }

  /** A turn is a step of the simple form. */
  lemma TurnConsumes(mode: StpMode, makers: seq<Order>, stp: Option<nat>, qty: nat)
    requires qty > 0
    ensures var u := TurnOf(mode, makers, stp, qty);
            && Consume(mode, makers, stp, qty)
               == (if u.again then Consume(mode, u.makers, stp, u.qty) else Left(u.qty, u.makers, u.cancel))
            && forall id {:trigger Given(mode, makers, stp, qty, id)} ::
                 Given(mode, makers, stp, qty, id)
                   == (if makers != [] && makers[0].id == id then u.given else 0)
                      + (if u.again then Given(mode, u.makers, stp, u.qty, id) else 0)
  {
    if makers != [] && makers[0].Remaining() > 0 && !SameGroup(stp, makers[0].stp) {
      var x := Min(qty, MatchableQty(makers[0]));
      SliceThenRest(mode, makers, stp, qty, x);
      forall id ensures Given(mode, makers, stp, qty, id)
                     == (if makers[0].id == id then x else 0) + Given(mode, Taken(makers, x), stp, qty - x, id) {
        SliceThenGiven(mode, makers, stp, qty, x, id);
      }
    }
  }

  lemma MadeAppend(log: seq<Event>, e: Event, id: nat)
    ensures Made(log + [e], id) == Made(log, id) + if e.Fill? && e.maker == id then e.qty else 0
  {
    assert (log + [e])[..|log|] == log;
  }

  /* ---- One round ---- */

  /** What the taker's price does not reach, or a stale best hides from it, is as it was. */
  ghost predicate SameElsewhere(b: Book, b': Book, t: Taker) {
    forall pl: Place :: pl.side == t.side || !Acceptable(t.side, t.price, pl.price) || pl in Hidden(b, t) ==>
      QueueAt(b'.queues, pl) == QueueAt(b.queues, pl)
  }

  /** The route is now `makers`, what was hidden still is, an order that left made room in the arena, and nothing else moved. */
  ghost predicate Leaves(b: Book, b': Book, t: Taker, makers: seq<Order>) {
    && Route(b', t) == makers
    && Hidden(b', t) == Hidden(b, t)
    && b'.room + |makers| == b.room + |Route(b, t)|
    && SameElsewhere(b, b', t)
  }

  /** The book after the head of a level gave `x`. */
  lemma HeadTaken(b: Book, m: Order, x: nat)
    requires Shape(b) && m.id in b.ids && Resting(b, m.id) && OrderOf(b, m.id) == m
    requires PositionOf(b.queues[b.ids[m.id]], m.id) == 0
    ensures var pl := b.ids[m.id];
            && b.queues[pl] != [] && b.queues[pl][0] == m
            && Requeued(b, Remove(b, m.id), pl, b.queues[pl][1..])
            && Requeued(b, FillOrder(b, m.id, x), pl, [m.(filled := m.filled + x)] + b.queues[pl][1..])
            && Requeued(b, Reduce(b, m.id, x), pl, [m.(filled := m.filled + x)] + b.queues[pl][1..])
            && Remove(b, m.id).room == b.room + 1 && FillOrder(b, m.id, x).room == b.room && Reduce(b, m.id, x).room == b.room
  {
    var q := b.queues[b.ids[m.id]];
    assert Without(q, 0) == q[1..];
    assert Filled(q, 0, x) == [m.(filled := m.filled + x)] + q[1..];
  }

  /** What is left of a queue whose head gave `x`. */
  function HeadGave(q: seq<Order>, x: nat): seq<Order>
    requires q != []
  {
    if x == q[0].Remaining() then q[1..] else [q[0].(filled := q[0].filled + x)] + q[1..]
  }

  /** The route before and after the head of the best level gave `x`. */
  lemma RouteAfter(b: Book, b': Book, t: Taker, x: nat)
    requires Shape(b) && WouldCross(b, t.side, t.price)
    requires BestPlace(b, t) in b.queues && b.queues[BestPlace(b, t)] != []
    requires Requeued(b, b', BestPlace(b, t), HeadGave(b.queues[BestPlace(b, t)], x))
    requires b'.room == b.room + if x == b.queues[BestPlace(b, t)][0].Remaining() then 1 else 0
    ensures Route(b, t) != [] && Leaves(b, b', t, Taken(Route(b, t), x))
  {
    var q := b.queues[BestPlace(b, t)];
    RouteStarts(b, t);
    Rerouted(b, b', t, HeadGave(q, x));
    HiddenStays(b, b', t, HeadGave(q, x));
    OnEither(q, Onward(b, t), BestPlace(b, t).price);
    assert q[0].price == BestPlace(b, t).price;
    RequeuedElsewhere(b, b', t, BestPlace(b, t), HeadGave(q, x));
    TakenFront(q, Onward(b, t), x);
  }

  lemma TakenFront(q: seq<Order>, rest: seq<Order>, x: nat)
    requires q != []
    ensures Taken(q + rest, x) == HeadGave(q, x) + rest
  {
    assert (q + rest)[1..] == q[1..] + rest;
  }

  lemma RequeuedElsewhere(b: Book, b': Book, t: Taker, pl: Place, q: seq<Order>)
    requires b'.queues == Requeue(b.queues, pl, q)
    requires pl.side == t.side.Opposite() && Acceptable(t.side, t.price, pl.price) && pl !in Hidden(b, t)
    ensures SameElsewhere(b, b', t)
  {
  }

  /** The maker of a round is the first order on the route. */
  lemma FirstOnRoute(b: Book, t: Taker)
    requires Shape(b)
    ensures var makers := Route(b, t);
            && (WouldCross(b, t.side, t.price) <==> makers != [])
            && (makers != [] ==>
                  && FirstMaker(b, t.side.Opposite()) == Some(makers[0]) && makers[0].id in b.ids
                  && Resting(b, makers[0].id) && OrderOf(b, makers[0].id) == makers[0]
                  && b.ids[makers[0].id] == Place(t.side.Opposite(), b.Of(t.side.Opposite()).best.value)
                  && makers[0].side == t.side.Opposite() && makers[0].price == b.ids[makers[0].id].price
                  && PositionOf(b.queues[b.ids[makers[0].id]], makers[0].id) == 0)
  {
    FirstMakerFacts(b, t.side.Opposite());
    RouteStarts(b, t);
  }

  /** What a maker that is taken off leaves. */
  lemma RemovalLeaves(b: Book, t: Taker)
    requires Shape(b) && Route(b, t) != []
    ensures var m := Route(b, t)[0]; Resting(b, m.id) && Leaves(b, Remove(b, m.id), t, Route(b, t)[1..])
  {
    FirstOnRoute(b, t);
    var m := Route(b, t)[0];
    HeadTaken(b, m, 0);
    RouteAfter(b, Remove(b, m.id), t, m.Remaining());
  }

  /** What a maker that is filled in part leaves. */
  lemma FillLeaves(b: Book, t: Taker, x: nat)
    requires Shape(b) && Route(b, t) != [] && x < Route(b, t)[0].Remaining()
    ensures var m := Route(b, t)[0]; Resting(b, m.id) && Leaves(b, FillOrder(b, m.id, x), t, Taken(Route(b, t), x))
  {
    FirstOnRoute(b, t);
    var m := Route(b, t)[0];
    HeadTaken(b, m, x);
    RouteAfter(b, FillOrder(b, m.id, x), t, x);
  }

  /** What a maker that is reduced leaves. */
  lemma ReductionLeaves(b: Book, t: Taker, x: nat)
    requires Shape(b) && Route(b, t) != [] && x < Route(b, t)[0].Remaining()
    ensures var m := Route(b, t)[0]; Resting(b, m.id) && Leaves(b, Reduce(b, m.id, x), t, Taken(Route(b, t), x))
  {
    FirstOnRoute(b, t);
    var m := Route(b, t)[0];
    HeadTaken(b, m, x);
    RouteAfter(b, Reduce(b, m.id, x), t, x);
  }

  /** What a trade leaves. */
  lemma TradeLeaves(c: Core, t: Taker, rem: nat, x: nat)
    requires Shape(c.book) && Route(c.book, t) != []
    requires 0 < x <= rem && x <= Route(c.book, t)[0].Remaining()
    ensures var makers := Route(c.book, t);
            Resting(c.book, makers[0].id) && Leaves(c.book, TradeOf(c, t, rem, makers[0], x).book, t, Taken(makers, x))
  {
    FirstOnRoute(c.book, t);
    var makers := Route(c.book, t);
    var m := makers[0];
    LeftAfter(m, x);
    if x == m.Remaining() {
      RemovalLeaves(c.book, t);
      WholeFillRemoves(c.book, m.id, x);
      SameLists(c.book, Remove(c.book, m.id), Remove(FillOrder(c.book, m.id, x), m.id), t, makers[1..]);
    } else {
      FillLeaves(c.book, t, x);
    }
  }

  lemma SameLists(b: Book, b': Book, b'': Book, t: Taker, makers: seq<Order>)
    requires Leaves(b, b', t, makers) && b''.queues == b'.queues && b''.room == b'.room
    requires b''.base == b'.base && b''.ticks == b'.ticks && b''.bids.best == b'.bids.best && b''.asks.best == b'.asks.best
    ensures Leaves(b, b'', t, makers)
  {
  }

  /** The log of the makers' fills grew by what one maker gave. */
  ghost predicate Gave(log: seq<Event>, log': seq<Event>, maker: nat, x: nat) {
    forall id {:trigger Made(log', id)} :: Made(log', id) == Made(log, id) + if id == maker then x else 0
  }

  lemma FillGave(log: seq<Event>, e: Event, u: Event)
    requires e.Fill? && !u.Fill?
    ensures Gave(log, log + [e] + [u], e.maker, e.qty)
  {
    forall id ensures Made(log + [e] + [u], id) == Made(log, id) + if id == e.maker then e.qty else 0 {
      MadeAppend(log, e, id);
      MadeAppend(log + [e], u, id);
    }
  }

  lemma TradeMade(c: Core, t: Taker, rem: nat, m: Order, x: nat)
    requires Resting(c.book, m.id) && x <= rem
    ensures Gave(c.log, TradeOf(c, t, rem, m, x).log, m.id, x)
  {
    var filled := FilledCore(c, m.id, x);
    var left := m.(filled := m.filled + x).Remaining();
    var e := Fill(|c.log| + 1, m.id, t.id, m.price, x, left, rem - x);
    var u := BookUpdate(|c.log| + 2, m.side, m.price, LevelQty(filled.book, Place(m.side, m.price)));
    assert TradeOf(c, t, rem, m, x).log == c.log + [e] + [u];
    FillGave(c.log, e, u);
  }

  lemma PreventionMade(c: Core, t: Taker, rem: nat, m: Order)
    requires Resting(c.book, m.id)
    ensures Gave(c.log, CancelMaker(c, m).log, m.id, 0) && Gave(c.log, Decrement(c, t, rem, m).log, m.id, 0)
  {
    var pl := Place(m.side, m.price);
    var e := OrderCancelled(|c.log| + 1, m.id, m.Remaining());
    var u := BookUpdate(|c.log| + 2, m.side, m.price, LevelQty(Remove(c.book, m.id), pl));
    var v := BookUpdate(|c.log| + 1, m.side, m.price, LevelQty(Decrement(c, t, rem, m).book, pl));
    assert CancelMaker(c, m).log == c.log + [e] + [u];
    assert Decrement(c, t, rem, m).log == c.log + [v];
    forall id ensures Made(c.log + [e] + [u], id) == Made(c.log, id) && Made(c.log + [v], id) == Made(c.log, id) {
      MadeAppend(c.log, e, id);
      MadeAppend(c.log + [e], u, id);
      MadeAppend(c.log, v, id);
    }
  }

  /** A round is a turn of the simple form on the route. */
  ghost predicate IsTurn(c: Core, t: Taker, r: Round, u: Turn) {
    && r.c.mode == c.mode && r.rem == u.qty && r.Again? == u.again && (r.Done? ==> r.cancel == u.cancel)
    && Leaves(c.book, r.c.book, t, u.makers)
    && Gave(c.log, r.c.log, if Route(c.book, t) == [] then 0 else Route(c.book, t)[0].id, u.given)
  }

  lemma QuietTurn(c: Core, t: Taker)
    ensures Leaves(c.book, c.book, t, Route(c.book, t))
    ensures forall maker {:trigger Gave(c.log, c.log, maker, 0)} :: Gave(c.log, c.log, maker, 0)
  {
  }

  lemma DecrementLeaves(c: Core, t: Taker, rem: nat, x: nat)
    requires Shape(c.book) && Route(c.book, t) != [] && x == Min(rem, Route(c.book, t)[0].Remaining())
    ensures var makers := Route(c.book, t);
            Resting(c.book, makers[0].id) && Leaves(c.book, Decrement(c, t, rem, makers[0]).book, t, Taken(makers, x))
  {
    RemovalLeaves(c.book, t);
    if x < Route(c.book, t)[0].Remaining() {
      ReductionLeaves(c.book, t, x);
    }
  }

  lemma DecrementIsTurn(c: Core, t: Taker, rem: nat)
    requires Shape(c.book) && rem > 0 && Route(c.book, t) != [] && c.mode.DecrementAndCancel?
    requires var m := Route(c.book, t)[0]; m.Remaining() > 0 && SameGroup(t.stp, m.stp)
    ensures IsTurn(c, t, MatchRound(c, t, rem), TurnOf(c.mode, Route(c.book, t), t.stp, rem))
  {
    FirstOnRoute(c.book, t);
    var m := Route(c.book, t)[0];
    DecrementLeaves(c, t, rem, Min(rem, m.Remaining()));
    PreventionMade(c, t, rem, m);
  }

  lemma PreventionIsTurn(c: Core, t: Taker, rem: nat)
    requires Shape(c.book) && rem > 0 && Route(c.book, t) != []
    requires var m := Route(c.book, t)[0]; m.Remaining() > 0 && SameGroup(t.stp, m.stp)
    ensures IsTurn(c, t, MatchRound(c, t, rem), TurnOf(c.mode, Route(c.book, t), t.stp, rem))
  {
    if c.mode.DecrementAndCancel? {
      DecrementIsTurn(c, t, rem);
    } else {
      FirstOnRoute(c.book, t);
      RemovalLeaves(c.book, t);
      PreventionMade(c, t, rem, Route(c.book, t)[0]);
      QuietTurn(c, t);
    }
  }

  lemma TradeIsTurn(c: Core, t: Taker, rem: nat)
    requires Shape(c.book) && rem > 0 && Route(c.book, t) != []
    requires var m := Route(c.book, t)[0]; m.Remaining() > 0 && !SameGroup(t.stp, m.stp)
    ensures IsTurn(c, t, MatchRound(c, t, rem), TurnOf(c.mode, Route(c.book, t), t.stp, rem))
  {
    FirstOnRoute(c.book, t);
    var m := Route(c.book, t)[0];
    TradeLeaves(c, t, rem, Min(rem, MatchableQty(m)));
    TradeMade(c, t, rem, m, Min(rem, MatchableQty(m)));
  }

  lemma RoundIsTurn(c: Core, t: Taker, rem: nat)
    requires Shape(c.book) && rem > 0
    ensures IsTurn(c, t, MatchRound(c, t, rem), TurnOf(c.mode, Route(c.book, t), t.stp, rem))
  {
    FirstOnRoute(c.book, t);
    QuietTurn(c, t);
    var makers := Route(c.book, t);
    if makers != [] {
      if makers[0].Remaining() == 0 {
        RemovalLeaves(c.book, t);
      } else if SameGroup(t.stp, makers[0].stp) {
        PreventionIsTurn(c, t, rem);
      } else {
        TradeIsTurn(c, t, rem);
      }
    }
  }

  /* ---- The whole match ---- */

  lemma LeavesOn(b: Book, b1: Book, b2: Book, t: Taker, makers: seq<Order>)
    requires Leaves(b, b1, t, Route(b1, t)) && Leaves(b1, b2, t, makers)
    ensures Leaves(b, b2, t, makers)
  {
    forall pl: Place | pl.side == t.side || !Acceptable(t.side, t.price, pl.price) || pl in Hidden(b, t)
      ensures QueueAt(b2.queues, pl) == QueueAt(b.queues, pl)
    {
      assert QueueAt(b1.queues, pl) == QueueAt(b.queues, pl);
    }
  }

  /** The outcome of the simple form: its leftover, its orders, its decision to cancel; what was hidden is hidden, nothing moved
      elsewhere, each order that left made room in the arena, and the log has what each maker gave. */
  ghost predicate Greedily(c: Core, t: Taker, rem: nat, r: Round) {
    var left := Consume(c.mode, Route(c.book, t), t.stp, rem);
    && r.Done? && r.rem == left.qty && r.cancel == left.cancel
    && Leaves(c.book, r.c.book, t, left.makers)
    && forall id {:trigger Made(r.c.log, id)} ::
         Made(r.c.log, id) == Made(c.log, id) + Given(c.mode, Route(c.book, t), t.stp, rem, id)
  }

  /** Matching refines the simple form on the route, on every well-formed book and in all four self-trade modes, however
      iceberg slices split the fills. */
  lemma {:induction false} MatchIsGreedy(c: Core, t: Taker, rem: nat, r: Round)
    requires Shape(c.book) && r == Match(c, t, rem)
    ensures Greedily(c, t, rem, r)
    decreases rem + |c.book.ids|
  {
    if rem == 0 {
      NoTurn(c, t);
    } else {
      var first := MatchRound(c, t, rem);
      RoundIsTurn(c, t, rem);
      if first.Again? {
        RoundProgresses(c, t, rem);
        RoundKeepsShape(c, t, rem);
        MatchIsGreedy(first.c, t, first.rem, r);
        GreedyOn(c, t, rem, first, r);
      } else {
        LastTurn(c, t, rem, r);
      }
    }
  }

  lemma NoTurn(c: Core, t: Taker)
    ensures Greedily(c, t, 0, Done(c, 0, false))
  {
    QuietTurn(c, t);
  }

  lemma LastTurn(c: Core, t: Taker, rem: nat, r: Round)
    requires rem > 0 && r.Done? && IsTurn(c, t, r, TurnOf(c.mode, Route(c.book, t), t.stp, rem))
    ensures Greedily(c, t, rem, r)
  {
    TurnConsumes(c.mode, Route(c.book, t), t.stp, rem);
  }

  lemma GreedyOn(c: Core, t: Taker, rem: nat, first: Round, r: Round)
    requires rem > 0 && first.Again? && IsTurn(c, t, first, TurnOf(c.mode, Route(c.book, t), t.stp, rem))
    requires Greedily(first.c, t, first.rem, r)
    ensures Greedily(c, t, rem, r)
  {
    TurnConsumes(c.mode, Route(c.book, t), t.stp, rem);
    LeavesOn(c.book, first.c.book, r.c.book, t, Consume(c.mode, Route(c.book, t), t.stp, rem).makers);
    GaveOn(c, first.c, r.c.log, t, rem, first.rem);
  }

  /** What one turn and the rest of the match gave is what the match gave. */
  lemma GaveOn(c: Core, c1: Core, log: seq<Event>, t: Taker, rem: nat, rem1: nat)
    requires rem > 0 && c1.mode == c.mode
    requires var makers := Route(c.book, t);
             var u := TurnOf(c.mode, makers, t.stp, rem);
             && u.again && u.qty == rem1 && u.makers == Route(c1.book, t)
             && Gave(c.log, c1.log, if makers == [] then 0 else makers[0].id, u.given)
    requires forall id {:trigger Made(log, id)} ::
               Made(log, id) == Made(c1.log, id) + Given(c.mode, Route(c1.book, t), t.stp, rem1, id)
    ensures forall id {:trigger Made(log, id)} ::
              Made(log, id) == Made(c.log, id) + Given(c.mode, Route(c.book, t), t.stp, rem, id)
  {
    var makers := Route(c.book, t);
    TurnConsumes(c.mode, makers, t.stp, rem);
    forall id ensures Made(log, id) == Made(c.log, id) + Given(c.mode, makers, t.stp, rem, id) {
      assert Made(c1.log, id)
          == Made(c.log, id) + if makers != [] && id == makers[0].id then TurnOf(c.mode, makers, t.stp, rem).given else 0;
    }
  }
}
