/** What the terms of an order mean, read off its own fields, the log and the
    book: which resting orders it reaches, what it takes of them, and what
    becomes of the rest of it; and so for modifications, stops and commands. */
module Terms {
  import opened Types
  import opened BookSpec
  import opened BookFacts
  import opened EngineSpec
  import opened EngineFacts
  import opened EngineRuns
  import opened Rounds
  import opened Routes
  import opened Greedy
  import opened Entries
  import opened OrderlyBooks
  import opened Priority
  import opened Outcomes
  import opened Crossing
  import opened SelfTrading

  /* ---- What a taker takes ---- */

  /** What an order bought or sold as the taker, according to the log. */
  function Took(log: seq<Event>, id: nat): nat {
    if log == [] then 0
    else
      var e := log[|log| - 1];
      Took(log[..|log| - 1], id) + (if e.Fill? && e.taker == id then e.qty else 0)
  }

  lemma TookAppend(log: seq<Event>, e: Event, id: nat)
    ensures Took(log + [e], id) == Took(log, id) + if e.Fill? && e.taker == id then e.qty else 0
  {
    assert (log + [e])[..|log|] == log;
  }

  lemma EmitTakes(c: Core, e: Event, id: nat)
    requires !e.Fill?
    ensures Took(Emit(c, e).log, id) == Took(c.log, id)
  {
    TookAppend(c.log, Emit(c, e).log[|c.log|], id);
  }

  lemma TradeTakes(c: Core, t: Taker, rem: nat, m: Order, x: nat)
    requires Resting(c.book, m.id) && x <= rem
    ensures Took(TradeOf(c, t, rem, m, x).log, t.id) == Took(c.log, t.id) + x
  {
    var filled := FilledCore(c, m.id, x);
    var left := m.(filled := m.filled + x).Remaining();
    var e := Fill(|c.log| + 1, m.id, t.id, m.price, x, left, rem - x);
    var u := BookUpdate(|c.log| + 2, m.side, m.price, LevelQty(filled.book, Place(m.side, m.price)));
    assert TradeOf(c, t, rem, m, x).log == c.log + [e] + [u];
    TookAppend(c.log, e, t.id);
    TookAppend(c.log + [e], u, t.id);
  }

  lemma PreventionTakes(c: Core, t: Taker, rem: nat, m: Order)
    requires Resting(c.book, m.id)
    ensures Took(CancelMaker(c, m).log, t.id) == Took(c.log, t.id)
    ensures Took(Decrement(c, t, rem, m).log, t.id) == Took(c.log, t.id)
  {
    var pl := Place(m.side, m.price);
    var e := OrderCancelled(|c.log| + 1, m.id, m.Remaining());
    var u := BookUpdate(|c.log| + 2, m.side, m.price, LevelQty(Remove(c.book, m.id), pl));
    var v := BookUpdate(|c.log| + 1, m.side, m.price, LevelQty(Decrement(c, t, rem, m).book, pl));
    assert CancelMaker(c, m).log == c.log + [e] + [u];
    assert Decrement(c, t, rem, m).log == c.log + [v];
    TookAppend(c.log, e, t.id);
    TookAppend(c.log + [e], u, t.id);
    TookAppend(c.log, v, t.id);
  }

  lemma RoundTakes(c: Core, t: Taker, rem: nat)
    requires Shape(c.book) && rem > 0
    ensures Took(MatchRound(c, t, rem).c.log, t.id)
         == Took(c.log, t.id) + TurnOf(c.mode, Route(c.book, t), t.stp, rem).given
  {
    FirstOnRoute(c.book, t);
    var makers := Route(c.book, t);
    if makers != [] && makers[0].Remaining() > 0 {
      if SameGroup(t.stp, makers[0].stp) {
        PreventionTakes(c, t, rem, makers[0]);
      } else {
        TradeTakes(c, t, rem, makers[0], Min(rem, MatchableQty(makers[0])));
      }
    }
  }

  /** A slice of an order that is not of the taker's own group is that much less to get. */
  lemma SliceThenFillable(mode: StpMode, makers: seq<Order>, stp: Option<nat>, x: nat)
    requires makers != [] && !Own(stp, makers[0]) && x <= makers[0].Remaining()
    ensures Fillable(mode, Taken(makers, x), stp) == Fillable(mode, makers, stp) - x
  {
    FillableStep(mode, makers, stp);
    if x < makers[0].Remaining() {
      FillableStep(mode, Taken(makers, x), stp);
      assert Taken(makers, x)[1..] == makers[1..];
    }
  }

  /** What a turn gives is part of what the taker can get, and the rest of that is still to come. */
  lemma TurnTakes(mode: StpMode, makers: seq<Order>, stp: Option<nat>, qty: nat)
    requires qty > 0
    ensures var u := TurnOf(mode, makers, stp, qty);
            Min(qty, Fillable(mode, makers, stp)) == u.given + if u.again then Min(u.qty, Fillable(mode, u.makers, stp)) else 0
  {
    if makers != [] {
      FillableStep(mode, makers, stp);
      if makers[0].Remaining() > 0 && !SameGroup(stp, makers[0].stp) {
        SliceThenFillable(mode, makers, stp, Min(qty, MatchableQty(makers[0])));
      }
    }
  }

  /** A match takes what it can get, up to its quantity. */
  lemma {:induction false} MatchTakes(c: Core, t: Taker, rem: nat, r: Round)
    requires Shape(c.book) && r == Match(c, t, rem)
    ensures Took(r.c.log, t.id) == Took(c.log, t.id) + Min(rem, Fillable(c.mode, Route(c.book, t), t.stp))
    decreases rem + |c.book.ids|
  {
    if rem > 0 {
      var first := MatchRound(c, t, rem);
      RoundTakes(c, t, rem);
      RoundIsTurn(c, t, rem);
      TurnTakes(c.mode, Route(c.book, t), t.stp, rem);
      if first.Again? {
        RoundProgresses(c, t, rem);
        RoundKeepsShape(c, t, rem);
        MatchTakes(first.c, t, first.rem, r);
      }
    }
  }

  lemma SettleTakes(c: Core, n: Request, rem: nat, cancel: bool, id: nat)
    ensures Took(Settle(c, n, rem, cancel).log, id) == Took(c.log, id)
  {
    if !cancel && Rests(n) && rem > 0 {
      TookAppend(c.log, Rested(c, n, rem).log[|c.log|], id);
    } else {
      EmitTakes(c, OrderCancelled(0, n.id, rem), id);
    }
  }

  /* ---- The answer ---- */

  /** What an order took between two logs. */
  function TookSince(log: seq<Event>, log': seq<Event>, id: nat): int {
    Took(log', id) - Took(log, id)
  }

  /** The first new event accepts the order on its own terms. */
  predicate Accepts(log: seq<Event>, log': seq<Event>, n: Request) {
    log + [OrderAccepted(|log| + 1, n.id, n.side, n.price, n.qty, n.orderType)] <= log'
  }

  lemma AcceptedGrows(c: Core, n: Request)
    requires Shape(c.book) && !n.orderType.PostOnly? && Rejection(c, n).None?
    ensures Accepts(c.log, Enter(c, n).log, n)
  {
    MatchWrites(Accepted(c, n), TakerOf(n), n.qty);
    var r := Match(Accepted(c, n), TakerOf(n), n.qty);
    SettleWrites(r.c, n, r.rem, r.cancel);
  }

  /** An order that may match does exactly when the log says that it was accepted. */
  lemma AcceptedIsMatched(c: Core, n: Request)
    requires Shape(c.book) && !n.orderType.PostOnly?
    ensures Accepts(c.log, Enter(c, n).log, n) <==> !NeverMatches(c, n)
  {
    if Rejection(c, n).None? {
      AcceptedGrows(c, n);
    } else {
      assert Enter(c, n).log[|c.log|].OrderRejected?;
    }
  }

  /** Why an order that may match is turned away, in the order of the checks: by its quantity, its id, the quantity that the depth
      query sees where a fill-or-kill order reaches, and its own group in front of the route under CancelNewest. */
  predicate TurnsAway(c: Core, n: Request, makers: seq<Order>, indexed: nat, reason: RejectReason) {
    match reason
    case InvalidQuantity => n.qty == 0
    case DuplicateOrderId => n.qty > 0 && n.id in c.book.ids
    case InsufficientLiquidity => n.qty > 0 && n.id !in c.book.ids && n.tif.FOK? && indexed < n.qty
    case SelfTradePreventionTriggered =>
      n.qty > 0 && n.id !in c.book.ids && !(n.tif.FOK? && indexed < n.qty) && Preempted(c.mode, makers, n.stpGroup)
    case _ => false
  }

  /** It is turned away, with nothing but the rejection written, exactly for such a reason, and is accepted otherwise. */
  lemma AnsweredExactly(c: Core, n: Request, reason: RejectReason)
    requires Sound(c) && Bookable(n) && !n.orderType.PostOnly?
    ensures var makers, indexed := Route(c.book, TakerOf(n)), Indexed(c, TakerOf(n));
            && (Enter(c, n) == c.(log := c.log + [OrderRejected(|c.log| + 1, n.id, reason)])
                <==> TurnsAway(c, n, makers, indexed, reason))
            && (Accepts(c.log, Enter(c, n).log, n)
                <==> forall why {:trigger TurnsAway(c, n, makers, indexed, why)} :: !TurnsAway(c, n, makers, indexed, why))
  {
    AvailableIsHeldPlusDrift(c, TakerOf(n));
    PreemptedFirst(c, n);
    AcceptedIsMatched(c, n);
    var makers, indexed := Route(c.book, TakerOf(n)), Indexed(c, TakerOf(n));
    var log := Enter(c, n).log;
    if Rejection(c, n).Some? {
      assert TurnsAway(c, n, makers, indexed, Rejection(c, n).value);
      assert log[|c.log|] == OrderRejected(|c.log| + 1, n.id, Rejection(c, n).value);
    } else {
      assert log[|c.log|].OrderAccepted?;
    }
  }

  /** An accepted order takes what it can get on its route, up to its quantity; one that is not accepted takes nothing, nor does
      one that is post-only. */
  lemma EnterTakes(c: Core, n: Request)
    requires Shape(c.book)
    ensures TookSince(c.log, Enter(c, n).log, n.id)
         == if NeverMatches(c, n) then 0 else Min(n.qty, Fillable(c.mode, Route(c.book, TakerOf(n)), n.stpGroup))
  {
    EmitTakes(c, OrderAccepted(0, n.id, n.side, n.price, n.qty, n.orderType), n.id);
    if !NeverMatches(c, n) {
      var r := Match(Accepted(c, n), TakerOf(n), n.qty);
      MatchTakes(Accepted(c, n), TakerOf(n), n.qty, r);
      SettleTakes(r.c, n, r.rem, r.cancel, n.id);
    } else {
      TurnedAwayTakes(c, n);
    }
  }

  lemma TurnedAwayTakes(c: Core, n: Request)
    requires NeverMatches(c, n)
    ensures Took(Enter(c, n).log, n.id) == Took(c.log, n.id)
  {
    if !n.orderType.PostOnly? {
      EmitTakes(c, OrderRejected(0, n.id, Rejection(c, n).value), n.id);
    } else if WouldCross(c.book, n.side, n.price) {
      EmitTakes(c, OrderRejected(0, n.id, WouldCrossSpread), n.id);
    } else {
      EmitTakes(c, OrderAccepted(0, n.id, n.side, n.price, n.qty, n.orderType), n.id);
      TookAppend(Accepted(c, n).log, Rested(Accepted(c, n), n, n.qty).log[|c.log| + 1], n.id);
    }
  }

  /* ---- The rest of it ---- */

  /** What a decrement takes off what an order lacks. */
  function Cut(mode: StpMode, makers: seq<Order>, stp: Option<nat>, lacks: nat): nat {
    var k := |Reach(makers, stp)|;
    if mode.DecrementAndCancel? && k < |makers| then Min(lacks, makers[k].Remaining()) else 0
  }

  lemma {:induction false} ConsumeCuts(mode: StpMode, makers: seq<Order>, stp: Option<nat>, qty: nat)
    requires qty > Fillable(mode, makers, stp)
    ensures var lacks := qty - Fillable(mode, makers, stp);
            Consume(mode, makers, stp, qty).qty == lacks - Cut(mode, makers, stp, lacks)
  {
    if makers != [] {
      FillableStep(mode, makers, stp);
      if !Own(stp, makers[0]) {
        ConsumeCuts(mode, makers[1..], stp, qty - makers[0].Remaining());
      } else if mode.CancelOldest? {
        ConsumeCuts(mode, makers[1..], stp, qty);
      }
    }
  }

  /** What the match leaves of an order that lacks something, and of the book for it to rest on. */
  lemma MatchLacks(c: Core, n: Request, r: Round)
    requires Shape(c.book) && n.id !in c.book.ids && r == Match(Accepted(c, n), TakerOf(n), n.qty)
    requires n.qty > Fillable(c.mode, Route(c.book, TakerOf(n)), n.stpGroup)
    ensures var makers := Route(c.book, TakerOf(n));
            var lacks := n.qty - Fillable(c.mode, makers, n.stpGroup);
            && (r.cancel <==> Cancels(c.mode, makers, n.stpGroup)) && r.rem == lacks - Cut(c.mode, makers, n.stpGroup, lacks)
            && Shape(r.c.book) && n.id !in r.c.book.ids
            && (!r.cancel ==> r.rem == lacks && r.c.book.room == c.book.room + Gone(c.mode, makers, n.stpGroup))
  {
    var makers := Route(c.book, TakerOf(n));
    MatchIsGreedy(Accepted(c, n), TakerOf(n), n.qty, r);
    MatchWithin(Accepted(c, n), TakerOf(n), n.qty, r);
    ConsumeLeaves(c.mode, makers, n.stpGroup, n.qty);
    ConsumeCuts(c.mode, makers, n.stpGroup, n.qty);
  }

  /** This order rests last in the queue at its own price. */
  predicate RestsLast(b: Book, o: Order) {
    var q := QueueAt(b.queues, Place(o.side, o.price));
    o.id in b.ids && b.ids[o.id] == Place(o.side, o.price) && q != [] && q[|q| - 1] == o
  }

  /** What is left of an order as it stands on the book: under its own type, slice and group, with nothing of it filled. */
  function AtRest(n: Request, left: nat): Order {
    Order(n.id, n.side, n.price, left, 0, n.orderType, if n.visible.Some? then n.visible.value else left, Kept(n.stpGroup))
  }

  /** The last event says that `left` of the order was cancelled. */
  predicate SaysCancelled(log: seq<Event>, id: nat, left: nat) {
    log != [] && log[|log| - 1] == OrderCancelled(|log|, id, left)
  }

  /** The order is one whose rest may stay: a limit or iceberg order, good till cancelled. */
  predicate Stays(n: Request) {
    (n.orderType == Limit || n.orderType == Iceberg) && n.tif == GTC
  }

  /** The order is one whose rest is cancelled: a market order, immediate or cancel, fill or kill. */
  predicate Goes(n: Request) {
    n.orderType == Market || n.tif == IOC || n.tif == FOK
  }

  /** What became of an order that lacked `lacks`: cancelled by prevention, less what that cut; or at rest, where there was room;
      or cancelled as its terms say. */
  predicate Fate(c: Core, n: Request, c': Core, cancels: bool, cut: nat, room: nat, lacks: nat)
    requires cut <= lacks
  {
    && (cancels ==> n.id !in c'.book.ids && SaysCancelled(c'.log, n.id, lacks - cut))
    && (!cancels && Stays(n) ==> (n.id in c'.book.ids <==> room > 0) && (room > 0 ==> RestsLast(c'.book, AtRest(n, lacks))))
    && (!cancels && Goes(n) ==> n.id !in c'.book.ids && SaysCancelled(c'.log, n.id, lacks))
    && (!Stays(n) ==> n.id !in c'.book.ids)
  }

  lemma RestedIsFate(c: Core, n: Request, left: nat)
    requires n.id !in c.book.ids
    ensures var c' := Rested(c, n, left);
            (n.id in c'.book.ids <==> c.book.room > 0) && (c.book.room > 0 ==> RestsLast(c'.book, AtRest(n, left)))
  {
  }

  lemma SettledFate(c: Core, n: Request, r: Round, lacks: nat, cut: nat)
    requires r.Done? && n.id !in r.c.book.ids && cut <= lacks && lacks > 0 && r.rem == lacks - cut && (cut > 0 ==> r.cancel)
    ensures Fate(c, n, Settle(r.c, n, r.rem, r.cancel), r.cancel, cut, r.c.book.room, lacks)
  {
    RestedIsFate(r.c, n, r.rem);
  }

  /** What an order lacks, according to the log. */
  function Lacks(log: seq<Event>, log': seq<Event>, n: Request): int {
    n.qty - TookSince(log, log', n.id)
  }

  lemma EnterFate(c: Core, n: Request, c': Core, makers: seq<Order>)
    requires Shape(c.book) && !n.orderType.PostOnly? && n.id !in c.book.ids
    requires c' == Enter(c, n) && makers == Route(c.book, TakerOf(n)) && Accepts(c.log, c'.log, n)
    ensures var lacks := Lacks(c.log, c'.log, n);
            && lacks >= 0
            && (lacks == 0 ==> n.id !in c'.book.ids)
            && (lacks > 0 ==> Fate(c, n, c', Cancels(c.mode, makers, n.stpGroup), Cut(c.mode, makers, n.stpGroup, lacks),
                                   c.book.room + Gone(c.mode, makers, n.stpGroup), lacks))
  {
    AcceptedIsMatched(c, n);
    EnterTakes(c, n);
    MatchedAndSettled(c, n);
    var r := Match(Accepted(c, n), TakerOf(n), n.qty);
    var lacks := Lacks(c.log, c'.log, n);
    if lacks > 0 {
      MatchLacks(c, n, r);
      SettledFate(c, n, r, lacks, Cut(c.mode, makers, n.stpGroup, lacks));
    } else {
      MatchIsGreedy(Accepted(c, n), TakerOf(n), n.qty, r);
      ConsumeFills(c.mode, makers, n.stpGroup, n.qty);
      MatchWithin(Accepted(c, n), TakerOf(n), n.qty, r);
    }
  }

  lemma TurnedAwayRestsNot(c: Core, n: Request)
    requires NeverMatches(c, n) && !n.orderType.PostOnly? && n.id !in c.book.ids
    ensures n.id !in Enter(c, n).book.ids
  {
  }

  /** Of the orders that may match, exactly an accepted limit or iceberg order that is good till cancelled, lacks something, is not
      cancelled by prevention and finds room comes to rest, and it rests with just what it lacks. A market order, an immediate or
      cancel order and a fill or kill order never do. */
  lemma RestsExactly(c: Core, n: Request)
    requires Shape(c.book) && !n.orderType.PostOnly? && n.id !in c.book.ids
    ensures var c', makers := Enter(c, n), Route(c.book, TakerOf(n));
            && (n.id in c'.book.ids <==> (&& Accepts(c.log, c'.log, n) && Stays(n) && Lacks(c.log, c'.log, n) > 0
                                          && !Cancels(c.mode, makers, n.stpGroup)
                                          && c.book.room + Gone(c.mode, makers, n.stpGroup) > 0))
            && (n.id in c'.book.ids ==> RestsLast(c'.book, AtRest(n, Lacks(c.log, c'.log, n))))
            && (Goes(n) ==> n.id !in c'.book.ids)
  {
    var c', makers := Enter(c, n), Route(c.book, TakerOf(n));
    if Accepts(c.log, c'.log, n) {
      EnterFate(c, n, c', makers);
    } else {
      AcceptedIsMatched(c, n);
      TurnedAwayRestsNot(c, n);
    }
  }

  /** What an accepted order lacks is reported as cancelled by the last event, if its terms say so; if prevention cancels it,
      that is less what a decrement cut. */
  lemma LeftoverIsCancelled(c: Core, n: Request)
    requires Shape(c.book) && !n.orderType.PostOnly? && n.id !in c.book.ids && Accepts(c.log, Enter(c, n).log, n)
    ensures var c', makers := Enter(c, n), Route(c.book, TakerOf(n));
            var lacks := Lacks(c.log, c'.log, n);
            lacks > 0 && (Goes(n) || Cancels(c.mode, makers, n.stpGroup)) ==>
              && n.id !in c'.book.ids
              && SaysCancelled(c'.log, n.id, lacks - Cut(c.mode, makers, n.stpGroup, lacks))
  {
    EnterFate(c, n, Enter(c, n), Route(c.book, TakerOf(n)));
  }

  lemma PostOnlyTurnedAway(c: Core, n: Request, c': Core)
    requires n.orderType.PostOnly? && WouldCross(c.book, n.side, n.price) && c' == Enter(c, n)
    ensures c' == c.(log := c.log + [OrderRejected(|c.log| + 1, n.id, WouldCrossSpread)]) && !Accepts(c.log, c'.log, n)
  {
    assert c'.log[|c.log|].OrderRejected?;
  }

  lemma PostOnlyPosted(c: Core, n: Request, c': Core)
    requires n.orderType.PostOnly? && !WouldCross(c.book, n.side, n.price) && c' == Enter(c, n)
    ensures Accepts(c.log, c'.log, n)
    ensures if n.id !in c.book.ids && c.book.room > 0 then RestsLast(c'.book, AtRest(n, n.qty)) else c'.book == c.book
  {
    if n.id !in c.book.ids {
      RestedIsFate(Accepted(c, n), n, n.qty);
    }
  }

  /** A post-only order takes nothing: it is turned away exactly when it would meet somebody, and otherwise rests with all of its
      quantity, unless its id rests already or there is no room. */
  lemma PostOnlyRestsWhole(c: Core, n: Request)
    requires Shape(c.book) && n.orderType.PostOnly?
    ensures var c' := Enter(c, n);
            && TookSince(c.log, c'.log, n.id) == 0
            && (Accepts(c.log, c'.log, n) <==> Route(c.book, TakerOf(n)) == [])
            && (if Route(c.book, TakerOf(n)) != [] then
                  c' == c.(log := c.log + [OrderRejected(|c.log| + 1, n.id, WouldCrossSpread)])
                else if n.id !in c.book.ids && c.book.room > 0 then RestsLast(c'.book, AtRest(n, n.qty))
                else c'.book == c.book)
  {
    RouteStarts(c.book, TakerOf(n));
    EnterTakes(c, n);
    if WouldCross(c.book, n.side, n.price) {
      PostOnlyTurnedAway(c, n, Enter(c, n));
    } else {
      PostOnlyPosted(c, n, Enter(c, n));
    }
  }

  /* ---- What an order reaches ---- */

  /** What an order's terms say: a market order takes any price, any other order what its own price allows. */
  predicate Allows(n: Request, resting: nat) {
    n.orderType == Market || (if n.side == Bid then resting <= n.price else n.price <= resting)
  }

  /** The taker accepts exactly what the terms allow. */
  lemma AcceptsOnItsTerms(n: Request, resting: nat)
    requires resting < U64_LIMIT
    ensures Acceptable(n.side, TakerOf(n).price, resting) <==> Allows(n, resting)
  {
  }

  /** The opposing orders that an order reaches on its terms, in price-time priority. */
  function Reachable(queues: Queues, n: Request): seq<Order> {
    if n.side == Bid then Asks(queues, 0, if n.orderType == Market then U64_LIMIT else n.price + 1)
    else Bids(queues, if n.orderType == Market then 0 else n.price, U64_LIMIT)
  }

  lemma RouteIsReachable(b: Book, n: Request)
    requires Orderly(b) && Bookable(n)
    ensures Route(b, TakerOf(n)) == Reachable(b.queues, n)
  {
    RouteIsSorted(b, TakerOf(n));
  }

  lemma {:induction false} AsksHold(queues: Queues, lo: nat, hi: nat, o: Order)
    ensures o in Asks(queues, lo, hi) <==> exists p: nat :: lo <= p < hi && o in QueueAt(queues, Place(Ask, p))
    decreases hi - lo
  {
    if lo < hi {
      AsksHold(queues, lo + 1, hi, o);
    }
  }

  lemma {:induction false} BidsHold(queues: Queues, lo: nat, hi: nat, o: Order)
    ensures o in Bids(queues, lo, hi) <==> exists p: nat :: lo <= p < hi && o in QueueAt(queues, Place(Bid, p))
    decreases hi - lo
  {
    if lo < hi {
      BidsHold(queues, lo, hi - 1, o);
    }
  }

  /** A resting order stands in the queue at its place and in no other. */
  lemma StandsAtItsPlace(b: Book, id: nat, o: Order, pl: Place)
    requires Shape(b) && id in b.ids && b.ids[id] == pl && Resting(b, id) && o == OrderOf(b, id)
    ensures forall x: Place {:trigger QueueAt(b.queues, x)} :: o in QueueAt(b.queues, x) <==> x == pl
    ensures pl.price < U64_LIMIT
  {
    assert QueueOk(pl, b.queues[pl], b.ids);
    forall x: Place | o in QueueAt(b.queues, x) ensures x == pl {
      assert QueueOk(x, b.queues[x], b.ids);
    }
  }

  lemma OrderInReach(b: Book, n: Request, o: Order, pl: Place)
    requires forall x: Place {:trigger QueueAt(b.queues, x)} :: o in QueueAt(b.queues, x) <==> x == pl
    requires pl.price < U64_LIMIT
    ensures o in Reachable(b.queues, n) <==> pl.side != n.side && Allows(n, pl.price)
  {
    assert o in QueueAt(b.queues, pl);
    if n.side == Bid {
      AsksHold(b.queues, 0, if n.orderType == Market then U64_LIMIT else n.price + 1, o);
    } else {
      BidsHold(b.queues, if n.orderType == Market then 0 else n.price, U64_LIMIT, o);
    }
  }

  /** They are the resting orders of the other side at the prices that its terms allow, all of them. */
  lemma ReachableExactly(b: Book, n: Request, id: nat)
    requires Shape(b) && id in b.ids
    ensures Resting(b, id)
    ensures OrderOf(b, id) in Reachable(b.queues, n) <==> b.ids[id].side != n.side && Allows(n, b.ids[id].price)
  {
    RestingOrder(b, id);
    StandsAtItsPlace(b, id, OrderOf(b, id), b.ids[id]);
    OrderInReach(b, n, OrderOf(b, id), b.ids[id]);
  }

  /** None of these orders has anything to give and is stored under the group. */
  predicate NoneOwn(makers: seq<Order>, group: Option<nat>) {
    forall k :: 0 <= k < |makers| && makers[k].Remaining() > 0 ==>
      !(group.Some? && group.value != STP_NONE && makers[k].stp == group.value)
  }

  lemma {:induction false} NoneOwnIsAll(mode: StpMode, makers: seq<Order>, stp: Option<nat>)
    requires NoneOwn(makers, stp)
    ensures Fillable(mode, makers, stp) == Total(makers) && |Reach(makers, stp)| == |makers|
  {
    if makers != [] {
      FillableStep(mode, makers, stp);
      NoneOwnIsAll(mode, makers[1..], stp);
    }
  }

  /** On an orderly book an accepted order takes, from the front of what its terms reach, as much as there is, up to its quantity:
      all of it where none of those orders is of its group. So a market order takes the whole other side if it must, whatever
      its price field says. */
  lemma TakesWhatItReaches(c: Core, n: Request)
    requires Orderly(c.book) && Bookable(n) && !n.orderType.PostOnly? && Accepts(c.log, Enter(c, n).log, n)
    ensures var log, makers := Enter(c, n).log, Reachable(c.book.queues, n);
            && TookSince(c.log, log, n.id) == Min(n.qty, Fillable(c.mode, makers, n.stpGroup))
            && (NoneOwn(makers, n.stpGroup) ==> TookSince(c.log, log, n.id) == Min(n.qty, Total(makers)))
            && forall id {:trigger Made(log, id)} ::
                 Made(log, id) == Made(c.log, id) + Given(c.mode, makers, n.stpGroup, n.qty, id)
  {
    var log, makers := Enter(c, n).log, Reachable(c.book.queues, n);
    RouteIsReachable(c.book, n);
    AcceptedIsMatched(c, n);
    EnterTakes(c, n);
    if NoneOwn(makers, n.stpGroup) {
      NoneOwnIsAll(c.mode, makers, n.stpGroup);
    }
    forall id ensures Made(log, id) == Made(c.log, id) + Given(c.mode, makers, n.stpGroup, n.qty, id) {
      EnterGiven(c, n, id);
    }
  }

  /* ---- Modifications ---- */

  lemma WithdrawnLog(c: Core, id: nat, newPrice: nat, newQty: nat)
    requires Shape(c.book) && id in c.book.ids
    ensures Resting(c.book, id)
    ensures var c1, pl := Withdraw(c, id, newPrice, newQty), c.book.ids[id];
            && c1.log == c.log + [OrderModified(|c.log| + 1, id, newPrice, newQty)]
                               + [BookUpdate(|c.log| + 2, pl.side, pl.price, LevelQty(Remove(c.book, id), pl))]
            && c1.book == Remove(c.book, id) && c1.mode == c.mode
            && (forall x {:trigger Made(c1.log, x)} :: Made(c1.log, x) == Made(c.log, x)) && Took(c1.log, id) == Took(c.log, id)
  {
    RestingOrder(c.book, id);
    var c1, pl := Withdraw(c, id, newPrice, newQty), c.book.ids[id];
    var e := OrderModified(|c.log| + 1, id, newPrice, newQty);
    var u := BookUpdate(|c.log| + 2, pl.side, pl.price, LevelQty(Remove(c.book, id), pl));
    assert c1.log == c.log + [e] + [u];
    TookAppend(c.log, e, id);
    TookAppend(c.log + [e], u, id);
    forall x ensures Made(c1.log, x) == Made(c.log, x) {
      MadeAppend(c.log, e, x);
      MadeAppend(c.log + [e], u, x);
    }
  }

  /** A limit order without a group, good till cancelled, under a fresh id. */
  predicate Plain(c: Core, n: Request) {
    n.id !in c.book.ids && n.orderType == Limit && n.tif == GTC && n.visible == None && n.stpGroup == None
  }

  lemma PlainIsMatched(c: Core, n: Request)
    requires Shape(c.book) && Plain(c, n)
    ensures NeverMatches(c, n) <==> n.qty == 0
    ensures c.log + [if n.qty == 0 then OrderRejected(|c.log| + 1, n.id, InvalidQuantity)
                     else OrderAccepted(|c.log| + 1, n.id, n.side, n.price, n.qty, Limit)] <= Enter(c, n).log
  {
    AcceptedIsMatched(c, n);
  }

  lemma PlainGives(c: Core, n: Request, log: seq<Event>, makers: seq<Order>)
    requires Shape(c.book) && Plain(c, n) && log == Enter(c, n).log && makers == Route(c.book, TakerOf(n))
    ensures forall x {:trigger Made(log, x)} :: Made(log, x) == Made(c.log, x) + Given(c.mode, makers, None, n.qty, x)
  {
    PlainIsMatched(c, n);
    forall x ensures Made(log, x) == Made(c.log, x) + Given(c.mode, makers, None, n.qty, x) {
      EnterGiven(c, n, x);
    }
  }

  lemma PlainFate(c: Core, n: Request, c': Core, cut: nat, room: nat, left: nat)
    requires Plain(c, n) && room > 0 && cut <= left && Fate(c, n, c', false, cut, room, left)
    ensures n.id in c'.book.ids && RestsLast(c'.book, Order(n.id, n.side, n.price, left, 0, Limit, left, STP_NONE))
  {
    assert AtRest(n, left) == Order(n.id, n.side, n.price, left, 0, Limit, left, STP_NONE);
  }

  lemma PlainTakes(c: Core, n: Request, log: seq<Event>, makers: seq<Order>)
    requires Shape(c.book) && Plain(c, n) && log == Enter(c, n).log && makers == Route(c.book, TakerOf(n))
    ensures TookSince(c.log, log, n.id) == Min(n.qty, Total(makers))
  {
    PlainIsMatched(c, n);
    EnterTakes(c, n);
    GrouplessReachesAll(makers);
  }

  /** It rests with what it lacks if there is room. */
  lemma PlainRests(c: Core, n: Request, c': Core, makers: seq<Order>, left: nat)
    requires Shape(c.book) && Plain(c, n) && c.book.room > 0 && c' == Enter(c, n) && makers == Route(c.book, TakerOf(n))
    requires left > 0 && n.qty == Total(makers) + left
    ensures n.id in c'.book.ids && RestsLast(c'.book, Order(n.id, n.side, n.price, left, 0, Limit, left, STP_NONE))
  {
    PlainIsMatched(c, n);
    PlainTakes(c, n, c'.log, makers);
    EnterFate(c, n, c', makers);
    GrouplessReachesAll(makers);
    PlainFate(c, n, c', Cut(c.mode, makers, None, left), c.book.room + Gone(c.mode, makers, None), left);
  }

  lemma PlainFilled(c: Core, n: Request, c': Core, makers: seq<Order>)
    requires Shape(c.book) && Plain(c, n) && c' == Enter(c, n) && makers == Route(c.book, TakerOf(n)) && n.qty <= Total(makers)
    ensures n.id !in c'.book.ids
  {
    PlainIsMatched(c, n);
    PlainTakes(c, n, c'.log, makers);
    if n.qty == 0 {
      TurnedAwayRestsNot(c, n);
    } else {
      EnterFate(c, n, c', makers);
    }
  }

  /** The replacement enters the book that the order left. */
  lemma RenewedEnters(c: Core, id: nat, newPrice: nat, newQty: nat, c1: Core, n: Request)
    requires Shape(c.book) && id in c.book.ids && Resting(c.book, id)
    requires c1 == Withdraw(c, id, newPrice, newQty) && n == Replacement(c, id, newPrice, newQty)
    ensures Shape(c1.book) && id !in c1.book.ids && c1.book.room > 0 && Modify(c, id, newPrice, newQty) == Enter(c1, n)
    ensures n == Request(id, c.book.ids[id].side, newPrice, newQty, Limit, GTC, None, None)
  {
    RestingOrder(c.book, id);
    RemoveKeepsShape(c.book, id);
  }

  /** How the log of a modification begins: the order's modification, what its level holds without it, and the answer. */
  predicate BeginsAnew(log: seq<Event>, log': seq<Event>, id: nat, was: Place, held: nat, newPrice: nat, newQty: nat) {
    var k := |log|;
    log + [OrderModified(k + 1, id, newPrice, newQty)] + [BookUpdate(k + 2, was.side, was.price, held)]
        + [if newQty == 0 then OrderRejected(k + 3, id, InvalidQuantity)
           else OrderAccepted(k + 3, id, was.side, newPrice, newQty, Limit)] <= log'
  }

  /** What a modification does: the order leaves, comes back as a limit order without a group on its old side at the new price
      with the new quantity, takes what it meets there, and rests with what it lacks behind whoever rests at that price. */
  lemma ModifiedExactly(c: Core, id: nat, newPrice: nat, newQty: nat)
    requires Shape(c.book) && id in c.book.ids
    ensures Resting(c.book, id)
    ensures var c', b, was := Modify(c, id, newPrice, newQty), Remove(c.book, id), c.book.ids[id];
            var makers := Route(b, Taker(id, was.side, newPrice, None));
            && BeginsAnew(c.log, c'.log, id, was, LevelQty(b, was), newPrice, newQty)
            && TookSince(c.log, c'.log, id) == Min(newQty, Total(makers))
            && (forall x {:trigger Made(c'.log, x)} :: Made(c'.log, x) == Made(c.log, x) + Given(c.mode, makers, None, newQty, x))
            && (id in c'.book.ids <==> newQty > Total(makers))
            && (newQty > Total(makers) ==>
                  var left := newQty - Total(makers);
                  RestsLast(c'.book, Order(id, was.side, newPrice, left, 0, Limit, left, STP_NONE)))
  {
    RestingOrder(c.book, id);
    WithdrawnLog(c, id, newPrice, newQty);
    var c1, n := Withdraw(c, id, newPrice, newQty), Replacement(c, id, newPrice, newQty);
    RenewedEnters(c, id, newPrice, newQty, c1, n);
    var c' := Modify(c, id, newPrice, newQty);
    var makers := Route(c1.book, TakerOf(n));
    PlainIsMatched(c1, n);
    PlainTakes(c1, n, c'.log, makers);
    if newQty > Total(makers) {
      PlainRests(c1, n, c', makers, newQty - Total(makers));
    } else {
      PlainFilled(c1, n, c', makers);
    }
    PlainGives(c1, n, c'.log, makers);
    forall x ensures Made(c'.log, x) == Made(c.log, x) + Given(c.mode, makers, None, newQty, x) {
      assert Made(c1.log, x) == Made(c.log, x);
    }
  }

  /** On an orderly book it meets the opposing orders that the new price reaches, in price-time priority. */
  lemma ModifiedMeets(b: Book, id: nat, newPrice: nat)
    requires Orderly(b) && id in b.ids && newPrice < U64_LIMIT
    ensures Resting(b, id)
    ensures var b' := Remove(b, id);
            Route(b', Taker(id, b.ids[id].side, newPrice, None))
              == if b.ids[id].side == Bid then Asks(b'.queues, 0, newPrice + 1) else Bids(b'.queues, newPrice, U64_LIMIT)
  {
    RemoveOrderly(b, id);
    RouteIsSorted(Remove(b, id), Taker(id, b.ids[id].side, newPrice, None));
  }

  /** An id that does not rest can be neither cancelled nor modified: the rejection says that it was not found, and nothing else
      happens. */
  lemma UnknownIsRejected(c: Core, id: nat, newPrice: nat, newQty: nat)
    requires id !in c.book.ids
    ensures var told := c.(log := c.log + [OrderRejected(|c.log| + 1, id, OrderNotFound)]);
            Cancel(c, id) == told && Modify(c, id, newPrice, newQty) == told
  {
  }

  /* ---- Commands and stops ---- */

  /** The order was served on its terms: it was accepted or turned away; on an orderly book it took what its terms reach, if that
      holds none of its group; and if it came to rest, its terms let it, with just what it lacked. */
  ghost predicate Served(c: Core, c': Core, n: Request) {
    && (Accepts(c.log, c'.log, n) || (c'.book == c.book && |c'.log| == |c.log| + 1 && c'.log[|c.log|].OrderRejected?))
    && (Accepts(c.log, c'.log, n) && Orderly(c.book) && !n.orderType.PostOnly? && NoneOwn(Reachable(c.book.queues, n), n.stpGroup) ==>
          TookSince(c.log, c'.log, n.id) == Min(n.qty, Total(Reachable(c.book.queues, n))))
    && (n.id !in c.book.ids && n.id in c'.book.ids ==>
          && (n.orderType.PostOnly? || Stays(n))
          && Lacks(c.log, c'.log, n) >= 0
          && RestsLast(c'.book, AtRest(n, Lacks(c.log, c'.log, n))))
  }

  lemma EnterServes(c: Core, n: Request)
    requires Shape(c.book) && Bookable(n)
    ensures Served(c, Enter(c, n), n)
  {
    EnterTakes(c, n);
    if n.orderType.PostOnly? {
      PostOnlyRestsWhole(c, n);
    } else {
      AcceptedIsMatched(c, n);
      if Accepts(c.log, Enter(c, n).log, n) && Orderly(c.book) {
        TakesWhatItReaches(c, n);
      }
      if n.id !in c.book.ids {
        RestsExactly(c, n);
      }
    }
  }

  /** A new order is served on the terms of its command. */
  lemma CommandIsServed(e: Engine, cmd: Command)
    requires Shape(e.core.book) && cmd.NewOrder? && !cmd.orderType.StopLimit?
    ensures Served(e.core, Obey(e, cmd).core,
                   Request(cmd.id, cmd.side, cmd.price, cmd.qty, cmd.orderType, cmd.tif, cmd.visible, cmd.stpGroup))
    ensures Obey(e, cmd).stopBids == e.stopBids && Obey(e, cmd).stopAsks == e.stopAsks
  {
    EnterServes(e.core, RequestOf(cmd));
  }

  /** A stop with a quantity and a trigger is accepted and waits on its own side, on the terms of its command; any other is turned
      away. */
  lemma StopWaits(e: Engine, cmd: Command)
    requires cmd.NewOrder? && cmd.orderType.StopLimit?
    ensures var e', k := Obey(e, cmd), |e.core.log| + 1;
            if cmd.qty == 0 then e' == e.(core := e.core.(log := e.core.log + [OrderRejected(k, cmd.id, InvalidQuantity)]))
            else if cmd.stopPrice.None? then e' == e.(core := e.core.(log := e.core.log + [OrderRejected(k, cmd.id, InvalidPrice)]))
            else
              var s := (cmd.stopPrice.value, StopEntry(cmd.id, cmd.side, cmd.price, cmd.qty, cmd.tif, cmd.visible, cmd.stpGroup));
              && e'.core == e.core.(log := e.core.log + [OrderAccepted(k, cmd.id, cmd.side, cmd.price, cmd.qty, StopLimit)])
              && multiset(e'.stopBids) == multiset(e.stopBids) + (if cmd.side == Bid then multiset{s} else multiset{})
              && multiset(e'.stopAsks) == multiset(e.stopAsks) + (if cmd.side == Ask then multiset{s} else multiset{})
  {
    if cmd.stopPrice.Some? {
      var n, px := RequestOf(cmd), cmd.stopPrice.value;
      var s := (px, StopEntry(n.id, n.side, n.price, n.qty, n.tif, n.visible, n.stpGroup));
      InsertedMultiset(e.stopBids, StopPosition(Bid, e.stopBids, px), s);
      InsertedMultiset(e.stopAsks, StopPosition(Ask, e.stopAsks, px), s);
    }
  }

  lemma InsertedMultiset<T>(q: seq<T>, k: nat, x: T)
    requires k <= |q|
    ensures multiset(Inserted(q, k, x)) == multiset(q) + multiset{x}
  {
    assert q == q[..k] + q[k..];
  }

  /** A stop that fires says so, and is then served as a limit order at its limit price, on its own terms otherwise. */
  lemma FiredStopIsServed(c: Core, s: StopEntry)
    requires Shape(c.book) && s.limitPrice < U64_LIMIT
    ensures var log := c.log + [StopTriggered(|c.log| + 1, s.id)];
            Served(c.(log := log), FireOne(c, s), Request(s.id, s.side, s.limitPrice, s.qty, Limit, s.tif, s.visible, s.stpGroup))
  {
    var c1 := Noted(Emit(c, StopTriggered(0, s.id)), Fired(s.id, s.qty));
    EnterServes(c1, FiredRequest(s));
  }
}
