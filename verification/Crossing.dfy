/** Exactly when an order that enters crosses the book: on every well-formed
    book that was uncrossed, by what the order meets and by what a stale best
    price hides from it; and over every run. */
module Crossing {
  import opened Types
  import opened BookSpec
  import opened BookFacts
  import opened BestPrices
  import opened EngineSpec
  import opened EngineRuns
  import opened Rounds
  import opened Routes
  import opened Greedy
  import opened Entries
  import opened Entering
  import opened OrderlyBooks
  import opened Priority
  import opened Outcomes

  /* ---- What a match leaves of an uncrossed book ---- */

  lemma RoundWithin(c: Core, t: Taker, rem: nat)
    requires Shape(c.book)
    ensures Within(MatchRound(c, t, rem).c.book, c.book) && MatchRound(c, t, rem).c.mode == c.mode
  {
    FirstMakerFacts(c.book, t.side.Opposite());
    RoundCases(c, t, rem);
  }

  lemma WithinOn(b: Book, b1: Book, b2: Book)
    requires Within(b1, b) && Within(b2, b1)
    ensures Within(b2, b)
  {
  }

  lemma {:induction false} MatchWithin(c: Core, t: Taker, rem: nat, r: Round)
    requires Shape(c.book) && r == Match(c, t, rem)
    ensures Shape(r.c.book) && Within(r.c.book, c.book) && r.c.mode == c.mode
    decreases rem + |c.book.ids|
  {
    if rem > 0 {
      var first := MatchRound(c, t, rem);
      RoundWithin(c, t, rem);
      RoundKeepsShape(c, t, rem);
      if first.Again? {
        RoundProgresses(c, t, rem);
        MatchWithin(first.c, t, first.rem, r);
        WithinOn(c.book, first.c.book, r.c.book);
      }
    }
  }

  /* ---- What comes to rest ---- */

  /** Whether self-trade prevention cancels what an order lacks: it does where it ends at the first order of its own group. */
  predicate Cancels(mode: StpMode, makers: seq<Order>, stp: Option<nat>) {
    (mode.CancelBoth? || mode.DecrementAndCancel?) && |Reach(makers, stp)| < |makers|
  }

  /** Whether an order that lacks something stops at its own group with the rest of it. */
  predicate StopsShort(mode: StpMode, makers: seq<Order>, stp: Option<nat>) {
    mode.CancelNewest? && |Reach(makers, stp)| < |makers|
  }

  /** How many orders leave the book when an order takes all that it can get. */
  function Gone(mode: StpMode, makers: seq<Order>, stp: Option<nat>): nat {
    if mode.CancelNewest? then |Reach(makers, stp)| else |makers|
  }

  /** What an order that lacks something leaves. */
  lemma {:induction false} ConsumeLeaves(mode: StpMode, makers: seq<Order>, stp: Option<nat>, qty: nat)
    requires qty > Fillable(mode, makers, stp)
    ensures var left := Consume(mode, makers, stp, qty);
            && (left.cancel <==> Cancels(mode, makers, stp))
            && (!left.cancel ==> left.qty == qty - Fillable(mode, makers, stp) && left.makers == makers[Gone(mode, makers, stp)..])
  {
    if makers != [] {
      FillableStep(mode, makers, stp);
      if !Own(stp, makers[0]) {
        ConsumeLeaves(mode, makers[1..], stp, qty - makers[0].Remaining());
      } else if mode.CancelOldest? {
        ConsumeLeaves(mode, makers[1..], stp, qty);
      }
    }
  }

  /** The order, or the rest of it, comes to rest: it can get less than its quantity on its route, and the rest is not cancelled. */
  ghost predicate ComesToRest(c: Core, n: Request) {
    var makers := Route(c.book, TakerOf(n));
    if n.orderType.PostOnly? then !WouldCross(c.book, n.side, n.price) && n.id !in c.book.ids
    else
      && Rests(n) && Rejection(c, n).None?
      && Fillable(c.mode, makers, n.stpGroup) < n.qty && !Cancels(c.mode, makers, n.stpGroup)
  }

  /** There is room for the rest of the order, and something it could trade with is left: an order of its own group that stopped
      it, or a level that a stale best hid from it. */
  ghost predicate SomethingLeft(c: Core, n: Request) {
    var makers := Route(c.book, TakerOf(n));
    && c.book.room + Gone(c.mode, makers, n.stpGroup) > 0
    && (StopsShort(c.mode, makers, n.stpGroup) || Hidden(c.book, TakerOf(n)) != {})
  }

  ghost predicate Crosses(c: Core, n: Request) {
    ComesToRest(c, n) && SomethingLeft(c, n)
  }

  /** The opposing levels that a taker's price accepts. */
  ghost predicate SomeAcceptable(b: Book, t: Taker) {
    exists pl :: pl in b.queues && pl.side == t.side.Opposite() && Acceptable(t.side, t.price, pl.price)
  }

  lemma AcceptableExactly(b: Book, t: Taker)
    requires Shape(b)
    ensures SomeAcceptable(b, t) <==> Route(b, t) != [] || Hidden(b, t) != {}
  {
    RouteStarts(b, t);
    if SomeAcceptable(b, t) && Route(b, t) == [] {
      var pl :| pl in b.queues && pl.side == t.side.Opposite() && Acceptable(t.side, t.price, pl.price);
      assert pl in Hidden(b, t);
    } else if Hidden(b, t) != {} {
      var pl :| pl in Hidden(b, t);
      assert pl in b.queues && pl.side == t.side.Opposite() && Acceptable(t.side, t.price, pl.price);
    }
  }

  lemma InsertCrosses(b: Book, o: Order, t: Taker)
    requires Uncrossed(b) && !Refuses(b, o.id) && t.side == o.side && t.price == o.price
    ensures Uncrossed(Insert(b, o)) <==> !SomeAcceptable(b, t)
  {
    var b' := Insert(b, o);
    var at := Place(o.side, o.price);
    assert at in b'.queues;
    if SomeAcceptable(b, t) {
      var pl :| pl in b.queues && pl.side == t.side.Opposite() && Acceptable(t.side, t.price, pl.price);
      assert pl in b'.queues;
    } else {
      forall x, y | x in b'.queues && y in b'.queues && x.side == Bid && y.side == Ask ensures x.price < y.price {
        assert x != at ==> x in b.queues;
        assert y != at ==> y in b.queues;
      }
    }
  }

  /** Resting crosses exactly when there is room and something acceptable is left. */
  lemma RestedCrosses(c: Core, n: Request, qty: nat)
    requires Shape(c.book) && Uncrossed(c.book) && n.id !in c.book.ids && MayRest(n)
    ensures Uncrossed(Rested(c, n, qty).book)
        <==> !(c.book.room > 0 && (Route(c.book, TakerOf(n)) != [] || Hidden(c.book, TakerOf(n)) != {}))
  {
    AcceptableExactly(c.book, TakerOf(n));
    if c.book.room > 0 {
      InsertCrosses(c.book, Booked(n.id, n.side, n.price, qty, n.orderType, n.visible, n.stpGroup), TakerOf(n));
    }
  }

  lemma PostCrosses(c: Core, n: Request)
    requires Shape(c.book) && Uncrossed(c.book) && n.orderType.PostOnly?
    ensures Uncrossed(Enter(c, n).book) <==> !Crosses(c, n)
  {
    if !WouldCross(c.book, n.side, n.price) {
      RouteStarts(c.book, TakerOf(n));
      if n.id !in c.book.ids {
        RestedCrosses(Accepted(c, n), n, n.qty);
      }
    }
  }

  lemma MatchedAndSettled(c: Core, n: Request)
    requires !n.orderType.PostOnly? && Rejection(c, n).None?
    ensures var r := Match(Accepted(c, n), TakerOf(n), n.qty);
            Enter(c, n) == Settle(r.c, n, r.rem, r.cancel)
  {
  }

  /** What is left after a match that leaves something of the order and does not cancel it. */
  lemma LackCrosses(c: Core, n: Request, after: Core, rem: nat)
    requires Shape(c.book) && n.id !in c.book.ids && Rests(n)
    requires Shape(after.book) && Uncrossed(after.book) && Within(after.book, c.book)
    requires var makers := Route(c.book, TakerOf(n));
             Leaves(c.book, after.book, TakerOf(n), makers[Gone(c.mode, makers, n.stpGroup)..])
    ensures Uncrossed(Rested(after, n, rem).book) <==> !SomethingLeft(c, n)
  {
    RestedCrosses(after, n, rem);
  }

  lemma SettleCrosses(c: Core, n: Request, r: Round)
    requires Shape(c.book) && Uncrossed(c.book) && Rejection(c, n).None? && !n.orderType.PostOnly?
    requires r.Done? && Shape(r.c.book) && Within(r.c.book, c.book) && Greedily(Accepted(c, n), TakerOf(n), n.qty, r)
    ensures Uncrossed(Settle(r.c, n, r.rem, r.cancel).book) <==> !Crosses(c, n)
  {
    var makers := Route(c.book, TakerOf(n));
    WithinKeepsUncrossed(r.c.book, c.book);
    ConsumeFills(c.mode, makers, n.stpGroup, n.qty);
    if n.qty > Fillable(c.mode, makers, n.stpGroup) {
      ConsumeLeaves(c.mode, makers, n.stpGroup, n.qty);
      if Rests(n) && !r.cancel {
        LackCrosses(c, n, r.c, r.rem);
      }
    }
  }

  /** On every well-formed uncrossed book, in every mode and for every order: the book is crossed afterwards exactly when
      the order comes to rest, with room, in front of its own group or of a hidden level. */
  lemma EnterCrosses(c: Core, n: Request)
    requires Shape(c.book) && Uncrossed(c.book)
    ensures Uncrossed(Enter(c, n).book) <==> !Crosses(c, n)
  {
    if n.orderType.PostOnly? {
      PostCrosses(c, n);
    } else if Rejection(c, n).None? {
      var r := Match(Accepted(c, n), TakerOf(n), n.qty);
      MatchWithin(Accepted(c, n), TakerOf(n), n.qty, r);
      MatchIsGreedy(Accepted(c, n), TakerOf(n), n.qty, r);
      SettleCrosses(c, n, r);
      MatchedAndSettled(c, n);
    }
  }

  /** On an orderly book nothing is hidden: only stopping short at one's own group crosses it, whatever the order's price. */
  lemma StoppingShortCrosses(c: Core, n: Request)
    requires Orderly(c.book) && Uncrossed(c.book) && Bookable(n) && Rests(n) && Rejection(c, n).None?
    ensures var makers := Crossable(c.book.queues, TakerOf(n));
            var reach := Reach(makers, n.stpGroup);
            var stopped := c.mode.CancelNewest? && |reach| < |makers| && Total(reach) < n.qty;
            Uncrossed(Enter(c, n).book) <==> !(stopped && c.book.room + |reach| > 0)
  {
    EnterCrosses(c, n);
    RouteIsSorted(c.book, TakerOf(n));
  }

  /** A post-only order never matches: it crosses exactly when it is booked although an opposing level is acceptable to its price,
      which the cached best must then hide. */
  lemma PostOnlyCrosses(c: Core, n: Request)
    requires Shape(c.book) && Uncrossed(c.book) && n.orderType.PostOnly?
    ensures Uncrossed(Enter(c, n).book)
        <==> WouldCross(c.book, n.side, n.price) || Refuses(c.book, n.id) || !SomeAcceptable(c.book, TakerOf(n))
  {
    EnterCrosses(c, n);
    RouteStarts(c.book, TakerOf(n));
    AcceptableExactly(c.book, TakerOf(n));
  }

  /* ---- Runs ---- */

  ghost predicate LeavesUncrossed(c: Core, n: Request) {
    Uncrossed(Enter(c, n).book)
  }

  ghost predicate CrossesNothing(c: Core, n: Request) {
    !Crosses(c, n)
  }

  ghost predicate WellUncrossed(b: Book, mode: StpMode) {
    Shape(b) && Uncrossed(b)
  }

  lemma UncrossedSheds()
    ensures forall b, mode, id {:trigger Loses(WellUncrossed, b, mode, id)} :: Loses(WellUncrossed, b, mode, id)
  {
    forall b, mode, id ensures Loses(WellUncrossed, b, mode, id) {
      if Resting(b, id) && WellUncrossed(b, mode) {
        RemoveKeepsShape(b, id);
        assert Within(Remove(b, id), b);
      }
    }
  }

  lemma CrossingCarries()
    ensures Carried(OfBook(WellUncrossed), LeavesUncrossed, CrossesNothing)
    ensures Carried(OfBook(WellUncrossed), CrossesNothing, LeavesUncrossed)
  {
    forall c, n ensures CarriesOn(WellUncrossed, LeavesUncrossed, CrossesNothing, c, n)
                     && CarriesOn(WellUncrossed, CrossesNothing, LeavesUncrossed, c, n) {
      if Bookable(n) && WellUncrossed(c.book, c.mode) {
        EnterCrosses(c, n);
        EnterKeepsShape(c, n);
      }
    }
    UncrossedSheds();
    BookCarried(WellUncrossed, LeavesUncrossed, CrossesNothing);
    BookCarried(WellUncrossed, CrossesNothing, LeavesUncrossed);
  }

  /** Every run of any commands, in every mode: the book is uncrossed throughout exactly when no order that enters crosses it. */
  lemma UncrossedExactly(base: nat, ticks: nat, capacity: nat, mode: StpMode, cmds: seq<Command>)
    ensures var e := NewEngine(base, ticks, capacity, mode);
            && (AllEnter(e, cmds, LeavesUncrossed) <==> AllEnter(e, cmds, CrossesNothing))
            && (AllEnter(e, cmds, CrossesNothing) ==> Uncrossed(Run(e, cmds).core.book))
  {
    var e := NewEngine(base, ticks, capacity, mode);
    CrossingCarries();
    assert WellUncrossed(e.core.book, mode) && Stands(OfBook(WellUncrossed), e);
    if AllEnter(e, cmds, LeavesUncrossed) {
      RunCarried(OfBook(WellUncrossed), LeavesUncrossed, CrossesNothing, e, cmds);
    }
    if AllEnter(e, cmds, CrossesNothing) {
      RunCarried(OfBook(WellUncrossed), CrossesNothing, LeavesUncrossed, e, cmds);
      assert OfBook(WellUncrossed)(Run(e, cmds).core);
    }
  }

  /* ---- Facing runs ---- */

  /** The order leaves the book facing, and does not come to rest in front of its own group. */
  ghost predicate GoesClear(c: Core, n: Request) {
    LeavesFacing(c, n) && !(ComesToRest(c, n) && StopsShort(c.mode, Route(c.book, TakerOf(n)), n.stpGroup))
  }

  ghost predicate ClearBook(b: Book, mode: StpMode) {
    Orderly(b) && Uncrossed(b)
  }

  lemma ClearCarries()
    ensures Carried(OfBook(ClearBook), GoesClear, LeavesUncrossed)
  {
    forall c, n ensures CarriesOn(ClearBook, GoesClear, LeavesUncrossed, c, n) {
      if Bookable(n) && ClearBook(c.book, c.mode) && GoesClear(c, n) {
        EnterExact(c, n);
        EnterCrosses(c, n);
        RouteIsSorted(c.book, TakerOf(n));
      }
    }
    forall b, mode, id ensures Loses(ClearBook, b, mode, id) {
      if Resting(b, id) && ClearBook(b, mode) {
        RemoveOrderly(b, id);
      }
    }
    BookCarried(ClearBook, GoesClear, LeavesUncrossed);
  }

  /** Throughout and after every run that keeps the book facing and lets nothing rest in front of its own group, the highest bid is
      below the lowest ask. */
  lemma NeverCrossed(base: nat, ticks: nat, capacity: nat, mode: StpMode, cmds: seq<Command>)
    requires AllEnter(NewEngine(base, ticks, capacity, mode), cmds, GoesClear)
    ensures AllEnter(NewEngine(base, ticks, capacity, mode), cmds, LeavesUncrossed)
    ensures var b := Run(NewEngine(base, ticks, capacity, mode), cmds).core.book;
            && Uncrossed(b) && ExactBest(b)
            && (b.bids.best.Some? && b.asks.best.Some? ==> b.bids.best.value < b.asks.best.value)
  {
    var e := NewEngine(base, ticks, capacity, mode);
    ClearCarries();
    RunCarried(OfBook(ClearBook), GoesClear, LeavesUncrossed, e, cmds);
    var b := Run(e, cmds).core.book;
    if b.bids.best.Some? && b.asks.best.Some? {
      assert b.bids.best.value in Prices(b.queues, Bid) && b.asks.best.value in Prices(b.queues, Ask);
    }
  }

  /** What a caller can check: an order that may rest faces the window, and one that matches first brings no group under
      CancelNewest. */
  predicate ClearIfItRests(base: nat, ticks: nat, mode: StpMode, n: Request) {
    FacesIfItRests(base, ticks, n) && (Rests(n) ==> Unimpeded(mode, n.stpGroup))
  }

  ghost function Clears(base: nat, ticks: nat, mode: StpMode): Request -> bool {
    (n: Request) => ClearIfItRests(base, ticks, mode, n)
  }

  ghost function InMode(base: nat, ticks: nat, mode: StpMode): Lasting {
    (b: Book, m: StpMode) => OrderlyIn(b, base, ticks) && m == mode
  }

  lemma GrouplessNeverStops(mode: StpMode, makers: seq<Order>, stp: Option<nat>)
    requires Unimpeded(mode, stp)
    ensures !StopsShort(mode, makers, stp)
  {
    if stp.None? {
      GrouplessReachesAll(makers);
    }
  }

  lemma ClearOrdersSuffice(base: nat, ticks: nat, capacity: nat, mode: StpMode, cmds: seq<Command>)
    requires AskedRun(NewEngine(base, ticks, capacity, mode), cmds, Clears(base, ticks, mode))
    ensures AllEnter(NewEngine(base, ticks, capacity, mode), cmds, GoesClear)
  {
    var e := NewEngine(base, ticks, capacity, mode);
    var (inv, p) := (InMode(base, ticks, mode), OfRequest(Clears(base, ticks, mode)));
    AskedEnter(e, cmds, Clears(base, ticks, mode));
    forall c, n ensures CarriesOn(inv, p, GoesClear, c, n) {
      if Bookable(n) && OrderlyIn(c.book, base, ticks) && c.mode == mode && ClearIfItRests(base, ticks, mode, n) {
        EnterExact(c, n);
        if Rests(n) {
          GrouplessNeverStops(mode, Route(c.book, TakerOf(n)), n.stpGroup);
        } else {
          RouteStarts(c.book, TakerOf(n));
        }
      }
    }
    forall b, m, id ensures Loses(inv, b, m, id) {
      if Resting(b, id) && OrderlyIn(b, base, ticks) {
        RemoveOrderly(b, id);
      }
    }
    assert OrderlyIn(e.core.book, base, ticks);
    BookCarried(inv, p, GoesClear);
    RunCarried(OfBook(inv), p, GoesClear, e, cmds);
  }
}
