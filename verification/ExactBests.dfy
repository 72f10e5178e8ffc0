/** Exactly when the cached bests are the true ones: after whatever enters a
    well-formed book whose bests were exact, and throughout every run. */
module ExactBests {
  import opened Types
  import opened BookSpec
  import opened BookFacts
  import opened BestPrices
  import opened EngineSpec
  import opened EngineFacts
  import opened EngineRuns
  import opened Rounds
  import opened Routes
  import opened Greedy
  import opened Entries
  import opened Entering

  /* ---- What a match does to the bests ---- */

  /** Prices only go, and with the first that goes the best is what a refresh finds. */
  ghost predicate BestFollows(b: Book, b': Book, side: Side) {
    var prices, prices' := Prices(b.queues, side), Prices(b'.queues, side);
    && b'.base == b.base && b'.ticks == b.ticks && prices' <= prices
    && b'.Of(side).best == if prices' == prices then b.Of(side).best else Refreshed(side, b.base, b.ticks, prices')
  }

  /** The other side is as it was. */
  ghost predicate SideStays(b: Book, b': Book, side: Side) {
    Prices(b'.queues, side) == Prices(b.queues, side) && b'.Of(side).best == b.Of(side).best
  }

  lemma RequeuedFollows(b: Book, b': Book, pl: Place, q: seq<Order>)
    requires Requeued(b, b', pl, q) && pl in b.queues && b.Of(pl.side).best == Some(pl.price)
    ensures BestFollows(b, b', pl.side)
  {
    if q == [] {
      assert Prices(b'.queues, pl.side) == Prices(b.queues, pl.side) - {pl.price};
      assert pl.price in Prices(b.queues, pl.side);
    } else {
      assert Prices(b'.queues, pl.side) == Prices(b.queues, pl.side);
    }
  }

  lemma RequeuedStays(b: Book, b': Book, pl: Place, q: seq<Order>, side: Side)
    requires Requeued(b, b', pl, q) && pl in b.queues && pl.side != side && b'.Of(side).best == b.Of(side).best
    ensures SideStays(b, b', side)
  {
    forall p ensures p in Prices(b'.queues, side) <==> p in Prices(b.queues, side) {
      assert Place(side, p) != pl;
    }
  }

  /** The maker at the best of one side was taken from. */
  ghost predicate Follows(b: Book, b': Book, side: Side) {
    BestFollows(b, b', side.Opposite()) && SideStays(b, b', side)
  }

  lemma FollowsOn(b: Book, b1: Book, b2: Book, side: Side)
    requires Follows(b, b1, side) && Follows(b1, b2, side)
    ensures Follows(b, b2, side)
  {
  }

  lemma FollowsSame(b: Book, b': Book, b'': Book, side: Side)
    requires Follows(b, b', side) && b''.queues == b'.queues && b''.base == b'.base && b''.ticks == b'.ticks
    requires b''.bids.best == b'.bids.best && b''.asks.best == b'.asks.best
    ensures Follows(b, b'', side)
  {
  }

  /** What a maker at the head of the best opposing level leaves of the bests. */
  lemma MakerFollows(b: Book, t: Taker, x: nat)
    requires Shape(b) && Route(b, t) != []
    ensures var m := Route(b, t)[0];
            && Resting(b, m.id) && Follows(b, Remove(b, m.id), t.side)
            && Follows(b, FillOrder(b, m.id, x), t.side) && Follows(b, Reduce(b, m.id, x), t.side)
  {
    FirstOnRoute(b, t);
    RouteStarts(b, t);
    var m := Route(b, t)[0];
    var pl := b.ids[m.id];
    HeadTaken(b, m, x);
    var (gone, less) := (b.queues[pl][1..], [m.(filled := m.filled + x)] + b.queues[pl][1..]);
    RequeuedFollows(b, Remove(b, m.id), pl, gone);
    RequeuedStays(b, Remove(b, m.id), pl, gone, t.side);
    RequeuedFollows(b, FillOrder(b, m.id, x), pl, less);
    RequeuedStays(b, FillOrder(b, m.id, x), pl, less, t.side);
    RequeuedFollows(b, Reduce(b, m.id, x), pl, less);
    RequeuedStays(b, Reduce(b, m.id, x), pl, less, t.side);
  }

  lemma TradeFollows(c: Core, t: Taker, rem: nat, x: nat)
    requires Shape(c.book) && Route(c.book, t) != [] && x <= rem && x <= Route(c.book, t)[0].Remaining()
    ensures var m := Route(c.book, t)[0]; Resting(c.book, m.id) && Follows(c.book, TradeOf(c, t, rem, m, x).book, t.side)
  {
    FirstOnRoute(c.book, t);
    MakerFollows(c.book, t, x);
    var m := Route(c.book, t)[0];
    LeftAfter(m, x);
    if x == m.Remaining() {
      WholeFillRemoves(c.book, m.id, x);
      FollowsSame(c.book, Remove(c.book, m.id), Remove(FillOrder(c.book, m.id, x), m.id), t.side);
    }
  }

  lemma Unmoved(b: Book, side: Side)
    ensures Follows(b, b, side)
  {
  }

  lemma PreventionFollows(c: Core, t: Taker, rem: nat)
    requires Shape(c.book) && Route(c.book, t) != []
    ensures var m := Route(c.book, t)[0];
            && Resting(c.book, m.id) && Follows(c.book, CancelMaker(c, m).book, t.side)
            && Follows(c.book, Decrement(c, t, rem, m).book, t.side)
  {
    MakerFollows(c.book, t, Min(rem, Route(c.book, t)[0].Remaining()));
  }

  lemma RoundFollows(c: Core, t: Taker, rem: nat)
    requires Shape(c.book)
    ensures Follows(c.book, MatchRound(c, t, rem).c.book, t.side)
  {
    FirstOnRoute(c.book, t);
    if Route(c.book, t) == [] {
      Unmoved(c.book, t.side);
    } else {
      MeetingFollows(c, t, rem, Route(c.book, t)[0]);
    }
  }

  /** Whatever a round does with the first maker on the route. */
  lemma MeetingFollows(c: Core, t: Taker, rem: nat, m: Order)
    requires Shape(c.book) && Route(c.book, t) != [] && m == Route(c.book, t)[0] && FirstMaker(c.book, t.side.Opposite()) == Some(m)
    ensures Follows(c.book, MatchRound(c, t, rem).c.book, t.side)
  {
    RoundCases(c, t, rem);
    Unmoved(c.book, t.side);
    MakerFollows(c.book, t, 0);
    PreventionFollows(c, t, rem);
    TradeFollows(c, t, rem, Min(rem, MatchableQty(m)));
  }

  lemma {:induction false} MatchFollows(c: Core, t: Taker, rem: nat, r: Round)
    requires Shape(c.book) && r == Match(c, t, rem)
    ensures Follows(c.book, r.c.book, t.side)
    decreases rem + |c.book.ids|
  {
    if rem == 0 {
      Unmoved(c.book, t.side);
    } else {
      var first := MatchRound(c, t, rem);
      RoundFollows(c, t, rem);
      if first.Again? {
        RoundProgresses(c, t, rem);
        RoundKeepsShape(c, t, rem);
        MatchFollows(first.c, t, first.rem, r);
        FollowsOn(c.book, first.c.book, r.c.book, t.side);
      }
    }
  }

  /* ---- Which prices go ---- */

  /** The prices on the route at which nothing is left. */
  ghost function Emptied(b: Book, t: Taker, makers: seq<Order>): set<nat> {
    set p | p in Prices(b.queues, t.side.Opposite()) && OnRoute(Route(b, t), p) && !OnRoute(makers, p)
  }

  lemma {:induction false} RouteFromRests(base: nat, ticks: nat, queues: Queues, best: Option<nat>, t: Taker, p: nat)
    requires forall pl :: pl in queues ==> AllAt(queues[pl], pl.price)
    requires OnRoute(RouteFrom(base, ticks, queues, best, t), p)
    ensures Place(t.side.Opposite(), p) in queues && Acceptable(t.side, t.price, p)
    decreases |queues|
  {
    var opp := t.side.Opposite();
    var pl := Place(opp, best.value);
    FewerLevels(queues, pl);
    var onward := RouteFrom(base, ticks, queues - {pl}, Refreshed(opp, base, ticks, Prices(queues - {pl}, opp)), t);
    OnEither(queues[pl], onward, p);
    if OnRoute(onward, p) {
      RouteFromRests(base, ticks, queues - {pl}, Refreshed(opp, base, ticks, Prices(queues - {pl}, opp)), t, p);
    }
  }

  /** What is on the route rests at its price. */
  lemma RouteRests(b: Book, t: Taker, p: nat)
    requires Shape(b) && OnRoute(Route(b, t), p)
    ensures p in Prices(b.queues, t.side.Opposite()) && Acceptable(t.side, t.price, p)
  {
    forall pl | pl in b.queues ensures AllAt(b.queues[pl], pl.price) {
      assert QueueOk(pl, b.queues[pl], b.ids);
    }
    RouteFromRests(b.base, b.ticks, b.queues, b.Of(t.side.Opposite()).best, t, p);
  }

  lemma LevelStays(b: Book, b': Book, pl: Place)
    requires Shape(b) && Shape(b') && QueueAt(b'.queues, pl) == QueueAt(b.queues, pl)
    ensures pl in b'.queues <==> pl in b.queues
  {
    assert pl in b.queues ==> QueueOk(pl, b.queues[pl], b.ids);
    assert pl in b'.queues ==> QueueOk(pl, b'.queues[pl], b'.ids);
  }

  lemma PriceLeft(b: Book, b': Book, t: Taker, makers: seq<Order>, p: nat)
    requires Shape(b) && Shape(b') && Leaves(b, b', t, makers) && BestFollows(b, b', t.side.Opposite())
    ensures p in Prices(b'.queues, t.side.Opposite())
        <==> p in Prices(b.queues, t.side.Opposite()) && p !in Emptied(b, t, makers)
  {
    var pl := Place(t.side.Opposite(), p);
    if !Acceptable(t.side, t.price, p) || pl in Hidden(b, t) {
      LevelStays(b, b', pl);
      if OnRoute(Route(b, t), p) {
        RouteRests(b, t, p);
      }
    } else if OnRoute(makers, p) {
      RouteRests(b', t, p);
    } else {
      assert pl !in Hidden(b', t);
    }
  }

  lemma PricesLeft(b: Book, b': Book, t: Taker, makers: seq<Order>)
    requires Shape(b) && Shape(b') && Leaves(b, b', t, makers) && BestFollows(b, b', t.side.Opposite())
    ensures Prices(b'.queues, t.side.Opposite()) == Prices(b.queues, t.side.Opposite()) - Emptied(b, t, makers)
  {
    forall p ensures p in Prices(b'.queues, t.side.Opposite())
                 <==> p in Prices(b.queues, t.side.Opposite()) - Emptied(b, t, makers) {
      PriceLeft(b, b', t, makers, p);
    }
  }

  /* ---- Orders that enter ---- */

  /** No price on the order's route empties, or a refresh looks right without those that do. */
  ghost predicate MatchLooksRight(c: Core, n: Request) {
    !NeverMatches(c, n) ==>
      var (b, t) := (c.book, TakerOf(n));
      var gone := Emptied(b, t, Consume(c.mode, Route(b, t), n.stpGroup, n.qty).makers);
      var opp := t.side.Opposite();
      gone == {} || LooksRight(opp, b.base, b.ticks, Prices(b.queues, opp) - gone)
  }

  ghost predicate SideExact(b: Book, side: Side) {
    b.Of(side).best == BestOf(side, Prices(b.queues, side))
  }

  lemma MatchIsExact(b: Book, b': Book, t: Taker, makers: seq<Order>)
    requires Shape(b) && Shape(b') && ExactBest(b) && Leaves(b, b', t, makers) && Follows(b, b', t.side)
    ensures var (gone, opp) := (Emptied(b, t, makers), t.side.Opposite());
            ExactBest(b') <==> gone == {} || LooksRight(opp, b.base, b.ticks, Prices(b.queues, opp) - gone)
  {
    var opp := t.side.Opposite();
    PricesLeft(b, b', t, makers);
    RefreshIsExact(opp, b.base, b.ticks, Prices(b'.queues, opp));
    assert SideExact(b, Bid) && SideExact(b, Ask);
    assert ExactBest(b') <==> SideExact(b', t.side) && SideExact(b', opp);
    if Emptied(b, t, makers) != {} {
      var p :| p in Emptied(b, t, makers);
      assert p in Prices(b.queues, opp) && p !in Prices(b'.queues, opp);
    }
  }

  /** Booking an order leaves the bests as exact as they were, if its own side's was. */
  lemma InsertIsExact(b: Book, o: Order)
    requires SideExact(b, o.side)
    ensures ExactBest(Insert(b, o)) <==> ExactBest(b)
  {
    var pl := Place(o.side, o.price);
    PricesInsert(b.queues, pl, QueueAt(b.queues, pl) + [o]);
    ImprovedIsExact(o.side, Prices(b.queues, o.side), b.Of(o.side).best, o.price);
    assert o.side.Bid? || o.side.Ask?;
  }

  lemma RestedIsExact(c: Core, n: Request, qty: nat)
    requires SideExact(c.book, n.side)
    ensures ExactBest(Rested(c, n, qty).book) <==> ExactBest(c.book)
  {
    InsertIsExact(c.book, Booked(n.id, n.side, n.price, qty, n.orderType, n.visible, n.stpGroup));
  }

  lemma SettleIsExact(c: Core, n: Request, rem: nat, cancel: bool)
    requires SideExact(c.book, n.side)
    ensures ExactBest(Settle(c, n, rem, cancel).book) <==> ExactBest(c.book)
  {
    RestedIsExact(c, n, rem);
  }

  /** Whatever enters a well-formed book with exact bests, at any price, leaves them exact exactly when its match looks right. */
  lemma EnterIsExact(c: Core, n: Request)
    requires Shape(c.book) && ExactBest(c.book)
    ensures ExactBest(Enter(c, n).book) <==> MatchLooksRight(c, n)
  {
    if n.orderType.PostOnly? {
      RestedIsExact(Accepted(c, n), n, n.qty);
    } else if Rejection(c, n).None? {
      var (a, t) := (Accepted(c, n), TakerOf(n));
      var r := Match(a, t, n.qty);
      MatchFollows(a, t, n.qty, r);
      MatchKeepsShape(a, t, n.qty, r);
      MatchIsGreedy(a, t, n.qty, r);
      MatchIsExact(c.book, r.c.book, t, Consume(c.mode, Route(c.book, t), n.stpGroup, n.qty).makers);
      SettleIsExact(r.c, n, r.rem, r.cancel);
    }
  }

  /* ---- Runs ---- */

  ghost predicate ShapedExact(b: Book, mode: StpMode) {
    Shape(b) && ExactBest(b)
  }

  ghost predicate EnterStaysExact(c: Core, n: Request) {
    ExactBest(Enter(c, n).book)
  }

  /** A condition on a removal. */
  type Leaving = (Book, nat) -> bool

  ghost predicate RemovalStaysExact(b: Book, id: nat) {
    Resting(b, id) ==> ExactBest(Remove(b, id))
  }

  ghost predicate LeavesRightly(b: Book, id: nat) {
    Resting(b, id) ==> RemovalLooksRight(b, id)
  }

  /** The conditions hold of every order that enters with a command and of the order that it takes off the book. */
  ghost predicate OneStep(e: Engine, cmd: Command, p: Check, l: Leaving) {
    && (!cmd.NewOrder? ==> l(e.core.book, cmd.id))
    && AllObey(e, cmd, p)
    && AllDrain(Obey(e, cmd), p)
  }

  ghost predicate EachStep(e: Engine, cmds: seq<Command>, p: Check, l: Leaving)
    decreases |cmds|
  {
    cmds != [] ==> OneStep(e, cmds[0], p, l) && EachStep(Process(e, cmds[0]), cmds[1..], p, l)
  }

  /** The cached bests are exact after every order that entered or left the book. */
  ghost predicate ExactThroughout(e: Engine, cmds: seq<Command>) {
    EachStep(e, cmds, EnterStaysExact, RemovalStaysExact)
  }

  /** Every match, cancellation and withdrawal looks right. */
  ghost predicate LooksRightThroughout(e: Engine, cmds: seq<Command>) {
    EachStep(e, cmds, MatchLooksRight, LeavesRightly)
  }

  /** From one condition on a removal to the other, and to exact bests. */
  ghost predicate Switches(l: Leaving, m: Leaving, b: Book, id: nat) {
    Shape(b) && ExactBest(b) && l(b, id) ==>
      m(b, id) && (Resting(b, id) ==> Shape(Remove(b, id)) && ExactBest(Remove(b, id)))
  }

  ghost predicate Switched(l: Leaving, m: Leaving) {
    forall b, id {:trigger Switches(l, m, b, id)} :: Switches(l, m, b, id)
  }

  lemma LeavingSwitches()
    ensures Switched(RemovalStaysExact, LeavesRightly) && Switched(LeavesRightly, RemovalStaysExact)
  {
    forall b, id ensures Switches(RemovalStaysExact, LeavesRightly, b, id) && Switches(LeavesRightly, RemovalStaysExact, b, id) {
      if Shape(b) && ExactBest(b) && Resting(b, id) {
        RemovalIsExact(b, id);
        RemoveKeepsShape(b, id);
      }
    }
  }

  lemma ExactEnters()
    ensures Entered(OfBook(ShapedExact), EnterStaysExact, MatchLooksRight)
    ensures Entered(OfBook(ShapedExact), MatchLooksRight, EnterStaysExact)
  {
    forall c, n ensures CarriesOn(ShapedExact, EnterStaysExact, MatchLooksRight, c, n)
                     && CarriesOn(ShapedExact, MatchLooksRight, EnterStaysExact, c, n) {
      if Bookable(n) && ShapedExact(c.book, c.mode) {
        EnterIsExact(c, n);
        EnterKeepsShape(c, n);
      }
    }
    BookEntered(ShapedExact, EnterStaysExact, MatchLooksRight);
    BookEntered(ShapedExact, MatchLooksRight, EnterStaysExact);
  }

  /** One command, from one pair of conditions to the other. */
  lemma ObeyExactly(p: Check, q: Check, e: Engine, cmd: Command)
    requires Entered(OfBook(ShapedExact), p, q) && Stands(OfBook(ShapedExact), e) && AllObey(e, cmd, p)
    requires !cmd.NewOrder? && Resting(e.core.book, cmd.id) ==> ShapedExact(Remove(e.core.book, cmd.id), e.core.mode)
    ensures AllObey(e, cmd, q) && Stands(OfBook(ShapedExact), Obey(e, cmd))
  {
    var inv := OfBook(ShapedExact);
    match cmd
    case NewOrder(_, _, _, _, _, orderType, _, _, stopPrice, _) =>
      if orderType.StopLimit? {
        PlaceStopStands(inv, p, q, e, RequestOf(cmd), if stopPrice.Some? then Some(stopPrice.value) else None);
      } else {
        assert Carries(inv, p, q, e.core, RequestOf(cmd));
      }
    case CancelOrder(id) =>
      RejectStands(inv, p, q, e.core, id, OrderNotFound);
    case ModifyOrder(id, newPrice, newQty) =>
      RejectStands(inv, p, q, e.core, id, OrderNotFound);
      if Resting(e.core.book, id) {
        assert Carries(inv, p, q, Withdraw(e.core, id, newPrice, newQty), Replacement(e.core, id, newPrice, newQty));
      }
  }

  lemma StepExactly(p: Check, l: Leaving, q: Check, m: Leaving, e: Engine, cmd: Command, e': Engine)
    requires Entered(OfBook(ShapedExact), p, q) && Switched(l, m)
    requires Stands(OfBook(ShapedExact), e) && OneStep(e, cmd, p, l) && e' == Process(e, cmd)
    ensures OneStep(e, cmd, q, m) && Stands(OfBook(ShapedExact), e')
  {
    assert ShapedExact(e.core.book, e.core.mode);
    if !cmd.NewOrder? {
      assert Switches(l, m, e.core.book, cmd.id);
    }
    ObeyExactly(p, q, e, cmd);
    DrainCarried(OfBook(ShapedExact), p, q, Obey(e, cmd));
  }

  lemma {:induction false} StepsExactly(p: Check, l: Leaving, q: Check, m: Leaving, e: Engine, cmds: seq<Command>)
    requires Entered(OfBook(ShapedExact), p, q) && Switched(l, m)
    requires Stands(OfBook(ShapedExact), e) && EachStep(e, cmds, p, l)
    ensures EachStep(e, cmds, q, m) && Stands(OfBook(ShapedExact), Run(e, cmds))
    decreases |cmds|
  {
    if cmds != [] {
      StepExactly(p, l, q, m, e, cmds[0], Process(e, cmds[0]));
      StepsExactly(p, l, q, m, Process(e, cmds[0]), cmds[1..]);
    }
  }

  /** Every run of any commands, in every mode: the cached bests are the true ones throughout exactly when every match,
      cancellation and withdrawal looks right; then they are after it. */
  lemma BestsAreExactly(base: nat, ticks: nat, capacity: nat, mode: StpMode, cmds: seq<Command>)
    ensures var e := NewEngine(base, ticks, capacity, mode);
            && (ExactThroughout(e, cmds) <==> LooksRightThroughout(e, cmds))
            && (LooksRightThroughout(e, cmds) ==> ExactBest(Run(e, cmds).core.book))
  {
    var e := NewEngine(base, ticks, capacity, mode);
    assert ShapedExact(e.core.book, mode);
    ExactEnters();
    LeavingSwitches();
    if ExactThroughout(e, cmds) {
      StepsExactly(EnterStaysExact, RemovalStaysExact, MatchLooksRight, LeavesRightly, e, cmds);
    }
    if LooksRightThroughout(e, cmds) {
      StepsExactly(MatchLooksRight, LeavesRightly, EnterStaysExact, RemovalStaysExact, e, cmds);
      assert ShapedExact(Run(e, cmds).core.book, Run(e, cmds).core.mode);
    }
  }
}
