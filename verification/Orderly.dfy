/** When the cached bests are exact: through matching, new orders, stop cascades,
    cancels and modifications, as long as nothing rests beyond the window's far
    end. */
module OrderlyBooks {
  import opened Types
  import opened BookSpec
  import opened BookFacts
  import opened BestPrices
  import opened EngineSpec
  import opened EngineRuns
  import opened Entering

  /** Well formed, facing, with exact best prices. */
  ghost predicate Orderly(b: Book) {
    Shape(b) && Facing(b) && ExactBest(b)
  }

  /** `b'` has the window of `b`, and ids and orders only where `b` has some. */
  ghost predicate Within(b': Book, b: Book) {
    && b'.base == b.base && b'.ticks == b.ticks && b'.ids.Keys <= b.ids.Keys
    && forall pl :: pl in b'.queues ==> pl in b.queues
  }

  lemma WithinKeepsUncrossed(b': Book, b: Book)
    requires Within(b', b) && Uncrossed(b)
    ensures Uncrossed(b')
  {
  }

  lemma RemoveOrderly(b: Book, id: nat)
    requires Orderly(b) && id in b.ids
    ensures Resting(b, id) && Orderly(Remove(b, id)) && Within(Remove(b, id), b)
  {
    RemoveKeepsShape(b, id);
    RemoveKeepsBest(b, id);
  }

  lemma FillOrderly(b: Book, id: nat, delta: nat)
    requires Orderly(b) && id in b.ids
    ensures Resting(b, id)
    ensures Orderly(FillOrder(b, id, delta)) && Within(FillOrder(b, id, delta), b)
    ensures Orderly(Reduce(b, id, delta)) && Within(Reduce(b, id, delta), b)
  {
    FillKeepsShape(b, id, delta);
    ReduceKeepsShape(b, id, delta);
    FillKeepsBest(b, id, delta);
  }

  /** The book stays orderly and within itself. */
  ghost predicate Shrinks(c: Core, c': Core) {
    Orderly(c'.book) && Within(c'.book, c.book) && c'.mode == c.mode
  }

  lemma TradeOrderly(c: Core, t: Taker, rem: nat, m: Order, qty: nat)
    requires Orderly(c.book) && Resting(c.book, m.id) && qty <= rem
    ensures Shrinks(c, TradeOf(c, t, rem, m, qty))
  {
    FillOrderly(c.book, m.id, qty);
    RemoveOrderly(FillOrder(c.book, m.id, qty), m.id);
  }

  lemma PreventionOrderly(c: Core, t: Taker, rem: nat, m: Order)
    requires Orderly(c.book) && Resting(c.book, m.id)
    ensures Shrinks(c, CancelMaker(c, m)) && Shrinks(c, Decrement(c, t, rem, m))
    ensures Shrinks(c, c.(book := Remove(c.book, m.id)))
  {
    RemoveOrderly(c.book, m.id);
    FillOrderly(c.book, m.id, Min(rem, m.Remaining()));
  }

  lemma RoundOrderly(c: Core, t: Taker, rem: nat)
    requires Orderly(c.book)
    ensures Shrinks(c, MatchRound(c, t, rem).c)
  {
    RoundCases(c, t, rem);
    var first := FirstMaker(c.book, t.side.Opposite());
    if first.Some? {
      PreventionOrderly(c, t, rem, first.value);
      TradeOrderly(c, t, rem, first.value, Min(rem, MatchableQty(first.value)));
    }
  }

  /** A taker that can be stopped only by price or by the end of the book. */
  predicate Unimpeded(mode: StpMode, stp: Option<nat>) {
    !mode.CancelNewest? || stp.None?
  }

  /** Matching keeps the book orderly, and a taker with something left no longer crosses it. */
  lemma {:induction false} MatchOrderly(c: Core, t: Taker, rem: nat)
    requires Orderly(c.book)
    ensures var r := Match(c, t, rem);
            && Shrinks(c, r.c)
            && (r.rem > 0 && !r.cancel && Unimpeded(c.mode, t.stp) ==> !WouldCross(r.c.book, t.side, t.price))
    decreases rem + |c.book.ids|
  {
    if rem > 0 {
      var r := MatchRound(c, t, rem);
      RoundOrderly(c, t, rem);
      if r.Again? {
        RoundProgresses(c, t, rem);
        MatchOrderly(r.c, t, r.rem);
      } else {
        FirstMakerFacts(c.book, t.side.Opposite());
      }
    }
  }

  /** Resting an order keeps the cached bests exact, and the book facing if its price does. */
  lemma InsertOrderly(b: Book, o: Order)
    requires Orderly(b) && o.price < U64_LIMIT
    ensures Shape(Insert(b, o)) && ExactBest(Insert(b, o))
    ensures FacingPrice(b, o.side, o.price) ==> Facing(Insert(b, o))
  {
    InsertKeepsShape(b, o);
    InsertKeepsBest(b, o);
  }

  /** The cached bests are exact, in the window that was. */
  ghost predicate StaysExact(b: Book, b': Book) {
    Shape(b') && ExactBest(b') && b'.base == b.base && b'.ticks == b.ticks
  }

  lemma RestedExact(c: Core, n: Request, qty: nat)
    requires Orderly(c.book) && Bookable(n)
    ensures StaysExact(c.book, Rested(c, n, qty).book) && Rested(c, n, qty).mode == c.mode
    ensures !Beyond(n.side, c.book.base, c.book.ticks, n.price) ==> Facing(Rested(c, n, qty).book)
  {
    InsertOrderly(c.book, Booked(n.id, n.side, n.price, qty, n.orderType, n.visible, n.stpGroup));
  }

  lemma SettleExact(c: Core, n: Request, rem: nat, cancel: bool)
    requires Orderly(c.book) && Bookable(n)
    ensures StaysExact(c.book, Settle(c, n, rem, cancel).book) && Settle(c, n, rem, cancel).mode == c.mode
    ensures (Rests(n) ==> !Beyond(n.side, c.book.base, c.book.ticks, n.price)) ==> Facing(Settle(c, n, rem, cancel).book)
  {
    RestedExact(c, n, rem);
  }

  /** An order that may come to rest: post-only, or one whose remainder stays. */
  predicate MayRest(n: Request) {
    n.orderType.PostOnly? || Rests(n)
  }

  /** Whatever enters an orderly book leaves its cached bests exact, and leaves it facing if its price does, should it rest. */
  lemma EnterExact(c: Core, n: Request)
    requires Orderly(c.book) && Bookable(n)
    ensures StaysExact(c.book, Enter(c, n).book) && Enter(c, n).mode == c.mode
    ensures (MayRest(n) ==> !Beyond(n.side, c.book.base, c.book.ticks, n.price)) ==> Facing(Enter(c, n).book)
  {
    if n.orderType.PostOnly? {
      RestedExact(Accepted(c, n), n, n.qty);
    } else if Rejection(c, n).None? {
      MatchOrderly(Accepted(c, n), TakerOf(n), n.qty);
      var r := Match(Accepted(c, n), TakerOf(n), n.qty);
      SettleExact(r.c, n, r.rem, r.cancel);
    }
  }

  /* ---- Runs ---- */

  ghost predicate LeavesFacing(c: Core, n: Request) {
    Facing(Enter(c, n).book)
  }

  ghost predicate LeavesExact(c: Core, n: Request) {
    ExactBest(Enter(c, n).book)
  }

  /** Nothing rests beyond the window's far end after any order of the run has entered. */
  ghost predicate FacingRun(e: Engine, cmds: seq<Command>) {
    AllEnter(e, cmds, LeavesFacing)
  }

  ghost predicate OrderlyIn(b: Book, base: nat, ticks: nat) {
    Orderly(b) && b.base == base && b.ticks == ticks
  }

  ghost function OrderlyWindow(base: nat, ticks: nat): Lasting {
    (b: Book, mode: StpMode) => OrderlyIn(b, base, ticks)
  }

  lemma FacingCarries(base: nat, ticks: nat)
    ensures Carried(OfBook(OrderlyWindow(base, ticks)), LeavesFacing, LeavesExact)
  {
    var inv := OrderlyWindow(base, ticks);
    forall c, n ensures CarriesOn(inv, LeavesFacing, LeavesExact, c, n) {
      if Bookable(n) && OrderlyIn(c.book, base, ticks) {
        EnterExact(c, n);
      }
    }
    WindowSheds(base, ticks);
    BookCarried(inv, LeavesFacing, LeavesExact);
  }

  lemma WindowSheds(base: nat, ticks: nat)
    ensures forall b, mode, id {:trigger Loses(OrderlyWindow(base, ticks), b, mode, id)} ::
              Loses(OrderlyWindow(base, ticks), b, mode, id)
  {
    forall b, mode, id ensures Loses(OrderlyWindow(base, ticks), b, mode, id) {
      if Resting(b, id) && OrderlyIn(b, base, ticks) {
        RemoveOrderly(b, id);
      }
    }
  }

  lemma OrderlyRun(e: Engine, cmds: seq<Command>)
    requires Orderly(e.core.book) && StopsBookable(e.stopBids) && StopsBookable(e.stopAsks) && FacingRun(e, cmds)
    ensures AllEnter(e, cmds, LeavesExact) && Orderly(Run(e, cmds).core.book)
  {
    var (base, ticks) := (e.core.book.base, e.core.book.ticks);
    FacingCarries(base, ticks);
    RunCarried(OfBook(OrderlyWindow(base, ticks)), LeavesFacing, LeavesExact, e, cmds);
  }

  /** In every self-trade mode, throughout and after every run in which nothing comes to rest beyond the window's far end: the
      cached bests are the highest bid and the lowest ask, crossed or not. */
  lemma BestsAreExact(base: nat, ticks: nat, capacity: nat, mode: StpMode, cmds: seq<Command>)
    requires FacingRun(NewEngine(base, ticks, capacity, mode), cmds)
    ensures AllEnter(NewEngine(base, ticks, capacity, mode), cmds, LeavesExact)
    ensures Orderly(Run(NewEngine(base, ticks, capacity, mode), cmds).core.book)
  {
    OrderlyRun(NewEngine(base, ticks, capacity, mode), cmds);
  }

  /* ---- What a caller can check ---- */

  /** The order may not rest, or its price faces the window. */
  predicate FacesIfItRests(base: nat, ticks: nat, n: Request) {
    MayRest(n) ==> !Beyond(n.side, base, ticks, n.price)
  }

  ghost function Faces(base: nat, ticks: nat): Request -> bool {
    (n: Request) => FacesIfItRests(base, ticks, n)
  }

  lemma FacesCarry(base: nat, ticks: nat)
    ensures Carried(OfBook(OrderlyWindow(base, ticks)), OfRequest(Faces(base, ticks)), LeavesFacing)
  {
    var (inv, p) := (OrderlyWindow(base, ticks), OfRequest(Faces(base, ticks)));
    forall c, n ensures CarriesOn(inv, p, LeavesFacing, c, n) {
      if Bookable(n) && OrderlyIn(c.book, base, ticks) && FacesIfItRests(base, ticks, n) {
        EnterExact(c, n);
      }
    }
    WindowSheds(base, ticks);
    BookCarried(inv, p, LeavesFacing);
  }

  /** A run faces its window if every order that may rest does: bids priced below the window's end, asks not below its base. */
  lemma FacingPricesSuffice(base: nat, ticks: nat, capacity: nat, mode: StpMode, cmds: seq<Command>)
    requires AskedRun(NewEngine(base, ticks, capacity, mode), cmds, Faces(base, ticks))
    ensures FacingRun(NewEngine(base, ticks, capacity, mode), cmds)
  {
    var e := NewEngine(base, ticks, capacity, mode);
    AskedEnter(e, cmds, Faces(base, ticks));
    FacesCarry(base, ticks);
    assert OrderlyIn(e.core.book, base, ticks);
    RunCarried(OfBook(OrderlyWindow(base, ticks)), OfRequest(Faces(base, ticks)), LeavesFacing, e, cmds);
  }
}
