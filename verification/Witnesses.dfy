/** Runs of a new engine that reach the failing side of what holds only under a
    condition: a fill-or-kill order filled in part, a crossed book, a stale
    best price, and a command that does not fit the event buffer. */
module Witnesses {
  import opened Types
  import opened BookSpec
  import opened BookFacts
  import opened BestPrices
  import opened EngineSpec
  import opened EngineFacts
  import opened EngineRuns
  import opened Routes
  import opened Entering
  import opened OrderlyBooks
  import opened Priority
  import opened Crossing
  import opened Outcomes
  import opened Slicing
  import opened Budget
  import Steadiness
  import opened Tickers

  function Sell(id: u64, price: u64, qty: u64, group: Option<u32>): Command {
    NewOrder(id, 0, Ask, price, qty, Limit, GTC, None, None, group)
  }

  function Buy(id: u64, price: u64, qty: u64, tif: TimeInForce, group: Option<u32>): Command {
    NewOrder(id, 0, Bid, price, qty, Limit, tif, None, None, group)
  }

  /** An iceberg that shows one unit at a time. */
  function SellThin(id: u64, price: u64, qty: u64): Command {
    NewOrder(id, 0, Ask, price, qty, Iceberg, GTC, Some(1), None, None)
  }

  /** An engine with the window [100, 110) and room for four orders. */
  function Opening(mode: StpMode): Engine {
    NewEngine(100, 10, 4, mode)
  }

  /* ---- Steps ---- */

  lemma RunThree(e: Engine, x: Command, y: Command, z: Command)
    ensures Run(e, [x, y, z]) == Process(Process(Process(e, x), y), z)
  {
    assert [x, y, z][1..] == [y, z];
    RunTwo(Process(e, x), y, z);
  }

  lemma RunTwo(e: Engine, x: Command, y: Command)
    ensures Run(e, [x, y]) == Process(Process(e, x), y)
  {
    assert [x, y][1..] == [y] && [y][1..] == [];
    assert Run(Process(e, x), [y]) == Process(Process(e, x), y);
  }

  /** A new order that faces the window if it may rest. */
  predicate FacingOrder(base: nat, ticks: nat, cmd: Command) {
    cmd.NewOrder? && FacesIfItRests(base, ticks, AsEntered(RequestOf(cmd)))
  }

  lemma {:induction false} FacingOrdersAsked(e: Engine, cmds: seq<Command>, base: nat, ticks: nat)
    requires forall k :: 0 <= k < |cmds| ==> FacingOrder(base, ticks, cmds[k])
    ensures AskedRun(e, cmds, Faces(base, ticks))
    decreases |cmds|
  {
    if cmds != [] {
      assert FacingOrder(base, ticks, cmds[0]);
      FacingOrdersAsked(Process(e, cmds[0]), cmds[1..], base, ticks);
    }
  }

  /** A run of such orders ends sound and orderly. */
  lemma ReachesOrderly(mode: StpMode, cmds: seq<Command>)
    requires forall k :: 0 <= k < |cmds| ==> FacingOrder(100, 10, cmds[k])
    ensures Sound(Run(Opening(mode), cmds).core) && Orderly(Run(Opening(mode), cmds).core.book)
  {
    FacingOrdersAsked(Opening(mode), cmds, 100, 10);
    FacingPricesSuffice(100, 10, 4, mode, cmds);
    BestsAreExact(100, 10, 4, mode, cmds);
    NewEngineSound(100, 10, 4, mode);
    RunFacts(Opening(mode), cmds);
  }

  /** An engine without pending stops. */
  predicate Stopless(e: Engine) {
    e.stopBids == [] && e.stopAsks == []
  }

  /** An order that meets nobody rests. */
  lemma MeetsNobody(e: Engine, cmd: Command)
    requires Stopless(e) && cmd.NewOrder? && Rests(RequestOf(cmd)) && cmd.qty > 0 && cmd.id !in e.core.book.ids
    requires !WouldCross(e.core.book, cmd.side, cmd.price)
    ensures Process(e, cmd) == e.(core := Rested(Accepted(e.core, RequestOf(cmd)), RequestOf(cmd), cmd.qty))
  {
    var n := RequestOf(cmd);
    assert Match(Accepted(e.core, n), TakerOf(n), n.qty) == Done(Accepted(e.core, n), n.qty, false);
    NothingFires(Obey(e, cmd));
  }

  /** An order that takes all of the first maker and wants no more. */
  lemma MeetsItsEqual(e: Engine, cmd: Command, m: Order)
    requires Stopless(e) && cmd.NewOrder? && Rests(RequestOf(cmd)) && !SameGroup(RequestOf(cmd).stpGroup, m.stp)
    requires cmd.qty > 0 && cmd.id !in e.core.book.ids
    requires FirstMaker(e.core.book, cmd.side.Opposite()) == Some(m) && WouldCross(e.core.book, cmd.side, cmd.price)
    requires !m.orderType.Iceberg? && m.Remaining() == cmd.qty
    ensures Process(e, cmd) == e.(core := TradeOf(Accepted(e.core, RequestOf(cmd)), TakerOf(RequestOf(cmd)), cmd.qty, m, cmd.qty))
  {
    var n := RequestOf(cmd);
    var c := Accepted(e.core, n);
    var c' := TradeOf(c, TakerOf(n), n.qty, m, n.qty);
    assert MatchRound(c, TakerOf(n), n.qty) == Again(c', 0);
    assert Match(c', TakerOf(n), 0) == Done(c', 0, false);
    assert Match(c, TakerOf(n), n.qty) == Done(c', 0, false);
    NothingFires(Obey(e, cmd));
  }

  /** The order that a sell books. */
  function Offered(cmd: Command): Order
    requires cmd.NewOrder?
  {
    var n := RequestOf(cmd);
    Booked(n.id, n.side, n.price, n.qty, n.orderType, n.visible, n.stpGroup)
  }

  /** An engine with asks only, in the window [100, 110). */
  ghost predicate AsksOnly(e: Engine, mode: StpMode, notes: seq<Note>, queues: Queues, ids: map<nat, Place>, room: nat) {
    && Stopless(e) && e.core.mode == mode && e.core.notes == notes && e.core.book.bids.best.None?
    && e.core.book.queues == queues && e.core.book.ids == ids && e.core.book.room == room
    && e.core.book.base == 100 && e.core.book.ticks == 10
  }

  lemma OpeningIsEmpty(mode: StpMode)
    ensures AsksOnly(Opening(mode), mode, [], map[], map[], 4)
  {
  }

  /** Without bids and stops, a sell rests. */
  lemma SellRests(e: Engine, cmd: Command, mode: StpMode, notes: seq<Note>,
                  queues: Queues, ids: map<nat, Place>, room: nat, q: seq<Order>)
    requires AsksOnly(e, mode, notes, queues, ids, room) && room > 0
    requires cmd.NewOrder? && cmd.side.Ask? && Rests(RequestOf(cmd)) && cmd.qty > 0 && cmd.id !in ids
    requires q == QueueAt(queues, Place(Ask, cmd.price)) + [Offered(cmd)]
    ensures var pl := Place(Ask, cmd.price);
            var e' := Process(e, cmd);
            && AsksOnly(e', mode, notes, queues[pl := q], ids[cmd.id as nat := pl], room - 1)
            && e'.core.book.asks.best == Improved(Ask, e.core.book.asks.best, cmd.price)
            && e'.core.last == e.core.last
  {
    MeetsNobody(e, cmd);
  }

  /** The orders that a buy reaches at two neighbouring prices, all others being empty. */
  lemma TwoLevels(queues: Queues, t: Taker)
    requires t.side.Bid? && t.price > 0
    requires forall p: nat :: p < t.price - 1 ==> Place(Ask, p) !in queues
    ensures Crossable(queues, t) == QueueAt(queues, Place(Ask, t.price - 1)) + QueueAt(queues, Place(Ask, t.price))
  {
    AsksSkip(queues, 0, t.price - 1, t.price + 1);
    assert Asks(queues, t.price, t.price + 1) == QueueAt(queues, Place(Ask, t.price)) + [];
  }

  /* ---- A fill-or-kill order filled in part ---- */

  /** Ten offered, ten bought, one offered, all at one price. */
  function Traded10(): seq<Command> {
    [Sell(1, 105, 10, None), Buy(2, 105, 10, GTC, None), Sell(3, 105, 1, None)]
  }

  lemma {:induction false} TradedInHolds(notes: seq<Note>, side: Side, lo: nat, hi: nat, p: nat)
    requires lo <= p < hi
    ensures TradedIn(notes, side, lo, hi) >= TradedAt(notes, Place(side, p))
    decreases hi - lo
  {
    if p < hi - 1 {
      TradedInHolds(notes, side, lo, hi - 1, p);
    }
  }

  lemma AfterFirst(mode: StpMode)
    ensures var e := Process(Opening(mode), Sell(1, 105, 10, None));
            && AsksOnly(e, mode, [], map[Place(Ask, 105) := [Offered(Sell(1, 105, 10, None))]], map[1 := Place(Ask, 105)], 3)
            && e.core.book.asks.best == Some(105)
  {
    OpeningIsEmpty(mode);
    SellRests(Opening(mode), Sell(1, 105, 10, None), mode, [], map[], map[], 4, [Offered(Sell(1, 105, 10, None))]);
  }

  /** An order filled in full leaves an empty book. */
  lemma AllTaken(b: Book, o: Order)
    requires b.queues == map[Place(Ask, 105) := [o]] && b.ids == map[o.id := Place(Ask, 105)]
    ensures Resting(b, o.id) && Resting(FillOrder(b, o.id, 10), o.id)
    ensures var b' := Remove(FillOrder(b, o.id, 10), o.id); b'.queues == map[] && b'.ids == map[]
  {
    var o' := o.(filled := o.filled + 10);
    assert PositionOf([o], o.id) == 0 && PositionOf([o'], o.id) == 0;
    assert Filled([o], 0, 10) == [o'];
    assert FillOrder(b, o.id, 10).queues == map[Place(Ask, 105) := [o']];
    assert Without([o'], 0) == [];
  }

  lemma AfterSecond(mode: StpMode, e: Engine)
    requires e == Process(Opening(mode), Sell(1, 105, 10, None))
    ensures AsksOnly(Process(e, Buy(2, 105, 10, GTC, None)), mode, [Traded(Place(Ask, 105), 10)], map[], map[], 4)
  {
    var o := Offered(Sell(1, 105, 10, None));
    AfterFirst(mode);
    AllTaken(e.core.book, o);
    MeetsItsEqual(e, Buy(2, 105, 10, GTC, None), o);
  }

  lemma AfterThird(mode: StpMode)
    ensures AsksOnly(Run(Opening(mode), Traded10()), mode, [Traded(Place(Ask, 105), 10)],
                     map[Place(Ask, 105) := [Offered(Sell(3, 105, 1, None))]], map[3 := Place(Ask, 105)], 3)
  {
    var (a, b, c) := (Sell(1, 105, 10, None), Buy(2, 105, 10, GTC, None), Sell(3, 105, 1, None));
    OpeningIsEmpty(mode);
    AfterFirst(mode);
    AfterSecond(mode, Process(Opening(mode), a));
    SellRests(Process(Process(Opening(mode), a), b), c, mode, [Traded(Place(Ask, 105), 10)], map[], map[], 4, [Offered(c)]);
    RunThree(Opening(mode), a, b, c);
  }

  /** One offer at the one price where something was traded. */
  lemma HeldAndDrift(c: Core, t: Taker, o: Order, x: nat)
    requires t.side.Bid? && t.price > 0
    requires c.book.queues == map[Place(Ask, t.price) := [o]] && c.notes == [Traded(Place(Ask, t.price), x)]
    ensures Crossable(c.book.queues, t) == [o] && Drift(c, t) >= x
  {
    TwoLevels(c.book.queues, t);
    assert [] + [o] == [o];
    TradedInHolds(c.notes, Ask, 0, t.price + 1, t.price);
    assert TradedAt(c.notes, Place(Ask, t.price)) == x;
  }

  /** The order is filled with all but `left`, and cancelled with that. */
  ghost predicate FilledBut(c: Core, n: Request, left: nat) {
    Enter(c, n) == Emit(Match(Accepted(c, n), TakerOf(n), n.qty).c, OrderCancelled(0, n.id, left)) && !AllOrNothing(c, n)
  }

  lemma EndsInPart(c: Core, n: Request, matched: Round, after: Core, fillable: nat)
    requires matched.Done? && Ends(c, n, matched, after, false, false, fillable) && fillable < n.qty && n.stpGroup.None?
    ensures after == Emit(matched.c, OrderCancelled(0, n.id, n.qty - fillable))
  {
  }

  /** What the drift hides is what the order is not filled with. */
  lemma HiddenShortage(c: Core, n: Request, held: nat)
    requires Sound(c) && Orderly(c.book) && FillOrKill(c, n) && n.stpGroup.None?
    requires held == Total(Crossable(c.book.queues, TakerOf(n))) && held < n.qty <= held + Drift(c, TakerOf(n))
    ensures FilledBut(c, n, n.qty - held)
  {
    RouteIsSorted(c.book, TakerOf(n));
    GrouplessReachesAll(Crossable(c.book.queues, TakerOf(n)));
    FillOrKillOutcome(c, n);
    FillOrKillIsAllOrNothing(c, n);
    EndsInPart(c, n, Match(Accepted(c, n), TakerOf(n), n.qty), Enter(c, n), held);
  }

  lemma FilledInPart(c: Core, n: Request, o: Order, x: nat)
    requires Sound(c) && Orderly(c.book) && FillOrKill(c, n) && n.orderType.Limit? && n.side.Bid? && n.price > 0 && n.stpGroup.None?
    requires c.book.queues == map[Place(Ask, n.price) := [o]] && c.notes == [Traded(Place(Ask, n.price), x)]
    requires o.Remaining() < n.qty <= x
    ensures FilledBut(c, n, n.qty - o.Remaining())
  {
    HeldAndDrift(c, TakerOf(n), o, x);
    assert Total([o]) == o.Remaining();
    HiddenShortage(c, n, o.Remaining());
  }

  /** A fill-or-kill order for five. */
  function Killer(): Request {
    RequestOf(Buy(4, 105, 5, FOK, None))
  }

  lemma KillerFails(c: Core)
    requires Sound(c) && Orderly(c.book) && 4 !in c.book.ids && c.notes == [Traded(Place(Ask, 105), 10)]
    requires c.book.queues == map[Place(Ask, 105) := [Offered(Sell(3, 105, 1, None))]]
    ensures FillOrKill(c, Killer()) && FilledBut(c, Killer(), 4)
  {
    FilledInPart(c, Killer(), Offered(Sell(3, 105, 1, None)), 10);
  }

  /** In every mode there is a run after which this order is filled with one and cancelled with four. */
  lemma FillOrKillCanFail(mode: StpMode)
    ensures var (c, n) := (Run(Opening(mode), Traded10()).core, Killer());
            Sound(c) && Orderly(c.book) && FillOrKill(c, n) && FilledBut(c, n, 4)
  {
    AfterThird(mode);
    ReachesOrderly(mode, Traded10());
    KillerFails(Run(Opening(mode), Traded10()).core);
  }

  /* ---- A crossed book ---- */

  /** One offer of nobody's, and behind it one of the buyer's own group. */
  function OwnBehind(): seq<Command> {
    [Sell(1, 101, 1, None), Sell(2, 102, 1, Some(7))]
  }

  lemma AfterOwnBehind()
    ensures AsksOnly(Run(Opening(CancelNewest), OwnBehind()), CancelNewest, [],
                     map[Place(Ask, 101) := [Offered(Sell(1, 101, 1, None))],
                         Place(Ask, 102) := [Offered(Sell(2, 102, 1, Some(7)))]],
                     map[1 := Place(Ask, 101), 2 := Place(Ask, 102)], 2)
  {
    var (a, b) := (Sell(1, 101, 1, None), Sell(2, 102, 1, Some(7)));
    OpeningIsEmpty(CancelNewest);
    SellRests(Opening(CancelNewest), a, CancelNewest, [], map[], map[], 4, [Offered(a)]);
    var queues: Queues := map[Place(Ask, 101) := [Offered(a)]];
    assert map[][Place(Ask, 101) := [Offered(a)]] == queues;
    SellRests(Process(Opening(CancelNewest), a), b, CancelNewest, [], queues, map[1 := Place(Ask, 101)], 3, [Offered(b)]);
    RunTwo(Opening(CancelNewest), a, b);
  }

  lemma ReachOne(o1: Order, o2: Order, stp: Option<nat>)
    requires o2.Remaining() > 0 && !SameGroup(stp, o1.stp) && SameGroup(stp, o2.stp)
    ensures |Reach([o1, o2], stp)| == 1 && Total(Reach([o1, o2], stp)) == o1.Remaining()
  {
    assert [o1, o2][1..] == [o2];
    assert Reach([o2], stp) == [];
    assert Reach([o1, o2], stp) == [o1] + [];
  }

  /** What a buy of that group meets, and what of it in front of its own. */
  lemma OneInReach(queues: Queues, n: Request, o1: Order, o2: Order)
    requires n.side.Bid? && n.orderType.Limit? && n.price > 0 && o2.Remaining() > 0
    requires queues == map[Place(Ask, n.price - 1) := [o1], Place(Ask, n.price) := [o2]]
    requires !SameGroup(n.stpGroup, o1.stp) && SameGroup(n.stpGroup, o2.stp)
    ensures var makers := Crossable(queues, TakerOf(n));
            var reach := Reach(makers, n.stpGroup);
            |makers| == 2 && makers[0] == o1 && |reach| == 1 && Total(reach) == o1.Remaining()
  {
    TwoLevels(queues, TakerOf(n));
    assert Crossable(queues, TakerOf(n)) == [o1, o2];
    ReachOne(o1, o2, n.stpGroup);
  }

  lemma NotRejected(c: Core, n: Request)
    requires Orderly(c.book) && Bookable(n) && n.tif.GTC? && n.qty > 0 && n.id !in c.book.ids
    requires var makers := Crossable(c.book.queues, TakerOf(n)); makers != [] && !SameGroup(n.stpGroup, makers[0].stp)
    ensures Rejection(c, n).None?
  {
    RouteIsSorted(c.book, TakerOf(n));
    PreemptedFirst(c, n);
  }

  /** Under CancelNewest, a buy of that group takes the foreign offer, stops, and rests above its own. */
  lemma StoppedBuyCrosses(c: Core, n: Request, o1: Order, o2: Order)
    requires Orderly(c.book) && Uncrossed(c.book) && c.mode.CancelNewest?
    requires n.side.Bid? && n.orderType.Limit? && n.tif.GTC? && n.id !in c.book.ids && Bookable(n)
    requires 0 < n.price && n.qty > o1.Remaining() > 0 && o2.Remaining() > 0
    requires c.book.queues == map[Place(Ask, n.price - 1) := [o1], Place(Ask, n.price) := [o2]]
    requires !SameGroup(n.stpGroup, o1.stp) && SameGroup(n.stpGroup, o2.stp)
    ensures !Uncrossed(Enter(c, n).book)
  {
    OneInReach(c.book.queues, n, o1, o2);
    NotRejected(c, n);
    StoppingShortCrosses(c, n);
  }

  lemma OwnBehindCrosses(c: Core)
    requires Orderly(c.book) && c.mode.CancelNewest? && c.book.ids == map[1 := Place(Ask, 101), 2 := Place(Ask, 102)]
    requires c.book.queues == map[Place(Ask, 101) := [Offered(Sell(1, 101, 1, None))],
                                  Place(Ask, 102) := [Offered(Sell(2, 102, 1, Some(7)))]]
    ensures Uncrossed(c.book) && !Uncrossed(Enter(c, RequestOf(Buy(3, 102, 5, GTC, Some(7)))).book)
  {
    StoppedBuyCrosses(c, RequestOf(Buy(3, 102, 5, GTC, Some(7))),
                      Offered(Sell(1, 101, 1, None)), Offered(Sell(2, 102, 1, Some(7))));
  }

  lemma CancelNewestCanCross()
    ensures var e := Run(Opening(CancelNewest), OwnBehind());
            && Uncrossed(e.core.book) && Orderly(e.core.book)
            && !Uncrossed(Enter(e.core, RequestOf(Buy(3, 102, 5, GTC, Some(7)))).book)
  {
    AfterOwnBehind();
    ReachesOrderly(CancelNewest, OwnBehind());
    OwnBehindCrosses(Run(Opening(CancelNewest), OwnBehind()).core);
  }

  /* ---- A stale best price ---- */

  /** Two offers below the base and one in the window, and then the lowest is cancelled. */
  function BelowBase(): seq<Command> {
    [Sell(1, 94, 1, None), Sell(2, 95, 1, None), Sell(3, 105, 1, None)]
  }

  lemma AfterBelowBase(mode: StpMode)
    ensures var e := Run(Opening(mode), BelowBase());
            && AsksOnly(e, mode, [],
                        map[Place(Ask, 94) := [Offered(Sell(1, 94, 1, None))], Place(Ask, 95) := [Offered(Sell(2, 95, 1, None))],
                            Place(Ask, 105) := [Offered(Sell(3, 105, 1, None))]],
                        map[1 := Place(Ask, 94), 2 := Place(Ask, 95), 3 := Place(Ask, 105)], 1)
            && e.core.book.asks.best == Some(94)
  {
    var (x, y, z) := (Sell(1, 94, 1, None), Sell(2, 95, 1, None), Sell(3, 105, 1, None));
    OpeningIsEmpty(mode);
    SellRests(Opening(mode), x, mode, [], map[], map[], 4, [Offered(x)]);
    var e1 := Process(Opening(mode), x);
    var queues: Queues := map[Place(Ask, 94) := [Offered(x)]];
    assert map[][Place(Ask, 94) := [Offered(x)]] == queues;
    SellRests(e1, y, mode, [], queues, map[1 := Place(Ask, 94)], 3, [Offered(y)]);
    SellRests(Process(e1, y), z, mode, [], queues[Place(Ask, 95) := [Offered(y)]],
              map[1 := Place(Ask, 94), 2 := Place(Ask, 95)], 2, [Offered(z)]);
    RunThree(Opening(mode), x, y, z);
  }

  /** Cancelling the best of two sparse asks beside a dense one leaves the dense one as the cached best. */
  lemma CancelledBestIsStale(c: Core, o: Order, p: nat, q: seq<Order>, dense: nat, r: seq<Order>)
    requires var b := c.book; var pl := Place(Ask, o.price);
             && b.queues == map[pl := [o], Place(Ask, p) := q, Place(Ask, dense) := r]
             && o.id in b.ids && b.ids[o.id] == pl && b.asks.best == Some(o.price)
             && o.price < p < b.base <= dense < b.base + b.ticks
    ensures var b' := Cancel(c, o.id).book; Place(Ask, p) in b'.queues && p < dense && b'.asks.best == Some(dense) && !ExactBest(b')
  {
    var b, pl := c.book, Place(Ask, o.price);
    assert PositionOf([o], o.id) == 0 && Without([o], 0) == [];
    var queues := Requeue(b.queues, pl, []);
    assert Remove(b, o.id).queues == queues;
    var prices := Prices(queues, Ask);
    var inside := set x | x in prices && b.base <= x < b.base + b.ticks;
    assert dense in prices && inside == {dense};
    assert IsBest(Ask, inside, dense);
    assert p in prices;
  }

  /** Then the lowest ask rests at 95, and the cached best says 105. */
  lemma BestCanGoStale(mode: StpMode)
    ensures var b := Cancel(Run(Opening(mode), BelowBase()).core, 1).book;
            Place(Ask, 95) in b.queues && b.asks.best == Some(105) && !ExactBest(b)
  {
    AfterBelowBase(mode);
    CancelledBestIsStale(Run(Opening(mode), BelowBase()).core, Offered(Sell(1, 94, 1, None)),
                         95, [Offered(Sell(2, 95, 1, None))], 105, [Offered(Sell(3, 105, 1, None))]);
  }

  /** An order that the cached best would not cross rests above a level that this best hides. */
  lemma HiddenLevelCrosses(c: Core, n: Request, p: nat)
    requires Shape(c.book) && Uncrossed(c.book) && c.book.room > 0 && n.id !in c.book.ids
    requires n.side.Bid? && Rests(n) && n.orderType.Limit? && n.tif.GTC? && n.qty > 0 && n.stpGroup.None?
    requires Place(Ask, p) in c.book.queues && p <= n.price && !WouldCross(c.book, Bid, n.price)
    ensures !Uncrossed(Enter(c, n).book)
  {
    RouteStarts(c.book, TakerOf(n));
    assert Place(Ask, p) in Hidden(c.book, TakerOf(n));
    EnterCrosses(c, n);
  }

  lemma CancelShrinks(c: Core, id: nat)
    requires Shape(c.book) && Resting(c.book, id)
    ensures Shape(Cancel(c, id).book) && Within(Cancel(c, id).book, c.book) && Cancel(c, id).book.room == c.book.room + 1
  {
    RemoveKeepsShape(c.book, id);
  }

  lemma ShapeOfRun(mode: StpMode, cmds: seq<Command>)
    ensures Shape(Run(Opening(mode), cmds).core.book)
  {
    NewEngineSound(100, 10, 4, mode);
    RunFacts(Opening(mode), cmds);
  }

  lemma NoBidsUncrossed(b: Book)
    requires forall pl :: pl in b.queues ==> pl.side.Ask?
    ensures Uncrossed(b)
  {
  }

  /** The state after that cancellation. */
  lemma AfterCancel(c: Core, o: Order, q2: seq<Order>, q3: seq<Order>)
    requires Shape(c.book) && c.book.queues == map[Place(Ask, 94) := [o], Place(Ask, 95) := q2, Place(Ask, 105) := q3]
    requires 1 in c.book.ids && c.book.ids[1] == Place(Ask, 94) && 4 !in c.book.ids && o.id == 1 && o.price == 94
    requires c.book.asks.best == Some(94) && c.book.base == 100 && c.book.ticks == 10
    ensures var b := Cancel(c, 1).book;
            && Shape(b) && Uncrossed(b) && b.room > 0 && 4 !in b.ids && Place(Ask, 95) in b.queues && b.asks.best == Some(105)
  {
    RestingOrder(c.book, 1);
    CancelShrinks(c, 1);
    NoBidsUncrossed(Cancel(c, 1).book);
    CancelledBestIsStale(c, o, 95, q2, 105, q3);
  }

  lemma StaleThenCrossed(c: Core, o: Order, q2: seq<Order>, q3: seq<Order>, n: Request)
    requires Shape(c.book) && c.book.queues == map[Place(Ask, 94) := [o], Place(Ask, 95) := q2, Place(Ask, 105) := q3]
    requires 1 in c.book.ids && c.book.ids[1] == Place(Ask, 94) && 4 !in c.book.ids && o.id == 1 && o.price == 94
    requires c.book.asks.best == Some(94) && c.book.base == 100 && c.book.ticks == 10
    requires n == RequestOf(Buy(4, 100, 1, GTC, None))
    ensures Uncrossed(Cancel(c, 1).book) && !Uncrossed(Enter(Cancel(c, 1), n).book)
  {
    AfterCancel(c, o, q2, q3);
    HiddenLevelCrosses(Cancel(c, 1), n, 95);
  }

  /** In every mode a buy at 100 then rests above the offer at 95 that the stale best hides, and the book is crossed. */
  lemma StaleBestCanCross(mode: StpMode)
    ensures var c := Cancel(Run(Opening(mode), BelowBase()).core, 1);
            Uncrossed(c.book) && !Uncrossed(Enter(c, RequestOf(Buy(4, 100, 1, GTC, None))).book)
  {
    AfterBelowBase(mode);
    ShapeOfRun(mode, BelowBase());
    StaleThenCrossed(Run(Opening(mode), BelowBase()).core, Offered(Sell(1, 94, 1, None)), [Offered(Sell(2, 95, 1, None))],
                     [Offered(Sell(3, 105, 1, None))], RequestOf(Buy(4, 100, 1, GTC, None)));
  }

  /* ---- A full buffer ---- */

  lemma AfterThin(mode: StpMode)
    ensures AsksOnly(Process(Opening(mode), SellThin(1, 105, 32)), mode, [],
                     map[Place(Ask, 105) := [Offered(SellThin(1, 105, 32))]], map[1 := Place(Ask, 105)], 3)
  {
    var a := SellThin(1, 105, 32);
    OpeningIsEmpty(mode);
    SellRests(Opening(mode), a, mode, [], map[], map[], 4, [Offered(a)]);
    assert [a][1..] == [];
  }

  /** A buy of all that an iceberg has, one unit at a time. */
  lemma ThinOverflows(e: Engine, cmd: Command, o: Order)
    requires Orderly(e.core.book) && Stopless(e) && cmd.NewOrder? && cmd.orderType.Limit? && cmd.tif.GTC? && cmd.side.Bid?
    requires cmd.stpGroup.None? && cmd.price > 0 && cmd.id !in e.core.book.ids
    requires e.core.book.queues == map[Place(Ask, cmd.price) := [o]]
    requires o.orderType.Iceberg? && o.visible == 1 && 31 < cmd.qty <= o.Remaining()
    ensures Added(e, cmd) > MAX_EVENTS_PER_CALL
  {
    var n := RequestOf(cmd);
    TwoLevels(e.core.book.queues, TakerOf(n));
    assert [] + [o] == [o];
    RouteIsSorted(e.core.book, TakerOf(n));
    SlicesAreCounted(e.core.mode, [o], None, cmd.qty);
    assert SlicesOf(o, cmd.qty) == cmd.qty;
    NewOrderFits(e, cmd);
  }

  /** In every mode, a single iceberg offer of 32 that shows one unit at a time makes a buy of 32 write more events
      than one call holds. */
  lemma OneIcebergCanOverflow(mode: StpMode)
    ensures Added(Run(Opening(mode), [SellThin(1, 105, 32)]), Buy(2, 105, 32, GTC, None)) > MAX_EVENTS_PER_CALL
  {
    var a := SellThin(1, 105, 32);
    AfterThin(mode);
    assert [a][1..] == [];
    assert Run(Opening(mode), [a]) == Process(Opening(mode), a);
    ReachesOrderly(mode, [a]);
    ThinOverflows(Process(Opening(mode), a), Buy(2, 105, 32, GTC, None), Offered(a));
  }

  /* ---- An index entry that is gone ---- */

  /** A post-only offer of nothing, outside the window. */
  function PostNothing(id: u64): Command {
    NewOrder(id, 0, Ask, 200, 0, PostOnly, GTC, None, None, None)
  }

  lemma PostRests(e: Engine, cmd: Command)
    requires Stopless(e) && cmd.NewOrder? && cmd.orderType.PostOnly? && !WouldCross(e.core.book, cmd.side, cmd.price)
    requires !Refuses(e.core.book, cmd.id)
    ensures var e' := Process(e, cmd); Stopless(e') && e'.core.book == Insert(e.core.book, Offered(cmd))
  {
    NothingFires(Obey(e, cmd));
  }

  /** After two such orders and the cancellation of the first, the second cannot be taken off the index. */
  lemma SecondMisses(c: Core, b: Book, o1: Order, o2: Order)
    requires c.book == Insert(Insert(b, o1), o2)
    requires Shape(b) && b.room >= 2 && b.ids == map[] && b.queues == map[] && b.asks.index == map[] && o1.id != o2.id
    requires o1.side.Ask? && o2.side.Ask? && o1.price == o2.price < U64_LIMIT && o1.Remaining() == 0 && o2.Remaining() == 0
    requires !(b.base <= o1.price < b.base + b.ticks)
    ensures var left := Cancel(c, o1.id).book;
            && Resting(left, o2.id) && left.ids[o2.id] == Place(Ask, o2.price) && Rest(left, o2.id) == 0
            && !CanSub(left.base, left.ticks, left.asks.index, o2.price, 0)
  {
    Steadiness.ZeroQuantitiesBreakTheIndex(b, o1, o2);
    SecondIsEmpty(b, o1, o2);
  }

  lemma TwoPosts(e: Engine, x: Command, y: Command)
    requires Stopless(e) && x.NewOrder? && x.orderType.PostOnly? && y.NewOrder? && y.orderType.PostOnly?
    requires var b := Insert(e.core.book, Offered(x));
             && !WouldCross(e.core.book, x.side, x.price) && !Refuses(e.core.book, x.id)
             && !WouldCross(b, y.side, y.price) && !Refuses(b, y.id)
    ensures Run(e, [x, y]).core.book == Insert(Insert(e.core.book, Offered(x)), Offered(y))
  {
    PostRests(e, x);
    PostRests(Process(e, x), y);
    RunTwo(e, x, y);
  }

  lemma IndexCanMiss(mode: StpMode)
    ensures var b := Cancel(Run(Opening(mode), [PostNothing(1), PostNothing(2)]).core, 1).book;
            && Resting(b, 2) && b.ids[2] == Place(Ask, 200) && Rest(b, 2) == 0
            && !CanSub(b.base, b.ticks, b.asks.index, 200, 0)
  {
    TwoPosts(Opening(mode), PostNothing(1), PostNothing(2));
    SecondMisses(Run(Opening(mode), [PostNothing(1), PostNothing(2)]).core, Opening(mode).core.book,
                 Offered(PostNothing(1)), Offered(PostNothing(2)));
  }

  lemma SecondIsEmpty(b: Book, o1: Order, o2: Order)
    requires b.queues == map[] && b.ids == map[] && b.room >= 2 && o1.id != o2.id && o1.side == o2.side && o1.price == o2.price
    ensures var full := Insert(Insert(b, o1), o2);
            && Resting(full, o1.id) && Resting(Remove(full, o1.id), o2.id)
            && Remove(full, o1.id).ids[o2.id] == Place(o2.side, o2.price)
            && OrderOf(Remove(full, o1.id), o2.id) == o2
  {
    var pl := Place(o1.side, o1.price);
    var full := Insert(Insert(b, o1), o2);
    assert full.queues[pl] == [o1, o2];
    assert PositionOf([o1, o2], o1.id) == 0 && PositionOf([o2], o2.id) == 0;
    assert Without([o1, o2], 0) == [o2];
  }

  /* ---- A level that is not what its update says ---- */

  function SameLevel(): seq<Command> {
    [Sell(1, 105, 10, None), Sell(2, 105, 5, None)]
  }

  lemma RestingIsReported(e: Engine, cmd: Command)
    requires Stopless(e) && cmd.NewOrder? && Rests(RequestOf(cmd)) && cmd.qty > 0 && cmd.id !in e.core.book.ids
    requires !WouldCross(e.core.book, cmd.side, cmd.price)
    ensures LastReport(Process(e, cmd).core.log, Place(cmd.side, cmd.price)) == cmd.qty
  {
    MeetsNobody(e, cmd);
  }

  lemma AfterSameLevel(mode: StpMode, e: Engine, a: Command, b: Command)
    requires a == Sell(1, 105, 10, None) && b == Sell(2, 105, 5, None) && e == Process(Opening(mode), a)
    ensures AsksOnly(Process(e, b), mode, [], map[Place(Ask, 105) := [Offered(a), Offered(b)]],
                     map[1 := Place(Ask, 105), 2 := Place(Ask, 105)], 2)
    ensures LastReport(Process(e, b).core.log, Place(Ask, 105)) == 5
  {
    AfterFirst(mode);
    SellRests(e, b, mode, [], map[Place(Ask, 105) := [Offered(a)]], map[1 := Place(Ask, 105)], 3, [Offered(a), Offered(b)]);
    RestingIsReported(e, b);
  }

  /** In every mode: two offers of ten and of five at one price, and the level's last update says five. */
  lemma UpdatesCanBePartial(mode: StpMode)
    ensures var c := Run(Opening(mode), SameLevel()).core;
            LastReport(c.log, Place(Ask, 105)) == 5 && LevelQty(c.book, Place(Ask, 105)) == 15
  {
    var (a, b) := (Sell(1, 105, 10, None), Sell(2, 105, 5, None));
    AfterSameLevel(mode, Process(Opening(mode), a), a, b);
    RunTwo(Opening(mode), a, b);
    TotalOfTwo(Offered(a), Offered(b));
  }

  lemma TotalOfTwo(o1: Order, o2: Order)
    ensures Total([o1, o2]) == o1.Remaining() + o2.Remaining()
  {
    assert [o1, o2][1..] == [o2] && [o2][1..] == [];
    assert Total([o2]) == o2.Remaining() + Total([o2][1..]);
  }

  /* ---- A self-trade ---- */

  /** An offer under a group, modified to the same terms. */
  function ModifiedOffer(): seq<Command> {
    [Sell(1, 105, 10, Some(7)), ModifyOrder(1, 105, 10)]
  }

  /** A modified order that meets nobody rests again, without its group. */
  lemma ModifiedMeetsNobody(e: Engine, id: u64, newPrice: u64, newQty: u64)
    requires Stopless(e) && Shape(e.core.book) && Resting(e.core.book, id) && newQty > 0
    requires var (c, n) := (Withdraw(e.core, id, newPrice, newQty), Replacement(e.core, id, newPrice, newQty));
             !WouldCross(c.book, n.side, n.price)
    ensures var (c, n) := (Withdraw(e.core, id, newPrice, newQty), Replacement(e.core, id, newPrice, newQty));
            Process(e, ModifyOrder(id, newPrice, newQty)) == e.(core := Rested(Accepted(c, n), n, newQty))
  {
    RestingOrder(e.core.book, id);
    var (c, n) := (Withdraw(e.core, id, newPrice, newQty), Replacement(e.core, id, newPrice, newQty));
    assert Match(Accepted(c, n), TakerOf(n), n.qty) == Done(Accepted(c, n), n.qty, false);
    NothingFires(Obey(e, ModifyOrder(id, newPrice, newQty)));
  }

  /** The one order of a book, withdrawn and rested again. */
  lemma RestedAgain(e: Engine, o: Order, o': Order, mode: StpMode)
    requires AsksOnly(e, mode, [], map[Place(Ask, 105) := [o]], map[1 := Place(Ask, 105)], 3) && Shape(e.core.book)
    requires o.id == 1 && o.side.Ask? && o.price == 105 && o' == Booked(1, Ask, 105, 10, Limit, None, None)
    ensures var e' := Process(e, ModifyOrder(1, 105, 10));
            && Stopless(e') && e'.core.mode == mode
            && e'.core.book.queues == map[Place(Ask, 105) := [o']] && e'.core.book.ids == map[1 := Place(Ask, 105)]
            && e'.core.book.asks.best == Some(105)
  {
    var b := e.core.book;
    assert PositionOf([o], 1) == 0 && Resting(b, 1) && OrderOf(b, 1) == o;
    assert Without([o], 0) == [];
    assert Remove(b, 1).queues == map[] && Remove(b, 1).ids == map[];
    ModifiedMeetsNobody(e, 1, 105, 10);
    RemoveKeepsShape(b, 1);
    assert Prices(map[], Ask) == {};
    assert [] + [o'] == [o'];
  }

  /** The order's first event after its acceptance is a fill with this maker. */
  ghost predicate TradesWith(e: Engine, cmd: Command, maker: nat) {
    var (log, k) := (Process(e, cmd).core.log, |e.core.log| + 1);
    k < |log| && log[k].Fill? && log[k].maker == maker && log[k].taker == cmd.id
  }

  /** A buy of a whole resting offer of another stored group writes a fill with it. */
  lemma BuyFills(e: Engine, cmd: Command, o: Order)
    requires Stopless(e) && cmd.NewOrder? && Rests(RequestOf(cmd)) && cmd.side.Bid?
    requires cmd.price == 105 && cmd.qty > 0 && cmd.id != 1
    requires e.core.book.queues == map[Place(Ask, 105) := [o]] && e.core.book.ids == map[1 := Place(Ask, 105)]
    requires e.core.book.asks.best == Some(105) && o.id == 1 && o.side.Ask? && o.price == 105
    requires !SameGroup(RequestOf(cmd).stpGroup, o.stp) && !o.orderType.Iceberg? && o.Remaining() == cmd.qty
    ensures TradesWith(e, cmd, 1)
  {
    assert PositionOf([o], 1) == 0 && Resting(e.core.book, 1);
    MeetsItsEqual(e, cmd, o);
  }

  lemma AfterRegrouped(mode: StpMode)
    ensures var e := Run(Opening(mode), ModifiedOffer());
            && Stopless(e) && e.core.book.ids == map[1 := Place(Ask, 105)] && e.core.book.asks.best == Some(105)
            && e.core.book.queues == map[Place(Ask, 105) := [Booked(1, Ask, 105, 10, Limit, None, None)]]
  {
    var a := Sell(1, 105, 10, Some(7));
    OpeningIsEmpty(mode);
    SellRests(Opening(mode), a, mode, [], map[], map[], 4, [Offered(a)]);
    RunTwo(Opening(mode), a, ModifyOrder(1, 105, 10));
    ShapeOfProcess(mode, a);
    RestedAgain(Process(Opening(mode), a), Offered(a), Booked(1, Ask, 105, 10, Limit, None, None), mode);
  }

  lemma ShapeOfProcess(mode: StpMode, a: Command)
    ensures Shape(Process(Opening(mode), a).core.book)
  {
    NewEngineSound(100, 10, 4, mode);
    ProcessFacts(Opening(mode), a);
  }

  /** A modification drops the group: in every mode, an offer and a buy that both came under group 7 then trade with each other. */
  lemma ModifiedOrdersCanSelfTrade(mode: StpMode)
    ensures TradesWith(Run(Opening(mode), ModifiedOffer()), Buy(2, 105, 10, GTC, Some(7)), 1)
  {
    AfterRegrouped(mode);
    BuyFills(Run(Opening(mode), ModifiedOffer()), Buy(2, 105, 10, GTC, Some(7)), Booked(1, Ask, 105, 10, Limit, None, None));
  }
}
