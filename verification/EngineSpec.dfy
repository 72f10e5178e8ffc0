/** What the matching engine does to a book, its event log, its pending stops
    and the last trade price. The log is unbounded and numbered from one. */
module EngineSpec {
  import opened Types
  import opened BookSpec

  datatype StopEntry = StopEntry(
    id: nat,
    side: Side,
    limitPrice: nat,
    qty: nat,
    tif: TimeInForce,
    visible: Option<nat>,
    stpGroup: Option<nat>)

  /** Flows of quantity that no event reports: both halves of a self-trade decrement, the rest of
      a modified order, an order whose insertion was refused, a stop that fired; and for each fill
      the level where it happened. */
  datatype Note =
    | StpCut(id: nat, qty: nat)
    | Withdrawn(id: nat, qty: nat)
    | Dropped(id: nat, qty: nat)
    | Fired(id: nat, qty: nat)
    | Traded(at: Place, qty: nat)

  /** Everything but the pending stops. */
  datatype Core = Core(book: Book, mode: StpMode, log: seq<Event>, notes: seq<Note>, last: Option<nat>)

  type Stops = seq<(nat, StopEntry)>

  datatype Engine = Engine(core: Core, stopBids: Stops, stopAsks: Stops)

  /** The incoming side of a match. */
  datatype Taker = Taker(id: nat, side: Side, price: nat, stp: Option<nat>)

  /** Append an event with the next sequence number. */
  function Emit(c: Core, e: Event): Core {
    c.(log := c.log + [e.(seqNo := |c.log| + 1)])
  }

  function Noted(c: Core, n: Note): Core {
    c.(notes := c.notes + [n])
  }

  function LevelQty(b: Book, pl: Place): nat {
    Total(QueueAt(b.queues, pl))
  }

  function EmitLevel(c: Core, pl: Place): Core {
    Emit(c, BookUpdate(0, pl.side, pl.price, LevelQty(c.book, pl)))
  }

  predicate Acceptable(side: Side, price: nat, resting: nat) {
    if side.Bid? then price >= resting else price <= resting
  }

  predicate SameGroup(taker: Option<nat>, maker: nat) {
    taker.Some? && maker != STP_NONE && taker.value == maker
  }

  /** The order at the head of the best opposing level, if that level exists. */
  function FirstMaker(b: Book, side: Side): Option<Order> {
    var best := b.Of(side).best;
    if best.None? then None
    else
      var q := QueueAt(b.queues, Place(side, best.value));
      if q == [] || !Resting(b, q[0].id) then None else Some(q[0])
  }

  /* ---- Matching ---- */

  /** One round of the match loop: it ends the loop, with or without cancelling the taker, or goes on. */
  datatype Round = Done(c: Core, rem: nat, cancel: bool) | Again(c: Core, rem: nat)

  /** A maker taken off the book by self-trade prevention. */
  ghost function CancelMaker(c: Core, m: Order): Core
    requires Resting(c.book, m.id)
  {
    EmitLevel(
      Emit(c.(book := Remove(c.book, m.id)), OrderCancelled(0, m.id, m.Remaining())),
      Place(m.side, m.price))
  }

  /** Maker and taker both lose their overlap, without a trade. */
  ghost function Decrement(c: Core, t: Taker, rem: nat, m: Order): Core
    requires Resting(c.book, m.id)
  {
    var overlap := Min(rem, m.Remaining());
    var b := if overlap == m.Remaining() then Remove(c.book, m.id) else Reduce(c.book, m.id, overlap);
    EmitLevel(
      c.(book := b, notes := c.notes + [StpCut(m.id, overlap), StpCut(t.id, overlap)]),
      Place(m.side, m.price))
  }

  /** The book and the notes after a fill of the resting order `id`. */
  function FilledCore(c: Core, id: nat, qty: nat): Core
    requires Resting(c.book, id)
  {
    c.(book := FillOrder(c.book, id, qty), notes := c.notes + [Traded(c.book.ids[id], qty)])
  }

  /** The two events of a trade, and the last price it sets. */
  function Told(c: Core, t: Taker, m: Order, qty: nat, left: nat, rest: nat): Core {
    EmitLevel(Emit(c, Fill(0, m.id, t.id, m.price, qty, left, rest)).(last := Some(m.price)), Place(m.side, m.price))
  }

  /** A maker with nothing left leaves the book. */
  ghost function Swept(c: Core, id: nat, left: nat): Core {
    if left == 0 && Resting(c.book, id) then c.(book := Remove(c.book, id)) else c
  }

  ghost function TradeOf(c: Core, t: Taker, rem: nat, m: Order, qty: nat): Core
    requires Resting(c.book, m.id) && qty <= rem
  {
    var left := m.(filled := m.filled + qty).Remaining();
    Swept(Told(FilledCore(c, m.id, qty), t, m, qty, left, rem - qty), m.id, left)
  }

  /** A trade with the maker's current slice. */
  ghost function Trade(c: Core, t: Taker, rem: nat, m: Order): Core
    requires Resting(c.book, m.id)
  {
    TradeOf(c, t, rem, m, Min(rem, MatchableQty(m)))
  }

  ghost function MatchRound(c: Core, t: Taker, rem: nat): Round {
    var first := FirstMaker(c.book, t.side.Opposite());
    if first.None? || !Acceptable(t.side, t.price, c.book.Of(t.side.Opposite()).best.value) then Done(c, rem, false)
    else
      var m := first.value;
      if m.Remaining() == 0 then Again(c.(book := Remove(c.book, m.id)), rem)
      else if SameGroup(t.stp, m.stp) then
        match c.mode
        case CancelNewest => Done(c, rem, false)
        case CancelOldest => Again(CancelMaker(c, m), rem)
        case CancelBoth => Done(CancelMaker(c, m), rem, true)
        case DecrementAndCancel => Done(Decrement(c, t, rem, m), rem - Min(rem, m.Remaining()), true)
      else Again(Trade(c, t, rem, m), rem - Min(rem, MatchableQty(m)))
  }

  /** The states a round can lead to, given the maker it meets. */
  lemma RoundCases(c: Core, t: Taker, rem: nat)
    ensures var first := FirstMaker(c.book, t.side.Opposite());
            var r := MatchRound(c, t, rem);
            || (r.Done? && r.c == c && r.rem == rem && !r.cancel)
            || (first.Some? && var m := first.value;
                  || (r == Again(c.(book := Remove(c.book, m.id)), rem) && m.Remaining() == 0)
                  || (SameGroup(t.stp, m.stp) && (r == Again(CancelMaker(c, m), rem) || r == Done(CancelMaker(c, m), rem, true)))
                  || (SameGroup(t.stp, m.stp) && r == Done(Decrement(c, t, rem, m), rem - Min(rem, m.Remaining()), true))
                  || (!SameGroup(t.stp, m.stp)
                      && r == Again(TradeOf(c, t, rem, m, Min(rem, MatchableQty(m))), rem - Min(rem, MatchableQty(m)))))
  {
  }

  /** Every round that goes on takes an order off the book or quantity off the taker. */
  lemma RoundProgresses(c: Core, t: Taker, rem: nat)
    requires rem > 0 && MatchRound(c, t, rem).Again?
    ensures var r := MatchRound(c, t, rem); r.rem + |r.c.book.ids| < rem + |c.book.ids|
  {
    var m := FirstMaker(c.book, t.side.Opposite()).value;
    SmallerWithout(c.book.ids, m.id);
  }

  lemma SmallerWithout(ids: map<nat, Place>, id: nat)
    requires id in ids
    ensures |ids - {id}| == |ids| - 1
  {
    assert (ids - {id}).Keys == ids.Keys - {id};
  }

  /** Walk the opposing side one maker at a time. */
  ghost function Match(c: Core, t: Taker, rem: nat): (r: Round)
    ensures r.Done?
    decreases rem + |c.book.ids|
  {
    if rem == 0 then Done(c, 0, false)
    else
      var r := MatchRound(c, t, rem);
      if r.Done? then r
      else
        RoundProgresses(c, t, rem);
        Match(r.c, t, r.rem)
  }

  /* ---- New orders ---- */

  function Available(b: Book, side: Side, price: nat): nat {
    if side.Bid? then AskAvailable(b, price) else BidAvailable(b, price)
  }

  /** Market orders reach for any price. */
  function EffectivePrice(orderType: OrderType, side: Side, price: nat): nat {
    if orderType.Market? then (if side.Bid? then U64_LIMIT - 1 else 0) else price
  }

  /** Whether the first maker that the taker would meet is of its own group. */
  predicate FirstMakerMatches(b: Book, t: Taker) {
    var first := FirstMaker(b, t.side.Opposite());
    && first.Some? && Acceptable(t.side, t.price, b.Of(t.side.Opposite()).best.value)
    && SameGroup(t.stp, first.value.stp)
  }

  predicate WouldCross(b: Book, side: Side, price: nat) {
    var best := b.Of(side.Opposite()).best;
    best.Some? && Acceptable(side, price, best.value)
  }

  /** A new order's terms. */
  datatype Request = Request(
    id: nat,
    side: Side,
    price: nat,
    qty: nat,
    orderType: OrderType,
    tif: TimeInForce,
    visible: Option<nat>,
    stpGroup: Option<nat>)

  function TakerOf(n: Request): Taker {
    Taker(n.id, n.side, EffectivePrice(n.orderType, n.side, n.price), n.stpGroup)
  }

  /** Put what is left of an order on the book and report the order's quantity as the level's. */
  function Rested(c: Core, n: Request, qty: nat): Core {
    var o := Booked(n.id, n.side, n.price, qty, n.orderType, n.visible, n.stpGroup);
    var kept := if Refuses(c.book, n.id) then Noted(c, Dropped(n.id, qty)) else c.(book := Insert(c.book, o));
    Emit(kept, BookUpdate(0, n.side, n.price, qty))
  }

  function Reject(c: Core, id: nat, reason: RejectReason): Core {
    Emit(c, OrderRejected(0, id, reason))
  }

  function Accepted(c: Core, n: Request): Core {
    Emit(c, OrderAccepted(0, n.id, n.side, n.price, n.qty, n.orderType))
  }

  /** Why an order that is neither post-only nor a stop is rejected, if it is. */
  function Rejection(c: Core, n: Request): Option<RejectReason> {
    var t := TakerOf(n);
    if n.qty == 0 then Some(InvalidQuantity)
    else if n.id in c.book.ids then Some(DuplicateOrderId)
    else if n.tif.FOK? && Available(c.book, n.side, t.price) < n.qty then Some(InsufficientLiquidity)
    else if n.stpGroup.Some? && c.mode.CancelNewest? && FirstMakerMatches(c.book, t) then Some(SelfTradePreventionTriggered)
    else None
  }

  predicate Rests(n: Request) {
    (n.orderType.Limit? || n.orderType.Iceberg?) && n.tif.GTC?
  }

  /** What becomes of an order after matching. */
  function Settle(c: Core, n: Request, rem: nat, cancel: bool): Core {
    if cancel then Emit(c, OrderCancelled(0, n.id, rem))
    else if Rests(n) && rem > 0 then Rested(c, n, rem)
    else if (n.orderType.Market? || n.tif.IOC? || n.tif.FOK?) && rem > 0 then Emit(c, OrderCancelled(0, n.id, rem))
    else c
  }

  /** A new order that is not a stop. */
  ghost function Enter(c: Core, n: Request): Core {
    if n.orderType.PostOnly? then
      if WouldCross(c.book, n.side, n.price) then Reject(c, n.id, WouldCrossSpread)
      else Rested(Accepted(c, n), n, n.qty)
    else
      var reason := Rejection(c, n);
      if reason.Some? then Reject(c, n.id, reason.value)
      else
        var r := Match(Accepted(c, n), TakerOf(n), n.qty);
        Settle(r.c, n, r.rem, r.cancel)
  }

  /* ---- Stops ---- */

  /** The first position whose trigger is not strictly nearer than `px`: new stops go before equals. */
  function StopPosition(side: Side, stops: Stops, px: nat): (k: nat)
    ensures k <= |stops|
  {
    if stops == [] || !Nearer(side, stops[0].0, px) then 0 else 1 + StopPosition(side, stops[1..], px)
  }

  /** Buy stops trigger upwards, sell stops downwards. */
  predicate Nearer(side: Side, px: nat, other: nat) {
    if side.Bid? then px < other else px > other
  }

  function PlaceStop(e: Engine, n: Request, stopPrice: Option<nat>): Engine {
    if n.qty == 0 then e.(core := Reject(e.core, n.id, InvalidQuantity))
    else if stopPrice.None? then e.(core := Reject(e.core, n.id, InvalidPrice))
    else
      var s := (stopPrice.value, StopEntry(n.id, n.side, n.price, n.qty, n.tif, n.visible, n.stpGroup));
      var e' := e.(core := Accepted(e.core, n));
      if n.side.Bid? then e'.(stopBids := Inserted(e.stopBids, StopPosition(Bid, e.stopBids, stopPrice.value), s))
      else e'.(stopAsks := Inserted(e.stopAsks, StopPosition(Ask, e.stopAsks, stopPrice.value), s))
  }

  /** Whether a stop fires at the last trade price. */
  predicate Triggered(side: Side, px: nat, last: nat) {
    if side.Bid? then px <= last else px >= last
  }

  function FiredRequest(s: StopEntry): Request {
    Request(s.id, s.side, s.limitPrice, s.qty, Limit, s.tif, s.visible, s.stpGroup)
  }

  ghost function FireOne(c: Core, s: StopEntry): Core {
    Enter(Noted(Emit(c, StopTriggered(0, s.id)), Fired(s.id, s.qty)), FiredRequest(s))
  }

  /** Fire stops from the front while they trigger at `last`. */
  ghost function Fire(c: Core, side: Side, stops: Stops, last: nat): (r: (Core, Stops))
    ensures |r.1| <= |stops|
    ensures |r.1| == |stops| ==> r.0 == c
    decreases |stops|
  {
    if stops == [] || !Triggered(side, stops[0].0, last) then (c, stops)
    else Fire(FireOne(c, stops[0].1), side, stops[1..], last)
  }

  /** Fire until the last trade price holds still. */
  ghost function Drain(e: Engine): Engine
    decreases |e.stopBids| + |e.stopAsks|
  {
    if e.core.last.None? then e
    else
      var price := e.core.last.value;
      var (c1, bids) := Fire(e.core, Bid, e.stopBids, price);
      var (c2, asks) := Fire(c1, Ask, e.stopAsks, price);
      var e' := Engine(c2, bids, asks);
      if c2.last == Some(price) then e' else Drain(e')
  }

  /* ---- Commands ---- */

  ghost function Cancel(c: Core, id: nat): Core {
    if Resting(c.book, id) then
      var o := OrderOf(c.book, id);
      EmitLevel(Emit(c.(book := Remove(c.book, id)), OrderCancelled(0, id, o.Remaining())), Place(o.side, o.price))
    else Reject(c, id, OrderNotFound)
  }

  /** The order leaves the book for its replacement. */
  ghost function Withdraw(c: Core, id: nat, newPrice: nat, newQty: nat): Core
    requires Resting(c.book, id)
  {
    var o := OrderOf(c.book, id);
    var gone := Noted(c.(book := Remove(c.book, id)), Withdrawn(id, o.Remaining()));
    EmitLevel(Emit(gone, OrderModified(0, id, newPrice, newQty)), Place(o.side, o.price))
  }

  /** A replacement is a limit order without a group, whatever the order was. */
  function Replacement(c: Core, id: nat, newPrice: nat, newQty: nat): Request
    requires Resting(c.book, id)
  {
    Request(id, OrderOf(c.book, id).side, newPrice, newQty, Limit, GTC, None, None)
  }

  ghost function Modify(c: Core, id: nat, newPrice: nat, newQty: nat): Core {
    if Resting(c.book, id) then
      Enter(Withdraw(c, id, newPrice, newQty), Replacement(c, id, newPrice, newQty))
    else Reject(c, id, OrderNotFound)
  }

  function RequestOf(cmd: Command): Request
    requires cmd.NewOrder?
  {
    Request(cmd.id, cmd.side, cmd.price, cmd.qty, cmd.orderType, cmd.tif,
            if cmd.visible.Some? then Some(cmd.visible.value) else None,
            if cmd.stpGroup.Some? then Some(cmd.stpGroup.value) else None)
  }

  ghost function Obey(e: Engine, cmd: Command): Engine {
    match cmd
    case NewOrder(_, _, _, _, _, orderType, _, _, stopPrice, _) =>
      if orderType.StopLimit? then
        PlaceStop(e, RequestOf(cmd), if stopPrice.Some? then Some(stopPrice.value) else None)
      else e.(core := Enter(e.core, RequestOf(cmd)))
    case CancelOrder(id) => e.(core := Cancel(e.core, id))
    case ModifyOrder(id, newPrice, newQty) => e.(core := Modify(e.core, id, newPrice, newQty))
  }

  ghost function Process(e: Engine, cmd: Command): Engine {
    Drain(Obey(e, cmd))
  }

  ghost function Run(e: Engine, cmds: seq<Command>): Engine
    decreases |cmds|
  {
    if cmds == [] then e else Run(Process(e, cmds[0]), cmds[1..])
  }

  function NewEngine(base: nat, ticks: nat, capacity: nat, mode: StpMode): Engine {
    Engine(Core(Empty(base, ticks, capacity), mode, [], [], None), [], [])
  }
}
