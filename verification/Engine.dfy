/** The matching engine over the hybrid book: its methods do what the engine
    specification says, in place. */
module Engines {
  import opened Types
  import opened BookSpec
  import opened BookFacts
  import opened Arenas
  import opened OrderBooks
  import Spec = EngineSpec
  import opened EngineFacts
  import opened EngineRuns
  import opened BookRuns
  import opened Entering
  import opened Steadiness

  class MatchingEngine {
    const book: OrderBook
    const arena: Arena
    const mode: StpMode
    var sequence: nat
    /** The events of the current call. */
    var eventBuf: seq<Event>
    var stopBids: Spec.Stops
    var stopAsks: Spec.Stops
    var lastTradePrice: Option<nat>
    /** The events of all calls, and the flows that no event reports. */
    ghost var log: seq<Event>
    ghost var notes: seq<Spec.Note>
    /** The events of the calls before this one. */
    ghost var earlier: seq<Event>

    ghost function State(): Spec.Core
      reads this, book
    {
      Spec.Core(book.view, mode, log, notes, lastTradePrice)
    }

    /** What the engine stands for. */
    ghost function View(): Spec.Engine
      reads this, book
    {
      Spec.Engine(State(), stopBids, stopAsks)
    }

    /** The engine is no part of its book or its arena. */
    ghost predicate Clear() {
      var e: object := this;
      e != book && e != arena && Outside(e, book.bids) && Outside(e, book.asks)
    }

    ghost predicate Counted()
      reads this
    {
      sequence == |log| && log == earlier + eventBuf
    }

    ghost predicate Valid()
      reads this, book, book.bids, book.bids.depth, book.bids.sparseIndex, book.bids.sparseIndex.fenwick,
            book.asks, book.asks.depth, book.asks.sparseIndex, book.asks.sparseIndex.fenwick, arena
    {
      Clear() && book.Valid(arena) && Counted()
    }

    constructor (base: nat, ticks: nat, mode: StpMode, capacity: nat)
      requires base < U64_LIMIT && capacity <= FREE_LIST_END
      ensures Valid() && View() == Spec.NewEngine(base, ticks, capacity, mode)
    {
      var a := new Arena(capacity);
      var b := new OrderBook(base, ticks, a);
      book, arena := b, a;
      this.mode := mode;
      sequence, eventBuf := 0, [];
      stopBids, stopAsks := [], [];
      lastTradePrice := None;
      log, notes, earlier := [], [], [];
    }

    /* ---- Events ---- */

    method Emit(e: Event)
      requires Valid()
      modifies this`sequence, this`eventBuf, this`log
      ensures Valid() && State() == Spec.Emit(old(State()), e)
    {
      sequence := sequence + 1;
      var stamped := e.(seqNo := sequence);
      eventBuf := eventBuf + [stamped];
      log := log + [stamped];
    }

    method EmitLevel(side: Side, price: nat)
      requires Valid()
      modifies this`sequence, this`eventBuf, this`log
      ensures Valid() && State() == Spec.EmitLevel(old(State()), Place(side, price))
    {
      var qty := book.GetLevelQty(side, price, arena);
      Emit(BookUpdate(0, side, price, qty));
    }

    ghost method Note(n: Spec.Note)
      requires Valid()
      modifies this`notes
      ensures Valid() && State() == Spec.Noted(old(State()), n)
    {
      notes := notes + [n];
    }

    /* ---- Makers ---- */

    /** The slot of the first order at the best price of a side. */
    method FirstSlot(side: Side) returns (slot: Option<nat>)
      requires Valid() && Shape(book.view)
      ensures slot.None? <==> Spec.FirstMaker(book.view, side).None?
      ensures slot.Some? ==>
                && arena.Live(slot.value)
                && Spec.FirstMaker(book.view, side) == Some(arena.data[slot.value].order)
    {
      FirstMakerFacts(book.view, side);
      var best := if side.Bid? then book.bids.best else book.asks.best;
      if best.None? {
        return None;
      }
      slot := book.GetLevelHead(side, best.value, arena);
    }

    /** Take the order in a slot off the book. */
    method TakeOff(slot: nat)
      requires Valid() && arena.Live(slot) && Resting(book.view, arena.data[slot].order.id)
      requires var o := arena.data[slot].order;
               CanSub(book.view.base, book.view.ticks, book.view.Of(o.side).index, o.price, o.Remaining())
      modifies book, book.bids, book.bids.depth, book.bids.sparseIndex, book.bids.sparseIndex.fenwick,
               book.asks, book.asks.depth, book.asks.sparseIndex, book.asks.sparseIndex.fenwick, arena
      ensures Valid() && State() == old(State()).(book := Remove(old(book.view), old(arena.data[slot].order.id)))
    {
      var _, _ := book.RemoveOrder(slot, arena);
    }

    /** Fill the order in a slot. */
    method FillSlot(slot: nat, qty: nat)
      requires Valid() && arena.Live(slot) && Resting(book.view, arena.data[slot].order.id)
      requires qty <= arena.data[slot].order.Remaining()
      modifies book, book.bids, book.asks, arena`data, this`notes
      ensures Valid() && State() == Spec.FilledCore(old(State()), old(arena.data[slot].order.id), qty)
      ensures arena.Live(slot) && var o := old(arena.data[slot].order); arena.data[slot].order == o.(filled := o.filled + qty)
    {
      ghost var at := book.view.ids[arena.data[slot].order.id];
      book.FillMaker(slot, qty, arena);
      Note(Spec.Traded(at, qty));
    }

    /** Report a trade and remember its price. */
    method Tell(t: Spec.Taker, m: Order, qty: nat, left: nat, rest: nat)
      requires Valid()
      modifies this`sequence, this`eventBuf, this`log, this`lastTradePrice
      ensures Valid() && State() == Spec.Told(old(State()), t, m, qty, left, rest)
    {
      Emit(Fill(0, m.id, t.id, m.price, qty, left, rest));
      lastTradePrice := Some(m.price);
      EmitLevel(m.side, m.price);
    }

    /* ---- Matching ---- */

    /** The order in the slot is a maker that rests in the book. */
    ghost predicate Makes(slot: nat, m: Order)
      reads this, book, arena
    {
      && arena.Live(slot) && slot < |arena.data| && arena.data[slot].order == m
      && m.id in book.view.ids && Resting(book.view, m.id) && OrderOf(book.view, m.id) == m
      && book.view.ids[m.id] == Place(m.side, m.price)
    }

    /** Trade with the current slice of the maker in a slot. */
    method TradeSlot(slot: nat, ghost m: Order, t: Spec.Taker, rem: nat) returns (left: nat)
      requires Valid() && Sound(State()) && Makes(slot, m) && m.Remaining() > 0
      modifies this`sequence, this`eventBuf, this`log, this`notes, this`lastTradePrice,
               book, book.bids, book.bids.depth, book.bids.sparseIndex, book.bids.sparseIndex.fenwick,
               book.asks, book.asks.depth, book.asks.sparseIndex, book.asks.sparseIndex.fenwick, arena
      ensures Valid() && State() == Spec.Trade(old(State()), t, rem, m)
      ensures left == rem - Min(rem, MatchableQty(m))
    {
      var maker := arena.Get(slot).order;
      var qty := Min(rem, MatchableQty(maker));
      FilledMaker(State(), m, qty);
      left := TradeQty(slot, maker, t, rem, qty);
    }

    method TradeQty(slot: nat, m: Order, t: Spec.Taker, rem: nat, qty: nat) returns (left: nat)
      requires Valid() && arena.Live(slot) && arena.data[slot].order == m && Resting(book.view, m.id)
      requires qty <= rem && qty <= m.Remaining() && StaysResting(book.view, m, qty)
      modifies this`sequence, this`eventBuf, this`log, this`notes, this`lastTradePrice,
               book, book.bids, book.bids.depth, book.bids.sparseIndex, book.bids.sparseIndex.fenwick,
               book.asks, book.asks.depth, book.asks.sparseIndex, book.asks.sparseIndex.fenwick, arena
      ensures Valid() && State() == Spec.TradeOf(old(State()), t, rem, m, qty)
      ensures left == rem - qty
    {
      left := rem - qty;
      ghost var was := State();
      var rest := FillAndTell(slot, m, t, qty, left);
      ghost var told := State();
      Sweep(slot, m.(filled := m.filled + qty), rest);
      assert State() == Spec.Swept(told, m.id, rest);
      Traded(was, told, t, rem, m, qty, rest, left);
    }

    method FillAndTell(slot: nat, m: Order, t: Spec.Taker, qty: nat, left: nat) returns (rest: nat)
      requires Valid() && arena.Live(slot) && arena.data[slot].order == m && Resting(book.view, m.id) && qty <= m.Remaining()
      modifies this`sequence, this`eventBuf, this`log, this`notes, this`lastTradePrice,
               book, book.bids, book.asks, arena`data
      ensures rest == m.(filled := m.filled + qty).Remaining()
      ensures Valid() && State() == Spec.Told(Spec.FilledCore(old(State()), m.id, qty), t, m, qty, rest, left)
      ensures arena.Live(slot) && arena.data[slot].order == m.(filled := m.filled + qty)
    {
      FillSlot(slot, qty);
      rest := arena.Get(slot).order.Remaining();
      Tell(t, m, qty, rest, left);
    }

    /** Take a maker off the book when it has nothing left. */
    method Sweep(slot: nat, ghost m: Order, rest: nat)
      requires Valid() && arena.Live(slot) && arena.data[slot].order == m && rest == m.Remaining()
      requires Resting(book.view, m.id)
      requires rest == 0 ==> CanSub(book.view.base, book.view.ticks, book.view.Of(m.side).index, m.price, 0)
      modifies book, book.bids, book.bids.depth, book.bids.sparseIndex, book.bids.sparseIndex.fenwick,
               book.asks, book.asks.depth, book.asks.sparseIndex, book.asks.sparseIndex.fenwick, arena
      ensures Valid() && State() == Spec.Swept(old(State()), m.id, rest)
    {
      if rest == 0 {
        TakeOff(slot);
      }
    }

    /** Cancel the order in a slot and report it. */
    method CancelSlot(slot: nat, m: Order)
      requires Valid() && arena.Live(slot) && arena.data[slot].order == m && Resting(book.view, m.id)
      requires CanSub(book.view.base, book.view.ticks, book.view.Of(m.side).index, m.price, m.Remaining())
      modifies this`sequence, this`eventBuf, this`log, this`notes,
               book, book.bids, book.bids.depth, book.bids.sparseIndex, book.bids.sparseIndex.fenwick,
               book.asks, book.asks.depth, book.asks.sparseIndex, book.asks.sparseIndex.fenwick, arena
      ensures Valid() && State() == Spec.CancelMaker(old(State()), m)
    {
      TakeOff(slot);
      Emit(OrderCancelled(0, m.id, m.Remaining()));
      EmitLevel(m.side, m.price);
    }

    /** Take the overlap off the maker, and the maker off the book if that is all it has. */
    method ReduceSlot(slot: nat, m: Order, overlap: nat)
      requires Valid() && arena.Live(slot) && arena.data[slot].order == m && Resting(book.view, m.id)
      requires overlap <= m.Remaining()
      requires CanSub(book.view.base, book.view.ticks, book.view.Of(m.side).index, m.price, overlap)
      modifies book, book.bids, book.bids.depth, book.bids.sparseIndex, book.bids.sparseIndex.fenwick,
               book.asks, book.asks.depth, book.asks.sparseIndex, book.asks.sparseIndex.fenwick, arena
      ensures Valid()
      ensures State() == old(State()).(book := if overlap == m.Remaining() then Remove(old(book.view), m.id)
                                               else Reduce(old(book.view), m.id, overlap))
    {
      if m.Remaining() == overlap {
        TakeOff(slot);
      } else {
        book.ReduceOrderQty(slot, overlap, arena);
      }
    }

    ghost method NoteCut(maker: nat, taker: nat, overlap: nat)
      requires Valid()
      modifies this`notes
      ensures Valid()
      ensures State() == old(State()).(notes := old(notes) + [Spec.StpCut(maker, overlap), Spec.StpCut(taker, overlap)])
    {
      notes := notes + [Spec.StpCut(maker, overlap), Spec.StpCut(taker, overlap)];
    }

    method DecrementSlot(slot: nat, m: Order, t: Spec.Taker, rem: nat)
      requires Valid() && arena.Live(slot) && arena.data[slot].order == m && Resting(book.view, m.id)
      requires CanSub(book.view.base, book.view.ticks, book.view.Of(m.side).index, m.price, Min(rem, m.Remaining()))
      modifies this`sequence, this`eventBuf, this`log, this`notes,
               book, book.bids, book.bids.depth, book.bids.sparseIndex, book.bids.sparseIndex.fenwick,
               book.asks, book.asks.depth, book.asks.sparseIndex, book.asks.sparseIndex.fenwick, arena
      ensures Valid() && State() == Spec.Decrement(old(State()), t, rem, m)
    {
      var overlap := Min(rem, m.Remaining());
      ghost var was := State();
      ReduceSlot(slot, m, overlap);
      NoteCut(m.id, t.id, overlap);
      ghost var cut := State();
      EmitLevel(m.side, m.price);
      Decremented(was, cut, t, rem, m, overlap);
    }

    /** The first maker that a taker can trade with at its price. */
    method NextMaker(t: Spec.Taker) returns (slot: Option<nat>)
      requires Valid() && Sound(State())
      ensures slot.None? <==> Meetable(book.view, t).None?
      ensures slot.Some? ==>
                Makes(slot.value, Meetable(book.view, t).value)
    {
      var opp := t.side.Opposite();
      slot := FirstSlot(opp);
      if slot.Some? {
        FirstIsMaker(book.view, opp);
        if !Spec.Acceptable(t.side, t.price, arena.Get(slot.value).order.price) {
          return None;
        }
      }
    }

    /** One turn of the match loop: whether it goes on, what the taker has left, and whether it is to be cancelled. */
    method MatchOne(t: Spec.Taker, rem: nat) returns (again: bool, left: nat, cancel: bool)
      requires Valid() && Sound(State()) && MakerRemovable(State(), t)
      modifies this`sequence, this`eventBuf, this`log, this`notes, this`lastTradePrice,
               book, book.bids, book.bids.depth, book.bids.sparseIndex, book.bids.sparseIndex.fenwick,
               book.asks, book.asks.depth, book.asks.sparseIndex, book.asks.sparseIndex.fenwick, arena
      ensures Valid() && Turned(old(State()), t, rem, State(), again, left, cancel)
    {
      ghost var was := State();
      var slot := NextMaker(t);
      if slot.None? {
        NobodyMet(was, t, rem);
        return false, rem, false;
      }
      var m := arena.Get(slot.value).order;
      again, left, cancel := MeetMaker(slot.value, m, t, rem);
      OutcomeIsRound(was, t, rem, m, State(), again, left, cancel);
    }

    /** Meet a maker at an acceptable price. */
    method MeetMaker(slot: nat, m: Order, t: Spec.Taker, rem: nat) returns (again: bool, left: nat, cancel: bool)
      requires Valid() && Sound(State()) && Makes(slot, m) && Removable(book.view, m.id)
      modifies this`sequence, this`eventBuf, this`log, this`notes, this`lastTradePrice,
               book, book.bids, book.bids.depth, book.bids.sparseIndex, book.bids.sparseIndex.fenwick,
               book.asks, book.asks.depth, book.asks.sparseIndex, book.asks.sparseIndex.fenwick, arena
      ensures Valid() && Outcome(old(State()), t, rem, m, State(), again, left, cancel)
    {
      MakerIndexed(State(), m, m.Remaining());
      if m.Remaining() == 0 {
        TakeOff(slot);
        return true, rem, false;
      }
      if !Spec.SameGroup(t.stp, m.stp) {
        left := TradeSlot(slot, m, t, rem);
        return true, left, false;
      }
      MakerIndexed(State(), m, Min(rem, m.Remaining()));
      again, left, cancel := Prevent(slot, m, t, rem);
    }

    /** Deal with a maker of the taker's own group. */
    method Prevent(slot: nat, m: Order, t: Spec.Taker, rem: nat) returns (again: bool, left: nat, cancel: bool)
      requires Valid() && arena.Live(slot) && arena.data[slot].order == m && Resting(book.view, m.id)
      requires Spec.SameGroup(t.stp, m.stp) && m.Remaining() > 0
      requires CanSub(book.view.base, book.view.ticks, book.view.Of(m.side).index, m.price, m.Remaining())
      requires CanSub(book.view.base, book.view.ticks, book.view.Of(m.side).index, m.price, Min(rem, m.Remaining()))
      modifies this`sequence, this`eventBuf, this`log, this`notes,
               book, book.bids, book.bids.depth, book.bids.sparseIndex, book.bids.sparseIndex.fenwick,
               book.asks, book.asks.depth, book.asks.sparseIndex, book.asks.sparseIndex.fenwick, arena
      ensures Valid() && Outcome(old(State()), t, rem, m, State(), again, left, cancel)
    {
      match mode
      case CancelNewest =>
        return false, rem, false;
      case CancelOldest =>
        CancelSlot(slot, m);
        return true, rem, false;
      case CancelBoth =>
        CancelSlot(slot, m);
        return false, rem, true;
      case DecrementAndCancel =>
        DecrementSlot(slot, m, t, rem);
        return false, rem - Min(rem, m.Remaining()), true;
    }

    /** Walk the opposing side of the book, one maker at a time. */
    method MatchAgainstBook(t: Spec.Taker, qty: nat) returns (rem: nat, cancel: bool)
      requires Valid() && Sound(State()) && MatchSucceeds(State(), t, qty)
      modifies this`sequence, this`eventBuf, this`log, this`notes, this`lastTradePrice,
               book, book.bids, book.bids.depth, book.bids.sparseIndex, book.bids.sparseIndex.fenwick,
               book.asks, book.asks.depth, book.asks.sparseIndex, book.asks.sparseIndex.fenwick, arena
      ensures Valid() && Sound(State())
      ensures Spec.Match(old(State()), t, qty) == Spec.Done(State(), rem, cancel)
    {
      rem, cancel := qty, false;
      while rem > 0
        invariant Valid() && Sound(State()) && !cancel && MatchSucceeds(State(), t, rem)
        invariant Spec.Match(old(State()), t, qty) == Spec.Match(State(), t, rem)
        decreases rem + |book.view.ids|
      {
        ghost var was, left := State(), rem;
        var again;
        again, rem, cancel := MatchOne(t, rem);
        TurnedOn(was, t, left, State(), again, rem, cancel);
        if !again {
          return;
        }
        cancel := false;
      }
    }

    /* ---- New orders ---- */

    /** Put what is left of an order on the book. */
    method RestOrder(n: Spec.Request, qty: nat)
      requires Valid() && Bookable(n)
      modifies this`sequence, this`eventBuf, this`log, this`notes,
               book, book.bids, book.bids.depth, book.bids.sparseIndex, book.bids.sparseIndex.fenwick,
               book.asks, book.asks.depth, book.asks.sparseIndex, book.asks.sparseIndex.fenwick, arena
      ensures Valid() && State() == Spec.Rested(old(State()), n, qty)
    {
      ghost var was := State();
      var slot := book.InsertOrder(n.id, n.side, n.price, qty, n.orderType, n.visible, n.stpGroup, arena);
      if slot.None? {
        Note(Spec.Dropped(n.id, qty));
      }
      ghost var kept := State();
      Emit(BookUpdate(0, n.side, n.price, qty));
      RestedAs(was, kept, n, qty);
    }

    /** Whether the best opposing price would cross a resting order at this price. */
    method Crosses(side: Side, price: nat) returns (r: bool)
      requires Valid()
      ensures r == Spec.WouldCross(book.view, side, price)
    {
      var best := if side.Bid? then book.asks.best else book.bids.best;
      r := best.Some? && Spec.Acceptable(side, price, best.value);
    }

    method CheckAvailableLiquidity(side: Side, price: nat) returns (qty: nat)
      requires Valid() && price < U64_LIMIT
      ensures qty == Spec.Available(book.view, side, price)
    {
      if side.Bid? {
        qty := book.AskAvailableAtOrBelow(price, arena);
      } else {
        qty := book.BidAvailableAtOrAbove(price, arena);
      }
    }

    method StpFirstMakerMatches(t: Spec.Taker) returns (r: bool)
      requires Valid() && Sound(State())
      ensures r == Spec.FirstMakerMatches(book.view, t)
    {
      var slot := NextMaker(t);
      FirstMakerFacts(book.view, t.side.Opposite());
      r := slot.Some? && Spec.SameGroup(t.stp, arena.Get(slot.value).order.stp);
    }

    /** Why an order is refused before it is accepted, if it is. */
    method Validate(n: Spec.Request) returns (reason: Option<RejectReason>)
      requires Valid() && Sound(State()) && Bookable(n)
      ensures reason == Spec.Rejection(State(), n)
    {
      if n.qty == 0 {
        return Some(InvalidQuantity);
      }
      var slot := book.Lookup(n.id, arena);
      if slot.Some? {
        return Some(DuplicateOrderId);
      }
      var t := Spec.TakerOf(n);
      if n.tif.FOK? {
        var available := CheckAvailableLiquidity(n.side, t.price);
        if available < n.qty {
          return Some(InsufficientLiquidity);
        }
      }
      if n.stpGroup.Some? && mode.CancelNewest? {
        var matches := StpFirstMakerMatches(t);
        if matches {
          return Some(SelfTradePreventionTriggered);
        }
      }
      return None;
    }

    method Accept(n: Spec.Request)
      requires Valid()
      modifies this`sequence, this`eventBuf, this`log
      ensures Valid() && State() == Spec.Accepted(old(State()), n)
    {
      Emit(OrderAccepted(0, n.id, n.side, n.price, n.qty, n.orderType));
    }

    method Refuse(id: nat, reason: RejectReason)
      requires Valid()
      modifies this`sequence, this`eventBuf, this`log
      ensures Valid() && State() == Spec.Reject(old(State()), id, reason)
    {
      Emit(OrderRejected(0, id, reason));
    }

    /** What becomes of an order after matching. */
    method Settle(n: Spec.Request, rem: nat, cancel: bool)
      requires Valid() && Bookable(n)
      modifies this`sequence, this`eventBuf, this`log, this`notes,
               book, book.bids, book.bids.depth, book.bids.sparseIndex, book.bids.sparseIndex.fenwick,
               book.asks, book.asks.depth, book.asks.sparseIndex, book.asks.sparseIndex.fenwick, arena
      ensures Valid() && State() == Spec.Settle(old(State()), n, rem, cancel)
    {
      if cancel {
        Emit(OrderCancelled(0, n.id, rem));
      } else if Spec.Rests(n) && rem > 0 {
        RestOrder(n, rem);
      } else if (n.orderType.Market? || n.tif.IOC? || n.tif.FOK?) && rem > 0 {
        Emit(OrderCancelled(0, n.id, rem));
      }
    }

    method PostOrder(n: Spec.Request)
      requires Valid() && Bookable(n) && n.orderType.PostOnly?
      modifies this`sequence, this`eventBuf, this`log, this`notes,
               book, book.bids, book.bids.depth, book.bids.sparseIndex, book.bids.sparseIndex.fenwick,
               book.asks, book.asks.depth, book.asks.sparseIndex, book.asks.sparseIndex.fenwick, arena
      ensures Valid() && State() == Spec.Enter(old(State()), n)
    {
      var crosses := Crosses(n.side, n.price);
      if crosses {
        Refuse(n.id, WouldCrossSpread);
      } else {
        Accept(n);
        RestOrder(n, n.qty);
      }
    }

    method MatchOrder(n: Spec.Request)
      requires Valid() && Sound(State()) && Bookable(n) && !n.orderType.PostOnly? && EnterSucceeds(State(), n)
      modifies this`sequence, this`eventBuf, this`log, this`notes, this`lastTradePrice,
               book, book.bids, book.bids.depth, book.bids.sparseIndex, book.bids.sparseIndex.fenwick,
               book.asks, book.asks.depth, book.asks.sparseIndex, book.asks.sparseIndex.fenwick, arena
      ensures Valid() && State() == Spec.Enter(old(State()), n)
    {
      ghost var was := State();
      var reason := Validate(n);
      if reason.Some? {
        Refuse(n.id, reason.value);
        return;
      }
      AcceptedFacts(State(), n);
      Accept(n);
      var rem, cancel := MatchAgainstBook(Spec.TakerOf(n), n.qty);
      ghost var matched := State();
      Settle(n, rem, cancel);
      EnteredAs(was, n, matched, rem, cancel);
    }

    /* ---- Stops ---- */

    /** File a stop before the first pending one that is not strictly nearer. */
    method FileStop(side: Side, s: (nat, Spec.StopEntry))
      requires Valid()
      modifies this`stopBids, this`stopAsks
      ensures Valid() && State() == old(State())
      ensures stopBids == if side.Bid? then Inserted(old(stopBids), Spec.StopPosition(Bid, old(stopBids), s.0), s) else old(stopBids)
      ensures stopAsks == if side.Ask? then Inserted(old(stopAsks), Spec.StopPosition(Ask, old(stopAsks), s.0), s) else old(stopAsks)
    {
      match side
      case Bid =>
        stopBids := Inserted(stopBids, Spec.StopPosition(Bid, stopBids, s.0), s);
      case Ask =>
        stopAsks := Inserted(stopAsks, Spec.StopPosition(Ask, stopAsks, s.0), s);
    }

    method PlaceStop(n: Spec.Request, stopPrice: Option<nat>)
      requires Valid()
      modifies this`sequence, this`eventBuf, this`log, this`stopBids, this`stopAsks
      ensures Valid() && View() == Spec.PlaceStop(old(View()), n, stopPrice)
    {
      if n.qty == 0 {
        Refuse(n.id, InvalidQuantity);
        return;
      }
      if stopPrice.None? {
        Refuse(n.id, InvalidPrice);
        return;
      }
      Accept(n);
      FileStop(n.side, (stopPrice.value, Spec.StopEntry(n.id, n.side, n.price, n.qty, n.tif, n.visible, n.stpGroup)));
    }

    method ProcessNewOrder(n: Spec.Request, stopPrice: Option<nat>)
      requires Valid() && Sound(State()) && Bookable(n) && (!n.orderType.StopLimit? ==> EnterSucceeds(State(), n))
      modifies this`sequence, this`eventBuf, this`log, this`notes, this`lastTradePrice, this`stopBids, this`stopAsks,
               book, book.bids, book.bids.depth, book.bids.sparseIndex, book.bids.sparseIndex.fenwick,
               book.asks, book.asks.depth, book.asks.sparseIndex, book.asks.sparseIndex.fenwick, arena
      ensures Valid() && View() == Handled(old(View()), n, stopPrice)
    {
      if n.orderType.PostOnly? {
        PostOrder(n);
      } else if n.orderType.StopLimit? {
        PlaceStop(n, stopPrice);
      } else {
        MatchOrder(n);
      }
    }

    function Pending(side: Side): Spec.Stops
      reads this
    {
      if side.Bid? then stopBids else stopAsks
    }

    /** Take the front stop out of its queue. */
    method PopStop(side: Side) returns (s: Spec.StopEntry)
      requires Valid() && Pending(side) != []
      modifies this`stopBids, this`stopAsks
      ensures Valid() && State() == old(State()) && s == old(Pending(side))[0].1
      ensures Pending(side) == old(Pending(side))[1..] && Pending(side.Opposite()) == old(Pending(side.Opposite()))
    {
      s := Pending(side)[0].1;
      match side
      case Bid => stopBids := stopBids[1..];
      case Ask => stopAsks := stopAsks[1..];
    }

    method Announce(s: Spec.StopEntry)
      requires Valid()
      modifies this`sequence, this`eventBuf, this`log, this`notes
      ensures Valid()
      ensures State() == Spec.Noted(Spec.Emit(old(State()), StopTriggered(0, s.id)), Spec.Fired(s.id, s.qty))
    {
      Emit(StopTriggered(0, s.id));
      Note(Spec.Fired(s.id, s.qty));
    }

    /** Enter a stop that fired as a limit order. */
    method FireEntry(s: Spec.StopEntry)
      requires Valid() && Sound(State()) && s.limitPrice < U64_LIMIT
      requires EnterSucceeds(Announced(State(), s), Spec.FiredRequest(s))
      modifies this`sequence, this`eventBuf, this`log, this`notes, this`lastTradePrice,
               book, book.bids, book.bids.depth, book.bids.sparseIndex, book.bids.sparseIndex.fenwick,
               book.asks, book.asks.depth, book.asks.sparseIndex, book.asks.sparseIndex.fenwick, arena
      ensures Valid() && State() == Spec.FireOne(old(State()), s)
    {
      TriggeredSound(State(), s);
      Announce(s);
      MatchOrder(Spec.FiredRequest(s));
    }

    /** Fire the front stop of a side. */
    method FireStop(side: Side)
      requires Valid() && Sound(State()) && Pending(side) != [] && Pending(side)[0].1.limitPrice < U64_LIMIT
      requires EnterSucceeds(Announced(State(), Pending(side)[0].1), Spec.FiredRequest(Pending(side)[0].1))
      modifies this`sequence, this`eventBuf, this`log, this`notes, this`lastTradePrice, this`stopBids, this`stopAsks,
               book, book.bids, book.bids.depth, book.bids.sparseIndex, book.bids.sparseIndex.fenwick,
               book.asks, book.asks.depth, book.asks.sparseIndex, book.asks.sparseIndex.fenwick, arena
      ensures Valid() && State() == Spec.FireOne(old(State()), old(Pending(side))[0].1)
      ensures Pending(side) == old(Pending(side))[1..] && Pending(side.Opposite()) == old(Pending(side.Opposite()))
    {
      var s := PopStop(side);
      FireEntry(s);
    }

    /** Fire stops of one side from the front while they trigger at the price. */
    method FireStops(side: Side, price: nat)
      requires Valid() && Fireable(State(), side, Pending(side), price)
      modifies this`sequence, this`eventBuf, this`log, this`notes, this`lastTradePrice, this`stopBids, this`stopAsks,
               book, book.bids, book.bids.depth, book.bids.sparseIndex, book.bids.sparseIndex.fenwick,
               book.asks, book.asks.depth, book.asks.sparseIndex, book.asks.sparseIndex.fenwick, arena
      ensures Valid() && Sound(State()) && StopsBookable(Pending(side))
      ensures Spec.Fire(old(State()), side, old(Pending(side)), price) == (State(), Pending(side))
      ensures Pending(side.Opposite()) == old(Pending(side.Opposite()))
    {
      while Pending(side) != [] && Spec.Triggered(side, Pending(side)[0].0, price)
        invariant Valid() && Fireable(State(), side, Pending(side), price)
        invariant Spec.Fire(old(State()), side, old(Pending(side)), price) == Spec.Fire(State(), side, Pending(side), price)
        invariant Pending(side.Opposite()) == old(Pending(side.Opposite()))
        decreases |Pending(side)|
      {
        FireStep(State(), side, Pending(side), price);
        FireStop(side);
      }
    }

    /** Fire both sides at the last trade price. */
    method FireBoth(price: nat)
      requires Valid() && SoundEngine(View()) && DrainSucceeds(View()) && lastTradePrice == Some(price)
      modifies this`sequence, this`eventBuf, this`log, this`notes, this`lastTradePrice, this`stopBids, this`stopAsks,
               book, book.bids, book.bids.depth, book.bids.sparseIndex, book.bids.sparseIndex.fenwick,
               book.asks, book.asks.depth, book.asks.sparseIndex, book.asks.sparseIndex.fenwick, arena
      ensures Valid() && SoundEngine(View()) && View() == FiredAt(old(View()), price)
    {
      FireStops(Bid, price);
      FireStops(Ask, price);
    }

    /** Fire pending stops until the last trade price holds still. */
    method DrainStopTriggers()
      requires Valid() && SoundEngine(View()) && DrainSucceeds(View())
      modifies this`sequence, this`eventBuf, this`log, this`notes, this`lastTradePrice, this`stopBids, this`stopAsks,
               book, book.bids, book.bids.depth, book.bids.sparseIndex, book.bids.sparseIndex.fenwick,
               book.asks, book.asks.depth, book.asks.sparseIndex, book.asks.sparseIndex.fenwick, arena
      ensures Valid() && SoundEngine(View()) && View() == Spec.Drain(old(View()))
    {
      while lastTradePrice.Some?
        invariant Valid() && SoundEngine(View()) && DrainSucceeds(View())
        invariant Spec.Drain(old(View())) == Spec.Drain(View())
        decreases |stopBids| + |stopAsks|
      {
        var price := lastTradePrice.value;
        DrainStep(View());
        FireBoth(price);
        if lastTradePrice == Some(price) {
          break;
        }
      }
    }

    /* ---- Commands ---- */

    method ProcessCancel(id: nat)
      requires Valid() && Sound(State()) && (Resting(book.view, id) ==> Removable(book.view, id))
      modifies this`sequence, this`eventBuf, this`log, this`notes,
               book, book.bids, book.bids.depth, book.bids.sparseIndex, book.bids.sparseIndex.fenwick,
               book.asks, book.asks.depth, book.asks.sparseIndex, book.asks.sparseIndex.fenwick, arena
      ensures Valid() && State() == Spec.Cancel(old(State()), id)
    {
      var slot := book.Lookup(id, arena);
      if slot.None? {
        Refuse(id, OrderNotFound);
        return;
      }
      var m := arena.Get(slot.value).order;
      RestingOrder(book.view, id);
      MakerIndexed(State(), m, m.Remaining());
      CancelSlot(slot.value, m);
    }

    /** Take an order off the book for its replacement. */
    method WithdrawSlot(slot: nat, m: Order, newPrice: nat, newQty: nat)
      requires Valid() && arena.Live(slot) && arena.data[slot].order == m
      requires Resting(book.view, m.id) && OrderOf(book.view, m.id) == m
      requires CanSub(book.view.base, book.view.ticks, book.view.Of(m.side).index, m.price, m.Remaining())
      modifies this`sequence, this`eventBuf, this`log, this`notes,
               book, book.bids, book.bids.depth, book.bids.sparseIndex, book.bids.sparseIndex.fenwick,
               book.asks, book.asks.depth, book.asks.sparseIndex, book.asks.sparseIndex.fenwick, arena
      ensures Valid() && State() == Spec.Withdraw(old(State()), m.id, newPrice, newQty)
    {
      TakeOff(slot);
      Note(Spec.Withdrawn(m.id, m.Remaining()));
      Emit(OrderModified(0, m.id, newPrice, newQty));
      EmitLevel(m.side, m.price);
    }

    method ProcessModify(id: nat, newPrice: nat, newQty: nat)
      requires Valid() && Sound(State()) && newPrice < U64_LIMIT
      requires Resting(book.view, id) ==>
                 && Removable(book.view, id)
                 && EnterSucceeds(Spec.Withdraw(State(), id, newPrice, newQty), Spec.Replacement(State(), id, newPrice, newQty))
      modifies this`sequence, this`eventBuf, this`log, this`notes, this`lastTradePrice,
               book, book.bids, book.bids.depth, book.bids.sparseIndex, book.bids.sparseIndex.fenwick,
               book.asks, book.asks.depth, book.asks.sparseIndex, book.asks.sparseIndex.fenwick, arena
      ensures Valid() && State() == Spec.Modify(old(State()), id, newPrice, newQty)
    {
      var slot := book.Lookup(id, arena);
      if slot.None? {
        Refuse(id, OrderNotFound);
        return;
      }
      var m := arena.Get(slot.value).order;
      RestingOrder(book.view, id);
      MakerIndexed(State(), m, m.Remaining());
      WithdrawFacts(State(), id, newPrice, newQty);
      WithdrawSlot(slot.value, m, newPrice, newQty);
      MatchOrder(Spec.Request(id, m.side, newPrice, newQty, Limit, GTC, None, None));
    }

    /** Forget the events of the call before. */
    method Begin()
      requires Valid()
      modifies this`eventBuf, this`earlier
      ensures Valid() && View() == old(View()) && earlier == log
    {
      eventBuf, earlier := [], log;
    }

    method Obey(cmd: Command)
      requires Valid() && SoundEngine(View()) && ObeySucceeds(View(), cmd)
      modifies this`sequence, this`eventBuf, this`log, this`notes, this`lastTradePrice, this`stopBids, this`stopAsks,
               book, book.bids, book.bids.depth, book.bids.sparseIndex, book.bids.sparseIndex.fenwick,
               book.asks, book.asks.depth, book.asks.sparseIndex, book.asks.sparseIndex.fenwick, arena
      ensures Valid() && View() == Spec.Obey(old(View()), cmd)
    {
      match cmd
      case NewOrder(_, _, _, _, _, _, _, _, stopPrice, _) =>
        ProcessNewOrder(Spec.RequestOf(cmd), if stopPrice.Some? then Some(stopPrice.value) else None);
      case CancelOrder(id) =>
        ProcessCancel(id);
      case ModifyOrder(id, newPrice, newQty) =>
        ProcessModify(id, newPrice, newQty);
    }

    /** Process a command that does not miss the index, and return the events it emitted. */
    method Process(cmd: Command) returns (events: seq<Event>)
      requires Valid() && SoundEngine(View()) && ProcessSucceeds(View(), cmd)
      modifies this, book, book.bids, book.bids.depth, book.bids.sparseIndex, book.bids.sparseIndex.fenwick,
               book.asks, book.asks.depth, book.asks.sparseIndex, book.asks.sparseIndex.fenwick, arena
      ensures Valid() && SoundEngine(View()) && View() == Spec.Process(old(View()), cmd)
      ensures log == old(log) + events
    {
      ghost var was := View();
      Begin();
      Obey(cmd);
      ObeyFacts(was, cmd);
      DrainStopTriggers();
      events := eventBuf;
    }
  }

  /** Stops can fire: the state is sound, and no fired stop will miss the index. */
  ghost predicate Fireable(c: Spec.Core, side: Side, stops: Spec.Stops, price: nat) {
    Sound(c) && StopsBookable(stops) && AllFire(c, side, stops, price, EnterSucceeds)
  }

  /** Both sides fired at one price. */
  ghost function FiredAt(e: Spec.Engine, price: nat): Spec.Engine {
    var (c1, bids) := Spec.Fire(e.core, Bid, e.stopBids, price);
    var (c2, asks) := Spec.Fire(c1, Ask, e.stopAsks, price);
    Spec.Engine(c2, bids, asks)
  }

  lemma DrainStep(e: Spec.Engine)
    requires e.core.last.Some?
    ensures var e' := FiredAt(e, e.core.last.value);
            && (e'.core.last == e.core.last ==> Spec.Drain(e) == e')
            && (e'.core.last != e.core.last ==>
                  Spec.Drain(e) == Spec.Drain(e') && |e'.stopBids| + |e'.stopAsks| < |e.stopBids| + |e.stopAsks|)
  {
  }

  lemma FireStep(c: Spec.Core, side: Side, stops: Spec.Stops, price: nat)
    requires Fireable(c, side, stops, price) && stops != [] && Spec.Triggered(side, stops[0].0, price)
    ensures var c' := Spec.FireOne(c, stops[0].1);
            && EnterSucceeds(Announced(c, stops[0].1), Spec.FiredRequest(stops[0].1))
            && Fireable(c', side, stops[1..], price)
            && Spec.Fire(c, side, stops, price) == Spec.Fire(c', side, stops[1..], price)
  {
    FireOneFacts(c, stops[0].1);
  }

  lemma TriggeredSound(c: Spec.Core, s: Spec.StopEntry)
    requires Sound(c)
    ensures Sound(Spec.Noted(Spec.Emit(c, StopTriggered(0, s.id)), Spec.Fired(s.id, s.qty)))
  {
    EmitSound(c, StopTriggered(0, s.id));
    NotedSound(Spec.Emit(c, StopTriggered(0, s.id)), Spec.Fired(s.id, s.qty));
  }

  /** What a new order of any type does. */
  ghost function Handled(e: Spec.Engine, n: Spec.Request, stopPrice: Option<nat>): Spec.Engine {
    if n.orderType.StopLimit? then Spec.PlaceStop(e, n, stopPrice) else e.(core := Spec.Enter(e.core, n))
  }

  lemma RestedAs(c: Spec.Core, kept: Spec.Core, n: Spec.Request, qty: nat)
    requires Refuses(c.book, n.id) ==> kept == Spec.Noted(c, Spec.Dropped(n.id, qty))
    requires !Refuses(c.book, n.id) ==>
               kept == c.(book := Insert(c.book, Booked(n.id, n.side, n.price, qty, n.orderType, n.visible, n.stpGroup)))
    ensures Spec.Rested(c, n, qty) == Spec.Emit(kept, BookUpdate(0, n.side, n.price, qty))
  {
  }

  lemma EnteredAs(c: Spec.Core, n: Spec.Request, matched: Spec.Core, rem: nat, cancel: bool)
    requires !n.orderType.PostOnly? && Spec.Rejection(c, n).None?
    requires Spec.Match(Spec.Accepted(c, n), Spec.TakerOf(n), n.qty) == Spec.Done(matched, rem, cancel)
    ensures Spec.Enter(c, n) == Spec.Settle(matched, n, rem, cancel)
  {
  }

  /** A turn is a step of the match. */
  lemma TurnedOn(c: Spec.Core, t: Spec.Taker, rem: nat, c': Spec.Core, again: bool, left: nat, cancel: bool)
    requires Sound(c) && rem > 0 && MatchSucceeds(c, t, rem) && Turned(c, t, rem, c', again, left, cancel)
    ensures Sound(c')
    ensures again ==> MatchSucceeds(c', t, left)
    ensures again ==> Spec.Match(c, t, rem) == Spec.Match(c', t, left) && left + |c'.book.ids| < rem + |c.book.ids|
    ensures !again ==> Spec.Match(c, t, rem) == Spec.Done(c', left, cancel)
  {
    RoundFacts(c, t, rem);
    if again {
      Spec.RoundProgresses(c, t, rem);
    }
  }

  /** What meeting a maker leads to. */
  ghost predicate Outcome(c: Spec.Core, t: Spec.Taker, rem: nat, m: Order, c': Spec.Core, again: bool, left: nat, cancel: bool)
    requires Resting(c.book, m.id)
  {
    if m.Remaining() == 0 then again && c' == c.(book := Remove(c.book, m.id)) && left == rem
    else if !Spec.SameGroup(t.stp, m.stp) then
      again && c' == Spec.Trade(c, t, rem, m) && left == rem - Min(rem, MatchableQty(m))
    else
      match c.mode
      case CancelNewest => !again && c' == c && left == rem && !cancel
      case CancelOldest => again && c' == Spec.CancelMaker(c, m) && left == rem
      case CancelBoth => !again && c' == Spec.CancelMaker(c, m) && left == rem && cancel
      case DecrementAndCancel => !again && c' == Spec.Decrement(c, t, rem, m) && left == rem - Min(rem, m.Remaining()) && cancel
  }

  /** The outcome is that of the round of the specification. */
  ghost predicate Turned(c: Spec.Core, t: Spec.Taker, rem: nat, c': Spec.Core, again: bool, left: nat, cancel: bool) {
    var r := Spec.MatchRound(c, t, rem);
    r.c == c' && r.rem == left && again == r.Again? && (r.Done? ==> cancel == r.cancel)
  }

  /** The first opposing order, if the taker's price accepts it. */
  function Meetable(b: Book, t: Spec.Taker): Option<Order> {
    var opp := t.side.Opposite();
    if b.Of(opp).best.Some? && Spec.Acceptable(t.side, t.price, b.Of(opp).best.value) then Spec.FirstMaker(b, opp) else None
  }

  /** The first maker rests, at the best price of its side. */
  lemma FirstIsMaker(b: Book, side: Side)
    requires Shape(b) && Spec.FirstMaker(b, side).Some?
    ensures var m := Spec.FirstMaker(b, side).value;
            && b.Of(side).best == Some(m.price) && m.id in b.ids && Resting(b, m.id) && OrderOf(b, m.id) == m
            && b.ids[m.id] == Place(m.side, m.price)
  {
    FirstMakerFacts(b, side);
  }

  lemma NobodyMet(c: Spec.Core, t: Spec.Taker, rem: nat)
    requires Meetable(c.book, t).None?
    ensures Turned(c, t, rem, c, false, rem, false)
  {
  }

  lemma OutcomeIsRound(c: Spec.Core, t: Spec.Taker, rem: nat, m: Order, c': Spec.Core, again: bool, left: nat, cancel: bool)
    requires Resting(c.book, m.id) && Outcome(c, t, rem, m, c', again, left, cancel)
    requires Meetable(c.book, t) == Some(m)
    ensures Turned(c, t, rem, c', again, left, cancel)
  {
  }

  lemma Decremented(c: Spec.Core, cut: Spec.Core, t: Spec.Taker, rem: nat, m: Order, overlap: nat)
    requires Resting(c.book, m.id) && overlap == Min(rem, m.Remaining())
    requires cut == c.(book := if overlap == m.Remaining() then Remove(c.book, m.id) else Reduce(c.book, m.id, overlap),
                       notes := c.notes + [Spec.StpCut(m.id, overlap), Spec.StpCut(t.id, overlap)])
    ensures Spec.Decrement(c, t, rem, m) == Spec.EmitLevel(cut, Place(m.side, m.price))
  {
  }

  /** The index holds what a maker has. */
  lemma MakerIndexed(c: Spec.Core, m: Order, qty: nat)
    requires Sound(c) && m.id in c.book.ids && Removable(c.book, m.id) && Resting(c.book, m.id) && OrderOf(c.book, m.id) == m
    requires c.book.ids[m.id] == Place(m.side, m.price) && qty <= m.Remaining()
    ensures CanSub(c.book.base, c.book.ticks, c.book.Of(m.side).index, m.price, qty)
  {
    IndexHoldsOrders(c, m.id, 0, qty);
  }

  lemma Traded(c: Spec.Core, told: Spec.Core, t: Spec.Taker, rem: nat, m: Order, qty: nat, rest: nat, left: nat)
    requires Resting(c.book, m.id) && qty <= rem && left == rem - qty
    requires rest == m.(filled := m.filled + qty).Remaining()
    requires told == Spec.Told(Spec.FilledCore(c, m.id, qty), t, m, qty, rest, left)
    ensures Spec.TradeOf(c, t, rem, m, qty) == Spec.Swept(told, m.id, rest)
  {
  }

  /** The maker rests after a fill, and its level is in the index. */
  predicate StaysResting(b: Book, m: Order, qty: nat)
    requires Resting(b, m.id)
  {
    var b' := FillOrder(b, m.id, qty);
    Resting(b', m.id) && CanSub(b'.base, b'.ticks, b'.Of(m.side).index, m.price, 0)
  }

  /** A maker that was filled still rests, and can be taken off the index. */
  lemma FilledMaker(c: Spec.Core, m: Order, qty: nat)
    requires Sound(c) && m.id in c.book.ids && Removable(c.book, m.id) && Resting(c.book, m.id) && OrderOf(c.book, m.id) == m
    requires c.book.ids[m.id] == Place(m.side, m.price) && qty <= m.Remaining()
    ensures StaysResting(c.book, m, qty)
  {
    IndexHoldsOrders(c, m.id, qty, 0);
    FillKeepsShape(c.book, m.id, qty);
    RestingOrder(FillOrder(c.book, m.id, qty), m.id);
  }
}
