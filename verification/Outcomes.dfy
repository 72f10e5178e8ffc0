/** What the greedy form decides: what a taker can get, and exactly when a
    fill-or-kill order is all or nothing. */
module Outcomes {
  import opened Types
  import opened Depth
  import opened BookSpec
  import opened BookFacts
  import opened EngineSpec
  import opened EngineFacts
  import opened EngineRuns
  import opened OrderlyBooks
  import opened Routes
  import opened Greedy
  import opened Priority

  /** An order of the taker's own group that has something to give. */
  predicate Own(stp: Option<nat>, m: Order) {
    m.Remaining() > 0 && SameGroup(stp, m.stp)
  }

  /** The orders in front of the first of the taker's own group. */
  function Reach(makers: seq<Order>, stp: Option<nat>): (r: seq<Order>)
    ensures |r| <= |makers|
  {
    if makers == [] || Own(stp, makers[0]) then [] else [makers[0]] + Reach(makers[1..], stp)
  }

  /** The orders that are not of the taker's own group. */
  function Foreign(makers: seq<Order>, stp: Option<nat>): seq<Order> {
    if makers == [] then [] else (if Own(stp, makers[0]) then [] else [makers[0]]) + Foreign(makers[1..], stp)
  }

  /** What a taker can get: CancelOldest passes over its own group, the other modes end there. */
  function Fillable(mode: StpMode, makers: seq<Order>, stp: Option<nat>): nat {
    Total(if mode.CancelOldest? then Foreign(makers, stp) else Reach(makers, stp))
  }

  lemma FillableStep(mode: StpMode, makers: seq<Order>, stp: Option<nat>)
    requires makers != []
    ensures Fillable(mode, makers, stp)
         == if !Own(stp, makers[0]) then makers[0].Remaining() + Fillable(mode, makers[1..], stp)
            else if mode.CancelOldest? then Fillable(mode, makers[1..], stp)
            else 0
  {
    var reach, foreign := Reach(makers[1..], stp), Foreign(makers[1..], stp);
    assert ([makers[0]] + reach)[1..] == reach;
    assert ([makers[0]] + foreign)[1..] == foreign;
    assert [] + foreign == foreign;
  }

  /** A taker is filled to the end, and not cancelled, exactly when it can get its quantity; what it lacks is left over,
      but for what a decrement takes. */
  lemma {:induction false} ConsumeFills(mode: StpMode, makers: seq<Order>, stp: Option<nat>, qty: nat)
    ensures var left := Consume(mode, makers, stp, qty);
            var fillable := Fillable(mode, makers, stp);
            && (left.qty == 0 && !left.cancel <==> qty <= fillable)
            && (!mode.DecrementAndCancel? || stp.None? ==> left.qty == SaturatingSub(qty, fillable))
            && left.qty <= SaturatingSub(qty, fillable) && |left.makers| <= |makers|
            && (left.cancel ==> mode.CancelBoth? || mode.DecrementAndCancel?)
  {
    if makers != [] {
      FillableStep(mode, makers, stp);
      if qty > 0 && (!Own(stp, makers[0]) || mode.CancelOldest?) {
        ConsumeFills(mode, makers[1..], stp, qty);
        if !Own(stp, makers[0]) && makers[0].Remaining() <= qty {
          ConsumeFills(mode, makers[1..], stp, qty - makers[0].Remaining());
        }
      }
    }
  }

  /** Under CancelNewest a taker with a leftover leaves the orders from the first of its own group on. */
  lemma {:induction false} ConsumeReach(makers: seq<Order>, stp: Option<nat>, qty: nat)
    ensures var left := Consume(CancelNewest, makers, stp, qty);
            left.qty > 0 ==> left.makers == makers[|Reach(makers, stp)|..]
  {
    if qty > 0 && makers != [] && !Own(stp, makers[0]) && makers[0].Remaining() <= qty {
      ConsumeReach(makers[1..], stp, qty - makers[0].Remaining());
    }
  }

  /* ---- Liquidity ---- */

  /** What has been traded on one side at the prices of `[lo, hi)`. */
  function TradedIn(notes: seq<Note>, side: Side, lo: nat, hi: nat): nat
    decreases hi - lo
  {
    if hi <= lo then 0 else TradedIn(notes, side, lo, hi - 1) + TradedAt(notes, Place(side, hi - 1))
  }

  lemma {:induction false} AsksSplitLast(queues: Queues, lo: nat, hi: nat)
    requires lo < hi
    ensures Asks(queues, lo, hi) == Asks(queues, lo, hi - 1) + QueueAt(queues, Place(Ask, hi - 1))
    decreases hi - lo
  {
    if lo + 1 < hi {
      AsksSplitLast(queues, lo + 1, hi);
    }
  }

  lemma {:induction false} AsksIndexed(c: Core, lo: nat, hi: nat)
    requires Drifts(c)
    ensures SumRange(c.book.asks.index, lo, hi) == Total(Asks(c.book.queues, lo, hi)) + TradedIn(c.notes, Ask, lo, hi)
    decreases hi - lo
  {
    if lo < hi {
      AsksIndexed(c, lo, hi - 1);
      AsksSplitLast(c.book.queues, lo, hi);
      TotalConcat(Asks(c.book.queues, lo, hi - 1), QueueAt(c.book.queues, Place(Ask, hi - 1)));
      assert DriftAt(c.book, Place(Ask, hi - 1), TradedAt(c.notes, Place(Ask, hi - 1)));
    }
  }

  lemma {:induction false} BidsIndexed(c: Core, lo: nat, hi: nat)
    requires Drifts(c)
    ensures SumRange(c.book.bids.index, lo, hi) == Total(Bids(c.book.queues, lo, hi)) + TradedIn(c.notes, Bid, lo, hi)
    decreases hi - lo
  {
    if lo < hi {
      BidsIndexed(c, lo, hi - 1);
      TotalConcat(QueueAt(c.book.queues, Place(Bid, hi - 1)), Bids(c.book.queues, lo, hi - 1));
      assert DriftAt(c.book, Place(Bid, hi - 1), TradedAt(c.notes, Place(Bid, hi - 1)));
    }
  }

  /** Everything traded so far at the opposing prices that a taker reaches. */
  function Drift(c: Core, t: Taker): nat {
    if t.side.Bid? then TradedIn(c.notes, Ask, 0, t.price + 1) else TradedIn(c.notes, Bid, t.price, U64_LIMIT)
  }

  /** The depth query overstates the liquidity that is there by exactly the drift. */
  lemma AvailableIsHeldPlusDrift(c: Core, t: Taker)
    requires Drifts(c)
    ensures Available(c.book, t.side, t.price) == Total(Crossable(c.book.queues, t)) + Drift(c, t)
  {
    if t.side.Bid? {
      AsksIndexed(c, 0, t.price + 1);
    } else {
      BidsIndexed(c, t.price, U64_LIMIT);
    }
  }

  /* ---- Fill or kill ---- */

  predicate FillOrKill(c: Core, n: Request) {
    && n.tif.FOK? && !n.orderType.PostOnly? && !n.orderType.StopLimit?
    && Bookable(n) && n.qty > 0 && n.id !in c.book.ids
  }

  /** Under CancelNewest an order that would first meet its own group is not accepted. */
  predicate Preempted(mode: StpMode, makers: seq<Order>, stp: Option<nat>) {
    mode.CancelNewest? && makers != [] && SameGroup(stp, makers[0].stp)
  }

  lemma PreemptedFirst(c: Core, n: Request)
    requires Shape(c.book) && Bookable(n)
    ensures Preempted(c.mode, Route(c.book, TakerOf(n)), n.stpGroup)
        <==> n.stpGroup.Some? && c.mode.CancelNewest? && FirstMakerMatches(c.book, TakerOf(n))
  {
    FirstOnRoute(c.book, TakerOf(n));
    FirstMakerFacts(c.book, n.side.Opposite());
  }

  lemma FillOrKillEnters(c: Core, n: Request)
    requires Shape(c.book) && FillOrKill(c, n)
    ensures var r := Match(Accepted(c, n), TakerOf(n), n.qty);
            Enter(c, n) == if Available(c.book, n.side, TakerOf(n).price) < n.qty then Reject(c, n.id, InsufficientLiquidity)
                           else if Preempted(c.mode, Route(c.book, TakerOf(n)), n.stpGroup)
                                then Reject(c, n.id, SelfTradePreventionTriggered)
                           else Settle(r.c, n, r.rem, r.cancel)
  {
    PreemptedFirst(c, n);
  }

  /** What a match leaves of an incoming order, in terms of what the order can get. */
  lemma MatchFills(c: Core, n: Request)
    requires Shape(c.book) && Bookable(n)
    ensures var r := Match(Accepted(c, n), TakerOf(n), n.qty);
            var fillable := Fillable(c.mode, Route(c.book, TakerOf(n)), n.stpGroup);
            && (r.rem == 0 && !r.cancel <==> n.qty <= fillable)
            && (!c.mode.DecrementAndCancel? || n.stpGroup.None? ==> r.rem == SaturatingSub(n.qty, fillable))
            && r.rem <= SaturatingSub(n.qty, fillable)
  {
    MatchIsGreedy(Accepted(c, n), TakerOf(n), n.qty, Match(Accepted(c, n), TakerOf(n), n.qty));
    ConsumeFills(c.mode, Route(c.book, TakerOf(n)), n.stpGroup, n.qty);
  }

  /** How a fill-or-kill order ends, given what it can get, whether the index is short, and whether it is preempted. */
  predicate Ends(c: Core, n: Request, matched: Round, after: Core, short: bool, preempted: bool, fillable: nat)
    requires matched.Done?
  {
    if short then after == Reject(c, n.id, InsufficientLiquidity)
    else if preempted then after == Reject(c, n.id, SelfTradePreventionTriggered)
    else if n.qty <= fillable then after == matched.c && matched.rem == 0 && !matched.cancel
    else
      && after == Emit(matched.c, OrderCancelled(0, n.id, matched.rem))
      && (matched.rem > 0 || matched.cancel) && matched.rem <= n.qty - fillable
      && (!c.mode.DecrementAndCancel? || n.stpGroup.None? ==> matched.rem == n.qty - fillable)
  }

  lemma SettleEnds(c: Core, n: Request, r: Round, fillable: nat)
    requires n.tif.FOK?
    requires r.Done? && (r.rem == 0 && !r.cancel <==> n.qty <= fillable)
    requires !c.mode.DecrementAndCancel? || n.stpGroup.None? ==> r.rem == SaturatingSub(n.qty, fillable)
    requires r.rem <= SaturatingSub(n.qty, fillable)
    ensures Ends(c, n, r, Settle(r.c, n, r.rem, r.cancel), false, false, fillable)
  {
  }

  /** The quantity that the depth query sees at the prices the order reaches: what rests there and what was traded there. */
  function Indexed(c: Core, t: Taker): nat {
    Total(Crossable(c.book.queues, t)) + Drift(c, t)
  }

  /** In every self-trade mode, with and without a group: a fill-or-kill order is rejected when the indexed quantity is short
      or when it would first meet its own group under CancelNewest, filled when it can get its quantity on its route, and
      otherwise filled in part and cancelled. */
  lemma FillOrKillOutcome(c: Core, n: Request)
    requires Sound(c) && FillOrKill(c, n)
    ensures var t := TakerOf(n);
            var makers := Route(c.book, t);
            Ends(c, n, Match(Accepted(c, n), t, n.qty), Enter(c, n),
                 Indexed(c, t) < n.qty, Preempted(c.mode, makers, n.stpGroup), Fillable(c.mode, makers, n.stpGroup))
  {
    AvailableIsHeldPlusDrift(c, TakerOf(n));
    MatchFills(c, n);
    FillOrKillEnters(c, n);
    SettleEnds(c, n, Match(Accepted(c, n), TakerOf(n), n.qty), Fillable(c.mode, Route(c.book, TakerOf(n)), n.stpGroup));
  }

  /** Rejected with the book as it was, or filled to the end without a cancellation. */
  ghost predicate AllOrNothing(c: Core, n: Request) {
    EndsAllOrNothing(c, n, Match(Accepted(c, n), TakerOf(n), n.qty), Enter(c, n))
  }

  predicate EndsAllOrNothing(c: Core, n: Request, matched: Round, after: Core) {
    || after == Reject(c, n.id, InsufficientLiquidity)
    || after == Reject(c, n.id, SelfTradePreventionTriggered)
    || (after == matched.c && matched.rem == 0)
  }

  lemma EndsExactly(c: Core, n: Request, matched: Round, after: Core, short: bool, preempted: bool, fillable: nat)
    requires matched.Done? && Ends(c, n, matched, after, short, preempted, fillable)
    ensures EndsAllOrNothing(c, n, matched, after) <==> short || preempted || n.qty <= fillable
  {
    if !short && !preempted && n.qty > fillable {
      CancelIsNotReject(matched.c, c, n.id, matched.rem, InsufficientLiquidity);
      CancelIsNotReject(matched.c, c, n.id, matched.rem, SelfTradePreventionTriggered);
      assert |after.log| == |matched.c.log| + 1;
    }
  }

  /** Fill or kill is all or nothing exactly when the order is rejected or can get its quantity: it fails where the drift or
      levels hidden by a stale best make up for a shortage, and where orders of its own group stand in for the quantity.
      On an orderly book, without drift and without a group, it never fails. */
  lemma FillOrKillIsAllOrNothing(c: Core, n: Request)
    requires Sound(c) && FillOrKill(c, n)
    ensures var makers := Route(c.book, TakerOf(n));
            AllOrNothing(c, n) <==> (|| Indexed(c, TakerOf(n)) < n.qty
                                     || Preempted(c.mode, makers, n.stpGroup)
                                     || n.qty <= Fillable(c.mode, makers, n.stpGroup))
    ensures Orderly(c.book) && Drift(c, TakerOf(n)) == 0 && n.stpGroup.None? ==> AllOrNothing(c, n)
  {
    var makers := Route(c.book, TakerOf(n));
    FillOrKillOutcome(c, n);
    GrouplessReachesAll(makers);
    EndsExactly(c, n, Match(Accepted(c, n), TakerOf(n), n.qty), Enter(c, n),
                Indexed(c, TakerOf(n)) < n.qty, Preempted(c.mode, makers, n.stpGroup), Fillable(c.mode, makers, n.stpGroup));
    if Orderly(c.book) {
      RouteIsSorted(c.book, TakerOf(n));
    }
  }

  lemma {:induction false} GrouplessReachesAll(makers: seq<Order>)
    ensures Reach(makers, None) == makers && Foreign(makers, None) == makers
  {
    if makers != [] {
      GrouplessReachesAll(makers[1..]);
    }
  }

  lemma CancelIsNotReject(c: Core, c': Core, id: nat, qty: nat, reason: RejectReason)
    ensures Emit(c, OrderCancelled(0, id, qty)) != Reject(c', id, reason)
  {
    var log, log' := Emit(c, OrderCancelled(0, id, qty)).log, Reject(c', id, reason).log;
    assert log[|log| - 1].OrderCancelled? && log'[|log'| - 1].OrderRejected?;
  }
}
