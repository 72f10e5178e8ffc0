/** What an incoming order writes: its acceptance or rejection, the events of
    its match, and what becomes of the rest; no fill is between orders of one
    group. */
module Entries {
  import opened Types
  import opened BookSpec
  import opened BookFacts
  import opened EngineSpec
  import opened EngineRuns
  import opened Rounds

  /** A new order that never matches: it is turned away, or post-only. */
  predicate NeverMatches(c: Core, n: Request) {
    n.orderType.PostOnly? || Rejection(c, n).Some?
  }

  /** How many makers an incoming order meets. */
  ghost function Met(c: Core, n: Request): nat {
    if n.orderType.PostOnly? || Rejection(c, n).Some? then 0
    else Rounds.Rounds(Accepted(c, n), TakerOf(n), n.qty)
  }

  /** An event of an incoming order: about itself, or of its match against the book that it met. */
  ghost predicate EntryEvent(b: Book, n: Request, e: Event) {
    || (e.OrderAccepted? && e.id == n.id && e.orderType == n.orderType)
    || (e.OrderRejected? && e.id == n.id)
    || MatchEvent(b, TakerOf(n), e)
  }

  ghost predicate EntryWrites(c: Core, c': Core, n: Request, lo: int, hi: int) {
    && c.log <= c'.log && lo <= |c'.log| - |c.log| <= hi
    && forall k :: |c.log| <= k < |c'.log| ==> EntryEvent(c.book, n, c'.log[k])
  }

  lemma SettleWrites(c: Core, n: Request, rem: nat, cancel: bool)
    ensures var c' := Settle(c, n, rem, cancel);
            && c.log <= c'.log && |c.log| + (if cancel then 1 else 0) <= |c'.log| <= |c.log| + 1
            && forall k :: |c.log| <= k < |c'.log| ==> c'.log[k].OrderCancelled? || c'.log[k].BookUpdate?
  {
  }

  /** An order that is matched writes its acceptance, at most two events for each maker, and at most one for what is left. */
  lemma MatchedWrites(c: Core, n: Request)
    requires Shape(c.book) && !n.orderType.PostOnly? && Rejection(c, n).None?
    ensures EntryWrites(c, Enter(c, n), n, 1, 2 * Met(c, n) + 2)
  {
    var c1 := Accepted(c, n);
    MatchWrites(c1, TakerOf(n), n.qty);
    var r := Match(c1, TakerOf(n), n.qty);
    SettleWrites(r.c, n, r.rem, r.cancel);
    var c' := Enter(c, n);
    forall k | |c.log| <= k < |c'.log| ensures EntryEvent(c.book, n, c'.log[k]) {
      if k == |c.log| {
        assert c'.log[k] == c1.log[k];
      } else if k < |r.c.log| {
        assert c'.log[k] == r.c.log[k];
        assert MatchEvent(c1.book, TakerOf(n), r.c.log[k]);
      }
    }
  }

  lemma EnterWrites(c: Core, n: Request)
    requires Shape(c.book)
    ensures EntryWrites(c, Enter(c, n), n, 1, 2 * Met(c, n) + 2)
  {
    if !n.orderType.PostOnly? && Rejection(c, n).None? {
      MatchedWrites(c, n);
    }
  }

  /** In every self-trade mode: a fill of an incoming order is with a maker that rested in the book it met,
      and that was not stored under the order's group. */
  lemma NoSelfTrade(c: Core, n: Request, k: nat)
    requires Shape(c.book) && |c.log| <= k < |Enter(c, n).log| && Enter(c, n).log[k].Fill?
    ensures var e := Enter(c, n).log[k];
            && e.taker == n.id && Resting(c.book, e.maker)
            && !(n.stpGroup.Some? && n.stpGroup.value != STP_NONE && n.stpGroup.value == OrderOf(c.book, e.maker).stp)
  {
    EnterWrites(c, n);
    var e := Enter(c, n).log[k];
    assert EntryEvent(c.book, n, e);
    RestingOrder(c.book, e.maker);
  }

  /** An order that is accepted and matched writes one event beyond the two for each maker, or two. */
  lemma EnterCounts(c: Core, n: Request)
    requires Shape(c.book) && !n.orderType.PostOnly? && Rejection(c, n).None?
    ensures 2 * Met(c, n) + 1 <= |Enter(c, n).log| - |c.log| <= 2 * Met(c, n) + 2
  {
    MatchCounts(Accepted(c, n), TakerOf(n), n.qty);
    var r := Match(Accepted(c, n), TakerOf(n), n.qty);
    SettleWrites(r.c, n, r.rem, r.cancel);
  }

  /* ---- Shape ---- */

  lemma RestedKeepsShape(c: Core, n: Request, qty: nat)
    requires Shape(c.book) && Bookable(n)
    ensures Shape(Rested(c, n, qty).book) && Rested(c, n, qty).mode == c.mode
  {
    InsertKeepsShape(c.book, Booked(n.id, n.side, n.price, qty, n.orderType, n.visible, n.stpGroup));
  }

  lemma SettleKeepsShape(c: Core, n: Request, rem: nat, cancel: bool)
    requires Shape(c.book) && Bookable(n)
    ensures Shape(Settle(c, n, rem, cancel).book) && Settle(c, n, rem, cancel).mode == c.mode
  {
    RestedKeepsShape(c, n, rem);
  }

  lemma EnterKeepsShape(c: Core, n: Request)
    requires Shape(c.book) && Bookable(n)
    ensures Shape(Enter(c, n).book) && Enter(c, n).mode == c.mode
  {
    if n.orderType.PostOnly? {
      RestedKeepsShape(Accepted(c, n), n, n.qty);
    } else if Rejection(c, n).None? {
      var r := Match(Accepted(c, n), TakerOf(n), n.qty);
      MatchKeepsShape(Accepted(c, n), TakerOf(n), n.qty, r);
      SettleKeepsShape(r.c, n, r.rem, r.cancel);
    }
  }
}
