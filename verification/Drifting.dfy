/** The drift of the depth index over whole engine runs: the index at a level is
    the level total plus everything that was ever filled there, so it can only
    overstate, and no rejection for want of liquidity is wrong. */
module Drifting {
  import opened Types
  import opened BookSpec
  import opened EngineSpec
  import opened EngineFacts
  import opened EngineRuns
  import opened Entering
  import opened Priority
  import opened Outcomes

  /** What the log says was filled at a level: the fills that were reported together with an update of it. */
  function FilledAt(log: seq<Event>, pl: Place): nat {
    if |log| < 2 then 0
    else
      var e, u := log[|log| - 2], log[|log| - 1];
      FilledAt(log[..|log| - 1], pl) + if e.Fill? && u.BookUpdate? && Place(u.side, u.price) == pl then e.qty else 0
  }

  /** The last fill has been reported in full. */
  predicate Settled(log: seq<Event>) {
    log == [] || !log[|log| - 1].Fill?
  }

  /** Filled at a level according to the log, minus traded there. */
  function Gap(c: Core, at: Place): int {
    FilledAt(c.log, at) - TradedAt(c.notes, at)
  }

  /** From a settled log to a settled log, with the gap as it was. */
  ghost predicate KeepsGap(c: Core, c': Core, at: Place) {
    Settled(c.log) ==> Settled(c'.log) && Gap(c', at) == Gap(c, at)
  }

  lemma FilledAtAppend(log: seq<Event>, e: Event, at: Place)
    requires Settled(log) || e.Fill?
    ensures FilledAt(log + [e], at) == FilledAt(log, at)
  {
    assert (log + [e])[..|log|] == log;
  }

  lemma FilledAtTrade(log: seq<Event>, e: Event, u: Event, at: Place)
    requires e.Fill? && u.BookUpdate?
    ensures FilledAt(log + [e] + [u], at) == FilledAt(log, at) + if Place(u.side, u.price) == at then e.qty else 0
  {
    FilledAtAppend(log, e, at);
    assert (log + [e] + [u])[..|log| + 1] == log + [e];
  }

  lemma EmitGap(c: Core, e: Event, at: Place)
    requires !e.Fill?
    ensures KeepsGap(c, Emit(c, e), at)
  {
    if Settled(c.log) {
      FilledAtAppend(c.log, Emit(c, e).log[|c.log|], at);
    }
  }

  lemma NotedGap(c: Core, n: Note, at: Place)
    requires !n.Traded?
    ensures KeepsGap(c, Noted(c, n), at)
  {
    TradedAtAppend(c.notes, n, at);
  }

  lemma EmitLevelGap(c: Core, pl: Place, at: Place)
    ensures KeepsGap(c, EmitLevel(c, pl), at)
  {
    EmitGap(c, BookUpdate(0, pl.side, pl.price, LevelQty(c.book, pl)), at);
  }

  lemma TradeLog(c: Core, t: Taker, rem: nat, m: Order, qty: nat) returns (e: Event, u: Event)
    requires Resting(c.book, m.id) && c.book.ids[m.id] == Place(m.side, m.price) && qty <= rem
    ensures e.Fill? && e.qty == qty && u.BookUpdate? && u.side == m.side && u.price == m.price
    ensures TradeOf(c, t, rem, m, qty).log == c.log + [e] + [u]
    ensures TradeOf(c, t, rem, m, qty).notes == c.notes + [Traded(Place(m.side, m.price), qty)]
  {
    var filled := FilledCore(c, m.id, qty);
    var left := m.(filled := m.filled + qty).Remaining();
    e := Fill(|c.log| + 1, m.id, t.id, m.price, qty, left, rem - qty);
    u := BookUpdate(|c.log| + 2, m.side, m.price, LevelQty(filled.book, Place(m.side, m.price)));
  }

  /** A fill, its level's update and its note go together. */
  lemma TradeGap(c: Core, t: Taker, rem: nat, m: Order, qty: nat, at: Place)
    requires Resting(c.book, m.id) && c.book.ids[m.id] == Place(m.side, m.price) && qty <= rem
    ensures KeepsGap(c, TradeOf(c, t, rem, m, qty), at)
  {
    var e, u := TradeLog(c, t, rem, m, qty);
    FilledAtTrade(c.log, e, u, at);
    TradedAtAppend(c.notes, Traded(Place(m.side, m.price), qty), at);
  }

  lemma CancelMakerGap(c: Core, m: Order, at: Place)
    requires Resting(c.book, m.id)
    ensures KeepsGap(c, CancelMaker(c, m), at)
  {
    var gone := c.(book := Remove(c.book, m.id));
    EmitGap(gone, OrderCancelled(0, m.id, m.Remaining()), at);
    EmitLevelGap(Emit(gone, OrderCancelled(0, m.id, m.Remaining())), Place(m.side, m.price), at);
  }

  lemma DecrementGap(c: Core, t: Taker, rem: nat, m: Order, at: Place)
    requires Resting(c.book, m.id)
    ensures KeepsGap(c, Decrement(c, t, rem, m), at)
  {
    var overlap := Min(rem, m.Remaining());
    var b := if overlap == m.Remaining() then Remove(c.book, m.id) else Reduce(c.book, m.id, overlap);
    NotedGap(c, StpCut(m.id, overlap), at);
    NotedGap(Noted(c, StpCut(m.id, overlap)), StpCut(t.id, overlap), at);
    assert c.notes + [StpCut(m.id, overlap)] + [StpCut(t.id, overlap)]
        == c.notes + [StpCut(m.id, overlap), StpCut(t.id, overlap)];
    EmitLevelGap(c.(book := b, notes := c.notes + [StpCut(m.id, overlap), StpCut(t.id, overlap)]), Place(m.side, m.price), at);
  }

  lemma RoundGap(c: Core, t: Taker, rem: nat, at: Place)
    requires Shape(c.book)
    ensures KeepsGap(c, MatchRound(c, t, rem).c, at)
  {
    var opp := t.side.Opposite();
    FirstMakerFacts(c.book, opp);
    RoundCases(c, t, rem);
    var first := FirstMaker(c.book, opp);
    if first.Some? {
      var m := first.value;
      CancelMakerGap(c, m, at);
      DecrementGap(c, t, rem, m, at);
      TradeGap(c, t, rem, m, Min(rem, MatchableQty(m)), at);
    }
  }

  lemma {:induction false} MatchGap(c: Core, t: Taker, rem: nat, at: Place)
    requires Sound(c)
    ensures KeepsGap(c, Match(c, t, rem).c, at)
    decreases rem + |c.book.ids|
  {
    if rem > 0 {
      var r := MatchRound(c, t, rem);
      RoundGap(c, t, rem, at);
      if r.Again? {
        RoundProgresses(c, t, rem);
        RoundFacts(c, t, rem);
        MatchGap(r.c, t, r.rem, at);
      }
    }
  }

  lemma RestedGap(c: Core, n: Request, qty: nat, at: Place)
    ensures KeepsGap(c, Rested(c, n, qty), at)
  {
    var o := Booked(n.id, n.side, n.price, qty, n.orderType, n.visible, n.stpGroup);
    var kept := if Refuses(c.book, n.id) then Noted(c, Dropped(n.id, qty)) else c.(book := Insert(c.book, o));
    NotedGap(c, Dropped(n.id, qty), at);
    EmitGap(kept, BookUpdate(0, n.side, n.price, qty), at);
  }

  lemma SettleGap(c: Core, n: Request, rem: nat, cancel: bool, at: Place)
    ensures KeepsGap(c, Settle(c, n, rem, cancel), at)
  {
    if !cancel && Rests(n) && rem > 0 {
      RestedGap(c, n, rem, at);
    } else {
      EmitGap(c, OrderCancelled(0, n.id, rem), at);
    }
  }

  lemma AcceptedGap(c: Core, n: Request, at: Place)
    ensures KeepsGap(c, Accepted(c, n), at)
  {
    EmitGap(c, OrderAccepted(0, n.id, n.side, n.price, n.qty, n.orderType), at);
  }

  lemma EnterGap(c: Core, n: Request, at: Place)
    requires Sound(c)
    ensures KeepsGap(c, Enter(c, n), at)
  {
    var c1 := Accepted(c, n);
    AcceptedGap(c, n, at);
    if n.orderType.PostOnly? {
      EmitGap(c, OrderRejected(0, n.id, WouldCrossSpread), at);
      RestedGap(c1, n, n.qty, at);
    } else if Rejection(c, n).Some? {
      EmitGap(c, OrderRejected(0, n.id, Rejection(c, n).value), at);
    } else {
      AcceptedFacts(c, n);
      MatchGap(c1, TakerOf(n), n.qty, at);
      var r := Match(c1, TakerOf(n), n.qty);
      SettleGap(r.c, n, r.rem, r.cancel, at);
    }
  }

  /** An order that leaves the book is reported without a fill. */
  lemma LeaveGap(c: Core, id: nat, e: Event, at: Place)
    requires Resting(c.book, id) && !e.Fill?
    ensures var o := OrderOf(c.book, id);
            KeepsGap(c, EmitLevel(Emit(c.(book := Remove(c.book, id)), e), Place(o.side, o.price)), at)
  {
    var o := OrderOf(c.book, id);
    var gone := c.(book := Remove(c.book, id));
    EmitGap(gone, e, at);
    EmitLevelGap(Emit(gone, e), Place(o.side, o.price), at);
  }

  /** A sound state whose log and notes agree on what was traded at a level. */
  ghost predicate Agrees(at: Place, c: Core) {
    Sound(c) && Settled(c.log) && Gap(c, at) == 0
  }

  ghost function Agreement(at: Place): Standing {
    (c: Core) => Agrees(at, c)
  }

  lemma LeaveAgrees(at: Place, c: Core, id: nat, newPrice: nat, newQty: nat)
    requires Agrees(at, c) && Resting(c.book, id)
    ensures Agrees(at, Cancel(c, id)) && Agrees(at, Withdraw(c, id, newPrice, newQty))
  {
    var o := OrderOf(c.book, id);
    CancelledFacts(c, id);
    LeaveGap(c, id, OrderCancelled(0, id, o.Remaining()), at);
    WithdrawFacts(c, id, newPrice, newQty);
    NotedGap(c, Withdrawn(id, o.Remaining()), at);
    LeaveGap(Noted(c, Withdrawn(id, o.Remaining())), id, OrderModified(0, id, newPrice, newQty), at);
  }

  lemma TellAgrees(at: Place, c: Core, e: Event, s: StopEntry)
    requires Agrees(at, c) && !e.Fill?
    ensures Agrees(at, Emit(c, e)) && Agrees(at, Noted(c, Fired(s.id, s.qty)))
  {
    EmitSound(c, e);
    EmitGap(c, e, at);
    NotedSound(c, Fired(s.id, s.qty));
    NotedGap(c, Fired(s.id, s.qty), at);
  }

  lemma AgreementCarries(at: Place)
    ensures Carried(Agreement(at), OfRequest(NoStop), OfRequest(NoStop))
  {
    var (inv, p) := (Agreement(at), OfRequest(NoStop));
    forall c, n ensures Carries(inv, p, p, c, n) {
      if Bookable(n) && Agrees(at, c) && NoStop(n) {
        EnterFacts(c, n);
        EnterGap(c, n, at);
      }
    }
    forall c, id, newPrice, newQty ensures Sheds(inv, c, id, newPrice, newQty) {
      if Agrees(at, c) && Resting(c.book, id) {
        LeaveAgrees(at, c, id, newPrice, newQty);
      }
    }
    forall c, e, s ensures Tells(inv, c, e, s) {
      if Agrees(at, c) {
        TellAgrees(at, c, StopTriggered(0, 0), s);
        if !e.Fill? {
          TellAgrees(at, c, e, s);
        }
      }
    }
  }

  /** After every run, at every level: what the index holds is what rests there plus everything that the log says
      was filled there. */
  lemma IndexDriftsByFills(base: nat, ticks: nat, capacity: nat, mode: StpMode, cmds: seq<Command>, at: Place)
    ensures var c := Run(NewEngine(base, ticks, capacity, mode), cmds).core;
            IndexAt(c.book, at) == LevelQty(c.book, at) + FilledAt(c.log, at)
  {
    var e := NewEngine(base, ticks, capacity, mode);
    NewEngineSound(base, ticks, capacity, mode);
    NoStopEnters(e, cmds);
    AgreementCarries(at);
    assert Agrees(at, e.core);
    RunCarried(Agreement(at), OfRequest(NoStop), OfRequest(NoStop), e, cmds);
    var c := Run(e, cmds).core;
    assert Agrees(at, c);
    assert DriftAt(c.book, at, TradedAt(c.notes, at));
  }

  /** A rejection for want of liquidity is never wrong: the crossable orders really fall short. */
  lemma RejectionIsJustified(c: Core, n: Request)
    requires Sound(c) && !n.orderType.PostOnly? && !n.orderType.StopLimit?
    requires Rejection(c, n) == Some(InsufficientLiquidity)
    ensures Enter(c, n) == Reject(c, n.id, InsufficientLiquidity)
    ensures n.tif.FOK? && Total(Crossable(c.book.queues, TakerOf(n))) < n.qty
  {
    AvailableIsHeldPlusDrift(c, TakerOf(n));
  }
}
