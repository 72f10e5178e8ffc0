/** Soundness and conservation through every round, match, order, stop cascade, command and run. */
module EngineRuns {
  import opened Types
  import opened BookSpec
  import opened BookLedger
  import opened EngineSpec
  import opened EngineFacts

  /** The first maker in a well-formed book is the head of its best opposing level. */
  lemma FirstMakerFacts(b: Book, side: Side)
    requires Shape(b)
    ensures FirstMaker(b, side).None? <==> b.Of(side).best.None?
    ensures var first := FirstMaker(b, side);
            first.Some? ==>
              var m, pl := first.value, Place(side, b.Of(side).best.value);
              && pl in b.queues && b.queues[pl] != [] && b.queues[pl][0] == m
              && m.side == side && m.price == pl.price
              && m.id in b.ids && b.ids[m.id] == pl && Resting(b, m.id) && OrderOf(b, m.id) == m
              && PositionOf(b.queues[pl], m.id) == 0
  {
    if b.Of(side).best.Some? {
      assert b.Of(side).best.value in Prices(b.queues, side);
      HeadRests(b, Place(side, b.Of(side).best.value));
    }
  }

  /** The state is sound, and an account changed only for the taker, by what it was consumed. */
  ghost predicate Consumed(c: Core, c': Core, taker: nat, spent: int) {
    && Sound(c')
    && forall x {:trigger Balance(c', x)} :: Balance(c', x) == Balance(c, x) - if x == taker then spent else 0
  }

  lemma EmitLevelFacts(c: Core, pl: Place)
    requires Sound(c)
    ensures Sound(EmitLevel(c, pl)) && EmitLevel(c, pl).book == c.book
    ensures forall x {:trigger Balance(EmitLevel(c, pl), x)} :: Balance(EmitLevel(c, pl), x) == Balance(c, x)
  {
    EmitSound(c, BookUpdate(0, pl.side, pl.price, LevelQty(c.book, pl)));
    forall x ensures Balance(EmitLevel(c, pl), x) == Balance(c, x) {
      EmitBalance(c, BookUpdate(0, pl.side, pl.price, LevelQty(c.book, pl)), x);
    }
  }

  /** Removing an order and reporting its remainder as cancelled settles its account. */
  lemma CancelledFacts(c: Core, id: nat)
    requires Sound(c) && id in c.book.ids
    ensures Resting(c.book, id)
    ensures var o := OrderOf(c.book, id);
            Consumed(c, EmitLevel(Emit(c.(book := Remove(c.book, id)), OrderCancelled(0, id, o.Remaining())),
                                  Place(o.side, o.price)), 0, 0)
  {
    RemoveSound(c, id);
    var o := OrderOf(c.book, id);
    var gone := c.(book := Remove(c.book, id));
    EmitSound(gone, OrderCancelled(0, id, o.Remaining()));
    var told := Emit(gone, OrderCancelled(0, id, o.Remaining()));
    EmitLevelFacts(told, Place(o.side, o.price));
    forall x ensures Balance(EmitLevel(told, Place(o.side, o.price)), x) == Balance(c, x) {
      EmitBalance(gone, OrderCancelled(0, id, o.Remaining()), x);
      assert Balance(gone, x) == Balance(c, x) + if x == id then Rest(c.book, id) else 0;
    }
  }

  lemma DecrementFacts(c: Core, t: Taker, rem: nat, m: Order)
    requires Sound(c) && m.id in c.book.ids && Resting(c.book, m.id) && OrderOf(c.book, m.id) == m
    requires 0 < rem && 0 < m.Remaining()
    ensures Consumed(c, Decrement(c, t, rem, m), t.id, Min(rem, m.Remaining()))
  {
    var overlap := Min(rem, m.Remaining());
    var b := if overlap == m.Remaining() then Remove(c.book, m.id) else Reduce(c.book, m.id, overlap);
    var c1 := c.(book := b);
    if overlap == m.Remaining() {
      RemoveSound(c, m.id);
    } else {
      ReduceSound(c, m.id, overlap);
    }
    NotedSound(c1, StpCut(m.id, overlap));
    var c2 := Noted(c1, StpCut(m.id, overlap));
    NotedSound(c2, StpCut(t.id, overlap));
    var c3 := Noted(c2, StpCut(t.id, overlap));
    assert c3 == c.(book := b, notes := c.notes + [StpCut(m.id, overlap), StpCut(t.id, overlap)]) by {
      assert c.notes + [StpCut(m.id, overlap)] + [StpCut(t.id, overlap)]
          == c.notes + [StpCut(m.id, overlap), StpCut(t.id, overlap)];
    }
    EmitLevelFacts(c3, Place(m.side, m.price));
    forall x ensures Balance(c3, x) == Balance(c, x) - if x == t.id then overlap else 0 {
      NotedBalance(c1, StpCut(m.id, overlap), x);
      NotedBalance(c2, StpCut(t.id, overlap), x);
      assert Balance(c1, x) == Balance(c, x) + if x == m.id then overlap else 0;
    }
  }

  lemma ToldFacts(c: Core, t: Taker, m: Order, qty: nat, left: nat, rest: nat)
    requires Numbered(c.log)
    ensures var c' := Told(c, t, m, qty, left, rest);
            && c'.book == c.book && c'.notes == c.notes && c'.mode == c.mode && Numbered(c'.log)
            && forall x {:trigger Balance(c', x)} ::
                 Balance(c', x) == Balance(c, x) - (if x == m.id then qty else 0) - (if x == t.id then qty else 0)
  {
    var e := Fill(0, m.id, t.id, m.price, qty, left, rest);
    var c1 := Emit(c, e).(last := Some(m.price));
    var u := BookUpdate(0, m.side, m.price, LevelQty(c.book, Place(m.side, m.price)));
    var c' := Told(c, t, m, qty, left, rest);
    forall x ensures Balance(c', x) == Balance(c, x) - (if x == m.id then qty else 0) - (if x == t.id then qty else 0) {
      EmitBalance(c, e, x);
      EmitBalance(c1, u, x);
      assert Balance(c1, x) == Balance(Emit(c, e), x);
    }
  }

  lemma LeftAfter(m: Order, qty: nat)
    requires qty <= m.Remaining()
    ensures m.(filled := m.filled + qty).Remaining() == m.Remaining() - qty
  {
  }

  lemma WholeTrade(c: Core, t: Taker, m: Order, rest: nat)
    requires Sound(c) && m.id in c.book.ids && Resting(c.book, m.id) && OrderOf(c.book, m.id) == m
    ensures var filled := FilledCore(c, m.id, m.Remaining());
            var told := Told(filled, t, m, m.Remaining(), 0, rest);
            Consumed(c, Swept(told, m.id, 0), t.id, m.Remaining())
  {
    var filled := FilledCore(c, m.id, m.Remaining());
    var told := Told(filled, t, m, m.Remaining(), 0, rest);
    FillDrifts(c, m.id, m.Remaining());
    ToldFacts(filled, t, m, m.Remaining(), 0, rest);
    WholeFillSound(c, m.id);
    var gone := told.(book := Remove(told.book, m.id));
    SoundBookAndNotes(filled.(book := Remove(filled.book, m.id)), gone);
    forall x ensures Balance(gone, x) == Balance(c, x) - if x == t.id then m.Remaining() else 0 {
      assert Balance(filled.(book := Remove(filled.book, m.id)), x) == Balance(filled, x);
      assert Balance(told, x) == Balance(filled, x) - (if x == m.id then m.Remaining() else 0) - (if x == t.id then m.Remaining() else 0);
    }
  }

  lemma PartTrade(c: Core, t: Taker, m: Order, qty: nat, left: nat, rest: nat)
    requires Sound(c) && m.id in c.book.ids && Resting(c.book, m.id) && OrderOf(c.book, m.id) == m
    requires qty < m.Remaining()
    requires left > 0
    ensures Consumed(c, Swept(Told(FilledCore(c, m.id, qty), t, m, qty, left, rest), m.id, left), t.id, qty)
  {
    var filled := FilledCore(c, m.id, qty);
    PartFillSound(c, m.id, qty);
    FillDrifts(c, m.id, qty);
    ToldFacts(filled, t, m, qty, left, rest);
    var told := Told(filled, t, m, qty, left, rest);
    SoundBookAndNotes(filled, told);
    forall x ensures Balance(told, x) == Balance(c, x) - if x == t.id then qty else 0 {
      assert Balance(told, x) == Balance(filled, x) - (if x == m.id then qty else 0) - (if x == t.id then qty else 0);
    }
  }

  lemma SweptFacts(c: Core, t: Taker, rem: nat, m: Order, qty: nat, left: nat)
    requires Sound(c) && m.id in c.book.ids && Resting(c.book, m.id) && OrderOf(c.book, m.id) == m
    requires qty <= rem && qty + left == m.Remaining()
    ensures Consumed(c, Swept(Told(FilledCore(c, m.id, qty), t, m, qty, left, rem - qty), m.id, left), t.id, qty)
  {
    if left == 0 {
      WholeTrade(c, t, m, rem - qty);
    } else {
      PartTrade(c, t, m, qty, left, rem - qty);
    }
  }

  lemma TradeFacts(c: Core, t: Taker, rem: nat, m: Order, qty: nat)
    requires Sound(c) && m.id in c.book.ids && Resting(c.book, m.id) && OrderOf(c.book, m.id) == m
    requires qty <= rem && qty <= m.Remaining()
    ensures Consumed(c, TradeOf(c, t, rem, m, qty), t.id, qty)
  {
    LeftAfter(m, qty);
    SweptFacts(c, t, rem, m, qty, m.Remaining() - qty);
  }

  /** Soundness is about the book, the notes and the numbering. */
  lemma SoundBookAndNotes(c: Core, c': Core)
    requires Sound(c) && c'.book == c.book && c'.notes == c.notes && Numbered(c'.log)
    ensures Sound(c')
  {
    forall pl ensures DriftAt(c'.book, pl, TradedAt(c'.notes, pl)) {
      assert DriftAt(c.book, pl, TradedAt(c.notes, pl));
    }
  }

  lemma RoundFacts(c: Core, t: Taker, rem: nat)
    requires Sound(c) && rem > 0
    ensures var r := MatchRound(c, t, rem); r.rem <= rem && Consumed(c, r.c, t.id, rem - r.rem)
  {
    var side := t.side.Opposite();
    FirstMakerFacts(c.book, side);
    var first := FirstMaker(c.book, side);
    if first.Some? && Acceptable(t.side, t.price, c.book.Of(side).best.value) {
      var m := first.value;
      RemoveSound(c, m.id);
      if m.Remaining() == 0 {
      } else if SameGroup(t.stp, m.stp) {
        if c.mode.CancelOldest? || c.mode.CancelBoth? {
          CancelledFacts(c, m.id);
        } else if c.mode.DecrementAndCancel? {
          DecrementFacts(c, t, rem, m);
        }
      } else {
        TradeFacts(c, t, rem, m, Min(rem, MatchableQty(m)));
      }
    }
  }

  /** A match keeps the engine sound and consumes of the taker exactly what leaves its remainder. */
  lemma {:induction false} MatchFacts(c: Core, t: Taker, rem: nat)
    requires Sound(c)
    ensures var r := Match(c, t, rem); r.rem <= rem && Consumed(c, r.c, t.id, rem - r.rem)
    decreases rem + |c.book.ids|
  {
    if rem > 0 {
      var r := MatchRound(c, t, rem);
      RoundFacts(c, t, rem);
      if r.Again? {
        RoundProgresses(c, t, rem);
        MatchFacts(r.c, t, r.rem);
        forall x ensures Balance(Match(c, t, rem).c, x) == Balance(c, x) - if x == t.id then rem - Match(c, t, rem).rem else 0 {
          assert Balance(r.c, x) == Balance(c, x) - if x == t.id then rem - r.rem else 0;
        }
      }
    }
  }

  /* ---- New orders ---- */

  /** The rest of the order can be put on the book. */
  predicate Bookable(n: Request) {
    n.price < U64_LIMIT
  }

  lemma RejectFacts(c: Core, id: nat, reason: RejectReason)
    requires Sound(c)
    ensures Consumed(c, Reject(c, id, reason), id, 0)
  {
    EmitSound(c, OrderRejected(0, id, reason));
    forall x ensures Balance(Reject(c, id, reason), x) == Balance(c, x) {
      EmitBalance(c, OrderRejected(0, id, reason), x);
    }
  }

  lemma AcceptedFacts(c: Core, n: Request)
    requires Sound(c)
    ensures Consumed(c, Accepted(c, n), n.id, -(n.qty as int)) && Accepted(c, n).book == c.book
  {
    var e := OrderAccepted(0, n.id, n.side, n.price, n.qty, n.orderType);
    EmitSound(c, e);
    forall x ensures Balance(Accepted(c, n), x) == Balance(c, x) + if x == n.id then n.qty else 0 {
      EmitBalance(c, e, x);
    }
  }

  lemma RestedFacts(c: Core, n: Request, qty: nat)
    requires Sound(c) && Bookable(n)
    ensures Consumed(c, Rested(c, n, qty), n.id, qty)
  {
    var o := Booked(n.id, n.side, n.price, qty, n.orderType, n.visible, n.stpGroup);
    var kept := if Refuses(c.book, n.id) then Noted(c, Dropped(n.id, qty)) else c.(book := Insert(c.book, o));
    if Refuses(c.book, n.id) {
      NotedSound(c, Dropped(n.id, qty));
    } else {
      InsertSound(c, o);
    }
    var u := BookUpdate(0, n.side, n.price, qty);
    EmitSound(kept, u);
    forall x ensures Balance(Rested(c, n, qty), x) == Balance(c, x) - if x == n.id then qty else 0 {
      NotedBalance(c, Dropped(n.id, qty), x);
      EmitBalance(kept, u, x);
    }
  }

  lemma CancelRestFacts(c: Core, id: nat, rem: nat)
    requires Sound(c)
    ensures Consumed(c, Emit(c, OrderCancelled(0, id, rem)), id, rem)
  {
    EmitSound(c, OrderCancelled(0, id, rem));
    forall x ensures Balance(Emit(c, OrderCancelled(0, id, rem)), x) == Balance(c, x) - if x == id then rem else 0 {
      EmitBalance(c, OrderCancelled(0, id, rem), x);
    }
  }

  lemma SettleFacts(c: Core, n: Request, rem: nat, cancel: bool)
    requires Sound(c) && Bookable(n) && !n.orderType.PostOnly? && !n.orderType.StopLimit?
    ensures Consumed(c, Settle(c, n, rem, cancel), n.id, rem)
  {
    if cancel || (!Rests(n) && rem > 0) {
      CancelRestFacts(c, n.id, rem);
    } else if rem > 0 {
      RestedFacts(c, n, rem);
    }
  }

  /** The account of an order that enters is settled by the time it has entered:
      what is accepted is filled, cancelled, decremented, dropped, or rests. */
  lemma EnterFacts(c: Core, n: Request)
    requires Sound(c) && Bookable(n) && !n.orderType.StopLimit?
    ensures Consumed(c, Enter(c, n), n.id, 0)
  {
    var c1 := Accepted(c, n);
    AcceptedFacts(c, n);
    if n.orderType.PostOnly? {
      RejectFacts(c, n.id, WouldCrossSpread);
      RestedFacts(c1, n, n.qty);
      Twice(c, c1, Rested(c1, n, n.qty), n.id, -(n.qty as int), n.qty);
    } else if Rejection(c, n).Some? {
      RejectFacts(c, n.id, Rejection(c, n).value);
    } else {
      MatchFacts(c1, TakerOf(n), n.qty);
      var r := Match(c1, TakerOf(n), n.qty);
      Twice(c, c1, r.c, n.id, -(n.qty as int), n.qty - r.rem);
      SettleFacts(r.c, n, r.rem, r.cancel);
      Twice(c, r.c, Settle(r.c, n, r.rem, r.cancel), n.id, -(r.rem as int), r.rem);
    }
  }

  /** Consumption adds up. */
  lemma Twice(c: Core, c1: Core, c2: Core, id: nat, first: int, second: int)
    requires Consumed(c, c1, id, first) && Consumed(c1, c2, id, second)
    ensures Consumed(c, c2, id, first + second)
  {
    forall x ensures Balance(c2, x) == Balance(c, x) - if x == id then first + second else 0 {
      assert Balance(c1, x) == Balance(c, x) - if x == id then first else 0;
    }
  }

  /* ---- Stops ---- */

  /** What waits as a stop under an id. */
  function Waiting(stops: Stops, id: nat): nat {
    if stops == [] then 0 else (if stops[0].1.id == id then stops[0].1.qty else 0) + Waiting(stops[1..], id)
  }

  ghost predicate StopsBookable(stops: Stops) {
    forall k :: 0 <= k < |stops| ==> stops[k].1.limitPrice < U64_LIMIT
  }

  lemma {:induction false} WaitingInserted(stops: Stops, k: nat, s: (nat, StopEntry), id: nat)
    requires k <= |stops|
    ensures Waiting(Inserted(stops, k, s), id) == Waiting(stops, id) + if s.1.id == id then s.1.qty else 0
  {
    if k == 0 {
      assert Inserted(stops, 0, s) == [s] + stops;
    } else {
      WaitingInserted(stops[1..], k - 1, s, id);
      assert Inserted(stops, k, s)[1..] == Inserted(stops[1..], k - 1, s);
    }
  }

  /** Firing a stop takes its quantity out of the queue and enters it as a new order. */
  lemma FireOneFacts(c: Core, s: StopEntry)
    requires Sound(c) && s.limitPrice < U64_LIMIT
    ensures Consumed(c, FireOne(c, s), s.id, s.qty)
  {
    var c1 := Emit(c, StopTriggered(0, s.id));
    var c2 := Noted(c1, Fired(s.id, s.qty));
    EmitSound(c, StopTriggered(0, s.id));
    NotedSound(c1, Fired(s.id, s.qty));
    forall x ensures Balance(c2, x) == Balance(c, x) - if x == s.id then s.qty else 0 {
      EmitBalance(c, StopTriggered(0, s.id), x);
      NotedBalance(c1, Fired(s.id, s.qty), x);
    }
    EnterFacts(c2, FiredRequest(s));
    Twice(c, c2, FireOne(c, s), s.id, s.qty, 0);
  }

  lemma {:induction false} FireFacts(c: Core, side: Side, stops: Stops, last: nat)
    requires Sound(c) && StopsBookable(stops)
    ensures var r := Fire(c, side, stops, last);
            && Sound(r.0) && StopsBookable(r.1)
            && forall x {:trigger Balance(r.0, x)} :: Balance(r.0, x) - Waiting(r.1, x) == Balance(c, x) - Waiting(stops, x)
    decreases |stops|
  {
    if stops != [] && Triggered(side, stops[0].0, last) {
      FireOneFacts(c, stops[0].1);
      var c1 := FireOne(c, stops[0].1);
      FireFacts(c1, side, stops[1..], last);
      var r := Fire(c, side, stops, last);
      forall x ensures Balance(r.0, x) - Waiting(r.1, x) == Balance(c, x) - Waiting(stops, x) {
        assert Balance(c1, x) == Balance(c, x) - if x == stops[0].1.id then stops[0].1.qty else 0;
      }
    }
  }

  /* ---- The engine ---- */

  /** Accepted, minus everything that left, minus what rests, minus what waits as a stop. */
  function Unaccounted(e: Engine, id: nat): int {
    Balance(e.core, id) - Waiting(e.stopBids, id) - Waiting(e.stopAsks, id)
  }

  ghost predicate SoundEngine(e: Engine) {
    Sound(e.core) && StopsBookable(e.stopBids) && StopsBookable(e.stopAsks)
  }

  ghost predicate SameAccounts(e: Engine, e': Engine) {
    forall x {:trigger Unaccounted(e', x)} :: Unaccounted(e', x) == Unaccounted(e, x)
  }

  lemma {:induction false} DrainFacts(e: Engine)
    requires SoundEngine(e)
    ensures SoundEngine(Drain(e)) && SameAccounts(e, Drain(e))
    decreases |e.stopBids| + |e.stopAsks|
  {
    if e.core.last.Some? {
      var price := e.core.last.value;
      FireFacts(e.core, Bid, e.stopBids, price);
      var (c1, bids) := Fire(e.core, Bid, e.stopBids, price);
      FireFacts(c1, Ask, e.stopAsks, price);
      var (c2, asks) := Fire(c1, Ask, e.stopAsks, price);
      var e' := Engine(c2, bids, asks);
      forall x ensures Unaccounted(e', x) == Unaccounted(e, x) {
        assert Balance(c2, x) - Waiting(asks, x) == Balance(c1, x) - Waiting(e.stopAsks, x);
        assert Balance(c1, x) - Waiting(bids, x) == Balance(e.core, x) - Waiting(e.stopBids, x);
      }
      if c2.last != Some(price) {
        DrainFacts(e');
        forall x ensures Unaccounted(Drain(e), x) == Unaccounted(e, x) {
          assert Unaccounted(Drain(e'), x) == Unaccounted(e', x);
        }
      }
    }
  }

  lemma CoreOnly(e: Engine, c: Core)
    requires SoundEngine(e) && Consumed(e.core, c, 0, 0)
    ensures SoundEngine(e.(core := c)) && SameAccounts(e, e.(core := c))
  {
    forall x ensures Unaccounted(e.(core := c), x) == Unaccounted(e, x) {
      assert Balance(c, x) == Balance(e.core, x);
    }
  }

  lemma AnyTaker(c: Core, c': Core, id: nat)
    requires Consumed(c, c', id, 0)
    ensures Consumed(c, c', 0, 0)
  {
    forall x ensures Balance(c', x) == Balance(c, x) {
    }
  }

  lemma PlaceStopFacts(e: Engine, n: Request, stopPrice: Option<nat>)
    requires SoundEngine(e) && Bookable(n)
    ensures SoundEngine(PlaceStop(e, n, stopPrice)) && SameAccounts(e, PlaceStop(e, n, stopPrice))
  {
    if n.qty == 0 || stopPrice.None? {
      var reason := if n.qty == 0 then InvalidQuantity else InvalidPrice;
      RejectFacts(e.core, n.id, reason);
      AnyTaker(e.core, Reject(e.core, n.id, reason), n.id);
      CoreOnly(e, Reject(e.core, n.id, reason));
    } else {
      AcceptedFacts(e.core, n);
      var s := (stopPrice.value, StopEntry(n.id, n.side, n.price, n.qty, n.tif, n.visible, n.stpGroup));
      var stops := if n.side.Bid? then e.stopBids else e.stopAsks;
      var k := StopPosition(n.side, stops, stopPrice.value);
      forall x ensures Unaccounted(PlaceStop(e, n, stopPrice), x) == Unaccounted(e, x) {
        WaitingInserted(stops, k, s, x);
        assert Balance(Accepted(e.core, n), x) == Balance(e.core, x) + if x == n.id then n.qty else 0;
      }
    }
  }

  lemma WithdrawFacts(c: Core, id: nat, newPrice: nat, newQty: nat)
    requires Sound(c) && Resting(c.book, id)
    ensures Consumed(c, Withdraw(c, id, newPrice, newQty), id, 0)
    ensures |Withdraw(c, id, newPrice, newQty).log| == |c.log| + 2
  {
    RemoveSound(c, id);
    var o := OrderOf(c.book, id);
    var c1 := c.(book := Remove(c.book, id));
    NotedSound(c1, Withdrawn(id, o.Remaining()));
    var c2 := Noted(c1, Withdrawn(id, o.Remaining()));
    EmitSound(c2, OrderModified(0, id, newPrice, newQty));
    var c3 := Emit(c2, OrderModified(0, id, newPrice, newQty));
    EmitLevelFacts(c3, Place(o.side, o.price));
    var c4 := EmitLevel(c3, Place(o.side, o.price));
    forall x ensures Balance(c4, x) == Balance(c, x) {
      NotedBalance(c1, Withdrawn(id, o.Remaining()), x);
      EmitBalance(c2, OrderModified(0, id, newPrice, newQty), x);
      assert Balance(c1, x) == Balance(c, x) + if x == id then Rest(c.book, id) else 0;
    }
  }

  lemma ModifyFacts(c: Core, id: nat, newPrice: nat, newQty: nat)
    requires Sound(c) && newPrice < U64_LIMIT
    ensures Consumed(c, Modify(c, id, newPrice, newQty), id, 0)
  {
    if Resting(c.book, id) {
      WithdrawFacts(c, id, newPrice, newQty);
      var told := Withdraw(c, id, newPrice, newQty);
      EnterFacts(told, Replacement(c, id, newPrice, newQty));
      Twice(c, told, Modify(c, id, newPrice, newQty), id, 0, 0);
    } else {
      RejectFacts(c, id, OrderNotFound);
    }
  }

  lemma ObeyFacts(e: Engine, cmd: Command)
    requires SoundEngine(e)
    ensures SoundEngine(Obey(e, cmd)) && SameAccounts(e, Obey(e, cmd))
  {
    match cmd
    case NewOrder(id, _, _, price, _, orderType, _, _, stopPrice, _) =>
      if orderType.StopLimit? {
        PlaceStopFacts(e, RequestOf(cmd), if stopPrice.Some? then Some(stopPrice.value) else None);
      } else {
        EnterFacts(e.core, RequestOf(cmd));
        AnyTaker(e.core, Enter(e.core, RequestOf(cmd)), id);
        CoreOnly(e, Enter(e.core, RequestOf(cmd)));
      }
    case CancelOrder(id) =>
      if Resting(e.core.book, id) {
        CancelledFacts(e.core, id);
      } else {
        RejectFacts(e.core, id, OrderNotFound);
        AnyTaker(e.core, Cancel(e.core, id), id);
      }
      CoreOnly(e, Cancel(e.core, id));
    case ModifyOrder(id, newPrice, newQty) =>
      ModifyFacts(e.core, id, newPrice, newQty);
      AnyTaker(e.core, Modify(e.core, id, newPrice, newQty), id);
      CoreOnly(e, Modify(e.core, id, newPrice, newQty));
  }

  lemma ProcessFacts(e: Engine, cmd: Command)
    requires SoundEngine(e)
    ensures SoundEngine(Process(e, cmd)) && SameAccounts(e, Process(e, cmd))
  {
    ObeyFacts(e, cmd);
    DrainFacts(Obey(e, cmd));
    forall x ensures Unaccounted(Process(e, cmd), x) == Unaccounted(e, x) {
      assert Unaccounted(Process(e, cmd), x) == Unaccounted(Obey(e, cmd), x);
    }
  }

  lemma {:induction false} RunFacts(e: Engine, cmds: seq<Command>)
    requires SoundEngine(e)
    ensures SoundEngine(Run(e, cmds)) && SameAccounts(e, Run(e, cmds))
    decreases |cmds|
  {
    if cmds != [] {
      ProcessFacts(e, cmds[0]);
      RunFacts(Process(e, cmds[0]), cmds[1..]);
      forall x ensures Unaccounted(Run(e, cmds), x) == Unaccounted(e, x) {
        assert Unaccounted(Run(e, cmds), x) == Unaccounted(Process(e, cmds[0]), x);
      }
    }
  }

  lemma NewEngineSound(base: nat, ticks: nat, capacity: nat, mode: StpMode)
    ensures SoundEngine(NewEngine(base, ticks, capacity, mode))
    ensures forall x :: Unaccounted(NewEngine(base, ticks, capacity, mode), x) == 0
  {
    var e := NewEngine(base, ticks, capacity, mode);
    forall pl ensures DriftAt(e.core.book, pl, TradedAt(e.core.notes, pl)) {
    }
  }

  /** Conservation: after any run, for every order id, the quantity accepted is the quantity filled,
      cancelled, decremented, withdrawn, fired or dropped, plus what rests and what waits. */
  lemma Conservation(base: nat, ticks: nat, capacity: nat, mode: StpMode, cmds: seq<Command>, id: nat)
    ensures var e := Run(NewEngine(base, ticks, capacity, mode), cmds);
            LogFlow(e.core.log, id) + NotesFlow(e.core.notes, id)
              == Rest(e.core.book, id) + Waiting(e.stopBids, id) + Waiting(e.stopAsks, id)
  {
    NewEngineSound(base, ticks, capacity, mode);
    RunFacts(NewEngine(base, ticks, capacity, mode), cmds);
    assert Unaccounted(Run(NewEngine(base, ticks, capacity, mode), cmds), id) == 0;
  }
}
