/** What the level updates of a whole run say: the last one of each level is
    what the level holds, exactly as long as orders come to rest at levels that
    hold nothing. */
module Tickers {
  import opened Types
  import opened BookSpec
  import opened BookFacts
  import opened BookLedger
  import opened EngineSpec
  import opened EngineRuns
  import opened Rounds
  import opened Routes
  import opened Greedy
  import opened Entries
  import opened Entering
  import opened OrderlyBooks
  import opened Outcomes
  import opened Crossing
  import opened Reports

  /** What the last update of a level said, nothing if there was none. */
  function LastReport(log: seq<Event>, pl: Place): nat {
    if log == [] then 0
    else
      var e := log[|log| - 1];
      if e.BookUpdate? && Place(e.side, e.price) == pl then e.qty else LastReport(log[..|log| - 1], pl)
  }

  ghost predicate Tallies(c: Core, pl: Place) {
    LastReport(c.log, pl) == LevelQty(c.book, pl)
  }

  /** The last update of every level says what it holds. */
  ghost predicate Truthful(c: Core) {
    forall pl {:trigger Tallies(c, pl)} :: Tallies(c, pl)
  }

  lemma LastReportAppend(log: seq<Event>, e: Event, pl: Place)
    ensures LastReport(log + [e], pl) == if e.BookUpdate? && Place(e.side, e.price) == pl then e.qty else LastReport(log, pl)
  {
    assert (log + [e])[..|log|] == log;
  }

  /* ---- Steps ---- */

  lemma EmitTells(c: Core, e: Event)
    requires Truthful(c) && !e.BookUpdate?
    ensures Truthful(Emit(c, e))
  {
    forall pl ensures Tallies(Emit(c, e), pl) {
      LastReportAppend(c.log, Emit(c, e).log[|c.log|], pl);
      assert Tallies(c, pl);
    }
  }

  lemma SameTells(c: Core, c': Core)
    requires Truthful(c) && c'.log == c.log
    requires forall pl {:trigger LevelQty(c'.book, pl)} :: LevelQty(c'.book, pl) == LevelQty(c.book, pl)
    ensures Truthful(c')
  {
    forall pl ensures Tallies(c', pl) {
      assert Tallies(c, pl);
      assert LevelQty(c'.book, pl) == LevelQty(c.book, pl);
    }
  }

  /** Away from one level the book and its reports are as they were. */
  ghost predicate ElsewhereTells(c: Core, pl: Place) {
    forall x {:trigger Tallies(c, x)} :: x != pl ==> Tallies(c, x)
  }

  /** Reporting a level sets it right. */
  lemma LevelTells(c: Core, pl: Place)
    requires ElsewhereTells(c, pl)
    ensures Truthful(EmitLevel(c, pl))
  {
    var u := BookUpdate(|c.log| + 1, pl.side, pl.price, LevelQty(c.book, pl));
    forall x ensures Tallies(EmitLevel(c, pl), x) {
      LastReportAppend(c.log, u, x);
      assert x != pl ==> Tallies(c, x);
    }
  }

  lemma OtherEvent(c: Core, e: Event, pl: Place)
    requires ElsewhereTells(c, pl) && !e.BookUpdate?
    ensures ElsewhereTells(Emit(c, e), pl)
  {
    forall x | x != pl ensures Tallies(Emit(c, e), x) {
      LastReportAppend(c.log, Emit(c, e).log[|c.log|], x);
      assert Tallies(c, x);
    }
  }

  /** A change at one level leaves the others told. */
  lemma OneLevel(c: Core, c': Core, pl: Place)
    requires Truthful(c) && c'.log == c.log
    requires forall x {:trigger QueueAt(c'.book.queues, x)} :: x != pl ==> QueueAt(c'.book.queues, x) == QueueAt(c.book.queues, x)
    ensures ElsewhereTells(c', pl)
  {
    forall x | x != pl ensures Tallies(c', x) {
      assert Tallies(c, x);
      assert QueueAt(c'.book.queues, x) == QueueAt(c.book.queues, x);
    }
  }

  lemma RemoveElsewhere(c: Core, id: nat)
    requires Truthful(c) && Resting(c.book, id)
    ensures ElsewhereTells(c.(book := Remove(c.book, id)), c.book.ids[id])
  {
    OneLevel(c, c.(book := Remove(c.book, id)), c.book.ids[id]);
  }

  /** An order with nothing left leaves unnoticed. */
  lemma EmptyRemoval(c: Core, id: nat)
    requires Shape(c.book) && Truthful(c) && id in c.book.ids && Rest(c.book, id) == 0
    ensures Resting(c.book, id) && Truthful(c.(book := Remove(c.book, id)))
  {
    RemovedLevel(c.book, id);
    var c' := c.(book := Remove(c.book, id));
    forall pl ensures LevelQty(c'.book, pl) == LevelQty(c.book, pl) {
    }
    SameTells(c, c');
  }

  /** Removing an order, one event that is no update, and the level's update. */
  lemma RemovalTells(c: Core, id: nat, e: Event)
    requires Truthful(c) && Resting(c.book, id) && !e.BookUpdate?
    ensures Truthful(EmitLevel(Emit(c.(book := Remove(c.book, id)), e), c.book.ids[id]))
  {
    RemoveElsewhere(c, id);
    OtherEvent(c.(book := Remove(c.book, id)), e, c.book.ids[id]);
    LevelTells(Emit(c.(book := Remove(c.book, id)), e), c.book.ids[id]);
  }

  lemma ToldTells(c: Core, t: Taker, m: Order, qty: nat, left: nat, rest: nat)
    requires ElsewhereTells(c, Place(m.side, m.price))
    ensures Truthful(Told(c, t, m, qty, left, rest))
  {
    var pl := Place(m.side, m.price);
    var fill := Fill(0, m.id, t.id, m.price, qty, left, rest);
    OtherEvent(c, fill, pl);
    LastIsNoMatter(Emit(c, fill), Some(m.price), pl);
    LevelTells(Emit(c, fill).(last := Some(m.price)), pl);
  }

  lemma SweptTells(c: Core, id: nat, left: nat)
    requires Shape(c.book) && Truthful(c) && id in c.book.ids && (left == 0 ==> Rest(c.book, id) == 0)
    ensures Truthful(Swept(c, id, left))
  {
    if left == 0 {
      EmptyRemoval(c, id);
    }
  }

  lemma FilledTells(c: Core, m: Order, qty: nat)
    requires Shape(c.book) && Truthful(c) && m.id in c.book.ids && Resting(c.book, m.id) && OrderOf(c.book, m.id) == m
    requires c.book.ids[m.id] == Place(m.side, m.price) && qty <= m.Remaining()
    ensures var filled := FilledCore(c, m.id, qty);
            && ElsewhereTells(filled, Place(m.side, m.price))
            && Shape(filled.book) && m.id in filled.book.ids && Rest(filled.book, m.id) == m.Remaining() - qty
  {
    OneLevel(c, FilledCore(c, m.id, qty), Place(m.side, m.price));
    FillKeepsShape(c.book, m.id, qty);
    FillRest(c.book, m.id, qty, m.id);
  }

  lemma ToldAndSwept(c: Core, t: Taker, m: Order, qty: nat, left: nat, rest: nat, c': Core)
    requires ElsewhereTells(c, Place(m.side, m.price)) && Shape(c.book) && m.id in c.book.ids && Rest(c.book, m.id) == left
    requires c' == Swept(Told(c, t, m, qty, left, rest), m.id, left)
    ensures Truthful(c')
  {
    ToldTells(c, t, m, qty, left, rest);
    SweptTells(Told(c, t, m, qty, left, rest), m.id, left);
  }

  lemma TradeTells(c: Core, t: Taker, rem: nat, m: Order, qty: nat, c': Core)
    requires Shape(c.book) && Truthful(c) && m.id in c.book.ids && Resting(c.book, m.id) && OrderOf(c.book, m.id) == m
    requires c.book.ids[m.id] == Place(m.side, m.price) && qty <= rem && qty <= m.Remaining()
    requires c' == TradeOf(c, t, rem, m, qty)
    ensures Truthful(c')
  {
    LeftAfter(m, qty);
    FilledTells(c, m, qty);
    ToldAndSwept(FilledCore(c, m.id, qty), t, m, qty, m.Remaining() - qty, rem - qty, c');
  }

  lemma LastIsNoMatter(c: Core, last: Option<nat>, pl: Place)
    requires ElsewhereTells(c, pl)
    ensures ElsewhereTells(c.(last := last), pl)
  {
    forall x | x != pl ensures Tallies(c.(last := last), x) {
      assert Tallies(c, x);
    }
  }

  lemma DecrementTells(c: Core, t: Taker, rem: nat, m: Order)
    requires Truthful(c) && m.id in c.book.ids && Resting(c.book, m.id) && c.book.ids[m.id] == Place(m.side, m.price)
    ensures Truthful(Decrement(c, t, rem, m))
  {
    var overlap := Min(rem, m.Remaining());
    var b := if overlap == m.Remaining() then Remove(c.book, m.id) else Reduce(c.book, m.id, overlap);
    var c' := c.(book := b, notes := c.notes + [StpCut(m.id, overlap), StpCut(t.id, overlap)]);
    OneLevel(c, c', Place(m.side, m.price));
    LevelTells(c', Place(m.side, m.price));
  }

  lemma RoundTells(c: Core, t: Taker, rem: nat)
    requires Shape(c.book) && Truthful(c)
    ensures Truthful(MatchRound(c, t, rem).c)
  {
    var opp := t.side.Opposite();
    FirstMakerFacts(c.book, opp);
    RoundCases(c, t, rem);
    var first := FirstMaker(c.book, opp);
    if first.Some? {
      var m := first.value;
      RemovalTells(c, m.id, OrderCancelled(0, m.id, m.Remaining()));
      DecrementTells(c, t, rem, m);
      TradeTells(c, t, rem, m, Min(rem, MatchableQty(m)), TradeOf(c, t, rem, m, Min(rem, MatchableQty(m))));
      if m.Remaining() == 0 {
        EmptyRemoval(c, m.id);
      }
    }
  }

  lemma {:induction false} MatchTells(c: Core, t: Taker, rem: nat, r: Round)
    requires Shape(c.book) && Truthful(c) && r == Match(c, t, rem)
    ensures Truthful(r.c)
    decreases rem + |c.book.ids|
  {
    if rem > 0 {
      var first := MatchRound(c, t, rem);
      RoundTells(c, t, rem);
      if first.Again? {
        RoundProgresses(c, t, rem);
        RoundKeepsShape(c, t, rem);
        MatchTells(first.c, t, first.rem, r);
      }
    }
  }

  /* ---- Orders that come to rest ---- */

  /** Resting an order tells right exactly when its level held nothing or, should the insertion be refused, just its quantity. */
  lemma RestedTells(c: Core, n: Request, qty: nat)
    requires Truthful(c)
    ensures Truthful(Rested(c, n, qty))
        <==> LevelQty(c.book, Place(n.side, n.price)) == if Refuses(c.book, n.id) then qty else 0
  {
    var pl := Place(n.side, n.price);
    var c' := Rested(c, n, qty);
    RestingReportIsPartial(c, n, qty);
    var u := BookUpdate(|c.log| + 1, n.side, n.price, qty);
    forall x ensures x != pl ==> Tallies(c', x) {
      LastReportAppend(c.log, u, x);
      assert Tallies(c, x);
    }
    LastReportAppend(c.log, u, pl);
    assert Tallies(c', pl) <==> LevelQty(c'.book, pl) == qty;
  }

  /** What an order that comes to rest reports. */
  ghost function RestReport(c: Core, n: Request): Option<nat> {
    var makers := Route(c.book, TakerOf(n));
    if n.orderType.PostOnly? then (if WouldCross(c.book, n.side, n.price) then None else Some(n.qty))
    else if && Rests(n) && Rejection(c, n).None?
            && Fillable(c.mode, makers, n.stpGroup) < n.qty && !Cancels(c.mode, makers, n.stpGroup)
    then Some(n.qty - Fillable(c.mode, makers, n.stpGroup))
    else None
  }

  /** Its insertion is refused: its id rests already, or the arena is full and no maker leaves it. */
  ghost predicate TurnedAway(c: Core, n: Request) {
    n.id in c.book.ids || c.book.room + Gone(c.mode, Route(c.book, TakerOf(n)), n.stpGroup) == 0
  }

  /** If the order comes to rest, its level held nothing, or its insertion is refused and the level held just what it reports. */
  ghost predicate RestsRightly(c: Core, n: Request) {
    RestReport(c, n).Some? ==>
      LevelQty(c.book, Place(n.side, n.price)) == if TurnedAway(c, n) then RestReport(c, n).value else 0
  }

  lemma PostTells(c: Core, n: Request)
    requires Shape(c.book) && Truthful(c) && n.orderType.PostOnly?
    ensures Truthful(Enter(c, n)) <==> RestsRightly(c, n)
  {
    RouteStarts(c.book, TakerOf(n));
    if WouldCross(c.book, n.side, n.price) {
      EmitTells(c, OrderRejected(0, n.id, WouldCrossSpread));
    } else {
      EmitTells(c, OrderAccepted(0, n.id, n.side, n.price, n.qty, n.orderType));
      RestedTells(Accepted(c, n), n, n.qty);
    }
  }

  lemma SettleTells(c: Core, n: Request, r: Round)
    requires Shape(c.book) && !n.orderType.PostOnly? && Rejection(c, n).None?
    requires r.Done? && Truthful(r.c) && Within(r.c.book, c.book) && Greedily(Accepted(c, n), TakerOf(n), n.qty, r)
    ensures Truthful(Settle(r.c, n, r.rem, r.cancel)) <==> RestsRightly(c, n)
  {
    var makers := Route(c.book, TakerOf(n));
    EmitTells(r.c, OrderCancelled(0, n.id, r.rem));
    ConsumeFills(c.mode, makers, n.stpGroup, n.qty);
    if n.qty > Fillable(c.mode, makers, n.stpGroup) {
      ConsumeLeaves(c.mode, makers, n.stpGroup, n.qty);
      if Rests(n) && !r.cancel {
        LackTells(c, n, r.c, r.rem);
      }
    }
  }

  lemma LackTells(c: Core, n: Request, after: Core, rem: nat)
    requires Truthful(after) && Within(after.book, c.book) && n.id !in c.book.ids
    requires var makers := Route(c.book, TakerOf(n));
             Leaves(c.book, after.book, TakerOf(n), makers[Gone(c.mode, makers, n.stpGroup)..])
    ensures Truthful(Rested(after, n, rem))
        <==> LevelQty(c.book, Place(n.side, n.price)) == if TurnedAway(c, n) then rem else 0
  {
    RestedTells(after, n, rem);
    assert QueueAt(after.book.queues, Place(n.side, n.price)) == QueueAt(c.book.queues, Place(n.side, n.price));
  }

  /** Whatever enters a truthful state leaves it truthful exactly when it rests rightly, if it rests. */
  lemma EnterTells(c: Core, n: Request)
    requires Shape(c.book) && Truthful(c)
    ensures Truthful(Enter(c, n)) <==> RestsRightly(c, n)
  {
    if n.orderType.PostOnly? {
      PostTells(c, n);
    } else if Rejection(c, n).Some? {
      EmitTells(c, OrderRejected(0, n.id, Rejection(c, n).value));
    } else {
      var r := Match(Accepted(c, n), TakerOf(n), n.qty);
      EmitTells(c, OrderAccepted(0, n.id, n.side, n.price, n.qty, n.orderType));
      MatchTells(Accepted(c, n), TakerOf(n), n.qty, r);
      MatchWithin(Accepted(c, n), TakerOf(n), n.qty, r);
      MatchIsGreedy(Accepted(c, n), TakerOf(n), n.qty, r);
      SettleTells(c, n, r);
      MatchedAndSettled(c, n);
    }
  }

  /* ---- Runs ---- */

  ghost predicate LeavesTruth(c: Core, n: Request) {
    Truthful(Enter(c, n))
  }

  ghost predicate ShapedTruth(c: Core) {
    Shape(c.book) && Truthful(c)
  }

  lemma CancelTells(c: Core, id: nat, newPrice: nat, newQty: nat)
    requires ShapedTruth(c) && Resting(c.book, id)
    ensures ShapedTruth(Cancel(c, id)) && ShapedTruth(Withdraw(c, id, newPrice, newQty))
  {
    RemoveKeepsShape(c.book, id);
    RestingOrder(c.book, id);
    RemovalTells(c, id, OrderCancelled(0, id, OrderOf(c.book, id).Remaining()));
    NotedTells(c, Withdrawn(id, OrderOf(c.book, id).Remaining()));
    RemovalTells(Noted(c, Withdrawn(id, OrderOf(c.book, id).Remaining())), id, OrderModified(0, id, newPrice, newQty));
  }

  lemma NotedTells(c: Core, n: Note)
    requires Truthful(c)
    ensures Truthful(Noted(c, n))
  {
    SameTells(c, Noted(c, n));
  }

  lemma TruthCarries()
    ensures Carried(ShapedTruth, LeavesTruth, RestsRightly) && Carried(ShapedTruth, RestsRightly, LeavesTruth)
  {
    forall c, n
      ensures Carries(ShapedTruth, LeavesTruth, RestsRightly, c, n) && Carries(ShapedTruth, RestsRightly, LeavesTruth, c, n)
    {
      if Bookable(n) && ShapedTruth(c) {
        EnterTells(c, n);
        EnterKeepsShape(c, n);
      }
    }
    forall c, id, newPrice, newQty ensures Sheds(ShapedTruth, c, id, newPrice, newQty) {
      if ShapedTruth(c) && Resting(c.book, id) {
        CancelTells(c, id, newPrice, newQty);
      }
    }
    forall c, e, s ensures Tells(ShapedTruth, c, e, s) {
      if ShapedTruth(c) {
        NotedTells(c, Fired(s.id, s.qty));
        if !e.BookUpdate? {
          EmitTells(c, e);
        }
      }
    }
  }

  /** In every mode and over every run: throughout it the last update of each level says what the level holds, exactly
      when every order that comes to rest finds its level holding nothing, or is refused where the level holds just its
      quantity. */
  lemma UpdatesAreExact(base: nat, ticks: nat, capacity: nat, mode: StpMode, cmds: seq<Command>, pl: Place)
    ensures var e := NewEngine(base, ticks, capacity, mode);
            && (AllEnter(e, cmds, LeavesTruth) <==> AllEnter(e, cmds, RestsRightly))
            && (AllEnter(e, cmds, RestsRightly) ==>
                  LastReport(Run(e, cmds).core.log, pl) == LevelQty(Run(e, cmds).core.book, pl))
  {
    var e := NewEngine(base, ticks, capacity, mode);
    TruthCarries();
    forall x ensures Tallies(e.core, x) {
    }
    if AllEnter(e, cmds, LeavesTruth) {
      RunCarried(ShapedTruth, LeavesTruth, RestsRightly, e, cmds);
    }
    if AllEnter(e, cmds, RestsRightly) {
      RunCarried(ShapedTruth, RestsRightly, LeavesTruth, e, cmds);
      assert Tallies(Run(e, cmds).core, pl);
    }
  }
}
