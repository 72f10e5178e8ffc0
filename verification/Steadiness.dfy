/** When the engine never trips over its depth index: exactly what each step
    asks of the book, and that it is met in every run whose post-only orders,
    the one kind that is accepted without a look at its quantity, bring a
    quantity or a price inside the window. */
module Steadiness {
  import opened Types
  import opened BookSpec
  import opened BookFacts
  import opened BookLedger
  import opened BookRuns
  import opened EngineSpec
  import opened EngineFacts
  import opened EngineRuns
  import opened Rounds
  import opened Entries
  import opened Entering

  /* ---- Every step keeps the book steady ---- */

  /** The book is steady, in the window it had. */
  ghost predicate StaysSteady(c: Core, c': Core, lo: nat, hi: nat) {
    Steady(c'.book.queues, lo, hi) && c'.book.base == c.book.base && c'.book.ticks == c.book.ticks
  }

  lemma TradeSteady(c: Core, t: Taker, rem: nat, m: Order, qty: nat, lo: nat, hi: nat)
    requires Shape(c.book) && Steady(c.book.queues, lo, hi)
    requires m.id in c.book.ids && Resting(c.book, m.id) && OrderOf(c.book, m.id) == m
    requires qty <= rem && qty <= m.Remaining()
    ensures StaysSteady(c, TradeOf(c, t, rem, m, qty), lo, hi)
  {
    LeftAfter(m, qty);
    if qty == m.Remaining() {
      WholeFillRemoves(c.book, m.id, qty);
      RemoveSteady(c.book, m.id, lo, hi);
    } else {
      FillSteady(c.book, m.id, qty, lo, hi);
    }
  }

  lemma DecrementSteady(c: Core, t: Taker, rem: nat, m: Order, lo: nat, hi: nat)
    requires Shape(c.book) && Steady(c.book.queues, lo, hi)
    requires m.id in c.book.ids && Resting(c.book, m.id) && OrderOf(c.book, m.id) == m
    ensures StaysSteady(c, Decrement(c, t, rem, m), lo, hi)
  {
    RemoveSteady(c.book, m.id, lo, hi);
    if rem < m.Remaining() {
      FillSteady(c.book, m.id, rem, lo, hi);
    }
  }

  lemma RoundSteady(c: Core, t: Taker, rem: nat, lo: nat, hi: nat)
    requires Shape(c.book) && Steady(c.book.queues, lo, hi)
    ensures StaysSteady(c, MatchRound(c, t, rem).c, lo, hi)
  {
    var opp := t.side.Opposite();
    FirstMakerFacts(c.book, opp);
    RoundCases(c, t, rem);
    var first := FirstMaker(c.book, opp);
    if first.Some? {
      var m := first.value;
      RemoveSteady(c.book, m.id, lo, hi);
      DecrementSteady(c, t, rem, m, lo, hi);
      TradeSteady(c, t, rem, m, Min(rem, MatchableQty(m)), lo, hi);
    }
  }

  lemma {:induction false} MatchSteady(c: Core, t: Taker, rem: nat, lo: nat, hi: nat)
    requires Shape(c.book) && Steady(c.book.queues, lo, hi)
    ensures StaysSteady(c, Match(c, t, rem).c, lo, hi)
    decreases rem + |c.book.ids|
  {
    if rem > 0 {
      var r := MatchRound(c, t, rem);
      RoundSteady(c, t, rem, lo, hi);
      if r.Again? {
        RoundProgresses(c, t, rem);
        RoundKeepsShape(c, t, rem);
        MatchSteady(r.c, t, r.rem, lo, hi);
      }
    }
  }

  lemma RestedSteady(c: Core, n: Request, qty: nat, lo: nat, hi: nat)
    requires Steady(c.book.queues, lo, hi) && (qty > 0 || lo <= n.price < hi)
    ensures StaysSteady(c, Rested(c, n, qty), lo, hi)
  {
    InsertSteady(c.book, Booked(n.id, n.side, n.price, qty, n.orderType, n.visible, n.stpGroup), lo, hi);
  }

  /** A post-only order brings a quantity or a price of `[lo, hi)`. */
  predicate Substantial(n: Request, lo: nat, hi: nat) {
    n.orderType.PostOnly? ==> n.qty > 0 || lo <= n.price < hi
  }

  lemma SettleSteady(c: Core, n: Request, rem: nat, cancel: bool, lo: nat, hi: nat)
    requires Steady(c.book.queues, lo, hi)
    ensures StaysSteady(c, Settle(c, n, rem, cancel), lo, hi)
  {
    if rem > 0 {
      RestedSteady(c, n, rem, lo, hi);
    }
  }

  lemma EnterSteady(c: Core, n: Request, lo: nat, hi: nat)
    requires Shape(c.book) && Steady(c.book.queues, lo, hi) && Substantial(n, lo, hi)
    ensures StaysSteady(c, Enter(c, n), lo, hi)
  {
    if n.orderType.PostOnly? {
      RestedSteady(Accepted(c, n), n, n.qty, lo, hi);
    } else if Rejection(c, n).None? {
      MatchSteady(Accepted(c, n), TakerOf(n), n.qty, lo, hi);
      var r := Match(Accepted(c, n), TakerOf(n), n.qty);
      SettleSteady(r.c, n, r.rem, r.cancel, lo, hi);
    }
  }

  /* ---- What a step asks of the index ---- */

  /** In a sound state, however the index has drifted: it gives up any part of a resting order exactly when the order has something
      left, rests in the window, or finds its price indexed. */
  lemma IndexGivesUpExactly(c: Core, id: nat, delta: nat)
    requires Sound(c) && id in c.book.ids && delta <= Rest(c.book, id)
    ensures GivesUp(c.book, id, delta) <==> Removable(c.book, id)
  {
    assert DriftAt(c.book, c.book.ids[id], TradedAt(c.notes, c.book.ids[id]));
    IndexUpdatesSucceed(c.book, id, delta, TradedAt(c.notes, c.book.ids[id]));
  }

  /** Then it can be taken off the index in part or, after any fill of it, in full. */
  lemma IndexHoldsOrders(c: Core, id: nat, filled: nat, delta: nat)
    requires Sound(c) && id in c.book.ids && Removable(c.book, id)
    requires filled <= Rest(c.book, id) && delta <= Rest(c.book, id) - filled
    ensures Resting(c.book, id)
    ensures var b := FillOrder(c.book, id, filled);
            CanSub(b.base, b.ticks, b.Of(b.ids[id].side).index, b.ids[id].price, delta)
  {
    RestingOrder(c.book, id);
    IndexGivesUpExactly(c, id, delta);
  }

  /** The maker that a round meets can be taken off the index. */
  ghost predicate MakerRemovable(c: Core, t: Taker) {
    var opp := t.side.Opposite();
    var first := FirstMaker(c.book, opp);
    first.Some? && Acceptable(t.side, t.price, c.book.Of(opp).best.value) ==>
      first.value.id in c.book.ids && Removable(c.book, first.value.id)
  }

  /** No round of the match misses the index. */
  ghost predicate MatchSucceeds(c: Core, t: Taker, rem: nat)
    decreases rem + |c.book.ids|
  {
    rem > 0 ==>
      && MakerRemovable(c, t)
      && var r := MatchRound(c, t, rem);
         r.Again? ==> (RoundProgresses(c, t, rem); MatchSucceeds(r.c, t, r.rem))
  }

  ghost predicate EnterSucceeds(c: Core, n: Request) {
    !n.orderType.PostOnly? && Rejection(c, n).None? ==> MatchSucceeds(Accepted(c, n), TakerOf(n), n.qty)
  }

  /** The order that a command takes off the book can be taken off the index, and so can all makers. */
  ghost predicate ObeySucceeds(e: Engine, cmd: Command) {
    && (!cmd.NewOrder? && Resting(e.core.book, cmd.id) ==> Removable(e.core.book, cmd.id))
    && AllObey(e, cmd, EnterSucceeds)
  }

  ghost predicate DrainSucceeds(e: Engine) {
    AllDrain(e, EnterSucceeds)
  }

  /** The command, its stop cascade included, never misses the index: this is when the source does not panic. */
  ghost predicate ProcessSucceeds(e: Engine, cmd: Command) {
    ObeySucceeds(e, cmd) && DrainSucceeds(Obey(e, cmd))
  }

  ghost predicate RunSucceeds(e: Engine, cmds: seq<Command>)
    decreases |cmds|
  {
    cmds == [] || (ProcessSucceeds(e, cmds[0]) && RunSucceeds(Process(e, cmds[0]), cmds[1..]))
  }

  /* ---- Steady books succeed ---- */

  lemma SteadyIsRemovable(b: Book, id: nat)
    requires Shape(b) && id in b.ids && Steady(b.queues, b.base, b.base + b.ticks)
    ensures Removable(b, id)
  {
    RestingOrder(b, id);
    assert QueueSteady(b.queues[b.ids[id]], b.base, b.base + b.ticks);
  }

  lemma {:induction false} SteadyMatchSucceeds(c: Core, t: Taker, rem: nat, lo: nat, hi: nat)
    requires Shape(c.book) && Steady(c.book.queues, lo, hi) && lo == c.book.base && hi == c.book.base + c.book.ticks
    ensures MatchSucceeds(c, t, rem)
    decreases rem + |c.book.ids|
  {
    if rem > 0 {
      var r := MatchRound(c, t, rem);
      FirstMakerFacts(c.book, t.side.Opposite());
      var first := FirstMaker(c.book, t.side.Opposite());
      if first.Some? {
        SteadyIsRemovable(c.book, first.value.id);
      }
      if r.Again? {
        RoundProgresses(c, t, rem);
        RoundSteady(c, t, rem, lo, hi);
        RoundKeepsShape(c, t, rem);
        SteadyMatchSucceeds(r.c, t, r.rem, lo, hi);
      }
    }
  }

  ghost predicate SteadyIn(b: Book, base: nat, ticks: nat, lo: nat, hi: nat) {
    Shape(b) && Steady(b.queues, lo, hi) && b.base == base && b.ticks == ticks
  }

  ghost function Steadily(base: nat, ticks: nat, lo: nat, hi: nat): Lasting {
    (b: Book, mode: StpMode) => SteadyIn(b, base, ticks, lo, hi)
  }

  ghost function Substantials(lo: nat, hi: nat): Request -> bool {
    (n: Request) => Substantial(n, lo, hi)
  }

  lemma SteadySheds(base: nat, ticks: nat, lo: nat, hi: nat)
    ensures forall b, mode, id {:trigger Loses(Steadily(base, ticks, lo, hi), b, mode, id)} ::
              Loses(Steadily(base, ticks, lo, hi), b, mode, id)
  {
    forall b, mode, id ensures Loses(Steadily(base, ticks, lo, hi), b, mode, id) {
      if Resting(b, id) && SteadyIn(b, base, ticks, lo, hi) {
        RemoveKeepsShape(b, id);
        RemoveSteady(b, id, lo, hi);
      }
    }
  }

  lemma SteadyCarries(base: nat, ticks: nat, lo: nat, hi: nat)
    ensures Carried(OfBook(Steadily(base, ticks, lo, hi)), OfRequest(Substantials(lo, hi)), OfRequest(Substantials(lo, hi)))
  {
    var (inv, p) := (Steadily(base, ticks, lo, hi), OfRequest(Substantials(lo, hi)));
    forall c, n ensures CarriesOn(inv, p, p, c, n) {
      if Bookable(n) && SteadyIn(c.book, base, ticks, lo, hi) && Substantial(n, lo, hi) {
        EnterSteady(c, n, lo, hi);
        EnterKeepsShape(c, n);
      }
    }
    SteadySheds(base, ticks, lo, hi);
    BookCarried(inv, p, p);
  }

  lemma SuccessCarries(base: nat, ticks: nat, lo: nat, hi: nat)
    requires lo == base && hi == base + ticks
    ensures Carried(OfBook(Steadily(base, ticks, lo, hi)), OfRequest(Substantials(lo, hi)), EnterSucceeds)
  {
    var (inv, p) := (Steadily(base, ticks, lo, hi), OfRequest(Substantials(lo, hi)));
    forall c, n ensures CarriesOn(inv, p, EnterSucceeds, c, n) {
      if Bookable(n) && SteadyIn(c.book, base, ticks, lo, hi) && Substantial(n, lo, hi) {
        EnterSteady(c, n, lo, hi);
        EnterKeepsShape(c, n);
        SteadyMatchSucceeds(Accepted(c, n), TakerOf(n), n.qty, lo, hi);
      }
    }
    SteadySheds(base, ticks, lo, hi);
    BookCarried(inv, p, EnterSucceeds);
  }

  /** A command whose post-only order, if it is one, brings a quantity or a price of `[lo, hi)`. */
  predicate Sized(cmd: Command, lo: nat, hi: nat) {
    cmd.NewOrder? && cmd.orderType.PostOnly? ==> cmd.qty > 0 || lo <= cmd.price < hi
  }

  lemma {:induction false} SizedIsAsked(e: Engine, cmds: seq<Command>, lo: nat, hi: nat)
    requires forall k :: 0 <= k < |cmds| ==> Sized(cmds[k], lo, hi)
    ensures AskedRun(e, cmds, Substantials(lo, hi))
    decreases |cmds|
  {
    if cmds != [] {
      assert Sized(cmds[0], lo, hi);
      SizedIsAsked(Process(e, cmds[0]), cmds[1..], lo, hi);
    }
  }

  /** In every run whose post-only orders bring a quantity or a price of `[lo, hi)`, each resting order has something left, or rests
      at such a price. */
  lemma RunSteady(base: nat, ticks: nat, capacity: nat, mode: StpMode, cmds: seq<Command>, lo: nat, hi: nat)
    requires forall k :: 0 <= k < |cmds| ==> Sized(cmds[k], lo, hi)
    ensures SteadyIn(Run(NewEngine(base, ticks, capacity, mode), cmds).core.book, base, ticks, lo, hi)
  {
    var e := NewEngine(base, ticks, capacity, mode);
    SizedIsAsked(e, cmds, lo, hi);
    AskedEnter(e, cmds, Substantials(lo, hi));
    SteadyCarries(base, ticks, lo, hi);
    assert SteadyIn(e.core.book, base, ticks, lo, hi);
    RunCarried(OfBook(Steadily(base, ticks, lo, hi)), OfRequest(Substantials(lo, hi)), OfRequest(Substantials(lo, hi)), e, cmds);
  }

  /** In every run whose post-only orders bring a quantity, every resting order has something left, and no more than its
      quantity. */
  lemma RestingOrdersAreLive(base: nat, ticks: nat, capacity: nat, mode: StpMode, cmds: seq<Command>, id: nat)
    requires forall k :: 0 <= k < |cmds| ==> Sized(cmds[k], 0, 0)
    ensures var b := Run(NewEngine(base, ticks, capacity, mode), cmds).core.book;
            id in b.ids ==> Resting(b, id) && 0 < OrderOf(b, id).Remaining() <= OrderOf(b, id).quantity
  {
    RunSteady(base, ticks, capacity, mode, cmds, 0, 0);
    var b := Run(NewEngine(base, ticks, capacity, mode), cmds).core.book;
    if id in b.ids {
      RestingOrder(b, id);
      assert QueueSteady(b.queues[b.ids[id]], 0, 0);
    }
  }

  /* ---- Runs that succeed ---- */

  ghost predicate SteadyEngine(e: Engine, base: nat, ticks: nat, lo: nat, hi: nat) {
    Stands(OfBook(Steadily(base, ticks, lo, hi)), e)
  }

  lemma StopsAreSubstantial(stops: Stops, lo: nat, hi: nat)
    ensures StopsAre(stops, Substantials(lo, hi))
  {
  }

  lemma SteadyEnters(e: Engine, cmd: Command, base: nat, ticks: nat, lo: nat, hi: nat, e': Engine)
    requires SteadyEngine(e, base, ticks, lo, hi) && Sized(cmd, lo, hi) && lo == base && hi == base + ticks && e' == Obey(e, cmd)
    ensures AllObey(e, cmd, EnterSucceeds) && SteadyEngine(e', base, ticks, lo, hi)
  {
    SuccessCarries(base, ticks, lo, hi);
    StopsAreSubstantial(e.stopBids, lo, hi);
    StopsAreSubstantial(e.stopAsks, lo, hi);
    ObeyAsked(e, cmd, Substantials(lo, hi));
    ObeyCarried(OfBook(Steadily(base, ticks, lo, hi)), OfRequest(Substantials(lo, hi)), EnterSucceeds, e, cmd);
  }

  lemma SteadyLeaves(c: Core, id: nat, base: nat, ticks: nat, lo: nat, hi: nat)
    requires SteadyIn(c.book, base, ticks, lo, hi) && lo == base && hi == base + ticks && Resting(c.book, id)
    ensures Removable(c.book, id)
  {
    SteadyIsRemovable(c.book, id);
  }

  lemma SteadyObey(e: Engine, cmd: Command, base: nat, ticks: nat, lo: nat, hi: nat, e': Engine)
    requires SteadyEngine(e, base, ticks, lo, hi) && Sized(cmd, lo, hi) && lo == base && hi == base + ticks && e' == Obey(e, cmd)
    ensures ObeySucceeds(e, cmd) && SteadyEngine(e', base, ticks, lo, hi)
  {
    SteadyEnters(e, cmd, base, ticks, lo, hi, e');
    if !cmd.NewOrder? && Resting(e.core.book, cmd.id) {
      SteadyLeaves(e.core, cmd.id, base, ticks, lo, hi);
    }
  }

  lemma SteadyDrain(e: Engine, base: nat, ticks: nat, lo: nat, hi: nat, e': Engine)
    requires SteadyEngine(e, base, ticks, lo, hi) && lo == base && hi == base + ticks && e' == Drain(e)
    ensures DrainSucceeds(e) && SteadyEngine(e', base, ticks, lo, hi)
  {
    SuccessCarries(base, ticks, lo, hi);
    StopsAreSubstantial(e.stopBids, lo, hi);
    StopsAreSubstantial(e.stopAsks, lo, hi);
    DrainAsked(e, Substantials(lo, hi));
    DrainCarried(OfBook(Steadily(base, ticks, lo, hi)), OfRequest(Substantials(lo, hi)), EnterSucceeds, e);
  }

  /** From a steady book every command succeeds but, perhaps, a post-only order without a quantity outside the window, and it
      leaves a steady book. */
  lemma SteadyProcess(e: Engine, cmd: Command, base: nat, ticks: nat, lo: nat, hi: nat)
    requires SteadyEngine(e, base, ticks, lo, hi) && Sized(cmd, lo, hi) && lo == base && hi == base + ticks
    ensures ProcessSucceeds(e, cmd) && SteadyEngine(Process(e, cmd), base, ticks, lo, hi)
  {
    SteadyObey(e, cmd, base, ticks, lo, hi, Obey(e, cmd));
    SteadyDrain(Obey(e, cmd), base, ticks, lo, hi, Process(e, cmd));
  }

  lemma {:induction false} SteadyRun(e: Engine, cmds: seq<Command>, base: nat, ticks: nat, lo: nat, hi: nat)
    requires SteadyEngine(e, base, ticks, lo, hi) && lo == base && hi == base + ticks
    requires forall k :: 0 <= k < |cmds| ==> Sized(cmds[k], lo, hi)
    ensures RunSucceeds(e, cmds)
    decreases |cmds|
  {
    if cmds != [] {
      assert Sized(cmds[0], lo, hi);
      SteadyProcess(e, cmds[0], base, ticks, lo, hi);
      SteadyRun(Process(e, cmds[0]), cmds[1..], base, ticks, lo, hi);
    }
  }

  /** Every run from a new engine whose post-only orders bring a quantity or a price in the window succeeds to its end. */
  lemma RunsSucceed(base: nat, ticks: nat, capacity: nat, mode: StpMode, cmds: seq<Command>)
    requires forall k :: 0 <= k < |cmds| ==> Sized(cmds[k], base, base + ticks)
    ensures RunSucceeds(NewEngine(base, ticks, capacity, mode), cmds)
  {
    var e := NewEngine(base, ticks, capacity, mode);
    assert SteadyIn(e.core.book, base, ticks, base, base + ticks);
    SteadyRun(e, cmds, base, ticks, base, base + ticks);
  }

  /** Outside the window, where nothing is indexed yet, two orders of quantity zero are one too many: the first removal takes
      the index entry that the second one needs. */
  lemma ZeroQuantitiesBreakTheIndex(b: Book, o1: Order, o2: Order)
    requires Shape(b) && b.room >= 2 && o1.id !in b.ids && o2.id !in b.ids && o1.id != o2.id
    requires o1.side == o2.side && o1.price == o2.price < U64_LIMIT && o1.Remaining() == 0 && o2.Remaining() == 0
    requires !(b.base <= o1.price < b.base + b.ticks)
    requires Place(o1.side, o1.price) !in b.queues && o1.price !in b.Of(o1.side).index
    ensures var full := Insert(Insert(b, o1), o2);
            && Resting(full, o1.id) && CanSub(b.base, b.ticks, full.Of(o1.side).index, o1.price, 0)
            && var left := Remove(full, o1.id);
               Resting(left, o2.id) && !CanSub(b.base, b.ticks, left.Of(o1.side).index, o1.price, 0)
  {
    var pl := Place(o1.side, o1.price);
    var full := Insert(Insert(b, o1), o2);
    assert full.queues[pl] == [o1, o2] && full.ids[o1.id] == pl && full.ids[o2.id] == pl;
    assert PositionOf([o1, o2], o1.id) == 0 && PositionOf([o2], o2.id) == 0;
    assert Without([o1, o2], 0) == [o2];
  }
}
