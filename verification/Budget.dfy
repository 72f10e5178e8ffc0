/** Exactly which commands fit the event buffer of one call, read off the
    order's route; and a bound on the events of any command, stop cascades
    included, and of whole runs. */
module Budget {
  import opened Types
  import opened BookSpec
  import opened BookFacts
  import opened EngineSpec
  import opened EngineFacts
  import opened EngineRuns
  import opened Rounds
  import opened Routes
  import opened Greedy
  import opened Slicing
  import opened Entries
  import opened Cascades

  /** The events that one call can hold. */
  const MAX_EVENTS_PER_CALL: nat := 64

  /* ---- Stops out of reach ---- */

  /** No pending stop triggers at `last`. */
  ghost predicate QuietAt(e: Engine, last: Option<nat>) {
    last.Some? ==> Quiet(Bid, e.stopBids, last.value) && Quiet(Ask, e.stopAsks, last.value)
  }

  lemma NothingFires(e: Engine)
    requires QuietAt(e, e.core.last)
    ensures Drain(e) == e
  {
  }

  lemma {:induction false} FireKeepsQuiet(c: Core, side: Side, stops: Stops, last: nat)
    requires Sorted(side, stops)
    ensures |Fire(c, side, stops, last).1| == |stops| <==> Quiet(side, stops, last)
  {
    FireQuiets(c, side, stops, last);
    if stops != [] && Triggered(side, stops[0].0, last) {
      assert |Fire(FireOne(c, stops[0].1), side, stops[1..], last).1| <= |stops[1..]|;
    }
  }

  lemma {:induction false} DrainFires(e: Engine)
    ensures |Drain(e).stopBids| <= |e.stopBids| && |Drain(e).stopAsks| <= |e.stopAsks|
    decreases |e.stopBids| + |e.stopAsks|
  {
    if e.core.last.Some? {
      var price := e.core.last.value;
      var (c1, bids) := Fire(e.core, Bid, e.stopBids, price);
      var (c2, asks) := Fire(c1, Ask, e.stopAsks, price);
      if c2.last != Some(price) {
        DrainFires(Engine(c2, bids, asks));
      }
    }
  }

  /** On sorted stop queues nothing fires exactly when nothing triggers at the last trade price. */
  lemma NothingFiresExactly(e: Engine)
    requires StopsSorted(e)
    ensures Drain(e) == e <==> QuietAt(e, e.core.last)
  {
    if QuietAt(e, e.core.last) {
      NothingFires(e);
    } else {
      var price := e.core.last.value;
      var (c1, bids) := Fire(e.core, Bid, e.stopBids, price);
      var (c2, asks) := Fire(c1, Ask, e.stopAsks, price);
      FireKeepsQuiet(e.core, Bid, e.stopBids, price);
      FireKeepsQuiet(c1, Ask, e.stopAsks, price);
      DrainFires(Engine(c2, bids, asks));
    }
  }

  /* ---- The last trade price ---- */

  /** The last price paid when the orders are consumed from the front. */
  function Paid(mode: StpMode, makers: seq<Order>, stp: Option<nat>, qty: nat, last: Option<nat>): Option<nat> {
    if qty == 0 || makers == [] then last
    else
      var m := makers[0];
      if m.Remaining() == 0 || (SameGroup(stp, m.stp) && mode.CancelOldest?) then Paid(mode, makers[1..], stp, qty, last)
      else if SameGroup(stp, m.stp) then last
      else if m.Remaining() <= qty then Paid(mode, makers[1..], stp, qty - m.Remaining(), Some(m.price))
      else Some(m.price)
  }

  /** A first slice of an order pays what all of it would. */
  lemma SliceThenPaid(mode: StpMode, makers: seq<Order>, stp: Option<nat>, qty: nat, last: Option<nat>, x: nat)
    requires makers != [] && !SameGroup(stp, makers[0].stp) && 0 < x <= qty && x <= makers[0].Remaining()
    ensures Paid(mode, makers, stp, qty, last) == Paid(mode, Taken(makers, x), stp, qty - x, Some(makers[0].price))
  {
    if x < makers[0].Remaining() {
      assert Taken(makers, x)[1..] == makers[1..];
    }
  }

  lemma TurnPaid(mode: StpMode, makers: seq<Order>, stp: Option<nat>, qty: nat, last: Option<nat>)
    requires qty > 0
    ensures var u := TurnOf(mode, makers, stp, qty);
            var paid := if u.given > 0 then Some(makers[0].price) else last;
            Paid(mode, makers, stp, qty, last) == if u.again then Paid(mode, u.makers, stp, u.qty, paid) else last
  {
    if makers != [] && makers[0].Remaining() > 0 && !SameGroup(stp, makers[0].stp) {
      SliceThenPaid(mode, makers, stp, qty, last, Min(qty, MatchableQty(makers[0])));
    }
  }

  lemma RoundPaid(c: Core, t: Taker, rem: nat)
    requires Shape(c.book) && rem > 0
    ensures var u := TurnOf(c.mode, Route(c.book, t), t.stp, rem);
            MatchRound(c, t, rem).c.last == if u.given > 0 then Some(Route(c.book, t)[0].price) else c.last
  {
    FirstOnRoute(c.book, t);
  }

  /** The last trade price after a match is the last price paid on the route. */
  lemma {:induction false} MatchPaid(c: Core, t: Taker, rem: nat, r: Round)
    requires Shape(c.book) && r == Match(c, t, rem)
    ensures r.c.last == Paid(c.mode, Route(c.book, t), t.stp, rem, c.last)
    decreases rem + |c.book.ids|
  {
    if rem > 0 {
      var first := MatchRound(c, t, rem);
      RoundPaid(c, t, rem);
      RoundIsTurn(c, t, rem);
      TurnPaid(c.mode, Route(c.book, t), t.stp, rem, c.last);
      if first.Again? {
        RoundProgresses(c, t, rem);
        RoundKeepsShape(c, t, rem);
        MatchPaid(first.c, t, first.rem, r);
      }
    }
  }

  /** The last trade price that an order will leave, read off the book it finds. */
  ghost function LastAfter(c: Core, n: Request): Option<nat> {
    if NeverMatches(c, n) then c.last else Paid(c.mode, Route(c.book, TakerOf(n)), n.stpGroup, n.qty, c.last)
  }

  lemma SettleLast(c: Core, n: Request, rem: nat, cancel: bool)
    ensures Settle(c, n, rem, cancel).last == c.last
  {
  }

  lemma EnterLast(c: Core, n: Request)
    requires Shape(c.book)
    ensures Enter(c, n).last == LastAfter(c, n)
  {
    if !NeverMatches(c, n) {
      var r := Match(Accepted(c, n), TakerOf(n), n.qty);
      MatchPaid(Accepted(c, n), TakerOf(n), n.qty, r);
      SettleLast(r.c, n, r.rem, r.cancel);
    }
  }

  /* ---- The buffer ---- */

  /** What a command adds to the log. */
  ghost function Added(e: Engine, cmd: Command): int {
    |Process(e, cmd).core.log| - |e.core.log|
  }

  lemma MetIsSlices(c: Core, n: Request)
    requires Shape(c.book) && !NeverMatches(c, n)
    ensures Met(c, n) == Slices(c.mode, Route(c.book, TakerOf(n)), n.stpGroup, n.qty)
  {
    RoundsAreSlices(Accepted(c, n), TakerOf(n), n.qty);
  }

  /** A new order at whose last price no pending stop triggers fits the buffer exactly when it is turned away, is post-only,
      or deals with at most 31 slices of the orders on its route. */
  lemma NewOrderFits(e: Engine, cmd: Command)
    requires Shape(e.core.book) && cmd.NewOrder? && !cmd.orderType.StopLimit?
    requires QuietAt(e, LastAfter(e.core, RequestOf(cmd)))
    ensures Process(e, cmd) == Obey(e, cmd)
    ensures var n := RequestOf(cmd);
            var slices := Slices(e.core.mode, Route(e.core.book, TakerOf(n)), n.stpGroup, n.qty);
            Added(e, cmd) <= MAX_EVENTS_PER_CALL <==> NeverMatches(e.core, n) || slices <= 31
  {
    var n := RequestOf(cmd);
    EnterLast(e.core, n);
    NothingFires(Obey(e, cmd));
    if !NeverMatches(e.core, n) {
      MetIsSlices(e.core, n);
      EnterCounts(e.core, n);
    }
  }

  /** And whether one triggers is read off the book before the call: the order fires no stop exactly when none triggers at the
      last price it pays. */
  lemma FiresNoStopExactly(e: Engine, cmd: Command)
    requires Shape(e.core.book) && StopsSorted(e) && cmd.NewOrder? && !cmd.orderType.StopLimit?
    ensures Process(e, cmd) == Obey(e, cmd) <==> QuietAt(e, LastAfter(e.core, RequestOf(cmd)))
  {
    EnterLast(e.core, RequestOf(cmd));
    NothingFiresExactly(Obey(e, cmd));
  }

  /** A stop writes one event, as long as neither it nor a pending one triggers at the last trade price. */
  lemma StopOrderFits(e: Engine, cmd: Command)
    requires cmd.NewOrder? && cmd.orderType.StopLimit? && QuietAt(e, e.core.last)
    requires cmd.stopPrice.Some? && e.core.last.Some? ==> !Triggered(cmd.side, cmd.stopPrice.value, e.core.last.value)
    ensures Added(e, cmd) == 1
  {
    NothingFires(Obey(e, cmd));
  }

  /** A route depends on the opposing levels alone. */
  lemma {:induction false} RouteAgrees(base: nat, ticks: nat, queues: Queues, queues': Queues, best: Option<nat>, t: Taker)
    requires forall pl: Place :: pl.side == t.side.Opposite() ==>
               (pl in queues <==> pl in queues') && (pl in queues && pl in queues' ==> queues[pl] == queues'[pl])
    ensures RouteFrom(base, ticks, queues, best, t) == RouteFrom(base, ticks, queues', best, t)
    decreases |queues|
  {
    var opp := t.side.Opposite();
    if best.Some? && Acceptable(t.side, t.price, best.value) && Place(opp, best.value) in queues {
      var pl := Place(opp, best.value);
      FewerLevels(queues, pl);
      assert Prices(queues - {pl}, opp) == Prices(queues' - {pl}, opp);
      RouteAgrees(base, ticks, queues - {pl}, queues' - {pl}, Refreshed(opp, base, ticks, Prices(queues - {pl}, opp)), t);
    }
  }

  /** Withdrawing an order for its replacement leaves the replacement's route. */
  lemma WithdrawLeaves(c: Core, id: nat, newPrice: nat, newQty: nat)
    requires Shape(c.book) && Resting(c.book, id)
    ensures var c' := Withdraw(c, id, newPrice, newQty);
            var n := Replacement(c, id, newPrice, newQty);
            && Shape(c'.book) && c'.mode == c.mode && c'.last == c.last && id !in c'.book.ids
            && |c'.log| == |c.log| + 2
            && Route(c'.book, TakerOf(n)) == Route(c.book, TakerOf(n))
  {
    RemoveKeepsShape(c.book, id);
    RestingOrder(c.book, id);
    var (b', t) := (Remove(c.book, id), TakerOf(Replacement(c, id, newPrice, newQty)));
    RouteAgrees(b'.base, b'.ticks, b'.queues, c.book.queues, b'.Of(t.side.Opposite()).best, t);
  }

  lemma ReplacementCounts(c: Core, n: Request)
    requires Shape(c.book) && n.id !in c.book.ids && n.orderType.Limit? && n.tif.GTC? && n.stpGroup.None?
    ensures |Enter(c, n).log| - |c.log| <= MAX_EVENTS_PER_CALL - 2
        <==> Slices(c.mode, Route(c.book, TakerOf(n)), None, n.qty) <= 30
  {
    if n.qty > 0 {
      MetIsSlices(c, n);
      EnterCounts(c, n);
    }
  }

  lemma ModifyFiresNothing(e: Engine, cmd: Command)
    requires Shape(e.core.book) && cmd.ModifyOrder? && Resting(e.core.book, cmd.id)
    requires var makers := Route(e.core.book, TakerOf(Replacement(e.core, cmd.id, cmd.newPrice, cmd.newQty)));
             QuietAt(e, Paid(e.core.mode, makers, None, cmd.newQty, e.core.last))
    ensures Process(e, cmd) == Obey(e, cmd)
  {
    WithdrawLeaves(e.core, cmd.id, cmd.newPrice, cmd.newQty);
    EnterLast(Withdraw(e.core, cmd.id, cmd.newPrice, cmd.newQty), Replacement(e.core, cmd.id, cmd.newPrice, cmd.newQty));
    NothingFires(Obey(e, cmd));
  }

  lemma ModifyCounts(c: Core, id: nat, newPrice: nat, newQty: nat, c': Core)
    requires Shape(c.book) && Resting(c.book, id) && c' == Modify(c, id, newPrice, newQty)
    ensures |c'.log| - |c.log| <= MAX_EVENTS_PER_CALL
        <==> Slices(c.mode, Route(c.book, TakerOf(Replacement(c, id, newPrice, newQty))), None, newQty) <= 30
  {
    WithdrawLeaves(c, id, newPrice, newQty);
    ReplacementCounts(Withdraw(c, id, newPrice, newQty), Replacement(c, id, newPrice, newQty));
  }

  /** A modification first writes two events of its own, so its replacement may deal with one slice less. */
  lemma ModifyFits(e: Engine, cmd: Command)
    requires Shape(e.core.book) && cmd.ModifyOrder? && Resting(e.core.book, cmd.id)
    requires var makers := Route(e.core.book, TakerOf(Replacement(e.core, cmd.id, cmd.newPrice, cmd.newQty)));
             QuietAt(e, Paid(e.core.mode, makers, None, cmd.newQty, e.core.last))
    ensures var makers := Route(e.core.book, TakerOf(Replacement(e.core, cmd.id, cmd.newPrice, cmd.newQty)));
            Added(e, cmd) <= MAX_EVENTS_PER_CALL <==> Slices(e.core.mode, makers, None, cmd.newQty) <= 30
  {
    ModifyFiresNothing(e, cmd);
    ModifyCounts(e.core, cmd.id, cmd.newPrice, cmd.newQty, Obey(e, cmd).core);
  }

  /* ---- Cascades and runs ---- */

  /** What a pending stop can still cost. */
  function Weight(stops: Stops): nat {
    if stops == [] then 0 else 2 * stops[0].1.qty + 3 + Weight(stops[1..])
  }

  /** Events written, and two for each order on the book. */
  function Spent(c: Core): nat {
    |c.log| + 2 * |c.book.ids|
  }

  /** Events written, two for each order on the book, and what the pending stops can still cost. */
  function Potential(e: Engine): nat {
    Spent(e.core) + Weight(e.stopBids) + Weight(e.stopAsks)
  }

  lemma InsertOne(b: Book, o: Order)
    ensures |Insert(b, o).ids| <= |b.ids| + 1
  {
    if !Refuses(b, o.id) {
      assert Insert(b, o).ids.Keys == b.ids.Keys + {o.id};
    }
  }

  lemma SettleSpends(c: Core, n: Request, rem: nat, cancel: bool)
    ensures Spent(Settle(c, n, rem, cancel)) <= Spent(c) + 1 + if rem > 0 then 2 else 0
  {
    InsertOne(c.book, Booked(n.id, n.side, n.price, rem, n.orderType, n.visible, n.stpGroup));
  }

  /** An order that enters spends at most two for each unit it brings, and two more. */
  lemma EnterSpends(c: Core, n: Request)
    requires Shape(c.book)
    ensures Spent(Enter(c, n)) <= Spent(c) + 2 * n.qty + 2 + if n.orderType.PostOnly? then 2 else 0
  {
    if n.orderType.PostOnly? {
      InsertOne(c.book, Booked(n.id, n.side, n.price, n.qty, n.orderType, n.visible, n.stpGroup));
    } else if Rejection(c, n).None? {
      var c1 := Accepted(c, n);
      Rounds.MatchCounts(c1, TakerOf(n), n.qty);
      Rounds.RoundsBound(c1, TakerOf(n), n.qty);
      var r := Match(c1, TakerOf(n), n.qty);
      SettleSpends(r.c, n, r.rem, r.cancel);
    }
  }

  lemma {:induction false} FireSpends(c: Core, side: Side, stops: Stops, last: nat)
    requires Sound(c) && StopsBookable(stops)
    ensures var r := Fire(c, side, stops, last); Spent(r.0) + Weight(r.1) <= Spent(c) + Weight(stops)
    decreases |stops|
  {
    if stops != [] && Triggered(side, stops[0].0, last) {
      var s := stops[0].1;
      FireOneFacts(c, s);
      EnterSpends(Noted(Emit(c, StopTriggered(0, s.id)), Fired(s.id, s.qty)), FiredRequest(s));
      FireSpends(FireOne(c, s), side, stops[1..], last);
    }
  }

  /** A cascade never spends more than the stops it fires were worth. */
  lemma {:induction false} DrainSpends(e: Engine)
    requires SoundEngine(e)
    ensures Potential(Drain(e)) <= Potential(e)
    decreases |e.stopBids| + |e.stopAsks|
  {
    if e.core.last.Some? {
      var price := e.core.last.value;
      FireFacts(e.core, Bid, e.stopBids, price);
      FireSpends(e.core, Bid, e.stopBids, price);
      var (c1, bids) := Fire(e.core, Bid, e.stopBids, price);
      FireFacts(c1, Ask, e.stopAsks, price);
      FireSpends(c1, Ask, e.stopAsks, price);
      var (c2, asks) := Fire(c1, Ask, e.stopAsks, price);
      if c2.last != Some(price) {
        DrainSpends(Engine(c2, bids, asks));
      }
    }
  }

  lemma {:induction false} WeightInserted(stops: Stops, k: nat, s: (nat, StopEntry))
    requires k <= |stops|
    ensures Weight(Inserted(stops, k, s)) == Weight(stops) + 2 * s.1.qty + 3
  {
    if k == 0 {
      assert Inserted(stops, 0, s) == [s] + stops;
    } else {
      WeightInserted(stops[1..], k - 1, s);
      assert Inserted(stops, k, s)[1..] == Inserted(stops[1..], k - 1, s);
    }
  }

  /** Twice what a command brings, and four events. */
  function Cost(cmd: Command): nat {
    match cmd
    case NewOrder(_, _, _, _, qty, _, _, _, _, _) => 2 * qty + 4
    case CancelOrder(_) => 1
    case ModifyOrder(_, _, newQty) => 2 * newQty + 2
  }

  lemma PlaceStopSpends(e: Engine, n: Request, stopPrice: Option<nat>)
    ensures Potential(PlaceStop(e, n, stopPrice)) <= Potential(e) + 2 * n.qty + 4
  {
    if n.qty > 0 && stopPrice.Some? {
      var px := stopPrice.value;
      var s := (px, StopEntry(n.id, n.side, n.price, n.qty, n.tif, n.visible, n.stpGroup));
      WeightInserted(e.stopBids, StopPosition(Bid, e.stopBids, px), s);
      WeightInserted(e.stopAsks, StopPosition(Ask, e.stopAsks, px), s);
    }
  }

  lemma ModifySpends(c: Core, id: nat, newPrice: nat, newQty: nat)
    requires Sound(c) && Resting(c.book, id)
    ensures Spent(Modify(c, id, newPrice, newQty)) <= Spent(c) + 2 * newQty + 2
  {
    WithdrawFacts(c, id, newPrice, newQty);
    SmallerWithout(c.book.ids, id);
    EnterSpends(Withdraw(c, id, newPrice, newQty), Replacement(c, id, newPrice, newQty));
  }

  lemma ObeySpends(e: Engine, cmd: Command)
    requires SoundEngine(e)
    ensures Potential(Obey(e, cmd)) <= Potential(e) + Cost(cmd)
  {
    match cmd
    case NewOrder(_, _, _, _, _, orderType, _, _, stopPrice, _) =>
      if orderType.StopLimit? {
        PlaceStopSpends(e, RequestOf(cmd), if stopPrice.Some? then Some(stopPrice.value) else None);
      } else {
        EnterSpends(e.core, RequestOf(cmd));
      }
    case CancelOrder(id) =>
      if Resting(e.core.book, id) {
        SmallerWithout(e.core.book.ids, id);
      }
    case ModifyOrder(id, newPrice, newQty) =>
      if Resting(e.core.book, id) {
        ModifySpends(e.core, id, newPrice, newQty);
      }
  }

  /** One command, its whole cascade included, adds at most its cost, two for each order that leaves the book, and what the
      stops it fires were worth. */
  lemma ProcessSpends(e: Engine, cmd: Command)
    requires SoundEngine(e)
    ensures Potential(Process(e, cmd)) <= Potential(e) + Cost(cmd)
    ensures Added(e, cmd) <= Cost(cmd) + 2 * |e.core.book.ids| + Weight(e.stopBids) + Weight(e.stopAsks)
  {
    ObeySpends(e, cmd);
    ObeyFacts(e, cmd);
    DrainSpends(Obey(e, cmd));
  }

  function Costs(cmds: seq<Command>): nat {
    if cmds == [] then 0 else Cost(cmds[0]) + Costs(cmds[1..])
  }

  lemma {:induction false} RunSpends(e: Engine, cmds: seq<Command>)
    requires SoundEngine(e)
    ensures Potential(Run(e, cmds)) <= Potential(e) + Costs(cmds)
    decreases |cmds|
  {
    if cmds != [] {
      ProcessSpends(e, cmds[0]);
      ProcessFacts(e, cmds[0]);
      RunSpends(Process(e, cmds[0]), cmds[1..]);
    }
  }

  /** However stops cascade, a whole run writes at most two events for each unit of quantity that its commands bring
      and four for each command. */
  lemma RunsAreBounded(base: nat, ticks: nat, capacity: nat, mode: StpMode, cmds: seq<Command>)
    ensures |Run(NewEngine(base, ticks, capacity, mode), cmds).core.log| <= Costs(cmds)
  {
    NewEngineSound(base, ticks, capacity, mode);
    RunSpends(NewEngine(base, ticks, capacity, mode), cmds);
  }
}
