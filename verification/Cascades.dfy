/** Pending stops: their queues stay sorted, nothing that should have fired is
    left waiting after a command, and every accepted stop fires at most once. */
module Cascades {
  import opened Types
  import opened BookSpec
  import opened EngineSpec
  import opened EngineFacts
  import opened EngineRuns
  import opened Entries

  /* ---- Order in the queues ---- */

  /** Nearer triggers first. */
  ghost predicate Sorted(side: Side, stops: Stops) {
    forall i, j :: 0 <= i < j < |stops| ==> !Nearer(side, stops[j].0, stops[i].0)
  }

  /** A new stop goes behind the strictly nearer ones and before all others, equals included. */
  lemma {:induction false} PositionSplits(side: Side, stops: Stops, px: nat)
    requires Sorted(side, stops)
    ensures var k := StopPosition(side, stops, px);
            forall i :: 0 <= i < |stops| ==> (Nearer(side, stops[i].0, px) <==> i < k)
  {
    if stops != [] && Nearer(side, stops[0].0, px) {
      PositionSplits(side, stops[1..], px);
      forall i | 0 <= i < |stops| ensures Nearer(side, stops[i].0, px) <==> i < StopPosition(side, stops, px) {
        assert i > 0 ==> stops[i] == stops[1..][i - 1];
      }
    }
  }

  lemma InsertKeepsSorted(side: Side, stops: Stops, s: (nat, StopEntry))
    requires Sorted(side, stops)
    ensures Sorted(side, Inserted(stops, StopPosition(side, stops, s.0), s))
  {
    PositionSplits(side, stops, s.0);
    var k := StopPosition(side, stops, s.0);
    var stops' := Inserted(stops, k, s);
    forall i, j | 0 <= i < j < |stops'| ensures !Nearer(side, stops'[j].0, stops'[i].0) {
      assert i < k ==> stops'[i] == stops[i];
      assert i > k ==> stops'[i] == stops[i - 1];
      assert j < k ==> stops'[j] == stops[j];
      assert j > k ==> stops'[j] == stops[j - 1];
    }
  }

  /* ---- Quiescence ---- */

  /** No pending stop triggers at this price: buy stops wait above it, sell stops below it. */
  ghost predicate Quiet(side: Side, stops: Stops, last: nat) {
    forall k :: 0 <= k < |stops| ==> if side.Bid? then stops[k].0 > last else stops[k].0 < last
  }

  /** `rest` is what is left of the stops after a prefix of them, all triggered, was taken off. */
  ghost predicate TakenFrom(side: Side, stops: Stops, rest: Stops, last: nat) {
    && |rest| <= |stops| && rest == stops[|stops| - |rest|..]
    && forall k :: 0 <= k < |stops| - |rest| ==> Triggered(side, stops[k].0, last)
  }

  lemma TakeOneMore(side: Side, stops: Stops, rest: Stops, last: nat)
    requires stops != [] && Triggered(side, stops[0].0, last) && TakenFrom(side, stops[1..], rest, last)
    ensures TakenFrom(side, stops, rest, last)
  {
    forall k | 0 <= k < |stops| - |rest| ensures Triggered(side, stops[k].0, last) {
      assert k > 0 ==> stops[k] == stops[1..][k - 1];
    }
  }

  /** Firing takes stops from the front until none triggers. */
  lemma {:induction false} FireQuiets(c: Core, side: Side, stops: Stops, last: nat)
    requires Sorted(side, stops)
    ensures var rest := Fire(c, side, stops, last).1;
            Quiet(side, rest, last) && Sorted(side, rest) && TakenFrom(side, stops, rest, last)
    decreases |stops|
  {
    if stops != [] && Triggered(side, stops[0].0, last) {
      FireQuiets(FireOne(c, stops[0].1), side, stops[1..], last);
      TakeOneMore(side, stops, Fire(c, side, stops, last).1, last);
    } else {
      assert stops[0..] == stops;
    }
  }

  /** After the last trade nothing that it triggers is still waiting. */
  ghost predicate Quiescent(e: Engine) {
    e.core.last.Some? ==> Quiet(Bid, e.stopBids, e.core.last.value) && Quiet(Ask, e.stopAsks, e.core.last.value)
  }

  ghost predicate StopsSorted(e: Engine) {
    Sorted(Bid, e.stopBids) && Sorted(Ask, e.stopAsks)
  }

  lemma {:induction false} DrainQuiesces(e: Engine)
    requires StopsSorted(e)
    ensures StopsSorted(Drain(e)) && Quiescent(Drain(e))
    decreases |e.stopBids| + |e.stopAsks|
  {
    if e.core.last.Some? {
      var price := e.core.last.value;
      FireQuiets(e.core, Bid, e.stopBids, price);
      var (c1, bids) := Fire(e.core, Bid, e.stopBids, price);
      FireQuiets(c1, Ask, e.stopAsks, price);
      var (c2, asks) := Fire(c1, Ask, e.stopAsks, price);
      if c2.last != Some(price) {
        DrainQuiesces(Engine(c2, bids, asks));
      }
    }
  }

  lemma ObeyKeepsSorted(e: Engine, cmd: Command)
    requires StopsSorted(e)
    ensures StopsSorted(Obey(e, cmd))
  {
    if cmd.NewOrder? && cmd.orderType.StopLimit? && cmd.stopPrice.Some? {
      var n, px := RequestOf(cmd), cmd.stopPrice.value;
      var s := (px, StopEntry(n.id, n.side, n.price, n.qty, n.tif, n.visible, n.stpGroup));
      InsertKeepsSorted(Bid, e.stopBids, s);
      InsertKeepsSorted(Ask, e.stopAsks, s);
    }
  }

  /* ---- Each stop fires at most once ---- */

  predicate AcceptsStop(e: Event, id: nat) {
    e.OrderAccepted? && e.id == id && e.orderType.StopLimit?
  }

  predicate Triggers(e: Event, id: nat) {
    e.StopTriggered? && e.id == id
  }

  /** Stops accepted under an id, minus stops fired under it. */
  function StopFlow(log: seq<Event>, id: nat): int {
    if log == [] then 0
    else
      var e := log[|log| - 1];
      StopFlow(log[..|log| - 1], id) + (if AcceptsStop(e, id) then 1 else if Triggers(e, id) then -1 else 0)
  }

  /** Stops waiting under an id. */
  function Pending(stops: Stops, id: nat): nat {
    if stops == [] then 0 else (if stops[0].1.id == id then 1 else 0) + Pending(stops[1..], id)
  }

  lemma StopFlowAppend(log: seq<Event>, e: Event, id: nat)
    ensures StopFlow(log + [e], id) == StopFlow(log, id) + if AcceptsStop(e, id) then 1 else if Triggers(e, id) then -1 else 0
  {
    assert (log + [e])[..|log|] == log;
  }

  lemma {:induction false} StopFlowSame(log: seq<Event>, log': seq<Event>, id: nat)
    requires log <= log'
    requires forall k :: |log| <= k < |log'| ==> !AcceptsStop(log'[k], id) && !Triggers(log'[k], id)
    ensures StopFlow(log', id) == StopFlow(log, id)
    decreases |log'|
  {
    if |log| < |log'| {
      StopFlowSame(log, log'[..|log'| - 1], id);
    } else {
      assert log == log';
    }
  }

  lemma {:induction false} PendingInserted(stops: Stops, k: nat, s: (nat, StopEntry), id: nat)
    requires k <= |stops|
    ensures Pending(Inserted(stops, k, s), id) == Pending(stops, id) + if s.1.id == id then 1 else 0
  {
    if k == 0 {
      assert Inserted(stops, 0, s) == [s] + stops;
    } else {
      PendingInserted(stops[1..], k - 1, s, id);
      assert Inserted(stops, k, s)[1..] == Inserted(stops[1..], k - 1, s);
    }
  }

  /** An order that enters neither accepts nor fires a stop. */
  lemma EnterStopFlow(c: Core, n: Request, id: nat, c1: Core)
    requires Shape(c.book) && !n.orderType.StopLimit? && c1 == Enter(c, n)
    ensures StopFlow(c1.log, id) == StopFlow(c.log, id)
  {
    EnterWrites(c, n);
    forall k | |c.log| <= k < |c1.log| ensures !AcceptsStop(c1.log[k], id) && !Triggers(c1.log[k], id) {
      assert EntryEvent(c.book, n, c1.log[k]);
    }
    StopFlowSame(c.log, c1.log, id);
  }

  lemma FireOneStopFlow(c: Core, s: StopEntry, id: nat, c1: Core)
    requires Sound(c) && c1 == FireOne(c, s)
    ensures StopFlow(c1.log, id) == StopFlow(c.log, id) - if s.id == id then 1 else 0
  {
    var c2 := Noted(Emit(c, StopTriggered(0, s.id)), Fired(s.id, s.qty));
    StopFlowAppend(c.log, StopTriggered(|c.log| + 1, s.id), id);
    EnterStopFlow(c2, FiredRequest(s), id, c1);
  }

  lemma {:induction false} FireStopFlow(c: Core, side: Side, stops: Stops, last: nat, id: nat)
    requires Sound(c) && StopsBookable(stops)
    ensures var r := Fire(c, side, stops, last);
            StopFlow(r.0.log, id) - Pending(r.1, id) == StopFlow(c.log, id) - Pending(stops, id)
    decreases |stops|
  {
    if stops != [] && Triggered(side, stops[0].0, last) {
      FireOneFacts(c, stops[0].1);
      var c1 := FireOne(c, stops[0].1);
      FireOneStopFlow(c, stops[0].1, id, c1);
      FireStopFlow(c1, side, stops[1..], last, id);
    }
  }

  /** Stops accepted, minus stops fired, minus stops waiting. */
  function StopDebt(e: Engine, id: nat): int {
    StopFlow(e.core.log, id) - Pending(e.stopBids, id) - Pending(e.stopAsks, id)
  }

  lemma {:induction false} DrainStopDebt(e: Engine, id: nat)
    requires SoundEngine(e)
    ensures StopDebt(Drain(e), id) == StopDebt(e, id)
    decreases |e.stopBids| + |e.stopAsks|
  {
    if e.core.last.Some? {
      var price := e.core.last.value;
      FireFacts(e.core, Bid, e.stopBids, price);
      FireStopFlow(e.core, Bid, e.stopBids, price, id);
      var (c1, bids) := Fire(e.core, Bid, e.stopBids, price);
      FireFacts(c1, Ask, e.stopAsks, price);
      FireStopFlow(c1, Ask, e.stopAsks, price, id);
      var (c2, asks) := Fire(c1, Ask, e.stopAsks, price);
      if c2.last != Some(price) {
        DrainStopDebt(Engine(c2, bids, asks), id);
      }
    }
  }

  lemma PlaceStopDebt(e: Engine, n: Request, stopPrice: Option<nat>, id: nat)
    requires n.orderType.StopLimit?
    ensures StopDebt(PlaceStop(e, n, stopPrice), id) == StopDebt(e, id)
  {
    if n.qty == 0 || stopPrice.None? {
      StopFlowSame(e.core.log, PlaceStop(e, n, stopPrice).core.log, id);
    } else {
      StopFlowAppend(e.core.log, OrderAccepted(|e.core.log| + 1, n.id, n.side, n.price, n.qty, n.orderType), id);
      var s := (stopPrice.value, StopEntry(n.id, n.side, n.price, n.qty, n.tif, n.visible, n.stpGroup));
      PendingInserted(e.stopBids, StopPosition(Bid, e.stopBids, stopPrice.value), s, id);
      PendingInserted(e.stopAsks, StopPosition(Ask, e.stopAsks, stopPrice.value), s, id);
    }
  }

  lemma WithdrawStopFlow(c: Core, x: nat, newPrice: nat, newQty: nat, id: nat)
    requires Sound(c) && Resting(c.book, x)
    ensures StopFlow(Modify(c, x, newPrice, newQty).log, id) == StopFlow(c.log, id)
  {
    var told := Withdraw(c, x, newPrice, newQty);
    WithdrawFacts(c, x, newPrice, newQty);
    StopFlowSame(c.log, told.log, id);
    EnterStopFlow(told, Replacement(c, x, newPrice, newQty), id, Modify(c, x, newPrice, newQty));
  }

  lemma ObeyStopDebt(e: Engine, cmd: Command, id: nat)
    requires SoundEngine(e)
    ensures StopDebt(Obey(e, cmd), id) == StopDebt(e, id)
  {
    match cmd
    case NewOrder(_, _, _, _, _, orderType, _, _, stopPrice, _) =>
      if orderType.StopLimit? {
        PlaceStopDebt(e, RequestOf(cmd), if stopPrice.Some? then Some(stopPrice.value) else None, id);
      } else {
        EnterStopFlow(e.core, RequestOf(cmd), id, Enter(e.core, RequestOf(cmd)));
      }
    case CancelOrder(x) =>
      StopFlowSame(e.core.log, Cancel(e.core, x).log, id);
    case ModifyOrder(x, newPrice, newQty) =>
      if Resting(e.core.book, x) {
        WithdrawStopFlow(e.core, x, newPrice, newQty, id);
      } else {
        StopFlowSame(e.core.log, Modify(e.core, x, newPrice, newQty).log, id);
      }
  }

  /* ---- The order of firing ---- */

  /** The stops that fired, in the order of the log. */
  function FiredIds(log: seq<Event>): seq<nat> {
    if log == [] then []
    else
      var e := log[|log| - 1];
      FiredIds(log[..|log| - 1]) + (if e.StopTriggered? then [e.id] else [])
  }

  /** The stops that are due at a price, in the order of the queue. */
  function Due(side: Side, stops: Stops, last: nat): seq<nat> {
    if stops == [] then []
    else
      var px := stops[0].0;
      (if (if side == Bid then px <= last else px >= last) then [stops[0].1.id] else []) + Due(side, stops[1..], last)
  }

  lemma {:induction false} FiredSame(log: seq<Event>, log': seq<Event>)
    requires log <= log' && forall k :: |log| <= k < |log'| ==> !log'[k].StopTriggered?
    ensures FiredIds(log') == FiredIds(log)
    decreases |log'|
  {
    if |log| < |log'| {
      FiredSame(log, log'[..|log'| - 1]);
    } else {
      assert log == log';
    }
  }

  /** An order that enters fires no stop. */
  lemma EnterFiresNone(c: Core, n: Request, c1: Core)
    requires Shape(c.book) && c1 == Enter(c, n)
    ensures FiredIds(c1.log) == FiredIds(c.log)
  {
    EnterWrites(c, n);
    forall k | |c.log| <= k < |c1.log| ensures !c1.log[k].StopTriggered? {
      assert EntryEvent(c.book, n, c1.log[k]);
    }
    FiredSame(c.log, c1.log);
  }

  lemma FireOneFires(c: Core, s: StopEntry, c1: Core)
    requires Shape(c.book) && c1 == FireOne(c, s)
    ensures FiredIds(c1.log) == FiredIds(c.log) + [s.id]
  {
    var c2 := Noted(Emit(c, StopTriggered(0, s.id)), Fired(s.id, s.qty));
    assert c2.log[..|c.log|] == c.log;
    EnterFiresNone(c2, FiredRequest(s), c1);
  }

  lemma NothingTriggers(side: Side, stops: Stops, last: nat)
    requires Sorted(side, stops) && (stops == [] || !Triggered(side, stops[0].0, last))
    ensures Quiet(side, stops, last)
  {
  }

  lemma {:induction false} NoneDue(side: Side, stops: Stops, last: nat)
    requires Quiet(side, stops, last)
    ensures Due(side, stops, last) == []
  {
    if stops != [] {
      NoneDue(side, stops[1..], last);
    }
  }

  /** From a sorted queue exactly the stops that are due fire, in its order. */
  lemma {:induction false} FiresDue(c: Core, side: Side, stops: Stops, last: nat)
    requires Sound(c) && StopsBookable(stops) && Sorted(side, stops)
    ensures FiredIds(Fire(c, side, stops, last).0.log) == FiredIds(c.log) + Due(side, stops, last)
    decreases |stops|
  {
    if stops != [] && Triggered(side, stops[0].0, last) {
      var (s, c1) := (stops[0].1, FireOne(c, stops[0].1));
      FireOneFacts(c, s);
      FireOneFires(c, s, c1);
      FiresDue(c1, side, stops[1..], last);
      Regroup(FiredIds(c.log), [s.id], Due(side, stops[1..], last));
    } else {
      NothingTriggers(side, stops, last);
      NoneDue(side, stops, last);
    }
  }

  /** A cascade fires the buy stops that are due at the last trade price, nearest trigger first, then the sell stops that are,
      and only then looks at the price that those left. */
  lemma {:induction false} CascadeFiresDue(e: Engine)
    requires SoundEngine(e) && StopsSorted(e)
    ensures FiredIds(e.core.log) <= FiredIds(Drain(e).core.log)
    ensures e.core.last.Some? ==>
              FiredIds(e.core.log) + Due(Bid, e.stopBids, e.core.last.value) + Due(Ask, e.stopAsks, e.core.last.value)
                <= FiredIds(Drain(e).core.log)
    decreases |e.stopBids| + |e.stopAsks|
  {
    if e.core.last.Some? {
      var price := e.core.last.value;
      FireFacts(e.core, Bid, e.stopBids, price);
      FiresDue(e.core, Bid, e.stopBids, price);
      FireQuiets(e.core, Bid, e.stopBids, price);
      var (c1, bids) := Fire(e.core, Bid, e.stopBids, price);
      FireFacts(c1, Ask, e.stopAsks, price);
      FiresDue(c1, Ask, e.stopAsks, price);
      FireQuiets(c1, Ask, e.stopAsks, price);
      var (c2, asks) := Fire(c1, Ask, e.stopAsks, price);
      if c2.last != Some(price) {
        CascadeFiresDue(Engine(c2, bids, asks));
      }
    }
  }

  /* ---- Runs ---- */

  lemma {:induction false} RunCascades(e: Engine, cmds: seq<Command>, id: nat)
    requires SoundEngine(e) && StopsSorted(e) && Quiescent(e)
    ensures var e' := Run(e, cmds); StopsSorted(e') && Quiescent(e') && StopDebt(e', id) == StopDebt(e, id)
    decreases |cmds|
  {
    if cmds != [] {
      ObeyKeepsSorted(e, cmds[0]);
      DrainQuiesces(Obey(e, cmds[0]));
      ObeyFacts(e, cmds[0]);
      ObeyStopDebt(e, cmds[0], id);
      DrainStopDebt(Obey(e, cmds[0]), id);
      ProcessFacts(e, cmds[0]);
      RunCascades(Process(e, cmds[0]), cmds[1..], id);
    }
  }

  /** After every run the stop queues are sorted, every buy stop waits above the last trade price and every
      sell stop below it, and each accepted stop either has fired, once, or still waits. */
  lemma StopsSettle(base: nat, ticks: nat, capacity: nat, mode: StpMode, cmds: seq<Command>, id: nat)
    ensures var e := Run(NewEngine(base, ticks, capacity, mode), cmds);
            && StopsSorted(e) && Quiescent(e)
            && StopFlow(e.core.log, id) == Pending(e.stopBids, id) + Pending(e.stopAsks, id)
  {
    NewEngineSound(base, ticks, capacity, mode);
    RunCascades(NewEngine(base, ticks, capacity, mode), cmds, id);
  }
}
