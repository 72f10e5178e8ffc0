/** What holds of every order that enters the engine in a run: as a new order,
    as the replacement of a modified one, or as a stop that fired. */
module Entering {
  import opened Types
  import opened BookSpec
  import opened EngineSpec
  import opened EngineRuns

  /** A condition on an order and on what it finds when it enters. */
  type Check = (Core, Request) -> bool

  /** What a fired stop finds. */
  function Announced(c: Core, s: StopEntry): Core {
    Noted(Emit(c, StopTriggered(0, s.id)), Fired(s.id, s.qty))
  }

  ghost predicate AllFire(c: Core, side: Side, stops: Stops, last: nat, q: Check)
    decreases |stops|
  {
    stops != [] && Triggered(side, stops[0].0, last) ==>
      && q(Announced(c, stops[0].1), FiredRequest(stops[0].1))
      && AllFire(FireOne(c, stops[0].1), side, stops[1..], last, q)
  }

  ghost predicate AllDrain(e: Engine, q: Check)
    decreases |e.stopBids| + |e.stopAsks|
  {
    e.core.last.Some? ==>
      var price := e.core.last.value;
      var (c1, bids) := Fire(e.core, Bid, e.stopBids, price);
      var (c2, asks) := Fire(c1, Ask, e.stopAsks, price);
      && AllFire(e.core, Bid, e.stopBids, price, q)
      && AllFire(c1, Ask, e.stopAsks, price, q)
      && (c2.last != Some(price) ==> AllDrain(Engine(c2, bids, asks), q))
  }

  ghost predicate AllObey(e: Engine, cmd: Command, q: Check) {
    match cmd
    case NewOrder(_, _, _, _, _, orderType, _, _, _, _) => !orderType.StopLimit? ==> q(e.core, RequestOf(cmd))
    case CancelOrder(_) => true
    case ModifyOrder(id, newPrice, newQty) =>
      Resting(e.core.book, id) ==> q(Withdraw(e.core, id, newPrice, newQty), Replacement(e.core, id, newPrice, newQty))
  }

  /** The condition holds of every order that enters in the run. */
  ghost predicate AllEnter(e: Engine, cmds: seq<Command>, q: Check)
    decreases |cmds|
  {
    cmds != [] ==>
      && AllObey(e, cmds[0], q)
      && AllDrain(Obey(e, cmds[0]), q)
      && AllEnter(Process(e, cmds[0]), cmds[1..], q)
  }

  /* ---- Induction over the orders that enter ---- */

  /** A condition on the state between orders. */
  type Standing = Core -> bool

  /** Where `inv` holds and an order with `p` enters, `q` holds of the order, and `inv` after it. */
  ghost predicate Carries(inv: Standing, p: Check, q: Check, c: Core, n: Request) {
    Bookable(n) && inv(c) && p(c, n) ==> q(c, n) && inv(Enter(c, n))
  }

  /** Cancelling or withdrawing an order keeps `inv`. */
  ghost predicate Sheds(inv: Standing, c: Core, id: nat, newPrice: nat, newQty: nat) {
    inv(c) && Resting(c.book, id) ==> inv(Cancel(c, id)) && inv(Withdraw(c, id, newPrice, newQty))
  }

  /** So does telling of anything but a fill or a level, and a note of a fired stop. */
  ghost predicate Tells(inv: Standing, c: Core, e: Event, s: StopEntry) {
    && (inv(c) && !e.Fill? && !e.BookUpdate? ==> inv(Emit(c, e)))
    && (inv(c) ==> inv(Noted(c, Fired(s.id, s.qty))))
  }

  ghost predicate Entered(inv: Standing, p: Check, q: Check) {
    && (forall c, n {:trigger Carries(inv, p, q, c, n)} :: Carries(inv, p, q, c, n))
    && (forall c, e, s {:trigger Tells(inv, c, e, s)} :: Tells(inv, c, e, s))
  }

  ghost predicate Carried(inv: Standing, p: Check, q: Check) {
    && Entered(inv, p, q)
    && (forall c, id, newPrice, newQty {:trigger Sheds(inv, c, id, newPrice, newQty)} :: Sheds(inv, c, id, newPrice, newQty))
  }

  lemma AnnouncedStands(inv: Standing, p: Check, q: Check, c: Core, s: StopEntry)
    requires Entered(inv, p, q) && inv(c)
    ensures inv(Announced(c, s))
  {
    assert Tells(inv, c, StopTriggered(0, s.id), s);
    assert Tells(inv, Emit(c, StopTriggered(0, s.id)), StopTriggered(0, s.id), s);
  }

  lemma {:induction false} FireCarried(inv: Standing, p: Check, q: Check, c: Core, side: Side, stops: Stops, last: nat)
    requires Entered(inv, p, q) && inv(c) && StopsBookable(stops) && AllFire(c, side, stops, last, p)
    ensures var r := Fire(c, side, stops, last);
            AllFire(c, side, stops, last, q) && inv(r.0) && StopsBookable(r.1)
    decreases |stops|
  {
    if stops != [] && Triggered(side, stops[0].0, last) {
      AnnouncedStands(inv, p, q, c, stops[0].1);
      assert Carries(inv, p, q, Announced(c, stops[0].1), FiredRequest(stops[0].1));
      FireCarried(inv, p, q, FireOne(c, stops[0].1), side, stops[1..], last);
    }
  }

  ghost predicate Stands(inv: Standing, e: Engine) {
    inv(e.core) && StopsBookable(e.stopBids) && StopsBookable(e.stopAsks)
  }

  lemma {:induction false} DrainCarried(inv: Standing, p: Check, q: Check, e: Engine)
    requires Entered(inv, p, q) && Stands(inv, e) && AllDrain(e, p)
    ensures AllDrain(e, q) && Stands(inv, Drain(e))
    decreases |e.stopBids| + |e.stopAsks|
  {
    if e.core.last.Some? {
      var price := e.core.last.value;
      FireCarried(inv, p, q, e.core, Bid, e.stopBids, price);
      var (c1, bids) := Fire(e.core, Bid, e.stopBids, price);
      FireCarried(inv, p, q, c1, Ask, e.stopAsks, price);
      var (c2, asks) := Fire(c1, Ask, e.stopAsks, price);
      if c2.last != Some(price) {
        DrainCarried(inv, p, q, Engine(c2, bids, asks));
      }
    }
  }

  lemma RejectStands(inv: Standing, p: Check, q: Check, c: Core, id: nat, reason: RejectReason)
    requires Entered(inv, p, q) && inv(c)
    ensures inv(Reject(c, id, reason))
  {
    assert Tells(inv, c, OrderRejected(0, id, reason), StopEntry(0, Bid, 0, 0, GTC, None, None));
  }

  lemma PlaceStopStands(inv: Standing, p: Check, q: Check, e: Engine, n: Request, stopPrice: Option<nat>)
    requires Entered(inv, p, q) && Stands(inv, e) && Bookable(n)
    ensures Stands(inv, PlaceStop(e, n, stopPrice))
  {
    RejectStands(inv, p, q, e.core, n.id, InvalidQuantity);
    RejectStands(inv, p, q, e.core, n.id, InvalidPrice);
    var e' := OrderAccepted(0, n.id, n.side, n.price, n.qty, n.orderType);
    assert Tells(inv, e.core, e', StopEntry(0, Bid, 0, 0, GTC, None, None));
  }

  lemma ObeyCarried(inv: Standing, p: Check, q: Check, e: Engine, cmd: Command)
    requires Carried(inv, p, q) && Stands(inv, e) && AllObey(e, cmd, p)
    ensures AllObey(e, cmd, q) && Stands(inv, Obey(e, cmd))
  {
    match cmd
    case NewOrder(_, _, _, _, _, orderType, _, _, stopPrice, _) =>
      if orderType.StopLimit? {
        PlaceStopStands(inv, p, q, e, RequestOf(cmd), if stopPrice.Some? then Some(stopPrice.value) else None);
      } else {
        assert Carries(inv, p, q, e.core, RequestOf(cmd));
      }
    case CancelOrder(id) =>
      assert Sheds(inv, e.core, id, 0, 0);
      RejectStands(inv, p, q, e.core, id, OrderNotFound);
    case ModifyOrder(id, newPrice, newQty) =>
      assert Sheds(inv, e.core, id, newPrice, newQty);
      RejectStands(inv, p, q, e.core, id, OrderNotFound);
      if Resting(e.core.book, id) {
        assert Carries(inv, p, q, Withdraw(e.core, id, newPrice, newQty), Replacement(e.core, id, newPrice, newQty));
      }
  }

  /** What carries over one order carries over a run, stop cascades included. */
  lemma {:induction false} RunCarried(inv: Standing, p: Check, q: Check, e: Engine, cmds: seq<Command>)
    requires Carried(inv, p, q) && Stands(inv, e) && AllEnter(e, cmds, p)
    ensures AllEnter(e, cmds, q) && Stands(inv, Run(e, cmds))
    decreases |cmds|
  {
    if cmds != [] {
      ObeyCarried(inv, p, q, e, cmds[0]);
      DrainCarried(inv, p, q, Obey(e, cmds[0]));
      RunCarried(inv, p, q, Process(e, cmds[0]), cmds[1..]);
    }
  }

  /* ---- Conditions on the book ---- */

  /** A condition on the book and the mode. */
  type Lasting = (Book, StpMode) -> bool

  ghost function OfBook(inv: Lasting): Standing {
    (c: Core) => inv(c.book, c.mode)
  }

  /** Taking an order off the book keeps `inv`. */
  ghost predicate Loses(inv: Lasting, b: Book, mode: StpMode, id: nat) {
    inv(b, mode) && Resting(b, id) ==> inv(Remove(b, id), mode)
  }

  ghost predicate CarriesOn(inv: Lasting, p: Check, q: Check, c: Core, n: Request) {
    Bookable(n) && inv(c.book, c.mode) && p(c, n) ==> q(c, n) && inv(Enter(c, n).book, Enter(c, n).mode)
  }

  lemma BookEntered(inv: Lasting, p: Check, q: Check)
    requires forall c, n {:trigger CarriesOn(inv, p, q, c, n)} :: CarriesOn(inv, p, q, c, n)
    ensures Entered(OfBook(inv), p, q)
  {
    forall c, n ensures Carries(OfBook(inv), p, q, c, n) {
      assert CarriesOn(inv, p, q, c, n);
    }
    forall c, e, s ensures Tells(OfBook(inv), c, e, s) {
    }
  }

  lemma BookCarried(inv: Lasting, p: Check, q: Check)
    requires forall c, n {:trigger CarriesOn(inv, p, q, c, n)} :: CarriesOn(inv, p, q, c, n)
    requires forall b, mode, id {:trigger Loses(inv, b, mode, id)} :: Loses(inv, b, mode, id)
    ensures Carried(OfBook(inv), p, q)
  {
    BookEntered(inv, p, q);
    forall c, id, newPrice, newQty ensures Sheds(OfBook(inv), c, id, newPrice, newQty) {
      assert Loses(inv, c.book, c.mode, id);
    }
  }

  /* ---- What the orders write ---- */

  /** The log grew, by fills that satisfy `g` and by other events. */
  ghost predicate FillsAre(log: seq<Event>, log': seq<Event>, g: Event -> bool) {
    log <= log' && forall k :: |log| <= k < |log'| && log'[k].Fill? ==> g(log'[k])
  }

  ghost predicate EnterFillsAre(g: Event -> bool, c: Core, n: Request) {
    FillsAre(c.log, Enter(c, n).log, g)
  }

  ghost function EntersOnly(g: Event -> bool): Check {
    (c: Core, n: Request) => EnterFillsAre(g, c, n)
  }

  lemma FillsOn(log: seq<Event>, log1: seq<Event>, log2: seq<Event>, g: Event -> bool)
    requires FillsAre(log, log1, g) && FillsAre(log1, log2, g)
    ensures FillsAre(log, log2, g)
  {
    forall k | |log| <= k < |log2| && log2[k].Fill? ensures g(log2[k]) {
      assert k < |log1| ==> log2[k] == log1[k];
    }
  }

  lemma {:induction false} FireWrites(c: Core, side: Side, stops: Stops, last: nat, g: Event -> bool)
    requires AllFire(c, side, stops, last, EntersOnly(g))
    ensures FillsAre(c.log, Fire(c, side, stops, last).0.log, g)
    decreases |stops|
  {
    if stops != [] && Triggered(side, stops[0].0, last) {
      var c1 := Announced(c, stops[0].1);
      var c2 := FireOne(c, stops[0].1);
      FireWrites(c2, side, stops[1..], last, g);
      assert FillsAre(c.log, c1.log, g);
      FillsOn(c.log, c1.log, c2.log, g);
      FillsOn(c.log, c2.log, Fire(c, side, stops, last).0.log, g);
    }
  }

  lemma {:induction false} DrainWrites(e: Engine, g: Event -> bool)
    requires AllDrain(e, EntersOnly(g))
    ensures FillsAre(e.core.log, Drain(e).core.log, g)
    decreases |e.stopBids| + |e.stopAsks|
  {
    if e.core.last.Some? {
      var price := e.core.last.value;
      FireWrites(e.core, Bid, e.stopBids, price, g);
      var (c1, bids) := Fire(e.core, Bid, e.stopBids, price);
      FireWrites(c1, Ask, e.stopAsks, price, g);
      var (c2, asks) := Fire(c1, Ask, e.stopAsks, price);
      FillsOn(e.core.log, c1.log, c2.log, g);
      if c2.last != Some(price) {
        DrainWrites(Engine(c2, bids, asks), g);
        FillsOn(e.core.log, c2.log, Drain(e).core.log, g);
      }
    }
  }

  /** A withdrawal writes no fill. */
  lemma WithdrawWrites(c: Core, id: nat, newPrice: nat, newQty: nat, g: Event -> bool)
    requires Resting(c.book, id)
    ensures FillsAre(c.log, Withdraw(c, id, newPrice, newQty).log, g)
  {
  }

  lemma CancelWrites(c: Core, id: nat, g: Event -> bool)
    ensures FillsAre(c.log, Cancel(c, id).log, g)
  {
  }

  lemma PlaceStopWrites(e: Engine, n: Request, stopPrice: Option<nat>, g: Event -> bool)
    ensures FillsAre(e.core.log, PlaceStop(e, n, stopPrice).core.log, g)
  {
  }

  lemma ModifyWrites(c: Core, id: nat, newPrice: nat, newQty: nat, g: Event -> bool)
    requires Resting(c.book, id) ==>
               EnterFillsAre(g, Withdraw(c, id, newPrice, newQty), Replacement(c, id, newPrice, newQty))
    ensures FillsAre(c.log, Modify(c, id, newPrice, newQty).log, g)
  {
    if Resting(c.book, id) {
      WithdrawWrites(c, id, newPrice, newQty, g);
      FillsOn(c.log, Withdraw(c, id, newPrice, newQty).log, Modify(c, id, newPrice, newQty).log, g);
    }
  }

  lemma ObeyWrites(e: Engine, cmd: Command, g: Event -> bool)
    requires AllObey(e, cmd, EntersOnly(g))
    ensures FillsAre(e.core.log, Obey(e, cmd).core.log, g)
  {
    match cmd
    case NewOrder(_, _, _, _, _, orderType, _, _, stopPrice, _) =>
      if orderType.StopLimit? {
        PlaceStopWrites(e, RequestOf(cmd), if stopPrice.Some? then Some(stopPrice.value) else None, g);
      } else {
        assert EnterFillsAre(g, e.core, RequestOf(cmd));
      }
    case CancelOrder(id) =>
      CancelWrites(e.core, id, g);
    case ModifyOrder(id, newPrice, newQty) =>
      ModifyWrites(e.core, id, newPrice, newQty, g);
  }

  /** The fills of a run are those of the orders that enter. */
  lemma {:induction false} RunWrites(e: Engine, cmds: seq<Command>, g: Event -> bool)
    requires AllEnter(e, cmds, EntersOnly(g))
    ensures FillsAre(e.core.log, Run(e, cmds).core.log, g)
    decreases |cmds|
  {
    if cmds != [] {
      ObeyWrites(e, cmds[0], g);
      DrainWrites(Obey(e, cmds[0]), g);
      RunWrites(Process(e, cmds[0]), cmds[1..], g);
      FillsOn(e.core.log, Obey(e, cmds[0]).core.log, Process(e, cmds[0]).core.log, g);
      FillsOn(e.core.log, Process(e, cmds[0]).core.log, Run(e, cmds).core.log, g);
    }
  }

  /* ---- What the orders wrote ---- */

  /** Any event will do. */
  predicate Whatever(e: Event) {
    true
  }

  lemma FillsWithin(log: seq<Event>, log1: seq<Event>, log2: seq<Event>, log3: seq<Event>, g: Event -> bool)
    requires log <= log1 <= log2 <= log3 && FillsAre(log, log3, g)
    ensures FillsAre(log1, log2, g)
  {
    forall k | |log1| <= k < |log2| && log2[k].Fill? ensures g(log2[k]) {
      assert log2[k] == log3[k];
    }
  }

  /** Where the fills of a cascade satisfy `g`, so do those of each order that enters in it. */
  lemma {:induction false} FireWrote(c: Core, side: Side, stops: Stops, last: nat, g: Event -> bool)
    requires AllFire(c, side, stops, last, EntersOnly(Whatever)) && FillsAre(c.log, Fire(c, side, stops, last).0.log, g)
    ensures AllFire(c, side, stops, last, EntersOnly(g))
    decreases |stops|
  {
    if stops != [] && Triggered(side, stops[0].0, last) {
      var (c1, c2, log) := (Announced(c, stops[0].1), FireOne(c, stops[0].1), Fire(c, side, stops, last).0.log);
      FireWrites(c2, side, stops[1..], last, Whatever);
      FillsWithin(c.log, c1.log, c2.log, log, g);
      FillsWithin(c.log, c2.log, log, log, g);
      FireWrote(c2, side, stops[1..], last, g);
    }
  }

  lemma {:induction false} DrainWrote(e: Engine, g: Event -> bool)
    requires AllDrain(e, EntersOnly(Whatever)) && FillsAre(e.core.log, Drain(e).core.log, g)
    ensures AllDrain(e, EntersOnly(g))
    decreases |e.stopBids| + |e.stopAsks|
  {
    if e.core.last.Some? {
      var price := e.core.last.value;
      var (c1, bids) := Fire(e.core, Bid, e.stopBids, price);
      var (c2, asks) := Fire(c1, Ask, e.stopAsks, price);
      var log := Drain(e).core.log;
      FireWrites(e.core, Bid, e.stopBids, price, Whatever);
      FireWrites(c1, Ask, e.stopAsks, price, Whatever);
      if c2.last != Some(price) {
        DrainWrites(Engine(c2, bids, asks), Whatever);
      }
      FillsWithin(e.core.log, e.core.log, c1.log, log, g);
      FillsWithin(e.core.log, c1.log, c2.log, log, g);
      FillsWithin(e.core.log, c2.log, log, log, g);
      FireWrote(e.core, Bid, e.stopBids, price, g);
      FireWrote(c1, Ask, e.stopAsks, price, g);
      if c2.last != Some(price) {
        DrainWrote(Engine(c2, bids, asks), g);
      }
    }
  }

  lemma ObeyWrote(e: Engine, cmd: Command, g: Event -> bool)
    requires AllObey(e, cmd, EntersOnly(Whatever)) && FillsAre(e.core.log, Obey(e, cmd).core.log, g)
    ensures AllObey(e, cmd, EntersOnly(g))
  {
    if cmd.ModifyOrder? && Resting(e.core.book, cmd.id) {
      var c := Withdraw(e.core, cmd.id, cmd.newPrice, cmd.newQty);
      WithdrawWrites(e.core, cmd.id, cmd.newPrice, cmd.newQty, Whatever);
      assert EnterFillsAre(Whatever, c, Replacement(e.core, cmd.id, cmd.newPrice, cmd.newQty));
      FillsWithin(e.core.log, c.log, Obey(e, cmd).core.log, Obey(e, cmd).core.log, g);
    }
  }

  /** Where the fills of a run satisfy `g`, so do those of each order that enters in it. */
  lemma {:induction false} RunWrote(e: Engine, cmds: seq<Command>, g: Event -> bool)
    requires AllEnter(e, cmds, EntersOnly(Whatever)) && FillsAre(e.core.log, Run(e, cmds).core.log, g)
    ensures AllEnter(e, cmds, EntersOnly(g))
    decreases |cmds|
  {
    if cmds != [] {
      var (e1, e2, log) := (Obey(e, cmds[0]), Process(e, cmds[0]), Run(e, cmds).core.log);
      ObeyWrites(e, cmds[0], Whatever);
      DrainWrites(e1, Whatever);
      RunWrites(e2, cmds[1..], Whatever);
      FillsWithin(e.core.log, e.core.log, e1.core.log, log, g);
      FillsWithin(e.core.log, e1.core.log, e2.core.log, log, g);
      FillsWithin(e.core.log, e2.core.log, log, log, g);
      ObeyWrote(e, cmds[0], g);
      DrainWrote(e1, g);
      RunWrote(e2, cmds[1..], g);
    }
  }

  /* ---- Conditions on the orders alone ---- */

  /** What an order turns into when it fires, if it is a stop. */
  function AsEntered(n: Request): Request {
    if n.orderType.StopLimit? then n.(orderType := Limit) else n
  }

  /** What a caller checks before a command. */
  predicate Asked(e: Engine, cmd: Command, r: Request -> bool) {
    match cmd
    case NewOrder(_, _, _, _, _, _, _, _, _, _) => r(AsEntered(RequestOf(cmd)))
    case CancelOrder(_) => true
    case ModifyOrder(id, newPrice, newQty) => Resting(e.core.book, id) ==> r(Replacement(e.core, id, newPrice, newQty))
  }

  ghost predicate AskedRun(e: Engine, cmds: seq<Command>, r: Request -> bool)
    decreases |cmds|
  {
    cmds == [] || (Asked(e, cmds[0], r) && AskedRun(Process(e, cmds[0]), cmds[1..], r))
  }

  ghost predicate StopsAre(stops: Stops, r: Request -> bool) {
    forall k :: 0 <= k < |stops| ==> r(FiredRequest(stops[k].1))
  }

  ghost function OfRequest(r: Request -> bool): Check {
    (c: Core, n: Request) => r(n)
  }

  lemma {:induction false} FireAsked(c: Core, side: Side, stops: Stops, last: nat, r: Request -> bool)
    requires StopsAre(stops, r)
    ensures AllFire(c, side, stops, last, OfRequest(r)) && StopsAre(Fire(c, side, stops, last).1, r)
    decreases |stops|
  {
    if stops != [] && Triggered(side, stops[0].0, last) {
      FireAsked(FireOne(c, stops[0].1), side, stops[1..], last, r);
    }
  }

  lemma {:induction false} DrainAsked(e: Engine, r: Request -> bool)
    requires StopsAre(e.stopBids, r) && StopsAre(e.stopAsks, r)
    ensures AllDrain(e, OfRequest(r)) && StopsAre(Drain(e).stopBids, r) && StopsAre(Drain(e).stopAsks, r)
    decreases |e.stopBids| + |e.stopAsks|
  {
    if e.core.last.Some? {
      var price := e.core.last.value;
      FireAsked(e.core, Bid, e.stopBids, price, r);
      var (c1, bids) := Fire(e.core, Bid, e.stopBids, price);
      FireAsked(c1, Ask, e.stopAsks, price, r);
      var (c2, asks) := Fire(c1, Ask, e.stopAsks, price);
      if c2.last != Some(price) {
        DrainAsked(Engine(c2, bids, asks), r);
      }
    }
  }

  lemma InsertedAre(stops: Stops, k: nat, s: (nat, StopEntry), r: Request -> bool)
    requires k <= |stops| && StopsAre(stops, r) && r(FiredRequest(s.1))
    ensures StopsAre(Inserted(stops, k, s), r)
  {
    forall i | 0 <= i < |stops| + 1
      ensures Inserted(stops, k, s)[i] == if i < k then stops[i] else if i == k then s else stops[i - 1]
    {
    }
  }

  lemma ObeyAsked(e: Engine, cmd: Command, r: Request -> bool)
    requires StopsAre(e.stopBids, r) && StopsAre(e.stopAsks, r) && Asked(e, cmd, r)
    ensures AllObey(e, cmd, OfRequest(r)) && StopsAre(Obey(e, cmd).stopBids, r) && StopsAre(Obey(e, cmd).stopAsks, r)
  {
    if cmd.NewOrder? && cmd.orderType.StopLimit? && cmd.stopPrice.Some? {
      var n, px := RequestOf(cmd), cmd.stopPrice.value;
      var s := (px, StopEntry(n.id, n.side, n.price, n.qty, n.tif, n.visible, n.stpGroup));
      assert FiredRequest(s.1) == AsEntered(n);
      InsertedAre(e.stopBids, StopPosition(Bid, e.stopBids, px), s, r);
      InsertedAre(e.stopAsks, StopPosition(Ask, e.stopAsks, px), s, r);
    }
  }

  /** What is checked of every command holds of every order that enters. */
  lemma {:induction false} AskedEnter(e: Engine, cmds: seq<Command>, r: Request -> bool)
    requires StopsAre(e.stopBids, r) && StopsAre(e.stopAsks, r) && AskedRun(e, cmds, r)
    ensures AllEnter(e, cmds, OfRequest(r))
    decreases |cmds|
  {
    if cmds != [] {
      ObeyAsked(e, cmds[0], r);
      DrainAsked(Obey(e, cmds[0]), r);
      AskedEnter(Process(e, cmds[0]), cmds[1..], r);
    }
  }

  /** Stops enter as limit orders, so no order that enters is a stop. */
  predicate NoStop(n: Request) {
    !n.orderType.StopLimit?
  }

  lemma {:induction false} NoStopAsked(e: Engine, cmds: seq<Command>)
    ensures AskedRun(e, cmds, NoStop)
    decreases |cmds|
  {
    if cmds != [] {
      NoStopAsked(Process(e, cmds[0]), cmds[1..]);
    }
  }

  lemma NoStopEnters(e: Engine, cmds: seq<Command>)
    ensures AllEnter(e, cmds, OfRequest(NoStop))
  {
    NoStopAsked(e, cmds);
    assert StopsAre(e.stopBids, NoStop) && StopsAre(e.stopAsks, NoStop);
    AskedEnter(e, cmds, NoStop);
  }
}
