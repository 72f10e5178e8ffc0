/** Self-trade prevention over runs: exactly when no fill pairs two orders that
    came under one group, and that none does as long as no order that came under
    a group is modified. */
module SelfTrading {
  import opened Types
  import opened BookSpec
  import opened BookFacts
  import opened BookLedger
  import opened EngineSpec
  import opened EngineRuns
  import opened Rounds
  import opened Routes
  import opened Greedy
  import opened Entries
  import opened Entering

  /** The group under which each id comes. */
  type Grouping = nat -> Option<nat>

  /** What an order without a group is stored under. */
  function Kept(group: Option<nat>): nat {
    if group.Some? then group.value else STP_NONE
  }

  /** An order comes under the group of its id. */
  ghost function Grouped(group: Grouping): Request -> bool {
    (n: Request) => n.stpGroup == group(n.id)
  }

  /** Every resting order is stored under the group of its id. */
  ghost predicate StoredRight(group: Grouping, b: Book) {
    Shape(b) && forall x {:trigger GroupOf(b, x)} :: x in b.ids ==> GroupOf(b, x) == Kept(group(x))
  }

  ghost function StoresRight(group: Grouping): Lasting {
    (b: Book, mode: StpMode) => StoredRight(group, b)
  }

  /** A fill does not pair two orders of one group. */
  predicate Clean(group: Grouping, e: Event) {
    e.Fill? ==> !SameGroup(group(e.taker), Kept(group(e.maker)))
  }

  ghost function Cleanly(group: Grouping): Event -> bool {
    (e: Event) => Clean(group, e)
  }

  lemma InsertKeepsStored(group: Grouping, b: Book, o: Order)
    requires StoredRight(group, b) && o.price < U64_LIMIT && o.stp == Kept(group(o.id))
    ensures StoredRight(group, Insert(b, o))
  {
    InsertKeepsShape(b, o);
    if !Refuses(b, o.id) {
      var b' := Insert(b, o);
      forall x | x in b'.ids ensures GroupOf(b', x) == Kept(group(x)) {
        if x == o.id {
          OrderByPosition(b', x, |b'.queues[Place(o.side, o.price)]| - 1);
        } else {
          RestingOrder(b, x);
          var k := PositionOf(b.queues[b.ids[x]], x);
          assert b'.queues[b.ids[x]][k] == b.queues[b.ids[x]][k];
          OrderByPosition(b', x, k);
          assert GroupOf(b, x) == Kept(group(x));
        }
      }
    }
  }

  lemma RestedStores(group: Grouping, c: Core, n: Request, qty: nat)
    requires StoredRight(group, c.book) && Bookable(n) && n.stpGroup == group(n.id)
    ensures StoredRight(group, Rested(c, n, qty).book)
  {
    InsertKeepsStored(group, c.book, Booked(n.id, n.side, n.price, qty, n.orderType, n.visible, n.stpGroup));
  }

  /** Where orders stay under their groups, they are stored right still. */
  lemma GroupsStay(group: Grouping, b: Book, b': Book)
    requires StoredRight(group, b) && Shape(b') && KeepsGroups(b, b')
    ensures StoredRight(group, b')
  {
    forall x | x in b'.ids ensures GroupOf(b', x) == Kept(group(x)) {
      assert GroupOf(b', x) == GroupOf(b, x);
    }
  }

  lemma MatchKeepsGroups(c: Core, t: Taker, rem: nat, r: Round)
    requires Shape(c.book) && r == Match(c, t, rem)
    ensures KeepsGroups(c.book, r.c.book)
  {
    MatchWrites(c, t, rem);
  }

  lemma MatchStores(group: Grouping, c: Core, t: Taker, rem: nat, r: Round)
    requires StoredRight(group, c.book) && r == Match(c, t, rem)
    ensures StoredRight(group, r.c.book)
  {
    MatchKeepsShape(c, t, rem, r);
    MatchKeepsGroups(c, t, rem, r);
    GroupsStay(group, c.book, r.c.book);
  }

  lemma SettleStores(group: Grouping, c: Core, n: Request, rem: nat, cancel: bool)
    requires StoredRight(group, c.book) && Bookable(n) && n.stpGroup == group(n.id)
    ensures StoredRight(group, Settle(c, n, rem, cancel).book)
  {
    RestedStores(group, c, n, rem);
  }

  lemma EnterStores(group: Grouping, c: Core, n: Request)
    requires StoredRight(group, c.book) && Bookable(n) && n.stpGroup == group(n.id)
    ensures StoredRight(group, Enter(c, n).book)
  {
    if n.orderType.PostOnly? {
      RestedStores(group, Accepted(c, n), n, n.qty);
    } else if Rejection(c, n).None? {
      var r := Match(Accepted(c, n), TakerOf(n), n.qty);
      MatchStores(group, Accepted(c, n), TakerOf(n), n.qty, r);
      SettleStores(group, r.c, n, r.rem, r.cancel);
    }
  }

  lemma EnterFillsClean(group: Grouping, c: Core, n: Request)
    requires StoredRight(group, c.book) && n.stpGroup == group(n.id)
    ensures FillsAre(c.log, Enter(c, n).log, Cleanly(group))
  {
    EnterWrites(c, n);
    var log := Enter(c, n).log;
    forall k | |c.log| <= k < |log| && log[k].Fill? ensures Cleanly(group)(log[k]) {
      assert EntryEvent(c.book, n, log[k]);
      assert GroupOf(c.book, log[k].maker) == Kept(group(log[k].maker));
    }
  }

  lemma GroupsCarry(group: Grouping)
    ensures Carried(OfBook(StoresRight(group)), OfRequest(Grouped(group)), EntersOnly(Cleanly(group)))
  {
    var (inv, p, q) := (StoresRight(group), OfRequest(Grouped(group)), EntersOnly(Cleanly(group)));
    forall c, n ensures CarriesOn(inv, p, q, c, n) {
      if Bookable(n) && StoredRight(group, c.book) && n.stpGroup == group(n.id) {
        EnterStores(group, c, n);
        EnterFillsClean(group, c, n);
      }
    }
    forall b, mode, id ensures Loses(inv, b, mode, id) {
      if Resting(b, id) && StoredRight(group, b) {
        RemoveKeepsStored(group, b, id);
      }
    }
    BookCarried(inv, p, q);
  }

  lemma RemoveKeepsStored(group: Grouping, b: Book, id: nat)
    requires StoredRight(group, b) && Resting(b, id)
    ensures StoredRight(group, Remove(b, id))
  {
    RemoveKeepsShape(b, id);
    RemoveKeepsGroups(b, id);
    GroupsStay(group, b, Remove(b, id));
  }

  /* ---- Exactly ---- */

  /** The order takes nothing on its route from an order of its id's group, whatever both are stored under. */
  ghost predicate TakesNone(group: Grouping, c: Core, n: Request) {
    !NeverMatches(c, n) ==>
      forall id {:trigger Given(c.mode, Route(c.book, TakerOf(n)), n.stpGroup, n.qty, id)} ::
        Given(c.mode, Route(c.book, TakerOf(n)), n.stpGroup, n.qty, id) > 0 ==> !SameGroup(group(n.id), Kept(group(id)))
  }

  ghost function TakingNone(group: Grouping): Check {
    (c: Core, n: Request) => TakesNone(group, c, n)
  }

  /** What a maker made only grows, and by a fill of it by no less than that. */
  lemma {:induction false} MadeGrows(log: seq<Event>, log': seq<Event>, id: nat, k: nat)
    requires log <= log' && |log| <= k < |log'| && log'[k].Fill? && log'[k].maker == id
    ensures Made(log', id) >= Made(log, id) + log'[k].qty
    decreases |log'|
  {
    var front := log'[..|log'| - 1];
    if k < |front| {
      MadeGrows(log, front, id, k);
    } else {
      MadeNoLess(log, front, id);
    }
  }

  lemma {:induction false} MadeNoLess(log: seq<Event>, log': seq<Event>, id: nat)
    requires log <= log'
    ensures Made(log', id) >= Made(log, id)
    decreases |log'|
  {
    if |log| < |log'| {
      MadeNoLess(log, log'[..|log'| - 1], id);
    } else {
      assert log == log';
    }
  }

  /** A maker that made something more has a fill that says so. */
  lemma {:induction false} MadeByFill(log: seq<Event>, log': seq<Event>, id: nat) returns (k: nat)
    requires log <= log' && Made(log', id) > Made(log, id)
    ensures |log| <= k < |log'| && log'[k].Fill? && log'[k].maker == id
    decreases |log'|
  {
    assert |log| == |log'| ==> log == log';
    var e := log'[|log'| - 1];
    if e.Fill? && e.maker == id {
      k := |log'| - 1;
    } else {
      k := MadeByFill(log, log'[..|log'| - 1], id);
    }
  }

  /** What an entering order adds to what a maker made is what the maker gives on the order's route. */
  lemma EnterGiven(c: Core, n: Request, id: nat)
    requires Shape(c.book)
    ensures Made(Enter(c, n).log, id)
         == Made(c.log, id) + if NeverMatches(c, n) then 0 else Given(c.mode, Route(c.book, TakerOf(n)), n.stpGroup, n.qty, id)
  {
    if NeverMatches(c, n) {
      TurnedAwayMakes(c, n, id);
    } else {
      var r := Match(Accepted(c, n), TakerOf(n), n.qty);
      MatchIsGreedy(Accepted(c, n), TakerOf(n), n.qty, r);
      MadeAppend(c.log, Accepted(c, n).log[|c.log|], id);
      assert Made(r.c.log, id) == Made(Accepted(c, n).log, id) + Given(c.mode, Route(c.book, TakerOf(n)), n.stpGroup, n.qty, id);
      SettleMakes(r.c, n, r.rem, r.cancel, id);
    }
  }

  lemma EmitMakes(c: Core, e: Event, id: nat)
    requires !e.Fill?
    ensures Made(Emit(c, e).log, id) == Made(c.log, id)
  {
    MadeAppend(c.log, Emit(c, e).log[|c.log|], id);
  }

  lemma RestedMakes(c: Core, n: Request, qty: nat, id: nat)
    ensures Made(Rested(c, n, qty).log, id) == Made(c.log, id)
  {
    MadeAppend(c.log, Rested(c, n, qty).log[|c.log|], id);
  }

  lemma SettleMakes(c: Core, n: Request, rem: nat, cancel: bool, id: nat)
    ensures Made(Settle(c, n, rem, cancel).log, id) == Made(c.log, id)
  {
    if !cancel && Rests(n) && rem > 0 {
      RestedMakes(c, n, rem, id);
    } else {
      EmitMakes(c, OrderCancelled(0, n.id, rem), id);
    }
  }

  lemma TurnedAwayMakes(c: Core, n: Request, id: nat)
    requires NeverMatches(c, n)
    ensures Made(Enter(c, n).log, id) == Made(c.log, id)
  {
    if n.orderType.PostOnly? {
      EmitMakes(c, OrderRejected(0, n.id, WouldCrossSpread), id);
      EmitMakes(c, OrderAccepted(0, n.id, n.side, n.price, n.qty, n.orderType), id);
      RestedMakes(Accepted(c, n), n, n.qty, id);
    } else {
      EmitMakes(c, OrderRejected(0, n.id, Rejection(c, n).value), id);
    }
  }

  /** The fills of an entering order are clean exactly when it takes nothing from its id's group. */
  lemma EnterTakesExactly(group: Grouping, c: Core, n: Request)
    requires Shape(c.book)
    ensures FillsAre(c.log, Enter(c, n).log, Cleanly(group)) <==> TakesNone(group, c, n)
  {
    EnterWrites(c, n);
    var log := Enter(c, n).log;
    if TakesNone(group, c, n) {
      forall k | |c.log| <= k < |log| && log[k].Fill? ensures Cleanly(group)(log[k]) {
        assert EntryEvent(c.book, n, log[k]);
        MadeGrows(c.log, log, log[k].maker, k);
        EnterGiven(c, n, log[k].maker);
      }
    }
    if FillsAre(c.log, log, Cleanly(group)) && !NeverMatches(c, n) {
      forall id | Given(c.mode, Route(c.book, TakerOf(n)), n.stpGroup, n.qty, id) > 0
        ensures !SameGroup(group(n.id), Kept(group(id)))
      {
        EnterGiven(c, n, id);
        var k := MadeByFill(c.log, log, id);
        assert EntryEvent(c.book, n, log[k]) && Cleanly(group)(log[k]);
      }
    }
  }

  ghost predicate Shaped(b: Book, mode: StpMode) {
    Shape(b)
  }

  lemma ShapedLoses()
    ensures forall b, mode, id {:trigger Loses(Shaped, b, mode, id)} :: Loses(Shaped, b, mode, id)
  {
    forall b, mode, id ensures Loses(Shaped, b, mode, id) {
      if Resting(b, id) && Shaped(b, mode) {
        RemoveKeepsShape(b, id);
      }
    }
  }

  lemma TakingCarries(group: Grouping)
    ensures Carried(OfBook(Shaped), EntersOnly(Cleanly(group)), TakingNone(group))
    ensures Carried(OfBook(Shaped), TakingNone(group), EntersOnly(Cleanly(group)))
  {
    var (p, q) := (EntersOnly(Cleanly(group)), TakingNone(group));
    forall c, n ensures CarriesOn(Shaped, p, q, c, n) && CarriesOn(Shaped, q, p, c, n) {
      if Bookable(n) && Shaped(c.book, c.mode) {
        EnterTakesExactly(group, c, n);
        EnterKeepsShape(c, n);
      }
    }
    ShapedLoses();
    BookCarried(Shaped, p, q);
    BookCarried(Shaped, q, p);
  }

  /** Every order that enters only adds to the log. */
  lemma RunsGrow(e: Engine, cmds: seq<Command>)
    requires Stands(OfBook(Shaped), e)
    ensures AllEnter(e, cmds, EntersOnly(Whatever))
  {
    var (p, q) := (OfRequest(NoStop), EntersOnly(Whatever));
    NoStopEnters(e, cmds);
    forall c, n ensures CarriesOn(Shaped, p, q, c, n) {
      if Bookable(n) && Shaped(c.book, c.mode) {
        EnterWrites(c, n);
        EnterKeepsShape(c, n);
      }
    }
    ShapedLoses();
    BookCarried(Shaped, p, q);
    RunCarried(OfBook(Shaped), p, q, e, cmds);
  }

  /** Every run of any commands, in every mode and for any grouping of the ids: no fill is between two ids of one group exactly when
      no order that enters takes anything on its route from an order of its group. */
  lemma SelfTradesExactly(base: nat, ticks: nat, capacity: nat, mode: StpMode, cmds: seq<Command>, group: Grouping)
    ensures var e := NewEngine(base, ticks, capacity, mode);
            FillsAre([], Run(e, cmds).core.log, Cleanly(group)) <==> AllEnter(e, cmds, TakingNone(group))
  {
    var e := NewEngine(base, ticks, capacity, mode);
    assert Shaped(e.core.book, mode);
    TakingCarries(group);
    RunsGrow(e, cmds);
    if FillsAre([], Run(e, cmds).core.log, Cleanly(group)) {
      RunWrote(e, cmds, Cleanly(group));
      RunCarried(OfBook(Shaped), EntersOnly(Cleanly(group)), TakingNone(group), e, cmds);
    }
    if AllEnter(e, cmds, TakingNone(group)) {
      RunCarried(OfBook(Shaped), TakingNone(group), EntersOnly(Cleanly(group)), e, cmds);
      RunWrites(e, cmds, Cleanly(group));
    }
  }

  /* ---- What a caller can check ---- */

  /** In every mode, over every run in which each id comes under one group and no resting order that came under a group is modified,
      stop cascades included: no fill is between two orders that came under one group. */
  lemma NoRunSelfTrades(base: nat, ticks: nat, capacity: nat, mode: StpMode, cmds: seq<Command>, group: Grouping, k: nat)
    requires AskedRun(NewEngine(base, ticks, capacity, mode), cmds, Grouped(group))
    requires var log := Run(NewEngine(base, ticks, capacity, mode), cmds).core.log; k < |log| && log[k].Fill?
    ensures var e := Run(NewEngine(base, ticks, capacity, mode), cmds).core.log[k];
            !(group(e.taker).Some? && group(e.taker).value != STP_NONE && group(e.taker) == group(e.maker))
  {
    var e := NewEngine(base, ticks, capacity, mode);
    AskedEnter(e, cmds, Grouped(group));
    GroupsCarry(group);
    assert StoredRight(group, e.core.book);
    RunCarried(OfBook(StoresRight(group)), OfRequest(Grouped(group)), EntersOnly(Cleanly(group)), e, cmds);
    RunWrites(e, cmds, Cleanly(group));
    assert Cleanly(group)(Run(e, cmds).core.log[k]);
  }
}
