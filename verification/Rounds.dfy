/** What the match loop writes: how many events for how many makers, and never a
    fill between a taker and a maker of its own group. */
module Rounds {
  import opened Types
  import opened BookSpec
  import opened BookFacts
  import opened BookLedger
  import opened EngineSpec
  import opened EngineRuns

  /** The self-trade group that a resting order is stored under. */
  function GroupOf(b: Book, id: nat): nat {
    if Resting(b, id) then OrderOf(b, id).stp else STP_NONE
  }

  /** Only orders of `b` rest in `b'`, each under its group. */
  ghost predicate KeepsGroups(b: Book, b': Book) {
    forall x {:trigger GroupOf(b', x)} :: x in b'.ids ==> x in b.ids && GroupOf(b', x) == GroupOf(b, x)
  }

  lemma RemoveKeepsGroups(b: Book, id: nat)
    requires Shape(b) && id in b.ids
    ensures Resting(b, id) && KeepsGroups(b, Remove(b, id))
  {
    RestingOrder(b, id);
    forall x | x in Remove(b, id).ids ensures GroupOf(Remove(b, id), x) == GroupOf(b, x) {
      RemoveKeepsOrder(b, id, x);
    }
  }

  lemma FillKeepsGroups(b: Book, id: nat, delta: nat)
    requires Shape(b) && id in b.ids
    ensures Resting(b, id) && KeepsGroups(b, FillOrder(b, id, delta)) && KeepsGroups(b, Reduce(b, id, delta))
  {
    FillKeepsShape(b, id, delta);
    ReduceKeepsShape(b, id, delta);
    var b', r := FillOrder(b, id, delta), Reduce(b, id, delta);
    forall x | x in b.ids ensures GroupOf(b', x) == GroupOf(b, x) && GroupOf(r, x) == GroupOf(b, x) {
      RestingOrder(b, x);
      var i := PositionOf(b.queues[b.ids[x]], x);
      OrderByPosition(b', x, i);
      OrderByPosition(r, x, i);
    }
  }

  /* ---- One round ---- */

  /** An event of the match loop: any fill is the taker's, of some quantity, with a maker of another group. */
  ghost predicate MatchEvent(b: Book, t: Taker, e: Event) {
    || e.BookUpdate? || e.OrderCancelled?
    || (e.Fill? && e.qty > 0 && e.taker == t.id && e.maker in b.ids && !SameGroup(t.stp, GroupOf(b, e.maker)))
  }

  /** The log grew by at least `lo` and at most `hi` events of the match loop. */
  ghost predicate Writes(c: Core, c': Core, t: Taker, lo: int, hi: int) {
    && c.log <= c'.log && lo <= |c'.log| - |c.log| <= hi
    && (forall k :: |c.log| <= k < |c'.log| ==> MatchEvent(c.book, t, c'.log[k]))
    && KeepsGroups(c.book, c'.book)
  }

  lemma TradeKeepsGroups(c: Core, t: Taker, rem: nat, m: Order, qty: nat)
    requires Shape(c.book) && m.id in c.book.ids && Resting(c.book, m.id) && qty <= rem
    ensures KeepsGroups(c.book, TradeOf(c, t, rem, m, qty).book)
  {
    FillKeepsShape(c.book, m.id, qty);
    FillKeepsGroups(c.book, m.id, qty);
    var b := FillOrder(c.book, m.id, qty);
    RemoveKeepsGroups(b, m.id);
    var b' := TradeOf(c, t, rem, m, qty).book;
    assert b' == b || b' == Remove(b, m.id);
    forall x | x in b'.ids ensures x in c.book.ids && GroupOf(b', x) == GroupOf(c.book, x) {
      assert GroupOf(b, x) == GroupOf(c.book, x);
    }
  }

  lemma TradeWrites(c: Core, t: Taker, rem: nat, m: Order, qty: nat)
    requires Shape(c.book) && m.id in c.book.ids && Resting(c.book, m.id) && OrderOf(c.book, m.id) == m
    requires !SameGroup(t.stp, m.stp) && 0 < qty <= rem
    ensures Writes(c, TradeOf(c, t, rem, m, qty), t, 2, 2)
  {
    TradeKeepsGroups(c, t, rem, m, qty);
    assert GroupOf(c.book, m.id) == m.stp;
  }

  lemma PreventionWrites(c: Core, t: Taker, rem: nat, m: Order)
    requires Shape(c.book) && m.id in c.book.ids && Resting(c.book, m.id)
    ensures Writes(c, CancelMaker(c, m), t, 2, 2)
    ensures Writes(c, Decrement(c, t, rem, m), t, 1, 1)
    ensures Writes(c, c.(book := Remove(c.book, m.id)), t, 0, 0)
  {
    RemoveKeepsGroups(c.book, m.id);
    FillKeepsGroups(c.book, m.id, Min(rem, m.Remaining()));
  }

  /** A maker with nothing left is dropped silently; any other maker is dealt with. */
  function Deals(b: Book, t: Taker): nat {
    var first := FirstMaker(b, t.side.Opposite());
    if first.Some? && first.value.Remaining() == 0 then 0 else 1
  }

  /** A round that goes on writes two events for the maker it deals with; one that cancels the taker, one or two. */
  lemma RoundWrites(c: Core, t: Taker, rem: nat)
    requires Shape(c.book) && rem > 0
    ensures var r := MatchRound(c, t, rem);
            && Writes(c, r.c, t, 0, if r.Again? then 2 * Deals(c.book, t) else if r.cancel then 2 else 0)
            && (r.Again? ==> |r.c.log| == |c.log| + 2 * Deals(c.book, t))
            && (r.Done? && r.cancel ==> |r.c.log| > |c.log| && Deals(c.book, t) == 1)
  {
    var opp := t.side.Opposite();
    FirstMakerFacts(c.book, opp);
    var first := FirstMaker(c.book, opp);
    if first.Some? {
      var m := first.value;
      PreventionWrites(c, t, rem, m);
      if m.Remaining() > 0 && !SameGroup(t.stp, m.stp) {
        TradeWrites(c, t, rem, m, Min(rem, MatchableQty(m)));
      }
    }
  }

  lemma RoundKeepsShape(c: Core, t: Taker, rem: nat)
    requires Shape(c.book)
    ensures Shape(MatchRound(c, t, rem).c.book) && MatchRound(c, t, rem).c.mode == c.mode
  {
    var opp := t.side.Opposite();
    FirstMakerFacts(c.book, opp);
    RoundCases(c, t, rem);
    var first := FirstMaker(c.book, opp);
    if first.Some? {
      var m := first.value;
      var qty := Min(rem, MatchableQty(m));
      RemoveKeepsShape(c.book, m.id);
      ReduceKeepsShape(c.book, m.id, Min(rem, m.Remaining()));
      FillKeepsShape(c.book, m.id, qty);
      RemoveKeepsShape(FillOrder(c.book, m.id, qty), m.id);
    }
  }

  lemma {:induction false} MatchKeepsShape(c: Core, t: Taker, rem: nat, r: Round)
    requires Shape(c.book) && r == Match(c, t, rem)
    ensures Shape(r.c.book) && r.c.mode == c.mode
    decreases rem + |c.book.ids|
  {
    if rem > 0 {
      var first := MatchRound(c, t, rem);
      RoundKeepsShape(c, t, rem);
      if first.Again? {
        RoundProgresses(c, t, rem);
        MatchKeepsShape(first.c, t, first.rem, r);
      }
    }
  }

  /* ---- The whole match ---- */

  /** How many makers the match loop deals with. */
  ghost function Rounds(c: Core, t: Taker, rem: nat): nat
    decreases rem + |c.book.ids|
  {
    if rem == 0 then 0
    else
      var r := MatchRound(c, t, rem);
      if r.Done? then (if r.cancel then 1 else 0)
      else
        RoundProgresses(c, t, rem);
        Deals(c.book, t) + Rounds(r.c, t, r.rem)
  }

  /** The orders that rest on a side. */
  function IdsOf(ids: map<nat, Place>, side: Side): set<nat> {
    set id | id in ids && ids[id].side == side
  }

  function Opposing(ids: map<nat, Place>, side: Side): nat {
    |IdsOf(ids, side)|
  }

  lemma OneFewer(ids: map<nat, Place>, id: nat)
    requires id in ids
    ensures Opposing(ids, ids[id].side) == 1 + Opposing(ids - {id}, ids[id].side)
  {
    assert IdsOf(ids, ids[id].side) == IdsOf(ids - {id}, ids[id].side) + {id};
  }

  /** A round leaves the ids alone or takes the maker's out, and one that deals with a maker does that or takes from the taker. */
  lemma RoundTakes(c: Core, t: Taker, rem: nat)
    requires Shape(c.book) && rem > 0
    ensures var r, opp := MatchRound(c, t, rem), t.side.Opposite();
            var first := FirstMaker(c.book, opp);
            && r.rem <= rem
            && (r.c.book.ids == c.book.ids
                || (first.Some? && first.value.id in c.book.ids && c.book.ids[first.value.id].side == opp
                    && r.c.book.ids == c.book.ids - {first.value.id}))
            && (r.Again? || r.cancel ==> r.c.book.ids != c.book.ids || r.rem < rem)
  {
    FirstMakerFacts(c.book, t.side.Opposite());
  }

  /** Every round that deals with a maker takes an opposing order off the book or quantity off the taker. */
  lemma RoundConsumes(c: Core, t: Taker, rem: nat)
    requires Shape(c.book) && rem > 0
    ensures var r, opp := MatchRound(c, t, rem), t.side.Opposite();
            var dealt := if r.Again? || r.cancel then 1 else 0;
            && r.rem + Opposing(r.c.book.ids, opp) + dealt <= rem + Opposing(c.book.ids, opp)
            && r.rem + |r.c.book.ids| + dealt <= rem + |c.book.ids|
  {
    var r, opp := MatchRound(c, t, rem), t.side.Opposite();
    RoundTakes(c, t, rem);
    if r.c.book.ids != c.book.ids {
      OneFewer(c.book.ids, FirstMaker(c.book, opp).value.id);
      SmallerWithout(c.book.ids, FirstMaker(c.book, opp).value.id);
    }
  }

  /** The makers dealt with are no more than what the taker brings and the orders on the opposing side. */
  lemma {:induction false} RoundsBound(c: Core, t: Taker, rem: nat)
    requires Shape(c.book)
    ensures var r, opp := Match(c, t, rem), t.side.Opposite();
            && Rounds(c, t, rem) + r.rem + Opposing(r.c.book.ids, opp) <= rem + Opposing(c.book.ids, opp)
            && Rounds(c, t, rem) + r.rem + |r.c.book.ids| <= rem + |c.book.ids|
    decreases rem + |c.book.ids|
  {
    if rem > 0 {
      var r := MatchRound(c, t, rem);
      RoundConsumes(c, t, rem);
      if r.Again? {
        RoundProgresses(c, t, rem);
        RoundKeepsShape(c, t, rem);
        RoundsBound(r.c, t, r.rem);
      }
    }
  }

  /** At most two events for each maker, and only events of the match loop. */
  lemma {:induction false} MatchWrites(c: Core, t: Taker, rem: nat)
    requires Shape(c.book)
    ensures var r := Match(c, t, rem); Writes(c, r.c, t, 0, 2 * Rounds(c, t, rem))
    decreases rem + |c.book.ids|
  {
    if rem > 0 {
      var r := MatchRound(c, t, rem);
      RoundWrites(c, t, rem);
      if r.Again? {
        RoundProgresses(c, t, rem);
        RoundKeepsShape(c, t, rem);
        MatchWrites(r.c, t, r.rem);
        WritesOn(c, r.c, Match(c, t, rem).c, t, 2 * Deals(c.book, t), 2 * Rounds(r.c, t, r.rem));
      }
    } else {
      Silent(c, t);
    }
  }

  lemma Silent(c: Core, t: Taker)
    ensures Writes(c, c, t, 0, 0)
  {
  }

  lemma WritesOn(c: Core, c1: Core, c2: Core, t: Taker, n: int, m: int)
    requires Writes(c, c1, t, 0, n) && Writes(c1, c2, t, 0, m)
    ensures Writes(c, c2, t, 0, n + m)
  {
    forall k | |c.log| <= k < |c2.log| ensures MatchEvent(c.book, t, c2.log[k]) {
      if k < |c1.log| {
        assert c2.log[k] == c1.log[k];
      } else {
        assert MatchEvent(c1.book, t, c2.log[k]);
        var e := c2.log[k];
        if e.Fill? {
          assert GroupOf(c1.book, e.maker) == GroupOf(c.book, e.maker);
        }
      }
    }
    forall x | x in c2.book.ids ensures x in c.book.ids && GroupOf(c2.book, x) == GroupOf(c.book, x) {
      assert GroupOf(c2.book, x) == GroupOf(c1.book, x);
    }
  }

  /** The events count the makers: two each, but perhaps one for a last one that was decremented. */
  lemma {:induction false} MatchCounts(c: Core, t: Taker, rem: nat)
    requires Shape(c.book)
    ensures var r := Match(c, t, rem);
            var told := |r.c.log| - |c.log|;
            && (!r.cancel ==> told == 2 * Rounds(c, t, rem))
            && (r.cancel ==> 2 * Rounds(c, t, rem) - 1 <= told <= 2 * Rounds(c, t, rem) && Rounds(c, t, rem) > 0)
    decreases rem + |c.book.ids|
  {
    if rem > 0 {
      var r := MatchRound(c, t, rem);
      RoundWrites(c, t, rem);
      if r.Again? {
        RoundProgresses(c, t, rem);
        RoundKeepsShape(c, t, rem);
        MatchCounts(r.c, t, r.rem);
      }
    }
  }
}
