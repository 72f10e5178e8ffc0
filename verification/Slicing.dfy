/** How many makers the match loop deals with, read off the route. */
module Slicing {
  import opened Types
  import opened BookSpec
  import opened EngineSpec
  import opened Routes
  import opened Greedy
  import opened Rounds

  /** How many orders and slices of orders are dealt with from the front: an iceberg counts once for every slice of it. */
  function Slices(mode: StpMode, makers: seq<Order>, stp: Option<nat>, qty: nat): nat
    decreases qty, |makers|
  {
    if qty == 0 || makers == [] then 0
    else
      var m := makers[0];
      if m.Remaining() == 0 then Slices(mode, makers[1..], stp, qty)
      else if SameGroup(stp, m.stp) then
        match mode
        case CancelNewest => 0
        case CancelOldest => 1 + Slices(mode, makers[1..], stp, qty)
        case _ => 1
      else
        var x := Min(qty, MatchableQty(m));
        1 + Slices(mode, Taken(makers, x), stp, qty - x)
  }

  lemma TurnSlices(mode: StpMode, makers: seq<Order>, stp: Option<nat>, qty: nat)
    requires qty > 0
    ensures var u := TurnOf(mode, makers, stp, qty);
            Slices(mode, makers, stp, qty)
              == if u.again then (if makers[0].Remaining() == 0 then 0 else 1) + Slices(mode, u.makers, stp, u.qty)
                 else if u.cancel then 1 else 0
  {
  }

  /** The match loop deals with the slices of the orders on the route, one after the other. */
  lemma {:induction false} RoundsAreSlices(c: Core, t: Taker, rem: nat)
    requires Shape(c.book)
    ensures Rounds.Rounds(c, t, rem) == Slices(c.mode, Route(c.book, t), t.stp, rem)
    decreases rem + |c.book.ids|
  {
    if rem > 0 {
      var r, makers := MatchRound(c, t, rem), Route(c.book, t);
      RoundIsTurn(c, t, rem);
      TurnSlices(c.mode, makers, t.stp, rem);
      FirstOnRoute(c.book, t);
      if r.Again? {
        RoundProgresses(c, t, rem);
        RoundKeepsShape(c, t, rem);
        RoundsAreSlices(r.c, t, r.rem);
      }
    }
  }

  /** No order is an iceberg with a slice to show. */
  predicate NoIcebergs(makers: seq<Order>) {
    forall k :: 0 <= k < |makers| ==> !(makers[k].orderType.Iceberg? && makers[k].visible > 0)
  }

  /** Without icebergs every order is dealt with at most once. */
  lemma {:induction false} OneSliceEach(mode: StpMode, makers: seq<Order>, stp: Option<nat>, qty: nat)
    requires NoIcebergs(makers)
    ensures Slices(mode, makers, stp, qty) <= |makers|
    decreases qty, |makers|
  {
    if qty > 0 && makers != [] {
      var m := makers[0];
      var x := Min(qty, MatchableQty(m));
      OneSliceEach(mode, makers[1..], stp, qty);
      if m.Remaining() > 0 && !SameGroup(stp, m.stp) && x == m.Remaining() {
        OneSliceEach(mode, makers[1..], stp, qty - x);
      }
    }
  }

  /* ---- Slices in closed form ---- */

  /** The slices in which an order gives `x`: an iceberg stops at every multiple of what it shows. */
  function SlicesOf(m: Order, x: nat): nat {
    if x == 0 then 0
    else if m.orderType.Iceberg? && m.visible > 0 then (m.filled % m.visible + x + m.visible - 1) / m.visible
    else 1
  }

  lemma NextSlice(f: nat, v: nat)
    requires v > 0
    ensures (f + (v - f % v)) % v == 0
  {
    var k := f / v;
    assert f == k * v + f % v;
    assert (k + 1) * v == k * v + v;
    Quotient(f + (v - f % v), v, k + 1, 0);
  }

  lemma OneMoreSlice(r: nat, x: nat, v: nat)
    requires r < v && x > v - r
    ensures (r + x + v - 1) / v == 1 + (x - (v - r) + v - 1) / v
  {
    var y := x - (v - r) + v - 1;
    var k := y / v;
    assert y == k * v + y % v;
    assert (k + 1) * v == k * v + v;
    Quotient(y + v, v, k + 1, y % v);
    assert r + x + v - 1 == y + v;
  }

  lemma WithinSlice(r: nat, x: nat, v: nat)
    requires r < v && 0 < x <= v - r
    ensures (r + x + v - 1) / v == 1
  {
    Quotient(r + x + v - 1, v, 1, r + x - 1);
  }

  /** A fill of an iceberg stays inside its current slice until it takes all of it, and taking all of it either ends the
      order or ends exactly at the next slice. */
  lemma SliceEnds(o: Order, x: nat)
    requires o.orderType.Iceberg? && o.visible > 0 && x <= MatchableQty(o)
    ensures x < MatchableQty(o) ==> (o.filled + x) / o.visible == o.filled / o.visible
    ensures x == MatchableQty(o) < o.Remaining() ==>
              (o.filled + x) % o.visible == 0 && (o.filled + x) / o.visible == o.filled / o.visible + 1
  {
    var f, v := o.filled, o.visible;
    var k := f / v;
    assert f == k * v + f % v;
    if x < v - f % v {
      Quotient(f + x, v, k, f % v + x);
    } else {
      assert (k + 1) * v == k * v + v;
      Quotient(f + x, v, k + 1, 0);
    }
  }

  /** What the first slice of an order leaves to count. */
  lemma FirstSlice(m: Order, qty: nat)
    requires qty > 0 && m.Remaining() > 0
    ensures var x, all := Min(qty, MatchableQty(m)), Min(qty, m.Remaining());
            0 < x <= all && SlicesOf(m, all) == 1 + SlicesOf(m.(filled := m.filled + x), all - x)
  {
    var x, all := Min(qty, MatchableQty(m)), Min(qty, m.Remaining());
    if m.orderType.Iceberg? && m.visible > 0 {
      var v, r := m.visible, m.filled % m.visible;
      if all <= v - r {
        WithinSlice(r, all, v);
      } else {
        NextSlice(m.filled, v);
        OneMoreSlice(r, all, v);
      }
    }
  }

  /** Counting on after a first slice that leaves the order on the book. */
  lemma CountOn(mode: StpMode, makers: seq<Order>, stp: Option<nat>, qty: nat, m': Order, count: nat)
    requires makers != [] && !SameGroup(stp, makers[0].stp) && qty > 0
    requires var m := makers[0]; var x := Min(qty, MatchableQty(m));
             && x < m.Remaining() && m' == m.(filled := m.filled + x)
             && SlicesCounted(mode, [m'] + makers[1..], stp, qty - x, count)
    ensures SlicesCounted(mode, makers, stp, qty, 1 + count)
  {
    Front(m', makers[1..]);
  }

  /** The count for an order, given the count for what its first slice leaves. */
  ghost predicate SlicesCounted(mode: StpMode, makers: seq<Order>, stp: Option<nat>, qty: nat, count: nat)
    requires makers != []
  {
    var all := Min(qty, makers[0].Remaining());
    Slices(mode, makers, stp, qty) == count + if all < makers[0].Remaining() then 0 else Slices(mode, makers[1..], stp, qty - all)
  }

  /** An order with nothing to give counts nothing, one that is taken at once counts once. */
  lemma CountPast(mode: StpMode, makers: seq<Order>, stp: Option<nat>, qty: nat)
    requires makers != [] && !SameGroup(stp, makers[0].stp)
    ensures Min(qty, makers[0].Remaining()) == 0 ==> SlicesCounted(mode, makers, stp, qty, 0)
    ensures qty > 0 && makers[0].Remaining() > 0 && Min(qty, MatchableQty(makers[0])) == makers[0].Remaining()
        ==> SlicesCounted(mode, makers, stp, qty, 1)
  {
  }

  /** An order of another group in front is dealt with in its own number of slices, and what it does not cover goes on
      to the next. */
  lemma {:induction false} SlicesAreCounted(mode: StpMode, makers: seq<Order>, stp: Option<nat>, qty: nat)
    requires makers != [] && !SameGroup(stp, makers[0].stp)
    ensures SlicesCounted(mode, makers, stp, qty, SlicesOf(makers[0], Min(qty, makers[0].Remaining())))
    decreases qty
  {
    var m := makers[0];
    var all := Min(qty, m.Remaining());
    CountPast(mode, makers, stp, qty);
    if all > 0 {
      var x := Min(qty, MatchableQty(m));
      var m' := m.(filled := m.filled + x);
      FirstSlice(m, qty);
      if x < m.Remaining() {
        Front(m', makers[1..]);
        SlicesAreCounted(mode, [m'] + makers[1..], stp, qty - x);
        CountOn(mode, makers, stp, qty, m', SlicesOf(m', all - x));
      } else {
        assert SlicesOf(m, all) == 1;
      }
    }
  }

  lemma Front(m: Order, makers: seq<Order>)
    ensures ([m] + makers)[0] == m && ([m] + makers)[1..] == makers
  {
  }
}
