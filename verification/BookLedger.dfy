/** What each book operation does to the quantity that rests, by order and by level. */
module BookLedger {
  import opened Types
  import opened BookSpec
  import opened BookFacts

  /** An order is the one order of its id, wherever it stands. */
  lemma OrderByPosition(b: Book, id: nat, k: nat)
    requires Shape(b) && id in b.ids && b.ids[id] in b.queues
    requires k < |b.queues[b.ids[id]]| && b.queues[b.ids[id]][k].id == id
    ensures Resting(b, id) && PositionOf(b.queues[b.ids[id]], id) == k && OrderOf(b, id) == b.queues[b.ids[id]][k]
  {
    RestingOrder(b, id);
    assert QueueOk(b.ids[id], b.queues[b.ids[id]], b.ids);
  }

  /** The head of a level rests first in its queue. */
  lemma HeadRests(b: Book, pl: Place)
    requires Shape(b) && pl in b.queues
    ensures b.queues[pl] != []
    ensures var o := b.queues[pl][0];
            && Resting(b, o.id) && b.ids[o.id] == pl && PositionOf(b.queues[pl], o.id) == 0
            && OrderOf(b, o.id) == o && o.side == pl.side && o.price == pl.price
  {
    assert QueueOk(pl, b.queues[pl], b.ids);
    OrderByPosition(b, b.queues[pl][0].id, 0);
  }

  /** A resting order's quantity is part of its level's total. */
  lemma RestInTotal(b: Book, id: nat)
    requires Shape(b) && id in b.ids
    ensures Resting(b, id) && b.ids[id] in b.queues && Rest(b, id) <= Total(QueueAt(b.queues, b.ids[id]))
  {
    RestingOrder(b, id);
    TotalWithout(b.queues[b.ids[id]], PositionOf(b.queues[b.ids[id]], id));
  }

  /* ---- Insert ---- */

  lemma InsertRest(b: Book, o: Order, x: nat)
    requires Shape(b) && o.price < U64_LIMIT && !Refuses(b, o.id)
    ensures Rest(Insert(b, o), x) == if x == o.id then o.Remaining() else Rest(b, x)
  {
    var b' := Insert(b, o);
    InsertKeepsShape(b, o);
    if x == o.id {
      var q := b'.queues[Place(o.side, o.price)];
      OrderByPosition(b', x, |q| - 1);
    } else if x in b.ids {
      RestingOrder(b, x);
      var k := PositionOf(b.queues[b.ids[x]], x);
      assert b'.queues[b.ids[x]][k] == b.queues[b.ids[x]][k];
      OrderByPosition(b', x, k);
    }
  }

  lemma InsertSteady(b: Book, o: Order, lo: nat, hi: nat)
    requires Steady(b.queues, lo, hi) && (o.Remaining() > 0 || lo <= o.price < hi)
    ensures Steady(Insert(b, o).queues, lo, hi)
  {
    var b', pl := Insert(b, o), Place(o.side, o.price);
    forall x | x in b'.queues ensures QueueSteady(b'.queues[x], lo, hi) {
      assert x in b.queues ==> QueueSteady(b.queues[x], lo, hi);
    }
  }

  lemma InsertDrift(b: Book, o: Order, pl: Place, drift: nat)
    requires DriftAt(b, pl, drift)
    ensures DriftAt(Insert(b, o), pl, drift)
  {
    var q := QueueAt(b.queues, Place(o.side, o.price));
    TotalConcat(q, [o]);
    assert Total([o]) == o.Remaining();
  }

  /* ---- Remove ---- */

  /** A removal moves up the orders behind it in its queue. */
  /** Where another order of the same queue stands after a removal. */
  lemma NeighbourMoves(q: seq<Order>, k: nat, i: nat)
    requires k < |q| && i < |q| && i != k
    ensures var j := if i < k then i else i - 1; j < |Without(q, k)| && Without(q, k)[j] == q[i]
  {
  }

  lemma RemoveKeepsNeighbour(b: Book, id: nat, x: nat)
    requires Shape(b) && id in b.ids && x in b.ids && x != id && b.ids[x] == b.ids[id]
    ensures Resting(b, id) && Resting(b, x) && Resting(Remove(b, id), x) && OrderOf(Remove(b, id), x) == OrderOf(b, x)
  {
    RemoveKeepsShape(b, id);
    RestingOrder(b, x);
    var q := b.queues[b.ids[id]];
    var k, i := PositionOf(q, id), PositionOf(q, x);
    NeighbourMoves(q, k, i);
    assert Remove(b, id).queues[b.ids[id]] == Without(q, k);
    OrderByPosition(Remove(b, id), x, if i < k then i else i - 1);
  }

  /** A removal leaves every other order as it was. */
  lemma RemoveKeepsOrder(b: Book, id: nat, x: nat)
    requires Shape(b) && id in b.ids && x in b.ids && x != id
    ensures Resting(b, id) && Resting(b, x) && Resting(Remove(b, id), x) && OrderOf(Remove(b, id), x) == OrderOf(b, x)
  {
    RestingOrder(b, id);
    RestingOrder(b, x);
    if b.ids[x] == b.ids[id] {
      RemoveKeepsNeighbour(b, id, x);
    } else {
      assert QueueAt(Remove(b, id).queues, b.ids[x]) == b.queues[b.ids[x]];
    }
  }

  lemma RemoveRest(b: Book, id: nat, x: nat)
    requires Shape(b) && id in b.ids
    ensures Resting(b, id) && Rest(Remove(b, id), x) == if x == id then 0 else Rest(b, x)
  {
    RestingOrder(b, id);
    if x != id && x in b.ids {
      RemoveKeepsOrder(b, id, x);
    }
  }

  lemma RemoveSteady(b: Book, id: nat, lo: nat, hi: nat)
    requires Resting(b, id) && Steady(b.queues, lo, hi)
    ensures Steady(Remove(b, id).queues, lo, hi)
  {
    var b' := Remove(b, id);
    forall x | x in b'.queues ensures QueueSteady(b'.queues[x], lo, hi) {
      assert QueueSteady(b.queues[x], lo, hi);
    }
  }

  /** Removal takes what rests off the total and off the index alike, and never underflows. */
  lemma RemoveDrift(b: Book, id: nat, pl: Place, drift: nat)
    requires Shape(b) && id in b.ids && DriftAt(b, pl, drift)
    ensures Resting(b, id) && DriftAt(Remove(b, id), pl, drift)
    ensures pl == b.ids[id] ==> Rest(b, id) <= IndexAt(b, pl)
  {
    RestingOrder(b, id);
    if pl == b.ids[id] {
      TotalWithout(b.queues[pl], PositionOf(b.queues[pl], id));
    }
  }

  /* ---- Fill and reduce ---- */

  lemma FillRest(b: Book, id: nat, delta: nat, x: nat)
    requires Shape(b) && id in b.ids && delta <= Rest(b, id)
    ensures Resting(b, id) && Rest(FillOrder(b, id, delta), x) == if x == id then Rest(b, id) - delta else Rest(b, x)
  {
    FillKeepsShape(b, id, delta);
    if x in b.ids {
      RestingOrder(b, x);
      OrderByPosition(FillOrder(b, id, delta), x, PositionOf(b.queues[b.ids[x]], x));
    }
  }

  lemma ReduceRest(b: Book, id: nat, delta: nat, x: nat)
    requires Shape(b) && id in b.ids && delta <= Rest(b, id)
    ensures Resting(b, id) && Rest(Reduce(b, id, delta), x) == if x == id then Rest(b, id) - delta else Rest(b, x)
  {
    FillRest(b, id, delta, x);
    assert Reduce(b, id, delta).queues == FillOrder(b, id, delta).queues;
    assert Reduce(b, id, delta).ids == FillOrder(b, id, delta).ids;
  }

  lemma FillSteady(b: Book, id: nat, delta: nat, lo: nat, hi: nat)
    requires Resting(b, id) && Steady(b.queues, lo, hi) && delta < Rest(b, id)
    ensures Steady(FillOrder(b, id, delta).queues, lo, hi) && Steady(Reduce(b, id, delta).queues, lo, hi)
  {
    var b' := FillOrder(b, id, delta);
    forall x | x in b'.queues ensures QueueSteady(b'.queues[x], lo, hi) {
      assert QueueSteady(b.queues[x], lo, hi);
    }
    assert Reduce(b, id, delta).queues == b'.queues;
  }

  /** A fill leaves the index behind by what was filled. */
  lemma FillDrift(b: Book, id: nat, delta: nat, pl: Place, drift: nat)
    requires Resting(b, id) && delta <= Rest(b, id) && DriftAt(b, pl, drift)
    ensures DriftAt(FillOrder(b, id, delta), pl, if pl == b.ids[id] then drift + delta else drift)
  {
    if pl == b.ids[id] {
      var q, k := b.queues[pl], PositionOf(b.queues[pl], id);
      TotalReplace(q, k, q[k].(filled := q[k].filled + delta));
    }
  }

  /** A reduction takes its quantity off the total and off the index alike. */
  lemma ReduceDrift(b: Book, id: nat, delta: nat, pl: Place, drift: nat)
    requires Resting(b, id) && delta <= Rest(b, id) && DriftAt(b, pl, drift)
    ensures DriftAt(Reduce(b, id, delta), pl, drift)
  {
    if pl == b.ids[id] {
      var q, k := b.queues[pl], PositionOf(b.queues[pl], id);
      TotalReplace(q, k, q[k].(filled := q[k].filled + delta));
    }
  }
}
