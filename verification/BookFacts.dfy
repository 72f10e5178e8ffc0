/** Every book operation keeps the book well formed. */
module BookFacts {
  import opened Types
  import opened BookSpec

  lemma PositionAtMost(q: seq<Order>, id: nat, k: nat)
    requires k < |q| && q[k].id == id
    ensures PositionOf(q, id) <= k
  {
  }

  lemma {:induction false} TotalConcat(q: seq<Order>, r: seq<Order>)
    ensures Total(q + r) == Total(q) + Total(r)
  {
    if q == [] {
      assert q + r == r;
    } else {
      assert (q + r)[1..] == q[1..] + r;
      TotalConcat(q[1..], r);
    }
  }

  lemma TotalAround(q: seq<Order>, k: nat, o: Order)
    requires k < |q|
    ensures Total(q[k := o]) == Total(q[..k]) + o.Remaining() + Total(q[k + 1..])
  {
    assert q[k := o] == q[..k] + ([o] + q[k + 1..]);
    TotalConcat(q[..k], [o] + q[k + 1..]);
    assert ([o] + q[k + 1..])[1..] == q[k + 1..];
  }

  /** Taking an order out of a queue takes out what it held. */
  lemma TotalWithout(q: seq<Order>, k: nat)
    requires k < |q|
    ensures Total(Without(q, k)) + q[k].Remaining() == Total(q)
  {
    assert q[k := q[k]] == q;
    TotalAround(q, k, q[k]);
    TotalConcat(q[..k], q[k + 1..]);
  }

  /** Replacing an order in a queue changes the total by the difference of the two. */
  lemma TotalReplace(q: seq<Order>, k: nat, o: Order)
    requires k < |q|
    ensures Total(q[k := o]) + q[k].Remaining() == Total(q) + o.Remaining()
  {
    assert q[k := q[k]] == q;
    TotalAround(q, k, q[k]);
    TotalAround(q, k, o);
  }

  lemma HoldsByPosition(queues: Queues, pl: Place, id: nat, k: nat)
    requires pl in queues && k < |queues[pl]| && queues[pl][k].id == id
    ensures Holds(queues, pl, id)
  {
    PositionAtMost(queues[pl], id, k);
  }

  /** Where an id rests, its order is what the book says it is. */
  lemma RestingOrder(b: Book, id: nat)
    requires Shape(b) && id in b.ids
    ensures Resting(b, id)
    ensures var o := OrderOf(b, id);
            o.id == id && o.side == b.ids[id].side && o.price == b.ids[id].price
  {
    assert Holds(b.queues, b.ids[id], id);
    assert QueueOk(b.ids[id], b.queues[b.ids[id]], b.ids);
  }

  /* ---- Insert ---- */

  lemma QueueOkAppend(pl: Place, q: seq<Order>, ids: map<nat, Place>, o: Order)
    requires pl == Place(o.side, o.price) && pl.price < U64_LIMIT
    requires o.id !in ids && (q == [] || QueueOk(pl, q, ids))
    ensures QueueOk(pl, q + [o], ids[o.id := pl])
  {
  }

  lemma InsertKeepsQueues(queues: Queues, ids: map<nat, Place>, o: Order)
    requires QueuesOk(queues, ids) && IdsOk(queues, ids) && o.id !in ids && o.price < U64_LIMIT
    ensures var pl := Place(o.side, o.price);
            var queues', ids' := queues[pl := QueueAt(queues, pl) + [o]], ids[o.id := pl];
            QueuesOk(queues', ids') && IdsOk(queues', ids')
  {
    var pl := Place(o.side, o.price);
    var queues', ids' := queues[pl := QueueAt(queues, pl) + [o]], ids[o.id := pl];
    forall x | x in queues' ensures QueueOk(x, queues'[x], ids') {
      if x == pl {
        QueueOkAppend(pl, QueueAt(queues, pl), ids, o);
      } else {
        assert QueueOk(x, queues[x], ids);
      }
    }
    forall id | id in ids' ensures Holds(queues', ids'[id], id) {
      var x := ids'[id];
      assert id != o.id ==> Holds(queues, ids[id], id);
      HoldsByPosition(queues', x, id, if id == o.id then |queues'[x]| - 1 else PositionOf(queues[x], id));
    }
  }

  lemma PricesInsert(queues: Queues, pl: Place, q: seq<Order>)
    ensures Prices(queues[pl := q], pl.side) == Prices(queues, pl.side) + {pl.price}
    ensures Prices(queues[pl := q], pl.side.Opposite()) == Prices(queues, pl.side.Opposite())
  {
  }

  lemma InsertKeepsShape(b: Book, o: Order)
    requires Shape(b) && o.price < U64_LIMIT
    ensures Shape(Insert(b, o))
  {
    if !Refuses(b, o.id) {
      InsertKeepsQueues(b.queues, b.ids, o);
      PricesInsert(b.queues, Place(o.side, o.price), QueueAt(b.queues, Place(o.side, o.price)) + [o]);
    }
  }

  /* ---- Remove ---- */

  lemma WithoutAt(q: seq<Order>, k: nat, i: nat)
    requires k < |q| && i < |q| - 1
    ensures Without(q, k)[i] == q[if i < k then i else i + 1]
  {
  }

  lemma QueueOkDrop(pl: Place, q: seq<Order>, ids: map<nat, Place>, id: nat)
    requires QueueOk(pl, q, ids) && id in ids && ids[id] != pl
    ensures QueueOk(pl, q, ids - {id})
  {
  }

  lemma QueueOkTake(pl: Place, q: seq<Order>, ids: map<nat, Place>, k: nat)
    requires QueueOk(pl, q, ids) && k < |q| && |q| > 1
    ensures QueueOk(pl, Without(q, k), ids - {q[k].id})
  {
    var q' := Without(q, k);
    forall i | 0 <= i < |q'| ensures q'[i].side == pl.side && q'[i].price == pl.price && q'[i].id != q[k].id
                                     && q'[i].id in ids && ids[q'[i].id] == pl {
      WithoutAt(q, k, i);
    }
    forall i, j | 0 <= i < j < |q'| ensures q'[i].id != q'[j].id {
      WithoutAt(q, k, i);
      WithoutAt(q, k, j);
    }
  }

  lemma RemoveKeepsQueues(queues: Queues, ids: map<nat, Place>, id: nat)
    requires QueuesOk(queues, ids) && IdsOk(queues, ids) && id in ids
    ensures Holds(queues, ids[id], id)
    ensures var q := queues[ids[id]];
            var queues', ids' := Requeue(queues, ids[id], Without(q, PositionOf(q, id))), ids - {id};
            QueuesOk(queues', ids') && IdsOk(queues', ids')
  {
    var pl := ids[id];
    assert Holds(queues, ids[id], id);
    var q, k := queues[pl], PositionOf(queues[pl], id);
    var queues', ids' := Requeue(queues, pl, Without(q, k)), ids - {id};
    assert QueueOk(pl, q, ids);
    forall x | x in queues' ensures QueueOk(x, queues'[x], ids') {
      if x == pl {
        QueueOkTake(pl, q, ids, k);
      } else {
        assert QueueOk(x, queues[x], ids);
        QueueOkDrop(x, queues[x], ids, id);
      }
    }
    forall y | y in ids' ensures Holds(queues', ids'[y], y) {
      assert Holds(queues, ids[y], y);
      RemoveKeepsHolding(queues, pl, id, ids[y], y);
    }
  }

  /** Taking one order out of its queue leaves the others where they rest. */
  lemma RemoveKeepsHolding(queues: Queues, pl: Place, id: nat, x: Place, y: nat)
    requires Holds(queues, pl, id) && Holds(queues, x, y) && y != id
    ensures Holds(Requeue(queues, pl, Without(queues[pl], PositionOf(queues[pl], id))), x, y)
  {
    if x == pl {
      var q := queues[pl];
      var k, i := PositionOf(q, id), PositionOf(q, y);
      var j := if i < k then i else i - 1;
      WithoutAt(q, k, j);
      HoldsByPosition(Requeue(queues, pl, Without(q, k)), x, y, j);
    }
  }

  lemma PricesRequeue(queues: Queues, pl: Place, q: seq<Order>)
    ensures Prices(Requeue(queues, pl, q), pl.side.Opposite()) == Prices(queues, pl.side.Opposite())
  {
  }

  lemma RemovedBestIsLive(b: Book, id: nat)
    requires Shape(b) && Resting(b, id)
    ensures var side := b.ids[id].side;
            BestOk(Remove(b, id).Of(side).best, Prices(Remove(b, id).queues, side))
  {
    var pl := b.ids[id];
    var b' := Remove(b, id);
    assert pl.price in Prices(b.queues, pl.side);
    if pl in b'.queues || b.Of(pl.side).best != Some(pl.price) {
      assert b.Of(pl.side).best.value in Prices(b'.queues, pl.side);
    }
  }

  lemma RemoveKeepsShape(b: Book, id: nat)
    requires Shape(b) && id in b.ids
    ensures Resting(b, id) && Shape(Remove(b, id))
  {
    RemoveKeepsQueues(b.queues, b.ids, id);
    RemovedBestIsLive(b, id);
    PricesRequeue(b.queues, b.ids[id], Without(b.queues[b.ids[id]], PositionOf(b.queues[b.ids[id]], id)));
  }

  /* ---- Fills ---- */

  /** Filling an order in place changes only what it still has to give. */
  lemma FilledKeepsQueues(queues: Queues, ids: map<nat, Place>, pl: Place, k: nat, delta: nat)
    requires QueuesOk(queues, ids) && IdsOk(queues, ids) && pl in queues && k < |queues[pl]|
    ensures var queues' := queues[pl := Filled(queues[pl], k, delta)];
            QueuesOk(queues', ids) && IdsOk(queues', ids)
            && forall side :: Prices(queues', side) == Prices(queues, side)
  {
    var queues' := queues[pl := Filled(queues[pl], k, delta)];
    forall x | x in queues' ensures QueueOk(x, queues'[x], ids) {
      assert QueueOk(x, queues[x], ids);
    }
    forall id | id in ids ensures Holds(queues', ids[id], id) {
      assert Holds(queues, ids[id], id);
      HoldsByPosition(queues', ids[id], id, PositionOf(queues[ids[id]], id));
    }
  }

  lemma FillKeepsShape(b: Book, id: nat, delta: nat)
    requires Shape(b) && id in b.ids
    ensures Resting(b, id) && Shape(FillOrder(b, id, delta))
  {
    assert Holds(b.queues, b.ids[id], id);
    FilledKeepsQueues(b.queues, b.ids, b.ids[id], PositionOf(b.queues[b.ids[id]], id), delta);
  }

  lemma ReduceKeepsShape(b: Book, id: nat, delta: nat)
    requires Shape(b) && id in b.ids
    ensures Resting(b, id) && Shape(Reduce(b, id, delta))
  {
    assert Holds(b.queues, b.ids[id], id);
    FilledKeepsQueues(b.queues, b.ids, b.ids[id], PositionOf(b.queues[b.ids[id]], id), delta);
  }

  lemma RecenterKeepsShape(b: Book, base: nat)
    requires Shape(b)
    ensures Shape(Recenter(b, base))
  {
  }
}
