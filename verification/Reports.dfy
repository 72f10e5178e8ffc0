/** What events say is what happened: fills and cancellations carry what is left
    of the orders and of the level, and a resting order's report does not. */
module Reports {
  import opened Types
  import opened BookSpec
  import opened BookFacts
  import opened BookLedger
  import opened EngineSpec
  import opened EngineRuns

  /** Removing an order takes just its own quantity off its level. */
  lemma RemovedLevel(b: Book, id: nat)
    requires Shape(b) && id in b.ids
    ensures Resting(b, id)
    ensures LevelQty(Remove(b, id), b.ids[id]) + Rest(b, id) == LevelQty(b, b.ids[id])
  {
    RestingOrder(b, id);
    TotalWithout(b.queues[b.ids[id]], PositionOf(b.queues[b.ids[id]], id));
  }

  /** The two events of a trade, and that nothing else is written. */
  lemma TradeEvents(c: Core, t: Taker, rem: nat, m: Order, qty: nat, left: nat, rest: nat)
    requires Resting(c.book, m.id) && qty <= rem && rest == rem - qty
    requires left == m.(filled := m.filled + qty).Remaining()
    ensures var n := |c.log|;
            TradeOf(c, t, rem, m, qty).log
              == c.log + [Fill(n + 1, m.id, t.id, m.price, qty, left, rest)]
                       + [BookUpdate(n + 2, m.side, m.price, LevelQty(FillOrder(c.book, m.id, qty), Place(m.side, m.price)))]
  {
  }

  lemma SweptLevel(c: Core, m: Order, qty: nat)
    requires Shape(c.book) && m.id in c.book.ids && Resting(c.book, m.id) && OrderOf(c.book, m.id) == m && qty <= m.Remaining()
    ensures var b := FillOrder(c.book, m.id, qty);
            var b' := if qty == m.Remaining() && Resting(b, m.id) then Remove(b, m.id) else b;
            Rest(b', m.id) == m.Remaining() - qty && LevelQty(b', c.book.ids[m.id]) == LevelQty(b, c.book.ids[m.id])
  {
    FillKeepsShape(c.book, m.id, qty);
    FillRest(c.book, m.id, qty, m.id);
    if qty == m.Remaining() {
      RemovedLevel(FillOrder(c.book, m.id, qty), m.id);
      RemoveRest(FillOrder(c.book, m.id, qty), m.id, m.id);
    }
  }

  /** A fill reports the maker's own price and what maker and taker have left after it, and the book update behind it
      reports what the level holds after it, the maker swept or not. */
  lemma TradeIsReported(c: Core, t: Taker, rem: nat, m: Order, qty: nat)
    requires Shape(c.book) && m.id in c.book.ids && Resting(c.book, m.id) && OrderOf(c.book, m.id) == m
    requires c.book.ids[m.id] == Place(m.side, m.price) && qty <= rem && qty <= m.Remaining()
    ensures var c', n := TradeOf(c, t, rem, m, qty), |c.log|;
            && c'.log == c.log + [Fill(n + 1, m.id, t.id, m.price, qty, Rest(c'.book, m.id), rem - qty)]
                               + [BookUpdate(n + 2, m.side, m.price, LevelQty(c'.book, Place(m.side, m.price)))]
            && Rest(c'.book, m.id) == Rest(c.book, m.id) - qty
            && c'.last == Some(m.price)
  {
    LeftAfter(m, qty);
    TradeEvents(c, t, rem, m, qty, m.Remaining() - qty, rem - qty);
    SweptLevel(c, m, qty);
  }

  /** A cancellation reports what the order had left, and what its level holds without it. */
  lemma CancelIsReported(c: Core, id: nat)
    requires Shape(c.book) && id in c.book.ids
    ensures Resting(c.book, id)
    ensures var c', pl, n := Cancel(c, id), c.book.ids[id], |c.log|;
            && c'.log == c.log + [OrderCancelled(n + 1, id, Rest(c.book, id))]
                               + [BookUpdate(n + 2, pl.side, pl.price, LevelQty(c'.book, pl))]
            && LevelQty(c'.book, pl) == LevelQty(c.book, pl) - Rest(c.book, id)
            && Rest(c'.book, id) == 0 && id !in c'.book.ids
  {
    RestingOrder(c.book, id);
    RemovedLevel(c.book, id);
    RemoveRest(c.book, id, id);
  }

  /** A maker that prevention takes off the book is reported as if it had been cancelled by its owner; one that it decrements, by
      the update of its level alone. */
  lemma PreventionIsReported(c: Core, t: Taker, rem: nat, m: Order)
    requires Shape(c.book) && m.id in c.book.ids && Resting(c.book, m.id) && OrderOf(c.book, m.id) == m
    ensures CancelMaker(c, m) == Cancel(c, m.id)
    ensures var c', pl := Decrement(c, t, rem, m), c.book.ids[m.id];
            && c'.log == c.log + [BookUpdate(|c.log| + 1, pl.side, pl.price, LevelQty(c'.book, pl))]
            && Rest(c'.book, m.id) == m.Remaining() - Min(rem, m.Remaining())
  {
    RestingOrder(c.book, m.id);
    RemoveRest(c.book, m.id, m.id);
    ReduceRest(c.book, m.id, Min(rem, m.Remaining()), m.id);
  }

  /** The report of an order that comes to rest carries the order's quantity, which is what its level then holds
      exactly when the level held nothing before, or, if the insertion was refused, when it happens to hold just that. */
  lemma RestingReportIsPartial(c: Core, n: Request, qty: nat)
    ensures var c', pl := Rested(c, n, qty), Place(n.side, n.price);
            && c'.log == c.log + [BookUpdate(|c.log| + 1, n.side, n.price, qty)]
            && (LevelQty(c'.book, pl) == qty <==> LevelQty(c.book, pl) == if Refuses(c.book, n.id) then qty else 0)
  {
    var o := Booked(n.id, n.side, n.price, qty, n.orderType, n.visible, n.stpGroup);
    TotalConcat(QueueAt(c.book.queues, Place(n.side, n.price)), [o]);
    assert Total([o]) == o.Remaining() == qty;
  }
}
