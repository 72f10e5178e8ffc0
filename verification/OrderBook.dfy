/** The hybrid order book over an arena, refining the abstract book. */
module OrderBooks {
  import opened Types
  import opened Depth
  import opened BookSpec
  import opened Arenas
  import opened Chains
  import opened Storage
  import opened SideBooks
  import opened BookFacts

  /** The level records of a side are the records of its chains. */
  ghost predicate RecsOk(side: Side, recs: map<nat, PriceLevel>, chains: Slots, queues: Queues) {
    && (forall p :: p in recs <==> Place(side, p) in queues)
    && forall p :: p in recs ==> Place(side, p) in chains && recs[p] == RecordOf(chains[Place(side, p)], queues[Place(side, p)])
  }

  /** Replacing one chain and its queue replaces one record of one side. */
  lemma RecsReplace(side: Side, recs: map<nat, PriceLevel>, chains: Slots, queues: Queues, pl: Place, q: seq<nat>, os: seq<Order>)
    requires RecsOk(side, recs, chains, queues) && |q| == |os|
    ensures RecsOk(side, if pl.side == side then Rerecord(recs, pl.price, RecordOf(q, os)) else recs,
                   Rechain(chains, pl, q), Requeue(queues, pl, os))
  {
  }

  lemma RecordAfterInsert(q: seq<nat>, os: seq<Order>, idx: nat, o: Order)
    requires |q| == |os|
    ensures var was := if q == [] then EMPTY_LEVEL else RecordOf(q, os);
            RecordOf(q + [idx], os + [o]) == PriceLevel(
              was.total + o.Remaining(), was.count + 1, if was.tail.None? then Some(idx) else was.head, Some(idx))
  {
    TotalConcat(os, [o]);
    assert Total([o]) == o.Remaining();
  }

  /** A level record without an order of `qty` that stood between `prev` and `next`. */
  function Shrunk(level: PriceLevel, qty: nat, prev: nat, next: nat): PriceLevel
    requires qty <= level.total && level.count > 0
  {
    PriceLevel(level.total - qty, level.count - 1,
               if prev != ARENA_NULL then level.head else if next != ARENA_NULL then Some(next) else None,
               if next != ARENA_NULL then level.tail else if prev != ARENA_NULL then Some(prev) else None)
  }

  lemma RecordAfterRemove(nodes: seq<Node>, q: seq<nat>, os: seq<Order>, k: nat)
    requires Linked(nodes, q) && |q| == |os| && k < |q| && |nodes| <= ARENA_NULL
    ensures RecordOf(q, os).total >= os[k].Remaining() && RecordOf(q, os).count > 0
    ensures RecordOf(Without(q, k), Without(os, k))
         == Shrunk(RecordOf(q, os), os[k].Remaining(), nodes[q[k]].prev, nodes[q[k]].next)
  {
    LinksInRange(nodes, q, k);
    TotalWithout(os, k);
    var q' := Without(q, k);
    if q' != [] {
      assert q'[0] == if k == 0 then q[1] else q[0];
      assert q'[|q'| - 1] == if k == |q| - 1 then q[|q| - 2] else q[|q| - 1];
    }
  }

  lemma RecordAfterFill(q: seq<nat>, os: seq<Order>, k: nat, delta: nat)
    requires |q| == |os| && k < |q| && delta <= os[k].Remaining()
    ensures RecordOf(q, os).total >= delta
    ensures RecordOf(q, Filled(os, k, delta)) == RecordOf(q, os).(total := RecordOf(q, os).total - delta)
  {
    TotalReplace(os, k, os[k].(filled := os[k].filled + delta));
    TotalWithout(os, k);
  }

  function LastOf(q: seq<nat>): Option<nat> {
    if q == [] then None else Some(q[|q| - 1])
  }

  predicate EndsBelow(q: seq<nat>, n: nat) {
    q != [] ==> q[|q| - 1] < n
  }

  /** The two sides share no part. */
  ghost predicate Apart(s: SideBook, t: SideBook) {
    && s != t && s.sparseIndex != t.sparseIndex
    && s.depth != t.depth && s.depth != t.sparseIndex.fenwick
    && s.sparseIndex.fenwick != t.depth && s.sparseIndex.fenwick != t.sparseIndex.fenwick
  }

  /** The side holds the records, index and best of the view. */
  ghost predicate SideHolds(s: SideBook, side: Side, base: nat, ticks: nat, view: Book, chains: Slots)
    reads s, s.depth, s.sparseIndex, s.sparseIndex.fenwick
  {
    && s.side == side
    && s.Valid(base, ticks)
    && view.Of(side) == Cache(s.best, s.index)
    && RecsOk(side, s.recs, chains, view.queues)
  }

  /** A side that rewrote one record holds the view whose one queue was rewritten. */
  lemma SideRewritten(s: SideBook, recs: map<nat, PriceLevel>, base: nat, ticks: nat,
                      was: Book, wasChains: Slots, view: Book, pl: Place, q: seq<nat>, os: seq<Order>)
    requires s.Valid(base, ticks) && s.side == pl.side && |q| == |os|
    requires RecsOk(pl.side, recs, wasChains, was.queues) && s.recs == Rerecord(recs, pl.price, RecordOf(q, os))
    requires view.queues == Requeue(was.queues, pl, os) && view.Of(pl.side) == Cache(s.best, s.index)
    ensures SideHolds(s, pl.side, base, ticks, view, Rechain(wasChains, pl, q))
  {
    RecsReplace(pl.side, recs, wasChains, was.queues, pl, q, os);
  }

  /** The other side, left alone, holds it too. */
  lemma SideKept(s: SideBook, side: Side, base: nat, ticks: nat,
                 was: Book, wasChains: Slots, view: Book, pl: Place, q: seq<nat>, os: seq<Order>)
    requires SideHolds(s, side, base, ticks, was, wasChains)
    requires side != pl.side && |q| == |os|
    requires view.queues == Requeue(was.queues, pl, os) && view.Of(side) == was.Of(side)
    ensures SideHolds(s, side, base, ticks, view, Rechain(wasChains, pl, q))
  {
    RecsReplace(side, s.recs, wasChains, was.queues, pl, q, os);
  }

  /** The drift thresholds that are computed fit in 64 bits: the bid's if there is a bid, the ask's if that does not decide. */
  predicate ThresholdsFit(b: Book) {
    var threshold := b.ticks * 7 / 10;
    && (b.bids.best.Some? ==> b.base + threshold < U64_LIMIT)
    && (b.asks.best.Some? && !(b.bids.best.Some? && b.bids.best.value >= b.base + threshold) ==>
          b.base + (b.ticks - threshold) < U64_LIMIT)
  }

  /** `next` is `was` with the order at the end of its queue, and its side's caches told. */
  ghost predicate InsertedInto(was: Book, next: Book, order: Order) {
    var pl, c := Place(order.side, order.price), was.Of(order.side);
    && next.queues == was.queues[pl := QueueAt(was.queues, pl) + [order]]
    && next.Of(order.side) == Cache(Improved(order.side, c.best, order.price), IndexAdd(c.index, order.price, order.Remaining()))
    && next.Of(order.side.Opposite()) == was.Of(order.side.Opposite())
  }

  lemma InsertIsInserted(b: Book, order: Order)
    requires order.id !in b.ids
    ensures b.room > 0 ==> InsertedInto(b, Insert(b, order), order)
    ensures Insert(b, order).base == b.base && Insert(b, order).ticks == b.ticks
    ensures b.room == 0 ==> Insert(b, order) == b
  {
  }

  method PushSide(s: SideBook, t: SideBook, base: nat, ticks: nat, order: Order, rec: PriceLevel,
                  ghost q: seq<nat>, ghost was: Book, ghost chains: Slots, ghost next: Book)
    requires Apart(s, t) && order.price < U64_LIMIT && q != []
    requires SideHolds(s, order.side, base, ticks, was, chains) && SideHolds(t, order.side.Opposite(), base, ticks, was, chains)
    requires InsertedInto(was, next, order)
    requires var os := next.queues[Place(order.side, order.price)]; |q| == |os| && rec == RecordOf(q, os)
    modifies s, s.depth, s.sparseIndex, s.sparseIndex.fenwick
    ensures SideHolds(s, order.side, base, ticks, next, chains[Place(order.side, order.price) := q])
    ensures SideHolds(t, order.side.Opposite(), base, ticks, next, chains[Place(order.side, order.price) := q])
  {
    ghost var pl := Place(order.side, order.price);
    s.Push(base, ticks, order.price, rec, order.Remaining());
    SideRewritten(s, old(s.recs), base, ticks, was, chains, next, pl, q, next.queues[pl]);
    t.StillValid();
    SideKept(t, order.side.Opposite(), base, ticks, was, chains, next, pl, q, next.queues[pl]);
  }

  /** `next` is `was` with the queue at `pl` rewritten to `os` after `qty` left it, and its side's caches told. */
  ghost predicate Rewritten(was: Book, next: Book, pl: Place, os: seq<Order>, qty: nat) {
    && next.queues == Requeue(was.queues, pl, os)
    && next.Of(pl.side) == Cache(BestAfter(was, pl, next.queues), IndexSub(was.Of(pl.side).index, pl.price, qty))
    && next.Of(pl.side.Opposite()) == was.Of(pl.side.Opposite())
  }

  lemma RemoveIsRewritten(b: Book, id: nat)
    requires Resting(b, id)
    ensures var q, k := b.queues[b.ids[id]], PositionOf(b.queues[b.ids[id]], id);
            Rewritten(b, Remove(b, id), b.ids[id], Without(q, k), q[k].Remaining())
    ensures Remove(b, id).base == b.base && Remove(b, id).ticks == b.ticks
  {
  }

  lemma ReduceIsRewritten(b: Book, id: nat, delta: nat)
    requires Resting(b, id)
    ensures var q, k := b.queues[b.ids[id]], PositionOf(b.queues[b.ids[id]], id);
            Rewritten(b, Reduce(b, id, delta), b.ids[id], Filled(q, k, delta), delta)
    ensures Reduce(b, id, delta).base == b.base && Reduce(b, id, delta).ticks == b.ticks
  {
  }

  /** The records of a side are at the prices of its queues. */
  lemma RecsArePrices(side: Side, recs: map<nat, PriceLevel>, chains: Slots, queues: Queues)
    requires RecsOk(side, recs, chains, queues)
    ensures recs.Keys == Prices(queues, side)
  {
  }

  /** Write the shorter level of a removal or a reduction and everything that is kept about it. */
  method PopSide(s: SideBook, t: SideBook, base: nat, ticks: nat, pl: Place, rec: PriceLevel, qty: nat,
                 ghost q: seq<nat>, ghost os: seq<Order>, ghost was: Book, ghost chains: Slots, ghost next: Book)
    requires Apart(s, t) && pl in was.queues && was.base == base && was.ticks == ticks
    requires SideHolds(s, pl.side, base, ticks, was, chains) && SideHolds(t, pl.side.Opposite(), base, ticks, was, chains)
    requires Rewritten(was, next, pl, os, qty) && |q| == |os| && rec == RecordOf(q, os)
    requires CanSub(base, ticks, was.Of(pl.side).index, pl.price, qty)
    modifies s, s.depth, s.sparseIndex, s.sparseIndex.fenwick
    ensures SideHolds(s, pl.side, base, ticks, next, Rechain(chains, pl, q))
    ensures SideHolds(t, pl.side.Opposite(), base, ticks, next, Rechain(chains, pl, q))
  {
    s.Pop(base, ticks, pl.price, rec, qty);
    RecsReplace(pl.side, old(s.recs), chains, was.queues, pl, q, os);
    RecsArePrices(pl.side, s.recs, Rechain(chains, pl, q), next.queues);
    SideRewritten(s, old(s.recs), base, ticks, was, chains, next, pl, q, os);
    t.StillValid();
    SideKept(t, pl.side.Opposite(), base, ticks, was, chains, next, pl, q, os);
  }

  method OverwriteSide(s: SideBook, t: SideBook, base: nat, ticks: nat, pl: Place, rec: PriceLevel,
                       ghost q: seq<nat>, ghost os: seq<Order>, ghost was: Book, ghost chains: Slots, ghost next: Book)
    requires Apart(s, t) && pl in was.queues && os != []
    requires SideHolds(s, pl.side, base, ticks, was, chains) && SideHolds(t, pl.side.Opposite(), base, ticks, was, chains)
    requires next == was.(queues := was.queues[pl := os]) && |q| == |os| && rec == RecordOf(q, os)
    modifies s
    ensures SideHolds(s, pl.side, base, ticks, next, chains[pl := q])
    ensures SideHolds(t, pl.side.Opposite(), base, ticks, next, chains[pl := q])
  {
    s.Overwrite(base, ticks, pl.price, rec);
    SideRewritten(s, old(s.recs), base, ticks, was, chains, next, pl, q, os);
    t.StillValid();
    SideKept(t, pl.side.Opposite(), base, ticks, was, chains, next, pl, q, os);
  }

  /** `next` has the queues of `was`, and an index of one side that is exact. */
  ghost predicate Reindexed(side: Side, was: Book, next: Book) {
    next.queues == was.queues && next.Of(side) == Cache(was.Of(side).best, Totals(was.queues, side))
  }

  lemma RecenterReindexes(b: Book, newBase: nat)
    requires newBase != b.base
    ensures Reindexed(Bid, b, Recenter(b, newBase)) && Reindexed(Ask, b, Recenter(b, newBase))
    ensures Recenter(b, newBase).base == newBase && Recenter(b, newBase).ticks == b.ticks
  {
  }

  method RebaseSide(s: SideBook, side: Side, base: nat, ticks: nat, newBase: nat,
                    ghost was: Book, ghost chains: Slots, ghost next: Book)
    requires SideHolds(s, side, base, ticks, was, chains) && s.depth != s.sparseIndex.fenwick
    requires Reindexed(side, was, next)
    modifies s, s.depth, s.sparseIndex, s.sparseIndex.fenwick
    ensures SideHolds(s, side, newBase, ticks, next, chains)
  {
    s.Rebase(base, ticks, newBase);
    TotalsAgree(side, s.recs, chains, was.queues);
  }

  /** Move the window of one side; the other still holds what it held. */
  method RebaseOne(s: SideBook, side: Side, base: nat, ticks: nat, newBase: nat,
                   ghost was: Book, ghost chains: Slots, ghost next: Book,
                   t: SideBook, ghost otherBase: nat, ghost other: Book)
    requires Apart(s, t) && s.depth != s.sparseIndex.fenwick
    requires SideHolds(s, side, base, ticks, was, chains) && SideHolds(t, side.Opposite(), otherBase, ticks, other, chains)
    requires Reindexed(side, was, next)
    modifies s, s.depth, s.sparseIndex, s.sparseIndex.fenwick
    ensures SideHolds(s, side, newBase, ticks, next, chains) && SideHolds(t, side.Opposite(), otherBase, ticks, other, chains)
  {
    RebaseSide(s, side, base, ticks, newBase, was, chains, next);
    t.StillValid();
  }

  /** Move the window of both sides. */
  method RebasePair(s: SideBook, t: SideBook, base: nat, ticks: nat, newBase: nat,
                    ghost was: Book, ghost chains: Slots, ghost next: Book)
    requires Apart(s, t) && s.depth != s.sparseIndex.fenwick && t.depth != t.sparseIndex.fenwick
    requires SideHolds(s, Bid, base, ticks, was, chains) && SideHolds(t, Ask, base, ticks, was, chains)
    requires Reindexed(Bid, was, next) && Reindexed(Ask, was, next)
    modifies s, s.depth, s.sparseIndex, s.sparseIndex.fenwick, t, t.depth, t.sparseIndex, t.sparseIndex.fenwick
    ensures SideHolds(s, Bid, newBase, ticks, next, chains) && SideHolds(t, Ask, newBase, ticks, next, chains)
  {
    RebaseOne(s, Bid, base, ticks, newBase, was, chains, next, t, base, was);
    RebaseOne(t, Ask, base, ticks, newBase, was, chains, next, s, newBase, next);
  }

  lemma TotalsAgree(side: Side, recs: map<nat, PriceLevel>, chains: Slots, queues: Queues)
    requires RecsOk(side, recs, chains, queues)
    ensures TotalsOf(recs) == Totals(queues, side)
  {
  }

  /** The object is no part of the side. */
  ghost predicate Outside(o: object, s: SideBook) {
    o != s && o != s.depth && o != s.sparseIndex && o != s.sparseIndex.fenwick
  }

  class OrderBook {
    var base: nat
    const ticks: nat
    const bids: SideBook
    const asks: SideBook
    /** Lookup of an order's slot by its id. */
    var orderIndex: map<nat, nat>
    /** The book that all of this stands for. */
    ghost var view: Book
    ghost var chains: Slots

    function Half(side: Side): SideBook {
      if side.Bid? then bids else asks
    }

    /** Both sides hold the records, indexes and bests of the view. */
    ghost predicate Sides()
      reads this, bids, bids.depth, bids.sparseIndex, bids.sparseIndex.fenwick,
            asks, asks.depth, asks.sparseIndex, asks.sparseIndex.fenwick
    {
      && Apart(bids, asks) && Outside(this, bids) && Outside(this, asks)
      && base < U64_LIMIT
      && view.base == base && view.ticks == ticks
      && SideHolds(bids, Bid, base, ticks, view, chains)
      && SideHolds(asks, Ask, base, ticks, view, chains)
    }

    /** The arena and the id lookup hold the orders of the view. */
    ghost predicate Stored(arena: Arena)
      reads this, arena
    {
      arena.Valid() && StoresBook(arena.data, arena.free, orderIndex, chains, view)
    }

    ghost predicate Valid(arena: Arena)
      reads this, bids, bids.depth, bids.sparseIndex, bids.sparseIndex.fenwick,
            asks, asks.depth, asks.sparseIndex, asks.sparseIndex.fenwick, arena
    {
      Away(arena) && Sides() && Stored(arena)
    }

    /** The arena is no part of the book. */
    ghost predicate Away(arena: Arena) {
      var a: object := arena;
      a != this && Outside(a, bids) && Outside(a, asks)
    }

    constructor (base: nat, ticks: nat, arena: Arena)
      requires base < U64_LIMIT
      requires arena.Valid() && forall i :: !arena.Live(i)
      ensures Valid(arena) && fresh(bids) && fresh(bids.depth) && fresh(bids.sparseIndex) && fresh(bids.sparseIndex.fenwick)
      ensures fresh(asks) && fresh(asks.depth) && fresh(asks.sparseIndex) && fresh(asks.sparseIndex.fenwick)
      ensures view == Empty(base, ticks, |arena.free|)
    {
      this.base, this.ticks := base, ticks;
      bids := new SideBook(Bid, base, ticks);
      asks := new SideBook(Ask, base, ticks);
      orderIndex, chains := map[], map[];
      view := Empty(base, ticks, |arena.free|);
      new;
      assert Sides();
      EmptyIsStored(arena);
    }

    lemma EmptyIsStored(arena: Arena)
      requires arena.Valid() && forall i :: !arena.Live(i)
      requires view == Empty(base, ticks, |arena.free|) && orderIndex == map[] && chains == map[]
      ensures Stored(arena)
    {
      forall i: nat | i < |arena.data| ensures i in arena.free {
        assert !arena.Live(i);
      }
    }

    /** The record at a price is the record of its chain, or empty. */
    lemma LevelRecord(side: Side, price: nat)
      requires Sides()
      ensures var pl := Place(side, price);
              Half(side).Level(base, ticks, price) ==
                if pl in view.queues && pl in chains then RecordOf(chains[pl], view.queues[pl]) else EMPTY_LEVEL
    {
    }

    /** The total quantity at a level, zero if there is none. */
    method GetLevelQty(side: Side, price: nat, arena: Arena) returns (qty: nat)
      requires Valid(arena)
      ensures qty == Total(QueueAt(view.queues, Place(side, price)))
    {
      qty := Half(side).Level(base, ticks, price).total;
      LevelRecord(side, price);
    }

    lemma ChainAt(pl: Place, arena: Arena)
      requires Stored(arena)
      ensures pl in view.queues <==> pl in chains
      ensures pl in chains ==> ChainOk(arena.data, arena.free, orderIndex, chains[pl], view.queues[pl])
      ensures pl in chains ==> QueueOk(pl, view.queues[pl], view.ids)
      ensures pl in chains ==> |chains[pl]| == |view.queues[pl]| > 0 && forall k :: 0 <= k < |chains[pl]| ==> arena.Live(chains[pl][k])
    {
    }

    lemma ChainSizes(pl: Place, arena: Arena)
      requires Stored(arena)
      ensures pl in view.queues <==> pl in chains
      ensures pl in chains ==> chains[pl] != []
      ensures |SlotsAt(chains, pl)| == |QueueAt(view.queues, pl)|
    {
      ChainAt(pl, arena);
    }

    /** The slot of the first order at a level. */
    method GetLevelHead(side: Side, price: nat, arena: Arena) returns (head: Option<nat>)
      requires Valid(arena)
      ensures head.None? <==> Place(side, price) !in view.queues
      ensures head.Some? ==> arena.Live(head.value) && view.queues[Place(side, price)] != []
                                && arena.data[head.value].order == view.queues[Place(side, price)][0]
    {
      head := Half(side).Level(base, ticks, price).head;
      LevelRecord(side, price);
      ChainAt(Place(side, price), arena);
    }

    method Lookup(id: nat, arena: Arena) returns (r: Option<nat>)
      requires Valid(arena)
      ensures r.None? <==> id !in view.ids
      ensures r.Some? ==> arena.Live(r.value) && Resting(view, id) && arena.data[r.value].order == OrderOf(view, id)
    {
      r := if id in orderIndex then Some(orderIndex[id]) else None;
      IndexFinds(id, arena);
    }

    lemma IndexFinds(id: nat, arena: Arena)
      requires Stored(arena)
      ensures id in orderIndex <==> id in view.ids
      ensures id in orderIndex ==>
                (&& Resting(view, id) && view.ids[id] in chains
                 && arena.Live(orderIndex[id]) && arena.data[orderIndex[id]].order == OrderOf(view, id)
                 && PositionOf(view.queues[view.ids[id]], id) < |chains[view.ids[id]]|
                 && chains[view.ids[id]][PositionOf(view.queues[view.ids[id]], id)] == orderIndex[id])
    {
      assert id in orderIndex.Keys <==> id in view.ids.Keys;
      if id in view.ids {
        LookupFinds(arena.data, arena.free, orderIndex, chains, view.queues, view.ids[id], id);
      }
    }

    /* ---- Insertion ---- */

    /** Write the order into a fresh slot behind the tail of its level. */
    static method AllocLinked(order: Order, tail: Option<nat>, ghost q: seq<nat>, arena: Arena) returns (slot: Option<nat>)
      requires arena.Valid()
      requires tail == LastOf(q)
      requires tail.Some? ==> arena.Live(tail.value)
      modifies arena
      ensures arena.Valid()
      ensures slot.None? <==> old(arena.free) == []
      ensures slot.None? ==> arena.free == old(arena.free) && arena.data == old(arena.data)
      ensures slot.Some? ==> slot.value == old(arena.free)[0] && slot.value < |old(arena.data)| && arena.free == old(arena.free)[1..]
      ensures slot.Some? ==> EndsBelow(q, |old(arena.data)|)
                             && arena.data == Appended(old(arena.data), q, slot.value, order)
    {
      slot := arena.Alloc(Node(order, ARENA_NULL, ARENA_NULL));
      if slot.None? {
        return;
      }
      var idx := slot.value;
      var prev := if tail.Some? then tail.value else ARENA_NULL;
      arena.Put(idx, Node(order, prev, ARENA_NULL));
      if tail.Some? {
        arena.Put(tail.value, arena.Get(tail.value).(next := idx));
      }
    }


    /** Both sides hold `next` already: make it the view. */
    ghost method Adopt(next: Book, nextChains: Slots)
      requires Apart(bids, asks) && base < U64_LIMIT && next.base == base && next.ticks == ticks
      requires SideHolds(bids, Bid, base, ticks, next, nextChains) && SideHolds(asks, Ask, base, ticks, next, nextChains)
      modifies this`view, this`chains
      ensures Sides() && view == next && chains == nextChains
    {
      view, chains := next, nextChains;
    }

    method PushLevel(order: Order, rec: PriceLevel, ghost q: seq<nat>, ghost next: Book)
      requires Sides() && order.price < U64_LIMIT && q != [] && next.base == base && next.ticks == ticks
      requires InsertedInto(view, next, order)
      requires var os := next.queues[Place(order.side, order.price)]; |q| == |os| && rec == RecordOf(q, os)
      modifies this`view, this`chains, bids, bids.depth, bids.sparseIndex, bids.sparseIndex.fenwick,
               asks, asks.depth, asks.sparseIndex, asks.sparseIndex.fenwick
      ensures Sides() && view == next && chains == old(chains)[Place(order.side, order.price) := q]
    {
      ghost var chains' := chains[Place(order.side, order.price) := q];
      if order.side == Bid {
        PushSide(bids, asks, base, ticks, order, rec, q, view, chains, next);
      } else {
        PushSide(asks, bids, base, ticks, order, rec, q, view, chains, next);
      }
      Adopt(next, chains');
    }

    method InsertOrder(id: nat, side: Side, price: nat, qty: nat, orderType: OrderType,
                       visible: Option<nat>, stpGroup: Option<nat>, arena: Arena)
      returns (r: Option<nat>)
      requires Valid(arena) && price < U64_LIMIT
      modifies this, bids, bids.depth, bids.sparseIndex, bids.sparseIndex.fenwick,
               asks, asks.depth, asks.sparseIndex, asks.sparseIndex.fenwick, arena
      ensures Valid(arena)
      ensures view == Insert(old(view), Booked(id, side, price, qty, orderType, visible, stpGroup))
      ensures r.None? <==> Refuses(old(view), id)
    {
      var order := Booked(id, side, price, qty, orderType, visible, stpGroup);
      IndexFinds(id, arena);
      if id in orderIndex {
        return None;
      }
      r := InsertNew(order, arena);
    }

    /** Rewrite the id lookup, which the sides do not see. */
    method SetIndex(index: map<nat, nat>)
      requires Sides()
      modifies this`orderIndex
      ensures Sides() && orderIndex == index
    {
      orderIndex := index;
    }

    twostate lemma SidesKept()
      requires old(Sides())
      requires unchanged(this) && unchanged(bids) && unchanged(bids.depth)
      requires unchanged(bids.sparseIndex) && unchanged(bids.sparseIndex.fenwick)
      requires unchanged(asks) && unchanged(asks.depth)
      requires unchanged(asks.sparseIndex) && unchanged(asks.sparseIndex.fenwick)
      ensures Sides()
    {
    }

    /** The last slot of a level. */
    method TailOf(pl: Place, arena: Arena) returns (tail: Option<nat>)
      requires Valid(arena)
      ensures tail == LastOf(SlotsAt(chains, pl))
      ensures tail.Some? ==> arena.Live(tail.value)
    {
      tail := Half(pl.side).Level(base, ticks, pl.price).tail;
      LevelRecord(pl.side, pl.price);
      ChainAt(pl, arena);
    }

    /** Take a slot for the order and link it behind its level's tail. */
    method TakeSlot(order: Order, arena: Arena) returns (slot: Option<nat>)
      requires Valid(arena)
      modifies arena
      ensures Sides() && arena.Valid()
      ensures slot.None? <==> old(arena.free) == []
      ensures slot.None? ==> Stored(arena)
      ensures var q := SlotsAt(chains, Place(order.side, order.price));
              slot.Some? ==>
                (&& slot.value == old(arena.free)[0] && slot.value < |old(arena.data)|
                 && arena.free == old(arena.free)[1..]
                 && EndsBelow(q, |old(arena.data)|)
                 && arena.data == Appended(old(arena.data), q, slot.value, order))
    {
      var tail := TailOf(Place(order.side, order.price), arena);
      ghost var q := SlotsAt(chains, Place(order.side, order.price));
      slot := AllocLinked(order, tail, q, arena);
      assert SlotsAt(chains, Place(order.side, order.price)) == q;
      SidesKept();
      if slot.None? {
        Unmoved(arena);
      }
    }

    /** The level record with one more order at its end. */
    method GrownLevel(order: Order, idx: nat) returns (rec: PriceLevel)
      requires Sides()
      requires var pl := Place(order.side, order.price);
               (pl in chains <==> pl in view.queues) && |SlotsAt(chains, pl)| == |QueueAt(view.queues, pl)|
               && (pl in chains ==> chains[pl] != [])
      ensures var pl := Place(order.side, order.price);
              rec == RecordOf(SlotsAt(chains, pl) + [idx], QueueAt(view.queues, pl) + [order])
    {
      var level := Half(order.side).Level(base, ticks, order.price);
      LevelRecord(order.side, order.price);
      ghost var pl := Place(order.side, order.price);
      RecordAfterInsert(SlotsAt(chains, pl), QueueAt(view.queues, pl), idx, order);
      rec := PriceLevel(level.total + order.Remaining(), level.count + 1,
                        if level.tail.None? then Some(idx) else level.head, Some(idx));
    }

    method PushOrder(order: Order, idx: nat)
      requires Sides() && order.id !in view.ids && view.room > 0 && order.price < U64_LIMIT
      requires var pl := Place(order.side, order.price);
               && |SlotsAt(chains, pl)| == |QueueAt(view.queues, pl)|
               && (pl in chains <==> pl in view.queues) && (pl in chains ==> chains[pl] != [])
      modifies this`view, this`chains, bids, bids.depth, bids.sparseIndex, bids.sparseIndex.fenwick,
               asks, asks.depth, asks.sparseIndex, asks.sparseIndex.fenwick
      ensures Sides() && view == Insert(old(view), order)
      ensures var pl := Place(order.side, order.price); chains == old(chains)[pl := SlotsAt(old(chains), pl) + [idx]]
    {
      InsertIsInserted(view, order);
      var rec := GrownLevel(order, idx);
      PushLevel(order, rec, SlotsAt(chains, Place(order.side, order.price)) + [idx], Insert(view, order));
    }

    /** File the linked order in its level and in the lookup; the arena is not touched. */
    method File(order: Order, idx: nat, ghost arena: Arena)
      requires Away(arena) && Sides() && arena.Valid() && order.id !in view.ids && view.room > 0 && order.price < U64_LIMIT
      requires var pl := Place(order.side, order.price);
               && |SlotsAt(chains, pl)| == |QueueAt(view.queues, pl)|
               && (pl in chains <==> pl in view.queues) && (pl in chains ==> chains[pl] != [])
      modifies this, bids, bids.depth, bids.sparseIndex, bids.sparseIndex.fenwick,
               asks, asks.depth, asks.sparseIndex, asks.sparseIndex.fenwick
      ensures Sides() && view == Insert(old(view), order) && orderIndex == old(orderIndex)[order.id := idx]
      ensures var pl := Place(order.side, order.price); chains == old(chains)[pl := SlotsAt(old(chains), pl) + [idx]]
      ensures arena.Valid() && arena.data == old(arena.data) && arena.free == old(arena.free)
    {
      PushOrder(order, idx);
      SetIndex(orderIndex[order.id := idx]);
    }

    /** What an insertion starts from, and what will be stored after it. */
    lemma InsertionFacts(order: Order, arena: Arena)
      requires Stored(arena) && order.id !in view.ids && order.price < U64_LIMIT
      ensures view.room == |arena.free|
      ensures var pl := Place(order.side, order.price);
              var q := SlotsAt(chains, pl);
              && |q| == |QueueAt(view.queues, pl)|
              && (pl in chains <==> pl in view.queues) && (pl in chains ==> chains[pl] != [])
              && (view.room > 0 ==>
                    && arena.free[0] < |arena.data| && (q != [] ==> q[|q| - 1] < |arena.data|)
                    && StoresBook(Appended(arena.data, q, arena.free[0], order), arena.free[1..],
                                  orderIndex[order.id := arena.free[0]], chains[pl := q + [arena.free[0]]], Insert(view, order)))
      ensures view.room == 0 ==> Insert(view, order) == view
    {
      ChainSizes(Place(order.side, order.price), arena);
      if view.room > 0 {
        InsertStoresBook(arena.data, arena.free, orderIndex, chains, view, order);
      }
    }

    method InsertNew(order: Order, arena: Arena) returns (r: Option<nat>)
      requires Valid(arena) && order.price < U64_LIMIT && order.id !in view.ids
      modifies this, bids, bids.depth, bids.sparseIndex, bids.sparseIndex.fenwick,
               asks, asks.depth, asks.sparseIndex, asks.sparseIndex.fenwick, arena
      ensures Valid(arena) && view == Insert(old(view), order)
      ensures r.None? <==> old(view).room == 0
    {
      InsertionFacts(order, arena);
      r := TakeSlot(order, arena);
      if r.Some? {
        File(order, r.value, arena);
      }
    }

    /** Storing is a matter of what the arena and the lookup hold. */
    twostate lemma Unmoved(arena: Arena)
      requires old(Stored(arena)) && arena.Valid() && unchanged(this)
      requires arena.free == old(arena.free) && arena.data == old(arena.data)
      ensures Stored(arena)
    {
    }

    /* ---- Removal ---- */

    /** What a live slot says about the view. */
    lemma SlotFacts(idx: nat, arena: Arena)
      requires Stored(arena) && arena.Live(idx)
      ensures var id := arena.data[idx].order.id;
              && id in view.ids && Resting(view, id) && view.ids[id] in chains
              && id in orderIndex && orderIndex[id] == idx
              && arena.data[idx].order == OrderOf(view, id)
              && view.ids[id] == Place(arena.data[idx].order.side, arena.data[idx].order.price)
              && PositionOf(view.queues[view.ids[id]], id) < |chains[view.ids[id]]| == |view.queues[view.ids[id]]|
              && chains[view.ids[id]][PositionOf(view.queues[view.ids[id]], id)] == idx
              && Hooked(arena.data, idx)
    {
      var id := arena.data[idx].order.id;
      assert SlotOk(arena.data, orderIndex, idx);
      assert id in orderIndex.Keys;
      IndexFinds(id, arena);
      RestingOrder(view, id);
      ChainSizes(view.ids[id], arena);
      RemoveStoresId(arena.data, arena.free, orderIndex, chains, view.queues, view.ids, id);
    }

    /** The level record without the order in the slot. */
    method ShrunkLevel(idx: nat, arena: Arena) returns (rec: PriceLevel)
      requires Valid(arena) && arena.Live(idx) && Resting(view, arena.data[idx].order.id)
      ensures var id := arena.data[idx].order.id;
              && view.ids[id] in chains && PositionOf(view.queues[view.ids[id]], id) < |chains[view.ids[id]]|
              && var k := PositionOf(view.queues[view.ids[id]], id);
                 rec == RecordOf(Without(chains[view.ids[id]], k), Without(view.queues[view.ids[id]], k))
    {
      SlotFacts(idx, arena);
      ghost var pl := view.ids[arena.data[idx].order.id];
      ChainAt(pl, arena);
      var node := arena.Get(idx);
      var level := Half(node.order.side).Level(base, ticks, node.order.price);
      LevelRecord(node.order.side, node.order.price);
      RecordAfterRemove(arena.data, chains[pl], view.queues[pl], PositionOf(view.queues[pl], node.order.id));
      rec := Shrunk(level, node.order.Remaining(), node.prev, node.next);
    }

    lemma NeighboursLive(idx: nat, arena: Arena)
      requires Stored(arena) && arena.Live(idx)
      ensures Hooked(arena.data, idx)
      ensures arena.data[idx].prev != ARENA_NULL ==> arena.Live(arena.data[idx].prev)
      ensures arena.data[idx].next != ARENA_NULL ==> arena.Live(arena.data[idx].next)
    {
      SlotFacts(idx, arena);
      var pl := view.ids[arena.data[idx].order.id];
      ChainAt(pl, arena);
      LinksInRange(arena.data, chains[pl], PositionOf(view.queues[pl], arena.data[idx].order.id));
    }

    /** Hook the neighbours of a slot to each other and give the slot back. */
    method ReleaseSlot(idx: nat, arena: Arena)
      requires Away(arena) && Sides() && arena.Valid() && arena.Live(idx) && Hooked(arena.data, idx)
      requires arena.data[idx].prev != ARENA_NULL ==> arena.Live(arena.data[idx].prev)
      requires arena.data[idx].next != ARENA_NULL ==> arena.Live(arena.data[idx].next)
      requires StoresBook(Unhooked(arena.data, idx), [idx] + arena.free, orderIndex, chains, view)
      modifies arena
      ensures Valid(arena)
    {
      Unlink(idx, arena);
      arena.Free(idx);
      SidesKept();
    }

    static method Unlink(idx: nat, arena: Arena)
      requires arena.Valid() && arena.Live(idx) && Hooked(arena.data, idx)
      requires arena.data[idx].prev != ARENA_NULL ==> arena.Live(arena.data[idx].prev)
      requires arena.data[idx].next != ARENA_NULL ==> arena.Live(arena.data[idx].next)
      modifies arena`data
      ensures arena.Valid() && arena.data == Unhooked(old(arena.data), idx)
    {
      var node := arena.Get(idx);
      if node.prev != ARENA_NULL {
        arena.Put(node.prev, arena.Get(node.prev).(next := node.next));
      }
      if node.next != ARENA_NULL {
        arena.Put(node.next, arena.Get(node.next).(prev := node.prev));
      }
    }

    method PopLevel(pl: Place, rec: PriceLevel, qty: nat, ghost q: seq<nat>, ghost os: seq<Order>, ghost next: Book)
      requires Sides() && pl in view.queues && next.base == base && next.ticks == ticks
      requires Rewritten(view, next, pl, os, qty) && |q| == |os| && rec == RecordOf(q, os)
      requires CanSub(base, ticks, view.Of(pl.side).index, pl.price, qty)
      modifies this`view, this`chains, bids, bids.depth, bids.sparseIndex, bids.sparseIndex.fenwick,
               asks, asks.depth, asks.sparseIndex, asks.sparseIndex.fenwick
      ensures Sides() && view == next && chains == Rechain(old(chains), pl, q)
    {
      ghost var chains' := Rechain(chains, pl, q);
      if pl.side == Bid {
        PopSide(bids, asks, base, ticks, pl, rec, qty, q, os, view, chains, next);
      } else {
        PopSide(asks, bids, base, ticks, pl, rec, qty, q, os, view, chains, next);
      }
      Adopt(next, chains');
    }

    /** Where an order stands in its queue. */
    ghost function Rank(id: nat): nat
      requires Resting(view, id)
      reads this
    {
      PositionOf(view.queues[view.ids[id]], id)
    }

    method PopOrder(order: Order, rec: PriceLevel)
      requires Sides() && Resting(view, order.id) && order == OrderOf(view, order.id)
      requires var pl, k := Place(order.side, order.price), Rank(order.id);
               && view.ids[order.id] == pl && pl in chains && k < |chains[pl]| == |view.queues[pl]|
               && rec == RecordOf(Without(chains[pl], k), Without(view.queues[pl], k))
      requires CanSub(base, ticks, view.Of(order.side).index, order.price, order.Remaining())
      modifies this`view, this`chains, bids, bids.depth, bids.sparseIndex, bids.sparseIndex.fenwick,
               asks, asks.depth, asks.sparseIndex, asks.sparseIndex.fenwick
      ensures Sides() && view == Remove(old(view), order.id)
      ensures var pl := Place(order.side, order.price); chains == Rechain(old(chains), pl, Without(old(chains)[pl], old(Rank(order.id))))
    {
      var pl := Place(order.side, order.price);
      ghost var k := Rank(order.id);
      RemoveIsRewritten(view, order.id);
      PopLevel(pl, rec, order.Remaining(), Without(chains[pl], k), Without(view.queues[pl], k), Remove(view, order.id));
    }

    /** Drop the order from its level and from the lookup; the arena is not touched. */
    method Unfile(order: Order, rec: PriceLevel, ghost arena: Arena)
      requires Away(arena) && Sides() && arena.Valid()
      requires Resting(view, order.id) && order == OrderOf(view, order.id)
      requires var pl, k := Place(order.side, order.price), Rank(order.id);
               && view.ids[order.id] == pl && pl in chains && k < |chains[pl]| == |view.queues[pl]|
               && rec == RecordOf(Without(chains[pl], k), Without(view.queues[pl], k))
      requires CanSub(base, ticks, view.Of(order.side).index, order.price, order.Remaining())
      modifies this, bids, bids.depth, bids.sparseIndex, bids.sparseIndex.fenwick,
               asks, asks.depth, asks.sparseIndex, asks.sparseIndex.fenwick
      ensures Sides() && view == Remove(old(view), order.id) && orderIndex == old(orderIndex) - {order.id}
      ensures var pl := Place(order.side, order.price); chains == Rechain(old(chains), pl, Without(old(chains)[pl], old(Rank(order.id))))
      ensures arena.Valid() && arena.data == old(arena.data) && arena.free == old(arena.free)
    {
      PopOrder(order, rec);
      SetIndex(orderIndex - {order.id});
    }

    /** Take the order in a slot out of everything but the arena. */
    method TakeOut(idx: nat, arena: Arena) returns (order: Order)
      requires Valid(arena) && arena.Live(idx) && Resting(view, arena.data[idx].order.id)
      requires var o := arena.data[idx].order; CanSub(base, ticks, view.Of(o.side).index, o.price, o.Remaining())
      modifies this, bids, bids.depth, bids.sparseIndex, bids.sparseIndex.fenwick,
               asks, asks.depth, asks.sparseIndex, asks.sparseIndex.fenwick
      ensures order == arena.data[idx].order
      ensures Sides() && view == Remove(old(view), order.id) && orderIndex == old(orderIndex) - {order.id}
      ensures var pl := Place(order.side, order.price);
              pl in old(chains) && old(Rank(arena.data[idx].order.id)) < |old(chains)[pl]|
              && chains == Rechain(old(chains), pl, Without(old(chains)[pl], old(Rank(arena.data[idx].order.id))))
      ensures arena.Valid() && arena.data == old(arena.data) && arena.free == old(arena.free)
    {
      SlotFacts(idx, arena);
      order := arena.Get(idx).order;
      var rec := ShrunkLevel(idx, arena);
      Unfile(order, rec, arena);
    }

    /** What a removal starts from, and what will be stored after it. */
    lemma RemovalFacts(idx: nat, arena: Arena)
      requires Stored(arena) && arena.Live(idx)
      ensures var order := arena.data[idx].order;
              var pl := Place(order.side, order.price);
              && Resting(view, order.id) && order == OrderOf(view, order.id) && view.ids[order.id] == pl
              && pl in chains && Rank(order.id) < |chains[pl]| == |view.queues[pl]|
              && Hooked(arena.data, idx)
              && (arena.data[idx].prev != ARENA_NULL ==> arena.Live(arena.data[idx].prev))
              && (arena.data[idx].next != ARENA_NULL ==> arena.Live(arena.data[idx].next))
              && StoresBook(Unhooked(arena.data, idx), [idx] + arena.free, orderIndex - {order.id},
                            Rechain(chains, pl, Without(chains[pl], Rank(order.id))), Remove(view, order.id))
    {
      SlotFacts(idx, arena);
      NeighboursLive(idx, arena);
      RemoveStoresBook(arena.data, arena.free, orderIndex, chains, view, arena.data[idx].order.id);
    }

    /** Take an order out of its level and give its slot back. */
    method RemoveOrder(idx: nat, arena: Arena) returns (side: Side, price: nat)
      requires Valid(arena) && arena.Live(idx) && Resting(view, arena.data[idx].order.id)
      requires var o := arena.data[idx].order; CanSub(base, ticks, view.Of(o.side).index, o.price, o.Remaining())
      modifies this, bids, bids.depth, bids.sparseIndex, bids.sparseIndex.fenwick,
               asks, asks.depth, asks.sparseIndex, asks.sparseIndex.fenwick, arena
      ensures Valid(arena) && view == Remove(old(view), old(arena.data[idx].order.id))
      ensures side == old(arena.data[idx].order.side) && price == old(arena.data[idx].order.price)
    {
      RemovalFacts(idx, arena);
      var order := TakeOut(idx, arena);
      ReleaseSlot(idx, arena);
      return order.side, order.price;
    }

    /* ---- Reductions and fills ---- */

    /** The level record after the order in the slot gave `delta`. */
    method LoweredLevel(idx: nat, delta: nat, arena: Arena) returns (rec: PriceLevel)
      requires Valid(arena) && arena.Live(idx) && Resting(view, arena.data[idx].order.id)
      requires delta <= arena.data[idx].order.Remaining()
      ensures var id := arena.data[idx].order.id;
              && view.ids[id] in chains && |chains[view.ids[id]]| == |view.queues[view.ids[id]]|
              && rec == RecordOf(chains[view.ids[id]], Filled(view.queues[view.ids[id]], Rank(id), delta))
    {
      SlotFacts(idx, arena);
      var order := arena.Get(idx).order;
      ghost var pl := view.ids[order.id];
      var level := Half(order.side).Level(base, ticks, order.price);
      LevelRecord(order.side, order.price);
      RecordAfterFill(chains[pl], view.queues[pl], Rank(order.id), delta);
      rec := level.(total := level.total - delta);
    }

    method WriteFilled(idx: nat, delta: nat, arena: Arena)
      requires Valid(arena) && arena.Live(idx)
      modifies arena`data
      ensures Sides() && arena.Valid() && arena.data == FilledNode(old(arena.data), idx, delta)
    {
      var node := arena.Get(idx);
      arena.Put(idx, node.(order := node.order.(filled := node.order.filled + delta)));
      SidesKept();
    }

    /** Write the filled order; what it was, and what its level's record is to be. */
    method WriteLowered(idx: nat, delta: nat, arena: Arena) returns (order: Order, rec: PriceLevel)
      requires Valid(arena) && arena.Live(idx) && Resting(view, arena.data[idx].order.id)
      requires delta <= arena.data[idx].order.Remaining()
      modifies arena`data
      ensures Sides() && arena.Valid() && idx < |old(arena.data)| && arena.data == FilledNode(old(arena.data), idx, delta)
      ensures order == old(arena.data[idx].order)
      ensures && view.ids[order.id] in chains && |chains[view.ids[order.id]]| == |view.queues[view.ids[order.id]]|
              && rec == RecordOf(chains[view.ids[order.id]], Filled(view.queues[view.ids[order.id]], Rank(order.id), delta))
    {
      rec := LoweredLevel(idx, delta, arena);
      order := arena.Get(idx).order;
      WriteFilled(idx, delta, arena);
    }

    /** Take `delta` off an order, its level and the depth index. */
    method ReduceOrderQty(idx: nat, delta: nat, arena: Arena)
      requires Valid(arena) && arena.Live(idx) && Resting(view, arena.data[idx].order.id)
      requires var o := arena.data[idx].order;
               delta <= o.Remaining() && CanSub(base, ticks, view.Of(o.side).index, o.price, delta)
      modifies this, bids, bids.depth, bids.sparseIndex, bids.sparseIndex.fenwick,
               asks, asks.depth, asks.sparseIndex, asks.sparseIndex.fenwick, arena`data
      ensures Valid(arena) && view == Reduce(old(view), old(arena.data[idx].order.id), delta)
    {
      MakerFacts(idx, arena);
      ReduceFacts(idx, delta, arena);
      var order, rec := WriteLowered(idx, delta, arena);
      ReduceLevel(order, rec, delta, arena);
    }

    /** What a fill or a reduction starts from. */
    lemma MakerFacts(idx: nat, arena: Arena)
      requires Stored(arena) && arena.Live(idx)
      ensures var order := arena.data[idx].order;
              var pl := Place(order.side, order.price);
              && Resting(view, order.id) && order == OrderOf(view, order.id) && view.ids[order.id] == pl
              && pl in chains && |chains[pl]| == |view.queues[pl]|
    {
      SlotFacts(idx, arena);
    }

    /** What will be stored after a fill. */
    lemma FillFacts(idx: nat, delta: nat, arena: Arena)
      requires Stored(arena) && arena.Live(idx)
      ensures var id := arena.data[idx].order.id;
              Resting(view, id) && StoresBook(FilledNode(arena.data, idx, delta), arena.free, orderIndex, chains, FillOrder(view, id, delta))
    {
      SlotFacts(idx, arena);
      FillStoresBook(arena.data, arena.free, orderIndex, chains, view, arena.data[idx].order.id, delta);
    }

    /** What will be stored after a reduction. */
    lemma ReduceFacts(idx: nat, delta: nat, arena: Arena)
      requires Stored(arena) && arena.Live(idx)
      ensures var id := arena.data[idx].order.id;
              Resting(view, id) && StoresBook(FilledNode(arena.data, idx, delta), arena.free, orderIndex, chains, Reduce(view, id, delta))
    {
      SlotFacts(idx, arena);
      ReduceStoresBook(arena.data, arena.free, orderIndex, chains, view, arena.data[idx].order.id, delta);
    }

    method ReduceLevel(order: Order, rec: PriceLevel, delta: nat, ghost arena: Arena)
      requires Away(arena) && arena.Valid() && Sides() && Resting(view, order.id) && order == OrderOf(view, order.id)
      requires var pl := Place(order.side, order.price);
               && view.ids[order.id] == pl && pl in chains && |chains[pl]| == |view.queues[pl]|
               && rec == RecordOf(chains[pl], Filled(view.queues[pl], Rank(order.id), delta))
      requires CanSub(base, ticks, view.Of(order.side).index, order.price, delta)
      modifies this`view, this`chains, bids, bids.depth, bids.sparseIndex, bids.sparseIndex.fenwick,
               asks, asks.depth, asks.sparseIndex, asks.sparseIndex.fenwick
      ensures Sides() && view == Reduce(old(view), order.id, delta) && chains == old(chains) && orderIndex == old(orderIndex)
      ensures arena.Valid() && arena.data == old(arena.data) && arena.free == old(arena.free)
    {
      var pl := Place(order.side, order.price);
      ReduceIsRewritten(view, order.id, delta);
      PopLevel(pl, rec, delta, chains[pl], Filled(view.queues[pl], Rank(order.id), delta), Reduce(view, order.id, delta));
    }

    /** The engine's fill of a maker: the order and its level total, not the depth index. */
    method FillMaker(idx: nat, delta: nat, arena: Arena)
      requires Valid(arena) && arena.Live(idx) && Resting(view, arena.data[idx].order.id)
      requires delta <= arena.data[idx].order.Remaining()
      modifies this, bids, asks, arena`data
      ensures Valid(arena) && view == FillOrder(old(view), old(arena.data[idx].order.id), delta)
      ensures idx < |old(arena.data)| && arena.data == FilledNode(old(arena.data), idx, delta)
    {
      MakerFacts(idx, arena);
      FillFacts(idx, delta, arena);
      var order, rec := WriteLowered(idx, delta, arena);
      FillLevel(order, rec, delta, arena);
    }

    method FillLevel(order: Order, rec: PriceLevel, delta: nat, ghost arena: Arena)
      requires Away(arena) && arena.Valid() && Sides() && Resting(view, order.id) && order == OrderOf(view, order.id)
      requires var pl := Place(order.side, order.price);
               && view.ids[order.id] == pl && pl in chains && |chains[pl]| == |view.queues[pl]|
               && rec == RecordOf(chains[pl], Filled(view.queues[pl], Rank(order.id), delta))
      modifies this`view, this`chains, bids, asks
      ensures Sides() && view == FillOrder(old(view), order.id, delta) && chains == old(chains)
      ensures arena.Valid() && arena.data == old(arena.data) && arena.free == old(arena.free)
    {
      FillOrderLevel(order, rec, delta);
    }

    method FillOrderLevel(order: Order, rec: PriceLevel, delta: nat)
      requires Sides() && Resting(view, order.id) && order == OrderOf(view, order.id)
      requires var pl := Place(order.side, order.price);
               && view.ids[order.id] == pl && pl in chains && |chains[pl]| == |view.queues[pl]|
               && rec == RecordOf(chains[pl], Filled(view.queues[pl], Rank(order.id), delta))
      modifies this`view, this`chains, bids, asks
      ensures Sides() && view == FillOrder(old(view), order.id, delta) && chains == old(chains)
    {
      var pl := Place(order.side, order.price);
      ghost var os := Filled(view.queues[pl], Rank(order.id), delta);
      ghost var next := FillOrder(view, order.id, delta);
      ghost var chains' := chains[pl := chains[pl]];
      assert chains' == chains;
      if pl.side == Bid {
        OverwriteSide(bids, asks, base, ticks, pl, rec, chains[pl], os, view, chains, next);
      } else {
        OverwriteSide(asks, bids, base, ticks, pl, rec, chains[pl], os, view, chains, next);
      }
      Adopt(next, chains');
    }

    /* ---- Window ---- */

    /** Move the dense window to a new base price. */
    method ForceRecenter(newBase: nat, arena: Arena)
      requires Valid(arena) && (newBase != base ==> base + ticks <= U64_LIMIT && newBase + ticks < U64_LIMIT)
      modifies this, bids, bids.depth, bids.sparseIndex, bids.sparseIndex.fenwick,
               asks, asks.depth, asks.sparseIndex, asks.sparseIndex.fenwick
      ensures Valid(arena) && base == newBase && view == Recenter(old(view), newBase)
    {
      if newBase == base {
        return;
      }
      RecenterStoresBook(arena.data, arena.free, orderIndex, chains, view, newBase);
      RebaseBoth(newBase, arena);
    }

    lemma SideDepthsApart()
      requires Sides()
      ensures bids.depth != bids.sparseIndex.fenwick && asks.depth != asks.sparseIndex.fenwick
    {
    }

    method RebaseBoth(newBase: nat, ghost arena: Arena)
      requires Away(arena) && arena.Valid() && Sides() && newBase + ticks < U64_LIMIT && newBase != base
      modifies this`base, this`view, bids, bids.depth, bids.sparseIndex, bids.sparseIndex.fenwick,
               asks, asks.depth, asks.sparseIndex, asks.sparseIndex.fenwick
      ensures Sides() && base == newBase && view == Recenter(old(view), newBase)
      ensures orderIndex == old(orderIndex) && chains == old(chains)
      ensures arena.Valid() && arena.data == old(arena.data) && arena.free == old(arena.free)
    {
      ghost var next := Recenter(view, newBase);
      RecenterReindexes(view, newBase);
      SideDepthsApart();
      RebasePair(bids, asks, base, ticks, newBase, view, chains, next);
      SetBase(newBase, next);
    }

    method SetBase(newBase: nat, ghost next: Book)
      requires Apart(bids, asks) && newBase + ticks < U64_LIMIT && next.base == newBase && next.ticks == ticks
      requires SideHolds(bids, Bid, newBase, ticks, next, chains) && SideHolds(asks, Ask, newBase, ticks, next, chains)
      modifies this`base, this`view
      ensures Sides() && base == newBase && view == next
      ensures orderIndex == old(orderIndex) && chains == old(chains)
    {
      base, view := newBase, next;
    }

    /** Recenter when the best price has drifted past 70% of the window. */
    method MaybeRecenter(arena: Arena)
      requires Valid(arena) && ThresholdsFit(view)
      requires Drifted(view) && NewBase(view) != base ==> base + ticks <= U64_LIMIT && NewBase(view) + ticks < U64_LIMIT
      modifies this, bids, bids.depth, bids.sparseIndex, bids.sparseIndex.fenwick,
               asks, asks.depth, asks.sparseIndex, asks.sparseIndex.fenwick
      ensures Valid(arena) && view == Recentered(old(view))
    {
      var threshold := ticks * 7 / 10;
      var drifted :=
        if bids.best.Some? && bids.best.value >= base + threshold then true
        else if asks.best.Some? && asks.best.value < base + (ticks - threshold) then true
        else false;
      if drifted {
        var center := if bids.best.Some? then bids.best.value else if asks.best.Some? then asks.best.value else 0;
        ForceRecenter(SaturatingSub(center, ticks / 2), arena);
      }
    }

    /* ---- Depth queries ---- */

    method AskAvailableAtOrBelow(price: nat, arena: Arena) returns (sum: nat)
      requires Valid(arena)
      ensures sum == AskAvailable(view, price)
    {
      sum := asks.AvailableAtOrBelow(base, ticks, price);
    }

    method BidAvailableAtOrAbove(price: nat, arena: Arena) returns (sum: nat)
      requires Valid(arena) && price < U64_LIMIT
      ensures sum == BidAvailable(view, price)
    {
      sum := bids.AvailableAtOrAbove(base, ticks, price);
    }
  }
}
