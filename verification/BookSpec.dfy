/** What an order book means: FIFO queues of orders by side and price, with
    the cached best prices and the depth indexes that the implementation
    keeps beside them. */
module BookSpec {
  import opened Types
  import opened Depth

  datatype Place = Place(side: Side, price: nat)

  type Queues = map<Place, seq<Order>>

  /** What is cached about one side: its best price, and its indexed depth by price. */
  datatype Cache = Cache(best: Option<nat>, index: map<nat, nat>)

  /** `ids` says where each resting order is, `room` how many more the arena can take. */
  datatype Book = Book(base: nat, ticks: nat, room: nat, queues: Queues, ids: map<nat, Place>, bids: Cache, asks: Cache)
  {
    function Of(side: Side): Cache {
      if side.Bid? then bids else asks
    }

    function With(side: Side, c: Cache): Book {
      if side.Bid? then this.(bids := c) else this.(asks := c)
    }
  }

  /** Whether `p` is a strictly better price than `q` for a resting order of `side`. */
  predicate Better(side: Side, p: nat, q: nat) {
    if side.Bid? then p > q else p < q
  }

  /** The quantity remaining in a queue. */
  function Total(q: seq<Order>): nat {
    if q == [] then 0 else q[0].Remaining() + Total(q[1..])
  }

  function QueueAt(queues: Queues, pl: Place): seq<Order> {
    if pl in queues then queues[pl] else []
  }

  /** The prices at which a side has orders. */
  function Prices(queues: Queues, side: Side): (s: set<nat>)
    ensures forall p :: p in s <==> Place(side, p) in queues
  {
    set pl | pl in queues && pl.side == side :: pl.price
  }

  /** Position of an order in a queue, `|q|` when it is not there. */
  function PositionOf(q: seq<Order>, id: nat): (k: nat)
    ensures k <= |q|
    ensures k < |q| ==> q[k].id == id
    ensures forall i :: 0 <= i < k ==> q[i].id != id
  {
    if q == [] then 0 else if q[0].id == id then 0 else 1 + PositionOf(q[1..], id)
  }

  /* ---- Best prices ---- */

  ghost predicate IsBest(side: Side, s: set<nat>, m: nat) {
    m in s && forall x :: x in s ==> !Better(side, x, m)
  }

  lemma {:induction false} BestExists(side: Side, s: set<nat>)
    requires s != {}
    ensures exists m :: IsBest(side, s, m)
  {
    var x :| x in s;
    var rest := s - {x};
    if rest == {} {
      assert s == {x};
      assert IsBest(side, s, x);
    } else {
      BestExists(side, rest);
      var m :| IsBest(side, rest, m);
      assert s == rest + {x};
      if Better(side, x, m) {
        assert IsBest(side, s, x);
      } else {
        assert IsBest(side, s, m);
      }
    }
  }

  ghost function BestOf(side: Side, s: set<nat>): (r: Option<nat>)
    ensures r.None? <==> s == {}
    ensures r.Some? ==> IsBest(side, s, r.value)
  {
    if s == {} then None
    else
      BestExists(side, s);
      var m :| IsBest(side, s, m);
      Some(m)
  }

  lemma BestIsUnique(side: Side, s: set<nat>, m: nat)
    requires IsBest(side, s, m)
    ensures BestOf(side, s) == Some(m)
  {
  }

  /** The cached best after a refresh: dense prices first, sparse ones only if no dense level is left. */
  ghost function Refreshed(side: Side, base: nat, ticks: nat, prices: set<nat>): Option<nat> {
    var dense := set p | p in prices && base <= p < base + ticks;
    if dense != {} then BestOf(side, dense) else BestOf(side, prices)
  }

  /* ---- Operations ---- */

  function Improved(side: Side, best: Option<nat>, p: nat): Option<nat> {
    if best.None? || Better(side, p, best.value) then Some(p) else best
  }

  /** A refused order (duplicate id, full arena) leaves the book as it was. */
  predicate Refuses(b: Book, id: nat) {
    id in b.ids || b.room == 0
  }

  /** The order that an insertion books: nothing filled, the whole quantity visible unless a slice is given. */
  function Booked(id: nat, side: Side, price: nat, qty: nat, orderType: OrderType,
                  visible: Option<nat>, stpGroup: Option<nat>): Order
  {
    Order(id, side, price, qty, 0, orderType,
          if visible.Some? then visible.value else qty,
          if stpGroup.Some? then stpGroup.value else STP_NONE)
  }

  function Insert(b: Book, o: Order): Book {
    if Refuses(b, o.id) then b
    else
      var pl := Place(o.side, o.price);
      var c := b.Of(o.side);
      b.(queues := b.queues[pl := QueueAt(b.queues, pl) + [o]],
         ids := b.ids[o.id := pl],
         room := b.room - 1)
       .With(o.side, Cache(Improved(o.side, c.best, o.price), IndexAdd(c.index, o.price, o.Remaining())))
  }

  /** What the source panics on when quantity leaves the index: a sparse price that the index
      does not hold, or an underflow. */
  predicate CanSub(base: nat, ticks: nat, index: map<nat, nat>, p: nat, q: nat) {
    q <= At(index, p) && (base <= p < base + ticks || p in index)
  }

  predicate Holds(queues: Queues, pl: Place, id: nat) {
    pl in queues && PositionOf(queues[pl], id) < |queues[pl]|
  }

  predicate Resting(b: Book, id: nat) {
    id in b.ids && Holds(b.queues, b.ids[id], id)
  }

  /** The resting order with this id. */
  function OrderOf(b: Book, id: nat): Order
    requires Resting(b, id)
  {
    var q := b.queues[b.ids[id]];
    q[PositionOf(q, id)]
  }

  /** The queues with `q` at `pl`; an empty queue is no level. */
  function Requeue(queues: Queues, pl: Place, q: seq<Order>): Queues {
    if q == [] then queues - {pl} else queues[pl := q]
  }

  /** The cached best after the queue at `pl` was taken from: refreshed only when the best level emptied. */
  ghost function BestAfter(b: Book, pl: Place, queues: Queues): Option<nat> {
    if pl !in queues && b.Of(pl.side).best == Some(pl.price) then
      Refreshed(pl.side, b.base, b.ticks, Prices(queues, pl.side))
    else b.Of(pl.side).best
  }

  ghost function Remove(b: Book, id: nat): Book
    requires Resting(b, id)
  {
    var pl := b.ids[id];
    var q, k := b.queues[pl], PositionOf(b.queues[pl], id);
    var queues := Requeue(b.queues, pl, Without(q, k));
    b.(queues := queues, ids := b.ids - {id}, room := b.room + 1)
     .With(pl.side, Cache(BestAfter(b, pl, queues), IndexSub(b.Of(pl.side).index, pl.price, q[k].Remaining())))
  }

  /** The queue after the order at position `k` gave `delta`. */
  function Filled(q: seq<Order>, k: nat, delta: nat): seq<Order>
    requires k < |q|
  {
    q[k := q[k].(filled := q[k].filled + delta)]
  }

  /** Take `delta` off a resting order and off the index. */
  function Reduce(b: Book, id: nat, delta: nat): Book
    requires Resting(b, id)
  {
    var pl := b.ids[id];
    var q, c := b.queues[pl], b.Of(pl.side);
    b.(queues := b.queues[pl := Filled(q, PositionOf(q, id), delta)])
     .With(pl.side, c.(index := IndexSub(c.index, pl.price, delta)))
  }

  /** The engine's fill of a resting order: the index is not told. */
  function FillOrder(b: Book, id: nat, delta: nat): Book
    requires Resting(b, id)
  {
    var q := b.queues[b.ids[id]];
    b.(queues := b.queues[b.ids[id] := Filled(q, PositionOf(q, id), delta)])
  }

  /** The level totals of one side. */
  function Totals(queues: Queues, side: Side): map<nat, nat> {
    map p | p in Prices(queues, side) :: Total(queues[Place(side, p)])
  }

  /** Move the dense window: no order moves, and both indexes are rebuilt from the levels. */
  function Recenter(b: Book, base: nat): Book {
    if base == b.base then b
    else b.(
      base := base,
      bids := b.bids.(index := Totals(b.queues, Bid)),
      asks := b.asks.(index := Totals(b.queues, Ask)))
  }

  /** Whether a best price drifted past 70% of the window towards its far end. */
  predicate Drifted(b: Book) {
    var threshold := b.ticks * 7 / 10;
    || (b.bids.best.Some? && b.bids.best.value >= b.base + threshold)
    || (b.asks.best.Some? && b.asks.best.value < b.base + (b.ticks - threshold))
  }

  /** The base that centres the window on the best bid, or on the best ask if there is no bid. */
  function NewBase(b: Book): nat {
    SaturatingSub(if b.bids.best.Some? then b.bids.best.value
                  else if b.asks.best.Some? then b.asks.best.value else 0, b.ticks / 2)
  }

  function Recentered(b: Book): Book {
    if Drifted(b) then Recenter(b, NewBase(b)) else b
  }

  function AskAvailable(b: Book, p: nat): nat {
    SumRange(b.asks.index, 0, p + 1)
  }

  function BidAvailable(b: Book, p: nat): nat {
    SumRange(b.bids.index, p, U64_LIMIT)
  }

  function Empty(base: nat, ticks: nat, room: nat): Book {
    Book(base, ticks, room, map[], map[], Cache(None, map[]), Cache(None, map[]))
  }

  /* ---- Well-formed books ---- */

  ghost predicate QueueOk(pl: Place, q: seq<Order>, ids: map<nat, Place>) {
    && q != [] && pl.price < U64_LIMIT
    && (forall k :: 0 <= k < |q| ==>
          q[k].side == pl.side && q[k].price == pl.price && q[k].id in ids && ids[q[k].id] == pl)
    && forall i, j :: 0 <= i < j < |q| ==> q[i].id != q[j].id
  }

  ghost predicate QueuesOk(queues: Queues, ids: map<nat, Place>) {
    forall pl {:trigger QueueOk(pl, queues[pl], ids)} :: pl in queues ==> QueueOk(pl, queues[pl], ids)
  }

  ghost predicate IdsOk(queues: Queues, ids: map<nat, Place>) {
    forall id {:trigger Holds(queues, ids[id], id)} :: id in ids ==> Holds(queues, ids[id], id)
  }

  /** The cached best names a live level and is missing only when the side is empty. */
  ghost predicate BestOk(best: Option<nat>, prices: set<nat>) {
    && (best.None? <==> prices == {})
    && (best.Some? ==> best.value in prices)
  }

  /** The structure of every reachable book: no empty level, every order filed
      under its own side, price and id, every id resting, live cached bests. */
  ghost predicate Shape(b: Book) {
    && QueuesOk(b.queues, b.ids)
    && IdsOk(b.queues, b.ids)
    && BestOk(b.bids.best, Prices(b.queues, Bid))
    && BestOk(b.asks.best, Prices(b.queues, Ask))
  }

  /* ---- What rests ---- */

  /** What the order with this id still has to give, zero when it does not rest. */
  function Rest(b: Book, id: nat): nat {
    if Resting(b, id) then OrderOf(b, id).Remaining() else 0
  }

  ghost predicate QueueSteady(q: seq<Order>, lo: nat, hi: nat) {
    forall k :: 0 <= k < |q| ==> q[k].Remaining() > 0 || lo <= q[k].price < hi
  }

  /** Every resting order has something left to give, or rests at a price of `[lo, hi)`. */
  ghost predicate Steady(queues: Queues, lo: nat, hi: nat) {
    forall pl {:trigger QueueSteady(queues[pl], lo, hi)} :: pl in queues ==> QueueSteady(queues[pl], lo, hi)
  }

  function IndexAt(b: Book, pl: Place): nat {
    At(b.Of(pl.side).index, pl.price)
  }

  /** The depth index at `pl` is the level total plus `drift`. */
  ghost predicate DriftAt(b: Book, pl: Place, drift: nat) {
    IndexAt(b, pl) == Total(QueueAt(b.queues, pl)) + drift
  }
}
