/** The vocabulary of the matching engine: identifiers, orders, price levels,
    events and commands.

    Quantities, prices and ids are unbounded naturals inside the book and the
    engine; the fixed-width types below bound the commands that come in, and
    thereby everything derived from them except quantity totals. */
module Types {

  const U32_LIMIT: nat := 0x1_0000_0000
  const U64_LIMIT: nat := 0x1_0000_0000_0000_0000

  type u32 = x: int | 0 <= x < 0x1_0000_0000
  type u64 = x: int | 0 <= x < 0x1_0000_0000_0000_0000

  datatype Option<+T> = None | Some(value: T)

  datatype Side = Bid | Ask {
    function Opposite(): Side {
      if Bid? then Ask else Bid
    }
  }

  datatype OrderType = Limit | Market | PostOnly | StopLimit | Iceberg

  datatype TimeInForce = GTC | IOC | FOK

  datatype StpMode = CancelNewest | CancelOldest | CancelBoth | DecrementAndCancel

  datatype RejectReason =
    | InvalidPrice
    | InvalidQuantity
    | InstrumentNotFound
    | OrderNotFound
    | WouldCrossSpread
    | InsufficientLiquidity
    | SelfTradePreventionTriggered
    | DuplicateOrderId

  /** Sentinel for "no link" in the intrusive lists. */
  const ARENA_NULL: nat := U32_LIMIT - 1

  /** Sentinel for "no self-trade group". */
  const STP_NONE: nat := U32_LIMIT - 1

  function Min(a: nat, b: nat): nat {
    if a <= b then a else b
  }

  function SaturatingSub(a: nat, b: nat): nat {
    if b <= a then a - b else 0
  }

  /** A sequence with `x` put in at `k`. */
  function Inserted<T>(q: seq<T>, k: nat, x: T): seq<T>
    requires k <= |q|
  {
    q[..k] + [x] + q[k..]
  }

  /** A sequence without what is at `k`. */
  function Without<T>(q: seq<T>, k: nat): seq<T>
    requires k < |q|
  {
    q[..k] + q[k + 1..]
  }

  lemma Regroup<T>(a: seq<T>, b: seq<T>, c: seq<T>)
    ensures a + b + c == a + (b + c)
  {
  }

  lemma AtLeast(d: int, v: nat)
    requires d >= 1
    ensures d * v >= v
  {
    assert (d - 1) * v >= 0;
  }

  lemma SameQuotient(q: int, k: int, v: nat, r: nat, s: nat)
    requires q * v + s == k * v + r && r < v && s < v
    ensures q == k
  {
    assert (q - k) * v == q * v - k * v;
    assert (k - q) * v == k * v - q * v;
    if q > k {
      AtLeast(q - k, v);
    } else if k > q {
      AtLeast(k - q, v);
    }
  }

  /** Quotient and remainder are unique. */
  lemma Quotient(a: nat, v: nat, k: nat, r: nat)
    requires a == k * v + r && r < v
    ensures a / v == k && a % v == r
  {
    SameQuotient(a / v, k, v, r, a % v);
  }

  /** An order without its list links; those live in the arena's nodes. */
  datatype Order = Order(
    id: nat,
    side: Side,
    price: nat,
    quantity: nat,
    filled: nat,
    orderType: OrderType,
    visible: nat,
    stp: nat)
  {
    function Remaining(): nat {
      SaturatingSub(quantity, filled)
    }
  }

  /** The quantity one fill may take: the current slice of an iceberg, all that remains otherwise. */
  function MatchableQty(o: Order): (q: nat)
    ensures q <= o.Remaining()
    ensures o.Remaining() > 0 ==> q > 0
  {
    if o.orderType.Iceberg? && o.visible > 0 then
      Min(o.visible - o.filled % o.visible, o.Remaining())
    else
      o.Remaining()
  }

  datatype PriceLevel = PriceLevel(total: nat, count: nat, head: Option<nat>, tail: Option<nat>)

  const EMPTY_LEVEL := PriceLevel(0, 0, None, None)

  datatype Event =
    | OrderAccepted(seqNo: nat, id: nat, side: Side, price: nat, qty: nat, orderType: OrderType)
    | OrderRejected(seqNo: nat, id: nat, reason: RejectReason)
    | Fill(seqNo: nat, maker: nat, taker: nat, price: nat, qty: nat, makerRemaining: nat, takerRemaining: nat)
    | OrderCancelled(seqNo: nat, id: nat, qty: nat)
    | OrderModified(seqNo: nat, id: nat, newPrice: nat, newQty: nat)
    | BookUpdate(seqNo: nat, side: Side, price: nat, qty: nat)
    | StopTriggered(seqNo: nat, id: nat)

  datatype Command =
    | NewOrder(
        id: u64,
        instrument: u32,
        side: Side,
        price: u64,
        qty: u64,
        orderType: OrderType,
        tif: TimeInForce,
        visible: Option<u64>,
        stopPrice: Option<u64>,
        stpGroup: Option<u32>)
    | CancelOrder(id: u64)
    | ModifyOrder(id: u64, newPrice: u64, newQty: u64)
}
