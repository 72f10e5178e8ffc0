/** Every run of book operations alone: the depth indexes are exact, so the depth
    queries are plain sums over levels, and exactly when an index update fails. */
module BookRuns {
  import opened Types
  import opened Depth
  import opened BookSpec
  import opened BookFacts
  import opened BookLedger

  datatype BookOp =
    | InsertOp(o: Order)
    | RemoveOp(id: nat)
    | ReduceOp(id: nat, delta: nat)
    | RecenterOp(base: nat)

  /** The index can give up `delta` of a resting order: otherwise the source panics. */
  predicate GivesUp(b: Book, id: nat, delta: nat) {
    && Resting(b, id) && delta <= Rest(b, id)
    && CanSub(b.base, b.ticks, b.Of(b.ids[id].side).index, b.ids[id].price, delta)
  }

  /** Every operation that does not panic. */
  predicate Legal(b: Book, op: BookOp) {
    match op
    case InsertOp(o) => o.price < U64_LIMIT
    case RemoveOp(id) => GivesUp(b, id, Rest(b, id))
    case ReduceOp(id, delta) => GivesUp(b, id, delta)
    case RecenterOp(_) => true
  }

  ghost function Apply(b: Book, op: BookOp): Book
    requires Legal(b, op)
  {
    match op
    case InsertOp(o) => Insert(b, o)
    case RemoveOp(id) => Remove(b, id)
    case ReduceOp(id, delta) => Reduce(b, id, delta)
    case RecenterOp(base) => Recenter(b, base)
  }

  ghost predicate LegalRun(b: Book, ops: seq<BookOp>)
    decreases |ops|
  {
    ops == [] || (Legal(b, ops[0]) && LegalRun(Apply(b, ops[0]), ops[1..]))
  }

  ghost function RunOps(b: Book, ops: seq<BookOp>): Book
    requires LegalRun(b, ops)
    decreases |ops|
  {
    if ops == [] then b else RunOps(Apply(b, ops[0]), ops[1..])
  }

  /** The index holds exactly the level totals. */
  ghost predicate Exact(b: Book) {
    forall pl {:trigger DriftAt(b, pl, 0)} :: DriftAt(b, pl, 0)
  }

  ghost predicate Tidy(b: Book) {
    Shape(b) && Exact(b)
  }

  lemma RecenterDrift(b: Book, base: nat, pl: Place)
    requires base == b.base ==> DriftAt(b, pl, 0)
    ensures DriftAt(Recenter(b, base), pl, 0)
  {
    if base != b.base {
      assert At(Totals(b.queues, pl.side), pl.price) == Total(QueueAt(b.queues, pl));
    }
  }

  lemma ApplyKeepsTidy(b: Book, op: BookOp)
    requires Tidy(b) && Legal(b, op)
    ensures Tidy(Apply(b, op))
  {
    match op
    case InsertOp(o) =>
      InsertKeepsShape(b, o);
      forall pl ensures DriftAt(Insert(b, o), pl, 0) {
        assert DriftAt(b, pl, 0);
        InsertDrift(b, o, pl, 0);
      }
    case RemoveOp(id) =>
      RemoveKeepsShape(b, id);
      forall pl ensures DriftAt(Remove(b, id), pl, 0) {
        assert DriftAt(b, pl, 0);
        RemoveDrift(b, id, pl, 0);
      }
    case ReduceOp(id, delta) =>
      ReduceKeepsShape(b, id, delta);
      forall pl ensures DriftAt(Reduce(b, id, delta), pl, 0) {
        assert DriftAt(b, pl, 0);
        ReduceDrift(b, id, delta, pl, 0);
      }
    case RecenterOp(base) =>
      RecenterKeepsShape(b, base);
      forall pl ensures DriftAt(Recenter(b, base), pl, 0) {
        assert DriftAt(b, pl, 0);
        RecenterDrift(b, base, pl);
      }
  }

  lemma {:induction false} RunKeepsTidy(b: Book, ops: seq<BookOp>)
    requires Tidy(b) && LegalRun(b, ops)
    ensures Tidy(RunOps(b, ops))
    decreases |ops|
  {
    if ops != [] {
      ApplyKeepsTidy(b, ops[0]);
      RunKeepsTidy(Apply(b, ops[0]), ops[1..]);
    }
  }

  /** The plain sum of one side's level totals at the prices of `[lo, hi)`. */
  function LevelSum(queues: Queues, side: Side, lo: nat, hi: nat): nat
    decreases hi - lo
  {
    if hi <= lo then 0 else LevelSum(queues, side, lo, hi - 1) + Total(QueueAt(queues, Place(side, hi - 1)))
  }

  lemma {:induction false} ExactSum(b: Book, side: Side, lo: nat, hi: nat)
    requires forall p: nat {:trigger DriftAt(b, Place(side, p), 0)} :: lo <= p < hi ==> DriftAt(b, Place(side, p), 0)
    ensures SumRange(b.Of(side).index, lo, hi) == LevelSum(b.queues, side, lo, hi)
    decreases hi - lo
  {
    if lo < hi {
      ExactSum(b, side, lo, hi - 1);
      assert DriftAt(b, Place(side, hi - 1), 0);
    }
  }

  /** After any run of insertions, removals, reductions and recenterings the depth queries are the plain
      sums of the levels on the right side of the price, wherever the window is. */
  lemma DepthQueriesAreSums(base: nat, ticks: nat, room: nat, ops: seq<BookOp>, p: nat)
    requires LegalRun(Empty(base, ticks, room), ops)
    ensures var b := RunOps(Empty(base, ticks, room), ops);
            && AskAvailable(b, p) == LevelSum(b.queues, Ask, 0, p + 1)
            && BidAvailable(b, p) == LevelSum(b.queues, Bid, p, U64_LIMIT)
  {
    var start := Empty(base, ticks, room);
    forall pl ensures DriftAt(start, pl, 0) {
    }
    RunKeepsTidy(start, ops);
    var b := RunOps(start, ops);
    ExactSum(b, Ask, 0, p + 1);
    ExactSum(b, Bid, p, U64_LIMIT);
  }

  /** Whatever has drifted at a level: the index gives up any part of an order there, except exactly that an order with nothing
      left, outside the window, may find its price gone. */
  lemma IndexUpdatesSucceed(b: Book, id: nat, delta: nat, drift: nat)
    requires Shape(b) && id in b.ids && DriftAt(b, b.ids[id], drift) && delta <= Rest(b, id)
    ensures GivesUp(b, id, delta) <==> Removable(b, id)
  {
    RestInTotal(b, id);
    RestingOrder(b, id);
  }

  /** The order has something left, or rests in the window, or its price is indexed. */
  predicate Removable(b: Book, id: nat)
    requires id in b.ids
  {
    var pl := b.ids[id];
    Rest(b, id) > 0 || b.base <= pl.price < b.base + b.ticks || pl.price in b.Of(pl.side).index
  }
}
