/** The pre-allocated order arena: slots, and a free list threaded through the
    slots that are not in use. */
module Arenas {
  import opened Types

  /** An arena slot: an order and its links in the FIFO queue of its level. */
  datatype Node = Node(order: Order, prev: nat, next: nat)

  const FREE_LIST_END: nat := U32_LIMIT - 1
  const NO_NODE := Node(Order(0, Bid, 0, 0, 0, Limit, 0, 0), ARENA_NULL, ARENA_NULL)

  function HeadOf(free: seq<nat>): nat {
    if free == [] then FREE_LIST_END else free[0]
  }

  /** The `k`th free slot is threaded to the next one. */
  predicate ThreadAt(nextFree: seq<nat>, free: seq<nat>, k: nat)
    requires k < |free| && free[k] < |nextFree|
  {
    nextFree[free[k]] == HeadOf(free[k + 1..])
  }

  /** `nextFree` threads exactly the slots of `free`, in that order and without repetition. */
  ghost predicate Threads(nextFree: seq<nat>, free: seq<nat>) {
    && (forall k :: 0 <= k < |free| ==> free[k] < |nextFree|)
    && (forall k :: 0 <= k < |free| ==> ThreadAt(nextFree, free, k))
    && forall i, j :: 0 <= i < j < |free| ==> free[i] != free[j]
  }

  class Arena {
    var data: seq<Node>
    var nextFree: seq<nat>
    var freeHead: nat
    var len: nat
    const capacity: nat
    /** The free slots in the order in which they will be handed out. */
    ghost var free: seq<nat>

    ghost predicate Valid()
      reads this
    {
      && |data| == |nextFree| == capacity <= FREE_LIST_END
      && Threads(nextFree, free)
      && freeHead == HeadOf(free)
      && len + |free| == capacity
    }

    /** A slot is live when it is in the arena and not on the free list. */
    ghost predicate Live(i: nat)
      reads this
    {
      i < capacity && i !in free
    }

    constructor (capacity: nat)
      requires capacity <= FREE_LIST_END
      ensures Valid() && this.capacity == capacity
      ensures |free| == capacity && forall i :: !Live(i)
    {
      this.capacity := capacity;
      var next := [];
      for i := 0 to capacity
        invariant |next| == i
        invariant forall k :: 0 <= k < i ==> next[k] == if k + 1 < capacity then k + 1 else FREE_LIST_END
      {
        next := next + [if i + 1 < capacity then i + 1 else FREE_LIST_END];
      }
      nextFree := next;
      data := seq(capacity, _ => NO_NODE);
      freeHead := if capacity > 0 then 0 else FREE_LIST_END;
      len := 0;
      free := seq(capacity, i => i);
      new;
      forall i: nat | i < capacity ensures i in free {
        assert free[i] == i;
      }
      forall k | 0 <= k < |free| ensures ThreadAt(nextFree, free, k) {
      }
    }

    /** Take the first free slot; refuse when there is none. */
    method Alloc(node: Node) returns (r: Option<nat>)
      requires Valid()
      modifies this
      ensures Valid()
      ensures r.None? <==> old(free) == []
      ensures r.None? ==> free == old(free) && data == old(data)
      ensures r.Some? ==> r.value == old(free)[0] && free == old(free)[1..] && data == old(data)[r.value := node]
    {
      if freeHead == FREE_LIST_END {
        return None;
      }
      var idx := freeHead;
      assert ThreadAt(nextFree, free, 0);
      freeHead := nextFree[idx];
      data := data[idx := node];
      len := len + 1;
      free := free[1..];
      forall k | 0 <= k < |free| ensures ThreadAt(nextFree, free, k) {
        assert ThreadAt(nextFree, old(free), k + 1);
        assert old(free)[k + 2..] == free[k + 1..];
      }
      r := Some(idx);
    }

    method Free(idx: nat)
      requires Valid() && Live(idx)
      modifies this
      ensures Valid() && free == [idx] + old(free) && data == old(data)
    {
      assert len > 0 by {
        if len == 0 {
          AllFree(free, idx, capacity);
        }
      }
      nextFree := nextFree[idx := freeHead];
      freeHead := idx;
      len := len - 1;
      free := [idx] + free;
      forall k | 0 <= k < |free| ensures free[k] < |nextFree| && ThreadAt(nextFree, free, k) {
        if k > 0 {
          assert ThreadAt(old(nextFree), old(free), k - 1);
        }
        assert free[k + 1..] == old(free)[k..];
      }
    }

    function Get(idx: nat): Node
      requires Valid() && Live(idx)
      reads this
    {
      data[idx]
    }

    method Put(idx: nat, node: Node)
      requires Valid() && Live(idx)
      modifies this`data
      ensures Valid() && data == old(data)[idx := node]
    {
      data := data[idx := node];
    }
  }

  /** Distinct slots below `n` that leave one out are fewer than `n`. */
  lemma AllFree(free: seq<nat>, idx: nat, n: nat)
    requires forall i, j :: 0 <= i < j < |free| ==> free[i] != free[j]
    requires forall k :: 0 <= k < |free| ==> free[k] < n
    requires idx < n && idx !in free
    ensures |free| < n
  {
    var s := set k | k in free;
    SetSize(free, s);
    SubsetSize(s + {idx}, Below(n));
  }

  lemma {:induction false} SetSize(q: seq<nat>, s: set<nat>)
    requires forall i, j :: 0 <= i < j < |q| ==> q[i] != q[j]
    requires s == set k | k in q
    ensures |s| == |q|
  {
    if q != [] {
      var rest := set k | k in q[1..];
      SetSize(q[1..], rest);
      assert s == rest + {q[0]};
    }
  }

  ghost function Below(n: nat): (s: set<nat>)
    ensures |s| == n
    ensures forall k: nat :: k in s <==> k < n
  {
    if n == 0 then {} else Below(n - 1) + {n - 1}
  }

  lemma {:induction false} SubsetSize(s: set<nat>, t: set<nat>)
    requires s <= t
    ensures |s| <= |t|
  {
    if s != {} {
      var x :| x in s;
      SubsetSize(s - {x}, t - {x});
    }
  }
}
