/** How arena slots, chains and the id lookup together store the queues of a book. */
module Storage {
  import opened Types
  import opened BookSpec
  import opened Arenas
  import opened Chains
  import opened BookFacts

  /** The slots of each queue, in queue order. */
  type Slots = map<Place, seq<nat>>

  function SlotsAt(chains: Slots, pl: Place): seq<nat> {
    if pl in chains then chains[pl] else []
  }

  /** The chain stores the queue: it spells it, its slots are in use, and the id lookup finds each of them. */
  ghost predicate ChainOk(nodes: seq<Node>, free: seq<nat>, lookup: map<nat, nat>, q: seq<nat>, os: seq<Order>) {
    && Linked(nodes, q) && SpellsOrders(nodes, q, os)
    && (forall k :: 0 <= k < |q| ==> q[k] !in free)
    && forall k :: 0 <= k < |os| ==> os[k].id in lookup && lookup[os[k].id] == q[k]
  }

  ghost predicate ChainsOk(nodes: seq<Node>, free: seq<nat>, lookup: map<nat, nat>, chains: Slots, queues: Queues) {
    && chains.Keys == queues.Keys
    && forall pl {:trigger ChainOk(nodes, free, lookup, chains[pl], queues[pl])} ::
         pl in chains ==> ChainOk(nodes, free, lookup, chains[pl], queues[pl])
  }

  /** The slot is the one that the lookup gives for its order's id. */
  predicate SlotOk(nodes: seq<Node>, lookup: map<nat, nat>, i: nat)
    requires i < |nodes|
  {
    nodes[i].order.id in lookup && lookup[nodes[i].order.id] == i
  }

  /** Every slot in use is the slot of some id. */
  ghost predicate SlotsOk(nodes: seq<Node>, free: seq<nat>, lookup: map<nat, nat>) {
    && |nodes| <= ARENA_NULL
    && (forall i: nat {:trigger SlotOk(nodes, lookup, i)} :: i < |nodes| && i !in free ==> SlotOk(nodes, lookup, i))
    && (forall k :: 0 <= k < |free| ==> free[k] < |nodes|)
    && forall i, j :: 0 <= i < j < |free| ==> free[i] != free[j]
  }

  ghost predicate Stores(nodes: seq<Node>, free: seq<nat>, lookup: map<nat, nat>, chains: Slots, queues: Queues) {
    && ChainsOk(nodes, free, lookup, chains, queues)
    && SlotsOk(nodes, free, lookup)
  }

  /** Chains of different places share no slot, because a slot's order names its place. */
  lemma ChainsApart(nodes: seq<Node>, free: seq<nat>, lookup: map<nat, nat>, chains: Slots, queues: Queues,
                    ids: map<nat, Place>, pl: Place, other: Place)
    requires ChainsOk(nodes, free, lookup, chains, queues) && QueuesOk(queues, ids)
    requires pl in chains && other in chains && pl != other
    ensures forall i, j :: 0 <= i < |chains[pl]| && 0 <= j < |chains[other]| ==> chains[pl][i] != chains[other][j]
  {
    assert QueueOk(pl, queues[pl], ids) && QueueOk(other, queues[other], ids);
    assert ChainOk(nodes, free, lookup, chains[pl], queues[pl]);
    assert ChainOk(nodes, free, lookup, chains[other], queues[other]);
    forall i, j | 0 <= i < |chains[pl]| && 0 <= j < |chains[other]| ensures chains[pl][i] != chains[other][j] {
      assert nodes[chains[pl][i]].order == queues[pl][i];
      assert nodes[chains[other][j]].order == queues[other][j];
    }
  }

  /** The slot that the lookup gives for an id holds that id's order, at its position in its chain. */
  lemma LookupFinds(nodes: seq<Node>, free: seq<nat>, lookup: map<nat, nat>, chains: Slots, queues: Queues, pl: Place, id: nat)
    requires Stores(nodes, free, lookup, chains, queues) && Holds(queues, pl, id)
    ensures pl in chains && id in lookup
    ensures var k := PositionOf(queues[pl], id);
            && k < |chains[pl]| == |queues[pl]| && chains[pl][k] == lookup[id]
            && lookup[id] < |nodes| && lookup[id] !in free && nodes[lookup[id]].order == queues[pl][k]
  {
    assert ChainOk(nodes, free, lookup, chains[pl], queues[pl]);
    var k := PositionOf(queues[pl], id);
    assert queues[pl][k].id == id;
  }

  /** The slots in use are exactly the slots of linked orders. */
  lemma LiveSlotsAreLinked(nodes: seq<Node>, free: seq<nat>, lookup: map<nat, nat>, chains: Slots, b: Book, i: nat)
    requires Stores(nodes, free, lookup, chains, b.queues) && Shape(b) && lookup.Keys == b.ids.Keys && i < |nodes|
    ensures i !in free <==> exists pl :: pl in chains && i in chains[pl]
  {
    if i !in free {
      var id := nodes[i].order.id;
      assert SlotOk(nodes, lookup, i);
      assert id in lookup.Keys;
      LookupFinds(nodes, free, lookup, chains, b.queues, b.ids[id], id);
      assert i in chains[b.ids[id]];
    }
    if pl :| pl in chains && i in chains[pl] {
      assert ChainOk(nodes, free, lookup, chains[pl], b.queues[pl]);
    }
  }

  /** A chain whose slots and lookups are left alone stays as it was. */
  lemma ChainKept(nodes: seq<Node>, nodes': seq<Node>, free: seq<nat>, free': seq<nat>,
                  lookup: map<nat, nat>, lookup': map<nat, nat>, q: seq<nat>, os: seq<Order>)
    requires ChainOk(nodes, free, lookup, q, os) && Untouched(nodes, nodes', q)
    requires forall k :: 0 <= k < |q| ==> q[k] !in free'
    requires forall k :: 0 <= k < |os| ==> os[k].id in lookup' && lookup'[os[k].id] == lookup[os[k].id]
    ensures ChainOk(nodes', free', lookup', q, os)
  {
    UntouchedStays(nodes, nodes', q, os);
  }

  /* ---- Insertion ---- */

  lemma InsertChain(nodes: seq<Node>, free: seq<nat>, lookup: map<nat, nat>, q: seq<nat>, os: seq<Order>, o: Order)
    requires ChainOk(nodes, free, lookup, q, os) && SlotsOk(nodes, free, lookup) && free != [] && o.id !in lookup
    ensures ChainOk(Appended(nodes, q, free[0], o), free[1..], lookup[o.id := free[0]], q + [free[0]], os + [o])
  {
    AppendLinks(nodes, q, os, free[0], o);
  }

  lemma InsertOther(nodes: seq<Node>, free: seq<nat>, lookup: map<nat, nat>, q: seq<nat>, o: Order, r: seq<nat>, os: seq<Order>)
    requires ChainOk(nodes, free, lookup, r, os) && SlotsOk(nodes, free, lookup) && free != [] && o.id !in lookup
    requires q != [] ==> q[|q| - 1] < |nodes|
    requires forall i, j :: 0 <= i < |q| && 0 <= j < |r| ==> q[i] != r[j]
    ensures ChainOk(Appended(nodes, q, free[0], o), free[1..], lookup[o.id := free[0]], r, os)
  {
    AppendFrame(nodes, q, free[0], o, r);
    ChainKept(nodes, Appended(nodes, q, free[0], o), free, free[1..], lookup, lookup[o.id := free[0]], r, os);
  }

  lemma InsertSlots(nodes: seq<Node>, free: seq<nat>, lookup: map<nat, nat>, q: seq<nat>, o: Order)
    requires SlotsOk(nodes, free, lookup) && free != [] && o.id !in lookup
    requires q != [] ==> q[|q| - 1] < |nodes| && q[|q| - 1] !in free
    ensures SlotsOk(Appended(nodes, q, free[0], o), free[1..], lookup[o.id := free[0]])
  {
    var nodes' := Appended(nodes, q, free[0], o);
    forall i: nat | i < |nodes'| && i !in free[1..]
      ensures SlotOk(nodes', lookup[o.id := free[0]], i)
    {
      if i != free[0] {
        assert i !in free && SlotOk(nodes, lookup, i);
        assert nodes'[i].order == nodes[i].order;
      }
    }
  }

  lemma InsertStores(nodes: seq<Node>, free: seq<nat>, lookup: map<nat, nat>, chains: Slots, queues: Queues,
                     ids: map<nat, Place>, o: Order)
    requires Stores(nodes, free, lookup, chains, queues) && QueuesOk(queues, ids) && free != [] && o.id !in lookup
    ensures free[0] < |nodes|
    ensures var pl := Place(o.side, o.price);
            var q := SlotsAt(chains, pl);
            && (q != [] ==> q[|q| - 1] < |nodes|)
            && Stores(Appended(nodes, q, free[0], o), free[1..], lookup[o.id := free[0]],
                      chains[pl := q + [free[0]]], queues[pl := QueueAt(queues, pl) + [o]])
  {
    var pl := Place(o.side, o.price);
    var q := SlotsAt(chains, pl);
    assert ChainOk(nodes, free, lookup, q, QueueAt(queues, pl));
    InsertChain(nodes, free, lookup, q, QueueAt(queues, pl), o);
    InsertSlots(nodes, free, lookup, q, o);
    forall other | other in chains && other != pl
      ensures ChainOk(Appended(nodes, q, free[0], o), free[1..], lookup[o.id := free[0]], chains[other], queues[other])
    {
      if pl in chains {
        ChainsApart(nodes, free, lookup, chains, queues, ids, pl, other);
      }
      InsertOther(nodes, free, lookup, q, o, chains[other], queues[other]);
    }
  }

  /* ---- Removal ---- */

  /** The slot is hooked to slots of the arena or to nothing. */
  predicate Hooked(nodes: seq<Node>, idx: nat) {
    && idx < |nodes|
    && (nodes[idx].prev != ARENA_NULL ==> nodes[idx].prev < |nodes|)
    && (nodes[idx].next != ARENA_NULL ==> nodes[idx].next < |nodes|)
  }

  /** The chains with `q` at `pl`; an empty chain is none. */
  function Rechain(chains: Slots, pl: Place, q: seq<nat>): Slots {
    if q == [] then chains - {pl} else chains[pl := q]
  }

  lemma RemoveChain(nodes: seq<Node>, free: seq<nat>, lookup: map<nat, nat>, q: seq<nat>, os: seq<Order>, k: nat)
    requires ChainOk(nodes, free, lookup, q, os) && k < |q| && |nodes| <= ARENA_NULL
    requires forall i, j :: 0 <= i < j < |os| ==> os[i].id != os[j].id
    ensures Hooked(nodes, q[k])
    ensures ChainOk(Unhooked(nodes, q[k]), [q[k]] + free, lookup - {os[k].id}, Without(q, k), Without(os, k))
  {
    UnhookLinks(nodes, q, os, k);
    var q', os' := Without(q, k), Without(os, k);
    forall i | 0 <= i < |q'|
      ensures q'[i] !in [q[k]] + free && os'[i].id in lookup - {os[k].id} && lookup[os'[i].id] == q'[i]
    {
      var x := if i < k then i else i + 1;
      assert q'[i] == q[x] && os'[i] == os[x];
    }
  }

  lemma RemoveOther(nodes: seq<Node>, free: seq<nat>, lookup: map<nat, nat>, q: seq<nat>, k: nat, id: nat, r: seq<nat>, os: seq<Order>)
    requires ChainOk(nodes, free, lookup, r, os) && Linked(nodes, q) && k < |q| && |nodes| <= ARENA_NULL && Hooked(nodes, q[k])
    requires forall i, j :: 0 <= i < |q| && 0 <= j < |r| ==> q[i] != r[j]
    requires id in lookup && lookup[id] == q[k]
    ensures ChainOk(Unhooked(nodes, q[k]), [q[k]] + free, lookup - {id}, r, os)
  {
    UnhookFrame(nodes, q, k, r);
    forall j | 0 <= j < |r| ensures r[j] !in [q[k]] + free && os[j].id != id {
      assert r[j] != q[k];
      assert lookup[os[j].id] == r[j];
    }
    ChainKept(nodes, Unhooked(nodes, q[k]), free, [q[k]] + free, lookup, lookup - {id}, r, os);
  }

  lemma RemoveSlots(nodes: seq<Node>, free: seq<nat>, lookup: map<nat, nat>, idx: nat, id: nat)
    requires SlotsOk(nodes, free, lookup) && Hooked(nodes, idx) && idx !in free
    requires nodes[idx].order.id == id
    ensures SlotsOk(Unhooked(nodes, idx), [idx] + free, lookup - {id})
  {
    var nodes', free' := Unhooked(nodes, idx), [idx] + free;
    forall i: nat | i < |nodes'| && i !in free'
      ensures SlotOk(nodes', lookup - {id}, i)
    {
      assert nodes'[i].order == nodes[i].order;
      assert i != free'[0];
      assert i !in free && SlotOk(nodes, lookup, i);
      assert SlotOk(nodes, lookup, idx);
    }
  }

  lemma RemoveStores(nodes: seq<Node>, free: seq<nat>, lookup: map<nat, nat>, chains: Slots, queues: Queues,
                     ids: map<nat, Place>, pl: Place, k: nat)
    requires Stores(nodes, free, lookup, chains, queues) && QueuesOk(queues, ids)
    requires pl in queues && k < |queues[pl]|
    ensures pl in chains && |chains[pl]| == |queues[pl]| && Hooked(nodes, chains[pl][k])
    ensures var idx := chains[pl][k];
            Stores(Unhooked(nodes, idx), [idx] + free, lookup - {queues[pl][k].id},
                   Rechain(chains, pl, Without(chains[pl], k)), Requeue(queues, pl, Without(queues[pl], k)))
  {
    var q, os := chains[pl], queues[pl];
    var id := os[k].id;
    assert ChainOk(nodes, free, lookup, q, os);
    assert QueueOk(pl, os, ids);
    RemoveChain(nodes, free, lookup, q, os, k);
    RemoveSlots(nodes, free, lookup, q[k], id);
    forall other | other in chains && other != pl
      ensures ChainOk(Unhooked(nodes, q[k]), [q[k]] + free, lookup - {id}, chains[other], queues[other])
    {
      ChainsApart(nodes, free, lookup, chains, queues, ids, pl, other);
      RemoveOther(nodes, free, lookup, q, k, id, chains[other], queues[other]);
    }
  }

  /* ---- Fills ---- */

  function FilledNode(nodes: seq<Node>, idx: nat, delta: nat): seq<Node>
    requires idx < |nodes|
  {
    var o := nodes[idx].order;
    nodes[idx := nodes[idx].(order := o.(filled := o.filled + delta))]
  }

  lemma FillChain(nodes: seq<Node>, free: seq<nat>, lookup: map<nat, nat>, q: seq<nat>, os: seq<Order>, k: nat, delta: nat)
    requires ChainOk(nodes, free, lookup, q, os) && k < |q|
    ensures ChainOk(FilledNode(nodes, q[k], delta), free, lookup, q, Filled(os, k, delta))
  {
    RewriteOrder(nodes, q, os, k, os[k].(filled := os[k].filled + delta));
    assert forall i :: 0 <= i < |os| ==> Filled(os, k, delta)[i].id == os[i].id;
  }

  lemma FillSlots(nodes: seq<Node>, free: seq<nat>, lookup: map<nat, nat>, idx: nat, delta: nat)
    requires SlotsOk(nodes, free, lookup) && idx < |nodes|
    ensures SlotsOk(FilledNode(nodes, idx, delta), free, lookup)
  {
    var nodes' := FilledNode(nodes, idx, delta);
    forall i: nat | i < |nodes'| && i !in free
      ensures SlotOk(nodes', lookup, i)
    {
      assert SlotOk(nodes, lookup, i);
    }
  }

  /** Rewriting how much of one order is filled stores the queues with that order filled. */
  lemma FillStores(nodes: seq<Node>, free: seq<nat>, lookup: map<nat, nat>, chains: Slots, queues: Queues,
                   ids: map<nat, Place>, pl: Place, k: nat, delta: nat)
    requires Stores(nodes, free, lookup, chains, queues) && QueuesOk(queues, ids)
    requires pl in queues && k < |queues[pl]|
    ensures pl in chains && k < |chains[pl]| && chains[pl][k] < |nodes|
    ensures Stores(FilledNode(nodes, chains[pl][k], delta), free, lookup, chains, queues[pl := Filled(queues[pl], k, delta)])
  {
    var q := chains[pl];
    assert ChainOk(nodes, free, lookup, q, queues[pl]);
    var nodes' := FilledNode(nodes, q[k], delta);
    FillChain(nodes, free, lookup, q, queues[pl], k, delta);
    FillSlots(nodes, free, lookup, q[k], delta);
    forall other | other in chains && other != pl ensures ChainOk(nodes', free, lookup, chains[other], queues[other]) {
      ChainsApart(nodes, free, lookup, chains, queues, ids, pl, other);
      ChainKept(nodes, nodes', free, free, lookup, lookup, chains[other], queues[other]);
    }
  }

  /* ---- The whole book ---- */

  /** The slots, the free list, the lookup and the chains store the book `b`. */
  ghost predicate StoresBook(nodes: seq<Node>, free: seq<nat>, lookup: map<nat, nat>, chains: Slots, b: Book) {
    && Shape(b)
    && b.room == |free|
    && lookup.Keys == b.ids.Keys
    && Stores(nodes, free, lookup, chains, b.queues)
  }

  lemma InsertStoresBook(nodes: seq<Node>, free: seq<nat>, lookup: map<nat, nat>, chains: Slots, b: Book, o: Order)
    requires StoresBook(nodes, free, lookup, chains, b) && !Refuses(b, o.id) && o.price < U64_LIMIT
    ensures free != [] && free[0] < |nodes|
    ensures var pl := Place(o.side, o.price);
            var q := SlotsAt(chains, pl);
            && (q != [] ==> q[|q| - 1] < |nodes|)
            && StoresBook(Appended(nodes, q, free[0], o), free[1..], lookup[o.id := free[0]],
                          chains[pl := q + [free[0]]], Insert(b, o))
  {
    assert o.id !in lookup.Keys;
    InsertStores(nodes, free, lookup, chains, b.queues, b.ids, o);
    InsertKeepsShape(b, o);
  }

  lemma RemoveStoresBook(nodes: seq<Node>, free: seq<nat>, lookup: map<nat, nat>, chains: Slots, b: Book, id: nat)
    requires StoresBook(nodes, free, lookup, chains, b) && id in b.ids
    ensures Resting(b, id) && id in lookup && b.ids[id] in chains && Hooked(nodes, lookup[id])
    ensures var pl := b.ids[id];
            var k := PositionOf(b.queues[pl], id);
            && k < |chains[pl]|
            && StoresBook(Unhooked(nodes, lookup[id]), [lookup[id]] + free, lookup - {id},
                          Rechain(chains, pl, Without(chains[pl], k)), Remove(b, id))
  {
    RemoveKeepsShape(b, id);
    RemoveStoresId(nodes, free, lookup, chains, b.queues, b.ids, id);
    KeysDrop(lookup, b.ids, id);
  }

  lemma KeysDrop(lookup: map<nat, nat>, ids: map<nat, Place>, id: nat)
    requires lookup.Keys == ids.Keys
    ensures (lookup - {id}).Keys == (ids - {id}).Keys
  {
  }

  lemma RemoveStoresId(nodes: seq<Node>, free: seq<nat>, lookup: map<nat, nat>, chains: Slots, queues: Queues,
                       ids: map<nat, Place>, id: nat)
    requires Stores(nodes, free, lookup, chains, queues) && QueuesOk(queues, ids)
    requires id in ids && Holds(queues, ids[id], id)
    ensures id in lookup && ids[id] in chains && Hooked(nodes, lookup[id])
    ensures var pl := ids[id];
            var k := PositionOf(queues[pl], id);
            && k < |chains[pl]|
            && Stores(Unhooked(nodes, lookup[id]), [lookup[id]] + free, lookup - {id},
                      Rechain(chains, pl, Without(chains[pl], k)), Requeue(queues, pl, Without(queues[pl], k)))
  {
    LookupFinds(nodes, free, lookup, chains, queues, ids[id], id);
    RemoveStores(nodes, free, lookup, chains, queues, ids, ids[id], PositionOf(queues[ids[id]], id));
  }

  lemma FillStoresBook(nodes: seq<Node>, free: seq<nat>, lookup: map<nat, nat>, chains: Slots, b: Book, id: nat, delta: nat)
    requires StoresBook(nodes, free, lookup, chains, b) && id in b.ids
    ensures Resting(b, id) && id in lookup && lookup[id] < |nodes|
    ensures StoresBook(FilledNode(nodes, lookup[id], delta), free, lookup, chains, FillOrder(b, id, delta))
  {
    var pl := b.ids[id];
    FillKeepsShape(b, id, delta);
    LookupFinds(nodes, free, lookup, chains, b.queues, pl, id);
    FillStores(nodes, free, lookup, chains, b.queues, b.ids, pl, PositionOf(b.queues[pl], id), delta);
  }

  lemma ReduceStoresBook(nodes: seq<Node>, free: seq<nat>, lookup: map<nat, nat>, chains: Slots, b: Book, id: nat, delta: nat)
    requires StoresBook(nodes, free, lookup, chains, b) && id in b.ids
    ensures Resting(b, id) && id in lookup && lookup[id] < |nodes|
    ensures StoresBook(FilledNode(nodes, lookup[id], delta), free, lookup, chains, Reduce(b, id, delta))
  {
    FillStoresBook(nodes, free, lookup, chains, b, id, delta);
    ReduceKeepsShape(b, id, delta);
  }

  lemma RecenterStoresBook(nodes: seq<Node>, free: seq<nat>, lookup: map<nat, nat>, chains: Slots, b: Book, base: nat)
    requires StoresBook(nodes, free, lookup, chains, b)
    ensures StoresBook(nodes, free, lookup, chains, Recenter(b, base))
  {
    RecenterKeepsShape(b, base);
  }
}
