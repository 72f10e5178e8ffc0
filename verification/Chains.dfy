/** The FIFO queues as they are stored: doubly linked lists threaded through
    arena slots by index. */
module Chains {
  import opened Types
  import opened BookSpec
  import opened Arenas

  function PrevOf(q: seq<nat>, k: nat): nat
    requires k < |q|
  {
    if k == 0 then ARENA_NULL else q[k - 1]
  }

  function NextOf(q: seq<nat>, k: nat): nat
    requires k < |q|
  {
    if k == |q| - 1 then ARENA_NULL else q[k + 1]
  }

  /** The slot at position `k` is linked to its neighbours in the chain. */
  predicate LinkAt(nodes: seq<Node>, q: seq<nat>, k: nat)
    requires k < |q| && q[k] < |nodes|
  {
    nodes[q[k]].prev == PrevOf(q, k) && nodes[q[k]].next == NextOf(q, k)
  }

  /** The slots of `q` are distinct and linked to each other in both directions, in that order. */
  ghost predicate Linked(nodes: seq<Node>, q: seq<nat>) {
    && (forall k :: 0 <= k < |q| ==> q[k] < |nodes|)
    && (forall k :: 0 <= k < |q| ==> LinkAt(nodes, q, k))
    && forall i, j :: 0 <= i < j < |q| ==> q[i] != q[j]
  }

  /** The orders along a chain spell the queue `os`. */
  ghost predicate SpellsOrders(nodes: seq<Node>, q: seq<nat>, os: seq<Order>) {
    && |q| == |os|
    && forall k :: 0 <= k < |q| ==> q[k] < |nodes| && nodes[q[k]].order == os[k]
  }

  /** No slot of the chain changed. */
  ghost predicate Untouched(nodes: seq<Node>, nodes': seq<Node>, q: seq<nat>) {
    && |nodes| == |nodes'|
    && forall k :: 0 <= k < |q| ==> q[k] < |nodes| && nodes'[q[k]] == nodes[q[k]]
  }

  lemma UntouchedStays(nodes: seq<Node>, nodes': seq<Node>, q: seq<nat>, os: seq<Order>)
    requires Linked(nodes, q) && SpellsOrders(nodes, q, os) && Untouched(nodes, nodes', q)
    ensures Linked(nodes', q) && SpellsOrders(nodes', q, os)
  {
    forall k | 0 <= k < |q| ensures q[k] < |nodes'| && LinkAt(nodes', q, k) {
      assert LinkAt(nodes, q, k);
    }
  }

  /** The slots after `idx` is written and hooked behind the tail of `q`. */
  function Appended(nodes: seq<Node>, q: seq<nat>, idx: nat, o: Order): seq<Node>
    requires idx < |nodes| && (q != [] ==> q[|q| - 1] < |nodes|)
  {
    var written := nodes[idx := Node(o, if q == [] then ARENA_NULL else q[|q| - 1], ARENA_NULL)];
    if q == [] then written
    else written[q[|q| - 1] := written[q[|q| - 1]].(next := idx)]
  }

  lemma AppendLinks(nodes: seq<Node>, q: seq<nat>, os: seq<Order>, idx: nat, o: Order)
    requires Linked(nodes, q) && SpellsOrders(nodes, q, os) && idx < |nodes| && idx !in q
    ensures Linked(Appended(nodes, q, idx, o), q + [idx])
    ensures SpellsOrders(Appended(nodes, q, idx, o), q + [idx], os + [o])
  {
    var nodes', q' := Appended(nodes, q, idx, o), q + [idx];
    forall k | 0 <= k < |q'|
      ensures q'[k] < |nodes'| && nodes'[q'[k]].order == (os + [o])[k] && LinkAt(nodes', q', k)
    {
      AppendAt(nodes, q, idx, o, k);
    }
  }

  lemma AppendAt(nodes: seq<Node>, q: seq<nat>, idx: nat, o: Order, k: nat)
    requires Linked(nodes, q) && idx < |nodes| && idx !in q && k <= |q|
    ensures var nodes', q' := Appended(nodes, q, idx, o), q + [idx];
            nodes'[q'[k]] == Node(if k == |q| then o else nodes[q[k]].order, PrevOf(q', k), NextOf(q', k))
  {
    if k < |q| {
      assert LinkAt(nodes, q, k);
      assert (q + [idx])[k] == q[k] && q[k] != idx;
      assert q[k] == q[|q| - 1] ==> k == |q| - 1;
    }
  }

  lemma AppendFrame(nodes: seq<Node>, q: seq<nat>, idx: nat, o: Order, r: seq<nat>)
    requires idx < |nodes| && (q != [] ==> q[|q| - 1] < |nodes|)
    requires idx !in r && (q != [] ==> q[|q| - 1] !in r)
    requires forall k :: 0 <= k < |r| ==> r[k] < |nodes|
    ensures Untouched(nodes, Appended(nodes, q, idx, o), r)
  {
  }

  /** The slots after the neighbours of `idx` are linked to each other. */
  function Unhooked(nodes: seq<Node>, idx: nat): seq<Node>
    requires idx < |nodes|
    requires nodes[idx].prev != ARENA_NULL ==> nodes[idx].prev < |nodes|
    requires nodes[idx].next != ARENA_NULL ==> nodes[idx].next < |nodes|
  {
    var prev, next := nodes[idx].prev, nodes[idx].next;
    var first := if prev != ARENA_NULL then nodes[prev := nodes[prev].(next := next)] else nodes;
    if next != ARENA_NULL then first[next := first[next].(prev := prev)] else first
  }

  lemma LinksInRange(nodes: seq<Node>, q: seq<nat>, k: nat)
    requires Linked(nodes, q) && k < |q| && |nodes| <= ARENA_NULL
    ensures nodes[q[k]].prev != ARENA_NULL <==> k > 0
    ensures nodes[q[k]].next != ARENA_NULL <==> k < |q| - 1
    ensures k > 0 ==> nodes[q[k]].prev == q[k - 1]
    ensures k < |q| - 1 ==> nodes[q[k]].next == q[k + 1]
  {
    assert LinkAt(nodes, q, k);
  }

  lemma UnhookLinks(nodes: seq<Node>, q: seq<nat>, os: seq<Order>, k: nat)
    requires Linked(nodes, q) && SpellsOrders(nodes, q, os) && k < |q| && |nodes| <= ARENA_NULL
    ensures nodes[q[k]].prev != ARENA_NULL ==> nodes[q[k]].prev < |nodes|
    ensures nodes[q[k]].next != ARENA_NULL ==> nodes[q[k]].next < |nodes|
    ensures Linked(Unhooked(nodes, q[k]), Without(q, k))
    ensures SpellsOrders(Unhooked(nodes, q[k]), Without(q, k), Without(os, k))
  {
    LinksInRange(nodes, q, k);
    var nodes', q', os' := Unhooked(nodes, q[k]), Without(q, k), Without(os, k);
    forall i | 0 <= i < |q'|
      ensures q'[i] < |nodes'| && nodes'[q'[i]].order == os'[i] && LinkAt(nodes', q', i)
    {
      UnhookAt(nodes, q, k, i);
    }
  }

  lemma UnhookAt(nodes: seq<Node>, q: seq<nat>, k: nat, i: nat)
    requires Linked(nodes, q) && k < |q| && i < |q| - 1 && |nodes| <= ARENA_NULL
    requires nodes[q[k]].prev != ARENA_NULL ==> nodes[q[k]].prev < |nodes|
    requires nodes[q[k]].next != ARENA_NULL ==> nodes[q[k]].next < |nodes|
    ensures var nodes', q' := Unhooked(nodes, q[k]), Without(q, k);
            && q'[i] == q[if i < k then i else i + 1]
            && nodes'[q'[i]] == Node(nodes[q'[i]].order, PrevOf(q', i), NextOf(q', i))
  {
    LinksInRange(nodes, q, k);
    var q' := Without(q, k);
    var x := if i < k then i else i + 1;
    assert q'[i] == q[x];
    if i > 0 {
      assert q'[i - 1] == q[if i - 1 < k then i - 1 else i];
    }
    if i < |q'| - 1 {
      assert q'[i + 1] == q[if i + 1 < k then i + 1 else i + 2];
    }
    assert LinkAt(nodes, q, x);
    UnhookedSlot(nodes, q, k, x);
  }

  /** Unhooking rewrites the two neighbours and nothing else. */
  lemma UnhookedSlot(nodes: seq<Node>, q: seq<nat>, k: nat, x: nat)
    requires Linked(nodes, q) && k < |q| && x < |q| && x != k && |nodes| <= ARENA_NULL
    requires nodes[q[k]].prev != ARENA_NULL ==> nodes[q[k]].prev < |nodes|
    requires nodes[q[k]].next != ARENA_NULL ==> nodes[q[k]].next < |nodes|
    ensures Unhooked(nodes, q[k])[q[x]] == Node(
              nodes[q[x]].order,
              if x == k + 1 then nodes[q[k]].prev else nodes[q[x]].prev,
              if x + 1 == k then nodes[q[k]].next else nodes[q[x]].next)
  {
    LinksInRange(nodes, q, k);
    assert k > 0 && q[x] == q[k - 1] ==> x == k - 1;
    assert k < |q| - 1 && q[x] == q[k + 1] ==> x == k + 1;
  }

  lemma UnhookFrame(nodes: seq<Node>, q: seq<nat>, k: nat, r: seq<nat>)
    requires Linked(nodes, q) && k < |q| && |nodes| <= ARENA_NULL
    requires forall i, j :: 0 <= i < |q| && 0 <= j < |r| ==> q[i] != r[j]
    requires forall j :: 0 <= j < |r| ==> r[j] < |nodes|
    ensures nodes[q[k]].prev != ARENA_NULL ==> nodes[q[k]].prev < |nodes|
    ensures nodes[q[k]].next != ARENA_NULL ==> nodes[q[k]].next < |nodes|
    ensures Untouched(nodes, Unhooked(nodes, q[k]), r)
  {
    LinksInRange(nodes, q, k);
  }

  /** Rewriting the order in a slot leaves every link alone. */
  lemma RewriteOrder(nodes: seq<Node>, q: seq<nat>, os: seq<Order>, k: nat, o: Order)
    requires Linked(nodes, q) && SpellsOrders(nodes, q, os) && k < |q|
    ensures var nodes' := nodes[q[k] := nodes[q[k]].(order := o)];
            Linked(nodes', q) && SpellsOrders(nodes', q, os[k := o])
  {
    var nodes' := nodes[q[k] := nodes[q[k]].(order := o)];
    forall i | 0 <= i < |q| ensures LinkAt(nodes', q, i) && nodes'[q[i]].order == os[k := o][i] {
      assert LinkAt(nodes, q, i);
      assert q[i] == q[k] ==> i == k;
    }
  }

  /** The level record that belongs to a chain. */
  function RecordOf(q: seq<nat>, os: seq<Order>): PriceLevel {
    PriceLevel(Total(os), |q|, if q == [] then None else Some(q[0]), if q == [] then None else Some(q[|q| - 1]))
  }
}
