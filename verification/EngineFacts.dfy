/** What holds of the engine in every reachable state: the book is well formed,
    the depth index has drifted by exactly what was traded, events are
    numbered, and every accepted quantity is accounted for. */
module EngineFacts {
  import opened Types
  import opened BookSpec
  import opened BookFacts
  import opened BookLedger
  import opened EngineSpec

  /* ---- Accounts ---- */

  /** What was traded at a level since the engine was built. */
  function TradedAt(notes: seq<Note>, pl: Place): nat {
    if notes == [] then 0
    else
      var n := notes[|notes| - 1];
      TradedAt(notes[..|notes| - 1], pl) + (if n.Traded? && n.at == pl then n.qty else 0)
  }

  /** What an event adds to, or takes from, the quantity that the engine owes to an order. */
  function EventFlow(e: Event, id: nat): int {
    match e
    case OrderAccepted(_, x, _, _, qty, _) => if x == id then qty else 0
    case Fill(_, maker, taker, _, qty, _, _) => (if maker == id then -(qty as int) else 0) - (if taker == id then qty else 0)
    case OrderCancelled(_, x, qty) => if x == id then -(qty as int) else 0
    case _ => 0
  }

  function NoteFlow(n: Note, id: nat): int {
    if n.Traded? || n.id != id then 0 else -(n.qty as int)
  }

  function LogFlow(log: seq<Event>, id: nat): int {
    if log == [] then 0 else LogFlow(log[..|log| - 1], id) + EventFlow(log[|log| - 1], id)
  }

  function NotesFlow(notes: seq<Note>, id: nat): int {
    if notes == [] then 0 else NotesFlow(notes[..|notes| - 1], id) + NoteFlow(notes[|notes| - 1], id)
  }

  /** Accepted minus everything that left the engine, minus what rests on the book. */
  function Balance(c: Core, id: nat): int {
    LogFlow(c.log, id) + NotesFlow(c.notes, id) - Rest(c.book, id)
  }

  lemma LogFlowAppend(log: seq<Event>, e: Event, id: nat)
    ensures LogFlow(log + [e], id) == LogFlow(log, id) + EventFlow(e, id)
  {
    assert (log + [e])[..|log|] == log;
  }

  lemma NotesFlowAppend(notes: seq<Note>, n: Note, id: nat)
    ensures NotesFlow(notes + [n], id) == NotesFlow(notes, id) + NoteFlow(n, id)
  {
    assert (notes + [n])[..|notes|] == notes;
  }

  lemma TradedAtAppend(notes: seq<Note>, n: Note, pl: Place)
    ensures TradedAt(notes + [n], pl) == TradedAt(notes, pl) + if n.Traded? && n.at == pl then n.qty else 0
  {
    assert (notes + [n])[..|notes|] == notes;
  }

  lemma EmitBalance(c: Core, e: Event, id: nat)
    ensures Balance(Emit(c, e), id) == Balance(c, id) + EventFlow(e, id)
  {
    LogFlowAppend(c.log, e.(seqNo := |c.log| + 1), id);
  }

  lemma NotedBalance(c: Core, n: Note, id: nat)
    ensures Balance(Noted(c, n), id) == Balance(c, id) + NoteFlow(n, id)
  {
    NotesFlowAppend(c.notes, n, id);
  }

  /* ---- Soundness ---- */

  ghost predicate Numbered(log: seq<Event>) {
    forall k :: 0 <= k < |log| ==> log[k].seqNo == k + 1
  }

  /** The index at every price is the level total plus what was traded there. */
  ghost predicate Drifts(c: Core) {
    forall pl {:trigger DriftAt(c.book, pl, TradedAt(c.notes, pl))} :: DriftAt(c.book, pl, TradedAt(c.notes, pl))
  }

  ghost predicate Sound(c: Core) {
    Shape(c.book) && Drifts(c) && Numbered(c.log)
  }

  lemma EmitSound(c: Core, e: Event)
    requires Sound(c)
    ensures Sound(Emit(c, e))
  {
    forall pl ensures DriftAt(Emit(c, e).book, pl, TradedAt(Emit(c, e).notes, pl)) {
      assert DriftAt(c.book, pl, TradedAt(c.notes, pl));
    }
  }

  lemma NotedSound(c: Core, n: Note)
    requires Sound(c) && !n.Traded?
    ensures Sound(Noted(c, n))
  {
    forall pl ensures DriftAt(c.book, pl, TradedAt(Noted(c, n).notes, pl)) {
      TradedAtAppend(c.notes, n, pl);
      assert DriftAt(c.book, pl, TradedAt(c.notes, pl));
    }
  }

  lemma RemoveSound(c: Core, id: nat)
    requires Sound(c) && id in c.book.ids
    ensures Resting(c.book, id) && Sound(c.(book := Remove(c.book, id)))
    ensures forall x :: Balance(c.(book := Remove(c.book, id)), x) == Balance(c, x) + if x == id then Rest(c.book, id) else 0
  {
    RemoveKeepsShape(c.book, id);
    forall pl ensures DriftAt(Remove(c.book, id), pl, TradedAt(c.notes, pl)) {
      assert DriftAt(c.book, pl, TradedAt(c.notes, pl));
      RemoveDrift(c.book, id, pl, TradedAt(c.notes, pl));
    }
    forall x ensures Balance(c.(book := Remove(c.book, id)), x) == Balance(c, x) + if x == id then Rest(c.book, id) else 0 {
      RemoveRest(c.book, id, x);
    }
  }

  lemma InsertSound(c: Core, o: Order)
    requires Sound(c) && o.price < U64_LIMIT && !Refuses(c.book, o.id)
    ensures Sound(c.(book := Insert(c.book, o)))
    ensures forall x :: Balance(c.(book := Insert(c.book, o)), x) == Balance(c, x) - if x == o.id then o.Remaining() else 0
  {
    InsertKeepsShape(c.book, o);
    forall pl ensures DriftAt(Insert(c.book, o), pl, TradedAt(c.notes, pl)) {
      assert DriftAt(c.book, pl, TradedAt(c.notes, pl));
      InsertDrift(c.book, o, pl, TradedAt(c.notes, pl));
    }
    forall x ensures Balance(c.(book := Insert(c.book, o)), x) == Balance(c, x) - if x == o.id then o.Remaining() else 0 {
      InsertRest(c.book, o, x);
    }
  }

  lemma ReduceSound(c: Core, id: nat, delta: nat)
    requires Sound(c) && id in c.book.ids && delta <= Rest(c.book, id)
    ensures Resting(c.book, id) && Sound(c.(book := Reduce(c.book, id, delta)))
    ensures forall x :: Balance(c.(book := Reduce(c.book, id, delta)), x) == Balance(c, x) + if x == id then delta else 0
  {
    RestingOrder(c.book, id);
    ReduceKeepsShape(c.book, id, delta);
    forall pl ensures DriftAt(Reduce(c.book, id, delta), pl, TradedAt(c.notes, pl)) {
      assert DriftAt(c.book, pl, TradedAt(c.notes, pl));
      ReduceDrift(c.book, id, delta, pl, TradedAt(c.notes, pl));
    }
    forall x ensures Balance(c.(book := Reduce(c.book, id, delta)), x) == Balance(c, x) + if x == id then delta else 0 {
      ReduceRest(c.book, id, delta, x);
    }
  }

  /** A fill drifts the index by what it trades. */
  lemma FillDrifts(c: Core, id: nat, delta: nat)
    requires Sound(c) && id in c.book.ids && delta <= Rest(c.book, id)
    ensures Resting(c.book, id) && Shape(FillOrder(c.book, id, delta)) && Drifts(FilledCore(c, id, delta))
    ensures forall x :: Balance(FilledCore(c, id, delta), x) == Balance(c, x) + if x == id then delta else 0
  {
    FillKeepsShape(c.book, id, delta);
    var c' := FilledCore(c, id, delta);
    forall pl ensures DriftAt(c'.book, pl, TradedAt(c'.notes, pl)) {
      TradedAtAppend(c.notes, Traded(c.book.ids[id], delta), pl);
      assert DriftAt(c.book, pl, TradedAt(c.notes, pl));
      FillDrift(c.book, id, delta, pl, TradedAt(c.notes, pl));
    }
    forall x ensures Balance(c', x) == Balance(c, x) + if x == id then delta else 0 {
      FillRest(c.book, id, delta, x);
      NotesFlowAppend(c.notes, Traded(c.book.ids[id], delta), x);
    }
  }

  lemma PartFillSound(c: Core, id: nat, delta: nat)
    requires Sound(c) && id in c.book.ids && delta <= Rest(c.book, id)
    ensures Resting(c.book, id) && Sound(FilledCore(c, id, delta))
  {
    FillDrifts(c, id, delta);
  }

  /** A whole fill and the removal after it leave the queues as a removal alone would. */
  lemma WholeFillRemoves(b: Book, id: nat, delta: nat)
    requires Shape(b) && id in b.ids
    ensures Resting(b, id) && Resting(FillOrder(b, id, delta), id)
    ensures Remove(FillOrder(b, id, delta), id).queues == Remove(b, id).queues
  {
    RestingOrder(b, id);
    FillKeepsShape(b, id, delta);
    var q, k := b.queues[b.ids[id]], PositionOf(b.queues[b.ids[id]], id);
    OrderByPosition(FillOrder(b, id, delta), id, k);
    assert Without(Filled(q, k, delta), k) == Without(q, k);
  }

  lemma WholeFillSound(c: Core, id: nat)
    requires Sound(c) && id in c.book.ids
    ensures Resting(c.book, id) && Resting(FilledCore(c, id, Rest(c.book, id)).book, id)
    ensures var c' := FilledCore(c, id, Rest(c.book, id));
            && Sound(c'.(book := Remove(c'.book, id)))
            && forall x :: Balance(c'.(book := Remove(c'.book, id)), x) == Balance(c', x)
  {
    FillDrifts(c, id, Rest(c.book, id));
    var c' := FilledCore(c, id, Rest(c.book, id));
    WholeFillRemoves(c.book, id, Rest(c.book, id));
    RemoveKeepsShape(c'.book, id);
    forall pl ensures DriftAt(Remove(c'.book, id), pl, TradedAt(c'.notes, pl)) {
      assert DriftAt(c'.book, pl, TradedAt(c'.notes, pl));
      RemoveDrift(c'.book, id, pl, TradedAt(c'.notes, pl));
    }
    forall x ensures Balance(c'.(book := Remove(c'.book, id)), x) == Balance(c', x) {
      RemoveRest(c'.book, id, x);
      FillRest(c.book, id, Rest(c.book, id), id);
    }
  }
}
