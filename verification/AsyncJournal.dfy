/** The asynchronous journal as a protocol of atomic steps: one producer, one
    closer, one worker, and between them a bounded queue and four flags. Each
    load, store, channel operation and write is a step of its own, and a write
    may stop after any byte. */
module AsyncJournals {
  import opened Types
  import opened Bytes
  import opened Logs
  import opened Recovery

  datatype Message = Append(entry: Entry) | Shutdown

  /** How far the producer is with an append. */
  datatype Producer =
    | Idle
    | Asked(entry: Entry)
    | Healthy(entry: Entry)
    | Admitted(entry: Entry)
    | Sent(entry: Entry)

  datatype Closer = Open | Closing | Joining | Closed

  /** `written` counts the bytes of the batch that reached the file. A worker that left its loop
      still holds the receiver until it is gone. */
  datatype Worker =
    | Waiting
    | Filling(batch: seq<Entry>)
    | Writing(batch: seq<Entry>, written: nat, exit: bool)
    | Stopping(batch: seq<Entry>, written: nat)
    | Gone(batch: seq<Entry>, written: nat)
  {
    /** What the worker took out of the queue and has not reported durable. */
    function Held(): seq<Entry> {
      if Waiting? then [] else batch
    }

    function Written(): nat {
      if Waiting? || Filling? then 0 else written
    }

    predicate Stopped() {
      Stopping? || Gone?
    }
  }

  /** `sent` and `done` record what was ever sent and what was reported durable,
      `overlapped` whether an append was past its checks when the journal was closed, and `late`
      whether a record was sent after the closer had sent its shutdown message. */
  datatype Journal = Journal(
    capacity: nat,
    batchSize: nat,
    queue: seq<Message>,
    worker: Worker,
    file: seq<byte>,
    accepted: nat,
    durable: nat,
    degraded: bool,
    closed: bool,
    producer: Producer,
    closer: Closer,
    sent: seq<Entry>,
    done: seq<Entry>,
    overlapped: bool,
    late: bool)

  datatype Step =
    | Begin(entry: Entry)
    | CheckDegraded
    | CheckClosed
    | TrySend
    | StoreAccepted
    | SwapClosed
    | SendShutdown
    | Join
    | Receive
    | TryReceive
    | WriteBytes(n: nat)
    | FailWrite
    | StoreDurable
    | DropReceiver

  function Start(capacity: nat, batchSize: nat, file: seq<byte>): Journal {
    Journal(capacity, if batchSize == 0 then 1 else batchSize, [], Waiting, file, 0, 0, false, false, Idle, Open,
            [], [], false, false)
  }

  /** Whether a record can be sent without waiting: a queue without capacity hands it over to a worker that waits for one.
      The shutdown message is sent with waiting; without capacity it is offered, as if queued, until the worker takes it. */
  predicate HasRoom(s: Journal) {
    |s.queue| < s.capacity || (s.capacity == 0 && s.queue == [] && s.worker.Waiting?)
  }

  /** A single producer appends strictly increasing sequence numbers. */
  predicate Enabled(enc: Encoder, s: Journal, step: Step) {
    match step
    case Begin(e) => s.producer.Idle? && e.seqNo > LastSequence(s.sent)
    case CheckDegraded => s.producer.Asked?
    case CheckClosed => s.producer.Healthy?
    case TrySend => s.producer.Admitted?
    case StoreAccepted => s.producer.Sent?
    case SwapClosed => s.closer.Open?
    case SendShutdown => s.closer.Closing? && (|s.queue| < s.capacity || (s.capacity == 0 && s.queue == []) || s.worker.Gone?)
    case Join => s.closer.Joining? && s.worker.Gone?
    case Receive => s.worker.Waiting? && s.queue != []
    case TryReceive => s.worker.Filling?
    case WriteBytes(n) => s.worker.Writing? && s.worker.written + n <= |Encoded(enc, s.worker.batch)|
    case FailWrite => s.worker.Writing?
    case StoreDurable => s.worker.Writing? && s.worker.written == |Encoded(enc, s.worker.batch)|
    case DropReceiver => s.worker.Stopping?
  }

  /** The worker has a whole batch, or the queue is empty for now, or it takes one more message. */
  function TakeMore(s: Journal): Journal
    requires s.worker.Filling?
  {
    var batch := s.worker.batch;
    if |batch| >= s.batchSize || s.queue == [] then s.(worker := Writing(batch, 0, false))
    else if s.queue[0].Shutdown? then s.(queue := s.queue[1..], worker := Writing(batch, 0, true))
    else s.(queue := s.queue[1..], worker := Filling(batch + [s.queue[0].entry]))
  }

  /** The shutdown message has been sent. */
  predicate ShutdownSent(c: Closer) {
    c.Joining? || c.Closed?
  }

  function Do(enc: Encoder, s: Journal, step: Step): Journal
    requires Enabled(enc, s, step)
  {
    match step
    case Begin(e) => s.(producer := Asked(e))
    case CheckDegraded => s.(producer := if s.degraded then Idle else Healthy(s.producer.entry))
    case CheckClosed => s.(producer := if s.closed then Idle else Admitted(s.producer.entry))
    case TrySend =>
      var e := s.producer.entry;
      if s.worker.Gone? || !HasRoom(s) then s.(producer := Idle)
      else s.(queue := s.queue + [Append(e)], producer := Sent(e), sent := s.sent + [e], late := s.late || ShutdownSent(s.closer))
    case StoreAccepted => s.(accepted := s.producer.entry.seqNo, producer := Idle)
    case SwapClosed => s.(closed := true, closer := Closing, overlapped := s.producer.Admitted?)
    case SendShutdown => s.(queue := if s.worker.Gone? then s.queue else s.queue + [Shutdown], closer := Joining)
    case Join => s.(closer := Closed)
    case Receive =>
      if s.queue[0].Shutdown? then s.(queue := s.queue[1..], worker := Stopping([], 0))
      else s.(queue := s.queue[1..], worker := Filling([s.queue[0].entry]))
    case TryReceive => TakeMore(s)
    case WriteBytes(n) =>
      var w := s.worker;
      s.(file := s.file + Encoded(enc, w.batch)[w.written..w.written + n], worker := Writing(w.batch, w.written + n, w.exit))
    case FailWrite => s.(degraded := true, worker := Stopping(s.worker.batch, s.worker.written))
    case StoreDurable =>
      s.(durable := LastSequence(s.worker.batch), done := s.done + s.worker.batch,
         worker := if s.worker.exit then Stopping([], 0) else Waiting)
    case DropReceiver => s.(worker := Gone(s.worker.batch, s.worker.written))
  }

  ghost predicate Run(enc: Encoder, s: Journal, steps: seq<Step>)
    decreases |steps|
  {
    steps == [] || (Enabled(enc, s, steps[0]) && Run(enc, Do(enc, s, steps[0]), steps[1..]))
  }

  ghost function After(enc: Encoder, s: Journal, steps: seq<Step>): Journal
    requires Run(enc, s, steps)
    decreases |steps|
  {
    if steps == [] then s else After(enc, Do(enc, s, steps[0]), steps[1..])
  }

  /* ---- Where the records are ---- */

  function Appends(queue: seq<Message>): seq<Entry> {
    if queue == [] then []
    else if queue[0].Shutdown? then Appends(queue[1..])
    else [queue[0].entry] + Appends(queue[1..])
  }

  lemma {:induction false} AppendsLast(queue: seq<Message>, m: Message)
    ensures Appends(queue + [m]) == if m.Append? then Appends(queue) + [m.entry] else Appends(queue)
  {
    if queue == [] {
      assert queue + [m] == [m];
    } else {
      AppendsLast(queue[1..], m);
      assert (queue + [m])[1..] == queue[1..] + [m];
    }
  }

  ghost predicate Increasing(es: seq<Entry>) {
    && (forall i :: 0 <= i < |es| ==> es[i].seqNo > 0)
    && forall i, j :: 0 <= i < j < |es| ==> es[i].seqNo < es[j].seqNo
  }

  /** The records reported durable, then the worker's batch, then the queue spell what was sent. */
  ghost predicate Spelled(s: Journal) {
    s.sent == s.done + s.worker.Held() + Appends(s.queue) && Increasing(s.sent)
  }

  /** The file holds the durable records and as much of the batch as was written. */
  ghost predicate FileHolds(enc: Encoder, file: seq<byte>, s: Journal) {
    && s.worker.Written() <= |Encoded(enc, s.worker.Held())|
    && s.file == file + Encoded(enc, s.done) + Encoded(enc, s.worker.Held())[..s.worker.Written()]
  }

  /** `durable` counts what was reported, `accepted` what was sent, one append behind while that is being stored. */
  ghost predicate CountersRight(s: Journal) {
    AcceptedRight(s.producer, s.accepted, s.sent) && DurableRight(s.worker, s.durable, s.done)
  }

  ghost predicate AcceptedRight(p: Producer, accepted: nat, sent: seq<Entry>) {
    match p
    case Idle => accepted == LastSequence(sent)
    case Sent(e) => sent != [] && sent[|sent| - 1] == e && accepted == LastSequence(sent[..|sent| - 1])
    case _ => accepted == LastSequence(sent) && p.entry.seqNo > accepted
  }

  ghost predicate DurableRight(w: Worker, durable: nat, done: seq<Entry>) {
    durable == LastSequence(done) && (w.Filling? || w.Writing? ==> w.batch != [])
  }

  /* ---- Closing ---- */

  /** The appends behind the first shutdown message. */
  function BehindShutdown(queue: seq<Message>): seq<Entry> {
    if queue == [] then [] else if queue[0].Shutdown? then Appends(queue[1..]) else BehindShutdown(queue[1..])
  }

  function Shutdowns(queue: seq<Message>): nat {
    if queue == [] then 0 else (if queue[0].Shutdown? then 1 else 0) + Shutdowns(queue[1..])
  }

  /** Whether the worker has met the shutdown message. */
  predicate MetShutdown(w: Worker) {
    (w.Writing? && w.exit) || (w.Stopped() && w.batch == [])
  }

  /** The appends that nobody will write once the worker is told to stop. */
  function Late(s: Journal): seq<Entry> {
    if MetShutdown(s.worker) then Appends(s.queue) else BehindShutdown(s.queue)
  }

  /** Shutdown is sent once; only an append that was past its checks when the journal was closed can come behind it. */
  ghost predicate ClosesCleanly(s: Journal) {
    && (s.closed <==> !s.closer.Open?)
    && (s.degraded <==> s.worker.Stopped() && s.worker.batch != [])
    && Shutdowns(s.queue) + (if MetShutdown(s.worker) then 1 else 0) <= 1
    && (s.closer.Open? || s.closer.Closing? ==> Shutdowns(s.queue) == 0 && !MetShutdown(s.worker))
    && (s.closer.Joining? && !s.degraded ==> Shutdowns(s.queue) == 1 || MetShutdown(s.worker))
    && (s.closer.Closed? ==> s.worker.Gone?)
    && |Late(s)| + (if s.closed && s.producer.Admitted? then 1 else 0) <= (if s.overlapped then 1 else 0)
    && (s.overlapped ==> s.closed)
    && (!s.degraded ==> (s.late <==> Late(s) != []))
  }

  ghost predicate Inv(enc: Encoder, file: seq<byte>, s: Journal) {
    Spelled(s) && FileHolds(enc, file, s) && CountersRight(s) && ClosesCleanly(s)
  }

  lemma {:induction false} ShutdownsLast(queue: seq<Message>, m: Message)
    ensures Shutdowns(queue + [m]) == Shutdowns(queue) + if m.Shutdown? then 1 else 0
    ensures BehindShutdown(queue + [m])
         == if Shutdowns(queue) > 0 && m.Append? then BehindShutdown(queue) + [m.entry] else BehindShutdown(queue)
    ensures Shutdowns(queue) == 0 ==> BehindShutdown(queue) == []
  {
    if queue == [] {
      assert queue + [m] == [m];
    } else {
      ShutdownsLast(queue[1..], m);
      AppendsLast(queue[1..], m);
      assert (queue + [m])[1..] == queue[1..] + [m];
    }
  }

  /* ---- Every step keeps all of it ---- */

  lemma StartHolds(enc: Encoder, capacity: nat, batchSize: nat, file: seq<byte>)
    ensures Inv(enc, file, Start(capacity, batchSize, file))
  {
    assert file + Encoded(enc, []) + Encoded(enc, [])[..0] == file;
  }

  lemma Advanced<T>(done: seq<T>, held: seq<T>, e: T, rest: seq<T>)
    ensures done + held + ([e] + rest) == done + (held + [e]) + rest
  {
  }

  lemma Reported<T>(done: seq<T>, held: seq<T>, rest: seq<T>)
    ensures done + held + [] + rest == done + held + rest
  {
  }

  lemma Queued<T>(done: seq<T>, held: seq<T>, rest: seq<T>, e: T)
    ensures done + held + (rest + [e]) == done + held + rest + [e]
  {
  }

  lemma IncreasingLast(es: seq<Entry>, e: Entry)
    requires Increasing(es) && e.seqNo > LastSequence(es)
    ensures Increasing(es + [e])
  {
  }

  /** Only sending changes what was sent. */
  lemma SendSpelled(s: Journal, e: Entry)
    requires Spelled(s) && e.seqNo > LastSequence(s.sent)
    ensures Spelled(s.(queue := s.queue + [Append(e)], producer := Sent(e), sent := s.sent + [e],
                       late := s.late || ShutdownSent(s.closer)))
  {
    AppendsLast(s.queue, Append(e));
    Queued(s.done, s.worker.Held(), Appends(s.queue), e);
    IncreasingLast(s.sent, e);
  }

  /** A message that goes from the queue to the batch keeps its place. */
  lemma TakeSpelled(s: Journal)
    requires Spelled(s) && s.queue != [] && s.queue[0].Append?
    requires s.worker.Waiting? || s.worker.Filling?
    ensures Spelled(s.(queue := s.queue[1..], worker := Filling(s.worker.Held() + [s.queue[0].entry])))
  {
    Advanced(s.done, s.worker.Held(), s.queue[0].entry, Appends(s.queue[1..]));
  }

  lemma ProducerSpelled(enc: Encoder, s: Journal, step: Step)
    requires Spelled(s) && CountersRight(s) && Enabled(enc, s, step)
    requires step.Begin? || step.CheckDegraded? || step.CheckClosed? || step.TrySend? || step.StoreAccepted?
    ensures Spelled(Do(enc, s, step))
  {
    if step.TrySend? {
      SendSpelled(s, s.producer.entry);
    }
  }

  lemma CloserSpelled(enc: Encoder, s: Journal, step: Step)
    requires Spelled(s) && Enabled(enc, s, step) && (step.SwapClosed? || step.SendShutdown? || step.Join?)
    ensures Spelled(Do(enc, s, step))
  {
    AppendsLast(s.queue, Shutdown);
  }

  lemma SameSpelled(s: Journal, s': Journal)
    requires Spelled(s) && s'.sent == s.sent && s'.done == s.done
    requires s'.worker.Held() == s.worker.Held() && Appends(s'.queue) == Appends(s.queue)
    ensures Spelled(s')
  {
  }

  lemma ReceiveSpelled(enc: Encoder, s: Journal)
    requires Spelled(s) && Enabled(enc, s, Receive)
    ensures Spelled(Do(enc, s, Receive))
  {
    if s.queue[0].Append? {
      TakeSpelled(s);
      assert s.worker.Held() + [s.queue[0].entry] == [s.queue[0].entry];
    } else {
      SameSpelled(s, Do(enc, s, Receive));
    }
  }

  lemma TryReceiveSpelled(s: Journal)
    requires Spelled(s) && s.worker.Filling?
    ensures Spelled(TakeMore(s))
  {
    if |s.worker.batch| >= s.batchSize || s.queue == [] || s.queue[0].Shutdown? {
      SameSpelled(s, TakeMore(s));
    } else {
      TakeSpelled(s);
    }
  }

  lemma WriteSpelled(enc: Encoder, s: Journal, step: Step)
    requires Spelled(s) && Enabled(enc, s, step)
    requires step.WriteBytes? || step.FailWrite? || step.StoreDurable? || step.DropReceiver?
    ensures Spelled(Do(enc, s, step))
  {
    if step.StoreDurable? {
      Reported(s.done, s.worker.batch, Appends(s.queue));
    }
  }

  lemma WriteStored(enc: Encoder, file: seq<byte>, s: Journal, n: nat)
    requires FileHolds(enc, file, s) && s.worker.Writing? && s.worker.written + n <= |Encoded(enc, s.worker.batch)|
    ensures FileHolds(enc, file, Do(enc, s, WriteBytes(n)))
  {
    var all, w := Encoded(enc, s.worker.batch), s.worker.written;
    NextBytes(all, w, n);
    Regroup(file + Encoded(enc, s.done), all[..w], all[w..w + n]);
  }

  lemma NextBytes(all: seq<byte>, w: nat, n: nat)
    requires w + n <= |all|
    ensures all[..w] + all[w..w + n] == all[..w + n]
  {
  }

  lemma ReportStored(enc: Encoder, file: seq<byte>, s: Journal)
    requires FileHolds(enc, file, s) && Enabled(enc, s, StoreDurable)
    ensures FileHolds(enc, file, Do(enc, s, StoreDurable))
  {
    var all := Encoded(enc, s.worker.batch);
    EncodedConcat(enc, s.done, s.worker.batch);
    Regroup(file, Encoded(enc, s.done), all);
    assert all[..s.worker.written] == all;
    var whole := file + (Encoded(enc, s.done) + all);
    assert whole + [] == whole;
  }

  /** The other steps leave the file and what was written of the batch. */
  lemma StillStored(enc: Encoder, file: seq<byte>, s: Journal, s': Journal)
    requires FileHolds(enc, file, s) && s'.file == s.file && s'.done == s.done
    requires s'.worker.Written() == s.worker.Written()
    requires s'.worker.Held() == s.worker.Held() || s.worker.Written() == 0
    ensures FileHolds(enc, file, s')
  {
  }

  /** The steps of the producer and the closer. */
  predicate ByOthers(step: Step) {
    || step.Begin? || step.CheckDegraded? || step.CheckClosed? || step.TrySend? || step.StoreAccepted?
    || step.SwapClosed? || step.SendShutdown? || step.Join?
  }

  /** Those leave the worker, the file and what was reported durable. */
  lemma OutsideLeaves(enc: Encoder, s: Journal, step: Step)
    requires Enabled(enc, s, step) && ByOthers(step)
    ensures var s' := Do(enc, s, step);
            s'.worker == s.worker && s'.file == s.file && s'.done == s.done && s'.durable == s.durable
  {
  }

  /** The worker's steps leave the producer and what was sent. */
  lemma WorkerLeaves(enc: Encoder, s: Journal, step: Step)
    requires Enabled(enc, s, step) && !ByOthers(step)
    ensures var s' := Do(enc, s, step);
            s'.producer == s.producer && s'.accepted == s.accepted && s'.sent == s.sent
  {
  }

  lemma StepStored(enc: Encoder, file: seq<byte>, s: Journal, step: Step)
    requires FileHolds(enc, file, s) && Enabled(enc, s, step)
    ensures FileHolds(enc, file, Do(enc, s, step))
  {
    if ByOthers(step) {
      OutsideLeaves(enc, s, step);
      StillStored(enc, file, s, Do(enc, s, step));
    } else {
      WorkerStored(enc, file, s, step);
    }
  }

  /** Receiving comes before the first byte of a batch. */
  lemma ReceiveStored(enc: Encoder, file: seq<byte>, s: Journal)
    requires FileHolds(enc, file, s) && Enabled(enc, s, Receive)
    ensures FileHolds(enc, file, Do(enc, s, Receive))
  {
    StillStored(enc, file, s, Do(enc, s, Receive));
  }

  lemma TakeStored(enc: Encoder, file: seq<byte>, s: Journal)
    requires FileHolds(enc, file, s) && s.worker.Filling?
    ensures FileHolds(enc, file, TakeMore(s))
  {
    StillStored(enc, file, s, TakeMore(s));
  }

  lemma WorkerStored(enc: Encoder, file: seq<byte>, s: Journal, step: Step)
    requires FileHolds(enc, file, s) && Enabled(enc, s, step) && !ByOthers(step)
    ensures FileHolds(enc, file, Do(enc, s, step))
  {
    if step.WriteBytes? {
      WriteStored(enc, file, s, step.n);
    } else if step.StoreDurable? {
      ReportStored(enc, file, s);
    } else if step.Receive? {
      ReceiveStored(enc, file, s);
    } else if step.TryReceive? {
      TakeStored(enc, file, s);
    } else {
      StillStored(enc, file, s, Do(enc, s, step));
    }
  }

  lemma StepSpelled(enc: Encoder, s: Journal, step: Step)
    requires Spelled(s) && CountersRight(s) && Enabled(enc, s, step)
    ensures Spelled(Do(enc, s, step))
  {
    match step
    case Begin(_) => ProducerSpelled(enc, s, step);
    case CheckDegraded => ProducerSpelled(enc, s, step);
    case CheckClosed => ProducerSpelled(enc, s, step);
    case TrySend => ProducerSpelled(enc, s, step);
    case StoreAccepted => ProducerSpelled(enc, s, step);
    case SwapClosed => CloserSpelled(enc, s, step);
    case SendShutdown => CloserSpelled(enc, s, step);
    case Join => CloserSpelled(enc, s, step);
    case Receive => ReceiveSpelled(enc, s);
    case TryReceive => TryReceiveSpelled(s);
    case _ => WriteSpelled(enc, s, step);
  }

  /* ---- The counters ---- */

  lemma SentCounted(accepted: nat, sent: seq<Entry>, e: Entry)
    requires AcceptedRight(Admitted(e), accepted, sent)
    ensures AcceptedRight(Sent(e), accepted, sent + [e])
  {
    assert (sent + [e])[..|sent|] == sent;
  }

  lemma StepAccepted(enc: Encoder, s: Journal, step: Step)
    requires AcceptedRight(s.producer, s.accepted, s.sent) && Enabled(enc, s, step)
    ensures var s' := Do(enc, s, step); AcceptedRight(s'.producer, s'.accepted, s'.sent)
  {
    if !ByOthers(step) {
      WorkerLeaves(enc, s, step);
    } else if step.TrySend? {
      SentCounted(s.accepted, s.sent, s.producer.entry);
    }
  }

  lemma StepDurable(enc: Encoder, s: Journal, step: Step)
    requires DurableRight(s.worker, s.durable, s.done) && Enabled(enc, s, step)
    ensures var s' := Do(enc, s, step); DurableRight(s'.worker, s'.durable, s'.done)
  {
    if ByOthers(step) {
      OutsideLeaves(enc, s, step);
    } else if step.StoreDurable? {
      LastOfConcat(s.done, s.worker.batch);
    }
  }

  lemma LastOfConcat(es: seq<Entry>, more: seq<Entry>)
    requires more != []
    ensures LastSequence(es + more) == LastSequence(more)
  {
  }

  /* ---- Closing ---- */

  lemma ProducerCloses(enc: Encoder, s: Journal, step: Step)
    requires ClosesCleanly(s) && Enabled(enc, s, step)
    requires step.Begin? || step.CheckDegraded? || step.CheckClosed? || step.TrySend? || step.StoreAccepted?
    ensures ClosesCleanly(Do(enc, s, step))
  {
    if step.TrySend? {
      ShutdownsLast(s.queue, Append(s.producer.entry));
      AppendsLast(s.queue, Append(s.producer.entry));
    }
  }

  lemma CloserCloses(enc: Encoder, s: Journal, step: Step)
    requires ClosesCleanly(s) && Enabled(enc, s, step) && (step.SwapClosed? || step.SendShutdown? || step.Join?)
    ensures ClosesCleanly(Do(enc, s, step))
  {
    ShutdownsLast(s.queue, Shutdown);
  }

  lemma ReceiverCloses(enc: Encoder, s: Journal, step: Step)
    requires ClosesCleanly(s) && Enabled(enc, s, step) && (step.Receive? || step.TryReceive?)
    ensures ClosesCleanly(Do(enc, s, step))
  {
  }

  lemma WriterCloses(enc: Encoder, s: Journal, step: Step)
    requires ClosesCleanly(s) && DurableRight(s.worker, s.durable, s.done) && Enabled(enc, s, step)
    requires step.WriteBytes? || step.FailWrite? || step.StoreDurable? || step.DropReceiver?
    ensures ClosesCleanly(Do(enc, s, step))
  {
    ShutdownsLast(s.queue, Shutdown);
  }

  lemma StepCloses(enc: Encoder, s: Journal, step: Step)
    requires ClosesCleanly(s) && DurableRight(s.worker, s.durable, s.done) && Enabled(enc, s, step)
    ensures ClosesCleanly(Do(enc, s, step))
  {
    match step
    case Begin(_) => ProducerCloses(enc, s, step);
    case CheckDegraded => ProducerCloses(enc, s, step);
    case CheckClosed => ProducerCloses(enc, s, step);
    case TrySend => ProducerCloses(enc, s, step);
    case StoreAccepted => ProducerCloses(enc, s, step);
    case SwapClosed => CloserCloses(enc, s, step);
    case SendShutdown => CloserCloses(enc, s, step);
    case Join => CloserCloses(enc, s, step);
    case Receive => ReceiverCloses(enc, s, step);
    case TryReceive => ReceiverCloses(enc, s, step);
    case _ => WriterCloses(enc, s, step);
  }

  /* ---- Every run ---- */

  lemma StepHolds(enc: Encoder, file: seq<byte>, s: Journal, step: Step)
    requires Inv(enc, file, s) && Enabled(enc, s, step)
    ensures Inv(enc, file, Do(enc, s, step))
  {
    StepSpelled(enc, s, step);
    StepStored(enc, file, s, step);
    StepAccepted(enc, s, step);
    StepDurable(enc, s, step);
    StepCloses(enc, s, step);
  }

  lemma {:induction false} RunHolds(enc: Encoder, file: seq<byte>, s: Journal, steps: seq<Step>)
    requires Inv(enc, file, s) && Run(enc, s, steps)
    ensures Inv(enc, file, After(enc, s, steps))
    decreases |steps|
  {
    if steps != [] {
      StepHolds(enc, file, s, steps[0]);
      RunHolds(enc, file, Do(enc, s, steps[0]), steps[1..]);
    }
  }
}
