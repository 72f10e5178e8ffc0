/** Closing the asynchronous journal ends: while it is under way, a step of the
    closer or the worker can be taken, and there are only so many of them. */
module Closing {
  import opened Bytes
  import opened Logs
  import opened AsyncJournals

  /** A step of the closer or the worker that gets on with its work. */
  predicate Forward(step: Step) {
    match step
    case WriteBytes(n) => n > 0
    case _ => !step.Begin? && !step.CheckDegraded? && !step.CheckClosed? && !step.TrySend? && !step.StoreAccepted?
  }

  /* ---- It never gets stuck ---- */

  /** The worker can go on unless it waits for a message or is gone. */
  lemma WorkerCanGoOn(enc: Encoder, file: seq<byte>, s: Journal)
    requires Inv(enc, file, s) && !s.worker.Gone? && (s.worker.Waiting? ==> s.queue != [])
    ensures exists step :: Forward(step) && Enabled(enc, s, step)
  {
    match s.worker
    case Waiting =>
      assert Forward(Receive) && Enabled(enc, s, Receive);
    case Filling(_) =>
      assert Forward(TryReceive) && Enabled(enc, s, TryReceive);
    case Writing(batch, written, _) =>
      if written == |Encoded(enc, batch)| {
        assert Forward(StoreDurable) && Enabled(enc, s, StoreDurable);
      } else {
        assert Forward(WriteBytes(1)) && Enabled(enc, s, WriteBytes(1));
      }
    case Stopping(_, _) =>
      assert Forward(DropReceiver) && Enabled(enc, s, DropReceiver);
  }

  /** In every reachable state, whatever the capacity: once the journal is closed and until the closer is done, the closer
      or the worker can take a step, write failures and full queues included. */
  lemma ClosingGoesOn(enc: Encoder, capacity: nat, batchSize: nat, file: seq<byte>, steps: seq<Step>)
    requires Run(enc, Start(capacity, batchSize, file), steps)
    requires var s := After(enc, Start(capacity, batchSize, file), steps); s.closer.Closing? || s.closer.Joining?
    ensures exists step :: Forward(step) && Enabled(enc, After(enc, Start(capacity, batchSize, file), steps), step)
  {
    var s := After(enc, Start(capacity, batchSize, file), steps);
    StartHolds(enc, capacity, batchSize, file);
    RunHolds(enc, file, Start(capacity, batchSize, file), steps);
    SameCapacity(enc, Start(capacity, batchSize, file), steps);
    if s.closer.Closing? && (|s.queue| < s.capacity || (s.capacity == 0 && s.queue == []) || s.worker.Gone?) {
      assert Forward(SendShutdown) && Enabled(enc, s, SendShutdown);
    } else if s.closer.Joining? && s.worker.Gone? {
      assert Forward(Join) && Enabled(enc, s, Join);
    } else {
      WorkerCanGoOn(enc, file, s);
    }
  }

  lemma {:induction false} SameCapacity(enc: Encoder, s: Journal, steps: seq<Step>)
    requires Run(enc, s, steps)
    ensures After(enc, s, steps).capacity == s.capacity
    decreases |steps|
  {
    if steps != [] {
      SameCapacity(enc, Do(enc, s, steps[0]), steps[1..]);
    }
  }

  /* ---- It ends ---- */

  /** What the worker still has to do for the messages in the queue. */
  function QueueWork(enc: Encoder, queue: seq<Message>): nat {
    if queue == [] then 0
    else 5 + (if queue[0].Append? then |enc(queue[0].entry)| else 0) + QueueWork(enc, queue[1..])
  }

  function WorkerWork(enc: Encoder, w: Worker): int {
    match w
    case Waiting => 2
    case Filling(batch) => |Encoded(enc, batch)| + 4
    case Writing(batch, written, _) => |Encoded(enc, batch)| - written + 3
    case Stopping(_, _) => 1
    case Gone(_, _) => 0
  }

  function CloserWork(c: Closer): nat {
    match c
    case Open => 30
    case Closing => 20
    case Joining => 10
    case Closed => 0
  }

  /** An append past its checks may still be sent. */
  function ProducerWork(enc: Encoder, p: Producer): nat {
    if p.Admitted? then 5 + |enc(p.entry)| else 0
  }

  /** What is left to do before closing has ended. */
  function Work(enc: Encoder, s: Journal): int {
    CloserWork(s.closer) + QueueWork(enc, s.queue) + WorkerWork(enc, s.worker) + ProducerWork(enc, s.producer)
  }

  lemma {:induction false} QueueWorkLast(enc: Encoder, queue: seq<Message>, m: Message)
    ensures QueueWork(enc, queue + [m]) == QueueWork(enc, queue) + 5 + if m.Append? then |enc(m.entry)| else 0
  {
    if queue == [] {
      assert queue + [m] == [m];
    } else {
      QueueWorkLast(enc, queue[1..], m);
      assert (queue + [m])[1..] == queue[1..] + [m];
    }
  }

  lemma EncodedLast(enc: Encoder, batch: seq<Entry>, e: Entry)
    ensures |Encoded(enc, batch + [e])| == |Encoded(enc, batch)| + |enc(e)|
  {
    EncodedConcat(enc, batch, [e]);
    assert Encoded(enc, [e]) == enc([e][0]) + Encoded(enc, [e][1..]);
  }

  /** Receiving moves work from the queue to the worker, and some of it is done. */
  lemma ReceiveWorks(enc: Encoder, s: Journal)
    requires Enabled(enc, s, Receive)
    ensures Work(enc, Do(enc, s, Receive)) < Work(enc, s)
  {
    if s.queue[0].Append? {
      EncodedLast(enc, [], s.queue[0].entry);
      assert [] + [s.queue[0].entry] == [s.queue[0].entry];
    }
  }

  lemma TakeWorks(enc: Encoder, s: Journal)
    requires s.worker.Filling?
    ensures Work(enc, TakeMore(s)) < Work(enc, s)
  {
    if s.queue != [] && s.queue[0].Append? {
      EncodedLast(enc, s.worker.batch, s.queue[0].entry);
    }
  }

  lemma CloserWorks(enc: Encoder, s: Journal, step: Step)
    requires Enabled(enc, s, step) && (step.SwapClosed? || step.SendShutdown? || step.Join?)
    ensures Work(enc, Do(enc, s, step)) < Work(enc, s)
  {
    QueueWorkLast(enc, s.queue, Shutdown);
  }

  lemma WriterWorks(enc: Encoder, file: seq<byte>, s: Journal, step: Step)
    requires FileHolds(enc, file, s) && Enabled(enc, s, step) && Forward(step)
    requires step.WriteBytes? || step.FailWrite? || step.StoreDurable? || step.DropReceiver?
    ensures Work(enc, Do(enc, s, step)) < Work(enc, s)
  {
  }

  /** Every step of the closer and the worker leaves less to do. */
  lemma ForwardWorks(enc: Encoder, file: seq<byte>, s: Journal, step: Step)
    requires Inv(enc, file, s) && Enabled(enc, s, step) && Forward(step)
    ensures Work(enc, Do(enc, s, step)) < Work(enc, s)
  {
    if step.Receive? {
      ReceiveWorks(enc, s);
    } else if step.TryReceive? {
      TakeWorks(enc, s);
    } else if step.SwapClosed? || step.SendShutdown? || step.Join? {
      CloserWorks(enc, s, step);
    } else {
      WriterWorks(enc, file, s, step);
    }
  }

  /** On a closed journal no step of the producer adds to it. */
  lemma OthersAddNothing(enc: Encoder, s: Journal, step: Step)
    requires Enabled(enc, s, step) && !Forward(step) && s.closed
    ensures Work(enc, Do(enc, s, step)) <= Work(enc, s)
  {
    if step.TrySend? {
      QueueWorkLast(enc, s.queue, AsyncJournals.Append(s.producer.entry));
    } else if step.WriteBytes? {
      assert s.file + [] == s.file;
    }
  }

  /** How many of the steps get on with closing. */
  function Forwards(steps: seq<Step>): nat {
    if steps == [] then 0 else (if Forward(steps[0]) then 1 else 0) + Forwards(steps[1..])
  }

  lemma StaysClosed(enc: Encoder, s: Journal, step: Step)
    requires Enabled(enc, s, step) && s.closed
    ensures Do(enc, s, step).closed
  {
  }

  /** From a closed journal no run takes more steps of the closer and the worker than there is work left, whatever the producer does
      in between: with a step always at hand, closing ends. */
  lemma {:induction false} ClosingEnds(enc: Encoder, file: seq<byte>, s: Journal, steps: seq<Step>)
    requires Inv(enc, file, s) && s.closed && Run(enc, s, steps)
    ensures Forwards(steps) + Work(enc, After(enc, s, steps)) <= Work(enc, s) && Work(enc, After(enc, s, steps)) >= 0
    decreases |steps|
  {
    if steps != [] {
      var s' := Do(enc, s, steps[0]);
      StepHolds(enc, file, s, steps[0]);
      StaysClosed(enc, s, steps[0]);
      if Forward(steps[0]) {
        ForwardWorks(enc, file, s, steps[0]);
      } else {
        OthersAddNothing(enc, s, steps[0]);
      }
      ClosingEnds(enc, file, s', steps[1..]);
    }
  }
}
