/** What the asynchronous journal holds back: the queue stays within its
    capacity and a batch within its size, and a journal that is degraded or
    closed takes no append that was not already past its checks. */
module Backpressure {
  import opened Bytes
  import opened Logs
  import opened AsyncJournals

  /* ---- Bounds ---- */

  /** The queue is within the capacity, but for a message that is handed over without one, and the worker's batch within its size. */
  ghost predicate Bounded(s: Journal, capacity: nat, size: nat) {
    && s.capacity == capacity && s.batchSize == size > 0
    && |s.queue| <= (if capacity == 0 then 1 else capacity) && |s.worker.Held()| <= size
  }

  lemma TakingIsBounded(s: Journal, capacity: nat, size: nat)
    requires Bounded(s, capacity, size) && s.worker.Filling?
    ensures Bounded(TakeMore(s), capacity, size)
  {
  }

  lemma StepBounded(enc: Encoder, s: Journal, step: Step, capacity: nat, size: nat)
    requires Bounded(s, capacity, size) && Enabled(enc, s, step)
    ensures Bounded(Do(enc, s, step), capacity, size)
  {
    if step.TryReceive? {
      TakingIsBounded(s, capacity, size);
    }
  }

  lemma {:induction false} RunBounded(enc: Encoder, s: Journal, steps: seq<Step>, capacity: nat, size: nat)
    requires Bounded(s, capacity, size) && Run(enc, s, steps)
    ensures Bounded(After(enc, s, steps), capacity, size)
    decreases |steps|
  {
    if steps != [] {
      StepBounded(enc, s, steps[0], capacity, size);
      RunBounded(enc, Do(enc, s, steps[0]), steps[1..], capacity, size);
    }
  }

  /** In every reachable state: the queue holds no more messages than its capacity, or one if that is zero, and the worker no more
      records than the batch size, or one if that is zero. */
  lemma StaysBounded(enc: Encoder, capacity: nat, batchSize: nat, file: seq<byte>, steps: seq<Step>)
    requires Run(enc, Start(capacity, batchSize, file), steps)
    ensures var s := After(enc, Start(capacity, batchSize, file), steps);
            && |s.queue| <= (if capacity == 0 then 1 else capacity)
            && |s.worker.Held()| <= (if batchSize == 0 then 1 else batchSize)
  {
    RunBounded(enc, Start(capacity, batchSize, file), steps, capacity, if batchSize == 0 then 1 else batchSize);
  }

  /** An append past its checks is sent exactly if the worker is still there and the queue is below its capacity, or has none and the
      worker waits for a message. */
  lemma SendsExactly(enc: Encoder, s: Journal)
    requires Enabled(enc, s, TrySend)
    ensures var s' := Do(enc, s, TrySend);
            if !s.worker.Gone? && (|s.queue| < s.capacity || (s.capacity == 0 && s.queue == [] && s.worker == Waiting))
            then s'.sent == s.sent + [s.producer.entry] && s'.queue == s.queue + [Append(s.producer.entry)]
            else s' == s.(producer := Idle)
  {
  }

  /** The worker stops taking messages for a batch only when that is full, nothing is queued, or it was told to stop. */
  lemma BatchesFill(enc: Encoder, s: Journal)
    requires Enabled(enc, s, TryReceive) && Do(enc, s, TryReceive).worker.Writing?
    ensures var w := Do(enc, s, TryReceive).worker;
            w.batch == s.worker.batch && (|w.batch| >= s.batchSize || s.queue == [] || (w.exit && s.queue[0] == Shutdown))
  {
  }

  /* ---- Refusals ---- */

  /** How many appends can still be sent: one that is past the checks that would refuse it. */
  function Passed(s: Journal): nat {
    if s.producer.Admitted? || (s.producer.Healthy? && !s.closed) then 1 else 0
  }

  predicate Refusing(s: Journal) {
    s.degraded || s.closed
  }

  lemma StepRefuses(enc: Encoder, s: Journal, step: Step)
    requires Refusing(s) && Enabled(enc, s, step)
    ensures var s' := Do(enc, s, step);
            Refusing(s') && |s.sent| <= |s'.sent| && |s'.sent| + Passed(s') <= |s.sent| + Passed(s)
  {
  }

  /** However it goes on, a journal that is degraded or closed takes no append but one that had passed its checks before. */
  lemma {:induction false} RefusesAppends(enc: Encoder, s: Journal, steps: seq<Step>)
    requires Refusing(s) && Run(enc, s, steps)
    ensures |s.sent| <= |After(enc, s, steps).sent| <= |s.sent| + Passed(s)
    decreases |steps|
  {
    if steps != [] {
      StepRefuses(enc, s, steps[0]);
      RefusesAppends(enc, Do(enc, s, steps[0]), steps[1..]);
    }
  }
}
