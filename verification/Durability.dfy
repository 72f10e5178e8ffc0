/** What the asynchronous journal promises: the order of records, the meaning of
    its counters, what closing leaves, and what survives a crash. */
module Durability {
  import opened Types
  import opened Bytes
  import opened Codec
  import opened Records
  import opened Logs
  import opened Recovery
  import opened AsyncJournals

  /** The state that a run from an open file leads to. */
  ghost function Reached(enc: Encoder, capacity: nat, batchSize: nat, file: seq<byte>, steps: seq<Step>): Journal
    requires Run(enc, Start(capacity, batchSize, file), steps)
  {
    After(enc, Start(capacity, batchSize, file), steps)
  }

  /** In every reachable state, failed ones included: the durable records, then the worker's batch, then the queue
      are exactly what was sent, in order, and the file holds the first and a part of the second. */
  lemma NothingIsReordered(enc: Encoder, capacity: nat, batchSize: nat, file: seq<byte>, steps: seq<Step>)
    requires Run(enc, Start(capacity, batchSize, file), steps)
    ensures var s := Reached(enc, capacity, batchSize, file, steps);
            && s.sent == s.done + s.worker.Held() + Appends(s.queue)
            && s.worker.Written() <= |Encoded(enc, s.worker.Held())|
            && s.file == file + Encoded(enc, s.done) + Encoded(enc, s.worker.Held())[..s.worker.Written()]
  {
    StartHolds(enc, capacity, batchSize, file);
    RunHolds(enc, file, Start(capacity, batchSize, file), steps);
  }

  /* ---- The counters ---- */

  lemma PrefixIsOlder(es: seq<Entry>, prefix: seq<Entry>)
    requires Increasing(es) && prefix <= es
    ensures LastSequence(prefix) <= LastSequence(es)
    ensures prefix != es && prefix != [] ==> LastSequence(prefix) <= LastSequence(es[..|es| - 1])
  {
    if prefix != [] {
      var i := |prefix| - 1;
      assert prefix[i] == es[i];
      assert i < |es| - 1 ==> es[i].seqNo < es[|es| - 1].seqNo;
      assert i < |es| - 2 ==> es[i].seqNo < es[|es| - 2].seqNo;
    }
  }

  /** `durable` never exceeds the last sequence sent; it exceeds `accepted` only between a send and
      the store that reports it, and then names just the append in progress. */
  lemma DurableBounded(enc: Encoder, capacity: nat, batchSize: nat, file: seq<byte>, steps: seq<Step>)
    requires Run(enc, Start(capacity, batchSize, file), steps)
    ensures var s := Reached(enc, capacity, batchSize, file, steps);
            && s.durable <= LastSequence(s.sent)
            && (!s.producer.Sent? ==> s.durable <= s.accepted == LastSequence(s.sent))
            && (s.durable > s.accepted ==> s.producer.Sent? && s.durable == s.producer.entry.seqNo)
  {
    StartHolds(enc, capacity, batchSize, file);
    RunHolds(enc, file, Start(capacity, batchSize, file), steps);
    var s := Reached(enc, capacity, batchSize, file, steps);
    DoneComesFirst(s.done, s.worker.Held(), Appends(s.queue));
    PrefixIsOlder(s.sent, s.done);
  }

  lemma DoneComesFirst(done: seq<Entry>, held: seq<Entry>, rest: seq<Entry>)
    ensures done <= done + held + rest
  {
  }

  /* ---- Closing ---- */

  lemma EncodedSomething(d: Decoder, enc: Encoder, es: seq<Entry>)
    requires Coded(d, enc)
    ensures Encoded(enc, es) == [] <==> es == []
  {
    if es != [] {
      assert RoundTrips(d, enc, es[0], []);
    }
  }

  /** After a close without a failed write the file has every record that was sent exactly when none was sent behind the
      shutdown message; at most one can have been, and only if it was past its checks when the journal was closed. */
  lemma CloseDrains(d: Decoder, enc: Encoder, capacity: nat, batchSize: nat, file: seq<byte>, steps: seq<Step>)
    requires Run(enc, Start(capacity, batchSize, file), steps) && Coded(d, enc)
    requires var s := Reached(enc, capacity, batchSize, file, steps); s.closer.Closed? && !s.degraded
    ensures var s := Reached(enc, capacity, batchSize, file, steps);
            && s.sent == s.done + Appends(s.queue) && s.file == file + Encoded(enc, s.done)
            && (s.file == file + Encoded(enc, s.sent) <==> !s.late)
            && |Appends(s.queue)| <= 1 && (s.late ==> s.overlapped)
  {
    StartHolds(enc, capacity, batchSize, file);
    RunHolds(enc, file, Start(capacity, batchSize, file), steps);
    var s := Reached(enc, capacity, batchSize, file, steps);
    assert s.worker.Held() == [];
    var rest := Appends(s.queue);
    assert s.done + [] + rest == s.done + rest;
    assert file + Encoded(enc, s.done) + [] == file + Encoded(enc, s.done);
    assert s.file == file + Encoded(enc, s.done) && s.sent == s.done + rest;
    HoldsAllExactly(d, enc, file, s.done, rest);
  }

  /** A file that holds some records holds more of them as well exactly when there are no more. */
  lemma HoldsAllExactly(d: Decoder, enc: Encoder, file: seq<byte>, done: seq<Entry>, rest: seq<Entry>)
    requires Coded(d, enc)
    ensures file + Encoded(enc, done) == file + Encoded(enc, done + rest) <==> rest == []
  {
    EncodedConcat(enc, done, rest);
    EncodedSomething(d, enc, rest);
    SameLength(file + Encoded(enc, done), Encoded(enc, rest));
    Regroup(file, Encoded(enc, done), Encoded(enc, rest));
  }

  lemma SameLength(a: seq<byte>, b: seq<byte>)
    ensures a == a + b <==> b == []
  {
    assert |a + b| == |a| + |b|;
    assert b == [] ==> a + b == a;
  }

  /* ---- Crashes ---- */

  /** The file of a sound state recovers to what was in it before and a prefix of what was sent. */
  lemma FileRecovers(d: Decoder, enc: Encoder, file: seq<byte>, was: seq<Entry>, s: Journal)
    requires Sane(d) && Coded(d, enc) && IsLog(d, file, was) && Spelled(s) && FileHolds(enc, file, s)
    ensures var n := |s.done| + WholeRecords(enc, s.worker.Held(), s.worker.Written());
            n <= |s.sent| && Scan(d, s.file).0 == was + s.sent[..n]
  {
    var held, written := s.worker.Held(), s.worker.Written();
    EncodedIsLog(d, enc, s.done);
    LogConcat(d, file, was, Encoded(enc, s.done), s.done);
    CutLog(d, enc, file + Encoded(enc, s.done), was + s.done, held, written);
    TakenFromSent(was, s.done, held, Appends(s.queue), WholeRecords(enc, held, written));
  }

  /** The file of a log and what a run wrote behind it. */
  lemma LogKeepsDurable(d: Decoder, enc: Encoder, capacity: nat, batchSize: nat, file: seq<byte>, was: seq<Entry>, steps: seq<Step>)
    requires Sane(d) && Coded(d, enc) && IsLog(d, file, was)
    requires Run(enc, Start(capacity, batchSize, file), steps)
    ensures KeepsRecords(d, enc, was, Reached(enc, capacity, batchSize, file, steps))
  {
    StartHolds(enc, capacity, batchSize, file);
    RunHolds(enc, file, Start(capacity, batchSize, file), steps);
    var s := Reached(enc, capacity, batchSize, file, steps);
    FileRecovers(d, enc, file, was, s);
    DurableIsDone(s);
  }

  /** Recovery finds the old records and then a prefix of what was sent, with every record that was reported durable in it. */
  ghost predicate KeepsRecords(d: Decoder, enc: Encoder, was: seq<Entry>, s: Journal) {
    var n := |s.done| + WholeRecords(enc, s.worker.Held(), s.worker.Written());
    && n <= |s.sent| && Scan(d, s.file).0 == was + s.sent[..n]
    && forall i :: 0 <= i < |s.sent| && s.sent[i].seqNo <= s.durable ==> i < n
  }

  lemma TakenFromSent(was: seq<Entry>, done: seq<Entry>, held: seq<Entry>, rest: seq<Entry>, m: nat)
    requires m <= |held|
    ensures |done| + m <= |done + held + rest|
    ensures was + done + held[..m] == was + (done + held + rest)[..|done| + m]
  {
  }

  lemma DurableIsDone(s: Journal)
    requires Spelled(s) && s.durable == LastSequence(s.done)
    ensures forall i :: 0 <= i < |s.sent| && s.sent[i].seqNo <= s.durable ==> i < |s.done|
  {
    if s.done != [] {
      var n := |s.done| - 1;
      assert s.sent[n] == s.done[n];
    }
  }

  lemma RecoveredCovers(s: Journal, was: seq<Entry>, n: nat)
    requires Spelled(s) && s.durable == LastSequence(s.done) && |s.done| <= n <= |s.sent|
    ensures was + s.sent[..n] <= was + s.sent
    ensures LastSequence(was + s.sent[..n]) >= s.durable
  {
    assert (was + s.sent)[..|was| + n] == was + s.sent[..n];
    if s.done != [] {
      var k := |s.done| - 1;
      assert s.sent[k] == s.done[k];
      assert k < n - 1 ==> s.sent[k].seqNo < s.sent[n - 1].seqNo;
    }
  }

  /* ---- A file that ends in a torn record ---- */

  lemma Rejoined(file: seq<byte>, n: nat, more: seq<byte>)
    requires n <= |file|
    ensures file + more == file[..n] + (file[n..] + more)
  {
  }

  /** Bytes behind a file add records to it exactly when the file's own stray bytes and they begin with one. */
  lemma BehindTheTear(d: Decoder, file: seq<byte>, more: seq<byte>)
    requires Sane(d)
    ensures var tail := file[Scan(d, file).1..];
            && Scan(d, file + more).0 == Scan(d, file).0 + Scan(d, tail + more).0
            && (Scan(d, file + more).0 == Scan(d, file).0 <==> tail + more == [] || d(tail + more).Err?)
  {
    var (es, n) := Scan(d, file);
    ScanIsLog(d, file);
    ScanThrough(d, file[..n], es, file[n..] + more);
    Rejoined(file, n, more);
    var found := Scan(d, file[n..] + more).0;
    assert es + found == es ==> |found| == 0;
  }

  /** Nothing that was sent is recovered exactly when what comes behind the old records does not begin with a record. */
  ghost predicate BehindTear(d: Decoder, file: seq<byte>, s: Journal) {
    && file <= s.file && Scan(d, file).0 <= Scan(d, s.file).0
    && var behind := s.file[Scan(d, file).1..];
       Scan(d, s.file).0 == Scan(d, file).0 <==> behind == [] || d(behind).Err?
  }

  lemma CrashBehindTear(d: Decoder, enc: Encoder, capacity: nat, batchSize: nat, file: seq<byte>, steps: seq<Step>)
    requires Sane(d) && Run(enc, Start(capacity, batchSize, file), steps)
    ensures BehindTear(d, file, Reached(enc, capacity, batchSize, file, steps))
  {
    NothingIsReordered(enc, capacity, batchSize, file, steps);
    var s := Reached(enc, capacity, batchSize, file, steps);
    var more := Encoded(enc, s.done) + Encoded(enc, s.worker.Held())[..s.worker.Written()];
    Regroup(file, Encoded(enc, s.done), Encoded(enc, s.worker.Held())[..s.worker.Written()]);
    BehindTheTear(d, file, more);
    SliceOfConcat(file, Scan(d, file).1, more);
  }

  /** Whatever file the journal is opened on, and whatever the moment of a crash, in the middle of a write or
      after a failed one: recovery finds the records that were whole before. Where the file ended with them it
      finds a prefix of what was sent behind them, with every durable record in it. Where the file ended in a
      tear, because the journal appends behind that, it finds nothing that was sent exactly when the bytes from
      the tear on do not begin with a record. */
  lemma CrashKeepsDurable(d: Decoder, enc: Encoder, capacity: nat, batchSize: nat, file: seq<byte>, steps: seq<Step>)
    requires Sane(d) && Coded(d, enc) && Run(enc, Start(capacity, batchSize, file), steps)
    ensures var s := Reached(enc, capacity, batchSize, file, steps);
            && BehindTear(d, file, s)
            && (Scan(d, file).1 == |file| ==> KeepsRecords(d, enc, Scan(d, file).0, s))
  {
    CrashBehindTear(d, enc, capacity, batchSize, file, steps);
    if Scan(d, file).1 == |file| {
      ScanIsLog(d, file);
      assert file[..|file|] == file;
      LogKeepsDurable(d, enc, capacity, batchSize, file, Scan(d, file).0, steps);
    }
  }

  /** With the journal's own format, whatever the checksum: after a crash at any moment, what recovery leaves reads
      back, beginning with the old records; where the file had ended with those, it goes on with a prefix of what
      was sent, and the report is not below durable. */
  lemma JournalSurvivesCrash(crc: Crc, capacity: nat, batchSize: nat, file: seq<byte>, steps: seq<Step>)
    requires Run(EncoderOf(crc), Start(capacity, batchSize, file), steps)
    ensures var s := Reached(EncoderOf(crc), capacity, batchSize, file, steps);
            var d := DecoderOf(crc);
            var (was, read) := (Scan(d, file).0, ReadSegment(d, Recovered(d, s.file)));
            && read.Ok? && was <= read.value
            && (Scan(d, file).1 == |file| ==> read.value <= was + s.sent && ReportOf(d, s.file).lastValidSequence >= s.durable)
  {
    FormatIsCoded(crc);
    var (d, enc) := (DecoderOf(crc), EncoderOf(crc));
    CrashKeepsDurable(d, enc, capacity, batchSize, file, steps);
    StartHolds(enc, capacity, batchSize, file);
    RunHolds(enc, file, Start(capacity, batchSize, file), steps);
    var s := Reached(enc, capacity, batchSize, file, steps);
    RecoveryIsExact(d, s.file, 0, []);
    if Scan(d, file).1 == |file| {
      KeepsReport(d, enc, Scan(d, file).0, s);
    }
  }

  lemma KeepsReport(d: Decoder, enc: Encoder, was: seq<Entry>, s: Journal)
    requires KeepsRecords(d, enc, was, s) && Spelled(s) && s.durable == LastSequence(s.done)
    ensures Scan(d, s.file).0 <= was + s.sent && LastSequence(Scan(d, s.file).0) >= s.durable
  {
    RecoveredCovers(s, was, |s.done| + WholeRecords(enc, s.worker.Held(), s.worker.Written()));
  }

  lemma SliceOfConcat(file: seq<byte>, n: nat, more: seq<byte>)
    requires n <= |file|
    ensures (file + more)[n..] == file[n..] + more
  {
  }

  /* ---- Two runs ---- */

  lemma Unroll(enc: Encoder, s: Journal, step: Step, rest: seq<Step>)
    requires Enabled(enc, s, step) && Run(enc, Do(enc, s, step), rest)
    ensures Run(enc, s, [step] + rest) && After(enc, s, [step] + rest) == After(enc, Do(enc, s, step), rest)
  {
    assert ([step] + rest)[1..] == rest;
  }

  /** A journal after an append went past its checks. */
  lemma Admission(enc: Encoder, file: seq<byte>, e: Entry, rest: seq<Step>)
    requires e.seqNo > 0 && Run(enc, Start(8, 4, file).(producer := Admitted(e)), rest)
    ensures Run(enc, Start(8, 4, file), [Begin(e), CheckDegraded, CheckClosed] + rest)
    ensures After(enc, Start(8, 4, file), [Begin(e), CheckDegraded, CheckClosed] + rest)
         == After(enc, Start(8, 4, file).(producer := Admitted(e)), rest)
  {
    var s := Start(8, 4, file);
    Unroll(enc, s.(producer := Healthy(e)), CheckClosed, rest);
    Unroll(enc, s.(producer := Asked(e)), CheckDegraded, [CheckClosed] + rest);
    Unroll(enc, s, Begin(e), [CheckDegraded] + ([CheckClosed] + rest));
    assert [Begin(e)] + ([CheckDegraded] + ([CheckClosed] + rest)) == [Begin(e), CheckDegraded, CheckClosed] + rest;
  }

  /** The worker takes a record that was just sent all the way into the file. */
  lemma WorkerFinishes(enc: Encoder, file: seq<byte>, e: Entry)
    ensures var s := Start(8, 4, file).(queue := [Append(e)], producer := Sent(e), sent := [e]);
            var steps := [Receive] + ([TryReceive] + ([WriteBytes(|enc(e)|)] + ([StoreDurable] + [])));
            Run(enc, s, steps) && After(enc, s, steps).durable == e.seqNo && After(enc, s, steps).accepted == 0
  {
    assert Encoded(enc, [e]) == enc([e][0]) + Encoded(enc, [e][1..]);
    var s1 := Start(8, 4, file).(queue := [Append(e)], producer := Sent(e), sent := [e]);
    var s2 := s1.(queue := [], worker := Filling([e]));
    var s3 := s2.(worker := Writing([e], 0, false));
    var s4 := Do(enc, s3, WriteBytes(|enc(e)|));
    Unroll(enc, s4, StoreDurable, []);
    Unroll(enc, s3, WriteBytes(|enc(e)|), [StoreDurable] + []);
    Unroll(enc, s2, TryReceive, [WriteBytes(|enc(e)|)] + ([StoreDurable] + []));
    Unroll(enc, s1, Receive, [TryReceive] + ([WriteBytes(|enc(e)|)] + ([StoreDurable] + [])));
  }

  lemma SendsFirst(enc: Encoder, s: Journal, e: Entry)
    requires s.producer == Admitted(e) && !s.worker.Gone? && |s.queue| < s.capacity && s.sent == []
    ensures Enabled(enc, s, TrySend)
    ensures Do(enc, s, TrySend)
         == s.(queue := s.queue + [Append(e)], producer := Sent(e), sent := [e], late := s.late || ShutdownSent(s.closer))
    ensures s.queue == [] ==> s.queue + [Append(e)] == [Append(e)]
    ensures s.queue == [Shutdown] ==> s.queue + [Append(e)] == [Shutdown, Append(e)]
  {
    assert [] + [e] == [e];
  }

  /** The worker can be faster than the producer's own store: a record is durable before it counts as accepted. */
  lemma DurableCanLead(enc: Encoder, file: seq<byte>, e: Entry)
    requires e.seqNo > 0
    ensures var steps := [Begin(e), CheckDegraded, CheckClosed] + [TrySend, Receive, TryReceive, WriteBytes(|enc(e)|), StoreDurable];
            && Run(enc, Start(8, 4, file), steps)
            && After(enc, Start(8, 4, file), steps).durable == e.seqNo > After(enc, Start(8, 4, file), steps).accepted
  {
    WorkerFinishes(enc, file, e);
    var rest := [Receive] + ([TryReceive] + ([WriteBytes(|enc(e)|)] + ([StoreDurable] + [])));
    var s0 := Start(8, 4, file).(producer := Admitted(e));
    SendsFirst(enc, s0, e);
    Unroll(enc, s0, TrySend, rest);
    assert [TrySend] + rest == [TrySend, Receive, TryReceive, WriteBytes(|enc(e)|), StoreDurable];
    Admission(enc, file, e, [TrySend] + rest);
  }

  /** Four bytes that announce a payload longer than any record has. */
  function Tear(): seq<byte> {
    [255, 255, 255, 255]
  }

  lemma TearHides(crc: Crc, more: seq<byte>)
    ensures DecodeRecord(crc, Tear() + more).Err?
  {
    assert (Tear() + more)[0..4] == Tear();
    assert U32Of(Tear()) > MAX_PAYLOAD;
  }

  /** On a file that ends in such bytes a record can be reported durable and never be recovered. */
  lemma TornFileLosesDurable(crc: Crc, e: Entry)
    requires e.seqNo > 0
    ensures var enc := EncoderOf(crc);
            var steps := [Begin(e), CheckDegraded, CheckClosed] + [TrySend, Receive, TryReceive, WriteBytes(|enc(e)|), StoreDurable];
            && Run(enc, Start(8, 4, Tear()), steps)
            && After(enc, Start(8, 4, Tear()), steps).durable == e.seqNo
            && Scan(DecoderOf(crc), After(enc, Start(8, 4, Tear()), steps).file).0 == []
  {
    var enc := EncoderOf(crc);
    var steps := [Begin(e), CheckDegraded, CheckClosed] + [TrySend, Receive, TryReceive, WriteBytes(|enc(e)|), StoreDurable];
    DurableCanLead(enc, Tear(), e);
    NothingIsReordered(enc, 8, 4, Tear(), steps);
    var s := After(enc, Start(8, 4, Tear()), steps);
    TearHides(crc, Encoded(enc, s.done) + Encoded(enc, s.worker.Held())[..s.worker.Written()]);
    Regroup(Tear(), Encoded(enc, s.done), Encoded(enc, s.worker.Held())[..s.worker.Written()]);
  }

  /** The worker meets the shutdown message before a record that was sent behind it. */
  lemma WorkerQuits(enc: Encoder, e: Entry, s: Journal)
    requires s == Start(8, 4, []).(queue := [Shutdown, Append(e)], sent := [e], accepted := e.seqNo,
                                   closed := true, closer := Joining, overlapped := true, late := true)
    ensures var steps := [Receive] + ([DropReceiver] + ([Join] + []));
            && Run(enc, s, steps)
            && After(enc, s, steps) == s.(queue := [Append(e)], worker := Gone([], 0), closer := Closed)
  {
    var s1 := s.(queue := [Append(e)], worker := Stopping([], 0));
    Unroll(enc, s1.(worker := Gone([], 0)), Join, []);
    Unroll(enc, s1, DropReceiver, [Join] + []);
    Unroll(enc, s, Receive, [DropReceiver] + ([Join] + []));
  }

  /** Closing while an append is past its checks can lose a record that the journal accepted. */
  lemma CloseCanLoseAnAppend(enc: Encoder, e: Entry)
    requires e.seqNo > 0
    ensures var steps := [Begin(e), CheckDegraded, CheckClosed]
                         + [SwapClosed, SendShutdown, TrySend, StoreAccepted, Receive, DropReceiver, Join];
            && Run(enc, Start(8, 4, []), steps)
            && var s := After(enc, Start(8, 4, []), steps);
               s.closer.Closed? && !s.degraded && s.accepted == e.seqNo && s.file == []
  {
    var s0 := Start(8, 4, []).(producer := Admitted(e));
    var s1 := s0.(closed := true, closer := Closing, overlapped := true);
    var s2 := s1.(queue := [Shutdown], closer := Joining);
    var s3 := s2.(queue := [Shutdown, Append(e)], producer := Sent(e), sent := [e], late := true);
    var s4 := s3.(producer := Idle, accepted := e.seqNo);
    var last := [Receive] + ([DropReceiver] + ([Join] + []));
    WorkerQuits(enc, e, s4);
    Unroll(enc, s3, StoreAccepted, last);
    SendsFirst(enc, s2, e);
    Unroll(enc, s2, TrySend, [StoreAccepted] + last);
    assert Do(enc, s1, SendShutdown).queue == [Shutdown];
    Unroll(enc, s1, SendShutdown, [TrySend] + ([StoreAccepted] + last));
    var rest := [SendShutdown] + ([TrySend] + ([StoreAccepted] + last));
    Unroll(enc, s0, SwapClosed, rest);
    assert [SwapClosed] + rest == [SwapClosed, SendShutdown, TrySend, StoreAccepted, Receive, DropReceiver, Join];
    Admission(enc, [], e, [SwapClosed] + rest);
  }
}
