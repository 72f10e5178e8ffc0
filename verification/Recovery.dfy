/** Recovery after a crash: each segment is cut back to its longest decodable prefix. */
module Recovery {
  import opened Bytes
  import opened Codec
  import opened Records
  import opened Logs

  function DecoderOf(crc: Crc): Decoder {
    (data: seq<byte>) => DecodeRecord(crc, data)
  }

  /** The record format is one that logs can be made of. */
  lemma DecoderIsSane(crc: Crc)
    ensures Sane(DecoderOf(crc))
  {
    var d := DecoderOf(crc);
    forall data | d(data).Ok? ensures 0 < d(data).value.used <= |data| {
      DecodedSize(crc, data);
    }
    forall data, other ensures Local(d, data, other) {
      if d(data).Ok? && d(data).value.used <= |data| && d(data).value.used <= |other|
         && data[..d(data).value.used] == other[..d(data).value.used] {
        DecodeIsLocal(crc, data, other);
      }
    }
  }

  /* ---- One segment ---- */

  /** A file, as far as the journal sees it. */
  class SegmentFile {
    var bytes: seq<byte>

    constructor (bytes: seq<byte>)
      ensures this.bytes == bytes
    {
      this.bytes := bytes;
    }
  }

  datatype RecoveryReport = RecoveryReport(lastValidSequence: nat, truncatedBytes: nat)

  function LastSequence(es: seq<Entry>): nat {
    if es == [] then 0 else es[|es| - 1].seqNo
  }

  function ReportOf(d: Decoder, data: seq<byte>): RecoveryReport {
    RecoveryReport(LastSequence(Scan(d, data).0), |data| - Scan(d, data).1)
  }

  function Recovered(d: Decoder, data: seq<byte>): seq<byte> {
    data[..Scan(d, data).1]
  }

  /** What recovery leaves reads back in full, is a prefix that no longer decodable prefix exceeds,
      and is left alone by a second recovery. */
  lemma RecoveryIsExact(d: Decoder, data: seq<byte>, k: nat, es: seq<Entry>)
    requires Sane(d) && k <= |data|
    ensures Recovered(d, data) <= data
    ensures ReadSegment(d, Recovered(d, data)) == Ok(Scan(d, data).0)
    ensures ReadSegment(d, data[..k]) == Ok(es) ==> data[..k] <= Recovered(d, data) && es <= Scan(d, data).0
    ensures Recovered(d, Recovered(d, data)) == Recovered(d, data)
    ensures ReportOf(d, Recovered(d, data)) == RecoveryReport(LastSequence(Scan(d, data).0), 0)
  {
    ScanIsLog(d, data);
    ReadSegmentIsExact(d, Recovered(d, data), Scan(d, data).0);
    LogIsKept(d, Recovered(d, data), Scan(d, data).0);
    ReadSegmentIsExact(d, data[..k], es);
    if ReadSegment(d, data[..k]) == Ok(es) {
      ScanIsLongest(d, data, k, es);
    }
  }

  /** The scan of a file has found `done` up to `pos`, and goes on with the bytes of `tail`. */
  predicate Found(d: Decoder, total: (seq<Entry>, nat), done: seq<Entry>, pos: nat, tail: seq<byte>) {
    total == (done + Scan(d, tail).0, pos + Scan(d, tail).1)
  }

  lemma FoundNothing(d: Decoder, data: seq<byte>)
    ensures Found(d, Scan(d, data), [], 0, data)
  {
    assert [] + Scan(d, data).0 == Scan(d, data).0;
  }

  lemma FoundAll(d: Decoder, total: (seq<Entry>, nat), done: seq<Entry>, pos: nat, tail: seq<byte>)
    requires Found(d, total, done, pos, tail) && (tail == [] || d(tail).Err?)
    ensures total == (done, pos)
  {
    assert done + [] == done;
  }

  lemma FoundMore(d: Decoder, total: (seq<Entry>, nat), done: seq<Entry>, pos: nat, tail: seq<byte>)
    requires Sane(d) && Found(d, total, done, pos, tail) && tail != [] && d(tail).Ok?
    ensures var r := d(tail).value;
            0 < r.used <= |tail| && Found(d, total, done + [EntryOf(r)], pos + r.used, tail[r.used..])
  {
    var r := d(tail).value;
    EntryMoves(done, EntryOf(r), Scan(d, tail[r.used..]).0);
  }

  lemma EntryMoves(done: seq<Entry>, e: Entry, more: seq<Entry>)
    ensures done + ([e] + more) == done + [e] + more
  {
  }

  /** Move over the records at the front of some bytes: where they end, and the last sequence number. */
  method ScanRecords(d: Decoder, data: seq<byte>) returns (lastValidOffset: nat, lastValidSequence: nat)
    requires Sane(d)
    ensures lastValidOffset == Scan(d, data).1 && lastValidSequence == LastSequence(Scan(d, data).0)
  {
    var pos := 0;
    lastValidOffset, lastValidSequence := 0, 0;
    ghost var total, done := Scan(d, data), [];
    FoundNothing(d, data);
    assert data[0..] == data;
    while pos < |data|
      invariant 0 <= pos <= |data| && lastValidOffset == pos && lastValidSequence == LastSequence(done)
      invariant Found(d, total, done, pos, data[pos..])
    {
      var decoded := d(data[pos..]);
      if decoded.Err? {
        break;
      }
      FoundMore(d, total, done, pos, data[pos..]);
      var r := decoded.value;
      assert data[pos..][r.used..] == data[pos + r.used..];
      pos := pos + r.used;
      lastValidOffset, lastValidSequence := pos, r.seqNo;
      done := done + [EntryOf(r)];
    }
    FoundAll(d, total, done, pos, data[pos..]);
  }

  /** Scan a file for records and cut off what comes after the last good one. */
  method RecoverFile(crc: Crc, file: SegmentFile) returns (report: RecoveryReport)
    modifies file
    ensures file.bytes == Recovered(DecoderOf(crc), old(file.bytes))
    ensures report == ReportOf(DecoderOf(crc), old(file.bytes))
  {
    DecoderIsSane(crc);
    var data := file.bytes;
    var lastValidOffset, lastValidSequence := ScanRecords(DecoderOf(crc), data);
    var truncatedBytes := |data| - lastValidOffset;
    if truncatedBytes > 0 {
      file.bytes := data[..lastValidOffset];
    }
    report := RecoveryReport(lastValidSequence, truncatedBytes);
  }

  /* ---- Whole directories ---- */

  function RecoveredAll(d: Decoder, segments: seq<seq<byte>>): seq<seq<byte>> {
    if segments == [] then []
    else RecoveredAll(d, segments[..|segments| - 1]) + [Recovered(d, segments[|segments| - 1])]
  }

  /** The entries that recovery keeps, segment after segment. */
  function EntriesOf(d: Decoder, segments: seq<seq<byte>>): seq<Entry> {
    if segments == [] then []
    else EntriesOf(d, segments[..|segments| - 1]) + Scan(d, segments[|segments| - 1]).0
  }

  function Joined(report: RecoveryReport, segment: RecoveryReport): RecoveryReport {
    RecoveryReport(if segment.lastValidSequence != 0 then segment.lastValidSequence else report.lastValidSequence,
                   report.truncatedBytes + segment.truncatedBytes)
  }

  function DirReport(d: Decoder, segments: seq<seq<byte>>): RecoveryReport {
    if segments == [] then RecoveryReport(0, 0)
    else Joined(DirReport(d, segments[..|segments| - 1]), ReportOf(d, segments[|segments| - 1]))
  }

  function BytesIn(segments: seq<seq<byte>>): nat {
    if segments == [] then 0 else BytesIn(segments[..|segments| - 1]) + |segments[|segments| - 1]|
  }

  /** The report counts every byte that recovering the segments cut off. */
  lemma {:induction false} DirReportCountsCuts(d: Decoder, segments: seq<seq<byte>>)
    ensures BytesIn(RecoveredAll(d, segments)) + DirReport(d, segments).truncatedBytes == BytesIn(segments)
  {
    if segments != [] {
      var n := |segments| - 1;
      DirReportCountsCuts(d, segments[..n]);
      var all := RecoveredAll(d, segments);
      assert all[..|all| - 1] == RecoveredAll(d, segments[..n]);
    }
  }

  /** A recovered directory reads back in full, with the entries that were kept. */
  lemma {:induction false} RecoveredDirReads(d: Decoder, segments: seq<seq<byte>>)
    requires Sane(d)
    ensures ReadSegments(d, RecoveredAll(d, segments)) == Ok(EntriesOf(d, segments))
  {
    if segments != [] {
      var n := |segments| - 1;
      RecoveredDirReads(d, segments[..n]);
      RecoveryIsExact(d, segments[n], 0, []);
      var all := RecoveredAll(d, segments);
      assert all[..|all| - 1] == RecoveredAll(d, segments[..n]);
    }
  }

  /** No sequence number to report. */
  predicate EndsInZero(d: Decoder, segment: seq<byte>) {
    LastSequence(Scan(d, segment).0) == 0
  }

  ghost predicate AllEndInZero(d: Decoder, segments: seq<seq<byte>>) {
    forall i {:trigger EndsInZero(d, segments[i])} :: 0 <= i < |segments| ==> EndsInZero(d, segments[i])
  }

  lemma AllButLast(d: Decoder, segments: seq<seq<byte>>)
    requires segments != []
    ensures AllEndInZero(d, segments)
        <==> AllEndInZero(d, segments[..|segments| - 1]) && EndsInZero(d, segments[|segments| - 1])
  {
    var n := |segments| - 1;
    if AllEndInZero(d, segments) {
      forall i | 0 <= i < n ensures EndsInZero(d, segments[..n][i]) {
        assert EndsInZero(d, segments[i]);
      }
      assert EndsInZero(d, segments[n]);
    } else if AllEndInZero(d, segments[..n]) {
      forall i | 0 <= i < n ensures EndsInZero(d, segments[i]) {
        assert EndsInZero(d, segments[..n][i]);
      }
    }
  }

  lemma {:induction false} DirReportIsZero(d: Decoder, segments: seq<seq<byte>>)
    ensures DirReport(d, segments).lastValidSequence == 0 <==> AllEndInZero(d, segments)
  {
    if segments != [] {
      DirReportIsZero(d, segments[..|segments| - 1]);
      AllButLast(d, segments);
    }
  }

  /** The report names the last entry that was kept, unless just that has the sequence number zero and a segment ends
      in another one. */
  lemma DirReportNamesLast(d: Decoder, segments: seq<seq<byte>>)
    ensures DirReport(d, segments).lastValidSequence == LastSequence(EntriesOf(d, segments))
        <==> LastSequence(EntriesOf(d, segments)) != 0 || AllEndInZero(d, segments)
  {
    DirReportIsZero(d, segments);
    NonZeroIsNamed(d, segments);
  }

  lemma {:induction false} NonZeroIsNamed(d: Decoder, segments: seq<seq<byte>>)
    ensures LastSequence(EntriesOf(d, segments)) != 0
        ==> DirReport(d, segments).lastValidSequence == LastSequence(EntriesOf(d, segments))
  {
    if segments != [] {
      NonZeroIsNamed(d, segments[..|segments| - 1]);
    }
  }

  /* ---- What a directory recovers to ---- */

  /** The entries of all segments in a row. */
  function Flat(parts: seq<seq<Entry>>): seq<Entry> {
    if parts == [] then [] else Flat(parts[..|parts| - 1]) + parts[|parts| - 1]
  }

  /** Sequence numbers only grow. */
  ghost predicate SequencesGrow(es: seq<Entry>) {
    forall i, j :: 0 <= i < j < |es| ==> es[i].seqNo < es[j].seqNo
  }

  /** Each part is the beginning of what it should be. */
  ghost predicate Begins(kept: seq<seq<Entry>>, full: seq<seq<Entry>>) {
    |kept| == |full| && forall i :: 0 <= i < |kept| ==> kept[i] <= full[i]
  }

  /** Behind a part that lacks something there is nothing. */
  ghost predicate NothingBehindAGap(kept: seq<seq<Entry>>, full: seq<seq<Entry>>)
    requires |kept| == |full|
  {
    forall i, j :: 0 <= i < j < |kept| ==> kept[i] == full[i] || kept[j] == []
  }

  lemma {:induction false} FlatIsShorter(kept: seq<seq<Entry>>, full: seq<seq<Entry>>)
    requires Begins(kept, full)
    ensures |Flat(kept)| <= |Flat(full)|
    ensures |Flat(kept)| == |Flat(full)| <==> kept == full
  {
    if kept != [] {
      var n := |kept| - 1;
      FlatIsShorter(kept[..n], full[..n]);
      assert kept == kept[..n] + [kept[n]] && full == full[..n] + [full[n]];
      assert |kept[n]| == |full[n]| ==> kept[n] == full[n];
    }
  }

  lemma PrefixOfLonger(a: seq<Entry>, b: seq<Entry>, x: seq<Entry>, y: seq<Entry>)
    requires a + b <= x + y && |a| <= |x|
    ensures a <= x
  {
    assert (a + b)[..|a|] == a && (x + y)[..|a|] == x[..|a|];
  }

  /** What begins behind a gap is not where it belongs. */
  lemma GapShifts(a: seq<Entry>, b: seq<Entry>, x: seq<Entry>, y: seq<Entry>)
    requires |a| < |x| && b != [] && b <= y && SequencesGrow(x + y)
    ensures !(a + b <= x + y)
  {
    assert (a + b)[|a|] == b[0] == y[0] == (x + y)[|x|];
  }

  /** One more part keeps a prefix exactly when it is empty or nothing is missing in front of it. */
  lemma OneMorePart(a: seq<Entry>, b: seq<Entry>, x: seq<Entry>, y: seq<Entry>)
    requires |a| <= |x| && b <= y && SequencesGrow(x + y)
    ensures a + b <= x + y <==> a <= x && (b == [] || |a| == |x|)
  {
    if a + b <= x + y {
      PrefixOfLonger(a, b, x, y);
      if b != [] && |a| < |x| {
        GapShifts(a, b, x, y);
      }
    } else if a <= x {
      assert b == [] ==> a + b == a;
      assert |a| == |x| ==> a == x;
    }
  }

  lemma AscendingFront(x: seq<Entry>, y: seq<Entry>)
    requires SequencesGrow(x + y)
    ensures SequencesGrow(x)
  {
    assert forall i :: 0 <= i < |x| ==> x[i] == (x + y)[i];
  }

  lemma GapsButLast(kept: seq<seq<Entry>>, full: seq<seq<Entry>>, n: nat)
    requires |kept| == |full| == n + 1
    ensures NothingBehindAGap(kept, full)
        <==> NothingBehindAGap(kept[..n], full[..n]) && (kept[n] == [] || kept[..n] == full[..n])
  {
    if NothingBehindAGap(kept, full) && kept[n] != [] {
      assert kept[..n] == full[..n];
    } else if NothingBehindAGap(kept[..n], full[..n]) && (kept[n] == [] || kept[..n] == full[..n]) {
      forall i, j | 0 <= i < j < n + 1 ensures kept[i] == full[i] || kept[j] == [] {
        assert kept[i] == kept[..n][i] && full[i] == full[..n][i];
        assert j < n ==> kept[j] == kept[..n][j];
      }
    }
  }

  lemma {:induction false} PrefixExactly(kept: seq<seq<Entry>>, full: seq<seq<Entry>>)
    requires Begins(kept, full) && SequencesGrow(Flat(full))
    ensures Flat(kept) <= Flat(full) <==> NothingBehindAGap(kept, full)
  {
    if kept != [] {
      var n := |kept| - 1;
      AscendingFront(Flat(full[..n]), full[n]);
      PrefixExactly(kept[..n], full[..n]);
      FlatIsShorter(kept[..n], full[..n]);
      OneMorePart(Flat(kept[..n]), kept[n], Flat(full[..n]), full[n]);
      GapsButLast(kept, full, n);
    }
  }

  /** What recovery keeps of each segment. */
  function KeptOf(d: Decoder, segments: seq<seq<byte>>): seq<seq<Entry>> {
    seq(|segments|, i requires 0 <= i < |segments| => Scan(d, segments[i]).0)
  }

  lemma {:induction false} EntriesAreKept(d: Decoder, segments: seq<seq<byte>>)
    ensures EntriesOf(d, segments) == Flat(KeptOf(d, segments))
  {
    if segments != [] {
      var n := |segments| - 1;
      EntriesAreKept(d, segments[..n]);
      assert KeptOf(d, segments)[..n] == KeptOf(d, segments[..n]);
    }
  }

  /** A segment that was cut anywhere keeps the beginning of its records, and all of them only if nothing was cut. */
  lemma CutSegment(d: Decoder, enc: Encoder, segment: seq<byte>, es: seq<Entry>)
    requires Sane(d) && Coded(d, enc) && segment <= Encoded(enc, es)
    ensures Scan(d, segment).0 <= es
    ensures Scan(d, segment).0 == es <==> segment == Encoded(enc, es)
  {
    var k := |segment|;
    CutLog(d, enc, [], [], es, k);
    assert [] + Encoded(enc, es)[..k] == segment;
    var n := WholeRecords(enc, es, k);
    assert [] + es[..n] == es[..n];
    if es[..n] == es {
      assert n == |es| && |segment| == |Encoded(enc, es)|;
    } else {
      assert n < |es|;
      EncodedIsLog(d, enc, es);
      LogIsKept(d, Encoded(enc, es), es);
    }
  }

  /** Whole, with all that was written to it. */
  predicate Whole(enc: Encoder, segment: seq<byte>, es: seq<Entry>) {
    segment == Encoded(enc, es)
  }

  /** A directory whose segments were cut anywhere recovers to a prefix of what was written exactly when behind a segment that was
      cut no whole record is left. */
  lemma CutDirRecovers(d: Decoder, enc: Encoder, segments: seq<seq<byte>>, written: seq<seq<Entry>>)
    requires Sane(d) && Coded(d, enc) && |segments| == |written| && SequencesGrow(Flat(written))
    requires forall i :: 0 <= i < |segments| ==> segments[i] <= Encoded(enc, written[i])
    ensures ReadSegments(d, RecoveredAll(d, segments)) == Ok(EntriesOf(d, segments))
    ensures EntriesOf(d, segments) <= Flat(written)
        <==> forall i, j :: 0 <= i < j < |segments| ==> Whole(enc, segments[i], written[i]) || Scan(d, segments[j]).0 == []
  {
    RecoveredDirReads(d, segments);
    EntriesAreKept(d, segments);
    AllCut(d, enc, segments, written);
    PrefixExactly(KeptOf(d, segments), written);
  }

  lemma AllCut(d: Decoder, enc: Encoder, segments: seq<seq<byte>>, written: seq<seq<Entry>>)
    requires Sane(d) && Coded(d, enc) && |segments| == |written|
    requires forall i :: 0 <= i < |segments| ==> segments[i] <= Encoded(enc, written[i])
    ensures Begins(KeptOf(d, segments), written)
    ensures NothingBehindAGap(KeptOf(d, segments), written)
        <==> forall i, j :: 0 <= i < j < |segments| ==> Whole(enc, segments[i], written[i]) || Scan(d, segments[j]).0 == []
  {
    var kept := KeptOf(d, segments);
    forall i | 0 <= i < |segments|
      ensures kept[i] <= written[i] && (kept[i] == written[i] <==> Whole(enc, segments[i], written[i])) {
      CutSegment(d, enc, segments[i], written[i]);
    }
  }

  /** A first segment that lost its one record and a second that kept its own leave just the second. */
  lemma GapCanOpen(d: Decoder, enc: Encoder, e1: Entry, e2: Entry)
    requires Sane(d) && Coded(d, enc) && e1 != e2
    ensures EntriesOf(d, [[], enc(e2)]) == [e2]
    ensures !([e2] <= Flat([[e1], [e2]]))
  {
    OneRecord(d, enc, e2);
    LogIsKept(d, enc(e2), [e2]);
    var segments: seq<seq<byte>> := [[], enc(e2)];
    assert segments[..1][..0] == [] && segments[..1][0] == [];
    assert EntriesOf(d, segments[..1]) == EntriesOf(d, segments[..1][..0]) + Scan(d, segments[..1][0]).0;
    var full := [[e1], [e2]];
    assert full[..1][..0] == [] && full[..1][0] == [e1];
    assert Flat(full[..1]) == Flat(full[..1][..0]) + full[..1][0];
    assert Flat(full)[0] == e1;
  }

  ghost function BytesOf(files: seq<SegmentFile>): seq<seq<byte>>
    reads files
  {
    seq(|files|, i requires 0 <= i < |files| reads files => files[i].bytes)
  }

  lemma NextReport(d: Decoder, segments: seq<seq<byte>>, i: nat)
    requires i < |segments|
    ensures DirReport(d, segments[..i + 1]) == Joined(DirReport(d, segments[..i]), ReportOf(d, segments[i]))
  {
    assert segments[..i + 1][..i] == segments[..i];
  }

  /** Recover each segment of a directory in turn. */
  method RecoverDir(crc: Crc, files: seq<SegmentFile>) returns (report: RecoveryReport)
    requires forall i, j :: 0 <= i < j < |files| ==> files[i] != files[j]
    modifies files
    ensures forall i :: 0 <= i < |files| ==> files[i].bytes == Recovered(DecoderOf(crc), old(files[i].bytes))
    ensures report == DirReport(DecoderOf(crc), old(BytesOf(files)))
  {
    report := RecoveryReport(0, 0);
    ghost var d, was := DecoderOf(crc), BytesOf(files);
    for i := 0 to |files|
      invariant forall k :: 0 <= k < i ==> files[k].bytes == Recovered(d, was[k])
      invariant forall k :: i <= k < |files| ==> files[k].bytes == was[k]
      invariant report == DirReport(d, was[..i])
    {
      NextReport(d, was, i);
      var segmentReport := RecoverFile(crc, files[i]);
      assert segmentReport == ReportOf(d, was[i]);
      if segmentReport.lastValidSequence != 0 {
        report := report.(lastValidSequence := segmentReport.lastValidSequence);
      }
      report := report.(truncatedBytes := report.truncatedBytes + segmentReport.truncatedBytes);
    }
    assert was[..|files|] == was;
  }

  /* ---- The journal's own format ---- */

  function EncoderOf(crc: Crc): Encoder {
    (e: Entry) => EncodeRecord(crc, e.seqNo, e.cmd)
  }

  /** The record format reads back what it writes, and finds out a torn record, whatever the checksum. */
  lemma FormatIsCoded(crc: Crc)
    ensures Sane(DecoderOf(crc)) && Coded(DecoderOf(crc), EncoderOf(crc))
  {
    DecoderIsSane(crc);
    forall e, tail ensures RoundTrips(DecoderOf(crc), EncoderOf(crc), e, tail) {
      RecordTrip(crc, e.seqNo, e.cmd, tail);
    }
    forall e, k: nat ensures Tears(DecoderOf(crc), EncoderOf(crc), e, k) {
      if k < |EncodeRecord(crc, e.seqNo, e.cmd)| {
        TornRecord(crc, e.seqNo, e.cmd, k);
      }
    }
  }

  /** Records of the journal with a strict prefix of one more behind them recover to exactly those records. */
  lemma JournalTornTail(crc: Crc, es: seq<Entry>, e: Entry, k: nat)
    requires k < |EncodeRecord(crc, e.seqNo, e.cmd)|
    ensures var data := Encoded(EncoderOf(crc), es) + EncodeRecord(crc, e.seqNo, e.cmd)[..k];
            && Recovered(DecoderOf(crc), data) == Encoded(EncoderOf(crc), es)
            && ReportOf(DecoderOf(crc), data) == RecoveryReport(LastSequence(es), k)
  {
    FormatIsCoded(crc);
    EncodedIsLog(DecoderOf(crc), EncoderOf(crc), es);
    TornTail(DecoderOf(crc), EncoderOf(crc), Encoded(EncoderOf(crc), es), es, e, k);
  }
}
