/** The two readers over a list of segments: one that reads everything at once,
    and one that streams record by record. */
module Readers {
  import opened Types
  import opened Bytes
  import opened Codec
  import opened Records
  import opened Logs
  import opened Recovery

  /* ---- Reading everything ---- */

  /** The entries read so far, and then what the rest of the segment reads as. */
  lemma ReadOn(d: Decoder, es: seq<Entry>, tail: seq<byte>)
    requires tail != [] && d(tail).Ok? && 0 < d(tail).value.used <= |tail|
    ensures var r := d(tail).value;
            Append(Ok(es), ReadSegment(d, tail)) == Append(Ok(es + [EntryOf(r)]), ReadSegment(d, tail[r.used..]))
  {
    var rest := ReadSegment(d, tail[d(tail).value.used..]);
    if rest.Ok? {
      EntryMoves(es, EntryOf(d(tail).value), rest.value);
    }
  }

  /** An error in one segment is the error of the whole. */
  lemma {:induction false} ErrorsStay(d: Decoder, segments: seq<seq<byte>>, k: nat)
    requires k <= |segments| && ReadSegments(d, segments[..k]).Err?
    ensures ReadSegments(d, segments) == ReadSegments(d, segments[..k])
  {
    if k < |segments| {
      assert segments[..|segments| - 1][..k] == segments[..k];
      ErrorsStay(d, segments[..|segments| - 1], k);
    } else {
      assert segments[..k] == segments;
    }
  }

  /** Reading a directory fails with the error of its first segment that does not read. */
  lemma FirstErrorCounts(d: Decoder, segments: seq<seq<byte>>, k: nat)
    requires k < |segments| && ReadSegments(d, segments[..k]).Ok? && ReadSegment(d, segments[k]).Err?
    ensures ReadSegments(d, segments) == Err(ReadSegment(d, segments[k]).error)
  {
    assert segments[..k + 1][..k] == segments[..k];
    ErrorsStay(d, segments, k + 1);
  }

  method ReadInto(d: Decoder, entries: seq<Entry>, data: seq<byte>) returns (r: Result<seq<Entry>>)
    requires Sane(d)
    ensures r == Append(Ok(entries), ReadSegment(d, data))
  {
    var pos, es := 0, entries;
    assert data[0..] == data;
    while pos < |data|
      invariant 0 <= pos <= |data|
      invariant Append(Ok(entries), ReadSegment(d, data)) == Append(Ok(es), ReadSegment(d, data[pos..]))
    {
      var decoded := d(data[pos..]);
      if decoded.Err? {
        return Err(decoded.error);
      }
      ReadOn(d, es, data[pos..]);
      var record := decoded.value;
      assert data[pos..][record.used..] == data[pos + record.used..];
      pos := pos + record.used;
      es := es + [EntryOf(record)];
    }
    assert es + [] == es;
    r := Ok(es);
  }

  /** Read and validate every record of every segment. */
  method ReadAll(crc: Crc, segments: seq<seq<byte>>) returns (r: Result<seq<Entry>>)
    ensures r == ReadSegments(DecoderOf(crc), segments)
  {
    DecoderIsSane(crc);
    r := ReadList(DecoderOf(crc), segments);
  }

  method ReadList(d: Decoder, segments: seq<seq<byte>>) returns (r: Result<seq<Entry>>)
    requires Sane(d)
    ensures r == ReadSegments(d, segments)
  {
    var entries := [];
    for i := 0 to |segments|
      invariant ReadSegments(d, segments[..i]) == Ok(entries)
    {
      assert segments[..i + 1][..i] == segments[..i];
      r := ReadInto(d, entries, segments[i]);
      if r.Err? {
        ErrorsStay(d, segments, i + 1);
        return;
      }
      entries := r.value;
    }
    assert segments[..|segments|] == segments;
    r := Ok(entries);
  }

  /* ---- Streaming ---- */

  /** What a segment streams as: fewer than four bytes pass for its end. */
  function StreamSegment(d: Decoder, data: seq<byte>): Result<seq<Entry>>
    decreases |data|
  {
    if |data| < 4 then Ok([])
    else
      match d(data)
      case Err(e) => Err(e)
      case Ok(r) =>
        if 0 < r.used <= |data| then Cons(EntryOf(r), StreamSegment(d, data[r.used..])) else Err(InvalidData)
  }

  function StreamSegments(d: Decoder, segments: seq<seq<byte>>): Result<seq<Entry>> {
    if segments == [] then Ok([]) else Append(StreamSegment(d, segments[0]), StreamSegments(d, segments[1..]))
  }

  /** A record has at least a header. */
  ghost predicate Headed(d: Decoder) {
    forall data :: d(data).Ok? ==> |data| >= 4
  }

  lemma DecoderIsHeaded(crc: Crc)
    ensures Headed(DecoderOf(crc))
  {
  }

  lemma {:induction false} StreamIsScan(d: Decoder, data: seq<byte>)
    requires Sane(d) && Headed(d)
    ensures StreamSegment(d, data).Ok? <==> |data| - Scan(d, data).1 < 4
    ensures StreamSegment(d, data).Ok? ==> StreamSegment(d, data).value == Scan(d, data).0
    decreases |data|
  {
    if |data| >= 4 && d(data).Ok? {
      StreamIsScan(d, data[d(data).value.used..]);
    }
  }

  lemma ReadIsScan(d: Decoder, data: seq<byte>)
    requires Sane(d)
    ensures ReadSegment(d, data).Ok? <==> Scan(d, data).1 == |data|
    ensures ReadSegment(d, data).Ok? ==> ReadSegment(d, data).value == Scan(d, data).0
  {
    if ReadSegment(d, data).Ok? {
      ReadSegmentIsExact(d, data, ReadSegment(d, data).value);
      LogIsKept(d, data, ReadSegment(d, data).value);
    }
    if Scan(d, data).1 == |data| {
      ScanIsLog(d, data);
      assert data[..|data|] == data;
      ReadSegmentIsExact(d, data, Scan(d, data).0);
    }
  }

  /** The stray bytes behind the last record of a segment. */
  function Stray(d: Decoder, data: seq<byte>): nat {
    |data| - Scan(d, data).1
  }

  /** A segment that streams reads the same exactly when no stray byte is behind its last record. */
  lemma StreamAgreesExactly(d: Decoder, data: seq<byte>)
    requires Sane(d) && Headed(d)
    ensures StreamSegment(d, data) == ReadSegment(d, data) <==> !(0 < Stray(d, data) < 4)
    ensures 0 < Stray(d, data) < 4 ==> StreamSegment(d, data) == Ok(Scan(d, data).0) && ReadSegment(d, data).Err?
  {
    StreamIsScan(d, data);
    ReadIsScan(d, data);
    SameErrors(d, data);
  }

  /** So one to three bytes alone are no records to one reader and an error to the other. */
  lemma StrayBytesDiffer(crc: Crc, data: seq<byte>)
    requires 0 < |data| < 4
    ensures StreamSegment(DecoderOf(crc), data) == Ok([]) && ReadSegment(DecoderOf(crc), data).Err?
  {
  }

  lemma {:induction false} SameErrors(d: Decoder, data: seq<byte>)
    requires Sane(d) && Headed(d)
    ensures StreamSegment(d, data).Err? ==> ReadSegment(d, data) == StreamSegment(d, data)
    decreases |data|
  {
    if |data| >= 4 && d(data).Ok? {
      SameErrors(d, data[d(data).value.used..]);
    }
  }

  lemma AppendAssociates(a: Result<seq<Entry>>, b: Result<seq<Entry>>, c: Result<seq<Entry>>)
    ensures Append(Append(a, b), c) == Append(a, Append(b, c))
  {
    if a.Ok? && b.Ok? && c.Ok? {
      assert a.value + b.value + c.value == a.value + (b.value + c.value);
    }
  }

  lemma {:induction false} ReadFirst(d: Decoder, segments: seq<seq<byte>>)
    requires segments != []
    ensures ReadSegments(d, segments) == Append(ReadSegment(d, segments[0]), ReadSegments(d, segments[1..]))
  {
    var n := |segments| - 1;
    if n == 0 {
      var one := ReadSegment(d, segments[0]);
      assert one.Ok? ==> [] + one.value == one.value && one.value + [] == one.value;
    } else {
      ReadFirst(d, segments[..n]);
      assert segments[..n][1..] == segments[1..][..n - 1];
      AppendAssociates(ReadSegment(d, segments[0]), ReadSegments(d, segments[1..][..n - 1]), ReadSegment(d, segments[n]));
    }
  }

  /** Where no segment ends in one to three stray bytes, both readers yield the same, errors included. */
  lemma {:induction false} ReadersAgree(d: Decoder, segments: seq<seq<byte>>)
    requires Sane(d) && Headed(d)
    requires forall k :: 0 <= k < |segments| ==> !(0 < Stray(d, segments[k]) < 4)
    ensures StreamSegments(d, segments) == ReadSegments(d, segments)
  {
    if segments != [] {
      ReadFirst(d, segments);
      StreamAgreesExactly(d, segments[0]);
      ReadersAgree(d, segments[1..]);
    }
  }

  /** The streaming reader yields what reading everything yields, on every list of segments that reads at all. */
  lemma {:induction false} StreamingAgrees(d: Decoder, segments: seq<seq<byte>>)
    requires Sane(d) && Headed(d) && ReadSegments(d, segments).Ok?
    ensures StreamSegments(d, segments) == ReadSegments(d, segments)
  {
    if segments != [] {
      ReadFirst(d, segments);
      StreamAgreesExactly(d, segments[0]);
      ReadIsScan(d, segments[0]);
      StreamingAgrees(d, segments[1..]);
    }
  }

  /** Decoding a record from just its own bytes is decoding it where it stands. */
  lemma FullRecord(crc: Crc, rest: seq<byte>)
    requires |rest| >= 4
    ensures var n := U32Of(rest[..4]);
            && (|rest| < 16 + n ==> DecodeRecord(crc, rest) == Err(InvalidData))
            && (|rest| >= 16 + n ==> DecodeRecord(crc, rest[..16 + n]) == DecodeRecord(crc, rest))
            && (DecodeRecord(crc, rest).Ok? ==> DecodeRecord(crc, rest).value.used == 16 + n <= |rest|)
  {
    var n := U32Of(rest[..4]);
    assert rest[..4] == rest[0..4];
    if |rest| >= 16 + n {
      assert rest[..16 + n][0..4] == rest[0..4];
      if n <= MAX_PAYLOAD {
        FrameIsLocal(rest, rest[..16 + n]);
      }
    }
    if DecodeRecord(crc, rest).Ok? {
      DecodedSize(crc, rest);
    }
  }

  /** One step of streaming a segment. */
  lemma StreamOn(d: Decoder, rest: seq<byte>, later: Result<seq<Entry>>)
    requires |rest| >= 4 && d(rest).Ok? && 0 < d(rest).value.used <= |rest|
    ensures var r := d(rest).value;
            Append(StreamSegment(d, rest), later) == Cons(EntryOf(r), Append(StreamSegment(d, rest[r.used..]), later))
  {
    var r := d(rest).value;
    var tail := StreamSegment(d, rest[r.used..]);
    if tail.Ok? && later.Ok? {
      assert [EntryOf(r)] + tail.value + later.value == [EntryOf(r)] + (tail.value + later.value);
    }
  }

  /** A reader that holds one open segment at a time. */
  class StreamingReader {
    const crc: Crc
    const segments: seq<seq<byte>>
    var currentSegment: nat
    /** What is left of the open segment. */
    var reader: Option<seq<byte>>

    ghost predicate Valid()
      reads this
    {
      currentSegment <= |segments| && (reader.None? ==> currentSegment == |segments|)
    }

    /** What is still to come. */
    ghost function Remaining(): Result<seq<Entry>>
      requires Valid()
      reads this
    {
      if reader.None? then Ok([])
      else Append(StreamSegment(DecoderOf(crc), reader.value), StreamSegments(DecoderOf(crc), segments[currentSegment..]))
    }

    constructor (crc: Crc, segments: seq<seq<byte>>)
      ensures Valid() && this.crc == crc && this.segments == segments
      ensures Remaining() == StreamSegments(DecoderOf(crc), segments)
    {
      this.crc, this.segments := crc, segments;
      currentSegment := if segments == [] then 0 else 1;
      reader := if segments == [] then None else Some(segments[0]);
    }

    method OpenNextSegment() returns (ok: bool)
      requires currentSegment <= |segments|
      modifies this
      ensures Valid() && ok == reader.Some?
      ensures Remaining() == StreamSegments(DecoderOf(crc), segments[old(currentSegment)..])
      ensures ok ==> currentSegment == old(currentSegment) + 1
    {
      if currentSegment >= |segments| {
        reader := None;
        return false;
      }
      reader := Some(segments[currentSegment]);
      currentSegment := currentSegment + 1;
      assert segments[old(currentSegment)..][1..] == segments[currentSegment..];
      return true;
    }

    /** The next entry; none when all segments are exhausted. */
    method NextEntry() returns (r: Result<Option<Entry>>)
      requires Valid()
      modifies this
      ensures Valid()
      ensures match r
              case Ok(None) => old(Remaining()) == Ok([]) && Remaining() == Ok([])
              case Ok(Some(e)) => old(Remaining()) == Cons(e, Remaining())
              case Err(x) => old(Remaining()) == Err(x)
    {
      while reader.Some?
        invariant Valid() && Remaining() == old(Remaining())
        decreases reader.Some?, |segments| - currentSegment
      {
        var rest := reader.value;
        if |rest| < 4 {
          EndOfSegment(rest);
          var ok := OpenNextSegment();
          if !ok {
            return Ok(None);
          }
        } else {
          r := ReadRecord(rest);
          return;
        }
      }
      return Ok(None);
    }

    lemma EndOfSegment(rest: seq<byte>)
      requires Valid() && reader == Some(rest) && |rest| < 4
      ensures Remaining() == StreamSegments(DecoderOf(crc), segments[currentSegment..])
    {
      var later := StreamSegments(DecoderOf(crc), segments[currentSegment..]);
      assert later.Ok? ==> [] + later.value == later.value;
    }

    /** Read one record from the open segment. */
    method ReadRecord(rest: seq<byte>) returns (r: Result<Option<Entry>>)
      requires Valid() && reader == Some(rest) && |rest| >= 4
      modifies this`reader
      ensures Valid()
      ensures match r
              case Ok(None) => false
              case Ok(Some(e)) => old(Remaining()) == Cons(e, Remaining())
              case Err(x) => old(Remaining()) == Err(x)
    {
      var d := DecoderOf(crc);
      FullRecord(crc, rest);
      var payloadLen: nat := U32Of(rest[..4]);
      if |rest| - 4 < 8 + payloadLen + 4 {
        return Err(InvalidData);
      }
      var decoded := DecodeRecord(crc, rest[..16 + payloadLen]);
      if decoded.Err? {
        return Err(decoded.error);
      }
      StreamOn(d, rest, StreamSegments(d, segments[currentSegment..]));
      reader := Some(rest[16 + payloadLen..]);
      return Ok(Some(EntryOf(decoded.value)));
    }
  }
}
