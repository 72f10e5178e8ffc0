/** Framed journal records: length, sequence number, payload, checksum. */
module Records {
  import opened Types
  import opened Bytes
  import opened Codec

  const MAX_PAYLOAD: nat := 0x10_0000

  datatype Record = Record(seqNo: u64, cmd: Command, used: nat)

  /** The fields of a record as they stand. */
  datatype Frame = Frame(seqNo: u64, payload: seq<byte>, stored: u32)

  function Checksum(crc: Crc, seqNo: u64, payload: seq<byte>): u32 {
    crc(PutU64(seqNo) + payload)
  }

  function PutFrame(f: Frame): seq<byte>
    requires |f.payload| <= MAX_PAYLOAD
  {
    PutU32(|f.payload|) + PutU64(f.seqNo) + f.payload + PutU32(f.stored)
  }

  function FrameOf(crc: Crc, seqNo: u64, cmd: Command): (f: Frame)
    ensures 9 <= |f.payload| <= 55
  {
    EncodeOntoTail(cmd, []);
    Frame(seqNo, Encode(cmd), Checksum(crc, seqNo, Encode(cmd)))
  }

  /** Encode one full record. */
  function EncodeRecord(crc: Crc, seqNo: u64, cmd: Command): (s: seq<byte>)
    ensures 25 <= |s| <= 71
  {
    PutFrame(FrameOf(crc, seqNo, cmd))
  }

  /** The frame at the front of some bytes, if its length is sensible and all of it is there. */
  function GetFrame(data: seq<byte>): (r: Result<Frame>)
    ensures r.Ok? ==> |r.value.payload| <= MAX_PAYLOAD && 16 + |r.value.payload| <= |data|
  {
    if |data| < 4 then Err(InvalidData)
    else
      var n := U32Of(data[0..4]);
      if n > MAX_PAYLOAD || |data| < 16 + n then Err(InvalidData)
      else Ok(Frame(U64Of(data[4..12]), data[12..12 + n], U32Of(data[12 + n..16 + n])))
  }

  function OpenFrame(crc: Crc, f: Frame): Result<Record> {
    if Checksum(crc, f.seqNo, f.payload) != f.stored then Err(CrcMismatch)
    else
      match Decode(f.payload)
      case Err(e) => Err(e)
      case Ok(cmd) => Ok(Record(f.seqNo, cmd, 16 + |f.payload|))
  }

  /** Decode one record from the front of some bytes. */
  function DecodeRecord(crc: Crc, data: seq<byte>): Result<Record> {
    match GetFrame(data)
    case Err(e) => Err(e)
    case Ok(f) => OpenFrame(crc, f)
  }

  /* ---- Frames ---- */

  lemma FrameTrip(f: Frame, tail: seq<byte>)
    requires |f.payload| <= MAX_PAYLOAD
    ensures GetFrame(PutFrame(f) + tail) == Ok(f)
  {
    var n := |f.payload|;
    var data := PutFrame(f) + tail;
    assert data[0..4] == PutU32(n) && data[4..12] == PutU64(f.seqNo);
    assert data[12..12 + n] == f.payload && data[12 + n..16 + n] == PutU32(f.stored);
    U32RoundTrip(n);
    U64RoundTrip(f.seqNo);
    U32RoundTrip(f.stored);
  }

  lemma FrameBack(data: seq<byte>)
    requires GetFrame(data).Ok?
    ensures PutFrame(GetFrame(data).value) <= data
  {
    var f := GetFrame(data).value;
    var n := |f.payload|;
    U32Bytes(data[0..4]);
    U64Bytes(data[4..12]);
    U32Bytes(data[12 + n..16 + n]);
    assert data[..16 + n] == data[0..4] + data[4..12] + data[12..12 + n] + data[12 + n..16 + n];
  }

  /** The frame depends only on its own bytes. */
  lemma FrameIsLocal(data: seq<byte>, other: seq<byte>)
    requires GetFrame(data).Ok?
    requires var used := 16 + |GetFrame(data).value.payload|; used <= |other| && data[..used] == other[..used]
    ensures GetFrame(other) == GetFrame(data)
  {
    var f := GetFrame(data).value;
    var used := 16 + |f.payload|;
    FrameBack(data);
    assert PutFrame(f) == other[..used];
    assert other == PutFrame(f) + other[used..];
    FrameTrip(f, other[used..]);
  }

  /** A frame that is cut short is found out by its length alone. */
  lemma TornFrame(f: Frame, k: nat)
    requires |f.payload| <= MAX_PAYLOAD && k < |PutFrame(f)|
    ensures GetFrame(PutFrame(f)[..k]) == Err(InvalidData)
  {
    var data := PutFrame(f)[..k];
    if k >= 4 {
      assert data[0..4] == PutU32(|f.payload|);
      U32RoundTrip(|f.payload|);
    }
  }

  /* ---- Records ---- */

  lemma DecodedPayload(s: seq<byte>)
    requires Decode(s).Ok?
    ensures s != []
  {
  }

  lemma DecodedSize(crc: Crc, data: seq<byte>)
    requires DecodeRecord(crc, data).Ok?
    ensures GetFrame(data).Ok? && DecodeRecord(crc, data).value.used == 16 + |GetFrame(data).value.payload|
    ensures 16 < DecodeRecord(crc, data).value.used <= |data|
  {
    DecodedPayload(GetFrame(data).value.payload);
  }

  /** What is decoded depends only on the bytes that are used. */
  lemma DecodeIsLocal(crc: Crc, data: seq<byte>, other: seq<byte>)
    requires DecodeRecord(crc, data).Ok?
    requires var used := DecodeRecord(crc, data).value.used; used <= |data| && used <= |other| && data[..used] == other[..used]
    ensures DecodeRecord(crc, other) == DecodeRecord(crc, data)
  {
    DecodedSize(crc, data);
    FrameIsLocal(data, other);
  }

  lemma FrameOpens(crc: Crc, seqNo: u64, cmd: Command, f: Frame)
    requires f == FrameOf(crc, seqNo, cmd)
    ensures OpenFrame(crc, f) == Ok(Record(seqNo, cmd, |EncodeRecord(crc, seqNo, cmd)|))
  {
    DecodeIsExact(Encode(cmd), cmd);
  }

  /** Reading an encoded record back, whatever bytes follow it. */
  lemma RecordTrip(crc: Crc, seqNo: u64, cmd: Command, tail: seq<byte>)
    ensures DecodeRecord(crc, EncodeRecord(crc, seqNo, cmd) + tail) == Ok(Record(seqNo, cmd, |EncodeRecord(crc, seqNo, cmd)|))
  {
    var f := FrameOf(crc, seqNo, cmd);
    FrameTrip(f, tail);
    FrameOpens(crc, seqNo, cmd, f);
  }

  /** A record decodes to what it encodes, using exactly the encoding's length, exactly when it starts with that encoding. */
  lemma RecordIsExact(crc: Crc, data: seq<byte>, seqNo: u64, cmd: Command)
    ensures DecodeRecord(crc, data) == Ok(Record(seqNo, cmd, |EncodeRecord(crc, seqNo, cmd)|))
        <==> EncodeRecord(crc, seqNo, cmd) <= data
  {
    var record := EncodeRecord(crc, seqNo, cmd);
    if record <= data {
      assert data == record + data[|record|..];
      RecordTrip(crc, seqNo, cmd, data[|record|..]);
    }
    if DecodeRecord(crc, data) == Ok(Record(seqNo, cmd, |record|)) {
      RecordSpelled(crc, data, seqNo, cmd);
    }
  }

  lemma RecordSpelled(crc: Crc, data: seq<byte>, seqNo: u64, cmd: Command)
    requires DecodeRecord(crc, data) == Ok(Record(seqNo, cmd, |EncodeRecord(crc, seqNo, cmd)|))
    ensures EncodeRecord(crc, seqNo, cmd) <= data
  {
    DecodedSize(crc, data);
    var f := GetFrame(data).value;
    DecodeIsExact(f.payload, cmd);
    assert f.payload == Encode(cmd);
    FrameBack(data);
  }

  /** A torn record is found out by its length alone, whatever the checksum. */
  lemma TornRecord(crc: Crc, seqNo: u64, cmd: Command, k: nat)
    requires k < |EncodeRecord(crc, seqNo, cmd)|
    ensures DecodeRecord(crc, EncodeRecord(crc, seqNo, cmd)[..k]) == Err(InvalidData)
  {
    TornFrame(FrameOf(crc, seqNo, cmd), k);
  }

  /* ---- What the checksum covers ---- */

  /** The bytes hold a whole record: four for the length of its payload, which is at most a megabyte, eight for the sequence
      number, the payload, and four for the checksum. */
  predicate Whole(data: seq<byte>) {
    |data| >= 4 && U32Of(data[0..4]) <= 0x10_0000 && |data| >= 16 + U32Of(data[0..4])
  }

  /** The stored checksum is that of the sequence number's bytes and the payload's. */
  predicate Checked(crc: Crc, data: seq<byte>)
    requires Whole(data)
  {
    var n := U32Of(data[0..4]);
    U32Of(data[12 + n..16 + n]) == crc(data[4..12 + n])
  }

  function PayloadOf(data: seq<byte>): seq<byte>
    requires Whole(data)
  {
    data[12..12 + U32Of(data[0..4])]
  }

  lemma CoveredBytes(data: seq<byte>)
    requires Whole(data)
    ensures var n := U32Of(data[0..4]);
            PutU64(U64Of(data[4..12])) + data[12..12 + n] == data[4..12 + n]
  {
    U64Bytes(data[4..12]);
  }

  lemma WholeFrame(crc: Crc, data: seq<byte>)
    ensures GetFrame(data).Ok? <==> Whole(data)
    ensures !Whole(data) ==> GetFrame(data) == Err(InvalidData)
    ensures Whole(data) ==>
              var f := GetFrame(data).value;
              && f.payload == PayloadOf(data) && f.seqNo == U64Of(data[4..12])
              && (Checksum(crc, f.seqNo, f.payload) == f.stored <==> Checked(crc, data))
  {
    if Whole(data) {
      CoveredBytes(data);
    }
  }

  /** What decoding says of any bytes, from the bytes alone: it fails on the checksum exactly when they hold a whole record whose
      stored checksum is not that of the sequence number and the payload, and succeeds exactly when they hold one whose checksum
      is and whose payload begins with the encoding of the command that it finds. */
  lemma DecodesExactly(crc: Crc, data: seq<byte>, cmd: Command)
    ensures DecodeRecord(crc, data) == Err(CrcMismatch) <==> Whole(data) && !Checked(crc, data)
    ensures !Whole(data) ==> DecodeRecord(crc, data) == Err(InvalidData)
    ensures DecodeRecord(crc, data).Ok? && DecodeRecord(crc, data).value.cmd == cmd
        <==> Whole(data) && Checked(crc, data) && Encode(cmd) <= PayloadOf(data)
    ensures DecodeRecord(crc, data).Ok? ==>
              Whole(data) && DecodeRecord(crc, data).value.seqNo == U64Of(data[4..12])
              && DecodeRecord(crc, data).value.used == 16 + U32Of(data[0..4])
  {
    WholeFrame(crc, data);
    if Whole(data) {
      DecodeIsExact(PayloadOf(data), cmd);
    }
  }

  /** The fields of an encoded record, in front of and behind its payload. */
  lemma FrameFields(f: Frame)
    requires |f.payload| <= MAX_PAYLOAD
    ensures var record, n := PutFrame(f), |f.payload|;
            && Field(record, 0, 4, n) && Field(record, 4, 8, f.seqNo) && Field(record, 12 + n, 4, f.stored)
            && record[4..12 + n] == PutU64(f.seqNo) + f.payload
  {
    var record, n := PutFrame(f), |f.payload|;
    assert record == [] + (PutU32(n) + record[4..]) == record[..4] + (PutU64(f.seqNo) + record[12..]);
    assert record == record[..12 + n] + (PutU32(f.stored) + []);
    FieldAt([], 4, n, record[4..]);
    FieldAt(record[..4], 8, f.seqNo, record[12..]);
    FieldAt(record[..12 + n], 4, f.stored, []);
  }

  /** And what encoding writes: the length and the sequence number with the lowest byte first, the encoded command, and the checksum
      of what stands between the length and itself. */
  lemma EncodedFrame(crc: Crc, seqNo: u64, cmd: Command)
    ensures var record, n := EncodeRecord(crc, seqNo, cmd), |Encode(cmd)|;
            && |record| == 16 + n && Whole(record) && PayloadOf(record) == Encode(cmd) && Checked(crc, record)
            && Field(record, 0, 4, n) && Field(record, 4, 8, seqNo) && Field(record, 12 + n, 4, crc(record[4..12 + n]))
  {
    var f := FrameOf(crc, seqNo, cmd);
    FrameFields(f);
    FrameTrip(f, []);
    assert PutFrame(f) + [] == PutFrame(f);
    WholeFrame(crc, PutFrame(f));
  }
}
