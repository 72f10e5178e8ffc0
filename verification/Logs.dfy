/** Logs of records: reading them, and recovering the good part of a damaged one. */
module Logs {
  import opened Types
  import opened Bytes
  import opened Codec
  import opened Records

  /** Anything that decodes a record from the front of some bytes. */
  type Decoder = seq<byte> -> Result<Record>

  /** A decoder uses some of the bytes, and only those decide what it finds. */
  ghost predicate Sane(d: Decoder) {
    && (forall data :: d(data).Ok? ==> 0 < d(data).value.used <= |data|)
    && forall data, other {:trigger Local(d, data, other)} :: Local(d, data, other)
  }

  predicate Local(d: Decoder, data: seq<byte>, other: seq<byte>) {
    d(data).Ok? && d(data).value.used <= |data| && d(data).value.used <= |other|
      && data[..d(data).value.used] == other[..d(data).value.used]
    ==> d(other) == d(data)
  }

  datatype Entry = Entry(seqNo: u64, cmd: Command)

  function EntryOf(r: Record): Entry {
    Entry(r.seqNo, r.cmd)
  }

  /** The bytes are records and nothing else, and these are their entries. */
  ghost predicate IsLog(d: Decoder, data: seq<byte>, es: seq<Entry>)
    decreases |data|
  {
    if data == [] then es == []
    else
      && es != [] && d(data).Ok?
      && var r := d(data).value;
         EntryOf(r) == es[0] && 0 < r.used <= |data| && IsLog(d, data[r.used..], es[1..])
  }

  /* ---- Reading ---- */

  function Cons(e: Entry, r: Result<seq<Entry>>): Result<seq<Entry>> {
    match r case Err(x) => Err(x) case Ok(es) => Ok([e] + es)
  }

  /** The entries of one segment, or the error of its first bad record. */
  function ReadSegment(d: Decoder, data: seq<byte>): Result<seq<Entry>>
    decreases |data|
  {
    if data == [] then Ok([])
    else
      match d(data)
      case Err(e) => Err(e)
      case Ok(r) =>
        if 0 < r.used <= |data| then Cons(EntryOf(r), ReadSegment(d, data[r.used..])) else Err(InvalidData)
  }

  function Append(a: Result<seq<Entry>>, b: Result<seq<Entry>>): Result<seq<Entry>> {
    match a
    case Err(e) => Err(e)
    case Ok(es) => match b case Err(e) => Err(e) case Ok(more) => Ok(es + more)
  }

  function ReadSegments(d: Decoder, segments: seq<seq<byte>>): Result<seq<Entry>> {
    if segments == [] then Ok([])
    else Append(ReadSegments(d, segments[..|segments| - 1]), ReadSegment(d, segments[|segments| - 1]))
  }

  /** Reading succeeds on logs and only on them, with their entries. */
  lemma {:induction false} ReadSegmentIsExact(d: Decoder, data: seq<byte>, es: seq<Entry>)
    requires Sane(d)
    ensures ReadSegment(d, data) == Ok(es) <==> IsLog(d, data, es)
    decreases |data|
  {
    if data != [] && d(data).Ok? {
      var r := d(data).value;
      if es != [] {
        ReadSegmentIsExact(d, data[r.used..], es[1..]);
        assert es == [es[0]] + es[1..];
      }
      var tail := ReadSegment(d, data[r.used..]);
      assert tail.Ok? ==> ([EntryOf(r)] + tail.value)[1..] == tail.value;
    }
  }

  /* ---- Recovery ---- */

  /** The entries of the longest decodable prefix, and its length. */
  function Scan(d: Decoder, data: seq<byte>): (r: (seq<Entry>, nat))
    ensures r.1 <= |data|
    decreases |data|
  {
    if data == [] || d(data).Err? || !(0 < d(data).value.used <= |data|) then ([], 0)
    else
      var r := d(data).value;
      var (es, n) := Scan(d, data[r.used..]);
      ([EntryOf(r)] + es, r.used + n)
  }

  /** What is kept is a log. */
  lemma {:induction false} ScanIsLog(d: Decoder, data: seq<byte>)
    requires Sane(d)
    ensures IsLog(d, data[..Scan(d, data).1], Scan(d, data).0)
    decreases |data|
  {
    if data != [] && d(data).Ok? {
      var r := d(data).value;
      ScanIsLog(d, data[r.used..]);
      var (es, n) := Scan(d, data);
      assert data[..n][..r.used] == data[..r.used];
      assert Local(d, data, data[..n]);
      assert data[..n][r.used..] == data[r.used..][..n - r.used];
      assert es[1..] == Scan(d, data[r.used..]).0;
    }
  }

  /** Any decodable prefix is part of what is kept. */
  lemma {:induction false} ScanIsLongest(d: Decoder, data: seq<byte>, k: nat, es: seq<Entry>)
    requires Sane(d) && k <= |data| && IsLog(d, data[..k], es)
    ensures k <= Scan(d, data).1 && es <= Scan(d, data).0
    decreases |data|
  {
    if k > 0 {
      var r := d(data[..k]).value;
      assert data[..k][..r.used] == data[..r.used];
      assert Local(d, data[..k], data);
      assert data[..k][r.used..] == data[r.used..][..k - r.used];
      ScanIsLongest(d, data[r.used..], k - r.used, es[1..]);
      assert es == [es[0]] + es[1..];
    }
  }

  /** The whole of a log is kept. */
  lemma LogIsKept(d: Decoder, data: seq<byte>, es: seq<Entry>)
    requires Sane(d) && IsLog(d, data, es)
    ensures Scan(d, data) == (es, |data|)
  {
    assert data[..|data|] == data;
    ScanIsLongest(d, data, |data|, es);
    ScanIsLog(d, data);
    LogEntriesAreUnique(d, data, es, Scan(d, data).0);
  }

  lemma LogEntriesAreUnique(d: Decoder, data: seq<byte>, es: seq<Entry>, other: seq<Entry>)
    requires Sane(d) && IsLog(d, data, es) && IsLog(d, data, other)
    ensures es == other
  {
    ReadSegmentIsExact(d, data, es);
    ReadSegmentIsExact(d, data, other);
  }

  /** Reading fails, if it does, with the error of the record where the scan stops. */
  lemma {:induction false} ReadFailsWhereScanStops(d: Decoder, data: seq<byte>)
    requires Sane(d)
    ensures var k := Scan(d, data).1;
            if k == |data| then ReadSegment(d, data) == Ok(Scan(d, data).0)
            else d(data[k..]).Err? && ReadSegment(d, data) == Err(d(data[k..]).error)
    decreases |data|
  {
    assert data[0..] == data;
    if data != [] && d(data).Ok? {
      var r := d(data).value;
      ReadFailsWhereScanStops(d, data[r.used..]);
      var n := Scan(d, data[r.used..]).1;
      assert data[r.used..][n..] == data[r.used + n..];
    }
  }

  /* ---- Logs put together ---- */

  lemma {:induction false} LogConcat(d: Decoder, data: seq<byte>, es: seq<Entry>, more: seq<byte>, fs: seq<Entry>)
    requires Sane(d) && IsLog(d, data, es) && IsLog(d, more, fs)
    ensures IsLog(d, data + more, es + fs)
    decreases |data|
  {
    if data == [] {
      assert data + more == more && es + fs == fs;
    } else {
      var r := d(data).value;
      assert (data + more)[..r.used] == data[..r.used];
      assert Local(d, data, data + more);
      assert (data + more)[r.used..] == data[r.used..] + more;
      assert (es + fs)[1..] == es[1..] + fs;
      LogConcat(d, data[r.used..], es[1..], more, fs);
    }
  }

  lemma ScanFirst(d: Decoder, data: seq<byte>, r: Record, rest: seq<byte>)
    requires data != [] && d(data) == Ok(r) && 0 < r.used <= |data| && rest == data[r.used..]
    ensures Scan(d, data) == ([EntryOf(r)] + Scan(d, rest).0, r.used + Scan(d, rest).1)
  {
  }

  /** A scan goes through a log and on into what follows it. */
  lemma {:induction false} ScanThrough(d: Decoder, data: seq<byte>, es: seq<Entry>, more: seq<byte>)
    requires Sane(d) && IsLog(d, data, es)
    ensures Scan(d, data + more) == (es + Scan(d, more).0, |data| + Scan(d, more).1)
    decreases |data|
  {
    if data == [] {
      assert data + more == more && es + Scan(d, more).0 == Scan(d, more).0;
    } else {
      var r, all := d(data).value, data + more;
      assert all[..r.used] == data[..r.used];
      assert Local(d, data, all);
      assert all[r.used..] == data[r.used..] + more;
      ScanThrough(d, data[r.used..], es[1..], more);
      ScanFirst(d, all, r, data[r.used..] + more);
      FirstThenRest(es, Scan(d, more).0);
    }
  }

  lemma FirstThenRest(es: seq<Entry>, more: seq<Entry>)
    requires es != []
    ensures [es[0]] + (es[1..] + more) == es + more
  {
  }

  /* ---- Logs that were written ---- */

  /** Anything that encodes an entry as a record. */
  type Encoder = Entry -> seq<byte>

  predicate RoundTrips(d: Decoder, enc: Encoder, e: Entry, tail: seq<byte>) {
    enc(e) != [] && d(enc(e) + tail) == Ok(Record(e.seqNo, e.cmd, |enc(e)|))
  }

  predicate Tears(d: Decoder, enc: Encoder, e: Entry, k: nat) {
    k < |enc(e)| ==> d(enc(e)[..k]).Err?
  }

  /** The decoder reads back what the encoder writes, whatever follows, and nothing less. */
  ghost predicate Coded(d: Decoder, enc: Encoder) {
    && (forall e, tail {:trigger RoundTrips(d, enc, e, tail)} :: RoundTrips(d, enc, e, tail))
    && forall e, k: nat {:trigger Tears(d, enc, e, k)} :: Tears(d, enc, e, k)
  }

  /** The encoded records of some entries, one after the other. */
  function Encoded(enc: Encoder, es: seq<Entry>): seq<byte> {
    if es == [] then [] else enc(es[0]) + Encoded(enc, es[1..])
  }

  lemma {:induction false} EncodedConcat(enc: Encoder, es: seq<Entry>, more: seq<Entry>)
    ensures Encoded(enc, es + more) == Encoded(enc, es) + Encoded(enc, more)
  {
    if es == [] {
      assert es + more == more;
    } else {
      assert (es + more)[1..] == es[1..] + more;
      EncodedConcat(enc, es[1..], more);
    }
  }

  lemma {:induction false} EncodedIsLog(d: Decoder, enc: Encoder, es: seq<Entry>)
    requires Sane(d) && Coded(d, enc)
    ensures IsLog(d, Encoded(enc, es), es)
  {
    if es != [] {
      var rest := Encoded(enc, es[1..]);
      assert RoundTrips(d, enc, es[0], rest);
      assert (enc(es[0]) + rest)[|enc(es[0])|..] == rest;
      EncodedIsLog(d, enc, es[1..]);
    }
  }

  /** A log with the beginning of one more record behind it recovers to exactly the log. */
  lemma TornTail(d: Decoder, enc: Encoder, data: seq<byte>, es: seq<Entry>, e: Entry, k: nat)
    requires Sane(d) && Coded(d, enc) && IsLog(d, data, es) && k < |enc(e)|
    ensures Scan(d, data + enc(e)[..k]) == (es, |data|)
  {
    assert Tears(d, enc, e, k);
    ScanThrough(d, data, es, enc(e)[..k]);
    assert es + [] == es;
  }

  /** How many of the records fit whole into `k` bytes. */
  function WholeRecords(enc: Encoder, es: seq<Entry>, k: nat): (n: nat)
    ensures n <= |es|
  {
    if es == [] || k < |enc(es[0])| then 0 else 1 + WholeRecords(enc, es[1..], k - |enc(es[0])|)
  }

  /** A log with some records behind it, cut `k` bytes into those, recovers to exactly the records that are whole. */
  predicate CutsClean(d: Decoder, enc: Encoder, data: seq<byte>, kept: seq<Entry>, es: seq<Entry>, k: nat)
    requires k <= |Encoded(enc, es)|
  {
    var n, cut := WholeRecords(enc, es, k), Scan(d, data + Encoded(enc, es)[..k]);
    cut.0 == kept + es[..n] && cut.1 == |data| + |Encoded(enc, es[..n])|
  }

  lemma {:induction false} CutLog(d: Decoder, enc: Encoder, data: seq<byte>, kept: seq<Entry>, es: seq<Entry>, k: nat)
    requires Sane(d) && Coded(d, enc) && IsLog(d, data, kept) && k <= |Encoded(enc, es)|
    ensures CutsClean(d, enc, data, kept, es, k)
    decreases |es|
  {
    if es == [] {
      assert data + Encoded(enc, es)[..k] == data && kept + es[..0] == kept;
      LogIsKept(d, data, kept);
    } else if k < |enc(es[0])| {
      assert Encoded(enc, es)[..k] == enc(es[0])[..k] && kept + es[..0] == kept;
      TornTail(d, enc, data, kept, es[0], k);
    } else {
      var record := enc(es[0]);
      CutLogStep(d, enc, data, kept, es, k);
      CutLog(d, enc, data + record, kept + [es[0]], es[1..], k - |record|);
      CutsOn(d, enc, data, kept, es, k);
    }
  }

  lemma CutsOn(d: Decoder, enc: Encoder, data: seq<byte>, kept: seq<Entry>, es: seq<Entry>, k: nat)
    requires es != [] && |enc(es[0])| <= k <= |Encoded(enc, es)| && k - |enc(es[0])| <= |Encoded(enc, es[1..])|
    requires data + Encoded(enc, es)[..k] == data + enc(es[0]) + Encoded(enc, es[1..])[..k - |enc(es[0])|]
    requires CutsClean(d, enc, data + enc(es[0]), kept + [es[0]], es[1..], k - |enc(es[0])|)
    ensures CutsClean(d, enc, data, kept, es, k)
  {
    TakeRecords(enc, kept, es, WholeRecords(enc, es[1..], k - |enc(es[0])|));
  }

  lemma TakeRecords(enc: Encoder, kept: seq<Entry>, es: seq<Entry>, m: nat)
    requires m < |es|
    ensures Encoded(enc, es[..m + 1]) == enc(es[0]) + Encoded(enc, es[1..][..m])
    ensures kept + [es[0]] + es[1..][..m] == kept + es[..m + 1]
  {
    assert es[..m + 1][1..] == es[1..][..m];
  }

  lemma CutLogStep(d: Decoder, enc: Encoder, data: seq<byte>, kept: seq<Entry>, es: seq<Entry>, k: nat)
    requires Sane(d) && Coded(d, enc) && IsLog(d, data, kept)
    requires es != [] && |enc(es[0])| <= k <= |Encoded(enc, es)|
    ensures var record := enc(es[0]);
            && IsLog(d, data + record, kept + [es[0]])
            && k - |record| <= |Encoded(enc, es[1..])|
            && data + Encoded(enc, es)[..k] == data + record + Encoded(enc, es[1..])[..k - |record|]
  {
    var record := enc(es[0]);
    OneRecord(d, enc, es[0]);
    LogConcat(d, data, kept, record, [es[0]]);
    assert Encoded(enc, es)[..k] == record + Encoded(enc, es[1..])[..k - |record|];
  }

  lemma OneRecord(d: Decoder, enc: Encoder, e: Entry)
    requires Sane(d) && Coded(d, enc)
    ensures IsLog(d, enc(e), [e]) && Encoded(enc, [e]) == enc(e)
  {
    EncodedIsLog(d, enc, [e]);
    assert Encoded(enc, [e]) == enc([e][0]) + Encoded(enc, [e][1..]);
    assert [e][1..] == [] && Encoded(enc, []) == [] && enc(e) + [] == enc(e);
  }
}
