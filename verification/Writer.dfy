/** The journal writer: one growing file, or segments that rotate at a size limit. */
module Writer {
  import opened Types
  import opened Bytes
  import opened Codec
  import opened Records
  import opened Logs
  import opened Recovery
  import opened Readers

  /** The last segment grown by a record. */
  function Grown(segments: seq<seq<byte>>, record: seq<byte>): seq<seq<byte>>
    requires segments != []
  {
    segments[|segments| - 1 := segments[|segments| - 1] + record]
  }

  lemma GrownFromEmpty(segments: seq<seq<byte>>, record: seq<byte>)
    ensures Grown(segments + [[]], record) == segments + [record]
  {
    assert [] + record == record;
  }

  /** Where a record goes: into the last segment, or into a new one if that is not empty and would become too long. */
  function Placed(limit: Option<nat>, segments: seq<seq<byte>>, record: seq<byte>): (r: seq<seq<byte>>)
    requires segments != []
    ensures r != []
  {
    var last := segments[|segments| - 1];
    if limit.Some? && |last| > 0 && |last| + |record| > limit.value then segments + [record] else Grown(segments, record)
  }

  function PlacedAll(limit: Option<nat>, segments: seq<seq<byte>>, records: seq<seq<byte>>): (r: seq<seq<byte>>)
    requires segments != []
    ensures r != []
    decreases |records|
  {
    if records == [] then segments else PlacedAll(limit, Placed(limit, segments, records[0]), records[1..])
  }

  /* ---- The limit ---- */

  /** No segment is longer than the limit, unless it is one of these on its own. */
  ghost predicate Fits(limit: nat, segments: seq<seq<byte>>, alone: seq<seq<byte>>) {
    forall k :: 0 <= k < |segments| ==> |segments[k]| <= limit || segments[k] in alone
  }

  lemma PlacedFits(limit: nat, segments: seq<seq<byte>>, record: seq<byte>, alone: seq<seq<byte>>)
    requires segments != [] && Fits(limit, segments, alone)
    ensures Fits(limit, Placed(Some(limit), segments, record), alone + [record])
  {
    var last := segments[|segments| - 1];
    assert last == [] ==> last + record == record;
    assert record in alone + [record];
  }

  lemma {:induction false} PlacedAllFits(limit: nat, segments: seq<seq<byte>>, records: seq<seq<byte>>, alone: seq<seq<byte>>)
    requires segments != [] && Fits(limit, segments, alone)
    ensures Fits(limit, PlacedAll(Some(limit), segments, records), alone + records)
    decreases |records|
  {
    if records == [] {
      assert alone + records == alone;
    } else {
      PlacedFits(limit, segments, records[0], alone);
      PlacedAllFits(limit, Placed(Some(limit), segments, records[0]), records[1..], alone + [records[0]]);
      MoveFirst(alone, records);
    }
  }

  /* ---- Segments are filled ---- */

  function Flat(records: seq<seq<byte>>): seq<byte> {
    if records == [] then [] else records[0] + Flat(records[1..])
  }

  function Concat(groups: seq<seq<seq<byte>>>): seq<seq<byte>> {
    if groups == [] then [] else groups[0] + Concat(groups[1..])
  }

  lemma {:induction false} FlatLast(records: seq<seq<byte>>, record: seq<byte>)
    ensures Flat(records + [record]) == Flat(records) + record
  {
    if records == [] {
      assert [] + [record] == [record] && Flat([record]) == record + Flat([]) == record;
    } else {
      FlatLast(records[1..], record);
      assert (records + [record])[1..] == records[1..] + [record];
    }
  }

  lemma {:induction false} ConcatLast(groups: seq<seq<seq<byte>>>, group: seq<seq<byte>>)
    ensures Concat(groups + [group]) == Concat(groups) + group
  {
    if groups == [] {
      assert [] + [group] == [group] && Concat([group]) == group + Concat([]) == group;
    } else {
      ConcatLast(groups[1..], group);
      assert (groups + [group])[1..] == groups[1..] + [group];
    }
  }

  /** A segment holds its group of records, the first one behind what was there. */
  predicate HoldsGroup(open: seq<byte>, segments: seq<seq<byte>>, groups: seq<seq<seq<byte>>>, k: nat)
    requires k < |segments| == |groups|
  {
    segments[k] == (if k == 0 then open else []) + Flat(groups[k])
  }

  /** The next segment was started because its first record did not fit behind this one. */
  predicate Full(limit: nat, segments: seq<seq<byte>>, groups: seq<seq<seq<byte>>>, k: nat)
    requires k < |segments| == |groups|
  {
    k + 1 < |groups| ==> segments[k] != [] && groups[k + 1] != [] && |segments[k]| + |groups[k + 1][0]| > limit
  }

  /** The segments hold the records in order, group by group, and each but the last is full. */
  ghost predicate Packed(limit: nat, open: seq<byte>, segments: seq<seq<byte>>, groups: seq<seq<seq<byte>>>, records: seq<seq<byte>>) {
    && 0 < |segments| == |groups| && Concat(groups) == records
    && (forall k {:trigger HoldsGroup(open, segments, groups, k)} :: 0 <= k < |groups| ==> HoldsGroup(open, segments, groups, k))
    && forall k {:trigger Full(limit, segments, groups, k)} :: 0 <= k < |groups| ==> Full(limit, segments, groups, k)
  }

  /** A record that fits joins the last group. */
  lemma JoinsGroup(limit: nat, open: seq<byte>, segments: seq<seq<byte>>, groups: seq<seq<seq<byte>>>, done: seq<seq<byte>>,
                   record: seq<byte>) returns (groups': seq<seq<seq<byte>>>)
    requires Packed(limit, open, segments, groups, done)
    ensures Packed(limit, open, Grown(segments, record), groups', done + [record])
  {
    var n := |groups| - 1;
    var front, last := groups[..n], groups[n];
    groups' := front + [last + [record]];
    assert groups == front + [last];
    ConcatLast(front, last);
    ConcatLast(front, last + [record]);
    FlatLast(last, record);
    var segments' := Grown(segments, record);
    assert HoldsGroup(open, segments, groups, n);
    forall k | 0 <= k < |groups'| ensures HoldsGroup(open, segments', groups', k) && Full(limit, segments', groups', k) {
      assert HoldsGroup(open, segments, groups, k) && Full(limit, segments, groups, k);
    }
  }

  /** One that does not starts the next. */
  lemma StartsGroup(limit: nat, open: seq<byte>, segments: seq<seq<byte>>, groups: seq<seq<seq<byte>>>, done: seq<seq<byte>>,
                    record: seq<byte>)
    requires Packed(limit, open, segments, groups, done)
    requires segments[|segments| - 1] != [] && |segments[|segments| - 1]| + |record| > limit
    ensures Packed(limit, open, segments + [record], groups + [[record]], done + [record])
  {
    var (segments', groups') := (segments + [record], groups + [[record]]);
    ConcatLast(groups, [record]);
    FlatLast([], record);
    forall k | 0 <= k < |groups'| ensures HoldsGroup(open, segments', groups', k) && Full(limit, segments', groups', k) {
      if k < |groups| {
        assert HoldsGroup(open, segments, groups, k) && Full(limit, segments, groups, k);
      } else {
        assert [] + [record] == [record] && [] + Flat([record]) == record;
      }
    }
  }

  lemma {:induction false} PlacedAllPacks(limit: nat, open: seq<byte>, segments: seq<seq<byte>>, groups: seq<seq<seq<byte>>>,
                                          done: seq<seq<byte>>, records: seq<seq<byte>>) returns (groups': seq<seq<seq<byte>>>)
    requires Packed(limit, open, segments, groups, done)
    ensures Packed(limit, open, PlacedAll(Some(limit), segments, records), groups', done + records)
    decreases |records|
  {
    if records == [] {
      assert done + records == done;
      groups' := groups;
    } else {
      var last := segments[|segments| - 1];
      if |last| > 0 && |last| + |records[0]| > limit {
        StartsGroup(limit, open, segments, groups, done, records[0]);
        groups' := groups + [[records[0]]];
      } else {
        groups' := JoinsGroup(limit, open, segments, groups, done, records[0]);
      }
      groups' := PlacedAllPacks(limit, open, Placed(Some(limit), segments, records[0]), groups', done + [records[0]], records[1..]);
      MoveFirst(done, records);
    }
  }

  /** Whatever is appended behind whatever an open segment holds: a segment is followed by another only if the first record of that
      did not fit behind it. */
  lemma SegmentsAreFull(limit: nat, open: seq<byte>, records: seq<seq<byte>>)
    ensures exists groups {:trigger Packed(limit, open, PlacedAll(Some(limit), [open], records), groups, records)} ::
              Packed(limit, open, PlacedAll(Some(limit), [open], records), groups, records)
  {
    assert Concat([[]]) == [] + Concat([]) == [] && open + Flat([]) == open;
    assert HoldsGroup(open, [open], [[]], 0) && Full(limit, [open], [[]], 0);
    var groups := PlacedAllPacks(limit, open, [open], [[]], [], records);
    assert [] + records == records;
  }

  /** What fits behind the open segment all goes there, and so does everything where there is no limit; the segments before it
      stay as they are. */
  lemma {:induction false} FittingStays(limit: Option<nat>, before: seq<seq<byte>>, open: seq<byte>, records: seq<seq<byte>>)
    requires limit.None? || |open| + |Flat(records)| <= limit.value
    ensures PlacedAll(limit, before + [open], records) == before + [open + Flat(records)]
    decreases |records|
  {
    if records == [] {
      assert open + Flat(records) == open;
    } else {
      var segments := before + [open];
      assert Grown(segments, records[0]) == before + [open + records[0]];
      FittingStays(limit, before, open + records[0], records[1..]);
      assert open + records[0] + Flat(records[1..]) == open + Flat(records);
    }
  }

  /** Only the open segment and those behind it change. */
  lemma {:induction false} PlacedBehind(limit: Option<nat>, before: seq<seq<byte>>, segments: seq<seq<byte>>, records: seq<seq<byte>>)
    requires segments != []
    ensures PlacedAll(limit, before + segments, records) == before + PlacedAll(limit, segments, records)
    decreases |records|
  {
    if records != [] {
      assert Placed(limit, before + segments, records[0]) == before + Placed(limit, segments, records[0]);
      PlacedBehind(limit, before, Placed(limit, segments, records[0]), records[1..]);
    }
  }

  /* ---- The flat log ---- */

  function RecordsOf(enc: Encoder, es: seq<Entry>): (r: seq<seq<byte>>)
    ensures |r| == |es| && forall k :: 0 <= k < |es| ==> r[k] == enc(es[k])
  {
    seq(|es|, i requires 0 <= i < |es| => enc(es[i]))
  }

  lemma GrownReads(d: Decoder, enc: Encoder, segments: seq<seq<byte>>, e: Entry, es: seq<Entry>)
    requires Sane(d) && Coded(d, enc) && segments != [] && ReadSegments(d, segments) == Ok(es)
    ensures ReadSegments(d, Grown(segments, enc(e))) == Ok(es + [e])
  {
    var n := |segments| - 1;
    var before, last := ReadSegments(d, segments[..n]), ReadSegment(d, segments[n]);
    OneRecord(d, enc, e);
    ReadSegmentIsExact(d, segments[n], last.value);
    LogConcat(d, segments[n], last.value, enc(e), [e]);
    ReadSegmentIsExact(d, segments[n] + enc(e), last.value + [e]);
    assert Grown(segments, enc(e))[..n] == segments[..n];
    assert before.value + (last.value + [e]) == es + [e];
  }

  lemma AddedReads(d: Decoder, enc: Encoder, segments: seq<seq<byte>>, e: Entry, es: seq<Entry>)
    requires Sane(d) && Coded(d, enc) && ReadSegments(d, segments) == Ok(es)
    ensures ReadSegments(d, segments + [enc(e)]) == Ok(es + [e])
  {
    OneRecord(d, enc, e);
    ReadSegmentIsExact(d, enc(e), [e]);
    assert (segments + [enc(e)])[..|segments|] == segments;
  }

  lemma PlacedReads(d: Decoder, enc: Encoder, limit: Option<nat>, segments: seq<seq<byte>>, e: Entry, es: seq<Entry>)
    requires Sane(d) && Coded(d, enc) && segments != [] && ReadSegments(d, segments) == Ok(es)
    ensures ReadSegments(d, Placed(limit, segments, enc(e))) == Ok(es + [e])
  {
    GrownReads(d, enc, segments, e, es);
    AddedReads(d, enc, segments, e, es);
  }

  /** Whatever the limit, what was appended reads back behind what was there. */
  lemma {:induction false} PlacedAllReads(d: Decoder, enc: Encoder, limit: Option<nat>, segments: seq<seq<byte>>,
                                         was: seq<Entry>, es: seq<Entry>)
    requires Sane(d) && Coded(d, enc) && segments != [] && ReadSegments(d, segments) == Ok(was)
    ensures ReadSegments(d, PlacedAll(limit, segments, RecordsOf(enc, es))) == Ok(was + es)
    decreases |es|
  {
    if es == [] {
      assert was + es == was;
    } else {
      PlacedReads(d, enc, limit, segments, es[0], was);
      assert RecordsOf(enc, es)[1..] == RecordsOf(enc, es[1..]);
      PlacedAllReads(d, enc, limit, Placed(limit, segments, enc(es[0])), was + [es[0]], es[1..]);
      MoveFirst(was, es);
    }
  }

  lemma MoveFirst<T>(was: seq<T>, es: seq<T>)
    requires es != []
    ensures was + [es[0]] + es[1..] == was + es
  {
  }

  /** A directory that was just started holds nothing. */
  lemma EmptyReads(d: Decoder)
    ensures ReadSegments(d, [[]]) == Ok([])
  {
    var start: seq<seq<byte>>, none: seq<Entry> := [[]], [];
    assert start[..0] == [] && none + none == none;
    assert ReadSegment(d, start[0]) == Ok(none) && ReadSegments(d, start[..0]) == Ok(none);
  }

  /** The segmented log is the flat log: for every history and limit both readers return exactly what was appended, in order,
      and no segment exceeds the limit unless it holds a single record. */
  lemma SegmentedIsFlat(crc: Crc, limit: nat, es: seq<Entry>)
    ensures var d, enc := DecoderOf(crc), EncoderOf(crc);
            var segments := PlacedAll(Some(limit), [[]], RecordsOf(enc, es));
            && ReadSegments(d, segments) == Ok(es)
            && StreamSegments(d, segments) == Ok(es)
            && Fits(limit, segments, RecordsOf(enc, es))
  {
    var d, enc := DecoderOf(crc), EncoderOf(crc);
    FormatIsCoded(crc);
    DecoderIsHeaded(crc);
    EmptyReads(d);
    PlacedAllReads(d, enc, Some(limit), [[]], [], es);
    assert [] + es == es;
    PlacedAllFits(limit, [[]], RecordsOf(enc, es), []);
    assert [] + RecordsOf(enc, es) == RecordsOf(enc, es);
    StreamingAgrees(d, PlacedAll(Some(limit), [[]], RecordsOf(enc, es)));
  }

  /* ---- The writer ---- */

  class JournalWriter {
    const crc: Crc
    /** The size limit of a segment; a writer without one grows a single file. */
    const limit: Option<nat>
    var currentSegmentIndex: nat
    var currentSegmentSize: nat
    /** The files, the open one last. */
    var segments: seq<seq<byte>>

    ghost predicate Valid()
      reads this
    {
      segments != [] && currentSegmentIndex == |segments| && currentSegmentSize == |segments[|segments| - 1]|
    }

    /** Open one file for appending. */
    constructor (crc: Crc, existing: seq<byte>)
      ensures Valid() && limit == None && segments == [existing] && this.crc == crc
    {
      this.crc, limit := crc, None;
      segments := [existing];
      currentSegmentIndex, currentSegmentSize := 1, |existing|;
    }

    /** Go on with the last segment of a directory, or start its first. */
    constructor OpenSegmented(crc: Crc, existing: seq<seq<byte>>, maxSegmentBytes: nat)
      ensures Valid() && limit == Some(if maxSegmentBytes == 0 then 1 else maxSegmentBytes) && this.crc == crc
      ensures segments == if existing == [] then [[]] else existing
    {
      this.crc, limit := crc, Some(if maxSegmentBytes == 0 then 1 else maxSegmentBytes);
      segments := if existing == [] then [[]] else existing;
      currentSegmentIndex := if existing == [] then 1 else |existing|;
      currentSegmentSize := if existing == [] then 0 else |existing[|existing| - 1]|;
    }

    method RotateSegment()
      requires Valid()
      modifies this
      ensures Valid() && segments == old(segments) + [[]]
    {
      currentSegmentIndex := currentSegmentIndex + 1;
      segments := segments + [[]];
      currentSegmentSize := 0;
    }

    method AppendRaw(record: seq<byte>)
      requires Valid()
      modifies this
      ensures Valid() && segments == Placed(limit, old(segments), record)
    {
      if limit.Some? && currentSegmentSize > 0 && currentSegmentSize + |record| > limit.value {
        RotateSegment();
      }
      GrownFromEmpty(old(segments), record);
      segments := Grown(segments, record);
      currentSegmentSize := currentSegmentSize + |record|;
    }

    method AppendRawBatch(batch: seq<seq<byte>>)
      requires Valid()
      modifies this
      ensures Valid() && segments == PlacedAll(limit, old(segments), batch)
    {
      for i := 0 to |batch|
        invariant Valid() && PlacedAll(limit, segments, batch[i..]) == PlacedAll(limit, old(segments), batch)
      {
        AppendRaw(batch[i]);
      }
    }

    method Append(e: Entry)
      requires Valid()
      modifies this
      ensures Valid() && segments == Placed(limit, old(segments), EncodeRecord(crc, e.seqNo, e.cmd))
    {
      AppendRaw(EncodeRecord(crc, e.seqNo, e.cmd));
    }
  }
}
