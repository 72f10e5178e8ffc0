/** The journal's byte format: commands, and records framed with a length, a
    sequence number and a checksum. The checksum is a parameter: nothing here
    depends on how strong it is. */
module Codec {
  import opened Types
  import opened Bytes

  datatype JournalError = InvalidData | CrcMismatch

  datatype Result<+T> = Ok(value: T) | Err(error: JournalError)

  type Crc = seq<byte> -> u32

  /* ---- Commands to bytes ---- */

  function SideByte(s: Side): byte {
    match s case Bid => 0 case Ask => 1
  }

  function OrderTypeByte(t: OrderType): byte {
    match t case Limit => 0 case Market => 1 case PostOnly => 2 case StopLimit => 3 case Iceberg => 4
  }

  function TifByte(t: TimeInForce): byte {
    match t case GTC => 0 case IOC => 1 case FOK => 2
  }

  function PutOptionU64(v: Option<u64>): seq<byte> {
    match v case None => [0] case Some(x) => [1] + PutU64(x)
  }

  function PutOptionU32(v: Option<u32>): seq<byte> {
    match v case None => [0] case Some(x) => [1] + PutU32(x)
  }

  datatype Head = Head(id: u64, instrument: u32, side: Side, price: u64, qty: u64)

  datatype Kind = Kind(orderType: OrderType, tif: TimeInForce)

  /** The fields that an order may leave out. */
  datatype Extras = Extras(visible: Option<u64>, stopPrice: Option<u64>, stpGroup: Option<u32>)

  function HeadOnto(h: Head, tail: seq<byte>): seq<byte> {
    PutU64(h.id) + (PutU32(h.instrument) + ([SideByte(h.side)] + (PutU64(h.price) + (PutU64(h.qty) + tail))))
  }

  function KindOnto(k: Kind, tail: seq<byte>): seq<byte> {
    [OrderTypeByte(k.orderType)] + ([TifByte(k.tif)] + tail)
  }

  function ExtrasOnto(x: Extras, tail: seq<byte>): seq<byte> {
    PutOptionU64(x.visible) + (PutOptionU64(x.stopPrice) + (PutOptionU32(x.stpGroup) + tail))
  }

  /** The encoding of a command, in front of `tail`. */
  function EncodeOnto(cmd: Command, tail: seq<byte>): seq<byte> {
    match cmd
    case NewOrder(id, instrument, side, price, qty, orderType, tif, visible, stopPrice, stpGroup) =>
      [0] + HeadOnto(Head(id, instrument, side, price, qty),
                     KindOnto(Kind(orderType, tif), ExtrasOnto(Extras(visible, stopPrice, stpGroup), tail)))
    case CancelOrder(id) =>
      [1] + (PutU64(id) + tail)
    case ModifyOrder(id, newPrice, newQty) =>
      [2] + (PutU64(id) + (PutU64(newPrice) + (PutU64(newQty) + tail)))
  }

  function Encode(cmd: Command): seq<byte> {
    EncodeOnto(cmd, [])
  }

  /* ---- Bytes to commands ---- */

  function GetU8(s: seq<byte>): Parsed<byte> {
    if s == [] then Bad else Got(s[0], s[1..])
  }

  function GetU32(s: seq<byte>): Parsed<u32> {
    if |s| < 4 then Bad else Got(U32Of(s[..4]), s[4..])
  }

  function GetU64(s: seq<byte>): Parsed<u64> {
    if |s| < 8 then Bad else Got(U64Of(s[..8]), s[8..])
  }

  function SideOf(b: byte): Option<Side> {
    if b == 0 then Some(Bid) else if b == 1 then Some(Ask) else None
  }

  function OrderTypeOf(b: byte): Option<OrderType> {
    if b == 0 then Some(Limit) else if b == 1 then Some(Market) else if b == 2 then Some(PostOnly)
    else if b == 3 then Some(StopLimit) else if b == 4 then Some(Iceberg) else None
  }

  function TifOf(b: byte): Option<TimeInForce> {
    if b == 0 then Some(GTC) else if b == 1 then Some(IOC) else if b == 2 then Some(FOK) else None
  }

  function GetSide(s: seq<byte>): Parsed<Side> {
    var (b, rest) :- GetU8(s);
    if SideOf(b).None? then Bad else Got(SideOf(b).value, rest)
  }

  function GetOrderType(s: seq<byte>): Parsed<OrderType> {
    var (b, rest) :- GetU8(s);
    if OrderTypeOf(b).None? then Bad else Got(OrderTypeOf(b).value, rest)
  }

  function GetTif(s: seq<byte>): Parsed<TimeInForce> {
    var (b, rest) :- GetU8(s);
    if TifOf(b).None? then Bad else Got(TifOf(b).value, rest)
  }

  function GetOptionU64(s: seq<byte>): Parsed<Option<u64>> {
    var (tag, s1) :- GetU8(s);
    if tag == 0 then Got(None, s1)
    else if tag == 1 then
      var (v, s2) :- GetU64(s1);
      Got(Some(v), s2)
    else Bad
  }

  function GetOptionU32(s: seq<byte>): Parsed<Option<u32>> {
    var (tag, s1) :- GetU8(s);
    if tag == 0 then Got(None, s1)
    else if tag == 1 then
      var (v, s2) :- GetU32(s1);
      Got(Some(v), s2)
    else Bad
  }

  function GetHead(s: seq<byte>): Parsed<Head> {
    var (id, s1) :- GetU64(s);
    var (instrument, s2) :- GetU32(s1);
    var (side, s3) :- GetSide(s2);
    var (price, s4) :- GetU64(s3);
    var (qty, s5) :- GetU64(s4);
    Got(Head(id, instrument, side, price, qty), s5)
  }

  function GetKind(s: seq<byte>): Parsed<Kind> {
    var (orderType, s1) :- GetOrderType(s);
    var (tif, s2) :- GetTif(s1);
    Got(Kind(orderType, tif), s2)
  }

  function GetExtras(s: seq<byte>): Parsed<Extras> {
    var (visible, s1) :- GetOptionU64(s);
    var (stopPrice, s2) :- GetOptionU64(s1);
    var (stpGroup, s3) :- GetOptionU32(s2);
    Got(Extras(visible, stopPrice, stpGroup), s3)
  }

  function GetNewOrder(s: seq<byte>): Parsed<Command> {
    var (h, s1) :- GetHead(s);
    var (k, s2) :- GetKind(s1);
    var (x, s3) :- GetExtras(s2);
    Got(NewOrder(h.id, h.instrument, h.side, h.price, h.qty, k.orderType, k.tif, x.visible, x.stopPrice, x.stpGroup), s3)
  }

  function GetCancel(s: seq<byte>): Parsed<Command> {
    var (id, s1) :- GetU64(s);
    Got(CancelOrder(id), s1)
  }

  function GetModify(s: seq<byte>): Parsed<Command> {
    var (id, s1) :- GetU64(s);
    var (newPrice, s2) :- GetU64(s1);
    var (newQty, s3) :- GetU64(s2);
    Got(ModifyOrder(id, newPrice, newQty), s3)
  }

  function GetCommand(s: seq<byte>): Parsed<Command> {
    var (opcode, s1) :- GetU8(s);
    if opcode == 0 then GetNewOrder(s1)
    else if opcode == 1 then GetCancel(s1)
    else if opcode == 2 then GetModify(s1)
    else Bad
  }

  /** Bytes after the command are not looked at. */
  function Decode(s: seq<byte>): Result<Command> {
    match GetCommand(s)
    case Bad => Err(InvalidData)
    case Got(cmd, _) => Ok(cmd)
  }

  /* ---- Round trips of the parts ---- */

  lemma U8Trip(b: byte, t: seq<byte>)
    ensures GetU8([b] + t) == Got(b, t)
  {
  }

  lemma U32Trip(v: u32, t: seq<byte>)
    ensures GetU32(PutU32(v) + t) == Got(v, t)
  {
    U32RoundTrip(v);
    assert (PutU32(v) + t)[..4] == PutU32(v);
  }

  lemma U64Trip(v: u64, t: seq<byte>)
    ensures GetU64(PutU64(v) + t) == Got(v, t)
  {
    U64RoundTrip(v);
    assert (PutU64(v) + t)[..8] == PutU64(v);
  }

  lemma OptionU64Trip(v: Option<u64>, t: seq<byte>)
    ensures GetOptionU64(PutOptionU64(v) + t) == Got(v, t)
  {
    match v
    case None =>
      U8Trip(0, t);
    case Some(x) =>
      assert PutOptionU64(v) + t == [1] + (PutU64(x) + t);
      U8Trip(1, PutU64(x) + t);
      U64Trip(x, t);
  }

  lemma OptionU32Trip(v: Option<u32>, t: seq<byte>)
    ensures GetOptionU32(PutOptionU32(v) + t) == Got(v, t)
  {
    match v
    case None =>
      U8Trip(0, t);
    case Some(x) =>
      assert PutOptionU32(v) + t == [1] + (PutU32(x) + t);
      U8Trip(1, PutU32(x) + t);
      U32Trip(x, t);
  }

  lemma U8Back(s: seq<byte>)
    ensures GetU8(s).Got? ==> [GetU8(s).value] + GetU8(s).rest == s
  {
  }

  lemma U32Back(s: seq<byte>)
    ensures GetU32(s).Got? ==> PutU32(GetU32(s).value) + GetU32(s).rest == s
  {
    if |s| >= 4 {
      U32Bytes(s[..4]);
    }
  }

  lemma U64Back(s: seq<byte>)
    ensures GetU64(s).Got? ==> PutU64(GetU64(s).value) + GetU64(s).rest == s
  {
    if |s| >= 8 {
      U64Bytes(s[..8]);
    }
  }

  lemma OptionU64Back(s: seq<byte>)
    ensures GetOptionU64(s).Got? ==> PutOptionU64(GetOptionU64(s).value) + GetOptionU64(s).rest == s
  {
    if s != [] && s[0] == 1 && GetU64(s[1..]).Got? {
      U64Back(s[1..]);
      assert [1] + PutU64(GetU64(s[1..]).value) + GetU64(s[1..]).rest == [1] + s[1..];
    }
  }

  lemma OptionU32Back(s: seq<byte>)
    ensures GetOptionU32(s).Got? ==> PutOptionU32(GetOptionU32(s).value) + GetOptionU32(s).rest == s
  {
    if s != [] && s[0] == 1 && GetU32(s[1..]).Got? {
      U32Back(s[1..]);
      assert [1] + PutU32(GetU32(s[1..]).value) + GetU32(s[1..]).rest == [1] + s[1..];
    }
  }

  /* ---- Round trips of commands ---- */

  lemma HeadTrip(h: Head, tail: seq<byte>)
    ensures GetHead(HeadOnto(h, tail)) == Got(h, tail)
  {
    var s4 := PutU64(h.qty) + tail;
    var s3 := PutU64(h.price) + s4;
    var s2 := [SideByte(h.side)] + s3;
    var s1 := PutU32(h.instrument) + s2;
    U64Trip(h.id, s1);
    U32Trip(h.instrument, s2);
    U8Trip(SideByte(h.side), s3);
    U64Trip(h.price, s4);
    U64Trip(h.qty, tail);
  }

  lemma KindTrip(k: Kind, tail: seq<byte>)
    ensures GetKind(KindOnto(k, tail)) == Got(k, tail)
  {
    U8Trip(OrderTypeByte(k.orderType), [TifByte(k.tif)] + tail);
    U8Trip(TifByte(k.tif), tail);
  }

  lemma ExtrasTrip(x: Extras, tail: seq<byte>)
    ensures GetExtras(ExtrasOnto(x, tail)) == Got(x, tail)
  {
    var s2 := PutOptionU32(x.stpGroup) + tail;
    var s1 := PutOptionU64(x.stopPrice) + s2;
    OptionU64Trip(x.visible, s1);
    OptionU64Trip(x.stopPrice, s2);
    OptionU32Trip(x.stpGroup, tail);
  }

  lemma NewOrderTrip(cmd: Command, tail: seq<byte>)
    requires cmd.NewOrder?
    ensures GetCommand(EncodeOnto(cmd, tail)) == Got(cmd, tail)
  {
    var h := Head(cmd.id, cmd.instrument, cmd.side, cmd.price, cmd.qty);
    var k, x := Kind(cmd.orderType, cmd.tif), Extras(cmd.visible, cmd.stopPrice, cmd.stpGroup);
    U8Trip(0, HeadOnto(h, KindOnto(k, ExtrasOnto(x, tail))));
    HeadTrip(h, KindOnto(k, ExtrasOnto(x, tail)));
    KindTrip(k, ExtrasOnto(x, tail));
    ExtrasTrip(x, tail);
  }

  /** Reading a command back, whatever bytes follow it. */
  lemma CommandTrip(cmd: Command, t: seq<byte>)
    ensures GetCommand(EncodeOnto(cmd, t)) == Got(cmd, t)
  {
    match cmd
    case NewOrder(_, _, _, _, _, _, _, _, _, _) =>
      NewOrderTrip(cmd, t);
    case CancelOrder(id) =>
      U8Trip(1, PutU64(id) + t);
      U64Trip(id, t);
    case ModifyOrder(id, newPrice, newQty) =>
      U8Trip(2, PutU64(id) + (PutU64(newPrice) + (PutU64(newQty) + t)));
      U64Trip(id, PutU64(newPrice) + (PutU64(newQty) + t));
      U64Trip(newPrice, PutU64(newQty) + t);
      U64Trip(newQty, t);
  }

  lemma HeadBack(s: seq<byte>)
    ensures GetHead(s).Got? ==> HeadOnto(GetHead(s).value, GetHead(s).rest) == s
  {
    if GetHead(s).Got? {
      U64Back(s);
      var s1 := GetU64(s).rest;
      U32Back(s1);
      var s2 := GetU32(s1).rest;
      U8Back(s2);
      var s3 := GetSide(s2).rest;
      U64Back(s3);
      U64Back(GetU64(s3).rest);
    }
  }

  lemma KindBack(s: seq<byte>)
    ensures GetKind(s).Got? ==> KindOnto(GetKind(s).value, GetKind(s).rest) == s
  {
    if GetKind(s).Got? {
      U8Back(s);
      U8Back(GetOrderType(s).rest);
    }
  }

  lemma ExtrasBack(s: seq<byte>)
    ensures GetExtras(s).Got? ==> ExtrasOnto(GetExtras(s).value, GetExtras(s).rest) == s
  {
    if GetExtras(s).Got? {
      OptionU64Back(s);
      var s1 := GetOptionU64(s).rest;
      OptionU64Back(s1);
      OptionU32Back(GetOptionU64(s1).rest);
    }
  }

  /** What was read spells what was read from. */
  lemma CommandBack(s: seq<byte>)
    requires GetCommand(s).Got?
    ensures EncodeOnto(GetCommand(s).value, GetCommand(s).rest) == s
  {
    U8Back(s);
    var s0 := s[1..];
    if s[0] == 0 {
      HeadBack(s0);
      KindBack(GetHead(s0).rest);
      ExtrasBack(GetKind(GetHead(s0).rest).rest);
    } else if s[0] == 1 {
      U64Back(s0);
    } else {
      U64Back(s0);
      U64Back(GetU64(s0).rest);
      U64Back(GetU64(GetU64(s0).rest).rest);
    }
  }

  /* ---- The format is exact ---- */

  lemma HeadOntoTail(h: Head, tail: seq<byte>)
    ensures HeadOnto(h, tail) == HeadOnto(h, []) + tail && |HeadOnto(h, [])| == 29
  {
  }

  lemma KindOntoTail(k: Kind, tail: seq<byte>)
    ensures KindOnto(k, tail) == KindOnto(k, []) + tail && |KindOnto(k, [])| == 2
  {
  }

  lemma ExtrasOntoTail(x: Extras, tail: seq<byte>)
    ensures ExtrasOnto(x, tail) == ExtrasOnto(x, []) + tail && 3 <= |ExtrasOnto(x, [])| <= 23
  {
  }

  /** Encoding in front of other bytes is encoding, then the other bytes. */
  lemma EncodeOntoTail(cmd: Command, tail: seq<byte>)
    ensures EncodeOnto(cmd, tail) == Encode(cmd) + tail && 9 <= |Encode(cmd)| <= 55
  {
    match cmd
    case NewOrder(id, instrument, side, price, qty, orderType, tif, visible, stopPrice, stpGroup) =>
      var h, k, x := Head(id, instrument, side, price, qty), Kind(orderType, tif), Extras(visible, stopPrice, stpGroup);
      ExtrasOntoTail(x, tail);
      KindOntoTail(k, ExtrasOnto(x, []));
      KindOntoTail(k, ExtrasOnto(x, tail));
      HeadOntoTail(h, KindOnto(k, ExtrasOnto(x, [])));
      HeadOntoTail(h, KindOnto(k, ExtrasOnto(x, tail)));
      Regroup(KindOnto(k, []), ExtrasOnto(x, []), tail);
      Regroup(HeadOnto(h, []), KindOnto(k, ExtrasOnto(x, [])), tail);
      Regroup([0], HeadOnto(h, KindOnto(k, ExtrasOnto(x, []))), tail);
    case CancelOrder(id) =>
      Regroup([1], PutU64(id), tail);
      assert PutU64(id) + [] == PutU64(id);
    case ModifyOrder(id, newPrice, newQty) =>
      assert PutU64(newQty) + [] == PutU64(newQty);
      Regroup(PutU64(newPrice), PutU64(newQty), tail);
      Regroup(PutU64(id), PutU64(newPrice) + PutU64(newQty), tail);
      Regroup([2], PutU64(id) + (PutU64(newPrice) + PutU64(newQty)), tail);
  }

  /** Decoding accepts exactly the byte strings that start with an encoding, and finds that command. */
  lemma DecodeIsExact(s: seq<byte>, cmd: Command)
    ensures Decode(s) == Ok(cmd) <==> Encode(cmd) <= s
  {
    if Decode(s) == Ok(cmd) {
      CommandBack(s);
      EncodeOntoTail(cmd, GetCommand(s).rest);
    }
    if Encode(cmd) <= s {
      var tail := s[|Encode(cmd)|..];
      assert s == Encode(cmd) + tail;
      EncodeOntoTail(cmd, tail);
      CommandTrip(cmd, tail);
    }
  }

  /** No encoding is the beginning of another. */
  lemma EncodingsAreApart(a: Command, b: Command)
    ensures Encode(a) <= Encode(b) ==> a == b
  {
    DecodeIsExact(Encode(b), a);
    DecodeIsExact(Encode(b), b);
  }

  /* ---- The layout ---- */

  /** An integer in the middle of other bytes. */
  lemma FieldAt(before: seq<byte>, n: nat, v: nat, after: seq<byte>)
    ensures Field(before + (ToLE(n, v) + after), |before|, n, v)
  {
    ToLEField(n, v);
    var s := before + (ToLE(n, v) + after);
    forall i | 0 <= i < n ensures s[|before| + i] == v / Span(i) % 256 {
      assert s[|before| + i] == ToLE(n, v)[0 + i];
    }
  }

  /** The fixed fields of an order. */
  predicate HeadFields(s: seq<byte>, cmd: Command)
    requires cmd.NewOrder?
  {
    && Field(s, 1, 8, cmd.id) && Field(s, 9, 4, cmd.instrument) && Field(s, 14, 8, cmd.price) && Field(s, 22, 8, cmd.qty)
    && 32 <= |s| && s[0] == 0
    && s[13] == (if cmd.side == Bid then 0 else 1)
    && s[30] == (if cmd.orderType == Limit then 0 else if cmd.orderType == Market then 1 else if cmd.orderType == PostOnly then 2
                 else if cmd.orderType == StopLimit then 3 else 4)
    && s[31] == (if cmd.tif == GTC then 0 else if cmd.tif == IOC then 1 else 2)
  }

  lemma HeadLayout(cmd: Command)
    requires cmd.NewOrder?
    ensures HeadFields(Encode(cmd), cmd)
  {
    var s := Encode(cmd);
    var tail := KindOnto(Kind(cmd.orderType, cmd.tif), ExtrasOnto(Extras(cmd.visible, cmd.stopPrice, cmd.stpGroup), []));
    var s4 := PutU64(cmd.qty) + tail;
    var s3 := PutU64(cmd.price) + s4;
    var s2 := [SideByte(cmd.side)] + s3;
    var s1 := PutU32(cmd.instrument) + s2;
    FieldAt([0], 8, cmd.id, s1);
    assert s == [0] + (PutU64(cmd.id) + s1);
    var at9 := s[..9];
    assert s == at9 + s1;
    FieldAt(at9, 4, cmd.instrument, s2);
    var at14 := s[..14];
    assert s == at14 + s3;
    FieldAt(at14, 8, cmd.price, s4);
    var at22 := s[..22];
    assert s == at22 + s4;
    FieldAt(at22, 8, cmd.qty, tail);
  }

  /** A field that may be left out: a zero, or a one and then `n` bytes. */
  predicate OptionField(s: seq<byte>, at: nat, n: nat, v: Option<nat>) {
    at < |s| && if v.Some? then s[at] == 1 && Field(s, at + 1, n, v.value) else s[at] == 0
  }

  function OptionEnd(at: nat, n: nat, v: Option<nat>): nat {
    if v.Some? then at + 1 + n else at + 1
  }

  lemma OptionU64At(before: seq<byte>, v: Option<u64>, w: Option<nat>, after: seq<byte>)
    requires if v.Some? then w == Some(v.value) else w == None
    ensures OptionField(before + (PutOptionU64(v) + after), |before|, 8, w)
    ensures |before + PutOptionU64(v)| == OptionEnd(|before|, 8, w)
  {
    if v.Some? {
      assert before + (PutOptionU64(v) + after) == before + [1] + (PutU64(v.value) + after);
      FieldAt(before + [1], 8, v.value, after);
    }
  }

  lemma OptionU32At(before: seq<byte>, v: Option<u32>, w: Option<nat>, after: seq<byte>)
    requires if v.Some? then w == Some(v.value) else w == None
    ensures OptionField(before + (PutOptionU32(v) + after), |before|, 4, w)
    ensures |before + PutOptionU32(v)| == OptionEnd(|before|, 4, w)
  {
    if v.Some? {
      assert before + (PutOptionU32(v) + after) == before + [1] + (PutU32(v.value) + after);
      FieldAt(before + [1], 4, v.value, after);
    }
  }

  /** The optional fields of an order, one behind the other from byte 32 on, and nothing behind them. */
  predicate ExtraFields(s: seq<byte>, visible: Option<nat>, stopPrice: Option<nat>, stpGroup: Option<nat>) {
    var at1 := OptionEnd(32, 8, visible);
    var at2 := OptionEnd(at1, 8, stopPrice);
    && OptionField(s, 32, 8, visible) && OptionField(s, at1, 8, stopPrice) && OptionField(s, at2, 4, stpGroup)
    && |s| == OptionEnd(at2, 4, stpGroup)
  }

  lemma ExtrasLayout(before: seq<byte>, x: Extras, visible: Option<nat>, stopPrice: Option<nat>, stpGroup: Option<nat>)
    requires |before| == 32
    requires if x.visible.Some? then visible == Some(x.visible.value) else visible == None
    requires if x.stopPrice.Some? then stopPrice == Some(x.stopPrice.value) else stopPrice == None
    requires if x.stpGroup.Some? then stpGroup == Some(x.stpGroup.value) else stpGroup == None
    ensures ExtraFields(before + ExtrasOnto(x, []), visible, stopPrice, stpGroup)
  {
    var x1 := PutOptionU64(x.stopPrice) + (PutOptionU32(x.stpGroup) + []);
    var (b1, b2) := (before + PutOptionU64(x.visible), before + PutOptionU64(x.visible) + PutOptionU64(x.stopPrice));
    OptionU64At(before, x.visible, visible, x1);
    Regroup(before, PutOptionU64(x.visible), x1);
    OptionU64At(b1, x.stopPrice, stopPrice, PutOptionU32(x.stpGroup) + []);
    Regroup(b1, PutOptionU64(x.stopPrice), PutOptionU32(x.stpGroup) + []);
    OptionU32At(b2, x.stpGroup, stpGroup, []);
    assert |b2 + (PutOptionU32(x.stpGroup) + [])| == |b2 + PutOptionU32(x.stpGroup)|;
  }

  /** What stands where in the encoding of a command: its tag, then its fields at fixed places, integers with the lowest byte first,
      and the optional fields of an order behind the others. */
  lemma Layout(cmd: Command)
    ensures var s := Encode(cmd);
            match cmd
            case CancelOrder(id) => |s| == 9 && s[0] == 1 && Field(s, 1, 8, id)
            case ModifyOrder(id, newPrice, newQty) =>
              |s| == 25 && s[0] == 2 && Field(s, 1, 8, id) && Field(s, 9, 8, newPrice) && Field(s, 17, 8, newQty)
            case NewOrder(_, _, _, _, _, _, _, visible, stopPrice, stpGroup) =>
              && HeadFields(s, cmd)
              && ExtraFields(s, if visible.Some? then Some(visible.value) else None,
                                if stopPrice.Some? then Some(stopPrice.value) else None,
                                if stpGroup.Some? then Some(stpGroup.value) else None)
  {
    var s := Encode(cmd);
    match cmd
    case CancelOrder(id) =>
      FieldAt([1], 8, id, []);
    case ModifyOrder(id, newPrice, newQty) =>
      FieldAt([2], 8, id, PutU64(newPrice) + (PutU64(newQty) + []));
      assert s == s[..9] + (PutU64(newPrice) + (PutU64(newQty) + []));
      FieldAt(s[..9], 8, newPrice, PutU64(newQty) + []);
      assert s == s[..17] + (PutU64(newQty) + []);
      FieldAt(s[..17], 8, newQty, []);
    case NewOrder(_, _, _, _, _, _, _, visible, stopPrice, stpGroup) =>
      HeadLayout(cmd);
      var x := Extras(visible, stopPrice, stpGroup);
      assert s == s[..32] + ExtrasOnto(x, []);
      ExtrasLayout(s[..32], x, if visible.Some? then Some(visible.value) else None,
                   if stopPrice.Some? then Some(stopPrice.value) else None,
                   if stpGroup.Some? then Some(stpGroup.value) else None);
  }

  /* ---- The buffer and the cursor ---- */

  method PushOptionU64(buf: seq<byte>, v: Option<u64>) returns (r: seq<byte>)
    ensures r == buf + PutOptionU64(v)
  {
    match v
    case None =>
      r := buf + [0];
    case Some(x) =>
      r := buf + [1];
      r := r + PutU64(x);
  }

  method PushOptionU32(buf: seq<byte>, v: Option<u32>) returns (r: seq<byte>)
    ensures r == buf + PutOptionU32(v)
  {
    match v
    case None =>
      r := buf + [0];
    case Some(x) =>
      r := buf + [1];
      r := r + PutU32(x);
  }

  method PushHead(buf: seq<byte>, h: Head) returns (r: seq<byte>)
    ensures r == buf + HeadOnto(h, [])
  {
    r := buf + PutU64(h.id);
    r := r + PutU32(h.instrument);
    r := r + [SideByte(h.side)];
    r := r + PutU64(h.price);
    r := r + PutU64(h.qty);
  }

  method PushExtras(buf: seq<byte>, x: Extras) returns (r: seq<byte>)
    ensures r == buf + ExtrasOnto(x, [])
  {
    r := PushOptionU64(buf, x.visible);
    r := PushOptionU64(r, x.stopPrice);
    r := PushOptionU32(r, x.stpGroup);
  }

  method PushNewOrder(cmd: Command) returns (buf: seq<byte>)
    requires cmd.NewOrder?
    ensures buf == Encode(cmd)
  {
    ghost var h := Head(cmd.id, cmd.instrument, cmd.side, cmd.price, cmd.qty);
    ghost var k, x := Kind(cmd.orderType, cmd.tif), Extras(cmd.visible, cmd.stopPrice, cmd.stpGroup);
    buf := [0];
    buf := PushHead(buf, Head(cmd.id, cmd.instrument, cmd.side, cmd.price, cmd.qty));
    buf := buf + [OrderTypeByte(cmd.orderType)];
    buf := buf + [TifByte(cmd.tif)];
    assert buf == [0] + HeadOnto(h, []) + KindOnto(k, []);
    buf := PushExtras(buf, Extras(cmd.visible, cmd.stopPrice, cmd.stpGroup));
    KindOntoTail(k, ExtrasOnto(x, []));
    HeadOntoTail(h, KindOnto(k, ExtrasOnto(x, [])));
    Regroup([0], HeadOnto(h, []), KindOnto(k, []));
    Regroup([0] + HeadOnto(h, []), KindOnto(k, []), ExtrasOnto(x, []));
    Regroup([0], HeadOnto(h, []), KindOnto(k, ExtrasOnto(x, [])));
  }

  /** Encode a command by appending to a buffer. */
  method EncodeCommand(cmd: Command) returns (buf: seq<byte>)
    ensures buf == Encode(cmd)
  {
    match cmd
    case NewOrder(_, _, _, _, _, _, _, _, _, _) =>
      buf := PushNewOrder(cmd);
    case CancelOrder(id) =>
      buf := [1];
      buf := buf + PutU64(id);
    case ModifyOrder(id, newPrice, newQty) =>
      buf := [2];
      buf := buf + PutU64(id);
      buf := buf + PutU64(newPrice);
      buf := buf + PutU64(newQty);
  }

  /** The cursor stands where the parser would go on. */
  ghost predicate ReadAs<T(!new)>(bytes: seq<byte>, p: Parsed<T>, r: Option<T>, pos: nat) {
    pos <= |bytes| && p == if r.None? then Bad else Got(r.value, bytes[pos..])
  }

  method ReadU8(bytes: seq<byte>, at: nat) returns (r: Option<byte>, pos: nat)
    requires at <= |bytes|
    ensures ReadAs(bytes, GetU8(bytes[at..]), r, pos)
  {
    if at >= |bytes| {
      return None, at;
    }
    return Some(bytes[at]), at + 1;
  }

  method ReadU32(bytes: seq<byte>, at: nat) returns (r: Option<u32>, pos: nat)
    requires at <= |bytes|
    ensures ReadAs(bytes, GetU32(bytes[at..]), r, pos)
  {
    if at + 4 > |bytes| {
      return None, at;
    }
    assert bytes[at..][..4] == bytes[at..at + 4] && bytes[at..][4..] == bytes[at + 4..];
    return Some(U32Of(bytes[at..at + 4])), at + 4;
  }

  method ReadU64(bytes: seq<byte>, at: nat) returns (r: Option<u64>, pos: nat)
    requires at <= |bytes|
    ensures ReadAs(bytes, GetU64(bytes[at..]), r, pos)
  {
    if at + 8 > |bytes| {
      return None, at;
    }
    assert bytes[at..][..8] == bytes[at..at + 8] && bytes[at..][8..] == bytes[at + 8..];
    return Some(U64Of(bytes[at..at + 8])), at + 8;
  }

  method ReadOptionU64(bytes: seq<byte>, at: nat) returns (r: Option<Option<u64>>, pos: nat)
    requires at <= |bytes|
    ensures ReadAs(bytes, GetOptionU64(bytes[at..]), r, pos)
  {
    var tag;
    tag, pos := ReadU8(bytes, at);
    if tag.None? || tag.value > 1 {
      return None, pos;
    }
    if tag.value == 0 {
      return Some(None), pos;
    }
    var v;
    v, pos := ReadU64(bytes, pos);
    r := if v.None? then None else Some(v);
  }

  method ReadOptionU32(bytes: seq<byte>, at: nat) returns (r: Option<Option<u32>>, pos: nat)
    requires at <= |bytes|
    ensures ReadAs(bytes, GetOptionU32(bytes[at..]), r, pos)
  {
    var tag;
    tag, pos := ReadU8(bytes, at);
    if tag.None? || tag.value > 1 {
      return None, pos;
    }
    if tag.value == 0 {
      return Some(None), pos;
    }
    var v;
    v, pos := ReadU32(bytes, pos);
    r := if v.None? then None else Some(v);
  }

  method ReadHead(bytes: seq<byte>, at: nat) returns (r: Option<Head>, pos: nat)
    requires at <= |bytes|
    ensures ReadAs(bytes, GetHead(bytes[at..]), r, pos)
  {
    r := None;
    var id, instrument, side, price, qty;
    id, pos := ReadU64(bytes, at);
    if id.None? { return; }
    instrument, pos := ReadU32(bytes, pos);
    if instrument.None? { return; }
    side, pos := ReadU8(bytes, pos);
    if side.None? || SideOf(side.value).None? { return; }
    price, pos := ReadU64(bytes, pos);
    if price.None? { return; }
    qty, pos := ReadU64(bytes, pos);
    if qty.None? { return; }
    r := Some(Head(id.value, instrument.value, SideOf(side.value).value, price.value, qty.value));
  }

  method ReadKind(bytes: seq<byte>, at: nat) returns (r: Option<Kind>, pos: nat)
    requires at <= |bytes|
    ensures ReadAs(bytes, GetKind(bytes[at..]), r, pos)
  {
    r := None;
    var orderType, tif;
    orderType, pos := ReadU8(bytes, at);
    if orderType.None? || OrderTypeOf(orderType.value).None? { return; }
    tif, pos := ReadU8(bytes, pos);
    if tif.None? || TifOf(tif.value).None? { return; }
    r := Some(Kind(OrderTypeOf(orderType.value).value, TifOf(tif.value).value));
  }

  method ReadExtras(bytes: seq<byte>, at: nat) returns (r: Option<Extras>, pos: nat)
    requires at <= |bytes|
    ensures ReadAs(bytes, GetExtras(bytes[at..]), r, pos)
  {
    r := None;
    var visible, stopPrice, stpGroup;
    visible, pos := ReadOptionU64(bytes, at);
    if visible.None? { return; }
    stopPrice, pos := ReadOptionU64(bytes, pos);
    if stopPrice.None? { return; }
    stpGroup, pos := ReadOptionU32(bytes, pos);
    if stpGroup.None? { return; }
    r := Some(Extras(visible.value, stopPrice.value, stpGroup.value));
  }

  method ReadNewOrder(bytes: seq<byte>, at: nat) returns (r: Option<Command>, pos: nat)
    requires at <= |bytes|
    ensures ReadAs(bytes, GetNewOrder(bytes[at..]), r, pos)
  {
    r := None;
    var head, kind, extras;
    head, pos := ReadHead(bytes, at);
    if head.None? { return; }
    kind, pos := ReadKind(bytes, pos);
    if kind.None? { return; }
    extras, pos := ReadExtras(bytes, pos);
    if extras.None? { return; }
    var h, k, x := head.value, kind.value, extras.value;
    r := Some(NewOrder(h.id, h.instrument, h.side, h.price, h.qty, k.orderType, k.tif, x.visible, x.stopPrice, x.stpGroup));
  }

  method ReadModify(bytes: seq<byte>, at: nat) returns (r: Option<Command>, pos: nat)
    requires at <= |bytes|
    ensures ReadAs(bytes, GetModify(bytes[at..]), r, pos)
  {
    r := None;
    var id, newPrice, newQty;
    id, pos := ReadU64(bytes, at);
    if id.None? { return; }
    newPrice, pos := ReadU64(bytes, pos);
    if newPrice.None? { return; }
    newQty, pos := ReadU64(bytes, pos);
    if newQty.None? { return; }
    r := Some(ModifyOrder(id.value, newPrice.value, newQty.value));
  }

  /** Decode a command by moving a cursor over its bytes. */
  method DecodeCommand(bytes: seq<byte>) returns (r: Result<Command>)
    ensures r == Decode(bytes)
  {
    var opcode, cmd, pos;
    opcode, pos := ReadU8(bytes, 0);
    assert bytes[0..] == bytes;
    if opcode == Some(0) {
      cmd, pos := ReadNewOrder(bytes, pos);
    } else if opcode == Some(1) {
      var id;
      id, pos := ReadU64(bytes, pos);
      cmd := if id.None? then None else Some(CancelOrder(id.value));
    } else if opcode == Some(2) {
      cmd, pos := ReadModify(bytes, pos);
    } else {
      cmd := None;
    }
    r := if cmd.None? then Err(InvalidData) else Ok(cmd.value);
  }
}
