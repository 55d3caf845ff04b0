/** BATTERY_STATUS: one typed message, packed, sent, parsed and decoded. */
module BatteryStatus {
  import opened Bytes
  import opened MessageTable
  import opened Wire
  import opened Message
  import opened Status
  import opened Transmit
  import opened Receiver
  import opened ParserState
  import opened RoundTrip

  const MSG_ID := 147
  const MSG_LEN := 54
  const MSG_MIN_LEN := 36
  const MSG_CRC: byte := 154

  type int8 = x: int | -0x80 <= x < 0x80
  type int16 = x: int | -0x8000 <= x < 0x8000
  type int32 = x: int | -0x8000_0000 <= x < 0x8000_0000
  type uint16 = x: nat | x < 0x1_0000
  type uint32 = x: nat | x < 0x1_0000_0000

  /** `mavlink_battery_status_t` */
  datatype Battery = Battery(
    currentConsumed: int32, energyConsumed: int32, temperature: int16, voltages: seq<uint16>, currentBattery: int16,
    id: uint8, batteryFunction: uint8, batteryType: uint8, batteryRemaining: int8,
    timeRemaining: int32, chargeState: uint8, voltagesExt: seq<uint16>, mode: uint8, faultBitmask: uint32)
  {
    predicate Sized() {
      |voltages| == 10 && |voltagesExt| == 4
    }

    /** The part a version 1 frame carries. */
    function Base(): Battery {
      this.(timeRemaining := 0, chargeState := 0, voltagesExt := [0, 0, 0, 0], mode := 0, faultBitmask := 0)
    }
  }

  // ----- the packed little-endian struct -----

  function Int8Bytes(x: int8): (s: seq<byte>) ensures |s| == 1 { LittleEndian(if x < 0 then x + 0x100 else x, 1) }
  function Int16Bytes(x: int16): (s: seq<byte>) ensures |s| == 2 { LittleEndian(if x < 0 then x + 0x1_0000 else x, 2) }
  function Int32Bytes(x: int32): (s: seq<byte>) ensures |s| == 4 { LittleEndian(if x < 0 then x + 0x1_0000_0000 else x, 4) }

  function Int8From(s: seq<byte>): int8
    requires |s| == 1
  {
    Widths(s);
    var n := FromLittleEndian(s); if n < 0x80 then n else n - 0x100
  }

  function Int16From(s: seq<byte>): int16
    requires |s| == 2
  {
    Widths(s);
    var n := FromLittleEndian(s); if n < 0x8000 then n else n - 0x1_0000
  }

  function Int32From(s: seq<byte>): int32
    requires |s| == 4
  {
    Widths(s);
    var n := FromLittleEndian(s); if n < 0x8000_0000 then n else n - 0x1_0000_0000
  }

  function UintFrom(s: seq<byte>): (n: nat)
    requires |s| <= 4
    ensures |s| == 1 ==> n < 0x100
    ensures |s| == 2 ==> n < 0x1_0000
    ensures |s| == 4 ==> n < 0x1_0000_0000
  {
    Widths(s);
    FromLittleEndian(s)
  }

  lemma Widths(s: seq<byte>)
    requires |s| <= 4
    ensures Power256(1) == 0x100 && Power256(2) == 0x1_0000 && Power256(4) == 0x1_0000_0000
    ensures FromLittleEndian(s) < Power256(|s|)
  {
    assert Power256(1) == 0x100;
    assert Power256(2) == 0x1_0000;
    assert Power256(3) == 0x100_0000;
    FromLittleEndianBound(s);
  }

  function Uint16sBytes(v: seq<uint16>): (s: seq<byte>)
    ensures |s| == 2 * |v|
  {
    if v == [] then [] else LittleEndian(v[0], 2) + Uint16sBytes(v[1..])
  }

  function Uint16sFrom(s: seq<byte>): (v: seq<uint16>)
    requires |s| % 2 == 0
    ensures |v| == |s| / 2
  {
    if s == [] then [] else [UintFrom(s[..2])] + Uint16sFrom(s[2..])
  }

  lemma UintRoundTrip(n: nat, width: nat)
    requires 1 <= width <= 4 && n < Power256(width)
    ensures UintFrom(LittleEndian(n, width)) == n
  {
    hide LittleEndian, FromLittleEndian;
    LittleEndianRoundTrip(n, width);
  }

  lemma Int8RoundTrip(x: int8)
    ensures Int8From(Int8Bytes(x)) == x
  {
    hide LittleEndian, FromLittleEndian, Power256;
    Widths([]);
    LittleEndianRoundTrip(if x < 0 then x + 0x100 else x, 1);
  }

  lemma Int16RoundTrip(x: int16)
    ensures Int16From(Int16Bytes(x)) == x
  {
    hide LittleEndian, FromLittleEndian, Power256;
    Widths([]);
    LittleEndianRoundTrip(if x < 0 then x + 0x1_0000 else x, 2);
  }

  lemma Int32RoundTrip(x: int32)
    ensures Int32From(Int32Bytes(x)) == x
  {
    hide LittleEndian, FromLittleEndian, Power256;
    Widths([]);
    LittleEndianRoundTrip(if x < 0 then x + 0x1_0000_0000 else x, 4);
  }

  lemma {:induction false} Uint16sRoundTrip(v: seq<uint16>)
    ensures Uint16sFrom(Uint16sBytes(v)) == v
  {
    Widths([]);
    hide LittleEndian, FromLittleEndian, UintFrom;
    if v != [] {
      var s := Uint16sBytes(v);
      assert s[..2] == LittleEndian(v[0], 2) && s[2..] == Uint16sBytes(v[1..]);
      UintRoundTrip(v[0], 2);
      Uint16sRoundTrip(v[1..]);
    }
  }

  function BaseBytes(b: Battery): (s: seq<byte>)
    requires b.Sized()
    ensures |s| == MSG_MIN_LEN
  {
    Int32Bytes(b.currentConsumed) + Int32Bytes(b.energyConsumed) + Int16Bytes(b.temperature)
    + Uint16sBytes(b.voltages) + Int16Bytes(b.currentBattery)
    + LittleEndian(b.id, 1) + LittleEndian(b.batteryFunction, 1) + LittleEndian(b.batteryType, 1)
    + Int8Bytes(b.batteryRemaining)
  }

  function ExtensionBytes(b: Battery): (s: seq<byte>)
    requires b.Sized()
    ensures |s| == MSG_LEN - MSG_MIN_LEN
  {
    Int32Bytes(b.timeRemaining) + LittleEndian(b.chargeState, 1) + Uint16sBytes(b.voltagesExt)
    + LittleEndian(b.mode, 1) + LittleEndian(b.faultBitmask, 4)
  }

  /** The struct as bytes; the offsets are those of the message definition. */
  function StructBytes(b: Battery): (s: seq<byte>)
    requires b.Sized()
    ensures |s| == MSG_LEN
  {
    BaseBytes(b) + ExtensionBytes(b)
  }

  /** The struct read from bytes, field by field at its offset. */
  function FromStruct(s: seq<byte>): Battery
    requires |s| == MSG_LEN
  {
    Battery(Int32From(s[0..4]), Int32From(s[4..8]), Int16From(s[8..10]), Uint16sFrom(s[10..30]), Int16From(s[30..32]),
            UintFrom(s[32..33]), UintFrom(s[33..34]), UintFrom(s[34..35]), Int8From(s[35..36]),
            Int32From(s[36..40]), UintFrom(s[40..41]), Uint16sFrom(s[41..49]), UintFrom(s[49..50]), UintFrom(s[50..54]))
  }

  lemma BaseSlices(b: Battery, s: seq<byte>)
    requires b.Sized() && BaseBytes(b) <= s
    ensures s[0..4] == Int32Bytes(b.currentConsumed) && s[4..8] == Int32Bytes(b.energyConsumed)
    ensures s[8..10] == Int16Bytes(b.temperature) && s[10..30] == Uint16sBytes(b.voltages)
    ensures s[30..32] == Int16Bytes(b.currentBattery)
    ensures s[32..33] == LittleEndian(b.id, 1) && s[33..34] == LittleEndian(b.batteryFunction, 1)
    ensures s[34..35] == LittleEndian(b.batteryType, 1) && s[35..36] == Int8Bytes(b.batteryRemaining)
  {
    hide LittleEndian, Int32Bytes, Int16Bytes, Int8Bytes, Uint16sBytes;
    var t := BaseBytes(b);
    assert s[..36] == t;
    assert s[0..4] == t[0..4] && s[4..8] == t[4..8] && s[8..10] == t[8..10] && s[10..30] == t[10..30];
    assert s[30..32] == t[30..32] && s[32..33] == t[32..33] && s[33..34] == t[33..34];
    assert s[34..35] == t[34..35] && s[35..36] == t[35..36];
  }

  lemma ExtensionSlices(b: Battery, s: seq<byte>)
    requires b.Sized() && |s| == MSG_LEN && s[36..] == ExtensionBytes(b)
    ensures s[36..40] == Int32Bytes(b.timeRemaining) && s[40..41] == LittleEndian(b.chargeState, 1)
    ensures s[41..49] == Uint16sBytes(b.voltagesExt) && s[49..50] == LittleEndian(b.mode, 1)
    ensures s[50..54] == LittleEndian(b.faultBitmask, 4)
  {
    hide LittleEndian, Int32Bytes, Uint16sBytes;
    var t := ExtensionBytes(b);
    assert s[36..40] == t[0..4] && s[40..41] == t[4..5] && s[41..49] == t[5..13];
    assert s[49..50] == t[13..14] && s[50..54] == t[14..18];
  }

  /** Packing and unpacking the struct undo each other, field for field. */
  lemma StructRoundTrip(b: Battery)
    requires b.Sized()
    ensures FromStruct(StructBytes(b)) == b
  {
    Widths([]);
    hide LittleEndian, Int32Bytes, Int16Bytes, Int8Bytes, Uint16sBytes, BaseBytes, ExtensionBytes;
    hide Int32From, Int16From, Int8From, UintFrom, Uint16sFrom;
    var s := StructBytes(b);
    BaseSlices(b, s);
    ExtensionSlices(b, s);
    Int32RoundTrip(b.currentConsumed);
    Int32RoundTrip(b.energyConsumed);
    Int32RoundTrip(b.timeRemaining);
    Int16RoundTrip(b.temperature);
    Int16RoundTrip(b.currentBattery);
    Int8RoundTrip(b.batteryRemaining);
    UintRoundTrip(b.id, 1);
    UintRoundTrip(b.batteryFunction, 1);
    UintRoundTrip(b.batteryType, 1);
    UintRoundTrip(b.chargeState, 1);
    UintRoundTrip(b.mode, 1);
    UintRoundTrip(b.faultBitmask, 4);
    Uint16sRoundTrip(b.voltages);
    Uint16sRoundTrip(b.voltagesExt);
  }

  /** Zeros behind the base part read as zero in every extension field. */
  lemma BaseReadsZeroExtensions(b: Battery)
    requires b.Sized()
    ensures b.Base().Sized() && StructBytes(b.Base()) == BaseBytes(b) + Zeros(18)
  {
    hide LittleEndian, Int16Bytes, Int8Bytes, Uint16sBytes;
    var e := b.Base();
    assert BaseBytes(e) == BaseBytes(b);
    ZeroBytes(4);
    ZeroBytes(1);
    ZeroWords(4);
    assert e.voltagesExt == seq(4, i => 0);
    assert ExtensionBytes(e) == Zeros(4) + Zeros(1) + Zeros(8) + Zeros(1) + Zeros(4) == Zeros(18);
  }

  lemma {:induction false} ZeroBytes(n: nat)
    ensures LittleEndian(0, n) == Zeros(n)
  {
    if n > 0 {
      assert ToByte(0) == 0;
      ZeroBytes(n - 1);
    }
  }

  lemma {:induction false} ZeroWords(n: nat)
    ensures Uint16sBytes(seq(n, i => 0)) == Zeros(2 * n)
  {
    if n > 0 {
      ZeroBytes(2);
      var zeros: seq<uint16> := seq(n, i => 0);
      assert zeros[1..] == seq(n - 1, i => 0);
      ZeroWords(n - 1);
    }
  }

  // ----- pack and decode -----

  /** `mav_array_memcpy` of an array argument: a null pointer stands for zeros. */
  function ArrayOrZeros(v: Option<seq<uint16>>, n: nat): (r: seq<uint16>)
    requires v.Some? ==> |v.value| == n
    ensures |r| == n
  {
    if v.None? then seq(n, i => 0) else v.value
  }

  /** A null array is as many zeros; one that is given is taken as it is. */
  lemma NullArrayIsZeros(v: seq<uint16>)
    requires |v| == 10
    ensures ArrayOrZeros(None, 10) == [0, 0, 0, 0, 0, 0, 0, 0, 0, 0] && ArrayOrZeros(None, 4) == [0, 0, 0, 0]
    ensures ArrayOrZeros(Some(v), 10) == v
  {
  }

  /** `mavlink_msg_battery_status_pack_chan`. Null arrays are packed as zeros. */
  method PackChan(systemId: byte, componentId: byte, status: Status, msg: Message, b: Battery,
                  voltages: Option<seq<uint16>>, voltagesExt: Option<seq<uint16>>)
    returns (n: nat, ghost out: Outgoing, ghost body: seq<byte>)
    requires msg.Valid() && status.SigningValid()
    requires voltages.Some? ==> |voltages.value| == 10
    requires voltagesExt.Some? ==> |voltagesExt.value| == 4
    modifies msg, msg.payload, msg.signature, status`currentTxSeq
    modifies if status.signing == null then {} else {status.signing}
    ensures var packed := b.(voltages := ArrayOrZeros(voltages, 10), voltagesExt := ArrayOrZeros(voltagesExt, 4));
      body == SentPayload(out.v1, StructBytes(packed), MSG_MIN_LEN, MSG_LEN)
    ensures out == old(OutgoingOf(status, systemId, componentId, MSG_ID, MSG_CRC))
    ensures msg.SendBytes() == out.Frame(body) && n == |out.Frame(body)|
    ensures msg.len == |body| && msg.payload[..|body|] == body
    ensures SentOne(status)
  {
    hide StructBytes, FromStruct, Outgoing.Frame, Printed;
    var packet := b.(voltages := ArrayOrZeros(voltages, 10), voltagesExt := ArrayOrZeros(voltagesExt, 4));
    var bytes := StructBytes(packet);
    CopyInto(msg.payload, 0, bytes);
    assert msg.payload[..MSG_LEN] == bytes;
    msg.msgid := MSG_ID;
    SamePayloadSent(status.outMavlink1, msg.payload[..], bytes, MSG_MIN_LEN, MSG_LEN, MSG_LEN);
    n, out, body := FinalizeMessageBuffer(msg, systemId, componentId, status, MSG_MIN_LEN, MSG_LEN, MSG_CRC);
  }

  /** The bytes `mavlink_msg_battery_status_decode` puts into the cleared struct. */
  function Cleared(payload: seq<byte>, len: uint8): (s: seq<byte>)
    requires |payload| >= 256
    ensures |s| == MSG_LEN
  {
    var n := Min(len, MSG_LEN);
    payload[..n] + Zeros(MSG_LEN - n)
  }

  /** `mavlink_msg_battery_status_decode` */
  method Decode(msg: Message) returns (b: Battery)
    requires msg.Valid()
    ensures b == FromStruct(Cleared(msg.payload[..], msg.len))
  {
    hide FromStruct;
    var len := if msg.len < MSG_LEN then msg.len else MSG_LEN;
    var struct := new byte[MSG_LEN](i => 0);
    CopyInto(struct, 0, msg.payload[..len]);
    assert struct[..] == Cleared(msg.payload[..], msg.len) by {
      assert struct[..0] == [];
      assert struct[..len] == msg.payload[..len];
      assert struct[len..] == Zeros(MSG_LEN - len);
      assert struct[..] == struct[..len] + struct[len..];
    }
    b := FromStruct(struct[..]);
  }

  /** Whatever lies behind its payload (the sender's buffer has the checksum there), a message decodes to what
      was packed: all of it over version 2, the base fields and zeros over version 1. */
  lemma DecodesToPacked(v1: bool, b: Battery, payload: seq<byte>, len: uint8)
    requires b.Sized() && |payload| == PAYLOAD_BUFFER
    requires var body := SentPayload(v1, StructBytes(b), MSG_MIN_LEN, MSG_LEN);
      len == |body| && payload[..len] == body
    ensures FromStruct(Cleared(payload, len)) == if v1 then b.Base() else b
  {
    hide FromStruct, BaseBytes, ExtensionBytes;
    var s := StructBytes(b);
    var body := SentPayload(v1, s, MSG_MIN_LEN, MSG_LEN);
    if v1 {
      BaseReadsZeroExtensions(b);
      assert body == s[..36] == BaseBytes(b);
      StructRoundTrip(b.Base());
    } else {
      TrimIsExact(s, MSG_LEN, |body|);
      assert Cleared(payload, len) == s;
      StructRoundTrip(b);
    }
  }

  /** Typed end to end: a packed message that is sent, received and decoded gives the values that went in. */
  lemma BatteryEndToEnd(table: seq<MsgEntry>, out: Outgoing, b: Battery, r: Receiver, ins: seq<Input>)
    requires b.Sized() && out.msgid == MSG_ID && out.crcExtra == MSG_CRC == CrcExtra(table, MSG_ID)
    requires out.v1 ==> out.signer.None?
    requires var body := SentPayload(out.v1, StructBytes(b), MSG_MIN_LEN, MSG_LEN);
      r.hist == [] && Stream(ins) == out.Frame(body)
    requires |ins| > 0 ==> Admits(r.security, out, ins[|ins| - 1].allow)
    ensures |ins| > 0 && Finished(out.v1, Stream(ins)) && Result(table, r, ins, |ins| - 1) == Ok
    ensures forall m: Buffer :: m.Sized() && Delivered(table, out.v1, Stream(ins), Ok, m) ==>
      FromStruct(Cleared(m.payload, m.head.len)) == if out.v1 then b.Base() else b
  {
    hide FromStruct, StructBytes, Outgoing.Frame, Delivered, Admits, CrcExtra, Finished;
    var body := SentPayload(out.v1, StructBytes(b), MSG_MIN_LEN, MSG_LEN);
    SentFrameIsReceived(table, out, body, r, ins);
    forall m: Buffer | m.Sized() && Delivered(table, out.v1, Stream(ins), Ok, m)
      ensures FromStruct(Cleared(m.payload, m.head.len)) == if out.v1 then b.Base() else b
    {
      DecodesToPacked(out.v1, b, m.payload, m.head.len);
    }
  }
}
