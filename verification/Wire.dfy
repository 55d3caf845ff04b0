/** The byte layout of MAVLink 1 and MAVLink 2 frames. */
module Wire {
  import opened Bytes
  import opened Checksum
  import opened MessageTable

  const STX: byte := 0xFD
  const STX_V1: byte := 0xFE
  const IFLAG_SIGNED: byte := 1
  const SIGNATURE_BLOCK_LEN := 13
  const MAX_PACKET_LEN := 280

  type msgId = n: nat | n < 0x100_0000

  function Min(a: int, b: int): int {
    if a < b then a else b
  }

  predicate SignedFlag(incompat: byte) {
    incompat & 0x01 != 0
  }

  predicate UnknownFlags(incompat: byte) {
    incompat & !0x01 != 0
  }

  // ----- printing: the header of a message -----

  /** Of the eight incompatibility flags the lowest says signed and every other one is unknown. */
  lemma FlagBits(incompat: byte)
    ensures SignedFlag(incompat) <==> incompat as int % 2 == 1
    ensures UnknownFlags(incompat) <==> incompat as int >= 2
  {
  }

  /** The header fields of `mavlink_message_t`; `magic` decides between the two layouts. */
  datatype Header = Header(magic: byte, len: uint8, incompat: byte, compat: byte,
                           seqNo: byte, sysid: byte, compid: byte, msgid: msgId)
  {
    predicate V1() {
      magic == STX_V1
    }

    function Bytes(): (h: seq<byte>)
      ensures |h| == HeaderLen(V1())
    {
      if V1() then [magic, ToByte(len), seqNo, sysid, compid, IdByte(msgid, 0)]
      else [magic, ToByte(len), incompat, compat, seqNo, sysid, compid,
            IdByte(msgid, 0), IdByte(msgid, 1), IdByte(msgid, 2)]
    }
  }

  // Byte i of the 24-bit message id, least significant first.
  function IdByte(msgid: msgId, i: nat): byte
    requires i < 3
  {
    if i == 0 then ToByte(msgid % 0x100) else if i == 1 then ToByte(msgid / 0x100 % 0x100)
    else ToByte(msgid / 0x1_0000 % 0x100)
  }

  function IdFromBytes(b0: byte, b1: byte, b2: byte): msgId {
    FromByte(b0) + FromByte(b1) * 0x100 + FromByte(b2) * 0x1_0000
  }

  lemma IdRoundTrip(msgid: msgId)
    ensures IdFromBytes(IdByte(msgid, 0), IdByte(msgid, 1), IdByte(msgid, 2)) == msgid
    ensures FromByte(IdByte(msgid, 0)) == msgid % 0x100
  {
    hide ToByte, FromByte;
    ByteRoundTrip(msgid % 0x100);
    ByteRoundTrip(msgid / 0x100 % 0x100);
    ByteRoundTrip(msgid / 0x1_0000 % 0x100);
    ThreeDigits(msgid);
  }

  lemma ThreeDigits(n: msgId)
    ensures n % 0x100 + (n / 0x100 % 0x100) * 0x100 + (n / 0x1_0000 % 0x100) * 0x1_0000 == n
  {
    var high := n / 0x100;
    assert high / 0x100 == n / 0x1_0000;
    assert high == high % 0x100 + high / 0x100 * 0x100;
  }

  lemma IdBytesRoundTrip(b0: byte, b1: byte, b2: byte)
    ensures IdByte(IdFromBytes(b0, b1, b2), 0) == b0
    ensures IdByte(IdFromBytes(b0, b1, b2), 1) == b1
    ensures IdByte(IdFromBytes(b0, b1, b2), 2) == b2
  {
    hide ToByte, FromByte;
    ByteValueRoundTrip(b0);
    ByteValueRoundTrip(b1);
    ByteValueRoundTrip(b2);
    DigitsOfSum(FromByte(b0), FromByte(b1), FromByte(b2));
  }

  lemma DigitsOfSum(d0: uint8, d1: uint8, d2: uint8)
    ensures var n := d0 + d1 * 0x100 + d2 * 0x1_0000;
            n % 0x100 == d0 && n / 0x100 % 0x100 == d1 && n / 0x1_0000 % 0x100 == d2
  {
    var n := d0 + d1 * 0x100 + d2 * 0x1_0000;
    assert n / 0x100 == d1 + d2 * 0x100;
    assert n / 0x1_0000 == d2;
  }

  function ChecksumBytes(crc: bv16): (s: seq<byte>)
    ensures |s| == 2
  {
    [Low(crc), High(crc)]
  }

  // ----- parsing: what the bytes since a start marker say -----

  /** The header length, start marker included. */
  function HeaderLen(v1: bool): nat {
    if v1 then 6 else 10
  }

  function PayloadLen(h: seq<byte>): uint8
    requires |h| >= 2
  {
    FromByte(h[1])
  }

  /** Where the payload of the frame ends. */
  function BodyEnd(v1: bool, h: seq<byte>): nat
    requires |h| >= 2
  {
    HeaderLen(v1) + PayloadLen(h)
  }

  /** Where the frame ends, its signature not counted. */
  function CrcEnd(v1: bool, h: seq<byte>): nat
    requires |h| >= 2
  {
    BodyEnd(v1, h) + 2
  }

  predicate Signed(v1: bool, h: seq<byte>)
    requires |h| >= 3
  {
    !v1 && SignedFlag(h[2])
  }

  function FrameLen(v1: bool, h: seq<byte>): (n: nat)
    requires |h| >= 3
    ensures n <= MAX_PACKET_LEN
  {
    CrcEnd(v1, h) + if Signed(v1, h) then SIGNATURE_BLOCK_LEN else 0
  }

  function MsgIdOf(v1: bool, h: seq<byte>): msgId
    requires |h| >= HeaderLen(v1)
  {
    if v1 then FromByte(h[5]) else IdFromBytes(h[7], h[8], h[9])
  }

  function CrcExtra(table: seq<MsgEntry>, msgid: nat): byte {
    match Lookup(table, msgid)
    case None => 0
    case Some(e) => e.crcExtra
  }

  /** The checksum the frame should carry: everything after the marker, then the message's extra byte. */
  function ExpectedCrc(table: seq<MsgEntry>, v1: bool, h: seq<byte>): bv16
    requires |h| >= 2 && |h| >= BodyEnd(v1, h)
  {
    Accumulate(CrcExtra(table, MsgIdOf(v1, h)), Crc(h[1..BodyEnd(v1, h)]))
  }

  predicate CrcMatches(table: seq<MsgEntry>, v1: bool, h: seq<byte>)
    requires |h| >= 2 && |h| >= CrcEnd(v1, h)
  {
    h[BodyEnd(v1, h)..CrcEnd(v1, h)] == ChecksumBytes(ExpectedCrc(table, v1, h))
  }

  function SeqAt(v1: bool): nat {
    if v1 then 2 else 4
  }

  /** The header that the bytes of a frame spell out; a version 1 frame has no flag bytes. */
  function HeaderOf(v1: bool, h: seq<byte>): Header
    requires |h| >= HeaderLen(v1)
  {
    var at := SeqAt(v1);
    Header(if v1 then STX_V1 else STX, PayloadLen(h), if v1 then 0 else h[2], if v1 then 0 else h[3],
           h[at], h[at + 1], h[at + 2], MsgIdOf(v1, h))
  }

  /** Parsing a printed header gives it back, up to what the version 1 layout has no room for. */
  lemma HeaderRoundTrip(hd: Header, h: seq<byte>)
    requires hd.magic == STX || hd.V1()
    requires hd.Bytes() <= h
    ensures HeaderOf(hd.V1(), h) ==
      if hd.V1() then hd.(incompat := 0, compat := 0, msgid := hd.msgid % 0x100) else hd
  {
    hide ToByte, FromByte, IdByte, IdFromBytes;
    ByteRoundTrip(hd.len);
    IdRoundTrip(hd.msgid);
    var b := hd.Bytes();
    assert h[1] == b[1] && h[2] == b[2] && h[3] == b[3] && h[4] == b[4] && h[5] == b[5];
    if !hd.V1() {
      assert h[6] == b[6] && h[7] == b[7] && h[8] == b[8] && h[9] == b[9];
    }
  }

  /** Printing a parsed header gives the bytes back, up to the marker. */
  lemma HeaderBytesRoundTrip(v1: bool, h: seq<byte>)
    requires |h| >= HeaderLen(v1)
    ensures HeaderOf(v1, h).Bytes() == [if v1 then STX_V1 else STX] + h[1..HeaderLen(v1)]
  {
    hide ToByte, FromByte, IdByte, IdFromBytes;
    if v1 {
      HeaderBytesRoundTripV1(h);
    } else {
      HeaderBytesRoundTripV2(h);
    }
  }

  lemma HeaderBytesRoundTripV1(h: seq<byte>)
    requires |h| >= 6
    ensures HeaderOf(true, h).Bytes() == [STX_V1] + h[1..6]
  {
    hide ToByte, FromByte, IdByte, IdFromBytes;
    ByteValueRoundTrip(h[1]);
    IdOfOneByte(h[5]);
    assert h[1..6] == [h[1], h[2], h[3], h[4], h[5]];
  }

  lemma HeaderBytesRoundTripV2(h: seq<byte>)
    requires |h| >= 10
    ensures HeaderOf(false, h).Bytes() == [STX] + h[1..10]
  {
    hide ToByte, FromByte, IdByte, IdFromBytes;
    ByteValueRoundTrip(h[1]);
    IdBytesRoundTrip(h[7], h[8], h[9]);
    NineBytes(h);
  }

  lemma NineBytes(h: seq<byte>)
    requires |h| >= 10
    ensures [STX] + h[1..10] == [STX, h[1], h[2], h[3], h[4], h[5], h[6], h[7], h[8], h[9]]
  {
  }

  lemma IdOfOneByte(b: byte)
    ensures IdByte(FromByte(b), 0) == b
  {
    hide ToByte, FromByte;
    ByteValueRoundTrip(b);
  }

  // ----- payload truncation -----

  /** The length `_mav_trim_payload` leaves. */
  function Trim(payload: seq<byte>, length: nat): (n: nat)
    requires length <= |payload|
    ensures n <= length
  {
    if length > 1 && payload[length - 1] == 0 then Trim(payload, length - 1) else length
  }

  /** Trimming drops zeros only, drops all it can, and keeps one byte of a non-empty payload. */
  lemma {:induction false} TrimIsExact(payload: seq<byte>, length: nat, n: nat)
    requires n <= length <= |payload|
    ensures n == Trim(payload, length) <==>
      && (forall i :: n <= i < length ==> payload[i] == 0)
      && (length >= 1 ==> n >= 1)
      && (n <= 1 || payload[n - 1] != 0)
  {
    if length > 1 && payload[length - 1] == 0 {
      if n < length {
        TrimIsExact(payload, length - 1, n);
      }
    }
  }

  lemma {:induction false} TrimTwice(payload: seq<byte>, length: nat, other: seq<byte>)
    requires length <= |payload|
    requires var n := Trim(payload, length); n <= |other| && other[..n] == payload[..n]
    ensures Trim(other, Trim(payload, length)) == Trim(payload, length)
  {
    var n := Trim(payload, length);
    TrimIsExact(payload, length, n);
    TrimIsExact(other, n, n);
    if n >= 1 {
      assert other[n - 1] == other[..n][n - 1];
    }
  }
}
