/** `mavlink_message_t` and `mavlink_status_t`. */
module Message {
  import opened Bytes
  import opened Checksum
  import opened Wire

  const PAYLOAD_BUFFER := 264

  class Message {
    var checksum: bv16
    var magic: byte
    var len: uint8
    var incompatFlags: byte
    var compatFlags: byte
    var seqNo: byte
    var sysid: byte
    var compid: byte
    var msgid: msgId
    const payload: array<byte>
    var ck0: byte
    var ck1: byte
    const signature: array<byte>

    constructor ()
      ensures Valid() && fresh(payload) && fresh(signature)
    {
      checksum, magic, len, incompatFlags, compatFlags := 0, 0, 0, 0, 0;
      seqNo, sysid, compid, msgid, ck0, ck1 := 0, 0, 0, 0, 0, 0;
      payload := new byte[PAYLOAD_BUFFER];
      signature := new byte[SIGNATURE_BLOCK_LEN];
    }

    ghost predicate Valid() {
      payload.Length == PAYLOAD_BUFFER && signature.Length == SIGNATURE_BLOCK_LEN && payload != signature
    }

    function Head(): Header
      reads this
    {
      Header(magic, len, incompatFlags, compatFlags, seqNo, sysid, compid, msgid)
    }

    /** The frame a receiver collected in this message: header, payload and the checksum from the wire. */
    ghost function ReceivedFrame(): seq<byte>
      requires Valid()
      reads this, payload
    {
      Head().Bytes() + payload[..len] + [ck0, ck1]
    }

    /** The bytes `mavlink_msg_to_send_buffer` is to produce for this message. */
    ghost function SendBytes(): seq<byte>
      requires Valid()
      reads this, payload, signature
    {
      Printed(Head(), payload[..], checksum, signature[..])
    }
  }

  /** A message on the wire: a version 2 payload is trimmed, and a version 1 message is never signed. */
  function Printed(hd: Header, payload: seq<byte>, checksum: bv16, signature: seq<byte>): seq<byte>
    requires |payload| >= 256
  {
    if hd.V1() then hd.Bytes() + payload[..hd.len] + ChecksumBytes(checksum)
    else
      var n := Trim(payload, hd.len);
      hd.(len := n).Bytes() + payload[..n] + ChecksumBytes(checksum)
        + if SignedFlag(hd.incompat) then signature else []
  }

  /** `_mav_trim_payload` */
  method TrimPayload(payload: seq<byte>, length: uint8) returns (n: uint8)
    requires length as int <= |payload|
    ensures n == Trim(payload, length)
    ensures n <= length && (length >= 1 ==> n >= 1) && (n <= 1 || payload[n - 1] != 0)
    ensures forall i :: n <= i < length ==> payload[i] == 0
  {
    n := length;
    while n > 1 && payload[n - 1] == 0
      invariant n <= length && (length >= 1 ==> n >= 1)
      invariant Trim(payload, n) == Trim(payload, length)
      invariant forall i :: n <= i < length ==> payload[i] == 0
    {
      n := n - 1;
    }
  }

  /** `mavlink_msg_get_send_buffer_length` */
  method GetSendBufferLength(msg: Message) returns (n: nat)
    requires msg.Valid()
    ensures n == |msg.Head().Bytes()| + msg.len + 2
      + if msg.magic != STX_V1 && SignedFlag(msg.incompatFlags) then SIGNATURE_BLOCK_LEN else 0
    ensures n == |msg.SendBytes()| <==> msg.magic == STX_V1 || Trim(msg.payload[..], msg.len) == msg.len
  {
    if msg.magic == STX_V1 {
      return msg.len + 5 + 1 + 2;
    }
    var signatureLen := if SignedFlag(msg.incompatFlags) then SIGNATURE_BLOCK_LEN else 0;
    return msg.len + 12 + signatureLen;
  }

  /** `memcpy` into a buffer. */
  method CopyInto(buf: array<byte>, at: nat, bytes: seq<byte>)
    requires at + |bytes| <= buf.Length
    modifies buf
    ensures buf[..at + |bytes|] == old(buf[..at]) + bytes
    ensures forall i :: at + |bytes| <= i < buf.Length ==> buf[i] == old(buf[i])
  {
    forall i | 0 <= i < |bytes| {
      buf[at + i] := bytes[i];
    }
  }

  /** `mavlink_msg_to_send_buffer` */
  method MsgToSendBuffer(buf: array<byte>, msg: Message) returns (n: nat)
    requires msg.Valid() && buf != msg.payload && buf != msg.signature
    requires buf.Length >= MAX_PACKET_LEN
    modifies buf
    ensures n <= MAX_PACKET_LEN
    ensures buf[..n] == old(msg.SendBytes())
    ensures forall i :: n <= i < buf.Length ==> buf[i] == old(buf[i])
  {
    hide Header.Bytes, Trim, Printed, SignedFlag, Low, High;
    var length, header, signatureLen := SendHeader(msg);
    var ck := [Low(msg.checksum), High(msg.checksum)];
    PrintedParts(msg.Head(), msg.payload[..], msg.checksum, msg.signature[..], length, header, signatureLen);
    n := WriteParts(buf, header, msg.payload[..length], ck, msg.signature[..signatureLen]);
  }

  /** The header of the frame, with the length it announces, and the length of the signature. */
  method SendHeader(msg: Message) returns (length: uint8, header: seq<byte>, signatureLen: nat)
    requires msg.Valid()
    ensures length == if msg.Head().V1() then msg.len else Trim(msg.payload[..], msg.len)
    ensures length <= msg.len && header == msg.Head().(len := length).Bytes()
    ensures signatureLen == if !msg.Head().V1() && SignedFlag(msg.incompatFlags) then SIGNATURE_BLOCK_LEN else 0
  {
    hide Trim, SignedFlag, ToByte, IdByte;
    length := msg.len;
    if msg.magic == STX_V1 {
      signatureLen := 0;
      header := [msg.magic, ToByte(length), msg.seqNo, msg.sysid, msg.compid, IdByte(msg.msgid, 0)];
    } else {
      length := TrimPayload(msg.payload[..], length);
      signatureLen := if SignedFlag(msg.incompatFlags) then SIGNATURE_BLOCK_LEN else 0;
      header := [msg.magic, ToByte(length), msg.incompatFlags, msg.compatFlags, msg.seqNo, msg.sysid, msg.compid,
                 IdByte(msg.msgid, 0), IdByte(msg.msgid, 1), IdByte(msg.msgid, 2)];
    }
  }

  lemma PrintedParts(hd: Header, payload: seq<byte>, checksum: bv16, signature: seq<byte>,
                     length: nat, header: seq<byte>, signatureLen: nat)
    requires |payload| >= 256 && |signature| == SIGNATURE_BLOCK_LEN
    requires length == if hd.V1() then hd.len else Trim(payload, hd.len)
    requires header == hd.(len := length).Bytes()
    requires signatureLen == if !hd.V1() && SignedFlag(hd.incompat) then SIGNATURE_BLOCK_LEN else 0
    ensures Printed(hd, payload, checksum, signature) ==
      header + payload[..length] + [Low(checksum), High(checksum)] + signature[..signatureLen]
    ensures |header| + length + 2 + signatureLen <= MAX_PACKET_LEN
  {
    hide Low, High, Trim, SignedFlag, Header.Bytes;
    assert hd.(len := hd.len) == hd;
    assert signature[..SIGNATURE_BLOCK_LEN] == signature;
  }

  /** The header stores and the three copies, back to back. */
  method WriteParts(buf: array<byte>, header: seq<byte>, payload: seq<byte>, ck: seq<byte>, signature: seq<byte>)
    returns (n: nat)
    requires |header| + |payload| + |ck| + |signature| <= buf.Length
    modifies buf
    ensures n == |header| + |payload| + |ck| + |signature|
    ensures buf[..n] == header + payload + ck + signature
    ensures forall i :: n <= i < buf.Length ==> buf[i] == old(buf[i])
  {
    CopyInto(buf, 0, header);
    assert buf[..|header|] == header;
    CopyInto(buf, |header|, payload);
    n := |header| + |payload|;
    CopyInto(buf, n, ck);
    n := n + |ck|;
    CopyInto(buf, n, signature);
    n := n + |signature|;
  }
}
