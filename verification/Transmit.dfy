/** The two ways a message is made into wire bytes, and the frame both must produce. */
module Transmit {
  import opened Bytes
  import opened Checksum
  import opened MessageTable
  import opened Wire
  import opened Message
  import opened Signing
  import opened SigningState
  import opened Status

  /** What an outgoing signature is made from. */
  datatype Signer = Signer(key: seq<byte>, linkId: byte, timestamp: nat)

  /** The arguments of a transmission: addressing, the message, and the channel's side of it. */
  datatype Outgoing = Outgoing(v1: bool, seqNo: byte, sysid: byte, compid: byte, msgid: msgId, crcExtra: byte,
                               signer: Option<Signer>)
  {
    function Head(len: uint8): Header {
      Header(if v1 then STX_V1 else STX, len, if signer.Some? then IFLAG_SIGNED else 0, 0, seqNo, sysid, compid, msgid)
    }

    /** The frame up to its checksum, for the payload bytes that are sent. */
    function Unsigned(body: seq<byte>): (f: seq<byte>)
      requires |body| < 256
      ensures |f| == HeaderLen(v1) + |body| + 2
    {
      var front := Head(|body|).Bytes() + body;
      front + ChecksumBytes(Accumulate(crcExtra, Crc(front[1..])))
    }

    function Frame(body: seq<byte>): seq<byte>
      requires |body| < 256
    {
      Unsigned(body) + if signer.None? then []
        else SignatureBlock(signer.value.key, signer.value.linkId, signer.value.timestamp, Unsigned(body))
    }
  }

  /** The payload bytes that are sent: version 1 sends the base message, version 2 drops trailing zeros. */
  function SentPayload(v1: bool, payload: seq<byte>, minLength: uint8, length: uint8): (body: seq<byte>)
    requires |payload| >= length as int && |payload| >= minLength as int
    ensures |body| < 256
  {
    if v1 then payload[..minLength] else payload[..Trim(payload, length)]
  }

  /** What is sent depends on nothing behind the message. */
  lemma SamePayloadSent(v1: bool, p: seq<byte>, q: seq<byte>, minLength: uint8, length: uint8, n: nat)
    requires minLength as int <= n && length as int <= n && n <= |p| && n <= |q| && p[..n] == q[..n]
    ensures SentPayload(v1, p, minLength, length) == SentPayload(v1, q, minLength, length)
  {
    hide Trim;
    var m := Trim(q, length);
    TrimIsExact(q, length, m);
    forall i | 0 <= i < n
      ensures p[i] == q[i]
    {
      assert p[i] == p[..n][i] == q[..n][i];
    }
    TrimIsExact(p, length, m);
    assert p[..m] == p[..n][..m] == q[..n][..m] == q[..m];
    assert p[..minLength] == p[..n][..minLength] == q[..n][..minLength] == q[..minLength];
  }

  ghost function SignerOf(status: Status): Option<Signer>
    reads status, status.signing
  {
    if !status.outMavlink1 && status.signing != null && status.signing.signOutgoing
    then Some(Signer(status.signing.secretKey, status.signing.linkId, status.signing.timestamp)) else None
  }

  /** What a channel is about to send. */
  ghost function OutgoingOf(status: Status, sysid: byte, compid: byte, msgid: msgId, crcExtra: byte): Outgoing
    reads status, status.signing
  {
    Outgoing(status.outMavlink1, status.currentTxSeq, sysid, compid, msgid, crcExtra, SignerOf(status))
  }

  /** How sending one frame moves the channel on. */
  twostate predicate SentOne(status: Status)
    reads status, status.signing
  {
    && status.currentTxSeq == Next(old(status.currentTxSeq))
    && status.outMavlink1 == old(status.outMavlink1)
    && SignedOnce(status)
  }

  /** The timestamp moves on by one exactly when the frame is signed. */
  twostate predicate SignedOnce(status: Status)
    reads status, status.signing
  {
    status.signing != null ==> (
      && SameSender(status.signing) && status.signing.lastStatus == old(status.signing.lastStatus)
      && status.signing.timestamp == if old(SignerOf(status)).Some? then (old(status.signing.timestamp) + 1) % TWO_64
                                     else old(status.signing.timestamp))
  }

  /** The header array and the checksum that both paths compute. */
  method FrontAndChecksum(hd: Header, payload: seq<byte>, crcExtra: byte) returns (buf: seq<byte>, checksum: bv16)
    requires |payload| == hd.len
    ensures buf == hd.Bytes()
    ensures checksum == Accumulate(crcExtra, Crc((hd.Bytes() + payload)[1..]))
  {
    hide Accumulate, Crc, Fold, BitSerial, Header.Bytes;
    buf := hd.Bytes();
    checksum := Calculate(buf[1..], |buf| - 1);
    checksum := AccumulateBuffer(checksum, payload, |payload|);
    CrcBehindMarker(buf, payload);
    checksum := Accumulate(crcExtra, checksum);
  }

  lemma CrcBehindMarker(header: seq<byte>, payload: seq<byte>)
    requires |header| > 0
    ensures Fold(Crc(header[1..][..|header| - 1]), payload[..|payload|]) == Crc((header + payload)[1..])
  {
    hide Fold;
    assert header[1..][..|header| - 1] == header[1..];
    assert payload[..|payload|] == payload;
    assert (header + payload)[1..] == header[1..] + payload;
    FoldAppend(X25_INIT_CRC, header[1..], payload);
  }

  lemma FlagSaysSigned()
    ensures SignedFlag(IFLAG_SIGNED) && !SignedFlag(0)
    ensures !UnknownFlags(IFLAG_SIGNED) && !UnknownFlags(0)
  {
  }

  /** A message with the right fields prints as the frame, whatever lies behind its payload. */
  lemma PrintedIsFrame(out: Outgoing, body: seq<byte>, payload: seq<byte>, checksum: bv16, signature: seq<byte>)
    requires |body| < 256 <= |payload| && payload[..|body|] == body
    requires out.v1 ==> out.signer.None?
    requires !out.v1 ==> Trim(payload, |body|) == |body|
    requires checksum == Accumulate(out.crcExtra, Crc((out.Head(|body|).Bytes() + body)[1..]))
    requires out.signer.Some? ==>
      signature == SignatureBlock(out.signer.value.key, out.signer.value.linkId, out.signer.value.timestamp, out.Unsigned(body))
    ensures Printed(out.Head(|body|), payload, checksum, signature) == out.Frame(body)
  {
    hide Accumulate, Crc, Trim, SignatureBlock, SignedFlag, Header.Bytes;
    FlagSaysSigned();
  }

  /** The payload and the checksum are in place, and trimming again would change nothing. */
  ghost predicate ReadyToSign(msg: Message, out: Outgoing, body: seq<byte>)
    requires msg.Valid()
    reads msg, msg.payload
  {
    && msg.len == |body| && msg.payload[..|body|] == body
    && (!out.v1 ==> Trim(msg.payload[..], |body|) == |body|)
    && msg.checksum == Accumulate(out.crcExtra, Crc((out.Head(|body|).Bytes() + body)[1..]))
    && msg.payload[|body|..|body| + 2] == ChecksumBytes(msg.checksum)
  }

  /** The header fields. */
  method SetHeader(msg: Message, systemId: byte, componentId: byte, status: Status, minLength: uint8, length: uint8,
                   ghost out: Outgoing, ghost body: seq<byte>)
    requires msg.Valid()
    requires out == OutgoingOf(status, systemId, componentId, msg.msgid, out.crcExtra)
    requires body == SentPayload(out.v1, msg.payload[..], minLength, length)
    modifies msg, status`currentTxSeq
    ensures status.currentTxSeq == Next(old(status.currentTxSeq))
    ensures msg.Head() == out.Head(|body|)
  {
    hide Trim, Next;
    var mavlink1 := status.outMavlink1;
    var signing := !mavlink1 && status.signing != null && status.signing.signOutgoing;
    if mavlink1 {
      msg.magic := STX_V1;
      msg.len := minLength;
    } else {
      msg.magic := STX;
      var trimmed := TrimPayload(msg.payload[..], length);
      msg.len := trimmed;
    }
    assert msg.len == |body|;
    msg.sysid, msg.compid := systemId, componentId;
    msg.incompatFlags := if signing then IFLAG_SIGNED else 0;
    msg.compatFlags := 0;
    msg.seqNo := status.currentTxSeq;
    status.currentTxSeq := Next(status.currentTxSeq);
  }

  /** The checksum, into the message and into the two bytes behind its payload. */
  method PutChecksum(msg: Message, crcExtra: byte) returns (buf: seq<byte>)
    requires msg.Valid()
    modifies msg`checksum, msg.payload
    ensures buf == msg.Head().Bytes()
    ensures msg.checksum == Accumulate(crcExtra, Crc((buf + msg.payload[..msg.len])[1..]))
    ensures msg.payload[..msg.len] == old(msg.payload[..msg.len])
    ensures msg.payload[msg.len..msg.len + 2] == ChecksumBytes(msg.checksum)
    ensures forall i :: msg.len as int + 2 <= i < PAYLOAD_BUFFER ==> msg.payload[i] == old(msg.payload[i])
  {
    hide Accumulate, Crc, Header.Bytes, Low, High;
    var checksum;
    buf, checksum := FrontAndChecksum(msg.Head(), msg.payload[..msg.len], crcExtra);
    msg.payload[msg.len] := Low(checksum);
    msg.payload[msg.len + 1] := High(checksum);
    msg.checksum := checksum;
    assert msg.payload[..msg.len] == old(msg.payload[..msg.len]);
  }

  /** `mavlink_finalize_message_buffer`. The ghost results name what is sent. */
  method FinalizeMessageBuffer(msg: Message, systemId: byte, componentId: byte, status: Status,
                               minLength: uint8, length: uint8, crcExtra: byte)
    returns (n: nat, ghost out: Outgoing, ghost body: seq<byte>)
    requires msg.Valid() && status.SigningValid()
    modifies msg, msg.payload, msg.signature, status`currentTxSeq
    modifies if status.signing == null then {} else {status.signing}
    ensures out == old(OutgoingOf(status, systemId, componentId, msg.msgid, crcExtra))
    ensures body == old(SentPayload(status.outMavlink1, msg.payload[..], minLength, length))
    ensures msg.SendBytes() == out.Frame(body) && n == |out.Frame(body)|
    ensures msg.Head() == out.Head(|body|) && msg.payload[..|body|] == body
    ensures msg.payload[|body|..|body| + 2] == ChecksumBytes(msg.checksum)
    ensures forall i :: |body| + 2 <= i < PAYLOAD_BUFFER ==> msg.payload[i] == old(msg.payload[i])
    ensures SentOne(status)
  {
    hide SignatureBlock, Trim, Printed, Accumulate, Crc, Header.Bytes;
    out := OutgoingOf(status, systemId, componentId, msg.msgid, crcExtra);
    body := SentPayload(status.outMavlink1, msg.payload[..], minLength, length);
    var signing := !status.outMavlink1 && status.signing != null && status.signing.signOutgoing;
    var signatureLen := if signing then SIGNATURE_BLOCK_LEN else 0;
    var buf := HeaderAndChecksum(msg, systemId, componentId, status, minLength, length, crcExtra, out, body);
    Sign(msg, status, signing, buf, out, body);
    n := msg.len + |buf| + 2 + signatureLen;
    PrintedIsFrame(out, body, msg.payload[..], msg.checksum, msg.signature[..]);
  }

  /** Everything but the signature. */
  method HeaderAndChecksum(msg: Message, systemId: byte, componentId: byte, status: Status,
                           minLength: uint8, length: uint8, crcExtra: byte,
                           ghost out: Outgoing, ghost body: seq<byte>)
    returns (buf: seq<byte>)
    requires msg.Valid()
    requires out == OutgoingOf(status, systemId, componentId, msg.msgid, crcExtra)
    requires body == SentPayload(out.v1, msg.payload[..], minLength, length)
    modifies msg, msg.payload, status`currentTxSeq
    ensures status.currentTxSeq == Next(old(status.currentTxSeq))
    ensures msg.Head() == out.Head(|body|) && buf == msg.Head().Bytes()
    ensures ReadyToSign(msg, out, body)
    ensures forall i :: |body| + 2 <= i < PAYLOAD_BUFFER ==> msg.payload[i] == old(msg.payload[i])
  {
    hide Accumulate, Crc, Header.Bytes, Trim;
    ghost var before := msg.payload[..];
    SetHeader(msg, systemId, componentId, status, minLength, length, out, body);
    buf := PutChecksum(msg, crcExtra);
    assert msg.payload[..|body|] == body;
    if !out.v1 {
      TrimTwice(before, length, msg.payload[..]);
    }
  }

  /** The signature, if there is to be one. */
  method Sign(msg: Message, status: Status, signing: bool, buf: seq<byte>, ghost out: Outgoing, ghost body: seq<byte>)
    requires msg.Valid() && status.SigningValid() && |body| < 256
    requires buf == out.Head(|body|).Bytes() && ReadyToSign(msg, out, body)
    requires out.signer == SignerOf(status) && signing == out.signer.Some?
    modifies msg.signature
    modifies if status.signing == null then {} else {status.signing}
    ensures SignedOnce(status)
    ensures signing ==> (
      msg.signature[..] ==
      SignatureBlock(out.signer.value.key, out.signer.value.linkId, out.signer.value.timestamp, out.Unsigned(body)))
  {
    hide Accumulate, Crc, Header.Bytes, Low, High, SignatureBlock, Trim;
    if signing {
      var ck := [msg.payload[msg.len], msg.payload[msg.len + 1]];
      assert ck == msg.payload[|body|..|body| + 2];
      var len := SignPacket(status.signing, msg.signature, buf, msg.payload[..msg.len], ck);
    }
  }

  /** `_mav_finalize_message_chan_send`; the bytes handed to the UART are the result. A version 1 channel
      refuses an id of more than eight bits; otherwise this is the frame that finalising and printing make. */
  method FinalizeMessageChanSend(status: Status, sysid: byte, compid: byte, msgid: nat, packet: seq<byte>,
                                 minLength: uint8, length: uint8, crcExtra: byte)
    returns (sent: seq<byte>, ghost out: Outgoing, ghost body: seq<byte>)
    requires status.SigningValid() && msgid < TWO_32
    requires |packet| >= length as int && |packet| >= minLength as int
    modifies status`currentTxSeq, status`parseError
    modifies if status.signing == null then {} else {status.signing}
    ensures out == old(OutgoingOf(status, sysid, compid, msgid % 0x100_0000, crcExtra))
    ensures body == SentPayload(out.v1, packet, minLength, length)
    ensures if out.v1 && msgid > 255 then
        sent == [] && status.parseError == Next(old(status.parseError)) && unchanged(status`currentTxSeq)
      else
        sent == out.Frame(body) && SentOne(status) && unchanged(status`parseError)
  {
    hide SignatureBlock, Trim, Accumulate, Crc, Header.Bytes, Next;
    out := OutgoingOf(status, sysid, compid, msgid % 0x100_0000, crcExtra);
    body := SentPayload(out.v1, packet, minLength, length);
    var mavlink1 := status.outMavlink1;
    var signing := !mavlink1 && status.signing != null && status.signing.signOutgoing;
    if mavlink1 && msgid > 255 {
      status.parseError := Next(status.parseError);
      return [], out, body;
    }
    var len := minLength;
    if !mavlink1 {
      len := TrimPayload(packet, length);
    }
    var hd := Header(if mavlink1 then STX_V1 else STX, len, if signing then IFLAG_SIGNED else 0, 0,
                     status.currentTxSeq, sysid, compid, msgid % 0x100_0000);
    assert hd == out.Head(|body|) && packet[..len] == body;
    status.currentTxSeq := Next(status.currentTxSeq);
    sent := SendParts(status, hd, packet[..len], crcExtra, signing, out);
  }

  /** The checksum, the signature and the four writes to the UART. */
  method SendParts(status: Status, hd: Header, payload: seq<byte>, crcExtra: byte, signing: bool, ghost out: Outgoing)
    returns (sent: seq<byte>)
    requires status.SigningValid() && |payload| < 256 && hd == out.Head(|payload|) && crcExtra == out.crcExtra
    requires out.signer == SignerOf(status) && signing == out.signer.Some?
    modifies if status.signing == null then {} else {status.signing}
    ensures SignedOnce(status)
    ensures sent == out.Frame(payload)
  {
    hide Accumulate, Crc, Header.Bytes, Low, High, SignatureBlock;
    assert hd.len == |payload|;
    var buf, checksum := FrontAndChecksum(hd, payload, crcExtra);
    var ck := [Low(checksum), High(checksum)];
    assert buf + payload + ck == out.Unsigned(payload);
    sent := buf + payload + ck;
    if signing {
      var signature := new byte[SIGNATURE_BLOCK_LEN];
      var len := SignPacket(status.signing, signature, buf, payload, ck);
      sent := sent + signature[..];
    }
  }
}
