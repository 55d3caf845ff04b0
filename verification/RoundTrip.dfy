/** Printing and parsing undo each other. */
module RoundTrip {
  import opened Bytes
  import opened Checksum
  import opened MessageTable
  import opened Wire
  import opened Message
  import opened Signing
  import opened Status
  import opened Transmit
  import opened Receiver
  import opened ParserState
  import opened ParserTheorems

  // ----- print, then parse -----

  /** A transmission that the wire format has room for: version 1 carries eight bits of the message id and
      no signature, and the sender's extra byte is the one the receiver's table has. */
  predicate Sendable(table: seq<MsgEntry>, out: Outgoing) {
    && (out.v1 ==> out.msgid < 0x100 && out.signer.None?)
    && out.crcExtra == CrcExtra(table, out.msgid)
  }

  lemma UnsignedPartReads(out: Outgoing, body: seq<byte>, h: seq<byte>)
    requires |body| < 256 && (out.v1 ==> out.msgid < 0x100 && out.signer.None?)
    requires out.Unsigned(body) <= h
    ensures |h| >= HeaderLen(out.v1) && HeaderOf(out.v1, h) == out.Head(|body|)
    ensures BodyEnd(out.v1, h) == HeaderLen(out.v1) + |body|
    ensures h[HeaderLen(out.v1)..BodyEnd(out.v1, h)] == body
    ensures h[..BodyEnd(out.v1, h)] == out.Head(|body|).Bytes() + body
    ensures h[BodyEnd(out.v1, h)..CrcEnd(out.v1, h)] ==
      ChecksumBytes(Accumulate(out.crcExtra, Crc((out.Head(|body|).Bytes() + body)[1..])))
  {
    hide Accumulate, Crc, ToByte, FromByte, IdByte, IdFromBytes, Low, High;
    var hd := out.Head(|body|);
    var u := out.Unsigned(body);
    assert hd.Bytes() <= u <= h;
    HeaderRoundTrip(hd, h);
    var e := HeaderLen(out.v1) + |body|;
    assert BodyEnd(out.v1, h) == e;
    assert h[..e + 2] == u && u[..e] == hd.Bytes() + body;
    assert h[..e] == h[..e + 2][..e] == hd.Bytes() + body;
    assert h[HeaderLen(out.v1)..e] == h[..e][HeaderLen(out.v1)..] == body;
    assert h[e..e + 2] == h[..e + 2][e..];
  }

  lemma FrameParts(out: Outgoing, body: seq<byte>)
    requires |body| < 256
    ensures out.Unsigned(body) <= out.Frame(body)
    ensures out.Frame(body)[|out.Unsigned(body)|..] ==
      if out.signer.None? then []
      else SignatureBlock(out.signer.value.key, out.signer.value.linkId, out.signer.value.timestamp, out.Unsigned(body))
  {
    hide Outgoing.Unsigned, SignatureBlock;
  }

  lemma FirstBytes(out: Outgoing, body: seq<byte>, h: seq<byte>)
    requires |body| < 256 && out.Unsigned(body) <= h
    ensures |h| >= 3 && h[0] == Marker(out.v1)
    ensures !out.v1 ==> h[2] == if out.signer.Some? then IFLAG_SIGNED else 0
  {
    hide Accumulate, Crc, ToByte, IdByte;
    var u := out.Unsigned(body);
    assert h[0] == u[0] && h[2] == u[2];
  }

  /** Every frame that is sent is well-formed, and spells out its header, payload and checksum. */
  lemma SentFrameIsWellFormed(table: seq<MsgEntry>, out: Outgoing, body: seq<byte>)
    requires |body| < 256 && Sendable(table, out)
    ensures var h := out.Frame(body);
      && Shaped(out.v1, h) && WellFormed(table, out.v1, h)
      && HeaderOf(out.v1, h) == out.Head(|body|)
      && h[HeaderLen(out.v1)..BodyEnd(out.v1, h)] == body
      && (Signed(out.v1, h) <==> out.signer.Some?)
      && h[..CrcEnd(out.v1, h)] == out.Unsigned(body)
  {
    FrameParts(out, body);
    hide Accumulate, Crc, ToByte, FromByte, IdByte, IdFromBytes, Low, High, SignatureBlock, Outgoing.Unsigned, Outgoing.Frame;
    hide SignedFlag, UnknownFlags, CrcExtra, MsgIdOf, CrcMatches;
    var h := out.Frame(body);
    FirstBytes(out, body, h);
    UnsignedPartReads(out, body, h);
    SentCrcMatches(table, out, body, h);
    FlagSaysSigned();
    assert |out.Unsigned(body)| == CrcEnd(out.v1, h);
  }

  lemma SentCrcMatches(table: seq<MsgEntry>, out: Outgoing, body: seq<byte>, h: seq<byte>)
    requires |body| < 256 && Sendable(table, out) && out.Unsigned(body) <= h
    requires |h| >= HeaderLen(out.v1) && |h| >= CrcEnd(out.v1, h)
    ensures CrcMatches(table, out.v1, h)
  {
    hide Accumulate, Crc, ToByte, FromByte, IdFromBytes, Low, High, Outgoing.Unsigned, CrcExtra;
    UnsignedPartReads(out, body, h);
    assert MsgIdOf(out.v1, h) == HeaderOf(out.v1, h).msgid == out.msgid;
    assert h[1..BodyEnd(out.v1, h)] == h[..BodyEnd(out.v1, h)][1..];
  }

  /** The claim of a signed frame is the sender's own, and authentic under the shared key. */
  lemma SentClaim(out: Outgoing, body: seq<byte>, h: seq<byte>)
    requires |body| < 256 && !out.v1 && out.signer.Some? && out.signer.value.timestamp < 0x1_0000_0000_0000
    requires h == out.Frame(body) && |h| >= 10 && |h| == CrcEnd(false, h) + SIGNATURE_BLOCK_LEN
    requires h[..CrcEnd(false, h)] == out.Unsigned(body) && HeaderOf(false, h) == out.Head(|body|)
    ensures FrameClaim(out.signer.value.key, h) ==
      Claim(StreamKey(out.sysid, out.compid, out.signer.value.linkId), out.signer.value.timestamp, true)
  {
    FrameParts(out, body);
    hide SignatureBlock, ClaimOf, Outgoing.Unsigned, Outgoing.Frame, ToByte, FromByte, IdFromBytes;
    var s := out.signer.value;
    assert h[5] == out.sysid && h[6] == out.compid;
    SignedClaim(s.key, s.linkId, s.timestamp, out.sysid, out.compid, out.Unsigned(body));
  }

  /** When a receiver is prepared to accept a transmission. */
  ghost predicate Admits(security: Security, out: Outgoing, allow: bool) {
    || security.Unsecured? || allow
    || (out.signer.Some?
        && out.signer.value.timestamp < 0x1_0000_0000_0000
        && out.signer.value.key == security.key && LedgerFits(security)
        && Welcome(security, StreamKey(out.sysid, out.compid, out.signer.value.linkId), out.signer.value.timestamp))
  }

  /** Print/parse round trip: from idle, the bytes of a sent frame yield nothing until the last one, which
      yields OK; and what is then delivered has the header and the payload that were sent. */
  lemma SentFrameIsReceived(table: seq<MsgEntry>, out: Outgoing, body: seq<byte>, r: Receiver, ins: seq<Input>)
    requires |body| < 256 && Sendable(table, out)
    requires r.hist == [] && Stream(ins) == out.Frame(body)
    requires |ins| > 0 ==> Admits(r.security, out, ins[|ins| - 1].allow)
    ensures |ins| > 0 && Finished(out.v1, Stream(ins))
    ensures forall i :: 0 <= i < |ins| - 1 ==> Result(table, r, ins, i) == Incomplete
    ensures Result(table, r, ins, |ins| - 1) == Ok
    ensures Feed(table, r, ins).hist == [] && Feed(table, r, ins).v1 == out.v1
    ensures Feed(table, r, ins[..|ins| - 1]).hist + [ins[|ins| - 1].c] == Stream(ins)
    ensures forall b: Buffer :: b.Sized() && Delivered(table, out.v1, Stream(ins), Ok, b) ==>
      b.head == out.Head(|body|) && b.payload[..|body|] == body && ZeroFilled(table, b.head, b.payload)
  {
    SentFrameIsWellFormed(table, out, body);
    hide SignatureBlock, Outgoing.Unsigned, Outgoing.Frame, ParseStep, FromByte, SignedFlag, UnknownFlags, ExpectedCrc;
    hide ClaimOf, Check, Welcome, ZeroFilled, IdFromBytes;
    var h := Stream(ins);
    FrameIsDecided(table, r, ins, out.v1, h);
    if r.security.Secured? && !ins[|h| - 1].allow {
      SentClaim(out, body, h);
      WelcomeIsAcceptance(r.security, FrameClaim(r.security.key, h));
    }
  }

  /** The payload is restored in full: a version 2 message up to its maximum length, a version 1 message
      up to its base length, with zeros from there on. */
  lemma PayloadIsRestored(table: seq<MsgEntry>, v1: bool, sent: seq<byte>, minLength: uint8, length: uint8,
                          hd: Header, received: seq<byte>, e: MsgEntry)
    requires |sent| >= length as int && |sent| >= minLength as int && |received| == PAYLOAD_BUFFER
    requires Lookup(table, hd.msgid) == Some(e) && minLength <= length <= e.maxLen
    requires var body := SentPayload(v1, sent, minLength, length);
      hd.len == |body| && received[..|body|] == body && ZeroFilled(table, hd, received)
    ensures !v1 ==> received[..length] == sent[..length]
    ensures v1 ==> received[..minLength] == sent[..minLength]
    ensures forall i :: (if v1 then minLength else length) <= i < e.maxLen ==> received[i] == 0
  {
    hide Lookup;
    var body := SentPayload(v1, sent, minLength, length);
    if !v1 {
      TrimIsExact(sent, length, |body|);
      forall i | 0 <= i < length
        ensures received[i] == sent[i]
      {
        if i < |body| {
          assert received[i] == received[..|body|][i] == body[i];
        }
      }
    }
  }

  // ----- parse, then print -----

  // The bytes of a frame with another marker and another checksum.
  function Respelled(h: seq<byte>, marker: byte, e: nat, ck: seq<byte>): seq<byte>
    requires 1 <= e && e + 2 <= |h|
  {
    [marker] + h[1..e] + ck + h[e + 2..]
  }

  lemma RespelledIsSame(h: seq<byte>, marker: byte, e: nat, ck: seq<byte>)
    requires 1 <= e && e + 2 <= |h| && |ck| == 2
    ensures Respelled(h, marker, e, ck) == h <==> h[0] == marker && ck == h[e..e + 2]
  {
    var s := Respelled(h, marker, e, ck);
    assert s[0] == marker && s[e..e + 2] == ck;
    assert h == [h[0]] + h[1..e] + h[e..e + 2] + h[e + 2..];
  }

  /** How a received message prints: as the frame it came in, but for the marker and the checksum, unless a version 2
      payload is trimmed and the frame gets shorter. */
  lemma PrintedAs(v1: bool, h: seq<byte>, b: Buffer)
    requires Finished(v1, h) && |h| >= HeaderLen(v1) && b.Sized()
    requires b.head == HeaderOf(v1, h) && b.payload[..b.head.len] == h[HeaderLen(v1)..BodyEnd(v1, h)]
    requires Signed(v1, h) ==> b.signature == h[CrcEnd(v1, h)..]
    ensures var printed := Printed(b.head, b.payload, b.checksum, b.signature);
      if v1 || Trim(b.payload, b.head.len) == b.head.len
      then printed == Respelled(h, Marker(v1), BodyEnd(v1, h), ChecksumBytes(b.checksum))
      else |printed| != |h|
  {
    hide ToByte, FromByte, IdByte, IdFromBytes, Low, High, SignedFlag, Trim, Header.Bytes;
    HeaderBytesRoundTrip(v1, h);
    HeaderFlags(v1, h);
    var e, f := BodyEnd(v1, h), CrcEnd(v1, h);
    assert h[1..e] == h[1..HeaderLen(v1)] + h[HeaderLen(v1)..e];
    assert b.head.(len := b.head.len) == b.head;
    assert Signed(v1, h) || h[f..] == [];
  }

  /** Re-serialising what was delivered gives back the wire bytes exactly when the frame began with the marker of the
      version it was read in, a version 2 payload had no zeros left to trim, and the checksum was good or the frame
      was handed out as a bad one, with the checksum from the wire. */
  lemma ReprintIsIdentity(table: seq<MsgEntry>, v1: bool, h: seq<byte>, result: Framing, b: Buffer)
    requires Finished(v1, h) && b.Sized() && Delivered(table, v1, h, result, b)
    ensures Printed(b.head, b.payload, b.checksum, b.signature) == h <==>
      && h[0] == Marker(v1)
      && (v1 || Trim(b.payload, b.head.len) == b.head.len)
      && (result == BadCrc || CrcMatches(table, v1, h))
  {
    hide ToByte, FromByte, IdByte, IdFromBytes, Low, High, SignedFlag, Trim, Header.Bytes, Respelled, ExpectedCrc, ZeroFilled;
    hide Printed, CrcMatches;
    DeliveredChecksum(table, v1, h, result, b);
    PrintedAs(v1, h, b);
    RespelledIsSame(h, Marker(v1), BodyEnd(v1, h), ChecksumBytes(b.checksum));
  }

  /** What a receiver hands out carries the checksum bytes of the wire exactly when they were good, or when it hands
      the frame out as one with a bad checksum. */
  lemma DeliveredChecksum(table: seq<MsgEntry>, v1: bool, h: seq<byte>, result: Framing, b: Buffer)
    requires Finished(v1, h) && b.Sized() && Delivered(table, v1, h, result, b)
    ensures |h| >= HeaderLen(v1)
    ensures ChecksumBytes(b.checksum) == h[BodyEnd(v1, h)..CrcEnd(v1, h)] <==> result == BadCrc || CrcMatches(table, v1, h)
  {
    hide ExpectedCrc, FromByte, Low, High, Join, ZeroFilled, SignedFlag;
    HalvesOfJoin(h[BodyEnd(v1, h)], h[BodyEnd(v1, h) + 1]);
  }
}
