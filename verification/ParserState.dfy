/** How the fields of `mavlink_status_t` and of the receive buffer follow the bytes consumed so far:
    the invariant of the sixteen-state parser. */
module ParserState {
  import opened Bytes
  import opened Checksum
  import opened MessageTable
  import opened Wire
  import opened Message
  import opened Status
  import opened Receiver

  /** The parse state is a function of the bytes since the start marker. */
  function StateAt(table: seq<MsgEntry>, v1: bool, h: seq<byte>): ParseState
    requires |h| >= 1
  {
    if |h| == 1 then GotStx
    else if |h| < HeaderLen(v1) then
      match |h| + if v1 then 2 else 0
      case 2 => GotLength
      case 3 => GotIncompatFlags
      case 4 => GotCompatFlags
      case 5 => GotSeq
      case 6 => GotSysid
      case 7 => GotCompid
      case 8 => GotMsgid1
      case _ => GotMsgid2
    else if |h| < BodyEnd(v1, h) then GotMsgid3
    else if |h| == BodyEnd(v1, h) then GotPayload
    else if |h| == BodyEnd(v1, h) + 1 then
      if h[|h| - 1] == Low(ExpectedCrc(table, v1, h)) then GotCrc1 else GotBadCrc1
    else SignatureWait
  }

  /** The number of payload bytes among the bytes consumed. */
  function PayloadSoFar(v1: bool, h: seq<byte>): uint8
    requires |h| >= 2
  {
    if |h| <= HeaderLen(v1) then 0 else Min(|h| - HeaderLen(v1), PayloadLen(h))
  }

  function IdSoFar(h: seq<byte>): nat
    requires |h| >= 8
  {
    FromByte(h[7]) + (if |h| >= 9 then FromByte(h[8]) * 0x100 else 0) + if |h| >= 10 then FromByte(h[9]) * 0x1_0000 else 0
  }

  predicate HeadTracks(v1: bool, h: seq<byte>, hd: Header) {
    var at := SeqAt(v1);
    && hd.magic == (if v1 then STX_V1 else STX)
    && (|h| >= 2 ==> hd.len == PayloadLen(h))
    && (|h| >= 2 && v1 ==> hd.incompat == 0 && hd.compat == 0)
    && (|h| >= 3 && !v1 ==> hd.incompat == h[2])
    && (|h| >= 4 && !v1 ==> hd.compat == h[3])
    && (|h| > at ==> hd.seqNo == h[at])
    && (|h| > at + 1 ==> hd.sysid == h[at + 1])
    && (|h| > at + 2 ==> hd.compid == h[at + 2])
    && (v1 && |h| >= 6 ==> hd.msgid == FromByte(h[5]))
    && (!v1 && |h| >= 8 ==> hd.msgid == IdSoFar(h))
  }

  /** Behind a payload shorter than the message's, the receive buffer is cleared. */
  predicate ZeroFilled(table: seq<MsgEntry>, hd: Header, payload: seq<byte>)
    requires |payload| == PAYLOAD_BUFFER
  {
    match Lookup(table, hd.msgid)
    case None => true
    case Some(e) => forall i :: hd.len <= i < e.maxLen ==> payload[i] == 0
  }

  predicate BodyTracks(table: seq<MsgEntry>, v1: bool, h: seq<byte>, hd: Header, checksum: bv16, payload: seq<byte>)
    requires |payload| == PAYLOAD_BUFFER
  {
    && (|h| >= 2 ==> |h| >= HeaderLen(v1) ==>
      payload[..PayloadSoFar(v1, h)] == h[HeaderLen(v1)..HeaderLen(v1) + PayloadSoFar(v1, h)])
    && (|h| == 1 || (|h| >= 2 && |h| <= BodyEnd(v1, h)) ==> checksum == Crc(h[1..]))
    && (|h| >= 2 && |h| > BodyEnd(v1, h) ==>
      checksum == ExpectedCrc(table, v1, h) && ZeroFilled(table, hd, payload))
  }

  predicate TailTracks(v1: bool, h: seq<byte>, ck0: byte, ck1: byte, signature: seq<byte>)
    requires |signature| == SIGNATURE_BLOCK_LEN
  {
    && (|h| >= 2 && |h| > BodyEnd(v1, h) ==> ck0 == h[BodyEnd(v1, h)])
    && (|h| >= 3 && |h| >= CrcEnd(v1, h) ==>
      && ck1 == h[CrcEnd(v1, h) - 1]
      && (|h| <= CrcEnd(v1, h) + SIGNATURE_BLOCK_LEN ==>
        signature[..|h| - CrcEnd(v1, h)] == h[CrcEnd(v1, h)..]))
  }

  /** The raw parser may also wait for the signature of a frame with a bad checksum. */
  predicate RawOrder(v1: bool, h: seq<byte>) {
    h != [] ==> Plausible(v1, h) && (|h| >= 3 && |h| >= CrcEnd(v1, h) ==> Signed(v1, h))
  }

  predicate StatusTracks(table: seq<MsgEntry>, v1: bool, h: seq<byte>, state: ParseState, idx: uint8, wait: uint8) {
    if h == [] then state == Idle || state == Uninit
    else
      && state == StateAt(table, v1, h)
      && (|h| >= 2 ==> idx == PayloadSoFar(v1, h))
      && (state == SignatureWait ==> |h| >= 3 && wait == FrameLen(v1, h) - |h|)
  }

  /** The receive buffer as values. */
  datatype Buffer = Buffer(head: Header, checksum: bv16, payload: seq<byte>, ck0: byte, ck1: byte, signature: seq<byte>)
  {
    predicate Sized() {
      |payload| == PAYLOAD_BUFFER && |signature| == SIGNATURE_BLOCK_LEN
    }

    predicate Tracks(table: seq<MsgEntry>, v1: bool, h: seq<byte>)
      requires Sized()
    {
      && HeadTracks(v1, h, head)
      && BodyTracks(table, v1, h, head, checksum, payload)
      && TailTracks(v1, h, ck0, ck1, signature)
    }
  }

  ghost function BufferOf(msg: Message): Buffer
    reads msg, msg.payload, msg.signature
  {
    Buffer(msg.Head(), msg.checksum, msg.payload[..], msg.ck0, msg.ck1, msg.signature[..])
  }

  /** The invariant: a channel's status and receive buffer against its history. */
  ghost predicate Tracks(table: seq<MsgEntry>, msg: Message, status: Status)
    reads msg, msg.payload, msg.signature
    reads status`inMavlink1, status`hist, status`parseState, status`packetIdx, status`signatureWait
  {
    var v1, h := status.inMavlink1, status.hist;
    && msg.Valid()
    && RawOrder(v1, h)
    && StatusTracks(table, v1, h, status.parseState, status.packetIdx, status.signatureWait)
    && (h != [] ==> BufferOf(msg).Tracks(table, v1, h))
  }

  ghost function ReceiverOf(status: Status): Receiver
    reads status`inMavlink1, status`hist, status.signing, status.signingStreams
  {
    Receiver(status.inMavlink1, status.hist, status.Security())
  }

  lemma HeadComplete(v1: bool, h: seq<byte>, hd: Header)
    requires |h| >= HeaderLen(v1) && HeadTracks(v1, h, hd)
    ensures hd == HeaderOf(v1, h)
  {
  }

  lemma HeadSettled(v1: bool, h: seq<byte>, c: byte, hd: Header)
    requires |h| >= HeaderLen(v1) && HeadTracks(v1, h, hd)
    ensures HeadTracks(v1, h + [c], hd)
  {
  }

  // ----- what one byte does to the values -----

  lemma StartTracks(table: seq<MsgEntry>, v1: bool, c: byte, b: Buffer)
    requires b.Sized() && b.head.magic == (if v1 then STX_V1 else STX) && b.checksum == Crc([])
    requires (c == STX || c == STX_V1) && (c == STX_V1 ==> v1)
    ensures b.Tracks(table, v1, [c]) && RawOrder(v1, [c]) && StateAt(table, v1, [c]) == GotStx
  {
    hide Crc;
    assert [c][1..] == [];
  }

  /** What a header byte does, by the state that receives it. */
  function NextHead(state: ParseState, v1: bool, c: byte, hd: Header): Header
    requires state == GotMsgid1 ==> hd.msgid < 0x100
    requires state == GotMsgid2 ==> hd.msgid < 0x1_0000
  {
    match state
    case GotStx => if v1 then hd.(len := FromByte(c), incompat := 0, compat := 0) else hd.(len := FromByte(c))
    case GotLength => hd.(incompat := c)
    case GotIncompatFlags => hd.(compat := c)
    case GotCompatFlags => hd.(seqNo := c)
    case GotSeq => hd.(sysid := c)
    case GotSysid => hd.(compid := c)
    case GotCompid => hd.(msgid := FromByte(c))
    case GotMsgid1 => hd.(msgid := hd.msgid + FromByte(c) * 0x100)
    case GotMsgid2 => hd.(msgid := hd.msgid + FromByte(c) * 0x1_0000)
    case _ => hd
  }

  function NextState(state: ParseState, v1: bool, len: uint8): ParseState {
    match state
    case GotStx => if v1 then GotCompatFlags else GotLength
    case GotLength => GotIncompatFlags
    case GotIncompatFlags => GotCompatFlags
    case GotCompatFlags => GotSeq
    case GotSeq => GotSysid
    case GotSysid => GotCompid
    case GotCompid => if !v1 then GotMsgid1 else if len > 0 then GotMsgid3 else GotPayload
    case GotMsgid1 => GotMsgid2
    case GotMsgid2 => if len > 0 then GotMsgid3 else GotPayload
    case _ => state
  }

  lemma IdIsBounded(table: seq<MsgEntry>, v1: bool, h: seq<byte>, hd: Header)
    requires 1 <= |h| < HeaderLen(v1) && HeadTracks(v1, h, hd)
    ensures StateAt(table, v1, h) == GotMsgid1 ==> hd.msgid < 0x100
    ensures StateAt(table, v1, h) == GotMsgid2 ==> hd.msgid < 0x1_0000
  {
  }

  lemma StateStep(table: seq<MsgEntry>, v1: bool, h: seq<byte>, c: byte)
    requires 1 <= |h| < HeaderLen(v1)
    ensures StateAt(table, v1, h + [c]) == NextState(StateAt(table, v1, h), v1, PayloadLen(h + [c]))
  {
    hide FromByte, ExpectedCrc;
  }

  lemma OrderStep(v1: bool, h: seq<byte>, c: byte)
    requires 1 <= |h| < HeaderLen(v1) && RawOrder(v1, h)
    requires !v1 && |h| == 2 ==> !UnknownFlags(c)
    ensures RawOrder(v1, h + [c])
  {
    hide FromByte, UnknownFlags;
  }

  lemma HeadStep(table: seq<MsgEntry>, v1: bool, h: seq<byte>, c: byte, hd: Header)
    requires 1 <= |h| < HeaderLen(v1) && HeadTracks(v1, h, hd)
    requires StateAt(table, v1, h) == GotMsgid1 ==> hd.msgid < 0x100
    requires StateAt(table, v1, h) == GotMsgid2 ==> hd.msgid < 0x1_0000
    ensures HeadTracks(v1, h + [c], NextHead(StateAt(table, v1, h), v1, c, hd))
  {
    hide FromByte, ExpectedCrc;
    var n := h + [c];
    assert n[|h|] == c && forall i :: 0 <= i < |h| ==> n[i] == h[i];
  }

  lemma HeaderByteTracks(table: seq<MsgEntry>, v1: bool, h: seq<byte>, c: byte, b: Buffer, after: Buffer)
    requires 1 <= |h| < HeaderLen(v1) && b.Sized() && b.Tracks(table, v1, h)
    requires StateAt(table, v1, h) == GotMsgid1 ==> b.head.msgid < 0x100
    requires StateAt(table, v1, h) == GotMsgid2 ==> b.head.msgid < 0x1_0000
    requires after == b.(head := NextHead(StateAt(table, v1, h), v1, c, b.head), checksum := Accumulate(c, b.checksum))
    ensures after.Tracks(table, v1, h + [c])
  {
    hide FromByte, Accumulate, Crc, HeadTracks, NextHead, ExpectedCrc, StateAt;
    HeadStep(table, v1, h, c, b.head);
    CrcSnoc(h[1..], c);
    assert (h + [c])[1..] == h[1..] + [c];
  }

  lemma NoHistory(v1: bool)
    ensures RawOrder(v1, [])
  {
  }

  // Once the header is complete, the same layout numbers are read off every longer history.
  lemma LayoutStep(table: seq<MsgEntry>, v1: bool, h: seq<byte>, c: byte)
    requires |h| >= HeaderLen(v1)
    ensures PayloadLen(h + [c]) == PayloadLen(h) && Signed(v1, h + [c]) == Signed(v1, h)
    ensures FrameLen(v1, h + [c]) == FrameLen(v1, h)
    ensures HeaderOf(v1, h + [c]) == HeaderOf(v1, h)
    ensures |h| >= BodyEnd(v1, h) ==> ExpectedCrc(table, v1, h + [c]) == ExpectedCrc(table, v1, h)
    ensures Plausible(v1, h) && |h| + 1 < FrameLen(v1, h) ==> Plausible(v1, h + [c])
  {
    hide FromByte, IdFromBytes, SignedFlag, CrcExtra, Accumulate, Crc;
    var n := h + [c];
    assert forall i :: 0 <= i < |h| ==> n[i] == h[i];
    if |h| >= BodyEnd(v1, h) {
      assert n[1..BodyEnd(v1, n)] == h[1..BodyEnd(v1, h)];
    }
  }

  lemma PayloadByteTracks(table: seq<MsgEntry>, v1: bool, h: seq<byte>, c: byte, b: Buffer, after: Buffer)
    requires HeaderLen(v1) <= |h| < BodyEnd(v1, h) && b.Sized() && b.Tracks(table, v1, h)
    requires after == b.(payload := b.payload[PayloadSoFar(v1, h) := c], checksum := Accumulate(c, b.checksum))
    ensures after.Tracks(table, v1, h + [c])
  {
    hide FromByte, Accumulate, Crc, HeadTracks, ExpectedCrc, ZeroFilled;
    LayoutStep(table, v1, h, c);
    HeadSettled(v1, h, c, b.head);
    CrcSnoc(h[1..], c);
    assert (h + [c])[1..] == h[1..] + [c];
    var k, n := |h| - HeaderLen(v1), h + [c];
    assert PayloadSoFar(v1, h) == k && PayloadSoFar(v1, n) == k + 1;
    assert after.payload[..k + 1] == b.payload[..k] + [c];
    assert n[HeaderLen(v1)..HeaderLen(v1) + k + 1] == h[HeaderLen(v1)..HeaderLen(v1) + k] + [c];
  }

  lemma FirstCrcByteTracks(table: seq<MsgEntry>, v1: bool, h: seq<byte>, c: byte, b: Buffer, after: Buffer)
    requires |h| >= HeaderLen(v1) && |h| == BodyEnd(v1, h) && b.Sized() && b.Tracks(table, v1, h)
    requires after.Sized() && after == b.(payload := after.payload, ck0 := c,
      checksum := Accumulate(CrcExtra(table, b.head.msgid), b.checksum))
    requires after.payload[..b.head.len] == b.payload[..b.head.len] && ZeroFilled(table, b.head, after.payload)
    ensures after.Tracks(table, v1, h + [c])
  {
    hide FromByte, Accumulate, Crc, HeadTracks, ZeroFilled, IdFromBytes, CrcExtra;
    LayoutStep(table, v1, h, c);
    HeadSettled(v1, h, c, b.head);
    HeadComplete(v1, h, b.head);
    assert h[1..BodyEnd(v1, h)] == h[1..];
    var k, n := PayloadLen(h), h + [c];
    assert n[HeaderLen(v1)..HeaderLen(v1) + k] == h[HeaderLen(v1)..HeaderLen(v1) + k];
  }

  lemma SecondCrcByteTracks(table: seq<MsgEntry>, v1: bool, h: seq<byte>, c: byte, b: Buffer, after: Buffer)
    requires |h| >= HeaderLen(v1) && |h| + 1 == CrcEnd(v1, h) && b.Sized() && b.Tracks(table, v1, h)
    requires after == b.(ck1 := c)
    ensures after.Tracks(table, v1, h + [c])
  {
    hide FromByte, Accumulate, Crc, HeadTracks, ZeroFilled, ExpectedCrc;
    LayoutStep(table, v1, h, c);
    HeadSettled(v1, h, c, b.head);
    var k, n := PayloadLen(h), h + [c];
    assert n[HeaderLen(v1)..HeaderLen(v1) + k] == h[HeaderLen(v1)..HeaderLen(v1) + k];
    assert n[CrcEnd(v1, n)..] == [];
  }

  lemma SignatureByteTracks(table: seq<MsgEntry>, v1: bool, h: seq<byte>, c: byte, b: Buffer, after: Buffer)
    requires |h| >= HeaderLen(v1) && CrcEnd(v1, h) <= |h| < CrcEnd(v1, h) + SIGNATURE_BLOCK_LEN
    requires b.Sized() && b.Tracks(table, v1, h)
    requires after == b.(signature := b.signature[|h| - CrcEnd(v1, h) := c])
    ensures after.Tracks(table, v1, h + [c])
  {
    hide FromByte, Accumulate, Crc, HeadTracks, ZeroFilled, ExpectedCrc;
    LayoutStep(table, v1, h, c);
    HeadSettled(v1, h, c, b.head);
    var k, n, e := PayloadLen(h), h + [c], CrcEnd(v1, h);
    assert n[HeaderLen(v1)..HeaderLen(v1) + k] == h[HeaderLen(v1)..HeaderLen(v1) + k];
    assert after.signature[..|n| - e] == b.signature[..|h| - e] + [c];
    assert n[e..] == h[e..] + [c];
  }

  lemma StatesBehindTheHeader(table: seq<MsgEntry>, v1: bool, h: seq<byte>)
    requires |h| >= 1 && RawOrder(v1, h)
    ensures |h| >= HeaderLen(v1) ==> (
      && (StateAt(table, v1, h) == GotMsgid3 <==> |h| < BodyEnd(v1, h))
      && (StateAt(table, v1, h) == GotPayload <==> |h| == BodyEnd(v1, h))
      && (StateAt(table, v1, h) == GotCrc1 <==>
        |h| == BodyEnd(v1, h) + 1 && h[|h| - 1] == Low(ExpectedCrc(table, v1, h)))
      && (StateAt(table, v1, h) == GotBadCrc1 <==>
        |h| == BodyEnd(v1, h) + 1 && h[|h| - 1] != Low(ExpectedCrc(table, v1, h)))
      && (StateAt(table, v1, h) == SignatureWait <==> |h| >= CrcEnd(v1, h)))
    ensures |h| < HeaderLen(v1) ==>
      StateAt(table, v1, h) in {GotStx, GotLength, GotIncompatFlags, GotCompatFlags, GotSeq, GotSysid, GotCompid, GotMsgid1, GotMsgid2}
    ensures StateAt(table, v1, h) in {GotMsgid3, GotPayload, GotCrc1, GotBadCrc1, SignatureWait} ==> |h| >= HeaderLen(v1)
    ensures StateAt(table, v1, h) != Idle && StateAt(table, v1, h) != Uninit
  {
    hide ExpectedCrc, FromByte, Low, UnknownFlags, SignedFlag;
  }

  /** The two comparisons of the checksum bytes decide whether the checksum matches. */
  lemma CrcVerdict(table: seq<MsgEntry>, v1: bool, h: seq<byte>, c: byte)
    requires |h| >= HeaderLen(v1) && |h| + 1 == CrcEnd(v1, h)
    ensures CrcEnd(v1, h + [c]) == |h| + 1
    ensures CrcMatches(table, v1, h + [c]) <==>
      h[|h| - 1] == Low(ExpectedCrc(table, v1, h)) && c == High(ExpectedCrc(table, v1, h))
  {
    hide ExpectedCrc, FromByte, Low, High;
    LayoutStep(table, v1, h, c);
    assert (h + [c])[BodyEnd(v1, h)..CrcEnd(v1, h)] == [h[|h| - 1], c];
  }

  /** Up to the first checksum byte the receiver only collects. */
  lemma BodyStepIs(table: seq<MsgEntry>, r: Receiver, c: byte, allow: bool)
    requires |r.hist| >= HeaderLen(r.v1) && |r.hist| <= BodyEnd(r.v1, r.hist)
    ensures FrameStep(table, r, c, allow) == Step(r.(hist := r.hist + [c]), Incomplete)
  {
    hide ExpectedCrc, FromByte, UnknownFlags, SignedFlag, AtCrcEnd, AtSignatureEnd, CrcMatches;
    LayoutStep(table, r.v1, r.hist, c);
  }

  lemma CrcEndStepIs(table: seq<MsgEntry>, r: Receiver, c: byte, allow: bool)
    requires |r.hist| >= HeaderLen(r.v1) && |r.hist| + 1 == CrcEnd(r.v1, r.hist)
    ensures var h := r.hist + [c];
      |h| == CrcEnd(r.v1, h) && FrameStep(table, r, c, allow) == AtCrcEnd(table, r, h, allow)
  {
    hide ExpectedCrc, FromByte, UnknownFlags, SignedFlag, AtCrcEnd, AtSignatureEnd, CrcMatches;
    LayoutStep(table, r.v1, r.hist, c);
  }

  lemma SignatureStepIs(table: seq<MsgEntry>, r: Receiver, c: byte, allow: bool)
    requires |r.hist| >= HeaderLen(r.v1) && CrcEnd(r.v1, r.hist) <= |r.hist| < FrameLen(r.v1, r.hist)
    ensures var h := r.hist + [c];
      FrameLen(r.v1, h) == FrameLen(r.v1, r.hist) && Signed(r.v1, h)
      && FrameStep(table, r, c, allow) ==
        if |h| == FrameLen(r.v1, h) then AtSignatureEnd(r, h, allow) else Step(r.(hist := h), Incomplete)
  {
    hide ExpectedCrc, FromByte, UnknownFlags, SignedFlag, AtCrcEnd, AtSignatureEnd, CrcMatches;
    LayoutStep(table, r.v1, r.hist, c);
  }

  /** What the signature check hashes is what came over the wire. */
  lemma ReceivedFrameIs(table: seq<MsgEntry>, h: seq<byte>, b: Buffer)
    requires |h| >= 10 && |h| == CrcEnd(false, h) + SIGNATURE_BLOCK_LEN && h[0] == STX
    requires b.Sized() && b.Tracks(table, false, h)
    ensures b.head.Bytes() + b.payload[..b.head.len] + [b.ck0, b.ck1] == h[..CrcEnd(false, h)]
    ensures b.signature == h[CrcEnd(false, h)..] && b.head.sysid == h[5] && b.head.compid == h[6]
  {
    hide ExpectedCrc, FromByte, ZeroFilled, Header.Bytes, Crc, IdFromBytes;
    HeadComplete(false, h, b.head);
    HeaderBytesRoundTrip(false, h);
    assert b.head.Bytes() == h[..10];
    var k, e := PayloadLen(h), CrcEnd(false, h);
    assert b.payload[..k] == h[10..10 + k];
    assert [b.ck0, b.ck1] == h[10 + k..e];
    assert h[..10] + h[10..10 + k] + h[10 + k..e] == h[..e];
    assert b.signature[..13] == b.signature;
  }

  lemma PayloadByteStatus(table: seq<MsgEntry>, v1: bool, h: seq<byte>, c: byte, idx: uint8, wait: uint8)
    requires HeaderLen(v1) <= |h| < BodyEnd(v1, h) && RawOrder(v1, h) && idx == PayloadSoFar(v1, h)
    ensures idx + 1 <= PayloadLen(h) && RawOrder(v1, h + [c])
    ensures StatusTracks(table, v1, h + [c], if idx + 1 == PayloadLen(h) then GotPayload else GotMsgid3, idx + 1, wait)
  {
    hide FromByte, ExpectedCrc, SignedFlag, UnknownFlags;
    LayoutStep(table, v1, h, c);
  }

  lemma FirstCrcByteStatus(table: seq<MsgEntry>, v1: bool, h: seq<byte>, c: byte, idx: uint8, wait: uint8)
    requires |h| >= HeaderLen(v1) && |h| == BodyEnd(v1, h) && RawOrder(v1, h) && idx == PayloadSoFar(v1, h)
    ensures idx == PayloadLen(h) && RawOrder(v1, h + [c])
    ensures StatusTracks(table, v1, h + [c], if c == Low(ExpectedCrc(table, v1, h)) then GotCrc1 else GotBadCrc1, idx, wait)
  {
    hide FromByte, ExpectedCrc, SignedFlag, UnknownFlags, Low;
    LayoutStep(table, v1, h, c);
  }

  lemma ChecksumComplete(table: seq<MsgEntry>, v1: bool, h: seq<byte>, b: Buffer)
    requires |h| >= HeaderLen(v1) && |h| == BodyEnd(v1, h) && b.Sized() && b.Tracks(table, v1, h)
    ensures Accumulate(CrcExtra(table, b.head.msgid), b.checksum) == ExpectedCrc(table, v1, h)
  {
    hide FromByte, Accumulate, Crc, HeadTracks, IdFromBytes, CrcExtra, ZeroFilled;
    HeadComplete(v1, h, b.head);
    assert h[1..BodyEnd(v1, h)] == h[1..];
  }

  lemma ChecksumKept(table: seq<MsgEntry>, v1: bool, h: seq<byte>, b: Buffer)
    requires |h| >= HeaderLen(v1) && |h| > BodyEnd(v1, h) && b.Sized() && b.Tracks(table, v1, h)
    ensures b.checksum == ExpectedCrc(table, v1, h)
  {
    hide FromByte, HeadTracks, ZeroFilled, ExpectedCrc;
  }

  lemma SecondCrcByteStatus(table: seq<MsgEntry>, v1: bool, h: seq<byte>, c: byte, idx: uint8)
    requires |h| >= HeaderLen(v1) && |h| + 1 == CrcEnd(v1, h) && RawOrder(v1, h) && idx == PayloadSoFar(v1, h)
    requires Signed(v1, h)
    ensures RawOrder(v1, h + [c])
    ensures StatusTracks(table, v1, h + [c], SignatureWait, idx, SIGNATURE_BLOCK_LEN)
  {
    hide FromByte, ExpectedCrc, SignedFlag, UnknownFlags, Low;
    LayoutStep(table, v1, h, c);
  }

  lemma SignatureByteStatus(table: seq<MsgEntry>, v1: bool, h: seq<byte>, c: byte, idx: uint8, wait: uint8)
    requires |h| >= HeaderLen(v1) && CrcEnd(v1, h) <= |h| && RawOrder(v1, h)
    requires StatusTracks(table, v1, h, SignatureWait, idx, wait)
    ensures 1 <= wait <= SIGNATURE_BLOCK_LEN && wait == FrameLen(v1, h) - |h|
    ensures SIGNATURE_BLOCK_LEN - wait == |h| - CrcEnd(v1, h)
    ensures wait > 1 ==> RawOrder(v1, h + [c]) && StatusTracks(table, v1, h + [c], SignatureWait, idx, wait - 1)
    ensures !v1 && h[0] == STX
  {
    hide FromByte, ExpectedCrc, SignedFlag, UnknownFlags, Low;
    LayoutStep(table, v1, h, c);
  }

  lemma HeaderFlags(v1: bool, h: seq<byte>)
    requires |h| >= HeaderLen(v1)
    ensures Signed(v1, h) <==> SignedFlag(HeaderOf(v1, h).incompat)
  {
  }

  /** The answer at the second checksum byte, as the code computes it. */
  lemma CrcEndAnswer(table: seq<MsgEntry>, r: Receiver, h: seq<byte>, c: byte, allow: bool)
    requires |r.hist| >= HeaderLen(r.v1) && |r.hist| + 1 == CrcEnd(r.v1, r.hist) && h == r.hist + [c]
    requires |h| == CrcEnd(r.v1, h)
    ensures Signed(r.v1, h) == Signed(r.v1, r.hist)
    ensures var good := r.hist[|r.hist| - 1] == Low(ExpectedCrc(table, r.v1, r.hist))
        && c == High(ExpectedCrc(table, r.v1, r.hist));
      AtCrcEnd(table, r, h, allow) ==
        if Signed(r.v1, r.hist) then Step(r.(hist := h), if good then Incomplete else BadCrc)
        else Step(r.(hist := []), if !good then BadCrc else if r.security.Secured? && !allow then BadSig else Ok)
  {
    hide CrcMatches, ExpectedCrc, FromByte, SignedFlag, Low, High;
    CrcVerdict(table, r.v1, r.hist, c);
    LayoutStep(table, r.v1, r.hist, c);
  }

  // ----- the end of a frame -----

  /** All the bytes that the frame announces are there. */
  predicate Finished(v1: bool, h: seq<byte>) {
    |h| >= 3 && |h| == FrameLen(v1, h)
  }

  /** What a receiver finds in `r_message` at the end of a frame: the header and payload of the wire bytes,
      zeros behind a short payload, the expected checksum, or the one from the wire when that was bad. */
  predicate Delivered(table: seq<MsgEntry>, v1: bool, h: seq<byte>, result: Framing, b: Buffer)
    requires Finished(v1, h) && b.Sized()
  {
    && b.head == HeaderOf(v1, h)
    && b.payload[..b.head.len] == h[HeaderLen(v1)..BodyEnd(v1, h)]
    && ZeroFilled(table, b.head, b.payload)
    && b.checksum == (if result == BadCrc then Join(h[BodyEnd(v1, h)], h[BodyEnd(v1, h) + 1])
                      else ExpectedCrc(table, v1, h))
    && (Signed(v1, h) ==> b.signature == h[CrcEnd(v1, h)..])
  }

  lemma TrackedIsDelivered(table: seq<MsgEntry>, v1: bool, h: seq<byte>, result: Framing, b: Buffer)
    requires Finished(v1, h) && b.Sized() && b.Tracks(table, v1, h)
    ensures Delivered(table, v1, h, result, if result == BadCrc then b.(checksum := Join(b.ck0, b.ck1)) else b)
  {
    hide FromByte, SignedFlag, ExpectedCrc, ZeroFilled, IdFromBytes, Join;
    HeadComplete(v1, h, b.head);
    if Signed(v1, h) {
      assert b.signature[..13] == b.signature;
    }
  }
}
