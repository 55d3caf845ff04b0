/** `mavlink_frame_char_buffer` and `mavlink_parse_char`: the sixteen-state parser, in place. */
module Parser {
  import opened Bytes
  import opened Checksum
  import opened MessageTable
  import opened Wire
  import opened Message
  import opened Signing
  import opened SigningState
  import opened Status
  import opened Receiver
  import opened ParserState

  /** `mavlink_start_checksum` */
  method StartChecksum(msg: Message)
    modifies msg`checksum
    ensures msg.checksum == Crc([])
  {
    msg.checksum := X25_INIT_CRC;
  }

  /** `mavlink_update_checksum` */
  method UpdateChecksum(msg: Message, c: byte)
    modifies msg`checksum
    ensures msg.checksum == Accumulate(c, old(msg.checksum))
  {
    hide *;
    msg.checksum := Accumulate(c, msg.checksum);
  }

  /** States UNINIT and IDLE. */
  method OnIdle(table: seq<MsgEntry>, msg: Message, status: Status, c: byte, ghost r: Receiver, ghost allow: bool)
    requires r.v1 == status.inMavlink1 && r.hist == status.hist
    requires Tracks(table, msg, status) && (status.parseState == Idle || status.parseState == Uninit)
    modifies msg, status`parseState, status`inMavlink1, status`hist
    ensures Tracks(table, msg, status)
    ensures Step(r.(v1 := status.inMavlink1, hist := status.hist), Incomplete) == FrameStep(table, r, c, allow)
  {
    hide StateAt, Crc, RawOrder, HeadTracks, BodyTracks, TailTracks, AtCrcEnd, AtSignatureEnd;
    IdleMeansNoHistory(table, msg, status);
    if c == STX {
      Start(table, msg, status, c);
    } else if c == STX_V1 {
      Start(table, msg, status, c);
    }
  }

  method Start(table: seq<MsgEntry>, msg: Message, status: Status, c: byte)
    requires msg.Valid() && (c == STX || c == STX_V1)
    modifies msg, status`parseState, status`inMavlink1, status`hist
    ensures Tracks(table, msg, status)
    ensures status.hist == [c] && status.inMavlink1 == (c == STX_V1)
  {
    hide StateAt, Crc, RawOrder, HeadTracks, BodyTracks, TailTracks;
    status.parseState := GotStx;
    msg.len := 0;
    msg.magic := c;
    status.inMavlink1 := c == STX_V1;
    StartChecksum(msg);
    status.hist := [c];
    StartTracks(table, c == STX_V1, c, BufferOf(msg));
  }

  lemma IdleMeansNoHistory(table: seq<MsgEntry>, msg: Message, status: Status)
    requires Tracks(table, msg, status) && (status.parseState == Idle || status.parseState == Uninit)
    ensures status.hist == []
  {
  }

  /** The states from GOT_STX to GOT_MSGID2: one header byte each. */
  method OnHeaderByte(table: seq<MsgEntry>, msg: Message, status: Status, c: byte, ghost r: Receiver, ghost allow: bool)
    requires r.v1 == status.inMavlink1 && r.hist == status.hist
    requires Tracks(table, msg, status) && status.hist != [] && |status.hist| < HeaderLen(status.inMavlink1)
    modifies msg, status`parseState, status`packetIdx, status`parseError, status`hist
    ensures Tracks(table, msg, status)
    ensures Step(r.(v1 := status.inMavlink1, hist := status.hist), Incomplete) == FrameStep(table, r, c, allow)
  {
    hide StateAt, RawOrder, HeadTracks, BodyTracks, TailTracks, FromByte, UnknownFlags, Next, NextHead, NextState;
    hide AtCrcEnd, AtSignatureEnd, Accumulate, FrameStep;
    ghost var b, h, v1, state := BufferOf(msg), status.hist, status.inMavlink1, status.parseState;
    IdIsBounded(table, v1, h, msg.Head());
    HeaderStepIs(table, r, c, allow);
    HeaderStates(table, v1, h);
    if status.parseState == GotLength && UnknownFlags(c) {
      msg.incompatFlags := c;
      status.parseError := Next(status.parseError);
      status.parseState := Idle;
      status.hist := [];
      NoHistory(v1);
    } else {
      StoreHeaderByte(msg, status, c);
      status.hist := h + [c];
      StateStep(table, v1, h, c);
      OrderStep(v1, h, c);
      HeaderByteTracks(table, v1, h, c, b, BufferOf(msg));
      HeaderStatus(table, v1, h + [c], msg.Head());
    }
  }

  /** The assignments of those states; an unknown incompatibility flag has been dealt with. */
  method StoreHeaderByte(msg: Message, status: Status, c: byte)
    requires msg.Valid()
    requires status.parseState == GotMsgid1 ==> msg.msgid < 0x100
    requires status.parseState == GotMsgid2 ==> msg.msgid < 0x1_0000
    requires !(status.parseState in {Uninit, Idle, GotMsgid3, GotPayload, GotCrc1, GotBadCrc1, SignatureWait})
    modifies msg`len, msg`incompatFlags, msg`compatFlags, msg`seqNo, msg`sysid, msg`compid, msg`msgid, msg`checksum
    modifies status`parseState, status`packetIdx
    ensures msg.Head() == NextHead(old(status.parseState), status.inMavlink1, c, old(msg.Head()))
    ensures msg.checksum == Accumulate(c, old(msg.checksum))
    ensures status.parseState == NextState(old(status.parseState), status.inMavlink1, msg.len)
    ensures status.packetIdx == if old(status.parseState) == GotStx then 0 else old(status.packetIdx)
  {
    hide FromByte, Accumulate;
    UpdateChecksum(msg, c);
    match status.parseState
    case GotStx =>
      msg.len := FromByte(c);
      status.packetIdx := 0;
      if status.inMavlink1 {
        msg.incompatFlags := 0;
        msg.compatFlags := 0;
        status.parseState := GotCompatFlags;
      } else {
        status.parseState := GotLength;
      }
    case GotLength =>
      msg.incompatFlags := c;
      status.parseState := GotIncompatFlags;
    case GotIncompatFlags =>
      msg.compatFlags := c;
      status.parseState := GotCompatFlags;
    case GotCompatFlags =>
      msg.seqNo := c;
      status.parseState := GotSeq;
    case GotSeq =>
      msg.sysid := c;
      status.parseState := GotSysid;
    case GotSysid =>
      msg.compid := c;
      status.parseState := GotCompid;
    case GotCompid =>
      msg.msgid := FromByte(c);
      if status.inMavlink1 {
        if msg.len > 0 {
          status.parseState := GotMsgid3;
        } else {
          status.parseState := GotPayload;
        }
      } else {
        status.parseState := GotMsgid1;
      }
    case GotMsgid1 =>
      msg.msgid := msg.msgid + FromByte(c) * 0x100;
      status.parseState := GotMsgid2;
    case GotMsgid2 =>
      msg.msgid := msg.msgid + FromByte(c) * 0x1_0000;
      if msg.len > 0 {
        status.parseState := GotMsgid3;
      } else {
        status.parseState := GotPayload;
      }
  }

  lemma HeaderStepIs(table: seq<MsgEntry>, r: Receiver, c: byte, allow: bool)
    requires 1 <= |r.hist| < HeaderLen(r.v1)
    ensures FrameStep(table, r, c, allow) ==
      if !r.v1 && |r.hist| == 2 && UnknownFlags(c) then Step(r.(hist := []), Incomplete)
      else Step(r.(hist := r.hist + [c]), Incomplete)
  {
    hide UnknownFlags, FromByte, AtCrcEnd, AtSignatureEnd;
  }

  lemma HeaderStates(table: seq<MsgEntry>, v1: bool, h: seq<byte>)
    requires 1 <= |h| < HeaderLen(v1)
    ensures StateAt(table, v1, h) == GotLength <==> !v1 && |h| == 2
    ensures StateAt(table, v1, h) == GotStx <==> |h| == 1
    ensures !(StateAt(table, v1, h) in {Uninit, Idle, GotMsgid3, GotPayload, GotCrc1, GotBadCrc1, SignatureWait})
    ensures |h| >= 2 ==> PayloadSoFar(v1, h) == 0
  {
  }

  lemma HeaderStatus(table: seq<MsgEntry>, v1: bool, h: seq<byte>, hd: Header)
    requires 2 <= |h| <= HeaderLen(v1) && HeadTracks(v1, h, hd)
    ensures hd.len == PayloadLen(h) && PayloadSoFar(v1, h) == 0 && StateAt(table, v1, h) != SignatureWait
  {
  }

  /** GOT_MSGID3: a payload byte. */
  method OnPayloadByte(table: seq<MsgEntry>, msg: Message, status: Status, c: byte, ghost r: Receiver, ghost allow: bool)
    requires r.v1 == status.inMavlink1 && r.hist == status.hist
    requires Tracks(table, msg, status) && status.parseState == GotMsgid3
    modifies msg`checksum, msg.payload, status`parseState, status`packetIdx, status`hist
    ensures Tracks(table, msg, status)
    ensures Step(r.(v1 := status.inMavlink1, hist := status.hist), Incomplete) == FrameStep(table, r, c, allow)
  {
    hide Buffer.Tracks, StatusTracks, RawOrder, FrameStep, FromByte, ExpectedCrc, Lookup, MsgIdOf, Plausible;
    ghost var h, v1 := status.hist, status.inMavlink1;
    TracksMeans(table, msg, status);
    BehindTheHeader(table, msg, status);
    PayloadByteStatus(table, v1, h, c, status.packetIdx, status.signatureWait);
    BodyStepIs(table, r, c, allow);
    StorePayloadByte(table, msg, status.packetIdx, c, v1, h);
    status.packetIdx := status.packetIdx + 1;
    if status.packetIdx == msg.len {
      status.parseState := GotPayload;
    }
    status.hist := h + [c];
  }

  method StorePayloadByte(ghost table: seq<MsgEntry>, msg: Message, idx: uint8, c: byte, ghost v1: bool, ghost h: seq<byte>)
    requires msg.Valid() && HeaderLen(v1) <= |h| < BodyEnd(v1, h) && idx == PayloadSoFar(v1, h)
    requires BufferOf(msg).Tracks(table, v1, h)
    modifies msg`checksum, msg.payload
    ensures BufferOf(msg).Tracks(table, v1, h + [c])
  {
    hide Accumulate, Buffer.Tracks, PayloadSoFar, ExpectedCrc, Lookup, FromByte;
    ghost var b := BufferOf(msg);
    msg.payload[idx] := c;
    UpdateChecksum(msg, c);
    PayloadByteTracks(table, v1, h, c, b, BufferOf(msg));
  }

  lemma TracksMeans(table: seq<MsgEntry>, msg: Message, status: Status)
    requires Tracks(table, msg, status)
    ensures var v1, h := status.inMavlink1, status.hist;
      msg.Valid() && RawOrder(v1, h)
      && StatusTracks(table, v1, h, status.parseState, status.packetIdx, status.signatureWait)
      && (h != [] ==> BufferOf(msg).Tracks(table, v1, h))
  {
  }

  lemma BehindTheHeader(table: seq<MsgEntry>, msg: Message, status: Status)
    requires Tracks(table, msg, status)
    requires status.parseState in {GotMsgid3, GotPayload, GotCrc1, GotBadCrc1, SignatureWait}
    ensures var v1, h := status.inMavlink1, status.hist;
      && |h| >= HeaderLen(v1)
      && (status.parseState == GotMsgid3 <==> |h| < BodyEnd(v1, h))
      && (status.parseState == GotPayload <==> |h| == BodyEnd(v1, h))
      && (status.parseState == GotCrc1 || status.parseState == GotBadCrc1 <==> |h| == BodyEnd(v1, h) + 1)
      && (status.parseState == SignatureWait <==> |h| >= CrcEnd(v1, h))
      && msg.Head() == HeaderOf(v1, h) && status.packetIdx == PayloadSoFar(v1, h)
  {
    hide HeadTracks, BodyTracks, TailTracks, StateAt, Plausible, Low;
    StatesBehindTheHeader(table, status.inMavlink1, status.hist);
    HeadComplete(status.inMavlink1, status.hist, msg.Head());
  }

  /** GOT_PAYLOAD: the first checksum byte. */
  method OnFirstCrcByte(table: seq<MsgEntry>, msg: Message, status: Status, c: byte, ghost r: Receiver, ghost allow: bool)
    requires r.v1 == status.inMavlink1 && r.hist == status.hist
    requires Tracks(table, msg, status) && status.parseState == GotPayload
    requires Sorted(table) && |table| > 0
    modifies msg`checksum, msg`ck0, msg.payload, status`parseState, status`hist
    ensures Tracks(table, msg, status)
    ensures Step(r.(v1 := status.inMavlink1, hist := status.hist), Incomplete) == FrameStep(table, r, c, allow)
  {
    hide Buffer.Tracks, StatusTracks, RawOrder, FrameStep, Accumulate, FromByte, Low, ExpectedCrc, Lookup;
    hide ZeroFilled, Crc, MsgIdOf, Plausible;
    ghost var h, v1 := status.hist, status.inMavlink1;
    TracksMeans(table, msg, status);
    BehindTheHeader(table, msg, status);
    FirstCrcByteStatus(table, v1, h, c, status.packetIdx, status.signatureWait);
    BodyStepIs(table, r, c, allow);
    StoreFirstCrcByte(table, msg, status.packetIdx, c, v1, h);
    if c != Low(msg.checksum) {
      status.parseState := GotBadCrc1;
    } else {
      status.parseState := GotCrc1;
    }
    status.hist := h + [c];
  }

  /** The message's extra byte, the received checksum byte and the zero fill. */
  method StoreFirstCrcByte(table: seq<MsgEntry>, msg: Message, idx: uint8, c: byte, ghost v1: bool, ghost h: seq<byte>)
    requires msg.Valid() && |h| >= HeaderLen(v1) && |h| == BodyEnd(v1, h) && idx == msg.len
    requires BufferOf(msg).Tracks(table, v1, h)
    requires Sorted(table) && |table| > 0
    modifies msg`checksum, msg`ck0, msg.payload
    ensures BufferOf(msg).Tracks(table, v1, h + [c])
    ensures msg.checksum == ExpectedCrc(table, v1, h)
  {
    hide Accumulate, Buffer.Tracks, Sorted, FromByte, ExpectedCrc, ZeroFilled, Lookup;
    ghost var b := BufferOf(msg);
    ChecksumComplete(table, v1, h, b);
    var e := GetMsgEntry(table, msg.msgid);
    var crcExtra := if e.Some? then e.value.crcExtra else 0;
    assert crcExtra == CrcExtra(table, msg.msgid);
    UpdateChecksum(msg, crcExtra);
    msg.ck0 := c;
    ZeroFill(table, msg, idx, e);
    FirstCrcByteTracks(table, v1, h, c, b, BufferOf(msg));
  }

  /** The `memset` behind a short payload. */
  method ZeroFill(ghost table: seq<MsgEntry>, msg: Message, idx: uint8, e: Option<MsgEntry>)
    requires msg.Valid() && idx == msg.len && e == Lookup(table, msg.msgid)
    modifies msg.payload
    ensures msg.payload[..idx] == old(msg.payload[..idx])
    ensures ZeroFilled(table, msg.Head(), msg.payload[..])
  {
    hide Lookup;
    if e.Some? && idx < e.value.maxLen {
      forall i | idx <= i < e.value.maxLen {
        msg.payload[i] := 0;
      }
    }
  }

  /** GOT_CRC1 and GOT_BAD_CRC1: the second checksum byte. `complete` says that the message is to be handed over. */
  method OnSecondCrcByte(table: seq<MsgEntry>, msg: Message, status: Status, c: byte, ghost r: Receiver, allow: bool)
    returns (complete: bool)
    requires r.v1 == status.inMavlink1 && r.hist == status.hist
    requires r.security.Secured? <==> status.signing != null
    requires Tracks(table, msg, status) && (status.parseState == GotCrc1 || status.parseState == GotBadCrc1)
    modifies msg`ck1, status`msgReceived, status`parseState, status`signatureWait, status`hist
    ensures Tracks(table, msg, status)
    ensures Step(r.(hist := status.hist), status.msgReceived) == FrameStep(table, r, c, allow)
    ensures complete <==> !Signed(status.inMavlink1, old(status.hist) + [c])
    ensures BufferOf(msg).Tracks(table, status.inMavlink1, old(status.hist) + [c])
  {
    hide Buffer.Tracks, StatusTracks, RawOrder, FrameStep, AtCrcEnd, FromByte, Low, High, ExpectedCrc;
    hide SignedFlag, Signed, PayloadSoFar, PayloadLen, MsgIdOf, Crc, Fold, CrcExtra, StateAt, CrcMatches;
    ghost var b, h, v1 := BufferOf(msg), status.hist, status.inMavlink1;
    SecondCrcByteFacts(table, msg, status, c, r, allow);
    if status.parseState == GotBadCrc1 || c != High(msg.checksum) {
      status.msgReceived := BadCrc;
    } else {
      status.msgReceived := Ok;
    }
    msg.ck1 := c;
    SecondCrcByteTracks(table, v1, h, c, b, BufferOf(msg));
    if SignedFlag(msg.incompatFlags) {
      status.parseState := SignatureWait;
      status.signatureWait := SIGNATURE_BLOCK_LEN;
      if status.msgReceived != BadCrc {
        status.msgReceived := Incomplete;
      }
      status.hist := h + [c];
      complete := false;
      SecondCrcByteStatus(table, v1, h, c, status.packetIdx);
    } else {
      if status.signing != null && !allow {
        if status.msgReceived != BadCrc {
          status.msgReceived := BadSig;
        }
      }
      status.parseState := Idle;
      status.hist := [];
      complete := true;
      NoHistory(v1);
      IdleTracks(table, v1, status.packetIdx, status.signatureWait);
    }
  }

  // Everything that the second checksum byte is judged by.
  lemma SecondCrcByteFacts(table: seq<MsgEntry>, msg: Message, status: Status, c: byte, r: Receiver, allow: bool)
    requires r.v1 == status.inMavlink1 && r.hist == status.hist
    requires Tracks(table, msg, status) && (status.parseState == GotCrc1 || status.parseState == GotBadCrc1)
    ensures var v1, h := status.inMavlink1, status.hist;
      && msg.Valid() && RawOrder(v1, h) && h != []
      && BufferOf(msg).Tracks(table, v1, h)
      && |h| >= HeaderLen(v1) && |h| + 1 == CrcEnd(v1, h) && status.packetIdx == PayloadSoFar(v1, h)
      && (Signed(v1, h) <==> SignedFlag(msg.incompatFlags)) && Signed(v1, h + [c]) == Signed(v1, h)
      && FrameStep(table, r, c, allow) ==
        var good := status.parseState == GotCrc1 && c == High(msg.checksum);
        if Signed(v1, h) then Step(r.(hist := h + [c]), if good then Incomplete else BadCrc)
        else Step(r.(hist := []), if !good then BadCrc else if r.security.Secured? && !allow then BadSig else Ok)
  {
    hide Tracks, Buffer.Tracks, StatusTracks, RawOrder, FrameStep, AtCrcEnd, FromByte, Low, High, ExpectedCrc;
    hide SignedFlag, Signed;
    var b, h, v1 := BufferOf(msg), status.hist, status.inMavlink1;
    TracksMeans(table, msg, status);
    BehindTheHeader(table, msg, status);
    StateSaysFirstByte(table, status);
    ChecksumKept(table, v1, h, b);
    HeaderFlags(v1, h);
    CrcEndStepIs(table, r, c, allow);
    CrcEndAnswer(table, r, h + [c], c, allow);
  }

  lemma IdleTracks(table: seq<MsgEntry>, v1: bool, idx: uint8, wait: uint8)
    ensures StatusTracks(table, v1, [], Idle, idx, wait)
  {
  }

  lemma StateSaysFirstByte(table: seq<MsgEntry>, status: Status)
    requires status.hist != [] && RawOrder(status.inMavlink1, status.hist)
    requires StatusTracks(table, status.inMavlink1, status.hist, status.parseState, status.packetIdx, status.signatureWait)
    requires status.parseState == GotCrc1 || status.parseState == GotBadCrc1
    ensures |status.hist| >= HeaderLen(status.inMavlink1) && |status.hist| >= BodyEnd(status.inMavlink1, status.hist)
    ensures status.parseState == GotCrc1 <==>
      status.hist[|status.hist| - 1] == Low(ExpectedCrc(table, status.inMavlink1, status.hist))
  {
    hide Low, ExpectedCrc, FromByte, Plausible;
    StatesBehindTheHeader(table, status.inMavlink1, status.hist);
  }

  /** SIGNATURE_WAIT: a signature byte; `last` says that it was the thirteenth. */
  method OnSignatureByte(table: seq<MsgEntry>, msg: Message, status: Status, c: byte, ghost r: Receiver, ghost allow: bool)
    returns (last: bool)
    requires r.v1 == status.inMavlink1 && r.hist == status.hist
    requires Tracks(table, msg, status) && status.parseState == SignatureWait
    modifies msg.signature, status`signatureWait, status`hist
    ensures last <==> old(status.signatureWait) == 1
    ensures BufferOf(msg).Tracks(table, r.v1, r.hist + [c])
    ensures !last ==> Tracks(table, msg, status)
    ensures !last ==> Step(r.(hist := status.hist), Incomplete) == FrameStep(table, r, c, allow)
    ensures last ==> SignedFrame(r.hist + [c]) && !r.v1
    ensures last ==> FrameStep(table, r, c, allow) == AtSignatureEnd(r, r.hist + [c], allow)
  {
    hide Buffer.Tracks, StatusTracks, RawOrder, FrameStep, AtSignatureEnd, SignedFrame, CrcEnd, Tracks;
    ghost var h, v1, wait := status.hist, status.inMavlink1, status.signatureWait;
    TracksMeans(table, msg, status);
    SignatureByteFacts(table, msg, status, c, r, allow);
    StoreSignatureByte(table, msg, SIGNATURE_BLOCK_LEN - status.signatureWait, c, v1, h);
    status.signatureWait := status.signatureWait - 1;
    last := status.signatureWait == 0;
    if !last {
      status.hist := h + [c];
      TracksAre(table, msg, status);
    }
  }

  lemma TracksAre(table: seq<MsgEntry>, msg: Message, status: Status)
    requires msg.Valid() && RawOrder(status.inMavlink1, status.hist)
    requires StatusTracks(table, status.inMavlink1, status.hist, status.parseState, status.packetIdx, status.signatureWait)
    requires BufferOf(msg).Tracks(table, status.inMavlink1, status.hist)
    ensures Tracks(table, msg, status)
  {
  }

  /** What a signature byte finds, and what the recogniser does with it. */
  lemma SignatureByteFacts(table: seq<MsgEntry>, msg: Message, status: Status, c: byte, r: Receiver, allow: bool)
    requires r.v1 == status.inMavlink1 && r.hist == status.hist
    requires Tracks(table, msg, status) && status.parseState == SignatureWait
    ensures r.hist != [] && |r.hist| >= HeaderLen(r.v1)
    ensures CrcEnd(r.v1, r.hist) <= |r.hist| < CrcEnd(r.v1, r.hist) + SIGNATURE_BLOCK_LEN
    ensures 1 <= status.signatureWait <= SIGNATURE_BLOCK_LEN
    ensures SIGNATURE_BLOCK_LEN - status.signatureWait == |r.hist| - CrcEnd(r.v1, r.hist)
    ensures status.signatureWait > 1 ==>
      && RawOrder(r.v1, r.hist + [c])
      && StatusTracks(table, r.v1, r.hist + [c], SignatureWait, status.packetIdx, status.signatureWait - 1)
      && FrameStep(table, r, c, allow) == Step(r.(hist := r.hist + [c]), Incomplete)
    ensures status.signatureWait == 1 ==>
      SignedFrame(r.hist + [c]) && !r.v1 && FrameStep(table, r, c, allow) == AtSignatureEnd(r, r.hist + [c], allow)
  {
    hide Buffer.Tracks, StatusTracks, RawOrder, FrameStep, AtSignatureEnd, FromByte, ExpectedCrc, Lookup, Plausible;
    hide MsgIdOf, Crc, CrcMatches, CheckFrame;
    TracksMeans(table, msg, status);
    BehindTheHeader(table, msg, status);
    SignatureByteStatus(table, r.v1, r.hist, c, status.packetIdx, status.signatureWait);
    SignatureStepIs(table, r, c, allow);
  }

  /** A complete version 2 frame with a signature. */
  ghost predicate SignedFrame(h: seq<byte>) {
    |h| >= 10 && h[0] == STX && Signed(false, h) && |h| == CrcEnd(false, h) + SIGNATURE_BLOCK_LEN
  }

  method StoreSignatureByte(ghost table: seq<MsgEntry>, msg: Message, at: nat, c: byte, ghost v1: bool, ghost h: seq<byte>)
    requires msg.Valid() && |h| >= HeaderLen(v1) && CrcEnd(v1, h) <= |h| < CrcEnd(v1, h) + SIGNATURE_BLOCK_LEN
    requires at == |h| - CrcEnd(v1, h) && BufferOf(msg).Tracks(table, v1, h)
    modifies msg.signature
    ensures BufferOf(msg).Tracks(table, v1, h + [c])
  {
    hide Buffer.Tracks, ExpectedCrc, Lookup, FromByte;
    ghost var b := BufferOf(msg);
    msg.signature[at] := c;
    SignatureByteTracks(table, v1, h, c, b, BufferOf(msg));
  }

  /** The end of a signed frame. */
  method FinishSignature(table: seq<MsgEntry>, msg: Message, status: Status, ghost h: seq<byte>, ghost r: Receiver,
                         allow: bool)
    requires msg.Valid() && status.SigningValid()
    requires !status.inMavlink1 && r.security == status.Security() && !r.v1
    requires SignedFrame(h)
    requires BufferOf(msg).Tracks(table, false, h)
    modifies status`msgReceived, status`parseState, status`hist
    modifies if status.signing == null then {} else {status.signing}
    modifies if status.signingStreams == null then {} else {status.signingStreams}
    ensures status.SigningValid() && status.hist == [] && status.parseState == Idle
    ensures Step(r.(hist := [], security := status.Security()), status.msgReceived) == AtSignatureEnd(r, h, allow)
  {
    hide Buffer.Tracks, FromByte, ExpectedCrc, Lookup, Plausible, CheckFrame, SigningStreams.Valid, Status.SigningValid;
    hide Status.Security;
    var sigOk := CheckReceived(table, msg, status, h);
    if !sigOk && allow {
      sigOk := true;
    }
    if sigOk {
      status.msgReceived := Ok;
    } else {
      status.msgReceived := BadSig;
    }
    status.parseState := Idle;
    status.hist := [];
  }

  /** The signature check, on the frame that the receive buffer holds. */
  method CheckReceived(ghost table: seq<MsgEntry>, msg: Message, status: Status, ghost h: seq<byte>) returns (ok: bool)
    requires msg.Valid() && status.SigningValid()
    requires SignedFrame(h)
    requires BufferOf(msg).Tracks(table, false, h)
    modifies if status.signing == null then {} else {status.signing}
    modifies if status.signingStreams == null then {} else {status.signingStreams}
    ensures status.SigningValid()
    ensures (status.Security(), ok) == CheckFrame(old(status.Security()), h)
  {
    hide Buffer.Tracks, FromByte, ExpectedCrc, Lookup, ClaimOf, Check, Crc, Header.Bytes, SigningStreams.Valid;
    ReceivedFrameIs(table, h, BufferOf(msg));
    MagicOfV2(table, h, BufferOf(msg));
    ok := SignatureCheck(status.signing, status.signingStreams, msg);
  }

  lemma MagicOfV2(table: seq<MsgEntry>, h: seq<byte>, b: Buffer)
    requires b.Sized() && b.Tracks(table, false, h)
    ensures b.head.magic != STX_V1
  {
    hide BodyTracks, TailTracks;
  }

  /** The `switch` of `mavlink_frame_char_buffer`. `complete` says that its branch copies the message out. */
  method Consume(table: seq<MsgEntry>, msg: Message, status: Status, c: byte, allow: bool) returns (complete: bool)
    requires Tracks(table, msg, status) && status.SigningValid() && Sorted(table) && |table| > 0
    modifies msg, msg.payload, msg.signature
    modifies status`msgReceived, status`parseError, status`parseState, status`packetIdx
    modifies status`inMavlink1, status`signatureWait, status`hist
    modifies if status.signing == null then {} else {status.signing}
    modifies if status.signingStreams == null then {} else {status.signingStreams}
    ensures Tracks(table, msg, status) && status.SigningValid()
    ensures Step(ReceiverOf(status), status.msgReceived) == FrameStep(table, old(ReceiverOf(status)), c, allow)
    ensures complete <==> old(status.hist) != [] && Finished(status.inMavlink1, old(status.hist) + [c])
    ensures complete || status.msgReceived != Incomplete ==>
      old(status.hist) != [] && BufferOf(msg).Tracks(table, status.inMavlink1, old(status.hist) + [c])
  {
    hide Buffer.Tracks, StatusTracks, RawOrder, FrameStep, AtSignatureEnd, Sorted, Status.SigningValid, Status.Security;
    hide Finished, StateAt;
    ghost var r := ReceiverOf(status);
    StatesCovered(table, msg, status, c);
    status.msgReceived := Incomplete;
    if status.parseState == SignatureWait {
      complete := OnSignatureByte(table, msg, status, c, r, allow);
      if complete {
        FinishSignature(table, msg, status, r.hist + [c], r, allow);
        NoHistory(false);
        IdleTracks(table, false, status.packetIdx, status.signatureWait);
      }
    } else {
      SecurityPresent(status);
      complete := ConsumeFrameByte(table, msg, status, c, r, allow);
    }
  }

  lemma SecurityPresent(status: Status)
    ensures status.Security().Secured? <==> status.signing != null
  {
  }

  /** Every branch of the `switch` but SIGNATURE_WAIT. */
  method ConsumeFrameByte(table: seq<MsgEntry>, msg: Message, status: Status, c: byte, ghost r: Receiver, allow: bool)
    returns (complete: bool)
    requires r.v1 == status.inMavlink1 && r.hist == status.hist
    requires r.security.Secured? <==> status.signing != null
    requires Tracks(table, msg, status) && Sorted(table) && |table| > 0
    requires status.parseState != SignatureWait && status.msgReceived == Incomplete
    modifies msg, msg.payload
    modifies status`msgReceived, status`parseError, status`parseState, status`packetIdx
    modifies status`inMavlink1, status`signatureWait, status`hist
    ensures Tracks(table, msg, status)
    ensures Step(r.(v1 := status.inMavlink1, hist := status.hist), status.msgReceived) == FrameStep(table, r, c, allow)
    ensures complete <==> r.hist != [] && Finished(status.inMavlink1, r.hist + [c])
    ensures complete || status.msgReceived != Incomplete ==>
      r.hist != [] && BufferOf(msg).Tracks(table, status.inMavlink1, r.hist + [c])
  {
    hide Buffer.Tracks, StatusTracks, RawOrder, FrameStep, Sorted, StateAt, Finished;
    StatesCovered(table, msg, status, c);
    complete := false;
    if status.parseState == Uninit || status.parseState == Idle {
      OnIdle(table, msg, status, c, r, allow);
    } else if status.parseState == GotMsgid3 {
      OnPayloadByte(table, msg, status, c, r, allow);
    } else if status.parseState == GotPayload {
      OnFirstCrcByte(table, msg, status, c, r, allow);
    } else if status.parseState == GotCrc1 || status.parseState == GotBadCrc1 {
      complete := OnSecondCrcByte(table, msg, status, c, r, allow);
    } else {
      OnHeaderByte(table, msg, status, c, r, allow);
    }
  }

  // Where the parse state puts the next byte.
  lemma StatesCovered(table: seq<MsgEntry>, msg: Message, status: Status, c: byte)
    requires Tracks(table, msg, status)
    ensures var v1, h, state := status.inMavlink1, status.hist, status.parseState;
      && (state in {Uninit, Idle} <==> h == [])
      && (!(state in {Uninit, Idle, GotMsgid3, GotPayload, GotCrc1, GotBadCrc1, SignatureWait}) ==>
        h != [] && |h| < HeaderLen(v1))
      && (h != [] ==> (
        && (!(state in {GotCrc1, GotBadCrc1, SignatureWait}) ==> !Finished(v1, h + [c]))
        && (state in {GotCrc1, GotBadCrc1} ==>
          |h + [c]| >= 3 && (Finished(v1, h + [c]) <==> !Signed(v1, h + [c])))
        && (state == SignatureWait ==> (Finished(v1, h + [c]) <==> status.signatureWait == 1))))
  {
    hide Buffer.Tracks, FromByte, ExpectedCrc, SignedFlag, UnknownFlags, Low;
    var v1, h := status.inMavlink1, status.hist;
    if h != [] {
      StatesBehindTheHeader(table, v1, h);
      if |h| >= HeaderLen(v1) {
        LayoutStep(table, v1, h, c);
      }
    }
  }

  /** `memcpy(r_message, rxmsg, sizeof(mavlink_message_t))` */
  method CopyMessage(to: Message, from: Message)
    requires to.Valid() && from.Valid() && to != from
    requires {to.payload, to.signature} !! {from.payload, from.signature}
    modifies to, to.payload, to.signature
    ensures BufferOf(to) == old(BufferOf(from))
  {
    CopyArray(to.payload, from.payload);
    CopyArray(to.signature, from.signature);
    to.checksum, to.magic, to.len := from.checksum, from.magic, from.len;
    to.incompatFlags, to.compatFlags, to.seqNo := from.incompatFlags, from.compatFlags, from.seqNo;
    to.sysid, to.compid, to.msgid, to.ck0, to.ck1 := from.sysid, from.compid, from.msgid, from.ck0, from.ck1;
  }

  method CopyArray(to: array<byte>, from: array<byte>)
    requires to != from && to.Length == from.Length
    modifies to
    ensures to[..] == old(from[..])
  {
    forall i | 0 <= i < to.Length {
      to[i] := from[i];
    }
  }

  /** `r_message`, if there is one, is a message of its own. */
  ghost predicate Separate(r_message: Message?, msg: Message) {
    r_message != null ==>
      r_message.Valid() && r_message != msg && {r_message.payload, r_message.signature} !! {msg.payload, msg.signature}
  }

  /** `mavlink_frame_char_buffer` */
  method FrameCharBuffer(table: seq<MsgEntry>, rxmsg: Message, status: Status, c: byte, allow: bool, r_message: Message?)
    returns (result: Framing)
    requires Tracks(table, rxmsg, status) && status.SigningValid() && Sorted(table) && |table| > 0
    requires Separate(r_message, rxmsg)
    modifies rxmsg, rxmsg.payload, rxmsg.signature
    modifies status`msgReceived, status`parseError, status`parseState, status`packetIdx, status`inMavlink1
    modifies status`currentRxSeq, status`rxSuccessCount, status`rxDropCount, status`signatureWait, status`hist
    modifies if status.signing == null then {} else {status.signing}
    modifies if status.signingStreams == null then {} else {status.signingStreams}
    modifies if r_message == null then {} else {r_message, r_message.payload, r_message.signature}
    ensures Tracks(table, rxmsg, status) && status.SigningValid() && status.msgReceived == result
    ensures Step(ReceiverOf(status), result) == FrameStep(table, old(ReceiverOf(status)), c, allow)
    ensures var h := old(status.hist) + [c];
      r_message != null && |h| > 1 && Finished(status.inMavlink1, h) ==> (
        Delivered(table, status.inMavlink1, h, result, BufferOf(r_message)))
    ensures Counted(status, rxmsg.seqNo, result == Ok)
    ensures status.parseError == 0
    ensures result != Incomplete ==>
      old(status.hist) != [] && BufferOf(rxmsg).Tracks(table, status.inMavlink1, old(status.hist) + [c])
  {
    hide Tracks, Buffer.Tracks, FrameStep, Sorted, Status.SigningValid, ReceiverOf, Finished, Delivered, NextCount;
    ghost var h := status.hist + [c];
    TracksMeans(table, rxmsg, status);
    var complete := Consume(table, rxmsg, status, c, allow);
    result := Report(table, rxmsg, status, complete, r_message, status.inMavlink1, h);
  }

  /** A good message is counted, its sequence number is noted, and the first one starts the drop count; nothing else is. */
  twostate predicate Counted(status: Status, seqNo: byte, ok: bool)
    reads status`currentRxSeq, status`rxSuccessCount, status`rxDropCount
  {
    if ok then
      && status.currentRxSeq == seqNo && status.rxSuccessCount == NextCount(old(status.rxSuccessCount))
      && status.rxDropCount == if old(status.rxSuccessCount) == 0 then 0 else old(status.rxDropCount)
    else
      && status.currentRxSeq == old(status.currentRxSeq) && status.rxSuccessCount == old(status.rxSuccessCount)
      && status.rxDropCount == old(status.rxDropCount)
  }

  /** What follows the `switch`: the counters, and the message for the caller. */
  method Report(ghost table: seq<MsgEntry>, rxmsg: Message, status: Status, complete: bool, r_message: Message?,
                ghost v1: bool, ghost h: seq<byte>)
    returns (result: Framing)
    requires rxmsg.Valid() && Separate(r_message, rxmsg)
    requires complete ==> Finished(v1, h) && BufferOf(rxmsg).Tracks(table, v1, h)
    modifies status`currentRxSeq, status`rxSuccessCount, status`rxDropCount, status`parseError
    modifies if r_message == null then {} else {r_message, r_message.payload, r_message.signature}
    ensures Counted(status, rxmsg.seqNo, result == Ok)
    ensures result == status.msgReceived && status.parseError == 0
    ensures r_message != null && complete ==> Delivered(table, v1, h, result, BufferOf(r_message))
  {
    hide Buffer.Tracks, Finished, Delivered;
    result := status.msgReceived;
    if result == Ok {
      CountMessage(status, rxmsg);
    }
    status.parseError := 0;
    if r_message != null {
      HandOver(table, rxmsg, r_message, complete, result, v1, h);
    }
  }

  /** The bookkeeping for a good message. */
  method CountMessage(status: Status, rxmsg: Message)
    modifies status`currentRxSeq, status`rxSuccessCount, status`rxDropCount
    ensures status.currentRxSeq == rxmsg.seqNo
    ensures status.rxSuccessCount == NextCount(old(status.rxSuccessCount))
    ensures status.rxDropCount == if old(status.rxSuccessCount) == 0 then 0 else old(status.rxDropCount)
  {
    status.currentRxSeq := rxmsg.seqNo;
    if status.rxSuccessCount == 0 {
      status.rxDropCount := 0;
    }
    status.rxSuccessCount := NextCount(status.rxSuccessCount);
  }

  /** What `r_message` receives: the whole message when it is complete, its length at every byte, and the
      checksum from the wire when that was bad. */
  method HandOver(ghost table: seq<MsgEntry>, rxmsg: Message, r_message: Message, complete: bool, result: Framing,
                  ghost v1: bool, ghost h: seq<byte>)
    requires rxmsg.Valid() && Separate(r_message, rxmsg)
    requires complete ==> Finished(v1, h) && BufferOf(rxmsg).Tracks(table, v1, h)
    modifies r_message, r_message.payload, r_message.signature
    ensures r_message.len == rxmsg.len
    ensures complete ==> Delivered(table, v1, h, result, BufferOf(r_message))
  {
    hide Join, Buffer.Tracks, Delivered, Finished;
    if complete {
      TrackedIsDelivered(table, v1, h, result, BufferOf(rxmsg));
      CopyMessage(r_message, rxmsg);
    }
    r_message.len := rxmsg.len;
    if result == BadCrc {
      r_message.checksum := Join(rxmsg.ck0, rxmsg.ck1);
    }
  }

  /** `uint16_t` increment. */
  function NextCount(n: bv16): bv16 {
    n + 1
  }

  lemma NextCountIs(n: bv16)
    ensures NextCount(n) == n + 1
  {
  }

  /** `mavlink_parse_char` */
  method ParseChar(table: seq<MsgEntry>, rxmsg: Message, status: Status, c: byte, allow: bool, r_message: Message?)
    returns (result: Framing)
    requires Tracks(table, rxmsg, status) && status.SigningValid() && Sorted(table) && |table| > 0
    requires Separate(r_message, rxmsg)
    modifies rxmsg, rxmsg.payload, rxmsg.signature
    modifies status`msgReceived, status`parseError, status`parseState, status`packetIdx, status`inMavlink1
    modifies status`currentRxSeq, status`rxSuccessCount, status`rxDropCount, status`signatureWait, status`hist
    modifies if status.signing == null then {} else {status.signing}
    modifies if status.signingStreams == null then {} else {status.signingStreams}
    modifies if r_message == null then {} else {r_message, r_message.payload, r_message.signature}
    ensures Tracks(table, rxmsg, status) && status.SigningValid()
    ensures Step(ReceiverOf(status), result) == ParseStep(table, old(ReceiverOf(status)), c, allow)
    ensures result == Ok ==> Finished(status.inMavlink1, old(status.hist) + [c])
    ensures Counted(status, rxmsg.seqNo, result == Ok)
    ensures var raw := FrameStep(table, old(ReceiverOf(status)), c, allow).result;
      status.parseError == if raw == BadCrc || raw == BadSig then 1 else 0
    ensures result == Ok && r_message != null ==>
      Delivered(table, status.inMavlink1, old(status.hist) + [c], Ok, BufferOf(r_message))
  {
    hide Tracks, Buffer.Tracks, FrameStep, Sorted, Status.SigningValid, Status.Security, Finished, Delivered, Counted;
    ghost var h := status.hist + [c];
    TracksMeans(table, rxmsg, status);
    if FrameStep(table, ReceiverOf(status), c, allow).result == Ok {
      OkIsFinished(table, ReceiverOf(status), c, allow);
    }
    result := FrameCharBuffer(table, rxmsg, status, c, allow, r_message);
    if result == BadCrc || result == BadSig {
      Resynchronise(table, rxmsg, status, c, h);
      result := Incomplete;
    }
  }

  lemma OkIsFinished(table: seq<MsgEntry>, r: Receiver, c: byte, allow: bool)
    requires FrameStep(table, r, c, allow).result == Ok
    ensures |r.hist| >= 1 && FrameStep(table, r, c, allow).next.v1 == r.v1 && Finished(r.v1, r.hist + [c])
  {
    hide CrcMatches, CheckFrame, FromByte, SignedFlag, UnknownFlags;
  }

  /** The treatment of a bad frame as a parse failure. The IN_MAVLINK1 flag and the magic stay as they were. */
  method Resynchronise(ghost table: seq<MsgEntry>, rxmsg: Message, status: Status, c: byte, ghost h: seq<byte>)
    requires rxmsg.Valid() && BufferOf(rxmsg).Tracks(table, status.inMavlink1, h)
    modifies rxmsg`len, rxmsg`checksum, status`parseError, status`msgReceived, status`parseState, status`hist
    ensures Tracks(table, rxmsg, status)
    ensures status.hist == if c == STX then [c] else []
    ensures status.parseError == Next(old(status.parseError))
  {
    hide StateAt, BodyTracks, TailTracks, RawOrder, Next;
    MagicFollowsVersion(table, status.inMavlink1, h, BufferOf(rxmsg));
    status.parseError := Next(status.parseError);
    status.msgReceived := Incomplete;
    status.parseState := Idle;
    status.hist := [];
    NoHistory(status.inMavlink1);
    if c == STX {
      status.parseState := GotStx;
      rxmsg.len := 0;
      StartChecksum(rxmsg);
      status.hist := [c];
      StartTracks(table, status.inMavlink1, c, BufferOf(rxmsg));
    }
  }

  lemma MagicFollowsVersion(table: seq<MsgEntry>, v1: bool, h: seq<byte>, b: Buffer)
    requires b.Sized() && b.Tracks(table, v1, h)
    ensures b.head.magic == if v1 then STX_V1 else STX
  {
    hide BodyTracks, TailTracks;
  }
}
