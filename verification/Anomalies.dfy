/** Where the parsers do less than their documentation suggests, with the exact conditions. */
module Anomalies {
  import opened Bytes
  import opened Checksum
  import opened MessageTable
  import opened Wire
  import opened Message
  import opened Signing
  import opened Status
  import opened Receiver
  import opened ParserState
  import opened ParserTheorems
  import opened RoundTrip

  // ----- mavlink_frame_char_buffer on its own -----

  lemma RawFirstByte(table: seq<MsgEntry>, r: Receiver, v1: bool, allow: bool)
    requires r.hist == []
    ensures FrameStep(table, r, Marker(v1), allow) == Step(Receiver(v1, [Marker(v1)], r.security), Incomplete)
  {
  }

  lemma RawNextByte(table: seq<MsgEntry>, v1: bool, h: seq<byte>, n: nat, security: Security, allow: bool)
    requires Shaped(v1, h) && 2 <= n < |h| == FrameLen(v1, h)
    ensures FrameStep(table, Receiver(v1, h[..n - 1], security), h[n - 1], allow) ==
      Step(Receiver(v1, h[..n], security), if n == CrcEnd(v1, h) && !CrcMatches(table, v1, h) then BadCrc else Incomplete)
  {
    hide CrcMatches, FromByte, SignedFlag, UnknownFlags, CheckFrame;
    assert h[..n - 1] + [h[n - 1]] == h[..n];
    if n >= 3 {
      PrefixesAgree(table, v1, h[..n], h);
    }
  }

  lemma RawLastByte(table: seq<MsgEntry>, v1: bool, h: seq<byte>, security: Security, allow: bool)
    requires Shaped(v1, h) && Finished(v1, h)
    ensures |h| >= 8 && (|h| >= 10 || v1)
    ensures var result := FrameStep(table, Receiver(v1, h[..|h| - 1], security), h[|h| - 1], allow).result;
      && (result == Ok <==> FrameVerdict(security, v1, h, allow).1 && (Signed(v1, h) || CrcMatches(table, v1, h)))
      && (result == BadCrc <==> |h| == CrcEnd(v1, h) && !CrcMatches(table, v1, h))
  {
    hide CrcMatches, FromByte, SignedFlag, UnknownFlags, CheckFrame;
    assert h[..|h| - 1] + [h[|h| - 1]] == h;
  }

  /** On its own the parser collects every frame to its end, whatever its checksum, which it reports as it passes. */
  lemma {:induction false} RawCollects(table: seq<MsgEntry>, r: Receiver, ins: seq<Input>, v1: bool, h: seq<byte>, n: nat)
    requires r.hist == [] && Shaped(v1, h) && Finished(v1, h) && Stream(ins) == h && 1 <= n < |h|
    ensures RawFeed(table, r, ins[..n]) == Receiver(v1, h[..n], r.security)
    ensures forall i :: 0 <= i < n ==>
      RawResult(table, r, ins, i) == if i + 1 == CrcEnd(v1, h) && !CrcMatches(table, v1, h) then BadCrc else Incomplete
  {
    hide FrameStep, Shaped, CrcMatches, FromByte, SignedFlag, UnknownFlags;
    ShapedStart(v1, h);
    assert ins[n - 1].c == h[n - 1];
    assert ins[..n][..n - 1] == ins[..n - 1];
    if n == 1 {
      RawFirstByte(table, r, v1, ins[0].allow);
      assert h[..1] == [h[0]];
    } else {
      RawCollects(table, r, ins, v1, h, n - 1);
      RawNextByte(table, v1, h, n, r.security, ins[n - 1].allow);
    }
  }

  /** Without the reset that `mavlink_parse_char` adds, a frame fed from idle answers BAD_CRC exactly at the end of a
      wrong checksum, and OK exactly at its last byte, when the verdict is favourable and the frame is signed or
      its checksum matches: a signed frame is not held to its checksum. */
  lemma RawOkExactly(table: seq<MsgEntry>, r: Receiver, ins: seq<Input>, v1: bool, h: seq<byte>)
    requires r.hist == [] && Shaped(v1, h) && Finished(v1, h) && Stream(ins) == h
    ensures |ins| == |h| >= 8 && (|h| >= 10 || v1)
    ensures forall n :: 1 <= n < |h| ==> RawFeed(table, r, ins[..n]) == Receiver(v1, h[..n], r.security)
    ensures forall i :: 0 <= i < |h| ==>
      (RawResult(table, r, ins, i) == BadCrc <==> i + 1 == CrcEnd(v1, h) && !CrcMatches(table, v1, h))
    ensures forall i :: 0 <= i < |h| ==>
      (RawResult(table, r, ins, i) == Ok <==>
        i + 1 == |h| && FrameVerdict(r.security, v1, h, ins[i].allow).1 && (Signed(v1, h) || CrcMatches(table, v1, h)))
  {
    hide FrameStep, Shaped, CrcMatches, FromByte, SignedFlag, UnknownFlags, FrameVerdict, RawFeed;
    var last := |h| - 1;
    RawLastByte(table, v1, h, r.security, ins[last].allow);
    RawCollects(table, r, ins, v1, h, last);
    forall n | 1 <= n < |h|
      ensures RawFeed(table, r, ins[..n]) == Receiver(v1, h[..n], r.security)
    {
      RawCollects(table, r, ins, v1, h, n);
    }
    assert ins[last].c == h[last];
  }

  /** So on a channel without signing every signed frame with a wrong checksum is reported bad at its second
      checksum byte and OK thirteen bytes later. */
  lemma RawForgetsBadCrc(table: seq<MsgEntry>, r: Receiver, ins: seq<Input>, h: seq<byte>)
    requires r.hist == [] && r.security.Unsecured? && Stream(ins) == h
    requires Shaped(false, h) && Finished(false, h) && Signed(false, h) && !CrcMatches(table, false, h)
    ensures var e := CrcEnd(false, h);
      |h| == e + SIGNATURE_BLOCK_LEN && RawResult(table, r, ins, e - 1) == BadCrc && RawResult(table, r, ins, e + 12) == Ok
  {
    hide FrameStep, Shaped, CrcMatches, FromByte, SignedFlag, UnknownFlags, RawFeed, RawResult;
    RawOkExactly(table, r, ins, false, h);
  }

  lemma ExpectationKept(table: seq<MsgEntry>, h: seq<byte>, g: seq<byte>)
    requires |h| >= 12 && |h| >= CrcEnd(false, h) && |g| == |h| && g[..BodyEnd(false, h)] == h[..BodyEnd(false, h)]
    ensures BodyEnd(false, g) == BodyEnd(false, h) && Signed(false, g) == Signed(false, h)
    ensures UnknownFlags(g[2]) == UnknownFlags(h[2]) && g[0] == h[0]
    ensures ExpectedCrc(table, false, g) == ExpectedCrc(table, false, h)
  {
    hide CrcExtra, FromByte, SignedFlag, UnknownFlags, Accumulate, Crc;
    var e := BodyEnd(false, h);
    var p := h[..e];
    assert p <= h && p <= g;
    PrefixesAgree(table, false, p, h);
    PrefixesAgree(table, false, p, g);
    assert h[1..e] == p[1..] && g[1..e] == p[1..];
    assert h[2] == p[2] == g[2] && h[7] == p[7] == g[7] && h[8] == p[8] == g[8] && h[9] == p[9] == g[9];
  }

  lemma RespelledIsWellFormed(table: seq<MsgEntry>, h: seq<byte>, ck: seq<byte>)
    requires Shaped(false, h) && Finished(false, h) && ck == ChecksumBytes(ExpectedCrc(table, false, h))
    ensures |h| >= 12 && WellFormed(table, false, Respelled(h, STX, BodyEnd(false, h), ck))
  {
    hide CrcExtra, FromByte, SignedFlag, UnknownFlags, ExpectedCrc, Low, High;
    var e := BodyEnd(false, h);
    var g := Respelled(h, STX, e, ck);
    assert g[..e] == h[..e];
    ExpectationKept(table, h, g);
    assert g[e..e + 2] == ck;
  }

  /** The overwrite that is to keep a forwarded message from getting a new checksum is lost with the OK: printing what
      the raw parser then hands out gives a well-formed frame, with a good checksum over the corrupted bytes. */
  lemma ForwardedWithGoodCrc(table: seq<MsgEntry>, r: Receiver, ins: seq<Input>, h: seq<byte>, b: Buffer)
    requires r.hist == [] && r.security.Unsecured? && Stream(ins) == h
    requires Shaped(false, h) && Finished(false, h) && Signed(false, h) && !CrcMatches(table, false, h)
    requires b.Sized() && Delivered(table, false, h, Ok, b) && Trim(b.payload, b.head.len) == b.head.len
    ensures |ins| == |h| > 0 && RawResult(table, r, ins, |h| - 1) == Ok
    ensures Printed(b.head, b.payload, b.checksum, b.signature) != h
    ensures WellFormed(table, false, Printed(b.head, b.payload, b.checksum, b.signature))
  {
    hide FrameStep, Shaped, CrcMatches, FromByte, SignedFlag, UnknownFlags, RawFeed, RawResult, Printed, Trim, WellFormed;
    hide ExpectedCrc, ZeroFilled, Respelled, Low, High;
    RawForgetsBadCrc(table, r, ins, h);
    DeliveredChecksum(table, false, h, Ok, b);
    ReprintIsIdentity(table, false, h, Ok, b);
    PrintedAs(false, h, b);
    RespelledIsWellFormed(table, h, ChecksumBytes(b.checksum));
  }

  // ----- the restart of mavlink_parse_char -----

  lemma {:induction false} CollectsRest(table: seq<MsgEntry>, v1: bool, h: seq<byte>, n: nat, security: Security, ins: seq<Input>)
    requires |h| >= 3 && (!v1 ==> !UnknownFlags(h[2])) && 1 <= n <= |h| && StillOpen(table, v1, h, n)
    requires Stream(ins) == h[1..n]
    ensures Feed(table, Receiver(v1, [h[0]], security), ins) == Receiver(v1, h[..n], security)
  {
    hide ParseStep, StillOpen;
    if n == 1 {
      assert h[..1] == [h[0]];
    } else {
      OpenEarlier(table, v1, h, n);
      var init := ins[..n - 2];
      assert Stream(init) == Stream(ins)[..n - 2] == h[1..n][..n - 2] == h[1..n - 1];
      CollectsRest(table, v1, h, n - 1, security, init);
      assert ins[n - 2].c == Stream(ins)[n - 2] == h[n - 1];
      NextByte(table, v1, h, n, security, ins[n - 2].allow);
    }
  }

  // How a step begins an attempt, goes on with it, or restarts it.
  lemma MarkerStep(table: seq<MsgEntry>, r: Receiver, c: byte, allow: bool)
    ensures var next := ParseStep(table, r, c, allow).next;
      || next.hist == []
      || (r.hist == [] && next.hist == [c] && c == Marker(next.v1))
      || (r.hist != [] && next.v1 == r.v1 && (next.hist == r.hist + [c] || (next.hist == [c] && c == STX)))
  {
    hide CrcMatches, FromByte, SignedFlag, UnknownFlags, CheckFrame;
  }

  /** The state in which the marker of the frame in progress was read. */
  function BeforeMarker(table: seq<MsgEntry>, r: Receiver, ins: seq<Input>, h: seq<byte>): Receiver
    requires |h| <= |ins|
  {
    Feed(table, r, ins[..|ins| - |h|])
  }

  /** An attempt begun idle has the marker of its version; one begun by a restart has the version 2 marker and the
      version of the attempt before. */
  lemma {:induction false} AttemptBegan(table: seq<MsgEntry>, r: Receiver, ins: seq<Input>)
    requires r.hist == []
    ensures var now := Feed(table, r, ins);
      now.hist != [] ==>
        && |now.hist| <= |ins|
        && var at := BeforeMarker(table, r, ins, now.hist);
        && (at.hist == [] ==> now.hist[0] == Marker(now.v1))
        && (at.hist != [] ==> now.hist[0] == STX && now.v1 == at.v1)
  {
    hide ParseStep;
    if ins != [] {
      var init, last := ins[..|ins| - 1], ins[|ins| - 1];
      var before, now := Feed(table, r, init), Feed(table, r, ins);
      AttemptBegan(table, r, init);
      MarkerStep(table, before, last.c, last.allow);
      if before.hist != [] && now.hist == before.hist + [last.c] {
        var m := |init| - |before.hist|;
        assert init[..m] == ins[..m];
      }
    }
  }

  /** Exactly when the marker of an accepted frame is that of the layout it was read in: when the receiver was idle
      before the marker, or in the middle of a version 2 frame. */
  lemma MarkerAgreesExactly(table: seq<MsgEntry>, r: Receiver, ins: seq<Input>, i: nat)
    requires r.hist == [] && i < |ins| && Result(table, r, ins, i) == Ok
    ensures var before := Feed(table, r, ins[..i]);
      var n := |before.hist| + 1;
      n <= i + 1
      && var at := Feed(table, r, ins[..i + 1 - n]);
      Stream(ins)[i + 1 - n] == Marker(before.v1) <==> at.hist == [] || !at.v1
  {
    hide ParseStep, InOrder, Vouched, Feed;
    var front := ins[..i];
    var before := Feed(table, r, front);
    StartsInOrder(table, r);
    FeedKeepsOrder(table, r, front);
    OkStepIsVouched(table, before, ins[i].c, ins[i].allow);
    HistoryIsSuffix(table, r, front);
    AttemptBegan(table, r, front);
    var m := i - |before.hist|;
    assert Stream(ins)[m] == Stream(front)[m] == before.hist[0];
    assert front[..m] == ins[..m];
  }

  /** An empty version 1 frame whose checksum is wrong and whose last byte is the version 2 marker. */
  function BadV1Frame(table: seq<MsgEntry>): seq<byte> {
    var body := [STX_V1, ToByte(0), 0, 0, 0, 0];
    body + [Next(Low(Accumulate(CrcExtra(table, FromByte(0)), Crc(body[1..])))), STX]
  }

  /** The rest of an empty version 1 frame, without its marker. */
  function V1Tail(table: seq<MsgEntry>): seq<byte> {
    var body := [ToByte(0), 0, 0, 0, 0];
    body + ChecksumBytes(Accumulate(CrcExtra(table, FromByte(0)), Crc(body)))
  }

  lemma BadV1FrameIsBad(table: seq<MsgEntry>)
    ensures var f := BadV1Frame(table);
      Shaped(true, f) && |f| == CrcEnd(true, f) == FrameLen(true, f) && !CrcMatches(table, true, f) && f[|f| - 1] == STX
  {
    hide Accumulate, Crc, ToByte, FromByte, CrcExtra, Low, High, Next;
    ByteRoundTrip(0);
    var f := BadV1Frame(table);
    NextDiffers(Low(ExpectedCrc(table, true, f)));
    assert f[1..BodyEnd(true, f)] == [STX_V1, ToByte(0), 0, 0, 0, 0][1..];
    assert f[BodyEnd(true, f)..CrcEnd(true, f)][0] == f[6];
  }

  lemma NextDiffers(b: byte)
    ensures Next(b) != b
  {
  }

  lemma V1TailIsGood(table: seq<MsgEntry>)
    ensures var h := [STX] + V1Tail(table);
      WellFormed(table, true, h) && Finished(true, h) && |h| == 8 && h[0] == STX
  {
    hide Accumulate, Crc, ToByte, FromByte, CrcExtra, Low, High;
    ByteRoundTrip(0);
    var h := [STX] + V1Tail(table);
    assert h[1..BodyEnd(true, h)] == [ToByte(0), 0, 0, 0, 0];
    assert h[BodyEnd(true, h)..CrcEnd(true, h)] ==
      ChecksumBytes(Accumulate(CrcExtra(table, FromByte(0)), Crc([ToByte(0), 0, 0, 0, 0])));
  }

  /** The restart after a bad version 1 frame keeps the IN_MAVLINK1 flag: the version 2 marker it restarts
      from then begins a frame that is read, and accepted, in the version 1 layout. */
  lemma RestartKeepsVersion(table: seq<MsgEntry>, r: Receiver, ins: seq<Input>)
    requires r.hist == [] && r.security == Unsecured
    requires Stream(ins) == BadV1Frame(table) + V1Tail(table)
    ensures |ins| == 15 && Result(table, r, ins, 14) == Ok
    ensures Feed(table, r, ins[..8]) == Receiver(true, [STX], Unsecured)
    ensures Feed(table, r, ins[..14]) == Receiver(true, ([STX] + V1Tail(table))[..7], Unsecured)
  {
    hide ParseStep, Shaped, CrcMatches, FromByte, WellFormed, BadV1Frame, V1Tail, Finished, CheckFrame;
    BadV1FrameIsBad(table);
    V1TailIsGood(table);
    var f, h := BadV1Frame(table), [STX] + V1Tail(table);
    FixedLengths(table);
    assert Stream(ins)[..7] == f[..7];
    CollectsOpenFrame(table, r, ins, true, f, 7);
    BadV1Restart(table, f, ins[7].allow);
    assert ins[..8][..7] == ins[..7] && ins[7].c == Stream(ins)[7] == f[7];
    var rest := ins[8..14];
    assert Stream(rest) == Stream(ins)[8..14] == h[1..7];
    OpenToTheEnd(table, true, h);
    CollectsRest(table, true, h, 7, Unsecured, rest);
    FeedSplits(table, r, ins[..8], rest);
    assert ins[..8] + rest == ins[..14];
    LastByte(table, true, h, Unsecured, ins[14].allow);
    assert ins[14].c == Stream(ins)[14] == h[7];
    VersionOneIsUnsigned(h);
  }

  lemma FixedLengths(table: seq<MsgEntry>)
    ensures |BadV1Frame(table)| == 8 && |V1Tail(table)| == 7
  {
  }

  lemma VersionOneIsUnsigned(h: seq<byte>)
    requires |h| >= 3
    ensures !Signed(true, h)
  {
  }

  lemma BadV1Restart(table: seq<MsgEntry>, f: seq<byte>, allow: bool)
    requires Shaped(true, f) && |f| == CrcEnd(true, f) && !CrcMatches(table, true, f) && f[|f| - 1] == STX
    ensures ParseStep(table, Receiver(true, f[..|f| - 1], Unsecured), STX, allow) == Step(Receiver(true, [STX], Unsecured), Incomplete)
  {
    hide CrcMatches, FromByte;
    assert f[..|f| - 1] + [STX] == f;
  }

  /** Whatever such a frame delivers, printing it does not give its bytes back. */
  lemma RestartedFrameReprintsDifferently(table: seq<MsgEntry>, b: Buffer)
    requires b.Sized()
    requires Finished(true, [STX] + V1Tail(table)) && Delivered(table, true, [STX] + V1Tail(table), Ok, b)
    ensures Printed(b.head, b.payload, b.checksum, b.signature) != [STX] + V1Tail(table)
  {
    V1TailIsGood(table);
    var h := [STX] + V1Tail(table);
    hide V1Tail, CrcMatches, FromByte, ToByte, ExpectedCrc, Low, High, SignedFlag, ZeroFilled, Printed;
    ReprintIsIdentity(table, true, h, Ok, b);
  }

  // ----- parse, then print, over streams -----

  /** In every stream, printing what was delivered at an OK gives back the bytes of the accepted frame exactly when its
      marker was that of the layout it was read in and a version 2 payload had no zeros left to trim. */
  lemma ParseThenPrint(table: seq<MsgEntry>, r: Receiver, ins: seq<Input>, i: nat, b: Buffer)
    requires r.hist == [] && i < |ins| && Result(table, r, ins, i) == Ok && b.Sized()
    requires var before := Feed(table, r, ins[..i]);
      var h := before.hist + [ins[i].c];
      Finished(before.v1, h) && Delivered(table, before.v1, h, Ok, b)
    ensures var before := Feed(table, r, ins[..i]);
      var n := |before.hist| + 1;
      n <= i + 1
      && var at := Feed(table, r, ins[..i + 1 - n]);
      Printed(b.head, b.payload, b.checksum, b.signature) == Stream(ins)[i + 1 - n..i + 1] <==>
        (at.hist == [] || !at.v1) && (before.v1 || Trim(b.payload, b.head.len) == b.head.len)
  {
    hide ParseStep, Feed, Delivered, Finished, WellFormed, Trim, Printed, CheckFrame, CrcMatches;
    var before := Feed(table, r, ins[..i]);
    var h := before.hist + [ins[i].c];
    MarkerAgreesExactly(table, r, ins, i);
    Soundness(table, r, ins, i);
    HistoryIsSuffix(table, r, ins[..i]);
    EndOfStream(before.hist, ins, i);
    assert Stream(ins)[i + 1 - |h|] == h[0];
    GoodCrc(table, before.v1, h);
    ReprintIsIdentity(table, before.v1, h, Ok, b);
  }

  lemma GoodCrc(table: seq<MsgEntry>, v1: bool, h: seq<byte>)
    requires WellFormed(table, v1, h)
    ensures Finished(v1, h) && |h| >= HeaderLen(v1) && |h| >= CrcEnd(v1, h) && CrcMatches(table, v1, h)
  {
    hide CrcMatches, FromByte, SignedFlag, UnknownFlags;
  }
}
