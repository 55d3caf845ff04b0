/** Frames byte for byte: what the checksum and the transmit functions of the specification come to on concrete inputs. */
module KnownFrames {
  import opened Bytes
  import opened Checksum
  import opened MessageTable
  import opened Wire
  import opened Sha256
  import opened Signing
  import opened Transmit
  import opened BatteryStatus
  import opened KnownAnswers

  // ----- the checksum, eight bytes at a time -----

  function EightBytes(c: bv16, b0: byte, b1: byte, b2: byte, b3: byte, b4: byte, b5: byte, b6: byte, b7: byte): bv16 {
    FourBytes(FourBytes(c, b0, b1, b2, b3), b4, b5, b6, b7)
  }

  function FourBytes(c: bv16, b0: byte, b1: byte, b2: byte, b3: byte): bv16 {
    Accumulate(b3, Accumulate(b2, Accumulate(b1, Accumulate(b0, c))))
  }

  lemma FoldFour(c: bv16, b0: byte, b1: byte, b2: byte, b3: byte)
    ensures Fold(c, [b0, b1, b2, b3]) == FourBytes(c, b0, b1, b2, b3)
  {
    hide Accumulate, Fold;
    assert [b0, b1, b2, b3] == [b0, b1] + [b2, b3];
    FoldAppend(c, [b0, b1], [b2, b3]);
    FoldTwo(c, b0, b1);
    FoldTwo(Fold(c, [b0, b1]), b2, b3);
  }

  lemma FoldEight(c: bv16, b0: byte, b1: byte, b2: byte, b3: byte, b4: byte, b5: byte, b6: byte, b7: byte)
    ensures Fold(c, [b0, b1, b2, b3, b4, b5, b6, b7]) == EightBytes(c, b0, b1, b2, b3, b4, b5, b6, b7)
  {
    hide FourBytes, Fold;
    assert [b0, b1, b2, b3, b4, b5, b6, b7] == [b0, b1, b2, b3] + [b4, b5, b6, b7];
    FoldAppend(c, [b0, b1, b2, b3], [b4, b5, b6, b7]);
    FoldFour(c, b0, b1, b2, b3);
    FoldFour(FourBytes(c, b0, b1, b2, b3), b4, b5, b6, b7);
  }

  lemma CheckSteps()
    ensures EightBytes(0xffff, 0x31, 0x32, 0x33, 0x34, 0x35, 0x36, 0x37, 0x38) == 0xf795
    ensures Accumulate(0x39, 0xf795) == 0x6f91
  {
  }

  /** The check value of CRC-16/MCRF4XX: that of the digits 1 to 9. */
  lemma CheckCrc(text: seq<byte>)
    requires text == [0x31, 0x32, 0x33, 0x34, 0x35, 0x36, 0x37, 0x38] +
      [0x39]
    ensures Crc(text) == 0x6f91
  {
    hide Accumulate, Fold, EightBytes, FourBytes;
    CheckSteps();
    var t0: seq<byte> := [0x31, 0x32, 0x33, 0x34, 0x35, 0x36, 0x37, 0x38];
    FoldEight(0xffff, 0x31, 0x32, 0x33, 0x34, 0x35, 0x36, 0x37, 0x38);
    var s0 := t0;
    assert Fold(X25_INIT_CRC, s0) == 0xf795;
    var t1: seq<byte> := [0x39];
    FoldOne(0xf795, 0x39);
    FoldAppend(X25_INIT_CRC, s0, t1);
    var s1 := s0 + t1;
    assert Fold(X25_INIT_CRC, s1) == 0x6f91;
  }

  lemma CheckValue()
    ensures Crc([0x31, 0x32, 0x33, 0x34, 0x35, 0x36, 0x37, 0x38, 0x39]) == 0x6f91
  {
    hide Crc;
    CheckCrc([0x31, 0x32, 0x33, 0x34, 0x35, 0x36, 0x37, 0x38, 0x39]);
  }

  // ----- frames -----

  lemma FrameOf(out: Outgoing, body: seq<byte>, head: seq<byte>, crc: bv16, ck: seq<byte>)
    requires |body| < 256 && out.Head(|body|).Bytes() == head && Crc(head[1..] + body) == crc
    requires ChecksumBytes(Accumulate(out.crcExtra, crc)) == ck
    ensures out.Unsigned(body) == head + body + ck
    ensures out.signer.None? ==> out.Frame(body) == head + body + ck
  {
    hide Crc, Accumulate, Low, High, Header.Bytes;
    assert (head + body)[1..] == head[1..] + body;
    assert out.Unsigned(body) + [] == out.Unsigned(body);
  }

  lemma HeartbeatSteps()
    ensures EightBytes(0xffff, 0x09, 0x4e, 0x01, 0x01, 0x00, 0x00, 0x00, 0x00) == 0x9ec7
    ensures FourBytes(0x9ec7, 0x00, 0x02, 0x03, 0x51) == 0x2946
    ensures Accumulate(0x03, Accumulate(0x04, 0x2946)) == 0xfb8e
  {
  }

  lemma HeartbeatCrc(text: seq<byte>)
    requires text == [0x09, 0x4e, 0x01, 0x01, 0x00, 0x00, 0x00, 0x00] +
      [0x00, 0x02, 0x03, 0x51] +
      [0x04, 0x03]
    ensures Crc(text) == 0xfb8e
  {
    hide Accumulate, Fold, EightBytes, FourBytes;
    HeartbeatSteps();
    var t0: seq<byte> := [0x09, 0x4e, 0x01, 0x01, 0x00, 0x00, 0x00, 0x00];
    FoldEight(0xffff, 0x09, 0x4e, 0x01, 0x01, 0x00, 0x00, 0x00, 0x00);
    var s0 := t0;
    assert Fold(X25_INIT_CRC, s0) == 0x9ec7;
    var t1: seq<byte> := [0x00, 0x02, 0x03, 0x51];
    FoldFour(0x9ec7, 0x00, 0x02, 0x03, 0x51);
    FoldAppend(X25_INIT_CRC, s0, t1);
    var s1 := s0 + t1;
    assert Fold(X25_INIT_CRC, s1) == 0x2946;
    var t2: seq<byte> := [0x04, 0x03];
    FoldTwo(0x2946, 0x04, 0x03);
    FoldAppend(X25_INIT_CRC, s1, t2);
    var s2 := s1 + t2;
    assert Fold(X25_INIT_CRC, s2) == 0xfb8e;
  }

  lemma HeartbeatHead()
    ensures Outgoing(true, 0x4e, 1, 1, 0, 50, None).Head(9).Bytes() ==
      [0xfe, 0x09, 0x4e, 0x01, 0x01, 0x00]
  {
    hide ToByte;
    ToByteIs(0);
    ToByteIs(9);
  }

  lemma HeartbeatCk()
    ensures ChecksumBytes(Accumulate(50, 0xfb8e)) == [0x1c, 0x7f]
  {
  }

  /** A version 1 HEARTBEAT, byte for byte. */
  lemma HeartbeatFrame()
    ensures Outgoing(true, 0x4e, 1, 1, 0, 50, None).Frame([0x00, 0x00, 0x00, 0x00, 0x02, 0x03, 0x51, 0x04, 0x03]) ==
      [0xfe, 0x09, 0x4e, 0x01, 0x01, 0x00, 0x00, 0x00, 0x00, 0x00, 0x02, 0x03, 0x51, 0x04, 0x03, 0x1c,
       0x7f]
  {
    hide Outgoing.Frame, Outgoing.Unsigned, Outgoing.Head, Header.Bytes, Crc, Accumulate, ChecksumBytes;
    var out := Outgoing(true, 0x4e, 1, 1, 0, 50, None);
    var head: seq<byte> := [0xfe, 0x09, 0x4e, 0x01, 0x01, 0x00];
    var body: seq<byte> := [0x00, 0x00, 0x00, 0x00, 0x02, 0x03, 0x51, 0x04, 0x03];
    HeartbeatHead();
    HeartbeatText(head, body);
    HeartbeatCrc(head[1..] + body);
    HeartbeatCk();
    FrameOf(out, body, head, 0xfb8e, [0x1c, 0x7f]);
  }

  lemma HeartbeatText(head: seq<byte>, body: seq<byte>)
    requires head == [0xfe, 0x09, 0x4e, 0x01, 0x01, 0x00]
    requires body == [0x00, 0x00, 0x00, 0x00, 0x02, 0x03, 0x51, 0x04, 0x03]
    ensures head[1..] + body == [0x09, 0x4e, 0x01, 0x01, 0x00, 0x00, 0x00, 0x00] + [0x00, 0x02, 0x03, 0x51]
        + [0x04, 0x03]
  {
  }

  lemma SignedSteps()
    ensures EightBytes(0xffff, 0x01, 0x01, 0x00, 0x05, 0x01, 0x02, 0x0b, 0x00) == 0x0919
    ensures Accumulate(0x04, Accumulate(0x00, 0x0919)) == 0x996c
  {
  }

  lemma SignedCrc(text: seq<byte>)
    requires text == [0x01, 0x01, 0x00, 0x05, 0x01, 0x02, 0x0b, 0x00] +
      [0x00, 0x04]
    ensures Crc(text) == 0x996c
  {
    hide Accumulate, Fold, EightBytes, FourBytes;
    SignedSteps();
    var t0: seq<byte> := [0x01, 0x01, 0x00, 0x05, 0x01, 0x02, 0x0b, 0x00];
    FoldEight(0xffff, 0x01, 0x01, 0x00, 0x05, 0x01, 0x02, 0x0b, 0x00);
    var s0 := t0;
    assert Fold(X25_INIT_CRC, s0) == 0x0919;
    var t1: seq<byte> := [0x00, 0x04];
    FoldTwo(0x0919, 0x00, 0x04);
    FoldAppend(X25_INIT_CRC, s0, t1);
    var s1 := s0 + t1;
    assert Fold(X25_INIT_CRC, s1) == 0x996c;
  }

  lemma SignedHead()
    ensures Outgoing(false, 5, 1, 2, 11, 89, Some(Signer(Zeros(32), 1, 0x0605_0403_0201))).Head(1).Bytes() ==
      [0xfd, 0x01, 0x01, 0x00, 0x05, 0x01, 0x02, 0x0b, 0x00, 0x00]
  {
    hide ToByte;
    ToByteIs(0);
    ToByteIs(1);
    ToByteIs(11);
  }

  lemma SignedCk()
    ensures ChecksumBytes(Accumulate(89, 0x996c)) == [0xb7, 0x66]
  {
  }

  /** A version 2 SET_MODE with its payload trimmed to one byte, up to its signature. */
  lemma SignedFrameUnsigned()
    ensures Outgoing(false, 5, 1, 2, 11, 89, Some(Signer(Zeros(32), 1, 0x0605_0403_0201))).Unsigned([0x04]) ==
      [0xfd, 0x01, 0x01, 0x00, 0x05, 0x01, 0x02, 0x0b, 0x00, 0x00, 0x04, 0xb7, 0x66]
  {
    hide Outgoing.Frame, Outgoing.Unsigned, Outgoing.Head, Header.Bytes, Crc, Accumulate, ChecksumBytes;
    var out := Outgoing(false, 5, 1, 2, 11, 89, Some(Signer(Zeros(32), 1, 0x0605_0403_0201)));
    var head: seq<byte> := [0xfd, 0x01, 0x01, 0x00, 0x05, 0x01, 0x02, 0x0b, 0x00, 0x00];
    var body: seq<byte> := [0x04];
    SignedHead();
    SignedText(head, body);
    SignedCrc(head[1..] + body);
    SignedCk();
    FrameOf(out, body, head, 0x996c, [0xb7, 0x66]);
  }

  lemma SignedText(head: seq<byte>, body: seq<byte>)
    requires head == [0xfd, 0x01, 0x01, 0x00, 0x05, 0x01, 0x02, 0x0b, 0x00, 0x00]
    requires body == [0x04]
    ensures head[1..] + body == [0x01, 0x01, 0x00, 0x05, 0x01, 0x02, 0x0b, 0x00] + [0x00, 0x04]
  {
  }

  lemma WideIdSteps()
    ensures EightBytes(0xffff, 0x06, 0x00, 0x00, 0x05, 0x01, 0x02, 0x0b, 0x02) == 0x29d0
    ensures FourBytes(0x29d0, 0x01, 0x04, 0x00, 0x00) == 0x1887
    ensures Accumulate(0x80, Accumulate(0x01, Accumulate(0x00, 0x1887))) == 0x4668
  {
  }

  lemma WideIdCrc(text: seq<byte>)
    requires text == [0x06, 0x00, 0x00, 0x05, 0x01, 0x02, 0x0b, 0x02] +
      [0x01, 0x04, 0x00, 0x00] +
      [0x00, 0x01, 0x80]
    ensures Crc(text) == 0x4668
  {
    hide Accumulate, Fold, EightBytes, FourBytes;
    WideIdSteps();
    var t0: seq<byte> := [0x06, 0x00, 0x00, 0x05, 0x01, 0x02, 0x0b, 0x02];
    FoldEight(0xffff, 0x06, 0x00, 0x00, 0x05, 0x01, 0x02, 0x0b, 0x02);
    var s0 := t0;
    assert Fold(X25_INIT_CRC, s0) == 0x29d0;
    var t1: seq<byte> := [0x01, 0x04, 0x00, 0x00];
    FoldFour(0x29d0, 0x01, 0x04, 0x00, 0x00);
    FoldAppend(X25_INIT_CRC, s0, t1);
    var s1 := s0 + t1;
    assert Fold(X25_INIT_CRC, s1) == 0x1887;
    var t2: seq<byte> := [0x00, 0x01, 0x80];
    FoldThree(0x1887, 0x00, 0x01, 0x80);
    FoldAppend(X25_INIT_CRC, s1, t2);
    var s2 := s1 + t2;
    assert Fold(X25_INIT_CRC, s2) == 0x4668;
  }

  lemma WideIdHead()
    ensures Outgoing(false, 5, 1, 2, 0x01_020B, 89, None).Head(6).Bytes() ==
      [0xfd, 0x06, 0x00, 0x00, 0x05, 0x01, 0x02, 0x0b, 0x02, 0x01]
  {
    hide ToByte;
    ToByteIs(1);
    ToByteIs(2);
    ToByteIs(6);
    ToByteIs(11);
  }

  lemma WideIdCk()
    ensures ChecksumBytes(Accumulate(89, 0x4668)) == [0x4c, 0x20]
  {
  }

  /** A version 2 frame with a payload of six bytes and an id of three, byte for byte. */
  lemma WideIdFrame()
    ensures Outgoing(false, 5, 1, 2, 0x01_020B, 89, None).Frame([0x04, 0x00, 0x00, 0x00, 0x01, 0x80]) ==
      [0xfd, 0x06, 0x00, 0x00, 0x05, 0x01, 0x02, 0x0b, 0x02, 0x01, 0x04, 0x00, 0x00, 0x00, 0x01, 0x80,
       0x4c, 0x20]
  {
    hide Outgoing.Frame, Outgoing.Unsigned, Outgoing.Head, Header.Bytes, Crc, Accumulate, ChecksumBytes;
    var out := Outgoing(false, 5, 1, 2, 0x01_020B, 89, None);
    var head: seq<byte> := [0xfd, 0x06, 0x00, 0x00, 0x05, 0x01, 0x02, 0x0b, 0x02, 0x01];
    var body: seq<byte> := [0x04, 0x00, 0x00, 0x00, 0x01, 0x80];
    WideIdHead();
    WideIdText(head, body);
    WideIdCrc(head[1..] + body);
    WideIdCk();
    FrameOf(out, body, head, 0x4668, [0x4c, 0x20]);
  }

  lemma WideIdText(head: seq<byte>, body: seq<byte>)
    requires head == [0xfd, 0x06, 0x00, 0x00, 0x05, 0x01, 0x02, 0x0b, 0x02, 0x01]
    requires body == [0x04, 0x00, 0x00, 0x00, 0x01, 0x80]
    ensures head[1..] + body == [0x06, 0x00, 0x00, 0x05, 0x01, 0x02, 0x0b, 0x02] + [0x01, 0x04, 0x00, 0x00]
        + [0x00, 0x01, 0x80]
  {
  }

  // ----- a signed frame -----

  const FRAME_0: Eight := Eight(0x00000000, 0x00000000, 0x00000000, 0x00000000, 0x00000000, 0x00000000, 0x00000000,
      0x00000000)
  const FRAME_8: Eight := Eight(0xfd010100, 0x0501020b, 0x000004b7, 0x66010102, 0x03040506, 0x80000000, 0x00000000,
      0x000001a0)
  const FRAME_16: Eight := Eight(0x0501020b, 0x00e404b7, 0x0746a362, 0x85d15e75, 0x05dc92e3, 0x84d50605, 0xdb2c9711,
      0x86fe671e)
  const FRAME_24: Eight := Eight(0x2d6a0692, 0x7ac29245, 0x11ae2867, 0x94793eed, 0x6a142c73, 0x13bafe0d, 0x5b13c498,
      0xa456b04c)
  const FRAME_32: Eight := Eight(0x89bdff10, 0x0cd7d926, 0x883504eb, 0xe9a366fd, 0x9674b546, 0xdc9ba8e0, 0xffc6ddc8,
      0x526ad8e7)
  const FRAME_40: Eight := Eight(0x10e0fb40, 0x8082ce35, 0xe43a7274, 0x4a74bc68, 0x65d1242c, 0xa81fd70e, 0x85daba16,
      0x166518f8)
  const FRAME_48: Eight := Eight(0xd07489e0, 0xa7a504eb, 0xe7fa80e3, 0x24e9b3ef, 0x7efb7361, 0x8b6f196e, 0x60bf7f75,
      0x4f858c89)
  const FRAME_56: Eight := Eight(0xd16e703c, 0x4a15c20d, 0xf6123bd1, 0x404058ba, 0x497fee27, 0xc36f1201, 0x9503c5c1,
      0x4d19d784)

  lemma FrameEachWord16()
    ensures Scheduled(0x00000000, 0x0501020b, 0x00000000, 0x00000000) == 0x0501020b
    ensures Scheduled(0x000001a0, 0x000004b7, 0x00000000, 0x00000000) == 0x00e404b7
    ensures Scheduled(0x0501020b, 0x66010102, 0x00000000, 0x00000000) == 0x0746a362
    ensures Scheduled(0x00e404b7, 0x03040506, 0x00000000, 0x00000000) == 0x85d15e75
    ensures Scheduled(0x0746a362, 0x80000000, 0x00000000, 0x00000000) == 0x05dc92e3
    ensures Scheduled(0x85d15e75, 0x00000000, 0x00000000, 0x00000000) == 0x84d50605
    ensures Scheduled(0x05dc92e3, 0x000001a0, 0x00000000, 0x00000000) == 0xdb2c9711
    ensures Scheduled(0x84d50605, 0x0501020b, 0xfd010100, 0x00000000) == 0x86fe671e
  {
  }

  lemma FrameWords16()
    ensures NextEight(FRAME_0, FRAME_8) == FRAME_16
  {
    hide Scheduled;
    FrameEachWord16();
  }

  lemma FrameEachWord24()
    ensures Scheduled(0xdb2c9711, 0x00e404b7, 0x0501020b, 0xfd010100) == 0x2d6a0692
    ensures Scheduled(0x86fe671e, 0x0746a362, 0x000004b7, 0x0501020b) == 0x7ac29245
    ensures Scheduled(0x2d6a0692, 0x85d15e75, 0x66010102, 0x000004b7) == 0x11ae2867
    ensures Scheduled(0x7ac29245, 0x05dc92e3, 0x03040506, 0x66010102) == 0x94793eed
    ensures Scheduled(0x11ae2867, 0x84d50605, 0x80000000, 0x03040506) == 0x6a142c73
    ensures Scheduled(0x94793eed, 0xdb2c9711, 0x00000000, 0x80000000) == 0x13bafe0d
    ensures Scheduled(0x6a142c73, 0x86fe671e, 0x000001a0, 0x00000000) == 0x5b13c498
    ensures Scheduled(0x13bafe0d, 0x2d6a0692, 0x0501020b, 0x000001a0) == 0xa456b04c
  {
  }

  lemma FrameWords24()
    ensures NextEight(FRAME_8, FRAME_16) == FRAME_24
  {
    hide Scheduled;
    FrameEachWord24();
  }

  lemma FrameEachWord32()
    ensures Scheduled(0x5b13c498, 0x7ac29245, 0x00e404b7, 0x0501020b) == 0x89bdff10
    ensures Scheduled(0xa456b04c, 0x11ae2867, 0x0746a362, 0x00e404b7) == 0x0cd7d926
    ensures Scheduled(0x89bdff10, 0x94793eed, 0x85d15e75, 0x0746a362) == 0x883504eb
    ensures Scheduled(0x0cd7d926, 0x6a142c73, 0x05dc92e3, 0x85d15e75) == 0xe9a366fd
    ensures Scheduled(0x883504eb, 0x13bafe0d, 0x84d50605, 0x05dc92e3) == 0x9674b546
    ensures Scheduled(0xe9a366fd, 0x5b13c498, 0xdb2c9711, 0x84d50605) == 0xdc9ba8e0
    ensures Scheduled(0x9674b546, 0xa456b04c, 0x86fe671e, 0xdb2c9711) == 0xffc6ddc8
    ensures Scheduled(0xdc9ba8e0, 0x89bdff10, 0x2d6a0692, 0x86fe671e) == 0x526ad8e7
  {
  }

  lemma FrameWords32()
    ensures NextEight(FRAME_16, FRAME_24) == FRAME_32
  {
    hide Scheduled;
    FrameEachWord32();
  }

  lemma FrameEachWord40()
    ensures Scheduled(0xffc6ddc8, 0x0cd7d926, 0x7ac29245, 0x2d6a0692) == 0x10e0fb40
    ensures Scheduled(0x526ad8e7, 0x883504eb, 0x11ae2867, 0x7ac29245) == 0x8082ce35
    ensures Scheduled(0x10e0fb40, 0xe9a366fd, 0x94793eed, 0x11ae2867) == 0xe43a7274
    ensures Scheduled(0x8082ce35, 0x9674b546, 0x6a142c73, 0x94793eed) == 0x4a74bc68
    ensures Scheduled(0xe43a7274, 0xdc9ba8e0, 0x13bafe0d, 0x6a142c73) == 0x65d1242c
    ensures Scheduled(0x4a74bc68, 0xffc6ddc8, 0x5b13c498, 0x13bafe0d) == 0xa81fd70e
    ensures Scheduled(0x65d1242c, 0x526ad8e7, 0xa456b04c, 0x5b13c498) == 0x85daba16
    ensures Scheduled(0xa81fd70e, 0x10e0fb40, 0x89bdff10, 0xa456b04c) == 0x166518f8
  {
  }

  lemma FrameWords40()
    ensures NextEight(FRAME_24, FRAME_32) == FRAME_40
  {
    hide Scheduled;
    FrameEachWord40();
  }

  lemma FrameEachWord48()
    ensures Scheduled(0x85daba16, 0x8082ce35, 0x0cd7d926, 0x89bdff10) == 0xd07489e0
    ensures Scheduled(0x166518f8, 0xe43a7274, 0x883504eb, 0x0cd7d926) == 0xa7a504eb
    ensures Scheduled(0xd07489e0, 0x4a74bc68, 0xe9a366fd, 0x883504eb) == 0xe7fa80e3
    ensures Scheduled(0xa7a504eb, 0x65d1242c, 0x9674b546, 0xe9a366fd) == 0x24e9b3ef
    ensures Scheduled(0xe7fa80e3, 0xa81fd70e, 0xdc9ba8e0, 0x9674b546) == 0x7efb7361
    ensures Scheduled(0x24e9b3ef, 0x85daba16, 0xffc6ddc8, 0xdc9ba8e0) == 0x8b6f196e
    ensures Scheduled(0x7efb7361, 0x166518f8, 0x526ad8e7, 0xffc6ddc8) == 0x60bf7f75
    ensures Scheduled(0x8b6f196e, 0xd07489e0, 0x10e0fb40, 0x526ad8e7) == 0x4f858c89
  {
  }

  lemma FrameWords48()
    ensures NextEight(FRAME_32, FRAME_40) == FRAME_48
  {
    hide Scheduled;
    FrameEachWord48();
  }

  lemma FrameEachWord56()
    ensures Scheduled(0x60bf7f75, 0xa7a504eb, 0x8082ce35, 0x10e0fb40) == 0xd16e703c
    ensures Scheduled(0x4f858c89, 0xe7fa80e3, 0xe43a7274, 0x8082ce35) == 0x4a15c20d
    ensures Scheduled(0xd16e703c, 0x24e9b3ef, 0x4a74bc68, 0xe43a7274) == 0xf6123bd1
    ensures Scheduled(0x4a15c20d, 0x7efb7361, 0x65d1242c, 0x4a74bc68) == 0x404058ba
    ensures Scheduled(0xf6123bd1, 0x8b6f196e, 0xa81fd70e, 0x65d1242c) == 0x497fee27
    ensures Scheduled(0x404058ba, 0x60bf7f75, 0x85daba16, 0xa81fd70e) == 0xc36f1201
    ensures Scheduled(0x497fee27, 0x4f858c89, 0x166518f8, 0x85daba16) == 0x9503c5c1
    ensures Scheduled(0xc36f1201, 0xd16e703c, 0xd07489e0, 0x166518f8) == 0x4d19d784
  {
  }

  lemma FrameWords56()
    ensures NextEight(FRAME_40, FRAME_48) == FRAME_56
  {
    hide Scheduled;
    FrameEachWord56();
  }

  const FRAME_STATE8: Vars := Vars(0x5e498fb3, 0x965ecae2, 0x6bb2da87, 0x489fc27e, 0x9426ec60, 0x79c76dda,
      0x9d120f96, 0x2cab14aa)
  const FRAME_STATE16: Vars := Vars(0xa715c954, 0x7e68cea1, 0x088a7e1e, 0x2b8be466, 0xef48df1c, 0x2e6550bc,
      0x18b4ba3f, 0xc9d1aa11)
  const FRAME_STATE24: Vars := Vars(0xa6c28745, 0x10886469, 0xc96ad0da, 0x8f678296, 0xf0589fdd, 0xe73eea41,
      0x45c36811, 0x9814995e)
  const FRAME_STATE32: Vars := Vars(0x33f540cb, 0x9fe1c805, 0x2c6ba3c9, 0xcc0d7ced, 0xb2a1b46e, 0xc9db907c,
      0x01d31a2a, 0x090746a0)
  const FRAME_STATE40: Vars := Vars(0x3ce0dc15, 0xc8477665, 0x3a80cf2e, 0x40eed733, 0xa1144bad, 0x04defacc,
      0xd66b912c, 0xaf58d9dd)
  const FRAME_STATE48: Vars := Vars(0x2b15ed2a, 0x4e66548b, 0xcf840d7e, 0x9207301f, 0x5f612d2d, 0x16e5723d,
      0x1c6fae22, 0x7c364299)
  const FRAME_STATE56: Vars := Vars(0xba3c09a7, 0x8014b04c, 0x4b045301, 0xa7b32b74, 0xe01db2ac, 0x658d2e03,
      0xc8ae3e0d, 0x98d06a6f)
  const FRAME_STATE64: Vars := Vars(0xde718d74, 0xdec029cb, 0x25e53bb5, 0x7e92729e, 0x63b8e4b2, 0x881700ea,
      0x71ceacc2, 0xd93df8fc)

  lemma FrameEachRound0()
    ensures Round(Vars(0x6a09e667, 0xbb67ae85, 0x3c6ef372, 0xa54ff53a, 0x510e527f, 0x9b05688c, 0x1f83d9ab,
        0x5be0cd19), 0x428a2f98, 0x00000000) ==
      Vars(0xfc08884d, 0x6a09e667, 0xbb67ae85, 0x3c6ef372, 0x98c7e2a2, 0x510e527f, 0x9b05688c, 0x1f83d9ab)
    ensures Round(Vars(0xfc08884d, 0x6a09e667, 0xbb67ae85, 0x3c6ef372, 0x98c7e2a2, 0x510e527f, 0x9b05688c,
        0x1f83d9ab), 0x71374491, 0x00000000) ==
      Vars(0x7ad96290, 0xfc08884d, 0x6a09e667, 0xbb67ae85, 0x9df1b216, 0x98c7e2a2, 0x510e527f, 0x9b05688c)
    ensures Round(Vars(0x7ad96290, 0xfc08884d, 0x6a09e667, 0xbb67ae85, 0x9df1b216, 0x98c7e2a2, 0x510e527f,
        0x9b05688c), 0xb5c0fbcf, 0x00000000) ==
      Vars(0xf3dd6c3f, 0x7ad96290, 0xfc08884d, 0x6a09e667, 0xc57b68fb, 0x9df1b216, 0x98c7e2a2, 0x510e527f)
    ensures Round(Vars(0xf3dd6c3f, 0x7ad96290, 0xfc08884d, 0x6a09e667, 0xc57b68fb, 0x9df1b216, 0x98c7e2a2,
        0x510e527f), 0xe9b5dba5, 0x00000000) ==
      Vars(0x0a24b1aa, 0xf3dd6c3f, 0x7ad96290, 0xfc08884d, 0x909cf5c9, 0xc57b68fb, 0x9df1b216, 0x98c7e2a2)
    ensures Round(Vars(0x0a24b1aa, 0xf3dd6c3f, 0x7ad96290, 0xfc08884d, 0x909cf5c9, 0xc57b68fb, 0x9df1b216,
        0x98c7e2a2), 0x3956c25b, 0x00000000) ==
      Vars(0x489fc27e, 0x0a24b1aa, 0xf3dd6c3f, 0x7ad96290, 0x2cab14aa, 0x909cf5c9, 0xc57b68fb, 0x9df1b216)
    ensures Round(Vars(0x489fc27e, 0x0a24b1aa, 0xf3dd6c3f, 0x7ad96290, 0x2cab14aa, 0x909cf5c9, 0xc57b68fb,
        0x9df1b216), 0x59f111f1, 0x00000000) ==
      Vars(0x6bb2da87, 0x489fc27e, 0x0a24b1aa, 0xf3dd6c3f, 0x9d120f96, 0x2cab14aa, 0x909cf5c9, 0xc57b68fb)
    ensures Round(Vars(0x6bb2da87, 0x489fc27e, 0x0a24b1aa, 0xf3dd6c3f, 0x9d120f96, 0x2cab14aa, 0x909cf5c9,
        0xc57b68fb), 0x923f82a4, 0x00000000) ==
      Vars(0x965ecae2, 0x6bb2da87, 0x489fc27e, 0x0a24b1aa, 0x79c76dda, 0x9d120f96, 0x2cab14aa, 0x909cf5c9)
    ensures Round(Vars(0x965ecae2, 0x6bb2da87, 0x489fc27e, 0x0a24b1aa, 0x79c76dda, 0x9d120f96, 0x2cab14aa,
        0x909cf5c9), 0xab1c5ed5, 0x00000000) ==
      Vars(0x5e498fb3, 0x965ecae2, 0x6bb2da87, 0x489fc27e, 0x9426ec60, 0x79c76dda, 0x9d120f96, 0x2cab14aa)
  {
  }

  lemma FrameRounds0()
    ensures EightRounds(INITIAL_STATE, CONSTANTS0, FRAME_0) == FRAME_STATE8
  {
    hide Round;
    FrameEachRound0();
  }

  lemma FrameEachRound8()
    ensures Round(Vars(0x5e498fb3, 0x965ecae2, 0x6bb2da87, 0x489fc27e, 0x9426ec60, 0x79c76dda, 0x9d120f96,
        0x2cab14aa), 0xd807aa98, 0xfd010100) ==
      Vars(0x228f86ba, 0x5e498fb3, 0x965ecae2, 0x6bb2da87, 0x809e21bc, 0x9426ec60, 0x79c76dda, 0x9d120f96)
    ensures Round(Vars(0x228f86ba, 0x5e498fb3, 0x965ecae2, 0x6bb2da87, 0x809e21bc, 0x9426ec60, 0x79c76dda,
        0x9d120f96), 0x12835b01, 0x0501020b) ==
      Vars(0xd2183a10, 0x228f86ba, 0x5e498fb3, 0x965ecae2, 0xa413688d, 0x809e21bc, 0x9426ec60, 0x79c76dda)
    ensures Round(Vars(0xd2183a10, 0x228f86ba, 0x5e498fb3, 0x965ecae2, 0xa413688d, 0x809e21bc, 0x9426ec60,
        0x79c76dda), 0x243185be, 0x000004b7) ==
      Vars(0x33b29217, 0xd2183a10, 0x228f86ba, 0x5e498fb3, 0xf31ef13a, 0xa413688d, 0x809e21bc, 0x9426ec60)
    ensures Round(Vars(0x33b29217, 0xd2183a10, 0x228f86ba, 0x5e498fb3, 0xf31ef13a, 0xa413688d, 0x809e21bc,
        0x9426ec60), 0x550c7dc3, 0x66010102) ==
      Vars(0xfc694905, 0x33b29217, 0xd2183a10, 0x228f86ba, 0x91fae0c7, 0xf31ef13a, 0xa413688d, 0x809e21bc)
    ensures Round(Vars(0xfc694905, 0x33b29217, 0xd2183a10, 0x228f86ba, 0x91fae0c7, 0xf31ef13a, 0xa413688d,
        0x809e21bc), 0x72be5d74, 0x03040506) ==
      Vars(0x2b8be466, 0xfc694905, 0x33b29217, 0xd2183a10, 0xc9d1aa11, 0x91fae0c7, 0xf31ef13a, 0xa413688d)
    ensures Round(Vars(0x2b8be466, 0xfc694905, 0x33b29217, 0xd2183a10, 0xc9d1aa11, 0x91fae0c7, 0xf31ef13a,
        0xa413688d), 0x80deb1fe, 0x80000000) ==
      Vars(0x088a7e1e, 0x2b8be466, 0xfc694905, 0x33b29217, 0x18b4ba3f, 0xc9d1aa11, 0x91fae0c7, 0xf31ef13a)
    ensures Round(Vars(0x088a7e1e, 0x2b8be466, 0xfc694905, 0x33b29217, 0x18b4ba3f, 0xc9d1aa11, 0x91fae0c7,
        0xf31ef13a), 0x9bdc06a7, 0x00000000) ==
      Vars(0x7e68cea1, 0x088a7e1e, 0x2b8be466, 0xfc694905, 0x2e6550bc, 0x18b4ba3f, 0xc9d1aa11, 0x91fae0c7)
    ensures Round(Vars(0x7e68cea1, 0x088a7e1e, 0x2b8be466, 0xfc694905, 0x2e6550bc, 0x18b4ba3f, 0xc9d1aa11,
        0x91fae0c7), 0xc19bf174, 0x000001a0) ==
      Vars(0xa715c954, 0x7e68cea1, 0x088a7e1e, 0x2b8be466, 0xef48df1c, 0x2e6550bc, 0x18b4ba3f, 0xc9d1aa11)
  {
  }

  lemma FrameRounds8()
    ensures EightRounds(FRAME_STATE8, CONSTANTS8, FRAME_8) == FRAME_STATE16
  {
    hide Round;
    FrameEachRound8();
  }

  lemma FrameEachRound16()
    ensures Round(Vars(0xa715c954, 0x7e68cea1, 0x088a7e1e, 0x2b8be466, 0xef48df1c, 0x2e6550bc, 0x18b4ba3f,
        0xc9d1aa11), 0xe49b69c1, 0x0501020b) ==
      Vars(0x88ffb0a7, 0xa715c954, 0x7e68cea1, 0x088a7e1e, 0x523dae92, 0xef48df1c, 0x2e6550bc, 0x18b4ba3f)
    ensures Round(Vars(0x88ffb0a7, 0xa715c954, 0x7e68cea1, 0x088a7e1e, 0x523dae92, 0xef48df1c, 0x2e6550bc,
        0x18b4ba3f), 0xefbe4786, 0x00e404b7) ==
      Vars(0x45b4db7a, 0x88ffb0a7, 0xa715c954, 0x7e68cea1, 0x06005afc, 0x523dae92, 0xef48df1c, 0x2e6550bc)
    ensures Round(Vars(0x45b4db7a, 0x88ffb0a7, 0xa715c954, 0x7e68cea1, 0x06005afc, 0x523dae92, 0xef48df1c,
        0x2e6550bc), 0x0fc19dc6, 0x0746a362) ==
      Vars(0xfff4acbb, 0x45b4db7a, 0x88ffb0a7, 0xa715c954, 0x5ed4af78, 0x06005afc, 0x523dae92, 0xef48df1c)
    ensures Round(Vars(0xfff4acbb, 0x45b4db7a, 0x88ffb0a7, 0xa715c954, 0x5ed4af78, 0x06005afc, 0x523dae92,
        0xef48df1c), 0x240ca1cc, 0x85d15e75) ==
      Vars(0x19fc128d, 0xfff4acbb, 0x45b4db7a, 0x88ffb0a7, 0xaa8ce7b2, 0x5ed4af78, 0x06005afc, 0x523dae92)
    ensures Round(Vars(0x19fc128d, 0xfff4acbb, 0x45b4db7a, 0x88ffb0a7, 0xaa8ce7b2, 0x5ed4af78, 0x06005afc,
        0x523dae92), 0x2de92c6f, 0x05dc92e3) ==
      Vars(0x8f678296, 0x19fc128d, 0xfff4acbb, 0x45b4db7a, 0x9814995e, 0xaa8ce7b2, 0x5ed4af78, 0x06005afc)
    ensures Round(Vars(0x8f678296, 0x19fc128d, 0xfff4acbb, 0x45b4db7a, 0x9814995e, 0xaa8ce7b2, 0x5ed4af78,
        0x06005afc), 0x4a7484aa, 0x84d50605) ==
      Vars(0xc96ad0da, 0x8f678296, 0x19fc128d, 0xfff4acbb, 0x45c36811, 0x9814995e, 0xaa8ce7b2, 0x5ed4af78)
    ensures Round(Vars(0xc96ad0da, 0x8f678296, 0x19fc128d, 0xfff4acbb, 0x45c36811, 0x9814995e, 0xaa8ce7b2,
        0x5ed4af78), 0x5cb0a9dc, 0xdb2c9711) ==
      Vars(0x10886469, 0xc96ad0da, 0x8f678296, 0x19fc128d, 0xe73eea41, 0x45c36811, 0x9814995e, 0xaa8ce7b2)
    ensures Round(Vars(0x10886469, 0xc96ad0da, 0x8f678296, 0x19fc128d, 0xe73eea41, 0x45c36811, 0x9814995e,
        0xaa8ce7b2), 0x76f988da, 0x86fe671e) ==
      Vars(0xa6c28745, 0x10886469, 0xc96ad0da, 0x8f678296, 0xf0589fdd, 0xe73eea41, 0x45c36811, 0x9814995e)
  {
  }

  lemma FrameRounds16()
    ensures EightRounds(FRAME_STATE16, CONSTANTS16, FRAME_16) == FRAME_STATE24
  {
    hide Round;
    FrameEachRound16();
  }

  lemma FrameEachRound24()
    ensures Round(Vars(0xa6c28745, 0x10886469, 0xc96ad0da, 0x8f678296, 0xf0589fdd, 0xe73eea41, 0x45c36811,
        0x9814995e), 0x983e5152, 0x2d6a0692) ==
      Vars(0xbdd4a8be, 0xa6c28745, 0x10886469, 0xc96ad0da, 0x72f0e5ad, 0xf0589fdd, 0xe73eea41, 0x45c36811)
    ensures Round(Vars(0xbdd4a8be, 0xa6c28745, 0x10886469, 0xc96ad0da, 0x72f0e5ad, 0xf0589fdd, 0xe73eea41,
        0x45c36811), 0xa831c66d, 0x7ac29245) ==
      Vars(0x43107ead, 0xbdd4a8be, 0xa6c28745, 0x10886469, 0x9f986c9d, 0x72f0e5ad, 0xf0589fdd, 0xe73eea41)
    ensures Round(Vars(0x43107ead, 0xbdd4a8be, 0xa6c28745, 0x10886469, 0x9f986c9d, 0x72f0e5ad, 0xf0589fdd,
        0xe73eea41), 0xb00327c8, 0x11ae2867) ==
      Vars(0xd1e26f7e, 0x43107ead, 0xbdd4a8be, 0xa6c28745, 0x56457316, 0x9f986c9d, 0x72f0e5ad, 0xf0589fdd)
    ensures Round(Vars(0xd1e26f7e, 0x43107ead, 0xbdd4a8be, 0xa6c28745, 0x56457316, 0x9f986c9d, 0x72f0e5ad,
        0xf0589fdd), 0xbf597fc7, 0x94793eed) ==
      Vars(0xac0af7e0, 0xd1e26f7e, 0x43107ead, 0xbdd4a8be, 0x3ac920dc, 0x56457316, 0x9f986c9d, 0x72f0e5ad)
    ensures Round(Vars(0xac0af7e0, 0xd1e26f7e, 0x43107ead, 0xbdd4a8be, 0x3ac920dc, 0x56457316, 0x9f986c9d,
        0x72f0e5ad), 0xc6e00bf3, 0x6a142c73) ==
      Vars(0xcc0d7ced, 0xac0af7e0, 0xd1e26f7e, 0x43107ead, 0x090746a0, 0x3ac920dc, 0x56457316, 0x9f986c9d)
    ensures Round(Vars(0xcc0d7ced, 0xac0af7e0, 0xd1e26f7e, 0x43107ead, 0x090746a0, 0x3ac920dc, 0x56457316,
        0x9f986c9d), 0xd5a79147, 0x13bafe0d) ==
      Vars(0x2c6ba3c9, 0xcc0d7ced, 0xac0af7e0, 0xd1e26f7e, 0x01d31a2a, 0x090746a0, 0x3ac920dc, 0x56457316)
    ensures Round(Vars(0x2c6ba3c9, 0xcc0d7ced, 0xac0af7e0, 0xd1e26f7e, 0x01d31a2a, 0x090746a0, 0x3ac920dc,
        0x56457316), 0x06ca6351, 0x5b13c498) ==
      Vars(0x9fe1c805, 0x2c6ba3c9, 0xcc0d7ced, 0xac0af7e0, 0xc9db907c, 0x01d31a2a, 0x090746a0, 0x3ac920dc)
    ensures Round(Vars(0x9fe1c805, 0x2c6ba3c9, 0xcc0d7ced, 0xac0af7e0, 0xc9db907c, 0x01d31a2a, 0x090746a0,
        0x3ac920dc), 0x14292967, 0xa456b04c) ==
      Vars(0x33f540cb, 0x9fe1c805, 0x2c6ba3c9, 0xcc0d7ced, 0xb2a1b46e, 0xc9db907c, 0x01d31a2a, 0x090746a0)
  {
  }

  lemma FrameRounds24()
    ensures EightRounds(FRAME_STATE24, CONSTANTS24, FRAME_24) == FRAME_STATE32
  {
    hide Round;
    FrameEachRound24();
  }

  lemma FrameEachRound32()
    ensures Round(Vars(0x33f540cb, 0x9fe1c805, 0x2c6ba3c9, 0xcc0d7ced, 0xb2a1b46e, 0xc9db907c, 0x01d31a2a,
        0x090746a0), 0x27b70a85, 0x89bdff10) ==
      Vars(0x03a0747f, 0x33f540cb, 0x9fe1c805, 0x2c6ba3c9, 0x70244d4c, 0xb2a1b46e, 0xc9db907c, 0x01d31a2a)
    ensures Round(Vars(0x03a0747f, 0x33f540cb, 0x9fe1c805, 0x2c6ba3c9, 0x70244d4c, 0xb2a1b46e, 0xc9db907c,
        0x01d31a2a), 0x2e1b2138, 0x0cd7d926) ==
      Vars(0x77cd18e9, 0x03a0747f, 0x33f540cb, 0x9fe1c805, 0xad958051, 0x70244d4c, 0xb2a1b46e, 0xc9db907c)
    ensures Round(Vars(0x77cd18e9, 0x03a0747f, 0x33f540cb, 0x9fe1c805, 0xad958051, 0x70244d4c, 0xb2a1b46e,
        0xc9db907c), 0x4d2c6dfc, 0x883504eb) ==
      Vars(0x3a65b2b0, 0x77cd18e9, 0x03a0747f, 0x33f540cb, 0xf786cc3d, 0xad958051, 0x70244d4c, 0xb2a1b46e)
    ensures Round(Vars(0x3a65b2b0, 0x77cd18e9, 0x03a0747f, 0x33f540cb, 0xf786cc3d, 0xad958051, 0x70244d4c,
        0xb2a1b46e), 0x53380d13, 0xe9a366fd) ==
      Vars(0x89e04f42, 0x3a65b2b0, 0x77cd18e9, 0x03a0747f, 0x7c1ddfac, 0xf786cc3d, 0xad958051, 0x70244d4c)
    ensures Round(Vars(0x89e04f42, 0x3a65b2b0, 0x77cd18e9, 0x03a0747f, 0x7c1ddfac, 0xf786cc3d, 0xad958051,
        0x70244d4c), 0x650a7354, 0x9674b546) ==
      Vars(0x40eed733, 0x89e04f42, 0x3a65b2b0, 0x77cd18e9, 0xaf58d9dd, 0x7c1ddfac, 0xf786cc3d, 0xad958051)
    ensures Round(Vars(0x40eed733, 0x89e04f42, 0x3a65b2b0, 0x77cd18e9, 0xaf58d9dd, 0x7c1ddfac, 0xf786cc3d,
        0xad958051), 0x766a0abb, 0xdc9ba8e0) ==
      Vars(0x3a80cf2e, 0x40eed733, 0x89e04f42, 0x3a65b2b0, 0xd66b912c, 0xaf58d9dd, 0x7c1ddfac, 0xf786cc3d)
    ensures Round(Vars(0x3a80cf2e, 0x40eed733, 0x89e04f42, 0x3a65b2b0, 0xd66b912c, 0xaf58d9dd, 0x7c1ddfac,
        0xf786cc3d), 0x81c2c92e, 0xffc6ddc8) ==
      Vars(0xc8477665, 0x3a80cf2e, 0x40eed733, 0x89e04f42, 0x04defacc, 0xd66b912c, 0xaf58d9dd, 0x7c1ddfac)
    ensures Round(Vars(0xc8477665, 0x3a80cf2e, 0x40eed733, 0x89e04f42, 0x04defacc, 0xd66b912c, 0xaf58d9dd,
        0x7c1ddfac), 0x92722c85, 0x526ad8e7) ==
      Vars(0x3ce0dc15, 0xc8477665, 0x3a80cf2e, 0x40eed733, 0xa1144bad, 0x04defacc, 0xd66b912c, 0xaf58d9dd)
  {
  }

  lemma FrameRounds32()
    ensures EightRounds(FRAME_STATE32, CONSTANTS32, FRAME_32) == FRAME_STATE40
  {
    hide Round;
    FrameEachRound32();
  }

  lemma FrameEachRound40()
    ensures Round(Vars(0x3ce0dc15, 0xc8477665, 0x3a80cf2e, 0x40eed733, 0xa1144bad, 0x04defacc, 0xd66b912c,
        0xaf58d9dd), 0xa2bfe8a1, 0x10e0fb40) ==
      Vars(0x6831a0d6, 0x3ce0dc15, 0xc8477665, 0x3a80cf2e, 0x437e14f4, 0xa1144bad, 0x04defacc, 0xd66b912c)
    ensures Round(Vars(0x6831a0d6, 0x3ce0dc15, 0xc8477665, 0x3a80cf2e, 0x437e14f4, 0xa1144bad, 0x04defacc,
        0xd66b912c), 0xa81a664b, 0x8082ce35) ==
      Vars(0xb7cc0275, 0x6831a0d6, 0x3ce0dc15, 0xc8477665, 0x2fae6d36, 0x437e14f4, 0xa1144bad, 0x04defacc)
    ensures Round(Vars(0xb7cc0275, 0x6831a0d6, 0x3ce0dc15, 0xc8477665, 0x2fae6d36, 0x437e14f4, 0xa1144bad,
        0x04defacc), 0xc24b8b70, 0xe43a7274) ==
      Vars(0x6328bf52, 0xb7cc0275, 0x6831a0d6, 0x3ce0dc15, 0xa0384d40, 0x2fae6d36, 0x437e14f4, 0xa1144bad)
    ensures Round(Vars(0x6328bf52, 0xb7cc0275, 0x6831a0d6, 0x3ce0dc15, 0xa0384d40, 0x2fae6d36, 0x437e14f4,
        0xa1144bad), 0xc76c51a3, 0x4a74bc68) ==
      Vars(0xf0e31f4b, 0x6328bf52, 0xb7cc0275, 0x6831a0d6, 0x09f6d9ed, 0xa0384d40, 0x2fae6d36, 0x437e14f4)
    ensures Round(Vars(0xf0e31f4b, 0x6328bf52, 0xb7cc0275, 0x6831a0d6, 0x09f6d9ed, 0xa0384d40, 0x2fae6d36,
        0x437e14f4), 0xd192e819, 0x65d1242c) ==
      Vars(0x9207301f, 0xf0e31f4b, 0x6328bf52, 0xb7cc0275, 0x7c364299, 0x09f6d9ed, 0xa0384d40, 0x2fae6d36)
    ensures Round(Vars(0x9207301f, 0xf0e31f4b, 0x6328bf52, 0xb7cc0275, 0x7c364299, 0x09f6d9ed, 0xa0384d40,
        0x2fae6d36), 0xd6990624, 0xa81fd70e) ==
      Vars(0xcf840d7e, 0x9207301f, 0xf0e31f4b, 0x6328bf52, 0x1c6fae22, 0x7c364299, 0x09f6d9ed, 0xa0384d40)
    ensures Round(Vars(0xcf840d7e, 0x9207301f, 0xf0e31f4b, 0x6328bf52, 0x1c6fae22, 0x7c364299, 0x09f6d9ed,
        0xa0384d40), 0xf40e3585, 0x85daba16) ==
      Vars(0x4e66548b, 0xcf840d7e, 0x9207301f, 0xf0e31f4b, 0x16e5723d, 0x1c6fae22, 0x7c364299, 0x09f6d9ed)
    ensures Round(Vars(0x4e66548b, 0xcf840d7e, 0x9207301f, 0xf0e31f4b, 0x16e5723d, 0x1c6fae22, 0x7c364299,
        0x09f6d9ed), 0x106aa070, 0x166518f8) ==
      Vars(0x2b15ed2a, 0x4e66548b, 0xcf840d7e, 0x9207301f, 0x5f612d2d, 0x16e5723d, 0x1c6fae22, 0x7c364299)
  {
  }

  lemma FrameRounds40()
    ensures EightRounds(FRAME_STATE40, CONSTANTS40, FRAME_40) == FRAME_STATE48
  {
    hide Round;
    FrameEachRound40();
  }

  lemma FrameEachRound48()
    ensures Round(Vars(0x2b15ed2a, 0x4e66548b, 0xcf840d7e, 0x9207301f, 0x5f612d2d, 0x16e5723d, 0x1c6fae22,
        0x7c364299), 0x19a4c116, 0xd07489e0) ==
      Vars(0x2025066f, 0x2b15ed2a, 0x4e66548b, 0xcf840d7e, 0xaf075e1b, 0x5f612d2d, 0x16e5723d, 0x1c6fae22)
    ensures Round(Vars(0x2025066f, 0x2b15ed2a, 0x4e66548b, 0xcf840d7e, 0xaf075e1b, 0x5f612d2d, 0x16e5723d,
        0x1c6fae22), 0x1e376c08, 0xa7a504eb) ==
      Vars(0xca237be4, 0x2025066f, 0x2b15ed2a, 0x4e66548b, 0x00184904, 0xaf075e1b, 0x5f612d2d, 0x16e5723d)
    ensures Round(Vars(0xca237be4, 0x2025066f, 0x2b15ed2a, 0x4e66548b, 0x00184904, 0xaf075e1b, 0x5f612d2d,
        0x16e5723d), 0x2748774c, 0xe7fa80e3) ==
      Vars(0x4c9542fa, 0xca237be4, 0x2025066f, 0x2b15ed2a, 0x10950b4d, 0x00184904, 0xaf075e1b, 0x5f612d2d)
    ensures Round(Vars(0x4c9542fa, 0xca237be4, 0x2025066f, 0x2b15ed2a, 0x10950b4d, 0x00184904, 0xaf075e1b,
        0x5f612d2d), 0x34b0bcb5, 0x24e9b3ef) ==
      Vars(0x9995faff, 0x4c9542fa, 0xca237be4, 0x2025066f, 0xaa89c815, 0x10950b4d, 0x00184904, 0xaf075e1b)
    ensures Round(Vars(0x9995faff, 0x4c9542fa, 0xca237be4, 0x2025066f, 0xaa89c815, 0x10950b4d, 0x00184904,
        0xaf075e1b), 0x391c0cb3, 0x7efb7361) ==
      Vars(0xa7b32b74, 0x9995faff, 0x4c9542fa, 0xca237be4, 0x98d06a6f, 0xaa89c815, 0x10950b4d, 0x00184904)
    ensures Round(Vars(0xa7b32b74, 0x9995faff, 0x4c9542fa, 0xca237be4, 0x98d06a6f, 0xaa89c815, 0x10950b4d,
        0x00184904), 0x4ed8aa4a, 0x8b6f196e) ==
      Vars(0x4b045301, 0xa7b32b74, 0x9995faff, 0x4c9542fa, 0xc8ae3e0d, 0x98d06a6f, 0xaa89c815, 0x10950b4d)
    ensures Round(Vars(0x4b045301, 0xa7b32b74, 0x9995faff, 0x4c9542fa, 0xc8ae3e0d, 0x98d06a6f, 0xaa89c815,
        0x10950b4d), 0x5b9cca4f, 0x60bf7f75) ==
      Vars(0x8014b04c, 0x4b045301, 0xa7b32b74, 0x9995faff, 0x658d2e03, 0xc8ae3e0d, 0x98d06a6f, 0xaa89c815)
    ensures Round(Vars(0x8014b04c, 0x4b045301, 0xa7b32b74, 0x9995faff, 0x658d2e03, 0xc8ae3e0d, 0x98d06a6f,
        0xaa89c815), 0x682e6ff3, 0x4f858c89) ==
      Vars(0xba3c09a7, 0x8014b04c, 0x4b045301, 0xa7b32b74, 0xe01db2ac, 0x658d2e03, 0xc8ae3e0d, 0x98d06a6f)
  {
  }

  lemma FrameRounds48()
    ensures EightRounds(FRAME_STATE48, CONSTANTS48, FRAME_48) == FRAME_STATE56
  {
    hide Round;
    FrameEachRound48();
  }

  lemma FrameEachRound56()
    ensures Round(Vars(0xba3c09a7, 0x8014b04c, 0x4b045301, 0xa7b32b74, 0xe01db2ac, 0x658d2e03, 0xc8ae3e0d,
        0x98d06a6f), 0x748f82ee, 0xd16e703c) ==
      Vars(0x0deb0d0c, 0xba3c09a7, 0x8014b04c, 0x4b045301, 0xd7f5da1a, 0xe01db2ac, 0x658d2e03, 0xc8ae3e0d)
    ensures Round(Vars(0x0deb0d0c, 0xba3c09a7, 0x8014b04c, 0x4b045301, 0xd7f5da1a, 0xe01db2ac, 0x658d2e03,
        0xc8ae3e0d), 0x78a5636f, 0x4a15c20d) ==
      Vars(0x8dd9e382, 0x0deb0d0c, 0xba3c09a7, 0x8014b04c, 0x8973914b, 0xd7f5da1a, 0xe01db2ac, 0x658d2e03)
    ensures Round(Vars(0x8dd9e382, 0x0deb0d0c, 0xba3c09a7, 0x8014b04c, 0x8973914b, 0xd7f5da1a, 0xe01db2ac,
        0x658d2e03), 0x84c87814, 0xf6123bd1) ==
      Vars(0xe7670027, 0x8dd9e382, 0x0deb0d0c, 0xba3c09a7, 0x00968ad5, 0x8973914b, 0xd7f5da1a, 0xe01db2ac)
    ensures Round(Vars(0xe7670027, 0x8dd9e382, 0x0deb0d0c, 0xba3c09a7, 0x00968ad5, 0x8973914b, 0xd7f5da1a,
        0xe01db2ac), 0x8cc70208, 0x404058ba) ==
      Vars(0xbd5165e5, 0xe7670027, 0x8dd9e382, 0x0deb0d0c, 0x84bc09da, 0x00968ad5, 0x8973914b, 0xd7f5da1a)
    ensures Round(Vars(0xbd5165e5, 0xe7670027, 0x8dd9e382, 0x0deb0d0c, 0x84bc09da, 0x00968ad5, 0x8973914b,
        0xd7f5da1a), 0x90befffa, 0x497fee27) ==
      Vars(0x7e92729e, 0xbd5165e5, 0xe7670027, 0x8dd9e382, 0xd93df8fc, 0x84bc09da, 0x00968ad5, 0x8973914b)
    ensures Round(Vars(0x7e92729e, 0xbd5165e5, 0xe7670027, 0x8dd9e382, 0xd93df8fc, 0x84bc09da, 0x00968ad5,
        0x8973914b), 0xa4506ceb, 0xc36f1201) ==
      Vars(0x25e53bb5, 0x7e92729e, 0xbd5165e5, 0xe7670027, 0x71ceacc2, 0xd93df8fc, 0x84bc09da, 0x00968ad5)
    ensures Round(Vars(0x25e53bb5, 0x7e92729e, 0xbd5165e5, 0xe7670027, 0x71ceacc2, 0xd93df8fc, 0x84bc09da,
        0x00968ad5), 0xbef9a3f7, 0x9503c5c1) ==
      Vars(0xdec029cb, 0x25e53bb5, 0x7e92729e, 0xbd5165e5, 0x881700ea, 0x71ceacc2, 0xd93df8fc, 0x84bc09da)
    ensures Round(Vars(0xdec029cb, 0x25e53bb5, 0x7e92729e, 0xbd5165e5, 0x881700ea, 0x71ceacc2, 0xd93df8fc,
        0x84bc09da), 0xc67178f2, 0x4d19d784) ==
      Vars(0xde718d74, 0xdec029cb, 0x25e53bb5, 0x7e92729e, 0x63b8e4b2, 0x881700ea, 0x71ceacc2, 0xd93df8fc)
  {
  }

  lemma FrameRounds56()
    ensures EightRounds(FRAME_STATE56, CONSTANTS56, FRAME_56) == FRAME_STATE64
  {
    hide Round;
    FrameEachRound56();
  }

  lemma FrameCompress(block: seq<word>)
    requires block == BlockOf(FRAME_0, FRAME_8)
    ensures Compress(INITIAL, block)
        == [0x487b73db, 0x9a27d850, 0x62542f27, 0x23e267d8, 0xb4c73731, 0x231c6976, 0x9152866d, 0x351ec615]
  {
    hide *;
    FirstWords(FRAME_0, FRAME_8);
    EightInitialWords();
    Constants0();
    NextRounds(Load(INITIAL), block, 0, CONSTANTS0, FRAME_0);
    FrameRounds0();
    Constants8();
    NextRounds(Load(INITIAL), block, 8, CONSTANTS8, FRAME_8);
    FrameRounds8();
    FrameWords16();
    NextWords(block, 16, FRAME_0, FRAME_8);
    Constants16();
    NextRounds(Load(INITIAL), block, 16, CONSTANTS16, FRAME_16);
    FrameRounds16();
    FrameWords24();
    NextWords(block, 24, FRAME_8, FRAME_16);
    Constants24();
    NextRounds(Load(INITIAL), block, 24, CONSTANTS24, FRAME_24);
    FrameRounds24();
    FrameWords32();
    NextWords(block, 32, FRAME_16, FRAME_24);
    Constants32();
    NextRounds(Load(INITIAL), block, 32, CONSTANTS32, FRAME_32);
    FrameRounds32();
    FrameWords40();
    NextWords(block, 40, FRAME_24, FRAME_32);
    Constants40();
    NextRounds(Load(INITIAL), block, 40, CONSTANTS40, FRAME_40);
    FrameRounds40();
    FrameWords48();
    NextWords(block, 48, FRAME_32, FRAME_40);
    Constants48();
    NextRounds(Load(INITIAL), block, 48, CONSTANTS48, FRAME_48);
    FrameRounds48();
    FrameWords56();
    NextWords(block, 56, FRAME_40, FRAME_48);
    Constants56();
    NextRounds(Load(INITIAL), block, 56, CONSTANTS56, FRAME_56);
    FrameRounds56();
    NoRounds(block);
    Compressed(block, FRAME_STATE64);
    FrameSum();
  }

  lemma FrameSum()
    ensures Feedforward(FRAME_STATE64)
        == [0x487b73db, 0x9a27d850, 0x62542f27, 0x23e267d8, 0xb4c73731, 0x231c6976, 0x9152866d, 0x351ec615]
  {
  }

  lemma FrameBlock(p: seq<byte>)
    requires OneBlock(Zeros(32)
        + [0xfd, 0x01, 0x01, 0x00, 0x05, 0x01, 0x02, 0x0b, 0x00, 0x00, 0x04, 0xb7, 0x66, 0x01, 0x01, 0x02, 0x03,
        0x04, 0x05, 0x06], p)
    ensures Words(p) == BlockOf(FRAME_0, FRAME_8)
  {
    hide BigEndianWord;
    FrameLength();
    FrameBytes(p);
    FrameWords();
    var w := Words(p);
    assert w[0] == BigEndianWord(0x00, 0x00, 0x00, 0x00);
    assert w[1] == BigEndianWord(0x00, 0x00, 0x00, 0x00);
    assert w[2] == BigEndianWord(0x00, 0x00, 0x00, 0x00);
    assert w[3] == BigEndianWord(0x00, 0x00, 0x00, 0x00);
    assert w[4] == BigEndianWord(0x00, 0x00, 0x00, 0x00);
    assert w[5] == BigEndianWord(0x00, 0x00, 0x00, 0x00);
    assert w[6] == BigEndianWord(0x00, 0x00, 0x00, 0x00);
    assert w[7] == BigEndianWord(0x00, 0x00, 0x00, 0x00);
    assert w[8] == BigEndianWord(0xfd, 0x01, 0x01, 0x00);
    assert w[9] == BigEndianWord(0x05, 0x01, 0x02, 0x0b);
    assert w[10] == BigEndianWord(0x00, 0x00, 0x04, 0xb7);
    assert w[11] == BigEndianWord(0x66, 0x01, 0x01, 0x02);
    assert w[12] == BigEndianWord(0x03, 0x04, 0x05, 0x06);
    assert w[13] == BigEndianWord(0x80, 0x00, 0x00, 0x00);
    assert w[14] == BigEndianWord(0x00, 0x00, 0x00, 0x00);
    assert w[15] == BigEndianWord(0x00, 0x00, 0x01, 0xa0);
  }

  lemma FrameWords()
    ensures BigEndianWord(0x00, 0x00, 0x00, 0x00) == 0x00000000
    ensures BigEndianWord(0x00, 0x00, 0x00, 0x00) == 0x00000000
    ensures BigEndianWord(0x00, 0x00, 0x00, 0x00) == 0x00000000
    ensures BigEndianWord(0x00, 0x00, 0x00, 0x00) == 0x00000000
    ensures BigEndianWord(0x00, 0x00, 0x00, 0x00) == 0x00000000
    ensures BigEndianWord(0x00, 0x00, 0x00, 0x00) == 0x00000000
    ensures BigEndianWord(0x00, 0x00, 0x00, 0x00) == 0x00000000
    ensures BigEndianWord(0x00, 0x00, 0x00, 0x00) == 0x00000000
    ensures BigEndianWord(0xfd, 0x01, 0x01, 0x00) == 0xfd010100
    ensures BigEndianWord(0x05, 0x01, 0x02, 0x0b) == 0x0501020b
    ensures BigEndianWord(0x00, 0x00, 0x04, 0xb7) == 0x000004b7
    ensures BigEndianWord(0x66, 0x01, 0x01, 0x02) == 0x66010102
    ensures BigEndianWord(0x03, 0x04, 0x05, 0x06) == 0x03040506
    ensures BigEndianWord(0x80, 0x00, 0x00, 0x00) == 0x80000000
    ensures BigEndianWord(0x00, 0x00, 0x00, 0x00) == 0x00000000
    ensures BigEndianWord(0x00, 0x00, 0x01, 0xa0) == 0x000001a0
  {
  }

  lemma FrameLength()
    ensures BigEndian64(416) == [0x00, 0x00, 0x00, 0x00, 0x00, 0x00, 0x01, 0xa0]
  {
    hide BigEndian64;
    BigEndian64Digits(416);
  }

  lemma BehindKey(covered: seq<byte>, p: seq<byte>)
    requires |covered| <= 23 && OneBlock(Zeros(32) + covered, p)
    ensures p[..32] == Zeros(32) && p[32..32 + |covered|] == covered && p[32 + |covered|] == 0x80
    ensures forall i :: 32 + |covered| < i < 56 ==> p[i] == 0
    ensures p[56..] == BigEndian64(8 * (32 + |covered|))
  {
    hide BigEndian64;
    var m := Zeros(32) + covered;
    assert p[..32] == p[..|m|][..32] == m[..32];
    assert p[32..|m|] == p[..|m|][32..] == m[32..];
  }

  lemma FrameBytes(p: seq<byte>)
    requires OneBlock(Zeros(32)
        + [0xfd, 0x01, 0x01, 0x00, 0x05, 0x01, 0x02, 0x0b, 0x00, 0x00, 0x04, 0xb7, 0x66, 0x01, 0x01, 0x02, 0x03,
        0x04, 0x05, 0x06], p)
    ensures p[0] == 0x00 && p[1] == 0x00 && p[2] == 0x00 && p[3] == 0x00
    ensures p[4] == 0x00 && p[5] == 0x00 && p[6] == 0x00 && p[7] == 0x00
    ensures p[8] == 0x00 && p[9] == 0x00 && p[10] == 0x00 && p[11] == 0x00
    ensures p[12] == 0x00 && p[13] == 0x00 && p[14] == 0x00 && p[15] == 0x00
    ensures p[16] == 0x00 && p[17] == 0x00 && p[18] == 0x00 && p[19] == 0x00
    ensures p[20] == 0x00 && p[21] == 0x00 && p[22] == 0x00 && p[23] == 0x00
    ensures p[24] == 0x00 && p[25] == 0x00 && p[26] == 0x00 && p[27] == 0x00
    ensures p[28] == 0x00 && p[29] == 0x00 && p[30] == 0x00 && p[31] == 0x00
    ensures p[32] == 0xfd && p[33] == 0x01 && p[34] == 0x01 && p[35] == 0x00
    ensures p[36] == 0x05 && p[37] == 0x01 && p[38] == 0x02 && p[39] == 0x0b
    ensures p[40] == 0x00 && p[41] == 0x00 && p[42] == 0x04 && p[43] == 0xb7
    ensures p[44] == 0x66 && p[45] == 0x01 && p[46] == 0x01 && p[47] == 0x02
    ensures p[48] == 0x03 && p[49] == 0x04 && p[50] == 0x05 && p[51] == 0x06
    ensures p[52] == 0x80 && p[53] == 0x00 && p[54] == 0x00 && p[55] == 0x00
    ensures p[56] == 0x00 && p[57] == 0x00 && p[58] == 0x00 && p[59] == 0x00
    ensures p[60] == 0x00 && p[61] == 0x00 && p[62] == 0x01 && p[63] == 0xa0
  {
    hide BigEndian64, OneBlock, Zeros;
    FrameLength();
    var covered: seq<byte> := [0xfd, 0x01, 0x01, 0x00, 0x05, 0x01, 0x02, 0x0b, 0x00, 0x00, 0x04, 0xb7, 0x66, 0x01,
        0x01, 0x02, 0x03, 0x04, 0x05, 0x06];
    FrameParts(Zeros(32) + covered, p);
    BehindKey(covered, p);
    forall i | 0 <= i < 32
      ensures p[i] == 0
    {
      assert p[i] == p[..32][i];
    }
    forall i | 0 <= i < 20
      ensures p[32 + i] == covered[i]
    {
      assert p[32 + i] == p[32..52][i];
    }
    forall i | 0 <= i < 8
      ensures p[56 + i] == BigEndian64(416)[i]
    {
      assert p[56 + i] == p[56..][i];
    }
    assert p[32] == covered[0];
    assert p[33] == covered[1];
    assert p[34] == covered[2];
    assert p[35] == covered[3];
    assert p[36] == covered[4];
    assert p[37] == covered[5];
    assert p[38] == covered[6];
    assert p[39] == covered[7];
    assert p[40] == covered[8];
    assert p[41] == covered[9];
    assert p[42] == covered[10];
    assert p[43] == covered[11];
    assert p[44] == covered[12];
    assert p[45] == covered[13];
    assert p[46] == covered[14];
    assert p[47] == covered[15];
    assert p[48] == covered[16];
    assert p[49] == covered[17];
    assert p[50] == covered[18];
    assert p[51] == covered[19];
    assert p[56] == BigEndian64(416)[0];
    assert p[57] == BigEndian64(416)[1];
    assert p[58] == BigEndian64(416)[2];
    assert p[59] == BigEndian64(416)[3];
    assert p[60] == BigEndian64(416)[4];
    assert p[61] == BigEndian64(416)[5];
    assert p[62] == BigEndian64(416)[6];
    assert p[63] == BigEndian64(416)[7];
  }

  lemma FrameFirst()
    ensures First48([0x487b73db, 0x9a27d850, 0x62542f27, 0x23e267d8, 0xb4c73731, 0x231c6976, 0x9152866d, 0x351ec615]) ==
      [0x48, 0x7b, 0x73, 0xdb, 0x9a, 0x27]
  {
  }

  /** The hash of a key of zeros and the frame up to its timestamp. */
  lemma FrameHash()
    ensures Sha48(Zeros(32)
        + [0xfd, 0x01, 0x01, 0x00, 0x05, 0x01, 0x02, 0x0b, 0x00, 0x00, 0x04, 0xb7, 0x66, 0x01, 0x01, 0x02, 0x03,
        0x04, 0x05, 0x06]) == [0x48, 0x7b, 0x73, 0xdb, 0x9a, 0x27]
  {
    hide *;
    var m: seq<byte> := Zeros(32)
        + [0xfd, 0x01, 0x01, 0x00, 0x05, 0x01, 0x02, 0x0b, 0x00, 0x00, 0x04, 0xb7, 0x66, 0x01, 0x01, 0x02, 0x03,
        0x04, 0x05, 0x06];
    var p := Padded(m, 8 * |m|);
    ShortMessage(m);
    FrameParts(m, p);
    FrameBlock(p);
    FrameCompress(Words(p));
    FrameFirst();
    HashOfOneBlock(m, p, [0x487b73db, 0x9a27d850, 0x62542f27, 0x23e267d8, 0xb4c73731, 0x231c6976, 0x9152866d,
        0x351ec615]);
  }

  lemma FrameParts(m: seq<byte>, p: seq<byte>)
    requires OneBlock(m, p)
    ensures |m| <= 55 && |p| == 64
  {
  }

  lemma Digit(v: nat, n: nat, b: byte, rest: nat)
    requires n > 0 && v == b as int + 0x100 * rest && b as int < 0x100
    ensures LittleEndian(v, n) == [b] + LittleEndian(rest, n - 1)
  {
    hide ToByte;
    ToByteIs(v % 256);
  }

  lemma NoDigits(v: nat)
    ensures LittleEndian(v, 0) == []
  {
  }

  lemma TimestampBytes()
    ensures LittleEndian(0x0605_0403_0201, 6) == [0x01, 0x02, 0x03, 0x04, 0x05, 0x06]
  {
    hide LittleEndian;
    Digit(0x0605_0403_0201, 6, 0x01, 0x06_0504_0302);
    Digit(0x06_0504_0302, 5, 0x02, 0x0605_0403);
    Digit(0x0605_0403, 4, 0x03, 0x06_0504);
    Digit(0x06_0504, 3, 0x04, 0x0605);
    Digit(0x0605, 2, 0x05, 0x06);
    Digit(0x06, 1, 0x06, 0);
    NoDigits(0);
  }

  /** The same frame signed with a key of zeros on link 1: link, timestamp and the first six bytes of the hash follow. */
  lemma SignedFrame()
    ensures Outgoing(false, 5, 1, 2, 11, 89, Some(Signer(Zeros(32), 1, 0x0605_0403_0201)))
      .Frame([0x04]) ==
      [0xfd, 0x01, 0x01, 0x00, 0x05, 0x01, 0x02, 0x0b, 0x00, 0x00, 0x04, 0xb7, 0x66, 0x01, 0x01, 0x02,
       0x03, 0x04, 0x05, 0x06, 0x48, 0x7b, 0x73, 0xdb, 0x9a, 0x27]
  {
    hide Outgoing.Frame, Outgoing.Unsigned, SignatureBlock, Zeros, LittleEndian, Sha48;
    var u: seq<byte> := [0xfd, 0x01, 0x01, 0x00, 0x05, 0x01, 0x02, 0x0b, 0x00, 0x00, 0x04, 0xb7, 0x66];
    SignedFrameUnsigned();
    TimestampBytes();
    SignatureOf(Zeros(32), 1, 0x0605_0403_0201, u, [0x01, 0x01, 0x02, 0x03, 0x04, 0x05, 0x06]);
    FrameHash();
    SignedIs(Outgoing(false, 5, 1, 2, 11, 89, Some(Signer(Zeros(32), 1, 0x0605_0403_0201))), [0x04], u);
    assert u + [0x01, 0x01, 0x02, 0x03, 0x04, 0x05, 0x06] ==
      [0xfd, 0x01, 0x01, 0x00, 0x05, 0x01, 0x02, 0x0b, 0x00, 0x00, 0x04, 0xb7, 0x66, 0x01, 0x01, 0x02, 0x03, 0x04,
          0x05, 0x06];
  }

  lemma SignatureOf(key: seq<byte>, linkId: byte, timestamp: nat, frame: seq<byte>, front: seq<byte>)
    requires front == [linkId] + LittleEndian(timestamp, 6)
    ensures SignatureBlock(key, linkId, timestamp, frame) == front + Sha48(key + (frame + front))
  {
    hide Sha48, LittleEndian;
  }

  lemma SignedIs(out: Outgoing, body: seq<byte>, u: seq<byte>)
    requires |body| < 256 && out.signer.Some? && out.Unsigned(body) == u
    ensures out.Frame(body) == u
        + SignatureBlock(out.signer.value.key, out.signer.value.linkId, out.signer.value.timestamp, u)
  {
    hide Outgoing.Unsigned, SignatureBlock;
  }

  // ----- BATTERY_STATUS -----

  const SAMPLE: Battery := Battery(0x0403_0201, -2, -300, VOLTAGES0, 0x2625, 0x27, 0x28, 0x29, -86,
                                   0x3433_3231, 0x35, EXTENSIONS0, 0x41, 0x4544_4342)

  const VOLTAGES10: seq<uint16> := []
  const VOLTAGES9: seq<uint16> := [0x2423] + VOLTAGES10
  const VOLTAGES8: seq<uint16> := [0x2221] + VOLTAGES9
  const VOLTAGES7: seq<uint16> := [0x201f] + VOLTAGES8
  const VOLTAGES6: seq<uint16> := [0x1e1d] + VOLTAGES7
  const VOLTAGES5: seq<uint16> := [0x1c1b] + VOLTAGES6
  const VOLTAGES4: seq<uint16> := [0x1a19] + VOLTAGES5
  const VOLTAGES3: seq<uint16> := [0x1817] + VOLTAGES4
  const VOLTAGES2: seq<uint16> := [0x1615] + VOLTAGES3
  const VOLTAGES1: seq<uint16> := [0x1413] + VOLTAGES2
  const VOLTAGES0: seq<uint16> := [0x1211] + VOLTAGES1

  const VOLTAGES_BYTES10: seq<byte> := []
  const VOLTAGES_BYTES9: seq<byte> := [0x23, 0x24] + VOLTAGES_BYTES10
  const VOLTAGES_BYTES8: seq<byte> := [0x21, 0x22] + VOLTAGES_BYTES9
  const VOLTAGES_BYTES7: seq<byte> := [0x1f, 0x20] + VOLTAGES_BYTES8
  const VOLTAGES_BYTES6: seq<byte> := [0x1d, 0x1e] + VOLTAGES_BYTES7
  const VOLTAGES_BYTES5: seq<byte> := [0x1b, 0x1c] + VOLTAGES_BYTES6
  const VOLTAGES_BYTES4: seq<byte> := [0x19, 0x1a] + VOLTAGES_BYTES5
  const VOLTAGES_BYTES3: seq<byte> := [0x17, 0x18] + VOLTAGES_BYTES4
  const VOLTAGES_BYTES2: seq<byte> := [0x15, 0x16] + VOLTAGES_BYTES3
  const VOLTAGES_BYTES1: seq<byte> := [0x13, 0x14] + VOLTAGES_BYTES2
  const VOLTAGES_BYTES0: seq<byte> := [0x11, 0x12] + VOLTAGES_BYTES1

  const EXTENSIONS4: seq<uint16> := []
  const EXTENSIONS3: seq<uint16> := [0x403f] + EXTENSIONS4
  const EXTENSIONS2: seq<uint16> := [0x3e3d] + EXTENSIONS3
  const EXTENSIONS1: seq<uint16> := [0x3c3b] + EXTENSIONS2
  const EXTENSIONS0: seq<uint16> := [0x3a39] + EXTENSIONS1

  const EXTENSIONS_BYTES4: seq<byte> := []
  const EXTENSIONS_BYTES3: seq<byte> := [0x3f, 0x40] + EXTENSIONS_BYTES4
  const EXTENSIONS_BYTES2: seq<byte> := [0x3d, 0x3e] + EXTENSIONS_BYTES3
  const EXTENSIONS_BYTES1: seq<byte> := [0x3b, 0x3c] + EXTENSIONS_BYTES2
  const EXTENSIONS_BYTES0: seq<byte> := [0x39, 0x3a] + EXTENSIONS_BYTES1

  const BASE: seq<byte> :=
    [0x01, 0x02, 0x03, 0x04] + [0xfe, 0xff, 0xff, 0xff] + [0xd4, 0xfe] + VOLTAGES_BYTES0 + [0x25, 0x26]
    + [0x27] + [0x28] + [0x29] + [0xaa]

  const EXTENSION: seq<byte> :=
    [0x31, 0x32, 0x33, 0x34] + [0x35] + EXTENSIONS_BYTES0 + [0x41] + [0x42, 0x43, 0x44, 0x45]

  lemma One(b0: byte, v: nat)
    requires v == b0 as int && v < 0x100
    ensures LittleEndian(v, 1) == [b0]
  {
    hide LittleEndian;
    Digit(v, 1, b0, 0);
    NoDigits(0);
  }

  lemma Two(b0: byte, b1: byte, v: nat, v1: nat)
    requires v == b0 as int + 0x100 * v1 && v1 == b1 as int && b0 as int < 0x100 && v1 < 0x100
    ensures LittleEndian(v, 2) == [b0, b1]
  {
    hide LittleEndian;
    Digit(v, 2, b0, v1);
    One(b1, v1);
  }

  lemma Four(b0: byte, b1: byte, b2: byte, b3: byte, v: nat, v1: nat, v2: nat, v3: nat)
    requires v == b0 as int + 0x100 * v1 && v1 == b1 as int + 0x100 * v2 && b0 as int < 0x100 && b1 as int < 0x100
    requires v2 == b2 as int + 0x100 * v3 && v3 == b3 as int && b2 as int < 0x100 && v3 < 0x100
    ensures LittleEndian(v, 4) == [b0, b1, b2, b3]
  {
    hide LittleEndian;
    Digit(v, 4, b0, v1);
    Digit(v1, 3, b1, v2);
    Two(b2, b3, v2, v3);
  }

  lemma OneMoreNumber(x: uint16, rest: seq<uint16>, b0: byte, b1: byte, bytes: seq<byte>)
    requires x == b0 as int + 0x100 * (b1 as int) && b0 as int < 0x100 && b1 as int < 0x100
    requires Uint16sBytes(rest) == bytes
    ensures Uint16sBytes([x] + rest) == [b0, b1] + bytes
  {
    hide LittleEndian;
    Two(b0, b1, x, b1 as int);
    assert ([x] + rest)[1..] == rest;
  }

  lemma SampleVoltages()
    ensures Uint16sBytes(VOLTAGES0) == VOLTAGES_BYTES0
  {
    assert Uint16sBytes(VOLTAGES10) == VOLTAGES_BYTES10;
    hide Uint16sBytes;
    OneMoreNumber(0x2423, VOLTAGES10, 0x23, 0x24, VOLTAGES_BYTES10);
    OneMoreNumber(0x2221, VOLTAGES9, 0x21, 0x22, VOLTAGES_BYTES9);
    OneMoreNumber(0x201f, VOLTAGES8, 0x1f, 0x20, VOLTAGES_BYTES8);
    OneMoreNumber(0x1e1d, VOLTAGES7, 0x1d, 0x1e, VOLTAGES_BYTES7);
    OneMoreNumber(0x1c1b, VOLTAGES6, 0x1b, 0x1c, VOLTAGES_BYTES6);
    OneMoreNumber(0x1a19, VOLTAGES5, 0x19, 0x1a, VOLTAGES_BYTES5);
    OneMoreNumber(0x1817, VOLTAGES4, 0x17, 0x18, VOLTAGES_BYTES4);
    OneMoreNumber(0x1615, VOLTAGES3, 0x15, 0x16, VOLTAGES_BYTES3);
    OneMoreNumber(0x1413, VOLTAGES2, 0x13, 0x14, VOLTAGES_BYTES2);
    OneMoreNumber(0x1211, VOLTAGES1, 0x11, 0x12, VOLTAGES_BYTES1);
  }

  lemma SampleExtensions()
    ensures Uint16sBytes(EXTENSIONS0) == EXTENSIONS_BYTES0
  {
    assert Uint16sBytes(EXTENSIONS4) == EXTENSIONS_BYTES4;
    hide Uint16sBytes;
    OneMoreNumber(0x403f, EXTENSIONS4, 0x3f, 0x40, EXTENSIONS_BYTES4);
    OneMoreNumber(0x3e3d, EXTENSIONS3, 0x3d, 0x3e, EXTENSIONS_BYTES3);
    OneMoreNumber(0x3c3b, EXTENSIONS2, 0x3b, 0x3c, EXTENSIONS_BYTES2);
    OneMoreNumber(0x3a39, EXTENSIONS1, 0x39, 0x3a, EXTENSIONS_BYTES1);
  }

  /** The sample's fields at their offsets, little-endian and in two's complement: the base part and the extensions. */
  lemma SampleBytes()
    ensures BaseBytes(SAMPLE) == BASE && ExtensionBytes(SAMPLE) == EXTENSION
  {
    hide LittleEndian, Uint16sBytes;
    SampleVoltages();
    SampleExtensions();
    Four(0x01, 0x02, 0x03, 0x04, 67305985, 262914, 1027, 4);
    Four(0xfe, 0xff, 0xff, 0xff, 4294967294, 16777215, 65535, 255);
    Two(0xd4, 0xfe, 65236, 254);
    Two(0x25, 0x26, 9765, 38);
    One(0x27, 39);
    One(0x28, 40);
    One(0x29, 41);
    One(0xaa, 170);
    One(0x35, 53);
    One(0x41, 65);
    Four(0x31, 0x32, 0x33, 0x34, 875770417, 3420978, 13363, 52);
    Four(0x42, 0x43, 0x44, 0x45, 1162101570, 4539459, 17732, 69);
  }

  lemma BatteryHeadSteps()
    ensures EightBytes(0xffff, 0x36, 0x00, 0x00, 0x05, 0x01, 0x02, 0x93, 0x00) == 0x30d7
    ensures Accumulate(0x00, 0x30d7) == 0xa202
  {
  }

  lemma BatteryHeadCrc(text: seq<byte>)
    requires text == [0x36, 0x00, 0x00, 0x05, 0x01, 0x02, 0x93, 0x00] +
      [0x00]
    ensures Crc(text) == 0xa202
  {
    hide Accumulate, Fold, EightBytes, FourBytes;
    BatteryHeadSteps();
    var t0: seq<byte> := [0x36, 0x00, 0x00, 0x05, 0x01, 0x02, 0x93, 0x00];
    FoldEight(0xffff, 0x36, 0x00, 0x00, 0x05, 0x01, 0x02, 0x93, 0x00);
    var s0 := t0;
    assert Fold(X25_INIT_CRC, s0) == 0x30d7;
    var t1: seq<byte> := [0x00];
    FoldOne(0x30d7, 0x00);
    FoldAppend(X25_INIT_CRC, s0, t1);
    var s1 := s0 + t1;
    assert Fold(X25_INIT_CRC, s1) == 0xa202;
  }

  lemma SampleSteps0()
    ensures FourBytes(0xa202, 0x01, 0x02, 0x03, 0x04) == 0x4656
    ensures FourBytes(0x4656, 0xfe, 0xff, 0xff, 0xff) == 0xa101
    ensures Accumulate(0xfe, Accumulate(0xd4, 0xa101)) == 0x8bf1
    ensures Accumulate(0x12, Accumulate(0x11, 0x8bf1)) == 0xe0d1
    ensures Accumulate(0x14, Accumulate(0x13, 0xe0d1)) == 0x48b1
    ensures Accumulate(0x16, Accumulate(0x15, 0x48b1)) == 0x7364
    ensures Accumulate(0x18, Accumulate(0x17, 0x7364)) == 0x0779
    ensures Accumulate(0x1a, Accumulate(0x19, 0x0779)) == 0xae31
  {
  }

  lemma SampleSteps1()
    ensures Accumulate(0x1c, Accumulate(0x1b, 0xae31)) == 0x48da
    ensures Accumulate(0x1e, Accumulate(0x1d, 0x48da)) == 0xb011
    ensures Accumulate(0x20, Accumulate(0x1f, 0xb011)) == 0x0e99
    ensures Accumulate(0x22, Accumulate(0x21, 0x0e99)) == 0x1fc0
    ensures Accumulate(0x24, Accumulate(0x23, 0x1fc0)) == 0x4ca1
    ensures Accumulate(0x26, Accumulate(0x25, 0x4ca1)) == 0x27f0
    ensures Accumulate(0x27, 0x27f0) == 0xa215
    ensures Accumulate(0x28, 0xa215) == 0xeac4
  {
  }

  lemma SampleSteps2()
    ensures Accumulate(0x29, 0xeac4) == 0x3c01
    ensures Accumulate(0xaa, 0x3c01) == 0x1be5
    ensures FourBytes(0x1be5, 0x31, 0x32, 0x33, 0x34) == 0xfedc
    ensures Accumulate(0x35, 0xfedc) == 0x7a31
    ensures Accumulate(0x3a, Accumulate(0x39, 0x7a31)) == 0x8cc4
    ensures Accumulate(0x3c, Accumulate(0x3b, 0x8cc4)) == 0x4a4b
    ensures Accumulate(0x3e, Accumulate(0x3d, 0x4a4b)) == 0x91b7
    ensures Accumulate(0x40, Accumulate(0x3f, 0x91b7)) == 0x8508
  {
  }

  lemma SampleSteps3()
    ensures Accumulate(0x41, 0x8508) == 0xdf40
    ensures FourBytes(0xdf40, 0x42, 0x43, 0x44, 0x45) == 0x2103
  {
  }

  lemma SampleVoltagesFold()
    ensures Fold(0x8bf1, VOLTAGES_BYTES0) == 0x4ca1
  {
    assert Fold(0x4ca1, VOLTAGES_BYTES10) == 0x4ca1;
    hide Accumulate, Fold, FourBytes;
    SampleSteps0();
    SampleSteps1();
    SampleSteps2();
    SampleSteps3();
    FoldTwo(0x1fc0, 0x23, 0x24);
    FoldAppend(0x1fc0, [0x23, 0x24], VOLTAGES_BYTES10);
    FoldTwo(0x0e99, 0x21, 0x22);
    FoldAppend(0x0e99, [0x21, 0x22], VOLTAGES_BYTES9);
    FoldTwo(0xb011, 0x1f, 0x20);
    FoldAppend(0xb011, [0x1f, 0x20], VOLTAGES_BYTES8);
    FoldTwo(0x48da, 0x1d, 0x1e);
    FoldAppend(0x48da, [0x1d, 0x1e], VOLTAGES_BYTES7);
    FoldTwo(0xae31, 0x1b, 0x1c);
    FoldAppend(0xae31, [0x1b, 0x1c], VOLTAGES_BYTES6);
    FoldTwo(0x0779, 0x19, 0x1a);
    FoldAppend(0x0779, [0x19, 0x1a], VOLTAGES_BYTES5);
    FoldTwo(0x7364, 0x17, 0x18);
    FoldAppend(0x7364, [0x17, 0x18], VOLTAGES_BYTES4);
    FoldTwo(0x48b1, 0x15, 0x16);
    FoldAppend(0x48b1, [0x15, 0x16], VOLTAGES_BYTES3);
    FoldTwo(0xe0d1, 0x13, 0x14);
    FoldAppend(0xe0d1, [0x13, 0x14], VOLTAGES_BYTES2);
    FoldTwo(0x8bf1, 0x11, 0x12);
    FoldAppend(0x8bf1, [0x11, 0x12], VOLTAGES_BYTES1);
  }

  lemma SampleExtensionsFold()
    ensures Fold(0x7a31, EXTENSIONS_BYTES0) == 0x8508
  {
    assert Fold(0x8508, EXTENSIONS_BYTES4) == 0x8508;
    hide Accumulate, Fold, FourBytes;
    SampleSteps0();
    SampleSteps1();
    SampleSteps2();
    SampleSteps3();
    FoldTwo(0x91b7, 0x3f, 0x40);
    FoldAppend(0x91b7, [0x3f, 0x40], EXTENSIONS_BYTES4);
    FoldTwo(0x4a4b, 0x3d, 0x3e);
    FoldAppend(0x4a4b, [0x3d, 0x3e], EXTENSIONS_BYTES3);
    FoldTwo(0x8cc4, 0x3b, 0x3c);
    FoldAppend(0x8cc4, [0x3b, 0x3c], EXTENSIONS_BYTES2);
    FoldTwo(0x7a31, 0x39, 0x3a);
    FoldAppend(0x7a31, [0x39, 0x3a], EXTENSIONS_BYTES1);
  }

  lemma SampleBaseFold()
    ensures Fold(0xa202, BASE) == 0x1be5
  {
    hide Accumulate, Fold, FourBytes;
    SampleSteps0();
    SampleSteps1();
    SampleSteps2();
    SampleSteps3();
    SampleVoltagesFold();
    SampleExtensionsFold();
    FoldFour(0xa202, 0x01, 0x02, 0x03, 0x04);
    var s0: seq<byte> := [0x01, 0x02, 0x03, 0x04];
    FoldFour(0x4656, 0xfe, 0xff, 0xff, 0xff);
    FoldAppend(0xa202, s0, [0xfe, 0xff, 0xff, 0xff]);
    var s1 := s0 + [0xfe, 0xff, 0xff, 0xff];
    FoldTwo(0xa101, 0xd4, 0xfe);
    FoldAppend(0xa202, s1, [0xd4, 0xfe]);
    var s2 := s1 + [0xd4, 0xfe];
    FoldAppend(0xa202, s2, VOLTAGES_BYTES0);
    var s3 := s2 + VOLTAGES_BYTES0;
    FoldTwo(0x4ca1, 0x25, 0x26);
    FoldAppend(0xa202, s3, [0x25, 0x26]);
    var s4 := s3 + [0x25, 0x26];
    FoldOne(0x27f0, 0x27);
    FoldAppend(0xa202, s4, [0x27]);
    var s5 := s4 + [0x27];
    FoldOne(0xa215, 0x28);
    FoldAppend(0xa202, s5, [0x28]);
    var s6 := s5 + [0x28];
    FoldOne(0xeac4, 0x29);
    FoldAppend(0xa202, s6, [0x29]);
    var s7 := s6 + [0x29];
    FoldOne(0x3c01, 0xaa);
    FoldAppend(0xa202, s7, [0xaa]);
    var s8 := s7 + [0xaa];
  }

  lemma SampleExtensionFold()
    ensures Fold(0x1be5, EXTENSION) == 0x2103
  {
    hide Accumulate, Fold, FourBytes;
    SampleSteps0();
    SampleSteps1();
    SampleSteps2();
    SampleSteps3();
    SampleVoltagesFold();
    SampleExtensionsFold();
    FoldFour(0x1be5, 0x31, 0x32, 0x33, 0x34);
    var s0: seq<byte> := [0x31, 0x32, 0x33, 0x34];
    FoldOne(0xfedc, 0x35);
    FoldAppend(0x1be5, s0, [0x35]);
    var s1 := s0 + [0x35];
    FoldAppend(0x1be5, s1, EXTENSIONS_BYTES0);
    var s2 := s1 + EXTENSIONS_BYTES0;
    FoldOne(0x8508, 0x41);
    FoldAppend(0x1be5, s2, [0x41]);
    var s3 := s2 + [0x41];
    FoldFour(0xdf40, 0x42, 0x43, 0x44, 0x45);
    FoldAppend(0x1be5, s3, [0x42, 0x43, 0x44, 0x45]);
    var s4 := s3 + [0x42, 0x43, 0x44, 0x45];
  }

  lemma BatteryHead()
    ensures Outgoing(false, 5, 1, 2, MSG_ID, MSG_CRC, None).Head(54).Bytes() ==
      [0xfd, 0x36, 0x00, 0x00, 0x05, 0x01, 0x02, 0x93, 0x00, 0x00]
  {
    hide ToByte;
    ToByteIs(54);
    ToByteIs(147);
    ToByteIs(0);
  }

  lemma BatteryCk()
    ensures ChecksumBytes(Accumulate(MSG_CRC, 0x2103)) == [0x69, 0x09]
  {
  }

  /** The sample over version 2, byte for byte: header, base part, extensions and checksum. */
  lemma BatteryFrame()
    ensures |BASE| == 36 && |EXTENSION| == 18
    ensures Outgoing(false, 5, 1, 2, MSG_ID, MSG_CRC,
        None).Frame(SentPayload(false, StructBytes(SAMPLE), MSG_MIN_LEN, MSG_LEN)) ==
      [0xfd, 0x36, 0x00, 0x00, 0x05, 0x01, 0x02, 0x93, 0x00, 0x00]
      + (BASE + EXTENSION) + [0x69, 0x09]
  {
    hide Outgoing.Frame, Outgoing.Head, Header.Bytes, Crc, Accumulate, ChecksumBytes, BaseBytes, ExtensionBytes,
        Trim, SentPayload;
    var out := Outgoing(false, 5, 1, 2, MSG_ID, MSG_CRC, None);
    var head: seq<byte> := [0xfd, 0x36, 0x00, 0x00, 0x05, 0x01, 0x02, 0x93, 0x00, 0x00];
    SampleBytes();
    SampleIsNotTrimmed();
    BatteryHead();
    BatteryCk();
    BatteryCrc(head);
    FrameOf(out, BASE + EXTENSION, head, 0x2103, [0x69, 0x09]);
  }

  lemma SampleIsNotTrimmed()
    ensures |BASE| == 36 && |EXTENSION| == 18 && SentPayload(false, StructBytes(SAMPLE), MSG_MIN_LEN, MSG_LEN)
        == BASE + EXTENSION
  {
    hide BaseBytes, ExtensionBytes, Trim;
    SampleBytes();
    var s := StructBytes(SAMPLE);
    assert s == BASE + EXTENSION;
    LastByte();
    TrimIsExact(s, MSG_LEN, MSG_LEN);
    assert s[..MSG_LEN] == s;
  }

  lemma LastByte()
    ensures |EXTENSION| == 18 && EXTENSION[17] == 0x45
  {
  }

  lemma BatteryCrc(head: seq<byte>)
    requires head == [0xfd, 0x36, 0x00, 0x00, 0x05, 0x01, 0x02, 0x93, 0x00, 0x00]
    ensures Crc(head[1..] + (BASE + EXTENSION)) == 0x2103
  {
    hide Accumulate, Fold;
    var front: seq<byte> := [0x36, 0x00, 0x00, 0x05, 0x01, 0x02, 0x93, 0x00] + [0x00];
    assert head[1..] == front;
    BatteryHeadCrc(front);
    SampleBaseFold();
    SampleExtensionFold();
    FoldAppend(X25_INIT_CRC, front, BASE + EXTENSION);
    FoldAppend(0xa202, BASE, EXTENSION);
  }

  const DEFINITION: seq<byte> :=
    [0x42, 0x41, 0x54, 0x54, 0x45, 0x52, 0x59, 0x5f] /* BATTERY_ */ +
    [0x53, 0x54, 0x41, 0x54, 0x55, 0x53, 0x20, 0x69] /* STATUS i */ +
    [0x6e, 0x74, 0x33, 0x32, 0x5f, 0x74, 0x20, 0x63] /* nt32_t c */ +
    [0x75, 0x72, 0x72, 0x65, 0x6e, 0x74, 0x5f, 0x63] /* urrent_c */ +
    [0x6f, 0x6e, 0x73, 0x75, 0x6d, 0x65, 0x64, 0x20] /* onsumed  */ +
    [0x69, 0x6e, 0x74, 0x33, 0x32, 0x5f, 0x74, 0x20] /* int32_t  */ +
    [0x65, 0x6e, 0x65, 0x72, 0x67, 0x79, 0x5f, 0x63] /* energy_c */ +
    [0x6f, 0x6e, 0x73, 0x75, 0x6d, 0x65, 0x64, 0x20] /* onsumed  */ +
    [0x69, 0x6e, 0x74, 0x31, 0x36, 0x5f, 0x74, 0x20] /* int16_t  */ +
    [0x74, 0x65, 0x6d, 0x70, 0x65, 0x72, 0x61, 0x74] /* temperat */ +
    [0x75, 0x72, 0x65, 0x20, 0x75, 0x69, 0x6e, 0x74] /* ure uint */ +
    [0x31, 0x36, 0x5f, 0x74, 0x20, 0x76, 0x6f, 0x6c] /* 16_t vol */ +
    [0x74, 0x61, 0x67, 0x65, 0x73, 0x20, 0x0a, 0x69] /* tages .i */ +
    [0x6e, 0x74, 0x31, 0x36, 0x5f, 0x74, 0x20, 0x63] /* nt16_t c */ +
    [0x75, 0x72, 0x72, 0x65, 0x6e, 0x74, 0x5f, 0x62] /* urrent_b */ +
    [0x61, 0x74, 0x74, 0x65, 0x72, 0x79, 0x20, 0x75] /* attery u */ +
    [0x69, 0x6e, 0x74, 0x38, 0x5f, 0x74, 0x20, 0x69] /* int8_t i */ +
    [0x64, 0x20, 0x75, 0x69, 0x6e, 0x74, 0x38, 0x5f] /* d uint8_ */ +
    [0x74, 0x20, 0x62, 0x61, 0x74, 0x74, 0x65, 0x72] /* t batter */ +
    [0x79, 0x5f, 0x66, 0x75, 0x6e, 0x63, 0x74, 0x69] /* y_functi */ +
    [0x6f, 0x6e, 0x20, 0x75, 0x69, 0x6e, 0x74, 0x38] /* on uint8 */ +
    [0x5f, 0x74, 0x20, 0x74, 0x79, 0x70, 0x65, 0x20] /* _t type  */ +
    [0x69, 0x6e, 0x74, 0x38, 0x5f, 0x74, 0x20, 0x62] /* int8_t b */ +
    [0x61, 0x74, 0x74, 0x65, 0x72, 0x79, 0x5f, 0x72] /* attery_r */ +
    [0x65, 0x6d, 0x61, 0x69, 0x6e, 0x69, 0x6e, 0x67] /* emaining */ +
    [0x20] /*   */

  lemma DefinitionSteps0()
    ensures EightBytes(0xffff, 0x42, 0x41, 0x54, 0x54, 0x45, 0x52, 0x59, 0x5f) == 0xa258
    ensures EightBytes(0xa258, 0x53, 0x54, 0x41, 0x54, 0x55, 0x53, 0x20, 0x69) == 0x3c4a
    ensures EightBytes(0x3c4a, 0x6e, 0x74, 0x33, 0x32, 0x5f, 0x74, 0x20, 0x63) == 0x46c8
    ensures EightBytes(0x46c8, 0x75, 0x72, 0x72, 0x65, 0x6e, 0x74, 0x5f, 0x63) == 0xba86
    ensures EightBytes(0xba86, 0x6f, 0x6e, 0x73, 0x75, 0x6d, 0x65, 0x64, 0x20) == 0xd833
    ensures EightBytes(0xd833, 0x69, 0x6e, 0x74, 0x33, 0x32, 0x5f, 0x74, 0x20) == 0x0676
  {
  }

  lemma DefinitionSteps1()
    ensures EightBytes(0x0676, 0x65, 0x6e, 0x65, 0x72, 0x67, 0x79, 0x5f, 0x63) == 0xe82d
    ensures EightBytes(0xe82d, 0x6f, 0x6e, 0x73, 0x75, 0x6d, 0x65, 0x64, 0x20) == 0x4739
    ensures EightBytes(0x4739, 0x69, 0x6e, 0x74, 0x31, 0x36, 0x5f, 0x74, 0x20) == 0x6ee1
    ensures EightBytes(0x6ee1, 0x74, 0x65, 0x6d, 0x70, 0x65, 0x72, 0x61, 0x74) == 0x5d19
    ensures EightBytes(0x5d19, 0x75, 0x72, 0x65, 0x20, 0x75, 0x69, 0x6e, 0x74) == 0x0614
    ensures EightBytes(0x0614, 0x31, 0x36, 0x5f, 0x74, 0x20, 0x76, 0x6f, 0x6c) == 0x2475
  {
  }

  lemma DefinitionSteps2()
    ensures EightBytes(0x2475, 0x74, 0x61, 0x67, 0x65, 0x73, 0x20, 0x0a, 0x69) == 0xd599
    ensures EightBytes(0xd599, 0x6e, 0x74, 0x31, 0x36, 0x5f, 0x74, 0x20, 0x63) == 0x7f94
    ensures EightBytes(0x7f94, 0x75, 0x72, 0x72, 0x65, 0x6e, 0x74, 0x5f, 0x62) == 0x3997
    ensures EightBytes(0x3997, 0x61, 0x74, 0x74, 0x65, 0x72, 0x79, 0x20, 0x75) == 0x9dc5
    ensures EightBytes(0x9dc5, 0x69, 0x6e, 0x74, 0x38, 0x5f, 0x74, 0x20, 0x69) == 0x7bb1
    ensures EightBytes(0x7bb1, 0x64, 0x20, 0x75, 0x69, 0x6e, 0x74, 0x38, 0x5f) == 0x4119
  {
  }

  lemma DefinitionSteps3()
    ensures EightBytes(0x4119, 0x74, 0x20, 0x62, 0x61, 0x74, 0x74, 0x65, 0x72) == 0xf7f4
    ensures EightBytes(0xf7f4, 0x79, 0x5f, 0x66, 0x75, 0x6e, 0x63, 0x74, 0x69) == 0x524d
    ensures EightBytes(0x524d, 0x6f, 0x6e, 0x20, 0x75, 0x69, 0x6e, 0x74, 0x38) == 0x3336
    ensures EightBytes(0x3336, 0x5f, 0x74, 0x20, 0x74, 0x79, 0x70, 0x65, 0x20) == 0xdb8e
    ensures EightBytes(0xdb8e, 0x69, 0x6e, 0x74, 0x38, 0x5f, 0x74, 0x20, 0x62) == 0x9834
    ensures EightBytes(0x9834, 0x61, 0x74, 0x74, 0x65, 0x72, 0x79, 0x5f, 0x72) == 0x17ff
  {
  }

  lemma DefinitionSteps4()
    ensures EightBytes(0x17ff, 0x65, 0x6d, 0x61, 0x69, 0x6e, 0x69, 0x6e, 0x67) == 0x7b16
    ensures Accumulate(0x20, 0x7b16) == 0x54ce
  {
  }

  /** The checksum of the message's definition: its name, then type and name of each base field in wire order, and the length of
      an array. */
  lemma DefinitionCrc(text: seq<byte>)
    requires text == DEFINITION
    ensures Crc(text) == 0x54ce
  {
    hide Accumulate, Fold, EightBytes, FourBytes;
    DefinitionSteps0();
    DefinitionSteps1();
    DefinitionSteps2();
    DefinitionSteps3();
    DefinitionSteps4();
    var t0: seq<byte> := [0x42, 0x41, 0x54, 0x54, 0x45, 0x52, 0x59, 0x5f];
    FoldEight(0xffff, 0x42, 0x41, 0x54, 0x54, 0x45, 0x52, 0x59, 0x5f);
    var s0 := t0;
    assert Fold(X25_INIT_CRC, s0) == 0xa258;
    var t1: seq<byte> := [0x53, 0x54, 0x41, 0x54, 0x55, 0x53, 0x20, 0x69];
    FoldEight(0xa258, 0x53, 0x54, 0x41, 0x54, 0x55, 0x53, 0x20, 0x69);
    FoldAppend(X25_INIT_CRC, s0, t1);
    var s1 := s0 + t1;
    assert Fold(X25_INIT_CRC, s1) == 0x3c4a;
    var t2: seq<byte> := [0x6e, 0x74, 0x33, 0x32, 0x5f, 0x74, 0x20, 0x63];
    FoldEight(0x3c4a, 0x6e, 0x74, 0x33, 0x32, 0x5f, 0x74, 0x20, 0x63);
    FoldAppend(X25_INIT_CRC, s1, t2);
    var s2 := s1 + t2;
    assert Fold(X25_INIT_CRC, s2) == 0x46c8;
    var t3: seq<byte> := [0x75, 0x72, 0x72, 0x65, 0x6e, 0x74, 0x5f, 0x63];
    FoldEight(0x46c8, 0x75, 0x72, 0x72, 0x65, 0x6e, 0x74, 0x5f, 0x63);
    FoldAppend(X25_INIT_CRC, s2, t3);
    var s3 := s2 + t3;
    assert Fold(X25_INIT_CRC, s3) == 0xba86;
    var t4: seq<byte> := [0x6f, 0x6e, 0x73, 0x75, 0x6d, 0x65, 0x64, 0x20];
    FoldEight(0xba86, 0x6f, 0x6e, 0x73, 0x75, 0x6d, 0x65, 0x64, 0x20);
    FoldAppend(X25_INIT_CRC, s3, t4);
    var s4 := s3 + t4;
    assert Fold(X25_INIT_CRC, s4) == 0xd833;
    var t5: seq<byte> := [0x69, 0x6e, 0x74, 0x33, 0x32, 0x5f, 0x74, 0x20];
    FoldEight(0xd833, 0x69, 0x6e, 0x74, 0x33, 0x32, 0x5f, 0x74, 0x20);
    FoldAppend(X25_INIT_CRC, s4, t5);
    var s5 := s4 + t5;
    assert Fold(X25_INIT_CRC, s5) == 0x0676;
    var t6: seq<byte> := [0x65, 0x6e, 0x65, 0x72, 0x67, 0x79, 0x5f, 0x63];
    FoldEight(0x0676, 0x65, 0x6e, 0x65, 0x72, 0x67, 0x79, 0x5f, 0x63);
    FoldAppend(X25_INIT_CRC, s5, t6);
    var s6 := s5 + t6;
    assert Fold(X25_INIT_CRC, s6) == 0xe82d;
    var t7: seq<byte> := [0x6f, 0x6e, 0x73, 0x75, 0x6d, 0x65, 0x64, 0x20];
    FoldEight(0xe82d, 0x6f, 0x6e, 0x73, 0x75, 0x6d, 0x65, 0x64, 0x20);
    FoldAppend(X25_INIT_CRC, s6, t7);
    var s7 := s6 + t7;
    assert Fold(X25_INIT_CRC, s7) == 0x4739;
    var t8: seq<byte> := [0x69, 0x6e, 0x74, 0x31, 0x36, 0x5f, 0x74, 0x20];
    FoldEight(0x4739, 0x69, 0x6e, 0x74, 0x31, 0x36, 0x5f, 0x74, 0x20);
    FoldAppend(X25_INIT_CRC, s7, t8);
    var s8 := s7 + t8;
    assert Fold(X25_INIT_CRC, s8) == 0x6ee1;
    var t9: seq<byte> := [0x74, 0x65, 0x6d, 0x70, 0x65, 0x72, 0x61, 0x74];
    FoldEight(0x6ee1, 0x74, 0x65, 0x6d, 0x70, 0x65, 0x72, 0x61, 0x74);
    FoldAppend(X25_INIT_CRC, s8, t9);
    var s9 := s8 + t9;
    assert Fold(X25_INIT_CRC, s9) == 0x5d19;
    var t10: seq<byte> := [0x75, 0x72, 0x65, 0x20, 0x75, 0x69, 0x6e, 0x74];
    FoldEight(0x5d19, 0x75, 0x72, 0x65, 0x20, 0x75, 0x69, 0x6e, 0x74);
    FoldAppend(X25_INIT_CRC, s9, t10);
    var s10 := s9 + t10;
    assert Fold(X25_INIT_CRC, s10) == 0x0614;
    var t11: seq<byte> := [0x31, 0x36, 0x5f, 0x74, 0x20, 0x76, 0x6f, 0x6c];
    FoldEight(0x0614, 0x31, 0x36, 0x5f, 0x74, 0x20, 0x76, 0x6f, 0x6c);
    FoldAppend(X25_INIT_CRC, s10, t11);
    var s11 := s10 + t11;
    assert Fold(X25_INIT_CRC, s11) == 0x2475;
    var t12: seq<byte> := [0x74, 0x61, 0x67, 0x65, 0x73, 0x20, 0x0a, 0x69];
    FoldEight(0x2475, 0x74, 0x61, 0x67, 0x65, 0x73, 0x20, 0x0a, 0x69);
    FoldAppend(X25_INIT_CRC, s11, t12);
    var s12 := s11 + t12;
    assert Fold(X25_INIT_CRC, s12) == 0xd599;
    var t13: seq<byte> := [0x6e, 0x74, 0x31, 0x36, 0x5f, 0x74, 0x20, 0x63];
    FoldEight(0xd599, 0x6e, 0x74, 0x31, 0x36, 0x5f, 0x74, 0x20, 0x63);
    FoldAppend(X25_INIT_CRC, s12, t13);
    var s13 := s12 + t13;
    assert Fold(X25_INIT_CRC, s13) == 0x7f94;
    var t14: seq<byte> := [0x75, 0x72, 0x72, 0x65, 0x6e, 0x74, 0x5f, 0x62];
    FoldEight(0x7f94, 0x75, 0x72, 0x72, 0x65, 0x6e, 0x74, 0x5f, 0x62);
    FoldAppend(X25_INIT_CRC, s13, t14);
    var s14 := s13 + t14;
    assert Fold(X25_INIT_CRC, s14) == 0x3997;
    var t15: seq<byte> := [0x61, 0x74, 0x74, 0x65, 0x72, 0x79, 0x20, 0x75];
    FoldEight(0x3997, 0x61, 0x74, 0x74, 0x65, 0x72, 0x79, 0x20, 0x75);
    FoldAppend(X25_INIT_CRC, s14, t15);
    var s15 := s14 + t15;
    assert Fold(X25_INIT_CRC, s15) == 0x9dc5;
    var t16: seq<byte> := [0x69, 0x6e, 0x74, 0x38, 0x5f, 0x74, 0x20, 0x69];
    FoldEight(0x9dc5, 0x69, 0x6e, 0x74, 0x38, 0x5f, 0x74, 0x20, 0x69);
    FoldAppend(X25_INIT_CRC, s15, t16);
    var s16 := s15 + t16;
    assert Fold(X25_INIT_CRC, s16) == 0x7bb1;
    var t17: seq<byte> := [0x64, 0x20, 0x75, 0x69, 0x6e, 0x74, 0x38, 0x5f];
    FoldEight(0x7bb1, 0x64, 0x20, 0x75, 0x69, 0x6e, 0x74, 0x38, 0x5f);
    FoldAppend(X25_INIT_CRC, s16, t17);
    var s17 := s16 + t17;
    assert Fold(X25_INIT_CRC, s17) == 0x4119;
    var t18: seq<byte> := [0x74, 0x20, 0x62, 0x61, 0x74, 0x74, 0x65, 0x72];
    FoldEight(0x4119, 0x74, 0x20, 0x62, 0x61, 0x74, 0x74, 0x65, 0x72);
    FoldAppend(X25_INIT_CRC, s17, t18);
    var s18 := s17 + t18;
    assert Fold(X25_INIT_CRC, s18) == 0xf7f4;
    var t19: seq<byte> := [0x79, 0x5f, 0x66, 0x75, 0x6e, 0x63, 0x74, 0x69];
    FoldEight(0xf7f4, 0x79, 0x5f, 0x66, 0x75, 0x6e, 0x63, 0x74, 0x69);
    FoldAppend(X25_INIT_CRC, s18, t19);
    var s19 := s18 + t19;
    assert Fold(X25_INIT_CRC, s19) == 0x524d;
    var t20: seq<byte> := [0x6f, 0x6e, 0x20, 0x75, 0x69, 0x6e, 0x74, 0x38];
    FoldEight(0x524d, 0x6f, 0x6e, 0x20, 0x75, 0x69, 0x6e, 0x74, 0x38);
    FoldAppend(X25_INIT_CRC, s19, t20);
    var s20 := s19 + t20;
    assert Fold(X25_INIT_CRC, s20) == 0x3336;
    var t21: seq<byte> := [0x5f, 0x74, 0x20, 0x74, 0x79, 0x70, 0x65, 0x20];
    FoldEight(0x3336, 0x5f, 0x74, 0x20, 0x74, 0x79, 0x70, 0x65, 0x20);
    FoldAppend(X25_INIT_CRC, s20, t21);
    var s21 := s20 + t21;
    assert Fold(X25_INIT_CRC, s21) == 0xdb8e;
    var t22: seq<byte> := [0x69, 0x6e, 0x74, 0x38, 0x5f, 0x74, 0x20, 0x62];
    FoldEight(0xdb8e, 0x69, 0x6e, 0x74, 0x38, 0x5f, 0x74, 0x20, 0x62);
    FoldAppend(X25_INIT_CRC, s21, t22);
    var s22 := s21 + t22;
    assert Fold(X25_INIT_CRC, s22) == 0x9834;
    var t23: seq<byte> := [0x61, 0x74, 0x74, 0x65, 0x72, 0x79, 0x5f, 0x72];
    FoldEight(0x9834, 0x61, 0x74, 0x74, 0x65, 0x72, 0x79, 0x5f, 0x72);
    FoldAppend(X25_INIT_CRC, s22, t23);
    var s23 := s22 + t23;
    assert Fold(X25_INIT_CRC, s23) == 0x17ff;
    var t24: seq<byte> := [0x65, 0x6d, 0x61, 0x69, 0x6e, 0x69, 0x6e, 0x67];
    FoldEight(0x17ff, 0x65, 0x6d, 0x61, 0x69, 0x6e, 0x69, 0x6e, 0x67);
    FoldAppend(X25_INIT_CRC, s23, t24);
    var s24 := s23 + t24;
    assert Fold(X25_INIT_CRC, s24) == 0x7b16;
    var t25: seq<byte> := [0x20];
    FoldOne(0x7b16, 0x20);
    FoldAppend(X25_INIT_CRC, s24, t25);
    var s25 := s24 + t25;
    assert Fold(X25_INIT_CRC, s25) == 0x54ce;
  }

  /** The message's extra byte is made of the two halves of that checksum. */
  lemma ExtraByteOfDefinition(text: seq<byte>)
    requires text == DEFINITION
    ensures Differ(Low(Crc(text)), High(Crc(text))) == MSG_CRC
  {
    hide Crc;
    DefinitionCrc(text);
  }

}
