/** What the sixteen-state parser recognises, said without its states: the receiver keeps the bytes
    since a start marker, and the frame layout alone decides when they are complete and good. */
module Receiver {
  import opened Bytes
  import opened MessageTable
  import opened Wire
  import opened Signing
  import opened Status

  /** `v1` is the IN_MAVLINK1 flag, which outlives the frame it was set for. */
  datatype Receiver = Receiver(v1: bool, hist: seq<byte>, security: Security)

  datatype Step = Step(next: Receiver, result: Framing)

  /** One byte of input, and the answer that the accept-unsigned callback gives if this byte leads to
      its being asked (a missing callback answers no). */
  datatype Input = Input(c: byte, allow: bool)

  /** The claim of a complete signed frame. */
  function FrameClaim(key: seq<byte>, h: seq<byte>): Claim
    requires |h| >= 10 && |h| == CrcEnd(false, h) + SIGNATURE_BLOCK_LEN
  {
    ClaimOf(key, h[5], h[6], h[..CrcEnd(false, h)], h[CrcEnd(false, h)..])
  }

  function CheckFrame(sec: Security, h: seq<byte>): (Security, bool)
    requires |h| >= 10 && |h| == CrcEnd(false, h) + SIGNATURE_BLOCK_LEN
  {
    if sec.Unsecured? then (sec, true) else Check(sec, FrameClaim(sec.key, h))
  }

  /** `mavlink_frame_char_buffer`: one byte. */
  function FrameStep(table: seq<MsgEntry>, r: Receiver, c: byte, allow: bool): Step {
    if r.hist == [] then
      if c == STX then Step(r.(v1 := false, hist := [c]), Incomplete)
      else if c == STX_V1 then Step(r.(v1 := true, hist := [c]), Incomplete)
      else Step(r, Incomplete)
    else
      var h := r.hist + [c];
      if |h| < 3 then Step(r.(hist := h), Incomplete)
      else if |h| == 3 && !r.v1 && UnknownFlags(c) then Step(r.(hist := []), Incomplete)
      else if |h| == CrcEnd(r.v1, h) then AtCrcEnd(table, r, h, allow)
      else if |h| < FrameLen(r.v1, h) then Step(r.(hist := h), Incomplete)
      else if |h| == FrameLen(r.v1, h) then AtSignatureEnd(r, h, allow)
      else Step(r.(hist := []), Incomplete)
  }

  function AtCrcEnd(table: seq<MsgEntry>, r: Receiver, h: seq<byte>, allow: bool): Step
    requires |h| >= 3 && |h| == CrcEnd(r.v1, h)
  {
    var good := CrcMatches(table, r.v1, h);
    if Signed(r.v1, h) then Step(r.(hist := h), if good then Incomplete else BadCrc)
    else Step(r.(hist := []), if !good then BadCrc else if r.security.Secured? && !allow then BadSig else Ok)
  }

  function AtSignatureEnd(r: Receiver, h: seq<byte>, allow: bool): Step
    requires |h| >= 3 && |h| == FrameLen(r.v1, h) && Signed(r.v1, h)
  {
    var (security, ok) := CheckFrame(r.security, h);
    Step(r.(hist := [], security := security), if ok || allow then Ok else BadSig)
  }

  /** `mavlink_parse_char`: a bad frame is a parse failure, and its last byte may be a start marker. */
  function ParseStep(table: seq<MsgEntry>, r: Receiver, c: byte, allow: bool): Step {
    var s := FrameStep(table, r, c, allow);
    if s.result == BadCrc || s.result == BadSig
    then Step(s.next.(hist := if c == STX then [c] else []), Incomplete)
    else s
  }

  function Feed(table: seq<MsgEntry>, r: Receiver, ins: seq<Input>): Receiver {
    if ins == [] then r
    else ParseStep(table, Feed(table, r, ins[..|ins| - 1]), ins[|ins| - 1].c, ins[|ins| - 1].allow).next
  }

  /** What `mavlink_parse_char` returns for the i-th byte of a stream. */
  function Result(table: seq<MsgEntry>, r: Receiver, ins: seq<Input>, i: nat): Framing
    requires i < |ins|
  {
    ParseStep(table, Feed(table, r, ins[..i]), ins[i].c, ins[i].allow).result
  }

  /** A run of `mavlink_frame_char_buffer` on its own, and its answer to the i-th byte. */
  function RawFeed(table: seq<MsgEntry>, r: Receiver, ins: seq<Input>): Receiver {
    if ins == [] then r
    else FrameStep(table, RawFeed(table, r, ins[..|ins| - 1]), ins[|ins| - 1].c, ins[|ins| - 1].allow).next
  }

  function RawResult(table: seq<MsgEntry>, r: Receiver, ins: seq<Input>, i: nat): Framing
    requires i < |ins|
  {
    FrameStep(table, RawFeed(table, r, ins[..i]), ins[i].c, ins[i].allow).result
  }

  function Stream(ins: seq<Input>): (s: seq<byte>)
    ensures |s| == |ins|
  {
    seq(|ins|, i requires 0 <= i < |ins| => ins[i].c)
  }

  // ----- the run invariant -----

  /** The start of a frame that no byte so far has ruled out. */
  predicate Plausible(v1: bool, h: seq<byte>) {
    && |h| >= 1 && (h[0] == STX || h[0] == STX_V1) && (h[0] == STX_V1 ==> v1)
    && (|h| >= 3 && !v1 ==> !UnknownFlags(h[2]))
    && (|h| >= 3 ==> |h| < FrameLen(v1, h))
  }

  /** Idle, or within a frame; and whoever waits for a signature has seen a good checksum. */
  predicate InOrder(table: seq<MsgEntry>, r: Receiver) {
    r.hist != [] ==> (
      && Plausible(r.v1, r.hist)
      && (|r.hist| >= 3 && |r.hist| >= CrcEnd(r.v1, r.hist) ==>
        Signed(r.v1, r.hist) && CrcMatches(table, r.v1, r.hist)))
  }

  /** A complete frame: known flags, the length it announces, and a matching checksum. */
  predicate WellFormed(table: seq<MsgEntry>, v1: bool, h: seq<byte>) {
    && |h| >= 3 && (h[0] == STX || h[0] == STX_V1) && (h[0] == STX_V1 ==> v1)
    && (!v1 ==> !UnknownFlags(h[2]))
    && |h| == FrameLen(v1, h) && CrcMatches(table, v1, h)
  }

  lemma PrefixesAgree(table: seq<MsgEntry>, v1: bool, p: seq<byte>, h: seq<byte>)
    requires |p| >= 3 && p <= h
    ensures PayloadLen(p) == PayloadLen(h) && CrcEnd(v1, p) == CrcEnd(v1, h) && Signed(v1, p) == Signed(v1, h)
    ensures FrameLen(v1, p) == FrameLen(v1, h)
    ensures |p| >= CrcEnd(v1, p) ==> CrcMatches(table, v1, p) == CrcMatches(table, v1, h)
  {
    hide CrcExtra, ToByte, FromByte, SignedFlag;
    assert p[1] == h[1] && p[2] == h[2];
    if |p| >= CrcEnd(v1, p) {
      assert p[1..BodyEnd(v1, p)] == h[1..BodyEnd(v1, h)];
      assert p[BodyEnd(v1, p)..CrcEnd(v1, p)] == h[BodyEnd(v1, h)..CrcEnd(v1, h)];
      assert p[5] == h[5];
      if !v1 {
        assert p[7] == h[7] && p[8] == h[8] && p[9] == h[9];
      }
    }
  }

  /** Every byte keeps `mavlink_parse_char` in order, whatever it is. */
  lemma ParseKeepsOrder(table: seq<MsgEntry>, r: Receiver, c: byte, allow: bool)
    requires InOrder(table, r)
    ensures InOrder(table, ParseStep(table, r, c, allow).next)
  {
    hide CheckFrame, ExpectedCrc, CrcMatches, UnknownFlags, SignedFlag, FromByte;
    var h := r.hist + [c];
    if |r.hist| >= 3 {
      PrefixesAgree(table, r.v1, r.hist, h);
    }
  }
}
