/** What holds of whole streams of bytes. */
module ParserTheorems {
  import opened Bytes
  import opened Checksum
  import opened MessageTable
  import opened Wire
  import opened Signing
  import opened Status
  import opened Receiver
  import opened ParserState

  // ----- runs -----

  lemma {:induction false} FeedSplits(table: seq<MsgEntry>, r: Receiver, a: seq<Input>, b: seq<Input>)
    ensures Feed(table, r, a + b) == Feed(table, Feed(table, r, a), b)
  {
    hide ParseStep;
    if b == [] {
      assert a + b == a;
    } else {
      assert (a + b)[..|a + b| - 1] == a + b[..|b| - 1];
      FeedSplits(table, r, a, b[..|b| - 1]);
    }
  }

  lemma {:induction false} FeedKeepsOrder(table: seq<MsgEntry>, r: Receiver, ins: seq<Input>)
    requires InOrder(table, r)
    ensures InOrder(table, Feed(table, r, ins))
  {
    hide ParseStep, InOrder;
    if ins != [] {
      var init, last := ins[..|ins| - 1], ins[|ins| - 1];
      FeedKeepsOrder(table, r, init);
      ParseKeepsOrder(table, Feed(table, r, init), last.c, last.allow);
    }
  }

  // One step either extends the history by the byte, or starts it afresh.
  lemma HistoryStep(table: seq<MsgEntry>, r: Receiver, c: byte, allow: bool)
    ensures var next := ParseStep(table, r, c, allow).next.hist;
      next == r.hist + [c] || next == [] || next == [c]
    ensures ParseStep(table, r, c, allow).result == Ok ==> ParseStep(table, r, c, allow).next.hist == []
    ensures ParseStep(table, r, c, allow).next.security.Secured? <==> r.security.Secured?
  {
    hide CrcMatches, FromByte, SignedFlag, UnknownFlags, FrameClaim, Judge;
  }

  /** The history is what the stream ends with. */
  lemma {:induction false} HistoryIsSuffix(table: seq<MsgEntry>, r: Receiver, ins: seq<Input>)
    requires r.hist == []
    ensures var h := Feed(table, r, ins).hist; |h| <= |ins| && h == Stream(ins)[|ins| - |h|..]
  {
    hide ParseStep;
    if ins != [] {
      var init, last := ins[..|ins| - 1], ins[|ins| - 1];
      HistoryIsSuffix(table, r, init);
      HistoryStep(table, Feed(table, r, init), last.c, last.allow);
      assert Stream(ins) == Stream(init) + [last.c];
    }
  }

  // ----- soundness -----

  /** What `mavlink_parse_char` vouches for when it answers OK for the frame `h`: the layout, the checksum,
      and, on a channel with signing, a good signature or the callback's consent. */
  predicate Vouched(table: seq<MsgEntry>, r: Receiver, h: seq<byte>, allow: bool) {
    && WellFormed(table, r.v1, h)
    && (r.security.Secured? && !allow ==> Signed(r.v1, h) && |h| >= 10 && CheckFrame(r.security, h).1)
  }

  lemma OkStepIsVouched(table: seq<MsgEntry>, r: Receiver, c: byte, allow: bool)
    requires InOrder(table, r) && ParseStep(table, r, c, allow).result == Ok
    ensures r.hist != [] && Vouched(table, r, r.hist + [c], allow)
  {
    hide CrcMatches, FromByte, SignedFlag, UnknownFlags, CheckFrame;
    var h := r.hist + [c];
    if |r.hist| >= 3 {
      PrefixesAgree(table, r.v1, r.hist, h);
    }
  }

  /** Soundness over every byte stream and every behaviour of the callback: at an OK, the bytes consumed
      last are one contiguous, well-formed frame, vouched for in the state they arrived in. */
  lemma Soundness(table: seq<MsgEntry>, r: Receiver, ins: seq<Input>, i: nat)
    requires r.hist == [] && i < |ins| && Result(table, r, ins, i) == Ok
    ensures var before := Feed(table, r, ins[..i]);
      var n := |before.hist| + 1;
      n <= i + 1 && Vouched(table, before, Stream(ins)[i + 1 - n..i + 1], ins[i].allow)
  {
    hide ParseStep, Vouched, InOrder;
    var before := Feed(table, r, ins[..i]);
    StartsInOrder(table, r);
    FeedKeepsOrder(table, r, ins[..i]);
    HistoryIsSuffix(table, r, ins[..i]);
    OkStepIsVouched(table, before, ins[i].c, ins[i].allow);
    var n := |before.hist| + 1;
    EndOfStream(before.hist, ins, i);
  }

  // A history at the end of the first i bytes, and the next byte.
  lemma EndOfStream(h: seq<byte>, ins: seq<Input>, i: nat)
    requires i < |ins| && |h| <= i && h == Stream(ins[..i])[i - |h|..]
    ensures Stream(ins)[i - |h|..i + 1] == h + [ins[i].c]
  {
    var s, begun := Stream(ins), Stream(ins)[..i];
    assert begun == Stream(ins[..i]);
    assert s[i - |h|..i] == h;
    assert s[i] == ins[i].c;
  }

  lemma StartsInOrder(table: seq<MsgEntry>, r: Receiver)
    requires r.hist == []
    ensures InOrder(table, r)
  {
  }

  /** Accepted frames do not overlap: the second begins after the end of the first. */
  lemma AcceptedFramesAreDisjoint(table: seq<MsgEntry>, r: Receiver, ins: seq<Input>, i: nat, j: nat)
    requires r.hist == [] && i < j < |ins|
    requires Result(table, r, ins, i) == Ok
    ensures |Feed(table, r, ins[..j]).hist| < j - i
  {
    hide ParseStep;
    var first, rest := ins[..i + 1], ins[i + 1..j];
    assert first[..i] == ins[..i] && first + rest == ins[..j];
    FeedSplits(table, r, first, rest);
    HistoryStep(table, Feed(table, r, ins[..i]), ins[i].c, ins[i].allow);
    HistoryIsSuffix(table, Feed(table, r, first), rest);
  }

  // ----- progress -----

  /** How many more bytes the frame in progress can take. */
  function BytesLeft(r: Receiver): nat
    requires Plausible(r.v1, r.hist)
  {
    if |r.hist| < 3 then MAX_PACKET_LEN - |r.hist| else FrameLen(r.v1, r.hist) - |r.hist|
  }

  /** Where an attempt of `mavlink_parse_char` has ended: idle, or restarted on a marker. */
  predicate AtEnd(hist: seq<byte>) {
    hist == [] || hist == [STX]
  }

  /** Every byte to `mavlink_parse_char` brings a frame attempt nearer to its end. */
  lemma EveryByteCounts(table: seq<MsgEntry>, r: Receiver, c: byte, allow: bool)
    requires InOrder(table, r) && r.hist != []
    ensures 1 <= |r.hist| && |r.hist| + BytesLeft(r) <= MAX_PACKET_LEN && BytesLeft(r) > 0
    ensures var next := ParseStep(table, r, c, allow).next;
      || AtEnd(next.hist)
      || (InOrder(table, next) && BytesLeft(next) < BytesLeft(r) && next.hist == r.hist + [c])
  {
    ParseKeepsOrder(table, r, c, allow);
    hide CrcMatches, FromByte, SignedFlag, UnknownFlags, CheckFrame;
    var h := r.hist + [c];
    if |r.hist| >= 3 {
      PrefixesAgree(table, r.v1, r.hist, h);
    }
  }

  /** The same of `mavlink_frame_char_buffer` on its own. */
  lemma EveryRawByteCounts(table: seq<MsgEntry>, r: Receiver, c: byte, allow: bool)
    requires RawOrder(r.v1, r.hist) && r.hist != []
    ensures 1 <= |r.hist| && |r.hist| + BytesLeft(r) <= MAX_PACKET_LEN && BytesLeft(r) > 0
    ensures var next := FrameStep(table, r, c, allow).next;
      || next.hist == []
      || (RawOrder(next.v1, next.hist) && BytesLeft(next) < BytesLeft(r) && next.hist == r.hist + [c])
  {
    hide CrcMatches, FromByte, SignedFlag, UnknownFlags, CheckFrame;
    var h := r.hist + [c];
    if |r.hist| >= 3 {
      PrefixesAgree(table, r.v1, r.hist, h);
    }
  }

  lemma RawStartKeepsOrder(table: seq<MsgEntry>, r: Receiver, c: byte, allow: bool)
    requires r.hist == []
    ensures var next := FrameStep(table, r, c, allow).next; RawOrder(next.v1, next.hist)
  {
  }

  lemma {:induction false} RawFeedKeepsOrder(table: seq<MsgEntry>, r: Receiver, ins: seq<Input>)
    requires RawOrder(r.v1, r.hist)
    ensures var after := RawFeed(table, r, ins); RawOrder(after.v1, after.hist)
  {
    hide FrameStep, RawOrder;
    if ins != [] {
      var init, last := ins[..|ins| - 1], ins[|ins| - 1];
      RawFeedKeepsOrder(table, r, init);
      var before := RawFeed(table, r, init);
      if before.hist == [] {
        RawStartKeepsOrder(table, before, last.c, last.allow);
      } else {
        EveryRawByteCounts(table, before, last.c, last.allow);
        IdleIsRawOrder(FrameStep(table, before, last.c, last.allow).next.v1);
      }
    }
  }

  lemma IdleIsRawOrder(v1: bool)
    ensures RawOrder(v1, [])
  {
  }

  lemma OneMoreIsFed(table: seq<MsgEntry>, r: Receiver, first: Input, rest: seq<Input>)
    ensures Feed(table, r, [first] + rest) == Feed(table, ParseStep(table, r, first.c, first.allow).next, rest)
    ensures Feed(table, ParseStep(table, r, first.c, first.allow).next, []) == ParseStep(table, r, first.c, first.allow).next
    ensures RawFeed(table, FrameStep(table, r, first.c, first.allow).next, []) == FrameStep(table, r, first.c, first.allow).next
    ensures RawFeed(table, r, [first] + rest) == RawFeed(table, FrameStep(table, r, first.c, first.allow).next, rest)
  {
    hide ParseStep, FrameStep;
    FeedSplits(table, r, [first], rest);
    RawFeedSplits(table, r, [first], rest);
    assert [first][..0] == [];
  }

  lemma {:induction false} RawFeedSplits(table: seq<MsgEntry>, r: Receiver, a: seq<Input>, b: seq<Input>)
    ensures RawFeed(table, r, a + b) == RawFeed(table, RawFeed(table, r, a), b)
  {
    hide FrameStep;
    if b == [] {
      assert a + b == a;
    } else {
      assert (a + b)[..|a + b| - 1] == a + b[..|b| - 1];
      RawFeedSplits(table, r, a, b[..|b| - 1]);
    }
  }

  /** Whether an attempt of `mavlink_parse_char` ends within the next `bound` bytes. */
  ghost predicate EndsWithin(table: seq<MsgEntry>, r: Receiver, ins: seq<Input>, bound: nat) {
    exists n :: 1 <= n <= bound && n <= |ins| && AtEnd(Feed(table, r, ins[..n]).hist)
  }

  lemma EndsNow(table: seq<MsgEntry>, r: Receiver, ins: seq<Input>, bound: nat)
    requires |ins| > 0 && bound > 0 && AtEnd(ParseStep(table, r, ins[0].c, ins[0].allow).next.hist)
    ensures EndsWithin(table, r, ins, bound)
  {
    hide ParseStep, Feed, AtEnd;
    FirstAndMore(ins, 0);
    OneMoreIsFed(table, r, ins[0], []);
  }

  lemma EndsLater(table: seq<MsgEntry>, r: Receiver, ins: seq<Input>, bound: nat)
    requires |ins| > 0 && EndsWithin(table, ParseStep(table, r, ins[0].c, ins[0].allow).next, ins[1..], bound)
    ensures EndsWithin(table, r, ins, bound + 1)
  {
    hide ParseStep, Feed, AtEnd;
    var first, rest := ins[0], ins[1..];
    var next := ParseStep(table, r, first.c, first.allow).next;
    var n :| 1 <= n <= bound && n <= |rest| && AtEnd(Feed(table, next, rest[..n]).hist);
    FirstAndMore(ins, n);
    OneMoreIsFed(table, r, first, rest[..n]);
  }

  lemma FirstAndMore<T>(s: seq<T>, n: nat)
    requires n < |s|
    ensures s[..n + 1] == [s[0]] + s[1..][..n]
  {
  }

  lemma EndsWithinMore(table: seq<MsgEntry>, r: Receiver, ins: seq<Input>, bound: nat, more: nat)
    requires EndsWithin(table, r, ins, bound) && bound <= more
    ensures EndsWithin(table, r, ins, more)
  {
    hide Feed, AtEnd;
  }

  /** Every attempt of `mavlink_parse_char` ends: within the bytes left to it, which with those it has are at most
      280, the receiver is idle again or has restarted on a marker. */
  lemma {:induction false} AttemptEnds(table: seq<MsgEntry>, r: Receiver, ins: seq<Input>)
    requires InOrder(table, r) && r.hist != [] && |ins| >= BytesLeft(r)
    ensures |r.hist| + BytesLeft(r) <= MAX_PACKET_LEN && EndsWithin(table, r, ins, BytesLeft(r))
    decreases BytesLeft(r)
  {
    hide ParseStep, Feed, InOrder, BytesLeft, Plausible, AtEnd, EndsWithin;
    InOrderIsPlausible(table, r);
    EveryByteCounts(table, r, 0, false);
    EveryByteCounts(table, r, ins[0].c, ins[0].allow);
    var next := ParseStep(table, r, ins[0].c, ins[0].allow).next;
    if AtEnd(next.hist) {
      EndsNow(table, r, ins, BytesLeft(r));
    } else {
      InOrderIsPlausible(table, next);
      AttemptEnds(table, next, ins[1..]);
      EndsLater(table, r, ins, BytesLeft(next));
      EndsWithinMore(table, r, ins, BytesLeft(next) + 1, BytesLeft(r));
    }
  }

  lemma InOrderIsPlausible(table: seq<MsgEntry>, r: Receiver)
    requires r.hist != []
    ensures InOrder(table, r) ==> Plausible(r.v1, r.hist)
    ensures RawOrder(r.v1, r.hist) ==> Plausible(r.v1, r.hist)
  {
  }

  /** And every attempt of `mavlink_frame_char_buffer` ends idle. */
  lemma {:induction false} RawAttemptEnds(table: seq<MsgEntry>, r: Receiver, ins: seq<Input>)
    requires RawOrder(r.v1, r.hist) && r.hist != [] && |ins| >= BytesLeft(r)
    ensures |r.hist| + BytesLeft(r) <= MAX_PACKET_LEN
    ensures exists n :: 1 <= n <= BytesLeft(r) && RawFeed(table, r, ins[..n]).hist == []
    decreases BytesLeft(r)
  {
    hide FrameStep, RawFeed, RawOrder, BytesLeft, Plausible;
    InOrderIsPlausible(table, r);
    EveryRawByteCounts(table, r, 0, false);
    var first, rest := ins[0], ins[1..];
    var next := FrameStep(table, r, first.c, first.allow).next;
    EveryRawByteCounts(table, r, first.c, first.allow);
    if next.hist == [] {
      FirstAndMore(ins, 0);
      OneMoreIsFed(table, r, first, []);
    } else {
      InOrderIsPlausible(table, next);
      RawAttemptEnds(table, next, rest);
      var n :| 1 <= n <= BytesLeft(next) && RawFeed(table, next, rest[..n]).hist == [];
      FirstAndMore(ins, n);
      OneMoreIsFed(table, r, first, rest[..n]);
    }
  }

  /** In every run of either parser from idle, a frame in progress has fewer than 280 bytes, and whatever comes
      next it has ended by its 280th. */
  lemma RunsStayShort(table: seq<MsgEntry>, r: Receiver, ins: seq<Input>, more: seq<Input>)
    requires r.hist == []
    ensures var h := Feed(table, r, ins).hist;
      && |h| < MAX_PACKET_LEN
      && (h != [] && |more| >= MAX_PACKET_LEN - |h| ==> exists n ::
            1 <= n <= MAX_PACKET_LEN - |h| && AtEnd(Feed(table, r, ins + more[..n]).hist))
    ensures var h := RawFeed(table, r, ins).hist;
      && |h| < MAX_PACKET_LEN
      && (h != [] && |more| >= MAX_PACKET_LEN - |h| ==> exists n ::
            1 <= n <= MAX_PACKET_LEN - |h| && RawFeed(table, r, ins + more[..n]).hist == [])
  {
    ParseRunsStayShort(table, r, ins, more);
    RawRunsStayShort(table, r, ins, more);
  }

  lemma ParseRunsStayShort(table: seq<MsgEntry>, r: Receiver, ins: seq<Input>, more: seq<Input>)
    requires r.hist == []
    ensures var h := Feed(table, r, ins).hist;
      && |h| < MAX_PACKET_LEN
      && (h != [] && |more| >= MAX_PACKET_LEN - |h| ==> exists n ::
            1 <= n <= MAX_PACKET_LEN - |h| && AtEnd(Feed(table, r, ins + more[..n]).hist))
  {
    hide ParseStep, InOrder, BytesLeft, Plausible, Feed;
    var now := Feed(table, r, ins);
    StartsInOrder(table, r);
    FeedKeepsOrder(table, r, ins);
    if now.hist != [] {
      InOrderIsPlausible(table, now);
      EveryByteCounts(table, now, 0, false);
      if |more| >= MAX_PACKET_LEN - |now.hist| {
        AttemptEnds(table, now, more);
        var n :| 1 <= n <= BytesLeft(now) && n <= |more| && AtEnd(Feed(table, now, more[..n]).hist);
        FeedSplits(table, r, ins, more[..n]);
      }
    }
  }

  lemma RawRunsStayShort(table: seq<MsgEntry>, r: Receiver, ins: seq<Input>, more: seq<Input>)
    requires r.hist == []
    ensures var h := RawFeed(table, r, ins).hist;
      && |h| < MAX_PACKET_LEN
      && (h != [] && |more| >= MAX_PACKET_LEN - |h| ==> exists n ::
            1 <= n <= MAX_PACKET_LEN - |h| && RawFeed(table, r, ins + more[..n]).hist == [])
  {
    hide FrameStep, RawOrder, BytesLeft, Plausible, RawFeed;
    var now := RawFeed(table, r, ins);
    IdleIsRawOrder(r.v1);
    RawFeedKeepsOrder(table, r, ins);
    if now.hist != [] {
      InOrderIsPlausible(table, now);
      EveryRawByteCounts(table, now, 0, false);
      if |more| >= MAX_PACKET_LEN - |now.hist| {
        RawAttemptEnds(table, now, more);
        var n :| 1 <= n <= BytesLeft(now) && RawFeed(table, now, more[..n]).hist == [];
        RawFeedSplits(table, r, ins, more[..n]);
      }
    }
  }

  // ----- resynchronisation -----

  predicate NoMarker(ins: seq<Input>) {
    forall i :: 0 <= i < |ins| ==> ins[i].c != STX && ins[i].c != STX_V1
  }

  lemma QuietByte(table: seq<MsgEntry>, r: Receiver, c: byte, allow: bool)
    requires c != STX && c != STX_V1
    ensures var next := ParseStep(table, r, c, allow).next;
      (AtEnd(next.hist) ==> next.hist == []) && (r.hist == [] ==> next.hist == [])
  {
    hide CrcMatches, FromByte, SignedFlag, UnknownFlags, CheckFrame;
  }

  lemma {:induction false} StaysIdle(table: seq<MsgEntry>, r: Receiver, ins: seq<Input>)
    requires r.hist == [] && NoMarker(ins)
    ensures Feed(table, r, ins).hist == []
  {
    hide ParseStep;
    if ins != [] {
      var init, last := ins[..|ins| - 1], ins[|ins| - 1];
      StaysIdle(table, r, init);
      QuietByte(table, Feed(table, r, init), last.c, last.allow);
    }
  }

  /** From every state of a run, 280 bytes without a marker bring `mavlink_parse_char` to idle. */
  lemma QuietMeansIdle(table: seq<MsgEntry>, r: Receiver, ins: seq<Input>)
    requires InOrder(table, r) && NoMarker(ins) && |ins| >= MAX_PACKET_LEN
    ensures Feed(table, r, ins).hist == []
  {
    hide ParseStep, Feed, InOrder, BytesLeft, Plausible, AtEnd, NoMarker;
    if r.hist == [] {
      StaysIdle(table, r, ins);
    } else {
      InOrderIsPlausible(table, r);
      EveryByteCounts(table, r, 0, false);
      AttemptEnds(table, r, ins);
      var n :| 1 <= n <= BytesLeft(r) && n <= |ins| && AtEnd(Feed(table, r, ins[..n]).hist);
      IdleFromEnd(table, r, ins, n);
    }
  }

  lemma IdleFromEnd(table: seq<MsgEntry>, r: Receiver, ins: seq<Input>, n: nat)
    requires NoMarker(ins) && 1 <= n <= |ins| && AtEnd(Feed(table, r, ins[..n]).hist)
    ensures Feed(table, r, ins).hist == []
  {
    hide ParseStep, AtEnd;
    var front, rest, before := ins[..n], ins[n..], ins[..n - 1];
    assert front[..n - 1] == before;
    QuietByte(table, Feed(table, r, before), ins[n - 1].c, ins[n - 1].allow);
    StaysIdle(table, Feed(table, r, front), rest);
    FeedSplits(table, r, front, rest);
    assert ins == front + rest;
  }

  // ----- completeness -----

  /** The marker that makes the receiver read the frame in its own version. */
  function Marker(v1: bool): byte {
    if v1 then STX_V1 else STX
  }

  /** Bytes that can begin a frame of the given version, whatever their checksum. */
  predicate Shaped(v1: bool, h: seq<byte>) {
    |h| >= 3 && h[0] == Marker(v1) && (!v1 ==> !UnknownFlags(h[2]))
  }

  /** Where a frame is still open: before its end, and past its checksum only if that was good and a
      signature is to come. */
  predicate StillOpen(table: seq<MsgEntry>, v1: bool, h: seq<byte>, n: nat) {
    && 1 <= n <= |h| && |h| >= 3 && n < FrameLen(v1, h)
    && (n >= CrcEnd(v1, h) ==> Signed(v1, h) && CrcMatches(table, v1, h[..n]))
  }

  lemma OpenEarlier(table: seq<MsgEntry>, v1: bool, h: seq<byte>, n: nat)
    requires n > 1 && StillOpen(table, v1, h, n)
    ensures StillOpen(table, v1, h, n - 1)
  {
    hide CrcMatches, FromByte, SignedFlag;
    if n - 1 >= CrcEnd(v1, h) {
      assert h[..n][..n - 1] == h[..n - 1];
      PrefixesAgree(table, v1, h[..n - 1], h[..n]);
      PrefixesAgree(table, v1, h[..n], h);
    }
  }

  lemma FirstByte(table: seq<MsgEntry>, r: Receiver, v1: bool, allow: bool)
    requires r.hist == []
    ensures ParseStep(table, r, Marker(v1), allow) == Step(Receiver(v1, [Marker(v1)], r.security), Incomplete)
  {
  }

  lemma NextByte(table: seq<MsgEntry>, v1: bool, h: seq<byte>, n: nat, security: Security, allow: bool)
    requires |h| >= 3 && (!v1 ==> !UnknownFlags(h[2])) && n > 1 && StillOpen(table, v1, h, n)
    ensures ParseStep(table, Receiver(v1, h[..n - 1], security), h[n - 1], allow)
      == Step(Receiver(v1, h[..n], security), Incomplete)
  {
    hide CrcMatches, FromByte, SignedFlag, UnknownFlags, CheckFrame;
    assert h[..n - 1] + [h[n - 1]] == h[..n];
    if n >= 3 {
      PrefixesAgree(table, v1, h[..n], h);
    }
  }

  /** From idle, the receiver collects a frame byte for byte and answers nothing while it is open. */
  lemma {:induction false} CollectsOpenFrame(table: seq<MsgEntry>, r: Receiver, ins: seq<Input>, v1: bool, h: seq<byte>, n: nat)
    requires r.hist == [] && Shaped(v1, h) && StillOpen(table, v1, h, n)
    requires 1 <= n <= |ins| && n <= |h| && Stream(ins)[..n] == h[..n]
    ensures Feed(table, r, ins[..n]) == Receiver(v1, h[..n], r.security)
    ensures forall i :: 0 <= i < n ==> Result(table, r, ins, i) == Incomplete
  {
    hide ParseStep, Shaped, StillOpen;
    assert ins[n - 1].c == h[n - 1] by {
      assert Stream(ins)[..n][n - 1] == h[..n][n - 1];
    }
    assert ins[..n][..n - 1] == ins[..n - 1];
    ShapedStart(v1, h);
    if n == 1 {
      FirstByte(table, r, v1, ins[0].allow);
      assert h[..1] == [h[0]];
    } else {
      OpenEarlier(table, v1, h, n);
      assert Stream(ins)[..n - 1] == Stream(ins)[..n][..n - 1] == h[..n][..n - 1] == h[..n - 1];
      CollectsOpenFrame(table, r, ins, v1, h, n - 1);
      NextByte(table, v1, h, n, r.security, ins[n - 1].allow);
    }
  }

  lemma ShapedStart(v1: bool, h: seq<byte>)
    requires Shaped(v1, h)
    ensures |h| >= 3 && h[0] == Marker(v1) && (!v1 ==> !UnknownFlags(h[2]))
  {
  }

  /** The verdict on a complete well-formed frame. */
  function FrameVerdict(security: Security, v1: bool, h: seq<byte>, allow: bool): (Security, bool)
    requires |h| >= 10 || v1
    requires |h| >= 3 && |h| == FrameLen(v1, h)
  {
    if Signed(v1, h) then
      var (after, ok) := CheckFrame(security, h);
      (after, ok || allow)
    else (security, security.Unsecured? || allow)
  }

  lemma LastByte(table: seq<MsgEntry>, v1: bool, h: seq<byte>, security: Security, allow: bool)
    requires WellFormed(table, v1, h)
    ensures |h| >= 8 && (|h| >= 10 || v1)
    ensures var (after, ok) := FrameVerdict(security, v1, h, allow);
      ParseStep(table, Receiver(v1, h[..|h| - 1], security), h[|h| - 1], allow) ==
        if ok then Step(Receiver(v1, [], after), Ok)
        else Step(Receiver(v1, if h[|h| - 1] == STX then [STX] else [], after), Incomplete)
  {
    hide CrcMatches, FromByte, SignedFlag, UnknownFlags, CheckFrame;
    assert h[..|h| - 1] + [h[|h| - 1]] == h;
  }

  /** Completeness: from idle, every well-formed frame yields nothing until its last byte, and then OK
      exactly when its verdict is favourable. */
  lemma FrameIsDecided(table: seq<MsgEntry>, r: Receiver, ins: seq<Input>, v1: bool, h: seq<byte>)
    requires r.hist == [] && Shaped(v1, h) && WellFormed(table, v1, h) && Stream(ins) == h
    ensures |h| >= 8 && (|h| >= 10 || v1)
    ensures forall i :: 0 <= i < |h| - 1 ==> Result(table, r, ins, i) == Incomplete
    ensures var (after, ok) := FrameVerdict(r.security, v1, h, ins[|h| - 1].allow);
      && Result(table, r, ins, |h| - 1) == (if ok then Ok else Incomplete)
      && Feed(table, r, ins) == Receiver(v1, if !ok && h[|h| - 1] == STX then [STX] else [], after)
    ensures |ins| == |h| && Feed(table, r, ins[..|h| - 1]).v1 == v1
    ensures Feed(table, r, ins[..|h| - 1]).hist + [ins[|h| - 1].c] == h
  {
    hide CrcMatches, FromByte, SignedFlag, UnknownFlags, CheckFrame, ParseStep;
    var n := |h| - 1;
    LastByte(table, v1, h, r.security, ins[n].allow);
    OpenToTheEnd(table, v1, h);
    assert Stream(ins)[..n] == h[..n];
    CollectsOpenFrame(table, r, ins, v1, h, n);
    assert ins[..n + 1] == ins && ins[n].c == h[n];
    assert h[..n] + [h[n]] == h;
  }

  lemma OpenToTheEnd(table: seq<MsgEntry>, v1: bool, h: seq<byte>)
    requires WellFormed(table, v1, h)
    ensures |h| >= 8 && StillOpen(table, v1, h, |h| - 1)
  {
    hide CrcMatches, FromByte, SignedFlag, UnknownFlags;
    PrefixesAgree(table, v1, h[..|h| - 1], h);
  }

  // ----- bursts -----

  /** A frame whose checksum does not match is never accepted, up to and including its second checksum byte. */
  lemma BadCrcIsRefused(table: seq<MsgEntry>, r: Receiver, ins: seq<Input>, v1: bool, h: seq<byte>)
    requires r.hist == [] && Shaped(v1, h) && Stream(ins) == h
    requires |h| == CrcEnd(v1, h) && !CrcMatches(table, v1, h)
    ensures forall i :: 0 <= i < |h| ==> Result(table, r, ins, i) == Incomplete
  {
    hide CrcMatches, FromByte, SignedFlag, UnknownFlags, CheckFrame, ParseStep;
    var n := |h| - 1;
    assert Stream(ins)[..n] == h[..n];
    CollectsOpenFrame(table, r, ins, v1, h, n);
    BadCrcStep(table, v1, h, r.security, ins[n].allow);
    assert ins[n].c == h[n];
  }

  lemma BadCrcStep(table: seq<MsgEntry>, v1: bool, h: seq<byte>, security: Security, allow: bool)
    requires Shaped(v1, h) && |h| == CrcEnd(v1, h) && !CrcMatches(table, v1, h)
    ensures ParseStep(table, Receiver(v1, h[..|h| - 1], security), h[|h| - 1], allow).result == Incomplete
  {
    hide CrcMatches, FromByte, SignedFlag, UnknownFlags, CheckFrame;
    assert h[..|h| - 1] + [h[|h| - 1]] == h;
  }

  /** The positions a burst is looked for in: the flags, addresses and sequence number, and the payload. */
  predicate Covered(v1: bool, f: seq<byte>, p: nat)
    requires |f| >= 3
  {
    (if v1 then 2 <= p <= 4 else 3 <= p <= 6) || HeaderLen(v1) <= p < BodyEnd(v1, f)
  }

  /** `g` is `f` with a burst among the covered bytes: within two adjacent ones, or within sixteen bits of three. */
  ghost predicate Burst(v1: bool, f: seq<byte>, g: seq<byte>, p: nat, width: nat)
    requires |f| >= 3
  {
    && |g| == |f| && p + width <= |f| && g != f && Local(f[p..p + width], g[p..p + width])
    && (forall q :: p <= q < p + width ==> Covered(v1, f, q))
    && g[..p] == f[..p] && g[p + width..] == f[p + width..]
  }

  /** For any valid frame of any length, such a burst keeps the receiver from answering OK up to and
      including the second checksum byte. */
  lemma BurstIsDetected(table: seq<MsgEntry>, r: Receiver, v1: bool, f: seq<byte>, g: seq<byte>, p: nat, width: nat,
                        ins: seq<Input>)
    requires r.hist == [] && Shaped(v1, f) && |f| == CrcEnd(v1, f) && CrcMatches(table, v1, f)
    requires Burst(v1, f, g, p, width) && Stream(ins) == g
    ensures forall i :: 0 <= i < |g| ==> Result(table, r, ins, i) == Incomplete
  {
    BurstKeepsLayout(table, v1, f, g, p, width);
    BurstChangesExpectation(table, v1, f, g, p, width);
    hide ExpectedCrc, FromByte, SignedFlag, UnknownFlags;
    assert g[BodyEnd(v1, g)..CrcEnd(v1, g)] == f[BodyEnd(v1, f)..CrcEnd(v1, f)];
    if CrcMatches(table, v1, g) {
      SameBytesSameCrc(ExpectedCrc(table, v1, f), ExpectedCrc(table, v1, g));
    }
    BadCrcIsRefused(table, r, ins, v1, g);
  }

  lemma SameBytesSameCrc(a: bv16, b: bv16)
    requires ChecksumBytes(a) == ChecksumBytes(b)
    ensures a == b
  {
    hide Low, High, Join;
    assert ChecksumBytes(a)[0] == ChecksumBytes(b)[0] && ChecksumBytes(a)[1] == ChecksumBytes(b)[1];
    JoinHalves(a);
    JoinHalves(b);
  }

  /** `g` differs from `f` before the checksum at most in covered bytes. */
  predicate CoveredChange(v1: bool, f: seq<byte>, g: seq<byte>)
    requires |f| >= 3
  {
    |g| == |f| && forall i :: 0 <= i < BodyEnd(v1, f) && i < |f| && !Covered(v1, f, i) ==> g[i] == f[i]
  }

  lemma CoveredChangeKeepsLayout(table: seq<MsgEntry>, v1: bool, f: seq<byte>, g: seq<byte>)
    requires Shaped(v1, f) && |f| == CrcEnd(v1, f) && CoveredChange(v1, f, g)
    ensures Shaped(v1, g) && |g| == CrcEnd(v1, g) && BodyEnd(v1, g) == BodyEnd(v1, f)
    ensures MsgIdOf(v1, g) == MsgIdOf(v1, f)
  {
    hide FromByte, IdFromBytes, UnknownFlags;
    assert g[0] == f[0] && g[1] == f[1];
    assert if v1 then g[5] == f[5] else g[2] == f[2] && g[7] == f[7] && g[8] == f[8] && g[9] == f[9];
  }

  lemma BurstInside(v1: bool, f: seq<byte>, g: seq<byte>, p: nat, width: nat)
    requires Shaped(v1, f) && |f| == CrcEnd(v1, f) && Burst(v1, f, g, p, width)
    ensures 1 <= p && p + width <= BodyEnd(v1, f) <= |f| && HeaderLen(v1) <= |f|
  {
    hide FromByte, UnknownFlags;
    assert |f[p..p + width]| == width;
    assert Covered(v1, f, p) && Covered(v1, f, p + width - 1);
  }

  lemma BurstKeepsLayout(table: seq<MsgEntry>, v1: bool, f: seq<byte>, g: seq<byte>, p: nat, width: nat)
    requires Shaped(v1, f) && |f| == CrcEnd(v1, f) && Burst(v1, f, g, p, width)
    ensures Shaped(v1, g) && |g| == CrcEnd(v1, g) && BodyEnd(v1, g) == BodyEnd(v1, f)
    ensures MsgIdOf(v1, g) == MsgIdOf(v1, f)
    ensures g[BodyEnd(v1, g)..CrcEnd(v1, g)] == f[BodyEnd(v1, f)..CrcEnd(v1, f)]
  {
    hide FromByte, IdFromBytes, UnknownFlags, Local;
    BurstInside(v1, f, g, p, width);
    forall i | 0 <= i < |f| && (i < p || i >= p + width)
      ensures g[i] == f[i]
    {
      if i < p {
        assert g[i] == g[..p][i] == f[..p][i];
      } else {
        assert g[i] == g[p + width..][i - p - width] == f[p + width..][i - p - width];
      }
    }
    CoveredChangeKeepsLayout(table, v1, f, g);
  }

  // ----- odd numbers of bits -----

  /** An odd number of bits flipped among the covered bytes and the checksum itself. */
  predicate OddFlips(v1: bool, f: seq<byte>, g: seq<byte>)
    requires |f| >= 3
  {
    CoveredChange(v1, f, g) && Flipped(f[1..], g[1..]) % 2 == 1
  }

  lemma MatchingParity(table: seq<MsgEntry>, v1: bool, h: seq<byte>)
    requires |h| >= HeaderLen(v1) && |h| == CrcEnd(v1, h) && CrcMatches(table, v1, h)
    ensures OddBits(h[1..]) == (Odd(X25_INIT_CRC) != OddByte(CrcExtra(table, MsgIdOf(v1, h))))
  {
    hide FromByte, IdFromBytes, CrcExtra, MsgIdOf, OddBits, Odd, OddByte, Accumulate, Crc, Low, High;
    var e := BodyEnd(v1, h);
    var body := h[1..e];
    CheckedParity(body, CrcExtra(table, MsgIdOf(v1, h)));
    assert h[1..] == body + h[e..e + 2];
  }

  /** For any valid frame of any length, flipping an odd number of those bits keeps the receiver from answering OK up to
      and including the second checksum byte. */
  lemma OddFlipsAreDetected(table: seq<MsgEntry>, r: Receiver, v1: bool, f: seq<byte>, g: seq<byte>, ins: seq<Input>)
    requires r.hist == [] && Shaped(v1, f) && |f| == CrcEnd(v1, f) && CrcMatches(table, v1, f)
    requires OddFlips(v1, f, g) && Stream(ins) == g
    ensures forall i :: 0 <= i < |g| ==> Result(table, r, ins, i) == Incomplete
  {
    hide FromByte, SignedFlag, UnknownFlags, Shaped, CrcMatches, Flipped, OddBits, Odd, OddByte, CoveredChange, CrcExtra, MsgIdOf;
    CoveredChangeKeepsLayout(table, v1, f, g);
    FlippedParity(f[1..], g[1..]);
    MatchingParity(table, v1, f);
    if CrcMatches(table, v1, g) {
      MatchingParity(table, v1, g);
    }
    BadCrcIsRefused(table, r, ins, v1, g);
  }

  // The bytes under the checksum, cut at the burst.
  lemma BurstCut(f: seq<byte>, p: nat, width: nat, e: nat)
    requires 1 <= p && p + width <= e <= |f|
    ensures f[1..e] == f[..p][1..] + f[p..p + width] + f[p + width..][..e - p - width]
  {
    var head, tail := f[..p][1..], f[p + width..][..e - p - width];
    assert head == f[1..p];
    assert tail == f[p + width..e];
  }

  lemma BurstIsAChange(f: seq<byte>, g: seq<byte>, p: nat, width: nat)
    requires |g| == |f| && p + width <= |f| && g != f
    requires g[..p] == f[..p] && g[p + width..] == f[p + width..]
    ensures g[p..p + width] != f[p..p + width]
  {
    assert f == f[..p] + f[p..p + width] + f[p + width..];
    assert g == g[..p] + g[p..p + width] + g[p + width..];
  }

  lemma BurstChangesExpectation(table: seq<MsgEntry>, v1: bool, f: seq<byte>, g: seq<byte>, p: nat, width: nat)
    requires Shaped(v1, f) && |f| == CrcEnd(v1, f) && Burst(v1, f, g, p, width)
    requires |g| == CrcEnd(v1, g) && BodyEnd(v1, g) == BodyEnd(v1, f) && MsgIdOf(v1, g) == MsgIdOf(v1, f)
    ensures ExpectedCrc(table, v1, g) != ExpectedCrc(table, v1, f)
  {
    hide Shaped, FromByte, IdFromBytes, UnknownFlags, Accumulate, Crc, CrcExtra, MsgIdOf, BodyEnd, Covered;
    var e := BodyEnd(v1, f);
    BurstInside(v1, f, g, p, width);
    BurstCut(f, p, width, e);
    BurstCut(g, p, width, e);
    BurstIsAChange(f, g, p, width);
    BurstChangesCrc(f[..p][1..], f[p..p + width], g[p..p + width], f[p + width..][..e - p - width]);
    if ExpectedCrc(table, v1, g) == ExpectedCrc(table, v1, f) {
      StateInjective(CrcExtra(table, MsgIdOf(v1, f)), Crc(f[1..e]), Crc(g[1..e]));
    }
  }
}
