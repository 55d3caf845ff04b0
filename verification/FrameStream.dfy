/** Frames back to back: what a stream of them makes `mavlink_parse_char` answer. */
module FrameStream {
  import opened Bytes
  import opened MessageTable
  import opened Wire
  import opened Signing
  import opened Status
  import opened Receiver
  import opened ParserTheorems
  import opened Transmit
  import opened RoundTrip

  /** A frame on the wire, the version of its layout, and the answer of the accept-unsigned callback at its end. */
  datatype Arrival = Arrival(v1: bool, bytes: seq<byte>, allow: bool)

  /** Of its version's marker, with known flags, the length it announces and a matching checksum. */
  predicate Good(table: seq<MsgEntry>, f: Arrival) {
    Shaped(f.v1, f.bytes) && WellFormed(table, f.v1, f.bytes)
  }

  ghost predicate AllGood(table: seq<MsgEntry>, frames: seq<Arrival>) {
    forall k :: 0 <= k < |frames| ==> Good(table, frames[k])
  }

  lemma GoodLength(table: seq<MsgEntry>, f: Arrival)
    requires Good(table, f)
    ensures |f.bytes| >= 8 && (|f.bytes| >= 10 || f.v1) && |f.bytes| == FrameLen(f.v1, f.bytes)
  {
    hide CrcMatches, FromByte, SignedFlag, UnknownFlags;
  }

  ghost function Verdict(table: seq<MsgEntry>, sec: Security, f: Arrival): (Security, bool)
    requires Good(table, f)
  {
    GoodLength(table, f);
    FrameVerdict(sec, f.v1, f.bytes, f.allow)
  }

  /** The signing state after the frames. */
  ghost function Judged(table: seq<MsgEntry>, sec: Security, frames: seq<Arrival>): Security
    requires AllGood(table, frames)
  {
    if frames == [] then sec
    else Verdict(table, Judged(table, sec, frames[..|frames| - 1]), frames[|frames| - 1]).0
  }

  ghost predicate Passed(table: seq<MsgEntry>, sec: Security, frames: seq<Arrival>, k: nat)
    requires AllGood(table, frames) && k < |frames|
  {
    Verdict(table, Judged(table, sec, frames[..k]), frames[k]).1
  }

  function Concat(frames: seq<Arrival>): seq<byte> {
    if frames == [] then [] else Concat(frames[..|frames| - 1]) + frames[|frames| - 1].bytes
  }

  /** The position of the last byte of a frame in the stream. */
  function EndOf(frames: seq<Arrival>, k: nat): int
    requires k < |frames|
  {
    |Concat(frames[..k + 1])| - 1
  }

  ghost predicate Carries(ins: seq<Input>, frames: seq<Arrival>) {
    && Stream(ins) == Concat(frames)
    && forall k :: 0 <= k < |frames| ==> 0 <= EndOf(frames, k) < |ins| && ins[EndOf(frames, k)].allow == frames[k].allow
  }

  /** A refused frame must not end in the version 2 marker, or the parser takes that byte for a new frame. */
  ghost predicate KeepsInStep(table: seq<MsgEntry>, sec: Security, frames: seq<Arrival>)
    requires AllGood(table, frames)
  {
    forall k :: 0 <= k < |frames| ==> Passed(table, sec, frames, k) || !EndsInMarker(frames[k])
  }

  predicate EndsInMarker(f: Arrival) {
    f.bytes != [] && f.bytes[|f.bytes| - 1] == STX
  }

  // ----- prefixes -----

  lemma ResultSplits(table: seq<MsgEntry>, r: Receiver, a: seq<Input>, b: seq<Input>, i: nat)
    requires i < |b|
    ensures Result(table, r, a + b, |a| + i) == Result(table, Feed(table, r, a), b, i)
  {
    hide ParseStep, Feed;
    FeedSplits(table, r, a, b[..i]);
    assert (a + b)[..|a| + i] == a + b[..i];
  }

  lemma ResultsBehind(table: seq<MsgEntry>, r: Receiver, a: seq<Input>, b: seq<Input>)
    ensures forall i :: |a| <= i < |a + b| ==> Result(table, r, a + b, i) == Result(table, Feed(table, r, a), b, i - |a|)
  {
    hide ParseStep, Feed, Result;
    forall i | |a| <= i < |a + b|
      ensures Result(table, r, a + b, i) == Result(table, Feed(table, r, a), b, i - |a|)
    {
      ResultSplits(table, r, a, b, i - |a|);
    }
  }

  lemma ResultOfPrefix(table: seq<MsgEntry>, r: Receiver, a: seq<Input>, b: seq<Input>, i: nat)
    requires i < |a|
    ensures Result(table, r, a + b, i) == Result(table, r, a, i)
  {
    hide ParseStep, Feed;
    assert (a + b)[..i] == a[..i];
  }

  lemma Shorter(table: seq<MsgEntry>, sec: Security, frames: seq<Arrival>, n: nat)
    requires AllGood(table, frames) && n <= |frames|
    ensures AllGood(table, frames[..n])
    ensures forall k :: 0 <= k < n ==>
      Passed(table, sec, frames[..n], k) == Passed(table, sec, frames, k) && EndOf(frames[..n], k) == EndOf(frames, k)
    ensures KeepsInStep(table, sec, frames) ==> KeepsInStep(table, sec, frames[..n])
  {
    hide Good, Verdict, Judged, Concat, EndsInMarker;
    forall k | 0 <= k < n
      ensures Passed(table, sec, frames[..n], k) == Passed(table, sec, frames, k)
      ensures EndOf(frames[..n], k) == EndOf(frames, k)
    {
      assert frames[..n][..k] == frames[..k];
      assert frames[..n][..k + 1] == frames[..k + 1];
    }
  }

  lemma LastFrame(table: seq<MsgEntry>, sec: Security, frames: seq<Arrival>)
    requires frames != [] && AllGood(table, frames)
    ensures var n := |frames| - 1;
      && Concat(frames) == Concat(frames[..n]) + frames[n].bytes && EndOf(frames, n) == |Concat(frames)| - 1
      && Verdict(table, Judged(table, sec, frames[..n]), frames[n]) == (Judged(table, sec, frames), Passed(table, sec, frames, n))
  {
    hide Good, Verdict;
    assert frames[..|frames| - 1 + 1] == frames;
  }

  lemma CutStream(ins: seq<Input>, front: seq<byte>, back: seq<byte>)
    requires Stream(ins) == front + back
    ensures |ins| == |front| + |back|
    ensures Stream(ins[..|front|]) == front && Stream(ins[|front|..]) == back
  {
    var s, m := Stream(ins), |front|;
    assert |s| == |ins|;
    assert Stream(ins[..m]) == s[..m];
    assert Stream(ins[m..]) == s[m..];
  }

  /** The bytes of all frames but the last, and those of the last. */
  lemma SplitStream(table: seq<MsgEntry>, frames: seq<Arrival>, ins: seq<Input>)
    requires frames != [] && AllGood(table, frames) && Carries(ins, frames)
    ensures var n := |frames| - 1; var m := |Concat(frames[..n])|;
      && m < |ins| && m == |ins| - |frames[n].bytes|
      && Carries(ins[..m], frames[..n]) && Stream(ins[m..]) == frames[n].bytes
      && ins[|ins| - 1].allow == frames[n].allow
  {
    hide Good, Concat, Stream, Verdict, Judged, Passed;
    var n := |frames| - 1;
    GoodLength(table, frames[n]);
    LastFrame(table, Unsecured, frames);
    Shorter(table, Unsecured, frames, n);
    CutStream(ins, Concat(frames[..n]), frames[n].bytes);
    forall k | 0 <= k < n
      ensures 0 <= EndOf(frames[..n], k) < |Concat(frames[..n])|
      ensures ins[EndOf(frames[..n], k)].allow == frames[..n][k].allow
    {
      assert EndOf(frames[..n], k) == EndOf(frames, k);
      EndsWithin(frames[..n], k);
    }
  }

  lemma {:induction false} EndsWithin(frames: seq<Arrival>, k: nat)
    requires k < |frames|
    ensures EndOf(frames, k) < |Concat(frames)|
  {
    var n := |frames| - 1;
    if k < n {
      EndsWithin(frames[..n], k);
      assert frames[..n][..k + 1] == frames[..k + 1];
    } else {
      assert frames[..k + 1] == frames;
    }
  }

  // ----- the answers -----

  /** From idle, one good frame: its verdict decides the answer at its end and the state behind it. */
  lemma OneFrame(table: seq<MsgEntry>, r: Receiver, f: Arrival, ins: seq<Input>)
    requires r.hist == [] && Good(table, f) && Stream(ins) == f.bytes
    requires |ins| > 0 ==> ins[|ins| - 1].allow == f.allow
    ensures |ins| > 0 && forall i :: 0 <= i < |ins| - 1 ==> Result(table, r, ins, i) == Incomplete
    ensures var (after, ok) := Verdict(table, r.security, f);
      && Result(table, r, ins, |ins| - 1) == (if ok then Ok else Incomplete)
      && Feed(table, r, ins) == Receiver(f.v1, if !ok && EndsInMarker(f) then [STX] else [], after)
  {
    hide CrcMatches, FromByte, SignedFlag, UnknownFlags, ParseStep, Feed, Result, FrameVerdict, Shaped, WellFormed;
    GoodLength(table, f);
    FrameIsDecided(table, r, ins, f.v1, f.bytes);
  }

  /** Resynchronisation: from every state of a run, behind 280 bytes without a marker the next good frame is decided. */
  lemma Resynchronises(table: seq<MsgEntry>, r: Receiver, quiet: seq<Input>, f: Arrival, ins: seq<Input>)
    requires InOrder(table, r) && NoMarker(quiet) && |quiet| >= MAX_PACKET_LEN
    requires Good(table, f) && Stream(ins) == f.bytes && (|ins| > 0 ==> ins[|ins| - 1].allow == f.allow)
    ensures |ins| > 0 && Feed(table, r, quiet).hist == []
    ensures forall i :: |quiet| <= i < |quiet + ins| - 1 ==> Result(table, r, quiet + ins, i) == Incomplete
    ensures Result(table, r, quiet + ins, |quiet + ins| - 1) ==
      if Verdict(table, Feed(table, r, quiet).security, f).1 then Ok else Incomplete
  {
    hide ParseStep, Feed, Result, InOrder, Good, Verdict, Stream, NoMarker;
    QuietMeansIdle(table, r, quiet);
    OneFrame(table, Feed(table, r, quiet), f, ins);
    ResultsBehind(table, r, quiet, ins);
  }

  // ----- out of step -----

  lemma RestartedByte(table: seq<MsgEntry>, r: Receiver, len: byte, flags: byte, a: bool, b: bool)
    requires r.hist == [STX] && !r.v1 && UnknownFlags(flags)
    ensures var one := ParseStep(table, r, len, a).next;
      && ParseStep(table, r, len, a).result == Incomplete && ParseStep(table, one, flags, b).result == Incomplete
      && ParseStep(table, one, flags, b).next.hist == []
  {
    hide UnknownFlags;
  }

  lemma {:induction false} SilentWhileIdle(table: seq<MsgEntry>, r: Receiver, ins: seq<Input>, i: nat)
    requires r.hist == [] && NoMarker(ins) && i < |ins|
    ensures Result(table, r, ins, i) == Incomplete
  {
    hide ParseStep;
    StaysIdle(table, r, ins[..i]);
    SilentByte(table, Feed(table, r, ins[..i]), ins[i].c, ins[i].allow);
  }

  lemma SilentByte(table: seq<MsgEntry>, r: Receiver, c: byte, allow: bool)
    requires r.hist == []
    ensures ParseStep(table, r, c, allow).result == Incomplete
  {
  }

  /** What being out of step costs: behind a refused version 2 frame that ends in the marker, a good version 2 frame
      whose length has bits beyond the signed flag, and no marker in its rest, is missed altogether. */
  lemma NextFrameIsMissed(table: seq<MsgEntry>, r: Receiver, f: Arrival, g: Arrival, first: seq<Input>, second: seq<Input>)
    requires r.hist == [] && Good(table, f) && !f.v1 && EndsInMarker(f) && !Verdict(table, r.security, f).1
    requires Stream(first) == f.bytes && (|first| > 0 ==> first[|first| - 1].allow == f.allow)
    requires Good(table, g) && !g.v1 && UnknownFlags(g.bytes[1]) && Stream(second) == g.bytes && NoMarker(second[1..])
    ensures Feed(table, r, first).hist == [STX]
    ensures forall i :: |first| <= i < |first + second| ==> Result(table, r, first + second, i) == Incomplete
    ensures Feed(table, r, first + second).hist == []
  {
    hide ParseStep, Feed, Result, Good, Verdict, UnknownFlags, Stream, NoMarker;
    OneFrame(table, r, f, first);
    GoodLength(table, g);
    FeedSplits(table, r, first, second);
    var out := Feed(table, r, first);
    MissedFromRestart(table, out, second, g.bytes);
    ResultsBehind(table, r, first, second);
  }

  lemma MissedFromRestart(table: seq<MsgEntry>, r: Receiver, ins: seq<Input>, g: seq<byte>)
    requires r.hist == [STX] && !r.v1 && |g| >= 8 && UnknownFlags(g[1]) && Stream(ins) == g && NoMarker(ins[1..])
    ensures forall i :: 0 <= i < |ins| ==> Result(table, r, ins, i) == Incomplete
    ensures Feed(table, r, ins).hist == []
  {
    hide ParseStep, UnknownFlags;
    var two, rest := ins[..2], ins[2..];
    assert ins[1].c == g[1] && |ins| == |g|;
    RestartedByte(table, r, ins[0].c, ins[1].c, ins[0].allow, ins[1].allow);
    TwoBytes(table, r, ins);
    FeedSplits(table, r, two, rest);
    assert ins == two + rest;
    var idle := Feed(table, r, two);
    assert NoMarker(rest) by { assert forall i :: 0 <= i < |rest| ==> rest[i] == ins[1..][i + 1]; }
    StaysIdle(table, idle, rest);
    forall i | 2 <= i < |ins|
      ensures Result(table, r, ins, i) == Incomplete
    {
      ResultSplits(table, r, two, rest, i - 2);
      SilentWhileIdle(table, idle, rest, i - 2);
    }
  }

  lemma TwoBytes(table: seq<MsgEntry>, r: Receiver, ins: seq<Input>)
    requires |ins| >= 2
    ensures var one := ParseStep(table, r, ins[0].c, ins[0].allow);
      var two := ParseStep(table, one.next, ins[1].c, ins[1].allow);
      && Result(table, r, ins, 0) == one.result && Result(table, r, ins, 1) == two.result
      && Feed(table, r, ins[..2]) == two.next
  {
    hide ParseStep;
    assert ins[..0] == [] && ins[..1][..0] == [] && ins[..2][..1] == ins[..1];
  }

  /** Whether the answer at every position is right for these frames and verdicts. */
  ghost predicate Answered(table: seq<MsgEntry>, r: Receiver, ins: seq<Input>, frames: seq<Arrival>)
    requires AllGood(table, frames) && |ins| == |Concat(frames)|
  {
    && (forall k :: 0 <= k < |frames| ==> (
      && 0 <= EndOf(frames, k) < |ins|
      && Result(table, r, ins, EndOf(frames, k)) == if Passed(table, r.security, frames, k) then Ok else Incomplete))
    && (forall i :: 0 <= i < |ins| ==>
      Result(table, r, ins, i) == Incomplete || exists k :: 0 <= k < |frames| && i == EndOf(frames, k))
  }

  lemma NoFrames(table: seq<MsgEntry>, r: Receiver, ins: seq<Input>)
    requires ins == []
    ensures Answered(table, r, ins, [])
  {
  }

  /** Good frames of either version, signed or not, in any order: the answer at the end of each is its verdict in
      the state the frames before it have left, and there is no other answer. */
  lemma {:induction false} FramesInSequence(table: seq<MsgEntry>, r: Receiver, frames: seq<Arrival>, ins: seq<Input>)
    requires r.hist == [] && AllGood(table, frames) && Carries(ins, frames) && KeepsInStep(table, r.security, frames)
    ensures Feed(table, r, ins).hist == [] && Feed(table, r, ins).security == Judged(table, r.security, frames)
    ensures Answered(table, r, ins, frames)
    decreases |frames|
  {
    hide Good, Verdict, Passed, ParseStep, Answered, KeepsInStep, Result, Carries, EndsInMarker, Stream;
    CarriedLength(ins, frames);
    if frames == [] {
      NoFrames(table, r, ins);
    } else {
      var n := |frames| - 1;
      var m := |Concat(frames[..n])|;
      SplitStream(table, frames, ins);
      var a, b := ins[..m], ins[m..];
      Shorter(table, r.security, frames, n);
      FramesInSequence(table, r, frames[..n], a);
      LastFrame(table, r.security, frames);
      LastInStep(table, r.security, frames);
      OneFrame(table, Feed(table, r, a), frames[n], b);
      FeedSplits(table, r, a, b);
      assert ins == a + b;
      CarriedLength(a, frames[..n]);
      Extend(table, r, a, b, frames);
    }
  }

  lemma CarriedLength(ins: seq<Input>, frames: seq<Arrival>)
    requires Carries(ins, frames)
    ensures |ins| == |Concat(frames)|
  {
    assert |Stream(ins)| == |ins|;
  }

  lemma LastInStep(table: seq<MsgEntry>, sec: Security, frames: seq<Arrival>)
    requires frames != [] && AllGood(table, frames) && KeepsInStep(table, sec, frames)
    ensures Passed(table, sec, frames, |frames| - 1) || !EndsInMarker(frames[|frames| - 1])
  {
  }

  lemma Extend(table: seq<MsgEntry>, r: Receiver, a: seq<Input>, b: seq<Input>, frames: seq<Arrival>)
    requires frames != [] && AllGood(table, frames) && AllGood(table, frames[..|frames| - 1])
    requires |a| == |Concat(frames[..|frames| - 1])| && Answered(table, r, a, frames[..|frames| - 1])
    requires |b| > 0 && |a + b| == |Concat(frames)|
    requires forall i :: 0 <= i < |b| - 1 ==> Result(table, Feed(table, r, a), b, i) == Incomplete
    requires Result(table, Feed(table, r, a), b, |b| - 1) ==
      if Passed(table, r.security, frames, |frames| - 1) then Ok else Incomplete
    ensures Answered(table, r, a + b, frames)
  {
    hide Good, Verdict, Passed, ParseStep, Result, Feed, Concat, Judged;
    var n := |frames| - 1;
    Shorter(table, r.security, frames, n);
    LastFrame(table, r.security, frames);
    forall i | 0 <= i < |a|
      ensures Result(table, r, a + b, i) == Result(table, r, a, i)
    {
      ResultOfPrefix(table, r, a, b, i);
    }
    ResultsBehind(table, r, a, b);
    forall i | 0 <= i < |a + b|
      ensures Result(table, r, a + b, i) == Incomplete || exists k :: 0 <= k < |frames| && i == EndOf(frames, k)
    {
      if i < |a| {
        if Result(table, r, a, i) != Incomplete {
          var k :| 0 <= k < n && i == EndOf(frames[..n], k);
          assert i == EndOf(frames, k);
        }
      } else if i == |a + b| - 1 {
        assert i == EndOf(frames, n);
      }
    }
  }

  // ----- when the parser stays in step -----

  /** The state at the boundary behind the first k frames. */
  function AtBoundary(table: seq<MsgEntry>, r: Receiver, frames: seq<Arrival>, ins: seq<Input>, k: nat): Receiver
    requires k <= |frames|
  {
    var m := |Concat(frames[..k])|;
    if m <= |ins| then Feed(table, r, ins[..m]) else r
  }

  /** Every frame boundary finds the parser idle exactly when no refused frame ends in the version 2 marker. */
  lemma IdleAtBoundaries(table: seq<MsgEntry>, r: Receiver, frames: seq<Arrival>, ins: seq<Input>)
    requires r.hist == [] && AllGood(table, frames) && Carries(ins, frames)
    ensures (forall k :: 0 <= k <= |frames| ==> AtBoundary(table, r, frames, ins, k).hist == [])
      <==> KeepsInStep(table, r.security, frames)
  {
    hide Good, Carries, Passed, EndsInMarker, ParseStep, Feed, AtBoundary, Stream, KeepsInStep;
    if KeepsInStep(table, r.security, frames) {
      forall k | 0 <= k <= |frames|
        ensures AtBoundary(table, r, frames, ins, k).hist == []
      {
        IdleAt(table, r, frames, ins, k);
      }
    }
    if forall k :: 0 <= k <= |frames| ==> AtBoundary(table, r, frames, ins, k).hist == [] {
      StaysInStep(table, r, frames, ins);
    }
  }

  lemma {:induction false} CarriesPrefix(table: seq<MsgEntry>, frames: seq<Arrival>, ins: seq<Input>, k: nat)
    requires AllGood(table, frames) && Carries(ins, frames) && k <= |frames|
    ensures |Concat(frames[..k])| <= |ins| && Carries(ins[..|Concat(frames[..k])|], frames[..k])
    decreases |frames|
  {
    hide Good, Carries, Stream, Concat;
    CarriedLength(ins, frames);
    if k == |frames| {
      assert frames[..k] == frames && ins[..|Concat(frames)|] == ins;
    } else {
      var n := |frames| - 1;
      var m := |Concat(frames[..n])|;
      SplitStream(table, frames, ins);
      Shorter(table, Unsecured, frames, n);
      CarriesPrefix(table, frames[..n], ins[..m], k);
      assert frames[..n][..k] == frames[..k];
      assert ins[..m][..|Concat(frames[..k])|] == ins[..|Concat(frames[..k])|];
    }
  }

  lemma IdleAt(table: seq<MsgEntry>, r: Receiver, frames: seq<Arrival>, ins: seq<Input>, k: nat)
    requires r.hist == [] && AllGood(table, frames) && Carries(ins, frames) && k <= |frames|
    requires KeepsInStep(table, r.security, frames)
    ensures AtBoundary(table, r, frames, ins, k).hist == []
  {
    hide Good, Carries, Passed, EndsInMarker, ParseStep, Feed, Stream, KeepsInStep, Concat;
    CarriesPrefix(table, frames, ins, k);
    Shorter(table, r.security, frames, k);
    FramesInSequence(table, r, frames[..k], ins[..|Concat(frames[..k])|]);
  }

  lemma {:induction false} StaysInStep(table: seq<MsgEntry>, r: Receiver, frames: seq<Arrival>, ins: seq<Input>)
    requires r.hist == [] && AllGood(table, frames) && Carries(ins, frames)
    requires forall k :: 0 <= k <= |frames| ==> AtBoundary(table, r, frames, ins, k).hist == []
    ensures KeepsInStep(table, r.security, frames)
    decreases |frames|
  {
    hide Good, Carries, Passed, EndsInMarker, ParseStep, Feed, Result, Stream, KeepsInStep, Concat, AtBoundary, Verdict;
    if frames == [] {
      NothingToKeep(table, r.security);
    } else {
      var n := |frames| - 1;
      var m := |Concat(frames[..n])|;
      SplitStream(table, frames, ins);
      Shorter(table, r.security, frames, n);
      var a, b := ins[..m], ins[m..];
      CarriedLength(ins, frames);
      forall k | 0 <= k <= n
        ensures AtBoundary(table, r, frames[..n], a, k).hist == []
      {
        SameBoundary(table, r, frames, ins, k);
      }
      StaysInStep(table, r, frames[..n], a);
      FramesInSequence(table, r, frames[..n], a);
      LastFrame(table, r.security, frames);
      OneFrame(table, Feed(table, r, a), frames[n], b);
      FeedSplits(table, r, a, b);
      assert ins == a + b;
      WholeBoundary(table, r, frames, ins);
      OneMoreInStep(table, r.security, frames);
    }
  }

  lemma NothingToKeep(table: seq<MsgEntry>, sec: Security)
    ensures KeepsInStep(table, sec, [])
  {
  }

  lemma OneMoreInStep(table: seq<MsgEntry>, sec: Security, frames: seq<Arrival>)
    requires frames != [] && AllGood(table, frames) && AllGood(table, frames[..|frames| - 1])
    requires KeepsInStep(table, sec, frames[..|frames| - 1])
    requires Passed(table, sec, frames, |frames| - 1) || !EndsInMarker(frames[|frames| - 1])
    ensures KeepsInStep(table, sec, frames)
  {
    hide Good, Passed, EndsInMarker;
    Shorter(table, sec, frames, |frames| - 1);
  }

  lemma WholeBoundary(table: seq<MsgEntry>, r: Receiver, frames: seq<Arrival>, ins: seq<Input>)
    requires |ins| == |Concat(frames)|
    ensures AtBoundary(table, r, frames, ins, |frames|) == Feed(table, r, ins)
  {
    hide Feed, Concat;
    assert frames[..|frames|] == frames && ins[..|ins|] == ins;
  }

  lemma SameBoundary(table: seq<MsgEntry>, r: Receiver, frames: seq<Arrival>, ins: seq<Input>, k: nat)
    requires frames != [] && AllGood(table, frames) && Carries(ins, frames) && k < |frames|
    requires |Concat(frames[..|frames| - 1])| <= |ins|
    ensures var m := |Concat(frames[..|frames| - 1])|;
      AtBoundary(table, r, frames[..|frames| - 1], ins[..m], k) == AtBoundary(table, r, frames, ins, k)
  {
    hide Good, Carries, Feed, Concat, Stream;
    var n := |frames| - 1;
    var m := |Concat(frames[..n])|;
    SplitStream(table, frames, ins);
    Shorter(table, r.security, frames, n);
    CarriesPrefix(table, frames[..n], ins[..m], k);
    assert frames[..n][..k] == frames[..k];
    assert ins[..m][..|Concat(frames[..k])|] == ins[..|Concat(frames[..k])|];
  }

  // ----- a channel without signing -----

  lemma {:induction false} UnsecuredPasses(table: seq<MsgEntry>, frames: seq<Arrival>)
    requires AllGood(table, frames)
    ensures Judged(table, Unsecured, frames) == Unsecured
    ensures forall k :: 0 <= k < |frames| ==> Passed(table, Unsecured, frames, k)
    decreases |frames|
  {
    hide Good, Verdict;
    if frames != [] {
      var n := |frames| - 1;
      Shorter(table, Unsecured, frames, n);
      UnsecuredPasses(table, frames[..n]);
      UnsecuredVerdict(table, frames[n]);
    }
  }

  lemma UnsecuredVerdict(table: seq<MsgEntry>, f: Arrival)
    requires Good(table, f)
    ensures Verdict(table, Unsecured, f) == (Unsecured, true)
  {
    hide Shaped, WellFormed;
  }

  datatype Transmission = Transmission(out: Outgoing, body: seq<byte>)

  /** How a transmission looks on the wire. */
  predicate SentAs(table: seq<MsgEntry>, t: Transmission, f: Arrival) {
    |t.body| < 256 && Sendable(table, t.out) && f.v1 == t.out.v1 && f.bytes == t.out.Frame(t.body)
  }

  /** Any mixture of transmissions, of version 1 and 2, signed and unsigned, back to back on a channel without signing:
      OK exactly at the last byte of each. */
  lemma MixtureIsReceived(table: seq<MsgEntry>, r: Receiver, sent: seq<Transmission>, frames: seq<Arrival>, ins: seq<Input>)
    requires r.hist == [] && r.security.Unsecured? && |frames| == |sent|
    requires forall k :: 0 <= k < |sent| ==> SentAs(table, sent[k], frames[k])
    requires Carries(ins, frames)
    ensures forall i :: 0 <= i < |ins| ==>
      (Result(table, r, ins, i) == Ok <==> exists k :: 0 <= k < |frames| && i == EndOf(frames, k))
    ensures Feed(table, r, ins).hist == []
  {
    hide Carries, Passed, ParseStep, Feed, Result, Stream, SentAs, Good, EndsInMarker;
    forall k | 0 <= k < |sent|
      ensures Good(table, frames[k])
    {
      SentIsGood(table, sent[k], frames[k]);
    }
    UnsecuredPasses(table, frames);
    FramesInSequence(table, r, frames, ins);
    CarriedLength(ins, frames);
  }

  lemma SentIsGood(table: seq<MsgEntry>, t: Transmission, f: Arrival)
    requires SentAs(table, t, f)
    ensures Good(table, f)
  {
    hide WellFormed, Shaped, Outgoing.Frame;
    SentFrameIsWellFormed(table, t.out, t.body);
  }
}
