/** Signed sessions seen from the wire: what a byte stream of signed frames makes `mavlink_parse_char` answer. */
module SignedStream {
  import opened Bytes
  import opened MessageTable
  import opened Wire
  import opened Signing
  import opened Status
  import opened Receiver
  import opened ParserTheorems
  import opened Transmit
  import opened RoundTrip
  import opened FrameStream

  /** A good version 2 frame with a signature, good or bad. */
  predicate SignedArrival(table: seq<MsgEntry>, f: Arrival) {
    Good(table, f) && !f.v1 && Signed(false, f.bytes)
  }

  lemma SignedLength(table: seq<MsgEntry>, f: Arrival)
    requires SignedArrival(table, f)
    ensures |f.bytes| >= 23 && |f.bytes| == CrcEnd(false, f.bytes) + SIGNATURE_BLOCK_LEN
  {
    hide CrcMatches, FromByte, SignedFlag, UnknownFlags;
  }

  /** The claim of a signed frame. A frame without a signature makes none, and is judged like a forgery. */
  ghost function ClaimIn(table: seq<MsgEntry>, key: seq<byte>, f: Arrival): Claim
    requires Good(table, f)
  {
    if SignedArrival(table, f) then
      SignedLength(table, f);
      FrameClaim(key, f.bytes)
    else Claim(StreamKey(0, 0, 0), 0, false)
  }

  ghost function ClaimsOf(table: seq<MsgEntry>, key: seq<byte>, frames: seq<Arrival>): (claims: seq<Claim>)
    requires AllGood(table, frames)
    ensures |claims| == |frames|
  {
    seq(|frames|, k requires 0 <= k < |frames| => ClaimIn(table, key, frames[k]))
  }

  ghost predicate AllSigned(table: seq<MsgEntry>, frames: seq<Arrival>) {
    forall k :: 0 <= k < |frames| ==> SignedArrival(table, frames[k])
  }

  /** The same key, clock and streams; the last status may differ. */
  predicate SameSigning(a: Security, b: Security) {
    a.Secured? && b.Secured? && a.key == b.key && a.clock == b.clock && a.ledger == b.ledger
  }

  lemma CheckIgnoresStatus(a: Security, b: Security, claim: Claim)
    requires SameSigning(a, b)
    ensures Check(a, claim).1 == Check(b, claim).1 && SameSigning(Check(a, claim).0, Check(b, claim).0)
  {
  }

  /** The verdict on a signed frame is that of `mavlink_signature_check`, or the callback's; an unsigned frame has only
      the callback to speak for it, and leaves the signing state alone. */
  lemma SignedVerdict(table: seq<MsgEntry>, sec: Security, f: Arrival)
    requires Good(table, f) && sec.Secured?
    ensures var (after, ok) := Check(sec, ClaimIn(table, sec.key, f));
      var (judged, passed) := Verdict(table, sec, f);
      && (passed <==> ok || f.allow) && SameSigning(judged, after) && (SignedArrival(table, f) ==> judged == after)
  {
    hide CrcMatches, FromByte, SignedFlag, UnknownFlags, FrameClaim, Shaped, WellFormed;
    if SignedArrival(table, f) {
      SignedLength(table, f);
    }
  }

  lemma {:induction false} RunKeepsTheKey(sec: Security, claims: seq<Claim>)
    requires sec.Secured?
    ensures Run(sec, claims).Secured? && Run(sec, claims).key == sec.key
  {
    if claims != [] {
      RunKeepsTheKey(sec, claims[..|claims| - 1]);
    }
  }

  lemma ClaimsOfPrefix(table: seq<MsgEntry>, key: seq<byte>, frames: seq<Arrival>, n: nat)
    requires AllGood(table, frames) && n <= |frames|
    ensures AllGood(table, frames[..n]) && ClaimsOf(table, key, frames[..n]) == ClaimsOf(table, key, frames)[..n]
  {
    hide Good, ClaimIn;
  }

  /** A run over good frames is a run of the signing protocol over their claims. */
  lemma {:induction false} JudgedIsRun(table: seq<MsgEntry>, sec: Security, frames: seq<Arrival>)
    requires AllGood(table, frames) && sec.Secured?
    ensures var claims := ClaimsOf(table, sec.key, frames);
      SameSigning(Judged(table, sec, frames), Run(sec, claims))
      && (AllSigned(table, frames) ==> Judged(table, sec, frames) == Run(sec, claims))
    decreases |frames|
  {
    hide Check, SignedArrival, Good, ClaimIn, Verdict;
    if frames != [] {
      var n := |frames| - 1;
      ClaimsOfPrefix(table, sec.key, frames, n);
      JudgedIsRun(table, sec, frames[..n]);
      var judged, run := Judged(table, sec, frames[..n]), Run(sec, ClaimsOf(table, sec.key, frames[..n]));
      RunKeepsTheKey(sec, ClaimsOf(table, sec.key, frames[..n]));
      SignedVerdict(table, judged, frames[n]);
      CheckIgnoresStatus(judged, run, ClaimIn(table, sec.key, frames[n]));
    }
  }

  lemma PassedIsAccepted(table: seq<MsgEntry>, sec: Security, frames: seq<Arrival>, k: nat)
    requires AllGood(table, frames) && sec.Secured? && k < |frames|
    ensures Passed(table, sec, frames, k) <==> Accepted(sec, ClaimsOf(table, sec.key, frames), k) || frames[k].allow
  {
    hide Check, SignedArrival, Good, ClaimIn, Verdict, Judged, Run;
    ClaimsOfPrefix(table, sec.key, frames, k);
    JudgedIsRun(table, sec, frames[..k]);
    var judged, run := Judged(table, sec, frames[..k]), Run(sec, ClaimsOf(table, sec.key, frames[..k]));
    RunKeepsTheKey(sec, ClaimsOf(table, sec.key, frames[..k]));
    SignedVerdict(table, judged, frames[k]);
    CheckIgnoresStatus(judged, run, ClaimIn(table, sec.key, frames[k]));
  }

  /** Frames back to back on a channel with signing, signed or not, none of which is refused with the version 2 marker
      as its last byte: the answer at the end of each is the verdict of the signing protocol on its claim, or the
      callback's consent, and there is no other answer. */
  lemma SessionOverTheWire(table: seq<MsgEntry>, r: Receiver, frames: seq<Arrival>, ins: seq<Input>)
    requires r.hist == [] && r.security.Secured? && AllGood(table, frames)
    requires KeepsInStep(table, r.security, frames) && Carries(ins, frames)
    ensures Feed(table, r, ins).hist == []
    ensures var after, run := Feed(table, r, ins).security, Run(r.security, ClaimsOf(table, r.security.key, frames));
      SameSigning(after, run) && (AllSigned(table, frames) ==> after == run)
    ensures forall k :: 0 <= k < |frames| ==> (
      && 0 <= EndOf(frames, k) < |ins|
      && Result(table, r, ins, EndOf(frames, k)) ==
           if Accepted(r.security, ClaimsOf(table, r.security.key, frames), k) || frames[k].allow then Ok else Incomplete)
    ensures forall i :: 0 <= i < |ins| ==>
      Result(table, r, ins, i) == Incomplete || exists k :: 0 <= k < |frames| && i == EndOf(frames, k)
  {
    hide Check, SignedArrival, Good, ClaimIn, Accepted, Passed, ParseStep, KeepsInStep, Result, Carries, Feed, EndOf, Run, Judged;
    FramesInSequence(table, r, frames, ins);
    JudgedIsRun(table, r.security, frames);
    CarriedLength(ins, frames);
    forall k | 0 <= k < |frames|
      ensures Passed(table, r.security, frames, k)
        <==> Accepted(r.security, ClaimsOf(table, r.security.key, frames), k) || frames[k].allow
    {
      PassedIsAccepted(table, r.security, frames, k);
    }
  }

  /** A signed session over the wire, from a first frame that is welcome on: whatever others send or forge under any
      stream, signed or not, short of a refused frame that ends in the version 2 marker, and however the sender's frames
      are dropped, repeated or reordered, `mavlink_parse_char` answers OK at the end of a frame of the sender exactly
      when neither that frame nor one signed later has arrived before, or the callback consents. */
  lemma SignedSessionOverTheWire(table: seq<MsgEntry>, r: Receiver, s: Sender, events: seq<Event>,
                                 frames: seq<Arrival>, ins: seq<Input>, k: nat)
    requires r.hist == [] && LedgerFits(r.security) && s.Possible(events) && s.key == r.security.key
    requires AllGood(table, frames) && KeepsInStep(table, r.security, frames) && Carries(ins, frames)
    requires ClaimsOf(table, r.security.key, frames) == s.Claims(events)
    requires |events| > 0 && events[0].Own? && Welcome(r.security, s.Stream(), s.times[events[0].n])
    requires k < |events| && events[k].Own?
    ensures |frames| == |events| && 0 <= EndOf(frames, k) < |ins|
    ensures Result(table, r, ins, EndOf(frames, k)) ==
      if (forall j :: 0 <= j < k && events[j].Own? ==> events[j].n < events[k].n) || frames[k].allow then Ok else Incomplete
  {
    hide Check, SignedArrival, Good, ClaimIn, Accepted, ParseStep, Result, Feed, Concat, Run, KeepsInStep, Welcome, Carries;
    SessionOverTheWire(table, r, frames, ins);
    SignedSession(s, r.security, events, k);
  }

  // ----- a refused frame that ends in the marker -----

  /** The bytes of a signed frame, then signature bytes whose hash is wrong and whose last byte is the marker. */
  function Forged(key: seq<byte>, frame: seq<byte>, front: seq<byte>): seq<byte> {
    frame + front + [Next(FrameHash(key, frame + front)[0]), 0, 0, 0, 0, STX]
  }

  lemma ForgedParts(key: seq<byte>, frame: seq<byte>, front: seq<byte>)
    requires |front| == 7
    ensures var h := Forged(key, frame, front);
      && frame <= h && |h| == |frame| + 13 && h[|h| - 1] == STX
      && forall sysid, compid :: !ClaimOf(key, sysid, compid, frame, h[|frame|..]).authentic
  {
    hide FrameHash, Next, FromLittleEndian;
    var h := Forged(key, frame, front);
    var signature := h[|frame|..];
    assert signature[..7] == front;
    assert signature[7..][0] == Next(FrameHash(key, frame + front)[0]);
    NextIsAnother(FrameHash(key, frame + front)[0]);
  }

  lemma NextIsAnother(b: byte)
    ensures Next(b) != b
  {
  }

  /** Every signed frame that a sender can send has a forgery that is refused and ends in the marker, behind which the
      parser is out of step. */
  lemma ForgeryIsRefused(table: seq<MsgEntry>, out: Outgoing, body: seq<byte>, front: seq<byte>, sec: Security)
    requires |body| < 256 && Sendable(table, out) && !out.v1 && out.signer.Some? && |front| == 7 && sec.Secured?
    ensures var f := Arrival(false, Forged(sec.key, out.Unsigned(body), front), false);
      Good(table, f) && EndsInMarker(f) && !Verdict(table, sec, f).1
  {
    hide CrcMatches, FromByte, SignedFlag, UnknownFlags, Outgoing.Unsigned, Forged, ClaimOf, CrcExtra, IdFromBytes;
    var u, h := out.Unsigned(body), Forged(sec.key, out.Unsigned(body), front);
    ForgedParts(sec.key, u, front);
    FirstBytes(out, body, h);
    FlagSaysSigned();
    UnsignedLength(out, body);
    UnsignedPartReads(out, body, h);
    SentCrcMatches(table, out, body, h);
    assert h[..|u|] == u;
    var f := Arrival(false, h, false);
    SignedVerdict(table, sec, f);
    SignedLength(table, f);
  }

  lemma UnsignedLength(out: Outgoing, body: seq<byte>)
    requires |body| < 256
    ensures |out.Unsigned(body)| == HeaderLen(out.v1) + |body| + 2
  {
    hide ToByte, IdByte;
  }

  // ----- from the sender's calls to the receiver's answers -----

  /** A frame that a sender of the given stream signs at the given timestamp. */
  predicate SignedAs(table: seq<MsgEntry>, t: Transmission, key: seq<byte>, stream: StreamKey, timestamp: nat) {
    && !t.out.v1 && |t.body| < 256 && Sendable(table, t.out) && timestamp < 0x1_0000_0000_0000
    && t.out.sysid == stream.sysid && t.out.compid == stream.compid
    && t.out.signer == Some(Signer(key, stream.linkId, timestamp))
  }

  /** What a sender signs is a signed frame on the wire, and claims the sender's stream and timestamp. */
  lemma SentFrameClaims(table: seq<MsgEntry>, t: Transmission, f: Arrival, key: seq<byte>, stream: StreamKey, timestamp: nat)
    requires SignedAs(table, t, key, stream, timestamp) && SentAs(table, t, f)
    ensures Good(table, f) && SignedArrival(table, f) && ClaimIn(table, key, f) == Claim(stream, timestamp, true)
  {
    hide FrameClaim, CrcMatches, FromByte, SignedFlag, UnknownFlags, Outgoing.Frame, Outgoing.Unsigned;
    SentFrameIsWellFormed(table, t.out, t.body);
    SignedLength(table, f);
    SentClaim(t.out, t.body, f.bytes);
  }

  /** A frame of the sender arrives as it was sent; any other is of another stream, forged, or not signed at all. */
  ghost predicate ArrivesAs(table: seq<MsgEntry>, key: seq<byte>, stream: StreamKey, sent: seq<Transmission>, e: Event, f: Arrival) {
    match e
    case Own(n) => n < |sent| && SentAs(table, sent[n], f)
    case Other(claim) => Good(table, f) && ClaimIn(table, key, f) == claim && Foreign(claim, stream)
  }

  /** The frames that a sender signs, at whatever increasing timestamps, arrive in any order, any number of times or not
      at all, among frames of other streams, forgeries of its own and unsigned frames, short of a refused frame that ends
      in the version 2 marker. From a first one that is welcome on, `mavlink_parse_char` answers OK at the end of one of
      them if and only if neither it nor one sent later has arrived before, or the callback consents. */
  lemma TransmissionsOverTheWire(table: seq<MsgEntry>, r: Receiver, stream: StreamKey, times: seq<nat>, sent: seq<Transmission>,
                                 events: seq<Event>, frames: seq<Arrival>, ins: seq<Input>, k: nat)
    requires r.hist == [] && LedgerFits(r.security) && |frames| == |events| && |times| == |sent| && Clock(times)
    requires forall n :: 0 <= n < |sent| ==> SignedAs(table, sent[n], r.security.key, stream, times[n])
    requires forall i :: 0 <= i < |events| ==> ArrivesAs(table, r.security.key, stream, sent, events[i], frames[i])
    requires AllGood(table, frames) && KeepsInStep(table, r.security, frames) && Carries(ins, frames)
    requires |events| > 0 && events[0].Own? && events[0].n < |times| && Welcome(r.security, stream, times[events[0].n])
    requires k < |events| && events[k].Own?
    ensures 0 <= EndOf(frames, k) < |ins|
    ensures Result(table, r, ins, EndOf(frames, k)) ==
      if (forall j :: 0 <= j < k && events[j].Own? ==> events[j].n < events[k].n) || frames[k].allow then Ok else Incomplete
  {
    hide Check, SignedArrival, Good, ClaimIn, Accepted, ParseStep, Result, Feed, Concat, Run, KeepsInStep, Welcome, SignedAs;
    hide Carries, ArrivesAs, Clock;
    // An honest claim is the same whatever the bytes it covers.
    var signed := seq(|sent|, n requires 0 <= n < |sent| => sent[n].body);
    var s := Sender(r.security.key, stream.sysid, stream.compid, stream.linkId, times, signed);
    assert s.Stream() == stream by { StreamOf(s); }
    SameClaims(table, s, sent, events, frames);
    SignedSessionOverTheWire(table, r, s, events, frames, ins, k);
  }

  lemma StreamOf(s: Sender)
    ensures s.Stream() == StreamKey(s.sysid, s.compid, s.linkId)
  {
  }

  lemma SameClaims(table: seq<MsgEntry>, s: Sender, sent: seq<Transmission>, events: seq<Event>, frames: seq<Arrival>)
    requires |s.frames| == |sent| == |s.times| && Clock(s.times) && |frames| == |events|
    requires forall n :: 0 <= n < |sent| ==> SignedAs(table, sent[n], s.key, s.Stream(), s.times[n])
    requires forall i :: 0 <= i < |events| ==> ArrivesAs(table, s.key, s.Stream(), sent, events[i], frames[i])
    ensures s.Possible(events) && AllGood(table, frames) && ClaimsOf(table, s.key, frames) == s.Claims(events)
  {
    hide Good, ClaimIn, SignedAs, ArrivesAs, Foreign, Clock, Sender.Stream, Sender.ClaimAt;
    forall i | 0 <= i < |events|
      ensures Good(table, frames[i]) && ClaimIn(table, s.key, frames[i]) == s.ClaimAt(events[i])
      ensures if events[i].Own? then events[i].n < |sent| else Foreign(events[i].claim, s.Stream())
    {
      SameClaim(table, s, sent, events[i], frames[i]);
    }
    assert ClaimsOf(table, s.key, frames) == s.Claims(events);
  }

  lemma SameClaim(table: seq<MsgEntry>, s: Sender, sent: seq<Transmission>, e: Event, f: Arrival)
    requires |s.frames| == |sent| == |s.times| && Clock(s.times)
    requires forall n :: 0 <= n < |sent| ==> SignedAs(table, sent[n], s.key, s.Stream(), s.times[n])
    requires ArrivesAs(table, s.key, s.Stream(), sent, e, f)
    ensures Good(table, f) && ClaimIn(table, s.key, f) == s.ClaimAt(e)
    ensures if e.Own? then e.n < |sent| else Foreign(e.claim, s.Stream())
  {
    hide Good, SignedArrival, ClaimIn, SignedAs, SignatureBlock, ClaimOf, SentAs;
    if e.Own? {
      OwnClaim(s, e.n);
      SentIsGood(table, sent[e.n], f);
      SentFrameClaims(table, sent[e.n], f, s.key, s.Stream(), s.times[e.n]);
    }
  }
}
