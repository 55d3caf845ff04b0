/** Packet signing: what a receiver remembers about streams, and the rule that accepts a timestamp. */
module Signing {
  import opened Bytes
  import opened MessageTable
  import opened Sha256

  const MAX_SIGNING_STREAMS := 16
  /** The age a first timestamp may have, in the units of `signing->timestamp`. */
  const MAX_AGE := 6_000_000

  datatype SigningStatus =
    | NoStatus | SigningOk | BadSignature | NoStreams | TooManyStreams | OldTimestamp | Replay

  datatype StreamKey = StreamKey(sysid: byte, compid: byte, linkId: byte)

  /** The last timestamp accepted from every stream. */
  type Ledger = map<StreamKey, nat>

  /** The signing state of a channel: absent, or a key, a clock and the ledger it may share. */
  datatype Security =
    | Unsecured
    | Secured(key: seq<byte>, clock: nat, ledger: Option<Ledger>, status: SigningStatus)

  /** The part of a signed frame that a receiver reads: who, when, and whether the hash agrees. */
  datatype Claim = Claim(stream: StreamKey, timestamp: nat, authentic: bool)

  /** The verdict on a claim. */
  function Judge(clock: nat, ledger: Option<Ledger>, claim: Claim): SigningStatus {
    if !claim.authentic then BadSignature
    else if ledger.None? then NoStreams
    else if claim.stream in ledger.value then
      if claim.timestamp <= ledger.value[claim.stream] then Replay else SigningOk
    else if |ledger.value| >= MAX_SIGNING_STREAMS then TooManyStreams
    else if claim.timestamp + MAX_AGE < clock then OldTimestamp
    else SigningOk
  }

  /** `mavlink_signature_check` on values: the new state and the answer. */
  function Check(sec: Security, claim: Claim): (Security, bool) {
    if sec.Unsecured? then (sec, true)
    else
      var status := Judge(sec.clock, sec.ledger, claim);
      if status != SigningOk then (sec.(status := status), false)
      else
        (Secured(sec.key, if claim.timestamp > sec.clock then claim.timestamp else sec.clock,
                 Some(sec.ledger.value[claim.stream := claim.timestamp]), SigningOk), true)
  }

  /** The hash of a frame: the shared key, then everything up to the signature hash itself. */
  function FrameHash(key: seq<byte>, covered: seq<byte>): (s: seq<byte>)
    ensures |s| == 6
  {
    Sha48(key + covered)
  }

  /** The 13 signature bytes of a frame whose bytes up to the checksum are given. */
  function SignatureBlock(key: seq<byte>, linkId: byte, timestamp: nat, frame: seq<byte>): (s: seq<byte>)
    ensures |s| == 13
  {
    var front := [linkId] + LittleEndian(timestamp, 6);
    front + FrameHash(key, frame + front)
  }

  /** The claim that a frame and its 13 signature bytes make. */
  function ClaimOf(key: seq<byte>, sysid: byte, compid: byte, frame: seq<byte>, signature: seq<byte>): Claim
    requires |signature| == 13
  {
    Claim(StreamKey(sysid, compid, signature[0]), FromLittleEndian(signature[1..7]),
          FrameHash(key, frame + signature[..7]) == signature[7..])
  }

  /** Signing and checking hash the same bytes, and the timestamp survives. */
  lemma SignedClaim(key: seq<byte>, linkId: byte, timestamp: nat, sysid: byte, compid: byte, frame: seq<byte>)
    requires timestamp < 0x1_0000_0000_0000
    ensures ClaimOf(key, sysid, compid, frame, SignatureBlock(key, linkId, timestamp, frame)) ==
      Claim(StreamKey(sysid, compid, linkId), timestamp, true)
  {
    hide Sha48;
    var s := SignatureBlock(key, linkId, timestamp, frame);
    assert s[1..7] == LittleEndian(timestamp, 6);
    assert s[..7] == [linkId] + LittleEndian(timestamp, 6);
    assert s[7..] == FrameHash(key, frame + s[..7]);
    TwoToThe48();
    LittleEndianRoundTrip(timestamp, 6);
  }

  // ----- safety over whole runs -----

  function Run(sec: Security, claims: seq<Claim>): Security {
    if claims == [] then sec else Check(Run(sec, claims[..|claims| - 1]), claims[|claims| - 1]).0
  }

  /** Whether the i-th claim of a run is accepted. */
  predicate Accepted(sec: Security, claims: seq<Claim>, i: nat)
    requires i < |claims|
  {
    Check(Run(sec, claims[..i]), claims[i]).1
  }

  ghost predicate LedgerFits(sec: Security) {
    sec.Secured? && sec.ledger.Some? && |sec.ledger.value| <= MAX_SIGNING_STREAMS
  }

  /** The ledger always fits the sixteen-entry table, and the clock never runs backwards. */
  lemma {:induction false} RunKeepsTheLedger(sec: Security, claims: seq<Claim>)
    requires LedgerFits(sec)
    ensures LedgerFits(Run(sec, claims))
    ensures Run(sec, claims).key == sec.key && Run(sec, claims).clock >= sec.clock
    ensures sec.ledger.value.Keys <= Run(sec, claims).ledger.value.Keys
    ensures forall k :: k in sec.ledger.value ==> sec.ledger.value[k] <= Run(sec, claims).ledger.value[k]
  {
    if claims != [] {
      RunKeepsTheLedger(sec, claims[..|claims| - 1]);
    }
  }

  lemma {:induction false} RunSplits(sec: Security, a: seq<Claim>, b: seq<Claim>)
    ensures Run(sec, a + b) == Run(Run(sec, a), b)
  {
    hide Check;
    if b == [] {
      assert a + b == a;
    } else {
      assert (a + b)[..|a + b| - 1] == a + b[..|b| - 1];
      RunSplits(sec, a, b[..|b| - 1]);
    }
  }

  /** An accepted claim is authentic and is what the ledger then holds; the clock has caught up with it. */
  lemma AcceptanceIsRecorded(sec: Security, claim: Claim)
    requires sec.Secured?
    ensures var (after, ok) := Check(sec, claim);
      if ok then
        && claim.authentic && sec.ledger.Some?
        && (claim.stream in sec.ledger.value ==> claim.timestamp > sec.ledger.value[claim.stream])
        && after.ledger == Some(sec.ledger.value[claim.stream := claim.timestamp])
        && after.key == sec.key && after.status == SigningOk
        && after.clock >= claim.timestamp && after.clock >= sec.clock
        && (after.clock == claim.timestamp || after.clock == sec.clock)
      else
        after == sec.(status := after.status) && after.status != SigningOk
  {
  }

  /** What is accepted: an authentic claim, on a channel with a table, that is newer than the last of its stream, or the
      first of its stream if there are fewer than sixteen and it is at most 6,000,000 units behind the clock. */
  lemma AcceptedExactly(sec: Security, claim: Claim)
    requires sec.Secured?
    ensures Check(sec, claim).1 <==>
      && claim.authentic && sec.ledger.Some?
      && (claim.stream in sec.ledger.value ==> claim.timestamp > sec.ledger.value[claim.stream])
      && (claim.stream !in sec.ledger.value ==> |sec.ledger.value| < 16 && claim.timestamp >= sec.clock - 6_000_000)
  {
  }

  /** Why a claim is refused: the first reason in this order. */
  lemma RefusedBecause(sec: Security, claim: Claim)
    requires sec.Secured? && !Check(sec, claim).1
    ensures var status := Check(sec, claim).0.status;
      && (status == BadSignature <==> !claim.authentic)
      && (status == NoStreams <==> claim.authentic && sec.ledger.None?)
      && (status == Replay <==>
            claim.authentic && sec.ledger.Some? && claim.stream in sec.ledger.value)
      && (status == TooManyStreams <==>
            claim.authentic && sec.ledger.Some? && claim.stream !in sec.ledger.value && |sec.ledger.value| >= 16)
      && (status == OldTimestamp <==>
            claim.authentic && sec.ledger.Some? && claim.stream !in sec.ledger.value && |sec.ledger.value| < 16)
  {
  }

  /** Between any two accepted claims of one stream the timestamp has grown; and the clock of the
      receiver is at least every timestamp it has accepted. */
  lemma AcceptedTimestampsIncrease(sec: Security, claims: seq<Claim>, i: nat, j: nat)
    requires LedgerFits(sec)
    requires i < j < |claims| && claims[i].stream == claims[j].stream
    requires Accepted(sec, claims, i) && Accepted(sec, claims, j)
    ensures claims[i].timestamp < claims[j].timestamp
    ensures Run(sec, claims[..j]).Secured? && claims[i].timestamp <= Run(sec, claims[..j]).clock
  {
    var before, k := Run(sec, claims[..i]), claims[i].stream;
    RunKeepsTheLedger(sec, claims[..i]);
    AcceptanceIsRecorded(before, claims[i]);
    assert claims[..i + 1][..i] == claims[..i];
    var after := Run(sec, claims[..i + 1]);
    RunKeepsTheLedger(sec, claims[..i + 1]);
    RunSplits(sec, claims[..i + 1], claims[i + 1..j]);
    assert claims[..i + 1] + claims[i + 1..j] == claims[..j];
    RunKeepsTheLedger(after, claims[i + 1..j]);
    AcceptanceIsRecorded(Run(sec, claims[..j]), claims[j]);
  }

  // ----- a signed session -----

  /** What reaches a receiver: a frame of the sender under study, by its number, or any other
      frame. */
  datatype Event = Own(n: nat) | Other(claim: Claim)

  /** A sender: its key and identity, the frames it has signed, and its timestamp at each. A sender that also
      receives has gaps in its timestamps, for accepted frames move its clock forward. */
  datatype Sender = Sender(key: seq<byte>, sysid: byte, compid: byte, linkId: byte, times: seq<nat>, frames: seq<seq<byte>>)
  {
    function Stream(): StreamKey {
      StreamKey(sysid, compid, linkId)
    }

    // Frame n was signed when the incremented timestamp stood at times[n].
    function ClaimAt(e: Event): Claim {
      match e
      case Own(n) =>
        var frame := if n < |frames| then frames[n] else [];
        var time := if n < |times| then times[n] else 0;
        ClaimOf(key, sysid, compid, frame, SignatureBlock(key, linkId, time, frame))
      case Other(claim) => claim
    }

    function Claims(events: seq<Event>): (cs: seq<Claim>)
      ensures |cs| == |events|
    {
      seq(|events|, i requires 0 <= i < |events| => ClaimAt(events[i]))
    }

    ghost predicate Possible(events: seq<Event>) {
      && |times| == |frames| && Clock(times)
      && forall i :: 0 <= i < |events| ==>
        if events[i].Own? then events[i].n < |frames| else Foreign(events[i].claim, Stream())
    }
  }

  /** Timestamps as a clock gives them: strictly increasing, in 48 bits. */
  ghost predicate Clock(times: seq<nat>) {
    && (forall i :: 0 <= i < |times| ==> times[i] < 0x1_0000_0000_0000)
    && (forall i, j :: 0 <= i < j < |times| ==> times[i] < times[j])
  }

  /** A claim that a stream's own sender did not make: of another stream, or forged. */
  predicate Foreign(claim: Claim, stream: StreamKey) {
    claim.stream != stream || !claim.authentic
  }

  /** An honest sender's frame is what it says, whatever the sender's number for it. */
  lemma OwnClaim(s: Sender, n: nat)
    requires n < |s.frames| == |s.times| && Clock(s.times)
    ensures s.ClaimAt(Own(n)) == Claim(s.Stream(), s.times[n], true)
  {
    hide SignatureBlock, ClaimOf;
    SignedClaim(s.key, s.linkId, s.times[n], s.sysid, s.compid, s.frames[n]);
  }

  /** When the first frame of a sender to arrive is accepted: it is newer than what the ledger has, or
      there is a free slot for the stream and the frame is fresh. */
  predicate Welcome(sec: Security, stream: StreamKey, timestamp: nat)
    requires sec.Secured? && sec.ledger.Some?
  {
    if stream in sec.ledger.value then sec.ledger.value[stream] < timestamp
    else |sec.ledger.value| < MAX_SIGNING_STREAMS && timestamp + MAX_AGE >= sec.clock
  }

  lemma WelcomeIsAcceptance(sec: Security, claim: Claim)
    requires LedgerFits(sec) && claim.authentic
    ensures Check(sec, claim).1 <==> Welcome(sec, claim.stream, claim.timestamp)
  {
  }

  /** The highest number among the sender's frames that have arrived. */
  function Top(events: seq<Event>): (n: nat)
    requires |events| > 0 && events[0].Own?
    ensures forall j :: 0 <= j < |events| && events[j].Own? ==> events[j].n <= n
    ensures exists j :: 0 <= j < |events| && events[j].Own? && events[j].n == n
  {
    if |events| == 1 then events[0].n
    else
      var init, last := events[..|events| - 1], events[|events| - 1];
      var top := Top(init);
      assert exists j :: 0 <= j < |init| && init[j].Own? && init[j].n == top && events[j] == init[j];
      if last.Own? && last.n > top then last.n else top
  }

  // Whatever others send or forge, and however its own frames are dropped, repeated or reordered, the
  // sender's ledger entry is the newest timestamp it has sent.
  lemma {:induction false} SessionLedger(s: Sender, sec: Security, events: seq<Event>)
    requires LedgerFits(sec) && s.Possible(events)
    requires |events| > 0 && events[0].Own? && Welcome(sec, s.Stream(), s.times[events[0].n])
    ensures var after := Run(sec, s.Claims(events));
      LedgerFits(after) && s.Stream() in after.ledger.value
      && after.ledger.value[s.Stream()] == s.times[Top(events)]
  {
    hide SignatureBlock, ClaimOf;
    var init, last := events[..|events| - 1], events[|events| - 1];
    var claims := s.Claims(events);
    assert claims[..|claims| - 1] == s.Claims(init);
    if last.Own? {
      OwnClaim(s, last.n);
    }
    if |events| == 1 {
      assert s.Claims(init) == [];
    } else {
      SessionLedger(s, sec, init);
    }
  }

  /** A whole signed session: once a first frame is welcome, and whatever others send or forge under any stream,
      a sender's frame is accepted exactly when neither that frame nor one it signed later has arrived before;
      if not, it is refused as a replay. */
  lemma SignedSession(s: Sender, sec: Security, events: seq<Event>, i: nat)
    requires LedgerFits(sec) && s.Possible(events)
    requires |events| > 0 && events[0].Own? && Welcome(sec, s.Stream(), s.times[events[0].n])
    requires i < |events| && events[i].Own?
    ensures Accepted(sec, s.Claims(events), i) <==>
      forall j :: 0 <= j < i && events[j].Own? ==> events[j].n < events[i].n
    ensures !Accepted(sec, s.Claims(events), i) ==>
      Check(Run(sec, s.Claims(events)[..i]), s.Claims(events)[i]).0.status == Replay
  {
    hide SignatureBlock, ClaimOf;
    OwnClaim(s, events[i].n);
    var before := events[..i];
    assert s.Claims(events)[..i] == s.Claims(before);
    if i == 0 {
      assert s.Claims(before) == [];
    } else {
      SessionLedger(s, sec, before);
      var j :| 0 <= j < |before| && before[j].Own? && before[j].n == Top(before);
      assert events[j].n == Top(before);
      assert forall j :: 0 <= j < i ==> before[j] == events[j];
    }
  }
}
