/** Runs that go beyond one channel's checks: channels that also sign, and channels that share a stream table. */
module SigningRuns {
  import opened Bytes
  import opened MessageTable
  import opened Signing

  // ----- a channel that signs and checks -----

  /** What a channel does next: sign a frame of its own, or check the claim of a frame it has received. */
  datatype Turn = Signs | Checks(claim: Claim)

  /** `mavlink_sign_packet` steps the timestamp, `mavlink_signature_check` may move it forward. */
  function AfterTurn(sec: Security, turn: Turn): Security
    requires sec.Secured?
    ensures AfterTurn(sec, turn).Secured?
  {
    match turn
    case Signs => sec.(clock := (sec.clock + 1) % TWO_64)
    case Checks(claim) => Check(sec, claim).0
  }

  function Turns(sec: Security, turns: seq<Turn>): (after: Security)
    requires sec.Secured?
    ensures after.Secured?
  {
    if turns == [] then sec else AfterTurn(Turns(sec, turns[..|turns| - 1]), turns[|turns| - 1])
  }

  /** The timestamps of the frames signed. */
  function Stamps(sec: Security, turns: seq<Turn>): seq<nat>
    requires sec.Secured?
  {
    if turns == [] then []
    else
      var init, last := turns[..|turns| - 1], turns[|turns| - 1];
      Stamps(sec, init) + if last.Signs? then [Turns(sec, init).clock] else []
  }

  /** Timestamps on the wire have 48 bits. */
  predicate FromTheWire(turns: seq<Turn>) {
    forall i :: 0 <= i < |turns| && turns[i].Checks? ==> turns[i].claim.timestamp < 0x1_0000_0000_0000
  }

  lemma TurnMovesForward(sec: Security, turn: Turn)
    requires sec.Secured? && sec.clock + 1 < TWO_64
    ensures var after := AfterTurn(sec, turn);
      && sec.clock <= after.clock && (turn.Signs? ==> after.clock == sec.clock + 1)
      && (turn.Checks? ==> after.clock == sec.clock || after.clock == turn.claim.timestamp)
  {
  }

  predicate IncreasingBelow(stamps: seq<nat>, clock: nat) {
    && (forall i :: 0 <= i < |stamps| ==> stamps[i] < clock)
    && (forall i, j :: 0 <= i < j < |stamps| ==> stamps[i] < stamps[j])
  }

  lemma NoStamps(clock: nat)
    ensures IncreasingBelow([], clock)
  {
  }

  lemma OneMoreStamp(stamps: seq<nat>, stamp: nat, clock: nat)
    requires IncreasingBelow(stamps, stamp) && stamp <= clock
    ensures IncreasingBelow(stamps, clock)
    ensures stamp < clock ==> IncreasingBelow(stamps + [stamp], clock)
    ensures stamps + [] == stamps
  {
  }

  /** However signing and checking alternate, the timestamps signed increase strictly and stay below the clock. */
  lemma {:induction false} StampsIncrease(sec: Security, turns: seq<Turn>)
    requires sec.Secured? && FromTheWire(turns)
    requires sec.clock + 0x1_0000_0000_0000 + |turns| < TWO_64
    ensures Turns(sec, turns).clock < sec.clock + 0x1_0000_0000_0000 + |turns|
    ensures IncreasingBelow(Stamps(sec, turns), Turns(sec, turns).clock)
  {
    hide AfterTurn, IncreasingBelow;
    NoStamps(sec.clock);
    if turns != [] {
      var init, last := turns[..|turns| - 1], turns[|turns| - 1];
      StampsIncrease(sec, init);
      var before := Turns(sec, init);
      TurnMovesForward(before, last);
      var stamps := Stamps(sec, init);
      OneMoreStamp(stamps, before.clock, Turns(sec, turns).clock);
    }
  }

  /** So they are a clock exactly as long as the last one still fits the 48 bits of the wire. */
  lemma StampsAreAClock(sec: Security, turns: seq<Turn>)
    requires sec.Secured? && FromTheWire(turns)
    requires sec.clock + 0x1_0000_0000_0000 + |turns| < TWO_64
    ensures var stamps := Stamps(sec, turns);
      Clock(stamps) <==> stamps == [] || stamps[|stamps| - 1] < 0x1_0000_0000_0000
  {
    StampsIncrease(sec, turns);
  }

  // ----- channels that share a stream table -----

  /** What a channel has of its own. */
  datatype Channel = Channel(key: seq<byte>, clock: nat)

  /** Several channels whose `signing_streams` point to one table. */
  datatype Shared = Shared(channels: seq<Channel>, ledger: Ledger)

  /** A claim that arrives on one of them. */
  datatype Received = Received(channel: nat, claim: Claim)

  function SeenBy(s: Shared, channel: nat): Security
    requires channel < |s.channels|
  {
    Secured(s.channels[channel].key, s.channels[channel].clock, Some(s.ledger), NoStatus)
  }

  predicate Arriving(s: Shared, arrivals: seq<Received>) {
    forall i :: 0 <= i < |arrivals| ==> arrivals[i].channel < |s.channels|
  }

  function SharedStep(s: Shared, a: Received): (after: Shared)
    requires a.channel < |s.channels|
    ensures |after.channels| == |s.channels|
  {
    var checked := Check(SeenBy(s, a.channel), a.claim).0;
    Shared(s.channels[a.channel := Channel(checked.key, checked.clock)], checked.ledger.value)
  }

  function SharedRun(s: Shared, arrivals: seq<Received>): (after: Shared)
    requires Arriving(s, arrivals)
    ensures |after.channels| == |s.channels|
  {
    if arrivals == [] then s
    else SharedStep(SharedRun(s, arrivals[..|arrivals| - 1]), arrivals[|arrivals| - 1])
  }

  predicate SharedAccepted(s: Shared, arrivals: seq<Received>, i: nat)
    requires Arriving(s, arrivals) && i < |arrivals|
  {
    Check(SeenBy(SharedRun(s, arrivals[..i]), arrivals[i].channel), arrivals[i].claim).1
  }

  predicate Covers(was: Ledger, now: Ledger) {
    was.Keys <= now.Keys && forall k :: k in was ==> was[k] <= now[k]
  }

  lemma SharedStepKeeps(s: Shared, a: Received)
    requires a.channel < |s.channels| && |s.ledger| <= MAX_SIGNING_STREAMS
    ensures var after := SharedStep(s, a); |after.ledger| <= MAX_SIGNING_STREAMS && Covers(s.ledger, after.ledger)
    ensures Check(SeenBy(s, a.channel), a.claim).1 ==>
      var after := SharedStep(s, a);
      && (a.claim.stream in s.ledger ==> s.ledger[a.claim.stream] < a.claim.timestamp)
      && a.claim.stream in after.ledger && after.ledger[a.claim.stream] == a.claim.timestamp
  {
  }

  /** Over every run on every channel the table fits, loses no stream, and its timestamps do not go back. */
  lemma {:induction false} SharedRunKeeps(s: Shared, arrivals: seq<Received>)
    requires Arriving(s, arrivals) && |s.ledger| <= MAX_SIGNING_STREAMS
    ensures var after := SharedRun(s, arrivals); |after.ledger| <= MAX_SIGNING_STREAMS && Covers(s.ledger, after.ledger)
  {
    hide SharedStep;
    if arrivals != [] {
      var init := arrivals[..|arrivals| - 1];
      SharedRunKeeps(s, init);
      SharedStepKeeps(SharedRun(s, init), arrivals[|arrivals| - 1]);
    }
  }

  lemma {:induction false} SharedRunSplits(s: Shared, a: seq<Received>, b: seq<Received>)
    requires Arriving(s, a) && Arriving(s, b)
    ensures Arriving(s, a + b) && SharedRun(s, a + b) == SharedRun(SharedRun(s, a), b)
  {
    hide SharedStep;
    if b == [] {
      assert a + b == a;
    } else {
      assert (a + b)[..|a + b| - 1] == a + b[..|b| - 1];
      SharedRunSplits(s, a, b[..|b| - 1]);
    }
  }

  lemma AcceptedIsRecorded(s: Shared, arrivals: seq<Received>, i: nat)
    requires Arriving(s, arrivals) && |s.ledger| <= MAX_SIGNING_STREAMS && i < |arrivals| && SharedAccepted(s, arrivals, i)
    ensures var was, now, claim := SharedRun(s, arrivals[..i]).ledger, SharedRun(s, arrivals[..i + 1]).ledger, arrivals[i].claim;
      && (claim.stream in was ==> was[claim.stream] < claim.timestamp)
      && claim.stream in now && now[claim.stream] == claim.timestamp
  {
    hide SharedStep, Check;
    assert arrivals[..i + 1][..i] == arrivals[..i];
    SharedRunKeeps(s, arrivals[..i]);
    SharedStepKeeps(SharedRun(s, arrivals[..i]), arrivals[i]);
  }

  lemma LedgerGrows(s: Shared, arrivals: seq<Received>, m: nat, n: nat)
    requires Arriving(s, arrivals) && |s.ledger| <= MAX_SIGNING_STREAMS && m <= n <= |arrivals|
    ensures Covers(SharedRun(s, arrivals[..m]).ledger, SharedRun(s, arrivals[..n]).ledger)
  {
    hide SharedStep, Covers;
    assert arrivals[..n] == arrivals[..m] + arrivals[m..n];
    SharedRunKeeps(s, arrivals[..m]);
    SharedRunSplits(s, arrivals[..m], arrivals[m..n]);
    SharedRunKeeps(SharedRun(s, arrivals[..m]), arrivals[m..n]);
  }

  /** No replay across connections: between any two claims of one stream that are accepted, on whichever channels, with
      whatever keys and clocks of their own, the timestamp has grown. */
  lemma SharedTimestampsIncrease(s: Shared, arrivals: seq<Received>, i: nat, j: nat)
    requires Arriving(s, arrivals) && |s.ledger| <= MAX_SIGNING_STREAMS
    requires i < j < |arrivals| && arrivals[i].claim.stream == arrivals[j].claim.stream
    requires SharedAccepted(s, arrivals, i) && SharedAccepted(s, arrivals, j)
    ensures arrivals[i].claim.timestamp < arrivals[j].claim.timestamp
  {
    hide SharedRun, SharedAccepted;
    AcceptedIsRecorded(s, arrivals, i);
    LedgerGrows(s, arrivals, i + 1, j);
    AcceptedIsRecorded(s, arrivals, j);
  }
}
