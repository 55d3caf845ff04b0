/** `mavlink_signing_t` and the sixteen-entry stream table, with the functions that update them in place. */
module SigningState {
  import opened Bytes
  import opened MessageTable
  import opened Wire
  import opened Message
  import opened Signing
  import opened Sha256
  import Sha256Ctx

  class SigningKey {
    var signOutgoing: bool
    var linkId: byte
    var timestamp: nat
    const secretKey: seq<byte>
    var lastStatus: SigningStatus

    constructor (secretKey: seq<byte>, linkId: byte, timestamp: nat, signOutgoing: bool)
      requires |secretKey| == 32
      ensures Valid() && this.secretKey == secretKey && this.linkId == linkId
      ensures this.timestamp == timestamp % TWO_64 && this.signOutgoing == signOutgoing && lastStatus == NoStatus
    {
      this.secretKey, this.linkId, this.timestamp := secretKey, linkId, timestamp % TWO_64;
      this.signOutgoing, lastStatus := signOutgoing, NoStatus;
    }

    ghost predicate Valid()
      reads this
    {
      |secretKey| == 32 && timestamp < TWO_64
    }
  }

  /** One `mavlink_signing_stream`. */
  datatype StreamEntry = StreamEntry(linkId: byte, sysid: byte, compid: byte, timestampBytes: seq<byte>)
  {
    function Key(): StreamKey {
      StreamKey(sysid, compid, linkId)
    }
  }

  class SigningStreams {
    var num: nat
    /** Always sixteen entries, of which the first `num` are in use. */
    var stream: seq<StreamEntry>
    /** What the table stands for. */
    ghost var ledger: Ledger

    constructor ()
      ensures Valid() && num == 0 && ledger == map[]
    {
      num := 0;
      stream := seq(MAX_SIGNING_STREAMS, i => StreamEntry(0, 0, 0, []));
      ledger := map[];
    }

    ghost predicate Valid()
      reads this
    {
      |stream| == MAX_SIGNING_STREAMS && num <= MAX_SIGNING_STREAMS && Represents(stream[..num], ledger)
    }

    /** The search loop of `mavlink_signature_check`: `num` when the stream is not in the table. */
    method Find(key: StreamKey) returns (i: nat)
      requires Valid()
      ensures i <= num
      ensures i < num ==> (
        stream[i].Key() == key && key in ledger && ledger[key] == FromLittleEndian(stream[i].timestampBytes))
      ensures i == num <==> key !in ledger
      ensures num == |ledger|
    {
      hide FromLittleEndian;
      i := 0;
      while i < num
        invariant i <= num
        invariant forall j :: 0 <= j < i ==> stream[j].Key() != key
      {
        if key.sysid == stream[i].sysid && key.compid == stream[i].compid && key.linkId == stream[i].linkId {
          assert stream[..num][i].Key() == key;
          break;
        }
        i := i + 1;
      }
    }

    /** Adds the stream at index `num`. */
    method Append(key: StreamKey, timestampBytes: seq<byte>)
      requires Valid() && num < MAX_SIGNING_STREAMS && key !in ledger && |timestampBytes| == 6
      modifies this
      ensures Valid() && ledger == old(ledger)[key := FromLittleEndian(timestampBytes)]
    {
      hide FromLittleEndian, Represents;
      var entry := StreamEntry(key.linkId, key.sysid, key.compid, timestampBytes);
      RepresentsAppend(stream[..num], ledger, entry);
      stream := stream[num := entry];
      num := num + 1;
      ledger := ledger[key := FromLittleEndian(timestampBytes)];
      assert stream[..num] == old(stream[..num]) + [entry];
    }

    /** Remembers the last timestamp of a stream already in the table. */
    method Remember(i: nat, timestampBytes: seq<byte>)
      requires Valid() && i < num && |timestampBytes| == 6
      modifies this
      ensures Valid() && ledger == old(ledger[stream[i].Key() := FromLittleEndian(timestampBytes)])
    {
      hide FromLittleEndian, Represents;
      RepresentsUpdate(stream[..num], ledger, i, timestampBytes);
      ledger := ledger[stream[i].Key() := FromLittleEndian(timestampBytes)];
      stream := stream[i := stream[i].(timestampBytes := timestampBytes)];
      assert stream[..num] == old(stream[..num])[i := stream[i]];
    }
  }

  /** Entries with distinct keys stand for the map from their keys to their timestamps. */
  ghost predicate Represents(es: seq<StreamEntry>, ledger: Ledger) {
    |ledger| == |es| && Recorded(es, ledger) && Covered(es, ledger) && Distinct(es)
  }

  ghost predicate Recorded(es: seq<StreamEntry>, ledger: Ledger) {
    forall i :: 0 <= i < |es| ==>
      |es[i].timestampBytes| == 6 && es[i].Key() in ledger
      && ledger[es[i].Key()] == FromLittleEndian(es[i].timestampBytes)
  }

  ghost predicate Covered(es: seq<StreamEntry>, ledger: Ledger) {
    forall k :: k in ledger ==> exists i :: 0 <= i < |es| && es[i].Key() == k
  }

  ghost predicate Distinct(es: seq<StreamEntry>) {
    forall i, j :: 0 <= i < j < |es| ==> es[i].Key() != es[j].Key()
  }

  lemma RepresentsAppend(es: seq<StreamEntry>, ledger: Ledger, e: StreamEntry)
    requires Represents(es, ledger) && e.Key() !in ledger && |e.timestampBytes| == 6
    ensures Represents(es + [e], ledger[e.Key() := FromLittleEndian(e.timestampBytes)])
  {
    hide FromLittleEndian, StreamEntry.Key;
    var more := es + [e];
    forall k | k in ledger || k == e.Key()
      ensures exists i :: 0 <= i < |more| && more[i].Key() == k
    {
      if k == e.Key() {
        assert more[|es|].Key() == k;
      } else {
        var i :| 0 <= i < |es| && es[i].Key() == k;
        assert more[i].Key() == k;
      }
    }
  }

  lemma RepresentsUpdate(es: seq<StreamEntry>, ledger: Ledger, at: nat, timestampBytes: seq<byte>)
    requires Represents(es, ledger) && at < |es| && |timestampBytes| == 6
    ensures Represents(es[at := es[at].(timestampBytes := timestampBytes)],
                       ledger[es[at].Key() := FromLittleEndian(timestampBytes)])
  {
    hide Recorded, Covered, Distinct, FromLittleEndian;
    SameSize(ledger, es, at, FromLittleEndian(timestampBytes));
    UpdateKeepsKeys(es, ledger, at, timestampBytes);
    UpdateRecords(es, ledger, at, timestampBytes);
  }

  lemma UpdateKeepsKeys(es: seq<StreamEntry>, ledger: Ledger, at: nat, timestampBytes: seq<byte>)
    requires at < |es| && Distinct(es) && Covered(es, ledger) && Recorded(es, ledger)
    ensures var now := es[at := es[at].(timestampBytes := timestampBytes)];
      Distinct(now) && Covered(now, ledger[es[at].Key() := FromLittleEndian(timestampBytes)])
  {
    var now := es[at := es[at].(timestampBytes := timestampBytes)];
    assert forall i :: 0 <= i < |es| ==> now[i].Key() == es[i].Key();
    hide FromLittleEndian, StreamEntry.Key;
    forall k | k in ledger
      ensures exists i :: 0 <= i < |now| && now[i].Key() == k
    {
      var i :| 0 <= i < |es| && es[i].Key() == k;
      assert now[i].Key() == k;
    }
  }

  lemma UpdateRecords(es: seq<StreamEntry>, ledger: Ledger, at: nat, timestampBytes: seq<byte>)
    requires at < |es| && |timestampBytes| == 6 && Recorded(es, ledger) && Distinct(es)
    ensures Recorded(es[at := es[at].(timestampBytes := timestampBytes)],
                     ledger[es[at].Key() := FromLittleEndian(timestampBytes)])
  {
    var now := es[at := es[at].(timestampBytes := timestampBytes)];
    assert now[at].Key() == es[at].Key();
    hide FromLittleEndian, StreamEntry.Key;
    forall i | 0 <= i < |now| && i != at
      ensures es[i].Key() != es[at].Key()
    {
      if i < at {
        assert es[i].Key() != es[at].Key();
      } else {
        assert es[at].Key() != es[i].Key();
      }
    }
  }

  lemma SameSize(ledger: Ledger, es: seq<StreamEntry>, at: nat, t: nat)
    requires at < |es| && Recorded(es, ledger)
    ensures |ledger[es[at].Key() := t]| == |ledger|
  {
    var k := es[at].Key();
    assert ledger[k := t].Keys == ledger.Keys;
    assert |ledger[k := t]| == |ledger[k := t].Keys| == |ledger.Keys| == |ledger|;
  }

  /** The signing state of a channel as a value. */
  ghost function SecurityOf(signing: SigningKey?, streams: SigningStreams?): Security
    reads signing, streams
  {
    if signing == null then Unsecured
    else Secured(signing.secretKey, signing.timestamp, if streams == null then None else Some(streams.ledger),
                 signing.lastStatus)
  }

  /** Checking a signature leaves alone what sending depends on, the clock apart. */
  twostate predicate SameSender(signing: SigningKey)
    reads signing
  {
    signing.Valid() && signing.signOutgoing == old(signing.signOutgoing) && signing.linkId == old(signing.linkId)
  }

  /** The six hash bytes, by the streaming context the source uses. */
  method HashParts(key: seq<byte>, header: seq<byte>, payload: seq<byte>, crc: seq<byte>, front: seq<byte>)
    returns (hash: seq<byte>)
    requires |key| == 32 && |header| <= 10 && |payload| <= 255 && |crc| == 2 && |front| == 7
    ensures hash == FrameHash(key, header + payload + crc + front)
  {
    hide *;
    var ctx := new Sha256Ctx.Context.Init();
    ctx.Update(key, |key|);
    ctx.Update(header, |header|);
    ctx.Update(payload, |payload|);
    ctx.Update(crc, |crc|);
    ctx.Update(front, |front|);
    ghost var fed := ctx.fed;
    Sha256Ctx.OwnLengthField(|fed|);
    hash := ctx.Final48();
    HashOfParts(key, header, payload, crc, front, fed, hash);
  }

  lemma HashOfParts(key: seq<byte>, header: seq<byte>, payload: seq<byte>, crc: seq<byte>, front: seq<byte>,
                    fed: seq<byte>, hash: seq<byte>)
    requires fed == [] + key + header + payload + crc + front && hash == Sha48(fed)
    ensures hash == FrameHash(key, header + payload + crc + front)
  {
    hide Sha48;
    assert fed == key + (header + payload + crc + front);
  }

  /** `mavlink_sign_packet`: 13 bytes into `signature`, or none; the timestamp moves on by one. */
  method SignPacket(signing: SigningKey?, signature: array<byte>, header: seq<byte>, packet: seq<byte>, crc: seq<byte>)
    returns (len: nat)
    requires signing != null ==> signing.Valid()
    requires signature.Length == SIGNATURE_BLOCK_LEN && |header| <= 10 && |packet| <= 255 && |crc| == 2
    modifies signature
    modifies if signing == null then {} else {signing}
    ensures signing == null || !signing.signOutgoing ==> len == 0 && signature[..] == old(signature[..])
    ensures signing != null ==> SameSender(signing) && signing.lastStatus == old(signing.lastStatus)
    ensures signing != null && !signing.signOutgoing ==> signing.timestamp == old(signing.timestamp)
    ensures signing != null && signing.signOutgoing ==> (
      && len == SIGNATURE_BLOCK_LEN
      && signing.timestamp == (old(signing.timestamp) + 1) % TWO_64
      && signature[..] == SignatureBlock(signing.secretKey, signing.linkId, old(signing.timestamp), header + packet + crc))
  {
    hide FrameHash, LittleEndian;
    if signing == null || !signing.signOutgoing {
      return 0;
    }
    var front := [signing.linkId] + LittleEndian(signing.timestamp, 6);
    signing.timestamp := (signing.timestamp + 1) % TWO_64;
    var hash := HashParts(signing.secretKey, header, packet, crc, front);
    CopyInto(signature, 0, front);
    CopyInto(signature, 7, hash);
    assert signature[..0] == [];
    assert signature[..] == signature[..13] == front + hash;
    return SIGNATURE_BLOCK_LEN;
  }

  lemma ClaimParts(key: seq<byte>, sysid: byte, compid: byte, frame: seq<byte>, signature: seq<byte>)
    requires |signature| == 13
    ensures ClaimOf(key, sysid, compid, frame, signature) ==
      Claim(StreamKey(sysid, compid, signature[0]), FromLittleEndian(signature[1..7]),
            FrameHash(key, frame + signature[..7]) == signature[7..])
  {
  }

  /** What a received message claims, under the key of this channel. */
  ghost function MessageClaim(signing: SigningKey, msg: Message): Claim
    requires msg.Valid()
    reads msg, msg.payload, msg.signature
  {
    ClaimOf(signing.secretKey, msg.sysid, msg.compid, msg.ReceivedFrame(), msg.signature[..])
  }

  /** `mavlink_signature_check` */
  method SignatureCheck(signing: SigningKey?, streams: SigningStreams?, msg: Message) returns (ok: bool)
    requires msg.Valid() && msg.magic != STX_V1
    requires signing != null ==> signing.Valid()
    requires streams != null ==> streams.Valid()
    modifies if signing == null then {} else {signing}
    modifies if streams == null then {} else {streams}
    ensures streams != null ==> streams.Valid()
    ensures signing == null ==> ok && (streams != null ==> streams.ledger == old(streams.ledger))
    ensures signing != null ==> SameSender(signing)
    ensures signing != null ==>
      (SecurityOf(signing, streams), ok) == Check(old(SecurityOf(signing, streams)), old(MessageClaim(signing, msg)))
  {
    hide *;
    if signing == null {
      ok := true;
    } else {
      ok := CheckWithKey(signing, streams, msg);
    }
  }

  /** `mavlink_signature_check` past its test for a missing `signing`. */
  method CheckWithKey(signing: SigningKey, streams: SigningStreams?, msg: Message) returns (ok: bool)
    requires msg.Valid() && msg.magic != STX_V1
    requires signing.Valid()
    requires streams != null ==> streams.Valid()
    modifies signing
    modifies if streams == null then {} else {streams}
    ensures streams != null ==> streams.Valid()
    ensures SameSender(signing)
    ensures (SecurityOf(signing, streams), ok) == Check(old(SecurityOf(signing, streams)), old(MessageClaim(signing, msg)))
  {
    assert |msg.signature[..]| == 13;
    hide ClaimOf, FromLittleEndian, Check, Judge, SigningStreams.Valid, Message.ReceivedFrame, Message.Valid;
    hide MessageClaim, SecurityOf;
    var psig := msg.signature[..];
    var agrees := HashAgrees(signing, msg);
    ok := JudgeTimestamp(signing, streams, StreamKey(msg.sysid, msg.compid, psig[0]), psig[1..7], agrees,
                         MessageClaim(signing, msg));
  }

  /** The hash over the received frame, compared with the one it carries. */
  method HashAgrees(signing: SigningKey, msg: Message) returns (agrees: bool)
    requires msg.Valid() && signing.Valid() && msg.magic != STX_V1
    ensures MessageClaim(signing, msg) ==
      Claim(StreamKey(msg.sysid, msg.compid, msg.signature[0]), FromLittleEndian(msg.signature[1..7]), agrees)
  {
    var p := msg.Head().Bytes();
    var psig := msg.signature[..];
    var payload := msg.payload[..msg.len];
    ghost var frame := msg.ReceivedFrame();
    assert frame == p + payload + [msg.ck0, msg.ck1];
    hide ClaimOf, FromLittleEndian, FrameHash, Header.Bytes, Message.ReceivedFrame;
    ClaimParts(signing.secretKey, msg.sysid, msg.compid, frame, psig);
    var hash := HashParts(signing.secretKey, p, payload, [msg.ck0, msg.ck1], psig[..7]);
    agrees := hash == psig[7..];
  }

  /** The rest of `mavlink_signature_check`, once the hash is computed. */
  method JudgeTimestamp(signing: SigningKey, streams: SigningStreams?, key: StreamKey, timestampBytes: seq<byte>,
                        hashAgrees: bool, ghost claim: Claim)
    returns (ok: bool)
    requires signing.Valid() && |timestampBytes| == 6
    requires streams != null ==> streams.Valid()
    requires claim == Claim(key, FromLittleEndian(timestampBytes), hashAgrees)
    modifies signing
    modifies if streams == null then {} else {streams}
    ensures SameSender(signing)
    ensures streams != null ==> streams.Valid()
    ensures (SecurityOf(signing, streams), ok) == Check(old(SecurityOf(signing, streams)), claim)
  {
    hide FromLittleEndian, Represents;
    if !hashAgrees {
      signing.lastStatus := BadSignature;
      return false;
    }
    var tstamp := FromLittleEndian(timestampBytes);
    if streams == null {
      signing.lastStatus := NoStreams;
      return false;
    }
    var i := streams.Find(key);
    if i == streams.num {
      if streams.num >= MAX_SIGNING_STREAMS {
        signing.lastStatus := TooManyStreams;
        return false;
      }
      if tstamp + MAX_AGE < signing.timestamp {
        signing.lastStatus := OldTimestamp;
        return false;
      }
      streams.Append(key, timestampBytes);
    } else {
      var last := FromLittleEndian(streams.stream[i].timestampBytes);
      if tstamp <= last {
        signing.lastStatus := Replay;
        return false;
      }
      streams.Remember(i, timestampBytes);
    }
    FromLittleEndianBound(timestampBytes);
    TwoToThe48();
    if tstamp > signing.timestamp {
      signing.timestamp := tstamp;
    }
    signing.lastStatus := SigningOk;
    return true;
  }
}
