/** From one end of a link to the other, on the code itself: finalise, serialise, parse. */
module Link {
  import opened Bytes
  import opened MessageTable
  import opened Wire
  import opened Message
  import opened Signing
  import opened Status
  import opened Transmit
  import opened Receiver
  import opened ParserState
  import opened Parser
  import opened RoundTrip
  import opened Session
  import opened BatteryStatus
  import opened Anomalies

  /** A receiving end: the channel's own buffer and status, idle, and a message to deliver into. */
  ghost predicate Ready(table: seq<MsgEntry>, rxmsg: Message, status: Status, r_message: Message)
    reads rxmsg, rxmsg.payload, rxmsg.signature, status, status.signing, status.signingStreams
  {
    && Tracks(table, rxmsg, status) && status.hist == [] && status.SigningValid()
    && Sorted(table) && |table| > 0 && Separate(r_message, rxmsg)
  }

  /** The answers to the bytes of one good frame: nothing until the last one, and there OK. */
  predicate OkAtTheEnd(results: seq<Framing>) {
    |results| > 0 && results[|results| - 1] == Ok && forall i :: 0 <= i < |results| - 1 ==> results[i] == Incomplete
  }

  /** The header and payload that were sent, and zeros behind them. */
  ghost predicate Received(table: seq<MsgEntry>, m: Message, out: Outgoing, body: seq<byte>)
    requires m.Valid() && |body| < 256
    reads m, m.payload
  {
    m.Head() == out.Head(|body|) && m.payload[..|body|] == body && ZeroFilled(table, m.Head(), m.payload[..])
  }

  // The callback is asked at the last byte of a good frame, if at all, so one answer is enough.
  function InputsOf(bytes: seq<byte>, allow: bool): (ins: seq<Input>)
    ensures Stream(ins) == bytes && |ins| == |bytes|
    ensures forall i :: 0 <= i < |ins| ==> ins[i].allow == allow
  {
    seq(|bytes|, i requires 0 <= i < |bytes| => Input(bytes[i], allow))
  }

  lemma DeliveredIsReceived(table: seq<MsgEntry>, out: Outgoing, body: seq<byte>, r: Receiver, ins: seq<Input>, v1: bool, b: Buffer)
    requires |body| < 256 && Sendable(table, out) && b.Sized()
    requires r.hist == [] && Stream(ins) == out.Frame(body)
    requires |ins| > 0 ==> Admits(r.security, out, ins[|ins| - 1].allow)
    requires |ins| > 0 && v1 == Feed(table, r, ins).v1
    requires var h := Feed(table, r, ins[..|ins| - 1]).hist + [ins[|ins| - 1].c];
      Finished(v1, h) && Delivered(table, v1, h, Ok, b)
    ensures b.head == out.Head(|body|) && b.payload[..|body|] == body && ZeroFilled(table, b.head, b.payload)
  {
    hide *;
    SentFrameIsReceived(table, out, body, r, ins);
  }

  /** A finalised message, printed and fed to an idle receiver that admits it, is delivered as it was sent. */
  method Relay(msg: Message, ghost out: Outgoing, ghost body: seq<byte>, buf: array<byte>, table: seq<MsgEntry>,
               rxmsg: Message, status: Status, allow: bool, r_message: Message)
    returns (results: seq<Framing>)
    requires msg.Valid() && |body| < 256 && Sendable(table, out) && msg.SendBytes() == out.Frame(body)
    requires buf.Length >= MAX_PACKET_LEN && r_message.Valid() && Ready(table, rxmsg, status, r_message)
    requires buf !in {msg.payload, msg.signature, rxmsg.payload, rxmsg.signature}
    requires Admits(status.Security(), out, allow)
    modifies buf, rxmsg, rxmsg.payload, rxmsg.signature, status, r_message, r_message.payload, r_message.signature
    modifies if status.signing == null then {} else {status.signing}
    modifies if status.signingStreams == null then {} else {status.signingStreams}
    ensures |results| == |out.Frame(body)| && OkAtTheEnd(results)
    ensures Received(table, r_message, out, body)
    ensures Ready(table, rxmsg, status, r_message)
  {
    hide Tracks, Sorted, Status.SigningValid, Admits, Outgoing.Frame, Delivered, Finished, Feed, Result, ZeroFilled, Sendable;
    hide Status.Security, Stream, InputsOf, Message.SendBytes, Outgoing.Head;
    var n := MsgToSendBuffer(buf, msg);
    var ins := InputsOf(buf[..n], allow);
    ghost var r := ReceiverOf(status);
    assert |ins| > 0 by { FrameIsNotEmpty(out, body); }
    SentFrameIsReceived(table, out, body, r, ins);
    results := ParseStream(table, rxmsg, status, ins, r_message);
    DeliveredIsReceived(table, out, body, r, ins, status.inMavlink1, BufferOf(r_message));
  }

  lemma FrameIsNotEmpty(out: Outgoing, body: seq<byte>)
    requires |body| < 256
    ensures |out.Frame(body)| > 0
  {
    hide SignatureBlock;
  }

  /** The ends of a link share nothing. */
  ghost predicate Apart(msg: Message, sender: Status, rxmsg: Message, receiver: Status, r_message: Message) {
    && msg != rxmsg && msg != r_message && {msg.payload, msg.signature} !! {rxmsg.payload, rxmsg.signature}
    && {msg.payload, msg.signature} !! {r_message.payload, r_message.signature}
    && sender != receiver && (sender.signing == null || sender.signing != receiver.signing)
  }

  /** Print, then parse: `mavlink_finalize_message_buffer`, `mavlink_msg_to_send_buffer` and a loop over
      `mavlink_parse_char` bring the header and the payload across, and OK at the last byte only. */
  method SendAndReceive(msg: Message, systemId: byte, componentId: byte, sender: Status, minLength: uint8, length: uint8,
                        crcExtra: byte, buf: array<byte>, table: seq<MsgEntry>, rxmsg: Message, receiver: Status,
                        allow: bool, r_message: Message)
    returns (results: seq<Framing>, ghost out: Outgoing, ghost body: seq<byte>)
    requires msg.Valid() && sender.SigningValid() && Apart(msg, sender, rxmsg, receiver, r_message)
    requires buf.Length >= MAX_PACKET_LEN && r_message.Valid() && Ready(table, rxmsg, receiver, r_message)
    requires buf !in {msg.payload, msg.signature, rxmsg.payload, rxmsg.signature}
    requires Sendable(table, OutgoingOf(sender, systemId, componentId, msg.msgid, crcExtra))
    requires Admits(receiver.Security(), OutgoingOf(sender, systemId, componentId, msg.msgid, crcExtra), allow)
    modifies msg, msg.payload, msg.signature, sender`currentTxSeq
    modifies if sender.signing == null then {} else {sender.signing}
    modifies buf, rxmsg, rxmsg.payload, rxmsg.signature, receiver, r_message, r_message.payload, r_message.signature
    modifies if receiver.signing == null then {} else {receiver.signing}
    modifies if receiver.signingStreams == null then {} else {receiver.signingStreams}
    ensures out == old(OutgoingOf(sender, systemId, componentId, msg.msgid, crcExtra))
    ensures body == old(SentPayload(sender.outMavlink1, msg.payload[..], minLength, length))
    ensures |results| == |out.Frame(body)| && OkAtTheEnd(results)
    ensures Received(table, r_message, out, body)
    ensures Ready(table, rxmsg, receiver, r_message)
  {
    hide Ready, Admits, Outgoing.Frame, ZeroFilled, Sendable, SentPayload, SentOne, Status.SigningValid, Status.Security;
    var n;
    n, out, body := FinalizeMessageBuffer(msg, systemId, componentId, sender, minLength, length, crcExtra);
    results := Relay(msg, out, body, buf, table, rxmsg, receiver, allow, r_message);
  }

  /** BATTERY_STATUS across a link: `_pack_chan`, the wire and `_decode` give back every field over version 2, and the
      base fields with zeros in the extensions over version 1. */
  method BatteryAcrossTheLink(systemId: byte, componentId: byte, sender: Status, msg: Message, b: Battery,
                              buf: array<byte>, table: seq<MsgEntry>, rxmsg: Message, receiver: Status,
                              allow: bool, r_message: Message)
    returns (results: seq<Framing>, decoded: Battery)
    requires b.Sized() && msg.Valid() && sender.SigningValid() && Apart(msg, sender, rxmsg, receiver, r_message)
    requires buf.Length >= MAX_PACKET_LEN && r_message.Valid() && Ready(table, rxmsg, receiver, r_message)
    requires buf !in {msg.payload, msg.signature, rxmsg.payload, rxmsg.signature}
    requires Sendable(table, OutgoingOf(sender, systemId, componentId, MSG_ID, MSG_CRC))
    requires Admits(receiver.Security(), OutgoingOf(sender, systemId, componentId, MSG_ID, MSG_CRC), allow)
    modifies msg, msg.payload, msg.signature, sender`currentTxSeq
    modifies if sender.signing == null then {} else {sender.signing}
    modifies buf, rxmsg, rxmsg.payload, rxmsg.signature, receiver, r_message, r_message.payload, r_message.signature
    modifies if receiver.signing == null then {} else {receiver.signing}
    modifies if receiver.signingStreams == null then {} else {receiver.signingStreams}
    ensures OkAtTheEnd(results)
    ensures decoded == if old(sender.outMavlink1) then b.Base() else b
  {
    hide Ready, Admits, Outgoing.Frame, ZeroFilled, Sendable, SentPayload, SentOne, StructBytes, FromStruct, Cleared;
    var n;
    ghost var out, body;
    n, out, body := PackChan(systemId, componentId, sender, msg, b, Some(b.voltages), Some(b.voltagesExt));
    results := Relay(msg, out, body, buf, table, rxmsg, receiver, allow, r_message);
    decoded := Decode(r_message);
    DecodesToPacked(out.v1, b, r_message.payload[..], r_message.len);
  }

  function Stepped(timestamp: nat): nat {
    (timestamp + 1) % TWO_64
  }

  /** The sequence number, and the timestamp if the frame was signed, have moved on by one. */
  twostate predicate MovedOn(status: Status)
    reads status, status.signing
  {
    && status.currentTxSeq == Next(old(status.currentTxSeq))
    && (old(SignerOf(status)).Some? ==>
      status.signing != null && status.signing.timestamp == Stepped(old(SignerOf(status)).value.timestamp))
  }

  twostate lemma SentMovesOn(status: Status)
    requires SentOne(status)
    ensures MovedOn(status)
  {
    hide Next;
  }

  /** `mavlink_finalize_message_buffer` and `mavlink_msg_to_send_buffer`. */
  method FinalizeAndPrint(msg: Message, systemId: byte, componentId: byte, status: Status, minLength: uint8, length: uint8,
                          crcExtra: byte, buf: array<byte>)
    returns (n: nat)
    requires msg.Valid() && status.SigningValid() && buf.Length >= MAX_PACKET_LEN && buf !in {msg.payload, msg.signature}
    modifies msg, msg.payload, msg.signature, status`currentTxSeq, buf
    modifies if status.signing == null then {} else {status.signing}
    ensures n <= buf.Length
    ensures buf[..n] == old(OutgoingOf(status, systemId, componentId, msg.msgid, crcExtra)
                              .Frame(SentPayload(status.outMavlink1, msg.payload[..], minLength, length)))
    ensures MovedOn(status)
  {
    hide Outgoing.Frame, SentPayload, SentOne, MovedOn;
    ghost var out, body;
    n, out, body := FinalizeMessageBuffer(msg, systemId, componentId, status, minLength, length, crcExtra);
    SentMovesOn(status);
    n := MsgToSendBuffer(buf, msg);
  }

  /** `_mav_finalize_message_chan_send`, for a message its channel does not refuse. */
  method EmitDirectly(status: Status, systemId: byte, componentId: byte, msgid: msgId, packet: seq<byte>,
                      minLength: uint8, length: uint8, crcExtra: byte)
    returns (sent: seq<byte>)
    requires status.SigningValid() && (status.outMavlink1 ==> msgid <= 255)
    requires |packet| >= length as int && |packet| >= minLength as int
    modifies status`currentTxSeq, status`parseError
    modifies if status.signing == null then {} else {status.signing}
    ensures sent == old(OutgoingOf(status, systemId, componentId, msgid, crcExtra)
                          .Frame(SentPayload(status.outMavlink1, packet, minLength, length)))
    ensures MovedOn(status)
  {
    hide Outgoing.Frame, SentPayload, SentOne, MovedOn;
    ghost var out, body;
    sent, out, body := FinalizeMessageChanSend(status, systemId, componentId, msgid, packet, minLength, length, crcExtra);
    SentMovesOn(status);
  }

  /** The two transmit paths agree: on two channels in the same state, for one message, the bytes that
      `_mav_finalize_message_chan_send` emits are those that finalising and printing give, and the channels
      are in the same state again. */
  method BothPaths(msg: Message, systemId: byte, componentId: byte, printing: Status, sending: Status, packet: seq<byte>,
                   minLength: uint8, length: uint8, crcExtra: byte, buf: array<byte>)
    returns (n: nat, sent: seq<byte>)
    requires msg.Valid() && printing.SigningValid() && sending.SigningValid()
    requires printing != sending && (printing.signing == null || printing.signing != sending.signing)
    requires buf.Length >= MAX_PACKET_LEN && buf !in {msg.payload, msg.signature}
    requires |packet| >= length as int && |packet| >= minLength as int
    requires minLength <= length && msg.payload[..length] == packet[..length]
    requires OutgoingOf(printing, systemId, componentId, msg.msgid, crcExtra) == OutgoingOf(sending, systemId, componentId, msg.msgid, crcExtra)
    requires sending.outMavlink1 ==> msg.msgid <= 255
    modifies msg, msg.payload, msg.signature, printing`currentTxSeq, sending`currentTxSeq, sending`parseError, buf
    modifies if printing.signing == null then {} else {printing.signing}
    modifies if sending.signing == null then {} else {sending.signing}
    ensures n <= buf.Length && buf[..n] == sent
    ensures printing.currentTxSeq == sending.currentTxSeq
    ensures old(SignerOf(printing)).Some? ==>
      printing.signing != null && sending.signing != null && printing.signing.timestamp == sending.signing.timestamp
  {
    hide Outgoing.Frame, SentPayload, Status.SigningValid, Next, Stepped;
    SamePayloadSent(printing.outMavlink1, msg.payload[..], packet, minLength, length, length);
    sent := EmitDirectly(sending, systemId, componentId, msg.msgid, packet, minLength, length, crcExtra);
    n := FinalizeAndPrint(msg, systemId, componentId, printing, minLength, length, crcExtra, buf);
  }

  /** Parse, then print, on the code: when the last byte of a stream answers OK, printing the delivered message gives back
      the bytes of the accepted frame exactly when its marker was that of the layout it was read in and a version 2
      payload had no zeros left to trim. */
  method ReceiveAndPrint(table: seq<MsgEntry>, rxmsg: Message, status: Status, ins: seq<Input>, r_message: Message, buf: array<byte>)
    returns (results: seq<Framing>, n: nat)
    requires r_message.Valid() && Ready(table, rxmsg, status, r_message) && buf.Length >= MAX_PACKET_LEN
    requires buf !in {r_message.payload, r_message.signature, rxmsg.payload, rxmsg.signature}
    modifies buf, rxmsg, rxmsg.payload, rxmsg.signature, status, r_message, r_message.payload, r_message.signature
    modifies if status.signing == null then {} else {status.signing}
    modifies if status.signingStreams == null then {} else {status.signingStreams}
    ensures |results| == |ins| && n <= buf.Length
    ensures ins != [] && results[|ins| - 1] == Ok ==>
      var i := |ins| - 1;
      var before := Feed(table, old(ReceiverOf(status)), ins[..i]);
      var m := |before.hist| + 1;
      && m <= |ins|
      && var at := Feed(table, old(ReceiverOf(status)), ins[..|ins| - m]);
      (buf[..n] == Stream(ins)[|ins| - m..] <==>
        (at.hist == [] || !at.v1) && (before.v1 || Trim(r_message.payload[..], r_message.len) == r_message.len))
  {
    hide Tracks, Sorted, Status.SigningValid, Status.Security, Finished, Delivered, Feed, Result, ParseStep, Trim, Printed;
    ghost var r := ReceiverOf(status);
    results := ParseStream(table, rxmsg, status, ins, r_message);
    if ins != [] && results[|ins| - 1] == Ok {
      StaysInVersion(table, r, ins);
      ParseThenPrint(table, r, ins, |ins| - 1, BufferOf(r_message));
    }
    n := MsgToSendBuffer(buf, r_message);
  }

  lemma StaysInVersion(table: seq<MsgEntry>, r: Receiver, ins: seq<Input>)
    requires ins != [] && Result(table, r, ins, |ins| - 1) == Ok
    ensures Feed(table, r, ins).v1 == Feed(table, r, ins[..|ins| - 1]).v1
  {
    hide CrcMatches, CheckFrame;
  }
}
