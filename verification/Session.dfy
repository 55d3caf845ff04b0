/** The receive loop that the documentation of `mavlink_parse_char` gives, over a whole stream. */
module Session {
  import opened MessageTable
  import opened Message
  import opened Status
  import opened Receiver
  import opened ParserState
  import opened Parser

  lemma FeedOneMore(table: seq<MsgEntry>, r: Receiver, ins: seq<Input>, n: nat)
    requires n < |ins|
    ensures var s := ParseStep(table, Feed(table, r, ins[..n]), ins[n].c, ins[n].allow);
      Feed(table, r, ins[..n + 1]) == s.next && Result(table, r, ins, n) == s.result
  {
    hide ParseStep;
    assert ins[..n + 1][..n] == ins[..n];
  }

  /** Byte by byte, `mavlink_parse_char` is the reference recogniser: same answers, same state, and
      a last byte that completes a frame leaves that frame in `r_message`. */
  method ParseStream(table: seq<MsgEntry>, rxmsg: Message, status: Status, ins: seq<Input>, r_message: Message?)
    returns (results: seq<Framing>)
    requires Tracks(table, rxmsg, status) && status.SigningValid() && Sorted(table) && |table| > 0
    requires Separate(r_message, rxmsg)
    modifies rxmsg, rxmsg.payload, rxmsg.signature
    modifies status`msgReceived, status`parseError, status`parseState, status`packetIdx, status`inMavlink1
    modifies status`currentRxSeq, status`rxSuccessCount, status`rxDropCount, status`signatureWait, status`hist
    modifies if status.signing == null then {} else {status.signing}
    modifies if status.signingStreams == null then {} else {status.signingStreams}
    modifies if r_message == null then {} else {r_message, r_message.payload, r_message.signature}
    ensures Tracks(table, rxmsg, status) && status.SigningValid()
    ensures ReceiverOf(status) == Feed(table, old(ReceiverOf(status)), ins)
    ensures |results| == |ins|
    ensures forall i :: 0 <= i < |ins| ==> results[i] == Result(table, old(ReceiverOf(status)), ins, i)
    ensures ins != [] && results[|ins| - 1] == Ok ==>
      var before := Feed(table, old(ReceiverOf(status)), ins[..|ins| - 1]);
      Finished(status.inMavlink1, before.hist + [ins[|ins| - 1].c])
      && (r_message != null ==>
        Delivered(table, status.inMavlink1, before.hist + [ins[|ins| - 1].c], Ok, BufferOf(r_message)))
  {
    hide Tracks, ParseStep, Sorted, Status.SigningValid, Status.Security, Finished, Delivered, Feed, Result;
    ghost var r := ReceiverOf(status);
    results := [];
    StartOfFeed(table, r, ins);
    var n := 0;
    while n < |ins|
      invariant 0 <= n <= |ins| == |ins| && |results| == n
      invariant Tracks(table, rxmsg, status) && status.SigningValid() && Separate(r_message, rxmsg)
      invariant ReceiverOf(status) == Feed(table, r, ins[..n])
      invariant forall i :: 0 <= i < n ==> results[i] == Result(table, r, ins, i)
      invariant n > 0 && results[n - 1] == Ok ==>
        var h := Feed(table, r, ins[..n - 1]).hist + [ins[n - 1].c];
        Finished(status.inMavlink1, h)
        && (r_message != null ==> Delivered(table, status.inMavlink1, h, Ok, BufferOf(r_message)))
    {
      FeedOneMore(table, r, ins, n);
      var result := ParseChar(table, rxmsg, status, ins[n].c, ins[n].allow, r_message);
      results := results + [result];
      n := n + 1;
    }
    assert ins[..|ins|] == ins;
  }

  lemma StartOfFeed(table: seq<MsgEntry>, r: Receiver, ins: seq<Input>)
    ensures Feed(table, r, ins[..0]) == r
  {
  }
}
