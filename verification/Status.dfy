/** `mavlink_status_t`: the state of a channel. */
module Status {
  import opened Bytes
  import opened Signing
  import opened SigningState

  datatype ParseState =
    | Uninit | Idle | GotStx | GotLength | GotIncompatFlags | GotCompatFlags | GotSeq | GotSysid
    | GotCompid | GotMsgid1 | GotMsgid2 | GotMsgid3 | GotPayload | GotCrc1 | GotBadCrc1 | SignatureWait

  datatype Framing = Incomplete | Ok | BadCrc | BadSig

  class Status {
    var msgReceived: Framing
    var parseError: byte
    var parseState: ParseState
    var packetIdx: uint8
    var currentRxSeq: byte
    var currentTxSeq: byte
    var rxSuccessCount: bv16
    var rxDropCount: bv16
    /** The two bits of `flags` that the code uses. */
    var inMavlink1: bool
    var outMavlink1: bool
    var signatureWait: uint8
    const signing: SigningKey?
    const signingStreams: SigningStreams?
    /** The bytes consumed since the start marker of the frame in progress. */
    ghost var hist: seq<byte>

    constructor (signing: SigningKey?, signingStreams: SigningStreams?)
      ensures this.signing == signing && this.signingStreams == signingStreams
      ensures hist == [] && parseState == Uninit && !inMavlink1 && !outMavlink1 && currentTxSeq == 0
    {
      msgReceived, parseError, parseState, packetIdx := Incomplete, 0, Uninit, 0;
      currentRxSeq, currentTxSeq, rxSuccessCount, rxDropCount := 0, 0, 0, 0;
      inMavlink1, outMavlink1, signatureWait := false, false, 0;
      this.signing, this.signingStreams := signing, signingStreams;
      hist := [];
    }

    /** The signing objects the channel points to are in order. */
    ghost predicate SigningValid()
      reads signing, signingStreams
    {
      && (signing != null ==> signing.Valid())
      && (signingStreams != null ==> signingStreams.Valid())
    }

    ghost function Security(): Security
      reads signing, signingStreams
    {
      SecurityOf(signing, signingStreams)
    }
  }
}
