# The MAVLink 2 wire layer and the UDP command queue

A Dafny model of the code this repository relies on to talk to a vehicle and to take
commands. Every function is modelled with the branches, constants and error cases of the
code, and what is proved is stated for every input, every stream of bytes, every run of the
signing protocol or every interleaving of threads.

- **Frame codec** (`Wire`, `Message`, `Transmit`, `Status`, `Receiver`, `ParserState`, `Parser`,
  `Session`, `ParserTheorems`, `RoundTrip`, `FrameStream`, `SignedStream`, `Link`, `Anomalies`). Messages and channels
  are classes that the code updates in place. `Receiver` says what the parser recognises
  without its states: it keeps the bytes since a start marker and lets the layout decide.
  `Parser` is the 16-state machine itself; `ParserState.Tracks` is its invariant, and
  `ParseChar` refines the recogniser byte by byte, about which the theorems are then proved.
- **Signing** (`Signing`, `SigningRuns`, `SigningState`). The protocol on values, whole runs of it on one
  channel and on several that share a table, and the methods over the sixteen-entry table that refine it.
- **SHA-256** (`Sha256`, `Sha256Ctx`). The one-shot hash of FIPS 180-4, sections 5.1.1, 5.2.1,
  6.2.1 and 6.2.2, and the buffered context that refines it.
- **CRC-16/MCRF4XX** (`Checksum`), **table searches** (`MessageTable`), one **typed message**
  (`BatteryStatus`) and the **rotation algebra** (`Rotation`, `RotationInverse`, over the reals).
- **UDP commands** (`Tokenizer`, `UdpServer`). The parameter parser, and the two threads and
  `stop` around the queue as a machine whose steps interleave.

`Bytes` holds the byte, width and little-endian conversions. `KnownAnswers` and `KnownFrames` say what the specification
functions come to on concrete inputs, so that they are not only consistent with the code but the ones meant. A row of the table below that
names a method states its contract; the specification functions it uses have their own
theorems in other rows.

Where the code and its comments or documentation differ, the model follows the code:

- The window for the first timestamp of a stream is commented as one minute
  (mavlink_helpers.h:174-178). It is 6,000,000 units of the timestamp: a minute in the units of 10
  microseconds of the MAVLink signing documentation, six seconds in the microseconds that
  mavlink_types.h:261 names. The model counts units.
- After a bad frame `mavlink_parse_char` restarts on a version 2 marker without clearing
  IN_MAVLINK1 and without setting `magic` (mavlink_helpers.h:1001-1006), so the frame that
  follows is read in the layout of the last one: `Anomalies.MarkerAgreesExactly` says exactly when that is
  the wrong one, `Anomalies.RestartKeepsVersion` gives a stream.
- The comment at mavlink_helpers.h:776-777 means a bad checksum not to end up flagged as valid.
  For a signed frame the raw `mavlink_frame_char_buffer` overwrites it thirteen bytes later
  (`Anomalies.RawOkExactly`), and with the answer is lost what lines 854-865 are for: the message handed
  out has the computed checksum, and goes out again as a good frame (`Anomalies.ForwardedWithGoodCrc`).
- A received version 2 frame whose payload was not trimmed prints shorter than it came:
  `RoundTrip.ReprintIsIdentity` has the exact condition, `Anomalies.ParseThenPrint` states it over streams.
- A frame that is refused and ends in the version 2 marker leaves the parser inside a new
  frame: `ParserTheorems.FrameIsDecided` gives the state, `FrameStream.IdleAtBoundaries` the
  exact condition under which every following frame is met idle, `FrameStream.NextFrameIsMissed` what it
  costs and `SignedStream.ForgeryIsRefused` that such frames exist.
- `mavlink_sha256_update` takes `len * 8` in 32 bits; a call of 2^29 bytes or more loses bits of
  the length: `Sha256Ctx.Context.Final48` says what is hashed then.
- `UDPServer::stop` sets its flag and notifies without the queue's mutex: `UdpServer.StopIsMissedExactly`
  has the exact condition and `UdpServer.StopCanBeLate` a schedule.

## Model

| member | source | states |
|---|---|---|
| Bytes.FromByteIs | install/include/mavsdk/mavlink/mavlink_helpers.h:637-637 | a byte on the wire stands for its value, so a length byte of 6 announces six bytes |
| Bytes.ToByteIs | install/include/mavsdk/mavlink/mavlink_helpers.h:457-468 | a length or id below 256 is stored as the byte of that value |
| Bytes.LittleEndianDigit | install/include/mavsdk/mavlink/mavlink_helpers.h:94-94 | byte i of a stored number is its i-th digit to the base 256 |
| Checksum.CrcIsBitSerial | install/include/mavsdk/mavlink/checksum.h:35-75 | for every buffer the shift-only checksum is the bit-serial reflected CRC-16 of polynomial 0x8408 and initial value 0xFFFF |
| KnownFrames.CheckValue | install/include/mavsdk/mavlink/checksum.h:35-75 | the checksum of the digits 1 to 9 is 0x6F91, the check value of CRC-16/MCRF4XX |
| Checksum.AccumulateIsEightBitSteps | install/include/mavsdk/mavlink/checksum.h:35-43 | one accumulate step is the data byte mixed into the state and eight bit steps of the division |
| Checksum.FoldAppend | install/include/mavsdk/mavlink/checksum.h:85-91 | accumulating composes over concatenation, from any state |
| Checksum.ResidueIsZero | install/include/mavsdk/mavlink/checksum.h:65-75 | a receiver that accumulates the low and then the high checksum byte as well ends at zero |
| Checksum.StateInjective | install/include/mavsdk/mavlink/checksum.h:35-43 | for a fixed byte the step is one-to-one in the 16-bit state |
| Checksum.PairInjective | install/include/mavsdk/mavlink/checksum.h:35-43 | from a fixed state, the state after two bytes determines both bytes |
| Checksum.TripleInjective | install/include/mavsdk/mavlink/checksum.h:35-43 | from a fixed state, three bytes that differ within sixteen consecutive bits are told apart by the state they lead to |
| Checksum.BurstChangesCrc | install/include/mavsdk/mavlink/checksum.h:35-75 | a change within two adjacent bytes, or within sixteen consecutive bits, anywhere in a buffer of any length changes the checksum |
| Checksum.AccumulateParity | install/include/mavsdk/mavlink/checksum.h:35-43 | one step keeps the parity of state and data together |
| Checksum.CheckedParity | install/include/mavsdk/mavlink/checksum.h:35-75 | every text with its message's extra byte accumulated and its checksum behind it has the same parity |
| Checksum.AccumulateBuffer | install/include/mavsdk/mavlink/checksum.h:85-91 | the loop continues a checksum over exactly the first `length` bytes |
| Checksum.Calculate | install/include/mavsdk/mavlink/checksum.h:65-75 | the loop returns the checksum of exactly the first `length` bytes, and that is the bit-serial one |
| KnownAnswers.ConstantsAreCubeRoots | install/include/mavsdk/mavlink/mavlink_sha256.h:72-89 | round constant t is the first 32 bits of the fractional part of the cube root of the t-th prime |
| KnownAnswers.InitialIsSquareRoots | install/include/mavsdk/mavlink/mavlink_sha256.h:91-103 | the initial words are those of the square roots of the first eight primes |
| KnownAnswers.AbcHash | install/include/mavsdk/mavlink/mavlink_sha256.h:105-221 | the first 48 bits of the hash of "abc" are ba7816bf8f01 |
| Sha256.BigEndian64Digits | install/include/mavsdk/mavlink/mavlink_sha256.h:198-209 | the length field holds the low 64 bits of the length, most significant digit first |
| Sha256.PaddingIgnoresHighBits | install/include/mavsdk/mavlink/mavlink_sha256.h:192-211 | lengths that agree modulo 2^64 bits are padded alike |
| Sha256Ctx.Context.Init | install/include/mavsdk/mavlink/mavlink_sha256.h:91-103 | a fresh context has been fed nothing and holds the initial hash value of FIPS 180-4 |
| Sha256Ctx.Expand | install/include/mavsdk/mavlink/mavlink_sha256.h:118-127 | the in-place 64-word table is the message schedule of section 6.2.2 of FIPS 180-4 |
| Sha256Ctx.RunRounds | install/include/mavsdk/mavlink/mavlink_sha256.h:128-142 | 64 turns over eight variables are the 64 rounds of the specification |
| Sha256Ctx.Context.Calc | install/include/mavsdk/mavlink/mavlink_sha256.h:105-150 | one call compresses one block into the eight counter words |
| Sha256Ctx.Context.CalcBuffer | install/include/mavsdk/mavlink/mavlink_sha256.h:170-184 | the byte swap of the full save buffer gives big-endian words, which are compressed |
| Sha256Ctx.Context.Absorb | install/include/mavsdk/mavlink/mavlink_sha256.h:161-186 | however the input is cut, whole blocks end in the chaining value and the rest in the save buffer |
| Sha256Ctx.Context.Count | install/include/mavsdk/mavlink/mavlink_sha256.h:155-160 | the two words with their carry hold eight times the counted bytes modulo 2^64; `len * 8` is reduced to 32 bits, so a call counts `len` modulo 2^29 bytes |
| Sha256Ctx.Context.Update | install/include/mavsdk/mavlink/mavlink_sha256.h:152-187 | after any number of calls of any sizes the context stands for the concatenation of everything fed |
| Sha256Ctx.PaddingBlock | install/include/mavsdk/mavlink/mavlink_sha256.h:192-209 | the zeros block is the padding of section 5.1.1: a one bit, zeros up to 56 modulo 64, the 64-bit length; it fits its 72 bytes |
| Sha256Ctx.Context.Final48 | install/include/mavsdk/mavlink/mavlink_sha256.h:192-221 | the result is the first six bytes of the hash of everything fed, padded with the counted length; that is the one-shot hash whenever the counted length and the real one have the same 64-bit length field, as they do if no call was of 2^29 bytes or more |
| MessageTable.GetMsgEntry | install/include/mavsdk/mavlink/mavlink_helpers.h:518-544 | on every non-empty strictly sorted table the upper-biased bisection ends and equals a scan from the front; no index underflows |
| MessageTable.GetMessageInfoById | install/include/mavsdk/mavlink/mavlink_get_info.h:9-37 | the same of the lower-biased bisection, on empty tables too |
| MessageTable.GetMessageInfoByName | install/include/mavsdk/mavlink/mavlink_get_info.h:50-80 | the bisection by `strcmp` followed by the one by id equals a scan of both tables |
| MessageTable.InfoByNameMeans | install/include/mavsdk/mavlink/mavlink_get_info.h:50-80 | that scan finds a message if and only if some name entry has the name and the message has the number of that entry |
| MessageTable.StrcmpTransitive | install/include/mavsdk/mavlink/mavlink_get_info.h:64-71 | the comparison the name table is sorted by is an order, so that sorted neighbours suffice |
| Wire.HeaderRoundTrip | install/include/mavsdk/mavlink/mavlink_helpers.h:455-483 | the header fields read back from a printed header are those printed, for both layouts |
| Wire.HeaderBytesRoundTrip | install/include/mavsdk/mavlink/mavlink_helpers.h:620-732 | the header bytes printed from the fields that were read are those read, apart from the marker |
| Wire.FlagBits | install/include/mavsdk/mavlink/mavlink_helpers.h:650-661 | the lowest incompatibility flag says signed, and any other one makes the frame unknown |
| Wire.TrimIsExact | install/include/mavsdk/mavlink/mavlink_helpers.h:111-117 | trimming drops only zeros, all of them, but keeps one byte of a non-empty payload |
| Wire.TrimTwice | install/include/mavsdk/mavlink/mavlink_helpers.h:111-117 | a trimmed payload is not trimmed again, whatever is written behind it meanwhile |
| Message.TrimPayload | install/include/mavsdk/mavlink/mavlink_helpers.h:111-117 | the loop leaves the length the specification leaves |
| Message.GetSendBufferLength | install/include/mavsdk/mavlink/protocol.h:83-90 | the announced length; it is the printed length if and only if the message is of version 1 or its payload is trimmed already |
| Message.MsgToSendBuffer | install/include/mavsdk/mavlink/mavlink_helpers.h:447-488 | writes the printed frame to the front of the buffer, returns its length, leaves the rest of the buffer and the message |
| Transmit.FinalizeMessageBuffer | install/include/mavsdk/mavlink/mavlink_helpers.h:223-290 | afterwards the message prints as the frame of the specification (header, payload sent, checksum, signature); sequence number and timestamp moved on by one frame; the checksum stands behind the payload |
| Transmit.FinalizeMessageChanSend | install/include/mavsdk/mavlink/mavlink_helpers.h:319-387 | emits the same frame as finalising and printing, with the same effect on the channel; a version 1 channel with an id above 255 emits nothing |
| Transmit.PrintedIsFrame | install/include/mavsdk/mavlink/mavlink_helpers.h:447-488 | printing a finalised message gives the frame although the checksum lies in its payload buffer and the payload is trimmed a second time |
| Transmit.SamePayloadSent | install/include/mavsdk/mavlink/mavlink_helpers.h:241-275 | the payload sent depends on nothing behind the message in its buffer |
| KnownFrames.HeartbeatFrame | install/include/mavsdk/mavlink/mavlink_helpers.h:223-290 | a version 1 HEARTBEAT as its seventeen bytes |
| KnownFrames.WideIdFrame | install/include/mavsdk/mavlink/mavlink_helpers.h:223-290 | a version 2 frame with a payload of six bytes and a three-byte id as its eighteen bytes |
| KnownFrames.SignedFrame | install/include/mavsdk/mavlink/mavlink_helpers.h:73-290 | a signed version 2 SET_MODE under a key of zeros as its 26 bytes: trimmed payload, checksum, link, timestamp, hash |
| Signing.SignedClaim | install/include/mavsdk/mavlink/mavlink_helpers.h:73-101 | signing and checking hash the same bytes: a signature block makes an authentic claim with its own link and timestamp below 2^48 |
| Signing.RunKeepsTheLedger | install/include/mavsdk/mavlink/mavlink_helpers.h:123-207 | over every run the table never exceeds sixteen streams, loses none, and neither its timestamps nor the clock go back |
| Signing.AcceptedExactly | install/include/mavsdk/mavlink/mavlink_helpers.h:149-206 | accepted if and only if authentic, with a table, and newer than the last of its stream, or the first of one of at most sixteen streams and at most 6,000,000 units behind the clock |
| Signing.RefusedBecause | install/include/mavsdk/mavlink/mavlink_helpers.h:145-191 | each refusal has the status of its first reason, in the order of the code's tests |
| Signing.AcceptanceIsRecorded | install/include/mavsdk/mavlink/mavlink_helpers.h:193-206 | acceptance is recorded under the stream, and the clock becomes the greater of itself and the timestamp; a refusal changes the status only |
| Signing.AcceptedTimestampsIncrease | install/include/mavsdk/mavlink/mavlink_helpers.h:149-206 | between any two accepted claims of one stream, in any run, the timestamp grows; the clock is at least every accepted timestamp |
| Signing.SignedSession | install/include/mavsdk/mavlink/mavlink_helpers.h:73-207 | in every session from a welcome first frame on, whatever others send or forge under any stream and however the frames of a sender with any increasing timestamps are lost, repeated or reordered, its frame is accepted if and only if neither it nor a later one has arrived before, and is otherwise refused as REPLAY |
| SigningRuns.StampsIncrease | install/include/mavsdk/mavlink/mavlink_helpers.h:94-204 | however a channel alternates between signing and checking, the timestamps it signs increase strictly and stay below its clock |
| SigningRuns.StampsAreAClock | install/include/mavsdk/mavlink/mavlink_helpers.h:94-204 | so they are the timestamps of an honest sender if and only if the last one still fits 48 bits |
| SigningRuns.SharedRunKeeps | install/include/mavsdk/mavlink/mavlink_helpers.h:149-206 | over every run on channels that share one table it never exceeds sixteen streams, loses none, and its timestamps do not go back |
| SigningRuns.SharedTimestampsIncrease | install/include/mavsdk/mavlink/mavlink_helpers.h:149-206 | between any two accepted claims of one stream, on whichever of these channels, with keys and clocks of their own, the timestamp grows |
| SigningState.SignPacket | install/include/mavsdk/mavlink/mavlink_helpers.h:73-101 | writes the specified signature block and steps the timestamp by one, or does nothing without a key or the outgoing flag |
| SigningState.SignatureCheck | install/include/mavsdk/mavlink/mavlink_helpers.h:123-207 | answers and updates table, clock and last status exactly as the signing protocol on values does |
| SigningState.HashAgrees | install/include/mavsdk/mavlink/mavlink_helpers.h:136-148 | the streaming hash over key, header, payload, checksum and first seven signature bytes decides authenticity |
| SigningState.RepresentsUpdate | install/include/mavsdk/mavlink/mavlink_helpers.h:193-195 | overwriting the timestamp of one entry is an update of the map from distinct stream keys to timestamps |
| Receiver.ParseKeepsOrder | install/include/mavsdk/mavlink/mavlink_helpers.h:590-1010 | every byte keeps the run invariant: within a frame, and past the checksum only if it was good |
| ParserState.CrcVerdict | install/include/mavsdk/mavlink/mavlink_helpers.h:743-770 | the two byte comparisons through GOT_CRC1 and GOT_BAD_CRC1 decide exactly whether the wire checksum is the expected one |
| ParserState.CrcEndAnswer | install/include/mavsdk/mavlink/mavlink_helpers.h:761-796 | what the second checksum byte answers, with and without a signature to come, is what the recogniser answers |
| ParserState.PayloadByteTracks | install/include/mavsdk/mavlink/mavlink_helpers.h:734-741 | a payload byte keeps payload, index and checksum the fold of the bytes since the marker |
| ParserState.TrackedIsDelivered | install/include/mavsdk/mavlink/mavlink_helpers.h:743-796 | when a frame ends, the receive buffer holds the header and payload of the wire and zeros up to the maximum length |
| Parser.OnHeaderByte | install/include/mavsdk/mavlink/mavlink_helpers.h:620-732 | the header states store each byte where the layout puts it and follow the recogniser |
| Parser.OnSecondCrcByte | install/include/mavsdk/mavlink/mavlink_helpers.h:761-796 | the second checksum byte follows the recogniser; the message is complete unless a signature is to come |
| Parser.OnSignatureByte | install/include/mavsdk/mavlink/mavlink_helpers.h:797-823 | the thirteenth signature byte, and no other, ends the frame with the verdict of the signature check or the callback |
| Parser.FrameCharBuffer | install/include/mavsdk/mavlink/mavlink_helpers.h:590-868 | the 16-state machine over mutable status and buffers refines the recogniser, byte by byte, delivers the frame with the wire checksum when that was bad, counts exactly the good messages, and touches nothing of the sending side |
| Parser.ParseChar | install/include/mavsdk/mavlink/mavlink_helpers.h:990-1010 | the same with the reset after a bad frame: answer and next state are those of the recogniser, at OK the finished frame is in `r_message` and counted, and the parse error count says whether the frame was bad |
| Session.ParseStream | install/include/mavsdk/mavlink/mavlink_helpers.h:968-987 | the documented receive loop gives, for every stream and callback, the recogniser's answers and final state |
| ParserTheorems.Soundness | install/include/mavsdk/mavlink/mavlink_helpers.h:743-823 | at every OK in every stream, the last bytes consumed are one contiguous frame with marker, known flags, announced length and matching checksum, and with signing a good signature or the callback's consent |
| ParserTheorems.AcceptedFramesAreDisjoint | install/include/mavsdk/mavlink/mavlink_helpers.h:990-1010 | two accepted frames never share a byte |
| ParserTheorems.EveryByteCounts | install/include/mavsdk/mavlink/mavlink_helpers.h:599-1010 | a measure of the bytes left, which with those consumed is at most 280, falls with every byte `mavlink_parse_char` takes within an attempt |
| ParserTheorems.EveryRawByteCounts | install/include/mavsdk/mavlink/mavlink_helpers.h:599-824 | the same of `mavlink_frame_char_buffer`, whose attempts may also wait for the signature of a bad frame |
| ParserTheorems.RunsStayShort | install/include/mavsdk/mavlink/mavlink_helpers.h:599-1010 | in every run of either parser the frame in progress is shorter than 280 bytes, and whatever follows, the attempt has ended by its 280th byte |
| ParserTheorems.HistoryIsSuffix | install/include/mavsdk/mavlink/mavlink_helpers.h:599-824 | the bytes of the frame in progress are the end of the stream |
| ParserTheorems.FrameIsDecided | install/include/mavsdk/mavlink/mavlink_helpers.h:590-1010 | from idle, every well-formed frame answers nothing before its last byte, and there OK if and only if its verdict is favourable; what the parser then holds is that frame, and the state afterwards is given |
| ParserTheorems.BadCrcIsRefused | install/include/mavsdk/mavlink/mavlink_helpers.h:743-770 | a frame with a wrong checksum never answers OK up to and including its second checksum byte |
| ParserTheorems.BurstIsDetected | install/include/mavsdk/mavlink/mavlink_helpers.h:743-768 | any change within two adjacent bytes, or within sixteen consecutive bits, among flags, sequence, addresses and payload of any valid frame keeps `mavlink_parse_char` from OK up to and including the second checksum byte |
| ParserTheorems.OddFlipsAreDetected | install/include/mavsdk/mavlink/mavlink_helpers.h:743-768 | so does any odd number of bits flipped among these bytes and the checksum itself |
| ParserTheorems.QuietMeansIdle | install/include/mavsdk/mavlink/mavlink_helpers.h:599-1010 | from every state of a run, 280 bytes without a marker bring `mavlink_parse_char` to idle |
| RoundTrip.SentFrameIsWellFormed | install/include/mavsdk/mavlink/mavlink_helpers.h:223-290 | every frame sent is well-formed and spells out its header, payload and signature bit |
| RoundTrip.SentFrameIsReceived | install/include/mavsdk/mavlink/mavlink_helpers.h:223-868 | print, then parse, from idle, for v1, v2, signed, unsigned, trimmed and empty payloads: nothing until the last byte, OK exactly there, and what is delivered for the bytes the parser holds has the header and payload that were sent |
| RoundTrip.PayloadIsRestored | install/include/mavsdk/mavlink/mavlink_helpers.h:754-757 | the delivered payload equals the one sent up to its full length (v1: its base length), with zeros from there to the maximum length |
| RoundTrip.ReprintIsIdentity | install/include/mavsdk/mavlink/mavlink_helpers.h:447-488 | printing what was delivered gives back the wire bytes if and only if the marker is that of the version the frame was read in, a version 2 payload has no zero to trim, and the checksum was good or the frame was handed out as a bad one |
| RoundTrip.DeliveredChecksum | install/include/mavsdk/mavlink/mavlink_helpers.h:816-865 | a message handed out carries the checksum bytes of the wire if and only if they were good or it is handed out as one with a bad checksum |
| FrameStream.FramesInSequence | install/include/mavsdk/mavlink/mavlink_helpers.h:590-1010 | good frames of either version, signed or not, in any mixture back to back: the answer at the end of each is its verdict in the state the earlier ones left, and there is no other answer, as long as no refused frame ends in the version 2 marker |
| FrameStream.Resynchronises | install/include/mavsdk/mavlink/mavlink_helpers.h:590-1010 | from every state of a run, behind 280 bytes without a marker the next good frame is decided by its verdict |
| FrameStream.NextFrameIsMissed | install/include/mavsdk/mavlink/mavlink_helpers.h:993-1008 | behind a refused version 2 frame that ends in the marker, a good frame whose length has bits beyond the signed flag and no marker in its rest is missed altogether |
| FrameStream.IdleAtBoundaries | install/include/mavsdk/mavlink/mavlink_helpers.h:993-1008 | every frame boundary finds the parser idle if and only if no refused frame ends in the version 2 marker |
| FrameStream.MixtureIsReceived | install/include/mavsdk/mavlink/mavlink_helpers.h:223-1010 | any mixture of transmissions to a channel without signing is answered OK at exactly their last bytes |
| SignedStream.SessionOverTheWire | install/include/mavsdk/mavlink/mavlink_helpers.h:590-1010 | for frames back to back on a channel with signing, signed or not, none refused with the marker as its last byte: the answer at the end of each is the verdict of the signing protocol in that run, or the callback's consent, and there is no other answer |
| SignedStream.SignedSessionOverTheWire | install/include/mavsdk/mavlink/mavlink_helpers.h:73-1010 | the signed session on the byte stream, from a welcome first frame on and among any claims, forgeries of the sender's own stream and unsigned frames, none refused with the marker as its last byte: OK at the end of its frame if and only if neither that frame nor a later one arrived before, or the callback consents |
| SignedStream.TransmissionsOverTheWire | install/include/mavsdk/mavlink/mavlink_helpers.h:73-1010 | the same, with the same two premises, for the frames one sender prints at any increasing timestamps, lost, repeated, reordered and mixed with other frames, signed, forged or unsigned: what is sent is what is judged |
| SignedStream.ForgeryIsRefused | install/include/mavsdk/mavlink/mavlink_helpers.h:136-148 | every signed frame that can be sent has a forgery that is refused and ends in the marker, so the premise cannot be dropped |
| Anomalies.RawOkExactly | install/include/mavsdk/mavlink/mavlink_helpers.h:761-816 | a run of the raw parser from idle over any complete frame: BAD_CRC exactly at the end of a wrong checksum, OK exactly at the last byte if the verdict is favourable and the frame is signed or its checksum good |
| Anomalies.RawForgetsBadCrc | install/include/mavsdk/mavlink/mavlink_helpers.h:761-816 | on a channel without signing the run over a signed frame with a wrong checksum answers BAD_CRC and thirteen bytes later OK |
| Anomalies.ForwardedWithGoodCrc | install/include/mavsdk/mavlink/mavlink_helpers.h:816-865 | what is handed out with that OK prints as a well-formed frame: the corrupted bytes are forwarded with a good checksum |
| Anomalies.MarkerAgreesExactly | install/include/mavsdk/mavlink/mavlink_helpers.h:996-1006 | in every stream and for every OK, the marker of the accepted frame is that of the layout it was read in if and only if the parser was idle before the marker or its IN_MAVLINK1 flag was clear |
| Anomalies.ParseThenPrint | install/include/mavsdk/mavlink/mavlink_helpers.h:447-1010 | in every stream and for every OK, printing what was delivered gives back the accepted bytes if and only if that holds and a version 2 payload has no zero to trim |
| Anomalies.RestartKeepsVersion | install/include/mavsdk/mavlink/mavlink_helpers.h:996-1006 | a concrete stream where it is not: a frame that begins with the version 2 marker is accepted in the version 1 layout |
| Anomalies.RestartedFrameReprintsDifferently | install/include/mavsdk/mavlink/mavlink_helpers.h:996-1006 | printing what that frame delivers does not give its bytes back |
| BatteryStatus.StructRoundTrip | install/include/mavsdk/mavlink/common/mavlink_msg_battery_status.h:165-207 | packing the fourteen fields at their offsets and reading them back is the identity, for signed and unsigned widths |
| BatteryStatus.PackChan | install/include/mavsdk/mavlink/common/mavlink_msg_battery_status.h:165-207 | the finalised message prints as the frame for these fields; a null array is packed as zeros |
| KnownFrames.SampleBytes | install/include/mavsdk/mavlink/common/mavlink_msg_battery_status.h:7-22 | fourteen sample fields at their offsets, little-endian and in two's complement, as literal bytes |
| KnownFrames.BatteryFrame | install/include/mavsdk/mavlink/common/mavlink_msg_battery_status.h:165-207 | that sample over version 2 as its 66 bytes: length 54, id 147, extra byte 154 |
| KnownFrames.ExtraByteOfDefinition | install/include/mavsdk/mavlink/common/mavlink_msg_battery_status.h:29-30 | 154 is the folded checksum of the message's name, types and field names in wire order |
| BatteryStatus.Decode | install/include/mavsdk/mavlink/common/mavlink_msg_battery_status.h:509-531 | reads min(len, 54) bytes into a cleared struct |
| BatteryStatus.DecodesToPacked | install/include/mavsdk/mavlink/common/mavlink_msg_battery_status.h:509-531 | decoding gives all fields over version 2, and the nine base fields and zeros over version 1, even from the sender's buffer with the checksum behind the payload |
| BatteryStatus.BatteryEndToEnd | install/include/mavsdk/mavlink/common/mavlink_msg_battery_status.h:165-531 | on values: packed, sent, parsed and decoded, the fields come out as they went in (version 1: the base fields, zero in the five extensions) |
| Link.Relay | install/include/mavsdk/mavlink/mavlink_helpers.h:447-1010 | on the code: printing a finalised message and looping over `mavlink_parse_char` answers nothing until the last byte, OK there, and leaves the sent header, payload and trailing zeros in `r_message` |
| Link.SendAndReceive | install/include/mavsdk/mavlink/mavlink_helpers.h:223-1010 | the same from `mavlink_finalize_message_buffer` on, for every message, channel and receiver that admits it |
| Link.BatteryAcrossTheLink | install/include/mavsdk/mavlink/common/mavlink_msg_battery_status.h:165-531 | `_pack_chan`, the wire and `_decode` give back all fourteen fields over version 2, and the nine base fields and zeros over version 1 |
| Link.ReceiveAndPrint | install/include/mavsdk/mavlink/mavlink_helpers.h:447-1010 | on the code: after a stream whose last byte answers OK, printing `r_message` gives back the accepted bytes if and only if the marker was that of the layout and a version 2 payload has no zero to trim |
| Link.BothPaths | install/include/mavsdk/mavlink/mavlink_helpers.h:223-487 | from channels in the same state, finalising and printing gives byte for byte what `_mav_finalize_message_chan_send` emits, and both channels step alike |
| Rotation.QuaternionToDcm | install/include/mavsdk/mavlink/mavlink_conversions.h:39-58 | fills the array with the matrix of the quaternion |
| Rotation.RowsAreOrthogonal | install/include/mavsdk/mavlink/mavlink_conversions.h:39-58 | R R^T = |q|^4 I for every real quaternion |
| Rotation.DeterminantIsCube | install/include/mavsdk/mavlink/mavlink_conversions.h:39-58 | det R = |q|^6 for every real quaternion |
| Rotation.DcmRotates | install/include/mavsdk/mavlink/mavlink_conversions.h:39-58 | the matrix applied to a vector is the vector conjugated by the quaternion in Hamilton's product |
| Rotation.RadicandsAreSafe | install/include/mavsdk/mavlink/mavlink_conversions.h:147-175 | for every matrix, of whatever origin, both square roots are of numbers of at least one, so neither branch divides by zero |
| Rotation.DcmToQuaternion | install/include/mavsdk/mavlink/mavlink_conversions.h:147-179 | the loop finds the first greatest diagonal element; the result is the unit quaternion, up to sign, whenever the matrix comes from one |
| Rotation.RoundTrip | install/include/mavsdk/mavlink/mavlink_conversions.h:39-179 | quaternion to matrix to quaternion is q or -q for every unit quaternion, through the trace branch and each diagonal branch |
| Rotation.PivotIsPositive | install/include/mavsdk/mavlink/mavlink_conversions.h:147-179 | for every matrix the component taken from the square root, w or that of the first greatest diagonal element, is positive |
| Rotation.RoundTripExactly | install/include/mavsdk/mavlink/mavlink_conversions.h:39-179 | so the sign of the round trip is decided by the sign of that component of q |
| RotationInverse.MatrixComesBack | install/include/mavsdk/mavlink/mavlink_conversions.h:39-179 | for every matrix with R R^T = I and det R = 1, through each branch, the quaternion computed is of length one and its matrix is R |
| RotationInverse.RotationsExactly | install/include/mavsdk/mavlink/mavlink_conversions.h:39-58 | the matrices made of unit quaternions are the rotations, all of them and no others |
| Rotation.EulerToQuaternion | install/include/mavsdk/mavlink/mavlink_conversions.h:119-135 | the result is a unit quaternion, and its matrix is the one of `mavlink_euler_to_dcm`, given c^2 + s^2 = 1 at the half angles and the double-angle identities |
| Rotation.EulerToDcm | install/include/mavsdk/mavlink/mavlink_conversions.h:190-210 | fills the array with the matrix of the three angles |
| Rotation.EulerPathsAgree | install/include/mavsdk/mavlink/mavlink_conversions.h:119-210 | both ways from Euler angles to a matrix agree in all nine entries |
| Rotation.EulerIsComposition | install/include/mavsdk/mavlink/mavlink_conversions.h:119-135 | the quaternion is the Hamilton product of the yaw, pitch and roll half-angle quaternions, in that order |
| Tokenizer.SplitIsTheOnlyOne | Src/Communications/UDPServer.cpp:112-119 | cutting at every separator is the one way to write a text as fields free of it |
| Tokenizer.ParseParameters | Src/Communications/UDPServer.cpp:109-128 | the loop yields the values of exactly the fields of the split that `stof` accepts, in order |
| Tokenizer.Handle | Src/Communications/UDPServer.cpp:105-140 | reads a message as its declarative reading does: command before the first ':', parameters behind it, three kinds of event |
| Tokenizer.EventOfCommand | Src/Communications/UDPServer.cpp:130-137 | `info` raises InfoRequest, `set_brightness` SetBrightness, and any other command itself with the values of its fields, whatever the parameters |
| Tokenizer.CommandArrives | Src/Communications/UDPServer.cpp:105-137 | a command of neither name, joined with fields that all parse, arrives as it was written with exactly those values |
| Tokenizer.UnparsableFieldIsSkipped | Src/Communications/UDPServer.cpp:113-118 | a field that does not parse is skipped and the others keep their order |
| Tokenizer.RequestIsUnderstood | Src/Communications/UDPServer.cpp:105-140 | a command without ':' joined with fields without ',' that all parse is read back as that command and those values |
| Tokenizer.RefusedExactly | Src/Communications/UDPServer.cpp:138-140 | a message raises no event if and only if it has no ':' |
| UdpServer.CString | Src/Communications/UDPServer.cpp:68-87 | a queued message is the datagram up to 1023 bytes or its first NUL |
| UdpServer.EveryRunKeeps | Src/Communications/UDPServer.cpp:64-144 | every interleaving of receiver, processor and `stop` keeps mutual exclusion, queue order, the wake-up rule, the set of senders and the log of events |
| UdpServer.AllIsHeard | Src/Communications/UDPServer.cpp:71-89 | over every schedule the log of received commands is what `recvfrom` delivered while the receiver listened, as C strings with their senders |
| UdpServer.NoLossNoReordering | Src/Communications/UDPServer.cpp:71-144 | in every reachable state handled ++ in flight ++ queued ++ about to be queued is what was delivered, in order, and the events raised are those of the handled prefix |
| UdpServer.QueueIsGuarded | Src/Communications/UDPServer.cpp:88-103 | who pushes, reads, pops or unlocks owns the mutex, and a pop removes the command that was copied from a non-empty queue |
| UdpServer.QuietMeansDone | Src/Communications/UDPServer.cpp:91-103 | no lost wake-up: when both threads sleep, everything delivered has been handled once and in order, and every sender is known |
| UdpServer.OwnerCanMove | Src/Communications/UDPServer.cpp:88-103 | no deadlock: a thread blocked on the mutex waits for one that can move |
| UdpServer.EverythingCanBeHandled | Src/Communications/UDPServer.cpp:64-144 | no livelock: while the server runs, from every reachable state a schedule leads to everything delivered being handled and both threads waiting |
| UdpServer.ThreadsStayUp | Src/Communications/UDPServer.cpp:64-97 | neither thread ends before `stop` clears the flag |
| UdpServer.StopIsMissedExactly | Src/Communications/UDPServer.cpp:51-56 | in every reachable state with the flag set, some schedule after `notify_all` leaves the processor asleep and not woken if and only if it stands between its test of the flag and its parking |
| UdpServer.StopWakesUnlessLate | Src/Communications/UDPServer.cpp:51-56 | a processor asleep and not woken after `notify_all` had not yet parked when it came |
| UdpServer.StopCanBeLate | Src/Communications/UDPServer.cpp:51-56 | a schedule where it falls there, and the processor stays parked after `stop` and the receiver have finished |
| UdpServer.RequestIsServedOnce | Src/Communications/UDPServer.cpp:64-144 | a well-formed request delivered in one datagram and handled raises its event exactly once, between the events of the commands delivered before and after it |

## Left out

- Rotation: floats and doubles are reals, with `sqrtf`, `cosf` and `sinf` as function parameters that satisfy the
  identities named in the contracts; nothing is said about rounding, overflow or NaN.
- Link.SendAndReceive: the two ends share no objects, as on a real link; a channel looped back onto itself, with one
  `mavlink_signing_t` for both directions, is covered by the lemmas on values only.
- `mavlink_dcm_to_euler` and `mavlink_quaternion_to_euler`: inverse trigonometry and tolerance branches.
- `put_bitfield_n_by_index`: its mask is always zero, so it never writes the value.
- The strength of the hash: signatures are compared as bytes, and only honest senders' signatures are known to agree.
- UdpServer: threads, sockets and the condition variable are a machine on values, not objects shared in place; a step is
  the code between two scheduling points, and every stray wake-up is allowed. `send_message` and `start` are
  not modelled; `stop` is modelled up to its `notify_all`, not closing, joining or ending in bounded time.
- Tokenizer: `stof` is any partial function that refuses the empty text; its grammar, range errors and values are its own.
- Event handlers behind INVOKE_EVENT, and exceptions they might throw.
- Parser: `buffer_overrun` (its branch needs `msg_received` to be set where it has just been cleared), `r_mavlink_status`
  and the MAVLINK_CHECK_MESSAGE_LENGTH build are not modelled; `flags` is two booleans.
- Receiver: the answer of `accept_unsigned_callback` comes with each byte of input; a missing callback answers no.
  The callback does not change the channel.
- Message: the message id is a number below 2^24 put together as a sum where the code uses shifts and or.
- MessageTable: the tables are parameters, sorted and for `mavlink_get_msg_entry` non-empty, and not transcribed; target
  offsets, flags and field descriptions are not kept.
- SigningState: the secret key is a sequence and the stream table a sequence of sixteen entries in a field, so aliasing of
  the table's storage is not captured.
- BatteryStatus: the struct is a value; integer arrays are sequences of their length. The other generated messages repeat
  its pattern and are not modelled.
- Per-channel static storage, UART macros, byte-swap builds and the resend helper.
- The TCP and serial servers, telemetry, streaming, the SDK plugins and the program's wiring: input and output.
