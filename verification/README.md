# http3-server: a verified model

The repository serves HTTP/3, WebSocket and WebTransport from Node, and makes the development
certificates that browsers need for it. This project models its stateful core in Dafny and proves
what that core is for:

- **The WebSocket endpoint** (`Bytes`, `Wire`, `Waiting`, `WebSocketSpec`, `WebSocketFacts`,
  `WebSocketOutcomes`, `Chunking`, `Calls`, `Limits`, `Reassembly`, `WebSocketConnection`). `Wire`
  holds the byte layout and reference decoder of section 5.2 of RFC 6455, the endpoint's own
  incremental decoder, and its encoder. `WebSocketSpec` says what each call does as functions on the
  endpoint's state. `WebSocketConnection.Connection` is the class with the loops and field updates;
  each method is proved to do what `WebSocketSpec` says. The laws are proved about the functions:
  cutting the input differently changes nothing, memory is bounded, fragments are reassembled as
  section 5.4 of RFC 6455 says, and the bytes written decode to the frames that were sent.
  `WebSocketOutcomes` says of every call what it writes, reports and ends with, byte by byte.
- **The endpoint under every interleaving** (`WebSocketMachine`, `WebSocketSafety`,
  `WebSocketProgress`, `WebSocketOrder`, `WebSocketSequential`). Every call is a task whose code
  runs from one `await` to the next; any number of calls, the write queue and the close timer take
  turns in any order, and callbacks and transport calls settle or reject when and as they like.
  `WebSocketSafety` proves the close handshake safe in every run, and `WebSocketProgress` that a
  closing socket always has something under way that will close it; `WebSocketOrder` proves that
  overlapping reads still deliver the messages of the input in order and within the limit, with the
  one exception below; `WebSocketSequential` proves that calls made one at a time are among these
  runs and do what `WebSocketSpec` says.
- **The delivery chain** in front of the endpoint (`Delivery`), with the opening of the socket at
  any point in between.
- **The HTTP/3 event machine** (`IndexTree`, `EventIndex`, `EventRefinement`, `EventServer`,
  `Receives`, `ReceiveRace`, `ResponseSender`): the global maps that must agree with the tree of
  connections, sessions and streams and refine a plain table of what belongs to what, the race to
  complete each received chunk, and the response sender.
- **DER, certificates and addresses** (`Der`, `DerTypes`, `Certificate`, `CertificateSize`,
  `IpAddress`, `IpGrammar`): the encoder of ITU-T X.690 against a strict decoder, the certificate
  assembly, and the text forms of section 2.2 of RFC 4291.
- **Two file protocols** (`CommitImports`, `CertificateCache`, `PendingCalls`): the import
  transaction with rollback, and the certificate caches whose immutable file sets sit behind an
  atomically renamed file, with any number of callers and crashes.

Callbacks, the transport, the native server and the file system are surroundings that may answer
anything within the assumptions stated here: the native side announces no identifier twice
(`EventIndex.Fresh`), keeps one chunk pending per stream (`Receives.Contract`), and refuses sends
after an abort (`ResponseSender.Env.strict`); rollback renames succeed; random identifiers are
fresh. Where a law needs one of these, a lemma shows the law failing without it where that is short
to say (`EventIndex.FreshnessIsNeeded`, `ResponseSender.RefusalAfterAbortIsNeeded`).

Four promises turned out to have exact limits, stated as equivalences:

- An object identifier's content decodes to the same arcs if and only if the sum of the first two
  arcs is a number a double can hold (`DerTypes.OidRoundTrip`; `DerTypes.OidCollision` gives two
  identifiers with one encoding, which the function accepts but no export passes to it).
- The address parser accepts more than section 2.2 of RFC 4291: a text is in the grammar if and only
  if it is accepted and no dotted quad stands before an elision
  (`IpGrammar.GrammarIsAcceptedWithoutEarlyQuad`).
- Input on which the endpoint waits is a proper prefix of a frame if and only if it holds no dead
  length, a partial eight-byte length of which enough has come to be impossible
  (`Waiting.WaitingIsPrefixUnlessDead`, met by three bytes in `Waiting.DeadInputIsAwaited`).
- What arrives is read in its place, in every continuation, if and only if the socket has yet to
  open or nothing is waiting for it to open: a socket closed before it opens goes on reading, and
  passes over what waited (`WebSocketOrder.InSequenceUnlessClosedEarly`; in
  `WebSocketOrder.EarlyCloseSkipsAMessage` the second of two messages is delivered and the first
  never is).

`dafny verify dfyconfig.toml` checks everything.

## Model

| member | source | states |
|---|---|---|
| `Bytes.Concat` | packages/server/WebSocketConnection.js:473-482 | The copying loop yields the parts one after another: total length, every byte in place. |
| `Bytes.XorByBit` | packages/server/WebSocketConnection.js:226 | Exclusive or of two octets, bit by bit. |
| `Wire.MaskingInverts` | packages/server/WebSocketConnection.js:223-226 | Masking twice under the same four-byte key is the identity, at every length and key. |
| `Wire.DecodeInvertsLayout` | packages/server/WebSocketConnection.js:435-451 | Section 5.2 of RFC 6455: any frame, followed by anything, decodes to that frame and its exact size. |
| `Wire.LayoutInvertsDecode` | packages/server/WebSocketConnection.js:167-227 | Whatever the reference decoder accepts is the one layout of the frame it returns; there is no second spelling. |
| `Wire.ReadFrameRefinesDecode` | packages/server/WebSocketConnection.js:157-229 | The endpoint recognises a frame if and only if the reference decoder finds one that is masked, RSV-free, within the limit and legal as a control frame, and returns the same frame and size; while it waits, the reference decoder has no whole frame either. |
| `Wire.ReadFrameStable` | packages/server/WebSocketConnection.js:157-222 | More input changes neither a frame already recognised nor a failure already found. |
| `Wire.FailureIsFinal` | packages/server/WebSocketConnection.js:163-221 | After a failure no continuation of the input could have held an acceptable frame. |
| `Wire.FailsAsRefused` | packages/server/WebSocketConnection.js:157-221 | The endpoint fails exactly on a header the table refuses, before the payload has come: reserved bits, no mask, lengths not minimal or with the sign bit, bad control frames with 1002; lengths beyond a safe integer or the limit with 1009; each with its own report. |
| `Wire.ReadFrameSizes` | packages/server/WebSocketConnection.js:212-227 | A consumed frame is at least 6 bytes, its payload within the limit; input that must wait is shorter than the limit plus 14. |
| `Wire.ClientFrameRoundTrip` | packages/server/WebSocketConnection.js:157-229 | A masked frame of any legal size, under any key and followed by anything, is read back to its fin, opcode and payload. |
| `Wire.LengthCodecsAgree` | packages/server/WebSocketConnection.js:172-210 | The only length field accepted for n bytes is the one the encoder writes for n, with the mask bit set. |
| `Wire.EncodeFrame` | packages/server/WebSocketConnection.js:435-451 | The array filled in place is the section 5.2 layout of a final, unmasked, RSV-free frame with minimal length. |
| `Wire.DecodeAllInverts` | packages/server/WebSocketConnection.js:329-337 | A run of frames on the wire decodes to exactly those frames in order. |
| `WebSocketFacts.FailureCloses` | packages/server/WebSocketConnection.js:316-327 | A protocol failure always ends closed with 1006, whatever writes and ends do, and delivers nothing. |
| `WebSocketFacts.DeliverOnce` | packages/server/WebSocketConnection.js:279-287 | A whole message reaches the handler exactly once, or not at all if it is text that is not UTF-8; whatever the handler does, reading goes on. |
| `WebSocketFacts.HandleFrameQuiet` | packages/server/WebSocketConnection.js:232-288 | Per kind of frame: which message is delivered, which pong is written, that fragments change in no other way, and that violations and nothing else among data frames close the socket. |
| `WebSocketFacts.CloseCodesByRange` | packages/server/WebSocketConnection.js:453-463 | `validateCloseCode` accepts exactly 1000-1003, 1007-1014 and 3000-4999. |
| `WebSocketFacts.StartedCloseParses` | packages/server/WebSocketConnection.js:82-95 | A Close frame this endpoint starts fits a control frame and parses back to the same code and reason. |
| `WebSocketFacts.PeerCloseIsAnswered` | packages/server/WebSocketConnection.js:290-314 | A well-formed Close is echoed byte for byte exactly when none was sent before, and the socket closes with its code and reason. |
| `WebSocketFacts.EndReports` | packages/server/WebSocketConnection.js:143-155 | The transport's end closes with the peer's code only after a clean end that followed its Close, with 1006 otherwise, and delivers nothing. |
| `WebSocketOutcomes.SendWrites` | packages/server/WebSocketConnection.js:69-79 | `send` on an open socket, within the limit, writes exactly one frame, 0x1 for text and 0x2 for bytes, and rejects exactly if the write does; otherwise it rejects and nothing changes. |
| `WebSocketOutcomes.CloseWrites` | packages/server/WebSocketConnection.js:82-100 | `close`, by cases: nothing when closed or already sent; rejection of a code or reason no Close frame may carry; otherwise the two code bytes and the reason are written once, then the transport is ended or the timer runs, or the rejected write rejects. |
| `WebSocketOutcomes.CloseIsReadByBytes` | packages/server/WebSocketConnection.js:290-314 | A received Close by its bytes: empty is answered as 1005; one byte fails with 1002; longer ones are answered if and only if the big-endian code is in 1000-1003, 1007-1014 or 3000-4999 and the rest is UTF-8, with exactly that code and reason; the whole new state in each case. |
| `WebSocketOutcomes.FailureIsLogged` | packages/server/WebSocketConnection.js:316-347 | The whole history of a protocol failure: the report, one Close with the code and its text unless one was sent, the end of the transport, aborted if that fails, and the close with 1006. |
| `WebSocketOutcomes.RefusedFrameFails` | packages/server/WebSocketConnection.js:242-273 | Exactly the data frames of the table fail the socket: unknown opcode, nothing to continue, message inside a message with 1002, too much with 1009. |
| `WebSocketOutcomes.PingIsAnswered` | packages/server/WebSocketConnection.js:237-241 | A ping is answered with its own payload, a pong with nothing. |
| `WebSocketOutcomes.MessageHandled` | packages/server/WebSocketConnection.js:279-287 | The handler's acts follow the delivery; if it throws, or the text is not UTF-8, the failure is reported and the socket closed with 1011. |
| `WebSocketOutcomes.RepliesInOrder` | packages/server/WebSocketConnection.js:69-79 | What a handler sends on an open socket goes out frame for frame in its order. |
| `WebSocketOutcomes.EarlyInputIsKept` | packages/server/WebSocketConnection.js:126-135 | Input before the opening is kept up to the limit plus 14 bytes, and beyond that fails the socket with 1009. |
| `WebSocketOutcomes.AcceptOpens` | packages/server/WebSocketConnection.js:103-112 | Opens once, and rejects an unoffered subprotocol with nothing changed. |
| `WebSocketOutcomes.EndIsLogged` | packages/server/WebSocketConnection.js:143-155 | The end of the transport in its cases, effect by effect. |
| `WebSocketOutcomes.TimerCloses` | packages/server/WebSocketConnection.js:349-356 | The close timer aborts the transport and closes with 1006; cleared, it does nothing. |
| `Chunking.DrainSplit` | packages/server/WebSocketConnection.js:136-139 | Running the frame loop on one part of the input and then on the rest is running it on the whole. |
| `Chunking.DrainSettles` | packages/server/WebSocketConnection.js:137-139 | When the loop stops on a live socket the buffer holds no complete frame. |
| `Chunking.FeedAllIsOneCall` | packages/server/WebSocketConnection.js:123-140 | Any sequence of `receiveData` calls does what one call with the concatenation does. |
| `Chunking.ChunkingIrrelevant` | packages/server/WebSocketConnection.js:123-140 | Two partitions of the same bytes give the same deliveries, writes, reported errors and close, and the same buffer and fragments while alive. |
| `Chunking.AcceptTransparent` | packages/server/WebSocketConnection.js:103-135 | Bytes that arrive before `accept`, within the pending limit, have the effect they would have had after it. |
| `Limits.MemoryBounded` | packages/server/WebSocketConnection.js:123-155 | After any sequence of receiving, ending, opening, sending, closing and timing out, one call at a time and whether or not calls reject: pending input is at most the limit plus 14, the three fragment fields agree and are within the limit, no delivered message was over it; and while the last read did not reject, the buffer is shorter than the limit plus 14, holds no whole frame, and is a proper prefix of one unless it holds a dead length. |
| `Waiting.WaitingIsPrefixUnlessDead` | packages/server/WebSocketConnection.js:172-222 | Input without a whole frame can be completed to one if and only if it holds no dead length. |
| `Waiting.DeadInputIsAwaited` | packages/server/WebSocketConnection.js:186-203 | Three bytes on which the endpoint waits though no frame starts with them. |
| `Limits.DispatchBounds` | packages/server/WebSocketConnection.js:258-278 | One frame keeps the three fragment fields consistent and within the limit, and hands on no message above it. |
| `Reassembly.DrainHandlesFrames` | packages/server/WebSocketConnection.js:137-229 | On the wire form of any legal frames, under any keys, the loop handles exactly those frames. |
| `Reassembly.ReassemblyRefinesMessages` | packages/server/WebSocketConnection.js:232-288 | Section 5.4 of RFC 6455: whole messages and part of one more, cut anyhow, with pings and pongs interleaved anywhere, deliver exactly the whole ones in order, each with the opcode of its first fragment; the open parts are kept and every ping is answered; when a write rejects, the deliveries are the first of those messages. |
| `Reassembly.MisplacedFrameCloses` | packages/server/WebSocketConnection.js:246-256 | A continuation of nothing, or a new data opcode inside a message, always ends in CLOSED with 1006 and delivers nothing. |
| `WebSocketConnection.Unmask` | packages/server/WebSocketConnection.js:226 | The in-place loop masks every byte with the key byte at its index modulo four. |
| `WebSocketConnection.Connection.WriteFrame` | packages/server/WebSocketConnection.js:329-337 | The frame's layout is appended to the wire, and the log grows by exactly this frame. |
| `WebSocketConnection.Connection.Send` | packages/server/WebSocketConnection.js:69-79 | Rejects unless open and within the limit, and otherwise writes one text or binary frame. |
| `WebSocketConnection.Connection.Close` | packages/server/WebSocketConnection.js:82-100 | State, Close frame, timer and rejection of every branch of `close`. |
| `WebSocketConnection.Connection.ProtocolFailure` | packages/server/WebSocketConnection.js:316-327 | Reports, tries to close, ends the transport and finishes with 1006. |
| `WebSocketConnection.Connection.ReceiveClose` | packages/server/WebSocketConnection.js:290-314 | Validates the code and reason, records them, echoes the payload once, ends and finishes. |
| `WebSocketConnection.Connection.HandleFrame` | packages/server/WebSocketConnection.js:232-288 | The frame handler's whole new state and outcome, leaving both input buffers alone. |
| `WebSocketConnection.Connection.ReadLength` | packages/server/WebSocketConnection.js:172-210 | The length field, in its three forms: what waits, what fails and how, or where the header ends. |
| `WebSocketConnection.Connection.ReadBody` | packages/server/WebSocketConnection.js:212-229 | The control and size checks, the payload unmasked in place, and the frame handed on. |
| `WebSocketConnection.Connection.ReadFrame` | packages/server/WebSocketConnection.js:157-230 | One frame off the buffer through the byte-level parser, with every failure branch. |
| `WebSocketConnection.Connection.ReceiveData` | packages/server/WebSocketConnection.js:123-140 | The `while` loop computes exactly the drained buffer and state, and terminates. |
| `WebSocketConnection.Connection.ReceiveEnd` | packages/server/WebSocketConnection.js:143-155 | The end of the transport: 1002 inside a frame, the peer's code after a clean close, otherwise abort and 1006. |
| `WebSocketConnection.Connection.Accept` | packages/server/WebSocketConnection.js:103-112 | Opens once, rejects an unoffered subprotocol, and replays pending input. |
| `WebSocketConnection.Connection.SentDecodes` | packages/server/WebSocketConnection.js:329-337 | All bytes ever given to the transport decode to exactly the frames in the log, each final, unmasked and RSV-free. |
| `WebSocketSafety.StepKeeps` | packages/server/WebSocketConnection.js:82-155 | Every step of any task, the write queue or the timer keeps the invariant and moves the shared state only forward. |
| `WebSocketSafety.ReadyStateNeverDecreases` | packages/server/WebSocketConnection.js:290-363 | Under every interleaving `readyState` never decreases, and `onClose` has fired exactly once when CLOSED and never before. |
| `WebSocketSafety.ReportedCodesAreThePeers` | packages/server/WebSocketConnection.js:290-363 | `onClose` reports a code other than 1006 only if a Close with that code and reason was parsed and passed validation, or was empty (1005); failure, timeout and unclean end report 1006. |
| `WebSocketSafety.WireCarriesTheQueue` | packages/server/WebSocketConnection.js:304-337 | Under every interleaving the bytes handed over decode to the enqueued operations in order: legal frames, control payloads at most 125 bytes, at most one Close, and only pongs after it. |
| `WebSocketSafety.EndFollowsCloseFrame` | packages/server/WebSocketConnection.js:339-347 | Whenever `transport.end` is called the Close frame has been written and settled, or none is ever sent. |
| `WebSocketSafety.SilentAfterEarlyEnd` | packages/server/WebSocketConnection.js:143-155 | A socket closed without a Close frame has an empty buffer and stays silent, whatever is still running. |
| `WebSocketSafety.PeerCloseGood` | packages/server/WebSocketConnection.js:290-314 | A received Close keeps the invariant even though its only guard is `sentClose`. |
| `WebSocketProgress.ClosingIsWatched` | packages/server/WebSocketConnection.js:82-100 | In every reachable state a closing socket has its close timer running, or a call in progress that goes on to close it or waits for the write of the Close frame, or else the transport refused a Close frame. |
| `WebSocketProgress.StepWatched` | packages/server/WebSocketConnection.js:82-155 | Every step of any task, the write queue or the timer keeps a closing socket watched. |
| `WebSocketOrder.StepKeeps` | packages/server/WebSocketConnection.js:103-155 | Every step keeps received bytes, buffer, frames read and messages delivered in one order. |
| `WebSocketOrder.DeliveriesFollowInput` | packages/server/WebSocketConnection.js:103-140 | Under every interleaving, overlapping reads included, the handler has seen what reassembling the frames read gives; those frames, in order, are the front of the bytes that arrived, short of what still waits for the socket to open. |
| `WebSocketOrder.MessagesSurviveOverlap` | packages/server/WebSocketConnection.js:232-288 | When the bytes that arrived are the front of any wire form of whole messages, cut as section 5.4 of RFC 6455 allows with pings and pongs anywhere and under any keys, then under every interleaving the frames read are the first of the client's and the messages delivered, text that is not UTF-8 left out, are exactly those whose last frame has been read, whole and in order. Once the socket is closing this asks that none of the input was passed over. |
| `WebSocketOrder.TakenMessagesDelivered` | packages/server/WebSocketConnection.js:232-288 | The same for whatever frames the reads have taken, without a condition on the bytes. |
| `WebSocketOrder.InSequenceUnlessClosedEarly` | packages/server/WebSocketConnection.js:82-135 | In every reachable live state, everything that may arrive next is read in its place if and only if the socket has yet to open or no input waits for it to. |
| `WebSocketOrder.EarlyCloseSkipsAMessage` | packages/server/WebSocketConnection.js:82-135 | The failing case: a message, a `close` before the opening, another message, for any two bytes and any key; only the second is delivered. |
| `WebSocketOrder.EveryRunIsBounded` | packages/server/WebSocketConnection.js:258-278 | In every reachable state, overlapping calls included, the fragments kept total at most the limit and no delivered message exceeds it. |
| `WebSocketSequential.CallRuns` | packages/server/WebSocketConnection.js:69-155 | From any state at rest, a call whose callbacks and writes settle before the next call leaves the machine as the sequential layer says: same fields and effects in the same order, same frames handed over, and the call settles the same way. |
| `WebSocketSequential.SequentialCallsAreARun` | packages/server/WebSocketConnection.js:69-155 | Every history of calls made one at a time is one of the machine's runs. |
| `WebSocketSequential.SendQueuesOneFrame` | packages/server/WebSocketConnection.js:69-79 | One `send` step of the machine: the queue grows by exactly one text or binary frame, or the call throws and nothing changes. |
| `WebSocketSequential.RejectionEndsTheCall` | packages/server/WebSocketConnection.js:290-327 | A rejected error callback, or the rejected write of a Close, ends its call with the rejection and without any further effect. |
| `Delivery.ChainKeepsOrder` | packages/server/HTTPServer.js:414-434 | However arrivals, operations and calls from elsewhere interleave, the chain is part-way through making the calls in one plain order. |
| `Delivery.DeliveredAtOnce` | packages/server/HTTPServer.js:414-434 | When nothing rejects, a stream does what one `receiveData` with all its bytes and one `receiveEnd` do, clean for `end` and aborted for the abort event. |
| `Delivery.FailureDestroysTheStream` | packages/server/HTTPServer.js:417-423 | The stream is destroyed if and only if an operation rejected, and nothing is queued afterwards. |
| `Delivery.DeliveryTransparent` | packages/server/HTTPServer.js:414-434 | So what the socket did depends only on the concatenated bytes and the end event. |
| `Delivery.OpeningTimeIrrelevant` | packages/server/HTTPServer.js:414-434 | With the socket opened at any point before the end and within the pending limit, what it does depends only on the bytes and the end event. |
| `Delivery.EndedBeforeOpening` | packages/server/WebSocketConnection.js:103-155 | A socket that ends before it opens delivers nothing, and opening it then changes nothing. |
| `Delivery.Attachment.Open` | packages/server/WebSocketConnection.js:103-112 | Opening runs at once, between queued operations. |
| `Delivery.Attachment.Deliver` | packages/server/HTTPServer.js:417-433 | An event is queued unless a delivery has failed. |
| `Delivery.Attachment.RunNext` | packages/server/HTTPServer.js:419-423 | The next operation runs to its end; a rejection marks the chain failed and destroys the stream. |
| `Der.EncodeLength` | packages/dev-certificates/x509.js:17-25 | The loop writes the definite form in the fewest octets, and nothing for a length that is no safe integer. |
| `Der.LengthDecodes` | packages/dev-certificates/x509.js:17-25 | Every length is read back, whatever follows. |
| `Der.DecodedLengthIsMinimal` | packages/dev-certificates/x509.js:17-25 | The strict reading accepts no other octets for a length: section 10.1 of ITU-T X.690. |
| `Der.BuildElement` | packages/dev-certificates/x509.js:27-29 | Tag, length and value, concatenated. |
| `Der.DecodeInvertsEncode` | packages/dev-certificates/x509.js:27-37 | For every tree and every suffix, the decoder returns exactly that tree and that suffix. |
| `Der.EncodeInvertsDecode` | packages/dev-certificates/x509.js:27-37 | Whatever decodes is the one encoding of its tree, with minimal lengths at every level. |
| `Der.EncodingsArePrefixFree` | packages/dev-certificates/x509.js:27-37 | Different trees never share bytes, and no encoding is a prefix of another. |
| `DerTypes.BuildInteger` | packages/dev-certificates/x509.js:39-44 | The stripping loop and the sign octet give the specified content. |
| `DerTypes.IntegerKeepsValue` | packages/dev-certificates/x509.js:39-44 | The content is minimal and means, in two's complement, the unsigned value of any nonempty byte string. |
| `DerTypes.MinimalIntegerUnique` | packages/dev-certificates/x509.js:39-44 | No other minimal content means the same nonnegative value. |
| `DerTypes.EncodeBase128` | packages/dev-certificates/x509.js:46-56 | The loop writes the base-128 groups of any number. |
| `DerTypes.Base128Reads` | packages/dev-certificates/x509.js:46-56 | A subidentifier is read back whatever follows, and never starts with 0x80. |
| `DerTypes.BuildObjectIdentifier` | packages/dev-certificates/x509.js:58-72 | Refuses exactly the arcs the source refuses and otherwise builds the element. |
| `DerTypes.OidDecodesTo` | packages/dev-certificates/x509.js:68-71 | What the content decodes to for all valid arcs, the packed sum rounded as a double is. |
| `DerTypes.OidRoundTrip` | packages/dev-certificates/x509.js:58-72 | The content decodes back to the same arcs if and only if the packed sum is exact in a double, which holds unless the second arc is within 81 of 2^53. |
| `DerTypes.DoubleSumIsNearest` | packages/dev-certificates/x509.js:70 | The packed sum is the nearest number a double holds, ties to the multiple of four. |
| `DerTypes.OidRefusals` | packages/dev-certificates/x509.js:58-67 | Which arcs are refused, and no others. |
| `DerTypes.OidCollision` | packages/dev-certificates/x509.js:58-72 | Two different identifiers the function accepts with one encoding; no export passes them to it. |
| `DerTypes.NoPaddingOctet` | packages/dev-certificates/x509.js:46-72 | Every content reads as one subidentifier per arc after the first, none padded. |
| `Certificate.TbsDenotes` | packages/dev-certificates/x509.js:278-305 | The signed bytes are the one encoding of the to-be-signed tree, the public key being any well-formed element. |
| `Certificate.ExtensionsDenote` | packages/dev-certificates/x509.js:279-295 | Both sets of extensions, for an authority and for any names and addresses, are the encoding of their tree. |
| `Certificate.CertificateDecodes` | packages/dev-certificates/x509.js:296-317 | Whatever is built decodes to the intended tree and no other, nothing left over, and what was signed is the encoding of its first child. |
| `CertificateSize.CertificateIsBuilt` | packages/dev-certificates/x509.js:278-317 | Every request whose texts, names and key have at most 2^20 octets each, with at most 2^20 names, is built: no length is ever too long. |
| `CertificateSize.SignatureKeepsValues` | packages/dev-certificates/x509.js:213-217 | Every raw signature of 64 bytes is built, and decodes to two minimal integers with the raw r and s. |
| `Certificate.SerialIsPositive` | packages/dev-certificates/x509.js:274-276 | For any random bytes the serial number is positive, keeps its sixteen octets, and differs from them only in the sign bit and a first octet of zero. |
| `IpAddress.IPv4Parses` | packages/dev-certificates/x509.js:131-141 | Every four bytes, printed, parse back to themselves. |
| `IpAddress.IPv4Prints` | packages/dev-certificates/x509.js:131-141 | Every accepted string is the print of its four bytes: with the row above, a bijection. |
| `IpAddress.ParsePart` | packages/dev-certificates/x509.js:143-159 | The token loop computes the words of one side, a dotted quad only at its end. |
| `IpAddress.ParseAddress` | packages/dev-certificates/x509.js:161-178 | Splitting at `::`, counting omitted words and filling sixteen bytes in place. |
| `IpAddress.SpellsExactly` | packages/dev-certificates/x509.js:143-159 | A side is read as given words if and only if it spells them: groups of at most four characters that are the word in hexadecimal once case and leading zeros are ignored, and a printed dotted quad at most at the end. |
| `IpAddress.PrintedFullParses` | packages/dev-certificates/x509.js:161-178 | Every eight words, printed in full with or without a final dotted quad, parse to exactly their sixteen bytes. |
| `IpAddress.PrintedElidedParses` | packages/dev-certificates/x509.js:161-178 | The same with any run of one or more zero words elided. |
| `IpAddress.FullAddressParses` | packages/dev-certificates/x509.js:161-178 | The same for every spelling of the eight words: leading zeros up to four digits, letters in either case. |
| `IpAddress.ElidedAddressParses` | packages/dev-certificates/x509.js:161-178 | And for every spelling with a run of one or more zero words elided. |
| `IpAddress.AcceptedParts` | packages/dev-certificates/x509.js:161-178 | Nothing else is accepted: an accepted text is a full or elided spelling of the words its bytes are, high byte first. |
| `IpAddress.QuadBeforeElision` | packages/dev-certificates/x509.js:147-151 | A dotted quad and an elision alone are accepted, for all four bytes, as those bytes and twelve zeros. |
| `IpGrammar.GrammarIsAcceptedWithoutEarlyQuad` | packages/dev-certificates/x509.js:143-178 | A text is in the grammar of section 2.2 of RFC 4291 if and only if it is accepted and, where it elides, has no dot before the elision. |
| `IpGrammar.AcceptedBeyondGrammar` | packages/dev-certificates/x509.js:147-151 | What is accepted beyond the grammar is a text whose left half is groups and then a dotted quad. |
| `IpGrammar.SideIsAccepted` | packages/dev-certificates/x509.js:143-159 | The token loop accepts exactly the sides of the grammar, and counts their pieces. |
| `EventIndex.StepKeeps` | packages/server/HTTP3Server.js:43-248 | Every native event with a fresh identifier, and every late completion, keeps all three indexes in agreement with the objects. |
| `EventIndex.IndexesAlwaysAgree` | packages/server/HTTP3Server.js:43-248 | After every sequence of events `#streams`, `#sessions` and `#webTransportStreams` are exactly the disjoint unions over the live connections and their sessions, and no connection holds two sessions. |
| `EventIndex.StaleDropIsHarmless` | packages/server/HTTP3Server.js:560-567 | A stale `#deleteSession` touches no map and no live connection. |
| `EventIndex.ConnectionEndTakesItsOwn` | packages/server/HTTP3Server.js:82-98 | The end of a connection removes exactly its own streams, sessions and their streams from the three indexes. |
| `EventIndex.SessionDropTakesItsOwn` | packages/server/HTTP3Server.js:560-567 | Dropping a live session removes exactly it and its streams. |
| `EventRefinement.StepRefines` | packages/server/HTTP3Server.js:43-248 | Seen as a table of what belongs to what, the server's step on any event is the plain step of that table: every entry put, kept and removed, under the right owner, whatever stale objects there are. |
| `EventRefinement.MapsMeanTheTable` | packages/server/HTTP3Server.js:43-248 | After every sequence of events each map holds exactly what the plain table says. |
| `EventRefinement.ConnectionEndRefines` | packages/server/HTTP3Server.js:82-98 | The end of a connection filters the table by its identifier, session streams included. |
| `EventIndex.FreshnessIsNeeded` | packages/server/HTTP3Server.js:82-125 | In any state, a repeated stream identifier followed by the end of the first connection leaves the index wrong. |
| `EventServer.DeleteEach` | packages/server/HTTP3Server.js:85-91 | The deletion loops remove exactly the listed children. |
| `EventServer.Server.DeleteSession` | packages/server/HTTP3Server.js:560-567 | The method's whole new state, for any session object at any time. |
| `EventServer.Server.HandleConnectionEnd` | packages/server/HTTP3Server.js:82-98 | The nested loops drop exactly the connection's streams, sessions and their streams. |
| `EventServer.Server.HandleStop` | packages/server/HTTP3Server.js:43-59 | Every live connection and every map is emptied; stale objects are left alone. |
| `EventServer.Server.Receive` | packages/server/HTTP3Server.js:61-248 | Every callback keeps the invariant and makes exactly the step of its event. |
| `Receives.AtMostOnce` | packages/server/HTTP3Server.js:569-619 | Each chunk is completed at most once, with its own stream and size, in any order of settlement, timeout, end and stop. |
| `Receives.LateEventsTouchOnlyTheirChunk` | packages/server/HTTP3Server.js:570-613 | A settlement or timer completes its own chunk if that is the pending one and otherwise changes nothing. |
| `Receives.ExactlyOnceUnlessEnded` | packages/server/HTTP3Server.js:153-175 | With one pending chunk per stream, each chunk is completed exactly once, still pending, or was followed by an end of its stream or a stop. |
| `Receives.BytesAreConserved` | packages/server/HTTP3Server.js:127-175 | Per stream, delivered bytes are completed plus pending plus abandoned, and nothing is abandoned without an end or a stop. |
| `ReceiveRace.FirstEventDecides` | packages/server/HTTP3Server.js:569-619 | Over every run, the first event that concerns a pending chunk decides for good: its settlement completes it with the handler's answer, its timer as refused; an end of its stream, a stop or a newer chunk leaves it uncompleted; until then it is pending. |
| `ReceiveRace.RefusedAtOnce` | packages/server/HTTP3Server.js:153-175 | A chunk for an unknown stream, or whose handler throws at once, is completed as refused, once. |
| `ReceiveRace.NothingCompletesAfterItsEnd` | packages/server/HTTP3Server.js:615-619 | An end takes the stream's timer out and a stop all of them, and no event that follows completes a chunk handed over before. |
| `ReceiveRace.OnlyHandedAreCompleted` | packages/server/HTTP3Server.js:569-613 | No completion names a chunk that was not handed over. |
| `Receives.Receiver.DeliverReceive` | packages/server/HTTP3Server.js:569-597 | The timer is armed before the handler runs; a synchronous throw completes at once. |
| `Receives.Receiver.FinishReceive` | packages/server/HTTP3Server.js:599-613 | Completes only if the map still holds this timer. |
| `Receives.Receiver.ClearReceiveTimer` | packages/server/HTTP3Server.js:615-619 | Takes the stream's timer out without completing. |
| `ResponseSender.AnswerIsWholeOrUnfinished` | packages/server/HTTP3Server.js:473-513 | For every response, refusal pattern and abort: nothing, a bodiless 500, the bodiless response, HEADERS with all data and FIN carrying the whole body, or a proper prefix of that without FIN. |
| `ResponseSender.UndisturbedAnswerIsWhole` | packages/server/HTTP3Server.js:394-407 | Without an abort or a refusal a sound response is accepted completely, and a failed handler yields a bodiless 500. |
| `ResponseSender.FailureAnswers500` | packages/server/HTTP3Server.js:394-407 | When only the headers are refused the client gets a bodiless 500; a failed handler leads to nothing else, and no response to nothing at all. |
| `ResponseSender.BodyIsWholeOrUnfinished` | packages/server/HTTP3Server.js:489-501 | The body loop sends all chunks and FIN, or part of them and no FIN. |
| `ResponseSender.DataFramesCarryTheBody` | packages/server/HTTP3Server.js:495-497 | The data frames, empty chunks left out, carry every body byte in order. |
| `ResponseSender.RefusalAfterAbortIsNeeded` | packages/server/HTTP3Server.js:489-501 | If sends after an abort were accepted, any body of two nonempty chunks or more could be cut and look complete. |
| `ResponseSender.Responder.SendChunks` | packages/server/HTTP3Server.js:489-501 | The `while` loop accepts exactly the specified frames. |
| `ResponseSender.Responder.SendResponse` | packages/server/HTTP3Server.js:473-513 | Frames, commitment and failure of both kinds of response. |
| `ResponseSender.Responder.HandleRequest` | packages/server/HTTP3Server.js:394-407 | All frames of a request, with the best-effort 500 only when nothing was committed. |
| `CommitImports.Commit` | scripts/import-binaries.js:50-111 | Staging fails if and only if a copy throws or something to copy is missing, and it commits if and only if nothing throws; then every binaries directory is its old contents with the imported files and the manifest over them, the native package with `http3.d.ts` over it, and every other directory unchanged; when a call of the install loop throws, all directories are as before and the transaction root is gone; when staging throws, every project directory is as before. |
| `CommitImports.StagedIsOverlay` | scripts/import-binaries.js:28-75 | The planned content is the original overlaid with exactly the imported files and the manifest, keeping the mode of each file replaced. |
| `CommitImports.StagedIsDeclared` | scripts/import-binaries.js:72-75 | The planned native package is the original with `http3.d.ts` replaced by the declarations, in the old mode if it was there, and every other file unchanged. |
| `CommitImports.PlannedUnlessMissing` | scripts/import-binaries.js:61-75 | A target is staged if and only if its live directory and every file to copy exist. |
| `CommitImports.StageAll` | scripts/import-binaries.js:61-85 | Staging touches no project directory and fails exactly when a copy throws. |
| `CommitImports.InstallOne` | scripts/import-binaries.js:90-99 | One target is moved in, or its live directory is put back. |
| `CommitImports.InstallAll` | scripts/import-binaries.js:87-101 | The loop stops at the first throw with exactly a prefix of the targets installed. |
| `CommitImports.RollBack` | scripts/import-binaries.js:102-107 | The reverse loop restores every original. |
| `CertificateCache.StepKeeps` | packages/dev-certificates/trusted.js:61-147 | Every step of any caller keeps the invariant, and the history of the current file only grows: throws and crashes included, and the writes and deletions that a call which threw had already started. |
| `CertificateCache.CurrentSetIsWhole` | packages/dev-certificates/trusted.js:97-130 | Whatever callers do and wherever they crash, the current file, when present, names a set whose files are all completely written. |
| `CertificateCache.RotationSparesCurrentSet` | packages/dev-certificates/trusted.js:119-137 | A deleted file, also one deleted by a call that has already thrown, always belongs to a set that was current earlier and is not current before or after the deletion. |
| `CertificateCache.CurrentNeverReturns` | packages/dev-certificates/trusted.js:91-130 | A value of the current file never comes back once replaced. |
| `CertificateCache.ReadersNeverSeePartialFiles` | packages/dev-certificates/trusted.js:215-261 | A caller that follows the current file, however late, finds each file whole or gone. |
| `CertificateCache.CurrentIsRenamedWhole` | packages/dev-certificates/trusted.js:119-130 | The current file changes only by the rename of a file the same caller finished writing for the set it publishes. |
| `CertificateCache.ReusedIsReadWhole` | packages/dev-certificates/trusted.js:61-85 | A set is handed out again only by a caller that has read every file of it, each one complete. |
| `CertificateCache.WithoutRotationNothingIsLost` | packages/dev-certificates/node.js:100-168 | The cache that deletes nothing keeps every set it published or returned. |
| `CertificateCache.Directory.EnsureOnce` | packages/dev-certificates/trusted.js:61-147 | An uninterrupted call reuses the current set when fit, and otherwise publishes a fresh whole set and deletes exactly the validated one it replaced. |
| `CertificateCache.Directory.WriteSet` | packages/dev-certificates/trusted.js:87-130 | All files of a fresh set, then the renamed current file. |
| `CertificateCache.Directory.DeleteSet` | packages/dev-certificates/trusted.js:131-137 | Exactly the files of the replaced set. |
| `PendingCalls.OneAtATime` | packages/dev-certificates/trusted.js:44-59 | Calls of one directory in one process run one at a time and in order, whether earlier ones resolve or reject. |
| `PendingCalls.Chains.Ensure` | packages/dev-certificates/trusted.js:48-53 | A call queues behind the pending one of its directory and replaces it in the map. |
| `PendingCalls.Chains.Cleanup` | packages/dev-certificates/trusted.js:54-57 | A settled call removes its own entry and never a later one. |

## Left out

- WebSocketConnection.Connection.HandleFrame: in this sequential layer the error and close callbacks settle without rejecting, as those of both servers do (packages/server/HTTP3Server.js:430-440 and 653-664, packages/server/HTTPServer.js:291-300); `WebSocketMachine` lets them reject and settle at any time.
- WebSocketConnection.Connection.ProtocolFailure: likewise assumes an error callback that does not reject.
- WebSocketFacts.FailureCloses: likewise; an error callback that rejects would skip the close.
- WebSocketOutcomes.FailureIsLogged: likewise, and so `WebSocketSequential.CallRuns`; what a rejection does instead is `WebSocketSequential.RejectionEndsTheCall`.
- Reassembly.MisplacedFrameCloses: likewise.
- Limits.MemoryBounded: is about calls that do not overlap; overlapping `receiveData` calls may buffer more in between, and a read that rejects leaves its unread input in the buffer. For calls that overlap `WebSocketOrder.EveryRunIsBounded` bounds fragments and messages, not the input buffers.
- WebSocketOrder.DeliveriesFollowInput: input gathered before the socket opens is never read if the socket is closed before it opens; the statement then keeps it apart as `pendingInput`.
- WebSocketOrder.MessagesSurviveOverlap: says what has been read, not that everything that arrived will be: that depends on callbacks and writes that need not settle.
- Delivery.DeliveryTransparent: leaves out calls from elsewhere between the operations, whose effect no bytes determine; `Delivery.ChainKeepsOrder` has them in their place in the order.
- DerTypes.BuildObjectIdentifier: takes the arcs as numbers; splitting the text at dots and `Number` conversion of each part are not modelled.
- Receives.Receiver.HandleStop: `clearTimeout` has no effect here; a cleared timer may still fire in the model and is shown to do nothing.
- CertificateCache.StepKeeps: allows callers of one process to overlap freely, which the promise chain of `PendingCalls` in fact forbids; power loss between a write and the disk is not modelled.
- CommitImports.Commit: a rollback rename that itself fails is not modelled, and each platform is taken to be imported once, as its table of platforms has it.
- UTF-8 validity is an arbitrary predicate on bytes, and text is kept as its bytes, a leading byte order mark included.
- The opening handshake: header and subprotocol syntax, URL building, and the order of the HTTP/1.1 upgrade head against socket data.
- Real time: timers are steps that may happen at any moment; the printing of dates in certificates is a parameter.
- Key generation, signing, the exported key's own structure, PEM and base64, and the trust-store commands.
- `removeTrustedDevelopmentCertificate`, which deletes the current file and its set.
- Reuse checks of cached certificates (dates, names, key match): their outcome is an input.
- Whether `#responseCommitted` holds only live identifiers: `handleConnectionEnd` drops sessions without clearing it, so it does not.
- That `transport.end` is called once: both `close` and `#receiveClose` can reach it.
- Datagrams, diagnostics, error reporting, and the manifest checks that precede the import transaction.
- The HTTP/1.1 and HTTP/2 server's own socket bookkeeping.
