# DirectIP and modem: a verified model

This project models the parts of the Iridium SBD library that decide what happens to a message: the transmitter
with its job queue, the reader that reassembles an incoming message, the codec of information elements they share,
and the checksum and status line of the modem.

How the files are layered:

- `BigEndian`, `Elements`, `Codec`, `Messages`: the wire format. What `packInto` writes and what `unpack` makes of bytes
  are functions; the laws that connect them are lemmas, and `Layout` says the same in the numbers of the format alone,
  byte by byte. `ElementObjects` and `MessageObjects` hold the objects whose fields these operations change, each method
  proved against the functions.
- `IncomingSession`, `SessionObject`: the incremental reader, the one-shot decoder it is measured against, and the
  session object.
- `Transmission`: the transmitter as a state machine, one function for each atomic step of the worker, of the completion
  handlers and of the threads that post, drop, start and stop. `Ledger` forgets everything but where each message is and
  what went over the wire. `TransmitterSteps` says what a step can do, `TransmitterRuns` what every reachable state
  satisfies; `TransmitterTheorems`, `TransmitterSessions`, `TransmitterReplies` and `TransmitterExchanges` draw the
  conclusions for whole runs, for the end of sessions, for the replies of the server and for sessions one after the
  other, and `TransmitterLife` for starts, stops, drops and what each outcome of an operation decides.
  `TransmitterLimits` says where the promises end: when the wire carries messages nobody posted, and a run for each
  failure. `JobQueue` and `Transmitter` hold the objects; every method of `SbdTransmitter` keeps the invariant of the
  reachable states and takes the state where the state machine says.
- `Decimals`, `ModemFrame`, `StatusLine`: the modem.

Choices a reader should know:

- A run is a list of events, and a theorem about runs speaks of all lists in which each event can happen when it
  does. Failures, retries, posts and worker turns interleave in any way. An event can happen under these
  conditions (`Transmission.Enabled`): a worker step needs the worker at that point; a completion needs its operation
  outstanding; an operation is aborted only after a stop; handlers outstanding at a stop run before the next start;
  the read of a reply's header delivers at least its three bytes, any further read at least one. The worker may still
  begin one session after a stop request, because it looks at the request before it waits.
- A queue entry is a handle on a posted message, because copies of a message share their elements, or the
  `Placeholder`: the empty message `get` returns when the queue is empty, which the transmitter sends, and puts back
  on failure, like any other.
- Payload `unpack` compares the bytes available with the declared length only, two bytes short of what it then reads
  (src/IEMoPayload.cpp:13, src/IEMtPayload.cpp:13). The model keeps the guard as written and calls the outcome
  `Unspecified` where the copy would leave the buffer. A location element that passes its checks is `Unspecified` too.
  These outcomes travel through `parse` and the session as `Undetermined` and `LeftOpen`; no theorem excludes them by
  assumption, and `Codec.OpenExactly` says when they occur.
- The size handed to `unpack` is truncated to 16 bits (src/Codec.cpp:143), and a payload's size is stored in 16 bits
  before it is compared with the maximum (src/IEMoPayload.cpp:24). Both are modelled; the round trip therefore has a
  condition, which every message a length field can describe meets.
- One class stands for the hierarchy of element classes, the element's id selecting the override; one loop stands for
  the two identical loops of the `parse` overloads.
- Where code and comments differ, the model follows the code. A failed message returns to the front of the queue
  (include/iridium/SbdTransmitter.hpp:23-24), but one that is in flight when a stop is requested does not: the next
  worker gives up this one and no other (`TransmitterTheorems.StopLosesExactly`, and `LossesExactly` over whole runs;
  `TransmitterLimits.StopLosesOne` is an instance). That `wait_for` does not time out (include/iridium/JobUnitQueue.hpp:65)
  does not mean that there is a job (`TransmitterLimits.SpuriousWake`): `TransmitterLimits.OnlyPostedExactly` says when a
  run sends posted messages only, `SessionSendsEmptyExactly` when a session does not, `OnlyPosted` what callers have to
  ensure, and `EmptyMessageBlocks` what an empty message does to those behind it. The checksum is the sum of all bytes
  only where `char` is unsigned or the bytes from 0x80 on come in multiples of 256 (`ModemFrame.SignedSum`).
- The reader and the decoder of an incoming session take pieces of any size; the pieces the session asks for, at most
  `MaxMessageSize` bytes and three more in the first read (src/IncomingSbdSession.cpp:24, src/IncomingSbdSession.cpp:74),
  are those of `IncomingSession.Receivable`.
- The signedness of `char` is a parameter of the checksum.

## Model

The rows state, in this order, what holds of whole runs and sessions of the transmitter; of the incoming session; of
the wire format and the modem; the steps and invariants the first group rests on; and then what each object's methods do.

| member | source | states |
|---|---|---|
| TransmitterTheorems.FifoConservation | src/SbdTransmitter.cpp:132-375 | without stop and drop, confirmed, in flight and queued are together exactly the messages posted, in their order |
| TransmitterTheorems.FifoExactly | include/iridium/SbdTransmitter.hpp:23-24 | confirmed, in flight and queued are all the messages posted, in their order, if and only if no posted message was dropped from the queue and none given up after a stop |
| TransmitterTheorems.Conservation | src/SbdTransmitter.cpp:36-105 | with drops and restarts, every message is in exactly one place, the order is kept, each stop loses at most one message, and what is lost or held over is what was in flight at the stops, in order |
| TransmitterTheorems.LossesExactly | src/SbdTransmitter.cpp:47-87 | over any run, the jobs lost and the one held over since the last stop are exactly those that were in flight when a worker at work was asked to stop |
| TransmitterTheorems.StopLosesExactly | src/SbdTransmitter.cpp:47-87 | whatever happens after a stop request, the next begin of a worker gives up exactly what was in flight at the request; so a stop loses a job exactly in the phases from sending to receiving, and a posted message exactly if that job is one |
| TransmitterLimits.StopLosesOne | src/SbdTransmitter.cpp:47-105 | a run in which a stop loses the message being sent |
| TransmitterTheorems.WireLog | src/SbdTransmitter.cpp:192-222 | frames go out in posting order with all attempts of a message adjacent and byte-identical, an answer follows its frame, and an accepted message never appears again |
| TransmitterTheorems.FactoryOnTheWire | src/Codec.cpp:37-74 | in every run, every frame sent for a message `factory` built, at each attempt, has bounded size and an exact length field, is an MT message and parses back to the caller's values with the priority clamped |
| TransmitterTheorems.NoneSkipped | src/SbdTransmitter.cpp:192-222 | without stop and drop no message is sent before all earlier ones are accepted |
| TransmitterLife.StopEnds | src/SbdTransmitter.cpp:47-105 | whatever happens after a stop request short of a new start, the worker can act until it has ended and makes at most three steps more, and then nothing runs and the service is not kept alive |
| TransmitterLife.StartServes | src/SbdTransmitter.cpp:36-45 | a start, the first or one after a stop, makes a worker that can begin, whatever is posted before, and is then between sessions, not told to stop, with the smallest delay and everything still queued |
| TransmitterLife.Idle | src/SbdTransmitter.cpp:36-49 | a start of a running transmitter and a stop of one that does not run change nothing |
| TransmitterLife.DropIsFinal | include/iridium/JobUnitQueue.hpp:88-93 | a message that was queued at a drop is never queued, in flight or confirmed again |
| TransmitterLife.DropEmpties | include/iridium/JobUnitQueue.hpp:88-93 | a drop empties the queue and touches nothing else |
| TransmitterLife.OutcomeDecides | src/SbdTransmitter.cpp:148-365 | what each completion does in every reachable state, outcome by outcome: nothing after a stop, the next operation on success, the error phase with its previous state, the job put back and a wait of 100 ms times the delay factor on any failure, the end of the session on an accepting answer, and the doubled factor after the delay |
| TransmitterLife.EveryOutcomeCanHappen | src/SbdTransmitter.cpp:148-365 | in a session that was not told to stop the operation of the phase can succeed and can fail; posts, drops and stops are always possible |
| TransmitterLife.BackoffByEvents | src/SbdTransmitter.cpp:83-87 | the delay factor, computed from the failures since the last begin of the worker or confirmation: 1, 2, 4, 8, 16, 32 and then 64 |
| TransmitterLimits.OnlyPostedExactly | src/SbdTransmitter.cpp:173-202 | a run puts only posted messages on the wire if and only if the transmitter never connects to find its queue empty; all jobs due are then posted messages too |
| TransmitterLimits.OnlyPosted | src/SbdTransmitter.cpp:88-97 | without drops, if the queue holds a job whenever a wait ends without a time-out, all jobs due and all frames and answers are those of posted messages |
| TransmitterLimits.SessionSendsEmptyExactly | include/iridium/JobUnitQueue.hpp:36-47 | a session sends an empty message exactly if the posts and drops since its begin leave the queue empty, or with an empty message in front, when it connects; without drops, exactly if the queue at its begin was empty and nothing was posted in time, or had an empty message in front |
| TransmitterLimits.EmptyMessageBlocks | src/SbdTransmitter.cpp:355-356 | while an empty message is first in line, no posted message is sent and nothing is confirmed until an answer accepts it, a drop clears the queue or a new worker gives it up |
| TransmitterLimits.SpuriousWake | include/iridium/JobUnitQueue.hpp:67-72 | a run in which a wait that ends without a job makes the transmitter send an empty message |
| TransmitterTheorems.OneHandler | src/SbdTransmitter.cpp:148-365 | a handler always finds its own phase, so the phase tests never fail, and does one of five things: nothing after a stop, the next operation, a failure that puts the job back and adds one wait, the end of the session with the job confirmed and the backoff reset, or the end of the delay |
| TransmitterTheorems.PhasesWithoutStop | src/SbdTransmitter.cpp:132-375 | one outstanding handler in each waiting phase, none between sessions, and the service kept alive exactly during sessions |
| TransmitterTheorems.ErrorReturnsTheJob | src/SbdTransmitter.cpp:355-356 | the comparison with `eSending` holds on an error exactly if a job was taken and not confirmed, and that job goes back to the front |
| TransmitterSessions.CompletionDecreases | src/SbdTransmitter.cpp:132-375 | each completion brings the session nearer to its end, counting phases and missing bytes |
| TransmitterSessions.SessionEnds | src/SbdTransmitter.cpp:132-375 | every session ends after a bounded number of completions and never runs out of completions before |
| TransmitterSessions.Backoff | src/SbdTransmitter.cpp:355-366 | the delay factor is a power of two up to 64, each wait in a row of failures is the doubled one before it up to 6400 ms, and the waits have a closed sum |
| TransmitterReplies.ReplyIsConfirmation | src/SbdTransmitter.cpp:241-341 | which replies carry a status, and which status |
| TransmitterReplies.ReplyLooksAt | src/SbdTransmitter.cpp:241-304 | a reply is judged by its header and the bytes it declares |
| TransmitterReplies.ReadDecides | src/SbdTransmitter.cpp:223-297 | a read decides the session exactly when the reply is complete |
| TransmitterReplies.ReceptionIsChunkIndependent | src/SbdTransmitter.cpp:223-354 | however the reply is cut after its header, the session ends as its bytes say |
| TransmitterExchanges.SessionOutcome | src/SbdTransmitter.cpp:141-354 | every session without stop, drop and network errors, with posts at any time and the reply cut anywhere after its header, sends the first message once and confirms it exactly if the status is not negative, puts it back in front otherwise, and goes on as long as the reply is incomplete |
| TransmitterExchanges.QueueIsServed | src/SbdTransmitter.cpp:83-105 | between sessions with a queued message, whatever is posted and however the waits end, the worker can always act and begins a session after at most two other turns |
| TransmitterExchanges.FirstMessageConfirmed | src/SbdTransmitter.cpp:36-354 | from post and start to the confirmation of the first message, with exactly one frame and one answer on the wire |
| TransmitterExchanges.QueueIsConfirmed | src/SbdTransmitter.cpp:36-354 | n accepting sessions in a row, with posts at any time, confirm the first n jobs of the queue in order, with one frame and one answer on the wire for each; the posts join the end |
| TransmitterExchanges.QueueIsWorkedOff | src/SbdTransmitter.cpp:83-354 | from every reachable state in which the worker has found a job, n accepting replies can be received and confirm the first n jobs of the queue |
| IncomingSession.ReassemblyRefinesDecode | src/IncomingSbdSession.cpp:32-128 | unless the stream starts with an empty frame, at each moment the session says exactly what the decoder says of the bytes so far |
| IncomingSession.CutsAreInvisible | src/IncomingSbdSession.cpp:21-80 | every cut of a stream, with pieces of any size, gets the decoder's answer if no complete header with a wrong protocol, or with declared bytes that are all there, stands behind one or more headers that declare no bytes; all cuts into pieces the session asks for get it if and only if no such header stands behind k >= 1 empty ones in a stream of at most `MaxMessageSize` * k + 3 bytes |
| IncomingSession.DecodedExactly | src/IncomingSbdSession.cpp:46-84 | a stream has a verdict exactly if, after headers that declare no bytes, if any, it has a complete header that has a wrong protocol or declares bytes that are all there |
| IncomingSession.EmptyFrameLags | src/IncomingSbdSession.cpp:46-80 | an empty frame and what follows it, read in one piece and in two, with different results |
| IncomingSession.VerdictIsDecoded | src/IncomingSbdSession.cpp:32-128 | for every stream and every cut, a verdict is that of the one-shot decoder |
| IncomingSession.DecodeLooksAt | src/IncomingSbdSession.cpp:46-84 | the decoder needs the header and the bytes it declares, and looks at nothing else |
| IncomingSession.DeliveredExactly | src/IncomingSbdSession.cpp:81-119 | a body is delivered as a list of elements exactly if it is the packing of that list and the list is one a peer may send |
| IncomingSession.EndToEnd | src/IncomingSbdSession.cpp:32-128 | packed, framed and cut anywhere, a message arrives as exactly the elements sent |
| IncomingSession.JudgedExactly | src/IncomingSbdSession.cpp:81-114 | which verdict a complete body gets: its category if that is not MO, else the exception or the elements of `parse` |
| SessionObject.MessageHeard | src/IncomingSbdSession.cpp:115-127 | over every cut of a frame a peer may send, the receiver is told exactly the message, once |
| SessionObject.ReceiverHears | src/IncomingSbdSession.cpp:32-128 | over every cut of a stream the receiver hears nothing without a verdict, one error with its cause for a bad message, and for a good one the message, then a notice exactly if bytes are left over |
| SessionObject.TrailingBytes | src/IncomingSbdSession.cpp:115-126 | what is left over is everything read with the last piece of the message, less the header and the bytes it declares |
| Codec.CategoryOfParsed | src/Codec.cpp:76-125 | the category of a message that parses is the common class of its elements |
| Codec.RoundTrip | src/Codec.cpp:127-152 | parsing the packing of any list of in-range elements returns that list if the 16-bit sizes fit at each element, and is refused otherwise |
| Codec.ShortFits | src/Codec.cpp:143 | the sizes fit for every list of up to 65536 bytes |
| Codec.LongListRejected | src/Codec.cpp:143-149 | a list of 2115 headers that does not survive the round trip |
| Codec.PackAllInjective | src/Message.cpp:91-95 | no two lists of in-range elements have the same bytes |
| Codec.Canonical | src/Codec.cpp:127-152 | re-packing what was parsed reproduces the input |
| Codec.CanonicalMo | src/Codec.cpp:127-176 | a body accepted as a mobile-originated message re-packs to itself and has a header and a payload |
| Codec.WalksAgree | src/Codec.cpp:76-152 | the parse loop meets the elements the category loop meets, at the same offsets, as far as it gets; a successful parse meets them all |
| Codec.OpenExactly | src/Codec.cpp:132-152 | the outcome of `parse` is left open exactly if the loop meets a payload element whose declared length leaves 0 or 1 of the bytes after its id over, or a location element with length field 11 and room for it |
| Codec.FailureExactly | src/Codec.cpp:127-213 | which exception `parse` throws: that of the element at which the loop stops, unknown or refused, and after the loop that of the missing element, the header before the payload |
| Codec.StatusOfFirst | src/Message.cpp:140-149 | the status is that of the first confirmation element, and -32767 without one |
| Layout.CategoryLayout | src/Codec.cpp:76-125 | the category of a message from its bytes: the class that the ids of all its blocks share, one that is cut off included |
| Layout.AllAreLaid | src/Codec.cpp:79-124 | every message is a row of blocks and at its end perhaps one that is cut off |
| Codec.ConfirmationAccepted | src/Codec.cpp:178-213 | category and parse accept a confirmation exactly if it is a row of 28-byte blocks starting 44 00 19; the status is the signed value of bytes 26 and 27; nothing is left open |
| Codec.ShortBlock | src/SbdTransmitter.cpp:303-321 | for a length that fits 16 bits a block is only its place and its three first bytes |
| Elements.UnpackPacked | src/IEMoHeader.cpp:7-55 | whatever follows it, a packed element is unpacked to itself, field by field, and its exact extent, if and only if the size announced covers it |
| Elements.PackUnpacked | src/IEMoPayload.cpp:7-33 | an in-range element that was unpacked packs to exactly the bytes consumed |
| Elements.UnpackedShape | src/Codec.cpp:136-151 | an element accepted carries the id it was looked up by and consumes its length field and what that declares |
| Elements.PayloadGuard | src/IEMtPayload.cpp:9-18 | the payload guard lets the copy leave the buffer exactly if size minus length is 0 or 1 |
| Elements.PayloadGuardGap | src/IEMoPayload.cpp:12-13 | an instance of that gap for each payload element |
| Elements.PackAgain | src/IEMtPriority.cpp:20-31 | packing again after the in-place clamp or truncation gives the same bytes and changes nothing more |
| Elements.LengthFieldExact | src/IEMoPayload.cpp:24-32 | the length field counts the content exactly unless a payload of 65536 bytes or more looks small in 16 bits |
| Layout.IdsOfFormat | include/iridium/InformationElement.hpp:24-45 | the eight ids and the class each id makes, in numbers |
| Layout.KindOfId | src/Codec.cpp:215-246 | the kind of element of each id |
| Layout.PackedLayout | src/IEMoHeader.cpp:36-55 | the packing of every kind of element byte by byte: prefix, position of every field, the limits 1960 and 1890, priorities 1 to 5 kept and all others 5 |
| Layout.PackedContent | src/IEMtPriority.cpp:20-31 | what packing leaves in an element, in numbers |
| Layout.AcceptedFixed | src/IEMoHeader.cpp:9-13 | which elements of fixed length are accepted: exactly those with enough bytes announced and the length in their first two bytes |
| Layout.FieldsRead | src/IEMoHeader.cpp:14-34 | where each field of an accepted element is read |
| Layout.AcceptedPayload | src/IEMoPayload.cpp:7-20 | which payloads are accepted, refused or left open: lengths 1 to 1960 and 1 to 1890 |
| Layout.AcceptedLocation | src/IEMoLocationInfo.cpp:7-13 | which location elements pass the two checks |
| Messages.FrameLength | src/Message.cpp:84-101 | the length field of a frame equals the number of bytes after the frame header |
| Layout.FrameLayout | src/Message.cpp:84-101 | a frame is the byte 1, the number of bytes that follow in 16 bits, and the elements |
| Messages.SerializeAgain | src/Message.cpp:84-101 | serializing a message again after its elements were normalized gives identical bytes |
| Messages.FactoryAccepts | src/Codec.cpp:37-49 | which arguments are accepted: fifteen digits and 1 to 1890 bytes; and the error otherwise, in the order of the checks |
| Messages.FactoryFrame | src/Codec.cpp:37-74 | every message built is at most 3 + `MaxMessageSize` bytes long, has an exact length field, is an MT message, and parses back to the caller's values with the priority clamped |
| ModemFrame.FrameAccepted | src/Modem.cpp:444-486 | a frame is accepted exactly if it is empty or its checksum is that of its payload, and yields the payload |
| ModemFrame.IncompleteFrame | src/Modem.cpp:444-476 | which error an incomplete frame leads to |
| ModemFrame.FrameBytes | src/Modem.cpp:380-403 | the frame byte by byte |
| ModemFrame.FrameRoundTrip | src/Modem.cpp:376-491 | reading inverts writing for up to 65535 bytes |
| ModemFrame.AlteredByteRejected | src/Modem.cpp:477-486 | one altered byte of the payload is always noticed |
| ModemFrame.SumOfConcat | src/Modem.cpp:376-378 | the sum of a concatenation is the sum of the sums |
| ModemFrame.SumOfOne | src/Modem.cpp:376-378 | the sum of one byte is its value as a `char` |
| ModemFrame.ChecksumOfHello | src/Modem.cpp:376-382 | the checksum of `hello` goes out as 02 14 |
| ModemFrame.SignedSum | src/Modem.cpp:376-382 | signed chars lower the sum by 256 for each byte from 0x80 on, so both checksums agree exactly if the number of those bytes is a multiple of 256 |
| Decimals.DecimalIsNumeral | src/Modem.cpp:384 | the printed numeral of a number reads back as that number |
| Decimals.DecimalText | src/Modem.cpp:384 | no leading zeros, and the ten digits with their values |
| StatusLine.StatusRoundTrip | src/Modem.cpp:515-584 | the six values of a status line come back, after any text without an earlier tag |
| StatusLine.StatusByFields | src/Modem.cpp:515-584 | for six texts as fields, the six values if all are in range, else the exception of the first that is not: a bad status, or a number that is too big for its 8 bits |
| StatusLine.WithoutTag | src/Modem.cpp:515-517 | a line without the tag is a bad status |
| TransmitterSteps.CompletionEffect | src/SbdTransmitter.cpp:132-375 | a completion finds the machine in its own phase and halts it after a stop, advances it, fails it with the job put back, ends it with the job confirmed, or ends the delay |
| TransmitterRuns.StepIsMove | src/SbdTransmitter.cpp:132-375 | every step adds, takes, puts back, rejects, confirms, drops or gives up a job, or moves none |
| TransmitterRuns.FrameOfJob | src/SbdTransmitter.cpp:192-202 | the frame of a posted message is that of its elements, any other job goes out as the bytes 01 00 00 |
| TransmitterRuns.Reachable | src/SbdTransmitter.cpp:14-375 | the invariant of every run |
| Ledger.AccountedKept | src/SbdTransmitter.cpp:192-200 | each move keeps every message in exactly one place and the order of those still due |
| Ledger.OrderlyKept | src/SbdTransmitter.cpp:192-222 | each move keeps the wire log in order |
| Codec.MessageCategory | src/Codec.cpp:76-125 | the loop finds the one class that all elements of the length walk have, and otherwise, or on an empty walk, none |
| ElementObjects.ByteVector.PushAll | src/IEMoHeader.cpp:40-54 | the push loops append the bytes in order |
| ElementObjects.InformationElement.constructor | src/InformationElement.cpp:7-11 | a new element has its id, length 0 and the defaults of its content |
| ElementObjects.NewElement | include/iridium/IEMtPriority.hpp:13 | the content of a new element of each id, and the size from which `unpack` stores the length it reads |
| ElementObjects.InformationElement.PackPrefix | src/InformationElement.cpp:24-36 | appends id and length |
| ElementObjects.InformationElement.Unpack | include/iridium/InformationElement.hpp:64 | the virtual call: fields, length and result after accepting or refusing |
| ElementObjects.InformationElement.UnpackMoHeader | src/IEMoHeader.cpp:7-34 | fields, length and result after accepting or refusing |
| ElementObjects.InformationElement.UnpackPayload | src/IEMoPayload.cpp:7-20 | payload, length and result after accepting or refusing |
| ElementObjects.InformationElement.UnpackMoLocation | src/IEMoLocationInfo.cpp:7-13 | the two checks in front of the copies |
| ElementObjects.InformationElement.UnpackMoConfirmation | src/IEMoConfirmation.cpp:7-18 | status, length and result after accepting or refusing |
| ElementObjects.InformationElement.UnpackMtHeader | src/IEMtHeader.cpp:7-26 | fields, length and result after accepting or refusing |
| ElementObjects.InformationElement.UnpackMtConfirmation | src/IEMtConfirmationMsg.cpp:7-32 | fields, length and result after accepting or refusing |
| ElementObjects.InformationElement.UnpackMtPriority | src/IEMtPriority.cpp:7-18 | priority, length and result after accepting or refusing |
| ElementObjects.InformationElement.PackInto | include/iridium/InformationElement.hpp:72 | the virtual call: bytes appended, content normalized, length set |
| ElementObjects.InformationElement.PackMoHeader | src/IEMoHeader.cpp:36-55 | bytes appended, content kept, length set |
| ElementObjects.InformationElement.PackMoPayload | src/IEMoPayload.cpp:22-33 | bytes appended, payload truncated in place, length set |
| ElementObjects.InformationElement.PackMoConfirmation | src/IEMoConfirmation.cpp:20-25 | bytes appended, content kept, length set |
| ElementObjects.InformationElement.PackMtHeader | src/IEMtHeader.cpp:28-41 | bytes appended, content kept, length set |
| ElementObjects.InformationElement.PackMtPayload | src/IEMtPayload.cpp:20-31 | bytes appended, payload truncated in place, length set |
| ElementObjects.InformationElement.PackMtConfirmation | src/IEMtConfirmationMsg.cpp:34-50 | bytes appended, content kept, length set |
| ElementObjects.InformationElement.PackMtPriority | src/IEMtPriority.cpp:20-31 | bytes appended, priority clamped in place, length set |
| MessageObjects.Message.ParseElements | src/Codec.cpp:129-152 | the loop fills the message with fresh elements holding what `parse` finds, and empties it on an exception |
| MessageObjects.Message.Has | src/Codec.cpp:153-164 | the search finds an element of the given id exactly if there is one |
| MessageObjects.Message.ParseMoMessage | src/Codec.cpp:127-176 | elements or exception of a mobile-originated message, in the order of the checks |
| MessageObjects.Message.ParseConfirmMessage | src/Codec.cpp:178-213 | elements or exception of a confirmation |
| MessageObjects.Message.Status | src/Message.cpp:140-149 | the status of the first confirmation, or -32767 |
| MessageObjects.Message.PackElements | src/Message.cpp:91-95 | all elements packed and normalized in place, their lengths summed up with 16-bit wrap |
| MessageObjects.Message.Serialize | src/Message.cpp:84-101 | returns the frame and leaves the elements normalized |
| MessageObjects.Message.CheckArguments | src/Codec.cpp:41-48 | which arguments are refused, and with which error |
| MessageObjects.Message.FillFromFactory | src/Codec.cpp:37-74 | an error and an unchanged message, or three fresh elements with the caller's values |
| SessionObject.IncomingSbdSession.constructor | src/IncomingSbdSession.cpp:12-30 | a new session has read nothing and waits for bytes |
| SessionObject.IncomingSbdSession.OnRead | src/IncomingSbdSession.cpp:32-128 | buffer, length and verdict after each completion; a receiver that exists is told the message and then of bytes left over, or one error with its cause, or nothing while the session waits, and nothing is signalled without a receiver; a read error ends the session |
| SessionObject.Examine | src/IncomingSbdSession.cpp:81-114 | the verdict on a complete body |
| JobQueue.JobUnitQueue.Put | include/iridium/JobUnitQueue.hpp:21-26 | a job joins at the end |
| JobQueue.JobUnitQueue.Get | include/iridium/JobUnitQueue.hpp:36-47 | the first job leaves, or the empty job is returned |
| JobQueue.JobUnitQueue.Unget | include/iridium/JobUnitQueue.hpp:54-59 | a job goes to the front |
| JobQueue.JobUnitQueue.MustWait | include/iridium/JobUnitQueue.hpp:67-72 | a queue with a job is not waited for |
| JobQueue.JobUnitQueue.Clear | include/iridium/JobUnitQueue.hpp:88-93 | nothing is left |
| Transmitter.SbdTransmitter.constructor | src/SbdTransmitter.cpp:14-29 | the initial state |
| Transmitter.SbdTransmitter.StateMachine | src/SbdTransmitter.cpp:132-375 | acts on the phase entered; its recursion through the phases that do not wait is bounded |
| Transmitter.SbdTransmitter.Enter | src/SbdTransmitter.cpp:160-162 | records the previous phase, sets the new one and acts on it |
| Transmitter.SbdTransmitter.EnteringSending | src/SbdTransmitter.cpp:192-202 | takes a job, frames it and starts to write |
| Transmitter.SbdTransmitter.EnteringReceivingConfirmation | src/SbdTransmitter.cpp:267-297 | reads on while the confirmation is incomplete |
| Transmitter.SbdTransmitter.EnteringProcessing | src/SbdTransmitter.cpp:298-354 | accepts, rejects or confirms, with at least the declared bytes in the buffer |
| Transmitter.SbdTransmitter.EnteringError | src/SbdTransmitter.cpp:355-366 | puts the job back and starts the delay |
| Transmitter.ReadConfirmation | src/SbdTransmitter.cpp:303-334 | category, parse and status of a confirmation |
| Transmitter.SbdTransmitter.Post | src/SbdTransmitter.cpp:77-81 | the step of a post |
| Transmitter.SbdTransmitter.DropMessages | include/iridium/SbdTransmitter.hpp:54 | the step of a drop |
| Transmitter.SbdTransmitter.Start | src/SbdTransmitter.cpp:36-45 | the step of a start |
| Transmitter.SbdTransmitter.Stop | src/SbdTransmitter.cpp:47-75 | the step of a stop request |
| Transmitter.SbdTransmitter.BeginWorker | src/SbdTransmitter.cpp:85-87 | the worker's first step, which gives up a message still held |
| Transmitter.SbdTransmitter.CheckWorker | src/SbdTransmitter.cpp:88-104 | one turn of the worker's loop up to its wait |
| Transmitter.SbdTransmitter.WakeWorker | src/SbdTransmitter.cpp:92-93 | the end of the wait |
| Transmitter.SbdTransmitter.KickWorker | src/SbdTransmitter.cpp:94-96 | the begin of a session |
| Transmitter.SbdTransmitter.HandleResolved | src/SbdTransmitter.cpp:149-169 | the step of the resolve handler |
| Transmitter.SbdTransmitter.HandleConnected | src/SbdTransmitter.cpp:173-190 | the step of the connect handler |
| Transmitter.SbdTransmitter.HandleWritten | src/SbdTransmitter.cpp:203-221 | the step of the write handler |
| Transmitter.SbdTransmitter.HandleHeader | src/SbdTransmitter.cpp:228-265 | the step of the header handler |
| Transmitter.SbdTransmitter.HandleConfirmation | src/SbdTransmitter.cpp:272-289 | the step of the confirmation handler |
| Transmitter.SbdTransmitter.HandleTimer | src/SbdTransmitter.cpp:359-365 | the step of the timer handler |
| ModemFrame.Checksum | src/Modem.cpp:376-382 | the wrapping 32-bit accumulator ends with the sum of the chars modulo 65536 |
| ModemFrame.Modem.WriteMessage | src/Modem.cpp:367-403 | what is sent for an accepted length, and nothing for another |
| ModemFrame.Modem.ReadMessage | src/Modem.cpp:428-486 | payload or error of a read; an error leaves the payload empty |
| StatusLine.FieldRead | src/Modem.cpp:519-531 | what a field up to its separator says: a number in range, or which of the two faults |
| StatusLine.WalkStatus | src/Modem.cpp:515-584 | the walk over the commas, with the exception each field can lead to |
| JobQueue.JobUnitQueue.Size | include/iridium/JobUnitQueue.hpp:95-100 | the number of jobs waiting |

## Left out

- Transmitter.SbdTransmitter.EnteringSending: keeps the elements of posted messages as values; that `serialize` changes shared element objects in place is proved apart, in MessageObjects.Message.Serialize.
- ElementObjects.InformationElement.UnpackMoLocation: does not say what an accepted location element holds, because its flags are a bit-field of `unsigned int` whose size and layout are the compiler's; its packing is left out for the same reason.
- Elements.UnpackPacked: does not interpret the flags of an unpacked MT header, because packing swaps their bytes and unpacking copies them.
- StatusLine.WalkStatus: reads digit strings only, because signs and other forms are a matter of `lexical_cast`; a line without a separator ends as `Runaway`.
- ModemFrame.Modem.WriteMessage: does not model the port's write errors and the result code the modem answers with.
- ModemFrame.Modem.ReadMessage: the echo before the frame and the `OK` after it are not part of this model.
- ElementObjects.InformationElement.UnpackPayload: does not say what is read when the copy leaves the buffer; the result is then left open.
- JobQueue.JobUnitQueue.MustWait: is the test in front of the wait; how long the wait lasts and what ends it is an event of the state machine.
- TransmitterReplies.ReceptionIsChunkIndependent: takes the header to arrive in one read, because the handler copies three bytes however many were read.
- Transmitter.SbdTransmitter.HandleHeader: takes a read of at least three bytes, for the same reason.
- Transmitter.SbdTransmitter.EnteringProcessing: the texts of the error signal and the notice about trailing bytes are absent, because they change no state.
- Transmitter.SbdTransmitter.EnteringError: closing the socket is absent, because whether a descriptor is open is not part of this model.
- Transmitter.SbdTransmitter.Start: assumes that the handlers outstanding at the last stop have run, because a handler of an earlier worker could otherwise act in a later session.
- Transmitter.SbdTransmitter.Stop: is the request alone; the handlers it cancels and the worker it waits for take their own later steps.
- Sockets, resolver, acceptor, serial port, timers and `read_until_timeout`: library behaviour, present only as completions.
- `closeSocket` and whether a descriptor is open: depends on the networking library.
- Data races on the phase and the stop request: every handler and worker action is one step.
- Progress across sessions: whether a message is ever accepted depends on the peer; `TransmitterLimits.EmptyMessageBlocks` says what does not happen before.
- Whether a confirmation belongs to the message sent: the code does not compare their ids.
- `SbdReceiver`, the examples, error texts, `categoryStr` and the stream operators: plumbing and display.
- Stored iterators and the accessors `imei` and `payload`: a message is its list of elements.
- The other modem queries: they add only easy members.
