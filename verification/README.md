# Verification of the Circle threading layer, MQTT client and HTTP client

This project models three parts of the Circle network and threading libraries in
Dafny and proves what they promise.

**Threading on a cooperative scheduler** (`Semaphore`, `Mutex`, `Condvar`,
`SyncSystem`, `SyncProofs`, `SyncTheorems`, `SyncCalls`, `JoinHandles`, `ExecuteOnce`,
`ThreadExit`). The classes are the code between two points at which a scheduler
may switch. A transition system runs these stretches for any number of tasks, mutexes
and condition variables in any order. A timeout is two steps, woken and resumed, so
that a signal can land in between.

**MQTT 3.1.1 client** (`Bytes`, `RemainingLength`, `Frames`, `ReceivePacket`,
`Streams`, `Framing`, `Overflow`, `SendPacket`, `PublishRoundTrip`, `Ticks`,
`RetransmissionQueue`, `QueueOrder`, `PacketIdentifiers`, `ClientQueue`,
`ClientStatus`, `SenderPass`, `Deliveries`, `MqttClient`, `ClientRuns`,
`PacketObjects`, `PacketBytes`, `PacketEffects`, `QoS2`, `QoS2Protocol`, `QoS2Refinement`, `QoS2System`). The buffer
objects and the client are classes with the fields of the source; each method is proved
against functions on their values. The chain of results is: bytes in any segments, packets of the stream, callbacks of the
application; and: a run of two clients with the retransmission queue of one and the
store and callbacks of the other is a run of the QoS 2 protocol, so each publication
reaches the application once, as it was published (`PublicationsReachTheApplicationOnce`).

**HTTP response decoder** (`CText`, `HttpDecoder`, `HttpResponses`,
`HttpFirstLines`, `HttpReceivedLines`, `HttpBlankHeaders`, `HttpReference`,
`HttpClient`). The receive loop of `Request` with its line buffer, byte by byte, and the
chunked transfer coding of section 4.1 of RFC 7230. A second decoder reads a response
line by line and chunk by chunk; both give the same for every response
(`DecodeIsResponse`).

Where the code fails a promise of its own, of the standard or of a comment, the model
follows the code, a result gives an input, and another says exactly when it happens:

- The time to the deadline of a timed wait is cast to 32 bits
  (`SleepReachesDeadlineIff`, `FarDeadlineWakesEarly`).
- `Publish` appends an identifier at QoS 0 as well, which the receiver takes for the
  front of the payload (`PublishRoundTripIff`, `IdentifierTakenForPayload`).
- Of a SUBACK for several topic filters only three body bytes are consumed
  (`PacketDroppedWholeIff`, `LongSubAckLeavesAByte`).
- A received PUBLISH above QoS 0 whose topic leaves no room for the identifier makes
  an assertion in `GetWord` fail (`AssertionInGetWordIff`, `PublishWithoutIdentifier`).
- Packets that arrive in a flood can close the connection, whatever the size of the
  buffer and of the segments (`FloodCloses`, `FloodClosesIff`): exactly if at some
  segment more bytes have arrived than the room and the packets handled by one poll each
  take (`OverflowIff`). With packets and segments that fit, taken in one segment at a
  time, that does not happen (`DrainedRunStaysOpen`).
- The signed comparison of ticks is wrong at some distances: those less than a counter
  period that are not within half of one, and their like modulo the period
  (`AfterIsLaterIff`, `LaterReadAsEarlier`, `RightAgainAfterAPeriod`).
- A refused HTTP response is reported as success, without content, if the deciding
  token of its first line, of whatever bytes that is made, is a number that is 200 on
  32 bits (`SuccessWithoutContentIff`, on the token `StatusIs200Iff`;
  inputs `PaddedCodeIsSuccess`, `SignedCodeIsSuccess`, `BareCodeIsSuccess`).
- A first line of slashes only, or with the protocol HTTP and fewer than two words
  behind it, makes `Request` pass a null pointer to strtoul (`NullTokenIff`,
  `VersionAloneIsNull`), which is an outcome of its own in the model. Other lines with
  fewer than three tokens do not (`FooIsInvalid`).
- A response that begins with an empty line is not checked at all: exactly if nothing but
  carriage returns stands in front of its first line feed (`UncheckedIff`), and what
  follows is then its content (`UncheckedIsContent`; input `NoFirstLine`).
- A chunk header line without characters acts as a line with the string that `Line`
  held before, at any place (`BlankHeaderRepeats`); behind a chunk that is the header
  of the chunk (`BlankHeaderBehindChunk`, `HelloWorld`).
- A chunk header line with a chunk extension, which section 4.1.1 of RFC 7230 asks a
  recipient to ignore, ends the response as any line that is not a number
  (`ExtensionIsNoSize`, `BrokenHeaderLine`).

Parameters of the model that the source takes from its platform: the tick rate, the
size of a network frame, ULONG_MAX, and the outcome of every send and receive. Ticks
pass by any amount at every reading of the clock.

`dafny verify dfyconfig.toml` checks the project.

## Model

| member | source | states |
|---|---|---|
| Mutexes.NonRecursiveMutexImpl.AcquireEnter | libs/libcxx-threading/src/mutex_impl.h:42-50 | up to the wait: a free mutex is taken, otherwise the caller is counted as a waiter |
| Mutexes.NonRecursiveMutexImpl.TryAcquire | libs/libcxx-threading/src/mutex_impl.h:53-61 | takes the mutex exactly when it is free, and never waits |
| Mutexes.NonRecursiveMutexImpl.Release | libs/libcxx-threading/src/mutex_impl.h:63-75 | with a waiter the mutex stays locked and one unit is handed over; without one it becomes free |
| Condvars.CondvarImpl.Signal | libs/libcxx-threading/src/condvar.cpp:102-111 | moves one waiter to one unit if there is a waiter, else changes nothing |
| Condvars.CondvarImpl.Broadcast | libs/libcxx-threading/src/condvar.cpp:113-121 | turns all waiters into units |
| Condvars.CondvarImpl.Announce | libs/libcxx-threading/src/condvar.cpp:128-144 | the caller is counted as a waiter |
| Condvars.CondvarImpl.SettleTimeout | libs/libcxx-threading/src/condvar.cpp:151-167 | a timed-out waiter reports a timeout exactly when it finds no unit; then it is no longer counted, otherwise it takes the unit |
| Condvars.SleepReachesDeadlineIff | libs/libcxx-threading/src/condvar.cpp:82-96 | the sleep lasts to the deadline exactly if that is less than 2^32 microseconds away; otherwise it ends at least 2^32 microseconds early |
| Condvars.SleepEndsAtTheDeadline | libs/libcxx-threading/src/condvar.cpp:82-96 | told from the absolute deadline and the clock in nanoseconds: the sleep is 0 exactly if the deadline is less than a microsecond ahead, and otherwise, within 2^32 microseconds, ends less than a microsecond from it |
| Condvars.FarDeadlineWakesEarly | libs/libcxx-threading/src/condvar.cpp:148-149 | a concrete deadline for which the 32-bit cast shortens the sleep |
| SyncProofs.StepKeepsInv | libs/libcxx-threading/src/condvar.cpp:102-171 | every atomic step of any of the tasks keeps the ledgers of all mutexes and all condition variables |
| SyncTheorems.ReachableInv | libs/libcxx-threading/src/condvar.cpp:102-171 | the ledgers hold in every reachable state: any number of tasks, mutexes and condition variables, any interleaving |
| SyncTheorems.MutexSafety | libs/libcxx-threading/src/mutex_impl.h:38-75 | at most one owner; locked exactly if there is an owner or one handed-over unit, never both; waiters and units together are the blocked tasks; a free mutex has none |
| SyncCalls.LockGives | libs/libcxx-threading/src/mutex_impl.h:42-50 | lock returns at once, to the only owner, exactly if the mutex was not locked; otherwise the caller is blocked on it, one more than before; nothing else changes |
| SyncCalls.LockResumesGives | libs/libcxx-threading/src/mutex_impl.h:42-50 | when it goes on it returns to the only owner, and one task less is blocked |
| SyncCalls.TryLockGives | libs/libcxx-threading/src/mutex_impl.h:53-61 | try_lock makes the caller the only owner exactly if the mutex was not locked, and otherwise changes nothing |
| SyncCalls.UnlockGives | libs/libcxx-threading/src/mutex_impl.h:63-75 | behind unlock the caller does not own the mutex: it is free if nobody is blocked on it, and otherwise there is exactly one unit, which a blocked task can take |
| SyncCalls.BlockedForAReason | libs/libcxx-threading/src/mutex_impl.h:42-75 | while tasks are blocked on a mutex it has an owner, or one of them can go on |
| SyncTheorems.TryLockCannotOvertake | libs/libcxx-threading/src/mutex_impl.h:53-61 | TryAcquire succeeds exactly on a free mutex, and then nobody is blocked on it |
| SyncTheorems.HandoverHasTaker | libs/libcxx-threading/src/mutex_impl.h:63-70 | a handed-over unit always has a task, blocked on that mutex, that can take it |
| SyncTheorems.WaiterAccounting | libs/libcxx-threading/src/condvar.cpp:102-171 | waiters plus units is the number of tasks still waiting; neither is negative, and with nobody waiting both are 0 |
| SyncTheorems.NotificationConservation | libs/libcxx-threading/src/condvar.cpp:102-171 | units issued are the waits that returned 0, those about to, and the units left; every wait started is accounted for |
| SyncTheorems.TimeoutIffNoUnit | libs/libcxx-threading/src/condvar.cpp:136-171 | a wait returned ETIMEDOUT exactly if it lowered the count of the semaphore by nothing, and every other wait lowered it by one |
| SyncTheorems.WaitReturnsOwning | libs/libcxx-threading/src/condvar.cpp:123-171 | wait and timedwait return with the caller as the only owner of the mutex |
| SyncCalls.WaitGives | libs/libcxx-threading/src/condvar.cpp:123-144 | wait and timedwait give the mutex away as unlock does, and are one more wait for a unit, in one step |
| SyncCalls.WaitEnds | libs/libcxx-threading/src/condvar.cpp:123-167 | a wait ends with a unit, or, if it timed out and finds none, without; it returns to the only owner if the mutex was not locked, and is blocked on it otherwise |
| SyncCalls.TimeoutGives | libs/libcxx-threading/src/condvar.cpp:148-151 | a timeout wakes the waiter and changes nothing else |
| SyncCalls.RelockResumesGives | libs/libcxx-threading/src/condvar.cpp:123-171 | a wait that was blocked on the mutex returns to the only owner, with the result it had |
| SyncCalls.NotifyGives | libs/libcxx-threading/src/condvar.cpp:102-121 | signal and broadcast turn waiters into units and change nothing but the condition variable |
| SyncTheorems.SignalIssuesIff | libs/libcxx-threading/src/condvar.cpp:102-111 | a signal issues a unit exactly if more tasks wait than units are there |
| SyncTheorems.BroadcastReachesAll | libs/libcxx-threading/src/condvar.cpp:113-121 | right after a broadcast there is one unit for each pending waiter |
| SyncTheorems.UnitHasTaker | libs/libcxx-threading/src/condvar.cpp:123-171 | a unit is never stranded: some waiter can take it now, and does so when it runs |
| SyncTheorems.UnitBeatsTimeout | libs/libcxx-threading/src/condvar.cpp:151-162 | a woken waiter that finds a unit takes it, and its wait ends with 0 |
| SyncTheorems.SignalInTheTimeoutWindow | libs/libcxx-threading/src/condvar.cpp:38-41 | a signal between the timeout and the resumption of the waiter is taken by it: the wait ends with 0 and waiters plus units fall by exactly one |
| JoinHandles.JoinHandle.TaskDestroyed | libs/libcxx-threading/src/thread.cpp:128-133 | what the destructor of CLibCXXTask does to the handle, and whether it deletes it |
| JoinHandles.JoinHandle.Join | libs/libcxx-threading/src/thread.cpp:228-242 | what join does to the handle, and whether it deletes it |
| JoinHandles.JoinHandle.Detach | libs/libcxx-threading/src/thread.cpp:244-253 | what detach does to the handle, and whether it deletes it |
| JoinHandles.StepKeepsInv | libs/libcxx-threading/src/thread.cpp:128-253 | creation, termination, destruction, join and detach of any thread keep all handles in order |
| JoinHandles.HandlesAreFreedOnce | libs/libcxx-threading/src/thread.cpp:128-253 | in every order: no handle is used off the heap; each is deleted exactly once, when its thread is both destroyed and joined or detached; none is leaked |
| JoinHandles.JoinedHasTerminated | libs/libcxx-threading/src/thread.cpp:228-242 | in every reachable state a thread that was joined has terminated; a join that waits can return exactly then |
| ExecuteOnce.OnceFlag.Top | libs/libcxx-threading/src/thread.cpp:288-296 | the test of the flag at the top of the loop |
| ExecuteOnce.OnceFlag.Resume | libs/libcxx-threading/src/thread.cpp:309-312 | the test of the flag behind a yield |
| ExecuteOnce.StepKeepsInv | libs/libcxx-threading/src/thread.cpp:285-314 | every step of any caller keeps the flag in line with who initialises and who has completed |
| ExecuteOnce.RunsOnce | libs/libcxx-threading/src/thread.cpp:285-314 | despite any number of throws: at most one initialiser, flag 1 exactly then; at most one completion, flag 2 exactly then; no call returns before it |
| ExecuteOnce.SpinnersGoOn | libs/libcxx-threading/src/thread.cpp:309-312 | a spinning caller waits only while another one initialises, and afterwards returns or retries |
| ThreadExit.Storage.Register | libs/libcxx-threading/src/thread.cpp:389-407 | the new node becomes the head of the list, in front of the older ones |
| ThreadExit.Storage.RunList | libs/libcxx-threading/src/thread.cpp:372-382 | the nodes of a list are run from its head, each is deleted behind its call, and its next pointer is read before that |
| ThreadExit.NotRunBefore | libs/libcxx-threading/src/thread.cpp:372-382 | a node still to be run was neither run nor deleted before |
| ThreadExit.Storage.Destroy | libs/libcxx-threading/src/thread.cpp:160-171 | the slot is null when its destructor is called with the value; a list is run completely, in decreasing order of registration |
| ThreadExit.Storage.Pass | libs/libcxx-threading/src/thread.cpp:157-172 | a pass that calls nothing leaves no slot armed; if the destructors leave the storage alone, a pass calls exactly those of the armed slots in the order of their keys, runs the whole list and leaves nothing armed |
| ThreadExit.QuietNext | libs/libcxx-threading/src/thread.cpp:160-171 | a slot visited is null afterwards, and its destructor was called with its value exactly if it was armed |
| ThreadExit.Storage.RunDestructors | libs/libcxx-threading/src/thread.cpp:153-173 | at most four passes, each of which but the last has raised the number of calls; no slot is armed at the end unless all four have; if not, every node ever registered was run and deleted exactly once; if the destructors leave the storage alone, one pass calls exactly those of the armed slots, in the order of their keys, and runs the whole list |
| RemainingLength.DecodeEncode | src/circle-mbedtls/mqttreceivepacket.cpp:82-110 | decoding an encoded length gives it back, whatever follows |
| RemainingLength.AcceptsExactlyEncodings | src/circle-mbedtls/mqttreceivepacket.cpp:82-110 | the decoder accepts exactly the minimal encodings of the numbers below 2^28 |
| RemainingLength.DecodeStable | src/circle-mbedtls/mqttreceivepacket.cpp:82-110 | a verdict of the decoder is not changed by further bytes |
| RemainingLength.ThreeBytesIff | src/circle-mbedtls/mqttsendpacket.cpp:165-189 | at most three length bytes exactly below 2^21 |
| Frames.FrameOfWire | src/circle-mbedtls/mqttreceivepacket.cpp:60-185 | a packet on the wire is found as it is, if its type, flags and length are acceptable; otherwise it is refused |
| Frames.FrameIsWire | src/circle-mbedtls/mqttreceivepacket.cpp:60-185 | what is found is the wire form of its parts |
| Frames.FrameStable | src/circle-mbedtls/mqttreceivepacket.cpp:60-185 | the verdict on a packet does not depend on what follows it |
| Frames.WholeBodyTakenIff | src/circle-mbedtls/mqttclient.cpp:445-676 | the accessors take the whole body, except of a SUBACK with more than three bytes |
| Frames.FlagsAreBits | src/circle-mbedtls/mqttclient.cpp:345-348 | the flags are DUP, twice the QoS, and RETAIN |
| ReceivePackets.ReceivePacket.Receive | src/circle-mbedtls/mqttreceivepacket.cpp:60-185 | the bytes of a segment are appended, never past the buffer; the verdict and the packet are those of the pure framer on all pending bytes |
| ReceivePackets.ReceivePacket.DecodeLength | src/circle-mbedtls/mqttreceivepacket.cpp:82-110 | the loop over the length bytes computes the pure decoder |
| ReceivePackets.ReceivePacket.Complete | src/circle-mbedtls/mqttreceivepacket.cpp:46-58 | the in-place shift leaves exactly the bytes behind those read |
| ReceivePackets.ReceivePacket.GetString | src/circle-mbedtls/mqttreceivepacket.cpp:221-250 | the string if it is within the packet, fits and is ASCII, else nothing |
| ReceivePackets.ReceivePacket.ReadMessage | src/circle-mbedtls/mqttclient.cpp:443-678 | the accessor calls for each packet type read the message that the pure reader does, which the rows of PacketBytes and PublishReadBack tell byte by byte |
| PacketBytes.ExpectedIff | src/circle-mbedtls/mqttreceivepacket.cpp:112-185 | the accepted first bytes, with the lengths for each |
| PacketBytes.OthersAreInvalid | src/circle-mbedtls/mqttreceivepacket.cpp:112-185 | any other packet closes as invalid |
| PacketBytes.ConnAckRead | src/circle-mbedtls/mqttclient.cpp:445-450 | the bytes 20 02, followed by any, are a CONNACK with the flags and the code in this order |
| PacketBytes.PubAckRead | src/circle-mbedtls/mqttclient.cpp:553-556 | 40 02: a PUBACK with the identifier in two bytes, high one first |
| PacketBytes.PubRecRead | src/circle-mbedtls/mqttclient.cpp:567-570 | 50 02: PUBREC |
| PacketBytes.PubRelRead | src/circle-mbedtls/mqttclient.cpp:602-605 | 62 02: PUBREL |
| PacketBytes.PubCompRead | src/circle-mbedtls/mqttclient.cpp:626-629 | 70 02: PUBCOMP |
| PacketBytes.SubAckRead | src/circle-mbedtls/mqttclient.cpp:640-645 | 90 03: SUBACK with identifier and return code |
| PacketBytes.UnsubAckRead | src/circle-mbedtls/mqttclient.cpp:662-665 | B0 02: UNSUBACK |
| PacketBytes.PingRespRead | src/circle-mbedtls/mqttclient.cpp:676-677 | D0 00: PINGRESP |
| PacketBytes.AnswersOnWire | src/circle-mbedtls/mqttclient.cpp:503-624 | the answers: 40 02 at QoS 1, 50 02 at QoS 2, 62 02 to a PUBREC, 70 02 to a PUBREL, each with the identifier received; nothing else is answered |
| PacketBytes.SubscribeOnWire | src/circle-mbedtls/mqttclient.cpp:275-292 | the bytes of a SUBSCRIBE |
| PacketBytes.UnsubscribeOnWire | src/circle-mbedtls/mqttclient.cpp:308-323 | the bytes of an UNSUBSCRIBE |
| PacketEffects.ConnAckArrives | src/circle-mbedtls/mqttclient.cpp:445-469 | the bytes of a CONNACK, followed by any, connect a client exactly if it is pending and the code is 0, with OnConnect saying whether a session was present; codes 1 to 5 close for the reason of that number |
| PacketEffects.AnswerArrives | src/circle-mbedtls/mqttclient.cpp:553-676 | the bytes of a PUBACK, PUBCOMP or UNSUBACK take the first packet with that identifier out of the queue, and nothing else changes, exactly if it has the right QoS; otherwise the connection is closed |
| PacketEffects.SubAckArrives | src/circle-mbedtls/mqttclient.cpp:640-660 | the same for SUBACK with the codes 0 to 2; other codes close |
| PacketEffects.QueuedIsAnswered | src/circle-mbedtls/mqttclient.cpp:553-676 | the answer to a packet of the queue, with its identifier, is accepted and takes that packet out: PUBACK, SUBACK with code 0 to 2, UNSUBACK, PUBCOMP |
| PacketEffects.PubRelArrives | src/circle-mbedtls/mqttclient.cpp:602-624 | the bytes of a PUBREL are answered with PUBCOMP and end the exchange; identifier 0 is invalid |
| PacketEffects.PingRespArrives | src/circle-mbedtls/mqttclient.cpp:676-685 | the bytes of a PINGRESP connect, and restart the timer at the time of the clock and the keep-alive seconds |
| PacketEffects.PublicationArrives | src/circle-mbedtls/mqttclient.cpp:471-550 | the bytes of a publication at QoS 1 or 2 are answered with PUBACK or PUBREC, and the application gets topic, payload and retain flag, unless its exchange at QoS 2 is open; or sending the answer fails |
| PacketEffects.MessageArrives | src/circle-mbedtls/mqttclient.cpp:471-526 | at QoS 0 the application gets it, without an answer |
| PacketEffects.OtherPacketArrives | src/circle-mbedtls/mqttclient.cpp:425-427 | an unexpected packet closes the connection, and the application is told that it is invalid |
| PacketEffects.OtherTopicArrives | src/circle-mbedtls/mqttclient.cpp:476-486 | so does a topic that is too long, not ASCII or empty, as not supported |
| PacketEffects.SocketFails | src/circle-mbedtls/mqttclient.cpp:429-435 | a full buffer and an error of the socket close for these reasons |
| Framing.PollSocket | src/circle-mbedtls/mqttclient.cpp:413-443 | one pass on the buffer object is one step of the pure framer on the pending bytes |
| Framing.ClientIsFramer | src/circle-mbedtls/mqttreceivepacket.cpp:60-185 | the framer never changes a verdict and always makes progress |
| Framing.PacketDroppedWholeIff | src/circle-mbedtls/mqttreceivepacket.cpp:46-58 | a packet is dropped as a whole exactly unless it is a SUBACK for several topic filters |
| Framing.LongSubAckLeavesAByte | src/circle-mbedtls/mqttreceivepacket.cpp:164-170 | a concrete SUBACK of which a byte stays behind |
| Streams.RunRefinesParser | src/circle-mbedtls/mqttreceivepacket.cpp:60-185 | however the socket cuts the stream, the packets of a run, and what it still holds, are those of a parser on the whole stream; it closes where and why the parser does |
| Streams.SegmentationIrrelevant | src/circle-mbedtls/mqttreceivepacket.cpp:60-185 | two ways of cutting the same stream give the same packets and the same rest |
| Streams.BytesConserved | src/circle-mbedtls/mqttreceivepacket.cpp:46-80 | for any framer that drops whole packets, bytes taken are the wire forms of the packets and the bytes in the buffer |
| Framing.ClientConservesBytes | src/circle-mbedtls/mqttreceivepacket.cpp:46-80 | the same of every open run of the client in which no SUBACK is for several topic filters |
| Framing.AssertionInGetWordIff | src/circle-mbedtls/mqttreceivepacket.cpp:210-219 | received bytes make the assertion in GetWord fail exactly if they start with a PUBLISH above QoS 0 whose topic is acceptable and leaves no room for the identifier |
| Framing.PublishWithoutIdentifier | src/circle-mbedtls/mqttreceivepacket.cpp:210-219 | a concrete packet that does |
| Framing.DrainedRunStaysOpen | src/circle-mbedtls/mqttreceivepacket.cpp:60-80 | if the packets and segments fit into the room and new bytes come in only when nothing complete is left, no run is closed |
| Framing.DrainedRunDelivers | src/circle-mbedtls/mqttreceivepacket.cpp:60-185 | then exactly the packets of the stream are delivered |
| Overflow.OverflowIff | src/circle-mbedtls/mqttreceivepacket.cpp:60-80 | whatever the segments, told from the stream: a run closes for lack of room exactly if, with some of them, the bytes that have arrived, less those of the packets handled by one poll each, are more than the room, and nothing to close for came before |
| Overflow.FloodClosesIff | src/circle-mbedtls/mqttreceivepacket.cpp:60-80 | segments of some PINGRESPs each close the connection exactly if what the polls leave behind is more than the room |
| Overflow.FloodCloses | src/circle-mbedtls/mqttreceivepacket.cpp:60-80 | so for every room, and for segments of any size from four bytes on, there is a flood that closes the connection |
| SendPackets.SendPacket.AppendString | src/circle-mbedtls/mqttsendpacket.cpp:104-128 | length and characters are appended, or the packet is in error for good |
| SendPackets.SendPacket.EncodeLength | src/circle-mbedtls/mqttsendpacket.cpp:165-188 | the do/while loop computes the minimal encoding |
| SendPackets.SendPacket.Send | src/circle-mbedtls/mqttsendpacket.cpp:152-208 | at most MQTT_SEND_TRIES transmissions, each of which is the wire form of the type, flags and untouched body |
| SendPackets.OnlyDupDiffers | src/circle-mbedtls/mqttsendpacket.cpp:152-208 | transmissions of a packet are identical but for the DUP bit |
| PacketObjects.Send | src/circle-mbedtls/mqttsendpacket.cpp:152-208 | sending the object is what the client does to the packet value, and hands over its wire form |
| PacketObjects.Retransmit | src/circle-mbedtls/mqttclient.cpp:712-724 | marked and sent again any number of times, a packet is transmitted once for each send while a try is left, and not at all after an error; the transmissions are the same but for the DUP bit |
| PacketObjects.HandedOverIsMarked | src/circle-mbedtls/mqttclient.cpp:712-724 | of a PUBLISH, every transmission after the first has the first byte of the first one plus 8, and the same bytes behind it; of other packets all are the same |
| PublishRoundTrip.Build | src/circle-mbedtls/mqttclient.cpp:355-364 | the body that Publish appends, and when it does not fit |
| PublishRoundTrip.PublishReadBack | src/circle-mbedtls/mqttclient.cpp:471-502 | a PUBLISH followed by any bytes is read as it was written, and exactly those bytes stay |
| PublishRoundTrip.PublishRoundTripIff | src/circle-mbedtls/mqttclient.cpp:339-377 | topic, payload, retain flag, QoS and, above QoS 0, the identifier survive exactly at QoS 1 and 2 and for topics the receiver can take |
| PublishRoundTrip.FlagsOfPublish | src/circle-mbedtls/mqttclient.cpp:345-348 | the flags that Publish sets say its QoS and retain flag, without DUP |
| PublishRoundTrip.CallRoundTripIff | src/circle-mbedtls/mqttclient.cpp:339-377 | told from the arguments of Publish: its bytes, followed by any, are read back as a message with that topic, payload, QoS and retain flag exactly for QoS 1 and 2 and topics the receiver can take |
| PublishRoundTrip.Published | src/circle-mbedtls/mqttclient.cpp:345-364 | the packet is built from the arguments and handed to the socket once: the first byte is 30 hexadecimal with QoS and retain flag, and the bytes are read back as just said |
| PublishRoundTrip.IdentifierTakenForPayload | src/circle-mbedtls/mqttclient.cpp:362 | at QoS 0 the receiver's payload is the identifier followed by the payload |
| PublishRoundTrip.PublishDeliveredInAnySegmentation | src/circle-mbedtls/mqttclient.cpp:413-502 | in any segmentation the packet is the first that is delivered, and it is delivered |
| PublishRoundTrip.PublishIsDelivered | src/circle-mbedtls/mqttclient.cpp:413-502 | if the stream fits and nothing complete is left in the end, the packet is delivered |
| Ticks.AfterIsLaterIff | src/circle-mbedtls/mqttclient.cpp:706 | the signed difference of 32-bit ticks is the order of the unbounded times exactly at the distances read right, across wraps; of those below a counter period, exactly within half of one |
| Ticks.LaterReadAsEarlier | src/circle-mbedtls/mqttclient.cpp:706 | from half a period up to a whole one, later is read as not later |
| Ticks.RightAgainAfterAPeriod | src/circle-mbedtls/mqttclient.cpp:706 | a tick beyond a whole period is read as later again |
| RetransmissionQueue.InsertRefines | src/circle-mbedtls/mqttclient.cpp:838-867 | within that window insertion goes behind all times that are not later and before all that are, keeps everything else in place and the queue sorted, across wraps |
| PacketIdentifiers.IdsDistinct | src/circle-mbedtls/mqttclient.cpp:280-284 | identifiers are never 0, and two allocations share one exactly if they are a multiple of 65535 apart |
| PacketIdentifiers.QueuedIdsUnique | src/circle-mbedtls/mqttclient.cpp:869-888 | if the queued packets stem from one period of allocations, identifiers are unique in the queue and removal takes the only match |
| MqttClients.MqttClient.constructor | src/circle-mbedtls/mqttclient.cpp:57-68 | the invariant holds before the first Connect, when the timer is not initialised |
| MqttClients.MqttClient.Connect | src/circle-mbedtls/mqttclient.cpp:90-261 | success leaves a pending connection with the first identifier and an empty buffer; every failure, also that of the topic buffer, leaves it disconnected and says why |
| MqttClients.MqttClient.Disconnect | src/circle-mbedtls/mqttclient.cpp:263-273 | always ends disconnected, with a DISCONNECT packet unless forced |
| MqttClients.MqttClient.Publish | src/circle-mbedtls/mqttclient.cpp:339-390 | the PUBLISH goes to the socket once, without DUP and with the QoS and retain flag of the call, in bytes that are read back as the call where they can be, and, above QoS 0, into the queue with its identifier, which keeps the order; a failure deletes it and closes |
| MqttClients.MqttClient.Subscribe | src/circle-mbedtls/mqttclient.cpp:275-306 | the SUBSCRIBE goes to the socket once and into the queue; a failure deletes it and closes |
| MqttClients.MqttClient.Unsubscribe | src/circle-mbedtls/mqttclient.cpp:308-337 | the same for UNSUBSCRIBE |
| MqttClients.SubmittedIsQueued | src/circle-mbedtls/mqttclient.cpp:365-390 | a submitted packet is in the queue, for five seconds, with its identifier and QoS, exactly above QoS 0; the others stay |
| MqttClients.MqttClient.SendPacket | src/circle-mbedtls/mqttclient.cpp:785-836 | its assertions on status, timer and socket hold; the keep-alive timer is restarted as the packet type demands |
| MqttClients.MqttClient.CloseConnection | src/circle-mbedtls/mqttclient.cpp:760-783 | disconnected, queue and store empty, timer off, socket gone, all queued packets deleted, OnDisconnect once |
| MqttClients.MqttClient.CleanupQueue | src/circle-mbedtls/mqttclient.cpp:890-904 | every queued packet is deleted once and nothing else |
| MqttClients.MqttClient.KeepAliveHandler | src/circle-mbedtls/mqttclient.cpp:735-758 | exactly an elapsed timer sends one PINGREQ and restarts, or, while a PINGRESP is awaited, closes; within half a counter period it has elapsed exactly at and behind the unbounded deadline; its assertion holds |
| ClientStatus.DeadlineIsNear | src/circle-mbedtls/mqttclient.cpp:814 | a deadline that is being set is within half a counter period, and its computation does not overflow |
| MqttClients.MqttClient.HandleConnAck | src/circle-mbedtls/mqttclient.cpp:445-469 | connects only from a pending connection with code 0; otherwise closes with the reason for the code |
| MqttClients.MqttClient.HandlePublish2 | src/circle-mbedtls/mqttclient.cpp:528-550 | PUBREC is sent; the message is passed on exactly if its identifier is new to the store |
| MqttClients.MqttClient.HandleAck | src/circle-mbedtls/mqttclient.cpp:553-565 | the packet with the identifier and QoS is removed and deleted; anything else closes the connection |
| MqttClients.MqttClient.HandlePubRec | src/circle-mbedtls/mqttclient.cpp:567-599 | the PUBLISH is replaced by a PUBREL with the same identifier |
| MqttClients.MqttClient.HandlePubRel | src/circle-mbedtls/mqttclient.cpp:602-624 | PUBCOMP is sent, and the identifier forgotten |
| MqttClients.MqttClient.HandlePingResp | src/circle-mbedtls/mqttclient.cpp:676-685 | connected from any state; the timer is restarted |
| MqttClients.MqttClient.Handle | src/circle-mbedtls/mqttclient.cpp:443-691 | for every packet: the connection is closed without an answer exactly if the status, the queue or the packet itself is a reason, and with that reason; else the answer is sent, and either status, queue, store and callbacks are those of the pure functions for it, or sending failed, which closes; the queue stays in order |
| MqttClients.MqttClient.InsertPacketIntoQueue | src/circle-mbedtls/mqttclient.cpp:838-867 | the loop finds the slot of the queue by signed comparison |
| MqttClients.MqttClient.RemovePacketFromQueue | src/circle-mbedtls/mqttclient.cpp:869-888 | the first packet with the identifier leaves the queue |
| MqttClients.MqttClient.Receiver | src/circle-mbedtls/mqttclient.cpp:413-693 | on an open connection the socket is read, and every poll but the last gives a packet; the packets handled are those of a run over what the socket gave; callbacks, status, store and queue are those for them; it stops at the poll that gives none, when nothing complete is left; or the connection is closed behind them with the reason for the verdict that ends the run, for the socket, or for the last packet |
| MqttClients.MqttClient.Sender | src/circle-mbedtls/mqttclient.cpp:695-733 | terminates; with the queue in order and the live times in the window of the counter it sends every packet due at the sampled tick once and in order and no other, queues it again, leaves the rest in order and nothing due; or closes after some of them; each transmission is that of a packet of the queue, of a PUBLISH with DUP set and otherwise as it was; the queue stays in order |
| ClientRuns.Operate | src/circle-mbedtls/mqttclient.cpp:90-424 | any run of calls and passes of the task: each action leads from moment to moment as Did says, from the state at the start to that at the end, and PromisesKept applies to it |
| ClientRuns.Act | src/circle-mbedtls/mqttclient.cpp:90-424 | a call of Connect, Disconnect, Publish, Subscribe or Unsubscribe, or a pass of the task, has its effect on packets, queue, callbacks and buffer, told from the state before it |
| ClientRuns.PromisesKept | src/circle-mbedtls/mqttclient.cpp:695-733 | for every such run from a queue in order: if, from action to action, no live time is too far from the ticks read, then the queue is in order at every moment, and every call of Sender has sent what was due in the queue it found, each packet once and in order, up to a failed send |
| ClientRuns.ActionOrdered | src/circle-mbedtls/mqttclient.cpp:838-904 | every action keeps the order of the queue within the window |
| ClientRuns.PassOfTask | src/circle-mbedtls/mqttclient.cpp:392-411 | one pass of the task is a Receiver, a Sender and a keep-alive handler, each with its effect on the client of the moment |
| QueueOrder.StaysStays | src/circle-mbedtls/mqttclient.cpp:838-904 | the order of the queue is kept through any number of insertions and removals within the window |
| SenderPass.LoopSends | src/circle-mbedtls/mqttclient.cpp:695-733 | after any number of passes of the loop that many of the due packets were sent, in order, and filed behind the others |
| SenderPass.LoopFails | src/circle-mbedtls/mqttclient.cpp:719-728 | a failed send ends the call behind some of the due packets |
| SenderPass.PassKeepsMidway | src/circle-mbedtls/mqttclient.cpp:698-731 | one pass sends the next due packet and files it behind all due ones, with DUP set and one try less |
| SenderPass.LoopRetransmits | src/circle-mbedtls/mqttclient.cpp:712-724 | whatever the clock: a PUBLISH is sent again with DUP set and the QoS, retain flag and body it was queued with, any other packet with the flags it had |
| SenderPass.StopsWhenDone | src/circle-mbedtls/mqttclient.cpp:705-710 | the loop stops exactly when no due packet is left |
| SenderPass.TriesSpent | src/circle-mbedtls/mqttclient.cpp:719-730 | each pass takes one of finitely many tries |
| ClientQueue.InsertInv | src/circle-mbedtls/mqttclient.cpp:838-867 | insertion keeps live packets, order and identifiers consistent |
| ClientQueue.RemoveInv | src/circle-mbedtls/mqttclient.cpp:869-904 | so does removal |
| Streams.RunSnoc | src/circle-mbedtls/mqttclient.cpp:413-443 | polling once more prolongs a run by exactly one verdict |
| Deliveries.ClientSeesTheStream | src/circle-mbedtls/mqttclient.cpp:413-693 | the callbacks are those for the packets of the byte stream, whatever the segments |
| Deliveries.StoreIsTheReceivers | src/circle-mbedtls/mqttclient.cpp:528-624 | over any packets the store is that of the QoS 2 receiver, and messages passed on are its calls and the packets at QoS 0 and 1 |
| Deliveries.AnswerTaken | src/circle-mbedtls/mqttclient.cpp:553-676 | the last answer to a packet of the client is refused unless the first packet with its identifier has the right QoS, and takes that one out of the queue |
| Deliveries.PacketCloses | src/circle-mbedtls/mqttclient.cpp:443-691 | a packet that closes the connection does so behind the packets before it, for the reason that status and queue give |
| QoS2.ForgottenMembers | src/circle-mbedtls/mqttclient.cpp:928-941 | removal from a store without duplicates removes the identifier and nothing else |
| QoS2.ReceiverOnAnyTrace | src/circle-mbedtls/mqttclient.cpp:906-941 | on arbitrary traffic the store has no duplicates and holds exactly the open exchanges, and OnMessage is called once for each exchange |
| QoS2Protocol.StepKeepsGood | src/circle-mbedtls/mqttclient.cpp:528-638 | every step of sender, receiver and channels keeps the invariant of every identifier |
| QoS2Protocol.ExactlyOnce | src/circle-mbedtls/mqttclient.cpp:528-638 | no publication is delivered twice; one whose PUBREC is in flight or was received was delivered exactly once; nothing is delivered that was not published |
| QoS2Protocol.ReleaseIsSafe | src/circle-mbedtls/mqttclient.cpp:567-624 | an identifier is released only after delivery, and forgotten only when no PUBLISH for it can arrive |
| QoS2Refinement.PublishRefines | src/circle-mbedtls/mqttclient.cpp:339-390 | queueing a PUBLISH at QoS 2 is the publishing step |
| QoS2Refinement.ResendRefines | src/circle-mbedtls/mqttclient.cpp:695-733 | sending a queued packet again is the retransmission step |
| QoS2Refinement.PubRecRefines | src/circle-mbedtls/mqttclient.cpp:567-599 | what PUBREC does to the queue is the step of the protocol, including the close |
| QoS2Refinement.PubCompRefines | src/circle-mbedtls/mqttclient.cpp:626-638 | the same for PUBCOMP |
| QoS2Refinement.OtherComes | src/circle-mbedtls/mqttclient.cpp:365-380 | a packet at QoS 1 is queued without a step |
| QoS2Refinement.OtherGoes | src/circle-mbedtls/mqttclient.cpp:553-565 | and leaves without one |
| QoS2Refinement.ReceiverRefines | src/circle-mbedtls/mqttclient.cpp:528-624 | an answered PUBLISH or PUBREL is the receiving step |
| QoS2System.StepSimulates | src/circle-mbedtls/mqttclient.cpp:339-390 | every step of the two clients, among them those at QoS 0 and 1 and the closes, is the step of the protocol for it or none, and keeps queue, channels and callbacks consistent |
| QoS2System.ReachableSimulates | src/circle-mbedtls/mqttclient.cpp:528-638 | every run of the clients is a run of the protocol with the stages of the queue |
| QoS2System.PublicationsReachTheApplicationOnce | src/circle-mbedtls/mqttclient.cpp:528-638 | the callbacks of the receiver are publications with their topic, payload and retain flag, none twice, and those acknowledged are among them |
| HttpClients.ReceiveResponse | src/circle-mbedtls/httpclient.cpp:166-361 | status, content and length are those of the decoder, and of the decoder by lines and chunks, on all the bytes up to the first empty segment: neither the segments nor the first content of Line matter, and nothing is written behind the content or past the buffer |
| HttpClients.ResponseReader.Byte | src/circle-mbedtls/httpclient.cpp:184-342 | one pass through the switch is one step of the decoder |
| HttpClients.Strtok | src/circle-mbedtls/httpclient.cpp:209-213 | the calls of strtok_r on memory find the tokens of the string that was in it |
| HttpDecoder.FeedConcat | src/circle-mbedtls/httpclient.cpp:178-345 | the decoder can be fed in pieces |
| HttpDecoder.PlainResponse | src/circle-mbedtls/httpclient.cpp:258-270 | without chunks the content is what follows the header, if it fits, else the buffer is full of its beginning |
| HttpDecoder.ChunkedResponse | src/circle-mbedtls/httpclient.cpp:272-341 | chunks with any size lines that denote their lengths decode to their concatenation, if it fits, whatever follows the last one |
| HttpDecoder.CutOffIsNoticed | src/circle-mbedtls/httpclient.cpp:348-354 | a chunked response cut off anywhere before its end is reported as a reset, never as complete |
| HttpReference.DecodeIsResponse | src/circle-mbedtls/httpclient.cpp:178-361 | for every response, byte by byte is the same as by lines and chunks: with 550 for what is cut off, 552 for a chunk header line that is not a number and for anything but carriage returns and a line feed behind a chunk, 553 for what does not fit |
| HttpReference.BehindChunks | src/circle-mbedtls/httpclient.cpp:272-341 | behind an accepted chunked header and chunks that fit, whatever follows is read as that decoder reads it |
| HttpReference.BrokenHeaderLine | src/circle-mbedtls/httpclient.cpp:281-288 | there a header line whose text is not taken whole as a number ends the response with 552 and the content so far, whatever follows |
| HttpReference.ExtensionIsNoSize | src/circle-mbedtls/httpclient.cpp:281-288 | a size with a chunk extension is such a line |
| HttpReference.BrokenTrailer | src/circle-mbedtls/httpclient.cpp:321-334 | a byte other than CR and LF behind the data of a chunk does the same |
| HttpReference.ChunkedSuccessIff | src/circle-mbedtls/httpclient.cpp:272-361 | a chunked response is a 200 with this content exactly if well-formed chunks with that data, which fits, and a line with size 0 follow the header, where a line without characters stands for the string that Line holds |
| HttpResponses.ChunkedRoundTrip | src/circle-mbedtls/httpclient.cpp:272-341 | decoding undoes the chunked coding of any list of non-empty chunks |
| HttpResponses.StatusLines | src/circle-mbedtls/httpclient.cpp:206-230 | a status line with three tokens is accepted exactly if the code is 200; else the code is the result |
| HttpReceivedLines.SuccessWithoutContentIff | src/circle-mbedtls/httpclient.cpp:184-230 | for every first line as received: the response is a success without content, whatever follows, exactly if the deciding token is white space, an optional sign and digits with the value 200 on 32 bits |
| HttpFirstLines.StatusIs200Iff | src/circle-mbedtls/httpclient.cpp:216-229 | a token is read as 200 exactly if it is such a number, clamped to ULONG_MAX |
| HttpReceivedLines.DecimalCodeSuccessIff | src/circle-mbedtls/httpclient.cpp:216-229 | of the status lines with a decimal code that fits, exactly those with another form of 200 are successes without content, whatever follows |
| HttpReceivedLines.SignedCodeIsSuccess | src/circle-mbedtls/httpclient.cpp:216-229 | a received status line with +200 is such a line |
| HttpReceivedLines.BareCodeIsSuccess | src/circle-mbedtls/httpclient.cpp:206-229 | a received line that is just 200 is such a line |
| HttpReceivedLines.PaddedCodeIsSuccess | src/circle-mbedtls/httpclient.cpp:216-229 | a received status line with 0200 is such a line |
| HttpReceivedLines.NullTokenIff | src/circle-mbedtls/httpclient.cpp:184-217 | for every first line as received: a null token is passed to strtoul, whatever follows, exactly if the line is slashes only, or its protocol is HTTP and fewer than two words follow |
| HttpReceivedLines.VersionAloneIsNull | src/circle-mbedtls/httpclient.cpp:209-217 | a received line HTTP/1.1 is such a line |
| HttpReceivedLines.FooIsInvalid | src/circle-mbedtls/httpclient.cpp:216-229 | a received line with the one token FOO is not; it gives 551, an invalid response code |
| HttpFirstLines.RefusedWith200Iff | src/circle-mbedtls/httpclient.cpp:206-230 | for every string in Line: it is refused with the status 200 exactly if its deciding token is such a number |
| HttpFirstLines.RefusedForNullIff | src/circle-mbedtls/httpclient.cpp:209-217 | for every string in Line: a null token is passed exactly for slashes only, or HTTP and fewer than two words |
| HttpReceivedLines.FirstLineFed | src/circle-mbedtls/httpclient.cpp:184-256 | what Line holds behind any bytes of the first line: no carriage returns, nothing behind a NUL, and no more than fits |
| HttpReceivedLines.UncheckedIff | src/circle-mbedtls/httpclient.cpp:184-230 | a header that is over was not checked exactly if nothing but carriage returns stands in front of the first line feed; below 2^32 bytes that is when no line was counted |
| HttpReceivedLines.UncheckedIsContent | src/circle-mbedtls/httpclient.cpp:194-200 | what follows such an empty line is the content |
| HttpReceivedLines.NoFirstLine | src/circle-mbedtls/httpclient.cpp:194-200 | a response that begins with CR LF is all content behind that |
| HttpResponses.FieldSelectsChunkedIff | src/circle-mbedtls/httpclient.cpp:232-245 | a header field selects the chunked coding exactly if name and value say so, in any case of letters |
| HttpResponses.OrdinaryHeader | src/circle-mbedtls/httpclient.cpp:206-245 | a status line with code 200 and any printable fields, one of which says Transfer-Encoding: chunked, make an accepted header with chunks |
| HttpResponses.HexIsSize | src/circle-mbedtls/httpclient.cpp:278-290 | any hexadecimal digits that fit are a chunk size |
| CText.NumeralRead | src/circle-mbedtls/httpclient.cpp:281 | strtoul takes white space, a sign, 0x at radix 16 and digits, up to the first character that is none; the value is clamped, and with a minus negated modulo ULONG_MAX + 1 |
| CText.NoNumeralRead | src/circle-mbedtls/httpclient.cpp:281 | without a digit it takes nothing |
| CText.CaseIsIgnored | src/circle-mbedtls/httpclient.cpp:232-237 | names and values are compared without regard to the case of letters, and of nothing else |
| HttpBlankHeaders.BlankHeaderRepeats | src/circle-mbedtls/httpclient.cpp:272-290 | wherever a chunk header line can begin, an empty line acts as a line with the string that Line holds, whatever follows |
| HttpBlankHeaders.BlankHeaderBehindChunk | src/circle-mbedtls/httpclient.cpp:272-341 | behind a chunk it acts as the header of that chunk |
| HttpBlankHeaders.HelloWorld | src/circle-mbedtls/httpclient.cpp:272-341 | a concrete response with an empty header line that is taken |

## Left out

- Sender: the claim about which packets are due is for live times within half a counter period of the ticks read, beyond which the signed comparison is wrong (AfterIsLaterIff); along runs within that range the queue is in order (PromisesKept).
- QueuedIdsUnique: needs that the queued packets stem from 65535 consecutive allocations, for identifiers are reused after that.
- ClientConservesBytes: is about runs without a SUBACK for several topic filters, for which it fails.
- PublicationsReachTheApplicationOnce: the channels show the QoS 2 traffic only, and it is about a connection on which no identifier is used twice; a duplicate PUBCOMP closes the connection, so nothing is claimed about staying connected.
- SendPacket: configured packet sizes are below 2^21, because more than three length bytes fail an assertion of the source (ThreeBytesIff).
- Connect: name lookup, TLS setup and the CONNECT body, with the formatting of client identifiers, are parameters.
- Receiver: where the assertion in GetWord fails (AssertionInGetWordIff), the model goes on as the code does without assertions, and closes for the payload that is too short.
- FIFO wake-up of semaphores is not claimed: a waiter that comes later may take the unit meant for an earlier one, so wake-ups are counts.
- Fairness of the scheduler and real time are not modelled; ticks are monotone and otherwise arbitrary.
- Sockets, TLS, DNS, certificates and entropy are arbitrary sources of segments and sends that may fail.
- Callbacks are recorded but cannot call back into the client.
- Packets in the client are values with a handle; PacketObjects relates them to objects of the class SendPacket, and that each handle is deleted once is proved, but not aliasing of packet objects.
- Lists of pointers are sequences; only the list of thread-exit destructors keeps its nodes.
- The semaphore is an abstract count, as its implementation is not part of this model.
- Sizes of buffers, counts of waiters and lengths of queues are unbounded naturals where the source has int, unsigned or size_t.
- The recursive mutex wraps CMutex, which is not part of this model.
- The hardware thread pointer, the allocation of thread-local blocks and linker sections are left out.
- CreateKey: at most 32 thread-local keys are created, which the source relies on without a check.
- Addresses of join handles are not reused, so that a second deletion would show.
- The parts of `Request` before the receive loop only connect the socket and format the request.
