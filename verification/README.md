# LightMQTT client, modelled and proved

LightMQTT is an MQTT 3.1.1 client that does no I/O and no allocation of its own: a packet store with a
cursor, a resumable encoder, a resumable decoder, and a session machine that moves bytes between them
through two staging buffers. This project models all four, as the C code runs them, and proves what holds
of every run.

There are three layers.

* **Specification.** Pure functions say what each byte, call and state change does (`PacketStore`, `Wire`,
  `Transmit`, `Receive`, `Session`). `Session.Step` is one public call or one move of `run_once`;
  `SessionInvariant.Run` is any sequence of them. The theorems about whole runs, any length and any
  interleaving, are about `Run`: the session invariant, QoS 2 at most once, accounting of requests, packet
  ids, forward-only QoS 2 sending, resending after a reconnect, lossless staging, the session states.
* **Implementation.** Classes with the C code's fields, arrays and loops (`Store`, `IdArray`,
  `HeaderDecoder`, `TxBuffer`, `RxBuffer`, `MqttClient`) are proved against those functions.
  `MqttClient` carries a ghost trace, and `Valid()` says that its state is what `Run` makes of the trace, so
  the run theorems hold of the object (`Guarantees.ObjectKeepsPromises`; `Guarantees.OneSession` builds,
  connects, runs and finalizes one by its contracts alone). The loops of `run_once` are proved equal to
  functions of the client and its connection (`Transfers`), and what those functions mean is proved there.

* **Meaning.** What goes over the wire and what the client does is also said without the functions of the
  specification: a server that knows only the standard reads back every packet and every connection
  (`ServerReading`, `Connections.ServerReadsConnection`); every response is given as literal bytes, with the
  whole new state of the client (`Responses`, `Incoming`); requests, the end of a connection, failures and
  finalize are written out (`Effects`, `Departures`); the timer is stated in nanoseconds (`KeepAlive`,
  `Timers`).

How the outside is modelled:

* A callback is a function of everything that happened so far (`Types.Env`), so a deterministic callback
  with a state of its own is covered. Callbacks do not call the client.
* The connection is a finite script of read and write answers, each with any result and any number of
  bytes; a read may also come short and a write may be partial (`Platforms.Platform`). The clock is any
  function of the number of times it was asked.
* A request object is known by its address, `ref`; the number of times it was fully encoded, which decides
  DUP, is a multiset of addresses.
* A C `assert` that fails is the error `AssertionFailed`.
* Ghost history (`Session.Audit`) counts requests that are lost or called back twice; nothing reads it.

Where the code does not do what it is meant to do, the model follows the code, and a lemma says exactly
when: packets that break a rule of the standard (`WhenPacketsConform`), an empty client id cut after one
byte (`EmptyClientIdNeedsTwoBytes`), a SUBSCRIBE or UNSUBSCRIBE too long for its header
(`WhenEncodingAborts`), requests lost on reconnect or called back twice (`WhenRequestsAreLostOrRepeated`), a
refused CONNACK that is never reported (`RefusedConnectIsNeverReported`), an acknowledgement dropped on a
full store (`PublishArrives`, `EndToEnd`), a CONNACK longer than 2 (`WhenDecoderAborts`), and decoding on a
closed client, which the run theorems cover (`WhenClosedClientDecodes` says when, `ClosedWithFullBuffer`
how, `WhenRequestsSucceed` and `DecodingWhileClosedBlocksConnect` what it leads to).

## Model

| member | source | states |
|---|---|---|
| TransmitRuns.ChunkedEncodingRefinesStream | src/lmqtt_packet.c:1033-1096 | Over any sequence of encode calls of any sizes, appends and responses that take out sent entries, the output is a prefix of what was pending followed by the packets of the accepted entries; while no call fails, written plus still pending is exactly that |
| TransmitRuns.QueueIsEmittedInOrder | src/lmqtt_packet.c:1033-1096 | Started at rest, the output is a prefix of the whole packets of the queue in queue order, cut after the first DISCONNECT, and all of it once nothing is unsent |
| TransmitRuns.RespondKeepsCurrent | src/lmqtt_store.c:111-144 | Taking out sent entries between two encode calls leaves the encoder inside the same entry with the same bytes pending |
| TransmitRuns.EmptyClientIdNeedsTwoBytes | src/lmqtt_packet.c:236-255 | For encodable queues, a call aborts if and only if it resumes behind the two length bytes of an empty client id, and the encoder gets there if and only if it resumes between them with one byte of room |
| EncoderAborts.WhenEncodingAborts | src/lmqtt_packet.c:113-144 | For every queue, a call aborts if and only if it resumes behind the two length bytes of an empty client id, or has room for everything in front of a packet that is too long for the Remaining Length, with no DISCONNECT and no refusing callback before it |
| EncoderAborts.RunKeepsPassed | src/lmqtt_packet.c:1033-1096 | In every run of the encoder a header is only built for a packet that fits, as that condition asks |
| Transmit.EncodeEmitsPending | src/lmqtt_packet.c:1033-1096 | One call emits a prefix of what is pending and keeps the rest pending; it stops short of the room only when nothing is left or it fails; the idle result means exactly closed or nothing unsent |
| Transmit.PendingAtRest | src/lmqtt_packet.c:1033-1060 | In front of an entry, what is pending is the whole packets of all unsent entries |
| ServerReading.PacketIsUnderstood | src/lmqtt_packet.c:860-937 | A server that knows only the standard reads every encoded packet back as exactly what was asked for: type, flags, ids, every CONNECT field, topics, QoS and payload, and stops where the packet ends (sections 3.1 to 3.14) |
| ServerReading.StreamIsUnderstood | src/lmqtt_packet.c:1033-1060 | A whole stream of packets is read back one by one, with DUP on a PUBLISH exactly when the same request was sent before |
| ServerReading.FirstByteMeans | src/lmqtt_packet.c:556-582 | The first byte of every packet: the control packet type of section 2.2.1, the reserved flags of section 2.2.2, and DUP, QoS and retain of a PUBLISH |
| ServerReading.HeaderIsUnderstood | src/lmqtt_packet.c:302-380 | The client's own header decoder reads the fixed header of every packet it sends, with that type, those flags and the length of the body; only DUP on a QoS 0 message is an error |
| ServerReading.WhenPacketsConform | src/lmqtt_packet.c:513-537 | A packet that is sent keeps the standard's rules for its fields (sections 2.3.1, 3.1.2, 3.1.3, 3.3.1, 3.8.3, 3.10.3) if and only if it is no CONNECT with a will QoS but no will, no PUBLISH of QoS 0 with DUP, and needs no id or has one other than 0 |
| Connections.ServerReadsConnection | src/lmqtt_client.c:353-372 | For the whole client: once everything queued was sent, the server reads on this connection the CONNECT with the fields of the request and then one packet for each entry of the resumed queue and each one queued since, in order |
| Departures.CallSends | src/lmqtt_packet.c:1033-1096 | One encode call, whatever its room and however it ends, sends some entries from the front of the unsent ones: those that wait for a response stay in front of the cursor, the others leave, each is reported in order, QoS 0 messages as complete; only a refused callback of the last message or the assertion fails, only DISCONNECT closes |
| Wire.FieldsMakePacket | src/lmqtt_packet.c:860-937 | For every outgoing kind the encoders in finder order emit the fixed header, the variable header and the payload, and the declared Remaining Length is the number of bytes after the fixed header |
| Wire.ValidatedPacketsAreEncodable | src/lmqtt_packet.c:388-397 | A validated packet other than SUBSCRIBE and UNSUBSCRIBE always fits the four-byte Remaining Length |
| Wire.ConnectFlagsMatchPayload | src/lmqtt_packet.c:432-443 | The connect flags say exactly which payload fields follow, and carry the will QoS, will retain and clean session of the request (sections 3.1.2.3 and 3.1.3) |
| FixedHeader.RemainingLengthRoundTrip | src/lmqtt_packet.c:353-372 | The header decoder reads back every Remaining Length up to 268435455 from the bytes the encoder writes (section 2.2.3) |
| FixedHeader.AcceptedLengthIsCanonical | src/lmqtt_packet.c:353-372 | Every byte string the header decoder accepts as a complete Remaining Length is the encoder's output for the value it reports |
| FixedHeader.WhenLengthIsRefused | src/lmqtt_packet.c:353-359 | A byte of the Remaining Length is an error if and only if it is a fourth byte of 128 or more or a 0 behind another one; every other last byte below 128 completes it |
| Decoding.SplitDoesNotMatter | src/lmqtt_packet.c:1664-1744 | Decode calls as the code makes them, in rounds that take a whole chunk of topic or payload: any partition of a byte stream into calls gives, up to the first error, the same deliveries, popped requests, queued acknowledgements, callbacks and final state as one call with the whole stream |
| Decoding.CallIsBytewise | src/lmqtt_packet.c:1664-1744 | One decode call, chunked rounds and callbacks included, does to the client exactly what its bytes do one at a time |
| RunSteps.StepsAreBytes | src/lmqtt_packet.c:1664-1744 | Any number of DecodeOne steps of the session machine is a decode call on that many bytes of the read buffer |
| Decoding.FramesNeverDrift | src/lmqtt_packet.c:1434-1438 | In an error-free stream the decoder is between packets exactly when the bytes so far are whole packets, each as long as its fixed header plus the Remaining Length it declares |
| RoundTrip.PublishArrives | src/lmqtt_packet.c:1266-1356 | Decoding an encoded PUBLISH gives the application exactly its topic, payload, QoS and retain flag once and holds a QoS 2 id; PUBACK or PUBREC with its id is queued if and only if the store has a place for it; nothing else changes |
| RoundTrip.WhenQueueIsTaken | src/lmqtt_packet.c:1335-1352 | A receiver takes a whole queue if and only if its callbacks take every message and the QoS 2 ids are new, distinct and not more than there are places for |
| RoundTrip.EndToEnd | src/lmqtt_packet.c:1033-1744 | A whole queue of PUBLISH packets, with more appended on the way, encoded in calls of any sizes and decoded in calls of any split, arrives complete and in order, each message delivered once; exactly the QoS 2 ids are held in addition; of the PUBACKs and PUBRECs the first ones that fit are queued, in order and with their ids, and all of them if and only if the store has places for all |
| Incoming.PublishOutcome | src/lmqtt_packet.c:1266-1356 | Every encoded PUBLISH, whatever the application answers but an error: which events are reported, what is queued as acknowledgement, which id is held, when it is not delivered again, and which error ends the decoding |
| Incoming.TopicRefused | src/lmqtt_packet.c:1301-1306 | A refused topic fails the decoder and deallocates, and changes nothing else |
| Incoming.PayloadRefused | src/lmqtt_packet.c:1312-1317 | The same for a refused payload |
| Responses.PubackArrives | src/lmqtt_packet.c:1556-1564 | The literal bytes 40 02 hi lo take out exactly the first sent PUBLISH of QoS 1 with this id, call it back once with success and reset the decoder; without one the decoder fails and nothing changes; a refusing callback is an error |
| Responses.PubrecArrives | src/lmqtt_packet.c:1440-1450 | 50 02 hi lo turn the first sent PUBLISH of QoS 2 with this id into a PUBREL at the tail, without a callback |
| Responses.PubrelArrives | src/lmqtt_packet.c:1478-1498 | 62 02 hi lo let exactly this id go and queue PUBCOMP with it, or fail on a full store |
| Responses.PubcompArrives | src/lmqtt_packet.c:1583-1591 | 70 02 hi lo complete the first sent PUBREL with this id |
| Responses.SubackArrives | src/lmqtt_packet.c:1358-1388 | A SUBACK of any length completes the first sent SUBSCRIBE with its id, storing each return code at its index; another number of codes, or a code other than 0, 1, 2 and 0x80, is an error at that code |
| Responses.UnsubackArrives | src/lmqtt_packet.c:1601-1609 | b0 02 hi lo complete the first sent UNSUBSCRIBE with this id |
| Responses.PingrespArrives | src/lmqtt_packet.c:1610-1618 | d0 00 take out the first sent PINGREQ, and nothing is called back |
| Responses.ConnackArrives | src/lmqtt_packet.c:1227-1264 | 20 02 flags code, for all flags and codes: unexpected, invalid or refused, or the session opens, with the session-present flag reported, the keep-alive and clean session of the request, and the main store kept or flushed |
| Responses.FirstByteArrives | src/lmqtt_packet.c:313-352 | The first byte of a packet is an error if and only if its type is 0 or 15 or its flags are not those of sections 2.2.2 and 3.3.1 |
| Responses.UnwantedPacket | src/lmqtt_packet.c:1689-1700 | Types that only a server receives, and packets too short for their type, are told apart and rejected |
| Responses.TopicLengthArrives | src/lmqtt_packet.c:1284-1291 | The topic length of a PUBLISH is an error if and only if it is 0 or the packet has no room for topic and id |
| Responses.LongResponse | src/lmqtt_packet.c:1518-1535 | A response with more than an id fails at the byte behind the id, unless the id had failed before |
| ReceiveInvariant.RxStepGood | src/lmqtt_packet.c:1440-1461 | Every received byte keeps the decoder inside its packet and does one of four things to the store: nothing, take one sent request of the answered kind and id, queue an acknowledgement, or turn a PUBLISH of QoS 2 into a PUBREL; the PUBREL append never fails |
| ReceiveInvariant.WhenDecoderAborts | src/lmqtt_packet.c:1244-1257 | A byte makes the decoder abort if and only if it is the accepting return code of a CONNACK that declares more than two bytes |
| ReceiveInvariant.RxStepIdChange | src/lmqtt_packet.c:1335-1352 | Every received byte changes at most one held id: a QoS 2 delivery holds an id that was free, PUBREL lets one go |
| SessionInvariant.RunKeepsInv | src/lmqtt_client.c:461-524 | In every run of public calls and run_once moves, those of a closed client included, the client is initial, connecting, connected or failed with everything each of these implies: cursor bounds, kinds before the cursor, what each store may hold, agreeing store pointers, a decoder and an encoder inside their packets |
| SessionInvariant.StepKeepsInv | src/lmqtt_client.c:145-175 | Every single public call and every move of run_once keeps that invariant |
| SessionInvariant.InitialInv | src/lmqtt_client.c:555-576 | It holds after initialize, for all buffer sizes |
| Staging.StoresAreConsistent | src/lmqtt_store.c:8-37 | In every run: cursor within the queue within the array, every entry before the cursor expects a response, the main store never holds a CONNECT, the connect store holds at most one entry, which is a CONNECT or, on a closed client, an acknowledgement, the three store pointers agree, and an open encoder is inside the entry at the cursor |
| Staging.StagingIsLossless | src/lmqtt_client.c:145-175 | In every run the bytes decoded are a prefix of the bytes read, followed by exactly the read buffer as long as the decoder has no error; bytes encoded equal bytes written followed by the write buffer; and neither buffer overflows |
| AtMostOnce.Qos2ReceivedAtMostOnce | src/lmqtt_packet.c:1335-1352 | In every run, reconnects included, between two deliveries of the same QoS 2 packet id there is a PUBREL for it or a session clear, and the id set never holds a duplicate (section 4.3.3) |
| Accounting.EveryRequestIsAccountedFor | src/lmqtt_packet.c:1440-1461 | At every step of every run, each accepted request object is, as often as it was accepted, in a store, in the rx slot, called back, or counted as lost; second callbacks are counted too |
| Accounting.FinalizeCompletesEverything | src/lmqtt_client.c:584-592 | Finalize leaves nothing in flight: callbacks and lost requests together are the accepted requests and the second callbacks |
| ExactlyOnce.CallbacksExactlyOnce | src/lmqtt_client.c:584-592 | For applications whose callbacks never return 0, after any run from initialize that ends with finalize: no request was called back more often than it was accepted, and each exactly as often as it was accepted if and only if no connect was accepted while a response was half decoded |
| Accounting.WhenRequestsAreLostOrRepeated | src/lmqtt_client.c:481-493 | A request is lost exactly when a connect is accepted while its response is half decoded, and a callback repeated exactly when finalize finds a response whose callback was already made |
| Accounting.RefusedConnectIsNeverReported | src/lmqtt_packet.c:1244-1252 | A CONNACK that refuses the connection fails the client without calling on_connect, and reset followed by connect loses that request for good |
| Qos2Send.PacketIdsIdentifyRequests | src/lmqtt_store.c:43-46 | In every run issuing at most 65536 ids, no two queued SUBSCRIBE, UNSUBSCRIBE, PUBLISH of QoS 1 or 2, or PUBREL share an id |
| Qos2Send.Qos2SendOnlyMovesForward | src/lmqtt_packet.c:1440-1461 | In every such run, once PUBREC was processed nothing with that id is emitted as PUBLISH again and no PUBLISH of QoS 2 with it is queued, reconnects included |
| Qos2Send.ReleaseLeavesOnlyPubrel | src/lmqtt_packet.c:1440-1450 | PUBREC turns the PUBLISH into one PUBREL with the same id and value at the tail; it is then the only tracked entry with this id, and no PUBLISH of QoS 2 has it |
| Qos2Send.Qos2CompletesOnPubcomp | src/lmqtt_packet.c:1393-1401 | At every step of every run from a connected client, but end of stream and finalize: a QoS 2 publish is called back if and only if the step decodes the last byte of a packet of type 7 whose PUBREL was sent, and then exactly the request with the received id, once, with success |
| Qos2Send.StepCompletesOnPubcomp | src/lmqtt_packet.c:1393-1401 | The same for a single step, failing ones included |
| Resend.DisconnectKeepsQueue | src/lmqtt_client.c:112-132 | End of stream and reset leave exactly the old queue of a kept session without PINGREQ and DISCONNECT, in order |
| Resend.LosingConnectionKeepsQueue | src/lmqtt_client.c:461-524 | Any way of losing the connection, by end of stream, read or write error, response timeout or reset, keeps what a reconnect resends and what was counted as fully sent |
| Resend.ResumedSessionResendsQueue | src/lmqtt_client.c:495-511 | However long the client stays offline, and however often it fails, is reset and connects again, when a CONNACK resumes the session the cursor is 0 and what the encoder will emit is the whole packets of the kept queue, in its order, with its ids, and DUP on every PUBLISH fully sent before (sections 4.4 and 4.6) |
| Resend.SessionSurvivesReconnect | src/lmqtt_client.c:461-511 | From a connected client through losing the connection in any way, failing, resetting and reconnecting to the CONNACK that resumes the session: the queue that is resent is the queue of the connected client |
| Connections.ConnectionSendsQueue | src/lmqtt_packet.c:1033-1096 | For the whole client, from an accepted connect through the CONNACK to any later step: encoded and still pending bytes are the CONNECT packet followed by the packets of the resumed queue and of what was queued since, in order: the entries of accepted requests, the PINGREQs of an idle line, and the answer to each PUBLISH, PUBREC and PUBREL that came in; what was written is that without the write buffer; a failing step sends a prefix |
| Connections.OthersAreQuiet | src/lmqtt_client.c:145-175 | Every step of an online client but encoding sends nothing and queues exactly those entries |
| Connections.ByteAnswers | src/lmqtt_packet.c:1434-1498 | Every received byte queues exactly the answer it completes, if there is a place: PUBACK or PUBREC behind a PUBLISH, PUBCOMP behind a PUBREL, PUBREL in the place of a PUBLISH behind its PUBREC |
| Connections.ConnectingSendsConnect | src/lmqtt_client.c:481-493 | Before the CONNACK a connection carries at most the CONNECT, whatever is received, requested or timed out |
| Connections.StepAddsUp | src/lmqtt_client.c:145-175 | Each step of an online client keeps this sum, with the packets of what the step queues behind the packets queued before |
| Resend.AtMostOnePing | src/lmqtt_client.c:247-268 | In every run at most one PINGREQ is queued |
| Reconnect.WhenRequestsSucceed | src/lmqtt_client.c:353-459 | In every reachable state connect succeeds if and only if the client is initial, the connect store empty and the fields of the request good; the other requests if and only if the client is connected, there is room in the main store and the fields are good; what good fields are is written out |
| Reconnect.RefusedRequestsChangeNothing | src/lmqtt_client.c:270-288 | A refused request changes nothing but the packet id counter |
| Effects.RequestQueues | src/lmqtt_client.c:374-459 | An accepted request appends exactly its entry, with the next packet id if its kind carries one, and changes nothing else |
| Effects.ConnectBegins | src/lmqtt_client.c:353-372 | An accepted connect: the CONNECT alone in its store, both coders and both staging buffers anew, every call disabled |
| Effects.ConnectionEnds | src/lmqtt_client.c:461-479 | End of stream and reset, written out: a kept session loses PINGREQ and DISCONNECT and reports nothing, a clean one reports every request as failed, a waiting CONNECT is reported as failed, the timer of the connect store starts |
| Effects.FinalizeReports | src/lmqtt_client.c:584-592 | Finalize reports every request as failed, in order: the half-decoded one, the queue, the waiting CONNECT; both stores and the id set are empty, and the error is CLOSED |
| Effects.DecodeErrorFails | src/lmqtt_client.c:177-186 | A decoder error is the client's error |
| Effects.EncodingSends | src/lmqtt_client.c:188-197 | A call of the encoder on the client sends entries as stated for one call, and its error is the client's error |
| Reconnect.FinalizedForever | src/lmqtt_client.c:578-592 | After finalize no sequence of calls clears the CLOSED error, has a request accepted, or moves a byte to or from the network |
| Reconnect.StoreSwitchAtPacketBoundary | src/lmqtt_client.c:290-307 | The current store becomes the main store only by an accepting CONNACK, at field index and offset 0, with the CONNECT gone from its store; then all pointers agree, the cursor is 0 and the queue is kept or empty as clean session says |
| Clock.RemainingIsExact | src/lmqtt_time.c:7-38 | The time left is exactly max(0, touched + when - now), to the nanosecond |
| KeepAlive.WhenTimerActs | src/lmqtt_client.c:247-268 | In terms of the store's entries, timeout, keep-alive and last traffic in nanoseconds: the check fails with Timeout if and only if something is queued and the timeout has passed; a connected client queues exactly one PINGREQ if and only if nothing is queued, there is room and the keep-alive has passed; otherwise nothing changes |
| Timers.OverdueFailsRunOnce | src/lmqtt_client.c:679-684 | run_once with an overdue response reports Timeout, before anything is read or written and as its only step |
| Timers.IdleRunOncePings | src/lmqtt_client.c:674-716 | run_once of a connected client on an idle line has sent a new PINGREQ whenever it reports no error, no end of stream and no blocked write |
| Timers.OutputTouches | src/lmqtt_client.c:160-169 | An output transfer that encodes bytes starts the timer of the current store at the time of the clock; one that moves nothing leaves it; the end of a stream starts the one of the connect store |
| Timers.InputTouches | src/lmqtt_client.c:160-169 | An input transfer that has a byte to decode starts the timer of the store that is current afterwards; one without leaves it |
| Guarantees.ObjectKeepsPromises | src/lmqtt_client.c:555-716 | After any calls on an initialized client object: QoS 2 delivered at most once, every request accounted for, the network was given exactly the encoded bytes that are not still buffered, and what was decoded is a prefix of the bytes read, the rest of which is in the read buffer as long as the decoder has no error |
| Guarantees.OneSession | src/lmqtt_client.c:555-716 | A client built, initialized, connected, run any number of rounds and finalized on any connection has these promises by its public contracts alone |
| Transfers.WhenClosedClientDecodes | src/lmqtt_client.c:145-175 | run_once on a closed client reads and decodes if and only if the write buffer was full and the connection neither failed nor ended while it was written |
| Connections.ClosedWithFullBuffer | src/lmqtt_client.c:461-479 | Such a client is reachable: connect, one encode call into a write buffer not longer than the CONNECT, and the end of the stream leave a closed client without error whose write buffer is full |
| Guarantees.DecodingWhileClosedBlocksConnect | src/lmqtt_client.c:674-700 | A run that decodes a PUBLISH of QoS 1 on a closed client leaves its PUBACK in the connect store, and every connect is refused |
| Guarantees.ClosedDecodingFromInitialize | src/lmqtt_client.c:674-700 | One run from initialize does it all: connect, a full write buffer, the end of the stream, and reading and decoding that PUBLISH |
| Transfers.RunOnceMeans | src/lmqtt_client.c:674-716 | For every client, connection and application run_once ends and is a run of the session machine; it reports a blocked write exactly when bytes are left or the write buffer was full to begin with; without error, end of stream or blocked write the client is open, nothing is unsent and the write buffer is empty; an error hides all flags, and an end of stream comes with exactly one side |
| Transfers.FailuresAreNamed | src/lmqtt_client.c:199-219 | A read that fails is a read error of the client, and a write that fails a write error |
| Transfers.FirstTransfersReport | src/lmqtt_client.c:674-716 | run_once in terms of its first two transfers: which side ended tells the flag that comes with the end of the stream, and a failed side hides the other |
| Transfers.OutputMeans | src/lmqtt_client.c:234-245 | The output transfer fails exactly with the client, ends exactly at an end of stream, blocks on the connection exactly when bytes are left (then the last write was refused) or the buffer was full, and else leaves nothing to send |
| Transfers.InputMeans | src/lmqtt_client.c:221-232 | The input transfer fails exactly with the client, ends exactly when a read returned success with 0 bytes, and else decodes every byte it read and blocks on the connection exactly when the read buffer was not full, after a read that would block |
| Transfers.KeepAliveMeans | src/lmqtt_client.c:247-268 | The keep-alive step is the one of the session machine at the time the clock gives (`WhenTimerActs` says what it does), and with the timer stopped the time does not matter |
| Clients.MqttClient.RunOnce | src/lmqtt_client.c:674-716 | Steps taken, new client, connection and report are exactly those of the specified run_once, with the meaning of every flag |
| Clients.MqttClient.BufferTransfer | src/lmqtt_client.c:145-175 | The staging loop between two ends: steps, new client, connection and status are exactly those of the specified transfer |
| Clients.MqttClient.TransferLoop | src/lmqtt_client.c:152-158 | The loop ends although writes may be partial and reads short, because twice what is readable (or pending) plus what is buffered decreases, then the availability flags; it makes exactly the specified passes |
| Clients.MqttClient.Exec | src/lmqtt_client.c:61-90 | One end moves when available and with room; it stays available exactly after a success with bytes; stale falls exactly then; steps and new state are the specified ones |
| Clients.MqttClient.ProcessOutput | src/lmqtt_client.c:234-245 | Exactly the specified output transfer, on two fresh ends |
| Clients.MqttClient.ProcessInput | src/lmqtt_client.c:221-232 | Exactly the specified input transfer, on two fresh ends |
| Clients.MqttClient.DecodeFrom | src/lmqtt_packet.c:1664-1744 | Decoding the read buffer in rounds is one DecodeOne step for each of its bytes; on success the buffer is empty, on an error the client fails with it |
| Clients.MqttClient.DecodeLoop | src/lmqtt_packet.c:1664-1744 | The loop over the rounds is the specified decode call |
| Clients.MqttClient.EncodeInto | src/lmqtt_client.c:188-197 | One encode call into the free part of the write buffer is exactly one EncodeMore step, with its result and count |
| Clients.MqttClient.ReadInto | src/lmqtt_client.c:199-208 | One Read step with exactly the bytes the connection gives, whatever the result, followed by the failure on an error |
| Clients.MqttClient.WriteFrom | src/lmqtt_client.c:210-219 | One Write step with exactly the prefix the connection takes, the rest moved down, followed by the failure on an error |
| Clients.MqttClient.KeepAliveCheck | src/lmqtt_client.c:247-268 | Exactly the specified keep-alive step; the clock is asked only while the timer runs |
| Clients.MqttClient.FlushStore | src/lmqtt_client.c:101-110 | Every entry is shifted out in order and its callback made with succeeded as the closed flag says |
| Clients.MqttClient.DropTransient | src/lmqtt_client.c:119-125 | The in-place deletion loop leaves exactly the other entries, in order, with the cursor moved along |
| Clients.MqttClient.CleanupStores | src/lmqtt_client.c:112-132 | Keeping a session filters the main store; otherwise it is flushed and the held ids are cleared; the connect store is always flushed |
| Clients.MqttClient.SetStateInitial | src/lmqtt_client.c:461-479 | Error cleared, closed, connect store current and touched, stores cleaned, encoder closed, only connect enabled |
| Clients.MqttClient.SetStateConnecting | src/lmqtt_client.c:481-493 | Error cleared, open, decoder, encoder and both staging buffers reset, connect disabled |
| Clients.MqttClient.SetStateConnected | src/lmqtt_client.c:495-511 | Main store current, stores cleaned by clean session, every entry unmarked, all requests but connect enabled |
| Clients.MqttClient.SetStateFailed | src/lmqtt_client.c:513-524 | Closed with every request disabled |
| Clients.MqttClient.OnConnack | src/lmqtt_client.c:290-307 | An open client takes over clean session and keep-alive and becomes connected before on_connect is told; a closed one only tells |
| Clients.MqttClient.CallSlot | src/lmqtt_packet.c:1393-1401 | The callback of the request in the rx slot, if it has one |
| Clients.MqttClient.FinishPacket | src/lmqtt_packet.c:1452-1460 | A finished packet calls back and resets the decoder; a refusing callback is the decoder's error |
| Clients.MqttClient.FinishSlot | src/lmqtt_packet.c:1648-1651 | Finalize makes the callback of a half-decoded response, and makes it a second time if it was refused before |
| Clients.MqttClient.Initialize | src/lmqtt_client.c:555-576 | The run starts in the initial state for the given buffer sizes |
| Clients.MqttClient.Connect | src/lmqtt_client.c:353-372 | Return value and new state are those of the connect request, through the function table |
| Clients.MqttClient.Subscribe | src/lmqtt_client.c:380-386 | Return value and new state are those of the subscribe request; the id is taken even when the store is full |
| Clients.MqttClient.Unsubscribe | src/lmqtt_client.c:394-400 | The same for unsubscribe |
| Clients.MqttClient.Publish | src/lmqtt_client.c:408-431 | The same for publish, with an id only for QoS 1 and 2 |
| Clients.MqttClient.Disconnect | src/lmqtt_client.c:455-459 | The same for disconnect |
| Clients.MqttClient.Reset | src/lmqtt_client.c:578-582 | Back to the initial state, at the time of the clock, if closed and not finalized; otherwise nothing, and the clock is not asked |
| Clients.MqttClient.Finalize | src/lmqtt_client.c:584-592 | CLOSED error, failed state, callback of a half-decoded response, both stores flushed |
| Clients.MqttClient.SetDefaultTimeout | src/lmqtt_client.c:655-660 | Sets the response timeout of both stores |
| Rounds.ChunkIsBytewise | src/lmqtt_packet.c:1167-1216 | Writing a run of topic or payload bytes in one call, with the allocation question at its first byte and delivery at its last, is the same as byte by byte |
| Rounds.RoundPasses | src/lmqtt_packet.c:1675-1726 | One round takes at least one and at most all bytes at hand and is the run of exactly those bytes, each but the last without a callback |
| RxBuffers.RxBuffer.DecodeRound | src/lmqtt_packet.c:1675-1726 | Decoder, store, id set, log, number of bytes taken and request for a callback after a round are those of the specified round |
| RxBuffers.RxBuffer.ReadHeader | src/lmqtt_packet.c:1676-1705 | A fixed header byte; the last one picks the decoder, rejects server-only types and short packets, and pops requests without an id |
| RxBuffers.RxBuffer.PublishBytes | src/lmqtt_packet.c:1266-1356 | The PUBLISH decoder: topic length, topic chunk, id, payload chunk, capped at the part's end; acknowledges and delivers at the last byte |
| RxBuffers.RxBuffer.WriteChunk | src/lmqtt_packet.c:1167-1216 | A part is asked for once, at its first byte, and takes min(rest of the part, bytes at hand) |
| RxBuffers.RxBuffer.Deliver | src/lmqtt_packet.c:1335-1355 | Delivers unless the QoS 2 id is held; a full id set or a refusing callback deallocates and fails |
| RxBuffers.RxBuffer.Acknowledge | src/lmqtt_packet.c:1328-1333 | Queues PUBACK or PUBREC; a full store drops it silently |
| RxBuffers.RxBuffer.IdBytes | src/lmqtt_packet.c:1518-1535 | Packet ids are read high byte first; the second byte pops the request or releases the id |
| RxBuffers.RxBuffer.PopRequest | src/lmqtt_packet.c:1423-1432 | The slot gets the first sent request of the answered kind and id, or is cleared and the decoder fails |
| RxBuffers.RxBuffer.ReleaseId | src/lmqtt_packet.c:1478-1498 | PUBREL frees the id if held and always queues PUBCOMP; a full store fails |
| RxBuffers.RxBuffer.ConnackBytes | src/lmqtt_packet.c:1227-1264 | Acknowledge flags, return code and the abort on a longer CONNACK |
| RxBuffers.RxBuffer.SubackBytes | src/lmqtt_packet.c:1358-1388 | As many return codes as subscriptions, each 0, 1, 2 or 0x80, stored at its index |
| RxBuffers.RxBuffer.CheckFinished | src/lmqtt_packet.c:1434-1450 | A complete PUBREC queues PUBREL and resets; any other complete packet asks for its callback |
| TxBuffers.FinderEnumeratesFields | src/lmqtt_packet.c:860-994 | For every entry the finders enumerate exactly the fields of its packet and run out exactly at its end |
| TxBuffers.TxBuffer.Encode | src/lmqtt_packet.c:1033-1096 | The encode loop writes behind what is in the buffer exactly the bytes of the specified call and leaves the specified store, position, log and result |
| TxBuffers.TxBuffer.EncodeBuffered | src/lmqtt_packet.c:113-144 | A built field is built once, sent in pieces of any size, and cleared when sent |
| TxBuffers.TxBuffer.Build | src/lmqtt_packet.c:399-448 | The encode buffer holds exactly the bytes of the field: fixed header, header with id, CONNECT header, id or QoS |
| TxBuffers.TxBuffer.FinishCurrent | src/lmqtt_packet.c:1053-1071 | A finished entry is marked if it expects a response, else dropped; DISCONNECT closes the encoder; a PUBLISH of QoS 0 is called back |
| TxBuffers.StringEncode | src/lmqtt_packet.c:219-286 | Length bytes and string bytes from the offset on, as many as fit, with the exact result for empty strings |
| PacketStore.PopMarkedKeepsUnsent | src/lmqtt_store.c:132-144 | A response takes the first entry of its kind and id that was fully encoded since the last unmark, or nothing if there is none; everything unsent stays as it is |
| PacketStore.Store.Find | src/lmqtt_store.c:8-23 | The search finds the first match before the cursor |
| PacketStore.Store.PopAt | src/lmqtt_store.c:25-37 | Removing shifts the tail down and moves a later cursor |
| PacketStore.Store.GetId | src/lmqtt_store.c:43-46 | Ids count up and wrap at 65536 |
| PacketStore.Store.Append | src/lmqtt_store.c:66-82 | Appends at the tail unless full |
| PacketStore.Store.MarkCurrent | src/lmqtt_store.c:111-119 | Moves the cursor over an unsent entry, if there is one |
| PacketStore.Store.DropCurrent | src/lmqtt_store.c:121-124 | Removes the entry at the cursor, if there is one |
| PacketStore.Store.PopMarkedBy | src/lmqtt_store.c:132-144 | Removes and returns the first sent entry of a kind and id |
| PacketStore.Store.Shift | src/lmqtt_store.c:146-150 | Removes and returns the head |
| PacketStore.Store.UnmarkAll | src/lmqtt_store.c:152-155 | Makes every entry unsent |
| PacketStore.Store.TimerIsRunning | src/lmqtt_store.c:157-172 | Whether there is a timer to wait for, which decides if the clock is asked |
| PacketStore.Store.GetTimeout | src/lmqtt_store.c:157-172 | Response timeout when something is queued, keep-alive otherwise, inactive when zero or never touched |
| PacketIds.PutKeepsDistinct | src/lmqtt_packet.c:77-91 | Putting fails exactly when full or present, and keeps the set free of duplicates |
| PacketIds.RemoveTakesOne | src/lmqtt_packet.c:93-107 | Removing takes out that id and nothing else |
| PacketIds.IdArray.Contains | src/lmqtt_packet.c:65-75 | The search answers membership |
| PacketIds.IdArray.Put | src/lmqtt_packet.c:77-91 | The array after a put is the set after a put |
| PacketIds.IdArray.Remove | src/lmqtt_packet.c:93-107 | The array after the shift is the set without the id |
| FixedHeader.EncodeRemainingLength | src/lmqtt_packet.c:33-47 | Writes exactly the base-128 encoding, one to four bytes, behind what is there |
| FixedHeader.HeaderDecoder.Decode | src/lmqtt_packet.c:302-380 | Type, flags and length bytes of the fixed header, with every error branch |
| FixedHeader.HeaderDecoder.DecodeFirst | src/lmqtt_packet.c:313-352 | The first byte: type and flags, or which of them is wrong |
| FixedHeader.HeaderDecoder.DecodeLength | src/lmqtt_packet.c:353-372 | A byte of the Remaining Length |
| Wire.ValidateSubscribe | src/lmqtt_packet.c:625-642 | Accepts exactly non-empty lists of non-empty topics of at most 65535 bytes with a valid QoS |
| Wire.CalcSubscribeRemaining | src/lmqtt_packet.c:543-554 | The loop computes the length of id, topics and requested QoS |
| Wire.CalcRemaining | src/lmqtt_packet.c:388-397 | The computed Remaining Length is the length of the packet's body |
| Clock.GetTimeoutTo | src/lmqtt_time.c:7-38 | The borrow computes the time left, and zero once it has passed |

## Left out

- Clients.MqttClient.FlushStore: callbacks made during a flush do not call the client again; a callback that replaces the function table or appends in between is not modelled.
- Qos2Send.PacketIdsIdentifyRequests: assumes at most 65536 ids issued, as ids wrap and the code does not look whether one is in use.
- RoundTrip.PublishArrives: the receiver's callbacks accept the message and, for QoS 2, the id is free and the id set has room; the other outcomes are in `Incoming.PublishOutcome`, `TopicRefused` and `PayloadRefused`.
- Strings that block: sources and sinks with callbacks, their would-block results, `blocking_str` and the flags DATA_RD and DATA_WR that come only from them. Strings are byte sequences in memory; the position inside a string is derived from the field offset.
- Staging.StagingIsLossless: after a decoder error the position inside the packet and the rest of the read buffer are forgotten by the model, as the code never looks at them before the next connect resets both; what is left of the input is then not stated.
- Sizes of the id set in bytes: capacity and shifts count items (`src/lmqtt_client.c:572`, `src/lmqtt_packet.c:99-100`).
- Builds without assertions, where the PUBREL append and the other asserted calls are not made at all.
- Negative payload lengths and lengths beyond the width of `long`; lengths are natural numbers.
- The topic and payload buffers the application hands out: their content is the bytes written, their address and size are the application's.
- Responses.ConnackArrives: `succeeded = 1` for entries flushed when a new clean session is accepted is stated as the code does it and not judged.
- ServerReading.WhenPacketsConform: what is inside topics and other strings (UTF-8, wildcards) is not judged; the code does not look at it.
- OS error codes, sockets, select, the example programs and the setters of callbacks.
- `lmqtt_client_get_timeout`, which only passes on the store's timer.
