# Verified models of the IoT networking code

Dafny models, with proofs, of the parts of this repository that carry its protocols. Each model
comes twice where the source changes state in place: as an object whose methods update its fields
step by step, and as functions on values. The methods are proved to compute the functions, and the
theorems are about the functions, over every run.

`dafny verify dfyconfig.toml` checks everything.

**Spray-and-wait DTN** (`Dtn*.dfy`, from `ictp/spray-dtn`). Any number of nodes, each with a queue
of message entries in a shared buffer pool, broadcast sprays, answer with requests and hand off
half of their copies, one hand-off at a time. The network is a state machine over the callbacks:
sprays and requests may be lost, repeated or reordered, entries expire and their buffers are
reused. A hand-off is normally processed at most once, reported sent only after that and timed out
only if it was not; the two ways a real channel breaks this (an acknowledgement lost after
delivery, a hand-off processed again) are separate events that are counted per message, and the
theorems say what they cost. The sender halves its count only on the acknowledgement, after the
receiver has added its half, so conservation rests on a potential (`DtnPotential.dfy`) that follows
the hand-off through loss, expiry, top-ups and buffer reuse. The result: at most 8 copies, none lost
before delivery, spreading that stops as long as no relay's entry expires, and delivery and spreading
that stay possible in every reachable state. `DtnExact.dfy` says of every frame, callback and queue
entry which events cause it, and that nothing else does.

**SLIP link** (`Slip*.dfy`, from the border router and its radio node). The escaping encoder, the
2048-byte output buffer that is flushed one packet at a time by partial writes, and the decoder
with its put-back ESC, joined into one link whose runs write, flush and read in any order. Framing
is that of RFC 1055. The buffer's bookkeeping fails for an empty packet; the exact condition is
proved, with the failing run.

**MQTT-SN gateway handler** (`Gateway*.dfy`). The per-client state machine: waiting flags, stored
messages, retry counters, the shared timer list and the topic table, following sections 6.2, 6.5,
6.6 and 6.9 of the MQTT-SN specification 1.2. `GatewaySpec.dfy` has one function per handler,
`GatewayHandler.dfy` the object. Runs record everything received and sent, and the theorems relate
the two: each message is sent exactly under its condition, what is sent stems from what was received,
every PUBLISH and every acknowledgement is accounted for, ids stand for one name, retries are bounded. Only the theorems about names need a
client that echoes the topic id it is given.

**MQTT framing** (`Mqtt*.dfy`). The remaining-length field of section 2.2.3 of MQTT 3.1.1, the
PUBLISH message and the stream reader, with Java's integer widths written out.

**Smaller parts.** The IPv6 printer against a reader written from section 2.2 of RFC 4291
(`Ipv6Text.dfy`), the client's linked topic list (`TopicList.dfy`), and the two 16-slot rings
through which a transmission report finds its callback (`SessionRings.dfy`).

The code and its comments differ in places; the models follow the code. A broker PUBLISH on a
two-character topic with no id is built but never sent. The REGACK handler says the topic id equals
the stored one but does not compare them; `RegackKeepsTopicsExactly` says exactly when that matters.
The hand-off callbacks take a sequence number and ignore it.

## Model

| member | source | states |
|---|---|---|
| DtnConservation.CopiesConserved | ictp/spray-dtn/dtn.c:265-351 | in every state of every run of any number of nodes, the copies of a message in all queues, an entry whose hand-off was delivered but not yet acknowledged counted at half rounded up, and the nodes that hold it, are at most 8 plus 4 for each lost acknowledgement or repeated hand-off of it; without such faults at most 8 nodes hold it |
| DtnWitnesses.LostAckReachesBound | ictp/spray-dtn/dtn.c:306-363 | a concrete run in which one lost acknowledgement leaves 12 copies: the bound is tight and its fault term is needed |
| DtnSpreading.NoCopyLost | ictp/spray-dtn/dtn.c:200-208 | in every run, channel faults included, a READY entry is empty only if the destination's recv callback ran for that message; until the origin's own entry expires, whatever expires elsewhere, it is READY and holds a copy or the destination has the message |
| DtnTermination.SpreadingStops | ictp/spray-dtn/dtn.c:216-327 | however long the run, a message no relay has forgotten completes at most 8(n-1) hand-offs among n nodes, plus 4(n-1)+1 for each lost acknowledgement or repeated hand-off of it |
| DtnWitnesses.NeverStops | ictp/spray-dtn/dtn.c:250-301 | once one relay's READY entry has expired there is no bound: for every m a run of three nodes, free of channel faults and with that expiry only, completes m hand-offs of one message, because the requests two relays sent each other can go on being answered |
| DtnDelivery.DeliveryPossible | ictp/spray-dtn/dtn.c:112-276 | from any reachable state, if a node holds a READY entry with copies for a destination in the network, its next spray, the destination's reception of it and the request that confirms it can follow each other; then the destination's recv callback has run and the node has no copy left |
| DtnDelivery.SpreadPossible | ictp/spray-dtn/dtn.c:112-351 | from any reachable state a node with at least two copies and no hand-off under way can pass half of them to any other node with a PENDING entry or room for one: spray, request, hand-off and acknowledgement can follow each other, and both then hold their halves READY |
| DtnExact.ReceivedExactly | ictp/spray-dtn/dtn.c:200-208 | in every run, a recv callback ran at a node for a message if and only if an earlier event was the reception of a valid spray of it at its destination, by another node's message, or a dtn_send of the node to itself under that id |
| DtnExact.SprayedExactly | ictp/spray-dtn/dtn.c:112-139 | a header was sprayed by a node if and only if an earlier pass of that node over its queue found it READY with copies |
| DtnExact.SprayFromExact | ictp/spray-dtn/dtn.c:124-139 | one pass broadcasts the headers of all READY entries with copies and of no others, in queue order |
| DtnExact.RequestedExactly | ictp/spray-dtn/dtn.c:182-246 | a request was sent if and only if its sender heard a valid spray of another node's message and is the destination, or has it PENDING, or had none, room in the five-entry queue and a buffer; a spray of one copy is asked for by the destination only |
| DtnExact.HandedOffExactly | ictp/spray-dtn/dtn.c:250-301 | a hand-off was sent if and only if a request of another node than the destination found a READY entry of at least two copies and the lock free; it carries half of them, rounded down |
| DtnExact.EntriesExactly | ictp/spray-dtn/dtn.c:182-425 | over every run, each event changes each queue entry exactly so: queued READY with 8 copies, queued PENDING and empty, emptied by the destination's request, topped up to at most 8 and READY, halved by its acknowledgement, expired, or unchanged |
| DtnProperties.QueueStructure | ictp/spray-dtn/dtn.c:195-239 | keys unique per queue, PENDING empty and foreign, at most 8 copies, nothing queued at its own destination, everything queued was submitted for that destination |
| DtnProperties.CallbackProvenance | ictp/spray-dtn/dtn.c:200-208 | recv callbacks run only at the destination, for messages their origin submitted to it |
| DtnProperties.LockHeld | ictp/spray-dtn/dtn.c:286-292 | the lock is held exactly while a hand-off is unreported, and for that message, so neither report callback dereferences a null pointer |
| DtnProperties.OneHandoffAtATime | ictp/spray-dtn/dtn.c:286-297 | a node begins a hand-off only with the lock free and keeps it unchanged until its own report |
| DtnProperties.SentTouchesOneMessage | ictp/spray-dtn/dtn.c:334-351 | over any run, with buffers freed and reused meanwhile, the acknowledgement changes no other message's count |
| DtnProperties.RunExtends | ictp/spray-dtn/dtn.c:182-363 | whatever is enabled after a run can happen: the runs are not cut short by the model |
| DtnSafety.RunInv | ictp/spray-dtn/dtn.c:182-425 | the network invariant behind all of these holds in every state of every run |
| DtnSafety.NextKeeps | ictp/spray-dtn/dtn.c:182-425 | every event, channel faults included, keeps that invariant |
| DtnConservation.RunConserved | ictp/spray-dtn/dtn.c:323-346 | the potential: queues plus undelivered hand-offs, with an acknowledged half counted once, never exceeds its bound |
| DtnConservation.HandoffPays | ictp/spray-dtn/dtn.c:320-327 | a hand-off that arrives adds no more copies than its sender had already put aside |
| DtnTermination.HandoffMeasure | ictp/spray-dtn/dtn.c:323-346 | each completed hand-off uses up the weighted sum of copies by readiness rank |
| DtnCallbacks.SprayRecvEffect | ictp/spray-dtn/dtn.c:182-246 | a spray creates no copies, at most a PENDING empty entry |
| DtnCallbacks.RequestRecvEffect | ictp/spray-dtn/dtn.c:250-301 | a request empties, hands off half or does nothing; no message's potential grows |
| DtnCallbacks.HandoffRecvQueue | ictp/spray-dtn/dtn.c:305-332 | the entry of that message is topped up to at most 8 and becomes READY; other messages stay |
| DtnCallbacks.HandoffRecvEffect | ictp/spray-dtn/dtn.c:320-327 | the potential of that message rises by at most what the hand-off carries |
| DtnCallbacks.HandoffSentEffect | ictp/spray-dtn/dtn.c:334-351 | the entry handed off is halved if the lock still points at it, and no other count changes, whatever occupies the buffer |
| DtnCallbacks.SentPotential | ictp/spray-dtn/dtn.c:342-350 | acknowledging a delivered hand-off settles the potential exactly |
| DtnCallbacks.TimedOutPotential | ictp/spray-dtn/dtn.c:353-363 | what freeing the lock does to the potential, exactly: an undelivered hand-off's copies come back, a delivered one leaves half an entry counted twice, at most 4 copies |
| DtnCallbacks.SendEffect | ictp/spray-dtn/dtn.c:395-425 | dtn_send adds 8 copies of one message under an unused id and nothing else |
| DtnCallbacks.ExpirePotential | ictp/spray-dtn/dtn.c:415-417 | expiry of an entry only loses copies, of that message only |
| DtnConnection.DtnConn.constructor | ictp/spray-dtn/dtn.c:369-384 | the connection starts with an empty queue, id 0 and a free lock |
| DtnConnection.DtnConn.QueueFind | ictp/spray-dtn/dtn.c:150-165 | the queue walk returns the first entry of the message, as Find does |
| DtnConnection.DtnConn.QueueSpray | ictp/spray-dtn/dtn.c:112-139 | one pass broadcasts exactly the READY entries with copies, in order |
| DtnConnection.DtnConn.SprayRecv | ictp/spray-dtn/dtn.c:182-246 | in place, does what SprayRecv does on node values: new state, request and callback |
| DtnConnection.DtnConn.RequestRecv | ictp/spray-dtn/dtn.c:250-301 | in place, does what RequestRecv does: count, lock, saved header and hand-off frame |
| DtnConnection.DtnConn.HandoffRecv | ictp/spray-dtn/dtn.c:305-332 | in place, does what HandoffRecv does: count, READY mark and the sprays that follow |
| DtnConnection.DtnConn.HandoffSent | ictp/spray-dtn/dtn.c:334-351 | in place, does what HandoffSent does: conditional halving through the lock's buffer, lock freed |
| DtnConnection.DtnConn.HandoffTimedOut | ictp/spray-dtn/dtn.c:353-363 | in place, frees the lock only |
| DtnConnection.DtnConn.Send | ictp/spray-dtn/dtn.c:395-425 | in place, does what Send does: id taken, entry queued or callback, sprays |
| SlipLink.EndToEnd | ictp/border-router/native/host/slip-dev.c:177-281 | for any packets, partial writes and chunking, the frames completed are a prefix of what the written packets decode to, and all of it once drained |
| SlipLink.PacketsArrive | ictp/border-router/native/host/slip-dev.c:177-403 | at every verbosity: once drained, the frames are the packets written if and only if every packet is non-empty and survives by itself; if so, they are a prefix of the packets at any time |
| SlipLink.ListExact | ictp/border-router/native/host/slip-dev.c:177-403 | a list of packets, decoded one after the other, comes out as it went in if and only if every packet of it survives |
| SlipLink.SurviveBySize | ictp/border-router/native/host/slip-dev.c:177-281 | at the levels that print no text lines (at most 1, or 4) those are exactly the packets of 1 to 2047 bytes |
| SlipLink.NeverStalls | ictp/border-router/native/host/slip-dev.c:307-353 | while packets are non-empty the end mark and the packet count are exact and a complete packet can always be flushed |
| SlipLink.RunLinkInv | ictp/border-router/native/host/slip-dev.c:289-353 | the output buffer refines an unbounded FIFO: in every state of every run the bytes written to the line followed by the pending ones are all bytes of all packets, and the reader has decoded what it took |
| SlipCodec.ChunkIndependence | ictp/border-router/native/host/slip-dev.c:177-281 | frames and decoder state do not depend on how the byte stream is cut, even after an ESC |
| SlipCodec.RoundTripExact | ictp/border-router/native/host/slip-dev.c:177-281 | a packet is received as sent if and only if it is non-empty, short enough for the buffer and, at the echoing levels, has no text line as a prefix |
| SlipCodec.DecodeEncode | ictp/border-router/native/host/slip-dev.c:388-403 | decoding inverts encoding, from any buffer content |
| SlipCodec.Rfc1055 | ictp/border-router/native/host/slip-dev.c:388-403 | the framing of RFC 1055 in numbers: 192 closes a packet, 192 and 219 in it become 219 220 and 219 221, other bytes stand for themselves |
| SlipCodec.ReaderBytes | ictp/border-router/native/host/slip-dev.c:177-281 | what the reader does with each byte of any stream, in numbers: 192 ends a frame, 219 announces, and after it 220, 221 and any other byte, 192 included, are stored as 192, 219 and themselves |
| SlipCodec.FrameKinds | ictp/border-router/native/host/slip-dev.c:207-243 | a frame is a command, query or debug line by its first character alone, a text line if the rest is text, and otherwise a packet, always handed on whole |
| SlipCodec.SurvivesExact | ictp/border-router/native/host/slip-dev.c:261-281 | a packet reaches its END in the buffer if and only if it is shorter than 2048 bytes and no part of it from the start is a text line that is printed |
| SlipCodec.NodeResyncs | ictp/border-router/native/node/slip-net.c:50-69 | the radio node's leading END turns noise in the reader's buffer into a frame of its own, so that the packet is received as from an empty buffer |
| SlipWriter.PutAllFifo | ictp/border-router/native/host/slip-dev.c:289-305 | bytes enter the buffer in order, or the program exits exactly when they do not fit |
| SlipWriter.FlushFifo | ictp/border-router/native/host/slip-dev.c:313-353 | bytes leave in order, whatever write() accepts: written bytes plus pending ones are unchanged |
| SlipWriter.FlushWithinPacket | ictp/border-router/native/host/slip-dev.c:322-330 | no write crosses a packet boundary |
| SlipWriter.FlushFramedExact | ictp/border-router/native/host/slip-dev.c:330-351 | the bookkeeping survives a flush unless, exactly, it completes a packet and the next byte in the buffer is END, an empty packet (the scan for its END starts at index 1) |
| SlipWriter.EmptyPacketStalls | ictp/border-router/native/host/slip-dev.c:338-345 | a concrete empty packet after which the buffer holds an END and nothing can be flushed |
| SlipReader.SerialInput.Read | ictp/border-router/native/host/slip-dev.c:177-281 | the read loop, with its dropped oversize buffer and put-back ESC, computes the byte automaton |
| SlipReader.SerialInput.IsSensibleString | ictp/border-router/native/host/slip-dev.c:148-160 | the text test skips the first byte |
| SlipDevice.SlipDev.SlipSend | ictp/border-router/native/host/slip-dev.c:289-305 | in place, one byte in, the END count and the first END mark |
| SlipDevice.SlipDev.SlipFlushbuf | ictp/border-router/native/host/slip-dev.c:313-353 | in place, partial write, move to the front and the scan for the next END |
| SlipDevice.SlipDev.WriteToSerial | ictp/border-router/native/host/slip-dev.c:355-405 | the escaped packet and its END go into the buffer, or the program exits exactly when they do not fit |
| SlipDevice.SlipSendPacket | ictp/border-router/native/node/slip-net.c:50-69 | the radio node's encoder writes END, the escaped packet and END, which the same decoder reads |
| GatewayInvariant.HandleKeeps | Gateway/src/org/eclipse/paho/mqttsn/gateway/core/ClientMsgHandler.java:174-2073 | every message from the client or the broker and every timeout keeps flags, stored messages, counters and timers in agreement, and other handlers' timers untouched |
| GatewayRun.RunInv | Gateway/src/org/eclipse/paho/mqttsn/gateway/core/ClientMsgHandler.java:409-502 | in every run, with any client, of a handler created without timers: connected and the two will states exclude each other, each waiting flag has its stored messages, exactly one timer and a counter in 1..maxRetries+1, so no debugging check can fail |
| GatewayRun.RunExtends | Gateway/src/org/eclipse/paho/mqttsn/gateway/core/ClientMsgHandler.java:1993-2024 | whatever is enabled after a run can happen: the stored REGISTER is never null when it is sent again |
| GatewayTopics.TopicIdsFunctional | Gateway/src/org/eclipse/paho/mqttsn/gateway/core/ClientMsgHandler.java:521-526 | over a whole run of a client that echoes the topic id of a REGISTER, an id is never bound to two names, whatever is removed, retried or disconnected |
| GatewayTopics.RunTopics | Gateway/src/org/eclipse/paho/mqttsn/gateway/core/ClientMsgHandler.java:1447-1458 | with a client that echoes, every id bound or announced stands for one name and stays below the next id |
| GatewayTopics.RunNamed | Gateway/src/org/eclipse/paho/mqttsn/gateway/core/ClientMsgHandler.java:1447-1470 | with any client, what the table holds or a pending REGISTER announces has been named, and no two REGISTERs share a message id |
| GatewayTopics.RegackKeepsTopicsExactly | Gateway/src/org/eclipse/paho/mqttsn/gateway/core/ClientMsgHandler.java:585-597 | the handler takes a REGACK's topic id unchecked: ids go on to stand for one name if and only if that id stands for no other name, and the whole topic invariant survives if and only if it was also given out |
| GatewayTopics.ForeignRegackRebinds | Gateway/src/org/eclipse/paho/mqttsn/gateway/core/ClientMsgHandler.java:585-597 | a concrete run from a new handler (CONNECT, CONNACK, broker PUBLISH, REGACK with a predefined topic's id) in which an id stands for two names: the echo is needed |
| GatewayRouting.DeliveredUnderItsName | Gateway/src/org/eclipse/paho/mqttsn/gateway/core/ClientMsgHandler.java:1398-1428 | with a client that echoes, every PUBLISH sent to it on an id carries what the broker published under the one name of that id, and the id is of the range its type says |
| GatewayRouting.ForwardedUnderItsName | Gateway/src/org/eclipse/paho/mqttsn/gateway/core/ClientMsgHandler.java:669-785 | with a client that echoes, every PUBLISH sent to the broker carries what the client published, under the one name of its topic |
| GatewayRouting.EverythingStems | Gateway/src/org/eclipse/paho/mqttsn/gateway/core/ClientMsgHandler.java:174-2073 | with any client, whatever a run sends stems, field by field, from messages received by then: a broker CONNECT and its will from CONNECT, WILLTOPIC and WILLMSG, REGISTERs and PUBLISHes to the client from broker PUBLISHes under a name their id was given (an id outside its range only if the client answered a REGISTER with it), each acknowledgement from the client's message and the broker's answer, SUBACK ids of the subscribed name or 0 for a wildcard |
| GatewayAnswers.SentExactly | Gateway/src/org/eclipse/paho/mqttsn/gateway/core/ClientMsgHandler.java:174-2073 | in every run, with any client, each step sends at most one message each way, and each of the eleven kinds to the client and seven to the broker exactly under its own condition on the state and the event, gathered over all handlers: a REGISTER answered with the bound id exactly if there is one, a PUBLISH delivered exactly on an id the table has for its name, an acknowledgement passed on exactly for the stored message, DISCONNECT sent exactly where a client that is not connected may not send or the broker cannot be reached |
| GatewayAnswers.ChangedExactly | Gateway/src/org/eclipse/paho/mqttsn/gateway/core/ClientMsgHandler.java:174-2073 | likewise the state: a name is bound or unbound, the client connected or disconnected, ids taken, and each answer awaited with its stored message exactly under the condition stated |
| GatewayAnswers.IdsCounted | Gateway/src/org/eclipse/paho/mqttsn/gateway/core/ClientMsgHandler.java:151-164 | the next topic id is always the first after the predefined range plus the ids given out, and the next message id one more than the REGISTERs sent |
| GatewayWildcards.HasWildcardExact | Gateway/src/org/eclipse/paho/mqttsn/gateway/core/ClientMsgHandler.java:1691-1700 | the eight string tests find a wildcard if and only if some level of the topic name, split at its slashes, is exactly # or + |
| GatewayWildcards.LevelsSplit | Gateway/src/org/eclipse/paho/mqttsn/gateway/core/ClientMsgHandler.java:1691-1700 | the levels hold no slash and joined by slashes they are the name again |
| GatewayCounts.PublishesAccounted | Gateway/src/org/eclipse/paho/mqttsn/gateway/core/ClientMsgHandler.java:1375-1480 | at any time of a run, with any client, every PUBLISH of the broker has been delivered once, is kept for its REGACK or was lost for one of the stated reasons, and every PUBLISH of the client was forwarded once or refused; each delivery and each forward matches a source of its own in content and by a topic that stands for the same name |
| GatewayCounts.HandleDelivers | Gateway/src/org/eclipse/paho/mqttsn/gateway/core/ClientMsgHandler.java:544-622 | in one step a PUBLISH taken from the broker is delivered, kept or lost, and the one kept is delivered by its REGACK, lost when the client is disconnected or does not answer the last REGISTER, or still kept |
| GatewayCounts.HandleForwards | Gateway/src/org/eclipse/paho/mqttsn/gateway/core/ClientMsgHandler.java:631-790 | in one step a PUBLISH of the client is forwarded, with its content and under its topic's name, exactly if the client is connected, its topic and QoS allow it, its topic stands for a name, no other QoS 1 PUBLISH is unacknowledged and sending succeeds |
| GatewayAcks.AcksAnswerForwards | Gateway/src/org/eclipse/paho/mqttsn/gateway/core/ClientMsgHandler.java:1514-1561 | for each message id, the messages forwarded with it are exactly those whose acceptance (PUBACK, SUBACK or UNSUBACK) was passed to the client, the one outstanding and those abandoned by a disconnect |
| GatewayAcks.OneOutstanding | Gateway/src/org/eclipse/paho/mqttsn/gateway/core/ClientMsgHandler.java:666-669 | while an acknowledgement of a kind is outstanding nothing else that needs one is forwarded |
| GatewayAcks.HandleAcks | Gateway/src/org/eclipse/paho/mqttsn/gateway/core/ClientMsgHandler.java:1488-1798 | an acknowledgement is passed on only for the stored message and clears it; forwarding stores it; nothing else but a disconnect ends the wait |
| GatewayRetries.RetryBudget | Gateway/src/org/eclipse/paho/mqttsn/gateway/core/ClientMsgHandler.java:1917-2024 | a procedure under way has sent at most maxRetries+1 requests, one more than its timeouts |
| GatewayRetries.OneRequestPerTimeout | Gateway/src/org/eclipse/paho/mqttsn/gateway/core/ClientMsgHandler.java:1917-2024 | while it waits, each timeout sends one request and counts one try |
| GatewayRetries.UnansweredEnds | Gateway/src/org/eclipse/paho/mqttsn/gateway/core/ClientMsgHandler.java:1917-2024 | no stretch of a run with more than maxRetries timeouts is spent waiting |
| GatewayHandler.ClientMsgHandler.constructor | Gateway/src/org/eclipse/paho/mqttsn/gateway/core/ClientMsgHandler.java:151-164 | initialize(): a handler that is not connected, ids from the first free ones, the predefined topics |
| GatewayHandler.ClientMsgHandler.SendClientDisconnect | Gateway/src/org/eclipse/paho/mqttsn/gateway/core/ClientMsgHandler.java:2095-2115 | in place, new state and messages sent as the handler function says: DISCONNECT sent, state, timers and stored messages cleared; ids and topics stay |
| GatewayHandler.ClientMsgHandler.ResetGateway | Gateway/src/org/eclipse/paho/mqttsn/gateway/core/ClientMsgHandler.java:2215-2237 | in place, new state and messages sent as the handler function says: no flag, no try, no stored message |
| GatewayHandler.ClientMsgHandler.ConnectionLost | Gateway/src/org/eclipse/paho/mqttsn/gateway/core/ClientMsgHandler.java:1897-1910 | in place, new state and messages sent as the handler function says: disconnects only a connected client |
| GatewayHandler.ClientMsgHandler.Connect | Gateway/src/org/eclipse/paho/mqttsn/gateway/core/ClientMsgHandler.java:319-391 | in place, new state and messages sent as the handler function says: CONNACK when connected, dropped while a will is awaited, else broker CONNECT or the will procedure |
| GatewayHandler.ClientMsgHandler.WillTopic | Gateway/src/org/eclipse/paho/mqttsn/gateway/core/ClientMsgHandler.java:399-428 | in place, new state and messages sent as the handler function says: stores the will topic and moves on to the will message |
| GatewayHandler.ClientMsgHandler.WillMsg | Gateway/src/org/eclipse/paho/mqttsn/gateway/core/ClientMsgHandler.java:435-503 | in place, new state and messages sent as the handler function says: with both messages stored, connects to the broker with the will |
| GatewayHandler.ClientMsgHandler.Register | Gateway/src/org/eclipse/paho/mqttsn/gateway/core/ClientMsgHandler.java:511-539 | in place, new state and messages sent as the handler function says: the id bound to the name, or the next one, bound at once |
| GatewayHandler.ClientMsgHandler.Regack | Gateway/src/org/eclipse/paho/mqttsn/gateway/core/ClientMsgHandler.java:544-622 | in place, new state and messages sent as the handler function says: with the stored message id, binds the id and delivers the stored PUBLISH |
| GatewayHandler.ClientMsgHandler.Publish | Gateway/src/org/eclipse/paho/mqttsn/gateway/core/ClientMsgHandler.java:631-790 | in place, new state and messages sent as the handler function says: forwards under the topic's name, rejects an unknown id, stores a QoS 1 message |
| GatewayHandler.ClientMsgHandler.Puback | Gateway/src/org/eclipse/paho/mqttsn/gateway/core/ClientMsgHandler.java:798-829 | in place, new state and messages sent as the handler function says: unbinds a rejected id or passes the acknowledgement on |
| GatewayHandler.ClientMsgHandler.Subscribe | Gateway/src/org/eclipse/paho/mqttsn/gateway/core/ClientMsgHandler.java:933-1047 | in place, new state and messages sent as the handler function says: forwards under the topic's name and waits, or rejects an unknown predefined id |
| GatewayHandler.ClientMsgHandler.Unsubscribe | Gateway/src/org/eclipse/paho/mqttsn/gateway/core/ClientMsgHandler.java:1056-1142 | in place, new state and messages sent as the handler function says: forwards under the topic's name and waits |
| GatewayHandler.ClientMsgHandler.Disconnect | Gateway/src/org/eclipse/paho/mqttsn/gateway/core/ClientMsgHandler.java:1212-1239 | in place, new state and messages sent as the handler function says: broker DISCONNECT if it can be sent, then as above |
| GatewayHandler.ClientMsgHandler.BrokerConnack | Gateway/src/org/eclipse/paho/mqttsn/gateway/core/ClientMsgHandler.java:1344-1367 | in place, new state and messages sent as the handler function says: CONNACK or disconnect by the return code |
| GatewayHandler.ClientMsgHandler.BrokerPublish | Gateway/src/org/eclipse/paho/mqttsn/gateway/core/ClientMsgHandler.java:1375-1480 | in place, new state and messages sent as the handler function says: drops what is too long, delivers on a known id, drops short topics, else starts a REGISTER |
| GatewayHandler.ClientMsgHandler.SendRegister | Gateway/src/org/eclipse/paho/mqttsn/gateway/core/ClientMsgHandler.java:1447-1470 | in place, new state and messages sent as the handler function says: stores the PUBLISH and the REGISTER, starts waiting, takes both ids |
| GatewayHandler.ClientMsgHandler.BrokerPuback | Gateway/src/org/eclipse/paho/mqttsn/gateway/core/ClientMsgHandler.java:1488-1562 | in place, new state and messages sent as the handler function says: only for the stored PUBLISH, which it clears |
| GatewayHandler.ClientMsgHandler.BrokerSuback | Gateway/src/org/eclipse/paho/mqttsn/gateway/core/ClientMsgHandler.java:1643-1743 | in place, new state and messages sent as the handler function says: only for the stored SUBSCRIBE; 0 for a wildcard, the known id or the next one |
| GatewayHandler.ClientMsgHandler.BrokerUnsuback | Gateway/src/org/eclipse/paho/mqttsn/gateway/core/ClientMsgHandler.java:1751-1799 | in place, new state and messages sent as the handler function says: only for the stored UNSUBSCRIBE; unbinds its topic name |
| GatewayHandler.ClientMsgHandler.WillTopicTimeout | Gateway/src/org/eclipse/paho/mqttsn/gateway/core/ClientMsgHandler.java:1917-1947 | in place, new state and messages sent as the handler function says: sends again and counts, or gives up beyond maxRetries |
| GatewayHandler.ClientMsgHandler.WillMsgTimeout | Gateway/src/org/eclipse/paho/mqttsn/gateway/core/ClientMsgHandler.java:1955-1985 | in place, new state and messages sent as the handler function says: sends again and counts, or gives up beyond maxRetries |
| GatewayHandler.ClientMsgHandler.RegackTimeout | Gateway/src/org/eclipse/paho/mqttsn/gateway/core/ClientMsgHandler.java:1993-2024 | in place, new state and messages sent as the handler function says: sends again under a new message id and counts, or gives up beyond maxRetries |
| GatewayHandler.ClientMsgHandler.HandleMqttsMessage | Gateway/src/org/eclipse/paho/mqttsn/gateway/core/ClientMsgHandler.java:174-291 | in place, new state and messages sent as the handler function says: dispatches every message from the client to its handler |
| GatewayHandler.ClientMsgHandler.HandleMqttMessage | Gateway/src/org/eclipse/paho/mqttsn/gateway/core/ClientMsgHandler.java:1270-1336 | in place, new state and messages sent as the handler function says: dispatches every message from the broker to its handler |
| GatewayHandler.ClientMsgHandler.HandleControlMessage | Gateway/src/org/eclipse/paho/mqttsn/gateway/core/ClientMsgHandler.java:1856-1891 | in place, new state and messages sent as the handler function says: dispatches every control message to its handler |
| GatewayTables.TimerService.Register | Gateway/src/org/eclipse/paho/mqttsn/gateway/timer/TimerService.java:71-82 | the timer task goes to the end of the list |
| GatewayTables.TimerService.Unregister | Gateway/src/org/eclipse/paho/mqttsn/gateway/timer/TimerService.java:92-102 | the first task of the address and type goes and is cancelled |
| GatewayTables.TimerService.UnregisterAddress | Gateway/src/org/eclipse/paho/mqttsn/gateway/timer/TimerService.java:111-119 | the backwards loop removes and cancels all tasks of the address and no other; list and cancelled tasks together are the old list |
| GatewayTables.TopicMappingTable.Initialize | Gateway/src/org/eclipse/paho/mqttsn/gateway/core/TopicMappingTable.java:33-44 | the predefined topics are added |
| GatewayTables.TopicMappingTable.TopicId | Gateway/src/org/eclipse/paho/mqttsn/gateway/core/TopicMappingTable.java:62-75 | the first id, in the table's own order, bound to the name, or 0 |
| GatewayMessages.GetTopicId | Gateway/src/org/eclipse/paho/mqttsn/gateway/core/TopicMappingTable.java:62-75 | an id other than 0 is bound to the name; 0 means that no id of the order is, in a table without id 0 (a REGACK with that id can bind it) |
| GatewayMessages.GetTopicIdExact | Gateway/src/org/eclipse/paho/mqttsn/gateway/core/TopicMappingTable.java:62-75 | an id other than 0 is returned if and only if it is the first in the enumeration that is bound to the name |
| GatewayTables.TopicMappingTable.RemoveTopicName | Gateway/src/org/eclipse/paho/mqttsn/gateway/core/TopicMappingTable.java:88-101 | the first id above the predefined range bound to the name is unbound |
| GatewayMessages.RemoveByNameSubset | Gateway/src/org/eclipse/paho/mqttsn/gateway/core/TopicMappingTable.java:88-101 | removal by name keeps every other binding and every predefined one |
| GatewayMessages.RemoveByNameExact | Gateway/src/org/eclipse/paho/mqttsn/gateway/core/TopicMappingTable.java:88-101 | if an id above the predefined range is bound to the name, exactly the first such id of the enumeration goes and all other bindings stay; otherwise the table is unchanged |
| MqttStream.StreamRoundTrip | Gateway/src/org/eclipse/paho/mqttsn/gateway/broker/tcp/TCPBrokerInterface.java:152-205 | any list of PUBLISH messages, of any message id at QoS 0, written back to back is read and reparsed as that list, but for those unsent ids, and the stream is left at what follows |
| MqttStream.ComesBackExactly | Gateway/src/org/eclipse/paho/mqttsn/gateway/messages/mqtt/MqttPublish.java:48-99 | a PUBLISH comes back, but for its message id at QoS 0, if and only if QoS is 0..3, the topic has at most 65535 bytes, the message id fits 16 bits at QoS above 0 and the whole is not too long |
| MqttCodec.RoundTripExact | Gateway/src/org/eclipse/paho/mqttsn/gateway/messages/mqtt/MqttPublish.java:48-99 | a PUBLISH can be written and comes back from its bytes if and only if QoS is 0..3, the topic has at most 65535 bytes, the message id fits 16 bits (0 for QoS 0) and the whole is not too long |
| MqttWire.WireFormat | Gateway/src/org/eclipse/paho/mqttsn/gateway/messages/mqtt/MqttPublish.java:70-99 | the bytes of a PUBLISH by section 3.3 of MQTT 3.1.1: type 3 and the flags in the first byte, the remaining length, the topic and message id with their most significant byte first, the payload |
| MqttWire.ParsesExactly | Gateway/src/org/eclipse/paho/mqttsn/gateway/messages/mqtt/MqttPublish.java:48-64 | bytes are read as a PUBLISH if and only if they hold its flags and, behind the header, its body in that layout |
| MqttWire.ForeignExactly | Gateway/src/org/eclipse/paho/mqttsn/gateway/messages/mqtt/MqttPublish.java:48-64 | the reader meets a topic beyond ASCII exactly if the topic lies within the bytes and one of its bytes is 128 or more |
| MqttWire.HeaderExactly | Gateway/src/org/eclipse/paho/mqttsn/gateway/messages/mqtt/MqttPublish.java:48-64 | the header's length is the array's length less the remaining length as a 32-bit number, and only type 3 is read as a PUBLISH |
| MqttCodec.EncodedLength | Gateway/src/org/eclipse/paho/mqttsn/gateway/messages/mqtt/MqttMessage.java:65-84 | the length field is well-formed, has the length's value and one to four bytes by its size |
| MqttCodec.LengthIsMinimal | Gateway/src/org/eclipse/paho/mqttsn/gateway/messages/mqtt/MqttMessage.java:65-84 | no well-formed field of the same value is shorter or differs at the same length |
| MqttCodec.DecodeEncodedLength | Gateway/src/org/eclipse/paho/mqttsn/gateway/messages/mqtt/MqttMessage.java:90-104 | decoding the written field, in 32-bit steps, returns every length up to 268435455 |
| MqttStream.FrameRead | Gateway/src/org/eclipse/paho/mqttsn/gateway/broker/tcp/TCPBrokerInterface.java:164-200 | a frame is read off the stream whole, whatever follows |
| MqttStream.NeverNotValid | Gateway/src/org/eclipse/paho/mqttsn/gateway/broker/tcp/TCPBrokerInterface.java:185-189 | the check for an overlong message can never fail: four length bytes cannot say that much |
| MqttBroker.LengthDigits | Gateway/src/org/eclipse/paho/mqttsn/gateway/messages/mqtt/MqttMessage.java:65-78 | the digit loop writes exactly the length field, and overruns its four-byte array exactly beyond 268435455 |
| MqttBroker.EncodeMsgLength | Gateway/src/org/eclipse/paho/mqttsn/gateway/messages/mqtt/MqttMessage.java:65-84 | the field goes in after the first byte |
| MqttBroker.DecodeMsgLength | Gateway/src/org/eclipse/paho/mqttsn/gateway/messages/mqtt/MqttMessage.java:90-104 | the loop computes the field's value, or runs off the array |
| MqttBroker.ToBytes | Gateway/src/org/eclipse/paho/mqttsn/gateway/messages/mqtt/MqttPublish.java:70-99 | the buffer filled by position is the message's bytes |
| MqttBroker.FromBytes | Gateway/src/org/eclipse/paho/mqttsn/gateway/messages/mqtt/MqttPublish.java:48-64 | the constructor from bytes computes the parse, with its failures |
| MqttBroker.TCPBrokerInterface.ReadHeader | Gateway/src/org/eclipse/paho/mqttsn/gateway/broker/tcp/TCPBrokerInterface.java:164-184 | the header loop takes one to four length bytes, or meets the end of the stream |
| MqttBroker.TCPBrokerInterface.ReadMsg | Gateway/src/org/eclipse/paho/mqttsn/gateway/broker/tcp/TCPBrokerInterface.java:152-205 | one message is taken off the stream, or it ends, or nothing is valid |
| Ipv6Text.RoundTrip | ictp/mqtt/mqtt-demo.c:186-208 | reading the printed text by section 2.2 of RFC 4291 returns the address, for every address |
| Ipv6Text.AtMost39 | ictp/mqtt/mqtt-demo.c:186-208 | the text has at most 39 characters and at most one double colon |
| Ipv6Text.HexPlain | ictp/mqtt/mqtt-demo.c:194-204 | a group is written in lower-case hexadecimal without leading zeros |
| Ipv6Text.Printed | ictp/mqtt/mqtt-demo.c:191-205 | the double colon stands for the first whole run of zero groups |
| Ipv6Text.IpaddrSprintf | ictp/mqtt/mqtt-demo.c:186-208 | the printing loop with its flag produces that text |
| TopicList.ListRefinesMap | mqtt-sn-tools/mqtt-sn.c:532-587 | after any registrations of 16-bit ids and any names, each id appears once, in first-registration order, and lookup returns the first 249 characters of the last name registered with it |
| TopicList.TopicMap.RegisterTopic | mqtt-sn-tools/mqtt-sn.c:532-572 | the linked list stays linked and finite; the first entry with the id is overwritten or one is added at the end |
| TopicList.TopicMap.LookupTopic | mqtt-sn-tools/mqtt-sn.c:574-587 | the name of the first entry with the id, or none |
| TopicList.TopicMap.Cleanup | mqtt-sn-tools/mqtt-sn.c:918-930 | the walk ends, frees every node once and empties the list |
| SessionRings.ReportReachesExactly | ictp/border-router/native/host/border-router-rdc.c:69-98 | in every run, with packets lost or refused on the way, a report is passed to the callback of the newest packet with its session id, and that is its own packet if and only if fewer than 16 packets were sent since |
| SessionRings.ReportCarries | ictp/border-router/native/node/slip-radio.c:79-135 | when a transmission ends, the report carries the session id of the last packet the radio received into its slot, put on air or refused |
| SessionRings.ReportReachesCallback | ictp/border-router/native/host/border-router-rdc.c:69-98 | with fewer than 16 packets sent since, the report reaches exactly its packet's callback |
| SessionRings.LateReportGoesElsewhere | ictp/border-router/native/host/border-router-rdc.c:82-98 | with 16 or more it reaches the callback of a later packet, whatever its slot holds by then |
| SessionRings.LateReportMisdirected | ictp/border-router/native/node/slip-radio.c:102-135 | a concrete run: 17 packets sent before the first one's transmission ends, and its report goes to the 17th packet's callback |
| SessionRings.BorderRouter.SetupCallback | ictp/border-router/native/host/border-router-rdc.c:82-98 | the callback is stored in the slot whose number goes out, and the position moves on modulo 16 |
| SessionRings.BorderRouter.PacketSent | ictp/border-router/native/host/border-router-rdc.c:69-79 | the callback in the reported slot, none for a number out of range |
| SessionRings.SlipRadio.SendCommand | ictp/border-router/native/node/slip-radio.c:102-135 | the session id is stored in the current slot; the position moves on only if the attributes are legal |
| SessionRings.SlipRadio.PacketSent | ictp/border-router/native/node/slip-radio.c:79-96 | the report carries what the slot holds by then |

## Left out

- DtnConservation.CopiesConserved: packet ids and sequence numbers are unbounded and node addresses fixed; with 16-bit ids that wrap within a message's lifetime two messages could share a key.
- DtnTermination.SpreadingStops: says nothing of a message a relay has forgotten, that is, whose READY entry expired away from its origin; `NeverStops` of DtnWitnesses shows that there is no bound then.
- DtnSpreading.NoCopyLost: its second half ends when the origin's own entry expires, since expiry deletes copies by design.
- GatewayTopics.TopicIdsFunctional: assumes that a client answering a REGISTER echoes its topic id, as do RunTopics, DeliveredUnderItsName and ForwardedUnderItsName and no other theorem; `RegackKeepsTopicsExactly` covers any other REGACK. Ids are unbounded.
- GatewayRun.RunInv: holds for the life of one handler that starts with no timer for its address; a handler removed for inactivity leaves its timers behind, and its successor starts with them.
- MqttStream.StreamRoundTrip: topics are ASCII; the constructor mixes character and byte counts, so other topics do not survive.
- Ipv6Text.IpaddrSprintf: the output buffer is large enough; snprintf's truncation is not modelled.
- TopicList.ListRefinesMap: a name of 249 and more characters fills the entry without a terminator; what a C string function reads beyond the entry is not modelled.
- Contiki's queue, packet buffers, timers and radio stack: abstracted to slots, expiry events and channels. A node does not hear its own broadcasts, and the spray timer is just another broadcast pass.
- The overlapping memcpy of the output buffer is taken as a move; a write error or a full buffer ends the program and the run.
- The host's other uses of the serial line: radio commands and debug lines are reported as the frames they are, not executed.
- The broker connection: whether it opens and takes a message is an input of each step, and the order in which the topic table is enumerated is another.
- GatewayMsgHandler, the dispatcher's queue, configuration, UDP encapsulation and the MQTT-SN message classes: forwarding, input and output, or no round trip to state.
- Gateway timeouts may come at any time, running timer or not; clocks and periods are not modelled.
- Will updates and QoS 2 beyond passing its messages on: the handler ignores them.
- A second continuation past the fourth length byte: readMsg stops there while decodeMsgLength reads on; no message that toBytes writes has one.
- Transmission status and count in a report: passed through unchanged.
- Logging, sockets, threads, serial and tun set-up, the request protothreads, demos, other clients and the web servers.
