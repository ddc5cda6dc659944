# Verified model of Smooth's protocols and services

Smooth is a C++17 framework for embedded network applications. This project models the parts of it whose
correctness is spread over several classes and many steps, and proves what they promise over all runs:

- **MQTT quality of service** (`MqttTypes`, `Publication`, `Subscription`, `RunState`, `QosSystem`, `QosInvariant`,
  `QosTheorems`, `QosEveryRun`, `QosFlow`, `QosDropped`, `QosProgress`, `SubscriptionQos`): the sending and the
  receiving half of the handshake as classes, and as one state machine in which they are joined by two FIFO channels
  that may lose packets.
- **Byte streams** (`ByteBuffers`, `RemainingLength`, `MqttPacket`, `MqttFraming`, `CircularBuffer`, `Pipe`,
  `PipeDelivery`, `SocketBuffers`, `HttpPackets`, `Websocket`, `HttpBody`): packet layouts, the three incremental
  parsers, and the way from put() on one socket to the listener behind another. All claims quantify over every way of
  cutting the stream into reads.
- **Event delivery** (`EventQueues`, `EventDelivery`, `EventQueueClasses`, `EventThreads`, `IsrQueue`): queues of a Task
  with a shared notification list.
- **Timers** (`TimerHeap`, `Timers`, `TimerDeadlines`, `TimerStops`, `TimerClasses`): a binary heap whose keys live in
  mutable elements.
- **Socket dispatcher** (`Dispatcher`, `DispatcherStarts`, `DispatcherClasses`): open descriptors, watched sockets and
  pending operations.

Each part has a functional description of one step, classes in the form of the source that are proved to make exactly
these steps, and theorems about all runs of steps. Histories (what was published, sent, delivered) are fields of the
state, so that the theorems compare what came out with what went in.

Clocks, thread scheduling, the network, and the choice of packet identifiers are parameters of the steps. A critical
section of the source is one step. Integer counters of the source are unbounded here except where the width matters:
16-bit string lengths and packet identifiers, and bytes.

## What the code does not promise

- The shipped MQTT client connects with a clean session (`Connect.h:32`). Exactly-once delivery holds after a run if
  and only if no reconnect erased a waiting message in it: `ExactlyOnceDelivery`; `CleanSessionBreaksExactlyOnce` is
  such a run. In all runs no QoS 2 message is forwarded twice (`NeverForwardedTwice`), completed QoS 1 messages are
  forwarded (`AtLeastOnceDelivery`), and of the completed QoS 2 messages with one identifier no more are missing than
  dropped ones were forwarded (`NoMoreMissingThanStrays`), possibly long before (`StrayMayComeFirst`).
- Section 3.3.1.1 of MQTT 3.1.1 asks for DUP on a PUBLISH that is sent again and on no other. The code leaves it out when
  a QoS 2 message is sent again, and sets it on a head that was never sent: `DupWhenResent`.
- The comment in `QueueNotification.cpp:26-32` says that the token list is bounded by the queue sizes. That holds
  without `clear()` (`TokensBounded`), and with it only if no queue can hold an event (`BoundIffNothingFits`).
- `TimerQueue::remove_timer` erases from the heap's vector without restoring the heap, so a due timer can be passed
  over, also when the stopped timer was not the top: `StopDelaysAnother`, `StopPassesOverAnother`. Whatever is started
  afterwards, no due timer is passed over if and only if every moved element fits under its new parent:
  `CompleteAfterStop`.
- After an HTTP header read that runs past the declared body the protocol delivers foreign bytes or asks for a negative
  amount, and nothing is claimed about what follows: `ConservedIff`, `NotConservedBeyond`.
- `get_topics` does not take its branch for malformed packets while two bytes or more are left (`ListFirst`); a
  malformed payload is read past its end instead (`ListingIsExact`). With one byte left the length of the string
  already lies past the end.
- A full operation queue loses the AddActiveSocket of an accepted connection: `AcceptNeedsRoom`.

## Model

Setters and other one-line members of the classes (`Notify`, `PacketConsumed`, `CalculateNextExecution` and the like)
only tie a class to its functional description and have no row.

| member | source | states |
|---|---|---|
| QosTheorems.ExactlyOnceDelivery | lib/smooth/application/network/mqtt/Publication.cpp:67-270 | MQTT 3.1.1 section 4.3.3 over every run of both halves joined by lossy FIFO channels that are emptied on disconnect, identifiers reused at will: the QoS 2 messages handed to the application are the completed ones, or those and then the head, once each and in publish order, with every published message completed or in flight, if and only if no clean-session reconnect erased a waiting message in the run |
| QosEveryRun.NeverForwardedTwice | lib/smooth/application/network/mqtt/Subscription.cpp:155-211 | In every run, clean-session drops included: what is forwarded was published, and no QoS 2 message is forwarded twice |
| QosDropped.NoMoreMissingThanStrays | lib/smooth/application/network/mqtt/Publication.cpp:80-89 | In every run, clean-session drops included, and for each identifier: no more completed QoS 2 messages were never forwarded than dropped ones were forwarded |
| QosDropped.MissingNeedsStray | lib/smooth/application/network/mqtt/Publication.cpp:80-89 | So while a completed QoS 2 message is missing, some dropped message with the same identifier has been forwarded |
| QosTheorems.StrayMayComeFirst | lib/smooth/application/network/mqtt/Publication.cpp:80-89 | A run in which that dropped message was forwarded, and nothing else had been published, before the missing one was published |
| QosFlow.AtLeastOnceDelivery | lib/smooth/application/network/mqtt/Subscription.cpp:155-190 | Section 4.3.2 in every run, clean-session drops included: a completed QoS 1 message has been forwarded |
| QosDropped.BalanceStep | lib/smooth/application/network/mqtt/Publication.cpp:67-270 | Every step, drops included, keeps for each identifier: messages completed, and those that the replies under way can still complete, do not exceed those forwarded and stored |
| QosFlow.FlowStep | lib/smooth/application/network/mqtt/Subscription.cpp:155-211 | Every step, drops included, keeps PUBLISH packets in publish order, at most one packet of a QoS 1 message under way, and the identifier of a forwarded head free |
| QosProgress.NothingStuck | lib/smooth/application/network/mqtt/Publication.cpp:67-270 | After any run from the start, whatever was lost or dropped in it, as many rounds (a connection without clean session, two ticks, the packets of one handshake) as messages are in flight complete all of them in their order and hand over those of QoS 0 and 1 |
| QosProgress.RoundCompletesHead | lib/smooth/application/network/mqtt/Subscription.cpp:155-211 | One such round completes the head whatever it waited for, hands over the stored message of its identifier or the head itself unless it was forwarded before, frees the identifier, and leaves the other messages alone |
| QosProgress.TickIsStep | lib/smooth/application/network/mqtt/state/RunState.cpp:24-40 | On every connected system the tick of the joined model has the list, the packets and the drop of the client's tick |
| QosProgress.FirstTick | lib/smooth/application/network/mqtt/Publication.cpp:91-122 | Without a clean session the first tick of a connection sends the PUBREL of a released head again, and lets any other head wait for nothing, so that the next tick publishes it |
| QosProgress.FirstCleanTick | lib/smooth/application/network/mqtt/Publication.cpp:80-89 | With a clean session it sends nothing and erases exactly a head that waits |
| QosProgress.DupWhenResent | lib/smooth/application/network/mqtt/Publication.cpp:91-122 | Which PUBLISH carries DUP after the first tick: all but one whose head waited for PUBREC without DUP, and so also one that was never sent, against section 3.3.1.1 |
| QosProgress.LateReplyDisconnects | lib/smooth/application/network/mqtt/Publication.cpp:126-206 | A disconnect is forced exactly if the head has awaited its reply too long, and never by the first tick |
| QosProgress.FullRing | lib/smooth/application/network/mqtt/Publication.cpp:126-252 | While the ring is full nothing is sent and no head begins to wait for a reply |
| QosProgress.PublishIsAccepted | lib/smooth/application/network/mqtt/Publication.cpp:39-52 | publish() takes a message exactly while fewer than ten are in the list, and puts it last |
| QosEveryRun.StepKeeps | lib/smooth/application/network/mqtt/Subscription.cpp:155-211 | Every step, drops included, keeps stored, forwarded and travelling QoS 2 messages apart from each other |
| QosTheorems.MixedQosOrder | lib/smooth/application/network/mqtt/Subscription.cpp:155-190 | Sections 4.3.2 and 4.6 in the same runs: the forwarded log with adjacent repeats collapsed is in publish order, consists of published messages and contains every completed QoS 1 and QoS 2 message |
| QosTheorems.CleanSessionBreaksExactlyOnce | lib/smooth/application/network/mqtt/Publication.cpp:80-89 | A concrete run with a clean session in which the stale message is forwarded in place of a new one with the same identifier, which is nevertheless completed |
| QosInvariant.StepKeeps | lib/smooth/application/network/mqtt/Publication.cpp:126-270 | Every step of the joined halves (publish, tick, delivery, PUBREC retry, loss, disconnect, reconnect) keeps the invariant on list, store, log and both channels, or is a clean-session drop |
| QosInvariant.DeliverReleaseKeeps | lib/smooth/application/network/mqtt/Subscription.cpp:192-211 | A PUBREL in the channel concerns a message that is stored or already forwarded: handling it forwards a stored message once, and answers with PUBCOMP in any case |
| QosInvariant.DeliverHighQosKeeps | lib/smooth/application/network/mqtt/Subscription.cpp:172-189 | A QoS 2 PUBLISH in the channel is stored if its identifier is free, and a repeated one is not stored again |
| QosInvariant.ResendKeeps | lib/smooth/application/network/mqtt/Publication.cpp:91-122 | The one resend after a reconnect keeps both sides in step, whichever reply the head waited for |
| PublicationModel.SenderStaysOrderly | lib/smooth/application/network/mqtt/Publication.cpp:39-270 | Under any peer and in any run: accepted messages are the erased ones (clean-session drops included) followed by those in progress, the list keeps its limit, only its head waits for a reply, and only a QoS 2 head waits for PUBREC or PUBCOMP |
| PublicationModel.OrderlyFromStart | lib/smooth/application/network/mqtt/Publication.cpp:39-270 | So in every run of a new client |
| PublicationModel.ReleasedIsNeverPublishedAgain | lib/smooth/application/network/mqtt/Publication.cpp:91-113 | Once a message waits for PUBCOMP or is done, no continuation of the run puts its PUBLISH on the wire again, whatever the peer sends |
| PublicationModel.ActKeepsReleased | lib/smooth/application/network/mqtt/Publication.cpp:225-252 | The same for one step |
| PublicationModel.TurnTouchesHead | lib/smooth/application/network/mqtt/Publication.cpp:126-206 | Every operation of the sending half erases the head, changes only the head and never its message, or changes nothing |
| PublicationModel.Publication.PublishMessage | lib/smooth/application/network/mqtt/Publication.cpp:39-52 | publish(): accepted exactly while the list is below its limit, and then appended without waiting for anything |
| PublicationModel.Publication.PublishNextMessage | lib/smooth/application/network/mqtt/Publication.cpp:126-206 | publish_next(): the new list, the packets sent and the forced disconnect are those of the model's turn |
| PublicationModel.Publication.ResendOutstandingControlPacket | lib/smooth/application/network/mqtt/Publication.cpp:67-124 | resend_outstanding_control_packet() is the model's resend turn |
| PublicationModel.Publication.ReceivePubAck | lib/smooth/application/network/mqtt/Publication.cpp:208-223 | PUBACK with the head's identifier erases the head, whatever it waits for |
| PublicationModel.Publication.ReceivePubRec | lib/smooth/application/network/mqtt/Publication.cpp:225-252 | PUBREC for a waiting head sends PUBREL, and only if that could be queued the head waits for PUBCOMP |
| PublicationModel.Publication.ReceivePubComp | lib/smooth/application/network/mqtt/Publication.cpp:254-270 | PUBCOMP for a waiting head erases it |
| SubscriptionModel.NoSubscriptionLost | lib/smooth/application/network/mqtt/Subscription.cpp:36-153 | In any run of subscribe, unsubscribe, sending, acknowledgements, disconnect and reconnect a topic stays active or being subscribed until an UNSUBACK completes an unsubscription of that very topic |
| SubscriptionModel.LostOnlyByUnsubAck | lib/smooth/application/network/mqtt/Subscription.cpp:213-236 | A step loses a wanted topic exactly if it is the UNSUBACK that completes an unsubscription of that topic and the topic is not being subscribed meanwhile |
| SubscriptionQos.OnlyWhatWasAsked | lib/smooth/application/network/mqtt/Subscription.cpp:36-153 | In every run, whatever is active or requested is so with a QoS that some subscribe() asked for that topic |
| SubscriptionQos.EveryRequestCanBecomeActive | lib/smooth/application/network/mqtt/Subscription.cpp:70-153 | From any state, sending and answering makes every requested topic active: with the QoS it was active with, or else was requested with first |
| SubscriptionQos.SubAckActivates | lib/smooth/application/network/mqtt/Subscription.cpp:129-153 | The SUBACK of the waiting first request makes its topic active with the requested QoS unless it was active, and changes no other entry |
| SubscriptionQos.OtherSubAck | lib/smooth/application/network/mqtt/Subscription.cpp:129-153 | Any other SUBACK changes nothing |
| SubscriptionQos.ActiveQosStays | lib/smooth/application/network/mqtt/Subscription.cpp:36-236 | An active entry keeps its QoS until its UNSUBACK or the loss of the connection |
| SubscriptionQos.DisconnectRequestsAgain | lib/smooth/application/network/mqtt/Subscription.cpp:106-127 | A lost connection requests each active topic again with its QoS |
| SubscriptionQos.StepKeepsWaiting | lib/smooth/application/network/mqtt/Subscription.cpp:106-127 | Only the first request of each list ever waits, and none after the connection was lost |
| SubscriptionQos.SubscribeIsHonoured | lib/smooth/application/network/mqtt/Subscription.cpp:36-59 | subscribe() queues a request last, waiting for nothing, exactly unless the topic is active with that QoS |
| SubscriptionQos.UnsubscriptionEnds | lib/smooth/application/network/mqtt/Subscription.cpp:213-236 | An unsubscription that is sent and answered ends its topic and no other |
| SubscriptionQos.FirstRequestsAreSent | lib/smooth/application/network/mqtt/Subscription.cpp:70-78 | With room for two packets and no reply overdue, the first request of each list is sent exactly unless it waits |
| SubscriptionQos.LateRepliesDisconnect | lib/smooth/application/network/mqtt/Subscription.cpp:70-78 | An overdue SUBACK or UNSUBACK forces a disconnect, an overdue SUBACK holds back the UNSUBSCRIBE, and a full ring takes nothing |
| SubscriptionModel.Subscription.SubscribeTo | lib/smooth/application/network/mqtt/Subscription.cpp:36-59 | A request is queued unless the topic is active with the same QoS |
| SubscriptionModel.Subscription.RequeueActive | lib/smooth/application/network/mqtt/Subscription.cpp:116-123 | The loop of handle_disconnect() terminates, empties the active map and queues each active topic exactly once with its QoS behind the existing requests |
| SubscriptionModel.Subscription.HandleDisconnect | lib/smooth/application/network/mqtt/Subscription.cpp:106-127 | handle_disconnect() as one step of the subscription model: first requests reset, active topics queued again |
| SubscriptionModel.Subscription.ReceiveSubAck | lib/smooth/application/network/mqtt/Subscription.cpp:129-153 | A SUBACK for the waiting first request moves its topic to the active map, which keeps an older QoS |
| SubscriptionModel.Subscription.ReceiveUnsubAck | lib/smooth/application/network/mqtt/Subscription.cpp:213-236 | An UNSUBACK with the first identifier removes the topic from the active map |
| SubscriptionModel.Subscription.ReceivePublish | lib/smooth/application/network/mqtt/Subscription.cpp:155-190 | Store, forward and reply by QoS, a full transmit ring swallowing the reply |
| SubscriptionModel.Subscription.ReceivePubRel | lib/smooth/application/network/mqtt/Subscription.cpp:192-211 | Forward and forget a stored message, answer PUBCOMP always |
| SubscriptionModel.Subscription.RepeatPubRec | lib/smooth/application/network/mqtt/Subscription.cpp:79-103 | Only stored, overdue messages get their PUBREC repeated, each once, and all of them while the ring has room |
| SubscriptionModel.Subscription.SubscribeNext | lib/smooth/application/network/mqtt/Subscription.cpp:70-104 | Exactly when the first SUBSCRIBE and the first UNSUBSCRIBE are sent and a disconnect is forced; without one, overdue PUBRECs are repeated, each once, and all of them while the ring has room |
| RunStateModel.RunState.Tick | lib/smooth/application/network/mqtt/state/RunState.cpp:24-40 | The first tick of a connection resends (PUBREL again for a released head, any other head made ready to be published) and sends no subscription packet; every later one publishes, sends the first requests and then repeats overdue PUBRECs; which requests are sent and when a disconnect is forced is stated exactly |
| RemainingLength.LengthRoundTrip | lib/smooth/application/network/mqtt/packet/MQTTPacket.cpp:110-161 | Section 2.2.3: whatever bytes follow, a length is read back exactly if it is below 2^28, and flagged as malformed exactly if it is not |
| RemainingLength.FewestBytes | lib/smooth/application/network/mqtt/packet/MQTTPacket.cpp:110-129 | No complete field with the same value is shorter than the written one |
| RemainingLength.LeastSignificantFirst | lib/smooth/application/network/mqtt/packet/MQTTPacket.cpp:110-129 | Byte k holds the k-th digit of seven bits, and all but the last announce another byte |
| RemainingLength.LengthExamples | lib/smooth/application/network/mqtt/packet/MQTTPacket.cpp:110-129 | The bounds of table 2.4 of the standard |
| RemainingLength.EncodeRemainingLength | lib/smooth/application/network/mqtt/packet/MQTTPacket.cpp:110-129 | The writing loop appends exactly the specified bytes, one zero byte for lengths that are not positive |
| RemainingLength.CalculateRemainingLength | lib/smooth/application/network/mqtt/packet/MQTTPacket.cpp:131-161 | The reading loop computes value, header end and error flag of the specified decoding, with its running multiplier |
| MqttPacketModel.PublishReadBack | lib/smooth/application/network/mqtt/packet/Publish.cpp:23-64 | Sections 1.5.3 and 3.3: a built PUBLISH below 2^28 bytes gives back its QoS, its identifier and, behind the computed variable header, its payload |
| MqttPacketModel.PublishFirstByte | lib/smooth/application/network/mqtt/packet/Publish.cpp:23-31 | Section 3.3.1: type 3, DUP clear, the QoS and RETAIN in the first byte |
| MqttPacketModel.PublishBodyBytes | lib/smooth/application/network/mqtt/packet/Publish.cpp:31-46 | Sections 1.5.2 and 3.3.2: lengths and identifiers with the most significant byte first, and the order of topic, identifier and payload |
| MqttPacketModel.EntryBytes | lib/smooth/application/network/mqtt/packet/Subscribe.cpp:34-47 | Section 3.8.3: each entry is the length of its topic filter, the filter and its QoS byte |
| MqttPacketModel.TopicRoundTrip | lib/smooth/application/network/mqtt/packet/Publish.cpp:48-53 | The topic is given back exactly if it has at most 65535 bytes |
| MqttPacketModel.FramedIsWellFormed | lib/smooth/application/network/mqtt/packet/MQTTPacket.cpp:98-108 | Every built packet below 2^28 bytes is one that the assembly machine keeps in step with |
| MqttPacketModel.ListingIsExact | lib/smooth/application/network/mqtt/packet/Subscribe.cpp:29-53 | Section 3.8.3: reading a SUBSCRIBE payload stays inside it exactly if the payload is well-formed, and then yields exactly its topics and QoS bytes |
| MqttPacketModel.EntriesListed | lib/smooth/application/network/mqtt/packet/Subscribe.cpp:34-47 | The entries of a well-formed payload are listed in order |
| MqttPacketModel.ListingIsSound | lib/smooth/application/network/mqtt/packet/Subscribe.cpp:34-52 | A payload that can be read to its end is the layout of what was read |
| MqttPacketModel.MqttPacket.GetTopics | lib/smooth/application/network/mqtt/packet/Subscribe.cpp:29-53 | get_topics() on the whole packet, its test of advance() included, yields the specified listing of the payload or reads past the end |
| MqttPacketModel.ListFirst | lib/smooth/application/network/mqtt/packet/Subscribe.cpp:36-51 | With at least two bytes left the string that is read fits, so the branch for malformed packets is not taken, and what follows is a QoS byte and the rest, or a read past the end |
| MqttPacketModel.Advance | lib/smooth/include/smooth/core/util/advance_iterator.h:24-44 | advance() moves exactly if the increment is positive and stays inside |
| MqttPacketModel.AppendString | lib/smooth/application/network/mqtt/packet/MQTTPacket.cpp:80-90 | The loop appends the 16-bit length and that many bytes of the string |
| MqttPacketModel.MqttPacket.Publish | lib/smooth/application/network/mqtt/packet/Publish.cpp:23-46 | The constructor builds the framed layout step by step |
| MqttPacketModel.MqttPacket.GetString | lib/smooth/application/network/mqtt/packet/MQTTPacket.cpp:36-51 | get_string() reads up to the length field or the end of the packet |
| MqttPacketModel.MqttPacket.GetTopic | lib/smooth/application/network/mqtt/packet/Publish.cpp:48-53 | get_topic() reads the string behind the fixed header, or from the second byte on if the packet was already flagged as malformed |
| MqttPacketModel.MqttPacket.GetVariableHeaderLength | lib/smooth/application/network/mqtt/packet/Publish.cpp:55-64 | The computed length of the variable header |
| MqttFraming.ReadKeepsStep | lib/smooth/application/network/mqtt/packet/MQTTProtocol.cpp:56-133 | For every well-formed packet and every cut: after a read of any number of bytes between 1 and the wanted amount the machine holds exactly that many more bytes of the packet |
| MqttFraming.HoldsMeans | lib/smooth/application/network/mqtt/packet/MQTTProtocol.cpp:37-138 | An incomplete packet never wants 0 bytes nor more than it still has, and is complete exactly at its last byte |
| MqttFraming.CompleteIsPacket | lib/smooth/application/network/mqtt/packet/MQTTProtocol.cpp:80-100 | The completed buffer is the packet that was sent, flagged exactly if its body is over the limit |
| MqttFraming.HeaderOfPrefix | lib/smooth/application/network/mqtt/packet/MQTTProtocol.cpp:65-96 | Inside a packet the length field ends where the whole packet's does and nowhere before |
| MqttFraming.MalformedIffTooLong | lib/smooth/application/network/mqtt/packet/MQTTProtocol.cpp:65-96 | The byte that ends the length field flags the packet exactly if four bytes before it announced another one |
| MqttFraming.MqttProtocol.DataReceived | lib/smooth/application/network/mqtt/packet/MQTTProtocol.cpp:56-105 | data_received() advances the machine as specified, malformed length fields included |
| MqttFraming.MqttProtocol.GetWritePos | lib/smooth/application/network/mqtt/packet/MQTTProtocol.cpp:107-133 | The buffer is resized so that the wanted bytes fit exactly behind the write position |
| Pipe.PipeIsFifo | lib/smooth/include/smooth/core/network/PacketSendBuffer.h:40-98 | For every interleaving of put(), partial sends and reads cut anywhere: reassembled packets are a prefix, byte for byte and in order, of the accepted ones, fetched packets a prefix of those, and bytes sent plus the unsent rest are the accepted packets |
| Pipe.EventsMatchPackets | lib/smooth/include/smooth/core/network/Socket.h:332-372 | With one reader and one fetch per event no completed packet meets a full ring, no event is refused, and events being pushed, waiting or handled are as many as packets in the ring |
| Pipe.NeverStalls | lib/smooth/include/smooth/core/network/Socket.h:256-372 | Between packets the assembly wants at least one byte, and never more than its own packet still has |
| PipeDelivery.EveryPacketCanArrive | lib/smooth/include/smooth/core/network/Socket.h:256-413 | After any run, sending, reading and listening alone go on until every packet that put() accepted has been fetched |
| PipeDelivery.PutIsAccepted | lib/smooth/include/smooth/core/network/PacketSendBuffer.h:40-51 | put() takes a packet exactly while fewer than five wait, and puts it last |
| Pipe.StepKeeps | lib/smooth/include/smooth/core/network/Socket.h:298-413 | Every step of sender, wire, reader and listener keeps the invariant of the pipe |
| Pipe.ReadKeepsInStep | lib/smooth/include/smooth/core/network/PacketReceiveBuffer.h:67-91 | Reading the next bytes of a stream of packets completes the packet they end, and no other |
| CircularBufferModel.CircularBuffer.PutItem | lib/smooth/include/smooth/core/util/CircularBuffer.h:126-142 | put() on the wrapped array appends; on a full ring it drops the oldest item |
| CircularBufferModel.PutKeepsNewest | lib/smooth/include/smooth/core/util/CircularBuffer.h:126-142 | What put() leaves are the newest items: all while there is room, and then all but the oldest |
| CircularBufferModel.CircularBuffer.GetItem | lib/smooth/include/smooth/core/util/CircularBuffer.h:145-159 | get() takes the oldest item |
| SocketBuffers.PacketSendBuffer.PutItem | lib/smooth/include/smooth/core/network/PacketSendBuffer.h:40-51 | put() refuses an item exactly when the ring is full |
| SocketBuffers.PacketSendBuffer.DataHasBeenSent | lib/smooth/include/smooth/core/network/PacketSendBuffer.h:74-83 | The packet stays in progress until its last byte is sent |
| SocketBuffers.PacketReceiveBuffer.DataReceived | lib/smooth/include/smooth/core/network/PacketReceiveBuffer.h:67-77 | A packet enters the ring exactly when it is complete, whether or not its length field was malformed |
| SocketBuffers.Socket.SendNextPacket | lib/smooth/include/smooth/core/network/Socket.h:298-413 | The bytes written are the next ones of the packet in progress, or of the oldest waiting one; an event is pushed exactly when a packet has been sent completely and its queue has room; if send() fails the socket is deactivated and stopped |
| SocketBuffers.Socket.ReadData | lib/smooth/include/smooth/core/network/Socket.h:256-372 | A read changes nothing while the ring is full; otherwise it completes at most one packet, with one event and a fresh assembly; the end of the connection and a failing recv() deactivate and stop the socket |
| WebsocketModel.PayloadsArrive | lib/smooth/application/network/http/websocket/WebsocketProtocol.cpp:28-257 | RFC 6455 sections 5.2 and 5.3: for every sequence of masked frames with 7-, 16- and 64-bit lengths, every positive chunk size and every cut into reads of 1 to wanted bytes, the parts delivered are a prefix of the frames' parts, and all of them, joining to the unmasked payloads, once all bytes are read |
| WebsocketModel.TransferFrames | lib/smooth/application/network/http/websocket/WebsocketProtocol.cpp:90-165 | The same from any state between two frames |
| WebsocketModel.TransferInFrame | lib/smooth/application/network/http/websocket/WebsocketProtocol.cpp:90-165 | The same from any place inside a frame |
| WebsocketModel.PartIsFlagged | lib/smooth/application/network/http/websocket/WebsocketProtocol.cpp:233-256 | Every part but the last has exactly chunk bytes and is flagged continued, the last is not; only the first lacks the continuation flag; all carry the opcode |
| WebsocketModel.PartsArePayload | lib/smooth/application/network/http/websocket/WebsocketProtocol.cpp:41-63 | The parts of a frame join to its payload |
| WebsocketModel.WritesStayInside | lib/smooth/application/network/http/websocket/WebsocketProtocol.cpp:28-88 | Whatever bytes arrive, inside a packet at least one byte is wanted, what is wanted fits behind the write position, and no part is longer than a chunk |
| WebsocketModel.EnoughReads | lib/smooth/application/network/http/websocket/WebsocketProtocol.cpp:28-68 | Every read makes progress, so the stream is consumed |
| WebsocketModel.MaskTwice | lib/smooth/application/network/http/websocket/WebsocketProtocol.cpp:146-156 | Unmasking with the cyclic key at any offset restores the bytes |
| WebsocketModel.MaskedBit | lib/smooth/application/network/http/websocket/WebsocketProtocol.cpp:98-140 | RFC 6455 section 5.3: byte i of the payload is XORed with byte i modulo 4 of the key, bit by bit |
| WebsocketModel.FrameExamples | lib/smooth/application/network/http/websocket/WebsocketProtocol.cpp:28-97 | The headers and lengths of the examples in section 5.7 of RFC 6455 |
| WebsocketModel.BigEndianRoundTrip | lib/smooth/application/network/http/websocket/WebsocketProtocol.cpp:121-130 | The 16- and 64-bit lengths are read back |
| WebsocketModel.FeedPart | lib/smooth/application/network/http/websocket/WebsocketProtocol.cpp:132-162 | The last bytes of a part deliver it unmasked with its flags and leave the protocol at the next part or frame |
| WebsocketModel.WebsocketProtocol.GetWantedAmount | lib/smooth/application/network/http/websocket/WebsocketProtocol.cpp:28-68 | get_wanted_amount() is the specified request, made once |
| WebsocketModel.WebsocketProtocol.Demask | lib/smooth/application/network/http/websocket/WebsocketProtocol.cpp:146-156 | The in-place loop unmasks the whole buffer and advances the key index by its length |
| WebsocketModel.WebsocketProtocol.SetMessageProperties | lib/smooth/application/network/http/websocket/WebsocketProtocol.cpp:233-257 | Both flags and the control code of a part |
| WebsocketModel.WebsocketProtocol.Write | lib/smooth/application/network/http/websocket/WebsocketProtocol.cpp:70-88 | The bytes of a read land behind the write position of the buffer that the state selects |
| WebsocketModel.WebsocketProtocol.NextField | lib/smooth/application/network/http/websocket/WebsocketProtocol.cpp:97-137 | What follows a field whose bytes are complete |
| WebsocketModel.WebsocketProtocol.FinishPart | lib/smooth/application/network/http/websocket/WebsocketProtocol.cpp:139-161 | A complete part is cut to its bytes, unmasked and flagged |
| WebsocketModel.WebsocketProtocol.DataReceived | lib/smooth/application/network/http/websocket/WebsocketProtocol.cpp:90-165 | data_received() advances the protocol as specified |
| HttpBody.BodyConserved | lib/smooth/application/network/http/regular/RegularHTTPProtocol.cpp:29-162 | For any header block that fits, any body of the declared length and any cut of both into reads: the parts make up the body (continued parts have at least chunk bytes, later ones at most 2 * chunk - 1), and enough reads deliver all of it and leave the protocol as at first |
| HttpBody.ConservedIff | lib/smooth/application/network/http/regular/RegularHTTPProtocol.cpp:62-97 | The body is conserved for every way of cutting its rest exactly if the read that ended the header block did not run past the body |
| HttpBody.NotConservedBeyond | lib/smooth/application/network/http/regular/RegularHTTPProtocol.cpp:29-162 | If it did, the surplus is delivered as body or the protocol asks for a negative amount; what recv() does with that is outside the claim |
| HttpBody.BodyWants | lib/smooth/application/network/http/regular/RegularHTTPProtocol.cpp:29-52 | Inside the body something is wanted, never more than the body still has, and it fits into the buffer |
| HttpBody.EndingFound | lib/smooth/application/network/http/regular/RegularHTTPProtocol.cpp:58-63 | The end of the header block is found with the read that brings its last byte, at its own place, whatever the buffer holds behind the received bytes |
| HttpBody.HeaderBlockEnds | lib/smooth/application/network/http/regular/RegularHTTPProtocol.cpp:58-63 | The header block ends with the first CR LF CR LF |
| HttpBody.TooLongIsGivenUp | lib/smooth/application/network/http/regular/RegularHTTPProtocol.cpp:81-93 | A read that fills the header limit without one delivers nothing and leaves the protocol at the start of a message |
| HttpBody.PartsJoin | lib/smooth/application/network/http/regular/RegularHTTPProtocol.cpp:103-132 | The delivered parts join to a piece of the body |
| HttpBody.FeedBody | lib/smooth/application/network/http/regular/RegularHTTPProtocol.cpp:97-132 | A read inside the body finishes a part exactly when it has chunk bytes or ends the body |
| HttpBody.RegularHttpProtocol.FindHeaderEnding | lib/smooth/application/network/http/regular/RegularHTTPProtocol.cpp:58-60 | The search finds the first ending |
| HttpBody.RegularHttpProtocol.DataReceived | lib/smooth/application/network/http/regular/RegularHTTPProtocol.cpp:54-133 | data_received() advances the protocol as specified, header errors included |
| HttpBody.RegularHttpProtocol.GetWantedAmount | lib/smooth/application/network/http/regular/RegularHTTPProtocol.cpp:29-52 | get_wanted_amount() asks for the rest of the header limit or at most a chunk and resizes the buffer by as much, also by the negative amount after a header read that ran past the body |
| HttpBody.RegularHttpProtocol.PacketConsumed | lib/smooth/application/network/http/regular/RegularHTTPProtocol.cpp:252-267 | Ready for the next part or, after the last or an error, for the next message |
| HttpBody.RegularHttpProtocol.ReadOnce | lib/smooth/application/network/http/regular/RegularHTTPProtocol.cpp:29-162 | One whole read (amount, write position, bytes, taking them in, handing on a part) is the step of the model over which the conservation results quantify |
| HttpBody.RegularHttpProtocol.ReadHeaders | lib/smooth/application/network/http/regular/RegularHTTPProtocol.cpp:58-96 | The header phase: block found, limit reached, or more to come |
| HttpBody.RegularHttpProtocol.ConsumeHeaders | lib/smooth/application/network/http/regular/RegularHTTPProtocol.cpp:169-188 | Exactly the header block leaves the buffer |
| HttpBody.RegularHttpProtocol.FinishPart | lib/smooth/application/network/http/regular/RegularHTTPProtocol.cpp:103-132 | A complete part is cut to its bytes and flagged |
| EventQueues.GlobalFifo | lib/smooth/include/smooth/core/ipc/TaskEventQueue.h:117-148 | In every run of creating, pushing to, handling and destroying queues, many bounded queues and the shared token list behave as one FIFO with a bound for each queue |
| EventQueues.FifoFromStart | lib/smooth/include/smooth/core/ipc/TaskEventQueue.h:117-148 | So in every run of a Task that begins without queues |
| EventQueues.DeliveredInPushOrder | lib/smooth/core/Task.cpp:155-193 | While no queue is destroyed, what the listeners of all queues received, followed by what waits, is what was accepted, in push order |
| EventDelivery.NothingIsLeft | lib/smooth/core/Task.cpp:155-193 | After any run, as many turns as there are tokens leave no event in any queue, and every event that waited has been delivered |
| EventDelivery.AllDelivered | lib/smooth/core/Task.cpp:155-193 | Those turns deliver exactly what waits, in the common order |
| EventDelivery.HandleDelivers | lib/smooth/core/Task.cpp:168-189 | A turn delivers the oldest event of the queue that the first token names and takes both |
| EventDelivery.PushIsAccepted | lib/smooth/include/smooth/core/ipc/TaskEventQueue.h:117-127 | An event is accepted exactly if its queue is there and has room, and is then the newest one, with a token |
| EventDelivery.CreateOpens | lib/smooth/include/smooth/core/ipc/TaskEventQueue.h:108-115 | A new queue is empty and has the given size |
| EventQueues.PushAppends | lib/smooth/include/smooth/core/ipc/TaskEventQueue.h:117-127 | An accepted push appends to the common FIFO |
| EventQueues.DestroyFilters | lib/smooth/core/ipc/QueueNotification.cpp:35-43 | Destroying a queue removes exactly its own events and keeps the order of the others |
| EventQueues.HandleRefines | lib/smooth/core/Task.cpp:168-189 | Taking a token and forwarding one event takes the head of the common FIFO |
| EventQueueClasses.Queue.Push | lib/smooth/include/smooth/core/ipc/Queue.h:73-85 | push() appends exactly while the queue is below its size |
| EventQueueClasses.Queue.Pop | lib/smooth/include/smooth/core/ipc/Queue.h:90-103 | pop() takes the oldest item |
| EventQueueClasses.TaskEventQueue.Push | lib/smooth/include/smooth/core/ipc/TaskEventQueue.h:117-127 | A token is added exactly if the event was accepted |
| EventQueueClasses.TaskEventQueue.Clear | lib/smooth/include/smooth/core/ipc/TaskEventQueue.h:92-99 | clear() empties the queue, the tokens stay |
| EventQueueClasses.QueueNotification.RemoveExpiredQueues | lib/smooth/core/ipc/QueueNotification.cpp:35-43 | Exactly the tokens of expired queues go, the others keep their order |
| EventQueueClasses.QueueNotification.WaitForNotification | lib/smooth/core/ipc/QueueNotification.cpp:45-77 | The first token, or none if there is none |
| EventQueueClasses.Task.HandleNext | lib/smooth/core/Task.cpp:155-193 | One round of the loop is a step of the model: one event of the queue that the first token names, or a tick |
| EventQueueClasses.Task.DestroyQueue | lib/smooth/include/smooth/core/ipc/TaskEventQueue.h:50-53 | The destructor is the model's destroy step |
| EventThreads.NoStrandedEvent | lib/smooth/include/smooth/core/ipc/TaskEventQueue.h:92-127 | With push and notify as separate steps of any number of threads and clear() at any time: a queue has no more events than tokens listed, about to be listed or being handled, so none is left when these are gone |
| EventThreads.EveryEventCanBeHandled | lib/smooth/include/smooth/core/ipc/TaskEventQueue.h:92-148 | From any state of any run, clear() included, adding tokens and taking them alone goes on until all queues are empty |
| EventThreads.TokensBounded | lib/smooth/core/ipc/QueueNotification.cpp:26-32 | Without clear() events and tokens of a queue are equal in number, no forward is idle, and the token list is no longer than all sizes together |
| EventThreads.ClearBreaksTokenBound | lib/smooth/core/ipc/QueueNotification.cpp:26-32 | With clear(), any queue of any system that can hold an event lets the token list grow to any length |
| EventThreads.BoundIffNothingFits | lib/smooth/core/ipc/QueueNotification.cpp:26-32 | With clear() the bound holds in all runs if and only if no queue can hold an event |
| EventThreads.StepKeeps | lib/smooth/include/smooth/core/ipc/Queue.h:73-103 | Every step keeps events plus cleared events equal to tokens plus idle forwards, for each queue |
| IsrQueueModel.RunKeeps | lib/smooth/include/smooth/core/ipc/ISRTaskEventQueue.h:65-137 | In every run read_since_poll is false exactly while one token is outstanding or being handled, the queue holds the newest unread signals up to its size, and deliveries follow signal order |
| IsrQueueModel.ReceiveKeeps | lib/smooth/include/smooth/core/ipc/ISRTaskEventQueue.h:120-137 | A taken token always finds a signal, and delivers the oldest one kept |
| IsrQueueModel.AllDelivered | lib/smooth/include/smooth/core/ipc/ISRTaskEventQueue.h:65-137 | From any state of any run, polling and forwarding once more than there are signals delivers all of them in their order |
| IsrQueueModel.RoundDelivers | lib/smooth/include/smooth/core/ipc/ISRTaskEventQueue.h:65-137 | One poll and what the Task does with the token delivers the oldest signal and raises the flag |
| IsrQueueModel.PollNotifies | lib/smooth/include/smooth/core/ipc/ISRTaskEventQueue.h:65-75 | After a poll of a queue that is not empty exactly one token is outstanding or being handled, and the flag is down |
| IsrQueueModel.SignalIsKept | lib/smooth/include/smooth/core/ipc/ISRTaskEventQueue.h:103-117 | A signal is always taken in and is then the newest one kept |
| IsrQueueModel.IsrTaskEventQueue.SignalData | lib/smooth/include/smooth/core/ipc/ISRTaskEventQueue.h:103-117 | The drop-oldest loop terminates and leaves the newest signals |
| IsrQueueModel.IsrTaskEventQueue.PollQueue | lib/smooth/include/smooth/core/ipc/ISRTaskEventQueue.h:65-75 | poll() notifies only when read since the last poll and not empty |
| IsrQueueModel.IsrTaskEventQueue.ForwardToEventListener | lib/smooth/include/smooth/core/ipc/ISRTaskEventQueue.h:120-137 | Receive, deliver, and raise the flag |
| TimerModel.RunKeeps | lib/smooth/core/timer/TimerService.cpp:54-106 | In every run in which no two starts of one timer overlap, a timer is queued at most once, and expiries respect arming time and interval |
| TimerModel.StartHolds | lib/smooth/core/timer/TimerService.cpp:26-52 | Timers that have not been started satisfy the invariant, and their queue is a heap |
| TimerModel.NeverEarly | lib/smooth/core/timer/Timer.cpp:92-95 | The k-th expiry since arming never comes before arming time + k * interval, unless the interval was changed meanwhile |
| TimerDeadlines.FiresAfterStart | lib/smooth/core/timer/Timer.cpp:44-95 | start(interval) at time a: unless stopped, the timer fires in the first tick at or after a + interval and in none before, while removals leave a heap |
| TimerDeadlines.FiresWhenDue | lib/smooth/core/timer/TimerService.cpp:69-106 | A queued timer fires in the first tick at or after its key and in none before |
| TimerDeadlines.KeysFromStart | lib/smooth/core/timer/TimerService.cpp:54-60 | In every run a queued timer that has not fired since it was armed has exactly the key arming time plus the interval set last |
| TimerDeadlines.FiredAgain | lib/smooth/core/timer/TimerService.cpp:84-104 | A fired timer is queued again exactly if it repeats, for one interval after the time at which it is queued |
| TimerModel.SilentAfterStop | lib/smooth/core/timer/TimerService.cpp:62-67 | After stop() a timer does not fire until it is started again |
| TimerModel.KeyFixedWhileQueued | lib/smooth/core/timer/TimerService.cpp:54-106 | A queued timer's key changes only in a tick that takes it out of the queue first |
| TimerModel.FiresOnlyDue | lib/smooth/core/timer/TimerService.cpp:84-98 | Whatever the order of the queue, the loop of a tick ends, fires only due timers, each as often as it is queued, and stops at one that is not due |
| TimerModel.TickInOrder | lib/smooth/core/timer/TimerService.cpp:69-106 | On a heap a tick fires exactly the timers that are due at its fixed now, in the order of expiry, once each, and keeps the heap |
| TimerModel.RunInOrder | lib/smooth/core/timer/TimerService.cpp:54-106 | While every removed timer leaves those behind it where they fit in the heap, each tick of a run fires exactly the timers due, in the order of expiry, once each |
| TimerStops.CompleteAfterStop | lib/smooth/include/smooth/core/timer/TimerService.h:47-62 | After stopping a timer of a heap, every tick, whatever timers are started first, fires all that are due, if and only if each element that the erasing moves is due no earlier than its new parent |
| TimerStops.CompleteIfFits | lib/smooth/include/smooth/core/timer/TimerService.h:47-62 | Under that condition the very next tick fires all timers that are due |
| TimerStops.NoHeapIsPassedOver | lib/smooth/core/timer/TimerService.cpp:84-98 | For any vector of different timers that is no heap there are timers whose start makes a later tick pass over a due one |
| TimerStops.LuckyStop | lib/smooth/include/smooth/core/timer/TimerService.h:47-62 | For the next tick alone the condition is not necessary: an erased heap on which every next tick is complete although an element does not fit |
| TimerStops.StopPassesOverAnother | lib/smooth/include/smooth/core/timer/TimerService.h:47-62 | Seven timers: one that is not the top is stopped, the next tick fires something, and yet passes over a due timer |
| TimerStops.PromptAfterStop | lib/smooth/include/smooth/core/timer/TimerService.h:47-62 | The next tick fires at least one timer whenever one is due, if and only if the stopped timer was not the top, or at most one other is queued, or the second element is due no later than the third |
| TimerStops.StopDelaysAnother | lib/smooth/include/smooth/core/timer/TimerService.h:47-62 | Three timers for which not even one fires |
| TimerHeap.EraseKeepsHeap | lib/smooth/include/smooth/core/timer/TimerService.h:47-62 | Erasing an element leaves a heap if and only if all elements behind it fit under their new parents |
| TimerHeap.EraseKeepsTop | lib/smooth/include/smooth/core/timer/TimerService.h:57-60 | The exact condition under which erasing an element leaves the first due one on top |
| TimerHeap.PushHeap | lib/smooth/core/timer/TimerService.cpp:54-60 | push() keeps the heap |
| TimerHeap.PopHeap | lib/smooth/core/timer/TimerService.cpp:84-98 | pop() keeps the heap |
| TimerHeap.PopPermutes | lib/smooth/core/timer/TimerService.cpp:84-98 | pop() removes exactly the top, whatever the order |
| TimerClasses.TimerService.AddTimer | lib/smooth/core/timer/TimerService.cpp:54-60 | add_timer() sets the key before queueing, as the model's step |
| TimerClasses.TimerService.RemoveTimer | lib/smooth/include/smooth/core/timer/TimerService.h:47-62 | remove_timer() erases the first occurrence |
| TimerClasses.TimerService.Tick | lib/smooth/core/timer/TimerService.cpp:69-106 | Both loops of tick() over mutable timers compute the model's tick |
| TimerClasses.TimerService.FireDue | lib/smooth/core/timer/TimerService.cpp:84-98 | The first loop fires, pops and collects the repeating timers |
| TimerClasses.TimerService.Requeue | lib/smooth/core/timer/TimerService.cpp:100-104 | The second loop gives them their next keys and queues them again |
| DispatcherModel.DescriptorAccounting | lib/smooth/core/network/SocketDispatcher.cpp:176-336 | In every run, as long as no operation was refused by the full queue: each key of the active map is its socket's descriptor, no socket sits under two keys, every open descriptor belongs to a socket that is watched or has Stop or AddActiveSocket pending, and every started server is watched, inactive or named by a pending operation |
| DispatcherModel.StepKeeps | lib/smooth/core/network/SocketDispatcher.cpp:176-336 | Every step by applications, network and dispatcher keeps this, with what the network stack answers left open |
| DispatcherModel.AcceptNeedsRoom | lib/smooth/include/smooth/core/network/Socket.h:480-491 | An accepted connection is accounted for exactly if the operation queue has room; otherwise its descriptor stays open, unwatched and unnamed |
| DispatcherModel.NetworkStopsAll | lib/smooth/core/network/SocketDispatcher.cpp:284-312 | When the network comes or goes, Stop is pending for every watched socket unless the queue overflowed |
| DispatcherStarts.StartedIsKept | lib/smooth/core/network/SocketDispatcher.cpp:176-336 | In every run: from the handling of its Start until that of its Stop a socket, client or server, is watched, waits for the network, or has Stop pending, unless an operation is refused |
| DispatcherStarts.StartIsKept | lib/smooth/core/network/SocketDispatcher.cpp:176-191 | When a Start is handled, the socket waits if there is no network, and is watched or has Stop pending if there is |
| DispatcherStarts.TickBringsUp | lib/smooth/core/network/SocketDispatcher.cpp:263-282 | With a network, a tick brings up each socket that waits once, is not active and is answered yes throughout |
| DispatcherStarts.ComesUpIff | lib/smooth/include/smooth/core/network/Socket.h:416-445 | A socket that is not active comes up exactly if every answer is yes, and is stopped otherwise |
| DispatcherStarts.ActiveStarts | lib/smooth/include/smooth/core/network/ServerSocket.h:220-265 | Starting an active client has it watched; an active server goes on when its Start is handled, but is stopped when a restart round comes to it |
| DispatcherStarts.ConnectedIsActive | lib/smooth/include/smooth/core/network/Socket.h:285-296 | In every run only active sockets are connected, and an active one is when its connection is established |
| DispatcherStarts.AcceptedIsConnected | lib/smooth/include/smooth/core/network/Socket.h:480-491 | An accepted connection is an active, connected client whose AddActiveSocket is queued if there is room |
| DispatcherStarts.StopEnds | lib/smooth/core/network/SocketDispatcher.cpp:193-232 | A handled Stop leaves the socket inactive, unwatched and closed; a server waits to be started again and a client does not |
| DispatcherStarts.StartIsAsked | lib/smooth/include/smooth/core/network/Socket.h:194-213 | start() queues Start exactly if the socket is not active and its address resolves |
| DispatcherModel.ShutdownKeeps | lib/smooth/core/network/SocketDispatcher.cpp:193-232 | Shutting down closes the descriptor, takes the socket off both lists and keeps a server for restarting |
| DispatcherModel.StartItKeeps | lib/smooth/include/smooth/core/network/ServerSocket.h:220-265 | Starting leaves a client or server watched or with Stop pending, also when a half-opened descriptor was left behind |
| DispatcherModel.RestartAllKeeps | lib/smooth/core/network/SocketDispatcher.cpp:263-282 | After a restart round every inactive socket is watched or stopped |
| DispatcherClasses.SocketDispatcher.InternalStart | lib/smooth/include/smooth/core/network/Socket.h:416-445 | internal_start(): an active client reports success, an active server failure; otherwise the socket comes up or is stopped, with its descriptor accounted for |
| DispatcherClasses.SocketDispatcher.Stop | lib/smooth/core/network/CommonSocket.cpp:84-89 | stop() deactivates the socket and queues Stop for it |
| DispatcherClasses.SocketDispatcher.Start | lib/smooth/include/smooth/core/network/Socket.h:194-213 | start() asks for Start unless the socket is active or its address does not resolve |
| DispatcherClasses.SocketDispatcher.CreateSocket | lib/smooth/include/smooth/core/network/Socket.h:216-239 | create_socket() reuses a descriptor, or opens one that may stay behind although it reports failure |
| DispatcherClasses.SocketDispatcher.RemoveFromActive | lib/smooth/core/network/SocketDispatcher.cpp:249-261 | Removal by value from the active map |
| DispatcherClasses.SocketDispatcher.StartSocket | lib/smooth/core/network/SocketDispatcher.cpp:176-191 | Without network the socket waits in the inactive list; with it the socket is started, and watched if it came up |
| DispatcherClasses.SocketDispatcher.ShutdownSocket | lib/smooth/core/network/SocketDispatcher.cpp:193-232 | The socket is inactive, unwatched and closed; a server joins the inactive list |
| DispatcherClasses.SocketDispatcher.HandleOperationEvent | lib/smooth/core/network/SocketDispatcher.cpp:314-331 | The oldest operation leaves the queue and is performed on its socket |
| DispatcherClasses.SocketDispatcher.NetworkEvent | lib/smooth/core/network/SocketDispatcher.cpp:284-312 | has_ip follows the event, and Stop is queued for each watched socket in the order of the keys |
| DispatcherClasses.SocketDispatcher.RestartInactiveSockets | lib/smooth/core/network/SocketDispatcher.cpp:263-282 | Each inactive socket is started and watched, or stopped; then the list is cleared |

## Left out

- Pipe: clear() and reconnecting sockets are not steps of the pipe; it describes one connection with one reader.
- RunInOrder: covers removals after which every moved timer fits where it is; after others only FiresOnlyDue and NeverEarly are claimed, because by CompleteAfterStop some continuation passes over a due timer.
- CompleteAfterStop: timers are natural numbers there, so that new ones can always be started.
- EventQueueClasses.Task.HandleNext: the polling of polled queues (modelled in IsrQueue) and the branch of the loop for an overdue tick are left out.
- DispatcherClasses.SocketDispatcher.ShutdownSocket: the entry of a server in the back-off list and the published connection status are left out.
- TimerStops: the standard library leaves open what pop_heap does to a vector that is no heap. NoHeapIsPassedOver, with it one half of CompleteAfterStop, LuckyStop and StopPassesOverAnother hold for the sift-down of TimerHeap and its choice among equal keys. FiresOnlyDue and what is proved of runs after such removals assume that pop() still takes out the first element.
- MixedQosOrder: stated for runs without a clean-session drop; for the others see NeverForwardedTwice, AtLeastOnceDelivery and NoMoreMissingThanStrays.
- HttpBody.RegularHttpProtocol.ReadOnce: reads of at least one and at most the wanted number of bytes; recv() called with a negative amount cast to an unsigned size is not modelled.
- DescriptorAccounting: says nothing once an operation was refused, because the code then loses operations.
- NothingStuck, EveryPacketCanArrive, EveryEventCanBeHandled, EveryRequestCanBecomeActive and both AllDelivered say that a continuation exists that ends the work; that the environment takes these steps is not part of the model.
- Real time: elapsed-time tests are choices of the environment; prompt wake-up of the timer thread is not modelled.
- The transmit rings of the two MQTT halves are separate in the model of the handshake; the capacity of the application's queue in forwarding is not modelled.
- validate_packet(): its length terms cancel, so it is no length check.
- The protocol's own too-big flag in MQTTProtocol is never set, so draining with a bounded buffer never happens; the packet's flag is modelled.
- Unmasked WebSocket frames: a short unmasked frame is covered by WritesStayInside only; with extended length the code still reads a key.
- HTTP header fields: the block is opaque, and the value of its content-length header is a parameter; responses, regular expressions and upgrades are not modelled.
- After headers longer than the limit the code keeps the old bytes in the packet; nothing is claimed about the messages that follow.
- The HTTP continuation flag is modelled as coded: it is missing on the second part when the first has exactly chunk bytes.
- Back-off of listening sockets, select(), send and receive timeouts as durations, client pools and TLS.
- MIME parsing, URL handling, templates, hashing, files, logging, drivers, displays, buses and Wifi: foreign calls or easy members.
