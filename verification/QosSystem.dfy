/** Publication and the receiving half of Subscription joined by two FIFO channels that may lose packets
    and are emptied when the connection is lost. */
module QosSystem {
  import opened MqttTypes
  import opened PublicationModel
  import opened SubscriptionModel

  /** A packet in a channel. `about` is the publish index of the message it concerns; neither side reads it. */
  datatype InTransit<P> = InTransit(packet: P, about: nat)

  /** The two ends. `published` and `completed` are histories: what publish() accepted and what left the
      sending half because it was done. `forwarded` is what the receiving half handed to its application. */
  datatype Peers = Peers(
    published: seq<Message>,
    completed: seq<Message>,
    flights: seq<InFlight>,
    receiving: map<PacketId, Message>,
    forwarded: seq<Message>,
    resent: bool)

  /** `dropped` remembers that a clean-session reconnect erased a message that was waiting for a reply. */
  datatype System = System(
    peers: Peers,
    down: seq<InTransit<PubPacket>>,
    up: seq<InTransit<AckPacket>>,
    connected: bool,
    dropped: bool)

  datatype Step =
    | Accept(qos: Qos, id: PacketId)             // publish() on the sending side
    | Tick(room: bool, late: bool, clean: bool)  // RunState::tick on the sending side
    | DeliverDown(room: bool)                    // the receiving side handles the oldest packet
    | DeliverUp(room: bool)                      // the sending side handles the oldest packet
    | Retry(id: PacketId, room: bool)            // an awaited PUBREL is late: PUBREC again
    | LoseDown(at: nat)
    | LoseUp(at: nat)
    | Disconnect
    | Reconnect

  const START := System(Peers([], [], [], map[], [], false), [], [], false, false)

  function Tagged<P>(packets: seq<P>, about: nat): seq<InTransit<P>> {
    seq(|packets|, i requires 0 <= i < |packets| => InTransit(packets[i], about))
  }

  function Without<T>(s: seq<T>, at: nat): seq<T> {
    if at < |s| then s[..at] + s[at + 1..] else s
  }

  /** publish() keeps the message if the list has room for it. */
  function AcceptMessage(c: Peers, qos: Qos, id: PacketId): Peers {
    if |c.flights| < MAX_OUTGOING_MESSAGES then
      var msg := Message(|c.published|, qos, id);
      c.(published := c.published + [msg], flights := c.flights + [InFlight(msg, false, Reserved)])
    else
      c
  }

  /** The publish index of the head, or of the next message if nothing is in flight. */
  function HeadIndex(c: Peers): nat {
    |c.completed|
  }

  /** The sending half's list after a turn: what it erases is complete. */
  function AfterTurn(c: Peers, turn: Turn): Peers {
    c.(flights := turn.flights,
       completed := if |turn.flights| < |c.flights| then c.completed + [c.flights[0].msg] else c.completed)
  }

  function TakeTurn(s: System, turn: Turn): System {
    s.(peers := AfterTurn(s.peers, turn),
       down := s.down + Tagged(turn.sent, HeadIndex(s.peers)))
  }

  /** The first tick of a connection resends, every later one publishes. */
  function DoTick(s: System, room: bool, late: bool, clean: bool): System {
    var c := s.peers.(resent := true);
    if !s.connected then
      s
    else if s.peers.resent then
      TakeTurn(s, PublishNext(c.flights, room, late))
    else if CleanSessionDrops(c.flights, clean) then
      s.(peers := c.(flights := Resend(c.flights, clean, room).flights), dropped := true)
    else
      TakeTurn(s.(peers := c), Resend(c.flights, clean, room))
  }

  function React(receiving: map<PacketId, Message>, packet: PubPacket, room: bool): Reaction {
    match packet
    case Publish(msg, _) => OnPublish(receiving, msg, room)
    case Release(id) => OnRelease(receiving, id, room)
  }

  function AfterReaction(c: Peers, r: Reaction): Peers {
    c.(receiving := r.receiving, forwarded := c.forwarded + r.forwarded)
  }

  function DoDeliverDown(s: System, room: bool): System {
    if s.down == [] then
      s
    else
      var r := React(s.peers.receiving, s.down[0].packet, room);
      s.(peers := AfterReaction(s.peers, r), down := s.down[1..], up := s.up + Tagged(r.reply, s.down[0].about))
  }

  function OnAck(flights: seq<InFlight>, packet: AckPacket, room: bool): Turn {
    match packet
    case Ack(id) => OnPubAck(flights, id)
    case Received(id) => OnPubRec(flights, id, room)
    case Complete(id) => OnPubComp(flights, id)
  }

  function DoDeliverUp(s: System, room: bool): System {
    if s.up == [] then
      s
    else
      TakeTurn(s.(up := s.up[1..]), OnAck(s.peers.flights, s.up[0].packet, room))
  }

  function Apply(s: System, step: Step): System {
    match step
    case Accept(qos, id) => s.(peers := AcceptMessage(s.peers, qos, id))
    case Tick(room, late, clean) => DoTick(s, room, late, clean)
    case DeliverDown(room) => DoDeliverDown(s, room)
    case DeliverUp(room) => DoDeliverUp(s, room)
    case Retry(id, room) =>
      if s.connected && room && id in s.peers.receiving then
        s.(up := s.up + [InTransit(Received(id), s.peers.receiving[id].index)])
      else
        s
    case LoseDown(at) => s.(down := Without(s.down, at))
    case LoseUp(at) => s.(up := Without(s.up, at))
    case Disconnect => s.(peers := s.peers.(resent := false), down := [], up := [], connected := false)
    case Reconnect => s.(peers := s.peers.(resent := false), down := [], up := [], connected := true)
  }

  function Run(s: System, steps: seq<Step>): System
    decreases |steps|
  {
    if steps == [] then s else Run(Apply(s, steps[0]), steps[1..])
  }
}
