/** The sending half of the QoS handshake: a list of accepted messages of which only the first is in flight. */
module PublicationModel {
  import opened MqttTypes

  /** What one call does: the new list, the packet handed to the transmitter, and a forced disconnect. */
  datatype Turn = Turn(flights: seq<InFlight>, sent: seq<PubPacket>, disconnect: bool)

  function SetHead(flights: seq<InFlight>, head: InFlight): seq<InFlight>
    requires flights != []
  {
    [head] + flights[1..]
  }

  function Packet(flight: InFlight): PubPacket {
    Publish(flight.msg, flight.dup)
  }

  /** The wait state that a sent PUBLISH leads to. */
  function AwaitedReply(qos: Qos): WaitFor {
    match qos
    case AtMostOnce => Reserved
    case AtLeastOnce => PubAck
    case ExactlyOnce => PubRec
  }

  /** One turn of publish_next: `room` tells whether the transmitter accepts a packet, `late` whether the
      reply has been awaited for more than five seconds. */
  function PublishNext(flights: seq<InFlight>, room: bool, late: bool): Turn {
    if flights == [] then
      Turn(flights, [], false)
    else
      var head := flights[0];
      if head.msg.qos == AtMostOnce then
        if room then Turn(flights[1..], [Packet(head)], false) else Turn(flights, [], false)
      else if head.wait == Reserved then
        if room then
          Turn(SetHead(flights, head.(wait := AwaitedReply(head.msg.qos))), [Packet(head)], false)
        else
          Turn(flights, [], false)
      else
        Turn(flights, [], late)
  }

  /** True when a clean-session reconnect erases the head instead of resending it. */
  predicate CleanSessionDrops(flights: seq<InFlight>, clean: bool) {
    clean && flights != [] && flights[0].wait in {PubAck, PubRec, PubComp}
  }

  function Resend(flights: seq<InFlight>, clean: bool, room: bool): Turn {
    if flights == [] then
      Turn(flights, [], false)
    else if clean then
      Turn(if CleanSessionDrops(flights, clean) then flights[1..] else flights, [], false)
    else
      var head := flights[0];
      match head.wait
      case PubAck => Turn(SetHead(flights, head.(dup := true, wait := Reserved)), [], false)
      case PubRec => Turn(SetHead(flights, head.(wait := Reserved)), [], false)
      case PubComp => Turn(flights, if room then [Release(head.msg.id)] else [], false)
      case _ => Turn(SetHead(flights, head.(dup := true, wait := Reserved)), [], false)
  }

  function OnPubAck(flights: seq<InFlight>, id: PacketId): Turn {
    Turn(if flights != [] && flights[0].msg.id == id then flights[1..] else flights, [], false)
  }

  function OnPubRec(flights: seq<InFlight>, id: PacketId, room: bool): Turn {
    if flights != [] && flights[0].wait == PubRec && flights[0].msg.id == id && room then
      Turn(SetHead(flights, flights[0].(wait := PubComp)), [Release(id)], false)
    else
      Turn(flights, [], false)
  }

  function OnPubComp(flights: seq<InFlight>, id: PacketId): Turn {
    Turn(if flights != [] && flights[0].wait == PubComp && flights[0].msg.id == id then flights[1..] else flights,
         [], false)
  }

  /** The client class of the same name. Its timers are the `late` arguments. */
  class Publication {
    var inProgress: seq<InFlight>

    constructor ()
      ensures inProgress == []
    {
      inProgress := [];
    }

    method PublishMessage(msg: Message) returns (res: bool)
      modifies this
      ensures res == (|old(inProgress)| < MAX_OUTGOING_MESSAGES)
      ensures inProgress == old(inProgress) + (if res then [InFlight(msg, false, Reserved)] else [])
    {
      res := |inProgress| < MAX_OUTGOING_MESSAGES;
      if res {
        inProgress := inProgress + [InFlight(msg, false, Reserved)];
      }
    }

    method ResendOutstandingControlPacket(mqtt: Transmitter<PubPacket>, cleanSession: bool)
      modifies this, mqtt
      ensures var turn := Resend(old(inProgress), cleanSession, old(mqtt.HasRoom()));
              inProgress == turn.flights && mqtt.tx == old(mqtt.tx) + turn.sent
    {
      if inProgress != [] {
        var flight := inProgress[0];
        if cleanSession {
          if flight.wait == PubAck || flight.wait == PubRec || flight.wait == PubComp {
            inProgress := inProgress[1..];
          }
        } else if flight.wait == PubAck {
          flight := flight.(dup := true);
          flight := flight.(wait := Reserved);
          inProgress := SetHead(inProgress, flight);
        } else if flight.wait == PubRec {
          inProgress := SetHead(inProgress, flight.(wait := Reserved));
        } else if flight.wait == PubComp {
          var _ := mqtt.SendPacket(Release(flight.msg.id));
        } else {
          flight := flight.(dup := true);
          inProgress := SetHead(inProgress, flight.(wait := Reserved));
        }
      }
    }

    method PublishNextMessage(mqtt: Transmitter<PubPacket>, late: bool) returns (forceDisconnect: bool)
      modifies this, mqtt
      ensures var turn := PublishNext(old(inProgress), old(mqtt.HasRoom()), late);
              inProgress == turn.flights && mqtt.tx == old(mqtt.tx) + turn.sent && forceDisconnect == turn.disconnect
    {
      forceDisconnect := false;
      if inProgress != [] {
        var flight := inProgress[0];
        var sent: bool;
        if flight.msg.qos == AtMostOnce {
          sent := mqtt.SendPacket(Packet(flight));
          if sent {
            inProgress := inProgress[1..];
          }
        } else if flight.wait == Reserved {
          sent := mqtt.SendPacket(Packet(flight));
          if sent {
            if flight.msg.qos == AtLeastOnce {
              inProgress := SetHead(inProgress, flight.(wait := PubAck));
            } else {
              inProgress := SetHead(inProgress, flight.(wait := PubRec));
            }
          }
        } else {
          forceDisconnect := late;
        }
      }
    }

    method ReceivePubAck(id: PacketId)
      modifies this
      ensures inProgress == OnPubAck(old(inProgress), id).flights
    {
      if inProgress != [] && inProgress[0].msg.id == id {
        inProgress := inProgress[1..];
      }
    }

    method ReceivePubRec(id: PacketId, mqtt: Transmitter<PubPacket>)
      modifies this, mqtt
      ensures var turn := OnPubRec(old(inProgress), id, old(mqtt.HasRoom()));
              inProgress == turn.flights && mqtt.tx == old(mqtt.tx) + turn.sent
    {
      if inProgress != [] {
        var flight := inProgress[0];
        if flight.wait == PubRec && flight.msg.id == id {
          var sent := mqtt.SendPacket(Release(flight.msg.id));
          if sent {
            inProgress := SetHead(inProgress, flight.(wait := PubComp));
          }
        }
      }
    }

    method ReceivePubComp(id: PacketId)
      modifies this
      ensures inProgress == OnPubComp(old(inProgress), id).flights
    {
      if inProgress != [] && inProgress[0].wait == PubComp && inProgress[0].msg.id == id {
        inProgress := inProgress[1..];
      }
    }
  }

  // ---------------------------------------------------------------------------------------------------
  // Runs of the sending half against an arbitrary peer
  // ---------------------------------------------------------------------------------------------------

  /** Everything that can happen to the sending half. The peer is unconstrained: any acknowledgement with
      any identifier can arrive at any moment. */
  datatype Action =
    | Submit(qos: Qos, id: PacketId)
    | Next(room: bool, late: bool)
    | Reconnected(room: bool)
    | ReconnectedClean(room: bool)
    | PeerAck(id: PacketId)
    | PeerRec(id: PacketId, room: bool)
    | PeerComp(id: PacketId)

  /** `accepted` is every message publish() took, `removed` every message erased from the front, in order,
      and `sent` every packet handed to the transmitter. */
  datatype Sender = Sender(accepted: seq<Message>, removed: seq<Message>, flights: seq<InFlight>,
                           sent: seq<PubPacket>)

  const INITIAL := Sender([], [], [], [])

  function TurnOf(flights: seq<InFlight>, action: Action): Turn {
    match action
    case Submit(_, _) => Turn(flights, [], false)
    case Next(room, late) => PublishNext(flights, room, late)
    case Reconnected(room) => Resend(flights, false, room)
    case ReconnectedClean(room) => Resend(flights, true, room)
    case PeerAck(id) => OnPubAck(flights, id)
    case PeerRec(id, room) => OnPubRec(flights, id, room)
    case PeerComp(id) => OnPubComp(flights, id)
  }

  function Act(s: Sender, action: Action): Sender {
    if action.Submit? then
      if |s.flights| < MAX_OUTGOING_MESSAGES then
        var msg := Message(|s.accepted|, action.qos, action.id);
        s.(accepted := s.accepted + [msg], flights := s.flights + [InFlight(msg, false, Reserved)])
      else
        s
    else
      var turn := TurnOf(s.flights, action);
      Sender(s.accepted,
             if |turn.flights| < |s.flights| then s.removed + [s.flights[0].msg] else s.removed,
             turn.flights,
             s.sent + turn.sent)
  }

  function RunFrom(s: Sender, actions: seq<Action>): Sender
    decreases |actions|
  {
    if actions == [] then s else RunFrom(Act(s, actions[0]), actions[1..])
  }

  function MessagesOf(flights: seq<InFlight>): (msgs: seq<Message>)
    ensures |msgs| == |flights|
  {
    seq(|flights|, i requires 0 <= i < |flights| => flights[i].msg)
  }

  /** What the list keeps under every peer. */
  ghost predicate Orderly(s: Sender) {
    && s.accepted == s.removed + MessagesOf(s.flights)
    && (forall i :: 0 <= i < |s.accepted| ==> s.accepted[i].index == i)
    && |s.flights| <= MAX_OUTGOING_MESSAGES
    && (forall i :: 1 <= i < |s.flights| ==> s.flights[i].wait == Reserved)
    && (s.flights != [] && s.flights[0].wait in {PubRec, PubComp} ==> s.flights[0].msg.qos == ExactlyOnce)
  }

  /** A turn erases the head, changes only the head, or changes nothing. */
  lemma TurnTouchesHead(flights: seq<InFlight>, action: Action)
    ensures var after := TurnOf(flights, action).flights;
            || after == flights
            || (flights != [] && after == flights[1..])
            || (flights != [] && after == SetHead(flights, after[0]) && after[0].msg == flights[0].msg
                && (after[0].wait in {PubRec, PubComp} ==>
                      flights[0].msg.qos == ExactlyOnce || flights[0].wait in {PubRec, PubComp}))
  {
  }

  lemma ActKeepsOrder(s: Sender, action: Action)
    requires Orderly(s)
    ensures Orderly(Act(s, action))
  {
    var s' := Act(s, action);
    if action.Submit? {
      if |s.flights| < MAX_OUTGOING_MESSAGES {
        assert MessagesOf(s'.flights) == MessagesOf(s.flights) + [s'.accepted[|s.accepted|]];
      }
    } else {
      TurnTouchesHead(s.flights, action);
      if s'.flights != [] && s.flights != [] {
        assert MessagesOf(s.flights) == [s.flights[0].msg] + MessagesOf(s.flights[1..]);
      }
      if |s'.flights| == |s.flights| {
        assert MessagesOf(s.flights) == MessagesOf(s'.flights);
      }
    }
  }

  /** Under any peer and in any run: accepted messages are the removed ones followed by those still
      in progress, the list stays within its limit and only its head waits for a reply. */
  lemma {:induction false} SenderStaysOrderly(s: Sender, actions: seq<Action>)
    requires Orderly(s)
    ensures Orderly(RunFrom(s, actions))
    decreases |actions|
  {
    if actions != [] {
      ActKeepsOrder(s, actions[0]);
      SenderStaysOrderly(Act(s, actions[0]), actions[1..]);
    }
  }

  /** A new client has accepted nothing, so every run of it is orderly. */
  lemma {:induction false} OrderlyFromStart(actions: seq<Action>)
    ensures Orderly(INITIAL) && Orderly(RunFrom(INITIAL, actions))
  {
    SenderStaysOrderly(INITIAL, actions);
  }

  /** Message `index` is released: it waits for PUBCOMP or has left the list. */
  ghost predicate Released(s: Sender, index: nat) {
    || index < |s.removed|
    || (index == |s.removed| && s.flights != [] && s.flights[0].wait == PubComp)
  }

  /** What was sent since contains no PUBLISH of message `index`. */
  ghost predicate NotPublishedSince(before: seq<PubPacket>, after: seq<PubPacket>, index: nat) {
    && before <= after
    && forall i :: |before| <= i < |after| && after[i].Publish? ==> after[i].msg.index != index
  }

  /** One step after the release neither takes the release back nor sends the PUBLISH again. */
  lemma ActKeepsReleased(s: Sender, action: Action, index: nat)
    requires Orderly(s) && Released(s, index)
    ensures Released(Act(s, action), index)
    ensures NotPublishedSince(s.sent, Act(s, action).sent, index)
  {
    var s' := Act(s, action);
    var more := if action.Submit? then [] else TurnOf(s.flights, action).sent;
    assert s'.sent == s.sent + more;
    if s.flights != [] {
      assert s.accepted[|s.removed|] == MessagesOf(s.flights)[0];
      assert s.flights[0].msg.index == |s.removed|;
    }
    assert forall i :: 0 <= i < |more| && more[i].Publish? ==> more[i].msg.index != index;
  }

  /** Once a message waits for PUBCOMP (or is done), no continuation of the run, whatever the peer sends,
      puts its PUBLISH on the wire again. */
  lemma {:induction false} ReleasedIsNeverPublishedAgain(s: Sender, actions: seq<Action>, index: nat)
    requires Orderly(s) && Released(s, index)
    ensures Released(RunFrom(s, actions), index)
    ensures NotPublishedSince(s.sent, RunFrom(s, actions).sent, index)
    decreases |actions|
  {
    if actions != [] {
      ActKeepsOrder(s, actions[0]);
      ActKeepsReleased(s, actions[0], index);
      ReleasedIsNeverPublishedAgain(Act(s, actions[0]), actions[1..], index);
    }
  }
}
