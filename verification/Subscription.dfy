/** The receiving half of the QoS handshake and the client's own subscriptions. */
module SubscriptionModel {
  import opened MqttTypes

  datatype Topic = Topic(name: string)

  /** A SUBSCRIBE or UNSUBSCRIBE request; `waiting` is set once it has been sent and its reply is awaited. */
  datatype SubRequest = SubRequest(topic: Topic, qos: Qos, id: PacketId, waiting: bool)
  datatype UnsubRequest = UnsubRequest(topic: Topic, id: PacketId, waiting: bool)

  datatype SubPacket =
    | Subscribe(topic: Topic, qos: Qos, id: PacketId)
    | Unsubscribe(topic: Topic, id: PacketId)
    | Reply(ack: AckPacket)

  // ---------------------------------------------------------------------------------------------------
  // Receiving messages
  // ---------------------------------------------------------------------------------------------------

  /** What the receiving half does with a PUBLISH or a PUBREL: the messages it then holds, its reply, and
      what it hands to the application. */
  datatype Reaction = Reaction(receiving: map<PacketId, Message>, reply: seq<AckPacket>, forwarded: seq<Message>)

  function OnPublish(receiving: map<PacketId, Message>, msg: Message, room: bool): Reaction {
    match msg.qos
    case AtMostOnce => Reaction(receiving, [], [msg])
    case AtLeastOnce => Reaction(receiving, if room then [Ack(msg.id)] else [], [msg])
    case ExactlyOnce =>
      Reaction(if msg.id in receiving then receiving else receiving[msg.id := msg],
               if room then [Received(msg.id)] else [], [])
  }

  function OnRelease(receiving: map<PacketId, Message>, id: PacketId, room: bool): Reaction {
    Reaction(receiving - {id},
             if room then [Complete(id)] else [],
             if id in receiving then [receiving[id]] else [])
  }

  // ---------------------------------------------------------------------------------------------------
  // Subscriptions
  // ---------------------------------------------------------------------------------------------------

  datatype Subs = Subs(subscribing: seq<SubRequest>, active: map<Topic, Qos>, unsubscribing: seq<UnsubRequest>)

  datatype SubEvent =
    | Subscribed(topic: Topic, qos: Qos, id: PacketId)
    | Unsubscribed(topic: Topic, id: PacketId)
    | Sent(subRoom: bool, unsubRoom: bool)
    | SubAcked(id: PacketId)
    | UnsubAcked(id: PacketId)
    | Disconnected

  function SetFirst<T>(s: seq<T>, first: T): seq<T>
    requires s != []
  {
    [first] + s[1..]
  }

  function OnSubscribe(s: Subs, topic: Topic, qos: Qos, id: PacketId): Subs {
    if topic in s.active && s.active[topic] == qos then
      s
    else
      s.(subscribing := s.subscribing + [SubRequest(topic, qos, id, false)])
  }

  /** Sending only marks the first request of each list as waiting. */
  function OnSent(s: Subs, subRoom: bool, unsubRoom: bool): Subs {
    s.(subscribing := if s.subscribing != [] && subRoom
                      then SetFirst(s.subscribing, s.subscribing[0].(waiting := true)) else s.subscribing,
       unsubscribing := if s.unsubscribing != [] && unsubRoom
                        then SetFirst(s.unsubscribing, s.unsubscribing[0].(waiting := true)) else s.unsubscribing)
  }

  function OnSubAck(s: Subs, id: PacketId): Subs {
    if s.subscribing != [] && s.subscribing[0].waiting && s.subscribing[0].id == id then
      var first := s.subscribing[0];
      s.(active := if first.topic in s.active then s.active else s.active[first.topic := first.qos],
         subscribing := s.subscribing[1..])
    else
      s
  }

  predicate CompletesUnsubscription(s: Subs, id: PacketId) {
    s.unsubscribing != [] && s.unsubscribing[0].id == id
  }

  function OnUnsubAck(s: Subs, id: PacketId): Subs {
    if CompletesUnsubscription(s, id) then
      s.(active := s.active - {s.unsubscribing[0].topic}, unsubscribing := s.unsubscribing[1..])
    else
      s
  }

  function ResetFirst(subscribing: seq<SubRequest>): seq<SubRequest> {
    if subscribing == [] then [] else SetFirst(subscribing, subscribing[0].(waiting := false))
  }

  function ResetFirstUnsub(unsubscribing: seq<UnsubRequest>): seq<UnsubRequest> {
    if unsubscribing == [] then [] else SetFirst(unsubscribing, unsubscribing[0].(waiting := false))
  }

  function Topics(queue: seq<SubRequest>): set<Topic> {
    set i | 0 <= i < |queue| :: queue[i].topic
  }

  /** `queue` holds exactly one fresh request for each active topic, in any order. */
  ghost predicate Requeues(queue: seq<SubRequest>, active: map<Topic, Qos>) {
    && Topics(queue) == active.Keys
    && (forall i, j :: 0 <= i < j < |queue| ==> queue[i].topic != queue[j].topic)
    && (forall i :: 0 <= i < |queue| ==>
          queue[i].topic in active && queue[i].qos == active[queue[i].topic] && !queue[i].waiting)
  }

  /** A lost connection resets the requests under way and queues every active topic for subscription again. */
  ghost predicate OnDisconnect(s: Subs, s': Subs) {
    && s'.active == map[]
    && s'.unsubscribing == ResetFirstUnsub(s.unsubscribing)
    && |s.subscribing| <= |s'.subscribing|
    && s'.subscribing[..|s.subscribing|] == ResetFirst(s.subscribing)
    && Requeues(s'.subscribing[|s.subscribing|..], s.active)
  }

  ghost predicate SubStep(s: Subs, event: SubEvent, s': Subs) {
    match event
    case Subscribed(topic, qos, id) => s' == OnSubscribe(s, topic, qos, id)
    case Unsubscribed(topic, id) => s' == s.(unsubscribing := s.unsubscribing + [UnsubRequest(topic, id, false)])
    case Sent(subRoom, unsubRoom) => s' == OnSent(s, subRoom, unsubRoom)
    case SubAcked(id) => s' == OnSubAck(s, id)
    case UnsubAcked(id) => s' == OnUnsubAck(s, id)
    case Disconnected => OnDisconnect(s, s')
  }

  predicate BeingSubscribed(s: Subs, topic: Topic) {
    exists i :: 0 <= i < |s.subscribing| && s.subscribing[i].topic == topic
  }

  /** The topic is active or being subscribed. */
  ghost predicate Wanted(s: Subs, topic: Topic) {
    topic in s.active || BeingSubscribed(s, topic)
  }

  ghost predicate Unsubscribes(s: Subs, event: SubEvent, topic: Topic) {
    event.UnsubAcked? && CompletesUnsubscription(s, event.id) && s.unsubscribing[0].topic == topic
  }

  lemma StepKeepsWanted(s: Subs, event: SubEvent, s': Subs, topic: Topic)
    requires SubStep(s, event, s') && Wanted(s, topic) && !Unsubscribes(s, event, topic)
    ensures Wanted(s', topic)
  {
    if topic !in s'.active {
      var queue := s'.subscribing;
      match event {
        case Disconnected =>
          var n := |s.subscribing|;
          if topic in s.active {
            assert topic in Topics(queue[n..]);
            var i :| 0 <= i < |queue[n..]| && queue[n..][i].topic == topic;
            assert queue[n + i].topic == topic;
          } else {
            var i :| 0 <= i < n && s.subscribing[i].topic == topic;
            assert queue[..n][i].topic == topic;
          }
        case SubAcked(_) =>
          var i :| 0 <= i < |s.subscribing| && s.subscribing[i].topic == topic;
          assert s' == s || s'.subscribing[i - 1].topic == topic;
        case _ =>
          var i :| 0 <= i < |s.subscribing| && s.subscribing[i].topic == topic;
          assert queue[i].topic == topic;
      }
    }
  }

  /** No subscription is lost: in any run of subscribing, sending, acknowledging, disconnecting and
      reconnecting, a topic stays active or being subscribed until an UNSUBACK for that very topic. */
  lemma {:induction false} NoSubscriptionLost(states: seq<Subs>, events: seq<SubEvent>, topic: Topic)
    requires |states| == |events| + 1
    requires forall i :: 0 <= i < |events| ==> SubStep(states[i], events[i], states[i + 1])
    requires forall i :: 0 <= i < |events| ==> !Unsubscribes(states[i], events[i], topic)
    requires Wanted(states[0], topic)
    ensures Wanted(states[|events|], topic)
    decreases |events|
  {
    if events != [] {
      var n := |events| - 1;
      NoSubscriptionLost(states[..n + 1], events[..n], topic);
      StepKeepsWanted(states[n], events[n], states[n + 1], topic);
    }
  }

  /** A step loses a wanted topic exactly if it is the UNSUBACK that completes an unsubscription of that topic and the
      topic is not being subscribed again meanwhile. */
  lemma LostOnlyByUnsubAck(s: Subs, event: SubEvent, s': Subs, topic: Topic)
    requires SubStep(s, event, s') && Wanted(s, topic)
    ensures !Wanted(s', topic) <==> Unsubscribes(s, event, topic) && !BeingSubscribed(s, topic)
  {
    if !Unsubscribes(s, event, topic) {
      StepKeepsWanted(s, event, s', topic);
    }
  }

  // ---------------------------------------------------------------------------------------------------
  // The class
  // ---------------------------------------------------------------------------------------------------

  class Subscription {
    var receiving: map<PacketId, Message>
    var subscribing: seq<SubRequest>
    var active: map<Topic, Qos>
    var unsubscribing: seq<UnsubRequest>

    /** What forward_to_application handed over, in order. */
    var application: seq<Message>

    function State(): Subs
      reads this
    {
      Subs(subscribing, active, unsubscribing)
    }

    constructor ()
      ensures State() == Subs([], map[], []) && receiving == map[] && application == []
    {
      receiving, subscribing, active, unsubscribing, application := map[], [], map[], [], [];
    }

    method SubscribeTo(topic: Topic, qos: Qos, ids: PacketIdentifierFactory)
      modifies this`subscribing, ids
      ensures SubStep(old(State()), Subscribed(topic, qos, ids.id), State())
    {
      if topic !in active {
        var id := ids.GetId();
        subscribing := subscribing + [SubRequest(topic, qos, id, false)];
      } else if qos != active[topic] {
        var id := ids.GetId();
        subscribing := subscribing + [SubRequest(topic, qos, id, false)];
      }
    }

    method UnsubscribeFrom(topic: Topic, ids: PacketIdentifierFactory)
      modifies this`unsubscribing, ids
      ensures SubStep(old(State()), Unsubscribed(topic, ids.id), State())
    {
      var id := ids.GetId();
      unsubscribing := unsubscribing + [UnsubRequest(topic, id, false)];
    }

    /** The loop of handle_disconnect: every active topic leaves the map and is subscribed again. */
    method RequeueActive(ids: PacketIdentifierFactory)
      modifies this`subscribing, this`active, ids
      ensures active == map[]
      ensures |old(subscribing)| <= |subscribing| && subscribing[..|old(subscribing)|] == old(subscribing)
      ensures Requeues(subscribing[|old(subscribing)|..], old(active))
    {
      ghost var n := |subscribing|;
      ghost var moved: map<Topic, Qos> := map[];
      while active != map[]
        invariant n <= |subscribing| && subscribing[..n] == old(subscribing)
        invariant Requeues(subscribing[n..], moved)
        invariant Split(old(active), moved, active)
        decreases active.Keys
      {
        var topic :| topic in active;
        var qos := active[topic];
        active := active - {topic};
        ghost var before := subscribing;
        SubscribeTo(topic, qos, ids);
        AddedBehind(before, SubRequest(topic, qos, ids.id, false), n);
        RequeueOne(before[n..], moved, SubRequest(topic, qos, ids.id, false));
        moved := moved[topic := qos];
      }
      assert moved == old(active);
    }

    method HandleDisconnect(ids: PacketIdentifierFactory)
      modifies this`subscribing, this`active, this`unsubscribing, ids
      ensures SubStep(old(State()), Disconnected, State())
    {
      subscribing := ResetFirst(subscribing);
      RequeueActive(ids);
      unsubscribing := ResetFirstUnsub(unsubscribing);
    }

    method ReceiveSubAck(id: PacketId)
      modifies this`subscribing, this`active
      ensures SubStep(old(State()), SubAcked(id), State())
    {
      if subscribing != [] {
        var first := subscribing[0];
        if first.waiting && first.id == id {
          if first.topic !in active {
            active := active[first.topic := first.qos];
          }
          subscribing := subscribing[1..];
        }
      }
    }

    method ReceiveUnsubAck(id: PacketId)
      modifies this`unsubscribing, this`active
      ensures SubStep(old(State()), UnsubAcked(id), State())
    {
      if unsubscribing != [] {
        var front := unsubscribing[0];
        if front.id == id {
          active := active - {front.topic};
          unsubscribing := unsubscribing[1..];
        }
      }
    }

    method ReceivePublish(msg: Message, mqtt: Transmitter<SubPacket>)
      modifies this`receiving, this`application, mqtt
      ensures var r := OnPublish(old(receiving), msg, old(mqtt.HasRoom()));
              && receiving == r.receiving
              && application == old(application) + r.forwarded
              && mqtt.tx == old(mqtt.tx) + Replies(r.reply)
    {
      var sent: bool;
      if msg.qos == AtMostOnce {
        application := application + [msg];
      } else if msg.qos == AtLeastOnce {
        sent := mqtt.SendPacket(Reply(Ack(msg.id)));
        application := application + [msg];
      } else {
        if msg.id !in receiving {
          receiving := receiving[msg.id := msg];
        }
        sent := mqtt.SendPacket(Reply(Received(msg.id)));
      }
    }

    method ReceivePubRel(id: PacketId, mqtt: Transmitter<SubPacket>)
      modifies this`receiving, this`application, mqtt
      ensures var r := OnRelease(old(receiving), id, old(mqtt.HasRoom()));
              && receiving == r.receiving
              && application == old(application) + r.forwarded
              && mqtt.tx == old(mqtt.tx) + Replies(r.reply)
    {
      var sent := mqtt.SendPacket(Reply(Complete(id)));
      if id in receiving {
        application := application + [receiving[id]];
        receiving := receiving - {id};
      } else {
        assert receiving - {id} == receiving;
      }
    }

    method SendFirstSubscription(mqtt: Transmitter<SubPacket>, late: bool) returns (sent: bool, allOk: bool)
      modifies this`subscribing, mqtt
      ensures State() == OnSent(old(State()), sent, false)
      ensures sent <==> old(mqtt.HasRoom()) && old(subscribing) != [] && !old(subscribing)[0].waiting
      ensures mqtt.tx == old(mqtt.tx) + (if sent then [Request(old(subscribing)[0])] else [])
      ensures !allOk <==> old(subscribing) != [] && old(subscribing)[0].waiting && late
    {
      sent, allOk := false, true;
      if subscribing != [] {
        var first := subscribing[0];
        if !first.waiting {
          sent := mqtt.SendPacket(Request(first));
          if sent {
            subscribing := SetFirst(subscribing, first.(waiting := true));
          }
        } else if late {
          allOk := false;
        }
      }
    }

    method SendFirstUnsubscription(mqtt: Transmitter<SubPacket>, late: bool) returns (sent: bool, allOk: bool)
      modifies this`unsubscribing, mqtt
      ensures State() == OnSent(old(State()), false, sent)
      ensures sent <==> old(mqtt.HasRoom()) && old(unsubscribing) != [] && !old(unsubscribing)[0].waiting
      ensures mqtt.tx == old(mqtt.tx) + (if sent then [Unrequest(old(unsubscribing)[0])] else [])
      ensures !allOk <==> old(unsubscribing) != [] && old(unsubscribing)[0].waiting && late
    {
      sent, allOk := false, true;
      if unsubscribing != [] {
        var first := unsubscribing[0];
        if !first.waiting {
          sent := mqtt.SendPacket(Unrequest(first));
          if sent {
            unsubscribing := SetFirst(unsubscribing, first.(waiting := true));
          }
        } else if late {
          allOk := false;
        }
      }
    }

    /** Repeats the PUBREC of every message whose PUBREL is overdue, while the transmitter has room. */
    method RepeatPubRec(mqtt: Transmitter<SubPacket>, late: set<PacketId>)
      modifies mqtt
      ensures Retries(old(mqtt.tx), mqtt.tx, receiving.Keys * late)
    {
      var todo := receiving.Keys * late;
      ghost var done: set<PacketId> := {};
      while todo != {}
        invariant todo !! done && todo + done == receiving.Keys * late
        invariant Retries(old(mqtt.tx), mqtt.tx, done)
        decreases |todo|
      {
        var id :| id in todo;
        OneMoreRetry(old(mqtt.tx), mqtt.tx, done, id);
        var sent := mqtt.SendPacket(Reply(Received(id)));
        assert !sent ==> mqtt.tx + [] == mqtt.tx;
        todo, done := todo - {id}, done + {id};
      }
      assert done == receiving.Keys * late;
    }

    /** `subLate` and `unsubLate` tell whether the awaited reply is overdue, which forces a disconnect. */
    method SubscribeNext(mqtt: Transmitter<SubPacket>, subLate: bool, unsubLate: bool, late: set<PacketId>)
      returns (forceDisconnect: bool, subSent: bool, unsubSent: bool)
      modifies this`subscribing, this`unsubscribing, mqtt
      ensures SubStep(old(State()), Sent(subSent, unsubSent), State())
      ensures subSent <==> SendsSubscribe(old(State()), old(mqtt.tx))
      ensures unsubSent <==> SendsUnsubscribe(old(State()), subLate, old(mqtt.tx))
      ensures forceDisconnect <==> Overdue(old(State()), subLate, unsubLate)
      ensures var requests := SentRequests(old(State()), subSent, unsubSent, old(mqtt.tx));
              if forceDisconnect then mqtt.tx == requests else Retries(requests, mqtt.tx, receiving.Keys * late)
    {
      unsubSent := false;
      var allOk;
      subSent, allOk := SendFirstSubscription(mqtt, subLate);
      if allOk {
        unsubSent, allOk := SendFirstUnsubscription(mqtt, unsubLate);
      }
      if allOk {
        RepeatPubRec(mqtt, late);
      }
      forceDisconnect := !allOk;
    }
  }

  function Request(r: SubRequest): SubPacket {
    Subscribe(r.topic, r.qos, r.id)
  }

  function Unrequest(r: UnsubRequest): SubPacket {
    Unsubscribe(r.topic, r.id)
  }

  /** What is in the transmitter when the first requests have been sent. */
  function SentRequests(s: Subs, subSent: bool, unsubSent: bool, tx: seq<SubPacket>): seq<SubPacket>
    requires subSent ==> s.subscribing != []
    requires unsubSent ==> s.unsubscribing != []
  {
    tx + (if subSent then [Request(s.subscribing[0])] else [])
       + (if unsubSent then [Unrequest(s.unsubscribing[0])] else [])
  }

  /** The first SUBSCRIBE is sent if it waits for nothing and there is room. */
  predicate SendsSubscribe(s: Subs, tx: seq<SubPacket>) {
    |tx| < BUFFER_SIZE && s.subscribing != [] && !s.subscribing[0].waiting
  }

  /** The first UNSUBSCRIBE is sent if it waits for nothing, no SUBACK is overdue, and the SUBSCRIBE leaves room. */
  predicate SendsUnsubscribe(s: Subs, subLate: bool, tx: seq<SubPacket>) {
    && |tx| + (if SendsSubscribe(s, tx) then 1 else 0) < BUFFER_SIZE
    && s.unsubscribing != [] && !s.unsubscribing[0].waiting
    && !(s.subscribing != [] && s.subscribing[0].waiting && subLate)
  }

  /** An awaited SUBACK or UNSUBACK is overdue. */
  predicate Overdue(s: Subs, subLate: bool, unsubLate: bool) {
    || (s.subscribing != [] && s.subscribing[0].waiting && subLate)
    || (s.unsubscribing != [] && s.unsubscribing[0].waiting && unsubLate)
  }

  predicate IsRetry(packet: SubPacket, ids: set<PacketId>) {
    packet.Reply? && packet.ack.Received? && packet.ack.id in ids
  }

  /** PUBREC packets with these identifiers were added, each once, and all of them unless the ring is full. */
  predicate Retries(before: seq<SubPacket>, after: seq<SubPacket>, ids: set<PacketId>) {
    && before <= after
    && (forall i :: |before| <= i < |after| ==> IsRetry(after[i], ids))
    && (forall i, j :: |before| <= i < j < |after| ==> after[i] != after[j])
    && (|after| < BUFFER_SIZE ==> forall id :: id in ids ==> Reply(Received(id)) in after[|before|..])
  }

  lemma OneMoreRetry(before: seq<SubPacket>, after: seq<SubPacket>, ids: set<PacketId>, id: PacketId)
    requires Retries(before, after, ids) && id !in ids
    ensures Retries(before, after + [Reply(Received(id))], ids + {id})
    ensures |after| >= BUFFER_SIZE ==> Retries(before, after, ids + {id})
  {
    var a := after + [Reply(Received(id))];
    assert a[|before|..] == after[|before|..] + [Reply(Received(id))];
    forall i | |before| <= i < |after| ensures a[i] != Reply(Received(id)) {
      assert IsRetry(after[i], ids);
    }
  }

  ghost predicate Split(whole: map<Topic, Qos>, left: map<Topic, Qos>, right: map<Topic, Qos>) {
    && left.Keys !! right.Keys
    && whole.Keys == left.Keys + right.Keys
    && (forall topic :: topic in left ==> whole[topic] == left[topic])
    && (forall topic :: topic in right ==> whole[topic] == right[topic])
  }

  function Replies(acks: seq<AckPacket>): seq<SubPacket> {
    seq(|acks|, i requires 0 <= i < |acks| => Reply(acks[i]))
  }

  lemma AddedBehind(queue: seq<SubRequest>, request: SubRequest, n: nat)
    requires n <= |queue|
    ensures (queue + [request])[..n] == queue[..n] && (queue + [request])[n..] == queue[n..] + [request]
  {
  }

  lemma RequeueOne(queue: seq<SubRequest>, active: map<Topic, Qos>, request: SubRequest)
    requires Requeues(queue, active) && request.topic !in active && !request.waiting
    ensures Requeues(queue + [request], active[request.topic := request.qos])
  {
    var q, a := queue + [request], active[request.topic := request.qos];
    assert a.Keys == active.Keys + {request.topic};
    assert Topics(q) == Topics(queue) + {request.topic} by {
      assert q[|queue|] == request;
      assert forall i :: 0 <= i < |queue| ==> q[i] == queue[i];
    }
  }
}
