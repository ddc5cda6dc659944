/** What becomes of the QoS of a subscription, and that every request can be answered. */
module SubscriptionQos {
  import opened MqttTypes
  import opened SubscriptionModel

  predicate Requested(s: Subs, topic: Topic, qos: Qos) {
    exists i :: 0 <= i < |s.subscribing| && s.subscribing[i].topic == topic && s.subscribing[i].qos == qos
  }

  predicate ActiveWith(s: Subs, topic: Topic, qos: Qos) {
    topic in s.active && s.active[topic] == qos
  }

  // ---------------------------------------------------------------------------------------------------
  // Single events
  // ---------------------------------------------------------------------------------------------------

  /** A subscription is active already, or it is requested last and waits for nothing. */
  lemma SubscribeIsHonoured(s: Subs, topic: Topic, qos: Qos, id: PacketId, s': Subs)
    requires SubStep(s, Subscribed(topic, qos, id), s')
    ensures s'.active == s.active && s'.unsubscribing == s.unsubscribing
    ensures if ActiveWith(s, topic, qos) then s' == s
            else s'.subscribing == s.subscribing + [SubRequest(topic, qos, id, false)]
  {
  }

  /** A first request waits once it has been sent; nothing else changes. */
  lemma SentWaits(s: Subs, sub: bool, unsub: bool, s': Subs)
    requires SubStep(s, Sent(sub, unsub), s')
    ensures s'.active == s.active && |s'.subscribing| == |s.subscribing| && |s'.unsubscribing| == |s.unsubscribing|
    ensures forall i :: 0 <= i < |s.subscribing| ==>
              s'.subscribing[i] == s.subscribing[i].(waiting := s.subscribing[i].waiting || (i == 0 && sub))
    ensures forall i :: 0 <= i < |s.unsubscribing| ==>
              s'.unsubscribing[i] == s.unsubscribing[i].(waiting := s.unsubscribing[i].waiting || (i == 0 && unsub))
  {
  }

  /** In a turn with room for two packets and no reply overdue, the first request of each list is sent unless it
      waits. */
  lemma FirstRequestsAreSent(s: Subs, tx: seq<SubPacket>)
    requires |tx| + 2 <= 5
    ensures !Overdue(s, false, false)
    ensures SendsSubscribe(s, tx) <==> s.subscribing != [] && !s.subscribing[0].waiting
    ensures SendsUnsubscribe(s, false, tx) <==> s.unsubscribing != [] && !s.unsubscribing[0].waiting
    ensures var sub, unsub := SendsSubscribe(s, tx), SendsUnsubscribe(s, false, tx);
            var requests := SentRequests(s, sub, unsub, tx);
            && (sub ==> requests[|tx|] == Subscribe(s.subscribing[0].topic, s.subscribing[0].qos, s.subscribing[0].id))
            && (unsub ==> requests[|requests| - 1]
                          == Unsubscribe(s.unsubscribing[0].topic, s.unsubscribing[0].id))
            && |requests| == |tx| + (if sub then 1 else 0) + if unsub then 1 else 0
  {
  }

  /** An overdue SUBACK or UNSUBACK forces a disconnect, and with an overdue SUBACK no UNSUBSCRIBE is sent. A full ring
      takes nothing. */
  lemma LateRepliesDisconnect(s: Subs, tx: seq<SubPacket>)
    ensures s.subscribing != [] && s.subscribing[0].waiting ==>
              Overdue(s, true, false) && !SendsUnsubscribe(s, true, tx) && !SendsSubscribe(s, tx)
    ensures s.unsubscribing != [] && s.unsubscribing[0].waiting ==>
              Overdue(s, false, true) && !SendsUnsubscribe(s, false, tx)
    ensures |tx| >= 5 ==> !SendsSubscribe(s, tx) && !SendsUnsubscribe(s, false, tx)
    ensures |tx| == 4 && SendsSubscribe(s, tx) ==> !SendsUnsubscribe(s, false, tx)
  {
  }

  /** The SUBACK of the waiting first request makes its topic active with the requested QoS, unless the topic was
      active before; no other entry changes. */
  lemma SubAckActivates(s: Subs, id: PacketId, s': Subs)
    requires SubStep(s, SubAcked(id), s')
    requires s.subscribing != [] && s.subscribing[0].waiting && s.subscribing[0].id == id
    ensures var first := s.subscribing[0];
            && [first] + s'.subscribing == s.subscribing && s'.unsubscribing == s.unsubscribing
            && s'.active.Keys == s.active.Keys + {first.topic}
            && (first.topic !in s.active ==> s'.active[first.topic] == first.qos)
            && forall topic :: topic in s.active ==> s'.active[topic] == s.active[topic]
  {
  }

  /** A SUBACK that is not for the waiting first request changes nothing. */
  lemma OtherSubAck(s: Subs, id: PacketId, s': Subs)
    requires SubStep(s, SubAcked(id), s')
    requires s.subscribing == [] || !s.subscribing[0].waiting || s.subscribing[0].id != id
    ensures s' == s
  {
  }

  /** An active entry keeps its QoS until an UNSUBACK ends it or the connection is lost. */
  lemma ActiveQosStays(s: Subs, event: SubEvent, s': Subs, topic: Topic)
    requires SubStep(s, event, s') && topic in s.active && !event.Disconnected? && !Unsubscribes(s, event, topic)
    ensures topic in s'.active && s'.active[topic] == s.active[topic]
  {
  }

  /** A lost connection requests each active topic again with its QoS, and resets the requests under way. */
  lemma DisconnectRequestsAgain(s: Subs, s': Subs, topic: Topic)
    requires SubStep(s, Disconnected, s') && topic in s.active
    ensures Requested(s', topic, s.active[topic]) && topic !in s'.active
  {
    var n, queue := |s.subscribing|, s'.subscribing;
    assert topic in Topics(queue[n..]);
    var i :| 0 <= i < |queue[n..]| && queue[n..][i].topic == topic;
    assert queue[n + i] == queue[n..][i];
  }

  /** Only the first request of each list waits for its reply. */
  ghost predicate OnlyFirstWaits(s: Subs) {
    && (forall i :: 1 <= i < |s.subscribing| ==> !s.subscribing[i].waiting)
    && (forall i :: 1 <= i < |s.unsubscribing| ==> !s.unsubscribing[i].waiting)
  }

  lemma StepKeepsWaiting(s: Subs, event: SubEvent, s': Subs)
    requires SubStep(s, event, s') && OnlyFirstWaits(s)
    ensures OnlyFirstWaits(s')
    ensures event.Disconnected? ==>
              && (forall i :: 0 <= i < |s'.subscribing| ==> !s'.subscribing[i].waiting)
              && (forall i :: 0 <= i < |s'.unsubscribing| ==> !s'.unsubscribing[i].waiting)
  {
    if event.Disconnected? {
      var n, queue := |s.subscribing|, s'.subscribing;
      forall i | 0 <= i < |queue| ensures !queue[i].waiting {
        assert queue[i] == if i < n then queue[..n][i] else queue[n..][i - n];
      }
    }
  }

  // ---------------------------------------------------------------------------------------------------
  // Every run
  // ---------------------------------------------------------------------------------------------------

  /** subscribe() was called with this topic and QoS. */
  ghost predicate Asked(events: seq<SubEvent>, topic: Topic, qos: Qos) {
    exists i :: 0 <= i < |events| && events[i].Subscribed? && events[i].topic == topic && events[i].qos == qos
  }

  ghost predicate AllAsked(events: seq<SubEvent>, s: Subs) {
    && (forall i :: 0 <= i < |s.subscribing| ==> Asked(events, s.subscribing[i].topic, s.subscribing[i].qos))
    && (forall topic :: topic in s.active ==> Asked(events, topic, s.active[topic]))
  }

  ghost predicate IsRun(states: seq<Subs>, events: seq<SubEvent>) {
    && |states| == |events| + 1
    && forall i :: 0 <= i < |events| ==> SubStep(states[i], events[i], states[i + 1])
  }

  lemma AskedLater(events: seq<SubEvent>, event: SubEvent, topic: Topic, qos: Qos)
    requires Asked(events, topic, qos)
    ensures Asked(events + [event], topic, qos)
  {
    var i :| 0 <= i < |events| && events[i].Subscribed? && events[i].topic == topic && events[i].qos == qos;
    assert (events + [event])[i] == events[i];
  }

  /** A request of the new state is one of the old state, an active entry of it, or what has just been asked for. */
  lemma RequestOrigin(s: Subs, event: SubEvent, s': Subs, i: nat)
    requires SubStep(s, event, s') && i < |s'.subscribing|
    ensures var r := s'.subscribing[i];
            || Requested(s, r.topic, r.qos) || ActiveWith(s, r.topic, r.qos)
            || (event.Subscribed? && event.topic == r.topic && event.qos == r.qos)
  {
    var r := s'.subscribing[i];
    match event
    case Disconnected =>
      var n, queue := |s.subscribing|, s'.subscribing;
      if i < n {
        assert queue[..n][i] == r && s.subscribing[i].topic == r.topic;
      } else {
        assert queue[n..][i - n] == r;
      }
    case SubAcked(_) =>
      assert s'.subscribing == s.subscribing || r == s.subscribing[i + 1];
    case _ =>
      assert i < |s.subscribing| ==> s.subscribing[i].topic == r.topic && s.subscribing[i].qos == r.qos;
  }

  lemma ActiveOrigin(s: Subs, event: SubEvent, s': Subs, topic: Topic)
    requires SubStep(s, event, s') && topic in s'.active
    ensures Requested(s, topic, s'.active[topic]) || ActiveWith(s, topic, s'.active[topic])
  {
    if event.SubAcked? && topic !in s.active {
      assert s.subscribing[0].topic == topic;
    }
  }

  lemma AskedFor(events: seq<SubEvent>, s: Subs, topic: Topic, qos: Qos)
    requires AllAsked(events, s) && (Requested(s, topic, qos) || ActiveWith(s, topic, qos))
    ensures Asked(events, topic, qos)
  {
  }

  /** In every run from the start, whatever is active or requested was asked for with that QoS. */
  lemma {:induction false} OnlyWhatWasAsked(states: seq<Subs>, events: seq<SubEvent>)
    requires IsRun(states, events) && states[0] == Subs([], map[], [])
    ensures AllAsked(events, states[|events|])
    decreases |events|
  {
    if events != [] {
      var n := |events| - 1;
      var before, s, e, s' := events[..n], states[n], events[n], states[n + 1];
      OnlyWhatWasAsked(states[..n + 1], before);
      assert events == before + [e];
      forall i | 0 <= i < |s'.subscribing| ensures Asked(events, s'.subscribing[i].topic, s'.subscribing[i].qos) {
        var r := s'.subscribing[i];
        RequestOrigin(s, e, s', i);
        if Requested(s, r.topic, r.qos) || ActiveWith(s, r.topic, r.qos) {
          AskedFor(before, s, r.topic, r.qos);
          AskedLater(before, e, r.topic, r.qos);
        } else {
          assert events[n] == e;
        }
      }
      forall topic | topic in s'.active ensures Asked(events, topic, s'.active[topic]) {
        ActiveOrigin(s, e, s', topic);
        AskedFor(before, s, topic, s'.active[topic]);
        AskedLater(before, e, topic, s'.active[topic]);
      }
    }
  }

  // ---------------------------------------------------------------------------------------------------
  // Every request can be answered
  // ---------------------------------------------------------------------------------------------------

  /** The QoS of the first request for the topic. */
  function FirstQos(queue: seq<SubRequest>, topic: Topic): Qos
    requires topic in Topics(queue)
  {
    if queue[0].topic == topic then queue[0].qos
    else
      assert topic in Topics(queue[1..]) by {
        var i :| 0 <= i < |queue| && queue[i].topic == topic;
        assert queue[1..][i - 1].topic == topic;
      }
      FirstQos(queue[1..], topic)
  }

  /** Every request has been answered: its topic is active, with the QoS it was active with or was requested with
      first. */
  ghost predicate AllActive(s: Subs, r: Subs) {
    && r.subscribing == [] && r.active.Keys == s.active.Keys + Topics(s.subscribing)
    && (forall topic :: topic in s.active ==> r.active[topic] == s.active[topic])
    && (forall topic :: topic in r.active && topic !in s.active && topic in Topics(s.subscribing) ==>
          r.active[topic] == FirstQos(s.subscribing, topic))
  }

  /** The first request is sent and answered. */
  lemma FirstAnswered(s: Subs) returns (sent: Subs, r: Subs)
    requires s.subscribing != []
    ensures SubStep(s, Sent(true, false), sent) && SubStep(sent, SubAcked(s.subscribing[0].id), r)
    ensures r.subscribing == s.subscribing[1..] && r.active.Keys == s.active.Keys + {s.subscribing[0].topic}
    ensures s.subscribing[0].topic !in s.active ==> r.active[s.subscribing[0].topic] == s.subscribing[0].qos
    ensures forall topic :: topic in s.active ==> r.active[topic] == s.active[topic]
  {
    sent := OnSent(s, true, false);
    r := OnSubAck(sent, s.subscribing[0].id);
    SubAckActivates(sent, s.subscribing[0].id, r);
  }

  lemma TopicsOfRest(queue: seq<SubRequest>)
    requires queue != []
    ensures Topics(queue) == {queue[0].topic} + Topics(queue[1..])
  {
    forall topic ensures topic in Topics(queue) <==> topic == queue[0].topic || topic in Topics(queue[1..]) {
      if topic in Topics(queue) && topic != queue[0].topic {
        var i :| 0 <= i < |queue| && queue[i].topic == topic;
        assert queue[1..][i - 1].topic == topic;
      }
      if topic in Topics(queue[1..]) {
        var i :| 0 <= i < |queue[1..]| && queue[1..][i].topic == topic;
        assert queue[i + 1].topic == topic;
      }
    }
  }

  lemma AnsweredThenRest(s: Subs, d: Subs, r: Subs)
    requires s.subscribing != [] && d.subscribing == s.subscribing[1..] && AllActive(d, r)
    requires d.active.Keys == s.active.Keys + {s.subscribing[0].topic}
    requires s.subscribing[0].topic !in s.active ==> d.active[s.subscribing[0].topic] == s.subscribing[0].qos
    requires forall topic :: topic in s.active ==> d.active[topic] == s.active[topic]
    ensures AllActive(s, r)
  {
    TopicsOfRest(s.subscribing);
    forall topic | topic in r.active && topic !in s.active && topic in Topics(s.subscribing)
      ensures r.active[topic] == FirstQos(s.subscribing, topic)
    {
      if topic == s.subscribing[0].topic {
        assert topic in d.active;
      } else {
        assert topic in Topics(d.subscribing) && topic !in d.active;
      }
    }
  }

  /** From any state a run of sending and answering makes every requested topic active. */
  lemma {:induction false} EveryRequestCanBecomeActive(s: Subs) returns (states: seq<Subs>, events: seq<SubEvent>)
    ensures IsRun(states, events) && states[0] == s && AllActive(s, states[|events|])
    ensures |events| == 2 * |s.subscribing| && forall i :: 0 <= i < |events| ==> events[i].Sent? || events[i].SubAcked?
    decreases |s.subscribing|
  {
    if s.subscribing == [] {
      states, events := [s], [];
      assert Topics(s.subscribing) == {};
    } else {
      var sent, d := FirstAnswered(s);
      var later, rest := EveryRequestCanBecomeActive(d);
      states, events := [s, sent] + later, [Sent(true, false), SubAcked(s.subscribing[0].id)] + rest;
      AnsweredThenRest(s, d, later[|rest|]);
      assert states[|events|] == later[|rest|];
      forall i | 0 <= i < |events| ensures SubStep(states[i], events[i], states[i + 1]) {
        if i >= 2 {
          assert states[i] == later[i - 2] && events[i] == rest[i - 2] && states[i + 1] == later[i - 1];
        }
      }
    }
  }

  /** An unsubscription that is sent and answered ends its topic and no other. */
  lemma UnsubscriptionEnds(s: Subs, sent: Subs, r: Subs)
    requires s.unsubscribing != []
    requires SubStep(s, Sent(false, true), sent) && SubStep(sent, UnsubAcked(s.unsubscribing[0].id), r)
    ensures [s.unsubscribing[0]] + r.unsubscribing == s.unsubscribing && r.subscribing == s.subscribing
    ensures forall topic :: topic in r.active <==> topic in s.active && topic != s.unsubscribing[0].topic
    ensures forall topic :: topic in r.active ==> r.active[topic] == s.active[topic]
  {
  }

  /** An unsubscription is queued last and waits for nothing. */
  lemma UnsubscribeIsHonoured(s: Subs, topic: Topic, id: PacketId, s': Subs)
    requires SubStep(s, Unsubscribed(topic, id), s')
    ensures s'.unsubscribing == s.unsubscribing + [UnsubRequest(topic, id, false)]
    ensures s'.active == s.active && s'.subscribing == s.subscribing
  {
  }
}
