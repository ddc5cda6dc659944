/** What the joined QoS handshake promises its users, over every run. */
module QosTheorems {
  import opened MqttTypes
  import opened PublicationModel
  import opened SubscriptionModel
  import opened QosSystem
  import opened QosInvariant

  lemma StartIsOk()
    ensures Inv(START)
  {
    var c := START.peers;
    assert c.published == [] && c.completed == [] && c.flights == [] && c.receiving == map[] && c.forwarded == [];
    assert ListOk(c) && StoreOk(c);
    assert LogOrdered(c) && LogComplete(c);
    assert LogExact(c);
  }

  lemma {:induction false} OnlyExactlyOnceMembers(msgs: seq<Message>)
    ensures forall m :: m in OnlyExactlyOnce(msgs) <==> m in msgs && m.qos == ExactlyOnce
    decreases |msgs|
  {
    if msgs != [] {
      OnlyExactlyOnceMembers(msgs[..|msgs| - 1]);
      assert msgs == msgs[..|msgs| - 1] + [msgs[|msgs| - 1]];
    }
  }

  /** Messages in publish order, each at most once. */
  ghost predicate InPublishOrder(msgs: seq<Message>) {
    forall i, j :: 0 <= i < j < |msgs| ==> msgs[i].index < msgs[j].index
  }

  lemma {:induction false} OnlyExactlyOnceOrdered(msgs: seq<Message>)
    requires forall i, j :: 0 <= i < j < |msgs| ==> msgs[i].index <= msgs[j].index
    requires forall i, j :: 0 <= i < j < |msgs| && msgs[i].index == msgs[j].index ==> msgs[i].qos == AtLeastOnce
    requires forall i, j :: 0 <= i < j < |msgs| && msgs[i].index == msgs[j].index ==> msgs[j].qos == AtLeastOnce
    ensures InPublishOrder(OnlyExactlyOnce(msgs))
    decreases |msgs|
  {
    if msgs != [] {
      var n := |msgs| - 1;
      OnlyExactlyOnceOrdered(msgs[..n]);
      OnlyExactlyOnceMembers(msgs[..n]);
    }
  }

  lemma InvGivesExactlyOnce(c: Peers)
    requires PeersOk(c)
    ensures || OnlyExactlyOnce(c.forwarded) == OnlyExactlyOnce(c.completed)
            || (c.flights != [] && OnlyExactlyOnce(c.forwarded) == OnlyExactlyOnce(c.completed) + [c.flights[0].msg])
    ensures InPublishOrder(OnlyExactlyOnce(c.forwarded))
    ensures c.published == c.completed + MessagesOf(c.flights)
  {
    OnlyExactlyOnceOrdered(c.forwarded);
  }

  /** The QoS 2 messages handed to the application are the completed ones, or the completed ones and then the head:
      each once, in publish order; and every published message is completed or in flight. */
  ghost predicate ExactlyOnceSoFar(c: Peers) {
    && (|| OnlyExactlyOnce(c.forwarded) == OnlyExactlyOnce(c.completed)
        || (c.flights != []
            && OnlyExactlyOnce(c.forwarded) == OnlyExactlyOnce(c.completed) + [c.flights[0].msg]))
    && InPublishOrder(OnlyExactlyOnce(c.forwarded))
    && c.published == c.completed + MessagesOf(c.flights)
  }

  /** A dropped message is neither completed nor in flight, and no later step brings it back. */
  ghost predicate Accounting(s: System) {
    && |s.peers.completed| + |s.peers.flights| <= |s.peers.published|
    && (s.dropped ==> |s.peers.completed| + |s.peers.flights| < |s.peers.published|)
  }

  lemma StepKeepsAccounting(s: System, step: Step)
    requires Accounting(s)
    ensures Accounting(Apply(s, step))
  {
  }

  lemma {:induction false} RunKeepsAccounting(s: System, steps: seq<Step>)
    requires Accounting(s)
    ensures Accounting(Run(s, steps))
    decreases |steps|
  {
    if steps != [] {
      StepKeepsAccounting(s, steps[0]);
      RunKeepsAccounting(Apply(s, steps[0]), steps[1..]);
    }
  }

  /** Exactly once. Whatever is lost and however identifiers are reused, the promise holds after a run exactly if no
      clean-session reconnect erased a waiting message in it. */
  lemma {:induction false} ExactlyOnceDelivery(steps: seq<Step>)
    ensures ExactlyOnceSoFar(Run(START, steps).peers) <==> !Run(START, steps).dropped
  {
    StartIsOk();
    RunKeepsAccounting(START, steps);
    if !Run(START, steps).dropped {
      RunKeeps(START, steps);
      InvGivesExactlyOnce(Run(START, steps).peers);
    }
  }

  /** The log with adjacent repeats collapsed. */
  function Collapse(msgs: seq<Message>): seq<Message> {
    if |msgs| <= 1 then
      msgs
    else
      Collapse(msgs[..|msgs| - 1]) + (if msgs[|msgs| - 1] == msgs[|msgs| - 2] then [] else [msgs[|msgs| - 1]])
  }

  lemma AppendOrdered(front: seq<Message>, m: Message)
    requires InPublishOrder(front) && forall i :: 0 <= i < |front| ==> front[i].index < m.index
    ensures InPublishOrder(front + [m])
  {
  }

  lemma {:induction false} CollapseOrdered(msgs: seq<Message>, published: seq<Message>)
    requires forall i :: 0 <= i < |msgs| ==> msgs[i].index < |published| && msgs[i] == published[msgs[i].index]
    requires forall i, j :: 0 <= i < j < |msgs| ==> msgs[i].index <= msgs[j].index
    ensures InPublishOrder(Collapse(msgs))
    ensures forall m :: m in Collapse(msgs) <==> m in msgs
    ensures msgs != [] ==> Collapse(msgs) != [] && Collapse(msgs)[|Collapse(msgs)| - 1] == msgs[|msgs| - 1]
    decreases |msgs|
  {
    if |msgs| > 1 {
      var n := |msgs| - 1;
      CollapseOrdered(msgs[..n], published);
      assert msgs == msgs[..n] + [msgs[n]];
      assert msgs[..n][n - 1] == msgs[n - 1];
      var front := Collapse(msgs[..n]);
      if msgs[n] == msgs[n - 1] {
        assert front + [] == front;
      } else {
        forall i | 0 <= i < |front| ensures front[i].index < msgs[n].index {
          assert front[i] in msgs[..n];
          assert front[i].index <= msgs[n - 1].index;
        }
        AppendOrdered(front, msgs[n]);
      }
    }
  }

  /** Ordering across the QoS levels. The forwarded log without adjacent repeats is a subsequence of the
      publish order and contains every completed QoS 1 and QoS 2 message. */
  lemma {:induction false} MixedQosOrder(steps: seq<Step>)
    requires !Run(START, steps).dropped
    ensures var c := Run(START, steps).peers;
            && InPublishOrder(Collapse(c.forwarded))
            && (forall m :: m in Collapse(c.forwarded) ==> m.index < |c.published| && m == c.published[m.index])
            && (forall m :: m in c.completed && m.qos != AtMostOnce ==> m in Collapse(c.forwarded))
  {
    StartIsOk();
    RunKeeps(START, steps);
    var c := Run(START, steps).peers;
    CollapseOrdered(c.forwarded, c.published);
  }

  lemma {:induction false} RunSnoc(s: System, steps: seq<Step>, step: Step)
    ensures Run(s, steps + [step]) == Apply(Run(s, steps), step)
    decreases |steps|
  {
    if steps == [] {
      assert steps + [step] == [step];
      assert Run(s, [step]) == Run(Apply(s, step), []);
    } else {
      assert (steps + [step])[1..] == steps[1..] + [step];
      RunSnoc(Apply(s, steps[0]), steps[1..], step);
    }
  }

  /** One more step of a run. */
  lemma {:induction false} Then(steps: seq<Step>, s: System, step: Step) returns (longer: seq<Step>, r: System)
    requires Run(START, steps) == s
    ensures longer == steps + [step] && r == Apply(s, step) && Run(START, longer) == r
  {
    RunSnoc(START, steps, step);
    longer, r := steps + [step], Apply(s, step);
  }

  /** Two messages with one identifier, and the order in which they are published. */
  const OLD := Message(0, ExactlyOnce, 7)
  const NEW := Message(1, ExactlyOnce, 7)

  /** The receiving half stores message 0; then the connection breaks before its PUBREC arrives. */
  lemma {:induction false} StoreAndDisconnect() returns (steps: seq<Step>, s: System)
    ensures s == Run(START, steps)
    ensures s == System(Peers([OLD], [], [InFlight(OLD, true, PubRec)], map[7 := OLD], [], false), [], [], true, false)
  {
    steps, s := [], START;
    steps, s := Then(steps, s, Accept(ExactlyOnce, 7));
    steps, s := Then(steps, s, Reconnect);
    steps, s := Then(steps, s, Tick(true, false, false));
    assert s == System(Peers([OLD], [], [InFlight(OLD, true, Reserved)], map[], [], true), [], [], true, false);
    steps, s := Then(steps, s, Tick(true, false, false));
    assert s.peers == Peers([OLD], [], [InFlight(OLD, true, PubRec)], map[], [], true);
    assert s.down == [InTransit(Publish(OLD, true), 0)] && s.up == [];
    steps, s := Then(steps, s, DeliverDown(true));
    assert s.peers == Peers([OLD], [], [InFlight(OLD, true, PubRec)], map[7 := OLD], [], true);
    steps, s := Then(steps, s, Reconnect);
  }

  /** The head is dropped, and a new message with its identifier arrives while the old one is stored. */
  lemma {:induction false} IdentifierReused() returns (steps: seq<Step>, s: System)
    ensures s == Run(START, steps)
    ensures s.peers == Peers([OLD, NEW], [], [InFlight(NEW, false, PubRec)], map[7 := OLD], [], true) && s.connected
    ensures s.down == [] && s.up == [InTransit(Received(7), 0)]
  {
    steps, s := StoreAndDisconnect();
    steps, s := Then(steps, s, Tick(true, false, true));
    steps, s := Then(steps, s, Accept(ExactlyOnce, 7));
    assert s.peers == Peers([OLD, NEW], [], [InFlight(NEW, false, Reserved)], map[7 := OLD], [], true);
    steps, s := Then(steps, s, Tick(true, false, false));
    assert s.peers == Peers([OLD, NEW], [], [InFlight(NEW, false, PubRec)], map[7 := OLD], [], true);
    assert s.down == [InTransit(Publish(NEW, false), 0)] && s.up == [];
    steps, s := Then(steps, s, DeliverDown(true));
    assert s.up == [InTransit(Received(7), 0)];
  }

  /** With a clean session the promise fails: the sending half drops the head while the receiving half still
      holds it, and when the identifier is reused the old message is forwarded in place of the new one,
      which is nevertheless completed. */
  lemma {:induction false} CleanSessionBreaksExactlyOnce() returns (steps: seq<Step>)
    ensures var c := Run(START, steps).peers;
            && |c.published| == 2 && c.forwarded == [c.published[0]] && c.completed == [c.published[1]]
            && c.flights == []
  {
    var s: System;
    steps, s := IdentifierReused();
    steps, s := Then(steps, s, DeliverUp(true));
    assert s.peers == Peers([OLD, NEW], [], [InFlight(NEW, false, PubComp)], map[7 := OLD], [], true);
    assert s.down == [InTransit(Release(7), 0)] && s.up == [];
    steps, s := Then(steps, s, DeliverDown(true));
    assert s.peers == Peers([OLD, NEW], [], [InFlight(NEW, false, PubComp)], map[], [OLD], true);
    assert s.down == [] && s.up == [InTransit(Complete(7), 0)];
    steps, s := Then(steps, s, DeliverUp(true));
  }

  /** The receiving half still repeats its PUBREC: the message is released and forwarded, and one PUBREC is left. */
  lemma {:induction false} ReleaseRepeated() returns (steps: seq<Step>, s: System)
    ensures s == Run(START, steps)
    ensures s == System(Peers([OLD], [], [InFlight(OLD, true, PubComp)], map[], [OLD], false), [],
                        [InTransit(Received(7), 0), InTransit(Complete(7), 0)], true, false)
  {
    steps, s := StoreAndDisconnect();
    steps, s := Then(steps, s, Retry(7, true));
    steps, s := Then(steps, s, Retry(7, true));
    assert s.up == [InTransit(Received(7), 0), InTransit(Received(7), 0)];
    steps, s := Then(steps, s, DeliverUp(true));
    assert s.peers == Peers([OLD], [], [InFlight(OLD, true, PubComp)], map[7 := OLD], [], false);
    assert s.down == [InTransit(Release(7), 0)] && s.up == [InTransit(Received(7), 0)];
    steps, s := Then(steps, s, DeliverDown(true));
    assert s.up == [InTransit(Received(7), 0), InTransit(Complete(7), 0)];
  }

  /** The released head is dropped, and a new message with its identifier is sent and lost. */
  lemma {:induction false} NewMessageLost() returns (first: seq<Step>, steps: seq<Step>, s: System)
    ensures first <= steps && s == Run(START, steps)
    ensures Run(START, first).peers.published == [OLD] == Run(START, first).peers.forwarded
    ensures s.peers == Peers([OLD, NEW], [], [InFlight(NEW, false, PubRec)], map[], [OLD], true) && s.connected
    ensures s.down == [] && s.up == [InTransit(Received(7), 0), InTransit(Complete(7), 0)]
  {
    steps, s := ReleaseRepeated();
    first := steps;
    steps, s := Then(steps, s, Tick(true, false, true));
    steps, s := Then(steps, s, Accept(ExactlyOnce, 7));
    assert s.peers == Peers([OLD, NEW], [], [InFlight(NEW, false, Reserved)], map[], [OLD], true);
    steps, s := Then(steps, s, Tick(true, false, true));
    assert s.peers == Peers([OLD, NEW], [], [InFlight(NEW, false, PubRec)], map[], [OLD], true);
    assert s.down == [InTransit(Publish(NEW, false), 0)];
    steps, s := Then(steps, s, LoseDown(0));
  }

  /** The dropped message need not come in place of the missing one: it can have been forwarded before the other was
      published. `first` leads to the moment at which the only published message has been forwarded. */
  lemma {:induction false} StrayMayComeFirst() returns (first: seq<Step>, steps: seq<Step>)
    ensures first <= steps
    ensures var c := Run(START, first).peers; |c.published| == 1 && c.forwarded == c.published
    ensures var r := Run(START, steps);
            && |r.peers.published| == 2 && r.peers.forwarded == [r.peers.published[0]]
            && r.peers.completed == [r.peers.published[1]] && r.peers.flights == [] && r.peers.receiving == map[]
            && r.down == []
  {
    var s: System;
    first, steps, s := NewMessageLost();
    steps, s := Then(steps, s, DeliverUp(true));
    assert s.peers == Peers([OLD, NEW], [], [InFlight(NEW, false, PubComp)], map[], [OLD], true);
    assert s.down == [InTransit(Release(7), 0)] && s.up == [InTransit(Complete(7), 0)];
    steps, s := Then(steps, s, DeliverUp(true));
    assert s.peers == Peers([OLD, NEW], [NEW], [], map[], [OLD], true);
    assert s.down == [InTransit(Release(7), 0)] && s.up == [];
    steps, s := Then(steps, s, DeliverDown(true));
  }
}
