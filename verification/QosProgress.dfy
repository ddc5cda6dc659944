/** What a tick of the client does to the handshake, and that every handshake can be completed: from any state one
    round over a connection that loses nothing completes the head. */
module QosProgress {
  import opened MqttTypes
  import opened PublicationModel
  import opened SubscriptionModel
  import opened RunStateModel
  import opened QosSystem
  import opened QosEveryRun
  import opened QosFlow

  // ---------------------------------------------------------------------------------------------------
  // The tick
  // ---------------------------------------------------------------------------------------------------

  /** A tick of the joined system is the tick of the client: its list, its packets, and what it erases. */
  lemma TickIsStep(s: System, room: bool, late: bool, clean: bool)
    requires s.connected
    ensures var turn := TickTurn(s.peers.flights, s.peers.resent, clean, room, late);
            var r := Apply(s, Tick(room, late, clean));
            && r.peers.flights == turn.flights && r.peers.resent
            && r.down == s.down + Tagged(turn.sent, HeadIndex(s.peers))
            && (r.dropped <==> s.dropped || (!s.peers.resent && CleanSessionDrops(s.peers.flights, clean)))
  {
    if !s.peers.resent && CleanSessionDrops(s.peers.flights, clean) {
      assert s.down + Tagged([], HeadIndex(s.peers)) == s.down;
    }
  }

  /** Without a clean session the first tick of a connection sends the PUBREL again, or lets a head that waited for
      anything else wait for nothing, so that the next tick publishes it. */
  lemma FirstTick(flights: seq<InFlight>, late: bool)
    requires flights != []
    ensures var head, turn := flights[0], TickTurn(flights, false, false, true, late);
            if head.wait == PubComp then turn == Turn(flights, [Release(head.msg.id)], false)
            else
              && turn.sent == [] && !turn.disconnect && |turn.flights| == |flights| && turn.flights[1..] == flights[1..]
              && turn.flights[0].msg == head.msg && turn.flights[0].wait == Reserved
              && TickTurn(turn.flights, true, false, true, late).sent == [Publish(head.msg, turn.flights[0].dup)]
  {
  }

  /** Section 3.3.1.1 of MQTT 3.1.1 asks for DUP on every PUBLISH that is sent again, and only there. The code sets it
      unless the head waited for PUBREC, and so also on a head that has never been sent. */
  lemma DupWhenResent(flights: seq<InFlight>, late: bool)
    requires flights != [] && flights[0].wait != PubComp
    ensures var turn := TickTurn(flights, false, false, true, late);
            turn.flights[0].dup <==> flights[0].dup || flights[0].wait != PubRec
  {
  }

  /** A disconnect is forced exactly if a reply has been awaited too long, and never by the first tick. */
  lemma LateReplyDisconnects(flights: seq<InFlight>, resent: bool, clean: bool, room: bool, late: bool)
    ensures TickTurn(flights, resent, clean, room, late).disconnect <==>
              resent && late && flights != [] && flights[0].wait != Reserved && flights[0].msg.qos != AtMostOnce
  {
  }

  /** With a clean session the first tick erases a head that waits and sends nothing. */
  lemma FirstCleanTick(flights: seq<InFlight>, room: bool, late: bool)
    ensures var turn, waits := TickTurn(flights, false, true, room, late), CleanSessionDrops(flights, true);
            && turn.sent == [] && !turn.disconnect
            && (waits ==> [flights[0]] + turn.flights == flights) && (!waits ==> turn.flights == flights)
    ensures CleanSessionDrops(flights, true) <==>
              flights != [] && flights[0].wait != Reserved && flights[0].wait != PubRel
  {
  }

  /** While the ring is full nothing is sent, and no head begins to wait for a reply to what was not sent. */
  lemma FullRing(flights: seq<InFlight>, resent: bool, clean: bool, late: bool, id: PacketId)
    ensures var turn := TickTurn(flights, resent, clean, false, late);
            && turn.sent == [] && (resent ==> turn.flights == flights)
            && (turn.flights != [] && turn.flights[0].wait != Reserved ==>
                  turn.flights == flights || (!resent && clean))
    ensures OnPubRec(flights, id, false) == Turn(flights, [], false)
  {
  }

  /** publish() takes a message exactly while fewer than ten are in the list, and puts it last, waiting for nothing. */
  lemma PublishIsAccepted(s: System, qos: Qos, id: PacketId)
    ensures var c, e := s.peers, Apply(s, Accept(qos, id)).peers;
            if |c.flights| < 10 then
              && e.published == c.published + [Message(|c.published|, qos, id)]
              && e.flights == c.flights + [InFlight(Message(|c.published|, qos, id), false, Reserved)]
            else e == c
  {
  }

  // ---------------------------------------------------------------------------------------------------
  // One round
  // ---------------------------------------------------------------------------------------------------

  /** A new connection without clean session, two ticks, and the packets of one handshake. */
  const ROUND: seq<Step> := [Reconnect, Tick(true, false, false), Tick(true, false, false), DeliverDown(true),
                             DeliverUp(true), DeliverDown(true), DeliverUp(true)]

  lemma {:induction false} RunRound(s: System)
    ensures var s1 := Apply(s, ROUND[0]);
            var s2 := Apply(s1, ROUND[1]);
            var s3 := Apply(s2, ROUND[2]);
            var s4 := Apply(s3, ROUND[3]);
            var s5 := Apply(s4, ROUND[4]);
            var s6 := Apply(s5, ROUND[5]);
            Run(s, ROUND) == Apply(s6, ROUND[6])
  {
    RunFirst(s, ROUND);
    var s1 := Apply(s, ROUND[0]);
    RunFirst(s1, ROUND[1..]);
    var s2 := Apply(s1, ROUND[1]);
    RunFirst(s2, ROUND[2..]);
    var s3 := Apply(s2, ROUND[2]);
    RunFirst(s3, ROUND[3..]);
    var s4 := Apply(s3, ROUND[3]);
    RunFirst(s4, ROUND[4..]);
    var s5 := Apply(s4, ROUND[4]);
    RunFirst(s5, ROUND[5..]);
    var s6 := Apply(s5, ROUND[5]);
    RunFirst(s6, ROUND[6..]);
    assert ROUND[6..][1..] == [];
    assert Run(Apply(s6, ROUND[6]), []) == Apply(s6, ROUND[6]);
  }

  lemma {:induction false} RunFirst(s: System, steps: seq<Step>)
    requires steps != []
    ensures Run(s, steps) == Run(Apply(s, steps[0]), steps[1..])
  {
  }

  /** What the round hands to the application for this head: a stored message in place of a QoS 2 head, and nothing if
      the head has been forwarded before. */
  function Handed(c: Peers, head: InFlight): seq<Message> {
    if head.msg.qos == ExactlyOnce && head.msg.id in c.receiving then [c.receiving[head.msg.id]]
    else if head.wait == PubComp then []
    else [head.msg]
  }

  function AfterRound(s: System): System
    requires s.peers.flights != []
  {
    var c, head := s.peers, s.peers.flights[0];
    System(c.(completed := c.completed + [head.msg], flights := c.flights[1..],
              receiving := if head.msg.qos == ExactlyOnce then c.receiving - {head.msg.id} else c.receiving,
              forwarded := c.forwarded + Handed(c, head), resent := true),
           [], [], true, s.dropped)
  }

  /** The state after the two ticks of a round: the head has been sent, and a QoS 0 head is done. */
  lemma Ticked(s: System) returns (r: System)
    requires s.peers.flights != [] && WaitLaw(s.peers)
    ensures r == Apply(Apply(Apply(s, ROUND[0]), ROUND[1]), ROUND[2])
    ensures var c, head := s.peers, s.peers.flights[0];
            && r.connected && r.up == [] && r.dropped == s.dropped
            && r.down == [InTransit(if head.wait == PubComp then Release(head.msg.id)
                                    else Publish(head.msg, head.dup || head.wait != PubRec), HeadIndex(c))]
            && r.peers == (if head.msg.qos == AtMostOnce then
                             c.(completed := c.completed + [head.msg], flights := c.flights[1..], resent := true)
                           else
                             c.(flights := r.peers.flights, resent := true))
            && (head.msg.qos != AtMostOnce ==>
                  && r.peers.flights != [] && r.peers.flights[1..] == c.flights[1..]
                  && r.peers.flights[0].msg == head.msg
                  && r.peers.flights[0].wait
                     == if head.wait == PubComp then PubComp else AwaitedReply(head.msg.qos))
  {
    var s1 := Apply(s, ROUND[0]);
    assert s1 == s.(peers := s.peers.(resent := false), down := [], up := [], connected := true);
    var s2 := Apply(s1, ROUND[1]);
    FirstTick(s.peers.flights, false);
    TickIsStep(s1, true, false, false);
    assert s2.peers == s.peers.(flights := s2.peers.flights, resent := true);
    r := Apply(s2, ROUND[2]);
    TickIsStep(s2, true, false, false);
  }

  predicate Sending(s: System, r: System, wait: WaitFor)
    requires s.peers.flights != []
  {
    && r.peers == s.peers.(flights := r.peers.flights, resent := true)
    && r.peers.flights != [] && r.peers.flights[1..] == s.peers.flights[1..]
    && r.peers.flights[0].msg == s.peers.flights[0].msg && r.peers.flights[0].wait == wait
    && r.connected && r.up == [] && r.dropped == s.dropped
  }

  /** What is left of the round when a QoS 0 message has been sent. */
  lemma AtMostOnceRest(s: System, r: System)
    requires s.peers.flights != [] && s.peers.flights[0].msg.qos == AtMostOnce
    requires r.connected && r.up == [] && r.dropped == s.dropped && |r.down| == 1 && s.peers.flights[0].wait != PubComp
    requires r.down[0].packet.Publish? && r.down[0].packet.msg == s.peers.flights[0].msg
    requires r.peers == s.peers.(completed := s.peers.completed + [s.peers.flights[0].msg],
                                 flights := s.peers.flights[1..], resent := true)
    ensures Apply(Apply(Apply(Apply(r, ROUND[3]), ROUND[4]), ROUND[5]), ROUND[6]) == AfterRound(s)
  {
    var r4 := Apply(r, ROUND[3]);
    assert r4 == AfterRound(s);
  }

  lemma AtLeastOnceRest(s: System, r: System)
    requires s.peers.flights != [] && s.peers.flights[0].msg.qos == AtLeastOnce && s.peers.flights[0].wait != PubComp
    requires Sending(s, r, PubAck) && |r.down| == 1
    requires r.down[0].packet.Publish? && r.down[0].packet.msg == s.peers.flights[0].msg
    ensures Apply(Apply(Apply(Apply(r, ROUND[3]), ROUND[4]), ROUND[5]), ROUND[6]) == AfterRound(s)
  {
    var m := s.peers.flights[0].msg;
    var r4 := Apply(r, ROUND[3]);
    assert r4.up == [InTransit(Ack(m.id), r.down[0].about)] && r4.down == [];
    var r5 := Apply(r4, ROUND[4]);
    assert r5 == AfterRound(s);
  }

  /** A PUBREL is under way to a receiving half with these messages. */
  lemma ReleaseRest(r: System, m: Message) returns (t: System)
    requires r.peers.flights != [] && r.peers.flights[0].msg == m && r.peers.flights[0].wait == PubComp
    requires r.connected && r.up == [] && |r.down| == 1 && r.down[0].packet == Release(m.id)
    ensures t == Apply(Apply(r, DeliverDown(true)), DeliverUp(true))
    ensures t == System(r.peers.(completed := r.peers.completed + [m], flights := r.peers.flights[1..],
                                 receiving := r.peers.receiving - {m.id},
                                 forwarded := r.peers.forwarded
                                              + if m.id in r.peers.receiving then [r.peers.receiving[m.id]] else []),
                        [], [], true, r.dropped)
  {
    var r1 := Apply(r, DeliverDown(true));
    assert r1.up == [InTransit(Complete(m.id), r.down[0].about)] && r1.down == [];
    t := Apply(r1, DeliverUp(true));
  }

  /** A QoS 2 PUBLISH is under way: it is stored unless its identifier is in use, and released. */
  lemma StoreRest(s: System, r: System) returns (t: System)
    requires s.peers.flights != [] && s.peers.flights[0].msg.qos == ExactlyOnce
    requires Sending(s, r, PubRec) && |r.down| == 1
    requires r.down[0].packet.Publish? && r.down[0].packet.msg == s.peers.flights[0].msg
    ensures t == Apply(Apply(r, ROUND[3]), ROUND[4])
    ensures var c, m := s.peers, s.peers.flights[0].msg;
            && t.peers.flights != [] && t.peers.flights[1..] == c.flights[1..]
            && t.peers.flights[0].msg == m && t.peers.flights[0].wait == PubComp
            && t.peers == c.(flights := t.peers.flights, resent := true,
                             receiving := if m.id in c.receiving then c.receiving else c.receiving[m.id := m])
            && t.connected && t.up == [] && t.dropped == s.dropped && |t.down| == 1 && t.down[0].packet == Release(m.id)
  {
    var m := s.peers.flights[0].msg;
    var r4 := Apply(r, ROUND[3]);
    assert r4.peers.forwarded == s.peers.forwarded;
    assert r4.up == [InTransit(Received(m.id), r.down[0].about)] && r4.down == [];
    t := Apply(r4, ROUND[4]);
  }

  lemma ExactlyOnceRest(s: System, r: System)
    requires s.peers.flights != [] && s.peers.flights[0].msg.qos == ExactlyOnce && s.peers.flights[0].wait != PubComp
    requires Sending(s, r, PubRec) && |r.down| == 1
    requires r.down[0].packet.Publish? && r.down[0].packet.msg == s.peers.flights[0].msg
    ensures Apply(Apply(Apply(Apply(r, ROUND[3]), ROUND[4]), ROUND[5]), ROUND[6]) == AfterRound(s)
  {
    var m := s.peers.flights[0].msg;
    var t := StoreRest(s, r);
    var u := ReleaseRest(t, m);
    assert u.peers.receiving == s.peers.receiving - {m.id};
    assert u == AfterRound(s);
  }

  lemma ReleasedRest(s: System, r: System)
    requires s.peers.flights != [] && s.peers.flights[0].msg.qos == ExactlyOnce && s.peers.flights[0].wait == PubComp
    requires Sending(s, r, PubComp) && |r.down| == 1 && r.down[0].packet == Release(s.peers.flights[0].msg.id)
    ensures Apply(Apply(Apply(Apply(r, ROUND[3]), ROUND[4]), ROUND[5]), ROUND[6]) == AfterRound(s)
  {
    var t := ReleaseRest(r, s.peers.flights[0].msg);
    assert t == AfterRound(s);
    assert Apply(Apply(t, ROUND[5]), ROUND[6]) == t;
  }

  /** One round completes the head, whatever it waited for, and leaves the other messages alone. */
  lemma {:induction false} RoundCompletesHead(s: System)
    requires s.peers.flights != [] && WaitLaw(s.peers)
    ensures Run(s, ROUND) == AfterRound(s)
  {
    RunRound(s);
    var r := Ticked(s);
    var head := s.peers.flights[0];
    if head.wait == PubComp {
      ReleasedRest(s, r);
    } else {
      match head.msg.qos
      case AtMostOnce => AtMostOnceRest(s, r);
      case AtLeastOnce => AtLeastOnceRest(s, r);
      case ExactlyOnce => ExactlyOnceRest(s, r);
    }
  }

  // ---------------------------------------------------------------------------------------------------
  // Every message
  // ---------------------------------------------------------------------------------------------------

  function Rounds(n: nat): seq<Step> {
    if n == 0 then [] else ROUND + Rounds(n - 1)
  }

  lemma {:induction false} RunAppend(s: System, a: seq<Step>, b: seq<Step>)
    ensures Run(s, a + b) == Run(Run(s, a), b)
    decreases |a|
  {
    if a == [] {
      assert a + b == b;
    } else {
      assert (a + b)[1..] == a[1..] + b;
      RunAppend(Apply(s, a[0]), a[1..], b);
    }
  }

  /** All messages in flight have been completed in their order, and those of QoS 0 and 1 handed over. */
  predicate Finished(c: Peers, e: Peers) {
    && e.flights == [] && e.completed == c.completed + MessagesOf(c.flights)
    && |c.forwarded| <= |e.forwarded| && e.forwarded[..|c.forwarded|] == c.forwarded
    && forall i :: 0 <= i < |c.flights| && c.flights[i].msg.qos != ExactlyOnce ==> c.flights[i].msg in e.forwarded
  }

  lemma HeadFinished(c: Peers, d: Peers, e: Peers)
    requires c.flights != [] && d.flights == c.flights[1..] && d.completed == c.completed + [c.flights[0].msg]
    requires d.forwarded == c.forwarded + Handed(c, c.flights[0]) && Finished(d, e) && WaitLaw(c)
    ensures Finished(c, e)
  {
    var n, h := |c.forwarded|, Handed(c, c.flights[0]);
    assert MessagesOf(c.flights) == [c.flights[0].msg] + MessagesOf(c.flights[1..]);
    assert e.forwarded[..n] == e.forwarded[..|d.forwarded|][..n] == c.forwarded;
    if h != [] {
      assert e.forwarded[n] == e.forwarded[..|d.forwarded|][n] == h[0];
    }
    forall i | 0 <= i < |c.flights| && c.flights[i].msg.qos != ExactlyOnce ensures c.flights[i].msg in e.forwarded {
      if i > 0 {
        assert d.flights[i - 1] == c.flights[i];
      }
    }
  }

  /** One round, and the rounds behind it. */
  lemma {:induction false} NextRound(s: System, n: nat) returns (d: System)
    requires FullLaw(s) && s.peers.flights != []
    ensures FullLaw(d) && d == AfterRound(s) && Run(s, Rounds(n + 1)) == Run(d, Rounds(n))
  {
    RoundCompletesHead(s);
    FlowRun(s, ROUND);
    d := Run(s, ROUND);
    RunAppend(s, ROUND, Rounds(n));
  }

  lemma {:induction false} CompleteAll(s: System, n: nat) returns (r: System)
    requires FullLaw(s) && n == |s.peers.flights|
    ensures r == Run(s, Rounds(n)) && Finished(s.peers, r.peers) && r.dropped == s.dropped
    decreases n
  {
    if n == 0 {
      r := s;
      assert MessagesOf(s.peers.flights) == [];
    } else {
      var d := NextRound(s, n - 1);
      r := CompleteAll(d, n - 1);
      HeadFinished(s.peers, d.peers, r.peers);
    }
  }

  /** No message is stuck: after any run from the start, whatever was lost or dropped in it, as many rounds as messages
      are in flight complete all of them. */
  lemma {:induction false} NothingStuck(steps: seq<Step>)
    ensures var s := Run(START, steps);
            Finished(s.peers, Run(START, steps + Rounds(|s.peers.flights|)).peers)
  {
    var s := Run(START, steps);
    FlowStart();
    FlowRun(START, steps);
    var r := CompleteAll(s, |s.peers.flights|);
    RunAppend(START, steps, Rounds(|s.peers.flights|));
  }
}
