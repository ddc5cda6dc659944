/** Which packets can be under way in any run, clean-session reconnects included, and what follows for QoS 1. */
module QosFlow {
  import opened MqttTypes
  import opened PublicationModel
  import opened SubscriptionModel
  import opened QosSystem
  import opened QosEveryRun

  /** Which reply the head waits for depends on its QoS. */
  predicate WaitLaw(c: Peers) {
    c.flights != [] ==>
      && (c.flights[0].wait == PubAck ==> c.flights[0].msg.qos == AtLeastOnce)
      && (c.flights[0].wait in {PubRec, PubComp} ==> c.flights[0].msg.qos == ExactlyOnce)
  }

  predicate HeadForwarded(c: Peers) {
    c.flights != [] && c.flights[0].msg.qos == ExactlyOnce && c.flights[0].msg in c.forwarded
  }

  /** A QoS 2 head has reached the receiving half. */
  predicate HeadArrived(c: Peers) {
    c.flights != [] && c.flights[0].msg.qos == ExactlyOnce
    && (Stored(c, c.flights[0].msg) || c.flights[0].msg in c.forwarded)
  }

  /** Nothing is stored under the identifier of a forwarded head. */
  predicate FreeLaw(c: Peers) {
    HeadForwarded(c) ==> c.flights[0].msg.id !in c.receiving
  }

  /** Completed QoS 1 messages have been forwarded. */
  predicate LowLaw(c: Peers) {
    forall i :: 0 <= i < |c.completed| && c.completed[i].qos == AtLeastOnce ==> c.completed[i] in c.forwarded
  }

  /** PUBLISH packets are in publish order, and once a QoS 2 head has arrived only its own are left. */
  predicate OrderLaw(c: Peers, down: seq<InTransit<PubPacket>>) {
    && (forall i, j :: 0 <= i < j < |down| && down[i].packet.Publish? && down[j].packet.Publish? ==>
          down[i].packet.msg.index <= down[j].packet.msg.index)
    && (HeadArrived(c) ==>
          forall i :: 0 <= i < |down| && down[i].packet.Publish? ==> down[i].packet.msg.index >= Gone(c))
  }

  predicate PublishesLow(p: PubPacket) {
    p.Publish? && p.msg.qos == AtLeastOnce
  }

  /** There is at most one QoS 1 PUBLISH or PUBACK under way. */
  predicate OneLow(down: seq<InTransit<PubPacket>>, up: seq<InTransit<AckPacket>>) {
    && (forall i, j :: 0 <= i < j < |down| && PublishesLow(down[i].packet) ==> !PublishesLow(down[j].packet))
    && (forall i, j :: 0 <= i < j < |up| && up[i].packet.Ack? ==> !up[j].packet.Ack?)
    && (forall i, j :: 0 <= i < |down| && 0 <= j < |up| && PublishesLow(down[i].packet) ==> !up[j].packet.Ack?)
  }

  /** A QoS 1 PUBLISH under way is the head's, which waits for its PUBACK; with a PUBACK the head is forwarded. */
  predicate AckLaw(c: Peers, down: seq<InTransit<PubPacket>>, up: seq<InTransit<AckPacket>>) {
    && (forall i :: 0 <= i < |down| && PublishesLow(down[i].packet) ==>
          HeadWaitsFor(c, PubAck) && down[i].packet.msg == c.flights[0].msg)
    && (forall i :: 0 <= i < |up| && up[i].packet.Ack? ==> HeadWaitsFor(c, PubAck) && c.flights[0].msg in c.forwarded)
  }

  predicate NothingLow(down: seq<InTransit<PubPacket>>, up: seq<InTransit<AckPacket>>) {
    && (forall i :: 0 <= i < |down| ==> !PublishesLow(down[i].packet))
    && (forall i :: 0 <= i < |up| ==> !up[i].packet.Ack?)
  }

  /** Before the first tick of a connection nothing of a QoS 1 message is under way. */
  predicate QuietLaw(s: System) {
    !s.peers.resent ==> NothingLow(s.down, s.up)
  }

  predicate Flow(c: Peers, down: seq<InTransit<PubPacket>>, up: seq<InTransit<AckPacket>>) {
    WaitLaw(c) && FreeLaw(c) && LowLaw(c) && OrderLaw(c, down) && OneLow(down, up) && AckLaw(c, down, up)
  }

  ghost predicate FullLaw(s: System) {
    Law(s) && Flow(s.peers, s.down, s.up) && QuietLaw(s)
  }

  // ---------------------------------------------------------------------------------------------------
  // The sending half
  // ---------------------------------------------------------------------------------------------------

  /** Nothing of the next head is stored or forwarded. */
  lemma NextHeadIsNew(c: Peers)
    requires ListLaw(c) && StoreLaw(c) && LogLaw(c) && c.flights != []
    ensures var e := Erased(c); WaitLaw(e) && !HeadArrived(e) && Gone(e) == Gone(c) + 1
    ensures var e := Erased(c); e.flights != [] ==> e.flights[0].wait == Reserved
  {
    var e := Erased(c);
    if e.flights != [] {
      assert e.flights[0] == c.flights[1];
      assert c.flights[1].msg == c.published[Gone(c) + 1];
    }
  }

  /** The head leaves, completed or dropped, with nothing of QoS 1 under way. */
  lemma LeaveKeeps(c: Peers, e: Peers, down: seq<InTransit<PubPacket>>, up: seq<InTransit<AckPacket>>)
    requires ListLaw(c) && StoreLaw(c) && LogLaw(c) && LowLaw(c) && OrderLaw(c, down) && NothingLow(down, up)
    requires c.flights != [] && e == Erased(c).(completed := e.completed, resent := e.resent)
    requires e.completed == c.completed
             || (e.completed == c.completed + [c.flights[0].msg]
                 && (c.flights[0].msg.qos == AtLeastOnce ==> c.flights[0].msg in c.forwarded))
    ensures Flow(e, down, up) && !HeadArrived(e)
  {
    NextHeadIsNew(c);
    assert HeadArrived(e) == HeadArrived(Erased(c));
  }

  lemma LowOnlyWaiting(c: Peers, down: seq<InTransit<PubPacket>>, up: seq<InTransit<AckPacket>>)
    requires AckLaw(c, down, up) && !HeadWaitsFor(c, PubAck)
    ensures NothingLow(down, up)
  {
  }

  /** The head waits for something else. */
  lemma WaitKeeps(c: Peers, e: Peers, down: seq<InTransit<PubPacket>>, up: seq<InTransit<AckPacket>>)
    requires Flow(c, down, up) && c.flights != [] && e.flights != []
    requires e == Waits(c, e.flights[0]).(resent := e.resent) && e.flights[0].msg == c.flights[0].msg
    requires e.flights[0].wait != c.flights[0].wait ==> NothingLow(down, up)
    requires WaitLaw(e)
    ensures Flow(e, down, up)
  {
    assert Gone(e) == Gone(c) && HeadArrived(e) == HeadArrived(c);
  }

  lemma AddRelease(c: Peers, down: seq<InTransit<PubPacket>>, up: seq<InTransit<AckPacket>>, p: InTransit<PubPacket>)
    requires Flow(c, down, up) && p.packet.Release?
    ensures Flow(c, down + [p], up)
  {
    assert OrderLaw(c, down + [p]);
    assert OneLow(down + [p], up);
  }

  /** The PUBLISH of the head, or of the QoS 0 message before it, is the newest. */
  lemma AddPublish(c: Peers, down: seq<InTransit<PubPacket>>, up: seq<InTransit<AckPacket>>, p: InTransit<PubPacket>)
    requires Flow(c, down, up) && NothingLow(down, up) && p.packet.Publish?
    requires forall i :: 0 <= i < |down| && down[i].packet.Publish? ==>
               down[i].packet.msg.index <= p.packet.msg.index
    requires HeadArrived(c) ==> p.packet.msg.index >= Gone(c)
    requires PublishesLow(p.packet) ==> HeadWaitsFor(c, PubAck) && p.packet.msg == c.flights[0].msg
    ensures Flow(c, down + [p], up)
  {
    assert OrderLaw(c, down + [p]);
    assert OneLow(down + [p], up);
  }

  /** No PUBLISH under way is newer than the head. */
  lemma PublishedBefore(c: Peers, down: seq<InTransit<PubPacket>>)
    requires DownLaw(c, down)
    ensures forall i :: 0 <= i < |down| && down[i].packet.Publish? ==> down[i].packet.msg.index <= Gone(c)
  {
    forall i | 0 <= i < |down| && down[i].packet.Publish? ensures down[i].packet.msg.index <= Gone(c) {
      assert PublishLaw(c, down, i, down[i].packet.msg);
    }
  }

  lemma SameKeeps(c: Peers, e: Peers, down: seq<InTransit<PubPacket>>, up: seq<InTransit<AckPacket>>)
    requires Flow(c, down, up) && e == c.(resent := e.resent)
    ensures Flow(e, down, up)
  {
    assert HeadArrived(e) == HeadArrived(c);
  }

  lemma PublishTick(s: System, room: bool, late: bool, clean: bool)
    requires FullLaw(s) && s.connected && s.peers.resent
    ensures var r := Apply(s, Tick(room, late, clean)); Flow(r.peers, r.down, r.up)
  {
    var c, turn, r := s.peers, PublishNext(s.peers.flights, room, late), Apply(s, Tick(room, late, clean));
    TurnIs(c, turn);
    if turn.sent == [] {
      assert r.peers == c && r.down == s.down;
    } else {
      var head := c.flights[0];
      var p := InTransit(Packet(head), HeadIndex(c));
      assert head.msg == c.published[Gone(c)] && r.down == s.down + [p];
      PublishedBefore(c, s.down);
      LowOnlyWaiting(c, s.down, s.up);
      if head.msg.qos == AtMostOnce {
        LeaveKeeps(c, r.peers, s.down, s.up);
      } else {
        WaitKeeps(c, r.peers, s.down, s.up);
      }
      AddPublish(r.peers, s.down, s.up, p);
    }
  }

  lemma DropTick(s: System, room: bool, late: bool)
    requires FullLaw(s) && s.connected && !s.peers.resent && CleanSessionDrops(s.peers.flights, true)
    ensures var r := Apply(s, Tick(room, late, true)); Flow(r.peers, r.down, r.up)
  {
    LeaveKeeps(s.peers, Apply(s, Tick(room, late, true)).peers, s.down, s.up);
  }

  lemma ResendRelease(s: System, room: bool, late: bool)
    requires FullLaw(s) && s.connected && !s.peers.resent && HeadWaitsFor(s.peers, PubComp)
    ensures var r := Apply(s, Tick(room, late, false)); Flow(r.peers, r.down, r.up)
  {
    var c, r := s.peers, Apply(s, Tick(room, late, false));
    var p := InTransit(Release(c.flights[0].msg.id), HeadIndex(c));
    SameKeeps(c, r.peers, s.down, s.up);
    AddRelease(r.peers, s.down, s.up, p);
    assert r.down == if room then s.down + [p] else s.down;
  }

  lemma ResendReset(s: System, room: bool, late: bool)
    requires FullLaw(s) && s.connected && !s.peers.resent && s.peers.flights != [] && !HeadWaitsFor(s.peers, PubComp)
    ensures var r := Apply(s, Tick(room, late, false)); Flow(r.peers, r.down, r.up)
  {
    var turn, r := Resend(s.peers.flights, false, room), Apply(s, Tick(room, late, false));
    assert turn.sent == [] && turn.flights[0].wait == Reserved;
    TurnIs(s.peers.(resent := true), turn);
    assert r.down == s.down;
    WaitKeeps(s.peers, r.peers, s.down, s.up);
  }

  lemma ResendTick(s: System, room: bool, late: bool, clean: bool)
    requires FullLaw(s) && s.connected && !s.peers.resent && !CleanSessionDrops(s.peers.flights, clean)
    ensures var r := Apply(s, Tick(room, late, clean)); Flow(r.peers, r.down, r.up)
  {
    if s.peers.flights == [] || clean {
      var r := Apply(s, Tick(room, late, clean));
      SameKeeps(s.peers, r.peers, s.down, s.up);
      assert r.down == s.down;
    } else if HeadWaitsFor(s.peers, PubComp) {
      ResendRelease(s, room, late);
    } else {
      ResendReset(s, room, late);
    }
  }

  lemma TickStep(s: System, room: bool, late: bool, clean: bool)
    requires FullLaw(s)
    ensures FullLaw(Apply(s, Tick(room, late, clean)))
  {
    QosEveryRun.StepKeeps(s, Tick(room, late, clean));
    if s.connected {
      if s.peers.resent {
        PublishTick(s, room, late, clean);
      } else if CleanSessionDrops(s.peers.flights, clean) {
        DropTick(s, room, late);
      } else {
        ResendTick(s, room, late, clean);
      }
    }
  }

  // ---------------------------------------------------------------------------------------------------
  // Replies reach the sending half
  // ---------------------------------------------------------------------------------------------------

  /** Packets may leave the way up anywhere. */
  lemma UpWithoutKeeps(c: Peers, down: seq<InTransit<PubPacket>>, up: seq<InTransit<AckPacket>>, at: nat)
    requires Flow(c, down, up)
    ensures Flow(c, down, Without(up, at))
  {
    var u := Without(up, at);
    assert at < |up| ==> forall i :: 0 <= i < |u| ==> u[i] == up[if i < at then i else i + 1];
  }

  /** A PUBACK is alone, so with it everything of its QoS 1 message has left the channels. */
  lemma AckIsLast(down: seq<InTransit<PubPacket>>, up: seq<InTransit<AckPacket>>)
    requires OneLow(down, up) && up != [] && up[0].packet.Ack?
    ensures NothingLow(down, up[1..])
  {
    forall i | 0 <= i < |up[1..]| ensures !up[1..][i].packet.Ack? {
      assert up[1..][i] == up[i + 1];
    }
  }

  lemma AckArrives(s: System, room: bool)
    requires FullLaw(s) && s.up != [] && s.up[0].packet.Ack?
    ensures var r := DoDeliverUp(s, room); Flow(r.peers, r.down, r.up)
  {
    var c, up, r := s.peers, s.up[1..], DoDeliverUp(s, room);
    var turn := OnPubAck(c.flights, s.up[0].packet.id);
    TurnIs(c, turn);
    assert Without(s.up, 0) == up && r.down == s.down;
    UpWithoutKeeps(c, s.down, s.up, 0);
    AckIsLast(s.down, s.up);
    if turn.flights == c.flights {
      assert r.peers == c;
    } else {
      LeaveKeeps(c, r.peers, s.down, up);
    }
  }

  lemma RecArrives(s: System, room: bool)
    requires FullLaw(s) && s.up != [] && s.up[0].packet.Received?
    ensures var r := DoDeliverUp(s, room); Flow(r.peers, r.down, r.up)
  {
    var c, up, r, id := s.peers, s.up[1..], DoDeliverUp(s, room), s.up[0].packet.id;
    var turn := OnPubRec(c.flights, id, room);
    TurnIs(c, turn);
    assert Without(s.up, 0) == up;
    UpWithoutKeeps(c, s.down, s.up, 0);
    if turn.sent == [] {
      assert r.peers == c && r.down == s.down;
    } else {
      LowOnlyWaiting(c, s.down, up);
      WaitKeeps(c, r.peers, s.down, up);
      AddRelease(r.peers, s.down, up, InTransit(Release(id), HeadIndex(c)));
      assert r.down == s.down + [InTransit(Release(id), HeadIndex(c))];
    }
  }

  lemma CompArrives(s: System, room: bool)
    requires FullLaw(s) && s.up != [] && s.up[0].packet.Complete?
    ensures var r := DoDeliverUp(s, room); Flow(r.peers, r.down, r.up)
  {
    var c, up, r := s.peers, s.up[1..], DoDeliverUp(s, room);
    var turn := OnPubComp(c.flights, s.up[0].packet.id);
    TurnIs(c, turn);
    assert Without(s.up, 0) == up && r.down == s.down;
    UpWithoutKeeps(c, s.down, s.up, 0);
    if turn.flights == c.flights {
      assert r.peers == c;
    } else {
      LowOnlyWaiting(c, s.down, up);
      LeaveKeeps(c, r.peers, s.down, up);
    }
  }

  lemma UpStep(s: System, room: bool)
    requires FullLaw(s)
    ensures FullLaw(DoDeliverUp(s, room))
  {
    QosEveryRun.DeliverUpKeeps(s, room);
    if s.up != [] {
      match s.up[0].packet
      case Ack(_) => AckArrives(s, room);
      case Received(_) => RecArrives(s, room);
      case Complete(_) => CompArrives(s, room);
      UpStaysQuiet(s, room);
    }
  }

  lemma UpStaysQuiet(s: System, room: bool)
    requires QuietLaw(s) && s.up != []
    ensures QuietLaw(DoDeliverUp(s, room))
  {
    var r := DoDeliverUp(s, room);
    assert forall i :: 0 <= i < |r.up| ==> r.up[i] == s.up[i + 1];
    assert |s.down| <= |r.down| && r.down[..|s.down|] == s.down;
    assert forall i :: |s.down| <= i < |r.down| ==> !PublishesLow(r.down[i].packet);
    assert forall i :: 0 <= i < |s.down| ==> r.down[i] == s.down[i];
  }

  // ---------------------------------------------------------------------------------------------------
  // Packets reach the receiving half
  // ---------------------------------------------------------------------------------------------------

  lemma DownWithoutKeeps(c: Peers, down: seq<InTransit<PubPacket>>, up: seq<InTransit<AckPacket>>, at: nat)
    requires Flow(c, down, up)
    ensures Flow(c, Without(down, at), up)
  {
    var d := Without(down, at);
    assert at < |down| ==> forall i :: 0 <= i < |d| ==> d[i] == down[if i < at then i else i + 1];
  }

  lemma AddReply(c: Peers, down: seq<InTransit<PubPacket>>, up: seq<InTransit<AckPacket>>, p: InTransit<AckPacket>)
    requires Flow(c, down, up) && !p.packet.Ack?
    ensures Flow(c, down, up + [p])
  {
    assert OneLow(down, up + [p]);
  }

  /** A message of QoS 0 or 1 is forwarded at once. */
  lemma LowForwarded(c: Peers, e: Peers, down: seq<InTransit<PubPacket>>, up: seq<InTransit<AckPacket>>, m: Message)
    requires Flow(c, down, up) && m.qos != ExactlyOnce && e == c.(forwarded := c.forwarded + [m])
    ensures Flow(e, down, up)
  {
    assert HeadArrived(e) == HeadArrived(c);
  }

  /** The QoS 1 PUBLISH leaves the channel, its message is forwarded, and its PUBACK takes its place. */
  lemma AddAck(c: Peers, e: Peers, down: seq<InTransit<PubPacket>>, up: seq<InTransit<AckPacket>>,
               p: InTransit<AckPacket>)
    requires Flow(c, down, up) && down != [] && PublishesLow(down[0].packet) && p.packet.Ack?
    requires Flow(e, down[1..], up) && e == c.(forwarded := c.forwarded + [down[0].packet.msg])
    ensures Flow(e, down[1..], up + [p])
  {
    assert forall i :: 0 <= i < |down[1..]| ==> down[1..][i] == down[i + 1];
    assert OneLow(down[1..], up + [p]);
  }

  lemma LowArrives(s: System, room: bool)
    requires FullLaw(s) && s.down != [] && s.down[0].packet.Publish? && s.down[0].packet.msg.qos != ExactlyOnce
    ensures var r := DoDeliverDown(s, room); Flow(r.peers, r.down, r.up)
  {
    var c, d, r, m := s.peers, s.down[1..], DoDeliverDown(s, room), s.down[0].packet.msg;
    assert Without(s.down, 0) == d;
    DownWithoutKeeps(c, s.down, s.up, 0);
    LowForwarded(c, r.peers, d, s.up, m);
    if m.qos == AtLeastOnce && room {
      AddAck(c, r.peers, s.down, s.up, InTransit(Ack(m.id), s.down[0].about));
      assert r.up == s.up + [InTransit(Ack(m.id), s.down[0].about)];
    } else {
      assert r.up == s.up;
    }
  }

  /** When a QoS 2 PUBLISH arrives, the head has not been forwarded: it would be the head's own, sent again. */
  lemma NotForwardedYet(c: Peers, down: seq<InTransit<PubPacket>>, m: Message)
    requires ListLaw(c) && DownLaw(c, down) && OrderLaw(c, down) && down != [] && Publishes2(down[0].packet, m)
    ensures !HeadForwarded(c)
  {
    assert PublishLaw(c, down, 0, m);
    assert c.flights != [] ==> c.flights[0].msg == c.published[Gone(c)];
    assert HeadArrived(c) ==> m.index == Gone(c);
  }

  lemma StoredKeepsOrder(c: Peers, e: Peers, down: seq<InTransit<PubPacket>>, m: Message)
    requires ListLaw(c) && OrderLaw(c, down) && down != [] && Publishes2(down[0].packet, m)
    requires e == c.(receiving := c.receiving[m.id := m])
    ensures OrderLaw(e, down[1..])
  {
    var d := down[1..];
    assert forall i :: 0 <= i < |d| ==> d[i] == down[i + 1];
    if HeadArrived(e) && !HeadArrived(c) {
      assert c.flights[0].msg == m && m == c.published[Gone(c)];
    }
  }

  lemma StoreGrows(c: Peers, e: Peers, down: seq<InTransit<PubPacket>>, up: seq<InTransit<AckPacket>>, m: Message)
    requires Flow(c, down, up) && OrderLaw(e, down) && !HeadForwarded(c)
    requires e == c.(receiving := c.receiving[m.id := m])
    ensures Flow(e, down, up)
  {
  }

  /** A QoS 2 message is stored. */
  lemma StoredKeeps(c: Peers, e: Peers, down: seq<InTransit<PubPacket>>, up: seq<InTransit<AckPacket>>, m: Message)
    requires ListLaw(c) && DownLaw(c, down) && Flow(c, down, up) && down != [] && Publishes2(down[0].packet, m)
    requires e == c.(receiving := c.receiving[m.id := m])
    ensures Flow(e, down[1..], up)
  {
    NotForwardedYet(c, down, m);
    StoredKeepsOrder(c, e, down, m);
    DownWithoutKeeps(c, down, up, 0);
    assert Without(down, 0) == down[1..];
    StoreGrows(c, e, down[1..], up, m);
  }

  lemma HighArrives(s: System, room: bool)
    requires FullLaw(s) && s.down != [] && s.down[0].packet.Publish? && s.down[0].packet.msg.qos == ExactlyOnce
    ensures var r := DoDeliverDown(s, room); Flow(r.peers, r.down, r.up)
  {
    var c, d, r, m := s.peers, s.down[1..], DoDeliverDown(s, room), s.down[0].packet.msg;
    assert c.forwarded + [] == c.forwarded && Without(s.down, 0) == d;
    if m.id in c.receiving {
      DownWithoutKeeps(c, s.down, s.up, 0);
      assert r.peers == c;
    } else {
      StoredKeeps(c, r.peers, s.down, s.up, m);
    }
    if room {
      AddReply(r.peers, d, s.up, InTransit(Received(m.id), s.down[0].about));
      assert r.up == s.up + [InTransit(Received(m.id), s.down[0].about)];
    } else {
      assert r.up == s.up;
    }
  }

  /** A stored message is forwarded and its identifier becomes free. */
  lemma StoredForwarded(c: Peers, e: Peers, down: seq<InTransit<PubPacket>>, up: seq<InTransit<AckPacket>>,
                        id: PacketId)
    requires StoreLaw(c) && Flow(c, down, up) && id in c.receiving
    requires e == c.(receiving := c.receiving - {id}, forwarded := c.forwarded + [c.receiving[id]])
    ensures Flow(e, down, up)
  {
    assert HeadArrived(e) ==> HeadArrived(c);
    assert FreeLaw(e);
  }

  lemma ReleaseHandled(c: Peers, e: Peers, down: seq<InTransit<PubPacket>>, up: seq<InTransit<AckPacket>>,
                       id: PacketId)
    requires StoreLaw(c) && Flow(c, down, up)
    requires e == AfterReaction(c, OnRelease(c.receiving, id, false))
    ensures Flow(e, down, up)
  {
    if id in c.receiving {
      StoredForwarded(c, e, down, up, id);
    } else {
      assert c.receiving - {id} == c.receiving && c.forwarded + [] == c.forwarded;
      assert e == c;
    }
  }

  lemma ReleaseArrives(s: System, room: bool)
    requires FullLaw(s) && s.down != [] && s.down[0].packet.Release?
    ensures var r := DoDeliverDown(s, room); Flow(r.peers, r.down, r.up)
  {
    var c, d, r, id := s.peers, s.down[1..], DoDeliverDown(s, room), s.down[0].packet.id;
    assert Without(s.down, 0) == d;
    DownWithoutKeeps(c, s.down, s.up, 0);
    ReleaseHandled(c, r.peers, d, s.up, id);
    if room {
      AddReply(r.peers, d, s.up, InTransit(Complete(id), s.down[0].about));
      assert r.up == s.up + [InTransit(Complete(id), s.down[0].about)];
    } else {
      assert r.up == s.up;
    }
  }

  lemma DownStaysQuiet(s: System, room: bool)
    requires QuietLaw(s) && s.down != []
    ensures QuietLaw(DoDeliverDown(s, room))
  {
    var r := DoDeliverDown(s, room);
    assert forall i :: 0 <= i < |r.down| ==> r.down[i] == s.down[i + 1];
    assert |s.up| <= |r.up| && r.up[..|s.up|] == s.up;
    assert forall i :: 0 <= i < |s.up| ==> r.up[i] == s.up[i];
    assert !PublishesLow(s.down[0].packet) ==> forall i :: |s.up| <= i < |r.up| ==> !r.up[i].packet.Ack?;
  }

  lemma DownStep(s: System, room: bool)
    requires FullLaw(s)
    ensures FullLaw(DoDeliverDown(s, room))
  {
    if s.down != [] {
      DownStaysQuiet(s, room);
      if s.down[0].packet.Release? {
        QosEveryRun.DeliverReleaseKeeps(s, room);
        ReleaseArrives(s, room);
      } else {
        QosEveryRun.DeliverPublishKeeps(s, room);
        if s.down[0].packet.msg.qos == ExactlyOnce {
          HighArrives(s, room);
        } else {
          LowArrives(s, room);
        }
      }
    }
  }

  // ---------------------------------------------------------------------------------------------------
  // Every step, every run
  // ---------------------------------------------------------------------------------------------------

  lemma AcceptStep(s: System, qos: Qos, id: PacketId)
    requires FullLaw(s)
    ensures FullLaw(Apply(s, Accept(qos, id)))
  {
    var c, e := s.peers, AcceptMessage(s.peers, qos, id);
    QosEveryRun.AcceptKeeps(s, qos, id);
    if e != c {
      if c.flights == [] {
        var m := e.flights[0].msg;
        assert m.index == |c.published|;
        assert m !in c.forwarded && !Stored(c, m);
      }
      assert HeadArrived(e) ==> HeadArrived(c);
      assert WaitLaw(e) && FreeLaw(e) && LowLaw(e);
      assert OrderLaw(e, s.down) && AckLaw(e, s.down, s.up);
    }
  }

  lemma RetryStep(s: System, id: PacketId, room: bool)
    requires FullLaw(s)
    ensures FullLaw(Apply(s, Retry(id, room)))
  {
    QosEveryRun.StepKeeps(s, Retry(id, room));
    if s.connected && room && id in s.peers.receiving {
      AddReply(s.peers, s.down, s.up, InTransit(Received(id), s.peers.receiving[id].index));
    }
  }

  lemma LoseStep(s: System, step: Step)
    requires FullLaw(s) && (step.LoseDown? || step.LoseUp?)
    ensures FullLaw(Apply(s, step))
  {
    QosEveryRun.StepKeeps(s, step);
    if step.LoseDown? {
      var d := Without(s.down, step.at);
      DownWithoutKeeps(s.peers, s.down, s.up, step.at);
      assert step.at < |s.down| ==> forall i :: 0 <= i < |d| ==> d[i] == s.down[if i < step.at then i else i + 1];
    } else {
      var u := Without(s.up, step.at);
      UpWithoutKeeps(s.peers, s.down, s.up, step.at);
      assert step.at < |s.up| ==> forall i :: 0 <= i < |u| ==> u[i] == s.up[if i < step.at then i else i + 1];
    }
  }

  /** Every step keeps the order of the packets under way, clean-session drops included. */
  lemma FlowStep(s: System, step: Step)
    requires FullLaw(s)
    ensures FullLaw(Apply(s, step))
  {
    match step
    case Accept(qos, id) => AcceptStep(s, qos, id);
    case Tick(room, late, clean) => TickStep(s, room, late, clean);
    case DeliverDown(room) => DownStep(s, room);
    case DeliverUp(room) => UpStep(s, room);
    case Retry(id, room) => RetryStep(s, id, room);
    case LoseDown(_) => LoseStep(s, step);
    case LoseUp(_) => LoseStep(s, step);
    case _ =>
      QosEveryRun.StepKeeps(s, step);
      SameKeeps(s.peers, s.peers.(resent := false), s.down, s.up);
  }

  lemma {:induction false} FlowRun(s: System, steps: seq<Step>)
    requires FullLaw(s)
    ensures FullLaw(Run(s, steps))
    decreases |steps|
  {
    if steps != [] {
      FlowStep(s, steps[0]);
      FlowRun(Apply(s, steps[0]), steps[1..]);
    }
  }

  lemma FlowStart()
    ensures FullLaw(START)
  {
    QosEveryRun.StartHolds();
  }

  /** At least once: in every run, whatever is lost, however identifiers are reused and whether or not sessions are
      clean, a completed QoS 1 message has been forwarded. */
  lemma {:induction false} AtLeastOnceDelivery(steps: seq<Step>, m: Message)
    requires m in Run(START, steps).peers.completed && m.qos == AtLeastOnce
    ensures m in Run(START, steps).peers.forwarded
  {
    FlowStart();
    FlowRun(START, steps);
  }
}
