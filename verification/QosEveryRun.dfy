/** What the joined QoS handshake keeps in every run, clean-session reconnects that erase a waiting message
    included. */
module QosEveryRun {
  import opened MqttTypes
  import opened PublicationModel
  import opened SubscriptionModel
  import opened QosSystem

  // ---------------------------------------------------------------------------------------------------
  // The sending half
  // ---------------------------------------------------------------------------------------------------

  /** The publish index of the head, or of the next message: everything before it is completed or dropped. */
  function Gone(c: Peers): int {
    |c.published| - |c.flights|
  }

  /** The list holds the last published messages, and only its head waits. */
  ghost predicate ListLaw(c: Peers) {
    && Gone(c) >= 0
    && (forall i :: 0 <= i < |c.published| ==> c.published[i].index == i)
    && (forall i :: 0 <= i < |c.flights| ==> c.flights[i].msg == c.published[Gone(c) + i])
    && (forall i :: 1 <= i < |c.flights| ==> c.flights[i].wait == Reserved)
  }

  predicate IsPublished(c: Peers, m: Message) {
    m.index < |c.published| && c.published[m.index] == m
  }

  predicate HeadWaitsFor(c: Peers, wait: WaitFor) {
    c.flights != [] && c.flights[0].wait == wait
  }

  predicate Stored(c: Peers, m: Message) {
    m.id in c.receiving && c.receiving[m.id] == m
  }

  // ---------------------------------------------------------------------------------------------------
  // The receiving half
  // ---------------------------------------------------------------------------------------------------

  /** Stored messages were published, at the latest as the head, and have not been forwarded. */
  ghost predicate StoreLaw(c: Peers) {
    forall id :: id in c.receiving ==>
      var m := c.receiving[id];
      m.id == id && m.qos == ExactlyOnce && IsPublished(c, m) && m.index <= Gone(c) && m !in c.forwarded
  }

  /** Forwarded messages were published. A QoS 2 message is forwarded once, and then its PUBLISH is never sent
      again. */
  ghost predicate LogLaw(c: Peers) {
    && (forall i :: 0 <= i < |c.forwarded| ==> IsPublished(c, c.forwarded[i]))
    && (forall i, j :: 0 <= i < j < |c.forwarded| && c.forwarded[i] == c.forwarded[j] ==>
          c.forwarded[i].qos != ExactlyOnce)
    && (forall i :: 0 <= i < |c.forwarded| && c.forwarded[i].qos == ExactlyOnce ==>
          c.forwarded[i].index < Gone(c) || (c.forwarded[i].index == Gone(c) && HeadWaitsFor(c, PubComp)))
  }

  // ---------------------------------------------------------------------------------------------------
  // The channel
  // ---------------------------------------------------------------------------------------------------

  predicate Publishes2(p: PubPacket, m: Message) {
    p.Publish? && p.msg == m && m.qos == ExactlyOnce
  }

  /** A QoS 2 PUBLISH under way: it is the only one of its message, which has not been forwarded. If the message is
      stored, no PUBREL with its identifier is ahead; if it is the head, the head waits, and for PUBREC only as long
      as no such PUBREL is behind. */
  ghost predicate PublishLaw(c: Peers, down: seq<InTransit<PubPacket>>, i: nat, m: Message)
    requires i < |down|
  {
    && IsPublished(c, m) && m.index <= Gone(c)
    && (m.qos == ExactlyOnce ==>
          && m !in c.forwarded
          && (forall j :: 0 <= j < |down| && j != i ==> !Publishes2(down[j].packet, m))
          && (Stored(c, m) ==> forall j :: 0 <= j < i ==> down[j].packet != Release(m.id))
          && (m.index == Gone(c) ==>
                && (HeadWaitsFor(c, PubRec) || HeadWaitsFor(c, PubComp))
                && (HeadWaitsFor(c, PubRec) ==> forall j :: i < j < |down| ==> down[j].packet != Release(m.id))))
  }

  ghost predicate DownLaw(c: Peers, down: seq<InTransit<PubPacket>>) {
    forall i :: 0 <= i < |down| && down[i].packet.Publish? ==> PublishLaw(c, down, i, down[i].packet.msg)
  }

  /** While a stored head does not wait for PUBCOMP, no PUBREL with its identifier is under way. */
  ghost predicate HeadLaw(c: Peers, down: seq<InTransit<PubPacket>>) {
    c.flights != [] && Stored(c, c.flights[0].msg) && !HeadWaitsFor(c, PubComp) ==>
      forall j :: 0 <= j < |down| ==> down[j].packet != Release(c.flights[0].msg.id)
  }

  /** Without a connection the channels are empty, and before the first tick of one no PUBLISH has been sent. */
  ghost predicate ConnectionLaw(s: System) {
    && (!s.connected ==> s.down == [] && s.up == [])
    && (!s.peers.resent && HeadWaitsFor(s.peers, PubRec) ==> s.down == [])
  }

  ghost predicate PeersLaw(c: Peers, down: seq<InTransit<PubPacket>>) {
    ListLaw(c) && StoreLaw(c) && LogLaw(c) && DownLaw(c, down) && HeadLaw(c, down)
  }

  ghost predicate Law(s: System) {
    PeersLaw(s.peers, s.down) && ConnectionLaw(s)
  }

  // ---------------------------------------------------------------------------------------------------
  // Turns of the sending half
  // ---------------------------------------------------------------------------------------------------

  function Erased(c: Peers): Peers
    requires c.flights != []
  {
    c.(flights := c.flights[1..])
  }

  /** The head leaves the list, completed or dropped. */
  lemma EraseKeeps(c: Peers, down: seq<InTransit<PubPacket>>)
    requires PeersLaw(c, down) && c.flights != []
    ensures PeersLaw(Erased(c), down) && Gone(Erased(c)) == Gone(c) + 1
  {
    var e := Erased(c);
    assert forall i :: 0 <= i < |e.flights| ==> e.flights[i] == c.flights[i + 1];
    forall i | 0 <= i < |down| && down[i].packet.Publish? ensures PublishLaw(e, down, i, down[i].packet.msg) {
      assert PublishLaw(c, down, i, down[i].packet.msg);
    }
  }

  function Waits(c: Peers, head: InFlight): Peers
    requires c.flights != []
  {
    c.(flights := SetHead(c.flights, head))
  }

  lemma SetHeadKeepsList(c: Peers, head: InFlight)
    requires ListLaw(c) && c.flights != [] && head.msg == c.flights[0].msg
    ensures ListLaw(Waits(c, head)) && Gone(Waits(c, head)) == Gone(c)
  {
  }

  /** A head that has not been sent on this connection is reset. */
  lemma ResetKeeps(c: Peers, down: seq<InTransit<PubPacket>>, head: InFlight)
    requires PeersLaw(c, down) && c.flights != [] && head.msg == c.flights[0].msg && head.wait == Reserved
    requires c.flights[0].wait != PubComp && (c.flights[0].wait == PubRec ==> down == [])
    ensures PeersLaw(Waits(c, head), down)
  {
    var e := Waits(c, head);
    SetHeadKeepsList(c, head);
    forall i | 0 <= i < |down| && down[i].packet.Publish? ensures PublishLaw(e, down, i, down[i].packet.msg) {
      assert PublishLaw(c, down, i, down[i].packet.msg);
    }
  }

  /** The head's PUBLISH is sent. */
  lemma PublishKeeps(c: Peers, down: seq<InTransit<PubPacket>>, head: InFlight, p: InTransit<PubPacket>)
    requires PeersLaw(c, down) && c.flights != [] && c.flights[0].wait == Reserved && head.msg == c.flights[0].msg
    requires head.wait == AwaitedReply(head.msg.qos) && p.packet.Publish? && p.packet.msg == head.msg
    ensures PeersLaw(Waits(c, head), down + [p])
  {
    var e, d, m := Waits(c, head), down + [p], head.msg;
    SetHeadKeepsList(c, head);
    assert m == c.published[Gone(c)];
    forall i | 0 <= i < |down| ensures !Publishes2(down[i].packet, m) {
      if down[i].packet.Publish? {
        assert PublishLaw(c, down, i, down[i].packet.msg);
      }
    }
    forall i | 0 <= i < |d| && d[i].packet.Publish? ensures PublishLaw(e, d, i, d[i].packet.msg) {
      if i < |down| {
        assert PublishLaw(c, down, i, down[i].packet.msg);
      }
    }
  }

  /** PUBREC lets the head wait for PUBCOMP, and PUBREL is sent. */
  lemma ReleaseKeeps(c: Peers, down: seq<InTransit<PubPacket>>, head: InFlight, about: nat)
    requires PeersLaw(c, down) && c.flights != [] && head.msg == c.flights[0].msg && head.wait == PubComp
    requires c.flights[0].wait in {PubRec, PubComp}
    ensures PeersLaw(Waits(c, head), down + [InTransit(Release(head.msg.id), about)])
  {
    var e, d := Waits(c, head), down + [InTransit(Release(head.msg.id), about)];
    SetHeadKeepsList(c, head);
    forall i | 0 <= i < |d| && d[i].packet.Publish? ensures PublishLaw(e, d, i, d[i].packet.msg) {
      assert PublishLaw(c, down, i, down[i].packet.msg);
    }
  }

  lemma SameListKeeps(c: Peers, e: Peers, down: seq<InTransit<PubPacket>>)
    requires PeersLaw(c, down) && e == c.(completed := e.completed, resent := e.resent)
    ensures PeersLaw(e, down)
  {
    forall i | 0 <= i < |down| && down[i].packet.Publish? ensures PublishLaw(e, down, i, down[i].packet.msg) {
      assert PublishLaw(c, down, i, down[i].packet.msg);
    }
  }

  /** A QoS 0 head is sent and leaves the list at once. */
  lemma FireAndForgetKeeps(c: Peers, down: seq<InTransit<PubPacket>>, p: InTransit<PubPacket>)
    requires PeersLaw(c, down) && c.flights != [] && c.flights[0].msg.qos == AtMostOnce
    requires p.packet.Publish? && p.packet.msg == c.flights[0].msg
    ensures PeersLaw(Erased(c), down + [p])
  {
    var e, d := Erased(c), down + [p];
    EraseKeeps(c, down);
    assert c.flights[0].msg == c.published[Gone(c)];
    forall i | 0 <= i < |d| && d[i].packet.Publish? ensures PublishLaw(e, d, i, d[i].packet.msg) {
      if i < |down| {
        assert PublishLaw(e, down, i, down[i].packet.msg);
      }
    }
  }

  /** What AfterTurn makes of a turn that erases the head or changes it. */
  lemma TurnIs(c: Peers, turn: Turn)
    ensures |turn.flights| >= |c.flights| ==> AfterTurn(c, turn) == c.(flights := turn.flights)
    ensures c.flights != [] && turn.flights == c.flights[1..] ==>
              AfterTurn(c, turn) == Erased(c).(completed := c.completed + [c.flights[0].msg])
  {
  }

  lemma NextKeeps(s: System, room: bool, late: bool, clean: bool)
    requires Law(s) && s.connected && s.peers.resent
    ensures Law(Apply(s, Tick(room, late, clean)))
  {
    var c, turn := s.peers, PublishNext(s.peers.flights, room, late);
    var r := TakeTurn(s, turn);
    TurnIs(c, turn);
    if c.flights != [] && room {
      var head := c.flights[0];
      var p := InTransit(Packet(head), HeadIndex(c));
      if head.msg.qos == AtMostOnce {
        FireAndForgetKeeps(c, s.down, p);
        assert r.down == s.down + [p];
        SameListKeeps(Erased(c), r.peers, r.down);
      } else if head.wait == Reserved {
        PublishKeeps(c, s.down, head.(wait := AwaitedReply(head.msg.qos)), p);
        assert r.down == s.down + [p];
      } else {
        assert r.peers == c && r.down == s.down;
      }
    } else {
      assert r.peers == c && r.down == s.down;
    }
  }

  lemma DropKeeps(s: System, room: bool, late: bool)
    requires Law(s) && s.connected && !s.peers.resent && CleanSessionDrops(s.peers.flights, true)
    ensures Law(Apply(s, Tick(room, late, true)))
  {
    var r := Apply(s, Tick(room, late, true));
    EraseKeeps(s.peers, s.down);
    SameListKeeps(Erased(s.peers), r.peers, s.down);
  }

  lemma ResendKeeps(s: System, room: bool, late: bool, clean: bool)
    requires Law(s) && s.connected && !s.peers.resent && !CleanSessionDrops(s.peers.flights, clean)
    ensures Law(Apply(s, Tick(room, late, clean)))
  {
    var c := s.peers.(resent := true);
    var turn := Resend(c.flights, clean, room);
    var r := TakeTurn(s.(peers := c), turn);
    SameListKeeps(s.peers, c, s.down);
    TurnIs(c, turn);
    if c.flights == [] || clean {
      assert r.peers == c && r.down == s.down;
    } else if c.flights[0].wait == PubComp {
      assert r.peers == c;
      if room {
        ReleaseKeeps(c, s.down, c.flights[0], HeadIndex(c));
        assert Waits(c, c.flights[0]) == c;
        assert r.down == s.down + [InTransit(Release(c.flights[0].msg.id), HeadIndex(c))];
      } else {
        assert r.down == s.down;
      }
    } else {
      ResetKeeps(c, s.down, turn.flights[0]);
      assert r.peers == Waits(c, turn.flights[0]) && r.down == s.down;
    }
  }

  /** A turn that answers a reply: the head is released or erased, or nothing happens. */
  lemma TurnKeeps(c: Peers, down: seq<InTransit<PubPacket>>, turn: Turn)
    requires PeersLaw(c, down)
    requires || turn == Turn(c.flights, [], false)
             || (c.flights != [] && turn == Turn(c.flights[1..], [], false))
             || (HeadWaitsFor(c, PubRec)
                 && turn == Turn(SetHead(c.flights, c.flights[0].(wait := PubComp)), [Release(c.flights[0].msg.id)],
                                 false))
    ensures PeersLaw(AfterTurn(c, turn), down + Tagged(turn.sent, HeadIndex(c)))
  {
    TurnIs(c, turn);
    if turn.sent != [] {
      ReleaseKeeps(c, down, turn.flights[0], HeadIndex(c));
      assert Tagged(turn.sent, HeadIndex(c)) == [InTransit(Release(c.flights[0].msg.id), HeadIndex(c))];
    } else {
      assert down + Tagged(turn.sent, HeadIndex(c)) == down;
      if |turn.flights| < |c.flights| {
        EraseKeeps(c, down);
        SameListKeeps(Erased(c), AfterTurn(c, turn), down);
      }
    }
  }

  lemma DeliverUpKeeps(s: System, room: bool)
    requires Law(s)
    ensures Law(DoDeliverUp(s, room))
  {
    if s.up != [] {
      var turn := OnAck(s.peers.flights, s.up[0].packet, room);
      TurnKeeps(s.peers, s.down, turn);
      assert HeadWaitsFor(AfterTurn(s.peers, turn), PubRec) ==> turn == Turn(s.peers.flights, [], false);
    }
  }

  // ---------------------------------------------------------------------------------------------------
  // Deliveries to the receiving half
  // ---------------------------------------------------------------------------------------------------

  /** Packets may leave the channel anywhere. */
  lemma WithoutKeeps(c: Peers, down: seq<InTransit<PubPacket>>, at: nat)
    requires DownLaw(c, down) && HeadLaw(c, down)
    ensures DownLaw(c, Without(down, at)) && HeadLaw(c, Without(down, at))
  {
    if at < |down| {
      var d := Without(down, at);
      assert forall i :: 0 <= i < |d| ==> d[i] == down[if i < at then i else i + 1];
      forall i | 0 <= i < |d| && d[i].packet.Publish? ensures PublishLaw(c, d, i, d[i].packet.msg) {
        assert PublishLaw(c, down, if i < at then i else i + 1, d[i].packet.msg);
      }
    }
  }

  /** A message of QoS 0 or 1 is forwarded at once. */
  lemma ForwardLowKeeps(c: Peers, down: seq<InTransit<PubPacket>>, m: Message)
    requires PeersLaw(c, down) && IsPublished(c, m) && m.qos != ExactlyOnce
    ensures PeersLaw(c.(forwarded := c.forwarded + [m]), down)
  {
    var e := c.(forwarded := c.forwarded + [m]);
    forall i | 0 <= i < |down| && down[i].packet.Publish? ensures PublishLaw(e, down, i, down[i].packet.msg) {
      assert PublishLaw(c, down, i, down[i].packet.msg);
    }
  }

  /** The oldest packet is a QoS 2 PUBLISH with a free identifier: it is stored. */
  lemma StoreKeeps(c: Peers, down: seq<InTransit<PubPacket>>, m: Message)
    requires PeersLaw(c, down) && down != [] && Publishes2(down[0].packet, m) && m.id !in c.receiving
    ensures PeersLaw(c.(receiving := c.receiving[m.id := m]), down[1..])
  {
    var e, d := c.(receiving := c.receiving[m.id := m]), down[1..];
    assert PublishLaw(c, down, 0, m);
    assert Without(down, 0) == d;
    WithoutKeeps(c, down, 0);
    assert forall j :: 0 <= j < |d| ==> d[j] == down[j + 1];
    StoreKeepsDown(c, d, m);
    assert c.flights != [] ==> c.flights[0].msg == c.published[Gone(c)];
  }

  lemma StoreKeepsDown(c: Peers, down: seq<InTransit<PubPacket>>, m: Message)
    requires DownLaw(c, down) && m.id !in c.receiving && m.qos == ExactlyOnce
    requires forall i :: 0 <= i < |down| ==> !Publishes2(down[i].packet, m)
    ensures DownLaw(c.(receiving := c.receiving[m.id := m]), down)
  {
    var e := c.(receiving := c.receiving[m.id := m]);
    forall i | 0 <= i < |down| && down[i].packet.Publish? ensures PublishLaw(e, down, i, down[i].packet.msg) {
      assert PublishLaw(c, down, i, down[i].packet.msg);
      assert !Publishes2(down[i].packet, m);
    }
  }

  /** The oldest packet is a PUBREL for a stored message: it is forwarded, for the only time. */
  lemma ForwardStoredKeepsLogs(c: Peers, id: PacketId)
    requires ListLaw(c) && StoreLaw(c) && LogLaw(c) && id in c.receiving
    requires c.receiving[id].index == Gone(c) ==> HeadWaitsFor(c, PubComp)
    ensures var e := c.(receiving := c.receiving - {id}, forwarded := c.forwarded + [c.receiving[id]]);
            StoreLaw(e) && LogLaw(e)
  {
  }

  /** A PUBLISH under way stays lawful when another message is forwarded. */
  lemma OtherForwarded(c: Peers, e: Peers, d: seq<InTransit<PubPacket>>, i: nat, p: Message, id: PacketId)
    requires i < |d| && PublishLaw(c, d, i, p) && id in c.receiving && (p.qos == ExactlyOnce ==> p != c.receiving[id])
    requires e == c.(receiving := c.receiving - {id}, forwarded := c.forwarded + [c.receiving[id]])
    ensures PublishLaw(e, d, i, p)
  {
    assert Stored(e, p) ==> Stored(c, p);
    assert p.qos == ExactlyOnce ==> p !in e.forwarded;
  }

  lemma ForwardStoredKeepsDown(c: Peers, e: Peers, down: seq<InTransit<PubPacket>>, id: PacketId)
    requires down != [] && down[0].packet == Release(id)
    requires StoreLaw(c) && DownLaw(c, down) && DownLaw(c, down[1..])
    requires id in c.receiving
    requires e == c.(receiving := c.receiving - {id}, forwarded := c.forwarded + [c.receiving[id]])
    ensures DownLaw(e, down[1..])
  {
    var d := down[1..];
    forall i | 0 <= i < |d| && d[i].packet.Publish? ensures PublishLaw(e, d, i, d[i].packet.msg) {
      var p := d[i].packet.msg;
      assert down[i + 1] == d[i];
      assert PublishLaw(c, down, i + 1, p) && PublishLaw(c, d, i, p);
      OtherForwarded(c, e, d, i, p, id);
    }
  }

  lemma ForwardStoredKeeps(c: Peers, down: seq<InTransit<PubPacket>>, id: PacketId)
    requires PeersLaw(c, down) && down != [] && down[0].packet == Release(id) && id in c.receiving
    ensures PeersLaw(c.(receiving := c.receiving - {id}, forwarded := c.forwarded + [c.receiving[id]]), down[1..])
  {
    var m := c.receiving[id];
    var e := c.(receiving := c.receiving - {id}, forwarded := c.forwarded + [m]);
    var d := down[1..];
    assert Without(down, 0) == d;
    WithoutKeeps(c, down, 0);
    assert m.index == Gone(c) ==> HeadWaitsFor(c, PubComp) by {
      assert m.index == Gone(c) ==> c.flights != [] && c.flights[0].msg == m;
    }
    ForwardStoredKeepsLogs(c, id);
    ForwardStoredKeepsDown(c, e, down, id);
  }

  lemma DeliverPublishKeeps(s: System, room: bool)
    requires Law(s) && s.down != [] && s.down[0].packet.Publish?
    ensures Law(DoDeliverDown(s, room))
  {
    var c, m, d := s.peers, s.down[0].packet.msg, s.down[1..];
    var r := DoDeliverDown(s, room);
    assert PublishLaw(c, s.down, 0, m);
    assert Without(s.down, 0) == d;
    WithoutKeeps(c, s.down, 0);
    if m.qos != ExactlyOnce {
      ForwardLowKeeps(c, d, m);
      assert r.peers == c.(forwarded := c.forwarded + [m]);
    } else if m.id in c.receiving {
      assert r.peers == c by {
        assert c.forwarded + [] == c.forwarded;
      }
    } else {
      StoreKeeps(c, s.down, m);
      assert r.peers == c.(receiving := c.receiving[m.id := m]) by {
        assert c.forwarded + [] == c.forwarded;
      }
    }
  }

  lemma DeliverReleaseKeeps(s: System, room: bool)
    requires Law(s) && s.down != [] && s.down[0].packet.Release?
    ensures Law(DoDeliverDown(s, room))
  {
    var c, id, d := s.peers, s.down[0].packet.id, s.down[1..];
    var r := DoDeliverDown(s, room);
    assert Without(s.down, 0) == d;
    WithoutKeeps(c, s.down, 0);
    if id in c.receiving {
      ForwardStoredKeeps(c, s.down, id);
    } else {
      assert r.peers == c by {
        assert c.receiving - {id} == c.receiving && c.forwarded + [] == c.forwarded;
      }
    }
  }

  // ---------------------------------------------------------------------------------------------------
  // Every step, every run
  // ---------------------------------------------------------------------------------------------------

  lemma AcceptKeepsList(c: Peers, qos: Qos, id: PacketId)
    requires ListLaw(c) && |c.flights| < MAX_OUTGOING_MESSAGES
    ensures var e := AcceptMessage(c, qos, id);
            ListLaw(e) && Gone(e) == Gone(c) && forall m :: IsPublished(c, m) ==> IsPublished(e, m)
  {
  }

  lemma AcceptKeepsStore(c: Peers, qos: Qos, id: PacketId)
    requires ListLaw(c) && StoreLaw(c) && |c.flights| < MAX_OUTGOING_MESSAGES
    ensures StoreLaw(AcceptMessage(c, qos, id))
  {
    AcceptKeepsList(c, qos, id);
  }

  lemma AcceptKeepsLog(c: Peers, qos: Qos, id: PacketId)
    requires ListLaw(c) && LogLaw(c) && |c.flights| < MAX_OUTGOING_MESSAGES
    ensures LogLaw(AcceptMessage(c, qos, id))
  {
    AcceptKeepsList(c, qos, id);
  }

  lemma AcceptKeeps(s: System, qos: Qos, id: PacketId)
    requires Law(s)
    ensures Law(Apply(s, Accept(qos, id)))
  {
    var c, e := s.peers, AcceptMessage(s.peers, qos, id);
    if |c.flights| < MAX_OUTGOING_MESSAGES {
      AcceptKeepsList(c, qos, id);
      AcceptKeepsStore(c, qos, id);
      AcceptKeepsLog(c, qos, id);
      forall i | 0 <= i < |s.down| && s.down[i].packet.Publish?
        ensures PublishLaw(e, s.down, i, s.down[i].packet.msg)
      {
        assert PublishLaw(c, s.down, i, s.down[i].packet.msg);
      }
    }
  }

  lemma EmptyKeeps(c: Peers, e: Peers)
    requires ListLaw(c) && StoreLaw(c) && LogLaw(c) && e == c.(resent := e.resent)
    ensures PeersLaw(e, [])
  {
  }

  lemma StepKeeps(s: System, step: Step)
    requires Law(s)
    ensures Law(Apply(s, step))
  {
    match step
    case Accept(qos, id) => AcceptKeeps(s, qos, id);
    case Tick(room, late, clean) =>
      if s.connected {
        if s.peers.resent {
          NextKeeps(s, room, late, clean);
        } else if CleanSessionDrops(s.peers.flights, clean) {
          DropKeeps(s, room, late);
        } else {
          ResendKeeps(s, room, late, clean);
        }
      }
    case DeliverDown(room) =>
      if s.down != [] {
        if s.down[0].packet.Publish? {
          DeliverPublishKeeps(s, room);
        } else {
          DeliverReleaseKeeps(s, room);
        }
      }
    case DeliverUp(room) => DeliverUpKeeps(s, room);
    case Retry(id, room) =>
    case LoseDown(at) => WithoutKeeps(s.peers, s.down, at);
    case LoseUp(at) =>
    case Disconnect => EmptyKeeps(s.peers, s.peers.(resent := false));
    case Reconnect => EmptyKeeps(s.peers, s.peers.(resent := false));
  }

  lemma {:induction false} RunKeeps(s: System, steps: seq<Step>)
    requires Law(s)
    ensures Law(Run(s, steps))
    decreases |steps|
  {
    if steps != [] {
      StepKeeps(s, steps[0]);
      RunKeeps(Apply(s, steps[0]), steps[1..]);
    }
  }

  lemma StartHolds()
    ensures Law(START)
  {
  }

  /** In every run, whatever is lost, however identifiers are reused and whether or not sessions are clean: what is
      forwarded was published, and no QoS 2 message is forwarded twice. */
  lemma {:induction false} NeverForwardedTwice(steps: seq<Step>)
    ensures var c := Run(START, steps).peers;
            && (forall i :: 0 <= i < |c.forwarded| ==> IsPublished(c, c.forwarded[i]))
            && (forall i, j :: 0 <= i < j < |c.forwarded| && c.forwarded[i].qos == ExactlyOnce ==>
                  c.forwarded[i].index != c.forwarded[j].index)
  {
    StartHolds();
    RunKeeps(START, steps);
  }
}
