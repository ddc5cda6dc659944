/** How many completed QoS 2 messages can be missing when clean-session reconnects drop messages: for each identifier
    no more than dropped messages were forwarded. */
module QosDropped {
  import opened MqttTypes
  import opened PublicationModel
  import opened SubscriptionModel
  import opened QosSystem
  import opened QosEveryRun
  import opened QosFlow

  /** The QoS 2 messages with this identifier in a history. */
  function Of(msgs: seq<Message>, id: PacketId): set<Message> {
    set m | m in msgs && m.qos == ExactlyOnce && m.id == id
  }

  /** Completed, but never handed to the application. */
  function Missing(c: Peers, id: PacketId): set<Message> {
    Of(c.completed, id) - Of(c.forwarded, id)
  }

  /** Handed to the application although it was dropped: it is neither completed nor in flight. */
  function Strays(c: Peers, id: PacketId): set<Message> {
    set m | m in Of(c.forwarded, id) && m !in c.completed && m !in MessagesOf(c.flights)
  }

  // ---------------------------------------------------------------------------------------------------
  // What the replies under way can still complete
  // ---------------------------------------------------------------------------------------------------

  predicate WaitsComp(c: Peers, id: PacketId) {
    HeadWaitsFor(c, PubComp) && c.flights[0].msg.id == id
  }

  /** Whether the sending half waits for PUBCOMP after a reply, supposing it takes up the identifier whenever it can. */
  function Next(waits: bool, packet: AckPacket, id: PacketId): bool {
    if packet == Received(id) then true else if packet == Complete(id) then false else waits
  }

  /** How often these replies make it begin to wait for PUBCOMP. */
  function Openings(waits: bool, up: seq<InTransit<AckPacket>>, id: PacketId): nat
    decreases |up|
  {
    if up == [] then
      0
    else
      (if !waits && up[0].packet == Received(id) then 1 else 0)
      + Openings(Next(waits, up[0].packet, id), up[1..], id)
  }

  function EndsWaiting(waits: bool, up: seq<InTransit<AckPacket>>, id: PacketId): bool
    decreases |up|
  {
    if up == [] then waits else EndsWaiting(Next(waits, up[0].packet, id), up[1..], id)
  }

  lemma {:induction false} OpeningsAppend(waits: bool, up: seq<InTransit<AckPacket>>, p: InTransit<AckPacket>,
                                          id: PacketId)
    ensures Openings(waits, up + [p], id)
         == Openings(waits, up, id)
            + if !EndsWaiting(waits, up, id) && p.packet == Received(id) then 1 else 0
    ensures EndsWaiting(waits, up + [p], id) == Next(EndsWaiting(waits, up, id), p.packet, id)
    decreases |up|
  {
    if up == [] {
      assert Openings(Next(waits, p.packet, id), [], id) == 0;
      assert (up + [p])[1..] == [];
    } else {
      assert (up + [p])[1..] == up[1..] + [p] && (up + [p])[0] == up[0];
      OpeningsAppend(Next(waits, up[0].packet, id), up[1..], p, id);
    }
  }

  /** Already waiting saves at most one opening. */
  lemma {:induction false} OpeningsFlip(up: seq<InTransit<AckPacket>>, id: PacketId)
    ensures Openings(true, up, id) <= Openings(false, up, id) <= Openings(true, up, id) + 1
    decreases |up|
  {
    if up != [] {
      OpeningsFlip(up[1..], id);
    }
  }

  lemma {:induction false} OpeningsWithout(waits: bool, up: seq<InTransit<AckPacket>>, at: nat, id: PacketId)
    ensures Openings(waits, Without(up, at), id) <= Openings(waits, up, id)
    decreases |up|
  {
    if at < |up| {
      if at == 0 {
        assert Without(up, at) == up[1..];
        OpeningsFlip(up[1..], id);
      } else {
        assert Without(up, at)[1..] == Without(up[1..], at - 1) && Without(up, at)[0] == up[0];
        OpeningsWithout(Next(waits, up[0].packet, id), up[1..], at - 1, id);
      }
    }
  }

  lemma {:induction false} OpeningsLost(waits: bool, up: seq<InTransit<AckPacket>>, p: InTransit<AckPacket>,
                                        id: PacketId)
    ensures Openings(waits, [p], id) <= Openings(waits, up + [p], id)
    decreases |up|
  {
    if up == [] {
      assert up + [p] == [p];
    } else {
      assert Without(up + [p], 0) == up[1..] + [p];
      OpeningsWithout(waits, up + [p], 0, id);
      OpeningsLost(waits, up[1..], p, id);
    }
  }

  /** Replies that end in waiting open at least once, unless the sending half is waiting already. */
  lemma {:induction false} WaitingIsOpened(waits: bool, up: seq<InTransit<AckPacket>>, id: PacketId)
    ensures EndsWaiting(waits, up, id) && !waits ==> Openings(waits, up, id) >= 1
    decreases |up|
  {
    if up != [] {
      WaitingIsOpened(Next(waits, up[0].packet, id), up[1..], id);
    }
  }

  /** The replies under way, and one more PUBREC if one may be repeated. */
  function Replies(up: seq<InTransit<AckPacket>>, stored: bool, id: PacketId): seq<InTransit<AckPacket>> {
    if stored then up + [InTransit(Received(id), 0)] else up
  }

  /** How many messages can still be completed under the identifier before another one of it is stored. */
  function Owed(waits: bool, up: seq<InTransit<AckPacket>>, stored: bool, id: PacketId): nat {
    (if waits then 1 else 0) + Openings(waits, Replies(up, stored, id), id)
  }

  /** What has been and can be completed does not exceed what has been and is about to be forwarded. */
  predicate Balanced(c: Peers, up: seq<InTransit<AckPacket>>, id: PacketId) {
    |Of(c.completed, id)| + Owed(WaitsComp(c, id), up, id in c.receiving, id)
    <= |Of(c.forwarded, id)| + if id in c.receiving then 1 else 0
  }

  // ---------------------------------------------------------------------------------------------------
  // How what is owed changes
  // ---------------------------------------------------------------------------------------------------

  lemma OwedWithout(waits: bool, up: seq<InTransit<AckPacket>>, at: nat, stored: bool, id: PacketId)
    ensures Owed(waits, Without(up, at), stored, id) <= Owed(waits, up, stored, id)
  {
    if at < |up| {
      var r := Replies(up, stored, id);
      assert Replies(Without(up, at), stored, id) == Without(r, at);
      OpeningsWithout(waits, r, at, id);
    }
  }

  lemma OwedEmpty(waits: bool, up: seq<InTransit<AckPacket>>, stored: bool, id: PacketId)
    ensures Owed(waits, [], stored, id) <= Owed(waits, up, stored, id)
  {
    if stored {
      var p: InTransit<AckPacket> := InTransit(Received(id), 0);
      assert Replies([], stored, id) == [p];
      OpeningsLost(waits, up, p, id);
    }
  }

  /** The head that waits for PUBCOMP leaves without one. */
  lemma OwedDropped(up: seq<InTransit<AckPacket>>, stored: bool, id: PacketId)
    ensures Owed(false, up, stored, id) <= Owed(true, up, stored, id)
  {
    OpeningsFlip(Replies(up, stored, id), id);
  }

  /** A reply is handled: the sending half begins to wait or stops only as it does in Openings, or stays as it is. */
  lemma OwedHandled(waits: bool, up: seq<InTransit<AckPacket>>, stored: bool, id: PacketId)
    requires up != []
    ensures Owed(waits, up[1..], stored, id) <= Owed(waits, up, stored, id)
    ensures up[0].packet == Received(id) ==> Owed(true, up[1..], stored, id) <= Owed(waits, up, stored, id)
    ensures up[0].packet == Complete(id) && waits ==> Owed(false, up[1..], stored, id) + 1 == Owed(true, up, stored, id)
  {
    assert Without(up, 0) == up[1..];
    OwedWithout(waits, up, 0, stored, id);
    assert Replies(up, stored, id)[1..] == Replies(up[1..], stored, id);
    assert Replies(up, stored, id)[0] == up[0];
  }

  /** A reply is added: PUBREC only while something is stored. */
  lemma OwedAppended(waits: bool, up: seq<InTransit<AckPacket>>, p: InTransit<AckPacket>, stored: bool, id: PacketId)
    requires p.packet == Received(id) ==> stored
    requires p.packet == Complete(id) ==> !stored
    ensures Owed(waits, up + [p], stored, id) == Owed(waits, up, stored, id)
  {
    OpeningsAppend(waits, up, p, id);
    if stored {
      var q: InTransit<AckPacket> := InTransit(Received(id), 0);
      OpeningsAppend(waits, up, q, id);
      OpeningsAppend(waits, up + [p], q, id);
    }
  }

  /** Storing a message lets at most one more be completed; that it no longer is stored, none. */
  lemma OwedStored(waits: bool, up: seq<InTransit<AckPacket>>, id: PacketId)
    ensures Owed(waits, up, false, id) <= Owed(waits, up, true, id) <= Owed(waits, up, false, id) + 1
    ensures Owed(waits, up, true, id) >= 1
  {
    OpeningsAppend(waits, up, InTransit(Received(id), 0), id);
    WaitingIsOpened(waits, up, id);
  }

  // ---------------------------------------------------------------------------------------------------
  // Every step keeps the balance
  // ---------------------------------------------------------------------------------------------------

  lemma OfAppend(msgs: seq<Message>, m: Message, id: PacketId)
    ensures Of(msgs + [m], id) == Of(msgs, id) + if m.qos == ExactlyOnce && m.id == id then {m} else {}
  {
  }

  /** The head changes without beginning to wait for PUBCOMP. */
  lemma HeadStays(c: Peers, e: Peers, up: seq<InTransit<AckPacket>>, id: PacketId)
    requires Balanced(c, up, id) && e == c.(flights := e.flights, resent := e.resent)
    requires WaitsComp(e, id) ==> WaitsComp(c, id)
    ensures Balanced(e, up, id)
  {
    OwedDropped(up, id in c.receiving, id);
  }

  /** The head leaves, dropped or completed with another QoS. */
  lemma HeadLeaves(c: Peers, e: Peers, up: seq<InTransit<AckPacket>>, id: PacketId)
    requires ListLaw(c) && StoreLaw(c) && LogLaw(c) && Balanced(c, up, id) && c.flights != []
    requires e == Erased(c).(completed := e.completed, resent := e.resent)
    requires e.completed == c.completed
             || (e.completed == c.completed + [c.flights[0].msg] && c.flights[0].msg.qos != ExactlyOnce)
    ensures Balanced(e, up, id)
  {
    OwedDropped(up, id in c.receiving, id);
    NextHeadIsNew(c);
    assert !WaitsComp(e, id);
    OfAppend(c.completed, c.flights[0].msg, id);
    assert Of(e.completed, id) == Of(c.completed, id);
  }

  lemma NextBalance(s: System, room: bool, late: bool, clean: bool, id: PacketId)
    requires FullLaw(s) && s.connected && s.peers.resent && Balanced(s.peers, s.up, id)
    ensures Balanced(Apply(s, Tick(room, late, clean)).peers, s.up, id)
  {
    var c, e := s.peers, Apply(s, Tick(room, late, clean)).peers;
    var turn := PublishNext(c.flights, room, late);
    TurnIs(c, turn);
    if |turn.flights| < |c.flights| {
      HeadLeaves(c, e, s.up, id);
    } else {
      HeadStays(c, e, s.up, id);
    }
  }

  lemma TickBalance(s: System, room: bool, late: bool, clean: bool, id: PacketId)
    requires FullLaw(s) && Balanced(s.peers, s.up, id)
    ensures var r := Apply(s, Tick(room, late, clean)); Balanced(r.peers, r.up, id)
  {
    var c, e := s.peers, Apply(s, Tick(room, late, clean)).peers;
    if s.connected {
      if c.resent {
        NextBalance(s, room, late, clean, id);
      } else if CleanSessionDrops(c.flights, clean) {
        HeadLeaves(c, e, s.up, id);
      } else {
        TurnIs(c.(resent := true), Resend(c.flights, clean, room));
        HeadStays(c, e, s.up, id);
      }
    }
  }

  lemma AckBalance(s: System, room: bool, id: PacketId)
    requires FullLaw(s) && s.up != [] && s.up[0].packet.Ack? && Balanced(s.peers, s.up, id)
    ensures Balanced(DoDeliverUp(s, room).peers, s.up[1..], id)
  {
    var c, e := s.peers, DoDeliverUp(s, room).peers;
    var turn := OnPubAck(c.flights, s.up[0].packet.id);
    OwedHandled(WaitsComp(c, id), s.up, id in c.receiving, id);
    TurnIs(c, turn);
    assert HeadWaitsFor(c, PubAck);
    if turn.flights == c.flights {
      assert e == c;
    } else {
      HeadLeaves(c, e, s.up[1..], id);
    }
  }

  lemma RecBalance(s: System, room: bool, id: PacketId)
    requires FullLaw(s) && s.up != [] && s.up[0].packet.Received? && Balanced(s.peers, s.up, id)
    ensures Balanced(DoDeliverUp(s, room).peers, s.up[1..], id)
  {
    var c, e := s.peers, DoDeliverUp(s, room).peers;
    TurnIs(c, OnPubRec(c.flights, s.up[0].packet.id, room));
    OwedHandled(WaitsComp(c, id), s.up, id in c.receiving, id);
    assert e == c.(flights := e.flights);
    assert WaitsComp(e, id) ==> WaitsComp(c, id) || s.up[0].packet == Received(id);
  }

  lemma CompBalance(s: System, room: bool, id: PacketId)
    requires FullLaw(s) && s.up != [] && s.up[0].packet.Complete? && Balanced(s.peers, s.up, id)
    ensures Balanced(DoDeliverUp(s, room).peers, s.up[1..], id)
  {
    var c, e := s.peers, DoDeliverUp(s, room).peers;
    var turn := OnPubComp(c.flights, s.up[0].packet.id);
    TurnIs(c, turn);
    OwedHandled(WaitsComp(c, id), s.up, id in c.receiving, id);
    if turn.flights == c.flights {
      assert e == c;
    } else {
      NextHeadIsNew(c);
      OfAppend(c.completed, c.flights[0].msg, id);
      assert !WaitsComp(e, id);
    }
  }

  lemma UpBalance(s: System, room: bool, id: PacketId)
    requires FullLaw(s) && Balanced(s.peers, s.up, id)
    ensures var r := DoDeliverUp(s, room); Balanced(r.peers, r.up, id)
  {
    if s.up != [] {
      match s.up[0].packet
      case Ack(_) => AckBalance(s, room, id);
      case Received(_) => RecBalance(s, room, id);
      case Complete(_) => CompBalance(s, room, id);
    }
  }

  /** A message may be stored, and one PUBREC or PUBACK be added. */
  lemma Arrives(c: Peers, e: Peers, up: seq<InTransit<AckPacket>>, id: PacketId)
    requires Balanced(c, up, id) && e == c.(receiving := e.receiving, forwarded := e.forwarded)
    requires Of(e.forwarded, id) == Of(c.forwarded, id) && (id in c.receiving ==> id in e.receiving)
    ensures Balanced(e, up, id)
  {
    OwedStored(WaitsComp(c, id), up, id);
  }

  lemma Replied(c: Peers, up: seq<InTransit<AckPacket>>, p: InTransit<AckPacket>, id: PacketId)
    requires Balanced(c, up, id)
    requires p.packet == Received(id) ==> id in c.receiving
    requires p.packet == Complete(id) ==> id !in c.receiving
    ensures Balanced(c, up + [p], id)
  {
    OwedAppended(WaitsComp(c, id), up, p, id in c.receiving, id);
  }

  lemma PublishBalance(s: System, room: bool, id: PacketId)
    requires s.down != [] && s.down[0].packet.Publish? && Balanced(s.peers, s.up, id)
    ensures var r := DoDeliverDown(s, room); Balanced(r.peers, r.up, id)
  {
    var c, m, r := s.peers, s.down[0].packet.msg, DoDeliverDown(s, room);
    OfAppend(c.forwarded, m, id);
    assert c.forwarded + [] == c.forwarded;
    Arrives(c, r.peers, s.up, id);
    var reaction := OnPublish(c.receiving, m, room);
    if reaction.reply != [] {
      var p := InTransit(reaction.reply[0], s.down[0].about);
      assert Tagged(reaction.reply, s.down[0].about) == [p];
      Replied(r.peers, s.up, p, id);
    } else {
      assert r.up == s.up;
    }
  }

  /** A stored message is forwarded: one more. */
  lemma ForwardBalance(c: Peers, e: Peers, up: seq<InTransit<AckPacket>>, k: PacketId, id: PacketId)
    requires StoreLaw(c) && Balanced(c, up, id) && k in c.receiving
    requires e == c.(receiving := c.receiving - {k}, forwarded := c.forwarded + [c.receiving[k]])
    ensures Balanced(e, up, id)
  {
    OfAppend(c.forwarded, c.receiving[k], id);
    assert c.receiving[k] !in Of(c.forwarded, id);
    OwedStored(WaitsComp(c, id), up, id);
  }

  lemma ReleaseBalance(s: System, room: bool, id: PacketId)
    requires StoreLaw(s.peers) && s.down != [] && s.down[0].packet.Release? && Balanced(s.peers, s.up, id)
    ensures var r := DoDeliverDown(s, room); Balanced(r.peers, r.up, id)
  {
    var c, k, r := s.peers, s.down[0].packet.id, DoDeliverDown(s, room);
    if k in c.receiving {
      ForwardBalance(c, r.peers, s.up, k, id);
    } else {
      assert c.receiving - {k} == c.receiving && c.forwarded + [] == c.forwarded;
      assert r.peers == c;
    }
    if room {
      assert r.up == s.up + [InTransit(Complete(k), s.down[0].about)];
      Replied(r.peers, s.up, InTransit(Complete(k), s.down[0].about), id);
    } else {
      assert r.up == s.up;
    }
  }

  lemma RetryBalance(s: System, k: PacketId, room: bool, id: PacketId)
    requires Balanced(s.peers, s.up, id)
    ensures var r := Apply(s, Retry(k, room)); Balanced(r.peers, r.up, id)
  {
    if s.connected && room && k in s.peers.receiving {
      Replied(s.peers, s.up, InTransit(Received(k), s.peers.receiving[k].index), id);
    }
  }

  lemma AcceptBalance(c: Peers, up: seq<InTransit<AckPacket>>, qos: Qos, k: PacketId, id: PacketId)
    requires Balanced(c, up, id)
    ensures Balanced(AcceptMessage(c, qos, k), up, id)
  {
    var e := AcceptMessage(c, qos, k);
    assert WaitsComp(e, id) == WaitsComp(c, id);
  }

  /** Every step keeps the balance of every identifier, clean-session drops included. */
  lemma BalanceStep(s: System, step: Step, id: PacketId)
    requires FullLaw(s) && Balanced(s.peers, s.up, id)
    ensures var r := Apply(s, step); Balanced(r.peers, r.up, id)
  {
    match step
    case Tick(room, late, clean) => TickBalance(s, room, late, clean, id);
    case DeliverDown(room) =>
      if s.down != [] && s.down[0].packet.Publish? {
        PublishBalance(s, room, id);
      } else if s.down != [] {
        ReleaseBalance(s, room, id);
      }
    case DeliverUp(room) => UpBalance(s, room, id);
    case Retry(k, room) => RetryBalance(s, k, room, id);
    case LoseUp(at) => OwedWithout(WaitsComp(s.peers, id), s.up, at, id in s.peers.receiving, id);
    case LoseDown(_) =>
    case Accept(qos, k) => AcceptBalance(s.peers, s.up, qos, k, id);
    case _ => OwedEmpty(WaitsComp(s.peers, id), s.up, id in s.peers.receiving, id);
  }

  lemma {:induction false} BalanceRun(s: System, steps: seq<Step>, id: PacketId)
    requires FullLaw(s) && Balanced(s.peers, s.up, id)
    ensures FullLaw(Run(s, steps)) && Balanced(Run(s, steps).peers, Run(s, steps).up, id)
    decreases |steps|
  {
    if steps != [] {
      FlowStep(s, steps[0]);
      BalanceStep(s, steps[0], id);
      BalanceRun(Apply(s, steps[0]), steps[1..], id);
    }
  }

  // ---------------------------------------------------------------------------------------------------
  // What is missing
  // ---------------------------------------------------------------------------------------------------

  /** Of the forwarded QoS 2 messages only the head is still in flight. */
  lemma OnlyHeadForwarded(c: Peers, m: Message)
    requires ListLaw(c) && LogLaw(c) && m in c.forwarded && m.qos == ExactlyOnce
    ensures m in MessagesOf(c.flights) <==> c.flights != [] && m == c.flights[0].msg
  {
    var k :| 0 <= k < |c.forwarded| && c.forwarded[k] == m;
    assert IsPublished(c, m) && m.index <= Gone(c);
    var flying := MessagesOf(c.flights);
    assert |flying| == |c.flights|;
    forall i | 0 <= i < |flying| ensures flying[i].index == Gone(c) + i {
      assert flying[i] == c.flights[i].msg == c.published[Gone(c) + i];
    }
    assert c.flights != [] ==> flying[0] == c.flights[0].msg;
  }

  /** The forwarded messages that are no longer in flight are as many as the completed ones, or more. */
  lemma EnoughForwarded(c: Peers, down: seq<InTransit<PubPacket>>, up: seq<InTransit<AckPacket>>, id: PacketId)
    requires ListLaw(c) && LogLaw(c) && Flow(c, down, up) && Balanced(c, up, id)
    ensures |Of(c.completed, id)| <= |(set m | m in Of(c.forwarded, id) && m !in MessagesOf(c.flights))|
  {
    var heard, gone := Of(c.forwarded, id), set m | m in Of(c.forwarded, id) && m !in MessagesOf(c.flights);
    OwedStored(WaitsComp(c, id), up, id);
    forall m | m in heard ensures m in gone <==> c.flights == [] || m != c.flights[0].msg {
      OnlyHeadForwarded(c, m);
    }
    if c.flights != [] && c.flights[0].msg in heard {
      var k :| 0 <= k < |c.forwarded| && c.forwarded[k] == c.flights[0].msg;
      assert c.flights[0].msg == c.published[Gone(c)];
      assert HeadForwarded(c) && WaitsComp(c, id);
      assert gone == heard - {c.flights[0].msg};
    } else {
      assert gone == heard;
    }
  }

  lemma SetsLeftOver<T>(a: set<T>, b: set<T>, c: set<T>)
    requires |a| <= |b| && b <= c
    ensures |a - c| <= |b - a|
  {
    assert a == (a - b) + (a * b) && b == (b - a) + (a * b);
    assert a - b == (a - c) + (a - b) * c;
  }

  /** In every run, clean-session drops included: of the completed QoS 2 messages with one identifier no more are
      missing than dropped ones were forwarded. */
  lemma {:induction false} NoMoreMissingThanStrays(steps: seq<Step>, id: PacketId)
    ensures var c := Run(START, steps).peers; |Missing(c, id)| <= |Strays(c, id)|
  {
    var r := Run(START, steps);
    FlowStart();
    assert Of(START.peers.completed, id) == {} && Balanced(START.peers, START.up, id);
    BalanceRun(START, steps, id);
    MissingIsLess(r.peers, r.down, r.up, id);
  }

  lemma MissingIsLess(c: Peers, down: seq<InTransit<PubPacket>>, up: seq<InTransit<AckPacket>>, id: PacketId)
    requires ListLaw(c) && LogLaw(c) && Flow(c, down, up) && Balanced(c, up, id)
    ensures |Missing(c, id)| <= |Strays(c, id)|
  {
    var done := Of(c.completed, id);
    var gone := set m | m in Of(c.forwarded, id) && m !in MessagesOf(c.flights);
    EnoughForwarded(c, down, up, id);
    SetsLeftOver(done, gone, Of(c.forwarded, id));
    assert gone - done == Strays(c, id);
  }

  /** So a completed QoS 2 message was forwarded, or some dropped message with the same identifier was. */
  lemma {:induction false} MissingNeedsStray(steps: seq<Step>, m: Message)
    requires m in Run(START, steps).peers.completed && m.qos == ExactlyOnce
    ensures var c := Run(START, steps).peers;
            m in c.forwarded || exists d :: d in c.forwarded && d.id == m.id && d in c.published && d !in c.completed
                                            && d !in MessagesOf(c.flights)
  {
    var c := Run(START, steps).peers;
    if m !in c.forwarded {
      NoMoreMissingThanStrays(steps, m.id);
      NeverForwardedTwice(steps);
      assert m in Missing(c, m.id);
      var d :| d in Strays(c, m.id);
      var i :| 0 <= i < |c.forwarded| && c.forwarded[i] == d;
      assert IsPublished(c, d);
    }
  }
}
