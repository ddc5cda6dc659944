/** The inductive invariant of the joined QoS handshake. */
module QosInvariant {
  import opened MqttTypes
  import opened PublicationModel
  import opened SubscriptionModel
  import opened QosSystem

  // ---------------------------------------------------------------------------------------------------
  // The two ends
  // ---------------------------------------------------------------------------------------------------

  ghost predicate ListOk(c: Peers) {
    && |c.published| == |c.completed| + |c.flights|
    && (forall i :: 0 <= i < |c.published| ==> c.published[i].index == i)
    && (forall i :: 0 <= i < |c.completed| ==> c.completed[i] == c.published[i])
    && (forall i :: 0 <= i < |c.flights| ==> c.flights[i].msg == c.published[|c.completed| + i])
    && (forall i :: 1 <= i < |c.flights| ==> c.flights[i].wait == Reserved)
    && (c.flights != [] ==> c.flights[0].wait in {Reserved, AwaitedReply(c.flights[0].msg.qos), PubComp})
    && (c.flights != [] && c.flights[0].wait == PubComp ==> c.flights[0].msg.qos == ExactlyOnce)
  }

  ghost predicate HeadIs(c: Peers, qos: Qos) {
    c.flights != [] && c.flights[0].msg.qos == qos
  }

  ghost predicate HeadWaits(c: Peers, wait: WaitFor) {
    c.flights != [] && c.flights[0].wait == wait
  }

  /** The head has been forwarded. */
  ghost predicate HeadForwarded(c: Peers) {
    c.flights != [] && c.flights[0].msg in c.forwarded
  }

  /** The receiving half has seen the head. */
  ghost predicate Seen(c: Peers) {
    c.receiving != map[] || HeadForwarded(c)
  }

  /** The receiving half holds at most one message, and that is the head, not yet forwarded; a head that
      waits for PUBCOMP has been seen. */
  ghost predicate StoreOk(c: Peers) {
    && (c.receiving != map[] ==>
          && HeadIs(c, ExactlyOnce) && !HeadForwarded(c)
          && c.receiving == map[c.flights[0].msg.id := c.flights[0].msg])
    && (HeadIs(c, ExactlyOnce) && HeadForwarded(c) ==> HeadWaits(c, PubComp))
    && (HeadWaits(c, PubComp) ==> Seen(c))
  }

  /** The forwarded log is in publish order and repeats only QoS 1 messages. */
  ghost predicate LogOrdered(c: Peers) {
    && (forall i :: 0 <= i < |c.forwarded| ==>
          && c.forwarded[i].index <= HeadIndex(c)
          && c.forwarded[i].index < |c.published|
          && c.forwarded[i] == c.published[c.forwarded[i].index]
          && (c.forwarded[i].index == HeadIndex(c) ==> c.forwarded[i].qos != AtMostOnce))
    && (forall i, j :: 0 <= i < j < |c.forwarded| ==>
          && c.forwarded[i].index <= c.forwarded[j].index
          && (c.forwarded[i].index == c.forwarded[j].index ==> c.forwarded[i].qos == AtLeastOnce))
  }

  /** No completed message above QoS 0 is missing from the log. */
  ghost predicate LogComplete(c: Peers) {
    forall i :: 0 <= i < |c.completed| ==> c.completed[i].qos == AtMostOnce || c.completed[i] in c.forwarded
  }

  function OnlyExactlyOnce(msgs: seq<Message>): seq<Message> {
    if msgs == [] then
      []
    else
      OnlyExactlyOnce(msgs[..|msgs| - 1])
      + (if msgs[|msgs| - 1].qos == ExactlyOnce then [msgs[|msgs| - 1]] else [])
  }

  /** The QoS 2 messages in the log are the completed ones, possibly followed by the head. */
  ghost predicate LogExact(c: Peers) {
    OnlyExactlyOnce(c.forwarded) ==
    OnlyExactlyOnce(c.completed) + (if HeadIs(c, ExactlyOnce) && HeadForwarded(c) then [c.flights[0].msg] else [])
  }

  ghost predicate PeersOk(c: Peers) {
    ListOk(c) && StoreOk(c) && LogOrdered(c) && LogComplete(c) && LogExact(c)
  }

  // ---------------------------------------------------------------------------------------------------
  // The channels
  // ---------------------------------------------------------------------------------------------------

  /** One packet on its way to the receiving half. */
  ghost predicate DownPacketOk(c: Peers, p: InTransit<PubPacket>) {
    && p.about <= HeadIndex(c)
    && p.about < |c.published|
    && match p.packet
       case Publish(msg, _) =>
         && msg == c.published[p.about]
         && (p.about < HeadIndex(c) ==> msg.qos == AtMostOnce)
         && (p.about == HeadIndex(c) ==> c.flights != [] && c.flights[0].wait != Reserved)
         && (forall i :: 0 <= i < |c.forwarded| ==>
               && c.forwarded[i].index <= p.about
               && (c.forwarded[i].index == p.about ==> c.forwarded[i].qos == AtLeastOnce))
         && c.resent
       case Release(id) =>
         && id == c.published[p.about].id
         && c.published[p.about].qos == ExactlyOnce
         && (p.about == HeadIndex(c) ==> HeadWaits(c, PubComp))
         && (Seen(c) ==> p.about == HeadIndex(c))
  }

  /** Packets travel in publish order; each PUBLISH is in the channel once and ahead of its own PUBREL. */
  ghost predicate DownOrdered(down: seq<InTransit<PubPacket>>) {
    forall i, j :: 0 <= i < j < |down| ==>
      down[i].about <= down[j].about && (down[j].packet.Publish? ==> down[i].about < down[j].about)
  }

  /** One packet on its way back. */
  ghost predicate UpPacketOk(c: Peers, p: InTransit<AckPacket>) {
    && p.about <= HeadIndex(c)
    && p.about < |c.published|
    && match p.packet
       case Ack(id) =>
         && p.about == HeadIndex(c) && HeadWaits(c, PubAck) && HeadForwarded(c)
         && id == c.flights[0].msg.id && c.resent
       case Received(id) =>
         && p.about == HeadIndex(c) && HeadIs(c, ExactlyOnce) && Seen(c) && id == c.flights[0].msg.id
       case Complete(id) =>
         && (p.about == HeadIndex(c) ==> HeadIs(c, ExactlyOnce) && HeadForwarded(c))
         && (HeadWaits(c, PubComp) ==> p.about == HeadIndex(c))
  }

  /** Acknowledgements travel in publish order, PUBREC ahead of PUBCOMP; a PUBACK is the only one of its message. */
  ghost predicate UpOrdered(up: seq<InTransit<AckPacket>>) {
    forall i, j :: 0 <= i < j < |up| ==>
      && up[i].about <= up[j].about
      && (up[i].packet.Complete? && up[j].packet.Received? ==> up[i].about < up[j].about)
      && (up[j].packet.Ack? ==> up[i].about < up[j].about)
  }

  /** An acknowledgement never concerns a later message than a PUBREL still under way, and a message that
      has been acknowledged by PUBACK is not under way. */
  ghost predicate AcrossOk(down: seq<InTransit<PubPacket>>, up: seq<InTransit<AckPacket>>) {
    forall i, j :: 0 <= i < |up| && 0 <= j < |down| ==>
      && (down[j].packet.Release? ==> up[i].about <= down[j].about)
      && (down[j].packet.Publish? && up[i].packet.Ack? ==> down[j].about < up[i].about)
  }

  ghost predicate DownOk(c: Peers, down: seq<InTransit<PubPacket>>) {
    (forall i :: 0 <= i < |down| ==> DownPacketOk(c, down[i])) && DownOrdered(down)
  }

  ghost predicate UpOk(c: Peers, up: seq<InTransit<AckPacket>>) {
    (forall i :: 0 <= i < |up| ==> UpPacketOk(c, up[i])) && UpOrdered(up)
  }

  ghost predicate Inv(s: System) {
    && PeersOk(s.peers) && DownOk(s.peers, s.down) && UpOk(s.peers, s.up) && AcrossOk(s.down, s.up)
    && (!s.connected ==> s.down == [] && s.up == [] && !s.peers.resent)
  }

  // ---------------------------------------------------------------------------------------------------
  // Every step keeps the invariant
  // ---------------------------------------------------------------------------------------------------

  lemma {:induction false} OnlyExactlyOnceAppend(msgs: seq<Message>, msg: Message)
    ensures OnlyExactlyOnce(msgs + [msg]) == OnlyExactlyOnce(msgs) + (if msg.qos == ExactlyOnce then [msg] else [])
  {
    assert (msgs + [msg])[..|msgs|] == msgs;
  }

  // Channels: losing a packet, taking the oldest, adding one at the end.

  lemma WithoutDown(c: Peers, down: seq<InTransit<PubPacket>>, at: nat)
    requires DownOk(c, down)
    ensures DownOk(c, Without(down, at))
  {
  }

  lemma WithoutUp(c: Peers, up: seq<InTransit<AckPacket>>, at: nat)
    requires UpOk(c, up)
    ensures UpOk(c, Without(up, at))
  {
  }

  lemma WithoutAcross(down: seq<InTransit<PubPacket>>, up: seq<InTransit<AckPacket>>, at: nat)
    requires AcrossOk(down, up)
    ensures AcrossOk(Without(down, at), up) && AcrossOk(down, Without(up, at))
  {
  }

  lemma LoseKeeps(s: System, at: nat)
    requires Inv(s)
    ensures Inv(Apply(s, LoseDown(at))) && Inv(Apply(s, LoseUp(at)))
  {
    WithoutDown(s.peers, s.down, at);
    WithoutUp(s.peers, s.up, at);
    WithoutAcross(s.down, s.up, at);
  }

  // Accepting a message.

  lemma AcceptKeepsList(c: Peers, qos: Qos, id: PacketId)
    requires ListOk(c)
    ensures ListOk(AcceptMessage(c, qos, id))
  {
  }

  lemma AcceptKeepsStore(c: Peers, qos: Qos, id: PacketId)
    requires ListOk(c) && StoreOk(c) && LogOrdered(c)
    ensures StoreOk(AcceptMessage(c, qos, id)) && LogOrdered(AcceptMessage(c, qos, id))
    ensures HeadForwarded(AcceptMessage(c, qos, id)) == HeadForwarded(c)
  {
    var c' := AcceptMessage(c, qos, id);
    AcceptKeepsOrder(c, qos, id);
    if c.flights == [] && c'.flights != [] {
      assert c'.flights[0].msg.index == |c.published|;
    }
    assert HeadForwarded(c') == HeadForwarded(c);
  }

  lemma AcceptKeepsOrder(c: Peers, qos: Qos, id: PacketId)
    requires LogOrdered(c)
    ensures LogOrdered(AcceptMessage(c, qos, id))
  {
  }

  lemma AcceptKeepsPeers(c: Peers, qos: Qos, id: PacketId)
    requires PeersOk(c)
    ensures PeersOk(AcceptMessage(c, qos, id))
  {
    AcceptKeepsList(c, qos, id);
    AcceptKeepsStore(c, qos, id);
    assert LogExact(AcceptMessage(c, qos, id));
  }

  lemma AcceptKeepsDown(c: Peers, qos: Qos, id: PacketId, down: seq<InTransit<PubPacket>>)
    requires PeersOk(c) && DownOk(c, down)
    ensures DownOk(AcceptMessage(c, qos, id), down)
  {
    var c' := AcceptMessage(c, qos, id);
    forall i | 0 <= i < |down| ensures DownPacketOk(c', down[i]) {
      assert DownPacketOk(c, down[i]);
      AcceptKeepsDownPacket(c, qos, id, down[i]);
    }
  }

  lemma AcceptKeepsDownPacket(c: Peers, qos: Qos, id: PacketId, p: InTransit<PubPacket>)
    requires PeersOk(c) && DownPacketOk(c, p)
    ensures DownPacketOk(AcceptMessage(c, qos, id), p)
  {
    assert HeadForwarded(AcceptMessage(c, qos, id)) == HeadForwarded(c);
  }

  lemma AcceptKeepsUp(c: Peers, qos: Qos, id: PacketId, up: seq<InTransit<AckPacket>>)
    requires PeersOk(c) && UpOk(c, up)
    ensures UpOk(AcceptMessage(c, qos, id), up)
  {
    var c' := AcceptMessage(c, qos, id);
    assert HeadForwarded(c') == HeadForwarded(c);
    forall i | 0 <= i < |up| ensures UpPacketOk(c', up[i]) {
      assert UpPacketOk(c, up[i]);
    }
  }

  lemma AcceptKeeps(s: System, qos: Qos, id: PacketId)
    requires Inv(s)
    ensures Inv(Apply(s, Accept(qos, id)))
  {
    AcceptKeepsPeers(s.peers, qos, id);
    AcceptKeepsDown(s.peers, qos, id, s.down);
    AcceptKeepsUp(s.peers, qos, id, s.up);
  }

  // Losing and regaining the connection.

  lemma UnsentKeepsPeers(c: Peers, resent: bool)
    requires PeersOk(c)
    ensures PeersOk(c.(resent := resent))
  {
    assert HeadForwarded(c.(resent := resent)) == HeadForwarded(c);
  }

  lemma ConnectionKeeps(s: System)
    requires Inv(s)
    ensures Inv(Apply(s, Disconnect)) && Inv(Apply(s, Reconnect))
  {
    UnsentKeepsPeers(s.peers, false);
  }

  // The PUBREC retry.

  lemma RetryKeeps(s: System, id: PacketId, room: bool)
    requires Inv(s)
    ensures Inv(Apply(s, Retry(id, room)))
  {
    assert id in s.peers.receiving ==> HeadIs(s.peers, ExactlyOnce) && !HeadForwarded(s.peers);
  }

  // Completing the head.

  ghost predicate MayComplete(c: Peers) {
    c.flights != [] && c.receiving == map[] && (HeadIs(c, AtMostOnce) || HeadForwarded(c))
  }

  function Completed(c: Peers): Peers
    requires c.flights != []
  {
    c.(flights := c.flights[1..], completed := c.completed + [c.flights[0].msg])
  }

  lemma CompleteKeepsList(c: Peers)
    requires ListOk(c) && c.flights != []
    ensures ListOk(Completed(c))
  {
    var c' := Completed(c);
    forall i | 0 <= i < |c'.flights| ensures c'.flights[i].msg == c'.published[|c'.completed| + i] {
      assert c'.flights[i] == c.flights[i + 1];
    }
  }

  lemma CompleteKeepsLog(c: Peers)
    requires ListOk(c) && LogOrdered(c) && LogComplete(c) && (HeadIs(c, AtMostOnce) || HeadForwarded(c))
    ensures LogOrdered(Completed(c)) && LogComplete(Completed(c)) && !HeadForwarded(Completed(c))
  {
    if c.flights[1..] != [] {
      assert c.flights[1..][0].msg == c.published[HeadIndex(c) + 1];
    }
  }

  lemma CompleteKeepsPeers(c: Peers)
    requires PeersOk(c) && MayComplete(c)
    ensures PeersOk(Completed(c)) && !HeadForwarded(Completed(c))
  {
    CompleteKeepsList(c);
    CompleteKeepsLog(c);
    OnlyExactlyOnceAppend(c.completed, c.flights[0].msg);
    assert LogExact(Completed(c)) by {
      assert HeadIs(c, ExactlyOnce) ==> HeadForwarded(c);
    }
  }

  /** Packets of a completed head remain only where the invariant allows packets of older messages. */
  ghost predicate Outlives(c: Peers, p: InTransit<PubPacket>) {
    p.packet.Publish? && p.about == HeadIndex(c) ==> HeadIs(c, AtMostOnce)
  }

  lemma CompleteKeepsPackets(c: Peers)
    requires PeersOk(c) && MayComplete(c)
    ensures forall p :: DownPacketOk(c, p) && Outlives(c, p) ==> DownPacketOk(Completed(c), p)
    ensures forall p :: UpPacketOk(c, p) && p.packet.Complete? ==> UpPacketOk(Completed(c), p)
  {
    CompleteKeepsPeers(c);
  }

  // Changing what the head waits for.

  function Waiting(c: Peers, wait: WaitFor, dup: bool): Peers
    requires c.flights != []
  {
    c.(flights := SetHead(c.flights, InFlight(c.flights[0].msg, dup, wait)))
  }

  ghost predicate MayWait(c: Peers, wait: WaitFor) {
    && c.flights != []
    && wait in {Reserved, AwaitedReply(c.flights[0].msg.qos), PubComp}
    && (HeadIs(c, ExactlyOnce) && HeadForwarded(c) ==> wait == PubComp)
    && (wait == PubComp ==> HeadIs(c, ExactlyOnce) && Seen(c))
  }

  lemma WaitKeepsPeers(c: Peers, wait: WaitFor, dup: bool)
    requires PeersOk(c) && MayWait(c, wait)
    ensures PeersOk(Waiting(c, wait, dup))
    ensures HeadForwarded(Waiting(c, wait, dup)) == HeadForwarded(c)
  {
  }

  lemma WaitKeepsPackets(c: Peers, wait: WaitFor, dup: bool)
    requires PeersOk(c) && MayWait(c, wait)
    ensures forall p :: DownPacketOk(c, p) && (p.packet.Publish? ==> wait != Reserved)
                        && (p.packet.Release? ==> p.about < HeadIndex(c) || wait == PubComp)
              ==> DownPacketOk(Waiting(c, wait, dup), p)
    ensures forall p :: UpPacketOk(c, p) && (p.packet.Ack? ==> wait == PubAck)
                        && (wait == PubComp ==> p.about == HeadIndex(c))
              ==> UpPacketOk(Waiting(c, wait, dup), p)
  {
    WaitKeepsPeers(c, wait, dup);
  }

  lemma WaitKeepsDown(c: Peers, wait: WaitFor, dup: bool, down: seq<InTransit<PubPacket>>)
    requires PeersOk(c) && MayWait(c, wait) && DownOk(c, down)
    requires forall i :: 0 <= i < |down| ==>
               && (down[i].packet.Publish? ==> wait != Reserved)
               && (down[i].packet.Release? ==> down[i].about < HeadIndex(c) || wait == PubComp)
    ensures DownOk(Waiting(c, wait, dup), down)
  {
    WaitKeepsPackets(c, wait, dup);
  }

  lemma WaitKeepsUp(c: Peers, wait: WaitFor, dup: bool, up: seq<InTransit<AckPacket>>)
    requires PeersOk(c) && MayWait(c, wait) && UpOk(c, up)
    requires forall i :: 0 <= i < |up| ==>
               (up[i].packet.Ack? ==> wait == PubAck) && (wait == PubComp ==> up[i].about == HeadIndex(c))
    ensures UpOk(Waiting(c, wait, dup), up)
  {
    WaitKeepsPackets(c, wait, dup);
  }

  // Adding a packet at the end of a channel.

  lemma AppendDown(c: Peers, down: seq<InTransit<PubPacket>>, p: InTransit<PubPacket>)
    requires DownOk(c, down) && DownPacketOk(c, p)
    requires forall i :: 0 <= i < |down| ==>
               down[i].about <= p.about && (p.packet.Publish? ==> down[i].about < p.about)
    ensures DownOk(c, down + [p])
  {
  }

  lemma AppendUp(c: Peers, up: seq<InTransit<AckPacket>>, p: InTransit<AckPacket>)
    requires UpOk(c, up) && UpPacketOk(c, p)
    requires forall i :: 0 <= i < |up| ==>
               && up[i].about <= p.about
               && (up[i].packet.Complete? && p.packet.Received? ==> up[i].about < p.about)
               && (p.packet.Ack? ==> up[i].about < p.about)
    ensures UpOk(c, up + [p])
  {
  }

  // publish_next.

  lemma FireAndForgetIs(s: System)
    requires HeadIs(s.peers, AtMostOnce)
    ensures TakeTurn(s, PublishNext(s.peers.flights, true, false))
         == s.(peers := Completed(s.peers),
               down := s.down + [InTransit(Packet(s.peers.flights[0]), HeadIndex(s.peers))])
  {
  }

  /** Before the head is sent, no packet of it is under way. */
  lemma NothingOfHead(c: Peers, down: seq<InTransit<PubPacket>>, up: seq<InTransit<AckPacket>>)
    requires ListOk(c) && StoreOk(c) && HeadWaits(c, Reserved)
    ensures forall p :: DownPacketOk(c, p) ==> p.about < HeadIndex(c)
    ensures forall p :: UpPacketOk(c, p) ==> !p.packet.Ack?
    ensures HeadIs(c, AtMostOnce) ==> forall p :: UpPacketOk(c, p) ==> p.packet.Complete?
  {
  }

  /** A PUBLISH is added while no PUBACK is under way. */
  lemma AppendAcross(down: seq<InTransit<PubPacket>>, up: seq<InTransit<AckPacket>>, p: InTransit<PubPacket>)
    requires AcrossOk(down, up) && p.packet.Publish? && forall i :: 0 <= i < |up| ==> !up[i].packet.Ack?
    ensures AcrossOk(down + [p], up)
  {
  }

  lemma CompleteKeepsDown(c: Peers, down: seq<InTransit<PubPacket>>)
    requires PeersOk(c) && MayComplete(c) && DownOk(c, down) && forall i :: 0 <= i < |down| ==> Outlives(c, down[i])
    ensures DownOk(Completed(c), down)
  {
    CompleteKeepsPackets(c);
  }

  lemma CompleteKeepsUp(c: Peers, up: seq<InTransit<AckPacket>>)
    requires PeersOk(c) && MayComplete(c) && UpOk(c, up) && forall i :: 0 <= i < |up| ==> up[i].packet.Complete?
    ensures UpOk(Completed(c), up)
  {
    CompleteKeepsPackets(c);
  }

  /** A QoS 0 message is the newest in the channel when it is sent. */
  lemma FireAndForgetDown(c: Peers, down: seq<InTransit<PubPacket>>)
    requires PeersOk(c) && DownOk(c, down) && c.resent && HeadIs(c, AtMostOnce) && HeadWaits(c, Reserved)
    ensures DownOk(Completed(c), down + [InTransit(Packet(c.flights[0]), HeadIndex(c))])
  {
    var p := InTransit(Packet(c.flights[0]), HeadIndex(c));
    NothingOfHead(c, down, []);
    CompleteKeepsDown(c, down);
    FireAndForgetPacket(c);
    AppendDown(Completed(c), down, p);
  }

  lemma FireAndForgetPacket(c: Peers)
    requires ListOk(c) && LogOrdered(c) && c.resent && HeadIs(c, AtMostOnce)
    ensures DownPacketOk(Completed(c), InTransit(Packet(c.flights[0]), HeadIndex(c)))
  {
  }

  lemma FireAndForgetKeeps(s: System)
    requires Inv(s) && s.connected && s.peers.resent && HeadIs(s.peers, AtMostOnce)
    ensures Inv(TakeTurn(s, PublishNext(s.peers.flights, true, false)))
  {
    FireAndForgetIs(s);
    NothingOfHead(s.peers, s.down, s.up);
    CompleteKeepsPeers(s.peers);
    FireAndForgetDown(s.peers, s.down);
    CompleteKeepsUp(s.peers, s.up);
    AppendAcross(s.down, s.up, InTransit(Packet(s.peers.flights[0]), HeadIndex(s.peers)));
  }

  lemma SendHeadIs(s: System)
    requires HeadWaits(s.peers, Reserved) && !HeadIs(s.peers, AtMostOnce)
    ensures var head := s.peers.flights[0];
            TakeTurn(s, PublishNext(s.peers.flights, true, false))
            == s.(peers := Waiting(s.peers, AwaitedReply(head.msg.qos), head.dup),
                  down := s.down + [InTransit(Packet(head), HeadIndex(s.peers))])
  {
  }

  lemma SendHeadPacket(c: Peers)
    requires ListOk(c) && StoreOk(c) && LogOrdered(c) && c.resent
    requires HeadWaits(c, Reserved) && !HeadIs(c, AtMostOnce)
    ensures DownPacketOk(Waiting(c, AwaitedReply(c.flights[0].msg.qos), c.flights[0].dup),
                         InTransit(Packet(c.flights[0]), HeadIndex(c)))
  {
  }

  lemma SendHeadDown(c: Peers, down: seq<InTransit<PubPacket>>)
    requires PeersOk(c) && DownOk(c, down) && c.resent && HeadWaits(c, Reserved) && !HeadIs(c, AtMostOnce)
    ensures DownOk(Waiting(c, AwaitedReply(c.flights[0].msg.qos), c.flights[0].dup),
                   down + [InTransit(Packet(c.flights[0]), HeadIndex(c))])
  {
    var wait, dup := AwaitedReply(c.flights[0].msg.qos), c.flights[0].dup;
    NothingOfHead(c, down, []);
    WaitKeepsDown(c, wait, dup, down);
    SendHeadPacket(c);
    AppendDown(Waiting(c, wait, dup), down, InTransit(Packet(c.flights[0]), HeadIndex(c)));
  }

  lemma SendHeadKeeps(s: System)
    requires Inv(s) && s.connected && s.peers.resent && HeadWaits(s.peers, Reserved) && !HeadIs(s.peers, AtMostOnce)
    ensures Inv(TakeTurn(s, PublishNext(s.peers.flights, true, false)))
  {
    var c := s.peers;
    var wait, dup := AwaitedReply(c.flights[0].msg.qos), c.flights[0].dup;
    SendHeadIs(s);
    NothingOfHead(c, s.down, s.up);
    WaitKeepsPeers(c, wait, dup);
    SendHeadDown(c, s.down);
    WaitKeepsUp(c, wait, dup, s.up);
    AppendAcross(s.down, s.up, InTransit(Packet(c.flights[0]), HeadIndex(c)));
  }

  lemma NextKeeps(s: System, room: bool, late: bool, clean: bool)
    requires Inv(s) && s.connected && s.peers.resent
    ensures Inv(DoTick(s, room, late, clean))
  {
    if s.peers.flights != [] && room && HeadIs(s.peers, AtMostOnce) {
      FireAndForgetKeeps(s);
    } else if s.peers.flights != [] && room && HeadWaits(s.peers, Reserved) {
      SendHeadKeeps(s);
    } else {
      assert DoTick(s, room, late, clean) == s;
    }
  }

  // The first tick of a connection.

  lemma MarkResentDown(c: Peers, down: seq<InTransit<PubPacket>>)
    requires DownOk(c, down) && !c.resent
    ensures DownOk(c.(resent := true), down) && forall i :: 0 <= i < |down| ==> down[i].packet.Release?
  {
    assert Seen(c.(resent := true)) == Seen(c);
    forall i | 0 <= i < |down| ensures DownPacketOk(c.(resent := true), down[i]) && down[i].packet.Release? {
      assert DownPacketOk(c, down[i]);
    }
  }

  lemma MarkResentUp(c: Peers, up: seq<InTransit<AckPacket>>)
    requires UpOk(c, up) && !c.resent
    ensures UpOk(c.(resent := true), up) && forall i :: 0 <= i < |up| ==> !up[i].packet.Ack?
  {
    assert Seen(c.(resent := true)) == Seen(c);
    assert HeadForwarded(c.(resent := true)) == HeadForwarded(c);
    forall i | 0 <= i < |up| ensures UpPacketOk(c.(resent := true), up[i]) && !up[i].packet.Ack? {
      assert UpPacketOk(c, up[i]);
    }
  }

  lemma MarkResentKeeps(s: System)
    requires Inv(s) && s.connected && !s.peers.resent
    ensures Inv(s.(peers := s.peers.(resent := true)))
    ensures forall i :: 0 <= i < |s.down| ==> s.down[i].packet.Release?
    ensures forall i :: 0 <= i < |s.up| ==> !s.up[i].packet.Ack?
  {
    UnsentKeepsPeers(s.peers, true);
    MarkResentDown(s.peers, s.down);
    MarkResentUp(s.peers, s.up);
  }

  lemma ResetHeadKeeps(s: System, dup: bool)
    requires Inv(s) && s.connected && s.peers.flights != [] && !HeadWaits(s.peers, PubComp)
    requires forall i :: 0 <= i < |s.down| ==> s.down[i].packet.Release?
    requires forall i :: 0 <= i < |s.up| ==> !s.up[i].packet.Ack?
    ensures Inv(s.(peers := Waiting(s.peers, Reserved, dup)))
  {
    WaitKeepsPeers(s.peers, Reserved, dup);
    WaitKeepsPackets(s.peers, Reserved, dup);
  }

  lemma SendReleaseKeeps(s: System)
    requires Inv(s) && s.connected && HeadWaits(s.peers, PubComp)
    ensures Inv(s.(down := s.down + [InTransit(Release(s.peers.flights[0].msg.id), HeadIndex(s.peers))]))
  {
    var p := InTransit(Release(s.peers.flights[0].msg.id), HeadIndex(s.peers));
    AppendDown(s.peers, s.down, p);
  }

  lemma ResendIs(s: System, room: bool, late: bool, clean: bool)
    requires s.connected && !s.peers.resent && !CleanSessionDrops(s.peers.flights, clean)
    ensures var m, c := s.(peers := s.peers.(resent := true)), s.peers;
            DoTick(s, room, late, clean)
            == if c.flights == [] || clean then m
               else if HeadWaits(c, PubComp) then
                 m.(down := if room then s.down + [InTransit(Release(c.flights[0].msg.id), HeadIndex(c))] else s.down)
               else
                 m.(peers := Waiting(m.peers, Reserved, c.flights[0].dup || c.flights[0].wait != PubRec))
  {
    var m, turn := s.(peers := s.peers.(resent := true)), Resend(s.peers.flights, clean, room);
    if turn.sent == [] {
      assert m.down + Tagged(turn.sent, HeadIndex(m.peers)) == m.down;
    } else {
      assert Tagged(turn.sent, HeadIndex(m.peers)) == [InTransit(turn.sent[0], HeadIndex(m.peers))];
    }
  }

  lemma ResendKeeps(s: System, room: bool, late: bool, clean: bool)
    requires Inv(s) && s.connected && !s.peers.resent && !CleanSessionDrops(s.peers.flights, clean)
    ensures Inv(DoTick(s, room, late, clean))
  {
    var c, m := s.peers, s.(peers := s.peers.(resent := true));
    ResendIs(s, room, late, clean);
    MarkResentKeeps(s);
    if c.flights != [] && !clean {
      if HeadWaits(c, PubComp) {
        SendReleaseKeeps(m);
      } else {
        ResetHeadKeeps(m, c.flights[0].dup || c.flights[0].wait != PubRec);
      }
    }
  }

  // The receiving half handles a packet.

  lemma TakeOldestDown(s: System)
    requires Inv(s) && s.down != []
    ensures Inv(s.(down := s.down[1..]))
  {
    WithoutDown(s.peers, s.down, 0);
    WithoutAcross(s.down, s.up, 0);
    assert Without(s.down, 0) == s.down[1..];
  }

  lemma TakeOldestUp(s: System)
    requires Inv(s) && s.up != []
    ensures Inv(s.(up := s.up[1..]))
  {
    WithoutUp(s.peers, s.up, 0);
    WithoutAcross(s.down, s.up, 0);
    assert Without(s.up, 0) == s.up[1..];
  }

  lemma ReplyKeeps(s: System, p: InTransit<AckPacket>)
    requires Inv(s) && s.connected && UpPacketOk(s.peers, p)
    requires forall i :: 0 <= i < |s.up| ==>
               && s.up[i].about <= p.about
               && (s.up[i].packet.Complete? && p.packet.Received? ==> s.up[i].about < p.about)
               && (p.packet.Ack? ==> s.up[i].about < p.about)
    requires forall j :: 0 <= j < |s.down| ==>
               && (s.down[j].packet.Release? ==> p.about <= s.down[j].about)
               && (s.down[j].packet.Publish? && p.packet.Ack? ==> s.down[j].about < p.about)
    ensures Inv(s.(up := s.up + [p]))
  {
    AppendUp(s.peers, s.up, p);
  }

  /** Forwarding a message that no packet still under way precedes. */
  ghost predicate MayForward(c: Peers, msg: Message) {
    && msg.index < |c.published| && msg == c.published[msg.index] && msg.index <= HeadIndex(c)
    && (msg.index == HeadIndex(c) ==>
          msg.qos != AtMostOnce && HeadWaits(c, if msg.qos == AtLeastOnce then PubAck else PubComp))
    && (msg.index < HeadIndex(c) ==> msg.qos == AtMostOnce)
    && (forall i :: 0 <= i < |c.forwarded| ==>
          && c.forwarded[i].index <= msg.index
          && (c.forwarded[i].index == msg.index ==> msg.qos == AtLeastOnce))
    && (msg.qos == ExactlyOnce ==> c.receiving != map[])
  }

  function Forwarded(c: Peers, msg: Message): Peers {
    c.(forwarded := c.forwarded + [msg], receiving := if msg.qos == ExactlyOnce then map[] else c.receiving)
  }

  lemma ForwardedHead(c: Peers, msg: Message)
    requires ListOk(c) && MayForward(c, msg)
    ensures HeadForwarded(Forwarded(c, msg)) == (HeadForwarded(c) || msg.index == HeadIndex(c))
    ensures msg.qos == ExactlyOnce ==> msg.index == HeadIndex(c) && c.flights[0].msg == msg && !HeadForwarded(c)
  {
    assert c.flights != [] ==> c.flights[0].msg.index == HeadIndex(c);
  }

  lemma ForwardKeepsLog(c: Peers, msg: Message)
    requires LogOrdered(c) && MayForward(c, msg)
    ensures LogOrdered(Forwarded(c, msg))
  {
  }

  lemma ForwardKeepsStore(c: Peers, msg: Message)
    requires ListOk(c) && StoreOk(c) && MayForward(c, msg)
    ensures ListOk(Forwarded(c, msg)) && StoreOk(Forwarded(c, msg))
  {
    ForwardedHead(c, msg);
  }

  lemma ForwardKeepsExact(c: Peers, msg: Message)
    requires ListOk(c) && LogExact(c) && MayForward(c, msg)
    ensures LogExact(Forwarded(c, msg))
  {
    ForwardedHead(c, msg);
    OnlyExactlyOnceAppend(c.forwarded, msg);
  }

  lemma ForwardKeepsComplete(c: Peers, msg: Message)
    requires LogComplete(c)
    ensures LogComplete(Forwarded(c, msg))
  {
  }

  lemma ForwardKeepsPeers(c: Peers, msg: Message)
    requires PeersOk(c) && MayForward(c, msg)
    ensures PeersOk(Forwarded(c, msg))
  {
    ForwardKeepsStore(c, msg);
    ForwardKeepsLog(c, msg);
    ForwardKeepsComplete(c, msg);
    ForwardKeepsExact(c, msg);
  }

  lemma ForwardKeepsDown(c: Peers, msg: Message, down: seq<InTransit<PubPacket>>)
    requires PeersOk(c) && MayForward(c, msg) && DownOk(c, down)
    requires forall i :: 0 <= i < |down| ==>
               if down[i].packet.Publish? then down[i].about > msg.index else down[i].about >= msg.index
    ensures DownOk(Forwarded(c, msg), down)
  {
    ForwardedHead(c, msg);
    forall i | 0 <= i < |down| ensures DownPacketOk(Forwarded(c, msg), down[i]) {
      assert DownPacketOk(c, down[i]);
    }
  }

  lemma ForwardKeepsUp(c: Peers, msg: Message, up: seq<InTransit<AckPacket>>)
    requires PeersOk(c) && MayForward(c, msg) && UpOk(c, up)
    ensures UpOk(Forwarded(c, msg), up)
  {
    ForwardedHead(c, msg);
    forall i | 0 <= i < |up| ensures UpPacketOk(Forwarded(c, msg), up[i]) {
      assert UpPacketOk(c, up[i]);
    }
  }

  lemma ForwardKeeps(s: System, msg: Message)
    requires Inv(s) && MayForward(s.peers, msg)
    requires forall i :: 0 <= i < |s.down| ==>
               if s.down[i].packet.Publish? then s.down[i].about > msg.index else s.down[i].about >= msg.index
    ensures Inv(s.(peers := Forwarded(s.peers, msg)))
  {
    ForwardKeepsPeers(s.peers, msg);
    ForwardKeepsDown(s.peers, msg, s.down);
    ForwardKeepsUp(s.peers, msg, s.up);
  }

  /** The oldest packet concerns the oldest message among those in the channel. */
  lemma PublishIsOldest(s: System)
    requires Inv(s) && s.down != [] && s.down[0].packet.Publish?
    ensures forall i :: 1 <= i < |s.down| ==>
              && s.down[i].about >= s.down[0].about
              && (s.down[i].packet.Publish? ==> s.down[i].about > s.down[0].about)
    ensures s.connected
  {
  }

  lemma PublishMayBeForwarded(s: System)
    requires Inv(s) && s.down != [] && s.down[0].packet.Publish? && s.down[0].packet.msg.qos != ExactlyOnce
    ensures MayForward(s.peers, s.down[0].packet.msg)
  {
  }

  lemma ForwardOldestKeeps(s: System)
    requires Inv(s) && s.down != [] && s.down[0].packet.Publish? && s.down[0].packet.msg.qos != ExactlyOnce
    ensures Inv(s.(down := s.down[1..], peers := Forwarded(s.peers, s.down[0].packet.msg)))
  {
    PublishIsOldest(s);
    PublishMayBeForwarded(s);
    TakeOldestDown(s);
    ForwardKeeps(s.(down := s.down[1..]), s.down[0].packet.msg);
  }

  /** The PUBACK of the oldest packet. */
  lemma AckMayFollow(s: System)
    requires Inv(s) && s.down != [] && s.down[0].packet.Publish? && HeadIs(s.peers, AtLeastOnce)
    requires s.down[0].packet.msg == s.peers.flights[0].msg
    ensures UpPacketOk(Forwarded(s.peers, s.peers.flights[0].msg),
                       InTransit(Ack(s.peers.flights[0].msg.id), HeadIndex(s.peers)))
    ensures forall i :: 0 <= i < |s.up| ==> s.up[i].about < HeadIndex(s.peers)
    ensures forall j :: 1 <= j < |s.down| ==> s.down[j].packet.Release? && HeadIndex(s.peers) <= s.down[j].about
  {
    PublishIsOldest(s);
    ForwardedHead(s.peers, s.down[0].packet.msg);
  }

  lemma LowQosIs(s: System, room: bool)
    requires s.down != [] && s.down[0].packet.Publish? && s.down[0].packet.msg.qos != ExactlyOnce
    ensures var msg := s.down[0].packet.msg;
            DoDeliverDown(s, room)
            == s.(down := s.down[1..], peers := Forwarded(s.peers, msg),
                  up := if msg.qos == AtLeastOnce && room then s.up + [InTransit(Ack(msg.id), s.down[0].about)]
                        else s.up)
  {
  }

  lemma DeliverLowQosKeeps(s: System, room: bool)
    requires Inv(s) && s.down != [] && s.down[0].packet.Publish? && s.down[0].packet.msg.qos != ExactlyOnce
    ensures Inv(DoDeliverDown(s, room))
  {
    LowQosIs(s, room);
    ForwardOldestKeeps(s);
    if s.down[0].packet.msg.qos == AtLeastOnce && room {
      AckKeeps(s);
    }
  }

  lemma AckKeeps(s: System)
    requires Inv(s) && s.down != [] && s.down[0].packet.Publish? && s.down[0].packet.msg.qos == AtLeastOnce
    ensures var msg := s.down[0].packet.msg;
            Inv(s.(down := s.down[1..], peers := Forwarded(s.peers, msg),
                   up := s.up + [InTransit(Ack(msg.id), s.down[0].about)]))
  {
    ForwardOldestKeeps(s);
    OldestIsHead(s);
    AckMayFollow(s);
    PublishIsOldest(s);
    ReplyKeeps(s.(down := s.down[1..], peers := Forwarded(s.peers, s.down[0].packet.msg)),
               InTransit(Ack(s.down[0].packet.msg.id), s.down[0].about));
  }

  /** A PUBLISH above QoS 0 is the head's. */
  lemma OldestIsHead(s: System)
    requires Inv(s) && s.down != [] && s.down[0].packet.Publish? && s.down[0].packet.msg.qos != AtMostOnce
    ensures s.peers.flights != [] && s.down[0].packet.msg == s.peers.flights[0].msg
    ensures s.down[0].about == HeadIndex(s.peers) == s.down[0].packet.msg.index
  {
    assert DownPacketOk(s.peers, s.down[0]);
  }

  function Stored(c: Peers, msg: Message): Peers {
    c.(receiving := map[msg.id := msg])
  }

  lemma StoredIsSeen(c: Peers, msg: Message)
    ensures Seen(Stored(c, msg))
  {
    assert msg.id in Stored(c, msg).receiving;
  }

  lemma StoreKeepsPeers(c: Peers)
    requires PeersOk(c) && HeadIs(c, ExactlyOnce) && !HeadForwarded(c)
    ensures PeersOk(Stored(c, c.flights[0].msg))
  {
    assert HeadForwarded(Stored(c, c.flights[0].msg)) == HeadForwarded(c);
  }

  lemma StoreKeepsDown(c: Peers, down: seq<InTransit<PubPacket>>)
    requires ListOk(c) && DownOk(c, down) && HeadIs(c, ExactlyOnce)
    requires forall i :: 0 <= i < |down| ==> down[i].about >= HeadIndex(c)
    ensures DownOk(Stored(c, c.flights[0].msg), down)
  {
    forall i | 0 <= i < |down| ensures DownPacketOk(Stored(c, c.flights[0].msg), down[i]) {
      assert DownPacketOk(c, down[i]);
    }
  }

  lemma StoreKeepsUp(c: Peers, up: seq<InTransit<AckPacket>>)
    requires UpOk(c, up) && HeadIs(c, ExactlyOnce)
    ensures UpOk(Stored(c, c.flights[0].msg), up)
  {
    StoredIsSeen(c, c.flights[0].msg);
    assert HeadForwarded(Stored(c, c.flights[0].msg)) == HeadForwarded(c);
    forall i | 0 <= i < |up| ensures UpPacketOk(Stored(c, c.flights[0].msg), up[i]) {
      assert UpPacketOk(c, up[i]);
    }
  }

  lemma StoreKeeps(s: System)
    requires Inv(s) && HeadIs(s.peers, ExactlyOnce) && !HeadForwarded(s.peers)
    requires forall i :: 0 <= i < |s.down| ==> s.down[i].about >= HeadIndex(s.peers)
    ensures Inv(s.(peers := Stored(s.peers, s.peers.flights[0].msg)))
  {
    StoreKeepsPeers(s.peers);
    StoreKeepsDown(s.peers, s.down);
    StoreKeepsUp(s.peers, s.up);
  }

  lemma StoreOldestKeeps(s: System)
    requires Inv(s) && s.down != [] && s.down[0].packet.Publish? && s.down[0].packet.msg.qos == ExactlyOnce
    ensures HeadIs(s.peers, ExactlyOnce) && !HeadForwarded(s.peers)
    ensures Inv(s.(down := s.down[1..], peers := Stored(s.peers, s.down[0].packet.msg)))
  {
    OldestIsHead(s);
    assert DownPacketOk(s.peers, s.down[0]);
    PublishIsOldest(s);
    TakeOldestDown(s);
    StoreKeeps(s.(down := s.down[1..]));
  }

  lemma StoredIsReaction(c: Peers, room: bool)
    requires PeersOk(c) && HeadIs(c, ExactlyOnce)
    ensures AfterReaction(c, OnPublish(c.receiving, c.flights[0].msg, room)) == Stored(c, c.flights[0].msg)
  {
  }

  lemma HighQosIs(s: System, room: bool)
    requires PeersOk(s.peers) && HeadIs(s.peers, ExactlyOnce)
    requires s.down != [] && s.down[0].packet.Publish? && s.down[0].packet.msg == s.peers.flights[0].msg
    ensures var msg := s.down[0].packet.msg;
            DoDeliverDown(s, room)
            == s.(down := s.down[1..], peers := Stored(s.peers, msg),
                  up := if room then s.up + [InTransit(Received(msg.id), s.down[0].about)] else s.up)
  {
    StoredIsReaction(s.peers, room);
  }

  /** No PUBCOMP of the head is under way before it is forwarded. */
  lemma NoCompletionYet(c: Peers, up: seq<InTransit<AckPacket>>)
    requires UpOk(c, up) && !HeadForwarded(c)
    ensures forall i :: 0 <= i < |up| ==>
              up[i].about <= HeadIndex(c) && (up[i].packet.Complete? ==> up[i].about < HeadIndex(c))
  {
    forall i | 0 <= i < |up|
      ensures up[i].about <= HeadIndex(c) && (up[i].packet.Complete? ==> up[i].about < HeadIndex(c))
    {
      assert UpPacketOk(c, up[i]);
    }
  }

  lemma RecordKeeps(s: System)
    requires Inv(s) && s.down != [] && s.down[0].packet.Publish? && s.down[0].packet.msg.qos == ExactlyOnce
    ensures var msg := s.down[0].packet.msg;
            Inv(s.(down := s.down[1..], peers := Stored(s.peers, msg),
                   up := s.up + [InTransit(Received(msg.id), s.down[0].about)]))
  {
    var msg := s.down[0].packet.msg;
    OldestIsHead(s);
    PublishIsOldest(s);
    StoreOldestKeeps(s);
    NoCompletionYet(s.peers, s.up);
    StoredIsSeen(s.peers, msg);
    ReplyKeeps(s.(down := s.down[1..], peers := Stored(s.peers, msg)), InTransit(Received(msg.id), s.down[0].about));
  }

  lemma DeliverHighQosKeeps(s: System, room: bool)
    requires Inv(s) && s.down != [] && s.down[0].packet.Publish? && s.down[0].packet.msg.qos == ExactlyOnce
    ensures Inv(DoDeliverDown(s, room))
  {
    OldestIsHead(s);
    HighQosIs(s, room);
    if room {
      RecordKeeps(s);
    } else {
      StoreOldestKeeps(s);
    }
  }

  lemma ReleaseStoredKeeps(s: System)
    requires Inv(s) && s.down != [] && s.down[0].packet.Release? && s.down[0].packet.id in s.peers.receiving
    ensures s.down[0].about == HeadIndex(s.peers) && s.peers.flights != []
    ensures Inv(s.(down := s.down[1..], peers := Forwarded(s.peers, s.peers.flights[0].msg)))
  {
    TakeOldestDown(s);
    ForwardKeeps(s.(down := s.down[1..]), s.peers.flights[0].msg);
  }

  /** The receiving half once it has handled a PUBREL. */
  function Unstored(c: Peers, id: PacketId): Peers {
    if id in c.receiving && c.flights != [] then Forwarded(c, c.flights[0].msg) else c
  }

  lemma ReleaseKeeps(s: System)
    requires Inv(s) && s.down != [] && s.down[0].packet.Release?
    ensures Inv(s.(down := s.down[1..], peers := Unstored(s.peers, s.down[0].packet.id)))
  {
    if s.down[0].packet.id in s.peers.receiving {
      ReleaseStoredKeeps(s);
    } else {
      TakeOldestDown(s);
    }
  }

  lemma UnstoredIsReaction(c: Peers, id: PacketId, room: bool)
    requires PeersOk(c)
    ensures AfterReaction(c, OnRelease(c.receiving, id, room)) == Unstored(c, id)
  {
    if id in c.receiving {
      assert c.receiving - {id} == map[];
    } else {
      assert c.receiving - {id} == c.receiving;
    }
  }

  /** The PUBCOMP of the oldest packet. */
  lemma CompleteMayFollow(s: System)
    requires Inv(s) && s.down != [] && s.down[0].packet.Release?
    ensures var p := InTransit(Complete(s.down[0].packet.id), s.down[0].about);
            UpPacketOk(Unstored(s.peers, s.down[0].packet.id), p)
  {
    assert DownPacketOk(s.peers, s.down[0]);
  }

  lemma ReleaseIsOldest(s: System)
    requires Inv(s) && s.down != [] && s.down[0].packet.Release?
    ensures forall i :: 0 <= i < |s.up| ==> s.up[i].about <= s.down[0].about
    ensures forall j :: 1 <= j < |s.down| ==> s.down[0].about <= s.down[j].about
    ensures s.connected
  {
  }

  lemma ReleaseReplyKeeps(s: System, c: Peers, p: InTransit<AckPacket>)
    requires Inv(s) && s.down != [] && s.down[0].packet.Release? && p.packet.Complete? && p.about == s.down[0].about
    requires Inv(s.(down := s.down[1..], peers := c)) && UpPacketOk(c, p)
    ensures Inv(s.(down := s.down[1..], peers := c, up := s.up + [p]))
  {
    ReleaseIsOldest(s);
    ReplyKeeps(s.(down := s.down[1..], peers := c), p);
  }

  lemma ReleaseIs(s: System, room: bool)
    requires PeersOk(s.peers) && s.down != [] && s.down[0].packet.Release?
    ensures var id := s.down[0].packet.id;
            DoDeliverDown(s, room)
            == s.(down := s.down[1..], peers := Unstored(s.peers, id),
                  up := if room then s.up + [InTransit(Complete(id), s.down[0].about)] else s.up)
  {
    UnstoredIsReaction(s.peers, s.down[0].packet.id, room);
  }

  lemma DeliverReleaseKeeps(s: System, room: bool)
    requires Inv(s) && s.down != [] && s.down[0].packet.Release?
    ensures Inv(DoDeliverDown(s, room))
  {
    var id := s.down[0].packet.id;
    ReleaseIs(s, room);
    ReleaseKeeps(s);
    if room {
      CompleteMayFollow(s);
      ReleaseReplyKeeps(s, Unstored(s.peers, id), InTransit(Complete(id), s.down[0].about));
    }
  }

  // The sending half handles an acknowledgement.

  lemma CompleteHeadKeeps(s: System)
    requires Inv(s) && MayComplete(s.peers)
    requires forall i :: 0 <= i < |s.down| ==> Outlives(s.peers, s.down[i])
    requires forall i :: 0 <= i < |s.up| ==> s.up[i].packet.Complete?
    ensures Inv(s.(peers := Completed(s.peers)))
  {
    CompleteKeepsPeers(s.peers);
    CompleteKeepsDown(s.peers, s.down);
    CompleteKeepsUp(s.peers, s.up);
  }

  lemma AckIs(s: System, room: bool)
    requires s.up != [] && s.up[0].packet.Ack?
    ensures var c := s.peers;
            DoDeliverUp(s, room)
            == s.(up := s.up[1..],
                  peers := if c.flights != [] && c.flights[0].msg.id == s.up[0].packet.id then Completed(c) else c)
  {
    TurnIs(s.(up := s.up[1..]), OnPubAck(s.peers.flights, s.up[0].packet.id));
  }

  /** A turn without a packet. */
  lemma TurnIs(s: System, turn: Turn)
    requires turn.sent == []
    ensures turn.flights == s.peers.flights ==> TakeTurn(s, turn) == s
    ensures s.peers.flights != [] && turn.flights == s.peers.flights[1..] ==>
              TakeTurn(s, turn) == s.(peers := Completed(s.peers))
  {
    assert s.down + Tagged(turn.sent, HeadIndex(s.peers)) == s.down;
  }

  lemma DeliverAckKeeps(s: System, room: bool)
    requires Inv(s) && s.up != [] && s.up[0].packet.Ack?
    ensures Inv(DoDeliverUp(s, room))
  {
    AckIs(s, room);
    TakeOldestUp(s);
    assert UpPacketOk(s.peers, s.up[0]);
    CompleteHeadKeeps(s.(up := s.up[1..]));
  }

  lemma ReceivedKeepsHead(s: System)
    requires Inv(s) && s.up != [] && s.up[0].packet.Received? && HeadWaits(s.peers, PubRec)
    ensures Inv(s.(up := s.up[1..], peers := Waiting(s.peers, PubComp, s.peers.flights[0].dup)))
  {
    var c := s.peers;
    TakeOldestUp(s);
    WaitKeepsPeers(c, PubComp, c.flights[0].dup);
    WaitKeepsPackets(c, PubComp, c.flights[0].dup);
    assert forall i :: 1 <= i < |s.up| ==> s.up[i].about == HeadIndex(c);
  }

  lemma ReceivedIs(s: System, room: bool)
    requires s.up != [] && s.up[0].packet.Received?
    ensures var c := s.peers;
            DoDeliverUp(s, room)
            == if HeadWaits(c, PubRec) && c.flights[0].msg.id == s.up[0].packet.id && room then
                 s.(up := s.up[1..], peers := Waiting(c, PubComp, c.flights[0].dup),
                    down := s.down + [InTransit(Release(c.flights[0].msg.id), HeadIndex(c))])
               else s.(up := s.up[1..])
  {
    var c, turn := s.peers, OnPubRec(s.peers.flights, s.up[0].packet.id, room);
    if turn.sent == [] {
      TurnIs(s.(up := s.up[1..]), turn);
    }
  }

  lemma DeliverReceivedKeeps(s: System, room: bool)
    requires Inv(s) && s.up != [] && s.up[0].packet.Received?
    ensures Inv(DoDeliverUp(s, room))
  {
    var c := s.peers;
    ReceivedIs(s, room);
    if HeadWaits(c, PubRec) && c.flights[0].msg.id == s.up[0].packet.id && room {
      ReceivedKeepsHead(s);
      SendReleaseKeeps(s.(up := s.up[1..], peers := Waiting(c, PubComp, c.flights[0].dup)));
    } else {
      TakeOldestUp(s);
    }
  }

  lemma CompleteIs(s: System, room: bool)
    requires s.up != [] && s.up[0].packet.Complete?
    ensures var c := s.peers;
            DoDeliverUp(s, room)
            == s.(up := s.up[1..],
                  peers := if HeadWaits(c, PubComp) && c.flights[0].msg.id == s.up[0].packet.id then Completed(c)
                           else c)
  {
    TurnIs(s.(up := s.up[1..]), OnPubComp(s.peers.flights, s.up[0].packet.id));
  }

  /** After a PUBCOMP for the head only PUBCOMP packets follow, and nothing else of the head is under way. */
  lemma CompletionIsLast(s: System)
    requires Inv(s) && s.up != [] && s.up[0].packet.Complete? && HeadWaits(s.peers, PubComp)
    ensures MayComplete(s.peers)
    ensures forall i :: 0 <= i < |s.down| ==> Outlives(s.peers, s.down[i])
    ensures forall i :: 1 <= i < |s.up| ==> s.up[i].packet.Complete?
  {
    var c := s.peers;
    assert UpPacketOk(c, s.up[0]);
    forall i | 0 <= i < |s.down| ensures Outlives(c, s.down[i]) {
      assert DownPacketOk(c, s.down[i]);
    }
    forall i | 1 <= i < |s.up| ensures s.up[i].packet.Complete? {
      assert UpPacketOk(c, s.up[i]);
    }
  }

  lemma DeliverCompleteKeeps(s: System, room: bool)
    requires Inv(s) && s.up != [] && s.up[0].packet.Complete?
    ensures Inv(DoDeliverUp(s, room))
  {
    CompleteIs(s, room);
    TakeOldestUp(s);
    if HeadWaits(s.peers, PubComp) && s.peers.flights[0].msg.id == s.up[0].packet.id {
      CompletionIsLast(s);
      CompleteHeadKeeps(s.(up := s.up[1..]));
    }
  }

  // ---------------------------------------------------------------------------------------------------
  // Runs
  // ---------------------------------------------------------------------------------------------------

  lemma StepKeeps(s: System, step: Step)
    requires Inv(s) && !Apply(s, step).dropped
    ensures Inv(Apply(s, step))
  {
    match step
    case Accept(qos, id) => AcceptKeeps(s, qos, id);
    case Tick(room, late, clean) =>
      if s.connected && s.peers.resent {
        NextKeeps(s, room, late, clean);
      } else if s.connected {
        ResendKeeps(s, room, late, clean);
      }
    case DeliverDown(room) =>
      if s.down != [] {
        match s.down[0].packet
        case Release(_) => DeliverReleaseKeeps(s, room);
        case Publish(msg, _) =>
          if msg.qos == ExactlyOnce {
            DeliverHighQosKeeps(s, room);
          } else {
            DeliverLowQosKeeps(s, room);
          }
      }
    case DeliverUp(room) =>
      if s.up != [] {
        match s.up[0].packet
        case Ack(_) => DeliverAckKeeps(s, room);
        case Received(_) => DeliverReceivedKeeps(s, room);
        case Complete(_) => DeliverCompleteKeeps(s, room);
      }
    case Retry(id, room) => RetryKeeps(s, id, room);
    case LoseDown(at) => LoseKeeps(s, at);
    case LoseUp(at) => LoseKeeps(s, at);
    case Disconnect => ConnectionKeeps(s);
    case Reconnect => ConnectionKeeps(s);
  }

  lemma {:induction false} DroppedStays(s: System, steps: seq<Step>)
    requires s.dropped
    ensures Run(s, steps).dropped
    decreases |steps|
  {
    if steps != [] {
      DroppedStays(Apply(s, steps[0]), steps[1..]);
    }
  }

  lemma {:induction false} RunKeeps(s: System, steps: seq<Step>)
    requires Inv(s) && !Run(s, steps).dropped
    ensures Inv(Run(s, steps))
    decreases |steps|
  {
    if steps != [] {
      if Apply(s, steps[0]).dropped {
        DroppedStays(Apply(s, steps[0]), steps[1..]);
      }
      StepKeeps(s, steps[0]);
      RunKeeps(Apply(s, steps[0]), steps[1..]);
    }
  }
}
