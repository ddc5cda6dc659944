/** The state in which the client exchanges messages: one resend per connection, then publishing. */
module RunStateModel {
  import opened MqttTypes
  import opened PublicationModel
  import opened SubscriptionModel

  /** The publishing half's share of one tick. */
  function TickTurn(flights: seq<InFlight>, resent: bool, clean: bool, room: bool, late: bool): Turn {
    if resent then PublishNext(flights, room, late) else Resend(flights, clean, room)
  }

  class RunState {
    var reconnectHandled: bool
    const cleanSession: bool
    const publication: Publication
    const subscription: Subscription

    constructor (publication: Publication, subscription: Subscription, cleanSession: bool)
      ensures !reconnectHandled && this.cleanSession == cleanSession
      ensures this.publication == publication && this.subscription == subscription
    {
      reconnectHandled := false;
      this.cleanSession := cleanSession;
      this.publication := publication;
      this.subscription := subscription;
    }

    /** `subSent` and `unsubSent` tell which subscription requests the tick has sent. */
    method Tick(pubLink: Transmitter<PubPacket>, subLink: Transmitter<SubPacket>, late: bool, subLate: bool,
                unsubLate: bool, lateIds: set<PacketId>)
      returns (forceDisconnect: bool, subSent: bool, unsubSent: bool)
      modifies this`reconnectHandled, publication, subscription, pubLink, subLink
      ensures reconnectHandled
      ensures var turn := TickTurn(old(publication.inProgress), old(reconnectHandled), cleanSession,
                                   old(pubLink.HasRoom()), late);
              && publication.inProgress == turn.flights && pubLink.tx == old(pubLink.tx) + turn.sent
              && (forceDisconnect <==>
                    || turn.disconnect
                    || (old(reconnectHandled) && Overdue(old(subscription.State()), subLate, unsubLate)))
      ensures !old(reconnectHandled) && !cleanSession && old(publication.inProgress) != [] ==>
                var head := old(publication.inProgress)[0];
                && (head.wait == PubComp && old(pubLink.HasRoom()) ==>
                      publication.inProgress == old(publication.inProgress)
                      && pubLink.tx == old(pubLink.tx) + [Release(head.msg.id)])
                && (head.wait in {PubAck, PubRec} ==>
                      publication.inProgress != [] && publication.inProgress[0].msg == head.msg
                      && publication.inProgress[0].wait == Reserved && pubLink.tx == old(pubLink.tx))
      ensures old(reconnectHandled) && old(publication.inProgress) != [] && old(pubLink.HasRoom()) ==>
                var head := old(publication.inProgress)[0];
                head.wait == Reserved ==> pubLink.tx == old(pubLink.tx) + [Publish(head.msg, head.dup)]
      ensures SubStep(old(subscription.State()), Sent(subSent, unsubSent), subscription.State())
      ensures !old(reconnectHandled) ==> !subSent && !unsubSent && subLink.tx == old(subLink.tx)
      ensures old(reconnectHandled) ==>
                var before := old(subscription.State());
                && (subSent <==> SendsSubscribe(before, old(subLink.tx)))
                && (unsubSent <==> SendsUnsubscribe(before, subLate, old(subLink.tx)))
                && var requests := SentRequests(before, subSent, unsubSent, old(subLink.tx));
                if Overdue(before, subLate, unsubLate) then subLink.tx == requests
                else Retries(requests, subLink.tx, old(subscription.receiving).Keys * lateIds)
    {
      forceDisconnect, subSent, unsubSent := false, false, false;
      if reconnectHandled {
        forceDisconnect := publication.PublishNextMessage(pubLink, late);
        var force;
        force, subSent, unsubSent := subscription.SubscribeNext(subLink, subLate, unsubLate, lateIds);
        forceDisconnect := forceDisconnect || force;
      } else {
        reconnectHandled := true;
        publication.ResendOutstandingControlPacket(pubLink, cleanSession);
      }
    }
  }
}
