/** The MQTT entities shared by the publishing and the subscribing half of the client. */
module MqttTypes {

  datatype Qos = AtMostOnce | AtLeastOnce | ExactlyOnce

  /** A 16-bit packet identifier. The factory counts upwards and wraps, so identifiers are reused. */
  type PacketId = n: nat | n < 0x1_0000

  /** An application message. `index` is its position in the order in which publish() accepted messages;
      it identifies the message, while `id` may be shared with other messages. */
  datatype Message = Message(index: nat, qos: Qos, id: PacketId)

  /** The packet an in-flight message waits for; Reserved means that it waits for nothing. */
  datatype WaitFor = Reserved | PubAck | PubRec | PubRel | PubComp

  datatype InFlight = InFlight(msg: Message, dup: bool, wait: WaitFor)

  /** Packets sent by the publishing half. */
  datatype PubPacket = Publish(msg: Message, dup: bool) | Release(id: PacketId)

  /** Packets sent by the receiving half. */
  datatype AckPacket = Ack(id: PacketId) | Received(id: PacketId) | Complete(id: PacketId)

  /** Number of packets the transmit ring of a connection holds. */
  const BUFFER_SIZE := 5

  /** Number of messages publish() keeps before it refuses more. */
  const MAX_OUTGOING_MESSAGES := 10

  /** Hands out packet identifiers: the next 16-bit number, wrapping to 0. */
  class PacketIdentifierFactory {
    var id: PacketId

    constructor ()
      ensures id == 0
    {
      id := 0;
    }

    method GetId() returns (next: PacketId)
      modifies this
      ensures next == id == (old(id) + 1) % 0x1_0000
    {
      id := (id + 1) % 0x1_0000;
      next := id;
    }
  }

  /** The transmit side of the client: send_packet() succeeds exactly when the ring has room. */
  class Transmitter<P> {
    var tx: seq<P>

    predicate HasRoom()
      reads this
    {
      |tx| < BUFFER_SIZE
    }

    constructor ()
      ensures tx == []
    {
      tx := [];
    }

    method SendPacket(packet: P) returns (ok: bool)
      modifies this
      ensures ok == old(HasRoom())
      ensures tx == old(tx) + (if ok then [packet] else [])
    {
      ok := HasRoom();
      if ok {
        tx := tx + [packet];
      }
    }
  }
}
