/** Assembling MQTT packets from a byte stream that arrives in pieces of any size. */
module MqttFraming {
  import opened ByteBuffers
  import opened RemainingLength

  /** Packets with a longer body are drained and flagged instead of being handed on intact. */
  const MAX_MESSAGE_SIZE := 512

  datatype Phase = Start | Length | Data

  /** The protocol's counters together with the packet under assembly. `data` may be longer than what has been
      received: room is made before the socket writes. */
  datatype Assembly = Assembly(phase: Phase, received: nat, remaining: int, headerLength: nat,
                               data: seq<Byte>, tooBig: bool, malformed: bool)

  const FRESH := Assembly(Start, 0, 1, 0, [], false, false)

  function Wanted(a: Assembly): int {
    a.remaining
  }

  function IsComplete(a: Assembly): bool {
    a.remaining == 0
  }

  /** get_write_pos: room for everything received so far and everything wanted. */
  function WithRoom(a: Assembly): Assembly
    requires 0 <= a.remaining
  {
    a.(data := Resize(a.data, a.received + a.remaining))
  }

  /** recv() fills the buffer from the write position on. */
  function Written(a: Assembly, chunk: seq<Byte>): Assembly
    requires a.received + |chunk| <= |a.data|
  {
    a.(data := Overwrite(a.data, a.received, chunk))
  }

  /** data_received: `length` more bytes are in the buffer. */
  function Advanced(a: Assembly, length: nat): Assembly
    requires 1 <= length && a.received + length <= |a.data|
  {
    var received := a.received + length;
    match a.phase
    case Start => a.(received := received, phase := Length)
    case Length =>
      if a.data[received - 1] >= 0x80 then
        a.(received := received, remaining := 1)
      else
        var d := if a.malformed then Decoded(0, 0, true) else Decode(a.data[1..], 0);
        a.(received := received, headerLength := received, remaining := d.value,
           phase := if d.value > 0 then Data else Length,
           tooBig := a.tooBig || d.value > MAX_MESSAGE_SIZE, malformed := a.malformed || d.error)
    case Data => a.(received := received, remaining := a.remaining - length)
  }

  /** One read of the socket. */
  function Read(a: Assembly, chunk: seq<Byte>): Assembly
    requires 1 <= |chunk| <= Wanted(a)
  {
    Advanced(Written(WithRoom(a), chunk), |chunk|)
  }

  /** The byte that ends the length field flags the packet exactly if four bytes before it announced another one. */
  lemma MalformedIffTooLong(a: Assembly)
    requires a.phase == Length && a.received >= 1 && a.received + 1 <= |a.data| && a.data[a.received] < 0x80
    requires !a.malformed
    ensures Advanced(a, 1).malformed <==>
              |a.data| >= 5 && a.data[1] >= 0x80 && a.data[2] >= 0x80 && a.data[3] >= 0x80 && a.data[4] >= 0x80
  {
    FourBytes(a.data[1..]);
  }

  lemma {:induction false} FourBytes(bytes: seq<Byte>)
    ensures Decode(bytes, 0).error <==>
              |bytes| >= 4 && bytes[0] >= 0x80 && bytes[1] >= 0x80 && bytes[2] >= 0x80 && bytes[3] >= 0x80
  {
    if |bytes| >= 1 {
      var b := bytes[1..];
      if |b| >= 1 {
        var c := b[1..];
        if |c| >= 1 {
          assert Decode(c, 2).error <==> c[0] >= 0x80 && |c[1..]| >= 1 && c[1..][0] >= 0x80;
        }
      }
    }
  }

  // ---------------------------------------------------------------------------------------------------
  // Packets on the wire
  // ---------------------------------------------------------------------------------------------------

  /** The header field ends inside `bytes`. */
  predicate HeaderEnds(bytes: seq<Byte>) {
    |bytes| >= 2
    && var d := Decode(bytes[1..], 0);
       d.used >= 1 && !d.error && bytes[d.used] < 0x80
  }

  function HeaderLength(bytes: seq<Byte>): nat
    requires HeaderEnds(bytes)
  {
    1 + Decode(bytes[1..], 0).used
  }

  function BodyLength(bytes: seq<Byte>): nat
    requires HeaderEnds(bytes)
  {
    Decode(bytes[1..], 0).value
  }

  /** A whole packet: first byte, remaining-length field, and exactly as many bytes as the field says. */
  predicate WellFormed(packet: seq<Byte>) {
    HeaderEnds(packet) && |packet| == HeaderLength(packet) + BodyLength(packet)
  }

  lemma PrefixOfRest(bytes: seq<Byte>, k: nat)
    requires 0 < k <= |bytes|
    ensures bytes[..k][1..] == bytes[1..][..k - 1] && bytes[..k][0] == bytes[0]
  {
  }

  lemma {:induction false} DecodeFirst(bytes: seq<Byte>, seen: nat)
    requires bytes != [] && seen < 4
    ensures var d, rest := Decode(bytes, seen), Decode(bytes[1..], seen + 1);
            if bytes[0] < 0x80 || seen == 3 then d.used == 1 && d == Decode(bytes[..1], seen)
            else d == Decoded(bytes[0] - 0x80 + 0x80 * rest.value, 1 + rest.used, rest.error)
  {
  }

  /** What is decoded from the first k bytes: the same, or as much as there is. */
  predicate Cut(d: Decoded, e: Decoded, k: nat) {
    if k >= d.used then e == d else e.used == k && !e.error
  }

  lemma {:induction false} CutFirst(bytes: seq<Byte>, k: nat, seen: nat)
    requires 0 < k <= |bytes| && seen < 4
    requires bytes[0] >= 0x80 && seen < 3 ==>
               Cut(Decode(bytes[1..], seen + 1), Decode(bytes[1..][..k - 1], seen + 1), k - 1)
    ensures Cut(Decode(bytes, seen), Decode(bytes[..k], seen), k)
  {
    PrefixOfRest(bytes, k);
    DecodeFirst(bytes, seen);
    DecodeFirst(bytes[..k], seen);
    assert bytes[..k][..1] == bytes[..1];
  }

  lemma {:induction false} DecodePrefix(bytes: seq<Byte>, k: nat, seen: nat)
    requires seen <= 4 && k <= |bytes|
    ensures Cut(Decode(bytes, seen), Decode(bytes[..k], seen), k)
    decreases 4 - seen
  {
    if bytes != [] && seen < 4 && k > 0 {
      if bytes[0] >= 0x80 && seen < 3 {
        DecodePrefix(bytes[1..], k - 1, seen + 1);
      }
      CutFirst(bytes, k, seen);
    }
  }

  /** All bytes but the last of the field announce another one. */
  lemma {:induction false} DecodeGoesOn(bytes: seq<Byte>, i: nat, seen: nat)
    requires seen <= 4 && i + 1 < Decode(bytes, seen).used
    ensures bytes[i] >= 0x80
    decreases i
  {
    if i > 0 {
      DecodeGoesOn(bytes[1..], i - 1, seen + 1);
    }
  }

  /** Inside a packet the header ends where the packet's own header ends, and nowhere before. */
  lemma HeaderOfPrefix(packet: seq<Byte>, k: nat)
    requires WellFormed(packet) && k <= |packet|
    ensures if k >= HeaderLength(packet)
            then HeaderEnds(packet[..k]) && HeaderLength(packet[..k]) == HeaderLength(packet)
                 && BodyLength(packet[..k]) == BodyLength(packet)
            else !HeaderEnds(packet[..k]) && k <= 4 && forall i :: 1 <= i < k ==> packet[i] >= 0x80
  {
    if k >= 1 {
      PrefixOfRest(packet, k);
      DecodePrefix(packet[1..], k - 1, 0);
      if k < HeaderLength(packet) {
        forall i | 1 <= i < k ensures packet[i] >= 0x80 {
          DecodeGoesOn(packet[1..], i - 1, 0);
        }
      }
    }
  }

  // ---------------------------------------------------------------------------------------------------
  // Staying in step
  // ---------------------------------------------------------------------------------------------------

  /** The assembly has received exactly the first k bytes of the packet. */
  ghost predicate Holds(a: Assembly, packet: seq<Byte>, k: nat)
    requires WellFormed(packet)
  {
    && k <= |packet| && !a.malformed
    && a.received == k <= |a.data| && a.data[..k] == packet[..k]
    && if k == 0 then
         a.phase == Start && a.remaining == 1 && !a.tooBig
       else if k < HeaderLength(packet) then
         a.phase == Length && a.remaining == 1 && !a.tooBig
       else
         && a.phase == (if BodyLength(packet) > 0 then Data else Length)
         && a.remaining == |packet| - k
         && a.tooBig == (BodyLength(packet) > MAX_MESSAGE_SIZE)
         && a.headerLength == HeaderLength(packet)
  }

  lemma FreshHolds(packet: seq<Byte>)
    requires WellFormed(packet)
    ensures Holds(FRESH, packet, 0)
  {
  }

  /** An incomplete packet never wants 0 bytes, never more than the packet still has, and is complete exactly at
      its last byte; then the buffer is the packet. */
  lemma HoldsMeans(a: Assembly, packet: seq<Byte>, k: nat)
    requires WellFormed(packet) && Holds(a, packet, k)
    ensures if k < |packet| then 1 <= Wanted(a) <= |packet| - k else IsComplete(a)
    ensures IsComplete(a) <==> k == |packet|
  {
  }

  lemma ReadFills(a: Assembly, packet: seq<Byte>, k: nat, n: nat)
    requires WellFormed(packet) && Holds(a, packet, k) && k < |packet| && 1 <= n <= Wanted(a)
    ensures k + n <= |packet|
    ensures var r := Read(a, packet[k..k + n]);
            && r.received == k + n <= |r.data| && r.data[..k + n] == packet[..k + n]
            && |r.data| == k + Wanted(a)
  {
    var w := WithRoom(a);
    assert w.data[..k] == a.data[..k];
    assert packet[..k + n] == packet[..k] + packet[k..k + n];
  }

  /** A byte of the header. */
  lemma FirstByteKeepsStep(a: Assembly, packet: seq<Byte>)
    requires WellFormed(packet) && Holds(a, packet, 0)
    ensures Holds(Read(a, packet[0..1]), packet, 1)
  {
    ReadFills(a, packet, 0, 1);
  }

  lemma LengthByteKeepsStep(a: Assembly, packet: seq<Byte>, k: nat)
    requires WellFormed(packet) && Holds(a, packet, k) && 1 <= k < HeaderLength(packet)
    ensures Holds(Read(a, packet[k..k + 1]), packet, k + 1)
  {
    ReadFills(a, packet, k, 1);
    HeaderOfPrefix(packet, k + 1);
    var w, r := Written(WithRoom(a), packet[k..k + 1]), Read(a, packet[k..k + 1]);
    assert r.data == w.data == packet[..k + 1] && packet[k] == r.data[k];
  }

  lemma BodyBytesKeepStep(a: Assembly, packet: seq<Byte>, k: nat, n: nat)
    requires WellFormed(packet) && Holds(a, packet, k) && HeaderLength(packet) <= k < |packet| && 1 <= n <= Wanted(a)
    ensures k + n <= |packet| && Holds(Read(a, packet[k..k + n]), packet, k + n)
  {
    ReadFills(a, packet, k, n);
  }

  /** Whatever the cut: after a read of any number of bytes between 1 and the wanted amount, the assembly holds
      that many more bytes of the packet. */
  lemma ReadKeepsStep(a: Assembly, packet: seq<Byte>, k: nat, n: nat)
    requires WellFormed(packet) && Holds(a, packet, k) && k < |packet| && 1 <= n <= Wanted(a)
    ensures k + n <= |packet| && Holds(Read(a, packet[k..k + n]), packet, k + n)
  {
    if k >= HeaderLength(packet) {
      BodyBytesKeepStep(a, packet, k, n);
    } else if k == 0 {
      FirstByteKeepsStep(a, packet);
    } else {
      LengthByteKeepsStep(a, packet, k);
    }
  }

  /** The packet that a complete assembly hands on is the packet that was sent, flagged if its body is too long. */
  lemma CompleteIsPacket(a: Assembly, packet: seq<Byte>, k: nat, n: nat)
    requires WellFormed(packet) && Holds(a, packet, k) && k < |packet| && 1 <= n <= Wanted(a)
    requires k + n == |packet|
    ensures var r := Read(a, packet[k..k + n]);
            IsComplete(r) && r.data == packet && (r.tooBig <==> BodyLength(packet) > MAX_MESSAGE_SIZE)
  {
    ReadFills(a, packet, k, n);
    ReadKeepsStep(a, packet, k, n);
    HoldsMeans(a, packet, k);
    assert packet[..|packet|] == packet;
    var r := Read(a, packet[k..k + n]);
    assert |r.data| == |packet|;
  }

  // ---------------------------------------------------------------------------------------------------
  // The classes
  // ---------------------------------------------------------------------------------------------------

  /** The packet under assembly. */
  class RxPacket {
    var data: seq<Byte>
    var tooBig: bool
    var error: bool

    constructor ()
      ensures data == [] && !tooBig && !error
    {
      data, tooBig, error := [], false, false;
    }
  }

  class MqttProtocol {
    var state: Phase
    var bytesReceived: nat
    var remainingBytesToRead: int
    var receivedHeaderLength: nat
    var tooBig: bool

    /** The counters and the packet as one value. */
    function Value(packet: RxPacket): Assembly
      reads this, packet
    {
      Assembly(state, bytesReceived, remainingBytesToRead, receivedHeaderLength,
               packet.data, packet.tooBig, packet.error)
    }

    constructor ()
      ensures state == Start && bytesReceived == 0 && remainingBytesToRead == 1 && receivedHeaderLength == 0 && !tooBig
    {
      state, bytesReceived, remainingBytesToRead, receivedHeaderLength, tooBig := Start, 0, 1, 0, false;
    }

    /** The protocol's own flag is never raised, so its branches for an oversized packet stay idle. */
    method GetWantedAmount() returns (wanted: int)
      requires !tooBig
      ensures wanted == remainingBytesToRead
    {
      if tooBig {
        wanted := if remainingBytesToRead < MAX_MESSAGE_SIZE then remainingBytesToRead else MAX_MESSAGE_SIZE;
      } else {
        wanted := remainingBytesToRead;
      }
    }

    method GetWritePos(packet: RxPacket) returns (pos: nat)
      requires !tooBig && 0 <= remainingBytesToRead
      modifies packet`data
      ensures Value(packet) == WithRoom(old(Value(packet)))
      ensures pos == bytesReceived && pos + remainingBytesToRead == |packet.data|
    {
      packet.data := Resize(packet.data, bytesReceived + remainingBytesToRead);
      pos := bytesReceived;
    }

    method DataReceived(packet: RxPacket, length: nat)
      requires 1 <= length && bytesReceived + length <= |packet.data|
      modifies this`state, this`bytesReceived, this`remainingBytesToRead, this`receivedHeaderLength,
               packet`tooBig, packet`error
      ensures Value(packet) == Advanced(old(Value(packet)), length)
    {
      bytesReceived := bytesReceived + length;
      if state == Start {
        state := Length;
      } else if state == Length {
        if packet.data[bytesReceived - 1] >= 0x80 {
          remainingBytesToRead := 1;
        } else {
          receivedHeaderLength := bytesReceived;
          var size, _, error := CalculateRemainingLength(packet.data, packet.error);
          packet.error := error;
          remainingBytesToRead := size;
          if remainingBytesToRead > MAX_MESSAGE_SIZE {
            state := Data;
            packet.tooBig := true;
          } else if remainingBytesToRead > 0 {
            state := Data;
          }
        }
      } else {
        remainingBytesToRead := remainingBytesToRead - length;
      }
    }

    method PacketConsumed()
      modifies this`state, this`tooBig, this`remainingBytesToRead, this`bytesReceived
      ensures state == Start && bytesReceived == 0 && remainingBytesToRead == 1 && !tooBig
    {
      state, tooBig, remainingBytesToRead, bytesReceived := Start, false, 1, 0;
    }
  }
}
