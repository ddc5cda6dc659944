/** From put() on one socket to the listener behind the other: packets cross a byte stream that is cut
    anywhere, and every assembled packet is announced by one event. */
module Pipe {
  import opened ByteBuffers
  import opened MqttFraming

  /** Capacity of the packet rings and of the event queue. */
  const BUFFER_SIZE := 5

  /** The send buffer: waiting packets, and the one being sent with the number of bytes already gone. */
  datatype Tx = Tx(ring: seq<Bytes>, current: Bytes, bytesSent: nat, inProgress: bool)

  /** The receive buffer, the events that announce its packets, and whether the reader is about to push one
      (`announcing`) or the listener has taken one but not yet fetched its packet (`handling`). */
  datatype Rx = Rx(assembly: Assembly, ring: seq<Bytes>, announcing: bool, events: nat, handling: bool)

  /** Histories: `accepted` by put(), `sent` and `read` bytes, `assembled` and `fetched` packets. `lost`
      records a packet that met a full ring or an event that was refused. */
  datatype Pipe = Pipe(tx: Tx, rx: Rx, wire: Bytes, accepted: seq<Bytes>, sent: Bytes, read: Bytes,
                       assembled: seq<Bytes>, fetched: seq<Bytes>, lost: bool)

  datatype Step =
    | Put(packet: Bytes)
    | Send(n: nat)
    | Receive(n: nat)
    | Announce
    | TakeEvent
    | Fetch

  const START := Pipe(Tx([], [], 0, false), Rx(FRESH, [], false, 0, false), [], [], [], [], [], [], false)

  function PutPacket(tx: Tx, packet: Bytes): Tx {
    if |tx.ring| < BUFFER_SIZE then tx.(ring := tx.ring + [packet]) else tx
  }

  function IsEmpty(tx: Tx): bool {
    !tx.inProgress && tx.ring == []
  }

  /** send_next_packet: take up the next packet unless one is in progress. */
  function Prepared(tx: Tx): Tx {
    if tx.inProgress || tx.ring == [] then tx else Tx(tx.ring[1..], tx.ring[0], 0, true)
  }

  function Remaining(tx: Tx): Bytes {
    if tx.inProgress && tx.bytesSent <= |tx.current| then tx.current[tx.bytesSent..] else []
  }

  function HasSent(tx: Tx, n: nat): Tx {
    tx.(bytesSent := tx.bytesSent + n, inProgress := tx.bytesSent + n < |tx.current|)
  }

  /** packet_consumed: the next byte starts a packet. */
  function Consumed(a: Assembly): Assembly {
    FRESH.(headerLength := a.headerLength)
  }

  function DoSend(s: Pipe, n: nat): Pipe {
    var tx := Prepared(s.tx);
    if IsEmpty(s.tx) || n > |Remaining(tx)| then
      s
    else
      var bytes := Remaining(tx)[..n];
      s.(tx := HasSent(tx, n), wire := s.wire + bytes, sent := s.sent + bytes)
  }

  /** Socket::readable when the ring has room and n bytes arrive. */
  function DoReceive(s: Pipe, n: nat): Pipe {
    var rx := s.rx;
    if rx.announcing || |rx.ring| == BUFFER_SIZE || !(1 <= n <= |s.wire|) || n > Wanted(rx.assembly) then
      s
    else
      var a := Read(rx.assembly, s.wire[..n]);
      var t := s.(wire := s.wire[n..], read := s.read + s.wire[..n]);
      if IsComplete(a) then
        t.(rx := rx.(assembly := a, ring := rx.ring + [a.data], announcing := true),
           assembled := s.assembled + [a.data], lost := s.lost || |rx.ring| >= BUFFER_SIZE)
      else
        t.(rx := rx.(assembly := a))
  }

  function Apply(s: Pipe, step: Step): Pipe {
    var rx := s.rx;
    match step
    case Put(packet) =>
      s.(tx := PutPacket(s.tx, packet),
         accepted := if |s.tx.ring| < BUFFER_SIZE then s.accepted + [packet] else s.accepted)
    case Send(n) => DoSend(s, n)
    case Receive(n) => DoReceive(s, n)
    case Announce =>
      if rx.announcing then
        s.(rx := rx.(announcing := false, assembly := Consumed(rx.assembly),
                     events := if rx.events < BUFFER_SIZE then rx.events + 1 else rx.events),
           lost := s.lost || rx.events >= BUFFER_SIZE)
      else
        s
    case TakeEvent =>
      if rx.events > 0 && !rx.handling then s.(rx := rx.(events := rx.events - 1, handling := true)) else s
    case Fetch =>
      if rx.handling then
        s.(rx := rx.(handling := false, ring := if rx.ring == [] then [] else rx.ring[1..]),
           fetched := if rx.ring == [] then s.fetched else s.fetched + [rx.ring[0]])
      else
        s
  }

  function Run(s: Pipe, steps: seq<Step>): Pipe
    decreases |steps|
  {
    if steps == [] then s else Run(Apply(s, steps[0]), steps[1..])
  }

  // ---------------------------------------------------------------------------------------------------
  // Concatenation
  // ---------------------------------------------------------------------------------------------------

  function Concat(packets: seq<Bytes>): Bytes {
    if packets == [] then [] else packets[0] + Concat(packets[1..])
  }

  lemma {:induction false} ConcatAdd(a: seq<Bytes>, b: seq<Bytes>)
    ensures Concat(a + b) == Concat(a) + Concat(b)
    decreases |a|
  {
    if a == [] {
      assert a + b == b;
    } else {
      assert (a + b)[1..] == a[1..] + b;
      ConcatAdd(a[1..], b);
    }
  }

  lemma {:induction false} ConcatOne(a: seq<Bytes>, packet: Bytes)
    ensures Concat(a + [packet]) == Concat(a) + packet
  {
    ConcatAdd(a, [packet]);
    assert Concat([packet]) == packet;
  }

  lemma {:induction false} ConcatAt(packets: seq<Bytes>, k: nat)
    requires k < |packets|
    ensures Concat(packets) == Concat(packets[..k]) + packets[k] + Concat(packets[k + 1..])
    ensures Concat(packets[..k + 1]) == Concat(packets[..k]) + packets[k]
  {
    SplitAt(packets, k);
    ConcatAdd(packets[..k + 1], packets[k + 1..]);
    ConcatOne(packets[..k], packets[k]);
  }

  lemma SplitAt(packets: seq<Bytes>, k: nat)
    requires k < |packets|
    ensures packets == packets[..k + 1] + packets[k + 1..] && packets[..k + 1] == packets[..k] + [packets[k]]
  {
  }

  // ---------------------------------------------------------------------------------------------------
  // The invariant
  // ---------------------------------------------------------------------------------------------------

  /** Packets accepted but not yet wholly sent, the one in progress first. */
  function Pending(tx: Tx): seq<Bytes> {
    (if tx.inProgress then [tx.current] else []) + tx.ring
  }

  /** What is still to be sent. */
  function Unsent(tx: Tx): Bytes {
    Remaining(tx) + Concat(tx.ring)
  }

  /** Sent bytes and unsent rest make up the accepted packets. */
  ghost predicate SendSide(tx: Tx, sent: Bytes, accepted: seq<Bytes>) {
    && |tx.ring| <= BUFFER_SIZE
    && (tx.inProgress ==> tx.bytesSent <= |tx.current|)
    && sent + Unsent(tx) == Concat(accepted)
  }

  ghost predicate AllWellFormed(packets: seq<Bytes>) {
    forall i :: 0 <= i < |packets| ==> WellFormed(packets[i])
  }

  /** The receiving side has read k whole packets and the first bytes of the next one; while it is announcing
      packet k - 1, none of the next one. */
  ghost predicate InStep(a: Assembly, announcing: bool, packets: seq<Bytes>, k: nat, read: Bytes)
    requires AllWellFormed(packets)
  {
    k <= |packets| &&
    var rest := |read| - |Concat(packets[..k])|;
    if announcing then
      k > 0 && read == Concat(packets[..k])
    else if k == |packets| then
      read == Concat(packets) && a == Consumed(a)
    else
      0 <= rest < |packets[k]| && read == Concat(packets[..k]) + packets[k][..rest] && Holds(a, packets[k], rest)
  }

  ghost predicate ReceiveSide(s: Pipe)
    requires AllWellFormed(s.accepted)
  {
    && InStep(s.rx.assembly, s.rx.announcing, s.accepted, |s.assembled|, s.read)
    && s.assembled == s.accepted[..|s.assembled|]
    && s.assembled == s.fetched + s.rx.ring
  }

  function Tokens(rx: Rx): nat {
    rx.events + (if rx.announcing then 1 else 0) + (if rx.handling then 1 else 0)
  }

  /** Each assembled packet that has not been fetched has one event: being pushed, waiting, or being handled. */
  ghost predicate Paired(rx: Rx) {
    |rx.ring| <= BUFFER_SIZE && Tokens(rx) == |rx.ring|
  }

  ghost predicate Inv(s: Pipe) {
    && AllWellFormed(s.accepted)
    && SendSide(s.tx, s.sent, s.accepted) && ReceiveSide(s) && Paired(s.rx)
    && s.sent == s.read + s.wire && !s.lost
  }

  // ---------------------------------------------------------------------------------------------------
  // Every step keeps the invariant
  // ---------------------------------------------------------------------------------------------------

  lemma PutKeepsSendSide(tx: Tx, sent: Bytes, accepted: seq<Bytes>, packet: Bytes)
    requires SendSide(tx, sent, accepted) && |tx.ring| < BUFFER_SIZE
    ensures SendSide(PutPacket(tx, packet), sent, accepted + [packet])
  {
    ConcatOne(tx.ring, packet);
    ConcatOne(accepted, packet);
    Regroup(Remaining(tx), Concat(tx.ring), packet);
    Regroup(sent, Unsent(tx), packet);
  }

  lemma PutKeepsInStep(a: Assembly, announcing: bool, packets: seq<Bytes>, k: nat, read: Bytes, packet: Bytes)
    requires AllWellFormed(packets) && WellFormed(packet) && InStep(a, announcing, packets, k, read)
    ensures AllWellFormed(packets + [packet]) && InStep(a, announcing, packets + [packet], k, read)
  {
    assert (packets + [packet])[..k] == packets[..k];
    if k == |packets| {
      assert packets[..k] == packets;
    }
  }

  lemma PutKeeps(s: Pipe, packet: Bytes)
    requires Inv(s) && WellFormed(packet)
    ensures Inv(Apply(s, Put(packet)))
  {
    if |s.tx.ring| < BUFFER_SIZE {
      PutKeepsSendSide(s.tx, s.sent, s.accepted, packet);
      PutKeepsInStep(s.rx.assembly, s.rx.announcing, s.accepted, |s.assembled|, s.read, packet);
    }
  }

  lemma PreparedKeepsSendSide(tx: Tx, sent: Bytes, accepted: seq<Bytes>)
    requires SendSide(tx, sent, accepted)
    ensures SendSide(Prepared(tx), sent, accepted)
    ensures IsEmpty(tx) || Prepared(tx).inProgress
  {
  }

  lemma HasSentKeepsSendSide(tx: Tx, sent: Bytes, accepted: seq<Bytes>, n: nat)
    requires SendSide(tx, sent, accepted) && tx.inProgress && n <= |Remaining(tx)|
    ensures SendSide(HasSent(tx, n), sent + Remaining(tx)[..n], accepted)
  {
    assert Remaining(tx) == Remaining(tx)[..n] + Remaining(tx)[n..];
    assert Remaining(HasSent(tx, n)) == Remaining(tx)[n..];
  }

  lemma SendKeeps(s: Pipe, n: nat)
    requires Inv(s)
    ensures Inv(DoSend(s, n))
  {
    PreparedKeepsSendSide(s.tx, s.sent, s.accepted);
    var tx := Prepared(s.tx);
    if !IsEmpty(s.tx) && n <= |Remaining(tx)| {
      HasSentKeepsSendSide(tx, s.sent, s.accepted, n);
    }
  }

  /** If `stream` starts with `read` and `next`, the assembly in step wants `next` from the packet it is at. */
  lemma NextBytes(a: Assembly, packets: seq<Bytes>, k: nat, read: Bytes, next: Bytes, later: Bytes) returns (j: nat)
    requires AllWellFormed(packets) && InStep(a, false, packets, k, read)
    requires read + next + later == Concat(packets) && 1 <= |next| <= Wanted(a)
    ensures k < |packets| && j + |next| <= |packets[k]| && next == packets[k][j..j + |next|]
    ensures read == Concat(packets[..k]) + packets[k][..j] && Holds(a, packets[k], j)
  {
    assert k < |packets|;
    ConcatAt(packets, k);
    var before, packet := Concat(packets[..k]), packets[k];
    j := |read| - |before|;
    HoldsMeans(a, packet, j);
    NextSlice(before, packet, Concat(packets[k + 1..]), read, next, later);
  }

  lemma NextSlice(before: Bytes, packet: Bytes, after: Bytes, read: Bytes, next: Bytes, later: Bytes)
    requires before + packet + after == read + next + later
    requires |before| <= |read| && |read| + |next| <= |before| + |packet|
    ensures next == packet[|read| - |before|..|read| - |before| + |next|]
  {
    var all, j := before + packet + after, |read| - |before|;
    forall i | 0 <= i < |next| ensures next[i] == packet[j + i] {
      assert all[|read| + i] == next[i];
      assert all[|before| + (j + i)] == packet[j + i];
    }
  }

  lemma SliceJoins(packet: Bytes, j: nat, n: nat)
    requires j + n <= |packet|
    ensures packet[..j] + packet[j..j + n] == packet[..j + n]
    ensures j + n == |packet| ==> packet[..j + n] == packet
  {
  }

  lemma ReadInPacket(a: Assembly, packet: Bytes, j: nat, next: Bytes)
    requires WellFormed(packet) && Holds(a, packet, j) && j + |next| <= |packet| && 1 <= |next| <= Wanted(a)
    requires next == packet[j..j + |next|]
    ensures var r := Read(a, next);
            if IsComplete(r) then j + |next| == |packet| && r.data == packet
            else j + |next| < |packet| && Holds(r, packet, j + |next|)
  {
    ReadKeepsStep(a, packet, j, |next|);
    HoldsMeans(Read(a, packet[j..j + |next|]), packet, j + |next|);
    if j + |next| == |packet| {
      CompleteIsPacket(a, packet, j, |next|);
    }
  }

  /** The same place in the stream, seen from the list of packets. */
  lemma PlaceInStream(r: Assembly, packets: seq<Bytes>, k: nat, j: nat, read: Bytes, next: Bytes)
    requires AllWellFormed(packets) && k < |packets| && j + |next| <= |packets[k]|
    requires read == Concat(packets[..k]) + packets[k][..j] && next == packets[k][j..j + |next|]
    ensures if j + |next| == |packets[k]| then InStep(r, true, packets, k + 1, read + next)
            else Holds(r, packets[k], j + |next|) ==> InStep(r, false, packets, k, read + next)
  {
    SliceJoins(packets[k], j, |next|);
    Regroup(Concat(packets[..k]), packets[k][..j], next);
    ConcatAt(packets, k);
  }

  lemma Regroup(a: Bytes, b: Bytes, c: Bytes)
    ensures (a + b) + c == a + (b + c)
  {
  }

  lemma ReadMovesOn(a: Assembly, packets: seq<Bytes>, k: nat, j: nat, read: Bytes, next: Bytes)
    requires AllWellFormed(packets) && k < |packets| && j + |next| <= |packets[k]|
    requires read == Concat(packets[..k]) + packets[k][..j] && next == packets[k][j..j + |next|]
    requires Holds(a, packets[k], j) && 1 <= |next| <= Wanted(a)
    ensures var r := Read(a, next);
            if IsComplete(r) then r.data == packets[k] && InStep(r, true, packets, k + 1, read + next)
            else InStep(r, false, packets, k, read + next)
  {
    ReadInPacket(a, packets[k], j, next);
    PlaceInStream(Read(a, next), packets, k, j, read, next);
  }

  /** Reading them keeps the assembly in step; when that completes it, its buffer is the packet. */
  lemma {:induction false} ReadKeepsInStep(a: Assembly, packets: seq<Bytes>, k: nat, read: Bytes, next: Bytes,
                                           later: Bytes)
    requires AllWellFormed(packets) && InStep(a, false, packets, k, read)
    requires read + next + later == Concat(packets) && 1 <= |next| <= Wanted(a)
    ensures var r := Read(a, next);
            if IsComplete(r)
            then k < |packets| && r.data == packets[k] && InStep(r, true, packets, k + 1, read + next)
            else InStep(r, false, packets, k, read + next)
  {
    var j := NextBytes(a, packets, k, read, next, later);
    ReadMovesOn(a, packets, k, j, read, next);
  }

  lemma AssembledGrows(s: Pipe, packet: Bytes)
    requires Inv(s) && |s.assembled| < |s.accepted| && packet == s.accepted[|s.assembled|]
    ensures s.assembled + [packet] == s.accepted[..|s.assembled| + 1]
    ensures s.assembled + [packet] == s.fetched + (s.rx.ring + [packet])
  {
  }

  lemma ReceiveKeeps(s: Pipe, n: nat)
    requires Inv(s)
    ensures Inv(DoReceive(s, n))
  {
    var s' := DoReceive(s, n);
    if s' != s {
      var next, rest := s.wire[..n], s.wire[n..];
      assert next + rest == s.wire;
      Regroup(s.read, next, rest);
      Regroup(s.read + next, rest, Unsent(s.tx));
      ReadKeepsInStep(s.rx.assembly, s.accepted, |s.assembled|, s.read, next, rest + Unsent(s.tx));
      if IsComplete(s'.rx.assembly) {
        AssembledGrows(s, s'.rx.assembly.data);
      }
    }
  }

  lemma AnnounceKeepsInStep(a: Assembly, packets: seq<Bytes>, k: nat, read: Bytes)
    requires AllWellFormed(packets) && InStep(a, true, packets, k, read)
    ensures InStep(Consumed(a), false, packets, k, read)
  {
    if k < |packets| {
      FreshHolds(packets[k]);
      assert packets[k][..0] == [];
    } else {
      assert packets[..k] == packets;
    }
  }

  lemma AnnounceKeeps(s: Pipe)
    requires Inv(s)
    ensures Inv(Apply(s, Announce))
  {
    if s.rx.announcing {
      AnnounceKeepsInStep(s.rx.assembly, s.accepted, |s.assembled|, s.read);
    }
  }

  lemma ListenKeeps(s: Pipe)
    requires Inv(s)
    ensures Inv(Apply(s, TakeEvent)) && Inv(Apply(s, Fetch))
  {
    if s.rx.ring != [] {
      assert s.fetched + s.rx.ring == s.fetched + [s.rx.ring[0]] + s.rx.ring[1..];
    }
  }

  lemma StepKeeps(s: Pipe, step: Step)
    requires Inv(s) && (step.Put? ==> WellFormed(step.packet))
    ensures Inv(Apply(s, step))
  {
    match step
    case Put(packet) => PutKeeps(s, packet);
    case Send(n) => SendKeeps(s, n);
    case Receive(n) => ReceiveKeeps(s, n);
    case Announce => AnnounceKeeps(s);
    case TakeEvent => ListenKeeps(s);
    case Fetch => ListenKeeps(s);
  }

  lemma StartHolds()
    ensures Inv(START)
  {
  }

  lemma {:induction false} RunKeeps(s: Pipe, steps: seq<Step>)
    requires Inv(s)
    requires forall i :: 0 <= i < |steps| && steps[i].Put? ==> WellFormed(steps[i].packet)
    ensures Inv(Run(s, steps))
    decreases |steps|
  {
    if steps != [] {
      StepKeeps(s, steps[0]);
      RunKeeps(Apply(s, steps[0]), steps[1..]);
    }
  }

  // ---------------------------------------------------------------------------------------------------
  // The promises
  // ---------------------------------------------------------------------------------------------------

  ghost predicate PutsAreWellFormed(steps: seq<Step>) {
    forall i :: 0 <= i < |steps| && steps[i].Put? ==> WellFormed(steps[i].packet)
  }

  /** The pipe refines a FIFO of packets. For every interleaving of put(), partial sends and reads cut anywhere,
      the reassembled packets are a prefix, byte for byte and in order, of the accepted ones, what the listener
      fetched is a prefix of those, and bytes sent plus the unsent rest are the accepted packets. */
  lemma {:induction false} PipeIsFifo(steps: seq<Step>)
    requires PutsAreWellFormed(steps)
    ensures var s := Run(START, steps);
            && s.assembled <= s.accepted
            && s.fetched <= s.assembled
            && s.sent == s.read + s.wire
            && s.sent + Unsent(s.tx) == Concat(s.accepted)
  {
    StartHolds();
    RunKeeps(START, steps);
  }

  /** Packet and event stay paired: no completed packet meets a full ring, no event is refused, and the events
      being pushed, waiting or handled are as many as the packets in the ring. */
  lemma {:induction false} EventsMatchPackets(steps: seq<Step>)
    requires PutsAreWellFormed(steps)
    ensures var s := Run(START, steps);
            && !s.lost
            && Tokens(s.rx) == |s.rx.ring| <= BUFFER_SIZE
            && s.assembled == s.fetched + s.rx.ring
  {
    StartHolds();
    RunKeeps(START, steps);
  }

  lemma InStepWants(a: Assembly, packets: seq<Bytes>, k: nat, read: Bytes)
    requires AllWellFormed(packets) && InStep(a, false, packets, k, read)
    ensures 1 <= Wanted(a)
    ensures k < |packets| ==> |read| + Wanted(a) <= |Concat(packets[..k + 1])|
  {
    if k < |packets| {
      ConcatAt(packets, k);
      HoldsMeans(a, packets[k], |read| - |Concat(packets[..k])|);
    }
  }

  /** The assembly never stalls: between packets' events an incomplete packet wants at least one byte, and never
      more than its own packet still has, so a read never runs into the next packet. */
  lemma {:induction false} NeverStalls(steps: seq<Step>)
    requires PutsAreWellFormed(steps)
    ensures var s := Run(START, steps);
            !s.rx.announcing ==>
              && 1 <= Wanted(s.rx.assembly)
              && (|s.assembled| < |s.accepted| ==>
                    |s.read| + Wanted(s.rx.assembly) <= |Concat(s.accepted[..|s.assembled| + 1])|)
  {
    StartHolds();
    RunKeeps(START, steps);
    var s := Run(START, steps);
    if !s.rx.announcing {
      InStepWants(s.rx.assembly, s.accepted, |s.assembled|, s.read);
    }
  }
}
