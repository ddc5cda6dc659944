/** Taking masked WebSocket frames apart (RFC 6455, sections 5.2 and 5.3) and handing their payload to the
    application in parts of at most `chunk` bytes. */
module WebsocketModel {
  import opened ByteBuffers
  import opened HttpPackets

  /** Exclusive or of the lowest `bits` bits. */
  function XorBits(a: nat, b: nat, bits: nat): (x: nat)
    ensures x < Pow2(bits)
  {
    if bits == 0 then 0 else (a + b) % 2 + 2 * XorBits(a / 2, b / 2, bits - 1)
  }

  function Pow2(n: nat): nat {
    if n == 0 then 1 else 2 * Pow2(n - 1)
  }

  function Xor(a: Byte, b: Byte): Byte {
    assert Pow2(8) == 0x100;
    XorBits(a, b, 8)
  }

  lemma Parity(a: nat, b: nat)
    ensures ((a + b) % 2 + b) % 2 == a % 2
  {
  }

  lemma LowBitSum(a: nat, b: nat)
    ensures (a % 2 + b) % 2 == (a + b) % 2
  {
  }

  lemma LowBit(bit: nat, high: nat)
    requires bit < 2
    ensures (bit + 2 * high) % 2 == bit && (bit + 2 * high) / 2 == high
  {
  }

  lemma XorStep(a: nat, b: nat, bits: nat)
    requires bits > 0
    ensures XorBits(a, b, bits) == (a % 2 + b) % 2 + 2 * XorBits(a / 2, b / 2, bits - 1)
  {
    LowBitSum(a, b);
  }

  lemma {:induction false} XorBitsTwice(a: nat, b: nat, bits: nat)
    requires a < Pow2(bits)
    ensures XorBits(XorBits(a, b, bits), b, bits) == a
  {
    if bits > 0 {
      var bit, high := (a + b) % 2, XorBits(a / 2, b / 2, bits - 1);
      LowBit(bit, high);
      XorBitsTwice(a / 2, b / 2, bits - 1);
      Parity(a, b);
      XorStep(bit + 2 * high, b, bits);
    }
  }

  lemma XorTwice(a: Byte, b: Byte)
    ensures Xor(Xor(a, b), b) == a
  {
    assert Pow2(8) == 0x100;
    XorBitsTwice(a, b, 8);
  }

  /** XOR with the key, repeated cyclically; `from` bytes of the payload came before. */
  function Mask(data: Bytes, key: Bytes, from: nat): (r: Bytes)
    requires |key| == 4
    ensures |r| == |data|
  {
    seq(|data|, i requires 0 <= i < |data| => Xor(data[i], key[(from + i) % 4]))
  }

  lemma MaskTwice(data: Bytes, key: Bytes, from: nat)
    requires |key| == 4
    ensures Mask(Mask(data, key, from), key, from) == data
  {
    forall i | 0 <= i < |data| ensures Mask(Mask(data, key, from), key, from)[i] == data[i] {
      XorTwice(data[i], key[(from + i) % 4]);
    }
  }

  lemma MaskSlice(data: Bytes, key: Bytes, start: nat, end: nat)
    requires |key| == 4 && start <= end <= |data|
    ensures Mask(data, key, 0)[start..end] == Mask(data[start..end], key, start)
  {
  }

  /** Bit k of a number. */
  function BitOf(n: nat, k: nat): nat {
    if k == 0 then n % 2 else BitOf(n / 2, k - 1)
  }

  lemma {:induction false} XorBitsAre(a: nat, b: nat, bits: nat, k: nat)
    requires k < bits
    ensures BitOf(XorBits(a, b, bits), k) == (BitOf(a, k) + BitOf(b, k)) % 2
    decreases k
  {
    var bit, high := (a + b) % 2, XorBits(a / 2, b / 2, bits - 1);
    LowBit(bit, high);
    if k > 0 {
      XorBitsAre(a / 2, b / 2, bits - 1, k - 1);
    }
  }

  /** A bit is set exactly if it is set in one of the two bytes. */
  lemma {:induction false} XorIs(a: Byte, b: Byte, k: nat)
    requires k < 8
    ensures BitOf(Xor(a, b), k) == if BitOf(a, k) == BitOf(b, k) then 0 else 1
  {
    assert Pow2(8) == 0x100;
    XorBitsAre(a, b, 8, k);
    BitIsBit(a, k);
    BitIsBit(b, k);
  }

  lemma {:induction false} BitIsBit(n: nat, k: nat)
    ensures BitOf(n, k) < 2
  {
    if k > 0 {
      BitIsBit(n / 2, k - 1);
    }
  }

  /** The number that bytes spell, most significant first. */
  function BigEndian(bytes: Bytes): nat {
    if bytes == [] then 0 else BigEndian(bytes[..|bytes| - 1]) * 0x100 + bytes[|bytes| - 1]
  }

  function ToBigEndian(n: nat, size: nat): (bytes: Bytes)
    ensures |bytes| == size
  {
    if size == 0 then [] else ToBigEndian(n / 0x100, size - 1) + [n % 0x100]
  }

  function Limit(size: nat): nat {
    if size == 0 then 1 else Limit(size - 1) * 0x100
  }

  lemma {:induction false} BigEndianRoundTrip(n: nat, size: nat)
    requires n < Limit(size)
    ensures BigEndian(ToBigEndian(n, size)) == n
  {
    if size > 0 {
      BigEndianRoundTrip(n / 0x100, size - 1);
      assert ToBigEndian(n, size)[..size - 1] == ToBigEndian(n / 0x100, size - 1);
    }
  }

  // ---------------------------------------------------------------------------------------------------
  // Frames and the parts they are delivered in
  // ---------------------------------------------------------------------------------------------------

  /** How the payload length is written: in seven bits, in 16 bits or in 64 bits. */
  datatype LengthForm = Short | Long2 | Long8

  /** `first` is the byte with FIN and the opcode. */
  datatype Frame = Frame(first: Byte, form: LengthForm, key: Bytes, payload: Bytes)

  predicate Sendable(f: Frame) {
    && |f.key| == 4
    && match f.form
       case Short => |f.payload| < 126
       case Long2 => |f.payload| < Limit(2)
       case Long8 => |f.payload| < Limit(8)
  }

  function HeaderBytes(f: Frame): (r: Bytes)
    ensures |r| == 2
  {
    var length := match f.form
                  case Short => if |f.payload| < 126 then |f.payload| else 0
                  case Long2 => 126
                  case Long8 => 127;
    [f.first, 0x80 + length]
  }

  function ExtendedBytes(f: Frame): Bytes {
    match f.form
    case Short => []
    case Long2 => ToBigEndian(|f.payload|, 2)
    case Long8 => ToBigEndian(|f.payload|, 8)
  }

  function MaskedPayload(f: Frame): Bytes
    requires |f.key| == 4
  {
    Mask(f.payload, f.key, 0)
  }

  function Wire(f: Frame): Bytes
    requires |f.key| == 4
  {
    HeaderBytes(f) + (ExtendedBytes(f) + (f.key + MaskedPayload(f)))
  }

  /** The first bytes of the examples in section 5.7 of RFC 6455, masked: a text of five bytes, and binary messages of
      256 bytes and of 64 KiB. */
  lemma FrameExamples(key: Bytes, hello: Bytes, short: Bytes, long: Bytes)
    requires |key| == 4 && |hello| == 5 && |short| == 256 && |long| == 65536
    ensures var f := Frame(0x81, Short, key, hello); HeaderBytes(f) == [0x81, 0x85] && ExtendedBytes(f) == []
    ensures var f := Frame(0x82, Long2, key, short); HeaderBytes(f) == [0x82, 0xFE] && ExtendedBytes(f) == [0x01, 0x00]
    ensures var f := Frame(0x82, Long8, key, long);
            HeaderBytes(f) == [0x82, 0xFF] && ExtendedBytes(f) == [0, 0, 0, 0, 0, 0x01, 0x00, 0x00]
  {
  }

  /** Section 5.3 of RFC 6455: byte i of the payload is masked with byte i modulo 4 of the key. */
  lemma {:induction false} MaskedBit(f: Frame, i: nat, k: nat)
    requires |f.key| == 4 && i < |f.payload| && k < 8
    ensures BitOf(MaskedPayload(f)[i], k) == if BitOf(f.payload[i], k) == BitOf(f.key[i % 4], k) then 0 else 1
  {
    XorIs(f.payload[i], f.key[i % 4], k);
  }

  /** One packet handed to the application. */
  datatype Part = Part(data: Bytes, continuation: bool, continued: bool, opcode: nat)

  function PartLength(f: Frame, chunk: nat, start: nat): nat
    requires start <= |f.payload|
  {
    if |f.payload| - start <= chunk then |f.payload| - start else chunk
  }

  function PartAt(f: Frame, chunk: nat, start: nat): Part
    requires start <= |f.payload|
  {
    var end := start + PartLength(f, chunk, start);
    Part(f.payload[start..end], start > 0, end < |f.payload|, f.first % 0x10)
  }

  /** The parts of the payload from `start` on. */
  function PartsFrom(f: Frame, chunk: nat, start: nat): seq<Part>
    requires 0 < chunk && start <= |f.payload|
    decreases |f.payload| - start
  {
    [PartAt(f, chunk, start)]
    + (if |f.payload| - start <= chunk then [] else PartsFrom(f, chunk, start + chunk))
  }

  function AllParts(frames: seq<Frame>, chunk: nat): seq<Part>
    requires 0 < chunk
  {
    if frames == [] then [] else PartsFrom(frames[0], chunk, 0) + AllParts(frames[1..], chunk)
  }

  function Joined(parts: seq<Part>): Bytes {
    if parts == [] then [] else parts[0].data + Joined(parts[1..])
  }

  lemma PartsStep(f: Frame, chunk: nat, start: nat)
    requires 0 < chunk && start <= |f.payload|
    ensures var end := start + PartLength(f, chunk, start);
            PartsFrom(f, chunk, start)
            == [PartAt(f, chunk, start)] + if end == |f.payload| then [] else PartsFrom(f, chunk, end)
  {
  }

  lemma {:induction false} JoinedStep(part: Part, later: seq<Part>)
    ensures Joined([part] + later) == part.data + Joined(later)
  {
    assert ([part] + later)[1..] == later;
  }

  lemma JoinSlices(bytes: Bytes, start: nat, end: nat)
    requires start <= end <= |bytes|
    ensures bytes[start..end] + bytes[end..] == bytes[start..]
  {
  }

  /** Together the parts are the payload. */
  lemma {:induction false} PartsArePayload(f: Frame, chunk: nat, start: nat)
    requires 0 < chunk && start <= |f.payload|
    ensures Joined(PartsFrom(f, chunk, start)) == f.payload[start..]
    decreases |f.payload| - start
  {
    var part, end := PartAt(f, chunk, start), start + PartLength(f, chunk, start);
    var later := if end == |f.payload| then [] else PartsFrom(f, chunk, end);
    PartsStep(f, chunk, start);
    JoinedStep(part, later);
    if end < |f.payload| {
      PartsArePayload(f, chunk, end);
    }
    assert Joined(later) == f.payload[end..];
    JoinSlices(f.payload, start, end);
  }

  /** Every part but the last has exactly `chunk` bytes and is flagged continued, the last one has at most that
      many and is not; only the first part of a frame is no continuation. */
  lemma {:induction false} PartIsFlagged(f: Frame, chunk: nat, start: nat, i: nat)
    requires 0 < chunk && start <= |f.payload| && i < |PartsFrom(f, chunk, start)|
    ensures var parts := PartsFrom(f, chunk, start);
            && |parts[i].data| <= chunk && (i < |parts| - 1 ==> |parts[i].data| == chunk)
            && (parts[i].continuation <==> start > 0 || i > 0)
            && (parts[i].continued <==> i < |parts| - 1)
            && parts[i].opcode == f.first % 0x10
    decreases i
  {
    var parts, end := PartsFrom(f, chunk, start), start + PartLength(f, chunk, start);
    PartsStep(f, chunk, start);
    if i > 0 {
      assert parts[i] == PartsFrom(f, chunk, end)[i - 1];
      PartIsFlagged(f, chunk, end, i - 1);
    } else if end < |f.payload| {
      PartsStep(f, chunk, end);
    }
  }

  // ---------------------------------------------------------------------------------------------------
  // The protocol
  // ---------------------------------------------------------------------------------------------------

  datatype State = Header | Extended2 | Extended8 | MaskingKey | Payload

  /** The protocol's fields and the packet under assembly (`data` and its two flags). */
  datatype Ws = Ws(state: State, wanted: nat, got: nat, length: nat, received: nat, inPackage: nat, demaskIx: nat,
                   opcode: nat, header: Bytes, extended: Bytes, key: Bytes,
                   data: Bytes, continuation: bool, continued: bool)

  predicate Sized(w: Ws) {
    |w.header| == 2 && |w.extended| == 8 && |w.key| == 4
  }

  /** What get_wanted_amount asks for when the previous request has been met. */
  function Request(w: Ws, chunk: nat): nat
    requires w.received <= w.length && w.inPackage <= chunk
  {
    match w.state
    case Header => 2
    case Extended2 => 2
    case Extended8 => 8
    case MaskingKey => 4
    case Payload => if w.length - w.received <= chunk - w.inPackage then w.length - w.received else chunk - w.inPackage
  }

  /** The buffer that get_write_pos points into. */
  function Target(w: Ws): Bytes {
    match w.state
    case Header => w.header
    case Extended2 => w.extended
    case Extended8 => w.extended
    case MaskingKey => w.key
    case Payload => w.data
  }

  /** Between reads, whatever bytes have arrived: an unmet request has the buffer it needs, and a part under
      assembly neither passes the chunk size nor the payload. */
  predicate Valid(w: Ws, chunk: nat) {
    && 0 < chunk && Sized(w) && !w.continuation && !w.continued
    && w.inPackage <= w.received <= w.length && w.inPackage <= chunk
    && (w.wanted > 0 ==> w.got + w.wanted <= |Target(w)|)
    && if w.state == Payload then
         && w.received < w.length
         && |w.data| == w.inPackage + w.wanted
         && (w.wanted == 0 ==> w.inPackage == 0)
         && (w.wanted > 0 ==>
               && w.got == w.inPackage && w.received + w.wanted <= w.length && |w.data| <= chunk
               && (w.received + w.wanted == w.length || |w.data| == chunk))
       else
         w.received == 0 && w.data == []
  }

  function Prepared(w: Ws, chunk: nat): (v: Ws)
    requires w.received <= w.length && w.inPackage <= chunk
  {
    if w.wanted > 0 then
      w
    else
      var amount := Request(w, chunk);
      w.(got := 0, wanted := amount, data := if w.state == Payload then w.data + Zeros(amount) else w.data)
  }

  function Filled(w: Ws, bytes: Bytes): Ws
    requires w.got + |bytes| <= |Target(w)|
  {
    var buffer := Overwrite(Target(w), w.got, bytes);
    match w.state
    case Header => w.(header := buffer)
    case Extended2 => w.(extended := buffer)
    case Extended8 => w.(extended := buffer)
    case MaskingKey => w.(key := buffer)
    case Payload => w.(data := buffer)
  }

  predicate IsMasked(w: Ws)
    requires Sized(w)
  {
    w.header[1] >= 0x80
  }

  predicate IsComplete(w: Ws, chunk: nat) {
    w.state == Payload && (w.received == w.length || w.inPackage == chunk)
  }

  /** The state that follows when all requested bytes have arrived. */
  function NextState(w: Ws, length: nat): Ws
    requires Sized(w)
  {
    match w.state
    case Header =>
      var size := w.header[1] % 0x80;
      w.(opcode := w.header[0] % 0x10, length := size,
         state := if size == 126 then Extended2 else if size == 127 then Extended8
                  else if IsMasked(w) then MaskingKey else Payload)
    case Extended2 => w.(length := BigEndian(w.extended[..2]), state := MaskingKey)
    case Extended8 => w.(length := BigEndian(w.extended), state := MaskingKey)
    case MaskingKey => w.(state := Payload)
    case Payload => w.(received := w.received + length, inPackage := w.inPackage + length)
  }

  /** A complete part: cut to the bytes received, unmasked, and flagged. */
  function Finished(w: Ws, chunk: nat): Ws
    requires Sized(w) && w.inPackage <= |w.data|
  {
    var data := w.data[..w.inPackage];
    w.(data := if IsMasked(w) then Mask(data, w.key, w.demaskIx) else data,
       demaskIx := if IsMasked(w) then w.demaskIx + |data| else w.demaskIx,
       continuation := w.continuation || w.received > chunk,
       continued := w.continued || w.received < w.length)
  }

  function Advanced(w: Ws, length: nat, chunk: nat): Ws
    requires Sized(w) && length <= w.wanted
    requires w.inPackage + (if w.state == Payload then length else 0) <= |w.data|
  {
    var v := w.(wanted := w.wanted - length, got := w.got + length);
    if v.wanted == 0 then
      var next := NextState(v, length);
      if IsComplete(next, chunk) then Finished(next, chunk) else next
    else if w.state == Payload then
      v.(received := v.received + length, inPackage := v.inPackage + length)
    else
      v
  }

  /** packet_consumed, with a new packet in place of the delivered one. */
  function Consumed(w: Ws): Ws {
    var v := w.(inPackage := 0, data := [], continuation := false, continued := false);
    if w.received >= w.length then
      v.(state := Header, received := 0, got := 0, demaskIx := 0, wanted := 0)
    else
      v
  }

  /** The outcome of one read: the protocol and the parts it delivered. */
  datatype Fed = Fed(ws: Ws, parts: seq<Part>)

  function Delivered(a: Ws, chunk: nat): Fed {
    if IsComplete(a, chunk) then
      Fed(Consumed(a), [Part(a.data, a.continuation, a.continued, a.opcode)])
    else
      Fed(a, [])
  }

  function Feed(w: Ws, bytes: Bytes, chunk: nat): Fed
    requires Valid(w, chunk) && 1 <= |bytes| <= w.wanted
  {
    Delivered(Advanced(Filled(w, bytes), |bytes|, chunk), chunk)
  }

  lemma FilledValid(w: Ws, bytes: Bytes, chunk: nat)
    requires Valid(w, chunk) && 1 <= |bytes| <= w.wanted
    ensures var v := Filled(w, bytes);
            Valid(v, chunk) && v.state == w.state && v.wanted == w.wanted && |Target(v)| == |Target(w)|
  {
  }

  /** Part of the request has arrived. */
  lemma AdvancedInside(v: Ws, n: nat, chunk: nat)
    requires Valid(v, chunk) && 1 <= n < v.wanted
    ensures var a := Advanced(v, n, chunk);
            && Valid(a, chunk) && !IsComplete(a, chunk) && a.state == v.state && Target(a) == Target(v)
            && a == (if v.state == Payload then
                       v.(wanted := v.wanted - n, got := v.got + n, received := v.received + n,
                          inPackage := v.inPackage + n)
                     else
                       v.(wanted := v.wanted - n, got := v.got + n))
  {
  }

  /** A whole header, length or key has arrived; only an empty payload is complete at once. */
  lemma AdvancedField(v: Ws, chunk: nat)
    requires Valid(v, chunk) && v.wanted > 0 && v.state != Payload
    ensures var a := Advanced(v, v.wanted, chunk);
            var next := NextState(v.(wanted := 0, got := v.got + v.wanted), v.wanted);
            if next.state == Payload && next.length == 0 then
              a == Finished(next, chunk) && IsComplete(a, chunk) && a.data == [] && Valid(Consumed(a), chunk)
            else
              a == next && !IsComplete(a, chunk) && Valid(a, chunk)
  {
  }

  /** A whole part has arrived. */
  lemma AdvancedPart(v: Ws, chunk: nat)
    requires Valid(v, chunk) && v.wanted > 0 && v.state == Payload
    ensures var a := Advanced(v, v.wanted, chunk);
            var next := v.(wanted := 0, got := v.got + v.wanted, received := v.received + v.wanted,
                           inPackage := v.inPackage + v.wanted);
            a == Finished(next, chunk) && IsComplete(a, chunk) && |a.data| == |v.data| && Valid(Consumed(a), chunk)
  {
    var next := v.(wanted := 0, got := v.got + v.wanted, received := v.received + v.wanted,
                   inPackage := v.inPackage + v.wanted);
    assert next == NextState(v.(wanted := 0, got := v.got + v.wanted), v.wanted);
  }

  /** A valid state, and no part longer than a chunk. */
  predicate Safe(fed: Fed, chunk: nat) {
    Valid(fed.ws, chunk) && forall part :: part in fed.parts ==> |part.data| <= chunk
  }

  lemma PartStaysValid(v: Ws, chunk: nat)
    requires Valid(v, chunk) && v.wanted > 0 && v.state == Payload
    ensures Safe(Delivered(Advanced(v, v.wanted, chunk), chunk), chunk)
  {
    AdvancedPart(v, chunk);
    DeliveredPart(Advanced(v, v.wanted, chunk), chunk);
  }

  lemma FieldStaysValid(v: Ws, chunk: nat)
    requires Valid(v, chunk) && v.wanted > 0 && v.state != Payload
    ensures Safe(Delivered(Advanced(v, v.wanted, chunk), chunk), chunk)
  {
    AdvancedField(v, chunk);
    DeliveredPart(Advanced(v, v.wanted, chunk), chunk);
  }

  lemma DeliveredStaysValid(v: Ws, n: nat, chunk: nat)
    requires Valid(v, chunk) && 1 <= n <= v.wanted
    ensures Safe(Delivered(Advanced(v, n, chunk), chunk), chunk)
  {
    if n < v.wanted {
      AdvancedInside(v, n, chunk);
    } else if v.state == Payload {
      PartStaysValid(v, chunk);
    } else {
      FieldStaysValid(v, chunk);
    }
  }

  lemma DeliveredPart(a: Ws, chunk: nat)
    requires IsComplete(a, chunk) ==> Valid(Consumed(a), chunk) && |a.data| <= chunk
    requires !IsComplete(a, chunk) ==> Valid(a, chunk)
    ensures Safe(Delivered(a, chunk), chunk)
  {
  }

  /** Inside a packet get_wanted_amount never asks for 0 bytes, and what it asks for fits behind the write
      position; whatever bytes then arrive, this stays so and a delivered part is no longer than a chunk. */
  lemma WritesStayInside(w: Ws, chunk: nat, bytes: Bytes)
    requires Valid(w, chunk) && 1 <= |bytes| <= Prepared(w, chunk).wanted
    ensures var v := Prepared(w, chunk);
            && Valid(v, chunk) && Prepared(v, chunk) == v
            && v.wanted > 0 && v.got + v.wanted <= |Target(v)|
            && Valid(Feed(v, bytes, chunk).ws, chunk)
            && forall part :: part in Feed(v, bytes, chunk).parts ==> |part.data| <= chunk
  {
    WantsSomething(w, chunk);
    var v := Prepared(w, chunk);
    FilledValid(v, bytes, chunk);
    DeliveredStaysValid(Filled(v, bytes), |bytes|, chunk);
  }

  lemma WantsSomething(w: Ws, chunk: nat)
    requires Valid(w, chunk)
    ensures Prepared(w, chunk).wanted > 0 && Valid(Prepared(w, chunk), chunk)
  {
  }

  /** Reads until the cuts or the bytes run out: each takes between 1 and the wanted number of bytes. */
  datatype Outcome = Outcome(ws: Ws, rest: Bytes, parts: seq<Part>)

  function Transfer(w: Ws, stream: Bytes, cuts: seq<nat>, chunk: nat): Outcome
    requires Valid(w, chunk)
    decreases |cuts|
  {
    if cuts == [] || stream == [] then
      Outcome(w, stream, [])
    else
      WantsSomething(w, chunk);
      var v := Prepared(w, chunk);
      var n := ReadSize(cuts[0], v.wanted, |stream|);
      WritesStayInside(w, chunk, stream[..n]);
      var fed := Feed(v, stream[..n], chunk);
      var later := Transfer(fed.ws, stream[n..], cuts[1..], chunk);
      later.(parts := fed.parts + later.parts)
  }

  // ---------------------------------------------------------------------------------------------------
  // Staying in step
  // ---------------------------------------------------------------------------------------------------

  /** A place inside a frame: `r` bytes of the field named by `state` have arrived; inside the payload the
      field is the part that begins at `start`. */
  datatype Place = Place(state: State, start: nat, r: nat)

  const ORIGIN := Place(Header, 0, 0)

  /** The field of the frame that the place is in. */
  function Field(f: Frame, p: Place, chunk: nat): Bytes
    requires |f.key| == 4 && p.start <= |f.payload|
  {
    match p.state
    case Header => HeaderBytes(f)
    case Extended2 => ExtendedBytes(f)
    case Extended8 => ExtendedBytes(f)
    case MaskingKey => f.key
    case Payload => MaskedPayload(f)[p.start..p.start + PartLength(f, chunk, p.start)]
  }

  /** The bytes of the frame behind that field. */
  function Behind(f: Frame, p: Place, chunk: nat): Bytes
    requires |f.key| == 4 && p.start <= |f.payload|
  {
    match p.state
    case Header => ExtendedBytes(f) + (f.key + MaskedPayload(f))
    case Extended2 => f.key + MaskedPayload(f)
    case Extended8 => f.key + MaskedPayload(f)
    case MaskingKey => MaskedPayload(f)
    case Payload => MaskedPayload(f)[p.start + PartLength(f, chunk, p.start)..]
  }

  ghost predicate PlaceOk(f: Frame, p: Place, chunk: nat) {
    && 0 < chunk && Sendable(f) && p.start <= |f.payload|
    && (p.state == Extended2 ==> f.form == Long2)
    && (p.state == Extended8 ==> f.form == Long8)
    && (p.state != Payload ==> p.start == 0)
    && (p.start > 0 ==> chunk <= p.start)
    && p.r < |Field(f, p, chunk)|
  }

  /** Nothing of the field has been requested yet, or everything that is missing has. */
  ghost predicate Requested(w: Ws, field: Bytes, r: nat) {
    || (w.wanted == 0 && r == 0)
    || (w.wanted > 0 && w.wanted == |field| - r && w.got == r && r <= |Target(w)| && Target(w)[..r] == field[..r])
  }

  /** What the counters say about the place, and what has been learnt from the fields before it. */
  ghost predicate Counters(w: Ws, f: Frame, p: Place) {
    && w.demaskIx == p.start && w.received == p.start + w.inPackage
    && (w.state == Payload ==> w.inPackage == p.r && w.key == f.key)
    && (w.state == Payload || w.state == MaskingKey ==> w.length == |f.payload|)
    && (w.state != Header ==> w.header == HeaderBytes(f) && w.opcode == f.first % 0x10)
  }

  ghost predicate Holds(w: Ws, f: Frame, p: Place, chunk: nat)
    requires PlaceOk(f, p, chunk)
  {
    Valid(w, chunk) && w.state == p.state && Requested(w, Field(f, p, chunk), p.r) && Counters(w, f, p)
  }

  /** In a frame, get_wanted_amount asks exactly for what the field still has. */
  lemma PreparedHolds(w: Ws, f: Frame, p: Place, chunk: nat)
    requires PlaceOk(f, p, chunk) && Holds(w, f, p, chunk)
    ensures var v := Prepared(w, chunk);
            Holds(v, f, p, chunk) && v.wanted == |Field(f, p, chunk)| - p.r > 0
  {
  }

  /** Between frames: the next byte is the first of a frame. */
  ghost predicate AtStart(w: Ws, chunk: nat) {
    Valid(w, chunk) && w.state == Header && w.demaskIx == 0 && w.wanted == 0
  }

  lemma AtStartHolds(w: Ws, f: Frame, chunk: nat)
    requires AtStart(w, chunk) && Sendable(f)
    ensures PlaceOk(f, ORIGIN, chunk) && Holds(w, f, ORIGIN, chunk)
  {
  }

  lemma WholeSlice(field: Bytes, r: nat)
    requires r <= |field|
    ensures field[r..] == field[r..|field|] && field[..|field|] == field
  {
  }

  lemma FilledHolds(w: Ws, f: Frame, p: Place, chunk: nat, n: nat) returns (v: Ws)
    requires PlaceOk(f, p, chunk) && Holds(w, f, p, chunk) && 1 <= n <= w.wanted
    ensures p.r + n <= |Field(f, p, chunk)|
    ensures v == Filled(w, Field(f, p, chunk)[p.r..p.r + n]) && |Target(v)| == |Target(w)|
    ensures Valid(v, chunk) && Target(v)[..p.r + n] == Field(f, p, chunk)[..p.r + n]
    ensures match w.state
            case Header => v == w.(header := v.header)
            case Extended2 => v == w.(extended := v.extended)
            case Extended8 => v == w.(extended := v.extended)
            case MaskingKey => v == w.(key := v.key)
            case Payload => v == w.(data := v.data)
  {
    var field := Field(f, p, chunk);
    OverwriteKeeps(Target(w), field, p.r, n);
    v := Filled(w, field[p.r..p.r + n]);
    FilledValid(w, field[p.r..p.r + n], chunk);
  }

  /** The bytes of the field so far are in place: a read that leaves some wanted goes on from there. */
  lemma InsideRequested(v: Ws, a: Ws, field: Bytes, r: nat, n: nat)
    requires Requested(v, field, r) && 1 <= n < v.wanted && r + n <= |Target(v)|
    requires a.wanted == v.wanted - n && a.got == v.got + n && Target(a) == Target(v)
    requires Target(v)[..r + n] == field[..r + n]
    ensures Requested(a, field, r + n)
  {
  }

  lemma InsideHolds(v: Ws, a: Ws, f: Frame, p: Place, chunk: nat, n: nat)
    requires PlaceOk(f, p, chunk) && Holds(v, f, p, chunk) && 1 <= n < v.wanted
    requires Valid(a, chunk) && a.state == v.state && Target(a) == Target(v)
    requires a.wanted == v.wanted - n && a.got == v.got + n
    requires a == if v.state == Payload then
                    v.(wanted := a.wanted, got := a.got, received := v.received + n, inPackage := v.inPackage + n)
                  else
                    v.(wanted := a.wanted, got := a.got)
    requires Target(v)[..p.r + n] == Field(f, p, chunk)[..p.r + n]
    ensures PlaceOk(f, p.(r := p.r + n), chunk) && Holds(a, f, p.(r := p.r + n), chunk)
  {
    var field, q := Field(f, p, chunk), p.(r := p.r + n);
    InsideRequested(v, a, field, p.r, n);
    InsideCounted(v, a, f, p, n);
    FieldKept(f, p, chunk, q.r);
    assert Requested(a, Field(f, q, chunk), q.r);
  }

  lemma InsideCounted(v: Ws, a: Ws, f: Frame, p: Place, n: nat)
    requires Counters(v, f, p) && v.state == p.state
    requires a == if v.state == Payload then
                    v.(wanted := a.wanted, got := a.got, received := v.received + n, inPackage := v.inPackage + n)
                  else
                    v.(wanted := a.wanted, got := a.got)
    ensures Counters(a, f, p.(r := p.r + n))
  {
  }

  lemma FieldKept(f: Frame, p: Place, chunk: nat, r: nat)
    requires PlaceOk(f, p, chunk) && r < |Field(f, p, chunk)|
    ensures PlaceOk(f, p.(r := r), chunk) && Field(f, p.(r := r), chunk) == Field(f, p, chunk)
  {
  }

  lemma FilledPlace(w: Ws, v: Ws, f: Frame, p: Place, chunk: nat, n: nat)
    requires PlaceOk(f, p, chunk) && Holds(w, f, p, chunk) && 1 <= n < w.wanted && p.r + n <= |Field(f, p, chunk)|
    requires Valid(v, chunk) && |Target(v)| == |Target(w)| && Target(v)[..p.r + n] == Field(f, p, chunk)[..p.r + n]
    requires match w.state
             case Header => v == w.(header := v.header)
             case Extended2 => v == w.(extended := v.extended)
             case Extended8 => v == w.(extended := v.extended)
             case MaskingKey => v == w.(key := v.key)
             case Payload => v == w.(data := v.data)
    ensures Holds(v, f, p, chunk)
  {
    assert Target(v)[..p.r] == Target(v)[..p.r + n][..p.r];
    assert Field(f, p, chunk)[..p.r] == Field(f, p, chunk)[..p.r + n][..p.r];
  }

  lemma FilledInside(w: Ws, f: Frame, p: Place, chunk: nat, n: nat) returns (v: Ws)
    requires PlaceOk(f, p, chunk) && Holds(w, f, p, chunk) && 1 <= n < w.wanted
    ensures p.r + n <= |Field(f, p, chunk)| && v == Filled(w, Field(f, p, chunk)[p.r..p.r + n])
    ensures Holds(v, f, p, chunk) && v.wanted == w.wanted
    ensures Target(v)[..p.r + n] == Field(f, p, chunk)[..p.r + n]
  {
    v := FilledHolds(w, f, p, chunk, n);
    FilledPlace(w, v, f, p, chunk, n);
  }

  lemma AfterInside(v: Ws, f: Frame, p: Place, chunk: nat, n: nat)
    requires PlaceOk(f, p, chunk) && Holds(v, f, p, chunk) && 1 <= n < v.wanted
    requires Target(v)[..p.r + n] == Field(f, p, chunk)[..p.r + n]
    ensures !IsComplete(Advanced(v, n, chunk), chunk)
    ensures PlaceOk(f, p.(r := p.r + n), chunk) && Holds(Advanced(v, n, chunk), f, p.(r := p.r + n), chunk)
  {
    AdvancedInside(v, n, chunk);
    InsideHolds(v, Advanced(v, n, chunk), f, p, chunk, n);
  }

  lemma FeedInside(w: Ws, f: Frame, p: Place, chunk: nat, n: nat)
    requires PlaceOk(f, p, chunk) && Holds(w, f, p, chunk) && w.wanted > 0 && 1 <= n && p.r + n < |Field(f, p, chunk)|
    ensures var fed := Feed(w, Field(f, p, chunk)[p.r..p.r + n], chunk);
            fed.parts == [] && PlaceOk(f, p.(r := p.r + n), chunk) && Holds(fed.ws, f, p.(r := p.r + n), chunk)
  {
    var v := FilledInside(w, f, p, chunk, n);
    AfterInside(v, f, p, chunk, n);
    assert |Field(f, p, chunk)[p.r..p.r + n]| == n;
  }

  /** The first place of the field behind the header. */
  function AfterHeader(f: Frame): Place {
    Place(match f.form case Short => MaskingKey case Long2 => Extended2 case Long8 => Extended8, 0, 0)
  }

  lemma HeaderRead(v: Ws, f: Frame, chunk: nat)
    requires Sendable(f) && Valid(v, chunk) && v.state == Header && v.header == HeaderBytes(f) && v.wanted > 0
    ensures Advanced(v, v.wanted, chunk)
         == v.(wanted := 0, got := v.got + v.wanted, opcode := f.first % 0x10, length := HeaderBytes(f)[1] % 0x80,
               state := AfterHeader(f).state)
    ensures !IsComplete(Advanced(v, v.wanted, chunk), chunk) && Valid(Advanced(v, v.wanted, chunk), chunk)
    ensures f.form == Short ==> HeaderBytes(f)[1] % 0x80 == |f.payload|
  {
    AdvancedField(v, chunk);
  }

  lemma FeedHeader(w: Ws, f: Frame, p: Place, chunk: nat)
    requires PlaceOk(f, p, chunk) && Holds(w, f, p, chunk) && w.wanted > 0 && p.state == Header
    ensures var fed := Feed(w, HeaderBytes(f)[p.r..], chunk);
            fed.parts == [] && PlaceOk(f, AfterHeader(f), chunk) && Holds(fed.ws, f, AfterHeader(f), chunk)
  {
    var v := FilledHolds(w, f, p, chunk, 2 - p.r);
    WholeSlice(HeaderBytes(f), p.r);
    WholeSlice(v.header, 0);
    HeaderRead(v, f, chunk);
  }

  lemma LengthRead(v: Ws, f: Frame, chunk: nat)
    requires Sendable(f) && Valid(v, chunk) && v.wanted > 0 && f.form != Short
    requires v.state == (if f.form == Long2 then Extended2 else Extended8)
    requires v.extended[..|ExtendedBytes(f)|] == ExtendedBytes(f)
    ensures Advanced(v, v.wanted, chunk)
         == v.(wanted := 0, got := v.got + v.wanted, length := |f.payload|, state := MaskingKey)
    ensures !IsComplete(Advanced(v, v.wanted, chunk), chunk) && Valid(Advanced(v, v.wanted, chunk), chunk)
  {
    AdvancedField(v, chunk);
    BigEndianRoundTrip(|f.payload|, if f.form == Long2 then 2 else 8);
    WholeSlice(v.extended, 0);
  }

  /** The key comes next. */
  lemma MaskingNext(a: Ws, f: Frame, chunk: nat)
    requires Sendable(f) && Valid(a, chunk) && a.state == MaskingKey && a.wanted == 0
    requires a.demaskIx == 0 && a.received == a.inPackage && a.length == |f.payload|
    requires a.header == HeaderBytes(f) && a.opcode == f.first % 0x10
    ensures var q := Place(MaskingKey, 0, 0); PlaceOk(f, q, chunk) && Holds(a, f, q, chunk)
  {
  }

  lemma ExtendedFilled(w: Ws, f: Frame, p: Place, chunk: nat) returns (v: Ws)
    requires PlaceOk(f, p, chunk) && Holds(w, f, p, chunk) && w.wanted > 0
    requires p.state == Extended2 || p.state == Extended8
    ensures v == Filled(w, ExtendedBytes(f)[p.r..]) && v.wanted == w.wanted == |ExtendedBytes(f)| - p.r
    ensures Valid(v, chunk) && v.state == p.state && v.extended[..|ExtendedBytes(f)|] == ExtendedBytes(f)
    ensures v.demaskIx == 0 && v.received == v.inPackage && v.header == HeaderBytes(f) && v.opcode == f.first % 0x10
  {
    var field := ExtendedBytes(f);
    v := FilledHolds(w, f, p, chunk, |field| - p.r);
    WholeSlice(field, p.r);
  }

  lemma FeedExtended(w: Ws, f: Frame, p: Place, chunk: nat)
    requires PlaceOk(f, p, chunk) && Holds(w, f, p, chunk) && w.wanted > 0
    requires p.state == Extended2 || p.state == Extended8
    ensures var fed := Feed(w, ExtendedBytes(f)[p.r..], chunk);
            var q := Place(MaskingKey, 0, 0);
            fed.parts == [] && PlaceOk(f, q, chunk) && Holds(fed.ws, f, q, chunk)
  {
    var v := ExtendedFilled(w, f, p, chunk);
    LengthRead(v, f, chunk);
    MaskingNext(Advanced(v, v.wanted, chunk), f, chunk);
  }

  lemma FeedKey(w: Ws, f: Frame, p: Place, chunk: nat)
    requires PlaceOk(f, p, chunk) && Holds(w, f, p, chunk) && w.wanted > 0 && p.state == MaskingKey
    ensures var fed := Feed(w, f.key[p.r..], chunk);
            var q := Place(Payload, 0, 0);
            if f.payload == [] then fed.parts == [PartAt(f, chunk, 0)] && AtStart(fed.ws, chunk)
            else fed.parts == [] && PlaceOk(f, q, chunk) && Holds(fed.ws, f, q, chunk)
  {
    var v := FilledHolds(w, f, p, chunk, 4 - p.r);
    WholeSlice(f.key, p.r);
    WholeSlice(v.key, 0);
    AdvancedField(v, chunk);
  }

  /** A part whose bytes are all there is finished unmasked and with its flags. */
  lemma FinishedIsPart(next: Ws, f: Frame, start: nat, chunk: nat)
    requires 0 < chunk && Sendable(f) && start < |f.payload| && (start > 0 ==> chunk <= start)
    requires Sized(next) && next.header == HeaderBytes(f) && next.key == f.key && next.opcode == f.first % 0x10
    requires next.demaskIx == start && next.received == start + PartLength(f, chunk, start)
    requires next.length == |f.payload|
    requires next.inPackage == |next.data| && !next.continuation && !next.continued
    requires next.data == MaskedPayload(f)[start..next.received]
    ensures var a := Finished(next, chunk);
            && Part(a.data, a.continuation, a.continued, a.opcode) == PartAt(f, chunk, start)
            && a.demaskIx == next.received
  {
    MaskSlice(f.payload, f.key, start, next.received);
    MaskTwice(f.payload[start..next.received], f.key, start);
    WholeSlice(next.data, 0);
    assert IsMasked(next);
  }

  /** The part has been delivered; what follows is its successor or the next frame. */
  ghost predicate PartEnds(fed: Fed, f: Frame, start: nat, chunk: nat)
    requires start <= |f.payload|
  {
    var end := start + PartLength(f, chunk, start);
    var q := Place(Payload, end, 0);
    && fed.parts == [PartAt(f, chunk, start)]
    && (if end == |f.payload| then AtStart(fed.ws, chunk) else PlaceOk(f, q, chunk) && Holds(fed.ws, f, q, chunk))
  }

  ghost predicate PartReady(v: Ws, f: Frame, start: nat, chunk: nat) {
    && 0 < chunk && Sendable(f) && start < |f.payload| && (start > 0 ==> chunk <= start)
    && Valid(v, chunk) && v.state == Payload && v.wanted > 0 && v.length == |f.payload|
    && v.header == HeaderBytes(f) && v.key == f.key && v.opcode == f.first % 0x10
    && v.demaskIx == start && v.received == start + v.inPackage
    && v.data == MaskedPayload(f)[start..start + PartLength(f, chunk, start)]
  }

  /** After a delivered part the protocol is at the next part or at the next frame. */
  lemma NextPartHolds(w: Ws, f: Frame, start: nat, chunk: nat)
    requires 0 < chunk && Sendable(f) && start < |f.payload| && (start > 0 ==> chunk <= start)
    requires Valid(w, chunk) && w.wanted == 0 && w.inPackage == 0
    requires var end := start + PartLength(f, chunk, start);
             if end == |f.payload| then w.state == Header && w.demaskIx == 0
             else w.state == Payload && Counters(w, f, Place(Payload, end, 0))
    ensures var end := start + PartLength(f, chunk, start);
            var q := Place(Payload, end, 0);
            if end == |f.payload| then AtStart(w, chunk) else PlaceOk(f, q, chunk) && Holds(w, f, q, chunk)
  {
  }

  /** All bytes of a part are in place and its last request is met. */
  lemma PartDelivered(next: Ws, f: Frame, start: nat, chunk: nat)
    requires 0 < chunk && Sendable(f) && start < |f.payload| && (start > 0 ==> chunk <= start)
    requires Sized(next) && next.header == HeaderBytes(f) && next.key == f.key && next.opcode == f.first % 0x10
    requires next.state == Payload && next.wanted == 0 && next.length == |f.payload|
    requires next.demaskIx == start && next.received == start + PartLength(f, chunk, start)
    requires next.inPackage == |next.data| && !next.continuation && !next.continued
    requires next.data == MaskedPayload(f)[start..next.received]
    requires var a := Finished(next, chunk); IsComplete(a, chunk) && Valid(Consumed(a), chunk)
    ensures PartEnds(Delivered(Finished(next, chunk), chunk), f, start, chunk)
  {
    FinishedIsPart(next, f, start, chunk);
    NextPartHolds(Consumed(Finished(next, chunk)), f, start, chunk);
  }

  lemma PartRead(v: Ws, f: Frame, start: nat, chunk: nat)
    requires PartReady(v, f, start, chunk)
    ensures PartEnds(Delivered(Advanced(v, v.wanted, chunk), chunk), f, start, chunk)
  {
    AdvancedPart(v, chunk);
    PartDelivered(v.(wanted := 0, got := v.got + v.wanted, received := v.received + v.wanted,
                     inPackage := v.inPackage + v.wanted), f, start, chunk);
  }

  lemma FeedWhole(w: Ws, bytes: Bytes, f: Frame, start: nat, chunk: nat)
    requires Valid(w, chunk) && 1 <= |bytes| == w.wanted && Filled(w, bytes).wanted == w.wanted
    requires PartReady(Filled(w, bytes), f, start, chunk)
    ensures PartEnds(Feed(w, bytes, chunk), f, start, chunk)
  {
    PartRead(Filled(w, bytes), f, start, chunk);
  }

  lemma SameWhole(data: Bytes, field: Bytes, k: nat)
    requires k == |data| == |field| && data[..k] == field[..k]
    ensures data == field
  {
    assert data[..k] == data && field[..k] == field;
  }

  lemma PartFilled(w: Ws, f: Frame, p: Place, chunk: nat) returns (v: Ws)
    requires PlaceOk(f, p, chunk) && Holds(w, f, p, chunk) && w.wanted > 0 && p.state == Payload
    ensures PartReady(v, f, p.start, chunk) && v.wanted == w.wanted == |Field(f, p, chunk)| - p.r
    ensures v == Filled(w, Field(f, p, chunk)[p.r..])
  {
    var field, n := Field(f, p, chunk), w.wanted;
    v := FilledHolds(w, f, p, chunk, n);
    WholeSlice(field, p.r);
    SameWhole(v.data, field, p.r + n);
    ReadyWhenFilled(w, v, f, p, chunk);
  }

  lemma ReadyWhenFilled(w: Ws, v: Ws, f: Frame, p: Place, chunk: nat)
    requires 0 < chunk && Sendable(f) && p.start < |f.payload| && (p.start > 0 ==> chunk <= p.start)
    requires p.state == Payload && w.state == Payload && w.wanted > 0 && Counters(w, f, p)
    requires Valid(v, chunk) && v == w.(data := v.data) && v.data == Field(f, p, chunk)
    ensures PartReady(v, f, p.start, chunk)
  {
  }

  /** The last bytes of a part. */
  lemma FeedPart(w: Ws, f: Frame, p: Place, chunk: nat)
    requires PlaceOk(f, p, chunk) && Holds(w, f, p, chunk) && w.wanted > 0 && p.state == Payload
    ensures PartEnds(Feed(w, Field(f, p, chunk)[p.r..], chunk), f, p.start, chunk)
  {
    var v := PartFilled(w, f, p, chunk);
    FeedWhole(w, Field(f, p, chunk)[p.r..], f, p.start, chunk);
  }

  // ---------------------------------------------------------------------------------------------------
  // Whole streams
  // ---------------------------------------------------------------------------------------------------

  function Wires(frames: seq<Frame>): Bytes
    requires forall i :: 0 <= i < |frames| ==> Sendable(frames[i])
  {
    if frames == [] then [] else assert Sendable(frames[0]); Wire(frames[0]) + Wires(frames[1..])
  }

  /** The bytes of the frame that have not arrived at this place. */
  function Left(f: Frame, p: Place, chunk: nat): Bytes
    requires |f.key| == 4 && p.start <= |f.payload| && p.r <= |Field(f, p, chunk)|
  {
    Field(f, p, chunk)[p.r..] + Behind(f, p, chunk)
  }

  /** A field has ended: either with it the frame, its last part delivered, or the next field begins; the parts
      delivered are those that are then no longer due. */
  ghost predicate Outcomes(fed: Fed, f: Frame, p: Place, chunk: nat, ended: bool, q: Place)
    requires PlaceOk(f, p, chunk)
  {
    if ended then
      Behind(f, p, chunk) == [] && AtStart(fed.ws, chunk) && fed.parts == PartsFrom(f, chunk, p.start)
    else
      && PlaceOk(f, q, chunk) && Holds(fed.ws, f, q, chunk)
      && Behind(f, p, chunk) == Left(f, q, chunk)
      && fed.parts + PartsFrom(f, chunk, q.start) == PartsFrom(f, chunk, p.start)
  }

  lemma HeaderEnds(fed: Fed, f: Frame, p: Place, chunk: nat)
    requires PlaceOk(f, p, chunk) && p.state == Header && fed.parts == []
    requires PlaceOk(f, AfterHeader(f), chunk) && Holds(fed.ws, f, AfterHeader(f), chunk)
    ensures Outcomes(fed, f, p, chunk, false, AfterHeader(f))
  {
    WholeSlice(Field(f, AfterHeader(f), chunk), 0);
    assert fed.parts + PartsFrom(f, chunk, 0) == PartsFrom(f, chunk, 0);
  }

  lemma ExtendedEnds(fed: Fed, f: Frame, p: Place, chunk: nat)
    requires PlaceOk(f, p, chunk) && (p.state == Extended2 || p.state == Extended8) && fed.parts == []
    requires PlaceOk(f, Place(MaskingKey, 0, 0), chunk) && Holds(fed.ws, f, Place(MaskingKey, 0, 0), chunk)
    ensures Outcomes(fed, f, p, chunk, false, Place(MaskingKey, 0, 0))
  {
    WholeSlice(f.key, 0);
    assert fed.parts + PartsFrom(f, chunk, 0) == PartsFrom(f, chunk, 0);
  }

  lemma KeyEnds(fed: Fed, f: Frame, p: Place, chunk: nat)
    requires PlaceOk(f, p, chunk) && p.state == MaskingKey
    requires var q := Place(Payload, 0, 0);
             if f.payload == [] then fed.parts == [PartAt(f, chunk, 0)] && AtStart(fed.ws, chunk)
             else fed.parts == [] && PlaceOk(f, q, chunk) && Holds(fed.ws, f, q, chunk)
    ensures Outcomes(fed, f, p, chunk, f.payload == [], Place(Payload, 0, 0))
  {
    var q := Place(Payload, 0, 0);
    assert Field(f, q, chunk) + Behind(f, q, chunk) == MaskedPayload(f);
    WholeSlice(Field(f, q, chunk), 0);
    assert fed.parts == [] ==> fed.parts + PartsFrom(f, chunk, 0) == PartsFrom(f, chunk, 0);
  }

  lemma SplitTail(bytes: Bytes, start: nat, n: nat)
    requires start + n <= |bytes|
    ensures bytes[start..start + n][0..] + bytes[start + n..] == bytes[start..]
  {
  }

  lemma PayloadEnds(fed: Fed, f: Frame, p: Place, chunk: nat, end: nat)
    requires PlaceOk(f, p, chunk) && p.state == Payload && PartEnds(fed, f, p.start, chunk)
    requires end == p.start + PartLength(f, chunk, p.start)
    ensures Outcomes(fed, f, p, chunk, end == |f.payload|, Place(Payload, end, 0))
  {
    PartsStep(f, chunk, p.start);
    if end < |f.payload| {
      NextPart(f, p, chunk, end);
      Prepended(fed.parts, PartAt(f, chunk, p.start), PartsFrom(f, chunk, end), PartsFrom(f, chunk, p.start));
    } else {
      LastPart(f, p, chunk);
      assert fed.parts == PartsFrom(f, chunk, p.start);
    }
  }

  lemma Prepended(parts: seq<Part>, part: Part, later: seq<Part>, all: seq<Part>)
    requires parts == [part] && all == [part] + later
    ensures parts + later == all
  {
  }

  lemma LastPart(f: Frame, p: Place, chunk: nat)
    requires PlaceOk(f, p, chunk) && p.state == Payload && p.start + PartLength(f, chunk, p.start) == |f.payload|
    ensures Behind(f, p, chunk) == []
  {
  }

  lemma NextPart(f: Frame, p: Place, chunk: nat, end: nat)
    requires PlaceOk(f, p, chunk) && p.state == Payload && end == p.start + PartLength(f, chunk, p.start) < |f.payload|
    ensures Behind(f, p, chunk) == Left(f, Place(Payload, end, 0), chunk)
  {
    SplitTail(MaskedPayload(f), end, PartLength(f, chunk, end));
  }

  /** The rest of a field arrives. */
  lemma FieldEnds(w: Ws, f: Frame, p: Place, chunk: nat) returns (ended: bool, q: Place)
    requires PlaceOk(f, p, chunk) && Holds(w, f, p, chunk) && w.wanted > 0
    ensures Outcomes(Feed(w, Field(f, p, chunk)[p.r..], chunk), f, p, chunk, ended, q)
  {
    var fed := Feed(w, Field(f, p, chunk)[p.r..], chunk);
    match p.state
    case Header =>
      FeedHeader(w, f, p, chunk);
      HeaderEnds(fed, f, p, chunk);
      ended, q := false, AfterHeader(f);
    case Extended2 =>
      FeedExtended(w, f, p, chunk);
      ExtendedEnds(fed, f, p, chunk);
      ended, q := false, Place(MaskingKey, 0, 0);
    case Extended8 =>
      FeedExtended(w, f, p, chunk);
      ExtendedEnds(fed, f, p, chunk);
      ended, q := false, Place(MaskingKey, 0, 0);
    case MaskingKey =>
      FeedKey(w, f, p, chunk);
      KeyEnds(fed, f, p, chunk);
      ended, q := f.payload == [], Place(Payload, 0, 0);
    case Payload =>
      FeedPart(w, f, p, chunk);
      q := Place(Payload, p.start + PartLength(f, chunk, p.start), 0);
      PayloadEnds(fed, f, p, chunk, q.start);
      ended := q.start == |f.payload|;
  }

  predicate AllSendable(frames: seq<Frame>) {
    forall i :: 0 <= i < |frames| ==> Sendable(frames[i])
  }

  /** The outcome of a transfer against the parts that are due: what is delivered is a prefix of them, and all of
      them when no byte is left. */
  ghost predicate Delivers(t: Outcome, due: seq<Part>) {
    t.parts <= due && (t.rest == [] ==> t.parts == due)
  }

  lemma FirstRead(w: Ws, stream: Bytes, cuts: seq<nat>, chunk: nat) returns (n: nat, fed: Fed)
    requires Valid(w, chunk) && cuts != [] && stream != []
    ensures 1 <= n <= Prepared(w, chunk).wanted && n <= |stream|
    ensures Valid(Prepared(w, chunk), chunk) && fed == Feed(Prepared(w, chunk), stream[..n], chunk)
    ensures Valid(fed.ws, chunk)
    ensures var later := Transfer(fed.ws, stream[n..], cuts[1..], chunk);
            Transfer(w, stream, cuts, chunk) == later.(parts := fed.parts + later.parts)
  {
    WantsSomething(w, chunk);
    n := ReadSize(cuts[0], Prepared(w, chunk).wanted, |stream|);
    WritesStayInside(w, chunk, stream[..n]);
    fed := Feed(Prepared(w, chunk), stream[..n], chunk);
  }

  /** Cutting n bytes off the rest of a field. */
  lemma CutBytes(field: Bytes, r: nat, behind: Bytes, later: Bytes, n: nat)
    requires r + n <= |field|
    ensures n <= |(field[r..] + behind) + later|
    ensures ((field[r..] + behind) + later)[..n] == field[r..r + n]
    ensures ((field[r..] + behind) + later)[n..] == (field[r + n..] + behind) + later
  {
  }

  lemma CutWhole(field: Bytes, r: nat, behind: Bytes)
    requires r <= |field|
    ensures field[|field|..] + behind == behind && field[r..|field|] == field[r..]
  {
  }

  lemma DeliversMore(t: Outcome, parts: seq<Part>, now: seq<Part>, due: seq<Part>)
    requires Delivers(t, now) && parts + now == due
    ensures Delivers(t.(parts := parts + t.parts), due)
  {
  }

  lemma RegroupParts(a: seq<Part>, b: seq<Part>, c: seq<Part>)
    ensures (a + b) + c == a + (b + c)
  {
  }

  /** One read inside a frame: `ended` says whether the frame is over; otherwise the protocol is at place q. */
  ghost predicate Moved(fed: Fed, f: Frame, p: Place, chunk: nat, ended: bool, q: Place, stream: Bytes, later: Bytes)
    requires PlaceOk(f, p, chunk)
  {
    if ended then
      AtStart(fed.ws, chunk) && stream == later && fed.parts == PartsFrom(f, chunk, p.start)
    else
      && PlaceOk(f, q, chunk) && Holds(fed.ws, f, q, chunk)
      && stream == Left(f, q, chunk) + later
      && fed.parts + PartsFrom(f, chunk, q.start) == PartsFrom(f, chunk, p.start)
  }

  lemma LeftAfter(f: Frame, p: Place, chunk: nat, r: nat)
    requires PlaceOk(f, p, chunk) && r < |Field(f, p, chunk)|
    ensures PlaceOk(f, p.(r := r), chunk)
    ensures Left(f, p.(r := r), chunk) == Field(f, p, chunk)[r..] + Behind(f, p, chunk)
  {
    assert Field(f, p.(r := r), chunk) == Field(f, p, chunk) && Behind(f, p.(r := r), chunk) == Behind(f, p, chunk);
  }

  lemma CutStream(left: Bytes, left': Bytes, field: Bytes, r: nat, behind: Bytes, later: Bytes, n: nat, stream: Bytes)
    requires r + n < |field| && left == field[r..] + behind && left' == field[r + n..] + behind
    requires stream == left + later
    ensures n <= |stream| && stream[..n] == field[r..r + n] && stream[n..] == left' + later
  {
    CutBytes(field, r, behind, later, n);
  }

  lemma CutInside(f: Frame, p: Place, chunk: nat, n: nat, stream: Bytes, later: Bytes)
    requires PlaceOk(f, p, chunk) && PlaceOk(f, p.(r := p.r + n), chunk) && p.r + n < |Field(f, p, chunk)|
    requires n <= |stream| && stream == Left(f, p, chunk) + later
    ensures stream[..n] == Field(f, p, chunk)[p.r..p.r + n] && stream[n..] == Left(f, p.(r := p.r + n), chunk) + later
  {
    LeftAfter(f, p, chunk, p.r + n);
    CutStream(Left(f, p, chunk), Left(f, p.(r := p.r + n), chunk), Field(f, p, chunk), p.r, Behind(f, p, chunk), later,
              n, stream);
  }

  lemma MovesInside(v: Ws, f: Frame, p: Place, chunk: nat, n: nat, stream: Bytes, later: Bytes)
    requires PlaceOk(f, p, chunk) && Holds(v, f, p, chunk) && 1 <= n < v.wanted && p.r + n < |Field(f, p, chunk)|
    requires PlaceOk(f, p.(r := p.r + n), chunk) && stream == Left(f, p.(r := p.r + n), chunk) + later
    ensures Moved(Feed(v, Field(f, p, chunk)[p.r..p.r + n], chunk), f, p, chunk, false, p.(r := p.r + n), stream, later)
  {
    FeedInside(v, f, p, chunk, n);
    assert [] + PartsFrom(f, chunk, p.start) == PartsFrom(f, chunk, p.start);
  }

  lemma ReadInside(v: Ws, f: Frame, p: Place, chunk: nat, n: nat, stream: Bytes, later: Bytes)
    requires PlaceOk(f, p, chunk) && Holds(v, f, p, chunk) && 1 <= n < v.wanted
    requires n <= |stream| && stream == Left(f, p, chunk) + later
    ensures Moved(Feed(v, stream[..n], chunk), f, p, chunk, false, p.(r := p.r + n), stream[n..], later)
  {
    LeftAfter(f, p, chunk, p.r + n);
    CutInside(f, p, chunk, n, stream, later);
    MovesInside(v, f, p, chunk, n, stream[n..], later);
  }

  lemma CutRest(f: Frame, p: Place, chunk: nat, n: nat, stream: Bytes, later: Bytes)
    requires PlaceOk(f, p, chunk) && p.r + n == |Field(f, p, chunk)|
    requires n <= |stream| && stream == Left(f, p, chunk) + later
    ensures stream[..n] == Field(f, p, chunk)[p.r..] && stream[n..] == Behind(f, p, chunk) + later
  {
    CutBytes(Field(f, p, chunk), p.r, Behind(f, p, chunk), later, n);
    CutWhole(Field(f, p, chunk), p.r, Behind(f, p, chunk));
  }

  lemma MovesOn(fed: Fed, f: Frame, p: Place, chunk: nat, ended: bool, q: Place, stream: Bytes, later: Bytes)
    requires PlaceOk(f, p, chunk) && Outcomes(fed, f, p, chunk, ended, q) && stream == Behind(f, p, chunk) + later
    ensures Moved(fed, f, p, chunk, ended, q, stream, later)
  {
    assert [] + later == later;
  }

  lemma ReadRest(v: Ws, f: Frame, p: Place, chunk: nat, n: nat, stream: Bytes, later: Bytes)
    returns (ended: bool, q: Place)
    requires PlaceOk(f, p, chunk) && Holds(v, f, p, chunk) && 1 <= n == v.wanted
    requires n <= |stream| && stream == Left(f, p, chunk) + later
    ensures Moved(Feed(v, stream[..n], chunk), f, p, chunk, ended, q, stream[n..], later)
  {
    CutRest(f, p, chunk, n, stream, later);
    ended, q := FieldEnds(v, f, p, chunk);
    MovesOn(Feed(v, stream[..n], chunk), f, p, chunk, ended, q, stream[n..], later);
  }

  lemma ReadInFrame(v: Ws, f: Frame, p: Place, chunk: nat, n: nat, stream: Bytes, later: Bytes)
    returns (ended: bool, q: Place)
    requires PlaceOk(f, p, chunk) && Holds(v, f, p, chunk) && 1 <= n <= v.wanted
    requires n <= |stream| && stream == Left(f, p, chunk) + later
    ensures Moved(Feed(v, stream[..n], chunk), f, p, chunk, ended, q, stream[n..], later)
  {
    if n < v.wanted {
      ended, q := false, p.(r := p.r + n);
      ReadInside(v, f, p, chunk, n, stream, later);
    } else {
      ended, q := ReadRest(v, f, p, chunk, n, stream, later);
    }
  }

  /** From any place in a frame, whatever the cuts: the parts still due of this frame and those of the later
      ones. */
  lemma {:induction false} TransferInFrame(w: Ws, f: Frame, p: Place, later: seq<Frame>, cuts: seq<nat>, chunk: nat)
    requires PlaceOk(f, p, chunk) && Holds(w, f, p, chunk) && AllSendable(later)
    ensures Delivers(Transfer(w, Left(f, p, chunk) + Wires(later), cuts, chunk),
                     PartsFrom(f, chunk, p.start) + AllParts(later, chunk))
    decreases |cuts|, 0
  {
    var stream := Left(f, p, chunk) + Wires(later);
    var due, rest := PartsFrom(f, chunk, p.start), AllParts(later, chunk);
    assert stream != [];
    if cuts != [] {
      PreparedHolds(w, f, p, chunk);
      var n, fed := FirstRead(w, stream, cuts, chunk);
      var ended, q := ReadInFrame(Prepared(w, chunk), f, p, chunk, n, stream, Wires(later));
      var t := Transfer(fed.ws, stream[n..], cuts[1..], chunk);
      if ended {
        TransferFrames(fed.ws, later, cuts[1..], chunk);
        DeliversMore(t, fed.parts, rest, due + rest);
      } else {
        TransferInFrame(fed.ws, f, q, later, cuts[1..], chunk);
        RegroupParts(fed.parts, PartsFrom(f, chunk, q.start), rest);
        DeliversMore(t, fed.parts, PartsFrom(f, chunk, q.start) + rest, due + rest);
      }
    }
  }

  /** Every frame sequence, every positive chunk size, every cut: what the application gets is the parts of the
      frames in order, and all of them once all bytes have been read. */
  lemma {:induction false} TransferFrames(w: Ws, frames: seq<Frame>, cuts: seq<nat>, chunk: nat)
    requires AtStart(w, chunk) && AllSendable(frames)
    ensures Delivers(Transfer(w, Wires(frames), cuts, chunk), AllParts(frames, chunk))
    decreases |cuts|, 1
  {
    if frames != [] {
      assert Sendable(frames[0]);
      AtStartHolds(w, frames[0], chunk);
      assert Left(frames[0], ORIGIN, chunk) == Wire(frames[0]);
      TransferInFrame(w, frames[0], ORIGIN, frames[1..], cuts, chunk);
    }
  }

  /** Every read takes at least one byte, so enough reads take them all. */
  lemma {:induction false} EnoughReads(w: Ws, stream: Bytes, cuts: seq<nat>, chunk: nat)
    requires Valid(w, chunk) && |stream| <= |cuts|
    ensures Transfer(w, stream, cuts, chunk).rest == []
    decreases |cuts|
  {
    if stream != [] {
      var n, fed := FirstRead(w, stream, cuts, chunk);
      EnoughReads(fed.ws, stream[n..], cuts[1..], chunk);
    }
  }

  function Payloads(frames: seq<Frame>): Bytes {
    if frames == [] then [] else frames[0].payload + Payloads(frames[1..])
  }

  lemma {:induction false} JoinedAdd(a: seq<Part>, b: seq<Part>)
    ensures Joined(a + b) == Joined(a) + Joined(b)
  {
    if a == [] {
      assert a + b == b;
    } else {
      assert (a + b)[1..] == a[1..] + b;
      JoinedAdd(a[1..], b);
    }
  }

  lemma {:induction false} AllPartsArePayloads(frames: seq<Frame>, chunk: nat)
    requires 0 < chunk
    ensures Joined(AllParts(frames, chunk)) == Payloads(frames)
  {
    if frames != [] {
      PartsArePayload(frames[0], chunk, 0);
      assert frames[0].payload[0..] == frames[0].payload;
      AllPartsArePayloads(frames[1..], chunk);
      JoinedAdd(PartsFrom(frames[0], chunk, 0), AllParts(frames[1..], chunk));
    }
  }

  const FRESH := Ws(Header, 0, 0, 0, 0, 0, 0, 0, Zeros(2), Zeros(8), Zeros(4), [], false, false)

  /** From a fresh protocol, any frames, any chunk size and any cuts deliver the unmasked payloads. */
  lemma {:induction false} PayloadsArrive(frames: seq<Frame>, cuts: seq<nat>, chunk: nat)
    requires 0 < chunk && AllSendable(frames)
    ensures Valid(FRESH, chunk)
    ensures var t := Transfer(FRESH, Wires(frames), cuts, chunk);
            && t.parts <= AllParts(frames, chunk)
            && (|Wires(frames)| <= |cuts| ==> t.parts == AllParts(frames, chunk) && Joined(t.parts) == Payloads(frames))
  {
    TransferFrames(FRESH, frames, cuts, chunk);
    AllPartsArePayloads(frames, chunk);
    if |Wires(frames)| <= |cuts| {
      EnoughReads(FRESH, Wires(frames), cuts, chunk);
    }
  }

  // ---------------------------------------------------------------------------------------------------
  // The class
  // ---------------------------------------------------------------------------------------------------

  class WebsocketProtocol {
    const contentChunkSize: nat
    var state: State
    var opCode: nat
    var dataReceivedInCurrentState: nat
    var payloadLength: nat
    var receivedPayload: nat
    var demaskIx: nat
    var receivedPayloadInCurrentPackage: nat
    var amountWantedInCurrentState: nat
    var header: Bytes
    var extLen: Bytes
    var maskKey: Bytes

    /** The counters, the frame data and the packet as one value. */
    function Value(packet: HttpPacket): Ws
      reads this, packet
    {
      Ws(state, amountWantedInCurrentState, dataReceivedInCurrentState, payloadLength, receivedPayload,
         receivedPayloadInCurrentPackage, demaskIx, opCode, header, extLen, maskKey,
         packet.data, packet.continuation, packet.continued)
    }

    constructor (contentChunkSize: nat)
      ensures this.contentChunkSize == contentChunkSize
      ensures forall packet: HttpPacket ::
                packet.data == [] && !packet.continuation && !packet.continued ==> Value(packet) == FRESH
    {
      this.contentChunkSize := contentChunkSize;
      state, opCode, dataReceivedInCurrentState, payloadLength, receivedPayload := Header, 0, 0, 0, 0;
      demaskIx, receivedPayloadInCurrentPackage, amountWantedInCurrentState := 0, 0, 0;
      header, extLen, maskKey := Zeros(2), Zeros(8), Zeros(4);
    }

    method GetWantedAmount(packet: HttpPacket) returns (wanted: nat)
      requires Valid(Value(packet), contentChunkSize)
      modifies this`dataReceivedInCurrentState, this`amountWantedInCurrentState, packet`data
      ensures Value(packet) == Prepared(old(Value(packet)), contentChunkSize)
      ensures wanted == Value(packet).wanted > 0
    {
      if amountWantedInCurrentState == 0 {
        dataReceivedInCurrentState := 0;
        if state == Header || state == Extended2 {
          amountWantedInCurrentState := 2;
        } else if state == Extended8 {
          amountWantedInCurrentState := 8;
        } else if state == MaskingKey {
          amountWantedInCurrentState := 4;
        } else {
          var remainingPayload := payloadLength - receivedPayload;
          var remainingToFillCurrent := contentChunkSize - receivedPayloadInCurrentPackage;
          var amountLeft := if remainingPayload < remainingToFillCurrent then remainingPayload
                            else remainingToFillCurrent;
          amountWantedInCurrentState := amountLeft;
          packet.data := packet.data + Zeros(amountLeft);
        }
      }
      wanted := amountWantedInCurrentState;
    }

    /** The bytes that a read puts at get_write_pos. */
    method Write(packet: HttpPacket, bytes: Bytes)
      requires Valid(Value(packet), contentChunkSize) && 1 <= |bytes| <= amountWantedInCurrentState
      modifies this`header, this`extLen, this`maskKey, packet`data
      ensures Value(packet) == Filled(old(Value(packet)), bytes)
    {
      var pos := dataReceivedInCurrentState;
      if state == Header {
        header := Overwrite(header, pos, bytes);
      } else if state == Extended2 || state == Extended8 {
        extLen := Overwrite(extLen, pos, bytes);
      } else if state == MaskingKey {
        maskKey := Overwrite(maskKey, pos, bytes);
      } else {
        packet.data := Overwrite(packet.data, pos, bytes);
      }
    }

    method Complete() returns (complete: bool)
      ensures complete <==> state == Payload && (receivedPayload == payloadLength
                                                 || receivedPayloadInCurrentPackage == contentChunkSize)
    {
      complete := state == Payload
                  && (receivedPayload == payloadLength || receivedPayloadInCurrentPackage == contentChunkSize);
    }

    method UpdateReceivedPayload(length: nat)
      modifies this`receivedPayload, this`receivedPayloadInCurrentPackage
      ensures receivedPayload == old(receivedPayload) + length
      ensures receivedPayloadInCurrentPackage == old(receivedPayloadInCurrentPackage) + length
    {
      receivedPayload := receivedPayload + length;
      receivedPayloadInCurrentPackage := receivedPayloadInCurrentPackage + length;
    }

    /** The loop that takes the mask off, in place. */
    method Demask(packet: HttpPacket)
      requires |maskKey| == 4
      modifies this`demaskIx, packet`data
      ensures packet.data == Mask(old(packet.data), maskKey, old(demaskIx))
      ensures demaskIx == old(demaskIx) + |packet.data|
    {
      ghost var masked, unmasked := packet.data, Mask(packet.data, maskKey, demaskIx);
      var i := 0;
      while i < |packet.data|
        invariant i <= |packet.data| == |masked| && demaskIx == old(demaskIx) + i
        invariant forall k :: 0 <= k < i ==> packet.data[k] == unmasked[k]
        invariant forall k :: i <= k < |masked| ==> packet.data[k] == masked[k]
      {
        packet.data := packet.data[i := Xor(packet.data[i], maskKey[demaskIx % 4])];
        i := i + 1;
        demaskIx := demaskIx + 1;
      }
    }

    method SetMessageProperties(packet: HttpPacket)
      modifies packet`continuation, packet`continued, packet`controlCode
      ensures packet.continuation == (old(packet.continuation) || receivedPayload > contentChunkSize)
      ensures packet.continued == (old(packet.continued) || receivedPayload < payloadLength)
      ensures packet.controlCode == opCode
    {
      if receivedPayload <= contentChunkSize {
        if receivedPayload < payloadLength {
          packet.continued := true;
        }
      } else {
        packet.continuation := true;
        if receivedPayload < payloadLength {
          packet.continued := true;
        }
      }
      packet.controlCode := opCode;
    }

    /** Cut to the bytes received, unmask, flag. */
    method FinishPart(packet: HttpPacket)
      requires Sized(Value(packet)) && receivedPayloadInCurrentPackage <= |packet.data|
      modifies this`demaskIx, packet
      ensures Value(packet) == Finished(old(Value(packet)), contentChunkSize) && packet.controlCode == opCode
    {
      packet.data := packet.data[..receivedPayloadInCurrentPackage];
      if header[1] >= 0x80 {
        Demask(packet);
      }
      SetMessageProperties(packet);
    }

    method NextField(ghost packet: HttpPacket, length: nat)
      requires Sized(Value(packet))
      modifies this`state, this`opCode, this`payloadLength, this`receivedPayload, this`receivedPayloadInCurrentPackage
      ensures Value(packet) == NextState(old(Value(packet)), length)
    {
      if state == Header {
        opCode := header[0] % 0x10;
        payloadLength := header[1] % 0x80;
        if payloadLength == 126 {
          state := Extended2;
        } else if payloadLength == 127 {
          state := Extended8;
        } else if header[1] >= 0x80 {
          state := MaskingKey;
        } else {
          state := Payload;
        }
      } else if state == Extended2 {
        payloadLength := BigEndian(extLen[..2]);
        state := MaskingKey;
      } else if state == Extended8 {
        payloadLength := BigEndian(extLen);
        state := MaskingKey;
      } else if state == MaskingKey {
        state := Payload;
      } else {
        UpdateReceivedPayload(length);
      }
    }

    method DataReceived(packet: HttpPacket, length: nat)
      requires Valid(Value(packet), contentChunkSize) && 1 <= length <= amountWantedInCurrentState
      modifies this, packet
      ensures Value(packet) == Advanced(old(Value(packet)), length, contentChunkSize)
      ensures IsComplete(Value(packet), contentChunkSize) ==> packet.controlCode == opCode
    {
      amountWantedInCurrentState := amountWantedInCurrentState - length;
      dataReceivedInCurrentState := dataReceivedInCurrentState + length;
      if amountWantedInCurrentState == 0 {
        NextField(packet, length);
        var complete := Complete();
        if complete {
          FinishPart(packet);
        }
      } else if state == Payload {
        UpdateReceivedPayload(length);
      }
    }

    /** The delivered packet is replaced by a new one. */
    method PacketConsumed(delivered: HttpPacket, next: HttpPacket)
      requires next.data == [] && !next.continuation && !next.continued
      modifies this`state, this`receivedPayload, this`dataReceivedInCurrentState, this`demaskIx,
               this`amountWantedInCurrentState, this`receivedPayloadInCurrentPackage
      ensures Value(next) == Consumed(old(Value(delivered)))
    {
      receivedPayloadInCurrentPackage := 0;
      if receivedPayload >= payloadLength {
        state, receivedPayload, dataReceivedInCurrentState, demaskIx, amountWantedInCurrentState := Header, 0, 0, 0, 0;
      }
    }
  }
}
