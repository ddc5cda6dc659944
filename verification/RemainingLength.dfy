/** The variable-length "remaining length" field of MQTT 3.1.1, section 2.2.3. */
module RemainingLength {
  import opened ByteBuffers

  /** The largest remaining length is one below this. */
  const LIMIT := 0x1000_0000

  /** At most `room` bytes of seven bits, least significant first; the top bit announces another byte. */
  function Encode(n: nat, room: nat): (bytes: seq<Byte>)
    ensures |bytes| <= room
    ensures room > 0 ==> bytes != []
  {
    if room == 0 then []
    else if n < 0x80 then [n]
    else [n % 0x80 + 0x80] + Encode(n / 0x80, room - 1)
  }

  function EncodeLength(n: int): (bytes: seq<Byte>)
    ensures 1 <= |bytes| <= 4
  {
    if n > 0 then Encode(n, 4) else [0]
  }

  /** What a reader finds: the value, how many bytes it used, and whether the field is malformed. */
  datatype Decoded = Decoded(value: nat, used: nat, error: bool)

  /** Reads from `bytes`, `seen` bytes of the field having been read before. */
  function Decode(bytes: seq<Byte>, seen: nat): (d: Decoded)
    requires seen <= 4
    ensures d.used <= |bytes| && d.used <= 4 - seen
    decreases 4 - seen
  {
    if bytes == [] || seen == 4 then
      Decoded(0, 0, false)
    else if bytes[0] < 0x80 then
      Decoded(bytes[0], 1, false)
    else if seen == 3 then
      Decoded(bytes[0] - 0x80, 1, true)
    else
      var rest := Decode(bytes[1..], seen + 1);
      Decoded(bytes[0] - 0x80 + 0x80 * rest.value, 1 + rest.used, rest.error)
  }

  /** 128 to the power of k, for the four positions of the field. */
  function Weight(k: nat): nat
    requires k <= 4
  {
    if k == 0 then 1 else 0x80 * Weight(k - 1)
  }

  lemma {:induction false} EncodeDecode(n: nat, seen: nat, after: seq<Byte>)
    requires seen < 4
    ensures var d := Decode(Encode(n, 4 - seen) + after, seen);
            if n < Weight(4 - seen) then d == Decoded(n, |Encode(n, 4 - seen)|, false) else d.error
    decreases 4 - seen
  {
    var bytes := Encode(n, 4 - seen);
    if n >= 0x80 {
      assert bytes[0] == n % 0x80 + 0x80;
      if seen < 3 {
        assert (bytes + after)[1..] == Encode(n / 0x80, 3 - seen) + after;
        EncodeDecode(n / 0x80, seen + 1, after);
      }
    } else {
      assert bytes == [n];
    }
  }

  /** Whatever follows the field: a length below 2^28 is read back, a larger one is flagged as malformed. */
  lemma {:induction false} LengthRoundTrip(n: nat, after: seq<Byte>)
    ensures n < LIMIT <==> !Decode(EncodeLength(n) + after, 0).error
    ensures n < LIMIT ==> Decode(EncodeLength(n) + after, 0) == Decoded(n, |EncodeLength(n)|, false)
  {
    EncodeDecode(n, 0, after);
    assert Weight(4) == LIMIT;
    if n == 0 {
      assert EncodeLength(0) == Encode(0, 4);
    }
  }

  /** The field is complete when its last byte lacks the top bit. */
  predicate Complete(bytes: seq<Byte>) {
    var d := Decode(bytes, 0);
    bytes != [] && d.used == |bytes| && bytes[|bytes| - 1] < 0x80
  }

  lemma {:induction false} DecodedIsSmall(bytes: seq<Byte>, seen: nat)
    requires seen <= 4
    ensures Decode(bytes, seen).value < Weight(Decode(bytes, seen).used) || Decode(bytes, seen).used == 0
    decreases 4 - seen
  {
    if bytes != [] && seen < 3 && bytes[0] >= 0x80 {
      DecodedIsSmall(bytes[1..], seen + 1);
    }
  }

  lemma {:induction false} EncodedLength(n: nat, room: nat, k: nat)
    requires 1 <= k <= room <= 4 && n < Weight(k)
    ensures |Encode(n, room)| <= k
    decreases room
  {
    if n >= 0x80 {
      EncodedLength(n / 0x80, room - 1, k - 1);
    }
  }

  /** No complete field with the same value is shorter than the encoded one. */
  lemma {:induction false} FewestBytes(bytes: seq<Byte>)
    requires Complete(bytes)
    ensures |EncodeLength(Decode(bytes, 0).value)| <= |bytes|
  {
    DecodedIsSmall(bytes, 0);
    EncodedLength(Decode(bytes, 0).value, 4, |bytes|);
  }

  /** A value shifted up by k positions of seven bits. */
  function Shift(k: nat, value: nat): nat {
    if k == 0 then value else 0x80 * Shift(k - 1, value)
  }

  lemma {:induction false} ShiftDigit(k: nat, digit: nat, rest: nat)
    requires k < 4
    ensures Shift(k, digit + 0x80 * rest) == digit * Weight(k) + Shift(k + 1, rest)
    ensures Shift(k, digit) == digit * Weight(k)
  {
    if k > 0 {
      ShiftDigit(k - 1, digit, rest);
      assert digit * Weight(k) == 0x80 * (digit * Weight(k - 1));
    } else {
      assert Weight(0) == 1;
      assert Shift(1, rest) == 0x80 * Shift(0, rest);
    }
  }

  /** The whole field decodes to what has been read so far and, `i` positions up, the rest. */
  ghost predicate Pending(d: Decoded, res: nat, i: nat, rest: Decoded) {
    d == Decoded(res + Shift(i, rest.value), i + rest.used, rest.error)
  }

  lemma ReadDigit(d: Decoded, res: nat, i: nat, tail: seq<Byte>)
    requires i < 4 && tail != [] && Pending(d, res, i, Decode(tail, i))
    ensures var res' := res + tail[0] % 0x80 * Weight(i);
            if tail[0] < 0x80 || i == 3
            then d == Decoded(res', i + 1, tail[0] >= 0x80)
            else Pending(d, res', i + 1, Decode(tail[1..], i + 1))
  {
    ShiftDigit(i, tail[0] % 0x80, Decode(tail[1..], i + 1).value);
  }

  /** n without its k least significant digits of seven bits. */
  function Digits(n: nat, k: nat): nat
    decreases k
  {
    if k == 0 then n else Digits(n / 0x80, k - 1)
  }

  /** Each byte holds seven bits, the least significant first, and all but the last announce another one. */
  lemma {:induction false} LeastSignificantFirst(n: nat, room: nat, k: nat)
    requires k < |Encode(n, room)|
    ensures Encode(n, room)[k] % 0x80 == Digits(n, k) % 0x80
    ensures k + 1 < |Encode(n, room)| ==> Encode(n, room)[k] >= 0x80
    decreases k
  {
    if k > 0 {
      LeastSignificantFirst(n / 0x80, room - 1, k - 1);
    }
  }

  /** The bounds of table 2.4. */
  lemma LengthExamples()
    ensures EncodeLength(0) == [0x00] && EncodeLength(127) == [0x7F]
    ensures EncodeLength(128) == [0x80, 0x01] && EncodeLength(16383) == [0xFF, 0x7F]
    ensures EncodeLength(16384) == [0x80, 0x80, 0x01] && EncodeLength(2097151) == [0xFF, 0xFF, 0x7F]
    ensures EncodeLength(2097152) == [0x80, 0x80, 0x80, 0x01] && EncodeLength(268435455) == [0xFF, 0xFF, 0xFF, 0x7F]
  {
  }

  // ---------------------------------------------------------------------------------------------------
  // The loops
  // ---------------------------------------------------------------------------------------------------

  method EncodeRemainingLength(data: seq<Byte>, length: int) returns (data': seq<Byte>)
    ensures data' == data + EncodeLength(length)
  {
    data' := data;
    var rest := length;
    if rest > 0 {
      var i := 0;
      while i < 4 && rest > 0
        invariant 0 <= i <= 4 && 0 <= rest
        invariant (rest > 0 || i == 0) ==> data + EncodeLength(length) == data' + Encode(rest, 4 - i)
        invariant rest == 0 ==> data' == data + EncodeLength(length)
      {
        ghost var before, was := data', rest;
        data' := data' + [rest % 0x80];
        rest := rest / 0x80;
        if rest > 0 {
          data' := data'[|data'| - 1 := data'[|data'| - 1] + 0x80];
          assert data' == before + [was % 0x80 + 0x80];
          assert before + Encode(was, 4 - i) == data' + Encode(rest, 3 - i);
        }
        i := i + 1;
      }
    } else {
      data' := data' + [0];
    }
  }

  /** Reads the field that follows the first byte of `data`. A reader already in error reads nothing.
      `start` is the index of the variable header. */
  method CalculateRemainingLength(data: seq<Byte>, errorBefore: bool) returns (res: nat, start: nat, error: bool)
    requires data != []
    ensures !errorBefore ==> var d := Decode(data[1..], 0); res == d.value && start == 1 + d.used && error == d.error
    ensures errorBefore ==> res == 0 && start == 1 && error
  {
    res, start, error := 0, 1, errorBefore;
    if error {
      return;
    }
    var done, multiplier: nat, curr, i := false, 1, 1, 0;
    ghost var tail := data[1..];
    ghost var d := Decode(tail, 0);
    while curr != |data| && !done && !error
      invariant 1 <= curr <= |data| && i == curr - 1 && i <= 4
      invariant multiplier == Weight(i)
      invariant |tail| == |data| - curr && tail == data[curr..]
      invariant !done && !error ==> i < 4 && Pending(d, res, i, Decode(tail, i))
      invariant done || error ==> d == Decoded(res, i, error)
      decreases |data| - curr
    {
      var digit: nat := data[curr] % 0x80;
      ReadDigit(d, res, i, tail);
      res := res + digit * multiplier;
      tail := tail[1..];
      multiplier := multiplier * 0x80;
      done := data[curr] < 0x80;
      error := !done && i == 3;
      curr, i := curr + 1, i + 1;
    }
    start := curr;
  }
}
