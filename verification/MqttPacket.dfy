/** Building and reading PUBLISH and SUBSCRIBE packets (MQTT 3.1.1, sections 1.5.3, 3.3 and 3.8.3). */
module MqttPacketModel {
  import opened ByteBuffers
  import opened RemainingLength
  import opened MqttFraming

  type Text = seq<Byte>

  // ---------------------------------------------------------------------------------------------------
  // Layout
  // ---------------------------------------------------------------------------------------------------

  /** A 16-bit number, most significant byte first. */
  function MsbLsb(value: nat): seq<Byte>
    requires value < 0x1_0000
  {
    [value / 0x100, value % 0x100]
  }

  /** The number that two bytes of the data spell. */
  function NumberAt(data: seq<Byte>, at: nat): (n: nat)
    requires at + 2 <= |data|
    ensures n < 0x1_0000 && MsbLsb(n) == data[at..at + 2]
  {
    var msb: nat, lsb: nat := data[at], data[at + 1];
    msb * 0x100 + lsb
  }

  /** The length of a string is truncated to 16 bits, and only that many bytes are written. */
  function StringBytes(text: Text): seq<Byte> {
    var length := |text| % 0x1_0000;
    MsbLsb(length) + text[..length]
  }

  const PUBLISH := 3

  function Bit(b: bool): nat { if b then 1 else 0 }

  /** Type, DUP clear, QoS and RETAIN in the first byte of a PUBLISH. */
  function PublishHeader(qos: nat, retain: bool): Byte
    requires qos <= 2
  {
    PUBLISH * 0x10 + qos * 2 + Bit(retain)
  }

  function PublishBody(topic: Text, payload: seq<Byte>, qos: nat, id: nat): seq<Byte>
    requires id < 0x1_0000
  {
    StringBytes(topic) + (if qos > 0 then MsbLsb(id) else []) + payload
  }

  function Framed(header: Byte, body: seq<Byte>): seq<Byte> {
    [header] + EncodeLength(|body|) + body
  }

  // ---------------------------------------------------------------------------------------------------
  // Reading
  // ---------------------------------------------------------------------------------------------------

  function QosBits(data: seq<Byte>): nat
    requires data != []
  {
    data[0] / 2 % 4
  }

  /** The index of the variable header. */
  function BodyStart(data: seq<Byte>): nat
    requires data != []
  {
    1 + Decode(data[1..], 0).used
  }

  /** The string at `at`: at most as many bytes as announced, and none past the end. */
  function StringAt(data: seq<Byte>, at: nat): Text
    requires at + 2 <= |data|
  {
    var length := NumberAt(data, at);
    if length <= |data| - at - 2 then data[at + 2..at + 2 + length] else data[at + 2..]
  }

  function TopicOf(data: seq<Byte>): Text
    requires data != [] && BodyStart(data) + 2 <= |data|
  {
    StringAt(data, BodyStart(data))
  }

  function VariableHeaderLength(data: seq<Byte>): nat
    requires data != [] && BodyStart(data) + 2 <= |data|
  {
    |TopicOf(data)| + 2 + (if QosBits(data) > 0 then 2 else 0)
  }

  /** Section 3.3.1: the packet type, DUP clear, QoS and RETAIN, from the top of the first byte. */
  lemma PublishFirstByte(topic: Text, payload: seq<Byte>, qos: nat, retain: bool, id: nat)
    requires qos <= 2 && id < 0x1_0000
    ensures var first := Framed(PublishHeader(qos, retain), PublishBody(topic, payload, qos, id))[0];
            first / 16 == 3 && first / 8 % 2 == 0 && first / 2 % 4 == qos && (first % 2 == 1 <==> retain)
  {
  }

  /** Sections 1.5.2 and 3.3.2: the body is the length of the topic with its most significant byte first, the topic,
      the identifier in the same order unless the QoS is 0, and the payload. */
  lemma PublishBodyBytes(topic: Text, payload: seq<Byte>, qos: nat, id: nat)
    requires qos <= 2 && id < 0x1_0000 && |topic| < 0x1_0000
    ensures var body, n := PublishBody(topic, payload, qos, id), |topic|;
            && |body| == 2 + n + (if qos > 0 then 2 else 0) + |payload|
            && body[0] as int * 256 + body[1] as int == n && body[2..2 + n] == topic
            && (qos > 0 ==> body[2 + n] as int * 256 + body[3 + n] as int == id && body[4 + n..] == payload)
            && (qos == 0 ==> body[2 + n..] == payload)
  {
    assert topic[..|topic|] == topic;
  }

  /** What follows the first byte is read as written, and flagged exactly when it is too long. */
  lemma FramedLength(header: Byte, body: seq<Byte>)
    ensures var field := Framed(header, body)[1..];
            && field == EncodeLength(|body|) + body
            && (Decode(field, 0).error <==> |body| >= LIMIT)
            && (|body| < LIMIT ==> Decode(field, 0) == Decoded(|body|, |EncodeLength(|body|)|, false))
  {
    assert Framed(header, body)[1..] == EncodeLength(|body|) + body;
    LengthRoundTrip(|body|, body);
  }

  lemma FramedBody(header: Byte, body: seq<Byte>)
    requires |body| < LIMIT
    ensures var data := Framed(header, body);
            && data[0] == header && !Decode(data[1..], 0).error
            && BodyStart(data) <= |data| && data[BodyStart(data)..] == body
            && Decode(data[1..], 0).value == |body|
  {
    var data := Framed(header, body);
    FramedLength(header, body);
    assert data[BodyStart(data)..] == data[1..][|EncodeLength(|body|)|..];
  }

  /** Every built packet is well-formed on the wire, so the assembly of the receiving side keeps in step. */
  lemma FramedIsWellFormed(header: Byte, body: seq<Byte>)
    requires |body| < LIMIT
    ensures WellFormed(Framed(header, body)) && BodyLength(Framed(header, body)) == |body|
  {
    FramedLength(header, body);
    EncodeEndsField(|body|, 4);
  }

  /** The last byte of an encoded length lacks the top bit. */
  lemma {:induction false} EncodeEndsField(n: nat, room: nat)
    requires 1 <= room <= 4 && n < Weight(room)
    ensures var bytes := Encode(n, room); bytes[|bytes| - 1] < 0x80
  {
    if n >= 0x80 {
      EncodeEndsField(n / 0x80, room - 1);
    }
  }

  lemma NumberReadBack(data: seq<Byte>, at: nat, n: nat)
    requires at + 2 <= |data| && n < 0x1_0000 && data[at..at + 2] == MsbLsb(n)
    ensures NumberAt(data, at) == n
  {
    assert data[at] == data[at..at + 2][0] && data[at + 1] == data[at..at + 2][1];
  }

  lemma StringReadBack(data: seq<Byte>, at: nat, text: Text)
    requires at <= |data| && StringBytes(text) <= data[at..]
    ensures at + 2 <= |data| && StringAt(data, at) == text[..|text| % 0x1_0000]
  {
    var length := |text| % 0x1_0000;
    assert data[at..at + 2] == StringBytes(text)[..2];
    NumberReadBack(data, at, length);
    assert data[at + 2..at + 2 + length] == StringBytes(text)[2..];
  }

  lemma PublishTopicBack(topic: Text, payload: seq<Byte>, qos: nat, retain: bool, id: nat)
    requires qos <= 2 && id < 0x1_0000 && |PublishBody(topic, payload, qos, id)| < LIMIT
    ensures var data := Framed(PublishHeader(qos, retain), PublishBody(topic, payload, qos, id));
            && QosBits(data) == qos
            && BodyStart(data) + 2 <= |data| && data[BodyStart(data)..] == PublishBody(topic, payload, qos, id)
            && TopicOf(data) == topic[..|topic| % 0x1_0000]
  {
    var body := PublishBody(topic, payload, qos, id);
    var data := Framed(PublishHeader(qos, retain), body);
    FramedBody(PublishHeader(qos, retain), body);
    assert StringBytes(topic) <= body;
    StringReadBack(data, BodyStart(data), topic);
  }

  /** A built PUBLISH gives back its QoS bits, its topic up to the 16-bit length, its identifier and, behind the
      computed variable header, its payload. */
  lemma BodyParts(topic: Text, payload: seq<Byte>, qos: nat, id: nat)
    requires qos <= 2 && id < 0x1_0000
    ensures var body, n := PublishBody(topic, payload, qos, id), |StringBytes(topic)|;
            if qos > 0 then |body| >= n + 2 && body[n..n + 2] == MsbLsb(id) && body[n + 2..] == payload
            else |body| >= n && body[n..] == payload
  {
  }

  lemma PublishReadBack(topic: Text, payload: seq<Byte>, qos: nat, retain: bool, id: nat)
    requires qos <= 2 && id < 0x1_0000 && |PublishBody(topic, payload, qos, id)| < LIMIT
    ensures var data := Framed(PublishHeader(qos, retain), PublishBody(topic, payload, qos, id));
            && QosBits(data) == qos
            && BodyStart(data) + 2 <= |data|
            && TopicOf(data) == topic[..|topic| % 0x1_0000]
            && BodyStart(data) + VariableHeaderLength(data) <= |data|
            && data[BodyStart(data) + VariableHeaderLength(data)..] == payload
            && (qos > 0 ==> NumberAt(data, BodyStart(data) + VariableHeaderLength(data) - 2) == id)
  {
    PublishTopicBack(topic, payload, qos, retain, id);
    var body := PublishBody(topic, payload, qos, id);
    var data := Framed(PublishHeader(qos, retain), body);
    var start, n := BodyStart(data), |StringBytes(topic)|;
    var m := n + (if qos > 0 then 2 else 0);
    assert VariableHeaderLength(data) == m;
    BodyParts(topic, payload, qos, id);
    SliceOf(data, start, body, m, |body|);
    if qos > 0 {
      SliceOf(data, start, body, n, m);
      NumberReadBack(data, start + n, id);
    }
  }

  lemma SliceOf(data: seq<Byte>, start: nat, body: seq<Byte>, from: nat, to: nat)
    requires start <= |data| && data[start..] == body && from <= to <= |body|
    ensures data[start + from..start + to] == body[from..to]
  {
    var a, b := data[start + from..start + to], body[from..to];
    assert |a| == |b|;
    forall i | 0 <= i < |a| ensures a[i] == b[i] {
      assert a[i] == data[start + from + i] == data[start..][from + i];
    }
  }

  /** The topic survives exactly when its length fits the 16-bit length field. */
  lemma TopicRoundTrip(topic: Text, payload: seq<Byte>, qos: nat, retain: bool, id: nat)
    requires qos <= 2 && id < 0x1_0000 && |PublishBody(topic, payload, qos, id)| < LIMIT
    ensures var data := Framed(PublishHeader(qos, retain), PublishBody(topic, payload, qos, id));
            BodyStart(data) + 2 <= |data| && (TopicOf(data) == topic <==> |topic| < 0x1_0000)
  {
    PublishReadBack(topic, payload, qos, retain, id);
    if |topic| < 0x1_0000 {
      assert topic[..|topic|] == topic;
    }
  }

  // ---------------------------------------------------------------------------------------------------
  // SUBSCRIBE payloads
  // ---------------------------------------------------------------------------------------------------

  datatype Entry = Entry(topic: Text, qos: Byte)

  /** A list of topic filters with their QoS bytes, as section 3.8.3 lays them out. */
  function Entries(entries: seq<Entry>): seq<Byte> {
    if entries == [] then [] else StringBytes(entries[0].topic) + [entries[0].qos] + Entries(entries[1..])
  }

  /** Each entry is the length of its topic filter, the filter, and its QoS byte. */
  lemma {:induction false} EntryBytes(entries: seq<Entry>)
    requires entries != [] && |entries[0].topic| < 0x1_0000
    ensures var bytes, topic := Entries(entries), entries[0].topic;
            && |bytes| >= |topic| + 3
            && bytes[0] as int * 256 + bytes[1] as int == |topic| && bytes[2..|topic| + 2] == topic
            && bytes[|topic| + 2] == entries[0].qos && bytes[|topic| + 3..] == Entries(entries[1..])
  {
    var topic, n := entries[0].topic, |entries[0].topic|;
    assert topic[..n] == topic;
    assert Entries(entries) == [n / 0x100, n % 0x100] + (topic + ([entries[0].qos] + Entries(entries[1..])));
    EntryLayout(topic, entries[0].qos, Entries(entries[1..]));
  }

  lemma EntryLayout(topic: Text, qos: Byte, rest: seq<Byte>)
    requires |topic| < 0x1_0000
    ensures var bytes: seq<Byte> := [|topic| / 0x100, |topic| % 0x100] + (topic + ([qos] + rest));
            && bytes[0] as int * 256 + bytes[1] as int == |topic| && bytes[2..|topic| + 2] == topic
            && bytes[|topic| + 2] == qos && bytes[|topic| + 3..] == rest
  {
  }

  ghost predicate Sendable(entries: seq<Entry>) {
    forall i :: 0 <= i < |entries| ==> |entries[i].topic| < 0x1_0000
  }

  /** The outcome of reading a payload: its entries, or a read past its end. */
  datatype Listing = Listing(entries: seq<Entry>) | PastEnd

  function ListEntries(payload: seq<Byte>): Listing
    decreases |payload|
  {
    if payload == [] then
      Listing([])
    else if |payload| < 2 then
      PastEnd
    else
      var topic := StringAt(payload, 0);
      var next := |topic| + 2;
      if next == |payload| then
        PastEnd
      else
        match ListEntries(payload[next + 1..])
        case PastEnd => PastEnd
        case Listing(rest) => Listing([Entry(topic, payload[next])] + rest)
  }

  /** Every well-formed payload is listed exactly. */
  lemma {:induction false} EntriesListed(entries: seq<Entry>)
    requires Sendable(entries)
    ensures ListEntries(Entries(entries)) == Listing(entries)
    decreases |entries|
  {
    if entries != [] {
      var first, payload := entries[0], Entries(entries);
      var after := [first.qos] + Entries(entries[1..]);
      assert payload == StringBytes(first.topic) + after;
      StringReadBack(payload, 0, first.topic);
      assert first.topic[..|first.topic|] == first.topic;
      assert payload[|first.topic| + 2..] == after;
      assert payload[|first.topic| + 3..] == Entries(entries[1..]);
      EntriesListed(entries[1..]);
      assert entries == [first] + entries[1..];
    }
  }

  lemma FirstEntry(payload: seq<Byte>)
    requires 2 <= |payload| && |StringAt(payload, 0)| + 2 < |payload|
    ensures StringBytes(StringAt(payload, 0)) == payload[..|StringAt(payload, 0)| + 2]
    ensures |StringAt(payload, 0)| < 0x1_0000
  {
    var topic, n := StringAt(payload, 0), NumberAt(payload, 0);
    assert |topic| == n && topic == payload[2..2 + n] && topic[..n] == topic;
    assert payload[..n + 2] == payload[0..2] + payload[2..2 + n];
  }

  lemma {:induction false} EntriesCons(first: Entry, rest: seq<Entry>)
    requires |first.topic| < 0x1_0000 && Sendable(rest)
    ensures Sendable([first] + rest)
    ensures Entries([first] + rest) == StringBytes(first.topic) + [first.qos] + Entries(rest)
  {
    assert ([first] + rest)[1..] == rest;
  }

  lemma SplitPayload(payload: seq<Byte>, next: nat)
    requires next < |payload|
    ensures payload == payload[..next] + [payload[next]] + payload[next + 1..]
  {
  }

  lemma {:induction false} ListingIsSound(payload: seq<Byte>)
    requires ListEntries(payload).Listing?
    ensures Sendable(ListEntries(payload).entries) && Entries(ListEntries(payload).entries) == payload
    decreases |payload|
  {
    if payload != [] {
      var next := |StringAt(payload, 0)| + 2;
      var rest := ListEntries(payload[next + 1..]).entries;
      FirstEntry(payload);
      ListingIsSound(payload[next + 1..]);
      EntriesCons(Entry(StringAt(payload, 0), payload[next]), rest);
      SplitPayload(payload, next);
    }
  }

  /** Reading stays inside the payload exactly when the payload is well-formed, and then yields its entries. */
  lemma {:induction false} ListingIsExact(payload: seq<Byte>)
    ensures ListEntries(payload).Listing? <==> exists entries :: Sendable(entries) && Entries(entries) == payload
    ensures forall entries :: Sendable(entries) && Entries(entries) == payload ==>
              ListEntries(payload) == Listing(entries)
  {
    if ListEntries(payload).Listing? {
      ListingIsSound(payload);
    }
    forall entries | Sendable(entries) && Entries(entries) == payload
      ensures ListEntries(payload) == Listing(entries)
    {
      EntriesListed(entries);
    }
  }

  // ---------------------------------------------------------------------------------------------------
  // The class
  // ---------------------------------------------------------------------------------------------------

  method AppendData(data: seq<Byte>, target: seq<Byte>) returns (target': seq<Byte>)
    ensures target' == target + data
  {
    target' := target;
    for i := 0 to |data|
      invariant target' == target + data[..i]
    {
      target' := target' + [data[i]];
    }
  }

  method AppendString(text: Text, target: seq<Byte>) returns (target': seq<Byte>)
    ensures target' == target + StringBytes(text)
  {
    var length := |text| % 0x1_0000;
    target' := target + MsbLsb(length);
    var i := 0;
    while i < length
      invariant 0 <= i <= length
      invariant target' == target + MsbLsb(length) + text[..i]
    {
      target' := target' + [text[i]];
      i := i + 1;
    }
  }

  class MqttPacket {
    var data: seq<Byte>
    var start: nat
    var error: bool
    var tooBig: bool

    /** The PUBLISH constructor. */
    constructor Publish(topic: Text, payload: seq<Byte>, qos: nat, retain: bool, id: nat)
      requires qos <= 2 && id < 0x1_0000
      ensures data == Framed(PublishHeader(qos, retain), PublishBody(topic, payload, qos, id))
      ensures error <==> |PublishBody(topic, payload, qos, id)| >= LIMIT
      ensures !error ==> start == BodyStart(data)
      ensures !tooBig
    {
      var body := AppendString(topic, []);
      if qos > 0 {
        body := body + MsbLsb(id);
      }
      body := AppendData(payload, body);
      assert body == PublishBody(topic, payload, qos, id);
      var bytes := EncodeRemainingLength([PublishHeader(qos, retain)], |body|);
      bytes := bytes + body;
      data, tooBig := bytes, false;
      var _, s, e := CalculateRemainingLength(bytes, false);
      start, error := s, e;
      assert bytes == Framed(PublishHeader(qos, retain), body);
      FramedLength(PublishHeader(qos, retain), body);
    }

    method Recalculate()
      requires data != []
      modifies this`start, this`error
      ensures error == (old(error) || Decode(data[1..], 0).error)
      ensures start == if old(error) then 1 else BodyStart(data)
    {
      var _, s, e := CalculateRemainingLength(data, error);
      start, error := s, e;
    }

    method GetString(offset: nat) returns (text: Text)
      requires offset + 2 <= |data|
      ensures text == StringAt(data, offset)
    {
      var length := NumberAt(data, offset);
      var at, i := offset + 2, 0;
      text := [];
      while at != |data| && i < length
        invariant 0 <= i <= length && at == offset + 2 + i && at <= |data|
        invariant text == data[offset + 2..at]
        decreases |data| - at
      {
        text := text + [data[at]];
        at, i := at + 1, i + 1;
      }
    }

    /** Where the variable header is taken to start: a packet already in error is not looked at. */
    function HeaderEnd(): nat
      requires data != []
      reads this
    {
      if error then 1 else BodyStart(data)
    }

    method GetTopic() returns (topic: Text)
      requires data != [] && HeaderEnd() + 2 <= |data|
      modifies this`start, this`error
      ensures start == old(HeaderEnd()) && topic == StringAt(data, start)
      ensures !old(error) ==> topic == TopicOf(data)
    {
      Recalculate();
      topic := GetString(start);
    }

    method GetVariableHeaderLength() returns (length: nat)
      requires data != [] && HeaderEnd() + 2 <= |data|
      modifies this`start, this`error
      ensures start == old(HeaderEnd())
      ensures length == |StringAt(data, start)| + 2 + (if QosBits(data) > 0 then 2 else 0)
      ensures !old(error) ==> length == VariableHeaderLength(data)
    {
      var topic := GetTopic();
      length := |topic| + 2 + (if QosBits(data) > 0 then 2 else 0);
    }

    /** One round of get_topics: an entry and where the next one starts, or a read behind the last byte. */
    method ReadEntry(at: nat) returns (pastEnd: bool, topics: seq<Entry>, next: nat)
      requires at < |data|
      ensures if pastEnd then ListEntries(data[at..]) == PastEnd else Continues(data, at, topics, next)
    {
      pastEnd, topics, next := |data| - at < 2, [], at;
      if !pastEnd {
        var text := GetString(at);
        ListFirst(data, at);
        var moved;
        moved, next := Advance(at, |data|, |text| + 2);
        assert moved;  // the branch that skips the rest of a malformed packet is not taken
        pastEnd := next == |data|;
        if !pastEnd {
          topics, next := [Entry(text, data[next])], next + 1;
        }
      }
    }

    /** get_topics of a SUBSCRIBE packet, whose variable header is its identifier. PastEnd stands for a read behind
        the last byte. */
    method GetTopics() returns (listing: Listing)
      requires data != [] && HeaderEnd() + 2 <= |data|
      modifies this`start, this`error
      ensures listing == ListEntries(data[old(HeaderEnd()) + 2..])
    {
      Recalculate();
      ghost var payload := data[start + 2..];
      var at, topics := start + 2, [];
      PrependNone(ListEntries(payload));
      while at != |data|
        invariant start + 2 <= at <= |data|
        invariant ListEntries(payload) == Prepend(topics, ListEntries(data[at..]))
        decreases |data| - at
      {
        var pastEnd, more, next := ReadEntry(at);
        if pastEnd {
          return PastEnd;
        }
        PrependTwice(topics, more, ListEntries(data[next..]));
        topics, at := topics + more, next;
      }
      ListNone(topics, data[at..]);
      return Listing(topics);
    }
  }

  /** util::advance: the iterator moves only if it stays inside. */
  method Advance(current: nat, end: nat, inc: nat) returns (res: bool, next: nat)
    requires current <= end
    ensures res <==> 0 < inc <= end - current
    ensures next == if res then current + inc else current
  {
    res, next := false, current;
    if inc > 0 {
      var dist := end - current;
      var toMove := if dist < inc then dist else inc;
      res := inc == toMove;
      if res {
        next := current + toMove;
      }
    }
  }

  function Prepend(entries: seq<Entry>, listing: Listing): Listing {
    match listing
    case PastEnd => PastEnd
    case Listing(rest) => Listing(entries + rest)
  }

  /** What is listed from `at` on are these entries and then what is listed from `next` on. */
  predicate Continues(data: seq<Byte>, at: nat, entries: seq<Entry>, next: nat) {
    at < next <= |data| && ListEntries(data[at..]) == Prepend(entries, ListEntries(data[next..]))
  }

  /** While at least two bytes are left, the length of the string that is read fits: advance() succeeds, so the branch
      for a malformed packet is not taken, and what follows is an entry or a read past the end. */
  lemma ListFirst(data: seq<Byte>, at: nat)
    requires at + 2 <= |data|
    ensures var next := at + |StringAt(data, at)| + 2;
            && next <= |data|
            && (next == |data| ==> ListEntries(data[at..]) == PastEnd)
            && (next < |data| ==> Continues(data, at, [Entry(StringAt(data, at), data[next])], next + 1))
  {
    var rest := data[at..];
    var next := at + |StringAt(data, at)| + 2;
    assert StringAt(rest, 0) == StringAt(data, at);
    if next < |data| {
      assert rest[next - at..][1..] == data[next + 1..];
    }
  }

  lemma {:induction false} ListNone(topics: seq<Entry>, rest: seq<Byte>)
    requires rest == []
    ensures Prepend(topics, ListEntries(rest)) == Listing(topics)
  {
    assert topics + [] == topics;
  }

  lemma PrependNone(listing: Listing)
    ensures Prepend([], listing) == listing
  {
    if listing.Listing? {
      assert [] + listing.entries == listing.entries;
    }
  }

  lemma PrependTwice(a: seq<Entry>, b: seq<Entry>, listing: Listing)
    ensures Prepend(a, Prepend(b, listing)) == Prepend(a + b, listing)
  {
    if listing.Listing? {
      assert a + (b + listing.entries) == (a + b) + listing.entries;
    }
  }
}
