/** Receiving an HTTP message: the header block, and a body that is handed to the application in parts of roughly
    `chunk` bytes. */
module HttpBody {
  import opened ByteBuffers
  import opened HttpPackets

  /** "\r\n\r\n" */
  const ENDING: Bytes := [13, 10, 13, 10]

  /** The sizes given to the constructor, and the value of the content-length header of a header block: 0 if it is
      missing or no number. */
  datatype Config = Config(maxHeader: nat, chunk: nat, declared: Bytes -> int)

  /** One packet handed to the application. */
  datatype Part = Part(data: Bytes, continuation: bool, continued: bool)

  /** The protocol's fields and the packet under assembly. */
  datatype Http = Http(readingHeaders: bool, total: nat, content: nat, part: nat, incoming: int, headerSize: nat,
                       error: bool, data: Bytes, continuation: bool, continued: bool)

  const FRESH := Http(true, 0, 0, 0, 0, 0, false, [], false, false)

  predicate EndsAt(data: Bytes, at: nat) {
    at + 4 <= |data| && data[at..at + 4] == ENDING
  }

  /** Where the first header ending at or after `from` begins; |data| if there is none. */
  function FindEnding(data: Bytes, from: nat): (at: nat)
    requires from <= |data|
    ensures from <= at <= |data|
    ensures at < |data| ==> EndsAt(data, at)
    ensures forall i :: from <= i < at ==> !EndsAt(data, i)
    decreases |data| - from
  {
    if from == |data| then |data| else if EndsAt(data, from) then from else FindEnding(data, from + 1)
  }

  function Wanted(h: Http, c: Config): int {
    if h.readingHeaders then c.maxHeader - h.total
    else if h.incoming - h.content < c.chunk then h.incoming - h.content
    else c.chunk
  }

  /** get_wanted_amount makes room for what it asks for; a negative amount takes room away. */
  function Prepared(h: Http, c: Config): Http
    requires 0 <= |h.data| + Wanted(h, c)
  {
    h.(data := Resize(h.data, |h.data| + Wanted(h, c)))
  }

  function WritePos(h: Http): nat {
    if h.readingHeaders then h.total else h.part
  }

  function Filled(h: Http, bytes: Bytes): Http
    requires WritePos(h) + |bytes| <= |h.data|
  {
    h.(data := Overwrite(h.data, WritePos(h), bytes))
  }

  predicate IsComplete(h: Http, c: Config) {
    !h.readingHeaders && (h.incoming == 0 || h.content == h.incoming || h.part >= c.chunk)
  }

  /** packet_consumed, before the packet is replaced by a new one. */
  function Reset(h: Http): Http {
    if h.error || h.content >= h.incoming then
      h.(part := 0, total := 0, incoming := 0, content := 0, headerSize := 0, readingHeaders := true, error := false)
    else
      h.(part := 0, error := false)
  }

  /** The header ending is at `at`: what lies behind it is body. */
  function HeadersRead(h: Http, c: Config, at: nat): Http
    requires at + 4 <= |h.data|
  {
    var extra := if at + 4 <= h.total then h.total - (at + 4) else 0;
    var incoming := c.declared(h.data[..at + 4]);
    h.(readingHeaders := false, headerSize := at + 4, content := extra, part := extra, incoming := incoming,
       error := h.error || incoming < 0, data := h.data[at + 4..])
  }

  function Counted(h: Http, length: nat, c: Config): Http {
    var g := h.(total := h.total + length);
    if h.readingHeaders then
      var at := FindEnding(h.data, 0);
      if at < |h.data| then HeadersRead(g, c, at)
      else if g.total >= c.maxHeader then Reset(g.(error := true))
      else g
    else
      g.(content := h.content + length, part := h.part + length)
  }

  /** A complete part is cut to its bytes and flagged. */
  function Finished(h: Http, c: Config): Http {
    h.(data := Resize(h.data, h.part),
       continued := h.continued || h.content < h.incoming,
       continuation := h.continuation || (!h.readingHeaders && h.content - h.part > c.chunk))
  }

  function Advanced(h: Http, length: nat, c: Config): Http {
    var g := Counted(h, length, c);
    if IsComplete(g, c) then Finished(g, c) else g
  }

  /** packet_consumed with a new packet in place of the delivered one. */
  function Consumed(h: Http): Http {
    Reset(h).(data := [], continuation := false, continued := false)
  }

  /** The outcome of one read. */
  datatype Fed = Fed(http: Http, parts: seq<Part>)

  function Delivered(h: Http, c: Config): Fed {
    if IsComplete(h, c) then Fed(Consumed(h), [Part(h.data, h.continuation, h.continued)]) else Fed(h, [])
  }

  function Feed(h: Http, bytes: Bytes, c: Config): Fed
    requires WritePos(h) + |bytes| <= |h.data|
  {
    Delivered(Advanced(Filled(h, bytes), |bytes|, c), c)
  }

  /** A read can be made: something is wanted, and it fits behind the write position. */
  predicate CanRead(h: Http, c: Config) {
    0 < Wanted(h, c) && WritePos(h) <= |h.data|
  }

  /** The protocol, the bytes that have not been read, and the parts delivered so far. */
  datatype Session = Session(http: Http, stream: Bytes, parts: seq<Part>)

  /** One read of between 1 and the wanted number of bytes, if there are bytes and a positive amount is wanted. What
      recv() does with another amount is not part of the model. */
  function Step(s: Session, cut: nat, c: Config): Session {
    if s.stream == [] || !CanRead(s.http, c) then
      s
    else
      var n := ReadSize(cut, Wanted(s.http, c), |s.stream|);
      var fed := Feed(Prepared(s.http, c), s.stream[..n], c);
      Session(fed.http, s.stream[n..], s.parts + fed.parts)
  }

  function Run(s: Session, cuts: seq<nat>, c: Config): Session
    decreases |cuts|
  {
    if cuts == [] then s else Run(Step(s, cuts[0], c), cuts[1..], c)
  }

  // ---------------------------------------------------------------------------------------------------
  // The body
  // ---------------------------------------------------------------------------------------------------

  /** The part of the body that begins at `from`: flagged continued and at least `chunk` bytes long unless it ends
      the body, and at most 2 * chunk - 1 bytes long unless it begins the body. */
  ghost predicate PartOk(part: Part, body: Bytes, from: nat, chunk: nat)
    requires from <= |body|
  {
    var end := from + |part.data|;
    && end <= |body| && part.data == body[from..end]
    && (part.continued <==> end < |body|)
    && (part.continued ==> |part.data| >= chunk)
    && (part.continuation <==> from > chunk)
    && (from > 0 ==> |part.data| < 2 * chunk)
  }

  /** The parts make up the body from `from` on, except perhaps for an end that is still missing. */
  ghost predicate PartsOf(parts: seq<Part>, body: Bytes, from: nat, chunk: nat)
    requires from <= |body|
    decreases |parts|
  {
    parts == []
    || (PartOk(parts[0], body, from, chunk) && PartsOf(parts[1..], body, from + |parts[0].data|, chunk))
  }

  function Joined(parts: seq<Part>): Bytes {
    if parts == [] then [] else parts[0].data + Joined(parts[1..])
  }

  /** Together such parts are a piece of the body, beginning at `from`. */
  lemma {:induction false} PartsJoin(parts: seq<Part>, body: Bytes, from: nat, chunk: nat)
    requires from <= |body| && PartsOf(parts, body, from, chunk)
    ensures from + |Joined(parts)| <= |body| && Joined(parts) == body[from..from + |Joined(parts)|]
    decreases |parts|
  {
    if parts != [] {
      var end := from + |parts[0].data|;
      PartsJoin(parts[1..], body, end, chunk);
    }
  }

  lemma {:induction false} PartsCons(part: Part, later: seq<Part>, body: Bytes, from: nat, chunk: nat)
    requires from <= |body| && PartOk(part, body, from, chunk) && PartsOf(later, body, from + |part.data|, chunk)
    ensures PartsOf([part] + later, body, from, chunk)
    ensures |Joined([part] + later)| == |part.data| + |Joined(later)|
  {
    assert ([part] + later)[1..] == later;
  }

  lemma {:induction false} OnePart(part: Part, body: Bytes, from: nat, chunk: nat)
    requires from <= |body| && PartOk(part, body, from, chunk)
    ensures PartsOf([] + [part], body, from, chunk) && |Joined([] + [part])| == |part.data|
  {
    PartsCons(part, [], body, from, chunk);
    assert [] + [part] == [part] + [];
  }

  lemma HeadAndLater(parts: seq<Part>, part: Part)
    requires parts != []
    ensures parts + [part] == [parts[0]] + (parts[1..] + [part])
  {
  }

  lemma {:induction false} FirstPart(parts: seq<Part>, body: Bytes, from: nat, chunk: nat)
    requires parts != [] && from <= |body| && PartsOf(parts, body, from, chunk)
    ensures PartOk(parts[0], body, from, chunk) && PartsOf(parts[1..], body, from + |parts[0].data|, chunk)
    ensures |Joined(parts)| == |parts[0].data| + |Joined(parts[1..])|
  {
  }

  lemma {:induction false} PartBehind(parts: seq<Part>, part: Part, body: Bytes, from: nat, chunk: nat)
    requires from + |Joined(parts)| <= |body| && PartsOf(parts, body, from, chunk)
    requires PartOk(part, body, from + |Joined(parts)|, chunk)
    ensures PartsOf(parts + [part], body, from, chunk)
    ensures |Joined(parts + [part])| == |Joined(parts)| + |part.data|
    decreases |parts|
  {
    if parts == [] {
      OnePart(part, body, from, chunk);
    } else {
      var later := parts[1..] + [part];
      FirstPart(parts, body, from, chunk);
      PartBehind(parts[1..], part, body, from + |parts[0].data|, chunk);
      PartsCons(parts[0], later, body, from, chunk);
      HeadAndLater(parts, part);
    }
  }

  /** A part that ends at `got` after parts that end at `start`. */
  lemma PartAdded(parts: seq<Part>, body: Bytes, from: nat, start: nat, got: nat, chunk: nat)
    requires from <= |body| && PartsOf(parts, body, from, chunk) && start == from + |Joined(parts)| <= got <= |body|
    requires got < |body| ==> got - start >= chunk
    requires start > 0 ==> got - start < 2 * chunk
    ensures var all := parts + [Part(body[start..got], start > chunk, got < |body|)];
            PartsOf(all, body, from, chunk) && from + |Joined(all)| == got
  {
    PartBehind(parts, Part(body[start..got], start > chunk, got < |body|), body, from, chunk);
  }

  /** Between reads inside the body: `got` bytes of it have arrived, the last `part` of them are in the buffer. */
  ghost predicate InBody(h: Http, body: Bytes, got: nat, c: Config) {
    && 0 < c.chunk && !h.readingHeaders && !h.error && !h.continuation && !h.continued
    && h.incoming == |body| && h.content == got < |body|
    && h.part <= got && h.part < c.chunk && h.part <= |h.data|
    && h.data[..h.part] == body[got - h.part..got]
  }

  /** Inside the body something is wanted, never more than the body still has, and it fits into the buffer. */
  lemma BodyWants(h: Http, body: Bytes, got: nat, c: Config)
    requires InBody(h, body, got, c)
    ensures CanRead(h, c) && Wanted(h, c) <= |body| - got
    ensures WritePos(Prepared(h, c)) + Wanted(h, c) <= |Prepared(h, c).data|
    ensures InBody(Prepared(h, c), body, got, c)
  {
  }

  /** `start` is where the part under assembly begins, `got` what has arrived of the body: the part is finished
      exactly when it has `chunk` bytes or ends the body. */
  ghost predicate BodyGoesOn(fed: Fed, body: Bytes, start: nat, got: nat, c: Config)
    requires start <= got <= |body|
  {
    if got < |body| && got - start < c.chunk then
      fed.parts == [] && InBody(fed.http, body, got, c) && fed.http.part == got - start
    else
      && fed.parts == [Part(body[start..got], start > c.chunk, got < |body|)]
      && if got == |body| then fed.http == FRESH else InBody(fed.http, body, got, c) && fed.http.part == 0
  }

  /** What counting the bytes of a read leads to. */
  lemma CountedBody(g: Http, body: Bytes, start: nat, got: nat, c: Config)
    requires 0 < c.chunk && start <= got <= |body|
    requires !g.readingHeaders && !g.error && !g.continuation && !g.continued && g.incoming == |body|
    requires g.content == got && g.part == got - start <= |g.data| && g.data[..g.part] == body[start..got]
    ensures var fed := Delivered(if IsComplete(g, c) then Finished(g, c) else g, c);
            BodyGoesOn(fed, body, start, got, c)
  {
    if IsComplete(g, c) {
      var a := Finished(g, c);
      assert a.data == body[start..got];
      assert IsComplete(a, c);
    }
  }

  lemma FeedBody(h: Http, body: Bytes, got: nat, n: nat, c: Config)
    requires InBody(h, body, got, c) && 1 <= n <= |body| - got && h.part + n <= |h.data|
    ensures BodyGoesOn(Feed(h, body[got..got + n], c), body, got - h.part, got + n, c)
  {
    var start := got - h.part;
    var v := Filled(h, body[got..got + n]);
    assert h.data[..h.part] == body[start..][..h.part];
    OverwriteKeeps(h.data, body[start..], h.part, n);
    assert body[start..][h.part..h.part + n] == body[got..got + n];
    assert v.data[..h.part + n] == body[start..][..h.part + n] == body[start..got + n];
    CountedBody(Counted(v, n, c), body, start, got + n, c);
  }

  /** The parts so far and what is in the buffer make up `got` bytes of the body, the rest is still to be read;
      after the last byte the protocol is as at first. */
  ghost predicate BodySession(s: Session, body: Bytes, got: nat, c: Config) {
    && 0 < c.chunk && got <= |body| && s.stream == body[got..]
    && PartsOf(s.parts, body, 0, c.chunk)
    && if got < |body| then InBody(s.http, body, got, c) && |Joined(s.parts)| == got - s.http.part
       else s.http == FRESH && |Joined(s.parts)| == |body|
  }

  /** A read that brings the part beginning at `start` to `got` bytes of the body. */
  lemma {:induction false} BodyRead(fed: Fed, parts: seq<Part>, body: Bytes, start: nat, got: nat, c: Config)
    requires 0 < c.chunk && start <= got <= |body| && BodyGoesOn(fed, body, start, got, c)
    requires PartsOf(parts, body, 0, c.chunk) && |Joined(parts)| == start
    requires start > 0 ==> got - start < 2 * c.chunk
    ensures BodySession(Session(fed.http, body[got..], parts + fed.parts), body, got, c)
  {
    if fed.parts == [] {
      assert parts + fed.parts == parts;
    } else {
      PartAdded(parts, body, 0, start, got, c.chunk);
    }
  }

  lemma SplitBody(body: Bytes, got: nat, n: nat)
    requires got + n <= |body|
    ensures body[got..][..n] == body[got..got + n] && body[got..][n..] == body[got + n..]
  {
  }

  lemma BodyStep(s: Session, body: Bytes, got: nat, cut: nat, c: Config) returns (n: nat)
    requires BodySession(s, body, got, c)
    ensures got + n <= |body| && BodySession(Step(s, cut, c), body, got + n, c)
    ensures got < |body| ==> n > 0
  {
    n := 0;
    if got < |body| {
      BodyWants(s.http, body, got, c);
      n := ReadSize(cut, Wanted(s.http, c), |s.stream|);
      SplitBody(body, got, n);
      var h := Prepared(s.http, c);
      FeedBody(h, body, got, n, c);
      BodyRead(Feed(h, body[got..got + n], c), s.parts, body, got - h.part, got + n, c);
    }
  }

  lemma {:induction false} BodyRun(s: Session, body: Bytes, got: nat, cuts: seq<nat>, c: Config) returns (end: nat)
    requires BodySession(s, body, got, c)
    ensures end <= |body| && BodySession(Run(s, cuts, c), body, end, c)
    ensures |body| - got <= |cuts| ==> end == |body|
    decreases |cuts|
  {
    end := got;
    if cuts != [] {
      var n := BodyStep(s, body, got, cuts[0], c);
      end := BodyRun(Step(s, cuts[0], c), body, got + n, cuts[1..], c);
    }
  }

  // ---------------------------------------------------------------------------------------------------
  // The header block
  // ---------------------------------------------------------------------------------------------------

  /** A header block that fits: its ending is its last four bytes, and there is none before. */
  ghost predicate HeaderBlock(header: Bytes, c: Config) {
    && 4 <= |header| <= c.maxHeader && 0 < c.chunk
    && EndsAt(header, |header| - 4) && forall i :: 0 <= i < |header| - 4 ==> !EndsAt(header, i)
  }

  predicate AllZero(data: Bytes) {
    forall i :: 0 <= i < |data| ==> data[i] == 0
  }

  /** k bytes of the stream have arrived, the ending not among them; behind them the buffer is zero. */
  ghost predicate InHeader(h: Http, stream: Bytes, k: nat) {
    && k <= |stream| && k <= |h.data| && h == FRESH.(total := k, data := h.data)
    && h.data[..k] == stream[..k] && AllZero(h.data[k..])
  }

  lemma EndingBytes(data: Bytes, at: nat)
    requires at + 4 <= |data|
    ensures EndsAt(data, at) <==> data[at] == 13 && data[at + 1] == 10 && data[at + 2] == 13 && data[at + 3] == 10
  {
    var four := data[at..at + 4];
    assert four == [data[at], data[at + 1], data[at + 2], data[at + 3]];
  }

  /** Zeros behind the received bytes neither make nor hide an ending. */
  lemma EndingInBuffer(data: Bytes, stream: Bytes, k: nat, i: nat)
    requires k <= |stream| && k <= |data| && data[..k] == stream[..k] && AllZero(data[k..])
    ensures EndsAt(data, i) <==> i + 4 <= k && EndsAt(stream, i)
  {
    if i + 4 <= |data| {
      EndingBytes(data, i);
      if i + 4 <= k {
        EndingBytes(stream, i);
        assert forall j :: 0 <= j < k ==> data[..k][j] == stream[..k][j];
      } else {
        var zero := if i < k then k - i else 0;
        assert data[k..][i + zero - k] == 0;
      }
    }
  }

  /** The ending is found exactly when the whole block has arrived, and where the block has it. */
  lemma {:induction false} EndingFound(data: Bytes, header: Bytes, body: Bytes, k: nat, c: Config)
    requires HeaderBlock(header, c) && k <= |header + body|
    requires k <= |data| && data[..k] == (header + body)[..k] && AllZero(data[k..])
    ensures FindEnding(data, 0) == if k < |header| then |data| else |header| - 4
  {
    var at, stream := FindEnding(data, 0), header + body;
    if at < |data| {
      EndingInBuffer(data, stream, k, at);
      assert at + 4 < |header| ==> EndsAt(header, at) by {
        if at + 4 < |header| {
          EndingBytes(stream, at);
          EndingBytes(header, at);
        }
      }
    }
    if |header| <= k {
      EndingBytes(header, |header| - 4);
      EndingBytes(stream, |header| - 4);
      EndingInBuffer(data, stream, k, |header| - 4);
    }
  }

  lemma HeaderWants(h: Http, stream: Bytes, k: nat, c: Config)
    requires InHeader(h, stream, k) && k < c.maxHeader
    ensures CanRead(h, c) && Wanted(h, c) == c.maxHeader - k
    ensures InHeader(Prepared(h, c), stream, k) && k + Wanted(h, c) <= |Prepared(h, c).data|
  {
  }

  lemma FillHeader(h: Http, stream: Bytes, k: nat, n: nat)
    requires InHeader(h, stream, k) && k + n <= |stream| && k + n <= |h.data|
    ensures InHeader(Filled(h, stream[k..k + n]).(total := k + n), stream, k + n)
  {
    OverwriteKeeps(h.data, stream, k, n);
    assert Overwrite(h.data, k, stream[k..k + n])[k + n..] == h.data[k..][n..];
  }

  /** A read that ends inside the header block. */
  lemma FeedHeader(h: Http, header: Bytes, body: Bytes, k: nat, n: nat, c: Config)
    requires HeaderBlock(header, c) && InHeader(h, header + body, k) && k + n < |header| && k + n <= |h.data|
    ensures var fed := Feed(h, (header + body)[k..k + n], c);
            fed.parts == [] && InHeader(fed.http, header + body, k + n)
  {
    FillHeader(h, header + body, k, n);
    var v := Filled(h, (header + body)[k..k + n]);
    EndingFound(v.data, header, body, k + n, c);
  }

  /** The header block ends with the first CR LF CR LF. */
  lemma HeaderBlockEnds(header: Bytes, c: Config, i: nat)
    requires HeaderBlock(header, c) && i + 4 <= |header|
    ensures header[i] == 13 && header[i + 1] == 10 && header[i + 2] == 13 && header[i + 3] == 10 <==> i == |header| - 4
  {
    assert EndsAt(header, i) <==> i == |header| - 4;
    EndingBytes(header, i);
  }

  /** A read that fills the header limit without an empty line is given up: no part is delivered, and the protocol
      expects the first byte of a message. */
  lemma TooLongIsGivenUp(h: Http, bytes: Bytes, c: Config)
    requires h.readingHeaders && WritePos(h) + |bytes| <= |h.data| && h.total + |bytes| >= c.maxHeader
    requires FindEnding(Filled(h, bytes).data, 0) == |h.data|
    ensures var fed := Feed(h, bytes, c);
            fed.parts == [] && fed.http.readingHeaders && fed.http.total == 0 && !fed.http.error
  {
  }

  /** The read that ends the header block, with `extra` bytes behind it. */
  lemma HeaderEnds(h: Http, header: Bytes, behind: Bytes, k: nat, n: nat, c: Config) returns (g: Http)
    requires HeaderBlock(header, c) && InHeader(h, header + behind, k)
    requires |header| <= k + n <= |header + behind| && k + n <= |h.data|
    ensures g == Counted(Filled(h, (header + behind)[k..k + n]), n, c)
    ensures var extra := k + n - |header|;
            && !g.readingHeaders && !g.continuation && !g.continued
            && g.incoming == c.declared(header) && g.error == (g.incoming < 0)
            && g.content == g.part == extra <= |g.data| && g.data[..extra] == behind[..extra]
  {
    var stream := header + behind;
    FillHeader(h, stream, k, n);
    var v := Filled(h, stream[k..k + n]);
    EndingFound(v.data, header, behind, k + n, c);
    g := Counted(v, n, c);
    assert v.data[..|header|] == v.data[..k + n][..|header|] == header;
    assert g.data[..k + n - |header|] == v.data[..k + n][|header|..];
  }

  lemma FeedHeaderEnd(h: Http, header: Bytes, body: Bytes, k: nat, n: nat, c: Config)
    requires HeaderBlock(header, c) && InHeader(h, header + body, k) && c.declared(header) == |body|
    requires |header| <= k + n <= |header + body| && k + n <= |h.data|
    ensures BodyGoesOn(Feed(h, (header + body)[k..k + n], c), body, 0, k + n - |header|, c)
  {
    var stream, extra := header + body, k + n - |header|;
    var g := HeaderEnds(h, header, body, k, n, c);
    assert |stream[k..k + n]| == n && body[0..extra] == body[..extra];
    CountedBody(g, body, 0, extra, c);
  }

  lemma SplitMessage(header: Bytes, body: Bytes, k: nat, n: nat)
    requires k + n <= |header + body|
    ensures var stream := header + body;
            && stream[k..][..n] == stream[k..k + n] && stream[k..][n..] == stream[k + n..]
            && (|header| <= k + n ==> stream[k + n..] == body[k + n - |header|..])
  {
  }

  /** k bytes of the message have been read. */
  ghost predicate MessageSession(s: Session, header: Bytes, body: Bytes, k: nat, c: Config) {
    && k <= |header| + |body|
    && if k < |header| then
         s.stream == (header + body)[k..] && s.parts == [] && InHeader(s.http, header + body, k)
       else
         BodySession(s, body, k - |header|, c)
  }

  lemma HeaderStep(s: Session, header: Bytes, body: Bytes, k: nat, cut: nat, c: Config) returns (n: nat)
    requires HeaderBlock(header, c) && c.declared(header) == |body|
    requires k < |header| && MessageSession(s, header, body, k, c)
    ensures 1 <= n && MessageSession(Step(s, cut, c), header, body, k + n, c)
  {
    var stream := header + body;
    HeaderWants(s.http, stream, k, c);
    n := ReadSize(cut, Wanted(s.http, c), |s.stream|);
    SplitMessage(header, body, k, n);
    var h := Prepared(s.http, c);
    var fed := Feed(h, stream[k..k + n], c);
    if k + n < |header| {
      FeedHeader(h, header, body, k, n, c);
    } else {
      FeedHeaderEnd(h, header, body, k, n, c);
      BodyRead(fed, [], body, 0, k + n - |header|, c);
    }
  }

  /** Behind the header block only the body is left. */
  lemma InBodySession(s: Session, header: Bytes, body: Bytes, got: nat, c: Config)
    requires got <= |body|
    ensures MessageSession(s, header, body, |header| + got, c) <==> BodySession(s, body, got, c)
  {
  }

  lemma MessageBodyRun(s: Session, header: Bytes, body: Bytes, k: nat, cuts: seq<nat>, c: Config)
    returns (end: nat)
    requires |header| <= k <= |header| + |body| && BodySession(s, body, k - |header|, c)
    ensures MessageSession(Run(s, cuts, c), header, body, end, c)
    ensures |header| + |body| - k <= |cuts| ==> end == |header| + |body|
  {
    var got := BodyRun(s, body, k - |header|, cuts, c);
    end := |header| + got;
    InBodySession(Run(s, cuts, c), header, body, got, c);
  }

  lemma {:induction false} MessageRun(s: Session, header: Bytes, body: Bytes, k: nat, cuts: seq<nat>, c: Config)
    returns (end: nat)
    requires HeaderBlock(header, c) && c.declared(header) == |body| && MessageSession(s, header, body, k, c)
    ensures MessageSession(Run(s, cuts, c), header, body, end, c)
    ensures |header| + |body| - k <= |cuts| ==> end == |header| + |body|
    decreases |cuts|
  {
    end := k;
    if k >= |header| {
      end := MessageBodyRun(s, header, body, k, cuts, c);
    } else if cuts != [] {
      var n := HeaderStep(s, header, body, k, cuts[0], c);
      end := MessageRun(Step(s, cuts[0], c), header, body, k + n, cuts[1..], c);
    }
  }

  /** Any header block that fits, any body of the declared length, any cuts of the two into reads: the parts make
      up the body; enough reads deliver the whole of it and leave the protocol as at first. */
  lemma {:induction false} BodyConserved(header: Bytes, body: Bytes, cuts: seq<nat>, c: Config)
    requires HeaderBlock(header, c) && c.declared(header) == |body|
    ensures var t := Run(Session(FRESH, header + body, []), cuts, c);
            && PartsOf(t.parts, body, 0, c.chunk)
            && Joined(t.parts) <= body
            && (|header + body| <= |cuts| ==> Joined(t.parts) == body && t.http == FRESH && t.stream == [])
  {
    assert (header + body)[0..] == header + body;
    var end := MessageRun(Session(FRESH, header + body, []), header, body, 0, cuts, c);
    PartsJoin(Run(Session(FRESH, header + body, []), cuts, c).parts, body, 0, c.chunk);
  }

  // ---------------------------------------------------------------------------------------------------
  // When the header read runs past the body
  // ---------------------------------------------------------------------------------------------------

  /** The body arrives, given what the header read has left: `behind` is the number of bytes that it took behind
      the header block. */
  ghost predicate Conserves(fed: Fed, body: Bytes, behind: nat, cuts: seq<nat>, c: Config) {
    var t := Run(Session(fed.http, if behind <= |body| then body[behind..] else [], fed.parts), cuts, c);
    && PartsOf(t.parts, body, 0, c.chunk)
    && (|body| <= |cuts| ==> Joined(t.parts) == body && t.http == FRESH)
  }

  /** However the rest of the body is cut. */
  ghost predicate AlwaysConserves(fed: Fed, body: Bytes, behind: nat, c: Config) {
    forall cuts :: Conserves(fed, body, behind, cuts, c)
  }

  lemma ConservedWithin(fed: Fed, body: Bytes, behind: nat, cuts: seq<nat>, c: Config)
    requires 0 < c.chunk && behind <= |body| && BodyGoesOn(fed, body, 0, behind, c)
    ensures Conserves(fed, body, behind, cuts, c)
  {
    BodyRead(fed, [], body, 0, behind, c);
    assert [] + fed.parts == fed.parts;
    var s := Session(fed.http, body[behind..], fed.parts);
    var end := BodyRun(s, body, behind, cuts, c);
    PartsJoin(Run(s, cuts, c).parts, body, 0, c.chunk);
  }

  lemma {:induction false} StuckRun(s: Session, cuts: seq<nat>, c: Config)
    requires s.stream == []
    ensures Run(s, cuts, c) == s
    decreases |cuts|
  {
    if cuts != [] {
      StuckRun(s, cuts[1..], c);
    }
  }

  /** Too many bytes: they are all delivered as body, or the protocol asks for a negative amount. */
  lemma NotConservedBeyond(g: Http, body: Bytes, cuts: seq<nat>, c: Config)
    requires 0 < c.chunk && !g.readingHeaders && !g.error && g.incoming == |body| < g.content
    requires g.content == g.part <= |g.data| && |body| <= |cuts|
    ensures var fed := Delivered(if IsComplete(g, c) then Finished(g, c) else g, c);
            && !Conserves(fed, body, g.content, cuts, c)
            && if IsComplete(g, c) then |fed.parts| == 1 && fed.parts[0].data == g.data[..g.part]
               else fed == Fed(g, []) && Wanted(g, c) < 0
  {
    var fed := Delivered(if IsComplete(g, c) then Finished(g, c) else g, c);
    StuckRun(Session(fed.http, [], fed.parts), cuts, c);
    if IsComplete(g, c) {
      var a := Finished(g, c);
      assert fed.parts == [Part(a.data, a.continuation, a.continued)];
      assert |fed.parts[0].data| > |body|;
    }
  }

  /** The body is conserved, for every way of cutting its rest, exactly when the read that ended the header block
      did not run past it. */
  lemma ConservedIff(h: Http, header: Bytes, body: Bytes, after: Bytes, k: nat, n: nat, c: Config)
    requires HeaderBlock(header, c) && c.declared(header) == |body|
    requires InHeader(h, header + (body + after), k) && k + n <= |h.data|
    requires |header| <= k + n <= |header + (body + after)|
    ensures var fed := Feed(h, (header + (body + after))[k..k + n], c);
            AlwaysConserves(fed, body, k + n - |header|, c) <==> k + n <= |header + body|
  {
    var behind := k + n - |header|;
    var g := HeaderEnds(h, header, body + after, k, n, c);
    var fed := Feed(h, (header + (body + after))[k..k + n], c);
    if behind <= |body| {
      assert g.data[..behind] == body[0..behind];
      CountedBody(g, body, 0, behind, c);
      forall cuts ensures Conserves(fed, body, behind, cuts, c) {
        ConservedWithin(fed, body, behind, cuts, c);
      }
    } else {
      var cuts := seq(|body|, _ => 1);
      NotConservedBeyond(g, body, cuts, c);
    }
  }

  // ---------------------------------------------------------------------------------------------------
  // The class
  // ---------------------------------------------------------------------------------------------------

  class RegularHttpProtocol {
    const config: Config
    var readingHeaders: bool
    var totalBytesReceived: nat
    var totalContentBytesReceived: nat
    var contentBytesReceivedInCurrentPart: nat
    var incomingContentLength: int
    var actualHeaderSize: nat
    var error: bool

    /** The counters and the packet as one value. */
    function Value(packet: HttpPacket): Http
      reads this, packet
    {
      Http(readingHeaders, totalBytesReceived, totalContentBytesReceived, contentBytesReceivedInCurrentPart,
           incomingContentLength, actualHeaderSize, error, packet.data, packet.continuation, packet.continued)
    }

    constructor (config: Config)
      ensures this.config == config && readingHeaders && !error && incomingContentLength == 0
      ensures totalBytesReceived == totalContentBytesReceived == 0
      ensures contentBytesReceivedInCurrentPart == actualHeaderSize == 0
    {
      this.config := config;
      readingHeaders, error, incomingContentLength := true, false, 0;
      totalBytesReceived, totalContentBytesReceived, contentBytesReceivedInCurrentPart, actualHeaderSize := 0, 0, 0, 0;
    }

    method GetWantedAmount(packet: HttpPacket) returns (amount: int)
      requires 0 <= |packet.data| + Wanted(Value(packet), config)
      modifies packet`data
      ensures amount == Wanted(old(Value(packet)), config) && Value(packet) == Prepared(old(Value(packet)), config)
    {
      if readingHeaders {
        amount := config.maxHeader - totalBytesReceived;
      } else {
        var remainingOfContent := incomingContentLength - totalContentBytesReceived;
        amount := if remainingOfContent < config.chunk then remainingOfContent else config.chunk;
      }
      packet.data := Resize(packet.data, |packet.data| + amount);
    }

    method GetWritePos(packet: HttpPacket) returns (offset: nat)
      ensures offset == WritePos(Value(packet))
    {
      if readingHeaders {
        offset := totalBytesReceived;
      } else {
        offset := contentBytesReceivedInCurrentPart;
      }
    }

    /** std::search for the ending of the header block. */
    method FindHeaderEnding(packet: HttpPacket) returns (at: nat)
      ensures at == FindEnding(packet.data, 0)
    {
      at := 0;
      while at < |packet.data| && !EndsAt(packet.data, at)
        invariant at <= |packet.data| && FindEnding(packet.data, 0) == FindEnding(packet.data, at)
      {
        at := at + 1;
      }
    }

    /** Only the size of the header block matters here: it is erased from the buffer. */
    method ConsumeHeaders(packet: HttpPacket, headerEnding: nat) returns (received: nat, block: Bytes)
      requires headerEnding + 4 <= |packet.data|
      modifies packet`data
      ensures received == headerEnding + 4 && block == old(packet.data)[..received]
      ensures packet.data == old(packet.data)[received..]
    {
      received := headerEnding + 4;
      block := packet.data[..received];
      packet.data := packet.data[received..];
    }

    method Complete() returns (complete: bool)
      ensures complete <==> !readingHeaders && (incomingContentLength == 0
                                                || totalContentBytesReceived == incomingContentLength
                                                || contentBytesReceivedInCurrentPart >= config.chunk)
    {
      var contentReceived := incomingContentLength == 0 || totalContentBytesReceived == incomingContentLength
                             || contentBytesReceivedInCurrentPart >= config.chunk;
      complete := !readingHeaders && contentReceived;
    }

    method PacketConsumed(ghost packet: HttpPacket)
      modifies this
      ensures Value(packet) == Reset(old(Value(packet)))
    {
      contentBytesReceivedInCurrentPart := 0;
      if error || totalContentBytesReceived >= incomingContentLength {
        totalBytesReceived, incomingContentLength, totalContentBytesReceived, actualHeaderSize := 0, 0, 0, 0;
        readingHeaders := true;
      }
      error := false;
    }

    /** An error is simulated so that everything is reset. */
    method ResetAll(ghost packet: HttpPacket)
      modifies this
      ensures Value(packet) == Reset(old(Value(packet)).(error := true))
    {
      error := true;
      PacketConsumed(packet);
    }

    method ReadHeaders(packet: HttpPacket, ghost before: Http)
      requires readingHeaders && Value(packet) == before
      modifies this, packet`data
      ensures var at := FindEnding(before.data, 0);
              Value(packet) == if at < |before.data| then HeadersRead(before, config, at)
                               else if before.total >= config.maxHeader then Reset(before.(error := true))
                               else before
    {
      var endOfHeader := FindHeaderEnding(packet);
      if endOfHeader < |packet.data| {
        readingHeaders := false;
        var received, block := ConsumeHeaders(packet, endOfHeader);
        actualHeaderSize := received;
        totalContentBytesReceived := if received <= totalBytesReceived then totalBytesReceived - received else 0;
        contentBytesReceivedInCurrentPart := totalContentBytesReceived;
        incomingContentLength := config.declared(block);
        if incomingContentLength < 0 {
          error := true;
        }
      } else if totalBytesReceived >= config.maxHeader {
        ResetAll(packet);
      }
    }

    /** Cut to the bytes received, and flag. */
    method FinishPart(packet: HttpPacket)
      modifies packet
      ensures Value(packet) == Finished(old(Value(packet)), config)
    {
      packet.data := Resize(packet.data, contentBytesReceivedInCurrentPart);
      if totalContentBytesReceived < incomingContentLength {
        packet.continued := true;
      }
      if !readingHeaders {
        if totalContentBytesReceived - contentBytesReceivedInCurrentPart > config.chunk {
          packet.continuation := true;
        }
      }
    }

    method DataReceived(packet: HttpPacket, length: nat)
      modifies this, packet
      ensures Value(packet) == Advanced(old(Value(packet)), length, config)
    {
      totalBytesReceived := totalBytesReceived + length;
      if readingHeaders {
        ReadHeaders(packet, Value(packet));
      } else {
        totalContentBytesReceived := totalContentBytesReceived + length;
        contentBytesReceivedInCurrentPart := contentBytesReceivedInCurrentPart + length;
      }
      assert Value(packet) == Counted(old(Value(packet)), length, config);
      var complete := Complete();
      if complete {
        FinishPart(packet);
      }
    }

    /** One whole read: ask, let the bytes in behind the write position, take them in, and hand on a complete part.
        The packet that is then under assembly is `next`, a new one after a part. */
    method ReadOnce(packet: HttpPacket, bytes: Bytes) returns (next: HttpPacket, complete: bool)
      requires CanRead(Value(packet), config) && 1 <= |bytes| <= Wanted(Value(packet), config)
      modifies this, packet
      ensures next == packet || fresh(next)
      ensures var fed := Feed(Prepared(old(Value(packet)), config), bytes, config);
              && Value(next) == fed.http
              && fed.parts == if complete then [Part(packet.data, packet.continuation, packet.continued)] else []
    {
      ghost var h := Value(packet);
      var amount := GetWantedAmount(packet);
      var pos := GetWritePos(packet);
      packet.data := Overwrite(packet.data, pos, bytes);
      assert Value(packet) == Filled(Prepared(h, config), bytes);
      DataReceived(packet, |bytes|);
      complete := Complete();
      next := packet;
      if complete {
        next := new HttpPacket();
        PacketConsumed(packet);
      }
    }
  }
}
