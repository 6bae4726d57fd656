/** A whole response of the model server, as `read_response` reads it (`upstream.rs`). */
module Response {
  import opened Prelude
  import opened Protocol
  import opened Bytes
  import opened Upstream
  import opened Chunked

  /** What a header line says to `read_response`. */
  datatype Header = Coding(chunked: bool) | Length(n: nat) | BadNumber | NoColon | Other

  /** The two readings of a line, left open: every result here holds for any of them. */
  datatype Grammar = Grammar(status: seq<Byte> -> Option<nat>, header: seq<Byte> -> Header)

  datatype Fields = Fields(chunked: bool, length: Option<nat>)

  const NO_FIELDS := Fields(false, None)

  function WithHeader(f: Fields, h: Header): Fields {
    match h
    case Coding(on) => f.(chunked := on)
    case Length(n) => f.(length := Some(n))
    case _ => f
  }

  predicate IsInterim(status: nat) {
    100 <= status < 200
  }

  // ------------------------------------------------------------------ the head

  /** The header fields up to the empty line, where the stream then stands, and what is left of the budget. */
  datatype Section = Section(fields: Fields, next: nat, left: nat) | BadSection(error: Failure)

  function HeadersAt(s: Stream, pos: nat, budget: nat, f: Fields, g: Grammar): (r: Section)
    ensures r.Section? ==> r.left < budget && r.next + r.left == pos + budget
    decreases budget, pos
  {
    match LineAt(s, pos, budget)
    case NoLine(e) => BadSection(e)
    case Line(text, taken) =>
      if text == [] then Section(f, pos + taken, budget - taken)
      else match g.header(text)
        case NoColon => BadSection(BadHeader)
        case BadNumber => BadSection(BadLength)
        case h => HeadersAt(s, pos + taken, budget - taken, WithHeader(f, h), g)
  }

  /** The head of the first response that is not an interim one. */
  datatype Head = Head(status: nat, fields: Fields, next: nat, left: nat) | BadHead(error: Failure)

  /** One head, interim or not. */
  function OneHeadAt(s: Stream, pos: nat, budget: nat, g: Grammar): (r: Head)
    ensures r.Head? ==> r.left < budget && r.next + r.left == pos + budget
  {
    match LineAt(s, pos, budget)
    case NoLine(e) => BadHead(e)
    case Line(text, taken) =>
      match g.status(text)
      case None => BadHead(BadStatus)
      case Some(status) =>
        match HeadersAt(s, pos + taken, budget - taken, NO_FIELDS, g)
        case BadSection(e) => BadHead(e)
        case Section(f, next, left) => Head(status, f, next, left)
  }

  /** One budget is carried across all lines of all heads, so even endless interim responses come to an end. */
  function HeadAt(s: Stream, pos: nat, budget: nat, g: Grammar): (r: Head)
    ensures r.Head? ==> r.left < budget && r.next + r.left == pos + budget && !IsInterim(r.status)
    decreases budget, pos
  {
    var head := OneHeadAt(s, pos, budget, g);
    if head.Head? && IsInterim(head.status) then HeadAt(s, head.next, head.left, g) else head
  }

  // ------------------------------------------------------------------ the body

  /** `take(UPSTREAM_MAX_BODY + 1).read_to_end`: how many bytes arrive. */
  function Remaining(s: Stream, pos: nat): (n: nat)
    ensures n <= UPSTREAM_MAX_BODY + 1
  {
    if s.end.None? then UPSTREAM_MAX_BODY + 1
    else if s.end.value <= pos then 0
    else if s.end.value - pos <= UPSTREAM_MAX_BODY then s.end.value - pos
    else UPSTREAM_MAX_BODY + 1
  }

  function ToEndAt(s: Stream, pos: nat): Block {
    if Remaining(s, pos) > UPSTREAM_MAX_BODY then Lost(TooLarge) else Block(Slice(s, pos, Remaining(s, pos)))
  }

  function BodyAt(s: Stream, pos: nat, f: Fields): (r: Block)
    ensures r.Block? ==> |r.bytes| <= UPSTREAM_MAX_BODY
  {
    if f.chunked then ChunkedAt(s, pos, [], ChunkSize)
    else if f.length.Some? then
      (if f.length.value > UPSTREAM_MAX_BODY then Lost(TooLarge) else Exactly(s, pos, f.length.value))
    else ToEndAt(s, pos)
  }

  datatype Response = Response(status: nat, body: seq<Byte>) | Refused(error: Failure)

  /** `read_response` as a function of the stream. */
  function ResponseAt(s: Stream, pos: nat, budget: nat, g: Grammar): (r: Response)
    ensures r.Response? ==> |r.body| <= UPSTREAM_MAX_BODY && !(100 <= r.status <= 199)
  {
    match HeadAt(s, pos, budget, g)
    case BadHead(e) => Refused(e)
    case Head(status, f, next, _) =>
      match BodyAt(s, next, f)
      case Lost(e) => Refused(e)
      case Block(body) => Response(status, body)
  }

  // ------------------------------------------------------------------ the loops

  /** The inner loop of `read_response`. */
  method ReadHeaders(r: Reader, budget: nat, g: Grammar) returns (section: Section)
    modifies r
    ensures section == HeadersAt(r.stream, old(r.pos), budget, NO_FIELDS, g)
    ensures section.Section? ==> r.pos == section.next
    ensures old(r.pos) <= r.pos <= old(r.pos) + budget
  {
    hide LineAt, WithHeader;
    var f, left := NO_FIELDS, budget;
    while true
      invariant r.pos + left == old(r.pos) + budget && old(r.pos) <= r.pos
      invariant HeadersAt(r.stream, r.pos, left, f, g) == HeadersAt(r.stream, old(r.pos), budget, NO_FIELDS, g)
      decreases left
    {
      var line, rest := r.ReadLine(left);
      if line.NoLine? {
        return BadSection(line.error);
      }
      left := rest;
      if line.text == [] {
        return Section(f, r.pos, left);
      }
      var h := g.header(line.text);
      if h.NoColon? {
        return BadSection(BadHeader);
      }
      if h.BadNumber? {
        return BadSection(BadLength);
      }
      f := WithHeader(f, h);
    }
  }

  method ReadOneHead(r: Reader, budget: nat, g: Grammar) returns (head: Head)
    modifies r
    ensures head == OneHeadAt(r.stream, old(r.pos), budget, g)
    ensures head.Head? ==> r.pos == head.next
    ensures old(r.pos) <= r.pos <= old(r.pos) + budget
  {
    var line, left := r.ReadLine(budget);
    if line.NoLine? {
      return BadHead(line.error);
    }
    var status := g.status(line.text);
    if status.None? {
      return BadHead(BadStatus);
    }
    var section := ReadHeaders(r, left, g);
    match section {
      case BadSection(e) => head := BadHead(e);
      case Section(f, next, rest) => head := Head(status.value, f, next, rest);
    }
  }

  /**
   * The outer loop, which skips interim responses; it ends on any stream, and whatever the outcome, all
   * the head lines it read cost at most the budget.
   */
  method ReadHead(r: Reader, budget: nat, g: Grammar) returns (head: Head)
    modifies r
    ensures head == HeadAt(r.stream, old(r.pos), budget, g)
    ensures head.Head? ==> r.pos == head.next
    ensures old(r.pos) <= r.pos <= old(r.pos) + budget
  {
    hide OneHeadAt;
    var left := budget;
    head := ReadOneHead(r, left, g);
    while head.Head? && IsInterim(head.status)
      invariant old(r.pos) <= r.pos <= old(r.pos) + budget
      invariant head.Head? ==> r.pos == head.next && head.left < left && r.pos + head.left == old(r.pos) + budget
      invariant HeadAt(r.stream, old(r.pos), budget, g)
             == if head.Head? && IsInterim(head.status) then HeadAt(r.stream, head.next, head.left, g) else head
      decreases left
    {
      left := head.left;
      head := ReadOneHead(r, left, g);
    }
  }

  /** `take(UPSTREAM_MAX_BODY + 1).read_to_end`, and the check after it. */
  method ReadToEnd(r: Reader) returns (body: Block)
    modifies r
    ensures body == ToEndAt(r.stream, old(r.pos))
    ensures old(r.pos) <= r.pos <= old(r.pos) + UPSTREAM_MAX_BODY + 1
  {
    var buf: seq<Byte> := [];
    while |buf| < UPSTREAM_MAX_BODY + 1 && r.stream.Reaches(r.pos + 1)
      invariant |buf| <= UPSTREAM_MAX_BODY + 1 && r.pos == old(r.pos) + |buf| && (|buf| > 0 ==> r.stream.Reaches(r.pos))
      invariant forall i :: 0 <= i < |buf| ==> buf[i] == r.stream.At(old(r.pos) + i)
    {
      buf := buf + [r.stream.At(r.pos)];
      r.pos := r.pos + 1;
    }
    if |buf| > UPSTREAM_MAX_BODY {
      return Lost(TooLarge);
    }
    SliceIs(r.stream, old(r.pos), buf);
    body := Block(buf);
  }

  method ReadBody(r: Reader, f: Fields) returns (body: Block)
    modifies r
    ensures body == BodyAt(r.stream, old(r.pos), f)
    ensures old(r.pos) <= r.pos <= old(r.pos) + MAX_CHUNKED
  {
    if f.chunked {
      body := ReadChunked(r);
    } else if f.length.Some? {
      if f.length.value > UPSTREAM_MAX_BODY {
        return Lost(TooLarge);
      }
      body := r.ReadExact(f.length.value);
    } else {
      body := ReadToEnd(r);
    }
  }

  /** `read_response`: head lines and body each cost a bounded number of bytes, on any stream. */
  method ReadResponse(r: Reader, g: Grammar) returns (response: Response)
    modifies r
    ensures response == ResponseAt(r.stream, old(r.pos), 65_536, g)
    ensures match HeadAt(r.stream, old(r.pos), MAX_RESPONSE_HEAD, g)
            case BadHead(_) => r.pos <= old(r.pos) + 65_536
            case Head(_, _, next, _) => next <= old(r.pos) + 65_536 && next <= r.pos <= next + MAX_CHUNKED
  {
    var head := ReadHead(r, MAX_RESPONSE_HEAD, g);
    match head {
      case BadHead(e) => response := Refused(e);
      case Head(status, f, _, _) =>
        var body := ReadBody(r, f);
        match body {
          case Lost(e) => response := Refused(e);
          case Block(bytes) => response := Response(status, bytes);
        }
    }
  }

  // ------------------------------------------------------------------ what a server sends is read back

  /** A head as sent: the status line and the header lines. */
  datatype Sent = Sent(first: seq<Byte>, headers: seq<seq<Byte>>)

  ghost predicate HeaderLine(line: seq<Byte>, g: Grammar) {
    line != [] && LF !in line && !g.header(line).NoColon? && !g.header(line).BadNumber?
  }

  ghost predicate SentWell(p: Sent, g: Grammar) {
    LF !in p.first && g.status(p.first).Some? && forall i :: 0 <= i < |p.headers| ==> HeaderLine(p.headers[i], g)
  }

  ghost predicate SentInterim(p: Sent, g: Grammar) {
    SentWell(p, g) && 100 <= g.status(p.first).value <= 199
  }

  /** A head that is not an interim one: with a status such as 200, or one outside the classes there are. */
  ghost predicate SentFinal(p: Sent, g: Grammar) {
    SentWell(p, g) && (g.status(p.first).value <= 99 || g.status(p.first).value >= 200)
  }

  function EncodeHeaders(headers: seq<seq<Byte>>): (r: seq<Byte>)
    ensures |r| >= 2
  {
    if headers == [] then [] + CRLF else (headers[0] + CRLF) + EncodeHeaders(headers[1..])
  }

  function EncodeHead(p: Sent): (r: seq<Byte>)
    ensures |r| >= 4
  {
    (p.first + CRLF) + EncodeHeaders(p.headers)
  }

  function EncodeHeads(heads: seq<Sent>): seq<Byte> {
    if heads == [] then [] else EncodeHead(heads[0]) + EncodeHeads(heads[1..])
  }

  function FieldsOf(headers: seq<seq<Byte>>, f: Fields, g: Grammar): Fields {
    if headers == [] then f else FieldsOf(headers[1..], WithHeader(f, g.header(headers[0])), g)
  }

  lemma {:induction false} HeadersReadBack(s: Stream, pos: nat, headers: seq<seq<Byte>>, budget: nat, f: Fields,
      g: Grammar)
    requires forall i :: 0 <= i < |headers| ==> HeaderLine(headers[i], g)
    requires Carries(s, pos, EncodeHeaders(headers))
    ensures var n := |EncodeHeaders(headers)|;
      HeadersAt(s, pos, budget, f, g)
        == if n <= budget then Section(FieldsOf(headers, f, g), pos + n, budget - n) else BadSection(LineTooLong)
    decreases |headers|
  {
    hide LineAt, Carries;
    if headers == [] {
      LineReadBack(s, pos, [], budget);
    } else {
      var line := headers[0];
      CarriesParts(s, pos, line + CRLF, EncodeHeaders(headers[1..]));
      LineReadBack(s, pos, line, budget);
      if |line| + 2 <= budget {
        HeadersReadBack(s, pos + |line| + 2, headers[1..], budget - |line| - 2, WithHeader(f, g.header(line)), g);
      }
    }
  }

  lemma OneHeadReadBack(s: Stream, pos: nat, p: Sent, budget: nat, g: Grammar)
    requires SentWell(p, g) && Carries(s, pos, EncodeHead(p))
    ensures var n := |EncodeHead(p)|;
      OneHeadAt(s, pos, budget, g)
        == if n <= budget then Head(g.status(p.first).value, FieldsOf(p.headers, NO_FIELDS, g), pos + n, budget - n)
           else BadHead(LineTooLong)
  {
    hide LineAt, HeadersAt, Carries;
    CarriesParts(s, pos, p.first + CRLF, EncodeHeaders(p.headers));
    LineReadBack(s, pos, p.first, budget);
    if |p.first| + 2 <= budget {
      HeadersReadBack(s, pos + |p.first| + 2, p.headers, budget - |p.first| - 2, NO_FIELDS, g);
    }
  }

  /** Interim responses are skipped, and paid for. */
  lemma {:induction false} InterimsSkipped(s: Stream, pos: nat, interims: seq<Sent>, budget: nat, g: Grammar)
    requires forall i :: 0 <= i < |interims| ==> SentInterim(interims[i], g)
    requires Carries(s, pos, EncodeHeads(interims))
    ensures var n := |EncodeHeads(interims)|;
      HeadAt(s, pos, budget, g) == if n <= budget then HeadAt(s, pos + n, budget - n, g) else BadHead(LineTooLong)
    decreases |interims|
  {
    hide OneHeadAt, Carries, EncodeHead;
    if interims != [] {
      var p := interims[0];
      assert SentInterim(p, g);
      CarriesParts(s, pos, EncodeHead(p), EncodeHeads(interims[1..]));
      OneHeadReadBack(s, pos, p, budget, g);
      if |EncodeHead(p)| <= budget {
        InterimsSkipped(s, pos + |EncodeHead(p)|, interims[1..], budget - |EncodeHead(p)|, g);
      }
    }
  }

  /** A stream that goes on with interim responses until the budget is spent is refused, endless or not. */
  lemma EndlessInterimsRefused(s: Stream, pos: nat, interims: seq<Sent>, budget: nat, g: Grammar)
    requires forall i :: 0 <= i < |interims| ==> SentInterim(interims[i], g)
    requires Carries(s, pos, EncodeHeads(interims)) && |EncodeHeads(interims)| >= budget
    ensures ResponseAt(s, pos, budget, g) == Refused(LineTooLong)
  {
    hide Carries, EncodeHeads, HeadersAt, BodyAt;
    InterimsSkipped(s, pos, interims, budget, g);
  }

  /** Any interim responses and a final head are read as the final head exactly when all their lines fit the budget. */
  lemma HeadsReadBack(s: Stream, pos: nat, interims: seq<Sent>, last: Sent, budget: nat, g: Grammar)
    requires forall i :: 0 <= i < |interims| ==> SentInterim(interims[i], g)
    requires SentFinal(last, g)
    requires Carries(s, pos, EncodeHeads(interims) + EncodeHead(last))
    ensures var n := |EncodeHeads(interims)| + |EncodeHead(last)|;
      HeadAt(s, pos, budget, g)
        == if n <= budget
          then Head(g.status(last.first).value, FieldsOf(last.headers, NO_FIELDS, g), pos + n, budget - n)
           else BadHead(LineTooLong)
  {
    hide OneHeadAt, Carries;
    var n := |EncodeHeads(interims)|;
    CarriesParts(s, pos, EncodeHeads(interims), EncodeHead(last));
    InterimsSkipped(s, pos, interims, budget, g);
    if n <= budget {
      OneHeadReadBack(s, pos + n, last, budget - n, g);
    }
  }

  /** How a body is framed on the wire: in chunks, by a Content-Length, or by the end of the connection. */
  datatype Framing = InChunks(chunks: seq<Chunk>, last: seq<Byte>) | ByLength | ToEnd

  /** `body` is on the wire at `pos`, framed as the header fields say. */
  ghost predicate OnWire(s: Stream, pos: nat, f: Fields, framing: Framing, body: seq<Byte>) {
    match framing
    case InChunks(chunks, last) =>
      && f.chunked && (forall i :: 0 <= i < |chunks| ==> Sendable(chunks[i], ChunkSize)) && SizeLine(last, 0, ChunkSize)
      && Carries(s, pos, EncodeChunks(chunks, last)) && body == Data(chunks)
    case ByLength => !f.chunked && f.length == Some(|body|) && Carries(s, pos, body)
    case ToEnd => !f.chunked && f.length == None && Carries(s, pos, body) && s.end == Some(pos + |body|)
  }

  lemma BodyReadBack(s: Stream, pos: nat, f: Fields, framing: Framing, body: seq<Byte>)
    requires OnWire(s, pos, f, framing, body)
    ensures BodyAt(s, pos, f) == if |body| <= 262_144 then Block(body) else Lost(TooLarge)
  {
    match framing
    case InChunks(chunks, last) => ChunkedRoundTrip(s, pos, chunks, last);
    case ByLength => SliceIs(s, pos, body);
    case ToEnd => SliceIs(s, pos, body);
  }

  /**
   * A response as sent, in any framing and after any interim responses, is read back exactly when its
   * head lines fit the budget and its body fits the cap.
   */
  lemma ResponseReadBack(s: Stream, pos: nat, interims: seq<Sent>, last: Sent, framing: Framing, body: seq<Byte>,
      budget: nat, g: Grammar)
    requires forall i :: 0 <= i < |interims| ==> SentInterim(interims[i], g)
    requires SentFinal(last, g)
    requires Carries(s, pos, EncodeHeads(interims) + EncodeHead(last))
    requires OnWire(s, pos + |EncodeHeads(interims)| + |EncodeHead(last)|, FieldsOf(last.headers, NO_FIELDS, g),
      framing, body)
    ensures ResponseAt(s, pos, budget, g)
         == if |EncodeHeads(interims)| + |EncodeHead(last)| > budget then Refused(LineTooLong)
            else if |body| > 262_144 then Refused(TooLarge)
            else Response(g.status(last.first).value, body)
  {
    hide HeadAt, BodyAt, Carries, EncodeHead, EncodeHeads, OnWire;
    HeadsReadBack(s, pos, interims, last, budget, g);
    BodyReadBack(s, pos + |EncodeHeads(interims)| + |EncodeHead(last)|, FieldsOf(last.headers, NO_FIELDS, g), framing,
      body);
  }
}
