/** What `read_response` makes of lines, header fields and bodies that are not as they should be (`upstream.rs`). */
module Refusals {
  import opened Prelude
  import opened Protocol
  import opened Bytes
  import opened Upstream
  import opened Chunked
  import opened Response

  // ------------------------------------------------------------------ lines

  /** A bare LF ends a line as well; only one CR before it belongs to the line ending. */
  lemma BareLfReadBack(s: Stream, pos: nat, text: seq<Byte>, budget: nat)
    requires LF !in text && (text == [] || text[|text| - 1] != 0x0D) && Carries(s, pos, text + [0x0A])
    ensures LineAt(s, pos, budget) == if |text| + 1 <= budget then Line(text, |text| + 1) else NoLine(LineTooLong)
  {
    RawLineReadBack(s, pos, text, budget);
  }

  /** The stream ends after `text`, in the middle of a line. */
  ghost predicate CutOff(s: Stream, pos: nat, text: seq<Byte>) {
    LF !in text && Carries(s, pos, text) && s.end == Some(pos + |text|)
  }

  lemma CutOffLine(s: Stream, pos: nat, text: seq<Byte>, budget: nat)
    requires CutOff(s, pos, text)
    ensures LineAt(s, pos, budget) == NoLine(if |text| < budget then Closed else LineTooLong)
  {
    var taken := if |text| < budget then text else text[..budget];
    assert forall i :: 0 <= i < |taken| ==> taken[i] in text;
    RawLineOfScan(s, pos, budget, taken);
  }

  // ------------------------------------------------------------------ header fields

  ghost predicate NoneAfter(headers: seq<seq<Byte>>, i: nat, g: Grammar, length: bool) {
    forall j :: i <= j < |headers| ==> if length then !g.header(headers[j]).Length? else !g.header(headers[j]).Coding?
  }

  lemma {:induction false} LastHeaderFrom(headers: seq<seq<Byte>>, f: Fields, g: Grammar)
    ensures var r := FieldsOf(headers, f, g);
      && (r.chunked <==>
            || (f.chunked && NoneAfter(headers, 0, g, false))
            || exists i ::
                0 <= i < |headers| && g.header(headers[i]) == Coding(true) && NoneAfter(headers, i + 1, g, false))
      && forall n: nat :: r.length == Some(n) <==>
            || (f.length == Some(n) && NoneAfter(headers, 0, g, true))
            || exists i :: 0 <= i < |headers| && g.header(headers[i]) == Length(n) && NoneAfter(headers, i + 1, g, true)
    decreases |headers|
  {
    if headers != [] {
      var rest := headers[1..];
      LastHeaderFrom(rest, WithHeader(f, g.header(headers[0])), g);
      forall i: nat, length | i <= |rest|
        ensures NoneAfter(rest, i, g, length) <==> NoneAfter(headers, i + 1, g, length)
      {
        assert forall j :: i <= j < |rest| ==> rest[j] == headers[j + 1];
        assert forall j :: i + 1 <= j < |headers| ==> headers[j] == rest[j - 1];
      }
    }
  }

  /**
   * The last Transfer-Encoding and the last Content-Length decide, wherever they stand; without any the
   * body is not chunked and has no length.
   */
  lemma LastHeaderWins(headers: seq<seq<Byte>>, g: Grammar)
    ensures var r := FieldsOf(headers, NO_FIELDS, g);
      && (r.chunked <==>
            exists i ::
              0 <= i < |headers| && g.header(headers[i]) == Coding(true) && NoneAfter(headers, i + 1, g, false))
      && forall n: nat :: r.length == Some(n) <==>
            exists i :: 0 <= i < |headers| && g.header(headers[i]) == Length(n) && NoneAfter(headers, i + 1, g, true)
  {
    LastHeaderFrom(headers, NO_FIELDS, g);
  }

  /** Header lines that are read, and then one that is not. */
  function EncodeLines(lines: seq<seq<Byte>>, bad: seq<Byte>): seq<Byte> {
    if lines == [] then bad + CRLF else (lines[0] + CRLF) + EncodeLines(lines[1..], bad)
  }

  ghost predicate BadLine(line: seq<Byte>, g: Grammar) {
    line != [] && LF !in line && (g.header(line).NoColon? || g.header(line).BadNumber?)
  }

  lemma {:induction false} BadLineRefused(s: Stream, pos: nat, lines: seq<seq<Byte>>, bad: seq<Byte>, budget: nat,
      f: Fields, g: Grammar)
    requires (forall i :: 0 <= i < |lines| ==> HeaderLine(lines[i], g)) && BadLine(bad, g)
    requires Carries(s, pos, EncodeLines(lines, bad))
    ensures HeadersAt(s, pos, budget, f, g)
         == BadSection(if |EncodeLines(lines, bad)| > budget then LineTooLong
                       else if g.header(bad).NoColon? then BadHeader else BadLength)
    decreases |lines|
  {
    hide LineAt, Carries;
    if lines == [] {
      LineReadBack(s, pos, bad, budget);
    } else {
      var line := lines[0];
      CarriesParts(s, pos, line + CRLF, EncodeLines(lines[1..], bad));
      LineReadBack(s, pos, line, budget);
      assert |EncodeLines(lines[1..], bad)| > 0;
      if |line| + 2 <= budget {
        BadLineRefused(s, pos + |line| + 2, lines[1..], bad, budget - |line| - 2, WithHeader(f, g.header(line)), g);
      }
    }
  }

  /** How the head after any interim responses can be broken. */
  datatype BrokenHead =
    | NoStatus(first: seq<Byte>)
    | NoHeader(first: seq<Byte>, lines: seq<seq<Byte>>, bad: seq<Byte>)
    | CutHead(first: seq<Byte>)

  function EncodeBroken(b: BrokenHead): seq<Byte> {
    match b
    case NoStatus(first) => first + CRLF
    case NoHeader(first, lines, bad) => (first + CRLF) + EncodeLines(lines, bad)
    case CutHead(first) => first
  }

  ghost predicate IsBrokenAt(s: Stream, pos: nat, b: BrokenHead, g: Grammar) {
    && Carries(s, pos, EncodeBroken(b)) && LF !in b.first
    && match b
       case NoStatus(first) => g.status(first).None?
       case NoHeader(first, lines, bad) =>
         g.status(first).Some? && (forall i :: 0 <= i < |lines| ==> HeaderLine(lines[i], g)) && BadLine(bad, g)
       case CutHead(first) => s.end == Some(pos + |first|)
  }

  function HeadFailure(b: BrokenHead, g: Grammar): Failure {
    match b
    case NoStatus(_) => BadStatus
    case NoHeader(_, _, bad) => if g.header(bad).NoColon? then BadHeader else BadLength
    case CutHead(_) => Closed
  }

  lemma BrokenHeadAt(s: Stream, pos: nat, b: BrokenHead, budget: nat, g: Grammar)
    requires IsBrokenAt(s, pos, b, g) && |EncodeBroken(b)| < budget
    ensures HeadAt(s, pos, budget, g) == BadHead(HeadFailure(b, g))
  {
    hide LineAt, Carries, HeadersAt;
    match b
    case NoStatus(first) => LineReadBack(s, pos, first, budget);
    case CutHead(first) => CutOffLine(s, pos, first, budget);
    case NoHeader(first, lines, bad) =>
      CarriesParts(s, pos, first + CRLF, EncodeLines(lines, bad));
      LineReadBack(s, pos, first, budget);
      BadLineRefused(s, pos + |first| + 2, lines, bad, budget - |first| - 2, NO_FIELDS, g);
  }

  /** A broken head is refused for its own reason, after any interim responses. */
  lemma BrokenHeadRefused(s: Stream, pos: nat, interims: seq<Sent>, b: BrokenHead, budget: nat, g: Grammar)
    requires forall i :: 0 <= i < |interims| ==> SentInterim(interims[i], g)
    requires Carries(s, pos, EncodeHeads(interims)) && IsBrokenAt(s, pos + |EncodeHeads(interims)|, b, g)
    requires |EncodeHeads(interims)| + |EncodeBroken(b)| < budget
    ensures ResponseAt(s, pos, budget, g) == Refused(HeadFailure(b, g))
  {
    hide HeadAt, BodyAt, Carries, EncodeHeads, IsBrokenAt;
    InterimsSkipped(s, pos, interims, budget, g);
    BrokenHeadAt(s, pos + |EncodeHeads(interims)|, b, budget - |EncodeHeads(interims)|, g);
  }

  // ------------------------------------------------------------------ bodies

  /** Chunks one after the other, without the last one. */
  function EncodeSome(chunks: seq<Chunk>): seq<Byte> {
    if chunks == [] then []
    else (chunks[0].line + CRLF) + (chunks[0].data + ([] + CRLF + EncodeSome(chunks[1..])))
  }

  lemma {:induction false} ChunksThenMore(s: Stream, pos: nat, chunks: seq<Chunk>, body: seq<Byte>)
    requires (forall i :: 0 <= i < |chunks| ==> Sendable(chunks[i], ChunkSize)) && Carries(s, pos, EncodeSome(chunks))
    requires |body| + |Data(chunks)| <= 262_144
    ensures ChunkedAt(s, pos, body, ChunkSize)
         == ChunkedAt(s, pos + |EncodeSome(chunks)|, body + Data(chunks), ChunkSize)
    decreases |chunks|
  {
    hide ChunkSize, RoundAt, Carries;
    if chunks == [] {
      assert body + [] == body;
    } else {
      var c := chunks[0];
      OneChunk(s, pos, c, EncodeSome(chunks[1..]), UPSTREAM_MAX_BODY - |body|, ChunkSize);
      ChunksThenMore(s, pos + |c.line| + 2 + |c.data| + 2, chunks[1..], body + c.data);
      Associative(body, c.data, Data(chunks[1..]));
    }
  }

  /** What can be wrong with a body, or with a chunk after good ones. */
  datatype BrokenBody =
    | ShortLength(n: nat)                                           // the stream ends before the length is reached
    | LongLength(n: nat)                                            // the length is beyond the cap
    | NoEnd                                                         // neither a length nor an end
    | NoSize(chunks: seq<Chunk>, line: seq<Byte>)                   // a chunk line that is no size
    | LongChunk(chunks: seq<Chunk>, line: seq<Byte>, n: nat)        // a size beyond what is left of the cap
    | ShortChunk(chunks: seq<Chunk>, line: seq<Byte>, n: nat)       // the stream ends within a chunk
    | NoLineEnd(chunks: seq<Chunk>, c: Chunk, extra: seq<Byte>)     // more than the size before the line ending

  ghost predicate Started(s: Stream, pos: nat, f: Fields, chunks: seq<Chunk>, line: seq<Byte>) {
    && f.chunked && (forall i :: 0 <= i < |chunks| ==> Sendable(chunks[i], ChunkSize)) && |Data(chunks)| <= 262_144
    && Carries(s, pos, EncodeSome(chunks)) && Carries(s, pos + |EncodeSome(chunks)|, line + CRLF)
    && LF !in line && |line| + 2 <= 1024
  }

  ghost predicate IsBrokenBody(s: Stream, pos: nat, f: Fields, b: BrokenBody) {
    match b
    case ShortLength(n) =>
      !f.chunked && f.length == Some(n) && 0 < n <= 262_144 && s.end.Some? && s.end.value < pos + n
    case LongLength(n) => !f.chunked && f.length == Some(n) && n > 262_144
    case NoEnd => !f.chunked && f.length == None && (s.end.None? || s.end.value > pos + 262_144)
    case NoSize(chunks, line) => Started(s, pos, f, chunks, line) && ChunkSize(line) == None
    case LongChunk(chunks, line, n) =>
      Started(s, pos, f, chunks, line) && ChunkSize(line) == Some(n) && |Data(chunks)| + n > 262_144
    case ShortChunk(chunks, line, n) =>
      && Started(s, pos, f, chunks, line) && ChunkSize(line) == Some(n) && 0 < n && |Data(chunks)| + n <= 262_144
      && s.end.Some? && s.end.value < pos + |EncodeSome(chunks)| + |line| + 2 + n
    case NoLineEnd(chunks, c, extra) =>
      && Started(s, pos, f, chunks, c.line) && Sendable(c, ChunkSize) && |Data(chunks)| + |c.data| <= 262_144
      && var p := pos + |EncodeSome(chunks)| + |c.line| + 2;
      Carries(s, p, c.data) && Carries(s, p + |c.data|, extra + CRLF)
      && extra != [] && LF !in extra && |extra| + 2 <= 1024
  }

  function BodyFailure(b: BrokenBody): Failure {
    match b
    case ShortLength(_) => Closed
    case LongLength(_) => TooLarge
    case NoEnd => TooLarge
    case NoSize(_, _) => BadChunkSize
    case LongChunk(_, _, _) => TooLarge
    case ShortChunk(_, _, _) => Closed
    case NoLineEnd(_, _, _) => MissingCrlf
  }

  /** The round that meets the trouble. */
  lemma BrokenRound(s: Stream, pos: nat, line: seq<Byte>, room: nat)
    requires Carries(s, pos, line + CRLF) && LF !in line && |line| + 2 <= 1024
    ensures RoundAt(s, pos, room, ChunkSize) == SizedChunkAt(s, pos + |line| + 2, ChunkSize(line), room)
  {
    hide ChunkSize, SizedChunkAt;
    LineReadBack(s, pos, line, 1024);
  }

  lemma BrokenChunks(s: Stream, pos: nat, f: Fields, b: BrokenBody)
    requires IsBrokenBody(s, pos, f, b) && f.chunked
    ensures ChunkedAt(s, pos, [], ChunkSize) == Lost(BodyFailure(b))
  {
    hide ChunkSize, Carries, LineAt, Sendable, EncodeSome, RoundAt, Data;
    var chunks, line := b.chunks, if b.NoLineEnd? then b.c.line else b.line;
    var p, body := pos + |EncodeSome(chunks)|, [] + Data(chunks);
    ChunksThenMore(s, pos, chunks, []);
    BrokenRound(s, p, line, UPSTREAM_MAX_BODY - |body|);
    if b.NoLineEnd? {
      NoLineEndAt(s, p + |line| + 2, b.c, b.extra);
    }
  }

  lemma NoLineEndAt(s: Stream, pos: nat, c: Chunk, extra: seq<Byte>)
    requires Sendable(c, ChunkSize) && Carries(s, pos, c.data) && Carries(s, pos + |c.data|, extra + CRLF)
    requires extra != [] && LF !in extra && |extra| + 2 <= 1024
    ensures ChunkSize(c.line) == Some(|c.data|) && c.data != []
    ensures ChunkAt(s, pos, |c.data|) == Broken(MissingCrlf)
  {
    hide ChunkSize;
    LineReadBack(s, pos + |c.data|, extra, 1024);
  }

  lemma BrokenBodyAt(s: Stream, pos: nat, f: Fields, b: BrokenBody)
    requires IsBrokenBody(s, pos, f, b)
    ensures BodyAt(s, pos, f) == Lost(BodyFailure(b))
  {
    hide ChunkSize, Carries, ChunkedAt;
    if f.chunked {
      BrokenChunks(s, pos, f, b);
    }
  }

  /** After a head that is read, a broken body is refused for its own reason. */
  lemma BrokenBodyRefused(s: Stream, pos: nat, interims: seq<Sent>, last: Sent, b: BrokenBody, budget: nat, g: Grammar)
    requires forall i :: 0 <= i < |interims| ==> SentInterim(interims[i], g)
    requires SentFinal(last, g) && Carries(s, pos, EncodeHeads(interims) + EncodeHead(last))
    requires |EncodeHeads(interims)| + |EncodeHead(last)| <= budget
    requires IsBrokenBody(s, pos + |EncodeHeads(interims)| + |EncodeHead(last)|, FieldsOf(last.headers, NO_FIELDS, g),
      b)
    ensures ResponseAt(s, pos, budget, g) == Refused(BodyFailure(b))
  {
    hide HeadAt, BodyAt, Carries, EncodeHead, EncodeHeads, IsBrokenBody;
    HeadsReadBack(s, pos, interims, last, budget, g);
    BrokenBodyAt(s, pos + |EncodeHeads(interims)| + |EncodeHead(last)|, FieldsOf(last.headers, NO_FIELDS, g), b);
  }
}
