/** The chunked transfer coding (section 7.1 of RFC 9112) as `read_chunked` reads it (`upstream.rs`). */
module Chunked {
  import opened Prelude
  import opened Protocol
  import opened Bytes
  import opened Upstream

  // ------------------------------------------------------------------ the size of a chunk

  predicate IsBlank(b: Byte) {
    9 <= b <= 13 || b == SPACE
  }

  function TrimStart(s: seq<Byte>): seq<Byte> {
    if s != [] && IsBlank(s[0]) then TrimStart(s[1..]) else s
  }

  function TrimEnd(s: seq<Byte>): seq<Byte> {
    if s != [] && IsBlank(s[|s| - 1]) then TrimEnd(s[..|s| - 1]) else s
  }

  predicate AllHex(s: seq<Byte>) {
    s == [] || (HexValue(s[|s| - 1]).Some? && AllHex(s[..|s| - 1]))
  }

  function HexNumber(s: seq<Byte>): nat
    requires AllHex(s)
  {
    if s == [] then 0 else HexNumber(s[..|s| - 1]) * 16 + HexValue(s[|s| - 1]).value
  }

  /** `usize::from_str_radix(_, 16)` on a 64-bit target: an optional plus sign, at least one digit, no overflow. */
  function ParseHex(s: seq<Byte>): Option<nat> {
    var digits := if s != [] && s[0] == PLUS then s[1..] else s;
    if digits == [] || !AllHex(digits) || HexNumber(digits) >= U64_LIMIT then None else Some(HexNumber(digits))
  }

  /** What stands before the first semicolon. */
  function SizePart(line: seq<Byte>): seq<Byte> {
    match IndexOf(line, SEMICOLON) case Some(i) => line[..i] case None => line
  }

  /** The size on a chunk line. */
  function ChunkSize(line: seq<Byte>): Option<nat> {
    ParseHex(TrimEnd(TrimStart(SizePart(line))))
  }

  function HexText(n: nat): (s: seq<Byte>)
    ensures s != [] && AllHex(s) && HexNumber(s) == n
    ensures forall b :: b in s ==> HexValue(b).Some?
  {
    if n < 16 then
      assert [HexDigit(n)][..0] == [];
      [HexDigit(n)]
    else
      var s := HexText(n / 16) + [HexDigit(n % 16)];
      assert s[..|s| - 1] == HexText(n / 16);
      s
  }

  lemma {:induction false} TrimStartBlanks(blanks: seq<Byte>, rest: seq<Byte>)
    requires (forall b :: b in blanks ==> IsBlank(b)) && rest != [] && !IsBlank(rest[0])
    ensures TrimStart(blanks + rest) == rest
  {
    if blanks == [] {
      assert blanks + rest == rest;
    } else {
      assert (blanks + rest)[1..] == blanks[1..] + rest;
      TrimStartBlanks(blanks[1..], rest);
    }
  }

  lemma {:induction false} TrimEndBlanks(rest: seq<Byte>, blanks: seq<Byte>)
    requires (forall b :: b in blanks ==> IsBlank(b)) && rest != [] && !IsBlank(rest[|rest| - 1])
    ensures TrimEnd(rest + blanks) == rest
  {
    var k := |blanks|;
    if k == 0 {
      assert rest + blanks == rest;
    } else {
      var all := rest + blanks;
      assert all[..|all| - 1] == rest + blanks[..k - 1] && all[|all| - 1] == blanks[k - 1];
      TrimEndBlanks(rest, blanks[..k - 1]);
    }
  }

  lemma {:induction false} HexMembers(s: seq<Byte>)
    requires AllHex(s)
    ensures forall b :: b in s ==> HexValue(b).Some?
  {
    if s != [] {
      HexMembers(s[..|s| - 1]);
      assert s == s[..|s| - 1] + [s[|s| - 1]];
    }
  }

  lemma BeforeSemicolon(text: seq<Byte>, extension: seq<Byte>)
    requires SEMICOLON !in text && (extension == [] || extension[0] == SEMICOLON)
    ensures SizePart(text + extension) == text
  {
    var line := text + extension;
    if extension == [] {
      assert line == text;
    } else {
      assert line == text + [SEMICOLON] + extension[1..];
      IndexOfFirst(text, SEMICOLON, extension[1..]);
    }
  }

  /** A chunk line: hexadecimal digits of either case, perhaps a plus sign and blanks around them, and an extension. */
  datatype SizeText = SizeText(before: seq<Byte>, plus: bool, digits: seq<Byte>, after: seq<Byte>, extension: seq<Byte>)
  {
    ghost predicate WellFormed() {
      && (forall b :: b in before ==> 9 <= b <= 13 || b == 32) && (forall b :: b in after ==> 9 <= b <= 13 || b == 32)
      && digits != [] && AllHex(digits) && (extension == [] || extension[0] == SEMICOLON)
    }

    function Number(): seq<Byte> {
      (if plus then [PLUS] else []) + digits
    }

    function Line(): seq<Byte> {
      before + (Number() + after) + extension
    }
  }

  lemma NumberIsTrimmed(t: SizeText)
    requires t.WellFormed()
    ensures TrimEnd(TrimStart(t.before + (t.Number() + t.after))) == t.Number()
    ensures SEMICOLON !in t.before + (t.Number() + t.after)
  {
    HexMembers(t.digits);
    var number := t.Number();
    assert number[|number| - 1] == t.digits[|t.digits| - 1] && t.digits[0] in t.digits;
    assert (number + t.after)[0] == number[0];
    TrimStartBlanks(t.before, number + t.after);
    TrimEndBlanks(number, t.after);
  }

  /** Every such line is read as the number of its digits exactly when that fits 64 bits, and is refused otherwise. */
  lemma SizeLineReadBack(t: SizeText)
    requires t.WellFormed()
    ensures ChunkSize(t.Line())
         == if HexNumber(t.digits) < 0x1_0000_0000_0000_0000 then Some(HexNumber(t.digits)) else None
  {
    NumberIsTrimmed(t);
    BeforeSemicolon(t.before + (t.Number() + t.after), t.extension);
    HexMembers(t.digits);
    assert t.digits[0] in t.digits;
    var number := t.Number();
    assert (if number[0] == PLUS then number[1..] else number) == t.digits;
  }

  /** Any size within 64 bits can be sent, with any extension. */
  lemma SizeCanBeSent(n: nat, extension: seq<Byte>)
    requires n < U64_LIMIT && (extension == [] || extension[0] == SEMICOLON)
    ensures ChunkSize(HexText(n) + extension) == Some(n)
  {
    hide ChunkSize, AllHex, HexNumber, HexText;
    var t := SizeText([], false, HexText(n), [], extension);
    SizeLineReadBack(t);
    assert t.Line() == HexText(n) + extension;
  }

  // ------------------------------------------------------------------ the body

  /** What one round of `read_chunked` finds: a chunk and the position after it, the last chunk, or a failure. */
  datatype Round = More(data: seq<Byte>, next: nat) | Last | Broken(error: Failure)

  /** The data of a chunk and the line ending after it. */
  function ChunkAt(s: Stream, pos: nat, size: nat): (r: Round)
    ensures !r.Last? && (r.More? ==> |r.data| == size && r.next > pos + size)
  {
    match Exactly(s, pos, size)
    case Lost(e) => Broken(e)
    case Block(chunk) =>
      match LineAt(s, pos + size, MAX_CHUNK_LINE)
      case NoLine(e) => Broken(e)
      case Line(end, taken) => if end != [] then Broken(MissingCrlf) else More(chunk, pos + size + taken)
  }

  function SizedChunkAt(s: Stream, pos: nat, size: Option<nat>, room: nat): (r: Round)
    ensures r.More? ==> 0 < |r.data| <= room && r.next > pos
  {
    match size
    case None => Broken(BadChunkSize)
    case Some(n) => if n == 0 then Last else if n > room then Broken(TooLarge) else ChunkAt(s, pos, n)
  }

  /** How a chunk line is read as a size. */
  type SizeParser = seq<Byte> -> Option<nat>

  function RoundAt(s: Stream, pos: nat, room: nat, sizeOf: SizeParser): (r: Round)
    ensures r.More? ==> 0 < |r.data| <= room && r.next > pos
  {
    match LineAt(s, pos, MAX_CHUNK_LINE)
    case NoLine(e) => Broken(e)
    case Line(line, taken) => SizedChunkAt(s, pos + taken, sizeOf(line), room)
  }

  /** `read_chunked` as a function: what it returns from `pos` with `body` already read. */
  function ChunkedAt(s: Stream, pos: nat, body: seq<Byte>, sizeOf: SizeParser): (r: Block)
    requires |body| <= UPSTREAM_MAX_BODY
    ensures r.Block? ==> |r.bytes| <= UPSTREAM_MAX_BODY && body <= r.bytes
    decreases UPSTREAM_MAX_BODY - |body|
  {
    match RoundAt(s, pos, UPSTREAM_MAX_BODY - |body|, sizeOf)
    case Broken(e) => Lost(e)
    case Last => Block(body)
    case More(data, next) => ChunkedAt(s, next, body + data, sizeOf)
  }

  method ReadChunk(r: Reader, size: nat) returns (round: Round)
    modifies r
    ensures round == ChunkAt(r.stream, old(r.pos), size)
    ensures round.More? ==> r.pos == round.next
    ensures old(r.pos) <= r.pos <= old(r.pos) + size + MAX_CHUNK_LINE
  {
    var chunk := r.ReadExact(size);
    if chunk.Lost? {
      return Broken(chunk.error);
    }
    var end, _ := r.ReadLine(MAX_CHUNK_LINE);
    if end.NoLine? {
      return Broken(end.error);
    }
    round := if end.text != [] then Broken(MissingCrlf) else More(chunk.bytes, r.pos);
  }

  /** One round, given the cap that is left. */
  method ReadRound(r: Reader, room: nat) returns (round: Round)
    modifies r
    ensures round == RoundAt(r.stream, old(r.pos), room, ChunkSize)
    ensures round.More? ==> r.pos == round.next
    ensures old(r.pos) <= r.pos <= old(r.pos) + 2 * MAX_CHUNK_LINE + if round.More? then |round.data| else room
  {
    hide ChunkSize, SizedChunkAt;
    var line, _ := r.ReadLine(MAX_CHUNK_LINE);
    match line {
      case NoLine(e) => round := Broken(e);
      case Line(text, _) => round := ReadSized(r, ChunkSize(text), room);
    }
  }

  method ReadSized(r: Reader, size: Option<nat>, room: nat) returns (round: Round)
    modifies r
    ensures round == SizedChunkAt(r.stream, old(r.pos), size, room)
    ensures round.More? ==> r.pos == round.next
    ensures old(r.pos) <= r.pos <= old(r.pos) + MAX_CHUNK_LINE + if round.More? then |round.data| else room
  {
    if size.None? {
      return Broken(BadChunkSize);
    }
    if size.value == 0 {
      return Last;
    }
    if size.value > room {
      return Broken(TooLarge);
    }
    round := ReadChunk(r, size.value);
  }

  /** What a chunked body can cost at most: every byte of it in a chunk of its own, with the longest lines. */
  const MAX_CHUNKED := UPSTREAM_MAX_BODY * (2 * MAX_CHUNK_LINE + 1) + 2 * MAX_CHUNK_LINE

  /** The loop of `read_chunked`; it ends on any stream, because every round adds to a capped body. */
  method ReadChunked(r: Reader) returns (result: Block)
    modifies r
    ensures result == ChunkedAt(r.stream, old(r.pos), [], ChunkSize)
    ensures old(r.pos) <= r.pos <= old(r.pos) + MAX_CHUNKED
  {
    hide RoundAt, ChunkSize;
    var body: seq<Byte> := [];
    while true
      invariant |body| <= UPSTREAM_MAX_BODY
      invariant old(r.pos) <= r.pos <= old(r.pos) + |body| * (2 * MAX_CHUNK_LINE + 1)
      invariant ChunkedAt(r.stream, r.pos, body, ChunkSize) == ChunkedAt(r.stream, old(r.pos), [], ChunkSize)
      decreases UPSTREAM_MAX_BODY - |body|
    {
      var round := ReadRound(r, UPSTREAM_MAX_BODY - |body|);
      match round {
        case Broken(e) => return Lost(e);
        case Last => return Block(body);
        case More(data, _) => body := body + data;
      }
    }
  }

  // ------------------------------------------------------------------ decoding inverts encoding

  /** A chunk as sent: any size line that reads as the length of its data, and the data. */
  datatype Chunk = Chunk(line: seq<Byte>, data: seq<Byte>)

  ghost predicate SizeLine(line: seq<Byte>, size: nat, sizeOf: SizeParser) {
    LF !in line && |line| + 2 <= 1024 && sizeOf(line) == Some(size)
  }

  ghost predicate Sendable(c: Chunk, sizeOf: SizeParser) {
    c.data != [] && SizeLine(c.line, |c.data|, sizeOf)
  }

  function EncodeChunks(chunks: seq<Chunk>, last: seq<Byte>): seq<Byte> {
    if chunks == [] then last + CRLF
    else (chunks[0].line + CRLF) + (chunks[0].data + ([] + CRLF + EncodeChunks(chunks[1..], last)))
  }

  function Data(chunks: seq<Chunk>): seq<Byte> {
    if chunks == [] then [] else chunks[0].data + Data(chunks[1..])
  }

  lemma EncodedParts(s: Stream, pos: nat, c: Chunk, rest: seq<Byte>)
    requires Carries(s, pos, (c.line + CRLF) + (c.data + ([] + CRLF + rest)))
    ensures var data := pos + |c.line| + 2;
      && Carries(s, pos, c.line + CRLF) && Carries(s, data, c.data)
      && Carries(s, data + |c.data|, [] + CRLF) && Carries(s, data + |c.data| + 2, rest)
  {
    CarriesParts(s, pos, c.line + CRLF, c.data + ([] + CRLF + rest));
    CarriesParts(s, pos + |c.line| + 2, c.data, [] + CRLF + rest);
    CarriesParts(s, pos + |c.line| + 2 + |c.data|, [] + CRLF, rest);
  }

  lemma SizeReadBack(s: Stream, pos: nat, line: seq<Byte>, size: nat, room: nat, sizeOf: SizeParser)
    requires SizeLine(line, size, sizeOf) && Carries(s, pos, line + CRLF)
    ensures RoundAt(s, pos, room, sizeOf) == SizedChunkAt(s, pos + |line| + 2, Some(size), room)
  {
    LineReadBack(s, pos, line, MAX_CHUNK_LINE);
  }

  lemma DataReadBack(s: Stream, pos: nat, data: seq<Byte>)
    requires Carries(s, pos, data) && Carries(s, pos + |data|, [] + CRLF)
    ensures ChunkAt(s, pos, |data|) == More(data, pos + |data| + 2)
  {
    SliceIs(s, pos, data);
    LineReadBack(s, pos + |data|, [], MAX_CHUNK_LINE);
  }

  lemma OneChunk(s: Stream, pos: nat, c: Chunk, rest: seq<Byte>, room: nat, sizeOf: SizeParser)
    requires Sendable(c, sizeOf)
    requires Carries(s, pos, (c.line + CRLF) + (c.data + ([] + CRLF + rest)))
    ensures var next := pos + |c.line| + 2 + |c.data| + 2;
      && Carries(s, next, rest)
      && RoundAt(s, pos, room, sizeOf) == if |c.data| > room then Broken(TooLarge) else More(c.data, next)
  {
    hide LineAt, ChunkAt;
    EncodedParts(s, pos, c, rest);
    SizeReadBack(s, pos, c.line, |c.data|, room, sizeOf);
    DataReadBack(s, pos + |c.line| + 2, c.data);
  }

  lemma {:induction false} ChunksReadBack(s: Stream, pos: nat, chunks: seq<Chunk>, last: seq<Byte>, body: seq<Byte>,
                                           sizeOf: SizeParser)
    requires (forall i :: 0 <= i < |chunks| ==> Sendable(chunks[i], sizeOf)) && SizeLine(last, 0, sizeOf)
    requires Carries(s, pos, EncodeChunks(chunks, last)) && |body| <= UPSTREAM_MAX_BODY
    ensures ChunkedAt(s, pos, body, sizeOf)
         == if |body| + |Data(chunks)| <= UPSTREAM_MAX_BODY then Block(body + Data(chunks)) else Lost(TooLarge)
    decreases |chunks|
  {
    var room := UPSTREAM_MAX_BODY - |body|;
    if chunks == [] {
      SizeReadBack(s, pos, last, 0, room, sizeOf);
      assert body + [] == body;
    } else {
      var c, rest := chunks[0], EncodeChunks(chunks[1..], last);
      OneChunk(s, pos, c, rest, room, sizeOf);
      if |c.data| <= room {
        ChunksReadBack(s, pos + |c.line| + 2 + |c.data| + 2, chunks[1..], last, body + c.data, sizeOf);
        Associative(body, c.data, Data(chunks[1..]));
      }
    }
  }

  /**
   * Decoding inverts encoding: any chunks, with any extensions and whatever follows the last chunk, are
   * read back as their concatenation exactly when it fits the cap, and refused as too large otherwise.
   */
  lemma ChunkedRoundTrip(s: Stream, pos: nat, chunks: seq<Chunk>, last: seq<Byte>)
    requires (forall i :: 0 <= i < |chunks| ==> Sendable(chunks[i], ChunkSize)) && SizeLine(last, 0, ChunkSize)
    requires Carries(s, pos, EncodeChunks(chunks, last))
    ensures ChunkedAt(s, pos, [], ChunkSize)
         == if |Data(chunks)| <= 262_144 then Block(Data(chunks)) else Lost(TooLarge)
  {
    ChunksReadBack(s, pos, chunks, last, [], ChunkSize);
    assert [] + Data(chunks) == Data(chunks);
  }
}
