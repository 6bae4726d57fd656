/** Reading the model server's HTTP response (`upstream.rs`), on bytes. */
module Upstream {
  import opened Prelude
  import opened Bytes

  const MAX_RESPONSE_HEAD := 65_536
  const MAX_CHUNK_LINE := 1024
  const U64_LIMIT := 0x1_0000_0000_0000_0000

  datatype Failure = LineTooLong | Closed | BadStatus | BadHeader | BadLength | BadChunkSize | MissingCrlf | TooLarge

  /** What the connection delivers: a byte for every position before `end`, or for ever. */
  datatype Stream = Stream(bytes: nat -> Byte, end: Option<nat>)
  {
    function At(i: nat): Byte {
      bytes(i)
    }

    /** Everything before position `b` arrives. */
    predicate Reaches(b: nat) {
      end.None? || b <= end.value
    }
  }

  /** The `n` bytes from position `a`. */
  function Slice(s: Stream, a: nat, n: nat): (r: seq<Byte>)
    ensures |r| == n
    decreases n, a
  {
    if n == 0 then [] else [s.At(a)] + Slice(s, a + 1, n - 1)
  }

  lemma {:induction false} SliceAt(s: Stream, a: nat, n: nat, i: nat)
    requires i < n
    ensures Slice(s, a, n)[i] == s.At(a + i)
    decreases n
  {
    if i > 0 {
      SliceAt(s, a + 1, n - 1, i - 1);
    }
  }

  lemma SliceIs(s: Stream, a: nat, bytes: seq<Byte>)
    requires forall i :: 0 <= i < |bytes| ==> bytes[i] == s.At(a + i)
    ensures Slice(s, a, |bytes|) == bytes
  {
    forall i | 0 <= i < |bytes| ensures Slice(s, a, |bytes|)[i] == bytes[i] {
      SliceAt(s, a, |bytes|, i);
    }
  }

  /** The stream carries `bytes` at `pos`. */
  ghost predicate Carries(s: Stream, pos: nat, bytes: seq<Byte>) {
    s.Reaches(pos + |bytes|) && forall i :: 0 <= i < |bytes| ==> bytes[i] == s.At(pos + i)
  }

  lemma CarriesParts(s: Stream, pos: nat, a: seq<Byte>, b: seq<Byte>)
    requires Carries(s, pos, a + b)
    ensures Carries(s, pos, a) && Carries(s, pos + |a|, b)
  {
    forall i | 0 <= i < |a| ensures a[i] == s.At(pos + i) {
      assert (a + b)[i] == a[i];
    }
    forall i | 0 <= i < |b| ensures b[i] == s.At(pos + |a| + i) {
      assert (a + b)[|a| + i] == b[i];
    }
  }

  // ------------------------------------------------------------------ lines

  function DropCr(line: seq<Byte>): (r: seq<Byte>)
    ensures |r| <= |line|
  {
    if line != [] && line[|line| - 1] == CR then line[..|line| - 1] else line
  }

  /** A line, with the bytes it took, or why there is none. */
  datatype Line = Line(text: seq<Byte>, taken: nat) | NoLine(error: Failure)

  /** The bytes up to the first LF, which must come within the budget. */
  function RawLineAt(s: Stream, pos: nat, budget: nat): (r: Line)
    ensures r.Line? ==> r.taken == |r.text| + 1 <= budget
    decreases budget, pos
  {
    if budget == 0 then NoLine(LineTooLong)
    else if !s.Reaches(pos + 1) then NoLine(Closed)
    else if s.At(pos) == LF then Line([], 1)
    else match RawLineAt(s, pos + 1, budget - 1)
      case NoLine(e) => NoLine(e)
      case Line(text, taken) => Line([s.At(pos)] + text, taken + 1)
  }

  /** `read_line` as a function of the stream, the position and the budget. */
  function LineAt(s: Stream, pos: nat, budget: nat): (r: Line)
    ensures r.Line? ==> |r.text| < r.taken <= budget
  {
    match RawLineAt(s, pos, budget)
    case NoLine(e) => NoLine(e)
    case Line(text, taken) => Line(DropCr(text), taken)
  }

  const CRLF := [CR, LF]

  lemma {:induction false} RawLineReadBack(s: Stream, pos: nat, line: seq<Byte>, budget: nat)
    requires LF !in line && Carries(s, pos, line + [LF])
    ensures RawLineAt(s, pos, budget) == if |line| < budget then Line(line, |line| + 1) else NoLine(LineTooLong)
    decreases |line|
  {
    assert (line + [LF])[0] == s.At(pos);
    if line != [] && budget > 0 {
      assert line + [LF] == line[..1] + (line[1..] + [LF]);
      CarriesParts(s, pos, line[..1], line[1..] + [LF]);
      assert line[0] in line;
      RawLineReadBack(s, pos + 1, line[1..], budget - 1);
    }
  }

  /** A line ending in CRLF is read back exactly when it fits the budget. */
  lemma LineReadBack(s: Stream, pos: nat, text: seq<Byte>, budget: nat)
    requires LF !in text && Carries(s, pos, text + CRLF)
    ensures LineAt(s, pos, budget) == if |text| + 2 <= budget then Line(text, |text| + 2) else NoLine(LineTooLong)
  {
    assert text + CRLF == (text + [CR]) + [LF];
    RawLineReadBack(s, pos, text + [CR], budget);
  }

  /** As many bytes as were asked for, or why there are not. */
  datatype Block = Block(bytes: seq<Byte>) | Lost(error: Failure)

  /** `read_exact`. */
  function Exactly(s: Stream, pos: nat, n: nat): Block {
    if n == 0 || s.Reaches(pos + n) then Block(Slice(s, pos, n)) else Lost(Closed)
  }

  // ------------------------------------------------------------------ the reader

  predicate EndsLine(buf: seq<Byte>) {
    buf != [] && buf[|buf| - 1] == LF
  }

  /** `buf` was read from `pos`, and only its last byte may be a LF. */
  ghost predicate Scanned(s: Stream, pos: nat, buf: seq<Byte>) {
    && (buf != [] ==> s.Reaches(pos + |buf|))
    && (forall i :: 0 <= i < |buf| ==> buf[i] == s.At(pos + i))
    && (forall i :: 0 <= i < |buf| - 1 ==> buf[i] != LF)
  }

  /** A scan that can go no further determines the line. */
  lemma {:induction false} RawLineOfScan(s: Stream, pos: nat, budget: nat, buf: seq<Byte>)
    requires Scanned(s, pos, buf) && |buf| <= budget
    requires EndsLine(buf) || |buf| == budget || !s.Reaches(pos + |buf| + 1)
    ensures RawLineAt(s, pos, budget)
         == if EndsLine(buf) then Line(buf[..|buf| - 1], |buf|)
           else NoLine(if |buf| >= budget then LineTooLong else Closed)
    decreases |buf|
  {
    if buf != [] && s.At(pos) != LF {
      assert buf[0] == s.At(pos + 0);
      var rest := buf[1..];
      forall i | 0 <= i < |rest| ensures rest[i] == s.At(pos + 1 + i) {
        assert buf[1 + i] == s.At(pos + (1 + i));
      }
      RawLineOfScan(s, pos + 1, budget - 1, rest);
      if EndsLine(buf) {
        assert buf[..|buf| - 1] == [s.At(pos)] + rest[..|rest| - 1];
      }
    } else if buf != [] {
      assert buf[0] == s.At(pos + 0) && |buf| == 1;
    }
  }

  class Reader {
    const stream: Stream
    var pos: nat

    constructor (stream: Stream, pos: nat)
      ensures this.stream == stream && this.pos == pos
    {
      this.stream, this.pos := stream, pos;
    }

    /** `take(budget).read_until(LF)`: it stops after a LF, at the budget or where the stream ends. */
    method ReadUntilLf(budget: nat) returns (buf: seq<Byte>)
      modifies this
      ensures Scanned(stream, old(pos), buf) && pos == old(pos) + |buf| && |buf| <= budget
      ensures EndsLine(buf) || |buf| == budget || !stream.Reaches(pos + 1)
    {
      buf := [];
      while |buf| < budget && stream.Reaches(pos + 1) && !EndsLine(buf)
        invariant |buf| <= budget && pos == old(pos) + |buf| && Scanned(stream, old(pos), buf)
        decreases budget - |buf|
      {
        buf := buf + [stream.At(pos)];
        pos := pos + 1;
      }
    }

    /** `read_line`: the line with the bytes it took, and what is left of the budget. */
    method ReadLine(budget: nat) returns (r: Line, left: nat)
      modifies this
      ensures r == LineAt(stream, old(pos), budget)
      ensures r.Line? ==> left == budget - r.taken && pos == old(pos) + r.taken
      ensures old(pos) <= pos <= old(pos) + budget
    {
      var buf := ReadUntilLf(budget);
      RawLineOfScan(stream, old(pos), budget, buf);
      if !EndsLine(buf) {
        return NoLine(if |buf| >= budget then LineTooLong else Closed), budget;
      }
      left := budget - |buf|;
      r := Line(DropCr(buf[..|buf| - 1]), |buf|);
    }

    /** `read_exact`. */
    method ReadExact(n: nat) returns (r: Block)
      modifies this
      ensures r == Exactly(stream, old(pos), n)
      ensures r.Block? ==> pos == old(pos) + n
      ensures old(pos) <= pos <= old(pos) + n
    {
      var buf: seq<Byte> := [];
      while |buf| < n
        invariant |buf| <= n && pos == old(pos) + |buf| && (|buf| > 0 ==> stream.Reaches(pos))
        invariant forall i :: 0 <= i < |buf| ==> buf[i] == stream.At(old(pos) + i)
      {
        if !stream.Reaches(pos + 1) {
          return Lost(Closed);
        }
        buf := buf + [stream.At(pos)];
        pos := pos + 1;
      }
      SliceIs(stream, old(pos), buf);
      r := Block(buf);
    }
  }
}
