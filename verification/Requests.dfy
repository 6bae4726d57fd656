/** What `read_request` makes of the bytes a client sends, however they are cut into reads (`http.rs`). */
module Requests {
  import opened Prelude
  import opened Bytes
  import opened Http

  const TWO_CRLF: seq<Byte> := [0x0D, 0x0A, 0x0D, 0x0A]
  const TWO_LF: seq<Byte> := [0x0A, 0x0A]

  ghost predicate OccursIn(s: seq<Byte>, i: nat, p: seq<Byte>) {
    i + |p| <= |s| && s[i..i + |p|] == p
  }

  /** The bytes begin with the head `h`: an empty line ends after it, and none ends before. */
  ghost predicate BeginsWith(total: seq<Byte>, h: seq<Byte>, ending: seq<Byte>) {
    && ending in [TWO_CRLF, TWO_LF] && h + ending <= total
    && forall i: nat :: i < |h| ==> !OccursIn(total, i, TWO_CRLF) && !OccursIn(total, i, TWO_LF)
  }

  lemma TerminatorIs(total: seq<Byte>, i: nat)
    ensures TerminatorAt(total, i)
         == if OccursIn(total, i, TWO_CRLF) then 4 else if OccursIn(total, i, TWO_LF) then 2 else 0
  {
    if i + 4 <= |total| {
      assert total[i..i + 4] == [total[i], total[i + 1], total[i + 2], total[i + 3]];
    }
    if i + 2 <= |total| {
      assert total[i..i + 2] == [total[i], total[i + 1]];
    }
  }

  lemma HeadEndIs(total: seq<Byte>, h: seq<Byte>, ending: seq<Byte>)
    requires BeginsWith(total, h, ending)
    ensures HeadEnd(total) == Some((|h|, |h| + |ending|))
  {
    assert total[|h|..|h| + |ending|] == (h + ending)[|h|..] == ending;
    if ending == TWO_LF {
      assert total[|h|] == total[|h|..|h| + 2][0] == 0x0A;
    }
    TerminatorIs(total, |h|);
    assert TerminatorAt(total, |h|) == |ending|;
    forall i: nat | i < |h| ensures TerminatorAt(total, i) == 0 {
      TerminatorIs(total, i);
    }
  }

  /** Within the limit the head is found in every split. */
  lemma HeadIsFound(parse: HeadParser, served: seq<seq<Byte>>, h: seq<Byte>, ending: seq<Byte>, rest: seq<Byte>)
    requires Concat(served) == h + ending + rest && BeginsWith(h + ending + rest, h, ending)
    requires |h| + |ending| <= 65_537
    ensures ReadAll(parse, served) == Respond(parse, h, rest)
  {
    var total := h + ending + rest;
    HeadEndIs(total, h, ending);
    TripsIffBoundary(served, total);
    assert total[..|h|] == h && total[|h| + |ending|..] == rest;
  }

  /**
   * A complete request is read back in every split: its head, and of what follows as many bytes as its head
   * says, whatever comes after them.
   */
  lemma RequestReadBack(parse: HeadParser, served: seq<seq<Byte>>, h: seq<Byte>, ending: seq<Byte>, body: seq<Byte>,
      extra: seq<Byte>)
    requires Concat(served) == h + ending + (body + extra) && BeginsWith(h + ending + (body + extra), h, ending)
    requires |h| + |ending| <= 65_537 && parse(h) == Ok(|body|) && |body| <= 1_048_576
    ensures ReadAll(parse, served).Ok?
    ensures ReadAll(parse, served).value.head == h && ReadAll(parse, served).value.body == body
  {
    HeadIsFound(parse, served, h, ending, body + extra);
    assert (body + extra)[..|body|] == body;
  }

  /** And why any other is not: the head is refused, its length is too long, or fewer bytes arrive than it says. */
  lemma RequestRefused(parse: HeadParser, served: seq<seq<Byte>>, h: seq<Byte>, ending: seq<Byte>, rest: seq<Byte>)
    requires Concat(served) == h + ending + rest && BeginsWith(h + ending + rest, h, ending)
    requires |h| + |ending| <= 65_537
    ensures parse(h).Err? ==> ReadAll(parse, served) == Err(BadHead(parse(h).error))
    ensures parse(h).Ok? && parse(h).value > 1_048_576 ==> ReadAll(parse, served) == Err(BodyTooLong(parse(h).value))
    ensures parse(h).Ok? && |rest| < parse(h).value <= 1_048_576 ==>
      ReadAll(parse, served) == Err(ClosedInBody(|rest|, parse(h).value))
  {
    HeadIsFound(parse, served, h, ending, rest);
  }

  /** Without an empty line the request is refused: as too long beyond 65,536 bytes, and else as closed too early. */
  lemma HeadNeverEnds(parse: HeadParser, served: seq<seq<Byte>>, total: seq<Byte>)
    requires Concat(served) == total
    requires forall i: nat :: !OccursIn(total, i, TWO_CRLF) && !OccursIn(total, i, TWO_LF)
    ensures ReadAll(parse, served) == Err(if |total| > 65_536 then HeadTooLong else ClosedInHead(|total|))
  {
    if HeadEnd(total).Some? {
      TerminatorIs(total, HeadEnd(total).value.0);
    }
    TripsIffBoundary(served, total);
  }

  /** A head that ends more than one buffer beyond the limit is refused in every split. */
  lemma HeadEndsTooLate(parse: HeadParser, served: seq<seq<Byte>>, h: seq<Byte>, ending: seq<Byte>, rest: seq<Byte>)
    requires SplitOf(served, h + ending + rest) && BeginsWith(h + ending + rest, h, ending)
    requires |h| + |ending| > 65_536 + 4096
    ensures ReadAll(parse, served) == Err(HeadTooLong)
  {
    HeadEndIs(h + ending + rest, h, ending);
    AlwaysOrNever(served, h + ending + rest);
  }

  // ------------------------------------------------------------------ decoding what no client of ours sends

  /** Without a percent sign nothing changes but, in a query, each plus sign, which is a space. */
  lemma {:induction false} PlainTextDecoded(s: seq<Byte>, plus: bool)
    requires 0x25 !in s
    ensures |PercentDecode(s, plus)| == |s|
    ensures forall i :: 0 <= i < |s| ==> PercentDecode(s, plus)[i] == if plus && s[i] == 0x2B then 0x20 else s[i]
  {
    if s != [] {
      assert s[0] in s;
      PlainTextDecoded(s[1..], plus);
    }
  }

  predicate IsHex(b: Byte) {
    0x30 <= b <= 0x39 || 0x41 <= b <= 0x46 || 0x61 <= b <= 0x66
  }

  /** A percent sign without two hexadecimal digits after it stands for itself. */
  lemma LonePercentKept(rest: seq<Byte>, plus: bool)
    requires |rest| < 2 || !IsHex(rest[0]) || !IsHex(rest[1])
    ensures PercentDecode([0x25] + rest, plus) == [0x25] + PercentDecode(rest, plus)
  {
    assert ([0x25] + rest)[1..] == rest;
  }

  /** Two digits of either case stand for their byte. */
  lemma EscapeDecoded(hi: char, lo: char, rest: seq<Byte>, plus: bool, x: nat, y: nat)
    requires x < 16 && y < 16
    requires hi == "0123456789abcdef"[x] || hi == "0123456789ABCDEF"[x]
    requires lo == "0123456789abcdef"[y] || lo == "0123456789ABCDEF"[y]
    ensures (hi as int) < 256 && (lo as int) < 256
    ensures PercentDecode([0x25, hi as int, lo as int] + rest, plus) == [16 * x + y] + PercentDecode(rest, plus)
  {
    hide HexValue;
    DigitValue(hi, x);
    DigitValue(lo, y);
    var s: seq<Byte> := [0x25, hi as int, lo as int] + rest;
    assert s[3..] == rest;
  }

  lemma DigitValue(c: char, v: nat)
    requires v < 16 && (c == "0123456789abcdef"[v] || c == "0123456789ABCDEF"[v])
    ensures (c as int) < 256 && HexValue(c as int) == Some(v)
  {
    var digits := "0123456789";
    if v < 10 {
      assert "0123456789abcdef"[v] == digits[v] && "0123456789ABCDEF"[v] == digits[v];
    }
  }

  /** A part of a query: nothing, a name alone, or a name and a value. */
  datatype Part = Nothing | Flag(name: seq<Byte>) | Valued(name: seq<Byte>, value: seq<Byte>)

  function EncodePart(p: Part): seq<Byte> {
    match p
    case Nothing => []
    case Flag(name) => Encode(name)
    case Valued(name, value) => Encode(name) + [0x3D] + Encode(value)
  }

  function EncodeParts(parts: seq<Part>): seq<Byte> {
    if parts == [] then []
    else if |parts| == 1 then EncodePart(parts[0])
    else EncodePart(parts[0]) + [0x26] + EncodeParts(parts[1..])
  }

  /** Nothing is no pair, and a name alone has the empty value. */
  function Meant(parts: seq<Part>): seq<Pair> {
    if parts == [] then []
    else
      (match parts[0]
       case Nothing => []
       case Flag(name) => if name == [] then [] else [(name, [])]
       case Valued(name, value) => [(name, value)]) + Meant(parts[1..])
  }

  lemma FlagReadBack(name: seq<Byte>)
    ensures Encode(name) == [] <==> name == []
    ensures ParsePair(Encode(name)) == (name, [])
  {
    DecodeEncoded(name, true);
    assert EQUALS !in Encode(name);
    if name != [] {
      assert |Encode(name)| == |EncodeByte(name[0])| + |Encode(name[1..])|;
    }
  }

  lemma PartReadBack(p: Part, rest: seq<seq<Byte>>)
    ensures 0x26 !in EncodePart(p)
    ensures ParsePairs([EncodePart(p)] + rest)
         == (match p
             case Nothing => []
             case Flag(name) => if name == [] then [] else [(name, [])]
             case Valued(name, value) => [(name, value)]) + ParsePairs(rest)
  {
    assert ([EncodePart(p)] + rest)[1..] == rest;
    match p
    case Nothing => assert [] + ParsePairs(rest) == ParsePairs(rest);
    case Flag(name) =>
      DecodeEncoded(name, true);
      assert [] + ParsePairs(rest) == ParsePairs(rest);
      FlagReadBack(name);
    case Valued(name, value) => PairRoundTrip((name, value));
  }

  /** Any such query is read back: empty parts are skipped, and the order is kept. */
  lemma {:induction false} PartsReadBack(parts: seq<Part>)
    ensures ParseQuery(EncodeParts(parts)) == Meant(parts)
  {
    if parts == [] {
      assert Split(EncodeParts(parts), AMPERSAND) == [[]];
      assert ParsePairs([[]]) == ParsePairs([[]][1..]);
    } else {
      hide ParsePairs, EncodePart;
      PartReadBack(parts[0], []);
      NoPairs();
      if |parts| == 1 {
        SplitPlain(EncodePart(parts[0]), AMPERSAND);
        assert [EncodePart(parts[0])] + [] == [EncodePart(parts[0])] && Meant(parts[1..]) == [];
      } else {
        var rest := EncodeParts(parts[1..]);
        PartsReadBack(parts[1..]);
        SplitField(EncodePart(parts[0]), AMPERSAND, rest);
        PartReadBack(parts[0], Split(rest, AMPERSAND));
      }
    }
  }

  lemma NoPairs()
    ensures ParsePairs([]) == []
  {
  }
}
