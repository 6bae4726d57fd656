/** Request reading and query decoding (`http.rs`), on bytes. */
module Http {
  import opened Prelude
  import opened Bytes

  const MAX_HEAD := 65_536
  const MAX_BODY := 1_048_576
  /** The size of the buffer one `read` fills at most. */
  const CHUNK := 4096

  // ------------------------------------------------------------------ percent decoding

  predicate EscapeAt(s: seq<Byte>, i: nat) {
    i + 2 < |s| && s[i] == PERCENT && HexValue(s[i + 1]).Some? && HexValue(s[i + 2]).Some?
  }

  function EscapeValue(s: seq<Byte>, i: nat): Byte
    requires EscapeAt(s, i)
  {
    HexValue(s[i + 1]).value * 16 + HexValue(s[i + 2]).value
  }

  function Plain(b: Byte, plus: bool): Byte {
    if b == PLUS && plus then SPACE else b
  }

  /** `percent_decode`: valid escapes are decoded, anything else is kept. */
  function PercentDecode(s: seq<Byte>, plus: bool): seq<Byte> {
    if s == [] then []
    else if EscapeAt(s, 0) then [EscapeValue(s, 0)] + PercentDecode(s[3..], plus)
    else [Plain(s[0], plus)] + PercentDecode(s[1..], plus)
  }

  lemma DecodeFrom(s: seq<Byte>, i: nat, plus: bool)
    requires i < |s|
    ensures EscapeAt(s, i) ==> PercentDecode(s[i..], plus) == [EscapeValue(s, i)] + PercentDecode(s[i + 3..], plus)
    ensures !EscapeAt(s, i) ==> PercentDecode(s[i..], plus) == [Plain(s[i], plus)] + PercentDecode(s[i + 1..], plus)
  {
    var t := s[i..];
    assert EscapeAt(t, 0) <==> EscapeAt(s, i);
    assert t[1..] == s[i + 1..];
    if EscapeAt(s, i) {
      assert t[3..] == s[i + 3..];
    }
  }

  /** The loop of `percent_decode`. */
  method PercentDecodeLoop(s: seq<Byte>, plus: bool) returns (out: seq<Byte>)
    ensures out == PercentDecode(s, plus)
  {
    out := [];
    var i := 0;
    while i < |s|
      invariant i <= |s|
      invariant out + PercentDecode(s[i..], plus) == PercentDecode(s, plus)
    {
      DecodeFrom(s, i, plus);
      if EscapeAt(s, i) {
        Associative(out, [EscapeValue(s, i)], PercentDecode(s[i + 3..], plus));
        out := out + [EscapeValue(s, i)];
        i := i + 3;
      } else {
        Associative(out, [Plain(s[i], plus)], PercentDecode(s[i + 1..], plus));
        out := out + [Plain(s[i], plus)];
        i := i + 1;
      }
    }
  }

  /** How the engine encodes a byte: letters and digits stand for themselves (section 2.1 of RFC 3986). */
  function EncodeByte(b: Byte): (r: seq<Byte>)
    ensures forall x :: x in r ==> IsAlphanumeric(x) || x == PERCENT
    ensures |r| > 0
  {
    if IsAlphanumeric(b) then [b] else [PERCENT, HexDigit(b / 16), HexDigit(b % 16)]
  }

  function Encode(s: seq<Byte>): (r: seq<Byte>)
    ensures forall x :: x in r ==> IsAlphanumeric(x) || x == PERCENT
  {
    if s == [] then [] else EncodeByte(s[0]) + Encode(s[1..])
  }

  lemma DecodeEncodedByte(b: Byte, rest: seq<Byte>, plus: bool)
    ensures PercentDecode(EncodeByte(b) + rest, plus) == [b] + PercentDecode(rest, plus)
  {
    var s := EncodeByte(b) + rest;
    if IsAlphanumeric(b) {
      assert s[0] == b && s[1..] == rest;
    } else {
      assert s[0] == PERCENT && s[1] == HexDigit(b / 16) && s[2] == HexDigit(b % 16) && s[3..] == rest;
    }
  }

  /** Decoding inverts the engine's encoding of any bytes, whether or not `+` means a space. */
  lemma {:induction false} DecodeEncoded(s: seq<Byte>, plus: bool)
    ensures PercentDecode(Encode(s), plus) == s
  {
    if s != [] {
      DecodeEncodedByte(s[0], Encode(s[1..]), plus);
      DecodeEncoded(s[1..], plus);
    }
  }

  // ------------------------------------------------------------------ query strings

  type Pair = (seq<Byte>, seq<Byte>)

  /** `split_once('=')`, then both sides decoded. */
  function ParsePair(p: seq<Byte>): Pair {
    match IndexOf(p, EQUALS)
    case Some(i) => (PercentDecode(p[..i], true), PercentDecode(p[i + 1..], true))
    case None => (PercentDecode(p, true), [])
  }

  function ParsePairs(parts: seq<seq<Byte>>): seq<Pair> {
    if parts == [] then []
    else if parts[0] == [] then ParsePairs(parts[1..])
    else [ParsePair(parts[0])] + ParsePairs(parts[1..])
  }

  /** `parse_query`. */
  function ParseQuery(q: seq<Byte>): seq<Pair> {
    ParsePairs(Split(q, AMPERSAND))
  }

  function EncodePair(p: Pair): seq<Byte> {
    Encode(p.0) + [EQUALS] + Encode(p.1)
  }

  function EncodePairs(pairs: seq<Pair>): seq<Byte> {
    if pairs == [] then []
    else if |pairs| == 1 then EncodePair(pairs[0])
    else EncodePair(pairs[0]) + [AMPERSAND] + EncodePairs(pairs[1..])
  }

  lemma PairRoundTrip(p: Pair)
    ensures AMPERSAND !in EncodePair(p) && EncodePair(p) != [] && ParsePair(EncodePair(p)) == p
  {
    var s, k, v := EncodePair(p), Encode(p.0), Encode(p.1);
    assert EQUALS !in k && EQUALS !in v;
    assert s[|k|] == EQUALS && s[..|k|] == k && s[|k| + 1..] == v;
    IndexOfFirst(k, EQUALS, v);
    DecodeEncoded(p.0, true);
    DecodeEncoded(p.1, true);
  }

  /** Parsing the query that the engine builds from any pairs gives back those pairs, in order. */
  lemma {:induction false} QueryRoundTrip(pairs: seq<Pair>)
    ensures ParseQuery(EncodePairs(pairs)) == pairs
  {
    if pairs == [] {
      assert ParsePairs(Split(EncodePairs(pairs), AMPERSAND)[1..]) == [];
    } else {
      var p := EncodePair(pairs[0]);
      PairRoundTrip(pairs[0]);
      if |pairs| == 1 {
        SplitPlain(p, AMPERSAND);
        assert ParsePairs([p][1..]) == [];
      } else {
        QueryRoundTrip(pairs[1..]);
        SplitField(p, AMPERSAND, EncodePairs(pairs[1..]));
        var rest := Split(EncodePairs(pairs[1..]), AMPERSAND);
        assert ([p] + rest)[1..] == rest;
      }
      assert [pairs[0]] + pairs[1..] == pairs;
    }
  }

  // ------------------------------------------------------------------ the end of the head

  /** The length of a head terminator at `i`: CRLFCRLF, or bare LFLF. */
  function TerminatorAt(buf: seq<Byte>, i: nat): (n: nat)
    ensures n > 0 ==> i + n <= |buf|
  {
    if i + 4 <= |buf| && buf[i] == CR && buf[i + 1] == LF && buf[i + 2] == CR && buf[i + 3] == LF then 4
    else if i + 2 <= |buf| && buf[i] == LF && buf[i + 1] == LF then 2
    else 0
  }

  function HeadEndFrom(buf: seq<Byte>, i: nat): (r: Option<(nat, nat)>)
    requires i <= |buf|
    ensures r.Some? ==> i <= r.value.0 < r.value.1 <= |buf| && r.value.1 - r.value.0 == TerminatorAt(buf, r.value.0)
    ensures r.Some? ==> forall j: nat :: i <= j < r.value.0 ==> TerminatorAt(buf, j) == 0
    ensures r.None? ==> forall j: nat :: i <= j ==> TerminatorAt(buf, j) == 0
    decreases |buf| - i
  {
    if i == |buf| then None
    else if TerminatorAt(buf, i) > 0 then Some((i, i + TerminatorAt(buf, i)))
    else HeadEndFrom(buf, i + 1)
  }

  /** `head_end`: where the head ends and where the body starts. */
  function HeadEnd(buf: seq<Byte>): (r: Option<(nat, nat)>)
    ensures r.Some? ==> r.value.0 < r.value.1 <= |buf| && r.value.1 - r.value.0 == TerminatorAt(buf, r.value.0)
    ensures r.Some? ==> forall j: nat :: j < r.value.0 ==> TerminatorAt(buf, j) == 0
    ensures r.None? ==> forall j: nat :: TerminatorAt(buf, j) == 0
  {
    HeadEndFrom(buf, 0)
  }

  lemma TerminatorStable(a: seq<Byte>, b: seq<Byte>, i: nat)
    requires TerminatorAt(a, i) > 0
    ensures TerminatorAt(a + b, i) == TerminatorAt(a, i)
    ensures forall j: nat :: j < i && TerminatorAt(a, j) == 0 ==> TerminatorAt(a + b, j) == 0
  {
    var t := a + b;
    assert forall k :: 0 <= k < |a| ==> t[k] == a[k];
  }

  /** What arrives later never moves the end of a head that is already complete. */
  lemma HeadEndStable(a: seq<Byte>, b: seq<Byte>)
    requires HeadEnd(a).Some?
    ensures HeadEnd(a + b) == HeadEnd(a)
  {
    TerminatorStable(a, b, HeadEnd(a).value.0);
  }

  /** A prefix shows the head exactly when it reaches the end of the terminator. */
  lemma HeadEndOfPrefix(total: seq<Byte>, n: nat)
    requires n <= |total|
    ensures HeadEnd(total).Some? && n >= HeadEnd(total).value.1 ==> HeadEnd(total[..n]) == HeadEnd(total)
    ensures HeadEnd(total).Some? && n < HeadEnd(total).value.1 ==> HeadEnd(total[..n]).None?
    ensures HeadEnd(total).None? ==> HeadEnd(total[..n]).None?
  {
    var p := total[..n];
    assert total == p + total[n..];
    if HeadEnd(total).Some? && n >= HeadEnd(total).value.1 {
      var i := HeadEnd(total).value.0;
      assert forall k :: 0 <= k < n ==> p[k] == total[k];
      assert TerminatorAt(p, i) > 0;
    }
    if HeadEnd(p).Some? {
      HeadEndStable(p, total[n..]);
    }
  }

  // ------------------------------------------------------------------ read_request

  datatype Failure =
    | HeadTooLong
    | ClosedInHead(after: nat)
    | BadHead(reason: string)
    | BodyTooLong(length: nat)
    | ClosedInBody(after: nat, length: nat)

  datatype Received = Received(head: seq<Byte>, body: seq<Byte>)

  /** `parse_head` with the content-length lookup: the length of the body, or why the head is refused. */
  type HeadParser = seq<Byte> -> Result<nat, string>

  /** What the bytes after a complete head amount to. */
  function Respond(parse: HeadParser, head: seq<Byte>, rest: seq<Byte>): Result<Received, Failure> {
    match parse(head)
    case Err(reason) => Err(BadHead(reason))
    case Ok(n) =>
      if n > MAX_BODY then Err(BodyTooLong(n))
      else if |rest| < n then Err(ClosedInBody(|rest|, n))
      else Ok(Received(head, rest[..n]))
  }

  /** The result as a function of all the bytes the client sent. */
  function Whole(parse: HeadParser, total: seq<Byte>): Result<Received, Failure> {
    match HeadEnd(total)
    case None => if |total| > MAX_HEAD then Err(HeadTooLong) else Err(ClosedInHead(|total|))
    case Some(end) => Respond(parse, total[..end.0], total[end.1..])
  }

  /** After some read, too much has arrived without a complete head. */
  ghost predicate Trips(served: seq<seq<Byte>>) {
    exists k: nat :: k <= |served| && TripsAt(served, k)
  }

  predicate TripsAt(served: seq<seq<Byte>>, k: nat)
    requires k <= |served|
  {
    |Concat(served[..k])| > MAX_HEAD && HeadEnd(Concat(served[..k])).None?
  }

  /** Reads before the end of file: none is empty, which would mean the end, or larger than the buffer. */
  ghost predicate ReadsOk(served: seq<seq<Byte>>) {
    forall k :: 0 <= k < |served| ==> 0 < |served[k]| <= CHUNK
  }

  /** The result of one connection whose reads return `served` and then end of file. */
  ghost function ReadAll(parse: HeadParser, served: seq<seq<Byte>>): Result<Received, Failure> {
    if Trips(served) then Err(HeadTooLong) else Whole(parse, Concat(served))
  }

  lemma HeadSoFar(served: seq<seq<Byte>>, k: nat)
    requires k <= |served| && HeadEnd(Concat(served[..k])).Some?
    ensures forall j: nat :: k <= j <= |served| ==> !TripsAt(served, j)
    ensures HeadEnd(Concat(served)) == HeadEnd(Concat(served[..k]))
    ensures Concat(served) == Concat(served[..k]) + Concat(served[k..])
  {
    hide HeadEnd;
    ConcatPrefix(served, k);
    HeadEndStable(Concat(served[..k]), Concat(served[k..]));
    forall j: nat | k <= j <= |served| ensures !TripsAt(served, j) {
      HeadThen(served, k, j);
    }
  }

  /** A head that is complete stays complete. */
  lemma HeadThen(served: seq<seq<Byte>>, k: nat, j: nat)
    requires k <= j <= |served| && HeadEnd(Concat(served[..k])).Some?
    ensures HeadEnd(Concat(served[..j])).Some?
  {
    hide HeadEnd;
    assert served[..j][..k] == served[..k];
    ConcatPrefix(served[..j], k);
    HeadEndStable(Concat(served[..k]), Concat(served[..j][k..]));
  }

  /** The first loop of `read_request`: the buffer and the number of reads once the head is complete. */
  method ReadHead(served: seq<seq<Byte>>) returns (r: Result<(seq<Byte>, nat), Failure>)
    requires ReadsOk(served)
    ensures r.Err? ==> r.error == (if Trips(served) then HeadTooLong else ClosedInHead(|Concat(served)|))
    ensures r.Err? && !Trips(served) ==> HeadEnd(Concat(served)).None? && |Concat(served)| <= MAX_HEAD
    ensures r.Ok? ==> !Trips(served) && HeadEnd(r.value.0).Some? && HeadEnd(r.value.0) == HeadEnd(Concat(served))
    ensures r.Ok? ==> r.value.1 <= |served| && Concat(served) == r.value.0 + Concat(served[r.value.1..])
  {
    var buf := [];
    var k: nat := 0;
    assert served[..0] == [];
    while HeadEnd(buf).None?
      invariant k <= |served| && buf == Concat(served[..k])
      invariant forall j: nat :: j < k ==> !TripsAt(served, j)
      decreases |served| - k
    {
      if |buf| > MAX_HEAD {
        assert TripsAt(served, k);
        return Err(HeadTooLong);
      }
      if k == |served| {
        assert served[..k] == served;
        return Err(ClosedInHead(|buf|));
      }
      ConcatNext(served, k);
      buf := buf + served[k];
      k := k + 1;
    }
    HeadSoFar(served, k);
    r := Ok((buf, k));
  }

  /** The second loop: `n` bytes out of what came with the head and the reads from `k` on. */
  method ReadBody(start: seq<Byte>, served: seq<seq<Byte>>, from: nat, n: nat) returns (r: Result<seq<Byte>, Failure>)
    requires from <= |served| && ReadsOk(served)
    ensures var rest := start + Concat(served[from..]);
      r == if |rest| < n then Err(ClosedInBody(|rest|, n)) else Ok(rest[..n])
  {
    var body, k := start, from;
    ghost var rest := start + Concat(served[from..]);
    while |body| < n
      invariant from <= k <= |served| && rest == body + Concat(served[k..])
      decreases |served| - k
    {
      if k == |served| {
        assert served[k..] == [];
        return Err(ClosedInBody(|body|, n));
      }
      assert served[k..][1..] == served[k + 1..];
      Associative(body, served[k], Concat(served[k + 1..]));
      body := body + served[k];
      k := k + 1;
    }
    assert rest[..n] == body[..n];
    r := Ok(body[..n]);
  }

  /** `read_request`, with what each read of the connection returns. */
  method ReadRequest(parse: HeadParser, served: seq<seq<Byte>>) returns (r: Result<Received, Failure>)
    requires ReadsOk(served)
    ensures r == ReadAll(parse, served)
  {
    var head := ReadHead(served);
    if head.Err? {
      return Err(head.error);
    }
    var (buf, k) := head.value;
    var end := HeadEnd(buf).value;
    assert Concat(served)[..end.0] == buf[..end.0];
    assert Concat(served)[end.1..] == buf[end.1..] + Concat(served[k..]);
    var parsed := parse(buf[..end.0]);
    if parsed.Err? {
      return Err(BadHead(parsed.error));
    }
    if parsed.value > MAX_BODY {
      return Err(BodyTooLong(parsed.value));
    }
    var body := ReadBody(buf[end.1..], served, k, parsed.value);
    r := match body case Ok(b) => Ok(Received(buf[..end.0], b)) case Err(e) => Err(e);
  }

  // ------------------------------------------------------------------ read boundaries

  /** `served` is one way the same bytes can arrive. */
  ghost predicate SplitOf(served: seq<seq<Byte>>, total: seq<Byte>) {
    Concat(served) == total && ReadsOk(served)
  }

  /** A read boundary strictly between the limit and the end of the head: the only thing a split can change. */
  ghost predicate BoundaryBetween(served: seq<seq<Byte>>, end: nat) {
    exists k: nat :: k <= |served| && MAX_HEAD < |Concat(served[..k])| < end
  }

  lemma TripsIffBoundary(served: seq<seq<Byte>>, total: seq<Byte>)
    requires Concat(served) == total
    ensures HeadEnd(total).Some? ==> (Trips(served) <==> BoundaryBetween(served, HeadEnd(total).value.1))
    ensures HeadEnd(total).None? ==> (Trips(served) <==> |total| > MAX_HEAD)
  {
    forall k: nat | k <= |served|
      ensures |Concat(served[..k])| <= |total|
      ensures HeadEnd(total).Some? ==>
        (HeadEnd(Concat(served[..k])).None? <==> |Concat(served[..k])| < HeadEnd(total).value.1)
      ensures HeadEnd(total).None? ==> HeadEnd(Concat(served[..k])).None?
    {
      ConcatPrefix(served, k);
      var n := |Concat(served[..k])|;
      assert total[..n] == Concat(served[..k]);
      HeadEndOfPrefix(total, n);
    }
    if HeadEnd(total).None? && |total| > MAX_HEAD {
      assert served[..|served|] == served;
      assert TripsAt(served, |served|);
    }
    if HeadEnd(total).Some? && BoundaryBetween(served, HeadEnd(total).value.1) {
      var k: nat :| k <= |served| && MAX_HEAD < |Concat(served[..k])| < HeadEnd(total).value.1;
      assert TripsAt(served, k);
    }
  }

  /** Any way of cutting the same bytes into reads gives the same result. */
  ghost predicate SplitIndependent(parse: HeadParser, total: seq<Byte>) {
    forall a, b :: SplitOf(a, total) && SplitOf(b, total) ==> ReadAll(parse, a) == ReadAll(parse, b)
  }

  /** Reads of at most one buffer each cannot step over a stretch longer than a buffer. */
  lemma {:induction false} SomeBoundaryIn(served: seq<seq<Byte>>, k: nat, lo: nat)
    requires k <= |served| && |Concat(served[..k])| <= lo < |Concat(served)|
    requires ReadsOk(served)
    ensures exists j: nat :: j <= |served| && lo < |Concat(served[..j])| <= lo + CHUNK
    decreases |served| - k
  {
    assert served[..|served|] == served;
    ConcatNext(served, k);
    if |Concat(served[..k + 1])| <= lo {
      SomeBoundaryIn(served, k + 1, lo);
    }
  }

  /** `s` cut into reads of one byte. */
  function Single(s: seq<Byte>): seq<seq<Byte>> {
    if s == [] then [] else [[s[0]]] + Single(s[1..])
  }

  lemma {:induction false} SingleIsSplit(s: seq<Byte>)
    ensures SplitOf(Single(s), s)
    ensures forall k: nat :: k <= |Single(s)| ==> |Concat(Single(s)[..k])| == k
    ensures |Single(s)| == |s|
  {
    if s != [] {
      SingleIsSplit(s[1..]);
      var t := Single(s);
      assert t[1..] == Single(s[1..]) && [s[0]] + s[1..] == s;
      forall k: nat | k <= |t| ensures |Concat(t[..k])| == k {
        if k > 0 {
          assert t[..k][1..] == t[1..][..k - 1];
        }
      }
    }
  }

  lemma PrefixesAroundRead(a: seq<seq<Byte>>, mid: seq<Byte>, b: seq<seq<Byte>>, k: nat)
    requires k <= |a| + 1 + |b|
    ensures k <= |a| ==> Concat((a + ([mid] + b))[..k]) == Concat(a[..k])
    ensures k > |a| ==> |Concat((a + ([mid] + b))[..k])| >= |Concat(a)| + |mid|
  {
    var served := a + ([mid] + b);
    if k <= |a| {
      assert served[..k] == a[..k];
    } else {
      var rest := b[..k - |a| - 1];
      assert served[..k] == a + ([mid] + rest);
      ConcatAppend(a, [mid] + rest);
      assert ([mid] + rest)[1..] == rest;
    }
  }

  lemma JumpIsSplit(s: seq<Byte>, lo: nat, hi: nat)
    requires lo < hi <= |s| && hi - lo <= CHUNK
    ensures SplitOf(Single(s[..lo]) + ([s[lo..hi]] + Single(s[hi..])), s)
  {
    var a, mid, b := Single(s[..lo]), s[lo..hi], Single(s[hi..]);
    SingleIsSplit(s[..lo]);
    SingleIsSplit(s[hi..]);
    ConcatAppend(a, [mid] + b);
    assert ([mid] + b)[1..] == b;
    assert s == s[..lo] + (mid + s[hi..]);
    hide Single, Concat;
  }

  /** One byte at a time, except that the bytes of [lo, hi) arrive in one read. */
  lemma JumpOver(s: seq<Byte>, lo: nat, hi: nat) returns (served: seq<seq<Byte>>)
    requires lo < hi <= |s| && hi - lo <= CHUNK
    ensures SplitOf(served, s)
    ensures forall k: nat :: k <= |served| ==> |Concat(served[..k])| <= lo || |Concat(served[..k])| >= hi
  {
    var a, mid, b := Single(s[..lo]), s[lo..hi], Single(s[hi..]);
    served := a + ([mid] + b);
    JumpIsSplit(s, lo, hi);
    SingleIsSplit(s[..lo]);
    assert a[..|a|] == a;
    forall k: nat | k <= |served| ensures |Concat(served[..k])| <= lo || |Concat(served[..k])| >= hi {
      PrefixesAroundRead(a, mid, b, k);
    }
  }

  /**
   * The result depends on how the bytes are cut into reads exactly when the terminator ends in the
   * stretch of one buffer after the limit; elsewhere every split gives the same result.
   */
  lemma SplitIndependentIff(parse: HeadParser, total: seq<Byte>)
    ensures SplitIndependent(parse, total) <==>
      !(HeadEnd(total).Some? && 65_536 + 1 < HeadEnd(total).value.1 <= 65_536 + 4096)
  {
    if HeadEnd(total).Some? && MAX_HEAD + 1 < HeadEnd(total).value.1 <= MAX_HEAD + CHUNK {
      var end := HeadEnd(total).value.1;
      var a := Single(total);
      var b := JumpOver(total, MAX_HEAD, end);
      SingleIsSplit(total);
      TripsIffBoundary(a, total);
      TripsIffBoundary(b, total);
      assert |Concat(a[..MAX_HEAD + 1])| == MAX_HEAD + 1;
      assert Trips(a) && !Trips(b);
      assert ReadAll(parse, a) != ReadAll(parse, b);
    } else {
      forall a, b | SplitOf(a, total) && SplitOf(b, total) ensures ReadAll(parse, a) == ReadAll(parse, b) {
        AlwaysOrNever(a, total);
        AlwaysOrNever(b, total);
      }
    }
  }

  lemma AlwaysOrNever(served: seq<seq<Byte>>, total: seq<Byte>)
    requires SplitOf(served, total)
    requires !(HeadEnd(total).Some? && MAX_HEAD + 1 < HeadEnd(total).value.1 <= MAX_HEAD + CHUNK)
    ensures Trips(served)
      <==> if HeadEnd(total).Some? then HeadEnd(total).value.1 > MAX_HEAD + CHUNK else |total| > MAX_HEAD
  {
    TripsIffBoundary(served, total);
    if HeadEnd(total).Some? && HeadEnd(total).value.1 > MAX_HEAD + CHUNK {
      assert served[..0] == [];
      SomeBoundaryIn(served, 0, MAX_HEAD);
    }
  }
}
