/** The response frame `R|C|T|R` and the decimal fields of a request (`protocol.rs`). */
module Frame {
  import opened Prelude
  import opened Protocol
  import opened Sanitize

  // ------------------------------------------------------------------ decimal numbers

  predicate IsDigit(c: char) {
    '0' <= c <= '9'
  }

  ghost predicate AllDigits(s: string) {
    forall i :: 0 <= i < |s| ==> IsDigit(s[i])
  }

  function Digit(d: nat): (c: char)
    requires d < 10
    ensures IsDigit(c) && c as int - '0' as int == d
  {
    '0' + d as char
  }

  function Decimal(n: nat): (s: string)
    ensures s != "" && AllDigits(s)
  {
    if n < 10 then [Digit(n)] else Decimal(n / 10) + [Digit(n % 10)]
  }

  function DigitsValue(s: string): nat
    requires AllDigits(s)
  {
    if s == "" then 0
    else DigitsValue(s[..|s| - 1]) * 10 + (s[|s| - 1] as int - '0' as int)
  }

  /** `parse_uint`: ASCII digits only, at most ten of them, within `u32`. */
  function ParseUint(s: string): Option<nat> {
    if s == "" || |s| > 10 || exists i :: 0 <= i < |s| && !IsDigit(s[i]) then None
    else if DigitsValue(s) > U32_MAX then None
    else Some(DigitsValue(s))
  }

  /** `parse_id`: an id in 1..=RID_MAX. */
  function ParseId(s: string): Option<nat> {
    match ParseUint(s)
    case Some(n) => if 1 <= n <= RID_MAX then Some(n) else None
    case None => None
  }

  function PowerOfTen(k: nat): nat {
    if k == 0 then 1 else 10 * PowerOfTen(k - 1)
  }

  lemma {:induction false} DecimalValue(n: nat)
    ensures DigitsValue(Decimal(n)) == n
  {
    if n >= 10 {
      DecimalValue(n / 10);
      var s := Decimal(n);
      assert s[..|s| - 1] == Decimal(n / 10) && s[|s| - 1] == Digit(n % 10);
    } else {
      var s := Decimal(n);
      assert s[..|s| - 1] == "";
    }
  }

  lemma {:induction false} DecimalLength(n: nat, k: nat)
    requires k > 0 && n < PowerOfTen(k)
    ensures |Decimal(n)| <= k
  {
    if n >= 10 {
      assert k > 1;
      DecimalLength(n / 10, k - 1);
    }
  }

  lemma RidsAreShort(n: nat)
    requires n <= RID_MAX
    ensures |Decimal(n)| <= 9
  {
    assert PowerOfTen(3) == 1000 && PowerOfTen(6) == 1000 * PowerOfTen(3) && PowerOfTen(9) == 1000 * PowerOfTen(6);
    DecimalLength(n, 9);
  }

  /** An id survives printing and parsing exactly when it is in the accepted range. */
  lemma IdRoundTrip(n: nat)
    ensures ParseId(Decimal(n)) == Some(n) <==> 1 <= n <= RID_MAX
  {
    DecimalValue(n);
    if n <= RID_MAX {
      RidsAreShort(n);
    }
  }

  // ------------------------------------------------------------------ the frame

  function Joined(r: string, c: string, t: string): (s: string)
    ensures |s| == 2 * |r| + |c| + |t| + 3
  {
    r + "|" + c + "|" + t + "|" + r
  }

  /** `frame`: the response body. */
  function Frame(rid: nat, code: nat, text: string): string {
    var r := Decimal(if rid <= RID_MAX then rid else 0);
    match SanitizeText(text)
    case Ok(t) => Joined(r, Decimal(code), t)
    case Err(reason) => Joined(r, Decimal(CODE_FAILED), reason)
  }

  lemma NotAmong(s: string, c: char)
    requires forall i :: 0 <= i < |s| ==> s[i] != c
    ensures c !in s
  {
  }

  /** Fields without a bar are read back from between the bars. */
  lemma FieldsReadBack(r: string, c: string, t: string)
    requires '|' !in r && '|' !in c && '|' !in t
    ensures Split(Joined(r, c, t), '|') == [r, c, t, r]
  {
    SplitPlain(r, '|');
    SplitField(t, '|', r);
    SplitField(c, '|', t + "|" + r);
    SplitField(r, '|', c + "|" + (t + "|" + r));
    assert Joined(r, c, t) == r + "|" + (c + "|" + (t + "|" + r));
  }

  lemma EmptyReplyIsWellFormed(t: string)
    requires t == REASON_EMPTY_REPLY
    ensures WellFormed(t)
  {
    assert IsLetter(t[0]);
  }

  /** Every frame is the join of a rid, a code and a well-formed text. */
  lemma FrameParts(rid: nat, code: nat, text: string) returns (n: nat, c: nat, t: string)
    requires code <= CODE_BUSY
    ensures n == (if rid <= RID_MAX then rid else 0)
    ensures Frame(rid, code, text) == Joined(Decimal(n), Decimal(c), t) && WellFormed(t)
    ensures match SanitizeText(text)
            case Ok(shown) => c == code && t == shown
            case Err(_) => c == CODE_FAILED && t == REASON_EMPTY_REPLY
  {
    n := if rid <= RID_MAX then rid else 0;
    match SanitizeText(text) {
      case Ok(shown) =>
        SanitizedIsWellFormed(text);
        c, t := code, shown;
      case Err(reason) =>
        c, t := CODE_FAILED, reason;
        EmptyReplyIsWellFormed(t);
    }
  }

  lemma PartsReadBack(n: nat, c: nat, t: string)
    requires n <= RID_MAX && c < 10 && WellFormed(t)
    ensures |Joined(Decimal(n), Decimal(c), t)| <= 522
    ensures Split(Joined(Decimal(n), Decimal(c), t), '|') == [Decimal(n), Decimal(c), t, Decimal(n)]
    ensures ParseUint(Decimal(n)) == Some(n) && ParseUint(Decimal(c)) == Some(c) && |Decimal(c)| == 1
  {
    RidsAreShort(n);
    DecimalValue(n);
    DecimalValue(c);
    NotAmong(Decimal(n), '|');
    NotAmong(Decimal(c), '|');
    NotAmong(t, '|');
    FieldsReadBack(Decimal(n), Decimal(c), t);
  }

  /** What the engine reads back from any frame. */
  lemma FrameRoundTrip(rid: nat, code: nat, text: string)
    requires code <= CODE_BUSY
    ensures |Frame(rid, code, text)| <= 522
    ensures var fields := Split(Frame(rid, code, text), '|');
            && |fields| == 4
            && fields[0] == fields[3] && ParseUint(fields[0]) == Some(if rid <= RID_MAX then rid else 0)
            && |fields[1]| == 1 && WellFormed(fields[2])
            && match SanitizeText(text)
               case Ok(t) => ParseUint(fields[1]) == Some(code) && fields[2] == t
               case Err(_) => ParseUint(fields[1]) == Some(CODE_FAILED) && fields[2] == REASON_EMPTY_REPLY
  {
    var n, c, t := FrameParts(rid, code, text);
    PartsReadBack(n, c, t);
  }
}
