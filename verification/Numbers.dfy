/** Which texts are read as ids, and as names of campaigns, branches and conversations (`protocol.rs`, `living.rs`). */
module Numbers {
  import opened Prelude
  import opened Frame
  import opened Identity

  // ------------------------------------------------------------------ canonical digits

  lemma {:induction false} NoLeadingZero(n: nat)
    requires n >= 1
    ensures Decimal(n)[0] != '0'
  {
    if n >= 10 {
      NoLeadingZero(n / 10);
    }
  }

  lemma {:induction false} ValueIsPositive(s: string)
    requires s != "" && AllDigits(s) && s[0] != '0'
    ensures DigitsValue(s) >= 1
  {
    if |s| > 1 {
      ValueIsPositive(s[..|s| - 1]);
    }
  }

  /** Digits without a leading zero are what their number is printed as. */
  lemma {:induction false} DigitsAreDecimal(s: string)
    requires s != "" && AllDigits(s) && s[0] != '0'
    ensures s == Decimal(DigitsValue(s))
  {
    var last := |s| - 1;
    if last == 0 {
      assert s[..last] == "";
      assert s == [Digit(DigitsValue(s))];
    } else {
      ValueIsPositive(s[..last]);
      DigitsAreDecimal(s[..last]);
      assert s == s[..last] + [s[last]];
    }
  }

  // ------------------------------------------------------------------ ids

  lemma {:induction false} ZerosBefore(zeros: string, s: string)
    requires AllDigits(s) && forall i :: 0 <= i < |zeros| ==> zeros[i] == '0'
    ensures AllDigits(zeros + s) && DigitsValue(zeros + s) == DigitsValue(s)
    decreases |s|, |zeros|
  {
    if s != "" {
      ZerosBefore(zeros, s[..|s| - 1]);
      assert (zeros + s)[..|zeros + s| - 1] == zeros + s[..|s| - 1];
    } else if zeros != "" {
      ZerosBefore(zeros[..|zeros| - 1], s);
      assert zeros + s == zeros && zeros[..|zeros| - 1] + s == zeros[..|zeros| - 1];
    }
  }

  /** A number is read as an id, with leading zeros or without, exactly within ten digits and the range of ids. */
  lemma ZerosAreRead(zeros: string, n: nat)
    requires forall i :: 0 <= i < |zeros| ==> zeros[i] == '0'
    ensures ParseId(zeros + Decimal(n))
         == if |zeros| + |Decimal(n)| <= 10 && 1 <= n <= 999_999_999 then Some(n) else None
  {
    DecimalValue(n);
    ZerosBefore(zeros, Decimal(n));
  }

  /** No other text is an id: not the empty one, and none with anything but digits. */
  lemma OnlyDigitsAreIds(s: string)
    requires s == "" || exists i :: 0 <= i < |s| && !('0' <= s[i] <= '9')
    ensures ParseId(s) == None
  {
  }

  // ------------------------------------------------------------------ identities

  lemma HalfOfDecimal(n: nat)
    ensures IsIdentityHalf(Decimal(n)) <==> 1 <= n <= 900_000_000
  {
    DecimalValue(n);
    if 1 <= n {
      NoLeadingZero(n);
    }
    if n <= 900_000_000 {
      RidsAreShort(n);
    }
  }

  lemma HalfIsDecimal(s: string)
    requires IsIdentityHalf(s)
    ensures AllDigits(s) && s == Decimal(DigitsValue(s))
  {
    DigitsAreDecimal(s);
  }

  /**
   * The names that are accepted: two numbers from 1 to 900,000,000, printed without leading zeros, and one
   * minus sign between them.
   */
  lemma IdentityIff(s: string)
    ensures IsIdentity(s) <==>
      exists a: nat, b: nat ::
        1 <= a <= 900_000_000 && 1 <= b <= 900_000_000 && s == Decimal(a) + "-" + Decimal(b)
  {
    hide Decimal, IsIdentityHalf, DigitsValue;
    if IsIdentity(s) {
      var i := IndexOf(s, '-').value;
      HalfIsDecimal(s[..i]);
      HalfIsDecimal(s[i + 1..]);
      HalfOfDecimal(DigitsValue(s[..i]));
      HalfOfDecimal(DigitsValue(s[i + 1..]));
      assert s == s[..i] + "-" + s[i + 1..];
    }
    if a: nat, b: nat :|
      1 <= a <= 900_000_000 && 1 <= b <= 900_000_000 && s == Decimal(a) + "-" + Decimal(b) {
      HalfOfDecimal(a);
      HalfOfDecimal(b);
      IndexOfFirst(Decimal(a), '-', Decimal(b));
      assert s[..|Decimal(a)|] == Decimal(a) && s[|Decimal(a)| + 1..] == Decimal(b);
    }
  }
}
