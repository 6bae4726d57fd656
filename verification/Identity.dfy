/** The names of campaigns, branches and conversations, and the scope they give a job (`living.rs`). */
module Identity {
  import opened Prelude
  import opened Frame

  const MAX_IDENTITY := 900_000_000

  function Magnitude(digits: string): Option<nat> {
    if digits == "" || |digits| > 10 || exists i :: 0 <= i < |digits| && !IsDigit(digits[i]) then None
    else Some(DigitsValue(digits))
  }

  /** `decimal`: an optional minus sign, one to ten digits, and a value within the bounds. */
  function Signed(s: string, min: int, max: int): Option<int> {
    var negative := s != "" && s[0] == '-';
    match Magnitude(if negative then s[1..] else s)
    case None => None
    case Some(m) =>
      var n: int := if negative then -(m as int) else m as int;
      if min <= n <= max then Some(n) else None
  }

  predicate IsIdentityHalf(s: string) {
    Signed(s, 1, MAX_IDENTITY).Some? && s[0] != '0'
  }

  /** `identity`: two positive numbers joined by the first minus sign. */
  predicate IsIdentity(s: string) {
    match IndexOf(s, '-')
    case None => false
    case Some(i) => IsIdentityHalf(s[..i]) && IsIdentityHalf(s[i + 1..])
  }

  /** One conversation of one branch of one campaign. */
  datatype Place = Place(camp: string, branch: string, conv: string)
  {
    predicate Valid() {
      IsIdentity(camp) && IsIdentity(branch) && IsIdentity(conv)
    }

    /** The scope of the jobs that run for this conversation. */
    function Scope(): string {
      camp + [':'] + (branch + [':'] + conv)
    }
  }

  lemma HalfHasNoColon(s: string)
    requires IsIdentityHalf(s)
    ensures ':' !in s
  {
    assert Magnitude(s).Some?;
    assert AllDigits(s);
  }

  lemma IdentityHasNoColon(s: string)
    requires IsIdentity(s)
    ensures ':' !in s
  {
    var i := IndexOf(s, '-').value;
    HalfHasNoColon(s[..i]);
    HalfHasNoColon(s[i + 1..]);
    assert s == s[..i] + ['-'] + s[i + 1..];
  }

  lemma ScopeReadsBack(p: Place)
    requires p.Valid()
    ensures Split(p.Scope(), ':') == [p.camp, p.branch, p.conv]
  {
    IdentityHasNoColon(p.camp);
    IdentityHasNoColon(p.branch);
    IdentityHasNoColon(p.conv);
    SplitField(p.camp, ':', p.branch + [':'] + p.conv);
    SplitField(p.branch, ':', p.conv);
    SplitPlain(p.conv, ':');
  }

  /** Different conversations have different scopes, and none is the empty scope of version 1. */
  lemma ScopeIsInjective(p: Place, q: Place)
    requires p.Valid() && q.Valid()
    ensures p.Scope() == q.Scope() <==> p == q
    ensures p.Scope() != ""
  {
    ScopeReadsBack(p);
    ScopeReadsBack(q);
  }
}
