/** `sanitize_text` and `sanitize_input` (`sanitize.rs`), on sequences of code points. */
module Sanitize {
  import opened Prelude
  import opened Protocol

  const OPEN := "<think>"
  const CLOSE := "</think>"
  const ELLIPSIS := "..."
  const MIN_WORD_CUT := 400
  const LIMIT := MAX_TEXT - |ELLIPSIS|

  datatype Side = Output | Input

  // ------------------------------------------------------------------ step 1: think blocks

  predicate OccursAt(s: string, i: nat, p: string) {
    i + |p| <= |s| && s[i..i + |p|] == p
  }

  ghost predicate Contains(s: string, p: string) {
    exists i: nat :: OccursAt(s, i, p)
  }

  /** `str::find`: the first occurrence of `p` at or after `from`. */
  function FindFrom(s: string, p: string, from: nat): (r: Option<nat>)
    requires from <= |s|
    ensures r.Some? ==> from <= r.value && OccursAt(s, r.value, p)
    ensures r.Some? ==> forall i: nat :: from <= i < r.value ==> !OccursAt(s, i, p)
    ensures r.None? ==> forall i: nat :: from <= i ==> !OccursAt(s, i, p)
    decreases |s| - from
  {
    if OccursAt(s, from, p) then Some(from)
    else if from == |s| then None
    else FindFrom(s, p, from + 1)
  }

  function Find(s: string, p: string): (r: Option<nat>)
    ensures r.Some? ==> OccursAt(s, r.value, p)
    ensures r.Some? ==> forall i: nat :: i < r.value ==> !OccursAt(s, i, p)
    ensures r.None? <==> !Contains(s, p)
  {
    FindFrom(s, p, 0)
  }

  function StripThink(s: string): (r: string)
    ensures |r| <= |s|
    ensures !Contains(s, OPEN) ==> r == s
    ensures Contains(s, OPEN) ==> |r| < |s|
  {
    match Find(s, OPEN)
    case None => s
    case Some(i) =>
      var inner := s[i + |OPEN|..];
      match Find(inner, CLOSE)
      case None => s[..i]
      case Some(j) => s[..i] + StripThink(inner[j + |CLOSE|..])
  }

  /** The loop of `strip_think`. */
  method StripThinkLoop(s: string) returns (out: string)
    ensures out == StripThink(s)
  {
    out := "";
    var rest := s;
    while true
      invariant out + StripThink(rest) == StripThink(s)
      decreases |rest|
    {
      var opening := Find(rest, OPEN);
      if opening.None? {
        return out + rest;
      }
      var kept := rest[..opening.value];
      var inner := rest[opening.value + |OPEN|..];
      var closing := Find(inner, CLOSE);
      if closing.None? {
        return out + kept;
      }
      var after := inner[closing.value + |CLOSE|..];
      Associative(out, kept, StripThink(after));
      out, rest := out + kept, after;
    }
  }

  /** A text seen as kept text and think blocks in turn, then an end with or without an unclosed block. */
  datatype Piece = Piece(kept: string, thought: string)
  datatype End = Plain(text: string) | Unclosed(kept: string, thought: string)

  function RenderEnd(end: End): string {
    match end
    case Plain(text) => text
    case Unclosed(kept, thought) => kept + OPEN + thought
  }

  function Render(pieces: seq<Piece>, end: End): string {
    if pieces == [] then RenderEnd(end)
    else pieces[0].kept + OPEN + (pieces[0].thought + CLOSE + Render(pieces[1..], end))
  }

  function Kept(pieces: seq<Piece>, end: End): string {
    if pieces == [] then (if end.Plain? then end.text else end.kept)
    else pieces[0].kept + Kept(pieces[1..], end)
  }

  /** The first opening tag starts where `kept` ends, the first closing tag where `thought` ends. */
  ghost predicate WellCut(p: Piece) {
    && Find(p.kept + OPEN, OPEN) == Some(|p.kept|)
    && Find(p.thought + CLOSE, CLOSE) == Some(|p.thought|)
  }

  ghost predicate WellEnded(end: End) {
    match end
    case Plain(text) => !Contains(text, OPEN)
    case Unclosed(kept, thought) => Find(kept + OPEN, OPEN) == Some(|kept|) && !Contains(thought, CLOSE)
  }

  lemma FindInPrefix(a: string, p: string, rest: string)
    requires Find(a + p, p) == Some(|a|)
    ensures Find(a + p + rest, p) == Some(|a|)
    ensures (a + p + rest)[|a|..|a| + |p|] == p
    ensures (a + p + rest)[|a| + |p|..] == rest
    ensures (a + p + rest)[..|a|] == a
  {
    var s := a + p + rest;
    assert OccursAt(s, |a|, p);
    forall i: nat | i < |a| ensures !OccursAt(s, i, p) {
      assert !OccursAt(a + p, i, p);
      assert s[i..i + |p|] == (a + p)[i..i + |p|];
    }
    assert Find(s, p).Some?;
  }

  lemma StripOnePiece(p: Piece, rest: string)
    requires WellCut(p)
    ensures StripThink(p.kept + OPEN + (p.thought + CLOSE + rest)) == p.kept + StripThink(rest)
  {
    FindInPrefix(p.kept, OPEN, p.thought + CLOSE + rest);
    FindInPrefix(p.thought, CLOSE, rest);
  }

  /** Every closed think block goes, nothing else does, and an unclosed one runs to the end of the text. */
  lemma {:induction false} StripThinkOfRendered(pieces: seq<Piece>, end: End)
    requires WellEnded(end) && forall i :: 0 <= i < |pieces| ==> WellCut(pieces[i])
    ensures StripThink(Render(pieces, end)) == Kept(pieces, end)
  {
    if pieces != [] {
      StripThinkOfRendered(pieces[1..], end);
      StripOnePiece(pieces[0], Render(pieces[1..], end));
    } else if end.Unclosed? {
      FindInPrefix(end.kept, OPEN, end.thought);
    }
  }

  /** Cutting a text at the first occurrence of a tag. */
  lemma CutAt(s: string, p: string) returns (before: string, after: string)
    requires Contains(s, p)
    ensures s == before + p + after && Find(before + p, p) == Some(|before|)
  {
    var i := Find(s, p).value;
    before, after := s[..i], s[i + |p|..];
    FirstStaysFirst(s, p, i);
    assert s[i..i + |p|] == p;
  }

  lemma RenderOneMore(p: Piece, pieces: seq<Piece>, end: End)
    ensures Render([p] + pieces, end) == p.kept + OPEN + (p.thought + CLOSE + Render(pieces, end))
  {
    assert ([p] + pieces)[1..] == pieces;
  }

  /** Every text has such a reading, so the two lemmas say what `StripThink` does to any text. */
  lemma {:induction false} EveryTextIsRendered(s: string) returns (pieces: seq<Piece>, end: End)
    ensures s == Render(pieces, end) && WellEnded(end)
    ensures forall i :: 0 <= i < |pieces| ==> WellCut(pieces[i])
    decreases |s|
  {
    if !Contains(s, OPEN) {
      return [], Plain(s);
    }
    var kept, inner := CutAt(s, OPEN);
    if !Contains(inner, CLOSE) {
      return [], Unclosed(kept, inner);
    }
    var thought, after := CutAt(inner, CLOSE);
    var more;
    more, end := EveryTextIsRendered(after);
    RenderOneMore(Piece(kept, thought), more, end);
    pieces := [Piece(kept, thought)] + more;
  }

  lemma FirstStaysFirst(s: string, p: string, i: nat)
    requires Find(s, p) == Some(i)
    ensures Find(s[..i] + p, p) == Some(i)
  {
    var t := s[..i] + p;
    assert t == s[..i + |p|];
    forall j: nat | j < i ensures !OccursAt(t, j, p) {
      assert !OccursAt(s, j, p);
      assert t[j..j + |p|] == s[j..j + |p|];
    }
    assert OccursAt(t, i, p);
    assert Find(t, p).Some?;
  }

  // ------------------------------------------------------------------ steps 2-5: one character at a time

  predicate IsLetter(c: char) {
    'a' <= c <= 'z' || 'A' <= c <= 'Z'
  }

  ghost predicate HasLetter(s: string) {
    exists i :: 0 <= i < |s| && IsLetter(s[i])
  }

  predicate IsControl(c: char) {
    c < ' ' || c == '\U{7F}'
  }

  predicate IsAscii(c: char) {
    c <= '\U{7F}'
  }

  /** Printable ASCII that the engine neither splits on nor expands. */
  predicate IsSafe(c: char) {
    ' ' <= c <= '~' && c != '|' && c != '^' && c != '{' && c != '}'
  }

  /** What an input may keep besides `IsSafe`. */
  predicate IsInputSafe(c: char) {
    IsSafe(c) || c == '{' || c == '}'
  }

  predicate IsWhiteSpace(c: char) {
    || c == '\U{85}' || c == '\U{A0}' || c == '\U{1680}' || '\U{2000}' <= c <= '\U{200A}'
    || c == '\U{2028}' || c == '\U{2029}' || c == '\U{202F}' || c == '\U{205F}' || c == '\U{3000}'
  }

  /** The entries of two letters, by their distance from U+00C0. */
  predicate IsLong(n: nat) {
    || n == 0x06 || n == 0x1E || n == 0x1F || n == 0x26 || n == 0x3E
    || n == 0x72 || n == 0x73 || n == 0x92 || n == 0x93
  }

  /** U+00D7 and U+00F7, the two signs among these letters. */
  predicate IsUnlettered(n: nat) { n == 0x17 || n == 0x37 }

  /**
   * The base letters of U+00C0 to U+017F, sixteen to a row, in three tables of four rows; `*` marks
   * the entries that are not exactly one letter.
   */
  function Latin1Row(row: nat): (r: string)
    requires row < 4
    ensures |r| == 16 && forall c :: c in r ==> c == '*' || IsLetter(c)
    ensures forall i :: 0 <= i < 16 && r[i] == '*' ==> IsLong(16 * row + i) || IsUnlettered(16 * row + i)
    ensures row % 2 == 1 ==> r[7] == '*'
  {
    match row
    case 0 => "AAAAAA*CEEEEIIII"
    case 1 => "DNOOOOO*OUUUUY**"
    case 2 => "aaaaaa*ceeeeiiii"
    case 3 => "dnooooo*ouuuuy*y"
  }

  function ExtendedRowLow(row: nat): (r: string)
    requires row < 4
    ensures |r| == 16 && forall c :: c in r ==> c == '*' || IsLetter(c)
    ensures forall i :: 0 <= i < 16 && r[i] == '*' ==> IsLong(0x40 + 16 * row + i)
  {
    match row
    case 0 => "AaAaAaCcCcCcCcDd"
    case 1 => "DdEeEeEeEeEeGgGg"
    case 2 => "GgGgHhHhIiIiIiIi"
    case 3 => "Ii**JjKkkLlLlLlL"
  }

  function ExtendedRowHigh(row: nat): (r: string)
    requires row < 4
    ensures |r| == 16 && forall c :: c in r ==> c == '*' || IsLetter(c)
    ensures forall i :: 0 <= i < 16 && r[i] == '*' ==> IsLong(0x80 + 16 * row + i)
  {
    match row
    case 0 => "lLlNnNnNnnNnOoOo"
    case 1 => "Oo**RrRrRrSsSsSs"
    case 2 => "SsTtTtTtUuUuUuUu"
    case 3 => "UuUuWwYyYZzZzZzs"
  }

  function LatinRow(row: nat): (r: string)
    requires row < 12
    ensures |r| == 16 && forall c :: c in r ==> c == '*' || IsLetter(c)
    ensures forall i :: 0 <= i < 16 && r[i] == '*' ==> IsLong(16 * row + i) || IsUnlettered(16 * row + i)
    ensures row == 1 || row == 3 ==> r[7] == '*'
  {
    if row < 4 then Latin1Row(row) else if row < 8 then ExtendedRowLow(row - 4) else ExtendedRowHigh(row - 8)
  }

  function Latin(c: char): (r: string)
    requires '\U{C0}' <= c <= '\U{17F}'
    ensures forall i :: 0 <= i < |r| ==> IsLetter(r[i])
    ensures r == "" <==> c == '\U{D7}' || c == '\U{F7}'
  {
    var n := c as int - 0xC0;
    var base := LatinRow(n / 16)[n % 16];
    if base != '*' then [base]
    else if c == '\U{C6}' then "AE"
    else if c == '\U{DE}' then "Th"
    else if c == '\U{DF}' then "ss"
    else if c == '\U{E6}' then "ae"
    else if c == '\U{FE}' then "th"
    else if c == '\U{132}' then "IJ"
    else if c == '\U{133}' then "ij"
    else if c == '\U{152}' then "OE"
    else if c == '\U{153}' then "oe"
    else ""
  }

  /** What a replacement may hold; so no step after the table finds a control character or a separator in it. */
  predicate IsReplacement(c: char) {
    IsLetter(c) || c == '\'' || c == '\"' || c == '-' || c == '.' || c == ' '
  }

  /** Step 2: the transliteration table for non-ASCII characters. */
  function Transliterate(c: char): (r: Option<string>)
    ensures r.Some? ==> r.value != "" && forall i :: 0 <= i < |r.value| ==> IsReplacement(r.value[i])
    ensures '\U{C0}' <= c <= '\U{17F}' ==> (r.None? <==> c == '\U{D7}' || c == '\U{F7}')
  {
    if '\U{2018}' <= c <= '\U{201B}' then Some("'")
    else if '\U{201C}' <= c <= '\U{201F}' then Some("\"")
    else if '\U{2010}' <= c <= '\U{2015}' || c == '\U{2212}' || c == '\U{2E3A}' || c == '\U{2E3B}'
         || c == '\U{FE58}' || c == '\U{FE63}' || c == '\U{FF0D}' then Some("-")
    else if c == '\U{2026}' then Some(ELLIPSIS)
    else if IsWhiteSpace(c) then Some(" ")
    else if c == '\U{AA}' then Some("a")
    else if c == '\U{BA}' then Some("o")
    else if '\U{C0}' <= c <= '\U{17F}' then
      if Latin(c) == "" then None else Some(Latin(c))
    else None
  }

  function CleanChar(c: char, side: Side): (r: string)
    ensures forall i :: 0 <= i < |r| ==> IsInputSafe(r[i]) && (side == Output ==> IsSafe(r[i]))
    ensures IsSafe(c) ==> r == [c]
  {
    if IsControl(c) then " "
    else if c == '|' then "/"
    else if c == '^' then " "
    else if c == '{' && side == Output then "("
    else if c == '}' && side == Output then ")"
    else if IsAscii(c) then [c]
    else match Transliterate(c)
      case Some(t) => t
      case None => if side == Input then "?" else ""
  }

  function CleanChars(s: string, side: Side): (r: string)
    ensures forall i :: 0 <= i < |r| ==> IsInputSafe(r[i]) && (side == Output ==> IsSafe(r[i]))
    ensures (forall i :: 0 <= i < |s| ==> IsSafe(s[i])) ==> r == s
  {
    if s == "" then "" else CleanChar(s[0], side) + CleanChars(s[1..], side)
  }

  // ------------------------------------------------------------------ step 6: whitespace

  predicate IsAsciiWhitespace(c: char) {
    c == ' ' || c == '\t' || c == '\n' || c == '\U{0C}' || c == '\r'
  }

  predicate IsWord(w: string) {
    w != "" && forall i :: 0 <= i < |w| ==> !IsAsciiWhitespace(w[i])
  }

  function WordLength(s: string): (n: nat)
    ensures n <= |s|
    ensures forall i :: 0 <= i < n ==> !IsAsciiWhitespace(s[i])
    ensures n < |s| ==> IsAsciiWhitespace(s[n])
  {
    if s == "" || IsAsciiWhitespace(s[0]) then 0 else 1 + WordLength(s[1..])
  }

  /** `split_ascii_whitespace`. */
  function Words(s: string): (ws: seq<string>)
    ensures forall k :: 0 <= k < |ws| ==> IsWord(ws[k])
    decreases |s|
  {
    if s == "" then []
    else if IsAsciiWhitespace(s[0]) then Words(s[1..])
    else [s[..WordLength(s)]] + Words(s[WordLength(s)..])
  }

  /** `join(" ")`. */
  function Join(ws: seq<string>): string {
    if ws == [] then "" else if |ws| == 1 then ws[0] else ws[0] + " " + Join(ws[1..])
  }

  /** No space at either end and no two in a row. */
  ghost predicate SingleSpaced(t: string) {
    && (t != "" ==> t[0] != ' ' && t[|t| - 1] != ' ')
    && forall i :: 0 <= i < |t| - 1 ==> !(t[i] == ' ' && t[i + 1] == ' ')
  }

  lemma {:induction false} JoinOfWords(ws: seq<string>)
    requires forall k :: 0 <= k < |ws| ==> IsWord(ws[k])
    ensures SingleSpaced(Join(ws)) && (ws != [] ==> Join(ws) != "")
  {
    if |ws| > 1 {
      JoinOfWords(ws[1..]);
      var w, rest := ws[0], Join(ws[1..]);
      var t := w + " " + rest;
      assert IsWord(w);
      forall i | 0 <= i < |t| - 1 ensures !(t[i] == ' ' && t[i + 1] == ' ') {
        if i > |w| {
          assert t[i] == rest[i - |w| - 1] && t[i + 1] == rest[i - |w|];
        }
      }
      assert t[|t| - 1] == rest[|rest| - 1];
    } else if |ws| == 1 {
      assert IsWord(ws[0]);
    }
  }

  /** Collapsing keeps characters: the result has no character but those of `s` and the space. */
  lemma {:induction false} CollapseKeepsCharacters(s: string)
    ensures forall i :: 0 <= i < |Join(Words(s))| ==> Join(Words(s))[i] == ' ' || Join(Words(s))[i] in s
    decreases |s|
  {
    if s != "" {
      if IsAsciiWhitespace(s[0]) {
        CollapseKeepsCharacters(s[1..]);
      } else {
        var n := WordLength(s);
        CollapseKeepsCharacters(s[n..]);
        assert Words(s)[1..] == Words(s[n..]);
        assert forall c :: c in s[..n] || c in s[n..] ==> c in s;
      }
    }
  }

  lemma SingleSpacedAfterSpace(t: string, n: nat)
    requires SingleSpaced(t) && n < |t| && t[n] == ' '
    ensures n + 1 < |t| && SingleSpaced(t[n + 1..])
  {
    var rest := t[n + 1..];
    assert n + 1 < |t| && rest[0] == t[n + 1] && rest[|rest| - 1] == t[|t| - 1];
    forall i | 0 <= i < |rest| - 1 ensures !(rest[i] == ' ' && rest[i + 1] == ' ') {
      assert rest[i] == t[i + n + 1] && rest[i + 1] == t[i + 1 + n + 1];
    }
  }

  lemma WordsOfWordThenSpace(t: string, n: nat)
    requires n == WordLength(t) && 0 < n < |t|
    ensures Words(t) == [t[..n]] + Words(t[n + 1..])
    ensures Join(Words(t)) == if Words(t[n + 1..]) == [] then t[..n] else t[..n] + " " + Join(Words(t[n + 1..]))
  {
    assert t[n..][1..] == t[n + 1..];
    assert Words(t)[1..] == Words(t[n + 1..]);
  }

  lemma CollapseOneMore(t: string, n: nat)
    requires n == WordLength(t) && 0 < n && n + 1 < |t| && t[n] == ' '
    requires Join(Words(t[n + 1..])) == t[n + 1..]
    ensures Join(Words(t)) == t
  {
    hide WordLength, Words, Join;
    WordsOfWordThenSpace(t, n);
    var rest := t[n + 1..];
    JoinOneMore(t[..n], Words(rest));
    assert t == t[..n] + " " + rest;
  }

  lemma JoinOneMore(w: string, ws: seq<string>)
    requires Join(ws) != ""
    ensures Join([w] + ws) == w + " " + Join(ws)
  {
    assert ([w] + ws)[1..] == ws;
  }

  /** A single-spaced text with no other whitespace is already collapsed. */
  lemma {:induction false} CollapseFixes(t: string)
    requires SingleSpaced(t) && forall i :: 0 <= i < |t| ==> IsAsciiWhitespace(t[i]) ==> t[i] == ' '
    ensures Join(Words(t)) == t
    decreases |t|
  {
    if t != "" {
      var n := WordLength(t);
      if n == |t| {
        assert t[n..] == "" && t[..n] == t;
      } else {
        SingleSpacedAfterSpace(t, n);
        CollapseFixes(t[n + 1..]);
        CollapseOneMore(t, n);
      }
    }
  }

  /** Collapsing never lengthens a text. */
  lemma {:induction false} CollapseShortens(s: string)
    ensures |Join(Words(s))| <= |s|
    decreases |s|
  {
    if s != "" {
      if IsAsciiWhitespace(s[0]) {
        CollapseShortens(s[1..]);
      } else {
        var n := WordLength(s);
        if n < |s| {
          WordsOfWordThenSpace(s, n);
          CollapseShortens(s[n + 1..]);
        } else {
          assert s[n..] == "";
        }
      }
    }
  }

  // ------------------------------------------------------------------ steps 1-6 together

  function Clean(raw: string, side: Side): string {
    Join(Words(CleanChars(StripThink(raw), side)))
  }

  lemma {:induction false} CleanCharsSnoc(s: string, c: char, side: Side)
    ensures CleanChars(s + [c], side) == CleanChars(s, side) + CleanChar(c, side)
  {
    var t := s + [c];
    if s == "" {
      assert t[1..] == "" && CleanChars(t[1..], side) == "";
    } else {
      CleanCharsSnoc(s[1..], c, side);
      assert t[0] == s[0] && t[1..] == s[1..] + [c];
      Associative(CleanChar(s[0], side), CleanChars(s[1..], side), CleanChar(c, side));
    }
  }

  lemma CleanCharsNext(text: string, i: nat, side: Side)
    requires i < |text|
    ensures CleanChars(text[..i + 1], side) == CleanChars(text[..i], side) + CleanChar(text[i], side)
  {
    CleanCharsSnoc(text[..i], text[i], side);
    assert text[..i + 1] == text[..i] + [text[i]];
  }

  /** The pass of `clean`: one loop over the characters, then the words joined again. */
  method CleanLoop(raw: string, side: Side) returns (r: string)
    ensures r == Clean(raw, side)
  {
    var text := StripThinkLoop(raw);
    var out := "";
    for i := 0 to |text|
      invariant out == CleanChars(text[..i], side)
    {
      CleanCharsNext(text, i, side);
      out := out + CleanChar(text[i], side);
    }
    assert text[..|text|] == text;
    r := Join(Words(out));
  }

  // ------------------------------------------------------------------ step 7: the cap

  /** `rposition`: the last space among the first `n` characters. */
  function LastSpace(s: string, n: nat): (r: Option<nat>)
    requires n <= |s|
    ensures r.Some? ==> r.value < n && s[r.value] == ' ' && forall k :: r.value < k < n ==> s[k] != ' '
    ensures r.None? ==> forall k :: 0 <= k < n ==> s[k] != ' '
  {
    if n == 0 then None else if s[n - 1] == ' ' then Some(n - 1) else LastSpace(s, n - 1)
  }

  function Cap(text: string): (r: string)
    ensures |r| <= MAX_TEXT
  {
    if |text| <= MAX_TEXT then text
    else
      var cut := match LastSpace(text, LIMIT + 1)
        case Some(i) => if i >= MIN_WORD_CUT then i else LIMIT
        case None => LIMIT;
      text[..cut] + ELLIPSIS
  }

  /** Where an overlong text is cut: at the last space of [400, 497] if there is one, else at 497. */
  lemma CapCutsAtAWord(text: string, cut: nat)
    requires |text| > 500
    requires if exists k :: 400 <= k <= 497 && text[k] == ' '
             then 400 <= cut <= 497 && text[cut] == ' ' && forall k :: cut < k <= 497 ==> text[k] != ' '
             else cut == 497
    ensures Cap(text) == text[..cut] + "..."
  {
    var last := LastSpace(text, LIMIT + 1);
    if exists k :: 400 <= k <= 497 && text[k] == ' ' {
      assert last.Some? && last.value == cut;
    }
  }

  // ------------------------------------------------------------------ sanitize_text

  function SanitizeText(raw: string): Result<string, string> {
    var text := Cap(Clean(raw, Output));
    if exists i :: 0 <= i < |text| && IsLetter(text[i]) then Ok(text) else Err(REASON_EMPTY_REPLY)
  }

  function SanitizeInput(raw: string): string {
    Clean(raw, Input)
  }

  /** What the frame relies on: nothing the engine would split on, expand, trim or read as a number. */
  ghost predicate WellFormed(t: string) {
    && (forall i :: 0 <= i < |t| ==> IsSafe(t[i]))
    && SingleSpaced(t)
    && HasLetter(t)
    && |t| <= 500
  }

  lemma CleanForm(raw: string, side: Side)
    ensures var t := Clean(raw, side);
            && SingleSpaced(t)
            && forall i :: 0 <= i < |t| ==> IsInputSafe(t[i]) && (side == Output ==> IsSafe(t[i]))
  {
    var s := CleanChars(StripThink(raw), side);
    JoinOfWords(Words(s));
    CollapseKeepsCharacters(s);
  }

  lemma CapForm(text: string)
    requires SingleSpaced(text) && forall i :: 0 <= i < |text| ==> IsSafe(text[i])
    ensures SingleSpaced(Cap(text)) && forall i :: 0 <= i < |Cap(text)| ==> IsSafe(Cap(text)[i])
  {
    if |text| > MAX_TEXT {
      var last := LastSpace(text, LIMIT + 1);
      var cut := if last.Some? && last.value >= MIN_WORD_CUT then last.value else LIMIT;
      var t := text[..cut] + ELLIPSIS;
      assert t == Cap(text);
      assert text[cut - 1] != ' ';
      forall i | 0 <= i < |t| - 1 ensures !(t[i] == ' ' && t[i + 1] == ' ') {
        if i + 1 < cut {
          assert t[i] == text[i] && t[i + 1] == text[i + 1];
        }
      }
    }
  }

  /** An input is kept as printable ASCII with single inner spaces and without what the engine splits on. */
  lemma SanitizedInputIsPlain(raw: string)
    ensures var t := SanitizeInput(raw);
      SingleSpaced(t) && forall i :: 0 <= i < |t| ==> ' ' <= t[i] <= '~' && t[i] != '|' && t[i] != '^'
  {
    CleanForm(raw, Input);
  }

  /** Every text that passes is well formed. */
  lemma SanitizedIsWellFormed(raw: string)
    requires SanitizeText(raw).Ok?
    ensures WellFormed(SanitizeText(raw).value)
  {
    CleanForm(raw, Output);
    CapForm(Clean(raw, Output));
  }

  lemma CleanFixes(t: string)
    requires SingleSpaced(t) && forall i :: 0 <= i < |t| ==> IsSafe(t[i])
    ensures Join(Words(CleanChars(t, Output))) == t
  {
    assert CleanChars(t, Output) == t;
    CollapseFixes(t);
  }

  /** A text that is well formed once its think blocks are gone needs nothing more. */
  lemma OnlyStripMatters(raw: string)
    requires WellFormed(StripThink(raw))
    ensures SanitizeText(raw) == Ok(StripThink(raw))
  {
    CleanFixes(StripThink(raw));
    assert Cap(Clean(raw, Output)) == StripThink(raw);
  }

  /** Exact idempotence: a well-formed text is a fixed point iff it contains no opening think tag. */
  lemma FixedPointIffNoThink(t: string)
    requires WellFormed(t)
    ensures SanitizeText(t) == Ok(t) <==> !Contains(t, OPEN)
  {
    if !Contains(t, OPEN) {
      OnlyStripMatters(t);
    } else {
      var kept := StripThink(t);
      StripKeepsSafe(t);
      CollapseShortens(kept);
      assert CleanChars(kept, Output) == kept;
    }
  }

  ghost predicate AllSafe(s: string) {
    forall i :: 0 <= i < |s| ==> IsSafe(s[i])
  }

  lemma SafeSlices(s: string, i: nat, j: nat)
    requires AllSafe(s) && i <= |s| && j <= |s|
    ensures AllSafe(s[..i]) && AllSafe(s[j..])
  {
  }

  lemma {:induction false} StripKeepsSafe(s: string)
    requires AllSafe(s)
    ensures AllSafe(StripThink(s))
    decreases |s|
  {
    var opening := Find(s, OPEN);
    if opening.Some? {
      SafeSlices(s, opening.value, opening.value + |OPEN|);
      var inner := s[opening.value + |OPEN|..];
      var closing := Find(inner, CLOSE);
      if closing.Some? {
        SafeSlices(inner, 0, closing.value + |CLOSE|);
        StripKeepsSafe(inner[closing.value + |CLOSE|..]);
      }
    }
  }

  /** So sanitizing twice is sanitizing once exactly when the first result has no opening tag left. */
  lemma SanitizeTwice(raw: string)
    requires SanitizeText(raw).Ok?
    ensures var t := SanitizeText(raw).value; SanitizeText(t) == SanitizeText(raw) <==> !Contains(t, OPEN)
  {
    SanitizedIsWellFormed(raw);
    FixedPointIffNoThink(SanitizeText(raw).value);
  }

  /**
   * Sanitizing twice can change a text: removing a block can join the two halves of a tag. Here
   * `t` is `a<think>` and `raw` is `a<`, an empty think block and `think>`.
   */
  lemma NotIdempotent(raw: string, t: string)
    requires |t| == 8 && t[0] == 'a' && t[1..] == OPEN
    requires raw == t[..2] + OPEN + (CLOSE + t[2..])
    ensures SanitizeText(raw) == Ok(t) && SanitizeText(t) != Ok(t)
  {
    ExampleStripped(raw, t);
    ExampleWellFormed(t);
    OnlyStripMatters(raw);
    assert t[1..8] == t[1..] && OccursAt(t, 1, OPEN);
    FixedPointIffNoThink(t);
  }

  lemma ExampleWellFormed(t: string)
    requires |t| == 8 && t[0] == 'a' && t[1..] == OPEN
    ensures WellFormed(t)
  {
    assert IsLetter(t[0]);
    assert forall i :: 1 <= i < 8 ==> t[i] == OPEN[i - 1];
  }

  lemma ExampleStripped(raw: string, t: string)
    requires |t| == 8 && t[0] == 'a' && t[1..] == OPEN
    requires raw == t[..2] + OPEN + (CLOSE + t[2..])
    ensures StripThink(raw) == t
  {
    var p, rest := Piece(t[..2], []), t[2..];
    assert t[1] == OPEN[0];
    assert Find(p.kept + OPEN, OPEN) == Some(2) by {
      var s := p.kept + OPEN;
      assert OccursAt(s, 2, OPEN);
      assert s[0..7][0] != OPEN[0] && s[1..8][1] != OPEN[1];
    }
    assert p.thought + CLOSE == CLOSE && CLOSE[0..8] == CLOSE;
    assert OccursAt(p.thought + CLOSE, 0, CLOSE);
    StripOnePiece(p, rest);
    assert p.thought + CLOSE + rest == CLOSE + rest;
    assert rest == OPEN[1..] && !Contains(rest, OPEN);
    assert p.kept + rest == t;
  }
}
