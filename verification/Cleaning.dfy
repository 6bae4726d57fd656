/** What becomes of every kind of character, in the middle of any text (`sanitize.rs`). */
module Cleaning {
  import opened Prelude
  import opened Sanitize

  // ------------------------------------------------------------------ around one stretch

  lemma {:induction false} CleanCharsConcat(a: string, b: string, side: Side)
    ensures CleanChars(a + b, side) == CleanChars(a, side) + CleanChars(b, side)
  {
    hide CleanChar, IsSafe, IsInputSafe;
    if a == "" {
      assert a + b == b;
    } else {
      CleanCharsConcat(a[1..], b, side);
      assert (a + b)[1..] == a[1..] + b;
      Associative(CleanChar(a[0], side), CleanChars(a[1..], side), CleanChars(b, side));
    }
  }

  /** Text that no step changes. */
  ghost predicate Settled(t: string) {
    t != "" && SingleSpaced(t) && AllSafe(t)
  }

  /** Nothing for the last step to do. */
  ghost predicate Collapsed(t: string) {
    SingleSpaced(t) && forall i :: 0 <= i < |t| && IsAsciiWhitespace(t[i]) ==> t[i] == ' '
  }

  lemma TwoCollapsed(a: string, b: string)
    requires Collapsed(a) && Collapsed(b)
    ensures Collapsed(a + b)
  {
    hide IsAsciiWhitespace;
    var t := a + b;
    forall i | 0 <= i < |t| ensures t[i] == if i < |a| then a[i] else b[i - |a|] {
    }
  }

  lemma SpacedCollapsed(a: string, b: string)
    requires Collapsed(a) && Collapsed(b) && a != "" && b != ""
    ensures Collapsed(a + " " + b)
  {
    hide IsAsciiWhitespace;
    var t := a + " " + b;
    forall i | 0 <= i < |t| ensures t[i] == if i < |a| then a[i] else if i == |a| then ' ' else b[i - |a| - 1] {
    }
  }

  lemma SettledIsCollapsed(t: string)
    requires Settled(t)
    ensures Collapsed(t) && t != ""
  {
  }

  lemma JoinSettled(a: string, x: string, b: string)
    requires Settled(a) && Settled(b) && (x == " " || Collapsed(x))
    ensures Join(Words(a + x + b)) == a + x + b
  {
    hide Settled, Collapsed, Words, Join;
    SettledIsCollapsed(a);
    SettledIsCollapsed(b);
    if x == " " {
      SpacedCollapsed(a, b);
    } else {
      TwoCollapsed(a, x);
      TwoCollapsed(a + x, b);
    }
    JoinCollapsed(a + x + b);
  }

  lemma JoinCollapsed(t: string)
    requires Collapsed(t)
    ensures Join(Words(t)) == t
  {
    CollapseFixes(t);
  }

  /** One character in a settled text, with what replaces it. */
  lemma CleanOne(a: string, c: char, b: string, side: Side, x: string)
    requires Settled(a) && Settled(b) && !Contains(a + [c] + b, OPEN)
    requires CleanChar(c, side) == x
    requires x == " " || Collapsed(x)
    ensures Clean(a + [c] + b, side) == a + x + b
  {
    CleanCharsConcat(a + [c], b, side);
    CleanCharsConcat(a, [c], side);
    CleanSingle(c, side);
    JoinSettled(a, x, b);
  }

  lemma CleanSingle(c: char, side: Side)
    ensures CleanChars([c], side) == CleanChar(c, side)
  {
    assert [c][1..] == "" && CleanChars("", side) == "";
  }

  // ------------------------------------------------------------------ the kinds of characters

  /** The typographic spaces, the line and paragraph separators and the other white space beyond ASCII. */
  predicate IsWideSpace(c: char) {
    || c == '\U{0085}' || c == '\U{00A0}' || c == '\U{1680}' || '\U{2000}' <= c <= '\U{200A}'
    || c == '\U{2028}' || c == '\U{2029}' || c == '\U{202F}' || c == '\U{205F}' || c == '\U{3000}'
  }

  predicate IsDash(c: char) {
    || '\U{2010}' <= c <= '\U{2015}' || c == '\U{2212}' || c == '\U{2E3A}' || c == '\U{2E3B}'
    || c == '\U{FE58}' || c == '\U{FE63}' || c == '\U{FF0D}'
  }

  /** Nothing stands for it: beyond ASCII, and neither a letter of Latin script nor punctuation with a likeness. */
  predicate HasNoLikeness(c: char) {
    && c > '\U{7F}' && !IsWideSpace(c) && !IsDash(c) && c != '\U{AA}' && c != '\U{BA}' && c != '\U{2026}'
    && !('\U{2018}' <= c <= '\U{201F}')
    && (c < '\U{C0}' || c > '\U{17F}' || c == '\U{D7}' || c == '\U{F7}')
  }

  /**
   * A character between two settled texts: control characters, carets and wide spaces part them with one
   * space; bars, and on output braces, are replaced; quotes, dashes and dots get their likeness; what has
   * none goes on output and is a question mark on input.
   */
  lemma CharacterBetween(a: string, c: char, b: string, side: Side)
    requires Settled(a) && Settled(b) && !Contains(a + [c] + b, OPEN)
    ensures c < ' ' || c == '\U{7F}' || c == '^' || IsWideSpace(c) ==> Clean(a + [c] + b, side) == a + " " + b
    ensures c == '|' ==> Clean(a + [c] + b, side) == a + "/" + b
    ensures c == '{' ==> Clean(a + [c] + b, side) == a + (if side == Output then "(" else "{") + b
    ensures c == '}' ==> Clean(a + [c] + b, side) == a + (if side == Output then ")" else "}") + b
    ensures '\U{2018}' <= c <= '\U{201B}' ==> Clean(a + [c] + b, side) == a + "'" + b
    ensures '\U{201C}' <= c <= '\U{201F}' ==> Clean(a + [c] + b, side) == a + "\"" + b
    ensures IsDash(c) ==> Clean(a + [c] + b, side) == a + "-" + b
    ensures c == '\U{2026}' ==> Clean(a + [c] + b, side) == a + "..." + b
    ensures c == '\U{AA}' ==> Clean(a + [c] + b, side) == a + "a" + b
    ensures c == '\U{BA}' ==> Clean(a + [c] + b, side) == a + "o" + b
    ensures HasNoLikeness(c) ==> Clean(a + [c] + b, side) == a + (if side == Output then "" else "?") + b
  {
    hide Clean, CleanChar, Contains, Settled, IsWideSpace, IsDash, HasNoLikeness;
    CleanCharIs(c, side);
    CleanOne(a, c, b, side, CleanChar(c, side));
  }

  /** What is put in place of each kind of character. */
  lemma CleanCharIs(c: char, side: Side)
    ensures CleanChar(c, side) == " " || Collapsed(CleanChar(c, side))
    ensures c < ' ' || c == '\U{7F}' || c == '^' || IsWideSpace(c) ==> CleanChar(c, side) == " "
    ensures c == '|' ==> CleanChar(c, side) == "/"
    ensures c == '{' ==> CleanChar(c, side) == if side == Output then "(" else "{"
    ensures c == '}' ==> CleanChar(c, side) == if side == Output then ")" else "}"
    ensures '\U{2018}' <= c <= '\U{201B}' ==> CleanChar(c, side) == "'"
    ensures '\U{201C}' <= c <= '\U{201F}' ==> CleanChar(c, side) == "\""
    ensures IsDash(c) ==> CleanChar(c, side) == "-"
    ensures c == '\U{2026}' ==> CleanChar(c, side) == "..."
    ensures c == '\U{AA}' ==> CleanChar(c, side) == "a"
    ensures c == '\U{BA}' ==> CleanChar(c, side) == "o"
    ensures HasNoLikeness(c) ==> CleanChar(c, side) == if side == Output then "" else "?"
  {
    hide LatinRow;
  }

  // ------------------------------------------------------------------ runs of white space

  lemma {:induction false} WordLengthBefore(p: string, q: string)
    ensures WordLength(p + [' '] + q) == WordLength(p)
  {
    var s := p + [' '] + q;
    if p != "" && !IsAsciiWhitespace(p[0]) {
      assert s[1..] == p[1..] + [' '] + q;
      WordLengthBefore(p[1..], q);
    }
  }

  /** A space parts the words before it from those after it. */
  lemma {:induction false} WordsAround(p: string, q: string)
    ensures Words(p + [' '] + q) == Words(p) + Words(q)
    decreases |p|
  {
    var s := p + [' '] + q;
    if p == "" {
      assert s[1..] == q;
    } else if IsAsciiWhitespace(p[0]) {
      assert s[1..] == p[1..] + [' '] + q;
      WordsAround(p[1..], q);
    } else {
      var n := WordLength(p);
      WordLengthBefore(p, q);
      assert s[..n] == p[..n] && s[n..] == p[n..] + [' '] + q;
      WordsAround(p[n..], q);
    }
  }

  ghost predicate Spaces(x: string) {
    forall i :: 0 <= i < |x| ==> x[i] == ' '
  }

  /** Any run of spaces does what one does. */
  lemma WordsAroundRun(p: string, x: string, q: string)
    requires Spaces(x) && x != ""
    ensures Words(p + x + q) == Words(p) + Words(q)
  {
    hide Words;
    assert p + x + q == p + [' '] + (x[1..] + q);
    WordsAround(p, x[1..] + q);
    SpacesFirst(x[1..], q);
  }

  lemma {:induction false} SpacesFirst(x: string, q: string)
    requires Spaces(x)
    ensures Words(x + q) == Words(q)
  {
    if x == "" {
      assert x + q == q;
    } else {
      assert (x + q)[1..] == x[1..] + q;
      SpacesFirst(x[1..], q);
    }
  }

  lemma {:induction false} JoinConcat(v: seq<string>, w: seq<string>)
    requires v != [] && w != []
    ensures Join(v + w) == Join(v) + " " + Join(w)
  {
    if |v| == 1 {
      assert (v + w)[1..] == w;
    } else {
      assert (v + w)[1..] == v[1..] + w;
      JoinConcat(v[1..], w);
      assert v[0] + " " + (Join(v[1..]) + " " + Join(w)) == v[0] + " " + Join(v[1..]) + " " + Join(w);
    }
  }

  /** Every character that becomes a space. */
  ghost predicate Blank(x: string) {
    forall i :: 0 <= i < |x| ==> x[i] <= ' ' || x[i] == '\U{7F}' || x[i] == '^' || IsWideSpace(x[i])
  }

  lemma {:induction false} BlankIsSpaces(x: string, side: Side)
    requires Blank(x)
    ensures |CleanChars(x, side)| == |x| && Spaces(CleanChars(x, side))
  {
    hide CleanChar;
    if x != "" {
      CleanCharIs(x[0], side);
      BlankIsSpaces(x[1..], side);
    }
  }

  /**
   * Blanks before and after a text go, and a run of any blanks within it is one space: line breaks, tabs,
   * carets and wide spaces, in any number and mixture.
   */
  lemma BlanksCollapse(before: string, a: string, between: string, b: string, after: string, side: Side)
    requires Blank(before) && Blank(between) && between != "" && Blank(after) && Settled(a) && Settled(b)
    requires !Contains(before + a + between + b + after, OPEN)
    ensures Clean(before + a + between + b + after, side) == a + " " + b
  {
    hide Contains, Words, Join, CleanChars, Blank, Spaces, SingleSpaced, IsSafe;
    var x, y, z := CleanChars(before, side), CleanChars(between, side), CleanChars(after, side);
    CleanCharsConcat(before + a + between + b, after, side);
    CleanCharsConcat(before + a + between, b, side);
    CleanCharsConcat(before + a, between, side);
    CleanCharsConcat(before, a, side);
    BlankIsSpaces(before, side);
    BlankIsSpaces(between, side);
    BlankIsSpaces(after, side);
    CollapseAround(x, a, y, b, z);
  }

  lemma CollapseAround(x: string, a: string, y: string, b: string, z: string)
    requires Spaces(x) && Spaces(y) && y != "" && Spaces(z) && Settled(a) && Settled(b)
    ensures Join(Words(x + a + y + b + z)) == a + " " + b
  {
    hide Words, Join, Spaces, Settled;
    SettledIsCollapsed(a);
    SettledIsCollapsed(b);
    JoinCollapsed(a);
    JoinCollapsed(b);
    assert x + a + y + b + z == x + (a + y + (b + z));
    SpacesFirst(x, a + y + (b + z));
    WordsAroundRun(a, y, b + z);
    WordsBeforeSpaces(b, z);
    SomeWords(a);
    SomeWords(b);
    JoinConcat(Words(a), Words(b));
  }

  lemma WordsBeforeSpaces(b: string, z: string)
    requires Spaces(z)
    ensures Words(b + z) == Words(b)
  {
    if z == "" {
      assert b + z == b;
    } else {
      WordsAroundRun(b, z, "");
      assert b + z + "" == b + z;
    }
  }

  lemma SomeWords(t: string)
    requires Join(Words(t)) == t && t != ""
    ensures Words(t) != []
  {
  }

  // ------------------------------------------------------------------ what has no letter

  /** An outcome without a letter of Latin script is an empty reply. */
  lemma NoLetterIsEmptyReply(raw: string)
    requires forall i :: 0 <= i < |raw| ==> raw[i] <= '\U{7F}' && !('a' <= raw[i] <= 'z') && !('A' <= raw[i] <= 'Z')
    ensures SanitizeText(raw) == Err("empty_reply")
  {
    hide Words, Join, CleanChar, Contains;
    NoTag(raw);
    NoLettersMade(raw);
    var s := CleanChars(raw, Output);
    CollapseKeepsCharacters(s);
    var t := Clean(raw, Output);
    forall i | 0 <= i < |Cap(t)| ensures !IsLetter(Cap(t)[i]) {
      if i < |t| && Cap(t)[i] == t[i] {
        assert t[i] == ' ' || t[i] in s;
      }
    }
  }

  lemma NoTag(raw: string)
    requires forall i :: 0 <= i < |raw| ==> !('a' <= raw[i] <= 'z')
    ensures StripThink(raw) == raw
  {
    hide StripThink;
    assert OPEN[1] == 't';
    forall i: nat ensures !OccursAt(raw, i, OPEN) {
      if i + |OPEN| <= |raw| {
        assert raw[i..i + |OPEN|][1] == raw[i + 1];
      }
    }
  }

  lemma {:induction false} NoLettersMade(raw: string)
    requires forall i :: 0 <= i < |raw| ==> raw[i] <= '\U{7F}' && !('a' <= raw[i] <= 'z') && !('A' <= raw[i] <= 'Z')
    ensures forall c :: c in CleanChars(raw, Output) ==> !IsLetter(c)
  {
    if raw != "" {
      NoLettersMade(raw[1..]);
    }
  }

  // ------------------------------------------------------------------ letters of Latin script

  function LowerOf(t: string): string {
    if t == "" then "" else [if 'A' <= t[0] <= 'Z' then t[0] - 'A' + 'a' else t[0]] + LowerOf(t[1..])
  }

  /**
   * The capital letters among U+00C0 to U+017F whose small letters stand thirty-two places, or one place,
   * further on.
   */
  function SmallOf(c: char): (small: char)
    requires IsCapital(c)
  {
    if c <= '\U{DE}' then (c as int + 0x20) as char
    else if c == '\U{178}' then '\U{FF}'
    else (c as int + 1) as char
  }

  predicate IsCapital(c: char) {
    || ('\U{C0}' <= c <= '\U{DE}' && c != '\U{D7}')
    || ('\U{100}' <= c <= '\U{136}' && c as int % 2 == 0)
    || ('\U{139}' <= c <= '\U{147}' && c as int % 2 == 1)
    || ('\U{14A}' <= c <= '\U{176}' && c as int % 2 == 0)
    || c == '\U{178}'
    || ('\U{179}' <= c <= '\U{17D}' && c as int % 2 == 1)
  }

  /** Both are marked as not one letter, or the second is the first made small. */
  predicate IsCasePair(a: char, b: char) {
    (a == '*' && b == '*') || ('A' <= a <= 'Z' && b == a - 'A' + 'a')
  }

  lemma PairsInLatin1(row: nat, i: nat)
    requires row < 2 && i < 16 && IsCapital((0xC0 + 16 * row + i) as char)
    ensures IsCasePair(Latin1Row(row)[i], Latin1Row(row + 2)[i])
  {
  }

  lemma PairsInLowFirst(row: nat, i: nat)
    requires 0 <= row <= 1 && i < 15 && IsCapital((0x100 + 16 * row + i) as char)
    ensures IsCasePair(ExtendedRowLow(row)[i], ExtendedRowLow(row)[i + 1])
  {
  }

  lemma PairsInLowSecond(row: nat, i: nat)
    requires 2 <= row <= 3 && i < 15 && IsCapital((0x100 + 16 * row + i) as char)
    ensures IsCasePair(ExtendedRowLow(row)[i], ExtendedRowLow(row)[i + 1])
  {
  }

  lemma PairsInLow(row: nat, i: nat)
    requires row < 4 && i < 15 && IsCapital((0x100 + 16 * row + i) as char)
    ensures IsCasePair(ExtendedRowLow(row)[i], ExtendedRowLow(row)[i + 1])
  {
    hide ExtendedRowLow, IsCasePair, IsCapital;
    if row < 2 {
      PairsInLowFirst(row, i);
    } else {
      PairsInLowSecond(row, i);
    }
  }

  lemma PairsInHighFirst(row: nat, i: nat)
    requires 0 <= row <= 1 && i < 15 && IsCapital((0x140 + 16 * row + i) as char)
    ensures IsCasePair(ExtendedRowHigh(row)[i], ExtendedRowHigh(row)[i + 1])
  {
  }

  lemma PairsInHighSecond(row: nat, i: nat)
    requires 2 <= row <= 3 && i < 15 && IsCapital((0x140 + 16 * row + i) as char) && !(row == 3 && i == 8)
    ensures IsCasePair(ExtendedRowHigh(row)[i], ExtendedRowHigh(row)[i + 1])
  {
  }

  lemma PairsInHigh(row: nat, i: nat)
    requires row < 4 && i < 15 && IsCapital((0x140 + 16 * row + i) as char) && !(row == 3 && i == 8)
    ensures IsCasePair(ExtendedRowHigh(row)[i], ExtendedRowHigh(row)[i + 1])
  {
    hide ExtendedRowHigh, IsCasePair, IsCapital;
    if row < 2 {
      PairsInHighFirst(row, i);
    } else {
      PairsInHighSecond(row, i);
    }
  }

  lemma PairsAcross()
    ensures IsCasePair(ExtendedRowLow(3)[15], ExtendedRowHigh(0)[0])
    ensures IsCasePair(ExtendedRowHigh(3)[8], Latin1Row(3)[15])
  {
  }

  /** The table's entry. */
  function Entry(c: char): char
    requires '\U{C0}' <= c <= '\U{17F}'
  {
    LatinRow((c as int - 0xC0) / 16)[(c as int - 0xC0) % 16]
  }

  lemma EntryIs(row: nat, i: nat)
    requires row < 12 && i < 16
    ensures Entry((0xC0 + 16 * row + i) as char) == LatinRow(row)[i]
  {
    hide LatinRow;
    RowAndColumn(row, i);
  }

  lemma RowAndColumn(row: nat, i: nat)
    requires i < 16
    ensures (16 * row + i) / 16 == row && (16 * row + i) % 16 == i
  {
  }

  lemma PairAt(c: char, row: nat, i: nat)
    requires IsCapital(c) && i < 16 && c as int == 0xC0 + 16 * row + i && row < 12
    ensures '\U{C0}' <= SmallOf(c) <= '\U{17F}' && IsCasePair(Entry(c), Entry(SmallOf(c)))
  {
    hide Latin1Row, ExtendedRowLow, ExtendedRowHigh, IsCasePair, Entry;
    EntryIs(row, i);
    if row < 2 {
      PairsInLatin1(row, i);
      EntryIs(row + 2, i);
    } else if c == '\U{13F}' {
      PairsAcross();
      EntryIs(8, 0);
    } else if c == '\U{178}' {
      PairsAcross();
      EntryIs(3, 15);
    } else {
      EntryIs(row, i + 1);
      if row < 8 {
        PairsInLow(row - 4, i);
      } else {
        PairsInHigh(row - 8, i);
      }
    }
  }

  lemma EntriesPair(c: char)
    requires IsCapital(c)
    ensures '\U{C0}' <= SmallOf(c) <= '\U{17F}' && IsCasePair(Entry(c), Entry(SmallOf(c)))
  {
    hide IsCasePair, Entry, SmallOf;
    var n := c as int - 0xC0;
    PairAt(c, n / 16, n % 16);
  }

  lemma OneLetter(a: char)
    ensures LowerOf([a]) == [if 'A' <= a <= 'Z' then a - 'A' + 'a' else a]
  {
    assert [a][1..] == "" && LowerOf([a][1..]) == "";
  }

  lemma TwoLetters(t: string)
    requires |t| == 2
    ensures LowerOf(t) == LowerOf([t[0]]) + LowerOf([t[1]])
  {
    OneLetter(t[0]);
    assert t[1..] == [t[1]];
  }

  predicate IsLongCapital(c: char) {
    c == '\U{C6}' || c == '\U{DE}' || c == '\U{132}' || c == '\U{152}'
  }

  lemma LongPair(c: char)
    requires IsLongCapital(c)
    ensures IsCapital(c) && |Latin(c)| == 2 && 'A' <= Latin(c)[0] <= 'Z'
    ensures Latin(SmallOf(c)) == LowerOf([Latin(c)[0]]) + LowerOf([Latin(c)[1]])
  {
    hide LatinRow, LowerOf;
    LongEntries(c);
    LongEntries(SmallOf(c));
    OneLetter(Latin(c)[0]);
    OneLetter(Latin(c)[1]);
  }

  lemma LongEntries(c: char)
    requires IsLongCapital(c) || c == '\U{E6}' || c == '\U{FE}' || c == '\U{133}' || c == '\U{153}'
    ensures Entry(c) == '*'
  {
  }

  lemma ShortPair(c: char)
    requires IsCapital(c) && !IsLongCapital(c)
    ensures |Latin(c)| == 1 && 'A' <= Latin(c)[0] <= 'Z'
    ensures Latin(SmallOf(c)) == LowerOf(Latin(c))
  {
    hide Latin, LatinRow, Transliterate, LowerOf, Entry, SmallOf;
    EntriesPair(c);
    LatinIs(c);
    LatinIs(SmallOf(c));
    OneLetter(Entry(c));
  }

  /** A capital letter becomes capital, its small letter becomes the same letters, small. */
  lemma CasesAgree(c: char)
    requires IsCapital(c)
    ensures var capital, small := Transliterate(c), Transliterate(SmallOf(c));
      && capital.Some? && small.Some? && 'A' <= capital.value[0] <= 'Z' && small.value == LowerOf(capital.value)
  {
    hide Latin, LatinRow, Transliterate, LowerOf, Entry;
    LatinIs(c);
    LatinIs(SmallOf(c));
    if IsLongCapital(c) {
      LongPair(c);
      TwoLetters(Latin(c));
    } else {
      ShortPair(c);
    }
  }

  lemma LatinIs(c: char)
    requires '\U{C0}' <= c <= '\U{17F}'
    ensures Transliterate(c) == if Latin(c) == "" then None else Some(Latin(c))
    ensures Entry(c) != '*' ==> Latin(c) == [Entry(c)]
    ensures Entry(c) == '*' ==> IsLong(c as int - 0xC0) || IsUnlettered(c as int - 0xC0)
  {
    hide LatinRow;
  }

  /** The letters that the capital letters stand for, in ranges. */
  function BaseOf(c: char): string
    requires IsCapital(c)
  {
    if c <= '\U{C5}' then "A" else if c == '\U{C6}' then "AE" else if c == '\U{C7}' then "C"
    else if c <= '\U{CB}' then "E" else if c <= '\U{CF}' then "I" else if c == '\U{D0}' then "D"
    else if c == '\U{D1}' then "N" else if c <= '\U{D8}' then "O" else if c <= '\U{DC}' then "U"
    else if c == '\U{DD}' then "Y" else if c == '\U{DE}' then "Th"
    else if c <= '\U{104}' then "A" else if c <= '\U{10C}' then "C" else if c <= '\U{110}' then "D"
    else if c <= '\U{11A}' then "E" else if c <= '\U{122}' then "G" else if c <= '\U{126}' then "H"
    else if c <= '\U{130}' then "I" else if c == '\U{132}' then "IJ" else if c == '\U{134}' then "J"
    else if c == '\U{136}' then "K" else if c <= '\U{141}' then "L" else if c <= '\U{14A}' then "N"
    else if c <= '\U{150}' then "O" else if c == '\U{152}' then "OE" else if c <= '\U{158}' then "R"
    else if c <= '\U{160}' then "S" else if c <= '\U{166}' then "T" else if c <= '\U{172}' then "U"
    else if c == '\U{174}' then "W" else if c <= '\U{178}' then "Y" else "Z"
  }

  lemma BasesInLatin1(row: nat, i: nat)
    requires row < 2 && i < 16 && IsCapital((0xC0 + 16 * row + i) as char)
    ensures Latin1Row(row)[i] == '*' || [Latin1Row(row)[i]] == BaseOf((0xC0 + 16 * row + i) as char)
  {
  }

  lemma BasesInLowFirst(row: nat, i: nat)
    requires 0 <= row <= 1 && i < 16 && IsCapital((0x100 + 16 * row + i) as char)
    ensures ExtendedRowLow(row)[i] == '*' || [ExtendedRowLow(row)[i]] == BaseOf((0x100 + 16 * row + i) as char)
  {
  }

  lemma BasesInLowSecond(row: nat, i: nat)
    requires 2 <= row <= 3 && i < 16 && IsCapital((0x100 + 16 * row + i) as char)
    ensures ExtendedRowLow(row)[i] == '*' || [ExtendedRowLow(row)[i]] == BaseOf((0x100 + 16 * row + i) as char)
  {
  }

  lemma BasesInLow(row: nat, i: nat)
    requires row < 4 && i < 16 && IsCapital((0x100 + 16 * row + i) as char)
    ensures ExtendedRowLow(row)[i] == '*' || [ExtendedRowLow(row)[i]] == BaseOf((0x100 + 16 * row + i) as char)
  {
    hide ExtendedRowLow, BaseOf, IsCapital;
    if row < 2 {
      BasesInLowFirst(row, i);
    } else {
      BasesInLowSecond(row, i);
    }
  }

  lemma BasesInHighFirst(row: nat, i: nat)
    requires 0 <= row <= 1 && i < 16 && IsCapital((0x140 + 16 * row + i) as char)
    ensures ExtendedRowHigh(row)[i] == '*' || [ExtendedRowHigh(row)[i]] == BaseOf((0x140 + 16 * row + i) as char)
  {
  }

  lemma BasesInHighSecond(row: nat, i: nat)
    requires 2 <= row <= 3 && i < 16 && IsCapital((0x140 + 16 * row + i) as char)
    ensures ExtendedRowHigh(row)[i] == '*' || [ExtendedRowHigh(row)[i]] == BaseOf((0x140 + 16 * row + i) as char)
  {
  }

  lemma BasesInHigh(row: nat, i: nat)
    requires row < 4 && i < 16 && IsCapital((0x140 + 16 * row + i) as char)
    ensures ExtendedRowHigh(row)[i] == '*' || [ExtendedRowHigh(row)[i]] == BaseOf((0x140 + 16 * row + i) as char)
  {
    hide ExtendedRowHigh, BaseOf, IsCapital;
    if row < 2 {
      BasesInHighFirst(row, i);
    } else {
      BasesInHighSecond(row, i);
    }
  }

  lemma BaseAt(c: char, row: nat, i: nat)
    requires IsCapital(c) && i < 16 && row < 12 && c as int == 0xC0 + 16 * row + i
    ensures Entry(c) == '*' || [Entry(c)] == BaseOf(c)
  {
    hide Latin1Row, ExtendedRowLow, ExtendedRowHigh, Entry, BaseOf;
    EntryIs(row, i);
    if row < 2 {
      BasesInLatin1(row, i);
    } else if row < 4 {
      assert false;
    } else if row < 8 {
      BasesInLow(row - 4, i);
    } else {
      BasesInHigh(row - 8, i);
    }
  }

  /** Each capital letter becomes its base letter or letters. */
  lemma CapitalsStandFor(c: char)
    requires IsCapital(c)
    ensures Transliterate(c) == Some(BaseOf(c))
  {
    hide LatinRow, Entry, Transliterate, Latin, BaseOf;
    LatinIs(c);
    if IsLongCapital(c) {
      LongIs(c);
    } else {
      ShortIs(c);
    }
    BaseIsSome(c);
  }

  lemma BaseIsSome(c: char)
    requires IsCapital(c)
    ensures BaseOf(c) != ""
  {
  }

  lemma LongIs(c: char)
    requires IsLongCapital(c)
    ensures IsCapital(c) && Latin(c) == BaseOf(c)
  {
    hide LatinRow;
    LongEntries(c);
  }

  lemma ShortIs(c: char)
    requires IsCapital(c) && !IsLongCapital(c)
    ensures Latin(c) == BaseOf(c)
  {
    hide LatinRow, Latin, Entry, BaseOf;
    var n := c as int - 0xC0;
    BaseAt(c, n / 16, n % 16);
    LatinIs(c);
  }

  /** And so do the small letters that no capital of these stands beside. */
  lemma LoneSmallLetters()
    ensures Transliterate('\U{DF}') == Some("ss") && Transliterate('\U{138}') == Some("k")
    ensures Transliterate('\U{149}') == Some("n") && Transliterate('\U{17F}') == Some("s")
  {
    hide Transliterate;
    LatinIs('\U{DF}');
    LatinIs('\U{138}');
    LatinIs('\U{149}');
    LatinIs('\U{17F}');
    LoneEntries();
  }

  lemma LoneEntries()
    ensures Entry('\U{DF}') == '*' && Entry('\U{138}') == 'k' && Entry('\U{149}') == 'n' && Entry('\U{17F}') == 's'
  {
  }

  // ------------------------------------------------------------------ think blocks

  /** A think block in a text goes with its tags, and an unclosed one takes the rest of the text with it. */
  lemma ThinkBlocksGo(a: string, thought: string, b: string)
    requires WellCut(Piece(a, thought))
    ensures StripThink(a + "<think>" + (thought + "</think>" + b)) == a + StripThink(b)
    ensures !Contains(thought, CLOSE) ==> StripThink(a + "<think>" + thought) == a
  {
    StripOnePiece(Piece(a, thought), b);
    if !Contains(thought, CLOSE) {
      StripThinkOfRendered([], Unclosed(a, thought));
    }
  }
}
