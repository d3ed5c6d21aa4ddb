/** The string operations of Rust's `str` that the parsers use, and what they do to
    rendered text. */
module Text {
  import opened Base

  /** The Unicode `White_Space` property, as `char::is_whitespace` tests it. */
  predicate IsWhite(c: char) {
    || '\U{9}' <= c <= '\U{D}' || c == ' ' || c == '\U{85}' || c == '\U{A0}' || c == '\U{1680}'
    || '\U{2000}' <= c <= '\U{200A}' || c == '\U{2028}' || c == '\U{2029}' || c == '\U{202F}'
    || c == '\U{205F}' || c == '\U{3000}'
  }

  /** The code points of the property: tab to carriage return, space, and the wider blanks. */
  lemma WhiteSpaceIs(c: char)
    ensures IsWhite(c) <==>
            || 9 <= c as int <= 13 || c as int in {32, 133, 160, 5760, 8232, 8233, 8239, 8287, 12288}
            || 8192 <= c as int <= 8202
  {
  }

  predicate AllWhite(s: string) {
    forall c | c in s :: IsWhite(c)
  }

  /** A non-empty run of characters none of which is white space. */
  predicate IsWord(s: string) {
    s != "" && forall c | c in s :: !IsWhite(c)
  }

  /** No line feed inside: the text of one line. */
  predicate OneLine(s: string) {
    '\n' !in s
  }

  // --- split_whitespace ---

  /** Length of the longest prefix without white space. */
  function WordLength(s: string): (n: nat)
    ensures n <= |s|
    ensures forall i | 0 <= i < n :: !IsWhite(s[i])
    ensures n < |s| ==> IsWhite(s[n])
  {
    if s == "" || IsWhite(s[0]) then 0 else 1 + WordLength(s[1..])
  }

  /** `split_whitespace`. */
  function Words(s: string): (ws: seq<string>)
    ensures forall w | w in ws :: IsWord(w)
    decreases |s|
  {
    if s == "" then []
    else if IsWhite(s[0]) then Words(s[1..])
    else
      var n := WordLength(s);
      [s[..n]] + Words(s[n..])
  }

  lemma {:induction false} WordsSkipWhite(pad: string, rest: string)
    requires AllWhite(pad)
    ensures Words(pad + rest) == Words(rest)
  {
    if pad == "" {
      assert pad + rest == rest;
    } else {
      assert (pad + rest)[1..] == pad[1..] + rest;
      WordsSkipWhite(pad[1..], rest);
    }
  }

  lemma {:induction false} WordLengthIs(w: string, rest: string)
    requires forall c | c in w :: !IsWhite(c)
    requires rest == "" || IsWhite(rest[0])
    ensures WordLength(w + rest) == |w|
  {
    if w == "" {
      assert w + rest == rest;
    } else {
      assert (w + rest)[1..] == w[1..] + rest;
      WordLengthIs(w[1..], rest);
    }
  }

  lemma WordsFirst(w: string, rest: string)
    requires IsWord(w)
    requires rest == "" || IsWhite(rest[0])
    ensures Words(w + rest) == [w] + Words(rest)
  {
    WordLengthIs(w, rest);
    assert (w + rest)[0] == w[0] && w[0] in w;
    assert (w + rest)[..|w|] == w && (w + rest)[|w|..] == rest;
  }

  /** One line of a table: `words` with `pads[i]` after word `i`. */
  function Spread(words: seq<string>, pads: seq<string>): string
    requires |pads| == |words|
  {
    if words == [] then "" else words[0] + pads[0] + Spread(words[1..], pads[1..])
  }

  /** No character that ends a line. */
  predicate Unbroken(s: string) {
    '\n' !in s && '\r' !in s
  }

  /** White space that does not break the line. */
  predicate IsBlank(s: string) {
    AllWhite(s) && Unbroken(s)
  }

  /** Padding that separates: blank, and never empty between two words. */
  ghost predicate IsPadding(pads: seq<string>) {
    && (forall i | 0 <= i < |pads| :: IsBlank(pads[i]))
    && (forall i | 0 <= i < |pads| - 1 :: pads[i] != "")
  }

  /** Splitting on white space undoes any padding. */
  lemma {:induction false} WordsOfSpread(lead: string, words: seq<string>, pads: seq<string>)
    requires |pads| == |words| && IsPadding(pads) && AllWhite(lead)
    requires forall w | w in words :: IsWord(w)
    ensures Words(lead + Spread(words, pads)) == words
    decreases words
  {
    WordsSkipWhite(lead, Spread(words, pads));
    if words != [] {
      var rest := Spread(words[1..], pads[1..]);
      assert words[0] + pads[0] + rest == words[0] + (pads[0] + rest);
      assert pads[0] == "" ==> |words| == 1 && rest == "";
      assert pads[0] != "" ==> pads[0][0] in pads[0];
      WordsFirst(words[0], pads[0] + rest);
      WordsOfSpread(pads[0], words[1..], pads[1..]);
    }
  }

  lemma {:induction false} SpreadIsLine(lead: string, words: seq<string>, pads: seq<string>)
    requires |pads| == |words| && IsPadding(pads) && Unbroken(lead)
    requires forall w | w in words :: IsWord(w)
    ensures IsLine(lead + Spread(words, pads))
    decreases words
  {
    if words != [] {
      var line := lead + words[0] + pads[0];
      assert IsWord(words[0]);
      assert forall c | c in line :: c in lead || c in words[0] || c in pads[0];
      SpreadIsLine(line, words[1..], pads[1..]);
      assert line + Spread(words[1..], pads[1..]) == lead + Spread(words, pads);
    }
  }

  // --- lines ---

  /** Index of the first line feed, or the length if there is none. */
  function LineLength(s: string): (n: nat)
    ensures n <= |s| && OneLine(s[..n])
    ensures n < |s| ==> s[n] == '\n'
  {
    if s == "" || s[0] == '\n' then 0 else 1 + LineLength(s[1..])
  }

  function StripCr(s: string): (r: string) {
    if s != "" && s[|s| - 1] == '\r' then s[..|s| - 1] else s
  }

  /** `lines`: split at line feeds, drop one carriage return before each; a final line feed
      starts no further line. */
  function Lines(s: string): (ls: seq<string>)
    ensures forall l | l in ls :: OneLine(l)
    decreases |s|
  {
    if s == "" then []
    else
      var n := LineLength(s);
      if n == |s| then [s] else [StripCr(s[..n])] + Lines(s[n + 1..])
  }

  datatype LineEnd = Lf | CrLf

  function EndText(e: LineEnd): string {
    match e case Lf => "\n" case CrLf => "\r\n"
  }

  /** Text made of `lines`, each closed by its own line ending. */
  function Printed(lines: seq<string>, ends: seq<LineEnd>): string
    requires |lines| == |ends|
  {
    if lines == [] then "" else lines[0] + EndText(ends[0]) + Printed(lines[1..], ends[1..])
  }

  /** A line that survives printing: one line, no trailing carriage return. */
  predicate IsLine(s: string) {
    OneLine(s) && StripCr(s) == s
  }

  lemma {:induction false} LineLengthIs(line: string, rest: string)
    requires OneLine(line)
    ensures LineLength(line + "\n" + rest) == |line|
  {
    if line != "" {
      assert (line + "\n" + rest)[1..] == line[1..] + "\n" + rest;
      LineLengthIs(line[1..], rest);
    }
  }

  lemma {:induction false} LineLengthAll(line: string)
    requires OneLine(line)
    ensures LineLength(line) == |line|
  {
    if line != "" {
      LineLengthAll(line[1..]);
    }
  }

  lemma LinesFirst(line: string, e: LineEnd, rest: string)
    requires IsLine(line)
    ensures Lines(line + EndText(e) + rest) == [line] + Lines(rest)
  {
    var shown := if e.Lf? then line else line + "\r";
    var s := shown + "\n" + rest;
    assert line + EndText(e) + rest == s;
    LineLengthIs(shown, rest);
    assert s[..|shown|] == shown && s[|shown| + 1..] == rest;
    if e.CrLf? {
      assert shown[..|shown| - 1] == line;
    }
  }

  lemma OpenLine(line: string)
    requires OneLine(line)
    ensures Lines(line) == if line == "" then [] else [line]
  {
    LineLengthAll(line);
  }

  /** Splitting into lines undoes printing, whatever the line endings, also when the last
      line is left open. */
  lemma {:induction false} LinesOfPrinted(lines: seq<string>, ends: seq<LineEnd>, open: string)
    requires |lines| == |ends|
    requires forall l | l in lines :: IsLine(l)
    requires OneLine(open)
    ensures Lines(Printed(lines, ends) + open) == lines + if open == "" then [] else [open]
  {
    hide Lines;
    hide EndText;
    if lines == [] {
      assert Printed(lines, ends) + open == open;
      OpenLine(open);
    } else {
      var rest := Printed(lines[1..], ends[1..]) + open;
      assert Printed(lines, ends) + open == lines[0] + EndText(ends[0]) + rest;
      LinesFirst(lines[0], ends[0], rest);
      LinesOfPrinted(lines[1..], ends[1..], open);
    }
  }

  /** One carriage return is dropped before each line feed, no more, and none from a last line that is
      left open. */
  lemma {:induction false} LinesFirstRaw(raw: string, rest: string)
    requires OneLine(raw)
    ensures Lines(raw + "\n" + rest) ==
            [if raw != "" && Last(raw) == '\r' then raw[..|raw| - 1] else raw] + Lines(rest)
  {
    var s := raw + "\n" + rest;
    LineLengthIs(raw, rest);
    assert s[..|raw|] == raw && s[|raw| + 1..] == rest;
  }

  // --- trim, join, contains, case ---

  function TrimStart(s: string): (r: string)
    ensures r != "" ==> !IsWhite(r[0])
    ensures |r| <= |s| && r == s[|s| - |r|..]
    ensures s != "" && !IsWhite(s[0]) ==> r == s
  {
    if s != "" && IsWhite(s[0]) then TrimStart(s[1..]) else s
  }

  function TrimEnd(s: string): (r: string)
    ensures r != "" ==> !IsWhite(r[|r| - 1])
    ensures r <= s
    ensures s != "" && !IsWhite(s[|s| - 1]) ==> r == s
  {
    if s != "" && IsWhite(s[|s| - 1]) then TrimEnd(s[..|s| - 1]) else s
  }

  /** `trim`. */
  function Trim(s: string): (r: string)
    ensures |r| <= |s| && forall c | c in r :: c in s
    ensures IsTrimmed(r)
    ensures IsTrimmed(s) ==> r == s
  {
    TrimEnd(TrimStart(s))
  }

  /** No white space at either end. */
  predicate IsTrimmed(s: string) {
    s != "" ==> !IsWhite(s[0]) && !IsWhite(s[|s| - 1])
  }

  lemma {:induction false} TrimStartExactly(lead: string, s: string)
    requires AllWhite(lead) && (s != "" ==> !IsWhite(s[0]))
    ensures TrimStart(lead + s) == s
  {
    if lead == "" {
      assert lead + s == s;
    } else {
      assert (lead + s)[1..] == lead[1..] + s;
      TrimStartExactly(lead[1..], s);
    }
  }

  lemma {:induction false} TrimEndExactly(s: string, trail: string)
    requires AllWhite(trail) && (s != "" ==> !IsWhite(Last(s)))
    ensures TrimEnd(s + trail) == s
  {
    if trail == "" {
      assert s + trail == s;
    } else {
      assert (s + trail)[..|s + trail| - 1] == s + trail[..|trail| - 1];
      TrimEndExactly(s, trail[..|trail| - 1]);
    }
  }

  /** Trimming takes the white space from both ends and nothing else. */
  lemma TrimExactly(lead: string, core: string, trail: string)
    requires AllWhite(lead) && AllWhite(trail) && IsTrimmed(core)
    ensures Trim(lead + core + trail) == core
  {
    if core == "" {
      assert lead + core + trail == lead + trail;
      assert AllWhite(lead + trail) && (lead + trail) + "" == lead + trail;
      TrimStartExactly(lead + trail, "");
    } else {
      assert lead + core + trail == lead + (core + trail);
      TrimStartExactly(lead, core + trail);
      TrimEndExactly(core, trail);
    }
  }

  /** `trim_start_matches('*')`. */
  function TrimStars(s: string): (r: string)
    ensures |r| <= |s| && forall c | c in r :: c in s
    ensures s != "" && s[0] == '*' ==> |r| < |s|
    ensures s != "" && s[0] != '*' ==> r == s
  {
    if s != "" && s[0] == '*' then TrimStars(s[1..]) else s
  }

  lemma {:induction false} TrimStarsExactly(stars: string, rest: string)
    requires (forall c | c in stars :: c == '*') && (rest != "" ==> rest[0] != '*')
    ensures TrimStars(stars + rest) == rest
  {
    if stars == "" {
      assert stars + rest == rest;
    } else {
      assert stars[0] in stars;
      assert (stars + rest)[1..] == stars[1..] + rest;
      assert forall c | c in stars[1..] :: c in stars;
      TrimStarsExactly(stars[1..], rest);
    }
  }

  /** `join(" ")`. */
  function JoinSpaced(words: seq<string>): string {
    if words == [] then ""
    else if |words| == 1 then words[0]
    else words[0] + " " + JoinSpaced(words[1..])
  }

  /** Between two words goes one space, and nothing around them. */
  lemma {:induction false} JoinSpacedExactly(words: seq<string>)
    ensures JoinSpaced(words) == Spread(words, seq(|words|, i => if i < |words| - 1 then " " else ""))
  {
    var pads := seq(|words|, i => if i < |words| - 1 then " " else "");
    if |words| > 1 {
      JoinSpacedExactly(words[1..]);
      assert pads[1..] == seq(|words[1..]|, i => if i < |words[1..]| - 1 then " " else "");
    } else if |words| == 1 {
      assert words[0] + "" + "" == words[0];
    }
  }

  /** Joining with single spaces is undone by splitting; so what it gives is normalised already. */
  lemma {:induction false} WordsOfJoined(words: seq<string>)
    requires forall w | w in words :: IsWord(w)
    ensures Words(JoinSpaced(words)) == words
  {
    if |words| == 1 {
      assert words[0] + "" == words[0];
      WordsFirst(words[0], "");
    } else if words != [] {
      var rest := JoinSpaced(words[1..]);
      assert words[0] + " " + rest == words[0] + (" " + rest);
      WordsFirst(words[0], " " + rest);
      WordsSkipWhite(" ", rest);
      WordsOfJoined(words[1..]);
    }
  }

  /** The words of the text are separated by single spaces, with nothing around them. */
  predicate IsSpaced(s: string) {
    JoinSpaced(Words(s)) == s
  }

  /** `contains`. */
  predicate Contains(s: string, part: string) {
    part <= s || (s != "" && Contains(s[1..], part))
  }

  lemma {:induction false} ContainsExactly(s: string, part: string)
    ensures Contains(s, part) <==> exists before, after :: s == before + part + after
  {
    if part <= s {
      assert s == "" + part + s[|part|..];
    } else if s != "" {
      ContainsExactly(s[1..], part);
      if Contains(s[1..], part) {
        var before, after :| s[1..] == before + part + after;
        assert s == [s[0]] + s[1..] == ([s[0]] + before) + part + after;
      }
    }
    if before, after :| s == before + part + after {
      ContainsIn(before, part, after);
    }
  }

  lemma {:induction false} ContainsNeedsChars(s: string, part: string, c: char)
    requires c in part && c !in s
    ensures !Contains(s, part)
  {
    if s != "" {
      ContainsNeedsChars(s[1..], part, c);
    }
  }

  lemma {:induction false} ContainsIn(before: string, part: string, after: string)
    ensures Contains(before + part + after, part)
  {
    if before == "" {
      assert before + part + after == part + after;
    } else {
      assert (before + part + after)[1..] == before[1..] + part + after;
      ContainsIn(before[1..], part, after);
    }
  }

  function Lower(c: char): char {
    if 'A' <= c <= 'Z' then c - 'A' + 'a' else c
  }

  /** `eq_ignore_ascii_case`. */
  predicate EqIgnoreCase(a: string, b: string) {
    |a| == |b| && forall i | 0 <= i < |a| :: Lower(a[i]) == Lower(b[i])
  }

  /** Equality up to ASCII case, where the second text is in lower-case letters: each character is the letter
      at its place or that letter's capital. */
  lemma EqIgnoreCaseExactly(a: string, b: string)
    requires forall c | c in b :: 'a' <= c <= 'z'
    ensures EqIgnoreCase(a, b) <==>
            |a| == |b| && forall i | 0 <= i < |a| :: a[i] == b[i] || a[i] as int == b[i] as int - 32
  {
    forall i | 0 <= i < |a| && |a| == |b|
      ensures Lower(a[i]) == Lower(b[i]) <==> a[i] == b[i] || a[i] as int == b[i] as int - 32
    {
      assert b[i] in b;
    }
  }

  /** The number that decimal digits stand for. */
  function DecimalValue(s: string): int {
    if s == "" then 0 else 10 * DecimalValue(s[..|s| - 1]) + (Last(s) as int - '0' as int)
  }

  /** Digits only, standing for the number, and none too many in front. */
  lemma {:induction false} DecimalExactly(n: nat)
    ensures DecimalValue(Decimal(n)) == n
    ensures forall c | c in Decimal(n) :: '0' <= c <= '9'
    ensures n > 0 ==> Decimal(n)[0] != '0'
    ensures n == 0 ==> Decimal(n) == "0"
  {
    var digit := ("0123456789")[n % 10];
    assert digit as int == '0' as int + n % 10;
    if n < 10 {
      assert DecimalValue([][..0]) == 0 && [digit][..0] == [];
    } else {
      DecimalExactly(n / 10);
      assert Decimal(n)[..|Decimal(n)| - 1] == Decimal(n / 10);
    }
  }

  /** A natural number in decimal. */
  function Decimal(n: nat): (s: string)
    ensures s != ""
  {
    var digit := ("0123456789")[n % 10];
    if n < 10 then [digit] else Decimal(n / 10) + [digit]
  }
}
