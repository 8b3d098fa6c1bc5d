/** Text operations of the Rust and Python standard libraries that the program relies on. */
module Text {
  import opened Wrappers

  // The Unicode White_Space property, which Rust's `trim` uses.
  predicate IsWhitespace(c: char) {
    '\U{0009}' <= c <= '\U{000D}' || c == ' ' || c == '\U{0085}' || c == '\U{00A0}' || c == '\U{1680}'
    || '\U{2000}' <= c <= '\U{200A}' || c == '\U{2028}' || c == '\U{2029}' || c == '\U{202F}'
    || c == '\U{205F}' || c == '\U{3000}'
  }

  // Python's `str.strip` also removes the four information separators.
  predicate IsPythonSpace(c: char) {
    IsWhitespace(c) || '\U{001C}' <= c <= '\U{001F}'
  }

  function TrimStart(space: char -> bool, text: string): string {
    if text != [] && space(text[0]) then TrimStart(space, text[1..]) else text
  }

  function TrimEnd(space: char -> bool, text: string): string {
    if text != [] && space(text[|text| - 1]) then TrimEnd(space, text[..|text| - 1]) else text
  }

  function Trim(space: char -> bool, text: string): string {
    TrimEnd(space, TrimStart(space, text))
  }

  lemma {:induction false} TrimStartStops(space: char -> bool, text: string)
    ensures TrimStart(space, text) != [] ==> !space(TrimStart(space, text)[0])
  {
    if text != [] && space(text[0]) {
      TrimStartStops(space, text[1..]);
    }
  }

  predicate AllSpace(space: char -> bool, text: string) {
    forall i :: 0 <= i < |text| ==> space(text[i])
  }

  // `trim().is_empty()`; see TrimOfBlank.
  predicate IsBlank(text: string) {
    AllSpace(IsWhitespace, text)
  }

  // Text that trimming leaves alone.
  predicate Tight(space: char -> bool, text: string) {
    text != [] ==> !space(text[0]) && !space(text[|text| - 1])
  }

  lemma {:induction false} TrimStartPadding(space: char -> bool, pad: string, text: string)
    requires AllSpace(space, pad)
    ensures TrimStart(space, pad + text) == TrimStart(space, text)
  {
    if pad == [] {
      assert pad + text == text;
    } else {
      assert (pad + text)[1..] == pad[1..] + text;
      TrimStartPadding(space, pad[1..], text);
    }
  }

  lemma {:induction false} TrimEndPadding(space: char -> bool, text: string, pad: string)
    requires AllSpace(space, pad)
    ensures TrimEnd(space, text + pad) == TrimEnd(space, text)
  {
    if pad == [] {
      assert text + pad == text;
    } else {
      var shorter := pad[..|pad| - 1];
      assert (text + pad)[..|text + pad| - 1] == text + shorter;
      TrimEndPadding(space, text, shorter);
    }
  }

  // Trimming removes exactly the surrounding padding of text that is tight.
  lemma {:induction false} TrimPadded(space: char -> bool, before: string, text: string, after: string)
    requires AllSpace(space, before) && AllSpace(space, after) && Tight(space, text) && text != []
    ensures Trim(space, before + text + after) == text
  {
    assert before + text + after == before + (text + after);
    TrimStartPadding(space, before, text + after);
    assert TrimStart(space, text + after) == text + after;
    TrimEndPadding(space, text, after);
  }

  lemma {:induction false} TrimEndTight(space: char -> bool, text: string)
    ensures TrimEnd(space, text) <= text
    ensures TrimEnd(space, text) != [] ==> !space(TrimEnd(space, text)[|TrimEnd(space, text)| - 1])
  {
    if text != [] && space(text[|text| - 1]) {
      TrimEndTight(space, text[..|text| - 1]);
    }
  }

  // Trimmed text has no whitespace at either end.
  lemma {:induction false} TrimIsTight(space: char -> bool, text: string)
    ensures Tight(space, Trim(space, text))
  {
    TrimStartStops(space, text);
    TrimEndTight(space, TrimStart(space, text));
  }

  lemma {:induction false} TrimStartAllSpace(space: char -> bool, text: string)
    requires TrimStart(space, text) == []
    ensures AllSpace(space, text)
  {
    if text != [] {
      TrimStartAllSpace(space, text[1..]);
      forall i | 0 <= i < |text|
        ensures space(text[i])
      {
        if i > 0 { assert text[1..][i - 1] == text[i]; }
      }
    }
  }

  lemma {:induction false} TrimOfBlank(text: string)
    ensures Trim(IsWhitespace, text) == "" <==> IsBlank(text)
  {
    if IsBlank(text) {
      TrimStartPadding(IsWhitespace, text, "");
      assert text + "" == text;
    } else {
      var k :| 0 <= k < |text| && !IsWhitespace(text[k]);
      if TrimStart(IsWhitespace, text) == "" {
        TrimStartAllSpace(IsWhitespace, text);
      } else {
        TrimStartStops(IsWhitespace, text);
        TrimEndKeeps(TrimStart(IsWhitespace, text));
      }
    }
  }

  lemma {:induction false} TrimEndKeeps(text: string)
    requires text != [] && !IsWhitespace(text[0])
    ensures TrimEnd(IsWhitespace, text) != []
  {
    if IsWhitespace(text[|text| - 1]) {
      TrimEndKeeps(text[..|text| - 1]);
    }
  }

  // Index of the first occurrence of a character.
  function Find(c: char, text: string): (r: Option<nat>)
    ensures r.None? ==> c !in text
    ensures r.Some? ==> r.value < |text| && text[r.value] == c && c !in text[..r.value]
  {
    if text == [] then None
    else if text[0] == c then Some(0)
    else match Find(c, text[1..])
      case None => None
      case Some(k) =>
        assert text[..k + 1] == [text[0]] + text[1..][..k];
        Some(k + 1)
  }

  lemma {:induction false} FindAt(c: char, before: string, after: string)
    requires c !in before
    ensures Find(c, before + [c] + after) == Some(|before|)
  {
    if before == [] {
      assert (before + [c] + after)[0] == c;
    } else {
      assert (before + [c] + after)[1..] == before[1..] + [c] + after;
      FindAt(c, before[1..], after);
    }
  }

  // A newline terminates a line together with a carriage return before it; a
  // carriage return elsewhere is ordinary text (Rust's `str::lines`).
  function StripCarriageReturn(line: string): string {
    if line != [] && line[|line| - 1] == '\r' then line[..|line| - 1] else line
  }

  function Lines(text: string): (lines: seq<string>)
    decreases |text|
  {
    if text == [] then []
    else match Find('\n', text)
      case None => [text]
      case Some(k) => [StripCarriageReturn(text[..k])] + Lines(text[k + 1..])
  }

  function Unlines(lines: seq<string>): string {
    if lines == [] then [] else lines[0] + "\n" + Unlines(lines[1..])
  }

  predicate IsLine(line: string) {
    '\n' !in line && (line != [] ==> line[|line| - 1] != '\r')
  }

  // A text up to its first newline is one line, without the carriage return that
  // ends it; what follows is read on its own.
  lemma {:induction false} LinesSplit(line: string, rest: string)
    requires '\n' !in line
    ensures Lines(line + "\n" + rest) == [StripCarriageReturn(line)] + Lines(rest)
    ensures Lines(line) == if line == "" then [] else [line]
  {
    var text := line + ['\n'] + rest;
    FindAt('\n', line, rest);
    assert text[..|line|] == line && text[|line| + 1..] == rest;
  }

  // Lines that end in a carriage return and a newline.
  function CrlfUnlines(lines: seq<string>): string {
    if lines == [] then "" else lines[0] + "\r" + "\n" + CrlfUnlines(lines[1..])
  }

  lemma {:induction false} LinesOfCrlfUnlines(lines: seq<string>)
    requires forall i :: 0 <= i < |lines| ==> '\n' !in lines[i]
    ensures Lines(CrlfUnlines(lines)) == lines
  {
    if lines != [] {
      var line := lines[0] + "\r";
      LinesSplit(line, CrlfUnlines(lines[1..]));
      assert line[..|line| - 1] == lines[0];
      LinesOfCrlfUnlines(lines[1..]);
    }
  }

  lemma {:induction false} LinesOfUnlines(lines: seq<string>)
    requires forall i :: 0 <= i < |lines| ==> IsLine(lines[i])
    ensures Lines(Unlines(lines)) == lines
  {
    if lines != [] {
      var rest := Unlines(lines[1..]);
      assert Unlines(lines) == lines[0] + ['\n'] + rest;
      FindAt('\n', lines[0], rest);
      assert (lines[0] + ['\n'] + rest)[..|lines[0]|] == lines[0];
      assert (lines[0] + ['\n'] + rest)[|lines[0]| + 1..] == rest;
      LinesOfUnlines(lines[1..]);
    }
  }

  // Number of bytes of the UTF-8 form of a text (Rust's `str::len`).
  function CharBytes(c: char): (n: nat)
    ensures 1 <= n <= 4
  {
    if c < '\U{0080}' then 1 else if c < '\U{0800}' then 2 else if c < '\U{10000}' then 3 else 4
  }

  function ByteLength(text: string): (n: nat) {
    if text == [] then 0 else CharBytes(text[0]) + ByteLength(text[1..])
  }

  lemma {:induction false} ByteLengthConcat(a: string, b: string)
    ensures ByteLength(a + b) == ByteLength(a) + ByteLength(b)
  {
    if a == [] {
      assert a + b == b;
    } else {
      assert (a + b)[1..] == a[1..] + b;
      ByteLengthConcat(a[1..], b);
    }
  }

  // Decimal digits of a number without leading zeros, as `{}` formats an integer.
  function Digit(n: nat): (c: char)
    requires n < 10
    ensures '0' <= c <= '9'
  {
    '0' + n as char
  }

  function Decimal(n: nat): (s: string)
    ensures s != [] && forall i :: 0 <= i < |s| ==> '0' <= s[i] <= '9'
  {
    if n < 10 then [Digit(n)] else Decimal(n / 10) + [Digit(n % 10)]
  }

  predicate IsDigits(s: string) {
    forall i :: 0 <= i < |s| ==> '0' <= s[i] <= '9'
  }

  function DigitsValue(s: string): nat
    requires IsDigits(s)
  {
    if s == [] then 0 else 10 * DigitsValue(s[..|s| - 1]) + (s[|s| - 1] - '0') as nat
  }

  lemma {:induction false} DecimalValue(n: nat)
    ensures DigitsValue(Decimal(n)) == n
  {
    if n >= 10 {
      DecimalValue(n / 10);
      assert Decimal(n)[..|Decimal(n)| - 1] == Decimal(n / 10);
    } else {
      assert Decimal(n)[..0] == [];
    }
  }

  lemma {:induction false} DecimalHasNoPadding(n: nat)
    ensures Decimal(n)[0] == '0' <==> n == 0
  {
    if n >= 10 {
      DecimalHasNoPadding(n / 10);
    }
  }

  lemma {:induction false} DecimalBytes(n: nat)
    ensures ByteLength(Decimal(n)) == |Decimal(n)|
  {
    if n >= 10 {
      DecimalBytes(n / 10);
      ByteLengthConcat(Decimal(n / 10), [Digit(n % 10)]);
    }
  }
}
