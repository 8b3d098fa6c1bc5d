/**
 The escape sequences of PO files and of plain Rust string literals: the two
 unescaping loops of the program, and the escaper that both invert.
 */
module Escapes {
  import opened Wrappers
  import opened Text

  // The character that a backslash and this character stand for.
  function Meaning(c: char): char {
    match c
    case 'n' => '\n'
    case 'r' => '\r'
    case 't' => '\t'
    case other => other
  }

  datatype Scan = Scan(text: string, escaped: bool)

  // Unescaped text, and whether it ends in an unfinished escape.
  function Unescape(text: string, escaped: bool): Scan {
    if text == [] then Scan("", escaped)
    else if escaped then
      var rest := Unescape(text[1..], false);
      Scan([Meaning(text[0])] + rest.text, rest.escaped)
    else if text[0] == '\\' then Unescape(text[1..], true)
    else
      var rest := Unescape(text[1..], false);
      Scan([text[0]] + rest.text, rest.escaped)
  }

  predicate IsQuoted(value: string) {
    |value| >= 2 && value[0] == '"' && value[|value| - 1] == '"'
  }

  function Inner(value: string): string
    requires IsQuoted(value)
  {
    value[1..|value| - 1]
  }

  // The PO reading of a quoted string keeps a dangling backslash.
  function PoString(value: string): Option<string> {
    if !IsQuoted(value) then None
    else
      var scan := Unescape(Inner(value), false);
      Some(if scan.escaped then scan.text + "\\" else scan.text)
  }

  // The Rust reading trims first and rejects a dangling backslash.
  function RustLiteral(value: string): Option<string> {
    var trimmed := Trim(IsPythonSpace, value);
    if !IsQuoted(trimmed) then None
    else
      var scan := Unescape(Inner(trimmed), false);
      if scan.escaped then None else Some(scan.text)
  }

  method ParsePoString(value: string) returns (r: Option<string>)
    ensures r == PoString(value)
  {
    if value == "" || value[0] != '"' {
      return None;
    }
    var stripped := value[1..];
    if stripped == "" || stripped[|stripped| - 1] != '"' {
      return None;
    }
    stripped := stripped[..|stripped| - 1];
    assert stripped == Inner(value);
    var parsed, escaped := UnescapeLoop(stripped);
    if escaped {
      parsed := parsed + ['\\'];
    }
    return Some(parsed);
  }

  method RustString(value: string) returns (r: Option<string>)
    ensures r == RustLiteral(value)
  {
    var trimmed := Trim(IsPythonSpace, value);
    if |trimmed| < 2 || trimmed[0] != '"' || trimmed[|trimmed| - 1] != '"' {
      return None;
    }
    var result, escaped := UnescapeLoop(trimmed[1..|trimmed| - 1]);
    if escaped {
      return None;
    }
    return Some(result);
  }

  // What was read so far and what is left give this result.
  predicate Resumes(result: Scan, parsed: string, rest: string, escaped: bool) {
    var scan := Unescape(rest, escaped);
    result.text == parsed + scan.text && result.escaped == scan.escaped
  }

  lemma {:induction false} ResumesNext(result: Scan, parsed: string, rest: string, escaped: bool)
    requires rest != "" && Resumes(result, parsed, rest, escaped)
    ensures if escaped then Resumes(result, parsed + [Meaning(rest[0])], rest[1..], false)
            else if rest[0] == '\\' then Resumes(result, parsed, rest[1..], true)
            else Resumes(result, parsed + [rest[0]], rest[1..], false)
  {
    var next := Unescape(rest[1..], !escaped && rest[0] == '\\');
    assert forall c: char :: parsed + ([c] + next.text) == parsed + [c] + next.text;
  }

  // The loop that the Rust and the Python unescaper have in common.
  method UnescapeLoop(text: string) returns (parsed: string, escaped: bool)
    ensures Scan(parsed, escaped) == Unescape(text, false)
  {
    ghost var result := Unescape(text, false);
    parsed, escaped := "", false;
    for i := 0 to |text|
      invariant Resumes(result, parsed, text[i..], escaped)
    {
      ResumesNext(result, parsed, text[i..], escaped);
      assert text[i..][1..] == text[i + 1..];
      var character := text[i];
      if escaped {
        parsed := parsed + [Meaning(character)];
        escaped := false;
      } else if character == '\\' {
        escaped := true;
      } else {
        parsed := parsed + [character];
      }
    }
  }

  // ----- The escaper -----

  function EscapeChar(c: char): string {
    match c
    case '\\' => "\\\\"
    case '"' => "\\\""
    case '\n' => "\\n"
    case '\r' => "\\r"
    case '\t' => "\\t"
    case other => [other]
  }

  function Escape(text: string): string {
    if text == [] then "" else EscapeChar(text[0]) + Escape(text[1..])
  }

  function Quote(text: string): string {
    "\"" + Escape(text) + "\""
  }

  lemma {:induction false} UnescapeConcat(a: string, b: string, escaped: bool)
    ensures var first := Unescape(a, escaped);
            var second := Unescape(b, first.escaped);
            Unescape(a + b, escaped) == Scan(first.text + second.text, second.escaped)
  {
    if a == [] {
      assert a + b == b;
    } else {
      assert (a + b)[1..] == a[1..] + b;
      UnescapeConcat(a[1..], b, !escaped && a[0] == '\\');
    }
  }

  lemma {:induction false} UnescapeEscapedChar(c: char)
    ensures Unescape(EscapeChar(c), false) == Scan([c], false)
  {
    var e := EscapeChar(c);
    assert e[1..] == if |e| == 1 then "" else [e[1]];
    assert |e| == 2 ==> Unescape([e[1]], true) == Scan([Meaning(e[1])], false);
  }

  lemma {:induction false} UnescapeInvertsEscape(text: string)
    ensures Unescape(Escape(text), false) == Scan(text, false)
  {
    if text != [] {
      UnescapeEscapedChar(text[0]);
      UnescapeInvertsEscape(text[1..]);
      UnescapeConcat(EscapeChar(text[0]), Escape(text[1..]), false);
    }
  }

  // Both readings give back any text from its quoted, escaped form; the Rust one
  // whatever padding surrounds it.
  lemma {:induction false} QuoteRoundTrip(text: string, before: string, after: string)
    requires AllSpace(IsPythonSpace, before) && AllSpace(IsPythonSpace, after)
    ensures PoString(Quote(text)) == Some(text)
    ensures RustLiteral(before + Quote(text) + after) == Some(text)
  {
    UnescapeInvertsEscape(text);
    assert Inner(Quote(text)) == Escape(text);
    TrimPadded(IsPythonSpace, before, Quote(text), after);
  }

  // ----- Every literal -----

  // What a literal is made of: plain characters, which are not backslashes, and
  // escaped ones, which may be anything.
  datatype Token = Bare(c: char) | Escaped(c: char)

  function Written(token: Token): string {
    match token
    case Bare(c) => [c]
    case Escaped(c) => ['\\', c]
  }

  // Only n, r and t stand for another character than themselves.
  function Meant(token: Token): char {
    if token == Escaped('n') then '\n'
    else if token == Escaped('r') then '\r'
    else if token == Escaped('t') then '\t'
    else token.c
  }

  function Source(tokens: seq<Token>): string {
    if tokens == [] then "" else Written(tokens[0]) + Source(tokens[1..])
  }

  function Value(tokens: seq<Token>): string {
    if tokens == [] then "" else [Meant(tokens[0])] + Value(tokens[1..])
  }

  predicate AreTokens(tokens: seq<Token>) {
    forall i :: 0 <= i < |tokens| ==> tokens[i] != Bare('\\')
  }

  // Every text is made of tokens, but for a backslash that may dangle at its end,
  // and unescaping gives the value of the tokens.
  lemma {:induction false} Tokenize(text: string) returns (tokens: seq<Token>, dangling: bool)
    ensures AreTokens(tokens) && text == Source(tokens) + (if dangling then "\\" else "")
    ensures Unescape(text, false) == Scan(Value(tokens), dangling)
  {
    if text == "" {
      tokens, dangling := [], false;
    } else if text == "\\" {
      tokens, dangling := [], true;
      assert text[1..] == "";
    } else {
      var token := if text[0] == '\\' then Escaped(text[1]) else Bare(text[0]);
      var rest := text[|Written(token)|..];
      var others;
      others, dangling := Tokenize(rest);
      tokens := [token] + others;
      assert text == Written(token) + rest;
      TokenFirst(token, rest);
      TokensNext(token, others, if dangling then "\\" else "");
    }
  }

  lemma {:induction false} TokensNext(token: Token, others: seq<Token>, tail: string)
    ensures Source([token] + others) + tail == Written(token) + (Source(others) + tail)
    ensures Value([token] + others) == [Meant(token)] + Value(others)
  {
    assert ([token] + others)[1..] == others;
  }

  lemma {:induction false} TokenFirst(token: Token, rest: string)
    requires token != Bare('\\')
    ensures Unescape(Written(token) + rest, false)
         == Scan([Meant(token)] + Unescape(rest, false).text, Unescape(rest, false).escaped)
  {
    var text := Written(token) + rest;
    assert text[|Written(token)|..] == rest;
    if token.Escaped? {
      assert text[1..][1..] == rest;
    }
  }

  // On any quoted text, the PO reading gives the value of its tokens and keeps a
  // dangling backslash; the Rust reading gives the same value or, if a backslash
  // dangles, nothing. Neither reads text that is not quoted.
  lemma {:induction false} EveryLiteral(text: string) returns (tokens: seq<Token>, dangling: bool)
    ensures AreTokens(tokens) && text == Source(tokens) + (if dangling then "\\" else "")
    ensures PoString("\"" + text + "\"") == Some(Value(tokens) + (if dangling then "\\" else ""))
    ensures RustLiteral("\"" + text + "\"") == if dangling then None else Some(Value(tokens))
  {
    tokens, dangling := Tokenize(text);
    var value := "\"" + text + "\"";
    assert Inner(value) == text;
    TrimPadded(IsPythonSpace, "", value, "");
    assert "" + value + "" == value;
    assert Value(tokens) + "" == Value(tokens);
  }

  lemma {:induction false} OnlyQuotedTextIsRead(value: string)
    ensures PoString(value).Some? <==> exists text :: value == "\"" + text + "\""
    ensures RustLiteral(value).Some? ==> exists text :: Trim(IsPythonSpace, value) == "\"" + text + "\""
  {
    if IsQuoted(value) {
      assert value == "\"" + Inner(value) + "\"";
    }
    var trimmed := Trim(IsPythonSpace, value);
    if IsQuoted(trimmed) {
      assert trimmed == "\"" + Inner(trimmed) + "\"";
    }
  }

  // ----- The two readings compared -----

  function TrailingBackslashes(text: string): nat {
    if text == [] || text[|text| - 1] != '\\' then 0 else 1 + TrailingBackslashes(text[..|text| - 1])
  }

  // An escape is left unfinished exactly by an odd number of final backslashes.
  lemma {:induction false} DanglingExactly(text: string)
    ensures Unescape(text, false).escaped <==> TrailingBackslashes(text) % 2 == 1
  {
    if text != [] {
      var shorter, last := text[..|text| - 1], text[|text| - 1];
      DanglingExactly(shorter);
      assert text == shorter + [last];
      UnescapeConcat(shorter, [last], false);
    }
  }

  // On text without surrounding whitespace the two readings refuse the same
  // unquoted inputs and agree on every other one, except that an odd number of
  // final backslashes is refused by the Rust reading and kept by the PO reading.
  lemma {:induction false} ReadingsAgree(value: string)
    requires Tight(IsPythonSpace, value)
    ensures PoString(value).None? <==> !IsQuoted(value)
    ensures RustLiteral(value).None? <==> !IsQuoted(value) || TrailingBackslashes(Inner(value)) % 2 == 1
    ensures RustLiteral(value).Some? ==> PoString(value) == RustLiteral(value)
    ensures IsQuoted(value) && RustLiteral(value).None? ==>
              PoString(value) == Some(Unescape(Inner(value), false).text + "\\")
  {
    if value == "" {
      assert Trim(IsPythonSpace, value) == "";
    } else {
      TrimPadded(IsPythonSpace, "", value, "");
      assert "" + value + "" == value;
    }
    if IsQuoted(value) {
      DanglingExactly(Inner(value));
    }
  }
}
