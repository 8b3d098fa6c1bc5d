/** The scanner that splits a call's arguments in the localization audit. */
module CallScanner {
  import opened Wrappers
  import opened Escapes
  import opened Text

  function Strip(text: string): string {
    Trim(IsPythonSpace, text)
  }

  function StripAll(pieces: seq<string>): (r: seq<string>)
    ensures |r| == |pieces|
  {
    if pieces == [] then [] else StripAll(pieces[..|pieces| - 1]) + [Strip(pieces[|pieces| - 1])]
  }

  lemma {:induction false} StripAllAt(pieces: seq<string>, i: nat)
    requires i < |pieces|
    ensures StripAll(pieces)[i] == Strip(pieces[i])
  {
    if i < |pieces| - 1 {
      StripAllAt(pieces[..|pieces| - 1], i);
    }
  }

  // What the scanner remembers: finished pieces, the piece being read, the
  // parenthesis depth, and whether it is in a string or after a backslash there.
  datatype Mode = Mode(pieces: seq<string>, current: string, depth: nat, inString: bool, escaped: bool)

  datatype Found = Found(pieces: seq<string>, rest: string)

  function Extend(m: Mode, c: char): Mode {
    m.(current := m.current + [c])
  }

  // One character that does not close the call.
  function Advance(m: Mode, c: char): Mode {
    if m.inString then
      if m.escaped then Extend(m, c).(escaped := false)
      else if c == '\\' then Extend(m, c).(escaped := true)
      else if c == '"' then Extend(m, c).(inString := false)
      else Extend(m, c)
    else if c == '"' then Extend(m, c).(inString := true)
    else if c == '(' then Extend(m, c).(depth := m.depth + 1)
    else if c == ')' && m.depth > 0 then Extend(m, c).(depth := m.depth - 1)
    else if c == ',' && m.depth == 1 then m.(pieces := m.pieces + [m.current], current := "")
    else Extend(m, c)
  }

  predicate Closes(m: Mode, c: char) {
    !m.inString && c == ')' && m.depth == 1
  }

  // The pieces up to the parenthesis that closes the call, and what follows it.
  function Scan(m: Mode, text: string): Option<Found>
    decreases |text|
  {
    if text == "" then None
    else if Closes(m, text[0]) then Some(Found(m.pieces + [m.current], text[1..]))
    else Scan(Advance(m, text[0]), text[1..])
  }

  const OPENED := Mode([], "", 1, false, false)

  // Python's slice, which is empty when it starts past the end.
  function Slice(text: string, start: nat, end: nat): string {
    if start <= end <= |text| then text[start..end] else ""
  }

  function From(text: string, start: nat): string {
    Slice(text, start, |text|)
  }

  // The arguments and the index of the closing parenthesis.
  function Arguments(source: string, opening: nat): Option<(seq<string>, int)> {
    Reported(source, Scan(OPENED, From(source, opening + 1)))
  }

  function Reported(source: string, found: Option<Found>): Option<(seq<string>, int)> {
    if found.None? then None else Some((StripAll(found.value.pieces), |source| - |found.value.rest| - 1))
  }

  lemma {:induction false} ScanNext(m: Mode, source: string, index: nat)
    requires index < |source|
    ensures Scan(m, From(source, index)) ==
              if Closes(m, source[index]) then Some(Found(m.pieces + [m.current], From(source, index + 1)))
              else Scan(Advance(m, source[index]), From(source, index + 1))
  {
    assert source[index..][1..] == source[index + 1..];
  }

  lemma {:induction false} SliceNext(source: string, start: nat, index: nat)
    requires start <= index < |source|
    ensures Slice(source, start, index + 1) == Slice(source, start, index) + [source[index]]
  {
  }

  lemma {:induction false} SliceEmpty(source: string, start: nat)
    ensures Slice(source, start, start) == ""
  {
  }

  lemma {:induction false} StripAllAppend(pieces: seq<string>, piece: string)
    ensures StripAll(pieces + [piece]) == StripAll(pieces) + [Strip(piece)]
  {
    assert (pieces + [piece])[..|pieces + [piece]| - 1] == pieces;
  }

  // The case analysis of the scanner's loop: the new flags, and whether this
  // character closes the call or ends an argument.
  method ReadCharacter(ghost m: Mode, c: char, depth: nat, inString: bool, escaped: bool)
      returns (depth': nat, inString': bool, escaped': bool, closes: bool, splits: bool)
    requires depth >= 1 && depth == m.depth && inString == m.inString && escaped == m.escaped
    ensures closes == Closes(m, c)
    ensures !closes ==> depth' >= 1 && depth' == Advance(m, c).depth
    ensures !closes ==> inString' == Advance(m, c).inString && escaped' == Advance(m, c).escaped
    ensures !closes && splits ==> Advance(m, c).pieces == m.pieces + [m.current] && Advance(m, c).current == ""
    ensures !closes && !splits ==> Advance(m, c).pieces == m.pieces && Advance(m, c).current == m.current + [c]
  {
    depth', inString', escaped', closes, splits := depth, inString, escaped, false, false;
    if inString {
      if escaped {
        escaped' := false;
      } else if c == '\\' {
        escaped' := true;
      } else if c == '"' {
        inString' := false;
      }
    } else if c == '"' {
      inString' := true;
    } else if c == '(' {
      depth' := depth + 1;
    } else if c == ')' {
      depth' := depth - 1;
      closes := depth' == 0;
    } else if c == ',' && depth == 1 {
      splits := true;
    }
  }

  lemma {:induction false} ScanContinues(goal: Option<Found>, source: string, m: Mode, index: nat)
    requires Scan(m, From(source, index)) == goal && index < |source| && !Closes(m, source[index])
    ensures Scan(Advance(m, source[index]), From(source, index + 1)) == goal
  {
    ScanNext(m, source, index);
  }

  lemma {:induction false} ScanCloses(goal: Option<Found>, source: string, m: Mode, index: nat)
    requires Scan(m, From(source, index)) == goal && index < |source| && Closes(m, source[index])
    ensures Reported(source, goal) == Some((StripAll(m.pieces) + [Strip(m.current)], index))
  {
    ScanNext(m, source, index);
    StripAllAppend(m.pieces, m.current);
  }

  lemma {:induction false} ScanEnds(goal: Option<Found>, source: string, m: Mode, index: nat)
    requires Scan(m, From(source, index)) == goal && index >= |source|
    ensures Reported(source, goal) == None
  {
    assert From(source, index) == "";
  }

  method SplitArguments(source: string, opening: nat) returns (r: Option<(seq<string>, int)>)
    ensures r == Arguments(source, opening)
  {
    var arguments: seq<string> := [];
    var start: nat := opening + 1;
    var depth: nat := 1;
    var inString, escaped := false, false;
    var index: nat := start;
    ghost var mode := OPENED;
    ghost var goal := Scan(mode, From(source, index));
    SliceEmpty(source, start);
    while index < |source|
      invariant start <= index
      invariant depth >= 1 && depth == mode.depth && inString == mode.inString && escaped == mode.escaped
      invariant arguments == StripAll(mode.pieces) && mode.current == Slice(source, start, index)
      invariant Scan(mode, From(source, index)) == goal
    {
      var character := source[index];
      var closes, splits;
      depth, inString, escaped, closes, splits := ReadCharacter(mode, character, depth, inString, escaped);
      if closes {
        ScanCloses(goal, source, mode, index);
        return Some((arguments + [Strip(Slice(source, start, index))], index));
      }
      ScanContinues(goal, source, mode, index);
      if splits {
        StripAllAppend(mode.pieces, mode.current);
        arguments := arguments + [Strip(Slice(source, start, index))];
        start := index + 1;
        SliceEmpty(source, start);
      } else {
        SliceNext(source, start, index);
      }
      index := index + 1;
      mode := Advance(mode, character);
    }
    ScanEnds(goal, source, mode, index);
    return None;
  }

  // ----- Nothing is lost -----

  function JoinComma(pieces: seq<string>): string {
    if pieces == [] then ""
    else if |pieces| == 1 then pieces[0]
    else JoinComma(pieces[..|pieces| - 1]) + "," + pieces[|pieces| - 1]
  }

  lemma {:induction false} JoinExtend(pieces: seq<string>, current: string, c: char)
    ensures JoinComma(pieces + [current + [c]]) == JoinComma(pieces + [current]) + [c]
  {
    var a, b := pieces + [current], pieces + [current + [c]];
    assert a[..|a| - 1] == pieces && b[..|b| - 1] == pieces;
    if pieces != [] {
      assert JoinComma(pieces) + "," + (current + [c]) == JoinComma(pieces) + "," + current + [c];
    }
  }

  lemma {:induction false} JoinNext(pieces: seq<string>, current: string)
    ensures JoinComma(pieces + [current] + [""]) == JoinComma(pieces + [current]) + ","
  {
    var a := pieces + [current] + [""];
    assert a[..|a| - 1] == pieces + [current];
  }

  lemma {:induction false} AdvanceKeepsText(m: Mode, c: char)
    ensures JoinComma(Advance(m, c).pieces + [Advance(m, c).current]) == JoinComma(m.pieces + [m.current]) + [c]
  {
    JoinExtend(m.pieces, m.current, c);
    JoinNext(m.pieces, m.current);
  }

  // The pieces joined by commas, the parenthesis and the rest are the scanned text.
  lemma {:induction false} ScanKeepsText(m: Mode, text: string)
    requires Scan(m, text).Some?
    ensures var found := Scan(m, text).value;
            JoinComma(found.pieces) + (")" + found.rest) == JoinComma(m.pieces + [m.current]) + text
    decreases |text|
  {
    if Closes(m, text[0]) {
      assert text == ")" + text[1..];
    } else {
      var next := Advance(m, text[0]);
      ScanKeepsText(next, text[1..]);
      AdvanceKeepsText(m, text[0]);
      assert [text[0]] + text[1..] == text;
      assert JoinComma(m.pieces + [m.current]) + [text[0]] + text[1..] == JoinComma(m.pieces + [m.current]) + text;
    }
  }

  // On any source: if a call is found, its closing parenthesis is at the reported
  // index and the unstripped arguments joined by commas are exactly the text
  // between the parentheses.
  lemma {:induction false} ArgumentsPartitionTheCall(source: string, opening: nat)
      returns (raw: seq<string>, closing: nat)
    requires Arguments(source, opening).Some?
    ensures raw != [] && Arguments(source, opening) == Some((StripAll(raw), closing))
    ensures opening < closing < |source| && source[closing] == ')' && JoinComma(raw) == source[opening + 1..closing]
  {
    var text := From(source, opening + 1);
    var found := Scan(OPENED, text).value;
    ScanPartitions(text);
    raw := found.pieces;
    closing := ClosingIndex(source, opening + 1, text, JoinComma(raw), found.rest);
  }

  lemma {:induction false} ScanPartitions(text: string)
    requires Scan(OPENED, text).Some?
    ensures var found := Scan(OPENED, text).value;
            found.pieces != [] && JoinComma(found.pieces) + (")" + found.rest) == text
  {
    ScanKeepsText(OPENED, text);
    ScanNonEmpty(OPENED, text);
    assert OPENED.pieces + [OPENED.current] == [""];
    assert JoinComma([""]) + text == text;
  }

  lemma {:induction false} ClosingIndex(source: string, start: nat, text: string, before: string, rest: string)
      returns (closing: nat)
    requires text == From(source, start) && text == before + (")" + rest)
    ensures closing == |source| - |rest| - 1
    ensures start <= closing < |source| && source[closing] == ')' && before == source[start..closing]
  {
    assert |text| == |before| + 1 + |rest|;
    assert text[|before|] == ')';
    assert text[..|before|] == before;
    closing := |source| - |rest| - 1;
  }

  lemma {:induction false} ScanNonEmpty(m: Mode, text: string)
    requires Scan(m, text).Some?
    ensures Scan(m, text).value.pieces != []
    decreases |text|
  {
    if !Closes(m, text[0]) {
      ScanNonEmpty(Advance(m, text[0]), text[1..]);
    }
  }

  // ----- Calls as trees -----

  // An argument: plain characters, string literals and parenthesised groups,
  // which may themselves hold commas and groups.
  datatype Node = Plain(c: char) | Literal(text: string) | Group(inner: Nodes)

  datatype Nodes = Nil | Cons(head: Node, tail: Nodes)

  function PrintNode(node: Node): string {
    match node
    case Plain(c) => [c]
    case Literal(text) => Quote(text)
    case Group(inner) => "(" + Print(inner) + ")"
  }

  function Print(nodes: Nodes): string {
    match nodes
    case Nil => ""
    case Cons(head, tail) => PrintNode(head) + Print(tail)
  }

  // Plain characters are not delimiters; a comma may be plain inside a group only.
  predicate IsArgument(nodes: Nodes, nested: bool) {
    match nodes
    case Nil => true
    case Cons(head, tail) =>
      && IsArgument(tail, nested)
      && match head
         case Plain(c) => c != '"' && c != '(' && c != ')' && (c == ',' ==> nested)
         case Literal(_) => true
         case Group(inner) => IsArgument(inner, true)
  }

  predicate IsCode(m: Mode) {
    !m.inString && !m.escaped && m.depth >= 1
  }

  function Read(m: Mode, text: string): Mode {
    m.(current := m.current + text)
  }

  lemma {:induction false} ReadTwice(m: Mode, a: string, b: string)
    ensures Read(Read(m, a), b) == Read(m, a + b)
  {
    assert m.current + a + b == m.current + (a + b);
  }

  lemma {:induction false} ScanStep(m: Mode, c: char, rest: string)
    requires !Closes(m, c)
    ensures Scan(m, [c] + rest) == Scan(Advance(m, c), rest)
  {
    assert ([c] + rest)[1..] == rest;
  }

  lemma {:induction false} ScanEscaped(m: Mode, text: string, rest: string)
    requires m.inString && !m.escaped
    ensures Scan(m, Escape(text) + rest) == Scan(Read(m, Escape(text)), rest)
    decreases |text|
  {
    if text == "" {
      assert Escape(text) + rest == rest;
      assert Read(m, "") == m;
    } else {
      var c, tail := EscapeChar(text[0]), Escape(text[1..]);
      assert Escape(text) + rest == c + (tail + rest);
      ScanEscapedChar(m, text[0], tail + rest);
      ScanEscaped(Read(m, c), text[1..], rest);
      ReadTwice(m, c, tail);
    }
  }

  lemma {:induction false} ScanEscapedChar(m: Mode, c: char, rest: string)
    requires m.inString && !m.escaped
    ensures Scan(m, EscapeChar(c) + rest) == Scan(Read(m, EscapeChar(c)), rest)
  {
    var e := EscapeChar(c);
    if |e| == 1 {
      assert e + rest == [c] + rest;
      ScanStep(m, c, rest);
    } else {
      assert e + rest == ['\\'] + ([e[1]] + rest);
      ScanStep(m, '\\', [e[1]] + rest);
      var escaping := Advance(m, '\\');
      ScanStep(escaping, e[1], rest);
      assert m.current + ['\\'] + [e[1]] == m.current + e;
    }
  }

  lemma {:induction false} ScanLiteral(m: Mode, text: string, rest: string)
    requires IsCode(m)
    ensures Scan(m, Quote(text) + rest) == Scan(Read(m, Quote(text)), rest)
  {
    var e := Escape(text);
    assert Quote(text) + rest == ['"'] + (e + (['"'] + rest));
    ScanStep(m, '"', e + (['"'] + rest));
    var within := Advance(m, '"');
    ScanEscaped(within, text, ['"'] + rest);
    ScanStep(Read(within, e), '"', rest);
    assert m.current + ['"'] + e + ['"'] == m.current + Quote(text);
  }

  // Scanning an argument reads exactly its text and comes out at the same depth.
  lemma {:induction false} ScanNodes(m: Mode, nodes: Nodes, rest: string)
    requires IsCode(m) && IsArgument(nodes, m.depth > 1)
    ensures Scan(m, Print(nodes) + rest) == Scan(Read(m, Print(nodes)), rest)
    decreases nodes
  {
    match nodes
    case Nil =>
      assert Print(nodes) + rest == rest;
      assert Read(m, "") == m;
    case Cons(head, tail) =>
      var first, others := PrintNode(head), Print(tail);
      assert Print(nodes) + rest == first + (others + rest);
      ScanNode(m, head, others + rest);
      ScanNodes(Read(m, first), tail, rest);
      ReadTwice(m, first, others);
  }

  lemma {:induction false} ScanNode(m: Mode, node: Node, rest: string)
    requires IsCode(m) && IsArgument(Cons(node, Nil), m.depth > 1)
    ensures Scan(m, PrintNode(node) + rest) == Scan(Read(m, PrintNode(node)), rest)
    decreases node
  {
    match node
    case Plain(c) => ScanStep(m, c, rest);
    case Literal(text) => ScanLiteral(m, text, rest);
    case Group(inner) =>
      ScanNodes(Advance(m, '('), inner, [')'] + rest);
      ScanGroup(m, Print(inner), rest);
  }

  lemma {:induction false} ScanGroup(m: Mode, body: string, rest: string)
    requires IsCode(m)
    requires Scan(Advance(m, '('), body + ([')'] + rest)) == Scan(Read(Advance(m, '('), body), [')'] + rest)
    ensures Scan(m, "(" + body + ")" + rest) == Scan(Read(m, "(" + body + ")"), rest)
  {
    assert "(" + body + ")" + rest == ['('] + (body + ([')'] + rest));
    ScanStep(m, '(', body + ([')'] + rest));
    ScanStep(Read(Advance(m, '('), body), ')', rest);
    assert m.current + ['('] + body + [')'] == m.current + ("(" + body + ")");
  }

  // The arguments of a call, at least one.
  datatype Call = Last(argument: Nodes) | More(argument: Nodes, others: Call)

  predicate IsCall(call: Call) {
    IsArgument(call.argument, false) && (call.More? ==> IsCall(call.others))
  }

  // What follows the opening parenthesis.
  function PrintCall(call: Call, tail: string): string {
    match call
    case Last(argument) => Print(argument) + (")" + tail)
    case More(argument, others) => Print(argument) + ("," + PrintCall(others, tail))
  }

  function Pieces(call: Call): (r: seq<string>)
    ensures r != []
  {
    match call
    case Last(argument) => [Print(argument)]
    case More(argument, others) => [Print(argument)] + Pieces(others)
  }

  lemma {:induction false} ScanCall(m: Mode, call: Call, tail: string)
    requires IsCode(m) && m.depth == 1 && m.current == "" && IsCall(call)
    ensures Scan(m, PrintCall(call, tail)) == Some(Found(m.pieces + Pieces(call), tail))
    decreases call
  {
    var first := Print(call.argument);
    assert Read(m, first).current == first;
    match call
    case Last(argument) =>
      ScanNodes(m, argument, [')'] + tail);
      assert ([')'] + tail)[1..] == tail;
    case More(argument, others) =>
      var next := m.(pieces := m.pieces + [first]);
      ScanNodes(m, argument, [','] + PrintCall(others, tail));
      ScanStep(Read(m, first), ',', PrintCall(others, tail));
      assert Advance(Read(m, first), ',') == next;
      ScanCall(next, others, tail);
      assert m.pieces + [first] + Pieces(others) == m.pieces + Pieces(call);
  }

  lemma {:induction false} ScanOpened(call: Call, tail: string)
    requires IsCall(call)
    ensures Scan(OPENED, PrintCall(call, tail)) == Some(Found(Pieces(call), tail))
  {
    ScanCall(OPENED, call, tail);
    assert OPENED.pieces + Pieces(call) == Pieces(call);
  }

  lemma {:induction false} CallFound(before: string, text: string, pieces: seq<string>, tail: string)
    requires Scan(OPENED, text) == Some(Found(pieces, tail))
    ensures Arguments(before + ("(" + text), |before|) == Some((StripAll(pieces), |before| + 1 + |text| - |tail| - 1))
  {
    assert From(before + ("(" + text), |before| + 1) == text;
  }

  // For any arguments, however their groups and literals nest, the scanner
  // returns each argument, stripped, and the closing index, whatever precedes
  // and follows the call.
  lemma {:induction false} CallRoundTrip(before: string, call: Call, tail: string)
    requires IsCall(call)
    ensures Arguments(before + ("(" + PrintCall(call, tail)), |before|)
         == Some((StripAll(Pieces(call)), |before| + 1 + |PrintCall(call, tail)| - |tail| - 1))
  {
    ScanOpened(call, tail);
    CallFound(before, PrintCall(call, tail), Pieces(call), tail);
  }

  // ----- Calls whose arguments are string literals -----

  datatype Padded = Padded(before: string, text: string, after: string)

  predicate IsPadded(p: Padded) {
    AllSpace(IsPythonSpace, p.before) && AllSpace(IsPythonSpace, p.after)
  }

  function PlainThen(text: string, nodes: Nodes): Nodes {
    if text == "" then nodes else Cons(Plain(text[0]), PlainThen(text[1..], nodes))
  }

  lemma {:induction false} SpaceIsPlain(c: char)
    requires IsPythonSpace(c)
    ensures c != '"' && c != '(' && c != ')' && c != ','
  {
  }

  lemma {:induction false} PlainThenIsArgument(text: string, nodes: Nodes)
    requires AllSpace(IsPythonSpace, text) && IsArgument(nodes, false)
    ensures IsArgument(PlainThen(text, nodes), false)
    decreases |text|
  {
    if text != "" {
      SpaceIsPlain(text[0]);
      PlainThenIsArgument(text[1..], nodes);
    }
  }

  lemma {:induction false} PlainThenPrints(text: string, nodes: Nodes)
    ensures Print(PlainThen(text, nodes)) == text + Print(nodes)
    decreases |text|
  {
    if text == "" {
      assert text + Print(nodes) == Print(nodes);
    } else {
      PlainThenPrints(text[1..], nodes);
      assert [text[0]] + (text[1..] + Print(nodes)) == text + Print(nodes);
    }
  }

  function Tree(p: Padded): Nodes {
    PlainThen(p.before, Cons(Literal(p.text), PlainThen(p.after, Nil)))
  }

  lemma {:induction false} TreePrints(p: Padded)
    requires IsPadded(p)
    ensures IsArgument(Tree(p), false) && Print(Tree(p)) == p.before + Quote(p.text) + p.after
  {
    PlainThenIsArgument(p.after, Nil);
    PlainThenIsArgument(p.before, Cons(Literal(p.text), PlainThen(p.after, Nil)));
    PlainThenPrints(p.after, Nil);
    PlainThenPrints(p.before, Cons(Literal(p.text), PlainThen(p.after, Nil)));
    assert p.after + "" == p.after;
    assert p.before + (Quote(p.text) + p.after) == p.before + Quote(p.text) + p.after;
  }

  lemma {:induction false} PaddedStrips(p: Padded, printed: string)
    requires IsPadded(p) && printed == p.before + Quote(p.text) + p.after
    ensures Strip(printed) == Quote(p.text)
  {
    TrimPadded(IsPythonSpace, p.before, Quote(p.text), p.after);
  }

  lemma {:induction false} PaddedReadsBack(p: Padded)
    requires IsPadded(p)
    ensures RustLiteral(Strip(Print(Tree(p)))) == Some(p.text)
  {
    TreePrints(p);
    PaddedStrips(p, Print(Tree(p)));
    QuoteRoundTrip(p.text, "", "");
    assert "" + Quote(p.text) + "" == Quote(p.text);
  }

  // The call with these literals as its arguments.
  function LiteralCall(arguments: seq<Padded>): Call
    requires arguments != []
  {
    if |arguments| == 1 then Last(Tree(arguments[0])) else More(Tree(arguments[0]), LiteralCall(arguments[1..]))
  }

  lemma {:induction false} LiteralPieces(arguments: seq<Padded>)
    requires arguments != [] && forall i :: 0 <= i < |arguments| ==> IsPadded(arguments[i])
    ensures IsCall(LiteralCall(arguments)) && |Pieces(LiteralCall(arguments))| == |arguments|
    ensures forall i :: 0 <= i < |arguments| ==> Pieces(LiteralCall(arguments))[i] == Print(Tree(arguments[i]))
  {
    TreePrints(arguments[0]);
    if |arguments| > 1 {
      LiteralPieces(arguments[1..]);
    }
  }

  lemma {:induction false} LiteralsReadBack(arguments: seq<Padded>)
    requires arguments != [] && forall i :: 0 <= i < |arguments| ==> IsPadded(arguments[i])
    ensures var pieces := StripAll(Pieces(LiteralCall(arguments)));
            && |pieces| == |arguments|
            && forall i :: 0 <= i < |arguments| ==> RustLiteral(pieces[i]) == Some(arguments[i].text)
  {
    LiteralPieces(arguments);
    forall i | 0 <= i < |arguments|
      ensures RustLiteral(StripAll(Pieces(LiteralCall(arguments)))[i]) == Some(arguments[i].text)
    {
      StripAllAt(Pieces(LiteralCall(arguments)), i);
      PaddedReadsBack(arguments[i]);
    }
  }

  // Quoting and escaping any strings, with any whitespace around them, and
  // splitting the call gives the closing index and pieces that read back as
  // exactly those strings, even when they hold commas, parentheses, quotes or
  // backslashes.
  lemma {:induction false} LiteralsRoundTrip(before: string, arguments: seq<Padded>, call: Call, tail: string)
      returns (pieces: seq<string>)
    requires arguments != [] && forall i :: 0 <= i < |arguments| ==> IsPadded(arguments[i])
    requires call == LiteralCall(arguments)
    ensures Arguments(before + ("(" + PrintCall(call, tail)), |before|)
         == Some((pieces, |before| + 1 + |PrintCall(call, tail)| - |tail| - 1))
    ensures |pieces| == |arguments|
    ensures forall i :: 0 <= i < |arguments| ==> RustLiteral(pieces[i]) == Some(arguments[i].text)
  {
    LiteralPieces(arguments);
    LiteralsReadBack(arguments);
    pieces := StripAll(Pieces(call));
    CallRoundTrip(before, call, tail);
  }
}
