/**
 What a textual catalog means, block by block: blank lines separate blocks, each
 block says at most one entry, and the last one needs no blank line after it.
 */
module PoBlocks {
  import opened Wrappers
  import opened Catalogs
  import opened Escapes
  import opened Text
  import opened PoCatalog

  // ----- One block -----

  function KeywordOf(line: string): Option<Field> {
    if "msgctxt " <= line then Some(Context)
    else if "msgid " <= line then Some(MessageId)
    else if "msgstr " <= line then Some(Message)
    else None
  }

  // The literal on a line, after its keyword or on its own.
  function LiteralOf(line: string): Option<string> {
    match KeywordOf(line)
    case Some(Context) => PoString(line[8..])
    case Some(MessageId) => PoString(line[6..])
    case Some(Message) => PoString(line[7..])
    case None => PoString(line)
  }

  // The field that the lines of a block leave open: that of the last keyword with
  // a literal.
  function OpenField(block: seq<string>): Option<Field> {
    if block == [] then None
    else
      var line := block[|block| - 1];
      if KeywordOf(line).Some? && LiteralOf(line).Some? then KeywordOf(line) else OpenField(block[..|block| - 1])
  }

  // The field that the last line of a block belongs to.
  function FieldOfLast(block: seq<string>): Option<Field>
    requires block != []
  {
    var line := block[|block| - 1];
    if KeywordOf(line).Some? then KeywordOf(line) else OpenField(block[..|block| - 1])
  }

  // The text of a field: the literals of its lines, in order.
  function FieldText(block: seq<string>, field: Field): Option<string> {
    if block == [] then None
    else
      var line, before := block[|block| - 1], FieldText(block[..|block| - 1], field);
      if LiteralOf(line).Some? && FieldOfLast(block) == Some(field)
      then Some((if before.Some? then before.value else "") + LiteralOf(line).value)
      else before
  }

  // A block says an entry if it has all three fields, with an identifier and a
  // message that are not empty.
  function EntryOf(block: seq<string>): Option<Entry> {
    var context, id, message := FieldText(block, Context), FieldText(block, MessageId), FieldText(block, Message);
    if context.Some? && id.Some? && id.value != "" && message.Some? && message.value != ""
    then Some(Entry(context.value, id.value, [message.value]))
    else None
  }

  predicate HasNoBlank(block: seq<string>) {
    forall i :: 0 <= i < |block| ==> !IsBlank(block[i])
  }

  function StateOf(messages: Messages, block: seq<string>): PoState {
    PoState(FieldText(block, Context), FieldText(block, MessageId), FieldText(block, Message), OpenField(block),
            messages)
  }

  lemma {:induction false} ReadLineIs(current: Option<Field>, line: string)
    ensures var field := if KeywordOf(line).Some? then KeywordOf(line) else current;
            if LiteralOf(line).Some? then ReadLine(current, line) == (field, LiteralOf(line))
            else ReadLine(current, line).1 == None
  {
    if KeywordOf(line).None? && LiteralOf(line).Some? {
      assert line[..1] == "\"";
    }
  }

  lemma {:induction false} FuzzyHasNoLiteral(line: string)
    requires "#, fuzzy" <= line
    ensures LiteralOf(line).None?
  {
    assert line[0] == '#';
    assert "msgctxt "[0] == 'm' && "msgid "[0] == 'm' && "msgstr "[0] == 'm';
  }

  lemma {:induction false} LineAdds(messages: Messages, block: seq<string>, line: string)
    requires !IsBlank(line)
    ensures PoLine(StateOf(messages, block), line) == StateOf(messages, block + [line])
  {
    var longer := block + [line];
    assert longer[|longer| - 1] == line && longer[..|longer| - 1] == block;
    ReadLineIs(OpenField(block), line);
    if "#, fuzzy" <= line {
      FuzzyHasNoLiteral(line);
    }
  }

  lemma {:induction false} BlockParses(messages: Messages, block: seq<string>)
    requires HasNoBlank(block)
    ensures PoLines(START.(messages := messages), block) == StateOf(messages, block)
    decreases |block|
  {
    if block != [] {
      var before, line := block[..|block| - 1], block[|block| - 1];
      assert block == before + [line];
      BlockParses(messages, before);
      PoLinesConcat(START.(messages := messages), before, [line]);
      assert PoLines(StateOf(messages, before), [line]) == PoLine(StateOf(messages, before), line);
      LineAdds(messages, before, line);
    }
  }

  lemma {:induction false} BlockCloses(messages: Messages, block: seq<string>)
    ensures CloseEntry(StateOf(messages, block)) == START.(messages := Added(messages, EntryOf(block)))
  {
    var message := FieldText(block, Message);
    if message.Some? {
      assert [message.value][0] == message.value;
    }
  }

  // ----- All blocks -----

  // The blocks of some lines, the last of which may still be open.
  function BlocksOf(lines: seq<string>): (blocks: seq<seq<string>>)
    ensures blocks != []
  {
    if lines == [] then [[]]
    else
      var before, line := BlocksOf(lines[..|lines| - 1]), lines[|lines| - 1];
      if IsBlank(line) then before + [[]]
      else before[..|before| - 1] + [before[|before| - 1] + [line]]
  }

  // The catalog that blocks say, one after another.
  function Said(blocks: seq<seq<string>>): Messages {
    if blocks == [] then map[] else Added(Said(blocks[..|blocks| - 1]), EntryOf(blocks[|blocks| - 1]))
  }

  lemma {:induction false} BlocksParse(lines: seq<string>)
    ensures var blocks := BlocksOf(lines);
            && HasNoBlank(blocks[|blocks| - 1])
            && PoLines(START, lines) == StateOf(Said(blocks[..|blocks| - 1]), blocks[|blocks| - 1])
    decreases |lines|
  {
    if lines != [] {
      var before, line := lines[..|lines| - 1], lines[|lines| - 1];
      assert lines == before + [line];
      BlocksParse(before);
      PoLinesConcat(START, before, [line]);
      LineParses(BlocksOf(before), line);
      assert PoLines(PoLines(START, before), [line]) == PoLine(PoLines(START, before), line);
    }
  }

  lemma {:induction false} LineParses(blocks: seq<seq<string>>, line: string)
    requires blocks != [] && HasNoBlank(blocks[|blocks| - 1])
    ensures var s := PoLine(StateOf(Said(blocks[..|blocks| - 1]), blocks[|blocks| - 1]), line);
            var next := if IsBlank(line) then blocks + [[]]
                        else blocks[..|blocks| - 1] + [blocks[|blocks| - 1] + [line]];
            s == StateOf(Said(next[..|next| - 1]), next[|next| - 1])
  {
    var before, open := blocks[..|blocks| - 1], blocks[|blocks| - 1];
    if IsBlank(line) {
      assert (blocks + [[]])[..|blocks|] == blocks;
      BlockCloses(Said(before), open);
    } else {
      assert (before + [open + [line]])[..|before|] == before;
      LineAdds(Said(before), open, line);
    }
  }

  // The parser returns what the blocks of the text say, whether or not the last
  // one is followed by a blank line.
  lemma {:induction false} ParsedByBlocks(source: string)
    ensures Parsed(source) == Said(BlocksOf(Lines(source)))
  {
    var lines := Lines(source);
    var blocks := BlocksOf(lines);
    BlocksParse(lines);
    PoLinesConcat(START, lines, [""]);
    BlankLine(PoLines(START, lines));
    BlockCloses(Said(blocks[..|blocks| - 1]), blocks[|blocks| - 1]);
  }

  // ----- The end of a text -----

  predicate AllBlank(lines: seq<string>) {
    forall i :: 0 <= i < |lines| ==> IsBlank(lines[i])
  }

  lemma {:induction false} BlankLinesSayNothing(lines: seq<string>, blanks: seq<string>)
    requires AllBlank(blanks)
    ensures Said(BlocksOf(lines + blanks)) == Said(BlocksOf(lines))
    decreases |blanks|
  {
    if blanks == [] {
      assert lines + blanks == lines;
    } else {
      var fewer := blanks[..|blanks| - 1];
      BlankLinesSayNothing(lines, fewer);
      assert (lines + blanks)[..|lines + blanks| - 1] == lines + fewer;
      var before := BlocksOf(lines + fewer);
      assert (before + [[]])[..|before|] == before;
      assert EntryOf([]).None?;
    }
  }

  lemma {:induction false} LinesAfterNewline(text: string, more: string)
    requires text == "" || text[|text| - 1] == '\n'
    ensures Lines(text + more) == Lines(text) + Lines(more)
    decreases |text|
  {
    if text == "" {
      assert text + more == more;
    } else {
      match Find('\n', text) {
        case None =>
        case Some(k) =>
          assert text == text[..k] + "\n" + text[k + 1..];
          LinesAfterNewline(text[k + 1..], more);
          LinesAfterFirst(text[..k], text[k + 1..], more);
      }
    }
  }

  lemma {:induction false} LinesAfterFirst(line: string, rest: string, more: string)
    requires '\n' !in line && Lines(rest + more) == Lines(rest) + Lines(more)
    ensures Lines(line + "\n" + rest + more) == Lines(line + "\n" + rest) + Lines(more)
  {
    Associates(line + "\n", rest, more);
    LinesSplit(line, rest);
    LinesSplit(line, rest + more);
    Associates([StripCarriageReturn(line)], Lines(rest), Lines(more));
  }

  lemma {:induction false} Associates<T>(a: seq<T>, b: seq<T>, c: seq<T>)
    ensures a + b + c == a + (b + c)
  {
  }

  lemma {:induction false} BlankTextHasBlankLines(text: string)
    requires AllSpace(IsWhitespace, text)
    ensures AllBlank(Lines(text))
    decreases |text|
  {
    match Find('\n', text) {
      case None =>
      case Some(k) =>
        BlankTextHasBlankLines(text[k + 1..]);
    }
  }

  // Blank lines appended to a text that ends a line, or nothing but whitespace,
  // never change the catalog.
  lemma {:induction false} TrailingBlankLines(source: string, blank: string)
    requires source == "" || source[|source| - 1] == '\n'
    requires AllSpace(IsWhitespace, blank)
    ensures Parsed(source + blank) == Parsed(source)
  {
    LinesAfterNewline(source, blank);
    BlankTextHasBlankLines(blank);
    BlankLinesSayNothing(Lines(source), Lines(blank));
    ParsedByBlocks(source);
    ParsedByBlocks(source + blank);
  }

  lemma {:induction false} FinalNewline(text: string)
    requires text != "" && text[|text| - 1] != '\n' && text[|text| - 1] != '\r'
    ensures Lines(text + "\n") == Lines(text)
    decreases |text|
  {
    match Find('\n', text) {
      case None =>
        assert text + "\n" == text + "\n" + "";
        LinesSplit(text, "");
        assert [text] + [] == [text];
      case Some(k) =>
        var line, rest := text[..k], text[k + 1..];
        assert text == line + "\n" + rest && text + "\n" == line + "\n" + (rest + "\n");
        LinesSplit(line, rest);
        LinesSplit(line, rest + "\n");
        FinalNewline(rest);
    }
  }

  // Nor does a newline that ends the last line, unless a carriage return is the
  // last character: it belongs to the line without the newline and not with it.
  lemma {:induction false} FinalNewlineOptional(source: string)
    requires source != "" && source[|source| - 1] != '\r'
    ensures Parsed(source + "\n") == Parsed(source)
  {
    if source[|source| - 1] == '\n' {
      TrailingBlankLines(source, "\n");
    } else {
      FinalNewline(source);
    }
  }

  // The printed entries are read alike whether their lines end in a newline or in
  // a carriage return and a newline.
  lemma {:induction false} LineEndsAlike(entries: seq<Chunked>)
    requires Printable(entries)
    ensures Parsed(CrlfUnlines(AllLines(entries))) == Parsed(Print(entries))
  {
    PrintedLines(entries);
    LinesOfUnlines(AllLines(entries));
    LinesOfCrlfUnlines(AllLines(entries));
  }

  // ----- A printer without a blank line at the end -----

  // The printed entries with blank lines between them only.
  function TightText(entries: seq<Chunked>): string
    requires Printable(entries) && entries != []
  {
    var text := Print(entries);
    if |text| >= 2 then text[..|text| - 2] else text
  }

  lemma {:induction false} PrintEnds(entries: seq<Chunked>)
    requires Printable(entries) && entries != []
    ensures exists text :: Print(entries) == text + "\"\n\n"
  {
    var lines := AllLines(entries);
    var last, quote := LastLines(entries);
    UnlinesConcat(last, [quote, ""]);
    assert [quote, ""][1..] == [""] && [""][1..] == [];
    assert Unlines([quote, ""]) == quote + "\n" + ("" + "\n" + "");
    var text := Unlines(last) + quote[..|quote| - 1];
    assert Print(entries) == text + "\"\n\n";
  }

  lemma {:induction false} UnlinesConcat(a: seq<string>, b: seq<string>)
    ensures Unlines(a + b) == Unlines(a) + Unlines(b)
  {
    if a == [] {
      assert a + b == b;
    } else {
      assert (a + b)[1..] == a[1..] + b;
      UnlinesConcat(a[1..], b);
    }
  }

  predicate EndsInQuote(line: string) {
    line != "" && line[|line| - 1] == '"'
  }

  lemma {:induction false} QuoteAllEnds(chunks: seq<string>)
    requires chunks != []
    ensures EndsInQuote(QuoteAll(chunks)[|chunks| - 1])
  {
    if |chunks| > 1 {
      QuoteAllEnds(chunks[1..]);
    }
  }

  lemma {:induction false} FieldEnds(keyword: string, chunks: seq<string>)
    requires chunks != []
    ensures EndsInQuote(FieldLines(keyword, chunks)[|chunks| - 1])
  {
    if |chunks| > 1 {
      QuoteAllEnds(chunks[1..]);
    }
  }

  lemma {:induction false} EntryEnds(e: Chunked) returns (before: seq<string>, quote: string)
    requires HasChunks(e)
    ensures EntryLines(e) == before + [quote, ""] && EndsInQuote(quote)
  {
    var message := FieldLines(Keyword(Message), e.message);
    var n := |message| - 1;
    FieldEnds(Keyword(Message), e.message);
    quote := message[n];
    before := FieldLines(Keyword(Context), e.context) + (FieldLines(Keyword(MessageId), e.id) + message[..n]);
    assert message + [""] == message[..n] + [quote, ""];
    PrefixedTwice(FieldLines(Keyword(Context), e.context), FieldLines(Keyword(MessageId), e.id), message[..n],
                  [quote, ""]);
  }

  lemma {:induction false} PrefixedTwice(a: seq<string>, b: seq<string>, c: seq<string>, d: seq<string>)
    ensures a + (b + (c + d)) == a + (b + c) + d
  {
  }

  lemma {:induction false} LastLines(entries: seq<Chunked>) returns (before: seq<string>, quote: string)
    requires Printable(entries) && entries != []
    ensures AllLines(entries) == before + [quote, ""] && EndsInQuote(quote)
  {
    var first, rest := EntryLines(entries[0]), entries[1..];
    if rest == [] {
      before, quote := EntryEnds(entries[0]);
      assert first + [] == first;
    } else {
      before, quote := LastLines(rest);
      assert first + (before + [quote, ""]) == first + before + [quote, ""];
      before := first + before;
    }
  }

  // The parser inverts that printer too: the last entry needs neither a blank line
  // nor a newline after it.
  lemma {:induction false} ParserInvertsTightText(entries: seq<Chunked>)
    requires Printable(entries) && entries != []
    ensures Parsed(TightText(entries)) == Merged(WithId(SpelledAll(entries)))
    ensures Parsed(TightText(entries) + "\n") == Merged(WithId(SpelledAll(entries)))
  {
    PrintEnds(entries);
    var text :| Print(entries) == text + "\"\n\n";
    var tight := text + "\"";
    assert TightText(entries) == tight;
    assert Print(entries) == (tight + "\n") + "\n";
    ParserInvertsPrinter(entries);
    FinalNewlineOptional(tight + "\n");
    FinalNewlineOptional(tight);
  }
}
