/** The textual catalog parser, the text it inverts, and its agreement with the binary parser. */
module PoCatalog {
  import opened Wrappers
  import opened Catalogs
  import opened Escapes
  import opened Text
  import Mo = MoCatalog
  import MoEncoder

  // ----- The parser -----

  datatype Field = Context | MessageId | Message

  datatype PoState = PoState(
    context: Option<string>,
    id: Option<string>,
    message: Option<string>,
    field: Option<Field>,
    messages: Messages)

  const START := PoState(None, None, None, None, map[])

  // The field that a line continues or opens, and its text if it can be read.
  function ReadLine(field: Option<Field>, line: string): (Option<Field>, Option<string>) {
    if "msgctxt " <= line then (Some(Context), PoString(line[8..]))
    else if "msgid " <= line then (Some(MessageId), PoString(line[6..]))
    else if "msgstr " <= line then (Some(Message), PoString(line[7..]))
    else if "\"" <= line then (field, PoString(line))
    else (None, None)
  }

  function AppendField(field: Option<string>, value: string): Option<string> {
    Some((if field.Some? then field.value else "") + value)
  }

  // A blank line closes the entry that was read so far.
  function CloseEntry(s: PoState): PoState {
    var complete := s.context.Some? && s.id.Some? && s.message.Some? && s.id.value != "" && s.message.value != "";
    PoState(None, None, None, None,
            if complete then s.messages[s.context.value := [s.message.value]] else s.messages)
  }

  function Store(s: PoState, field: Option<Field>, value: string): PoState {
    var t := s.(field := field);
    match field
    case Some(Context) => t.(context := AppendField(s.context, value))
    case Some(MessageId) => t.(id := AppendField(s.id, value))
    case Some(Message) => t.(message := AppendField(s.message, value))
    case None => t
  }

  function PoLine(s: PoState, line: string): PoState {
    if IsBlank(line) then CloseEntry(s)
    else if "#, fuzzy" <= line then s
    else
      var (next, value) := ReadLine(s.field, line);
      if value.None? then s else Store(s, next, value.value)
  }

  function PoLines(s: PoState, lines: seq<string>): PoState
    decreases |lines|
  {
    if lines == [] then s else PoLines(PoLine(s, lines[0]), lines[1..])
  }

  // The catalog of arbitrary text; a final blank line is always supplied.
  function Parsed(source: string): Messages {
    PoLines(START, Lines(source) + [""]).messages
  }

  method FromPo(source: string) returns (messages: Messages)
    ensures messages == Parsed(source)
  {
    messages := map[];
    var context: Option<string>, id: Option<string>, message: Option<string> := None, None, None;
    var field: Option<Field> := None;
    var lines := Lines(source) + [""];
    for i := 0 to |lines|
      invariant PoLines(PoState(context, id, message, field, messages), lines[i..]) == PoLines(START, lines)
    {
      assert lines[i..][1..] == lines[i + 1..];
      ghost var before := PoState(context, id, message, field, messages);
      var line := lines[i];
      TrimOfBlank(line);
      if Trim(IsWhitespace, line) == "" {
        if context.Some? && id.Some? && message.Some? && id.value != "" && message.value != "" {
          messages := messages[context.value := [message.value]];
        }
        context, id, message := None, None, None;
        field := None;
        assert PoState(context, id, message, field, messages) == PoLine(before, line);
        continue;
      }
      if "#, fuzzy" <= line {
        assert PoState(context, id, message, field, messages) == PoLine(before, line);
        continue;
      }
      var (nextField, value) := ReadLine(field, line);
      if value.Some? {
        match nextField {
          case Some(Context) => context := AppendField(context, value.value);
          case Some(MessageId) => id := AppendField(id, value.value);
          case Some(Message) => message := AppendField(message, value.value);
          case None =>
        }
        field := nextField;
      }
      assert PoState(context, id, message, field, messages) == PoLine(before, line);
    }
  }

  // ----- The printer -----

  // An entry whose three texts are broken into quoted chunks, one to a line.
  datatype Chunked = Chunked(context: seq<string>, id: seq<string>, message: seq<string>)

  predicate HasChunks(e: Chunked) {
    e.context != [] && e.id != [] && e.message != []
  }

  predicate Printable(entries: seq<Chunked>) {
    forall i :: 0 <= i < |entries| ==> HasChunks(entries[i])
  }

  function Flat(chunks: seq<string>): string {
    if chunks == [] then "" else chunks[0] + Flat(chunks[1..])
  }

  function QuoteAll(chunks: seq<string>): (lines: seq<string>)
    ensures |lines| == |chunks|
  {
    if chunks == [] then [] else [Quote(chunks[0])] + QuoteAll(chunks[1..])
  }

  function Keyword(field: Field): string {
    match field
    case Context => "msgctxt "
    case MessageId => "msgid "
    case Message => "msgstr "
  }

  function FieldLines(keyword: string, chunks: seq<string>): seq<string>
    requires chunks != []
  {
    [keyword + Quote(chunks[0])] + QuoteAll(chunks[1..])
  }

  function EntryLines(e: Chunked): seq<string>
    requires HasChunks(e)
  {
    FieldLines(Keyword(Context), e.context)
    + (FieldLines(Keyword(MessageId), e.id) + (FieldLines(Keyword(Message), e.message) + [""]))
  }

  function AllLines(entries: seq<Chunked>): seq<string>
    requires Printable(entries)
  {
    if entries == [] then [] else EntryLines(entries[0]) + AllLines(entries[1..])
  }

  function Print(entries: seq<Chunked>): string
    requires Printable(entries)
  {
    Unlines(AllLines(entries))
  }

  // ----- Lines of the printed text -----

  lemma {:induction false} EscapeHasNoLineEnd(text: string)
    ensures '\n' !in Escape(text) && '\r' !in Escape(text)
  {
    if text != [] {
      EscapeHasNoLineEnd(text[1..]);
    }
  }

  lemma {:induction false} QuotedIsLine(keyword: string, chunk: string)
    requires '\n' !in keyword
    ensures IsLine(keyword + Quote(chunk))
  {
    EscapeHasNoLineEnd(chunk);
    var line := keyword + Quote(chunk);
    assert line[|line| - 1] == '"';
  }

  predicate AreLines(lines: seq<string>) {
    forall i :: 0 <= i < |lines| ==> IsLine(lines[i])
  }

  lemma {:induction false} QuoteAllLines(chunks: seq<string>)
    ensures AreLines(QuoteAll(chunks))
  {
    if chunks != [] {
      QuotedIsLine("", chunks[0]);
      assert "" + Quote(chunks[0]) == Quote(chunks[0]);
      QuoteAllLines(chunks[1..]);
    }
  }

  lemma {:induction false} FieldAreLines(keyword: string, chunks: seq<string>)
    requires chunks != [] && '\n' !in keyword
    ensures AreLines(FieldLines(keyword, chunks))
  {
    QuotedIsLine(keyword, chunks[0]);
    QuoteAllLines(chunks[1..]);
  }

  lemma {:induction false} PrintedLines(entries: seq<Chunked>)
    requires Printable(entries)
    ensures AreLines(AllLines(entries))
  {
    if entries != [] {
      FieldAreLines(Keyword(Context), entries[0].context);
      FieldAreLines(Keyword(MessageId), entries[0].id);
      FieldAreLines(Keyword(Message), entries[0].message);
      PrintedLines(entries[1..]);
    }
  }

  // ----- Parsing the printed lines -----

  lemma {:induction false} PoLinesConcat(s: PoState, first: seq<string>, second: seq<string>)
    ensures PoLines(s, first + second) == PoLines(PoLines(s, first), second)
    decreases |first|
  {
    if first == [] {
      assert first + second == second;
    } else {
      assert (first + second)[1..] == first[1..] + second;
      PoLinesConcat(PoLine(s, first[0]), first[1..], second);
    }
  }

  lemma {:induction false} LineStores(s: PoState, line: string, field: Option<Field>, value: string)
    requires line != "" && !IsWhitespace(line[0]) && line[0] != '#'
    requires ReadLine(s.field, line) == (field, Some(value))
    ensures PoLine(s, line) == Store(s, field, value)
  {
    assert "#, fuzzy"[0] == '#';
  }

  lemma {:induction false} ReadQuoted(current: Option<Field>, line: string)
    requires line != "" && line[0] == '"'
    ensures ReadLine(current, line) == (current, PoString(line))
  {
    assert line[..1] == "\"";
    assert "msgctxt "[0] != '"' && "msgid "[0] != '"' && "msgstr "[0] != '"';
  }

  // A quoted line on its own continues the current field.
  lemma {:induction false} ContinuationLine(s: PoState, chunk: string)
    requires s.field.Some?
    ensures PoLine(s, Quote(chunk)) == Store(s, s.field, chunk)
  {
    QuoteRoundTrip(chunk, "", "");
    ReadQuoted(s.field, Quote(chunk));
    LineStores(s, Quote(chunk), s.field, chunk);
  }

  lemma {:induction false} ContinuationLines(s: PoState, chunks: seq<string>)
    requires s.field.Some?
    ensures PoLines(s, QuoteAll(chunks)) == if chunks == [] then s else Store(s, s.field, Flat(chunks))
    decreases |chunks|
  {
    if chunks != [] {
      var rest := chunks[1..];
      var next := Store(s, s.field, chunks[0]);
      ContinuationLine(s, chunks[0]);
      assert QuoteAll(chunks)[1..] == QuoteAll(rest);
      ContinuationLines(next, rest);
      FlatStore(s, chunks);
    }
  }

  lemma {:induction false} FlatStore(s: PoState, chunks: seq<string>)
    requires s.field.Some? && chunks != []
    ensures var next := Store(s, s.field, chunks[0]);
            Store(s, s.field, Flat(chunks)) ==
              if chunks[1..] == [] then next else Store(next, s.field, Flat(chunks[1..]))
  {
    if chunks[1..] == [] {
      assert chunks[0] + Flat(chunks[1..]) == chunks[0];
    } else {
      StoreTwice(s, chunks[0], Flat(chunks[1..]));
    }
  }

  lemma {:induction false} StoreTwice(s: PoState, a: string, b: string)
    requires s.field.Some?
    ensures Store(Store(s, s.field, a), s.field, b) == Store(s, s.field, a + b)
  {
    forall f: Option<string>
      ensures AppendField(AppendField(f, a), b) == AppendField(f, a + b)
    {
      var start := if f.Some? then f.value else "";
      assert start + a + b == start + (a + b);
    }
  }

  lemma {:induction false} ReadKeyword(current: Option<Field>, field: Field, rest: string)
    ensures ReadLine(current, Keyword(field) + rest) == (Some(field), PoString(rest))
  {
    var keyword := Keyword(field);
    var line := keyword + rest;
    assert line[|keyword|..] == rest;
    assert "msgctxt "[3] == 'c' && "msgid "[3] == 'i' && "msgstr "[3] == 's';
    assert line[3] == keyword[3];
  }

  lemma {:induction false} KeywordLine(s: PoState, field: Field, chunk: string)
    ensures PoLine(s, Keyword(field) + Quote(chunk)) == Store(s, Some(field), chunk)
  {
    var line := Keyword(field) + Quote(chunk);
    assert line[0] == 'm' && "#, fuzzy"[0] == '#';
    QuoteRoundTrip(chunk, "", "");
    ReadKeyword(s.field, field, Quote(chunk));
    LineStores(s, line, Some(field), chunk);
  }

  lemma {:induction false} FieldParses(s: PoState, field: Field, chunks: seq<string>)
    requires chunks != []
    ensures PoLines(s, FieldLines(Keyword(field), chunks)) == Store(s, Some(field), Flat(chunks))
  {
    var lines := FieldLines(Keyword(field), chunks);
    assert lines[0] == Keyword(field) + Quote(chunks[0]) && lines[1..] == QuoteAll(chunks[1..]);
    KeywordLine(s, field, chunks[0]);
    ContinuationLines(Store(s, Some(field), chunks[0]), chunks[1..]);
    FlatStore(s.(field := Some(field)), chunks);
  }

  lemma {:induction false} FieldThenRest(s: PoState, field: Field, chunks: seq<string>, rest: seq<string>)
    requires chunks != []
    ensures PoLines(s, FieldLines(Keyword(field), chunks) + rest) == PoLines(Store(s, Some(field), Flat(chunks)), rest)
  {
    PoLinesConcat(s, FieldLines(Keyword(field), chunks), rest);
    FieldParses(s, field, chunks);
  }

  // The entry that the chunks of an entry spell out.
  function Spelled(e: Chunked): Entry {
    Entry(Flat(e.context), Flat(e.id), [Flat(e.message)])
  }

  // What the parser takes from an entry: nothing when the identifier is empty.
  function Taken(e: Chunked): Option<Entry> {
    if Flat(e.id) == "" then None else Some(Spelled(e))
  }

  lemma {:induction false} EntryParses(messages: Messages, e: Chunked)
    requires HasChunks(e)
    ensures PoLines(START.(messages := messages), EntryLines(e)) == START.(messages := Added(messages, Taken(e)))
  {
    var s0 := START.(messages := messages);
    var s1 := Store(s0, Some(Context), Flat(e.context));
    var s2 := Store(s1, Some(MessageId), Flat(e.id));
    var s3 := Store(s2, Some(Message), Flat(e.message));
    var m := FieldLines(Keyword(Message), e.message) + [""];
    var i := FieldLines(Keyword(MessageId), e.id) + m;
    FieldThenRest(s0, Context, e.context, i);
    FieldThenRest(s1, MessageId, e.id, m);
    FieldThenRest(s2, Message, e.message, [""]);
    BlankLine(s3);
    ClosedEntry(s3, messages, e);
  }

  lemma {:induction false} BlankLine(s: PoState)
    ensures PoLines(s, [""]) == CloseEntry(s)
  {
    assert [""][1..] == [];
    assert IsBlank("");
  }

  lemma {:induction false} ClosedEntry(s: PoState, messages: Messages, e: Chunked)
    requires s.messages == messages
    requires s.context == Some("" + Flat(e.context))
    requires s.id == Some("" + Flat(e.id)) && s.message == Some("" + Flat(e.message))
    ensures CloseEntry(s) == START.(messages := Added(messages, Taken(e)))
  {
    assert "" + Flat(e.context) == Flat(e.context) && "" + Flat(e.id) == Flat(e.id);
    assert "" + Flat(e.message) == Flat(e.message);
    var slots := [Flat(e.message)];
    assert AnyText(slots) <==> slots[0] != "";
  }

  function SpelledAll(entries: seq<Chunked>): (r: seq<Entry>)
    ensures |r| == |entries| && forall i :: 0 <= i < |r| ==> r[i] == Spelled(entries[i])
  {
    seq(|entries|, i requires 0 <= i < |entries| => Spelled(entries[i]))
  }

  // Folding entries into a catalog from the front.
  function AddAll(messages: Messages, entries: seq<Entry>): Messages
    decreases |entries|
  {
    if entries == [] then messages else AddAll(Added(messages, Some(entries[0])), entries[1..])
  }

  lemma {:induction false} AddAllLast(messages: Messages, entries: seq<Entry>, last: Entry)
    ensures AddAll(messages, entries + [last]) == Added(AddAll(messages, entries), Some(last))
    decreases |entries|
  {
    if entries == [] {
      assert entries + [last] == [last];
      assert [last][1..] == [];
    } else {
      assert (entries + [last])[1..] == entries[1..] + [last];
      AddAllLast(Added(messages, Some(entries[0])), entries[1..], last);
    }
  }

  lemma {:induction false} AddAllIsMerged(entries: seq<Entry>)
    ensures AddAll(map[], entries) == Merged(entries)
  {
    if entries != [] {
      var before, last := entries[..|entries| - 1], entries[|entries| - 1];
      AddAllIsMerged(before);
      AddAllLast(map[], before, last);
      assert entries == before + [last];
    }
  }

  lemma {:induction false} EntriesParse(messages: Messages, entries: seq<Chunked>)
    requires Printable(entries)
    ensures PoLines(START.(messages := messages), AllLines(entries))
         == START.(messages := AddAll(messages, WithId(SpelledAll(entries))))
    decreases |entries|
  {
    if entries != [] {
      var next := Added(messages, Taken(entries[0]));
      EntryParses(messages, entries[0]);
      PoLinesConcat(START.(messages := messages), EntryLines(entries[0]), AllLines(entries[1..]));
      EntriesParse(next, entries[1..]);
      assert SpelledAll(entries)[1..] == SpelledAll(entries[1..]);
      if Taken(entries[0]).Some? {
        assert ([Spelled(entries[0])] + WithId(SpelledAll(entries[1..])))[1..] == WithId(SpelledAll(entries[1..]));
      } else {
        assert [] + WithId(SpelledAll(entries[1..])) == WithId(SpelledAll(entries[1..]));
      }
    }
  }

  // The parser inverts the printer, however the texts are broken into chunks: it
  // returns the last-wins merge of the printed entries that have an identifier.
  lemma {:induction false} ParserInvertsPrinter(entries: seq<Chunked>)
    requires Printable(entries)
    ensures Parsed(Print(entries)) == Merged(WithId(SpelledAll(entries)))
  {
    var lines := AllLines(entries);
    PrintedLines(entries);
    LinesOfUnlines(lines);
    PoLinesConcat(START, lines, [""]);
    EntriesParse(map[], entries);
    AddAllIsMerged(WithId(SpelledAll(entries)));
    BlankLine(PoLines(START, lines));
  }

  // A line that opens no field and is not quoted changes nothing; comments, and
  // also the mark of a fuzzy entry, are such lines.
  lemma {:induction false} OtherLinesAreIgnored(s: PoState, line: string)
    requires !IsBlank(line)
    requires line[0] != 'm' && line[0] != '"'
    ensures PoLine(s, line) == s
  {
  }

  // ----- Both parsers -----

  predicate AllEncodable(entries: seq<Entry>) {
    forall i :: 0 <= i < |entries| ==> Mo.Encodable(entries[i])
  }

  // For singular entries, the text form and every binary form, in either byte
  // order, are the same catalog if and only if no entry without an identifier
  // wins its context with a text of its own.
  lemma {:induction false} FormsAgree(codec: Mo.Codec, entries: seq<Chunked>, file: seq<Mo.Byte>, header: Mo.Header)
    requires Mo.Inverse(codec) && Printable(entries) && AllEncodable(SpelledAll(entries))
    requires Mo.IsMoFile(codec, file, header, SpelledAll(entries))
    ensures Parsed(Print(entries)) == Mo.Parsed(codec, file) <==> IdsSuffice(SpelledAll(entries))
  {
    ParserInvertsPrinter(entries);
    Mo.ParserInvertsLayout(codec, file, header, SpelledAll(entries));
    DroppingIdsExactly(SpelledAll(entries));
  }

  // Then the printed text and the encoded bytes answer every lookup alike.
  lemma {:induction false} EncodedFormsAgree(
      codec: Mo.Codec, entries: seq<Chunked>, little: bool, key: string, fallback: string)
    requires Mo.Inverse(codec) && Printable(entries) && AllEncodable(SpelledAll(entries))
    requires MoEncoder.FileSize(codec, SpelledAll(entries)) < Mo.U32_LIMIT
    requires IdsSuffice(SpelledAll(entries))
    ensures Get(Parsed(Print(entries)), key, fallback)
         == Get(Mo.Parsed(codec, MoEncoder.Encode(codec, SpelledAll(entries), little)), key, fallback)
  {
    var file, header := EncodedFile(codec, SpelledAll(entries), little);
    FormsAgree(codec, entries, file, header);
  }

  // The encoded file, as a file that carries the entries.
  lemma {:induction false} EncodedFile(codec: Mo.Codec, entries: seq<Entry>, little: bool)
      returns (file: seq<Mo.Byte>, header: Mo.Header)
    requires MoEncoder.FileSize(codec, entries) < Mo.U32_LIMIT
    ensures file == MoEncoder.Encode(codec, entries, little) && Mo.IsMoFile(codec, file, header, entries)
  {
    MoEncoder.EncoderFollowsLayout(codec, entries, little);
    file := MoEncoder.Encode(codec, entries, little);
    header := Mo.Header(little, |entries|, 28, 28 + 8 * |entries|);
  }

  // An empty identifier is where the two differ: the text parser drops the
  // entry, whatever its chunks.
  lemma {:induction false} EmptyIdDropped(messages: Messages, e: Chunked)
    requires HasChunks(e) && Flat(e.id) == ""
    ensures PoLines(START.(messages := messages), EntryLines(e)) == START.(messages := messages)
  {
    EntryParses(messages, e);
  }

  const SAMPLE := Chunked(["c"], [""], ["x"])

  // And the binary parser keeps it: the text of this entry is found in the
  // binary form and missing in the textual one.
  lemma {:induction false} FormsDisagree(codec: Mo.Codec, little: bool)
    requires Mo.Inverse(codec) && MoEncoder.FileSize(codec, SpelledAll([SAMPLE])) < Mo.U32_LIMIT
    ensures Get(Parsed(Print([SAMPLE])), "c", "fallback") == "fallback"
    ensures Get(Mo.Parsed(codec, MoEncoder.Encode(codec, SpelledAll([SAMPLE]), little)), "c", "fallback") == "x"
  {
    var entries := SpelledAll([SAMPLE]);
    var file, header := EncodedFile(codec, entries, little);
    SampleSpelled();
    ParserInvertsPrinter([SAMPLE]);
    Mo.ParserInvertsLayout(codec, file, header, entries);
    assert IsLastOf(entries, "c", 0);
    MergedLookup(entries, "c");
  }

  lemma {:induction false} SampleSpelled()
    ensures SpelledAll([SAMPLE]) == [Entry("c", "", ["x"])]
    ensures WithId(SpelledAll([SAMPLE])) == [] && AllEncodable(SpelledAll([SAMPLE]))
    ensures AnyText(["x"])
  {
    assert ["c"][1..] == [] && [""][1..] == [] && ["x"][1..] == [];
    assert Flat(["c"]) == "c" && Flat([""]) == "" && Flat(["x"]) == "x";
    assert SpelledAll([SAMPLE])[1..] == [];
    assert ["x"][0] == "x";
  }
}
