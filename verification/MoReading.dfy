/**
 What a binary catalog means, from its bytes: the header, the words, the strings
 that the tables point to, the entries and the catalog.
 */
module MoReading {
  import opened Wrappers
  import opened Catalogs
  import opened Text
  import opened MoCatalog

  // ----- Words -----

  // The number with these digits in base 256, the lowest first.
  function FromDigits(bytes: seq<Byte>): nat {
    if bytes == [] then 0 else bytes[0] as nat + 0x100 * FromDigits(bytes[1..])
  }

  function Backwards(bytes: seq<Byte>): seq<Byte> {
    if bytes == [] then [] else Backwards(bytes[1..]) + [bytes[0]]
  }

  // Little-endian files have the lowest digit first, the others last.
  function WordAt(source: seq<Byte>, at: nat, little: bool): nat
    requires at + 4 <= |source|
  {
    FromDigits(if little then source[at..at + 4] else Backwards(source[at..at + 4]))
  }

  lemma {:induction false} DigitsNext(first: Byte, rest: seq<Byte>)
    ensures FromDigits([first] + rest) == first as nat + 0x100 * FromDigits(rest)
    ensures Backwards([first] + rest) == Backwards(rest) + [first]
  {
    assert ([first] + rest)[1..] == rest;
  }

  lemma {:induction false} FourDigits(a: Byte, b: Byte, c: Byte, d: Byte)
    ensures FromDigits([a, b, c, d]) == Combine(a, b, c, d)
    ensures Backwards([a, b, c, d]) == [d, c, b, a]
  {
    DigitsNext(d, []);
    DigitsNext(c, [d]);
    DigitsNext(b, [c, d]);
    DigitsNext(a, [b, c, d]);
    assert [d] + [] == [d] && [c] + [d] == [c, d] && [b] + [c, d] == [b, c, d] && [a] + [b, c, d] == [a, b, c, d];
  }

  lemma {:induction false} WordIsDigits(bytes: seq<Byte>, little: bool)
    requires |bytes| == 4
    ensures WordValue(bytes, little) == FromDigits(if little then bytes else Backwards(bytes))
  {
    var a, b, c, d := bytes[0], bytes[1], bytes[2], bytes[3];
    assert bytes == [a, b, c, d];
    FourDigits(a, b, c, d);
    FourDigits(d, c, b, a);
  }

  // A word is read exactly where four bytes are left.
  lemma {:induction false} ReadExactly(source: seq<Byte>, at: nat, little: bool)
    requires at + 4 <= USIZE_MAX
    ensures ReadU32(source, at, little) == if at + 4 <= |source| then Some(WordAt(source, at, little)) else None
  {
    if at + 4 <= |source| {
      WordIsDigits(source[at..at + 4], little);
    }
  }

  // ----- Header -----

  const LITTLE_MAGIC: seq<Byte> := [0xde, 0x12, 0x04, 0x95]

  const BIG_MAGIC: seq<Byte> := [0x95, 0x04, 0x12, 0xde]

  // A file has a header exactly if it has twenty bytes, one of the two magic
  // numbers and the version zero; the counts and places follow as words.
  lemma {:induction false} HeaderExactly(source: seq<Byte>)
    ensures ReadHeader(source).Some? <==>
              && |source| >= 20
              && (source[..4] == LITTLE_MAGIC || source[..4] == BIG_MAGIC)
              && WordAt(source, 4, source[..4] == LITTLE_MAGIC) == 0
    ensures ReadHeader(source).Some? ==>
              var little := source[..4] == LITTLE_MAGIC;
              ReadHeader(source).value
              == Header(little, WordAt(source, 8, little), WordAt(source, 12, little), WordAt(source, 16, little))
  {
    var little := |source| >= 4 && source[..4] == LITTLE_MAGIC;
    ReadExactly(source, 4, little);
    ReadExactly(source, 8, little);
    ReadExactly(source, 12, little);
    ReadExactly(source, 16, little);
    assert LITTLE_MAGIC[0] != BIG_MAGIC[0];
  }

  // ----- Strings -----

  // The descriptor at this index of a table is in the file, and so is the string
  // that it gives the length and the place of.
  predicate StringAt(source: seq<Byte>, little: bool, table: nat, index: nat, bytes: seq<Byte>) {
    var at := table + 8 * index;
    && at + 8 <= |source|
    && var length, offset := WordAt(source, at, little), WordAt(source, at + 4, little);
       offset + length <= |source| && bytes == source[offset..offset + length]
  }

  lemma {:induction false} DescribedExactly(
      source: seq<Byte>, little: bool, table: nat, index: nat, bytes: seq<Byte>)
    requires |source| <= USIZE_MAX && table < U32_LIMIT && index < U32_LIMIT
    ensures Described(source, little, table, index) == Some(bytes) <==> StringAt(source, little, table, index, bytes)
  {
    var at := table + 8 * index;
    assert DescriptorAt(table, index) == at;
    ReadExactly(source, at, little);
    ReadExactly(source, at + 4, little);
  }

  // ----- Entries -----

  // The slots are those of a text: joined by the separator, which none contains,
  // they are the text.
  predicate AreSlotsOf(slots: seq<string>, text: string, separator: char) {
    slots != [] && Join(slots, separator) == text && forall i :: 0 <= i < |slots| ==> separator !in slots[i]
  }

  lemma {:induction false} SplitExactly(text: string, separator: char, slots: seq<string>)
    ensures Split(text, separator) == slots <==> AreSlotsOf(slots, text, separator)
  {
    SplitIsSlots(text, separator);
    if AreSlotsOf(slots, text, separator) {
      SplitInverse(slots, separator);
    }
  }

  lemma {:induction false} SplitIsSlots(text: string, separator: char)
    ensures AreSlotsOf(Split(text, separator), text, separator)
    decreases |text|
  {
    match Find(separator, text) {
      case None =>
      case Some(k) =>
        var rest := Split(text[k + 1..], separator);
        SplitIsSlots(text[k + 1..], separator);
        assert ([text[..k]] + rest)[1..] == rest;
        assert text == text[..k] + [separator] + text[k + 1..];
    }
  }

  lemma {:induction false} SplitOnceExactly(text: string, separator: char, before: string, after: string)
    ensures SplitOnce(text, separator) == Some((before, after)) <==>
              text == before + [separator] + after && separator !in before
    ensures SplitOnce(text, separator) == None <==> separator !in text
  {
    if text == before + [separator] + after && separator !in before {
      SplitOnceInverse(before, after, separator);
    }
    match Find(separator, text) {
      case None =>
      case Some(k) =>
        assert text == text[..k] + [separator] + text[k + 1..];
    }
  }

  // The text that a string of the file decodes to.
  predicate Says(codec: Codec, source: seq<Byte>, little: bool, table: nat, index: nat, text: string) {
    var found := Described(source, little, table, index);
    found.Some? && codec.lossy(found.value) == text
  }

  // An entry is read exactly if both its strings are in the file, its context is
  // what stands before the first separator of the original, and its slots are
  // those of the translation.
  lemma {:induction false} EntryExactly(
      codec: Codec, source: seq<Byte>, header: Header, index: nat, entry: Entry)
    ensures EntryAt(codec, source, header, index) == Some(entry) <==>
              && '\U{0004}' !in entry.context
              && Says(codec, source, header.little, header.originals, index,
                      entry.context + ['\U{0004}'] + entry.id)
              && entry.slots != [] && (forall i :: 0 <= i < |entry.slots| ==> '\0' !in entry.slots[i])
              && Says(codec, source, header.little, header.translations, index, Join(entry.slots, '\0'))
  {
    var original := Described(source, header.little, header.originals, index);
    var translation := Described(source, header.little, header.translations, index);
    if original.Some? && translation.Some? {
      SplitOnceExactly(codec.lossy(original.value), '\U{0004}', entry.context, entry.id);
      SplitExactly(codec.lossy(translation.value), '\0', entry.slots);
    }
  }

  // ----- The catalog -----

  predicate Hits(entry: Option<Entry>, key: string) {
    IsContext(entry, key) && AnyText(entry.value.slots)
  }

  // Among the first n candidates this is the last of its context with text.
  predicate Wins(candidate: nat -> Option<Entry>, n: nat, key: string, i: nat) {
    i < n && Hits(candidate(i), key) && forall j: nat :: i < j < n ==> !Hits(candidate(j), key)
  }

  lemma {:induction false} WinsNext(candidate: nat -> Option<Entry>, n: nat, key: string, i: nat)
    ensures Wins(candidate, n + 1, key, i) <==>
              if Hits(candidate(n), key) then i == n else Wins(candidate, n, key, i)
  {
  }

  // The catalog answers for this context as its winner among the first n.
  ghost predicate Answers(messages: Messages, candidate: nat -> Option<Entry>, n: nat, key: string) {
    && (key in messages <==> exists i: nat :: Wins(candidate, n, key, i))
    && (forall i: nat :: Wins(candidate, n, key, i) ==>
          key in messages && messages[key] == candidate(i).value.slots)
  }

  lemma {:induction false} AnswersNext(messages: Messages, candidate: nat -> Option<Entry>, n: nat, key: string)
    requires Answers(messages, candidate, n, key)
    ensures Answers(Added(messages, candidate(n)), candidate, n + 1, key)
  {
    forall i: nat
      ensures Wins(candidate, n + 1, key, i) <==>
                if Hits(candidate(n), key) then i == n else Wins(candidate, n, key, i)
    {
      WinsNext(candidate, n, key, i);
    }
  }

  lemma {:induction false} CollectedAnswers(candidate: nat -> Option<Entry>, n: nat, key: string)
    ensures Answers(Merged(Collect(candidate, n)), candidate, n, key)
  {
    if n > 0 {
      CollectedAnswers(candidate, n - 1, key);
      CollectedNext(candidate, n - 1, key);
    }
  }

  lemma {:induction false} CollectedNext(candidate: nat -> Option<Entry>, n: nat, key: string)
    requires Answers(Merged(Collect(candidate, n)), candidate, n, key)
    ensures Answers(Merged(Collect(candidate, n + 1)), candidate, n + 1, key)
  {
    MergedStep(candidate, n);
    AnswersNext(Merged(Collect(candidate, n)), candidate, n, key);
  }

  // The catalog of any bytes holds, for each context, the slots of the last entry
  // of the file that is readable, has that context and has text; without a header
  // it holds nothing.
  lemma {:induction false} ParsedExactly(codec: Codec, source: seq<Byte>, key: string)
    ensures ReadHeader(source).None? ==> Parsed(codec, source) == map[]
    ensures ReadHeader(source).Some? ==>
              var header := ReadHeader(source).value;
              Answers(Parsed(codec, source), Entries(codec, source, header), header.count, key)
  {
    if ReadHeader(source).Some? {
      var header := ReadHeader(source).value;
      CollectedAnswers(Entries(codec, source, header), header.count, key);
    }
  }

  // ----- Entries without a context -----

  function Shifted(i: nat, k: nat): nat {
    if i < k then i else i + 1
  }

  // The second file has the strings of the first and one entry more, at this
  // place.
  predicate AddsEntry(a: seq<Byte>, ha: Header, b: seq<Byte>, hb: Header, k: nat) {
    && k <= ha.count && hb.count == ha.count + 1
    && forall i: nat :: i < ha.count ==> SameStrings(a, ha, i, b, hb, Shifted(i, k))
  }

  predicate SameStrings(a: seq<Byte>, ha: Header, i: nat, b: seq<Byte>, hb: Header, j: nat) {
    && Described(a, ha.little, ha.originals, i) == Described(b, hb.little, hb.originals, j)
    && Described(a, ha.little, ha.translations, i) == Described(b, hb.little, hb.translations, j)
  }

  lemma {:induction false} CollectSkips(a: nat -> Option<Entry>, b: nat -> Option<Entry>, n: nat, k: nat)
    requires k < n && b(k).None?
    requires forall i: nat :: i < n - 1 ==> a(i) == b(Shifted(i, k))
    ensures Collect(b, n) == Collect(a, n - 1)
  {
    if k == n - 1 {
      CollectSame(a, b, k);
      assert Collect(a, k) + [] == Collect(a, k);
    } else {
      CollectSkips(a, b, n - 1, k);
      assert a(n - 2) == b(n - 1);
    }
  }

  lemma {:induction false} CollectSame(a: nat -> Option<Entry>, b: nat -> Option<Entry>, n: nat)
    requires forall i: nat :: i < n ==> a(i) == b(i)
    ensures Collect(a, n) == Collect(b, n)
  {
    if n > 0 {
      CollectSame(a, b, n - 1);
    }
  }

  // Every catalog starts with a header entry, whose original has no context. Such
  // an entry, wherever it is added, changes nothing.
  lemma {:induction false} EntryWithoutContext(
      codec: Codec, a: seq<Byte>, ha: Header, b: seq<Byte>, hb: Header, k: nat, original: string)
    requires ReadHeader(a) == Some(ha) && ReadHeader(b) == Some(hb) && AddsEntry(a, ha, b, hb, k)
    requires Says(codec, b, hb.little, hb.originals, k, original) && '\U{0004}' !in original
    ensures Parsed(codec, b) == Parsed(codec, a)
  {
    NoEntry(codec, b, hb, k, original);
    EntriesShift(codec, a, ha, b, hb, k);
    CollectSkips(Entries(codec, a, ha), Entries(codec, b, hb), hb.count, k);
    ParsedFrom(codec, a, ha);
    ParsedFrom(codec, b, hb);
  }

  lemma {:induction false} EntriesShift(
      codec: Codec, a: seq<Byte>, ha: Header, b: seq<Byte>, hb: Header, k: nat)
    requires AddsEntry(a, ha, b, hb, k)
    ensures forall i: nat :: i < ha.count ==> Entries(codec, a, ha)(i) == Entries(codec, b, hb)(Shifted(i, k))
  {
    forall i: nat | i < ha.count
      ensures Entries(codec, a, ha)(i) == Entries(codec, b, hb)(Shifted(i, k))
    {
      SameEntryRead(codec, a, ha, i, b, hb, Shifted(i, k));
    }
  }

  lemma {:induction false} ParsedFrom(codec: Codec, source: seq<Byte>, header: Header)
    requires ReadHeader(source) == Some(header)
    ensures Parsed(codec, source) == Merged(Collect(Entries(codec, source, header), header.count))
  {
  }

  lemma {:induction false} NoEntry(codec: Codec, source: seq<Byte>, header: Header, k: nat, original: string)
    requires Says(codec, source, header.little, header.originals, k, original) && '\U{0004}' !in original
    ensures EntryAt(codec, source, header, k).None?
  {
    SplitOnceExactly(original, '\U{0004}', "", "");
  }

  lemma {:induction false} SameEntryRead(
      codec: Codec, a: seq<Byte>, ha: Header, i: nat, b: seq<Byte>, hb: Header, j: nat)
    requires SameStrings(a, ha, i, b, hb, j)
    ensures EntryAt(codec, a, ha, i) == EntryAt(codec, b, hb, j)
  {
  }
}
