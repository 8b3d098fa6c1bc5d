/**
 The binary catalog parser, and the file layout it inverts: section 10.3 of the
 GNU gettext manual, "The Format of GNU MO Files".
 */
module MoCatalog {
  import opened Wrappers
  import opened Catalogs
  import opened Text

  newtype Byte = n: int | 0 <= n < 256

  const USIZE_MAX := 0xFFFF_FFFF_FFFF_FFFF

  const U32_LIMIT := 0x1_0000_0000

  // `encode` is UTF-8 encoding and `lossy` is `String::from_utf8_lossy`. All that
  // is used of them is that decoding inverts encoding.
  datatype Codec = Codec(encode: string -> seq<Byte>, lossy: seq<Byte> -> string)

  ghost predicate Inverse(codec: Codec) {
    forall t: string :: codec.lossy(codec.encode(t)) == t
  }

  // ----- The parser -----

  function SaturatingAdd(a: nat, b: nat): nat {
    if a + b > USIZE_MAX then USIZE_MAX else a + b
  }

  function SaturatingMul(a: nat, b: nat): nat {
    if a * b > USIZE_MAX then USIZE_MAX else a * b
  }

  // `source.get(start..end)`.
  function GetRange(source: seq<Byte>, start: nat, end: nat): Option<seq<Byte>> {
    if start <= end <= |source| then Some(source[start..end]) else None
  }

  function Combine(b0: Byte, b1: Byte, b2: Byte, b3: Byte): nat {
    b0 as nat + 0x100 * (b1 as nat) + 0x1_0000 * (b2 as nat) + 0x100_0000 * (b3 as nat)
  }

  function WordValue(bytes: seq<Byte>, little: bool): nat
    requires |bytes| == 4
  {
    if little then Combine(bytes[0], bytes[1], bytes[2], bytes[3])
    else Combine(bytes[3], bytes[2], bytes[1], bytes[0])
  }

  function ReadU32(source: seq<Byte>, offset: nat, little: bool): Option<nat> {
    match GetRange(source, offset, SaturatingAdd(offset, 4))
    case None => None
    case Some(bytes) => if |bytes| == 4 then Some(WordValue(bytes, little)) else None
  }

  function MoSlice(source: seq<Byte>, offset: nat, length: nat): Option<seq<Byte>> {
    if offset + length > USIZE_MAX then None else GetRange(source, offset, offset + length)
  }

  function SplitOnce(text: string, separator: char): Option<(string, string)> {
    match Find(separator, text)
    case None => None
    case Some(k) => Some((text[..k], text[k + 1..]))
  }

  function Split(text: string, separator: char): seq<string>
    decreases |text|
  {
    match Find(separator, text)
    case None => [text]
    case Some(k) => [text[..k]] + Split(text[k + 1..], separator)
  }

  datatype Header = Header(little: bool, count: nat, originals: nat, translations: nat)

  function ByteOrder(source: seq<Byte>): Option<bool> {
    if |source| < 4 then None
    else if source[..4] == [0xde, 0x12, 0x04, 0x95] then Some(true)
    else if source[..4] == [0x95, 0x04, 0x12, 0xde] then Some(false)
    else None
  }

  function ReadHeader(source: seq<Byte>): Option<Header> {
    match ByteOrder(source)
    case None => None
    case Some(little) =>
      if ReadU32(source, 4, little) != Some(0) then None
      else
        var count, originals, translations :=
          ReadU32(source, 8, little), ReadU32(source, 12, little), ReadU32(source, 16, little);
        if count.None? || originals.None? || translations.None? then None
        else Some(Header(little, count.value, originals.value, translations.value))
  }

  function DescriptorAt(table: nat, index: nat): nat {
    SaturatingAdd(table, SaturatingMul(index, 8))
  }

  // The string that the descriptor at index of a table points to.
  function Described(source: seq<Byte>, little: bool, table: nat, index: nat): Option<seq<Byte>> {
    var at := DescriptorAt(table, index);
    var length, offset := ReadU32(source, at, little), ReadU32(source, SaturatingAdd(at, 4), little);
    if length.None? || offset.None? then None else MoSlice(source, offset.value, length.value)
  }

  // One entry, decoded on its own: None when a descriptor or a string is out of
  // range or the original has no context.
  function EntryAt(codec: Codec, source: seq<Byte>, header: Header, index: nat): Option<Entry> {
    var original := Described(source, header.little, header.originals, index);
    var translation := Described(source, header.little, header.translations, index);
    if original.None? || translation.None? then None
    else match SplitOnce(codec.lossy(original.value), '\U{0004}')
      case None => None
      case Some((context, id)) => Some(Entry(context, id, Split(codec.lossy(translation.value), '\0')))
  }

  function Entries(codec: Codec, source: seq<Byte>, header: Header): nat -> Option<Entry> {
    (index: nat) => EntryAt(codec, source, header, index)
  }

  // The catalog of arbitrary bytes: the last-wins merge of the entries that
  // decode, each on its own.
  function Parsed(codec: Codec, source: seq<Byte>): Messages {
    match ReadHeader(source)
    case None => map[]
    case Some(header) => Merged(Collect(Entries(codec, source, header), header.count))
  }

  // The parser terminates on arbitrary bytes, reads nothing out of range, and
  // returns the merge of the independently decoded entries.
  method FromMo(codec: Codec, source: seq<Byte>) returns (messages: Messages)
    ensures messages == Parsed(codec, source)
  {
    messages := map[];
    var order := ByteOrder(source);
    if order.None? {
      return;
    }
    var little := order.value;
    var version := ReadU32(source, 4, little);
    if version != Some(0) {
      return;
    }
    var count := ReadU32(source, 8, little);
    if count.None? {
      return;
    }
    var originalTable := ReadU32(source, 12, little);
    if originalTable.None? {
      return;
    }
    var translationTable := ReadU32(source, 16, little);
    if translationTable.None? {
      return;
    }
    var header := Header(little, count.value, originalTable.value, translationTable.value);
    ghost var candidates := Entries(codec, source, header);
    for index := 0 to header.count
      invariant messages == Merged(Collect(candidates, index))
    {
      MergedStep(candidates, index);
      var entry := DecodeEntry(codec, source, header, index);
      if entry.Some? && AnyText(entry.value.slots) {
        messages := messages[entry.value.context := entry.value.slots];
      }
    }
  }

  // The body of the parser's loop; each early return is one of its `continue`s.
  method DecodeEntry(codec: Codec, source: seq<Byte>, header: Header, index: nat) returns (entry: Option<Entry>)
    ensures entry == EntryAt(codec, source, header, index)
  {
    var original := Described(source, header.little, header.originals, index);
    if original.None? {
      return None;
    }
    var translation := Described(source, header.little, header.translations, index);
    if translation.None? {
      return None;
    }
    var split := SplitOnce(codec.lossy(original.value), '\U{0004}');
    if split.None? {
      return None;
    }
    return Some(Entry(split.value.0, split.value.1, Split(codec.lossy(translation.value), '\0')));
  }

  // ----- Damage stays local -----

  // Two files of the same length have the same bytes in this range.
  predicate Agree(a: seq<Byte>, b: seq<Byte>, from: nat, length: nat) {
    |a| == |b| && forall p :: from <= p < from + length && p < |a| ==> a[p] == b[p]
  }

  // The descriptor and the string that it points to, if any, are the same bytes.
  predicate SameString(a: seq<Byte>, b: seq<Byte>, little: bool, table: nat, index: nat) {
    var at := DescriptorAt(table, index);
    var length, offset := ReadU32(a, at, little), ReadU32(a, SaturatingAdd(at, 4), little);
    Agree(a, b, at, 8) && (length.Some? && offset.Some? ==> Agree(a, b, offset.value, length.value))
  }

  predicate SameEntry(a: seq<Byte>, b: seq<Byte>, header: Header, index: nat) {
    SameString(a, b, header.little, header.originals, index)
    && SameString(a, b, header.little, header.translations, index)
  }

  // The files have the same header, and the bytes of every entry but one.
  predicate DifferOnlyIn(a: seq<Byte>, b: seq<Byte>, header: Header, k: nat) {
    Agree(a, b, 0, 20) && forall i :: 0 <= i < header.count && i != k ==> SameEntry(a, b, header, i)
  }

  lemma {:induction false} RangeAgrees(a: seq<Byte>, b: seq<Byte>, start: nat, end: nat)
    requires start <= end ==> Agree(a, b, start, end - start)
    requires |a| == |b|
    ensures GetRange(a, start, end) == GetRange(b, start, end)
  {
    if start <= end <= |a| {
      assert a[start..end] == b[start..end];
    }
  }

  lemma {:induction false} ReadAgrees(a: seq<Byte>, b: seq<Byte>, offset: nat, little: bool)
    requires Agree(a, b, offset, 4)
    ensures ReadU32(a, offset, little) == ReadU32(b, offset, little)
  {
    RangeAgrees(a, b, offset, SaturatingAdd(offset, 4));
  }

  lemma {:induction false} NothingAtTheEnd(a: seq<Byte>, little: bool)
    ensures ReadU32(a, USIZE_MAX, little) == None
  {
  }

  lemma {:induction false} HeaderAgrees(a: seq<Byte>, b: seq<Byte>)
    requires Agree(a, b, 0, 20)
    ensures ReadHeader(a) == ReadHeader(b)
  {
    if |a| >= 4 {
      assert a[..4] == b[..4];
    }
    forall offset, little | offset in {4, 8, 12, 16}
      ensures ReadU32(a, offset, little) == ReadU32(b, offset, little)
    {
      ReadAgrees(a, b, offset, little);
    }
  }

  lemma {:induction false} WordsAgree(a: seq<Byte>, b: seq<Byte>, at: nat, little: bool)
    requires Agree(a, b, at, 8)
    ensures ReadU32(a, at, little) == ReadU32(b, at, little)
    ensures ReadU32(a, SaturatingAdd(at, 4), little) == ReadU32(b, SaturatingAdd(at, 4), little)
  {
    ReadAgrees(a, b, at, little);
    if at + 4 <= USIZE_MAX {
      ReadAgrees(a, b, at + 4, little);
    } else {
      NothingAtTheEnd(a, little);
      NothingAtTheEnd(b, little);
    }
  }

  lemma {:induction false} SliceAgrees(a: seq<Byte>, b: seq<Byte>, offset: nat, length: nat)
    requires Agree(a, b, offset, length)
    ensures MoSlice(a, offset, length) == MoSlice(b, offset, length)
  {
    RangeAgrees(a, b, offset, offset + length);
  }

  lemma {:induction false} DescribedAgrees(a: seq<Byte>, b: seq<Byte>, little: bool, table: nat, index: nat)
    requires SameString(a, b, little, table, index)
    ensures Described(a, little, table, index) == Described(b, little, table, index)
  {
    var at := DescriptorAt(table, index);
    WordsAgree(a, b, at, little);
    var length, offset := ReadU32(a, at, little), ReadU32(a, SaturatingAdd(at, 4), little);
    if length.Some? && offset.Some? {
      SliceAgrees(a, b, offset.value, length.value);
    }
  }

  lemma {:induction false} EntryAgrees(codec: Codec, a: seq<Byte>, b: seq<Byte>, header: Header, i: nat)
    requires SameEntry(a, b, header, i)
    ensures EntryAt(codec, a, header, i) == EntryAt(codec, b, header, i)
  {
    DescribedAgrees(a, b, header.little, header.originals, i);
    DescribedAgrees(a, b, header.little, header.translations, i);
  }

  // Damage to the descriptors and strings of one entry loses nothing but that
  // entry: every other context is answered alike.
  lemma {:induction false} DamageIsLocal(
      codec: Codec, a: seq<Byte>, b: seq<Byte>, header: Header, k: nat, key: string)
    requires ReadHeader(a) == Some(header) && DifferOnlyIn(a, b, header, k)
    requires !IsContext(EntryAt(codec, a, header, k), key) && !IsContext(EntryAt(codec, b, header, k), key)
    ensures Alike(Parsed(codec, a), Parsed(codec, b), key)
  {
    HeaderAgrees(a, b);
    forall i: nat | i < header.count && i != k
      ensures EntryAt(codec, a, header, i) == EntryAt(codec, b, header, i)
    {
      EntryAgrees(codec, a, b, header, i);
    }
    MergedElsewhere(Entries(codec, a, header), Entries(codec, b, header), header.count, k, key);
  }

  // ----- Files that carry a list of entries -----

  function Join(slots: seq<string>, separator: char): string {
    if slots == [] then ""
    else if |slots| == 1 then slots[0]
    else slots[0] + [separator] + Join(slots[1..], separator)
  }

  function Original(codec: Codec, entry: Entry): seq<Byte> {
    codec.encode(entry.context + ['\U{0004}'] + entry.id)
  }

  function Translation(codec: Codec, entry: Entry): seq<Byte> {
    codec.encode(Join(entry.slots, '\0'))
  }

  // Contexts hold no separator and slots no NUL, so that they can be told apart.
  predicate Encodable(entry: Entry) {
    && '\U{0004}' !in entry.context
    && entry.slots != []
    && forall i :: 0 <= i < |entry.slots| ==> '\0' !in entry.slots[i]
  }

  // The descriptor at this position gives the length and place of these bytes.
  predicate PointsTo(file: seq<Byte>, little: bool, at: nat, bytes: seq<Byte>) {
    && ReadU32(file, at, little) == Some(|bytes|)
    && ReadU32(file, at + 4, little).Some?
    && var offset := ReadU32(file, at + 4, little).value;
       offset + |bytes| <= |file| && file[offset..offset + |bytes|] == bytes
  }

  // A file laid out as the format prescribes, with its tables and strings
  // anywhere in the file and in any order.
  predicate IsMoFile(codec: Codec, file: seq<Byte>, header: Header, entries: seq<Entry>) {
    && |file| < U32_LIMIT
    && ReadHeader(file) == Some(header)
    && header.count == |entries|
    && header.originals + 8 * |entries| <= |file|
    && header.translations + 8 * |entries| <= |file|
    && forall i :: 0 <= i < |entries| ==> Carries(codec, file, header, entries[i], i)
  }

  predicate Carries(codec: Codec, file: seq<Byte>, header: Header, entry: Entry, i: nat) {
    && PointsTo(file, header.little, header.originals + 8 * i, Original(codec, entry))
    && PointsTo(file, header.little, header.translations + 8 * i, Translation(codec, entry))
  }

  lemma {:induction false} SplitOnceInverse(before: string, after: string, separator: char)
    requires separator !in before
    ensures SplitOnce(before + [separator] + after, separator) == Some((before, after))
  {
    var text := before + [separator] + after;
    FindAt(separator, before, after);
    assert text[..|before|] == before && text[|before| + 1..] == after;
  }

  lemma {:induction false} SplitInverse(slots: seq<string>, separator: char)
    requires slots != [] && forall i :: 0 <= i < |slots| ==> separator !in slots[i]
    ensures Split(Join(slots, separator), separator) == slots
  {
    if |slots| == 1 {
      assert separator !in slots[0];
      assert Split(slots[0], separator) == [slots[0]];
    } else {
      var rest := Join(slots[1..], separator);
      var text := slots[0] + [separator] + rest;
      FindAt(separator, slots[0], rest);
      assert text[..|slots[0]|] == slots[0] && text[|slots[0]| + 1..] == rest;
      SplitInverse(slots[1..], separator);
    }
  }

  lemma {:induction false} DescribedPoints(file: seq<Byte>, little: bool, table: nat, index: nat, bytes: seq<Byte>)
    requires |file| < U32_LIMIT && table + 8 * index + 8 <= |file|
    requires PointsTo(file, little, table + 8 * index, bytes)
    ensures Described(file, little, table, index) == Some(bytes)
  {
  }

  lemma {:induction false} EntryDecodes(codec: Codec, file: seq<Byte>, header: Header, entries: seq<Entry>, i: nat)
    requires Inverse(codec) && IsMoFile(codec, file, header, entries)
    requires i < |entries| && Encodable(entries[i])
    ensures EntryAt(codec, file, header, i) == Some(entries[i])
  {
    var entry := entries[i];
    assert Carries(codec, file, header, entry, i);
    DescribedPoints(file, header.little, header.originals, i, Original(codec, entry));
    DescribedPoints(file, header.little, header.translations, i, Translation(codec, entry));
    SplitOnceInverse(entry.context, entry.id, '\U{0004}');
    SplitInverse(entry.slots, '\0');
  }

  lemma {:induction false} CollectAll(candidate: nat -> Option<Entry>, entries: seq<Entry>, n: nat)
    requires n <= |entries| && forall i: nat :: i < |entries| ==> candidate(i) == Some(entries[i])
    ensures Collect(candidate, n) == entries[..n]
  {
    if n > 0 {
      CollectAll(candidate, entries, n - 1);
      assert entries[..n] == entries[..n - 1] + [entries[n - 1]];
    }
  }

  lemma {:induction false} CandidatesMatch(codec: Codec, file: seq<Byte>, header: Header, entries: seq<Entry>)
    requires Inverse(codec) && IsMoFile(codec, file, header, entries)
    requires forall i :: 0 <= i < |entries| ==> Encodable(entries[i])
    ensures forall i: nat :: i < |entries| ==> Entries(codec, file, header)(i) == Some(entries[i])
  {
    forall i: nat | i < |entries|
      ensures EntryAt(codec, file, header, i) == Some(entries[i])
    {
      EntryDecodes(codec, file, header, entries, i);
    }
  }

  // The parser inverts every file that carries the entries, in either byte order.
  lemma {:induction false} ParserInvertsLayout(codec: Codec, file: seq<Byte>, header: Header, entries: seq<Entry>)
    requires Inverse(codec) && IsMoFile(codec, file, header, entries)
    requires forall i :: 0 <= i < |entries| ==> Encodable(entries[i])
    ensures Parsed(codec, file) == Merged(entries)
  {
    CandidatesMatch(codec, file, header, entries);
    CollectAll(Entries(codec, file, header), entries, |entries|);
    assert entries[..|entries|] == entries;
  }
}
