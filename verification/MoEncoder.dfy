/** A writer of binary catalogs in either byte order, and the round trip through the parser. */
module MoEncoder {
  import opened Wrappers
  import opened Catalogs
  import opened MoCatalog

  type Bytes = seq<Byte>

  lemma {:induction false} WordExists(n: nat, little: bool)
    requires n < U32_LIMIT
    ensures exists bytes: Bytes :: |bytes| == 4 && WordValue(bytes, little) == n
  {
    var d0, q1 := n % 0x100, n / 0x100;
    var d1, q2 := q1 % 0x100, q1 / 0x100;
    var d2, d3 := q2 % 0x100, q2 / 0x100;
    assert n == 0x100 * q1 + d0 && q1 == 0x100 * q2 + d1 && q2 == 0x100 * d3 + d2;
    WordFrom(n, d0, d1, d2, d3, little);
  }

  lemma {:induction false} WordFrom(n: nat, d0: nat, d1: nat, d2: nat, d3: nat, little: bool)
    requires d0 < 0x100 && d1 < 0x100 && d2 < 0x100 && d3 < 0x100
    requires n == d0 + 0x100 * d1 + 0x1_0000 * d2 + 0x100_0000 * d3
    ensures exists bytes: Bytes :: |bytes| == 4 && WordValue(bytes, little) == n
  {
    var low: Bytes := [d0 as Byte, d1 as Byte, d2 as Byte, d3 as Byte];
    var high: Bytes := [d3 as Byte, d2 as Byte, d1 as Byte, d0 as Byte];
    var bytes := if little then low else high;
    assert WordValue(bytes, little) == n;
  }

  // The four bytes that have this value in the file's byte order.
  ghost function Word(n: nat, little: bool): (bytes: Bytes)
    ensures |bytes| == 4
    ensures n < U32_LIMIT ==> WordValue(bytes, little) == n
  {
    if n >= U32_LIMIT then [0, 0, 0, 0]
    else
      WordExists(n, little);
      var bytes: Bytes :| |bytes| == 4 && WordValue(bytes, little) == n;
      bytes
  }

  ghost function WordBytes(words: seq<nat>, little: bool): (bytes: Bytes)
    ensures |bytes| == 4 * |words|
  {
    if words == [] then [] else Word(words[0], little) + WordBytes(words[1..], little)
  }

  function Magic(little: bool): (bytes: Bytes)
    ensures |bytes| == 4
  {
    if little then [0xde, 0x12, 0x04, 0x95] else [0x95, 0x04, 0x12, 0xde]
  }

  // The strings, each followed by a NUL.
  function Pool(strings: seq<Bytes>): Bytes {
    if strings == [] then [] else strings[0] + [0] + Pool(strings[1..])
  }

  // Where a string starts in the pool.
  function Start(strings: seq<Bytes>, i: nat): nat
    requires i < |strings|
  {
    if i == 0 then 0 else |strings[0]| + 1 + Start(strings[1..], i - 1)
  }

  // The originals of all entries, then the translations of all entries.
  function Strings(codec: Codec, entries: seq<Entry>): (strings: seq<Bytes>)
    ensures |strings| == 2 * |entries|
  {
    seq(2 * |entries|, k requires 0 <= k < 2 * |entries| =>
      if k < |entries| then Original(codec, entries[k]) else Translation(codec, entries[k - |entries|]))
  }

  function FileSize(codec: Codec, entries: seq<Entry>): nat {
    28 + 16 * |entries| + |Pool(Strings(codec, entries))|
  }

  // A length and a place for every string, pooled from `base` on.
  function Descriptors(strings: seq<Bytes>, base: nat): (words: seq<nat>)
    ensures |words| == 2 * |strings|
  {
    if strings == [] then [] else [|strings[0]|, base] + Descriptors(strings[1..], base + |strings[0]| + 1)
  }

  // All words after the magic number: version, count, the places of the two
  // tables and of the empty hash table, then the descriptors.
  function Words(strings: seq<Bytes>, n: nat): (words: seq<nat>)
    requires |strings| == 2 * n
    ensures |words| == 6 + 4 * n
  {
    [0, n, 28, 28 + 8 * n, 0, 28 + 16 * n] + Descriptors(strings, 28 + 16 * n)
  }

  // The file with these strings, the first half of them originals.
  ghost function WriteStrings(strings: seq<Bytes>, n: nat, little: bool): Bytes
    requires |strings| == 2 * n
  {
    Magic(little) + (WordBytes(Words(strings, n), little) + Pool(strings))
  }

  ghost function Encode(codec: Codec, entries: seq<Entry>, little: bool): Bytes {
    WriteStrings(Strings(codec, entries), |entries|, little)
  }

  // ----- Reading what was written -----

  lemma {:induction false} SliceLeft(a: Bytes, b: Bytes, lo: nat, hi: nat)
    requires lo <= hi <= |a|
    ensures (a + b)[lo..hi] == a[lo..hi]
  {
  }

  lemma {:induction false} SliceRight(a: Bytes, b: Bytes, lo: nat, hi: nat)
    requires lo <= hi <= |b|
    ensures (a + b)[|a| + lo..|a| + hi] == b[lo..hi]
  {
  }

  lemma {:induction false} WordBytesAt(words: seq<nat>, little: bool, k: nat)
    requires k < |words|
    ensures WordBytes(words, little)[4 * k..4 * k + 4] == Word(words[k], little)
  {
    var rest := WordBytes(words[1..], little);
    if k == 0 {
      SliceLeft(Word(words[0], little), rest, 0, 4);
    } else {
      WordBytesAt(words[1..], little, k - 1);
      SliceRight(Word(words[0], little), rest, 4 * (k - 1), 4 * (k - 1) + 4);
    }
  }

  lemma {:induction false} PoolAt(strings: seq<Bytes>, i: nat)
    requires i < |strings|
    ensures var at := Start(strings, i);
            at + |strings[i]| <= |Pool(strings)| && Pool(strings)[at..at + |strings[i]|] == strings[i]
  {
    var rest := Pool(strings[1..]);
    var first := strings[0] + [0];
    assert Pool(strings) == first + rest;
    if i == 0 {
      SliceLeft(first, rest, 0, |strings[0]|);
    } else {
      PoolAt(strings[1..], i - 1);
      var at := Start(strings[1..], i - 1);
      SliceRight(first, rest, at, at + |strings[i]|);
    }
  }

  // Every word of the file is read back at its place.
  lemma {:induction false} WordInFile(magic: Bytes, words: seq<nat>, pool: Bytes, little: bool, k: nat)
    requires |magic| == 4 && k < |words| && words[k] < U32_LIMIT
    requires 4 + 4 * |words| + |pool| < U32_LIMIT
    ensures ReadU32(magic + (WordBytes(words, little) + pool), 4 + 4 * k, little) == Some(words[k])
  {
    var body := WordBytes(words, little);
    WordBytesAt(words, little, k);
    SliceLeft(body, pool, 4 * k, 4 * k + 4);
    SliceRight(magic, body + pool, 4 * k, 4 * k + 4);
  }

  // Every string of the pool is found at its place.
  lemma {:induction false} StringInFile(magic: Bytes, body: Bytes, strings: seq<Bytes>, i: nat)
    requires |magic| == 4 && i < |strings|
    ensures var file := magic + (body + Pool(strings));
            var at := 4 + |body| + Start(strings, i);
            at + |strings[i]| <= |file| && file[at..at + |strings[i]|] == strings[i]
  {
    var pool := Pool(strings);
    var at := Start(strings, i);
    PoolAt(strings, i);
    SliceRight(body, pool, at, at + |strings[i]|);
    SliceRight(magic, body + pool, |body| + at, |body| + at + |strings[i]|);
  }

  lemma {:induction false} MagicRead(rest: Bytes, little: bool)
    ensures ByteOrder(Magic(little) + rest) == Some(little)
  {
    SliceLeft(Magic(little), rest, 0, 4);
    assert Magic(little)[0..4] == Magic(little);
    assert Magic(true)[0] != Magic(false)[0];
  }

  predicate Reads(file: Bytes, little: bool, words: seq<nat>, k: nat)
    requires k < |words|
  {
    ReadU32(file, 4 + 4 * k, little) == Some(words[k])
  }

  // A descriptor that is read back points to its string.
  lemma {:induction false} DescriptorFrom(file: Bytes, little: bool, words: seq<nat>, i: nat, bytes: Bytes, at: nat)
    requires 8 + 2 * i <= |words| && words[6 + 2 * i] == |bytes| && words[7 + 2 * i] == at
    requires Reads(file, little, words, 6 + 2 * i) && Reads(file, little, words, 7 + 2 * i)
    requires at + |bytes| <= |file| && file[at..at + |bytes|] == bytes
    ensures PointsTo(file, little, 28 + 8 * i, bytes)
  {
  }

  lemma {:induction false} HeaderFrom(file: Bytes, little: bool, words: seq<nat>, n: nat)
    requires |words| >= 6 && ByteOrder(file) == Some(little)
    requires words[0] == 0 && words[1] == n && words[2] == 28 && words[3] == 28 + 8 * n
    requires Reads(file, little, words, 0) && Reads(file, little, words, 1)
    requires Reads(file, little, words, 2) && Reads(file, little, words, 3)
    ensures ReadHeader(file) == Some(Header(little, n, 28, 28 + 8 * n))
  {
  }

  predicate Pointed(file: Bytes, little: bool, strings: seq<Bytes>, i: nat)
    requires i < |strings|
  {
    PointsTo(file, little, 28 + 8 * i, strings[i])
  }

  lemma {:induction false} CarriesFrom(
      codec: Codec, file: Bytes, little: bool, n: nat, strings: seq<Bytes>, entry: Entry, i: nat)
    requires i < n && |strings| == 2 * n
    requires strings[i] == Original(codec, entry) && strings[n + i] == Translation(codec, entry)
    requires Pointed(file, little, strings, i) && Pointed(file, little, strings, n + i)
    ensures Carries(codec, file, Header(little, n, 28, 28 + 8 * n), entry, i)
  {
    assert 28 + 8 * (n + i) == 28 + 8 * n + 8 * i;
  }

  lemma {:induction false} DescriptorsAt(strings: seq<Bytes>, base: nat, i: nat)
    requires i < |strings|
    ensures Descriptors(strings, base)[2 * i] == |strings[i]|
    ensures Descriptors(strings, base)[2 * i + 1] == base + Start(strings, i)
  {
    if i > 0 {
      DescriptorsAt(strings[1..], base + |strings[0]| + 1, i - 1);
      var rest := Descriptors(strings[1..], base + |strings[0]| + 1);
      assert Descriptors(strings, base)[2 * i] == rest[2 * (i - 1)];
      assert Descriptors(strings, base)[2 * i + 1] == rest[2 * (i - 1) + 1];
    }
  }

  lemma {:induction false} DescriptorWords(strings: seq<Bytes>, n: nat, i: nat)
    requires |strings| == 2 * n && i < 2 * n
    ensures Words(strings, n)[6 + 2 * i] == |strings[i]|
    ensures Words(strings, n)[7 + 2 * i] == 28 + 16 * n + Start(strings, i)
  {
    DescriptorsAt(strings, 28 + 16 * n, i);
  }

  lemma {:induction false} WordsFit(strings: seq<Bytes>, n: nat, k: nat)
    requires |strings| == 2 * n && k < 6 + 4 * n && 28 + 16 * n + |Pool(strings)| < U32_LIMIT
    ensures Words(strings, n)[k] < U32_LIMIT
  {
    if k >= 6 {
      var i := (k - 6) / 2;
      assert k == 6 + 2 * i || k == 7 + 2 * i;
      PoolAt(strings, i);
      DescriptorWords(strings, n, i);
    }
  }

  // A file that consists of these words and these strings.
  ghost predicate Written(file: Bytes, words: seq<nat>, strings: seq<Bytes>, little: bool) {
    && file == Magic(little) + (WordBytes(words, little) + Pool(strings))
    && |file| < U32_LIMIT
    && forall k :: 0 <= k < |words| ==> words[k] < U32_LIMIT
  }

  lemma {:induction false} WordRead(file: Bytes, words: seq<nat>, strings: seq<Bytes>, little: bool, k: nat)
    requires Written(file, words, strings, little) && k < |words|
    ensures Reads(file, little, words, k)
  {
    WordInFile(Magic(little), words, Pool(strings), little, k);
  }

  lemma {:induction false} StringPointed(file: Bytes, words: seq<nat>, strings: seq<Bytes>, little: bool, i: nat)
    requires Written(file, words, strings, little) && i < |strings| && |words| == 6 + 2 * |strings|
    requires words[6 + 2 * i] == |strings[i]| && words[7 + 2 * i] == 28 + 8 * |strings| + Start(strings, i)
    ensures Pointed(file, little, strings, i)
  {
    WordRead(file, words, strings, little, 6 + 2 * i);
    WordRead(file, words, strings, little, 7 + 2 * i);
    StringInFile(Magic(little), WordBytes(words, little), strings, i);
    DescriptorFrom(file, little, words, i, strings[i], 28 + 8 * |strings| + Start(strings, i));
  }

  lemma {:induction false} HeaderWritten(file: Bytes, words: seq<nat>, strings: seq<Bytes>, n: nat, little: bool)
    requires Written(file, words, strings, little) && |words| >= 6
    requires words[0] == 0 && words[1] == n && words[2] == 28 && words[3] == 28 + 8 * n
    ensures ReadHeader(file) == Some(Header(little, n, 28, 28 + 8 * n))
  {
    WordRead(file, words, strings, little, 0);
    WordRead(file, words, strings, little, 1);
    WordRead(file, words, strings, little, 2);
    WordRead(file, words, strings, little, 3);
    MagicRead(WordBytes(words, little) + Pool(strings), little);
    HeaderFrom(file, little, words, n);
  }

  lemma {:induction false} WrittenWords(strings: seq<Bytes>, n: nat, little: bool)
    requires |strings| == 2 * n && 28 + 16 * n + |Pool(strings)| < U32_LIMIT
    ensures Written(WriteStrings(strings, n, little), Words(strings, n), strings, little)
  {
    forall k | 0 <= k < 6 + 4 * n
      ensures Words(strings, n)[k] < U32_LIMIT
    {
      WordsFit(strings, n, k);
    }
  }

  lemma {:induction false} WrittenHeader(strings: seq<Bytes>, n: nat, little: bool)
    requires |strings| == 2 * n && 28 + 16 * n + |Pool(strings)| < U32_LIMIT
    ensures ReadHeader(WriteStrings(strings, n, little)) == Some(Header(little, n, 28, 28 + 8 * n))
  {
    WrittenWords(strings, n, little);
    HeaderWritten(WriteStrings(strings, n, little), Words(strings, n), strings, n, little);
  }

  lemma {:induction false} WrittenString(strings: seq<Bytes>, n: nat, little: bool, i: nat)
    requires |strings| == 2 * n && 28 + 16 * n + |Pool(strings)| < U32_LIMIT && i < 2 * n
    ensures Pointed(WriteStrings(strings, n, little), little, strings, i)
  {
    WrittenWords(strings, n, little);
    DescriptorWords(strings, n, i);
    StringPointed(WriteStrings(strings, n, little), Words(strings, n), strings, little, i);
  }

  predicate ListsStrings(codec: Codec, entries: seq<Entry>, strings: seq<Bytes>) {
    && |strings| == 2 * |entries|
    && forall i :: 0 <= i < |entries| ==>
         strings[i] == Original(codec, entries[i]) && strings[|entries| + i] == Translation(codec, entries[i])
  }

  lemma {:induction false} LayoutFrom(codec: Codec, entries: seq<Entry>, strings: seq<Bytes>, file: Bytes, little: bool)
    requires ListsStrings(codec, entries, strings)
    requires |file| < U32_LIMIT && 28 + 16 * |entries| <= |file|
    requires ReadHeader(file) == Some(Header(little, |entries|, 28, 28 + 8 * |entries|))
    requires forall i :: 0 <= i < |strings| ==> Pointed(file, little, strings, i)
    ensures IsMoFile(codec, file, Header(little, |entries|, 28, 28 + 8 * |entries|), entries)
  {
    var n := |entries|;
    forall i | 0 <= i < n
      ensures Carries(codec, file, Header(little, n, 28, 28 + 8 * n), entries[i], i)
    {
      CarriesFrom(codec, file, little, n, strings, entries[i], i);
    }
  }

  lemma {:induction false} WrittenLayout(codec: Codec, entries: seq<Entry>, strings: seq<Bytes>, little: bool)
    requires ListsStrings(codec, entries, strings)
    requires 28 + 16 * |entries| + |Pool(strings)| < U32_LIMIT
    ensures IsMoFile(codec, WriteStrings(strings, |entries|, little),
                     Header(little, |entries|, 28, 28 + 8 * |entries|), entries)
  {
    WrittenHeader(strings, |entries|, little);
    forall i | 0 <= i < |strings|
      ensures Pointed(WriteStrings(strings, |entries|, little), little, strings, i)
    {
      WrittenString(strings, |entries|, little, i);
    }
    LayoutFrom(codec, entries, strings, WriteStrings(strings, |entries|, little), little);
  }

  // What the writer produces is a file that carries the entries.
  lemma {:induction false} EncoderFollowsLayout(codec: Codec, entries: seq<Entry>, little: bool)
    requires FileSize(codec, entries) < U32_LIMIT
    ensures IsMoFile(codec, Encode(codec, entries, little), Header(little, |entries|, 28, 28 + 8 * |entries|), entries)
  {
    assert ListsStrings(codec, entries, Strings(codec, entries));
    WrittenLayout(codec, entries, Strings(codec, entries), little);
  }

  // The round trip: both byte orders give back exactly the catalog that the
  // entries list.
  lemma {:induction false} RoundTrip(codec: Codec, entries: seq<Entry>, messages: Messages, little: bool)
    requires Inverse(codec) && FileSize(codec, entries) < U32_LIMIT
    requires forall i :: 0 <= i < |entries| ==> Encodable(entries[i])
    requires Lists(entries, messages)
    ensures Parsed(codec, Encode(codec, entries, little)) == messages
  {
    EncoderFollowsLayout(codec, entries, little);
    ParserInvertsLayout(codec, Encode(codec, entries, little),
                        Header(little, |entries|, 28, 28 + 8 * |entries|), entries);
    MergedOfListing(entries, messages);
  }

  const SAMPLE := Entry("c", "i", ["", "x"])

  // A file whose lookup comes out empty although the fallback is not: its entry
  // has text in the second slot only.
  lemma {:induction false} EmptyFirstSlot(codec: Codec, little: bool)
    requires Inverse(codec) && FileSize(codec, [SAMPLE]) < U32_LIMIT
    ensures Get(Parsed(codec, Encode(codec, [SAMPLE], little)), "c", "fallback") == ""
  {
    var messages: Messages := map["c" := SAMPLE.slots];
    assert SAMPLE.slots[1] == "x" && [SAMPLE][0].context == "c";
    RoundTrip(codec, [SAMPLE], messages, little);
  }
}
