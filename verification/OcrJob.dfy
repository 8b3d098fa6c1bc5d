/** From recognised pages to a document job with page markers. */
module OcrJob {
  import opened Wrappers
  import opened Text
  import Ordering
  import opened OcrPages

  const MAX_TEXT_FILE_BYTES := 4 * 1024 * 1024

  datatype ImportError = TooLarge | InvalidUtf8 | UnsupportedFormat | InvalidStructure | LeaseExpired

  datatype Kind = Verbatim | Prose

  datatype Segment = Segment(index: nat, kind: Kind, text: string, translated: Option<string>, lineEnding: string)

  datatype Format = Txt

  datatype Job = Job(format: Format, sourceName: string, segments: seq<Segment>, package: Option<string>)

  function Marker(page: nat): string {
    "[OCR page " + (Decimal(page) + "]")
  }

  // The text of a segment before it is numbered.
  datatype Part = Part(kind: Kind, text: string)

  function ProseParts(lines: seq<string>): seq<Part> {
    if lines == [] then []
    else (if lines[0] == "" then [] else [Part(Prose, lines[0])]) + ProseParts(lines[1..])
  }

  function PageParts(page: OcrPage): seq<Part> {
    [Part(Verbatim, Marker(page.page))] + ProseParts(Lines(page.text))
  }

  function Parts(pages: seq<OcrPage>): seq<Part> {
    if pages == [] then [] else PageParts(pages[0]) + Parts(pages[1..])
  }

  // Bytes of the texts with one line ending each.
  function PartBytes(parts: seq<Part>): nat {
    if parts == [] then 0 else ByteLength(parts[0].text) + 1 + PartBytes(parts[1..])
  }

  function Saturated(n: nat): nat {
    if n > USIZE_MAX then USIZE_MAX else n
  }

  function Numbered(parts: seq<Part>, first: nat): (segments: seq<Segment>)
    ensures |segments| == |parts|
  {
    if parts == [] then []
    else [Segment(Saturated(first), parts[0].kind, parts[0].text, None, "\n")] + Numbered(parts[1..], first + 1)
  }

  predicate IsUsable(page: OcrPage) {
    page.page != 0 && page.text != ""
  }

  predicate AllUsable(pages: seq<OcrPage>) {
    forall i :: 0 <= i < |pages| ==> IsUsable(pages[i])
  }

  function JobOf(sourceName: string, pages: seq<OcrPage>): Result<Job, ImportError> {
    if pages == [] || !AllUsable(pages) then Failure(InvalidStructure)
    else if PartBytes(Parts(pages)) > MAX_TEXT_FILE_BYTES then Failure(TooLarge)
    else Success(Job(Txt, sourceName + ".ocr.txt", Numbered(Parts(pages), 0), None))
  }

  // ----- The builder -----

  lemma {:induction false} NumberedConcat(a: seq<Part>, b: seq<Part>, first: nat)
    ensures Numbered(a + b, first) == Numbered(a, first) + Numbered(b, first + |a|)
    decreases |a|
  {
    if a == [] {
      assert a + b == b;
    } else {
      assert (a + b)[1..] == a[1..] + b;
      NumberedConcat(a[1..], b, first + 1);
    }
  }

  lemma {:induction false} NumberedAppend(parts: seq<Part>, part: Part)
    ensures Numbered(parts + [part], 0)
         == Numbered(parts, 0) + [Segment(Saturated(|parts|), part.kind, part.text, None, "\n")]
  {
    NumberedConcat(parts, [part], 0);
    assert [part][1..] == [];
  }

  lemma {:induction false} PartBytesConcat(a: seq<Part>, b: seq<Part>)
    ensures PartBytes(a + b) == PartBytes(a) + PartBytes(b)
    decreases |a|
  {
    if a == [] {
      assert a + b == b;
    } else {
      assert (a + b)[1..] == a[1..] + b;
      PartBytesConcat(a[1..], b);
    }
  }

  lemma {:induction false} PartBytesAppend(parts: seq<Part>, part: Part)
    ensures PartBytes(parts + [part]) == PartBytes(parts) + ByteLength(part.text) + 1
  {
    PartBytesConcat(parts, [part]);
    assert [part][1..] == [];
  }

  lemma {:induction false} PartsNext(pages: seq<OcrPage>, i: nat, done: seq<Part>, all: seq<Part>)
    requires i < |pages| && done + Parts(pages[i..]) == all
    ensures done + PageParts(pages[i]) + Parts(pages[i + 1..]) == all
  {
    assert pages[i..][1..] == pages[i + 1..];
    assert done + (PageParts(pages[i]) + Parts(pages[i + 1..])) == done + PageParts(pages[i]) + Parts(pages[i + 1..]);
  }

  // What the accumulators hold once these parts are done.
  ghost predicate Holds(segments: seq<Segment>, index: nat, totalBytes: nat, done: seq<Part>) {
    && segments == Numbered(done, 0)
    && index == Saturated(|done|)
    && totalBytes == Saturated(PartBytes(done))
  }

  lemma {:induction false} HoldsNext(segments: seq<Segment>, index: nat, totalBytes: nat, done: seq<Part>, part: Part)
    requires Holds(segments, index, totalBytes, done)
    ensures Holds(segments + [Segment(index, part.kind, part.text, None, "\n")], SaturatingAdd(index, 1),
                  SaturatingAdd(totalBytes, ByteLength(part.text) + 1), done + [part])
  {
    NumberedAppend(done, part);
    PartBytesAppend(done, part);
  }

  lemma {:induction false} UnusablePage(sourceName: string, pages: seq<OcrPage>, i: nat)
    requires i < |pages| && !IsUsable(pages[i])
    ensures JobOf(sourceName, pages) == Failure(InvalidStructure)
  {
  }

  lemma {:induction false} JobFrom(
      sourceName: string, pages: seq<OcrPage>, segments: seq<Segment>, index: nat, totalBytes: nat)
    requires pages != [] && AllUsable(pages) && Holds(segments, index, totalBytes, Parts(pages))
    ensures JobOf(sourceName, pages) ==
              if totalBytes > MAX_TEXT_FILE_BYTES then Failure(TooLarge)
              else Success(Job(Txt, sourceName + ".ocr.txt", segments, None))
  {
  }

  method DocumentJobFromOcr(sourceName: string, pages: seq<OcrPage>) returns (r: Result<Job, ImportError>)
    ensures r == JobOf(sourceName, pages)
  {
    if pages == [] {
      return Failure(InvalidStructure);
    }
    var segments: seq<Segment> := [];
    var index: nat, totalBytes: nat := 0, 0;
    ghost var done: seq<Part> := [];
    ghost var all := Parts(pages);
    assert pages[0..] == pages && done + all == all;
    for i := 0 to |pages|
      invariant forall k :: 0 <= k < i ==> IsUsable(pages[k])
      invariant Holds(segments, index, totalBytes, done)
      invariant done + Parts(pages[i..]) == all
      invariant i > 0 ==> segments != []
    {
      var page := pages[i];
      if page.page == 0 || page.text == "" {
        UnusablePage(sourceName, pages, i);
        return Failure(InvalidStructure);
      }
      PartsNext(pages, i, done, all);
      segments, index, totalBytes := AddPage(segments, index, totalBytes, page, done);
      done := done + PageParts(page);
    }
    assert done + Parts([]) == done;
    JobFrom(sourceName, pages, segments, index, totalBytes);
    if segments == [] || totalBytes > MAX_TEXT_FILE_BYTES {
      return Failure(TooLarge);
    }
    return Success(Job(Txt, sourceName + ".ocr.txt", segments, None));
  }

  // One page of the builder's loop: the marker, then the non-empty lines.
  method AddPage(segments: seq<Segment>, index: nat, totalBytes: nat, page: OcrPage, ghost done: seq<Part>)
      returns (segments': seq<Segment>, index': nat, totalBytes': nat)
    requires Holds(segments, index, totalBytes, done)
    ensures Holds(segments', index', totalBytes', done + PageParts(page)) && segments' != []
  {
    var marker := Marker(page.page);
    HoldsNext(segments, index, totalBytes, done, Part(Verbatim, marker));
    totalBytes' := SaturatingAdd(totalBytes, ByteLength(marker) + 1);
    segments' := segments + [Segment(index, Verbatim, marker, None, "\n")];
    index' := SaturatingAdd(index, 1);
    ghost var added := done + [Part(Verbatim, marker)];
    var lines := Lines(page.text);
    for j := 0 to |lines|
      invariant Holds(segments', index', totalBytes', added) && segments' != []
      invariant added + ProseParts(lines[j..]) == done + PageParts(page)
    {
      var line := lines[j];
      assert lines[j..][1..] == lines[j + 1..];
      if line == "" {
        assert ProseParts(lines[j..]) == ProseParts(lines[j + 1..]);
        continue;
      }
      HoldsNext(segments', index', totalBytes', added, Part(Prose, line));
      totalBytes' := SaturatingAdd(totalBytes', ByteLength(line) + 1);
      segments' := segments' + [Segment(index', Prose, line, None, "\n")];
      index' := SaturatingAdd(index', 1);
      assert added + ([Part(Prose, line)] + ProseParts(lines[j + 1..]))
          == added + [Part(Prose, line)] + ProseParts(lines[j + 1..]);
      added := added + [Part(Prose, line)];
    }
    assert added + [] == added;
  }

  // ----- Accounting -----

  function SegmentBytes(segments: seq<Segment>): nat {
    if segments == [] then 0
    else ByteLength(segments[0].text) + ByteLength(segments[0].lineEnding) + SegmentBytes(segments[1..])
  }

  function Markers(segments: seq<Segment>): nat {
    if segments == [] then 0 else (if segments[0].kind == Verbatim then 1 else 0) + Markers(segments[1..])
  }

  lemma {:induction false} NumberedBytes(parts: seq<Part>, first: nat)
    ensures SegmentBytes(Numbered(parts, first)) == PartBytes(parts) && |parts| <= PartBytes(parts)
    decreases |parts|
  {
    if parts != [] {
      NumberedBytes(parts[1..], first + 1);
      assert Numbered(parts, first)[1..] == Numbered(parts[1..], first + 1);
      assert ByteLength("\n") == 1;
    }
  }

  lemma {:induction false} NumberedAt(parts: seq<Part>, first: nat, k: nat)
    requires k < |parts|
    ensures Numbered(parts, first)[k] == Segment(Saturated(first + k), parts[k].kind, parts[k].text, None, "\n")
    decreases |parts|
  {
    if k > 0 {
      NumberedAt(parts[1..], first + 1, k - 1);
    }
  }

  lemma {:induction false} MarkersConcat(a: seq<Segment>, b: seq<Segment>)
    ensures Markers(a + b) == Markers(a) + Markers(b)
    decreases |a|
  {
    if a == [] {
      assert a + b == b;
    } else {
      assert (a + b)[1..] == a[1..] + b;
      MarkersConcat(a[1..], b);
    }
  }

  lemma {:induction false} ProseHasNoMarker(lines: seq<string>, first: nat)
    ensures Markers(Numbered(ProseParts(lines), first)) == 0
    decreases |lines|
  {
    if lines != [] {
      var rest := ProseParts(lines[1..]);
      if lines[0] == "" {
        assert ProseParts(lines) == rest;
        ProseHasNoMarker(lines[1..], first);
      } else {
        assert ProseParts(lines)[1..] == rest;
        ProseHasNoMarker(lines[1..], first + 1);
        assert Numbered(ProseParts(lines), first)[1..] == Numbered(rest, first + 1);
      }
    }
  }

  lemma {:induction false} OneMarkerPerPage(pages: seq<OcrPage>, first: nat)
    ensures Markers(Numbered(Parts(pages), first)) == |pages|
    decreases |pages|
  {
    if pages != [] {
      var head, tail := PageParts(pages[0]), Parts(pages[1..]);
      NumberedConcat(head, tail, first);
      MarkersConcat(Numbered(head, first), Numbered(tail, first + |head|));
      OneMarkerPerPage(pages[1..], first + |head|);
      assert head[1..] == ProseParts(Lines(pages[0].text));
      assert Numbered(head, first)[1..] == Numbered(head[1..], first + 1);
      ProseHasNoMarker(Lines(pages[0].text), first + 1);
    }
  }

  // A job's segments are numbered 0, 1, 2, ..., there is one marker per page, and
  // the bytes that the builder counts with saturating addition are exactly those
  // of the segments' texts and line endings, and within the limit.
  lemma {:induction false} JobAccounting(sourceName: string, pages: seq<OcrPage>)
    requires JobOf(sourceName, pages).Success?
    ensures var segments := JobOf(sourceName, pages).value.segments;
            && (forall k :: 0 <= k < |segments| ==> segments[k].index == k)
            && Markers(segments) == |pages|
            && SegmentBytes(segments) == PartBytes(Parts(pages)) <= MAX_TEXT_FILE_BYTES
  {
    var parts := Parts(pages);
    NumberedBytes(parts, 0);
    OneMarkerPerPage(pages, 0);
    forall k | 0 <= k < |parts|
      ensures Numbered(parts, 0)[k].index == k
    {
      NumberedAt(parts, 0, k);
    }
  }

  // ----- The text of a job -----

  // The document that the pages make up: each with its marker on a line of its
  // own, followed by its non-empty lines.
  function Document(pages: seq<OcrPage>): string {
    if pages == [] then ""
    else
      "[OCR page " + (Decimal(pages[0].page) + "]") + "\n" + Unlines(NonEmpty(Lines(pages[0].text)))
      + Document(pages[1..])
  }

  // What the segments of a job spell out.
  function Spelled(segments: seq<Segment>): string {
    if segments == [] then "" else segments[0].text + segments[0].lineEnding + Spelled(segments[1..])
  }

  function PartsText(parts: seq<Part>): string {
    if parts == [] then "" else parts[0].text + "\n" + PartsText(parts[1..])
  }

  lemma {:induction false} PartsTextConcat(a: seq<Part>, b: seq<Part>)
    ensures PartsText(a + b) == PartsText(a) + PartsText(b)
    decreases |a|
  {
    if a == [] {
      assert a + b == b && "" + PartsText(b) == PartsText(b);
    } else {
      assert (a + b)[1..] == a[1..] + b;
      PartsTextConcat(a[1..], b);
      TextAssociates(a[0].text + "\n", PartsText(a[1..]), PartsText(b));
    }
  }

  lemma {:induction false} TextAssociates(a: string, b: string, c: string)
    ensures a + (b + c) == a + b + c
  {
  }

  lemma {:induction false} ProseText(lines: seq<string>)
    ensures PartsText(ProseParts(lines)) == Unlines(NonEmpty(lines))
  {
    if lines != [] {
      ProseText(lines[1..]);
      if lines[0] == "" {
        EmptyLineSkipped(lines);
      } else {
        assert ProseParts(lines)[1..] == ProseParts(lines[1..]);
        assert NonEmpty(lines)[1..] == NonEmpty(lines[1..]);
      }
    }
  }

  lemma {:induction false} PageText(page: OcrPage)
    ensures PartsText(PageParts(page))
         == "[OCR page " + (Decimal(page.page) + "]") + "\n" + Unlines(NonEmpty(Lines(page.text)))
  {
    assert PageParts(page)[1..] == ProseParts(Lines(page.text));
    ProseText(Lines(page.text));
  }

  lemma {:induction false} PagesText(pages: seq<OcrPage>)
    ensures PartsText(Parts(pages)) == Document(pages)
  {
    if pages != [] {
      PageText(pages[0]);
      PagesText(pages[1..]);
      PartsTextConcat(PageParts(pages[0]), Parts(pages[1..]));
    }
  }

  lemma {:induction false} PartsTextBytes(parts: seq<Part>)
    ensures ByteLength(PartsText(parts)) == PartBytes(parts)
  {
    if parts != [] {
      PartsTextBytes(parts[1..]);
      ByteLengthConcat(parts[0].text + "\n", PartsText(parts[1..]));
      ByteLengthConcat(parts[0].text, "\n");
      assert ByteLength("\n") == 1;
    }
  }

  lemma {:induction false} NumberedText(parts: seq<Part>, first: nat)
    ensures Spelled(Numbered(parts, first)) == PartsText(parts)
    ensures forall s :: s in Numbered(parts, first) ==> s.translated == None && s.lineEnding == "\n"
    decreases |parts|
  {
    if parts != [] {
      NumberedText(parts[1..], first + 1);
      assert Numbered(parts, first)[1..] == Numbered(parts[1..], first + 1);
    }
  }

  // The builder succeeds exactly on pages that all have a number and text and
  // whose document is at most 4 MiB, and then the job spells out that document,
  // untranslated; without pages or with an unusable one it reports the
  // structure, and otherwise the size.
  lemma {:induction false} JobExactly(sourceName: string, pages: seq<OcrPage>)
    ensures JobOf(sourceName, pages) == Failure(InvalidStructure) <==>
              pages == [] || exists i :: 0 <= i < |pages| && (pages[i].page == 0 || pages[i].text == "")
    ensures JobOf(sourceName, pages) == Failure(TooLarge) <==>
              && pages != [] && (forall i :: 0 <= i < |pages| ==> pages[i].page != 0 && pages[i].text != "")
              && ByteLength(Document(pages)) > 4 * 1024 * 1024
    ensures match JobOf(sourceName, pages)
            case Failure(error) => error == InvalidStructure || error == TooLarge
            case Success(job) =>
              && job.format == Txt && job.sourceName == sourceName + ".ocr.txt" && job.package == None
              && Spelled(job.segments) == Document(pages)
              && forall s :: s in job.segments ==> s.translated == None && s.lineEnding == "\n"
  {
    PagesText(pages);
    PartsTextBytes(Parts(pages));
    NumberedText(Parts(pages), 0);
    assert AllUsable(pages) <==> forall i :: 0 <= i < |pages| ==> pages[i].page != 0 && pages[i].text != "";
  }

  // ----- Decoding -----

  datatype Group = Group(page: nat, lines: seq<string>)

  function ReadMarker(text: string): nat {
    if |text| >= 11 && IsDigits(text[10..|text| - 1]) then DigitsValue(text[10..|text| - 1]) else 0
  }

  function PartsOf(segments: seq<Segment>): seq<Part> {
    if segments == [] then [] else [Part(segments[0].kind, segments[0].text)] + PartsOf(segments[1..])
  }

  // Parts grouped by their markers, from the end; `lines` are those already read.
  function Regroup(parts: seq<Part>, lines: seq<string>): seq<Group>
    decreases |parts|
  {
    if parts == [] then []
    else
      var last, before := parts[|parts| - 1], parts[..|parts| - 1];
      if last.kind == Prose then Regroup(before, [last.text] + lines)
      else Regroup(before, []) + [Group(ReadMarker(last.text), lines)]
  }

  function NonEmpty(lines: seq<string>): seq<string> {
    if lines == [] then [] else (if lines[0] == "" then [] else [lines[0]]) + NonEmpty(lines[1..])
  }

  // What a decoder should find: each page's number and its non-empty lines.
  function Groups(pages: seq<OcrPage>): seq<Group> {
    if pages == [] then [] else [Group(pages[0].page, NonEmpty(Lines(pages[0].text)))] + Groups(pages[1..])
  }

  lemma {:induction false} MarkerReadBack(page: nat)
    ensures ReadMarker(Marker(page)) == page
  {
    var text := Marker(page);
    assert text[10..|text| - 1] == Decimal(page);
    DecimalValue(page);
  }

  lemma {:induction false} RegroupLast(before: seq<Part>, part: Part, lines: seq<string>)
    ensures Regroup(before + [part], lines) ==
              if part.kind == Prose then Regroup(before, [part.text] + lines)
              else Regroup(before, []) + [Group(ReadMarker(part.text), lines)]
  {
    assert (before + [part])[..|before + [part]| - 1] == before;
  }

  lemma {:induction false} EmptyLineSkipped(lines: seq<string>)
    requires lines != [] && lines[0] == ""
    ensures ProseParts(lines) == ProseParts(lines[1..]) && NonEmpty(lines) == NonEmpty(lines[1..])
  {
  }

  lemma {:induction false} LineTaken(before: seq<Part>, lines: seq<string>, after: seq<string>)
    requires lines != [] && lines[0] != ""
    ensures before + ProseParts(lines) == before + [Part(Prose, lines[0])] + ProseParts(lines[1..])
    ensures NonEmpty(lines) + after == [lines[0]] + (NonEmpty(lines[1..]) + after)
  {
  }

  lemma {:induction false} RegroupProse(before: seq<Part>, lines: seq<string>, after: seq<string>)
    ensures Regroup(before + ProseParts(lines), after) == Regroup(before, NonEmpty(lines) + after)
    decreases |lines|
  {
    if lines == [] {
      assert before + [] == before && [] + after == after;
    } else if lines[0] == "" {
      EmptyLineSkipped(lines);
      RegroupProse(before, lines[1..], after);
    } else {
      var part := Part(Prose, lines[0]);
      LineTaken(before, lines, after);
      RegroupProse(before + [part], lines[1..], after);
      RegroupLast(before, part, NonEmpty(lines[1..]) + after);
    }
  }

  lemma {:induction false} RegroupPage(before: seq<Part>, page: OcrPage)
    ensures Regroup(before + PageParts(page), [])
         == Regroup(before, []) + [Group(page.page, NonEmpty(Lines(page.text)))]
  {
    var marker := Part(Verbatim, Marker(page.page));
    var lines := Lines(page.text);
    assert before + PageParts(page) == before + [marker] + ProseParts(lines);
    RegroupProse(before + [marker], lines, []);
    assert NonEmpty(lines) + [] == NonEmpty(lines);
    RegroupLast(before, marker, NonEmpty(lines));
    MarkerReadBack(page.page);
  }

  lemma {:induction false} RegroupPages(before: seq<Part>, pages: seq<OcrPage>)
    ensures Regroup(before + Parts(pages), []) == Regroup(before, []) + Groups(pages)
    decreases |pages|
  {
    if pages == [] {
      assert before + [] == before;
    } else {
      var head, tail := PageParts(pages[0]), Parts(pages[1..]);
      assert before + (head + tail) == before + head + tail;
      RegroupPages(before + head, pages[1..]);
      RegroupPage(before, pages[0]);
      GroupsNext(Regroup(before, []), pages);
    }
  }

  lemma {:induction false} GroupsNext(before: seq<Group>, pages: seq<OcrPage>)
    requires pages != []
    ensures before + [Group(pages[0].page, NonEmpty(Lines(pages[0].text)))] + Groups(pages[1..])
         == before + Groups(pages)
  {
  }

  lemma {:induction false} PartsOfNumbered(parts: seq<Part>, first: nat)
    ensures PartsOf(Numbered(parts, first)) == parts
    decreases |parts|
  {
    if parts != [] {
      assert Numbered(parts, first)[1..] == Numbered(parts[1..], first + 1);
      PartsOfNumbered(parts[1..], first + 1);
    }
  }

  // Grouping a job's segments by kind recovers each page's number and exactly
  // its non-empty lines, whatever the lines look like.
  lemma {:induction false} JobDecodes(sourceName: string, pages: seq<OcrPage>)
    requires JobOf(sourceName, pages).Success?
    ensures Regroup(PartsOf(JobOf(sourceName, pages).value.segments), []) == Groups(pages)
  {
    PartsOfNumbered(Parts(pages), 0);
    RegroupPages([], pages);
    assert [] + Parts(pages) == Parts(pages) && [] + Groups(pages) == Groups(pages);
  }

  // ----- Size of a job -----

  lemma {:induction false} StripBytes(line: string)
    ensures ByteLength(StripCarriageReturn(line)) <= ByteLength(line)
  {
    if line != "" && line[|line| - 1] == '\r' {
      ByteLengthConcat(line[..|line| - 1], [line[|line| - 1]]);
      assert line == line[..|line| - 1] + [line[|line| - 1]];
    }
  }

  lemma {:induction false} LineBytes(text: string)
    ensures PartBytes(ProseParts(Lines(text))) <= if text == "" then 0 else ByteLength(text) + 1
    decreases |text|
  {
    if text != "" {
      match Find('\n', text) {
        case None =>
          ProsePartsNext(text, []);
          assert [text] + [] == [text];
        case Some(k) =>
          LineBytes(text[k + 1..]);
          StripBytes(text[..k]);
          SplitBytes(text, k);
          ProsePartsNext(StripCarriageReturn(text[..k]), Lines(text[k + 1..]));
      }
    }
  }

  lemma {:induction false} SplitBytes(text: string, k: nat)
    requires k < |text| && text[k] == '\n'
    ensures ByteLength(text) == ByteLength(text[..k]) + 1 + ByteLength(text[k + 1..])
  {
    assert text == text[..k] + (['\n'] + text[k + 1..]);
    ByteLengthConcat(text[..k], ['\n'] + text[k + 1..]);
    ByteLengthConcat(['\n'], text[k + 1..]);
    assert ByteLength(['\n']) == 1;
  }

  lemma {:induction false} ProsePartsNext(line: string, lines: seq<string>)
    ensures PartBytes(ProseParts([line] + lines)) <= ByteLength(line) + 1 + PartBytes(ProseParts(lines))
  {
    assert ([line] + lines)[1..] == lines;
    if line != "" {
      assert ProseParts([line] + lines)[1..] == ProseParts(lines);
    } else {
      assert ProseParts([line] + lines) == ProseParts(lines);
    }
  }

  // An upper bound that needs no look at the lines of a page.
  function PageAllowance(page: OcrPage): nat {
    ByteLength(page.text) + 13 + |Decimal(page.page)|
  }

  function Allowance(pages: seq<OcrPage>): nat {
    if pages == [] then 0 else PageAllowance(pages[0]) + Allowance(pages[1..])
  }

  lemma {:induction false} BracketedBytes(before: string, digits: string, after: string)
    ensures ByteLength(before + (digits + after)) == ByteLength(before) + ByteLength(digits) + ByteLength(after)
  {
    ByteLengthConcat(before, digits + after);
    ByteLengthConcat(digits, after);
  }

  lemma {:induction false} BracketBytes()
    ensures ByteLength("[OCR page ") == 10 && ByteLength("]") == 1
  {
    AsciiBytes("[OCR page ");
    AsciiBytes("]");
  }

  lemma {:induction false} MarkerBytes(page: nat)
    ensures ByteLength(Marker(page)) == 11 + |Decimal(page)|
  {
    BracketedBytes("[OCR page ", Decimal(page), "]");
    DecimalBytes(page);
    BracketBytes();
  }

  lemma {:induction false} AsciiBytes(text: string)
    requires forall i :: 0 <= i < |text| ==> text[i] < '\U{0080}'
    ensures ByteLength(text) == |text|
  {
    if text != "" {
      AsciiBytes(text[1..]);
    }
  }

  lemma {:induction false} PageSize(page: OcrPage)
    requires page.text != ""
    ensures PartBytes(PageParts(page)) <= PageAllowance(page)
  {
    MarkerBytes(page.page);
    LineBytes(page.text);
    assert PageParts(page)[1..] == ProseParts(Lines(page.text));
  }

  lemma {:induction false} JobSize(pages: seq<OcrPage>)
    requires forall i :: 0 <= i < |pages| ==> pages[i].text != ""
    ensures PartBytes(Parts(pages)) <= Allowance(pages)
    decreases |pages|
  {
    if pages != [] {
      PageSize(pages[0]);
      JobSize(pages[1..]);
      PartBytesConcat(PageParts(pages[0]), Parts(pages[1..]));
    }
  }

  // On the pages of a successful recognition the builder reports a bad structure
  // exactly for a page numbered zero; its only other error is TooLarge, and its
  // byte count is bounded by the page texts, 13 bytes and the digits of the page
  // number for each page.
  lemma {:induction false} PipelineBound(files: seq<PageFile>, sourceName: string)
    requires Recognised(files).Success?
    ensures var pages := Recognised(files).value;
            && (JobOf(sourceName, pages) == Failure(InvalidStructure) <==>
                  exists i :: 0 <= i < |pages| && pages[i].page == 0)
            && (JobOf(sourceName, pages).Success? || JobOf(sourceName, pages) == Failure(InvalidStructure)
                || JobOf(sourceName, pages) == Failure(TooLarge))
            && PartBytes(Parts(pages)) <= Allowance(pages)
            && (JobOf(sourceName, pages) == Failure(TooLarge) ==> Allowance(pages) > MAX_TEXT_FILE_BYTES)
  {
    var pages := Recognised(files).value;
    RecognitionBounds(files);
    JobSize(pages);
    if !AllUsable(pages) {
      var i :| 0 <= i < |pages| && !IsUsable(pages[i]);
      assert pages[i].page == 0;
    }
    forall i | 0 <= i < |pages| && pages[i].page == 0
      ensures !AllUsable(pages)
    {
      assert !IsUsable(pages[i]);
    }
  }

  const PAGE_ZERO := PageFile(Some("page-0"), Some(1), Success("x"))

  lemma {:induction false} PageZeroNumber()
    ensures PageNumber(PAGE_ZERO) == Some(0)
  {
    assert Decimal(0) == "0" && "" + "0" == "0";
    assert "page" + "-" + "0" == "page-0";
    PageNumberReadBack(PAGE_ZERO, "page", "", 0);
  }

  lemma {:induction false} PageZeroText()
    ensures Trim(IsWhitespace, "x") == "x" && ByteLength("x") == 1
  {
    assert "x"[1..] == "";
  }

  // A page image named with the number zero is recognised, and its job refused.
  lemma {:induction false} PageZeroRefused(sourceName: string)
    ensures Recognised([PAGE_ZERO]) == Success([OcrPage(0, "x")])
    ensures JobOf(sourceName, [OcrPage(0, "x")]) == Failure(InvalidStructure)
  {
    var page := OcrPage(0, "x");
    PageZeroNumber();
    PageZeroText();
    assert [PAGE_ZERO][1..] == [];
    assert Ordering.SortBy(PageLe, []) == [];
    assert Ordering.Insert(PageLe, PAGE_ZERO, []) == [PAGE_ZERO];
    assert Ordering.SortBy(PageLe, [PAGE_ZERO]) == [PAGE_ZERO];
    assert ReadPage(PAGE_ZERO, TotalBytes([])) == Success(Some(page));
    assert ReadAll([PAGE_ZERO], []) == ReadAll([], [] + [page]);
    assert [] + [page] == [page];
    assert !IsUsable([page][0]);
  }
}
