/** From rendered page images to recognised pages. */
module OcrPages {
  import opened Wrappers
  import opened Ordering
  import opened Text

  const USIZE_MAX := 0xFFFF_FFFF_FFFF_FFFF
  const MAX_OCR_PAGES := 64
  const MAX_OCR_PAGE_BYTES := 8 * 1024 * 1024
  const MAX_OCR_OUTPUT_BYTES := 4 * 1024 * 1024

  datatype OcrError = Unavailable | InvalidDocument | TooManyPages | TimedOut | OutputTooLarge | NoText | Failed

  datatype OcrPage = OcrPage(page: nat, text: string)

  // A rendered image: its file stem and size if they can be read, and what the
  // external recogniser makes of it.
  datatype PageFile = PageFile(stem: Option<string>, size: Option<nat>, recognised: Result<string, OcrError>)

  function SaturatingAdd(a: nat, b: nat): nat {
    if a + b > USIZE_MAX then USIZE_MAX else a + b
  }

  // `rsplit_once('-')`, second half.
  function AfterLastDash(stem: string): Option<string> {
    if stem == "" then None
    else if stem[|stem| - 1] == '-' then Some("")
    else match AfterLastDash(stem[..|stem| - 1])
      case None => None
      case Some(suffix) => Some(suffix + [stem[|stem| - 1]])
  }

  // `parse::<usize>()`: an optional plus sign, then at least one digit.
  function ParseUsize(text: string): Option<nat> {
    var digits := if text != "" && text[0] == '+' then text[1..] else text;
    if digits == "" || !IsDigits(digits) || DigitsValue(digits) > USIZE_MAX then None else Some(DigitsValue(digits))
  }

  function PageNumber(file: PageFile): Option<nat> {
    if file.stem.None? || AfterLastDash(file.stem.value).None? then None
    else ParseUsize(AfterLastDash(file.stem.value).value)
  }

  // Files without a page number sort last.
  function PageKey(file: PageFile): nat {
    match PageNumber(file)
    case None => USIZE_MAX
    case Some(n) => n
  }

  predicate PageLe(a: PageFile, b: PageFile) {
    PageKey(a) <= PageKey(b)
  }

  // One file: None is a page without text.
  function ReadPage(file: PageFile, total: nat): Result<Option<OcrPage>, OcrError> {
    if file.size.None? then Failure(Failed)
    else if file.size.value > MAX_OCR_PAGE_BYTES then Failure(OutputTooLarge)
    else if file.recognised.Failure? then Failure(file.recognised.error)
    else
      var text := Trim(IsWhitespace, file.recognised.value);
      if text == "" then Success(None)
      else if SaturatingAdd(total, ByteLength(text)) > MAX_OCR_OUTPUT_BYTES then Failure(OutputTooLarge)
      else match PageNumber(file)
        case None => Failure(Failed)
        case Some(n) => Success(Some(OcrPage(n, text)))
  }

  function TotalBytes(pages: seq<OcrPage>): nat {
    if pages == [] then 0 else TotalBytes(pages[..|pages| - 1]) + ByteLength(pages[|pages| - 1].text)
  }

  // The files in the order given, read until one fails.
  function ReadAll(files: seq<PageFile>, pages: seq<OcrPage>): Result<seq<OcrPage>, OcrError>
    decreases |files|
  {
    if files == [] then Success(pages)
    else match ReadPage(files[0], TotalBytes(pages))
      case Failure(error) => Failure(error)
      case Success(None) => ReadAll(files[1..], pages)
      case Success(Some(page)) => ReadAll(files[1..], pages + [page])
  }

  function Recognised(files: seq<PageFile>): Result<seq<OcrPage>, OcrError> {
    if files == [] then Failure(InvalidDocument)
    else if |files| > MAX_OCR_PAGES then Failure(TooManyPages)
    else match ReadAll(SortBy(PageLe, files), [])
      case Failure(error) => Failure(error)
      case Success(pages) => if pages == [] then Failure(NoText) else Success(pages)
  }

  method RecognizePages(files: seq<PageFile>) returns (r: Result<seq<OcrPage>, OcrError>)
    ensures r == Recognised(files)
  {
    var sorted := SortBy(PageLe, files);
    SortMultiset(PageLe, files);
    if sorted == [] {
      return Failure(InvalidDocument);
    }
    if |sorted| > MAX_OCR_PAGES {
      return Failure(TooManyPages);
    }
    var pages: seq<OcrPage> := [];
    var totalOutput: nat := 0;
    for i := 0 to |sorted|
      invariant totalOutput == TotalBytes(pages)
      invariant ReadAll(sorted[i..], pages) == ReadAll(sorted, [])
    {
      var file := sorted[i];
      ReadAllNext(sorted, i, pages);
      if file.size.None? {
        return Failure(Failed);
      }
      if file.size.value > MAX_OCR_PAGE_BYTES {
        return Failure(OutputTooLarge);
      }
      if file.recognised.Failure? {
        return Failure(file.recognised.error);
      }
      var text := Trim(IsWhitespace, file.recognised.value);
      if text == "" {
        continue;
      }
      totalOutput := SaturatingAdd(totalOutput, ByteLength(text));
      if totalOutput > MAX_OCR_OUTPUT_BYTES {
        return Failure(OutputTooLarge);
      }
      var page := PageNumber(file);
      if page.None? {
        return Failure(Failed);
      }
      TotalAppend(pages, OcrPage(page.value, text));
      pages := pages + [OcrPage(page.value, text)];
    }
    if pages == [] {
      return Failure(NoText);
    }
    return Success(pages);
  }

  lemma {:induction false} ReadAllNext(files: seq<PageFile>, i: nat, pages: seq<OcrPage>)
    requires i < |files|
    ensures ReadAll(files[i..], pages) ==
              match ReadPage(files[i], TotalBytes(pages))
              case Failure(error) => Failure(error)
              case Success(None) => ReadAll(files[i + 1..], pages)
              case Success(Some(page)) => ReadAll(files[i + 1..], pages + [page])
  {
    assert files[i..][1..] == files[i + 1..];
  }

  lemma {:induction false} TotalAppend(pages: seq<OcrPage>, page: OcrPage)
    ensures TotalBytes(pages + [page]) == TotalBytes(pages) + ByteLength(page.text)
  {
    assert (pages + [page])[..|pages + [page]| - 1] == pages;
  }

  // ----- What a recognition returns -----

  function TextOf(file: PageFile): string {
    match file.recognised
    case Success(text) => Trim(IsWhitespace, text)
    case Failure(_) => ""
  }

  // The page that an image stands for, if it has text.
  function PageOf(file: PageFile): Option<OcrPage> {
    if TextOf(file) != "" && PageNumber(file).Some? then Some(OcrPage(PageNumber(file).value, TextOf(file))) else None
  }

  // The pages that the images stand for: one for each image with text.
  function PagesOf(files: seq<PageFile>): seq<OcrPage> {
    if files == [] then []
    else
      var last := files[|files| - 1];
      PagesOf(files[..|files| - 1])
      + match PageOf(last)
        case None => []
        case Some(page) => [page]
  }

  function TextBytes(files: seq<PageFile>): nat {
    if files == [] then 0 else TextBytes(files[..|files| - 1]) + ByteLength(TextOf(files[|files| - 1]))
  }

  // What is wrong with an image, if anything, when the images before it hold this
  // much text: it cannot be measured, is too large, is not recognised, has more
  // text than is left, or has text but no number.
  function Fault(file: PageFile, before: nat): Option<OcrError> {
    if file.size.None? then Some(Failed)
    else if file.size.value > 8 * 1024 * 1024 then Some(OutputTooLarge)
    else if file.recognised.Failure? then Some(file.recognised.error)
    else if TextOf(file) == "" then None
    else if before + ByteLength(TextOf(file)) > 4 * 1024 * 1024 then Some(OutputTooLarge)
    else if PageNumber(file).None? then Some(Failed)
    else None
  }

  // The images before this one are in order.
  predicate SoundUpTo(files: seq<PageFile>, n: nat)
    requires n <= |files|
  {
    forall i :: 0 <= i < n ==> Fault(files[i], TextBytes(files[..i])).None?
  }

  lemma {:induction false} PagesNext(files: seq<PageFile>, n: nat)
    requires n < |files|
    ensures PagesOf(files[..n + 1]) == PagesOf(files[..n])
              + (if PageOf(files[n]).Some? then [PageOf(files[n]).value] else [])
    ensures TextBytes(files[..n + 1]) == TextBytes(files[..n]) + ByteLength(TextOf(files[n]))
  {
    assert files[..n + 1][..n] == files[..n] && files[..n + 1][n] == files[n];
  }

  lemma {:induction false} ReadByFault(file: PageFile, total: nat)
    ensures ReadPage(file, total) ==
              if Fault(file, total).Some? then Failure(Fault(file, total).value) else Success(PageOf(file))
  {
  }

  // After images in order, the loop holds their pages and the bytes of their text.
  lemma {:induction false} ReadSound(files: seq<PageFile>, n: nat)
    requires n <= |files| && SoundUpTo(files, n)
    ensures ReadAll(files, []) == ReadAll(files[n..], PagesOf(files[..n]))
    ensures TotalBytes(PagesOf(files[..n])) == TextBytes(files[..n])
  {
    if n == 0 {
      assert files[0..] == files;
    } else {
      ReadSound(files, n - 1);
      ReadOne(files, n - 1, PagesOf(files[..n - 1]));
      PagesNext(files, n - 1);
    }
  }

  lemma {:induction false} ReadOne(files: seq<PageFile>, n: nat, pages: seq<OcrPage>)
    requires n < |files| && Fault(files[n], TotalBytes(pages)).None?
    ensures var page := PageOf(files[n]);
            var longer := pages + if page.Some? then [page.value] else [];
            && ReadAll(files[n..], pages) == ReadAll(files[n + 1..], longer)
            && TotalBytes(longer) == TotalBytes(pages) + ByteLength(TextOf(files[n]))
  {
    ReadByFault(files[n], TotalBytes(pages));
    ReadAllNext(files, n, pages);
    if PageOf(files[n]).Some? {
      TotalAppend(pages, PageOf(files[n]).value);
    } else {
      assert pages + [] == pages;
    }
  }

  // The image at this place is the first with something wrong.
  predicate IsFirstFault(files: seq<PageFile>, n: nat) {
    n < |files| && SoundUpTo(files, n) && Fault(files[n], TextBytes(files[..n])).Some?
  }

  lemma {:induction false} ReadFault(files: seq<PageFile>, n: nat)
    requires IsFirstFault(files, n)
    ensures ReadAll(files, []) == Failure(Fault(files[n], TextBytes(files[..n])).value)
  {
    ReadSound(files, n);
    ReadByFault(files[n], TextBytes(files[..n]));
    ReadAllNext(files, n, PagesOf(files[..n]));
  }

  // The whole result: the first image, in page order, with something wrong
  // decides the error; otherwise every image with text gives its page, in order.
  lemma {:induction false} RecognisedExactly(files: seq<PageFile>)
    requires 0 < |files| <= 64
    ensures var sorted := SortBy(PageLe, files);
            SoundUpTo(sorted, |sorted|) ==>
              Recognised(files) == if PagesOf(sorted) == [] then Failure(NoText) else Success(PagesOf(sorted))
    ensures var sorted := SortBy(PageLe, files);
            forall n: nat :: IsFirstFault(sorted, n) ==>
              Recognised(files) == Failure(Fault(sorted[n], TextBytes(sorted[..n])).value)
  {
    var sorted := SortBy(PageLe, files);
    SortMultiset(PageLe, files);
    if SoundUpTo(sorted, |sorted|) {
      ReadSound(sorted, |sorted|);
      assert sorted[|sorted|..] == [] && sorted[..|sorted|] == sorted;
    }
    forall n: nat | IsFirstFault(sorted, n)
      ensures Recognised(files) == Failure(Fault(sorted[n], TextBytes(sorted[..n])).value)
    {
      ReadFault(sorted, n);
    }
  }

  // Listings without images, or with too many, are refused.
  lemma {:induction false} CountRefused(files: seq<PageFile>)
    ensures files == [] ==> Recognised(files) == Failure(InvalidDocument)
    ensures |files| > 64 ==> Recognised(files) == Failure(TooManyPages)
  {
  }

  lemma {:induction false} FirstFault(files: seq<PageFile>, n: nat) returns (first: nat)
    requires n <= |files| && !SoundUpTo(files, n)
    ensures IsFirstFault(files, first)
  {
    if SoundUpTo(files, n - 1) {
      first := n - 1;
    } else {
      first := FirstFault(files, n - 1);
    }
  }

  lemma {:induction false} SuccessIsSound(files: seq<PageFile>)
    requires Recognised(files).Success?
    ensures SoundUpTo(SortBy(PageLe, files), |SortBy(PageLe, files)|)
    ensures Recognised(files).value == PagesOf(SortBy(PageLe, files))
  {
    var sorted := SortBy(PageLe, files);
    CountRefused(files);
    RecognisedExactly(files);
    if !SoundUpTo(sorted, |sorted|) {
      var n := FirstFault(sorted, |sorted|);
    }
  }

  predicate IsSound(file: PageFile) {
    file.recognised.Success? && (TextOf(file) != "" ==> PageNumber(file).Some?)
  }

  lemma {:induction false} AllSound(files: seq<PageFile>, file: PageFile)
    requires SoundUpTo(files, |files|) && file in files
    ensures IsSound(file)
  {
    var i :| 0 <= i < |files| && files[i] == file;
    assert Fault(files[i], TextBytes(files[..i])).None?;
  }

  // A successful recognition loses and adds nothing: the pages are exactly those
  // of the images with text, in page order, and every image was in order.
  lemma {:induction false} RecognisedPages(files: seq<PageFile>)
    requires Recognised(files).Success?
    ensures Recognised(files).value == PagesOf(SortBy(PageLe, files))
    ensures multiset(Recognised(files).value) == multiset(PagesOf(files))
    ensures forall f :: f in files ==> IsSound(f)
  {
    var sorted := SortBy(PageLe, files);
    SuccessIsSound(files);
    SortMultiset(PageLe, files);
    SamePages(sorted, files);
    forall f | f in files
      ensures IsSound(f)
    {
      assert f in multiset(sorted);
      AllSound(sorted, f);
    }
  }

  // The pages of rearranged images are the same pages rearranged.
  lemma {:induction false} SamePages(a: seq<PageFile>, b: seq<PageFile>)
    requires multiset(a) == multiset(b)
    ensures multiset(PagesOf(a)) == multiset(PagesOf(b))
    decreases |a|
  {
    SameLength(a, b);
    if a != [] {
      var last, rest := a[|a| - 1], a[..|a| - 1];
      assert a == rest + [last];
      assert last in multiset(b);
      var i :| 0 <= i < |b| && b[i] == last;
      var others := b[..i] + b[i + 1..];
      assert b == b[..i] + [last] + b[i + 1..];
      assert multiset(rest) == multiset(a) - multiset{last};
      assert multiset(others) == multiset(b) - multiset{last};
      SamePages(rest, others);
      PagesConcat(b[..i] + [last], b[i + 1..]);
      PagesConcat(b[..i], [last]);
      PagesConcat(b[..i], b[i + 1..]);
      PagesConcat(rest, [last]);
    }
  }

  lemma {:induction false} PagesConcat(a: seq<PageFile>, b: seq<PageFile>)
    ensures PagesOf(a + b) == PagesOf(a) + PagesOf(b)
    decreases |b|
  {
    if b == [] {
      assert a + b == a;
    } else {
      var rest := b[..|b| - 1];
      assert (a + b)[..|a + b| - 1] == a + rest;
      PagesConcat(a, rest);
    }
  }

  predicate PageOrder(pages: seq<OcrPage>) {
    forall i, j :: 0 <= i < j < |pages| ==> pages[i].page <= pages[j].page
  }

  predicate Bounded(pages: seq<OcrPage>) {
    && (forall i :: 0 <= i < |pages| ==>
          pages[i].text != "" && Tight(IsWhitespace, pages[i].text) && pages[i].page <= USIZE_MAX)
    && TotalBytes(pages) <= MAX_OCR_OUTPUT_BYTES
  }

  predicate AllBefore(pages: seq<OcrPage>, files: seq<PageFile>) {
    forall i, j :: 0 <= i < |pages| && 0 <= j < |files| ==> pages[i].page <= PageKey(files[j])
  }

  lemma {:induction false} ReadPageBound(file: PageFile, total: nat)
    requires ReadPage(file, total).Success? && ReadPage(file, total).value.Some?
    ensures var page := ReadPage(file, total).value.value;
            && page.page == PageKey(file) <= USIZE_MAX
            && page.text != "" && Tight(IsWhitespace, page.text)
            && total + ByteLength(page.text) <= MAX_OCR_OUTPUT_BYTES
  {
    TrimIsTight(IsWhitespace, file.recognised.value);
  }

  lemma {:induction false} ReadAllBounds(files: seq<PageFile>, pages: seq<OcrPage>)
    requires Sorted(PageLe, files) && PageOrder(pages) && Bounded(pages) && AllBefore(pages, files)
    requires ReadAll(files, pages).Success?
    ensures var r := ReadAll(files, pages).value;
            PageOrder(r) && Bounded(r) && |pages| <= |r| <= |pages| + |files|
    decreases |files|
  {
    if files != [] {
      var first, rest := files[0], files[1..];
      assert Sorted(PageLe, rest);
      assert forall j :: 0 <= j < |rest| ==> PageLe(first, rest[j]) by {
        forall j | 0 <= j < |rest|
          ensures PageLe(first, rest[j])
        {
          assert PageLe(files[0], files[j + 1]);
        }
      }
      match ReadPage(first, TotalBytes(pages)).value {
        case None =>
          ReadAllBounds(rest, pages);
        case Some(page) =>
          ReadPageBound(first, TotalBytes(pages));
          TotalAppend(pages, page);
          ReadAllBounds(rest, pages + [page]);
      }
    }
  }

  lemma {:induction false} PageLeOrder()
    ensures TotalPreorder(PageLe)
  {
  }

  // Recognised pages are in page order, have text, and together stay within the
  // output limit; there is at least one and at most one per image.
  lemma {:induction false} RecognitionBounds(files: seq<PageFile>)
    requires Recognised(files).Success?
    ensures var pages := Recognised(files).value;
            PageOrder(pages) && Bounded(pages) && 1 <= |pages| <= |files| <= MAX_OCR_PAGES
  {
    PageLeOrder();
    SortSorted(PageLe, files);
    SortMultiset(PageLe, files);
    ReadAllBounds(SortBy(PageLe, files), []);
  }

  // Images with the same page number keep the order of the listing, and nothing
  // else of that order matters: two listings that agree on it give the same pages
  // or the same failure.
  lemma {:induction false} OnlyTiesMatter(a: seq<PageFile>, b: seq<PageFile>)
    requires SameTies(PageLe, a, b)
    ensures Recognised(a) == Recognised(b)
  {
    PageLeOrder();
    SortMultiset(PageLe, a);
    SortMultiset(PageLe, b);
    SortSorted(PageLe, a);
    SortSorted(PageLe, b);
    forall x: PageFile
      ensures TiedWith(PageLe, x, SortBy(PageLe, a)) == TiedWith(PageLe, x, SortBy(PageLe, b))
    {
      SortStable(PageLe, x, a);
      SortStable(PageLe, x, b);
    }
    SortedSameTies(PageLe, SortBy(PageLe, a), SortBy(PageLe, b));
  }

  predicate DistinctKeys(files: seq<PageFile>) {
    forall i, j :: 0 <= i < j < |files| ==> PageKey(files[i]) != PageKey(files[j])
  }

  // The order in which the directory lists the images does not matter when they
  // have different page numbers.
  lemma {:induction false} ListingOrderIsIrrelevant(a: seq<PageFile>, b: seq<PageFile>)
    requires multiset(a) == multiset(b) && DistinctKeys(a)
    ensures Recognised(a) == Recognised(b)
  {
    PageLeOrder();
    SortMultiset(PageLe, a);
    SortMultiset(PageLe, b);
    SortSorted(PageLe, a);
    SortSorted(PageLe, b);
    SameLength(a, b);
    forall x, y | x in multiset(SortBy(PageLe, a)) && y in multiset(SortBy(PageLe, a)) && PageLe(x, y) && PageLe(y, x)
      ensures x == y
    {
      assert x in multiset(a) && y in multiset(a);
      var i :| 0 <= i < |a| && a[i] == x;
      var j :| 0 <= j < |a| && a[j] == y;
    }
    SortedUnique(PageLe, SortBy(PageLe, a), SortBy(PageLe, b));
  }

  // ----- Page numbers in file names -----

  lemma {:induction false} DashBefore(prefix: string, suffix: string)
    requires '-' !in suffix
    ensures AfterLastDash(prefix + "-" + suffix) == Some(suffix)
  {
    var stem := prefix + "-" + suffix;
    if suffix == "" {
      assert stem == prefix + "-";
    } else {
      var shorter, last := suffix[..|suffix| - 1], suffix[|suffix| - 1];
      assert stem[..|stem| - 1] == prefix + "-" + shorter;
      DashBefore(prefix, shorter);
      assert shorter + [last] == suffix;
    }
  }

  predicate AllZeros(text: string) {
    forall i :: 0 <= i < |text| ==> text[i] == '0'
  }

  lemma {:induction false} LeadingZeros(zeros: string, digits: string)
    requires AllZeros(zeros) && IsDigits(digits)
    ensures IsDigits(zeros + digits) && DigitsValue(zeros + digits) == DigitsValue(digits)
  {
    var all := zeros + digits;
    if digits != "" {
      LeadingZeros(zeros, digits[..|digits| - 1]);
      assert all[..|all| - 1] == zeros + digits[..|digits| - 1];
    } else {
      assert all == zeros;
      ZerosValue(zeros);
    }
  }

  lemma {:induction false} ZerosValue(zeros: string)
    requires AllZeros(zeros)
    ensures IsDigits(zeros) && DigitsValue(zeros) == 0
  {
    if zeros != "" {
      ZerosValue(zeros[..|zeros| - 1]);
    }
  }

  // The page number is read back from any name that ends in a dash, zero padding
  // and the number.
  lemma {:induction false} PageNumberReadBack(file: PageFile, prefix: string, zeros: string, n: nat)
    requires AllZeros(zeros) && n <= USIZE_MAX && file.stem == Some(prefix + "-" + (zeros + Decimal(n)))
    ensures PageNumber(file) == Some(n)
  {
    var digits := zeros + Decimal(n);
    DecimalValue(n);
    LeadingZeros(zeros, Decimal(n));
    assert '-' !in digits;
    DashBefore(prefix, digits);
    assert digits[0] != '+';
  }

  lemma {:induction false} AfterLastDashExactly(stem: string)
    ensures AfterLastDash(stem).None? <==> '-' !in stem
    ensures AfterLastDash(stem).Some? ==>
              var suffix := AfterLastDash(stem).value;
              '-' !in suffix && exists prefix :: stem == prefix + "-" + suffix
  {
    if stem != "" && stem[|stem| - 1] == '-' {
      assert stem == stem[..|stem| - 1] + "-" + "";
    } else if stem != "" {
      var shorter, last := stem[..|stem| - 1], stem[|stem| - 1];
      AfterLastDashExactly(shorter);
      assert stem == shorter + [last];
      if AfterLastDash(shorter).Some? {
        var suffix := AfterLastDash(shorter).value;
        var prefix :| shorter == prefix + "-" + suffix;
        assert stem == prefix + "-" + (suffix + [last]);
      }
    }
  }

  predicate IsNumeral(text: string, n: nat) {
    text != "" && IsDigits(text) && DigitsValue(text) == n && n <= USIZE_MAX
  }

  // A name has a page number exactly when what follows its last dash is digits,
  // after an optional plus sign, of a value that fits.
  lemma {:induction false} PageNumberExactly(file: PageFile, n: nat)
    ensures PageNumber(file) == Some(n) <==>
              && file.stem.Some?
              && exists prefix, digits :: IsNumeral(digits, n)
                   && (file.stem.value == prefix + "-" + digits || file.stem.value == prefix + "-" + ("+" + digits))
  {
    if file.stem.Some? {
      var stem := file.stem.value;
      AfterLastDashExactly(stem);
      if PageNumber(file) == Some(n) {
        var suffix := AfterLastDash(stem).value;
        var prefix :| stem == prefix + "-" + suffix;
        var digits := if suffix[0] == '+' then suffix[1..] else suffix;
        assert suffix[0] == '+' ==> suffix == "+" + digits;
        assert IsNumeral(digits, n);
      }
      if prefix, digits :| IsNumeral(digits, n) && stem == prefix + "-" + digits {
        DashBefore(prefix, digits);
        assert digits[0] != '+';
      }
      if prefix, digits :| IsNumeral(digits, n) && stem == prefix + "-" + ("+" + digits) {
        DashBefore(prefix, "+" + digits);
        assert ("+" + digits)[1..] == digits;
      }
    }
  }
}
