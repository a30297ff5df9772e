/** Text extraction from a PDF: each page's own text layer is used when it has
    at least ten characters after stripping, otherwise the page is rendered and
    read by OCR. The non-empty page texts are joined by a blank line. The PDF
    library and the OCR service are inputs: `doc` is what opening the bytes
    as a PDF returns (the pages' raw text layers) or raises, and `ocr(i)` is
    what OCR of page `i`'s rendering returns or raises. */
module PdfService {
  import opened Common
  import Text

  const MinPageText := 10
  const PageSeparator := "\n\n"

  /** Whether page text this short is replaced by OCR. */
  predicate NeedsOcr(raw: string)
  {
    |Text.Strip(raw, Text.Python)| < MinPageText
  }

  /** The text one page contributes before the emptiness check. */
  function PageText(raw: string, ocr: Attempt<string>): Attempt<string>
  {
    if NeedsOcr(raw) then ocr else Returned(Text.Strip(raw, Text.Python))
  }

  /** The non-empty texts of the pages in order, or the first OCR failure. */
  function KeptTexts(pages: seq<string>, ocr: nat -> Attempt<string>): Attempt<seq<string>>
  {
    if pages == [] then Returned([])
    else
      var n := |pages| - 1;
      match KeptTexts(pages[..n], ocr)
      case Raised(e) => Raised(e)
      case Returned(ts) =>
        match PageText(pages[n], ocr(n))
        case Raised(e) => Raised(e)
        case Returned(t) => Returned(if t != [] then ts + [t] else ts)
  }

  /** `extract_from_pdf`: the failure to open the document, or the kept
      texts joined, or the first OCR failure. */
  function PdfText(doc: Attempt<seq<string>>, ocr: nat -> Attempt<string>): Attempt<string>
  {
    match doc
    case Raised(e) => Raised(e)
    case Returned(pages) =>
      match KeptTexts(pages, ocr)
      case Raised(e) => Raised(e)
      case Returned(ts) => Returned(Text.Join(ts, PageSeparator))
  }

  /** The indices below `n` of the pages whose own text is too short, in
      order. */
  function ShortPages(pages: seq<string>, n: nat): seq<nat>
    requires n <= |pages|
  {
    if n == 0 then []
    else ShortPages(pages, n - 1) + (if NeedsOcr(pages[n - 1]) then [n - 1] else [])
  }

  lemma ShortPagesStep(pages: seq<string>, i: nat)
    requires i < |pages|
    ensures ShortPages(pages, i + 1) == ShortPages(pages, i) + (if NeedsOcr(pages[i]) then [i] else [])
  {
  }

  /** Exactly the pages with too little own text are listed. */
  lemma {:induction false} ShortPagesMembers(pages: seq<string>, n: nat)
    requires n <= |pages|
    ensures forall j :: j in ShortPages(pages, n) <==> 0 <= j < n && NeedsOcr(pages[j])
  {
    if n > 0 {
      ShortPagesMembers(pages, n - 1);
    }
  }

  /** Opening the document and the page loop. A document that does not open
      raises before any page is read. `ocrCalls` lists the pages that were
      sent to OCR, in order: only pages whose own text is too short, and,
      when extraction succeeds, every one of them. */
  method ExtractFromPdf(doc: Attempt<seq<string>>, ocr: nat -> Attempt<string>) returns (result: Attempt<string>, ocrCalls: seq<nat>)
    ensures result == PdfText(doc, ocr)
    ensures doc.Raised? ==> result == Raised(doc.exc) && ocrCalls == []
    ensures doc.Returned? ==>
      forall k :: 0 <= k < |ocrCalls| ==> ocrCalls[k] < |doc.value| && NeedsOcr(doc.value[ocrCalls[k]])
    ensures doc.Returned? && result.Returned? ==> ocrCalls == ShortPages(doc.value, |doc.value|)
  {
    if doc.Raised? {
      return Raised(doc.exc), [];
    }
    var pages := doc.value;
    var allText: seq<string> := [];
    ocrCalls := [];
    var i := 0;
    while i < |pages|
      invariant 0 <= i <= |pages|
      invariant KeptTexts(pages[..i], ocr) == Returned(allText)
      invariant ocrCalls == ShortPages(pages, i)
    {
      var text := Text.Strip(pages[i], Text.Python);
      assert NeedsOcr(pages[i]) <==> |text| < MinPageText;
      ShortPagesStep(pages, i);
      if |text| < MinPageText {
        ocrCalls := ocrCalls + [i];
        var page := ocr(i);
        if page.Raised? {
          KeptTextsFailure(pages, i, ocr);
          assert ocrCalls == ShortPages(pages, i + 1);
          ShortPagesMembers(pages, i + 1);
          assert forall k :: 0 <= k < |ocrCalls| ==> ocrCalls[k] in ShortPages(pages, i + 1);
          return Raised(page.exc), ocrCalls;
        }
        text := page.value;
      }
      KeptTextsStep(pages, i, ocr, allText, text);
      if text != [] {
        allText := allText + [text];
      }
      i := i + 1;
    }
    assert pages[..|pages|] == pages;
    ShortPagesMembers(pages, |pages|);
    assert forall k :: 0 <= k < |ocrCalls| ==> ocrCalls[k] in ShortPages(pages, |pages|);
    return Returned(Text.Join(allText, PageSeparator)), ocrCalls;
  }

  /** One more page extends the kept texts by that page's text, if any. */
  lemma KeptTextsStep(pages: seq<string>, i: nat, ocr: nat -> Attempt<string>, ts: seq<string>, t: string)
    requires i < |pages| && KeptTexts(pages[..i], ocr) == Returned(ts)
    requires PageText(pages[i], ocr(i)) == Returned(t)
    ensures KeptTexts(pages[..i + 1], ocr) == Returned(if t != [] then ts + [t] else ts)
  {
    assert pages[..i + 1][..i] == pages[..i];
  }

  /** An OCR failure on a page after successful pages is the whole result. */
  lemma {:induction false} KeptTextsFailure(pages: seq<string>, i: nat, ocr: nat -> Attempt<string>)
    requires i < |pages| && KeptTexts(pages[..i], ocr).Returned?
    requires NeedsOcr(pages[i]) && ocr(i).Raised?
    ensures KeptTexts(pages, ocr) == Raised(ocr(i).exc)
    decreases |pages|
  {
    var n := |pages| - 1;
    assert pages[..n + 1] == pages;
    if i == n {
      assert pages[..n] == pages[..i];
    } else {
      assert pages[..n][..i] == pages[..i];
      KeptTextsFailure(pages[..n], i, ocr);
    }
  }

  /** Every kept text is non-empty, and there are at most as many as pages. */
  lemma {:induction false} KeptTextsNonEmpty(pages: seq<string>, ocr: nat -> Attempt<string>)
    requires KeptTexts(pages, ocr).Returned?
    ensures |KeptTexts(pages, ocr).value| <= |pages|
    ensures forall t :: t in KeptTexts(pages, ocr).value ==> t != []
  {
    if pages != [] {
      KeptTextsNonEmpty(pages[..|pages| - 1], ocr);
    }
  }

  /** Each page's own text, stripped. */
  function StrippedPages(pages: seq<string>): (r: seq<string>)
    ensures |r| == |pages| && forall i :: 0 <= i < |pages| ==> r[i] == Text.Strip(pages[i], Text.Python)
  {
    if pages == [] then [] else StrippedPages(pages[..|pages| - 1]) + [Text.Strip(pages[|pages| - 1], Text.Python)]
  }

  /** A document whose pages all carry enough text needs no OCR: the result
      is the stripped page texts, whatever OCR would have said. */
  lemma {:induction false} TextPagesIgnoreOcr(pages: seq<string>, ocr: nat -> Attempt<string>)
    requires forall i :: 0 <= i < |pages| ==> !NeedsOcr(pages[i])
    ensures KeptTexts(pages, ocr) == Returned(StrippedPages(pages))
  {
    if pages != [] {
      var n := |pages| - 1;
      TextPagesIgnoreOcr(pages[..n], ocr);
      assert Text.Strip(pages[n], Text.Python) != [];
    }
  }

  /** No pages, no text. */
  lemma EmptyDocument(ocr: nat -> Attempt<string>)
    ensures PdfText(Returned([]), ocr) == Returned("")
  {
  }
}
