/** The processing stream of a report upload, once its files are stored:
    OCR of every file in upload order, translation of every file whose OCR
    succeeded with non-blank text, then one translation row per file and the
    final result. Progress is streamed as events. The collaborators are
    inputs: `imageOcr(i)` is what OCR of the i-th file's image returns or
    raises, `pdfPages(i)` is what opening the i-th file as a PDF returns (its
    pages' text layers) or raises, `pageOcr(i, j)` is the OCR of its page j, `translate(text, token)` is the
    translation service, and `ocrMs(i)`/`translateMs(i)` are the measured
    durations. */
module ReportPipeline {
  import opened Common
  import opened Payloads
  import opened Store
  import Text
  import PdfService
  import RouterCommon
  import RecordUploadPage

  const ImageTypes := ["jpg", "jpeg", "png"]
  const FilesPrefix := "/api/reports/files/"

  /** One file's OCR outcome. */
  datatype OcrResult = OcrResult(text: string, failed: bool, durationMs: int)

  /** One file's translation outcome; files not translated keep `("", 0)`. */
  datatype TranslateResult = TranslateResult(text: string, durationMs: int)

  /** The body of the final event. */
  datatype CompleteResult = CompleteResult(
    id: int,
    recordType: string,
    patientNote: Option<string>,
    createdAt: int,
    createdBy: string,
    files: seq<ReportFileResult>)

  datatype StreamEvent =
    | OcrProgress(done: nat, total: nat)
    | TranslationProgress(done: nat, total: nat)
    | Complete(result: CompleteResult)

  const EventPrefix := "data: "
  const EventEnd := "\n\n"

  /** The body of the `text/event-stream` response: every event as
      `data: <json>` followed by a blank line, in order. `json(e)` is
      `json.dumps` of the event's dictionary. */
  function StreamText(events: seq<StreamEvent>, json: StreamEvent -> string): (r: string)
    ensures events != [] ==> Text.StartsWith(r, EventPrefix)
  {
    if events == [] then []
    else EventPrefix + json(events[0]) + EventEnd + StreamText(events[1..], json)
  }

  /** The page OCR of the i-th file. */
  function PageOcrOf(pageOcr: (nat, nat) -> Attempt<string>, i: nat): nat -> Attempt<string>
  {
    (j: nat) => pageOcr(i, j)
  }

  /** What OCR of the i-th file returns or raises, by its extension. */
  function OcrAttempt(ext: string, i: nat, imageOcr: nat -> Attempt<string>,
                      pdfPages: nat -> Attempt<seq<string>>, pageOcr: (nat, nat) -> Attempt<string>): Attempt<string>
  {
    if ext in ImageTypes then imageOcr(i)
    else if ext == "pdf" then PdfService.PdfText(pdfPages(i), PageOcrOf(pageOcr, i))
    else Returned("")
  }

  /** A raise becomes a sentinel text and marks the file failed. */
  function OcrResultOf(a: Attempt<string>, ms: int): OcrResult
  {
    match a
    case Raised(e) => OcrResult("[OCR error: " + e + "]", true, ms)
    case Returned(t) => OcrResult(t, false, ms)
  }

  /** The OCR phase's results for every file. */
  function OcrResults(items: seq<FileRow>, imageOcr: nat -> Attempt<string>, pdfPages: nat -> Attempt<seq<string>>,
                      pageOcr: (nat, nat) -> Attempt<string>, ocrMs: nat -> int): (r: seq<OcrResult>)
    ensures |r| == |items|
  {
    seq(|items|, i requires 0 <= i < |items| =>
      OcrResultOf(OcrAttempt(items[i].fileType, i, imageOcr, pdfPages, pageOcr), ocrMs(i)))
  }

  /** Only a file whose OCR did not fail and whose text is not blank is
      translated. */
  predicate Translatable(o: OcrResult)
  {
    !o.failed && Text.Strip(o.text, Text.Python) != []
  }

  /** The indices of the translatable files, in order. */
  function TranslatableIndices(ocrs: seq<OcrResult>, n: nat): (r: seq<nat>)
    requires n <= |ocrs|
    ensures forall k :: 0 <= k < |r| ==> r[k] < n
  {
    if n == 0 then []
    else TranslatableIndices(ocrs, n - 1) + (if Translatable(ocrs[n - 1]) then [n - 1] else [])
  }

  /** One translation: the service's text, or a sentinel when it raised. */
  function TranslationOf(o: OcrResult, token: string, translate: (string, string) -> Attempt<string>, ms: int): TranslateResult
  {
    match translate(o.text, token)
    case Returned(t) => TranslateResult(t, ms)
    case Raised(e) => TranslateResult("[Translation error: " + e + "]", ms)
  }

  /** The translation phase's results for every file. */
  function TranslateResults(ocrs: seq<OcrResult>, token: string, translate: (string, string) -> Attempt<string>,
                            translateMs: nat -> int): (r: seq<TranslateResult>)
    ensures |r| == |ocrs|
  {
    seq(|ocrs|, i requires 0 <= i < |ocrs| =>
      if Translatable(ocrs[i]) then TranslationOf(ocrs[i], token, translate, translateMs(i)) else TranslateResult("", 0))
  }

  function FileResultOf(item: FileRow, o: OcrResult, t: TranslateResult): ReportFileResult
  {
    ReportFileResult(item.id, item.originalFilename, item.fileType, RouterCommon.DownloadUrl(FilesPrefix, item.id),
                     StreamedTranslation(o.text, t.text, o.durationMs, t.durationMs))
  }

  /** The OCR progress events of `total` files: one per file, counting up. */
  function OcrEvents(total: nat): (r: seq<StreamEvent>)
    ensures |r| == total
  {
    seq(total, k requires 0 <= k < total => OcrProgress(k + 1, total))
  }

  /** The translation progress events of `total` translations, counting up. */
  function TranslationEvents(total: nat): (r: seq<StreamEvent>)
    ensures |r| == total
  {
    seq(total, k requires 0 <= k < total => TranslationProgress(k + 1, total))
  }

  /** The OCR loop: one result per file, and one progress event after each. */
  method OcrPhase(items: seq<FileRow>, imageOcr: nat -> Attempt<string>, pdfPages: nat -> Attempt<seq<string>>,
                  pageOcr: (nat, nat) -> Attempt<string>, ocrMs: nat -> int)
      returns (ocrs: seq<OcrResult>, events: seq<StreamEvent>)
    ensures ocrs == OcrResults(items, imageOcr, pdfPages, pageOcr, ocrMs)
    ensures events == OcrEvents(|items|)
  {
    var total := |items|;
    ocrs := [];
    events := [];
    var i := 0;
    while i < total
      invariant 0 <= i <= total && |ocrs| == i && |events| == i
      invariant forall k :: 0 <= k < i ==>
        ocrs[k] == OcrResultOf(OcrAttempt(items[k].fileType, k, imageOcr, pdfPages, pageOcr), ocrMs(k))
      invariant forall k :: 0 <= k < i ==> events[k] == OcrProgress(k + 1, total)
    {
      var ext := items[i].fileType;
      var attempt: Attempt<string>;
      if ext in ImageTypes {
        attempt := imageOcr(i);
      } else if ext == "pdf" {
        var pdf, ocrCalls := PdfService.ExtractFromPdf(pdfPages(i), PageOcrOf(pageOcr, i));
        attempt := pdf;
      } else {
        attempt := Returned("");
      }
      var result := match attempt
        case Raised(e) => OcrResult("[OCR error: " + e + "]", true, ocrMs(i))
        case Returned(t) => OcrResult(t, false, ocrMs(i));
      ocrs := ocrs + [result];
      events := events + [OcrProgress(i + 1, total)];
      i := i + 1;
    }
    assert events == OcrEvents(total);
  }

  /** The translation phase: every translatable file gets the service's
      answer, the others keep `("", 0)`, and one progress event follows each
      completed translation. Completion order is not modelled: the asyncio jobs are
      taken in index order. */
  method TranslationPhase(ocrs: seq<OcrResult>, token: string, translate: (string, string) -> Attempt<string>,
                          translateMs: nat -> int)
      returns (results: seq<TranslateResult>, events: seq<StreamEvent>)
    ensures results == TranslateResults(ocrs, token, translate, translateMs)
    ensures events == TranslationEvents(|TranslatableIndices(ocrs, |ocrs|)|)
  {
    var translatable := TranslatableIndices(ocrs, |ocrs|);
    var translateTotal := |translatable|;
    results := seq(|ocrs|, _ => TranslateResult("", 0));
    events := [];
    var done := 0;
    while done < translateTotal
      invariant 0 <= done <= translateTotal && |results| == |ocrs| && |events| == done
      invariant forall k :: 0 <= k < done ==> events[k] == TranslationProgress(k + 1, translateTotal)
      invariant forall j :: 0 <= j < |ocrs| ==>
        results[j] == if j in translatable[..done] then TranslationOf(ocrs[j], token, translate, translateMs(j))
                      else TranslateResult("", 0)
    {
      var idx := translatable[done];
      var text: string;
      match translate(ocrs[idx].text, token) {
        case Returned(t) =>
          text := t;
        case Raised(e) =>
          text := "[Translation error: " + e + "]";
      }
      results := results[idx := TranslateResult(text, translateMs(idx))];
      assert translatable[..done + 1] == translatable[..done] + [idx];
      events := events + [TranslationProgress(done + 1, translateTotal)];
      done := done + 1;
    }
    assert translatable[..translateTotal] == translatable;
    TranslatableIndicesMembers(ocrs, |ocrs|);
    assert events == TranslationEvents(translateTotal);
  }

  /** Exactly the translatable files are listed. */
  lemma {:induction false} TranslatableIndicesMembers(ocrs: seq<OcrResult>, n: nat)
    requires n <= |ocrs|
    ensures forall j :: j in TranslatableIndices(ocrs, n) <==> 0 <= j < n && Translatable(ocrs[j])
  {
    if n > 0 {
      TranslatableIndicesMembers(ocrs, n - 1);
    }
  }

  /** The result entries of the final event, one per file in upload order. */
  function FileResults(items: seq<FileRow>, ocrs: seq<OcrResult>, trans: seq<TranslateResult>): (r: seq<ReportFileResult>)
    requires |ocrs| == |items| && |trans| == |items|
    ensures |r| == |items|
  {
    seq(|items|, i requires 0 <= i < |items| => FileResultOf(items[i], ocrs[i], trans[i]))
  }

  /** The translation rows saved for the files, keys counting up from `firstId`. */
  function SavedRows(firstId: int, items: seq<FileRow>, ocrs: seq<OcrResult>, trans: seq<TranslateResult>): (r: seq<TranslationRow>)
    requires |ocrs| == |items| && |trans| == |items|
    ensures |r| == |items|
  {
    seq(|items|, i requires 0 <= i < |items| =>
      TranslationRow(firstId + i, items[i].id, ocrs[i].text, trans[i].text, Some(ocrs[i].durationMs), Some(trans[i].durationMs)))
  }

  /** The saving loop: one translation row per file, in upload order. */
  method SavePhase(db: Database, items: seq<FileRow>, ocrs: seq<OcrResult>, trans: seq<TranslateResult>)
    requires db.Valid() && |ocrs| == |items| && |trans| == |items|
    requires forall k :: 0 <= k < |items| ==> items[k].id < db.nextFileId
    modifies db`translations, db`nextTranslationId
    ensures db.Valid()
    ensures db.translations == old(db.translations) + SavedRows(old(db.nextTranslationId), items, ocrs, trans)
    ensures db.nextTranslationId == old(db.nextTranslationId) + |items|
  {
    ghost var added: seq<TranslationRow> := [];
    ghost var firstId := db.nextTranslationId;
    var i := 0;
    while i < |items|
      invariant 0 <= i <= |items| && |added| == i
      invariant db.Valid() && db.nextTranslationId == firstId + i
      invariant db.translations == old(db.translations) + added
      invariant forall k :: 0 <= k < i ==> added[k] == SavedRows(firstId, items, ocrs, trans)[k]
    {
      var row := db.AddTranslation(items[i].id, ocrs[i].text, trans[i].text, Some(ocrs[i].durationMs), Some(trans[i].durationMs));
      added := added + [row];
      i := i + 1;
    }
    assert added == SavedRows(firstId, items, ocrs, trans);
  }

  /** `_process_stream`: the OCR events, then the translation events, then
      the final event with the record and every file's texts; the texts are
      saved as one translation row per file. */
  method ProcessStream(db: Database, record: RecordRow, items: seq<FileRow>, token: string,
                       imageOcr: nat -> Attempt<string>, pdfPages: nat -> Attempt<seq<string>>,
                       pageOcr: (nat, nat) -> Attempt<string>, translate: (string, string) -> Attempt<string>,
                       ocrMs: nat -> int, translateMs: nat -> int)
      returns (events: seq<StreamEvent>)
    requires db.Valid() && forall k :: 0 <= k < |items| ==> items[k].id < db.nextFileId
    modifies db`translations, db`nextTranslationId
    ensures db.Valid()
    ensures var ocrs := OcrResults(items, imageOcr, pdfPages, pageOcr, ocrMs);
      var trans := TranslateResults(ocrs, token, translate, translateMs);
      && events == OcrEvents(|items|) + TranslationEvents(|TranslatableIndices(ocrs, |items|)|)
                   + [Complete(CompleteResult(record.id, record.recordType, record.patientNote,
                                              record.createdAt, record.createdBy, FileResults(items, ocrs, trans)))]
      && db.translations == old(db.translations) + SavedRows(old(db.nextTranslationId), items, ocrs, trans)
      && db.nextTranslationId == old(db.nextTranslationId) + |items|
  {
    var ocrs, ocrEvents := OcrPhase(items, imageOcr, pdfPages, pageOcr, ocrMs);
    var trans, translationEvents := TranslationPhase(ocrs, token, translate, translateMs);
    SavePhase(db, items, ocrs, trans);
    var files := FileResults(items, ocrs, trans);
    var result := CompleteResult(record.id, record.recordType, record.patientNote, record.createdAt, record.createdBy, files);
    events := ocrEvents + translationEvents + [Complete(result)];
  }

  /** The final event's entry for a file carries the same texts and the same
      two durations as the translation row saved for it; a file that was not
      translated reports a translation duration of 0. */
  lemma StreamedEntryMatchesSavedRow(firstId: int, items: seq<FileRow>, ocrs: seq<OcrResult>,
                                    token: string, translate: (string, string) -> Attempt<string>,
                                    translateMs: nat -> int, i: nat)
    requires |ocrs| == |items| && i < |items|
    ensures var trans := TranslateResults(ocrs, token, translate, translateMs);
      var f := FileResults(items, ocrs, trans)[i];
      var row := SavedRows(firstId, items, ocrs, trans)[i];
      && f.id == row.fileId == items[i].id
      && f.originalFilename == items[i].originalFilename && f.fileType == items[i].fileType
      && f.translation.originalText == row.originalText == ocrs[i].text
      && f.translation.translatedText == row.translatedText
      && Some(f.translation.ocrDurationMs) == row.ocrDurationMs == Some(ocrs[i].durationMs)
      && Some(f.translation.translationDurationMs) == row.translationDurationMs
      && f.translation.translationDurationMs == (if Translatable(ocrs[i]) then translateMs(i) else 0)
  {
  }

  /** A file whose OCR raised carries the OCR sentinel, is not translated,
      and the upload page shows it as an OCR error and not as processed. */
  lemma OcrFailureIsShown(items: seq<FileRow>, imageOcr: nat -> Attempt<string>, pdfPages: nat -> Attempt<seq<string>>,
                          pageOcr: (nat, nat) -> Attempt<string>, ocrMs: nat -> int, token: string,
                          translate: (string, string) -> Attempt<string>, translateMs: nat -> int, i: nat)
    requires i < |items| && OcrAttempt(items[i].fileType, i, imageOcr, pdfPages, pageOcr).Raised?
    ensures var ocrs := OcrResults(items, imageOcr, pdfPages, pageOcr, ocrMs);
      var trans := TranslateResults(ocrs, token, translate, translateMs);
      var f := FileResults(items, ocrs, trans)[i];
      && ocrs[i].failed && trans[i] == TranslateResult("", 0)
      && RecordUploadPage.OcrFailed(f)
      && RecordUploadPage.ViewOf(f) == RecordUploadPage.OcrErrorNotice(items[i].originalFilename)
  {
    var ocrs := OcrResults(items, imageOcr, pdfPages, pageOcr, ocrMs);
    var a := OcrAttempt(items[i].fileType, i, imageOcr, pdfPages, pageOcr);
    assert ocrs[i] == OcrResultOf(a, ocrMs(i));
    var text := "[OCR error: " + a.exc + "]";
    assert ocrs[i].text == text;
    assert text[..|RecordUploadPage.OcrErrorPrefix|] == RecordUploadPage.OcrErrorPrefix;
    var trans := TranslateResults(ocrs, token, translate, translateMs);
    assert !Translatable(ocrs[i]);
    assert trans[i] == TranslateResult("", 0);
    var f := FileResults(items, ocrs, trans)[i];
    assert f == FileResultOf(items[i], ocrs[i], trans[i]);
    assert RecordUploadPage.OcrFailed(f);
  }

  /** A file named `*.pdf` whose bytes do not open as a PDF fails its OCR
      with the library's exception, before any page is read; only the name
      was checked on upload. */
  lemma UnopenablePdfFailsOcr(items: seq<FileRow>, imageOcr: nat -> Attempt<string>, pdfPages: nat -> Attempt<seq<string>>,
                              pageOcr: (nat, nat) -> Attempt<string>, ocrMs: nat -> int, i: nat)
    requires i < |items| && items[i].fileType == "pdf" && pdfPages(i).Raised?
    ensures OcrResults(items, imageOcr, pdfPages, pageOcr, ocrMs)[i]
      == OcrResult("[OCR error: " + pdfPages(i).exc + "]", true, ocrMs(i))
  {
  }

  /** A translatable file whose translation raised carries the translation
      sentinel, which the upload page shows as a translation error. */
  lemma TranslationFailureIsShown(items: seq<FileRow>, ocrs: seq<OcrResult>, token: string,
                                  translate: (string, string) -> Attempt<string>, translateMs: nat -> int, i: nat)
    requires |ocrs| == |items| && i < |items|
    requires Translatable(ocrs[i]) && translate(ocrs[i].text, token).Raised?
    ensures var trans := TranslateResults(ocrs, token, translate, translateMs);
      && trans[i].text == "[Translation error: " + translate(ocrs[i].text, token).exc + "]"
      && RecordUploadPage.TranslationFailed(FileResults(items, ocrs, trans)[i])
  {
    var trans := TranslateResults(ocrs, token, translate, translateMs);
    var text := "[Translation error: " + translate(ocrs[i].text, token).exc + "]";
    assert trans[i] == TranslationOf(ocrs[i], token, translate, translateMs(i));
    assert trans[i].text == text;
    assert text[..|RecordUploadPage.TranslationErrorPrefix|] == RecordUploadPage.TranslationErrorPrefix;
  }

  /** A file is translated exactly when its OCR succeeded with non-blank
      text; an OCR that returned only whitespace is kept but not translated. */
  lemma TranslatedExactlyWhenTranslatable(ocrs: seq<OcrResult>, token: string,
                                          translate: (string, string) -> Attempt<string>, translateMs: nat -> int, i: nat)
    requires i < |ocrs|
    ensures !Translatable(ocrs[i]) ==> TranslateResults(ocrs, token, translate, translateMs)[i] == TranslateResult("", 0)
    ensures Translatable(ocrs[i]) ==>
      TranslateResults(ocrs, token, translate, translateMs)[i] == TranslationOf(ocrs[i], token, translate, translateMs(i))
    ensures i in TranslatableIndices(ocrs, |ocrs|) <==> Translatable(ocrs[i])
  {
    TranslatableIndicesMembers(ocrs, |ocrs|);
  }

  /** One file's outcome depends only on its own OCR, its own translation
      answer and its durations: what happens to any other file, and what the
      translator answers for other texts, changes nothing for it. */
  lemma FileOutcomeIsolated(items: seq<FileRow>, token: string, i: nat,
                            imageOcr1: nat -> Attempt<string>, pdfPages1: nat -> Attempt<seq<string>>,
                            pageOcr1: (nat, nat) -> Attempt<string>, ocrMs1: nat -> int,
                            translate1: (string, string) -> Attempt<string>, translateMs1: nat -> int,
                            imageOcr2: nat -> Attempt<string>, pdfPages2: nat -> Attempt<seq<string>>,
                            pageOcr2: (nat, nat) -> Attempt<string>, ocrMs2: nat -> int,
                            translate2: (string, string) -> Attempt<string>, translateMs2: nat -> int)
    requires i < |items|
    requires OcrAttempt(items[i].fileType, i, imageOcr1, pdfPages1, pageOcr1)
          == OcrAttempt(items[i].fileType, i, imageOcr2, pdfPages2, pageOcr2)
    requires ocrMs1(i) == ocrMs2(i) && translateMs1(i) == translateMs2(i)
    requires var o := OcrResultOf(OcrAttempt(items[i].fileType, i, imageOcr1, pdfPages1, pageOcr1), ocrMs1(i));
      translate1(o.text, token) == translate2(o.text, token)
    ensures var ocrs1 := OcrResults(items, imageOcr1, pdfPages1, pageOcr1, ocrMs1);
      var ocrs2 := OcrResults(items, imageOcr2, pdfPages2, pageOcr2, ocrMs2);
      FileResults(items, ocrs1, TranslateResults(ocrs1, token, translate1, translateMs1))[i]
        == FileResults(items, ocrs2, TranslateResults(ocrs2, token, translate2, translateMs2))[i]
  {
  }
}
