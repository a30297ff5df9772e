/** The reports router: upload of report images and PDFs, whose text is
    extracted and translated by the processing stream; the list of report
    records with a preview of the first translation; one record with its
    files and every translation; and the download of a stored file. Every
    route is behind `get_current_user`; the routes here receive the resolved
    user. */
module ReportsRouter {
  import opened Common
  import opened Payloads
  import opened Store
  import opened RouterCommon
  import opened ReportPipeline
  import AuthRouter

  const Allowed := ["jpg", "jpeg", "png", "pdf"]
  /** The longest list preview. */
  const PreviewLength := 200

  /** `current_user.get("token", "")`: the caller's bearer token, passed on to
      the translation service. */
  function TokenOf(user: AuthRouter.UserDict): string
  {
    if AuthRouter.TokenKey in user then user[AuthRouter.TokenKey] else ""
  }

  /** The token the translation service receives is the one the request was
      authorised with. */
  lemma UploadForwardsBearerToken(header: Option<string>, getUser: string -> Attempt<AuthRouter.UserDict>)
    requires AuthRouter.GetCurrentUser(header, getUser).Answer?
    ensures TokenOf(AuthRouter.GetCurrentUser(header, getUser).body) == header.value[|AuthRouter.BearerPrefix|..]
  {
  }

  /** `preview_text[:200]`. */
  function Truncated(s: string): (r: string)
    ensures |r| <= PreviewLength && r <= s
    ensures |s| <= PreviewLength ==> r == s
  {
    if |s| <= PreviewLength then s else s[..PreviewLength]
  }

  /** The preview of a record: the start, at most 200 characters, of its
      first file's first translation, or empty when it has no file or that
      file no translation. */
  function Preview(t: Tables, r: RecordRow): (p: string)
    ensures |p| <= PreviewLength
  {
    var files := FilesOf(t.files, r.id);
    if files == [] then ""
    else
      var rows := TranslationsOf(t.translations, files[0].id);
      if rows == [] then "" else Truncated(rows[0].translatedText)
  }

  /** The preview is empty unless the record's first file has a translation;
      then it is the start of the first translation's text, all of it when
      that text fits in 200 characters, exactly 200 characters otherwise. */
  lemma PreviewFacts(t: Tables, r: RecordRow)
    ensures FilesOf(t.files, r.id) == [] ==> Preview(t, r) == ""
    ensures FilesOf(t.files, r.id) != [] && TranslationsOf(t.translations, FilesOf(t.files, r.id)[0].id) == [] ==>
      Preview(t, r) == ""
    ensures FilesOf(t.files, r.id) != [] && TranslationsOf(t.translations, FilesOf(t.files, r.id)[0].id) != [] ==>
      var text := TranslationsOf(t.translations, FilesOf(t.files, r.id)[0].id)[0].translatedText;
      && Preview(t, r) <= text
      && (|text| <= PreviewLength ==> Preview(t, r) == text)
      && (|text| > PreviewLength ==> |Preview(t, r)| == PreviewLength)
  {
  }

  function ListEntryOf(t: Tables, r: RecordRow): ListEntry
  {
    ListEntry(r.id, r.patientNote, r.createdAt, r.createdBy, |FilesOf(t.files, r.id)|, Some(Preview(t, r)))
  }

  /** The list the route returns. */
  function ReportList(t: Tables): (r: seq<ListEntry>)
    ensures |r| == |RecordsOfKind(t.records, ReportKind)|
  {
    var rows := RecordsOfKind(t.records, ReportKind);
    seq(|rows|, i requires 0 <= i < |rows| => ListEntryOf(t, rows[i]))
  }

  /** `list_report_records`: one entry per report record, newest first. */
  method ListReportRecords(t: Tables) returns (result: seq<ListEntry>)
    ensures result == ReportList(t)
  {
    var records := RecordsOfKind(t.records, ReportKind);
    result := [];
    var i := 0;
    while i < |records|
      invariant 0 <= i <= |records|
      invariant result == ReportList(t)[..i]
    {
      var r := records[i];
      var preview := "";
      var files := FilesOf(t.files, r.id);
      if files != [] && TranslationsOf(t.translations, files[0].id) != [] {
        var previewText := TranslationsOf(t.translations, files[0].id)[0].translatedText;
        preview := if |previewText| <= PreviewLength then previewText else previewText[..PreviewLength];
      }
      var entry := ListEntry(r.id, r.patientNote, r.createdAt, r.createdBy, |files|, Some(preview));
      assert entry == ReportList(t)[i];
      PrefixSnoc(ReportList(t), i);
      result := result + [entry];
      i := i + 1;
    }
  }

  /** The list holds one entry per report record and nothing else, newest
      first, each counting that record's files and carrying its preview. */
  lemma ReportListFacts(t: Tables)
    ensures var list := ReportList(t);
      && |list| == |OfKind(t.records, ReportKind)|
      && (forall i, j :: 0 <= i < j < |list| ==> list[i].createdAt >= list[j].createdAt)
      && (set e | e in list) == (set r | r in t.records && r.recordType == ReportKind :: ListEntryOf(t, r))
  {
    RecordsOfKindFacts(t.records, ReportKind);
    ReportListOrder(t);
    ReportListOnlyOfKind(t);
    ReportListEveryOfKind(t);
  }

  /** The list runs newest first. */
  lemma ReportListOrder(t: Tables)
    ensures forall i, j :: 0 <= i < j < |ReportList(t)| ==> ReportList(t)[i].createdAt >= ReportList(t)[j].createdAt
  {
    var rows := RecordsOfKind(t.records, ReportKind);
    RecordsOfKindFacts(t.records, ReportKind);
    forall i, j | 0 <= i < j < |ReportList(t)| ensures ReportList(t)[i].createdAt >= ReportList(t)[j].createdAt {
      assert CreatedAt(rows[i]) >= CreatedAt(rows[j]);
    }
  }

  /** Every entry is the entry of a report record. */
  lemma ReportListOnlyOfKind(t: Tables)
    ensures forall e :: e in ReportList(t) ==>
      e in (set r | r in t.records && r.recordType == ReportKind :: ListEntryOf(t, r))
  {
    var rows := RecordsOfKind(t.records, ReportKind);
    var list := ReportList(t);
    RecordsOfKindFacts(t.records, ReportKind);
    forall e | e in list ensures e in (set r | r in t.records && r.recordType == ReportKind :: ListEntryOf(t, r)) {
      var i :| 0 <= i < |list| && list[i] == e;
      assert rows[i] in rows;
    }
  }

  /** Every report record has its entry in the list. */
  lemma ReportListEveryOfKind(t: Tables)
    ensures forall r :: r in t.records && r.recordType == ReportKind ==> ListEntryOf(t, r) in ReportList(t)
  {
    var rows := RecordsOfKind(t.records, ReportKind);
    var list := ReportList(t);
    RecordsOfKindFacts(t.records, ReportKind);
    forall r | r in t.records && r.recordType == ReportKind ensures ListEntryOf(t, r) in list {
      var i :| 0 <= i < |rows| && rows[i] == r;
      assert list[i] == ListEntryOf(t, r);
    }
  }


  function TranslationEntryOf(row: TranslationRow): TranslationEntry
  {
    TranslationEntry(row.id, row.originalText, row.translatedText, row.ocrDurationMs, row.translationDurationMs)
  }

  /** A file of a report detail, with every translation of it. */
  function FileEntryOf(t: Tables, f: FileRow): (e: FileEntry)
    ensures e.translations.Some? && |e.translations.value| == |TranslationsOf(t.translations, f.id)|
    ensures forall k :: 0 <= k < |e.translations.value| ==>
      e.translations.value[k] == TranslationEntryOf(TranslationsOf(t.translations, f.id)[k])
  {
    var rows := TranslationsOf(t.translations, f.id);
    FileEntry(f.id, f.originalFilename, f.fileType, DownloadUrl(FilesPrefix, f.id),
              Some(seq(|rows|, k requires 0 <= k < |rows| => TranslationEntryOf(rows[k]))))
  }

  function DetailOf(t: Tables, r: RecordRow): (d: RecordDetail)
    ensures |d.files| == |FilesOf(t.files, r.id)|
    ensures forall i :: 0 <= i < |d.files| ==> d.files[i] == FileEntryOf(t, FilesOf(t.files, r.id)[i])
  {
    var files := FilesOf(t.files, r.id);
    RecordDetail(r.id, r.recordType, r.patientNote, r.createdAt, r.createdBy,
                 seq(|files|, i requires 0 <= i < |files| => FileEntryOf(t, files[i])))
  }

  /** `get_report_record`: 404 unless a report record has that id. */
  function GetReportRecord(t: Tables, id: int): (r: RouteResult<RecordDetail>)
    ensures r.Reject? <==> forall i :: 0 <= i < |t.records| ==> !(t.records[i].id == id && t.records[i].recordType == ReportKind)
    ensures r.Reject? ==> r.error == HttpException(404, RecordNotFoundDetail)
    ensures r.Answer? ==> r.body.id == id && r.body.recordType == ReportKind
  {
    match FindRecord(t.records, id, ReportKind)
    case None => Reject(HttpException(404, RecordNotFoundDetail))
    case Some(row) => Answer(DetailOf(t, row))
  }

  /** `download_report_file`. */
  function DownloadReportFile(t: Tables, fileId: int): RouteResult<FileRow>
  {
    DownloadFile(t, ReportKind, fileId)
  }

  /** `upload_report`: a refused upload stores nothing and answers the
      rejection; otherwise the record and files are stored, and the answer is
      the event stream of the processing, which saves one translation row per
      file. */
  method UploadReport(db: Database, filenames: seq<string>, patientNote: Option<string>,
                      currentUser: AuthRouter.UserDict, now: int, storedPath: nat -> string,
                      imageOcr: nat -> Attempt<string>, pdfPages: nat -> Attempt<seq<string>>,
                      pageOcr: (nat, nat) -> Attempt<string>, translate: (string, string) -> Attempt<string>,
                      ocrMs: nat -> int, translateMs: nat -> int)
      returns (r: RouteResult<seq<StreamEvent>>)
    requires db.Valid()
    modifies db
    ensures db.Valid()
    ensures UploadRejection(filenames, Allowed).Some? ==>
      && r == Reject(UploadRejection(filenames, Allowed).value)
      && db.records == old(db.records) && db.files == old(db.files) && db.disk == old(db.disk)
      && db.translations == old(db.translations)
    ensures UploadRejection(filenames, Allowed).None? ==>
      |db.files| == |old(db.files)| + |filenames| && db.files[..|old(db.files)|] == old(db.files)
    ensures UploadRejection(filenames, Allowed).None? ==>
      var record := RecordRow(old(db.nextRecordId), ReportKind, patientNote, now, CreatedBy(currentUser));
      var items := db.files[|old(db.files)|..];
      var ocrs := OcrResults(items, imageOcr, pdfPages, pageOcr, ocrMs);
      var trans := TranslateResults(ocrs, TokenOf(currentUser), translate, translateMs);
      && db.records == old(db.records) + [record]
      && (forall k :: 0 <= k < |filenames| ==>
            && items[k].id == old(db.nextFileId) + k && items[k].recordId == record.id
            && items[k].originalFilename == filenames[k] && items[k].fileType == GetExtension(filenames[k]))
      && r == Answer(OcrEvents(|items|) + TranslationEvents(|TranslatableIndices(ocrs, |items|)|)
                     + [Complete(CompleteResult(record.id, ReportKind, patientNote, now, record.createdBy,
                                                FileResults(items, ocrs, trans)))])
      && db.translations == old(db.translations) + SavedRows(old(db.nextTranslationId), items, ocrs, trans)
  {
    var rejection, record, items := StoreUpload(db, ReportKind, Allowed, filenames, patientNote, currentUser, now, storedPath);
    if rejection.Some? {
      return Reject(rejection.value);
    }
    assert db.files[|old(db.files)|..] == items;
    var events := ProcessStream(db, record, items, TokenOf(currentUser), imageOcr, pdfPages, pageOcr,
                                translate, ocrMs, translateMs);
    r := Answer(events);
  }

  /** After a report upload the detail route finds the new record and, in
      upload order, exactly the files just stored. */
  lemma UploadedReportDetail(t: Tables, oldRecords: seq<RecordRow>, record: RecordRow,
                             oldFiles: seq<FileRow>, items: seq<FileRow>)
    requires record.recordType == ReportKind
    requires forall k :: 0 <= k < |oldRecords| ==> oldRecords[k].id < record.id
    requires forall k :: 0 <= k < |oldFiles| ==> oldFiles[k].recordId < record.id
    requires forall k :: 0 <= k < |items| ==> items[k].recordId == record.id
    requires t.records == oldRecords + [record] && t.files == oldFiles + items
    ensures FilesOf(t.files, record.id) == items
    ensures GetReportRecord(t, record.id) == Answer(DetailOf(t, record))
  {
    FilesOfAppend(oldFiles, items, record.id);
    FilesOfAllPointing(items, record.id);
    FilesOfNonePointing(oldFiles, record.id);
    FindRecordSkips(oldRecords, [record], record.id, ReportKind);
  }

  /** After a report upload the detail route shows, for the k-th uploaded
      file, exactly one translation: the texts of the final event's entry for
      that file, with the measured durations. */
  lemma DetailShowsStreamedTexts(t: Tables, oldRecords: seq<RecordRow>, record: RecordRow,
                                 oldFiles: seq<FileRow>, items: seq<FileRow>,
                                 oldTranslations: seq<TranslationRow>, firstId: int,
                                 ocrs: seq<OcrResult>, trans: seq<TranslateResult>, k: nat)
    requires |ocrs| == |items| && |trans| == |items| && k < |items|
    requires record.recordType == ReportKind
    requires forall j :: 0 <= j < |oldRecords| ==> oldRecords[j].id < record.id
    requires forall j :: 0 <= j < |oldFiles| ==> oldFiles[j].recordId < record.id
    requires forall j :: 0 <= j < |items| ==> items[j].recordId == record.id
    requires forall i, j :: 0 <= i < j < |items| ==> items[i].id < items[j].id
    requires forall i, j :: 0 <= i < |oldTranslations| && 0 <= j < |items| ==> oldTranslations[i].fileId < items[j].id
    requires t.records == oldRecords + [record] && t.files == oldFiles + items
    requires t.translations == oldTranslations + SavedRows(firstId, items, ocrs, trans)
    ensures GetReportRecord(t, record.id).Answer?
    ensures var d := GetReportRecord(t, record.id).body;
      var streamed := FileResults(items, ocrs, trans)[k];
      && |d.files| == |items|
      && d.files[k].id == streamed.id
      && d.files[k].downloadUrl == streamed.downloadUrl
      && d.files[k].translations == Some([TranslationEntry(firstId + k, streamed.translation.originalText,
                                                           streamed.translation.translatedText,
                                                           Some(streamed.translation.ocrDurationMs),
                                                           Some(streamed.translation.translationDurationMs))])
  {
    UploadedReportDetail(t, oldRecords, record, oldFiles, items);
    var saved := SavedRows(firstId, items, ocrs, trans);
    UploadedFileTranslated(oldTranslations, items, saved, k);
    FileEntryOfSingle(t, items[k], saved[k]);
    var d := GetReportRecord(t, record.id).body;
    assert d == DetailOf(t, record);
    assert d.files[k] == FileEntryOf(t, items[k]);
    var streamed := FileResults(items, ocrs, trans)[k];
    assert streamed == FileResultOf(items[k], ocrs[k], trans[k]);
    assert saved[k] == TranslationRow(firstId + k, items[k].id, ocrs[k].text, trans[k].text,
                                      Some(ocrs[k].durationMs), Some(trans[k].durationMs));
    assert d.files[k].translations == Some([TranslationEntryOf(saved[k])]);
    assert streamed.translation == StreamedTranslation(ocrs[k].text, trans[k].text, ocrs[k].durationMs, trans[k].durationMs);
    assert TranslationEntryOf(saved[k]) == TranslationEntry(firstId + k, ocrs[k].text, trans[k].text,
                                                            Some(ocrs[k].durationMs), Some(trans[k].durationMs));
  }

  /** A file with a single translation row shows that row alone. */
  lemma FileEntryOfSingle(t: Tables, f: FileRow, row: TranslationRow)
    requires TranslationsOf(t.translations, f.id) == [row]
    ensures FileEntryOf(t, f).translations == Some([TranslationEntryOf(row)])
  {
    assert FileEntryOf(t, f).translations.value == [TranslationEntryOf(row)];
  }

  /** A freshly saved row is the only translation of its file. */
  lemma UploadedFileTranslated(oldTranslations: seq<TranslationRow>, items: seq<FileRow>, saved: seq<TranslationRow>, k: nat)
    requires |saved| == |items| && k < |items|
    requires forall j :: 0 <= j < |items| ==> saved[j].fileId == items[j].id
    requires forall i, j :: 0 <= i < j < |items| ==> items[i].id < items[j].id
    requires forall i, j :: 0 <= i < |oldTranslations| && 0 <= j < |items| ==> oldTranslations[i].fileId < items[j].id
    ensures TranslationsOf(oldTranslations + saved, items[k].id) == [saved[k]]
  {
    TranslationsOfAppend(oldTranslations, saved, items[k].id);
    TranslationsOfNonePointing(oldTranslations, items[k].id);
    TranslationsOfOnePointing(saved, items[k].id, k);
  }
}
