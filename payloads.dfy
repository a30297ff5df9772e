/** The JSON bodies the backend routes return and the pages read, as values.
    Creation times are integer timestamps. */
module Payloads {
  import opened Common

  /** The two record kinds, as stored in `record_type`. */
  const RadiologyKind := "radiology"
  const ReportKind := "report"

  /** One element of a `GET /api/radiology/records` or `GET /api/reports/records`
      list. The entries do not say which kind they are; only the reports list
      carries `translation_preview`. */
  datatype ListEntry = ListEntry(
    id: int,
    patientNote: Option<string>,
    createdAt: int,
    createdBy: string,
    fileCount: nat,
    translationPreview: Option<string>)

  datatype TranslationEntry = TranslationEntry(
    id: int,
    originalText: string,
    translatedText: string,
    ocrDurationMs: Option<int>,
    translationDurationMs: Option<int>)

  /** A file of a record detail; radiology details carry no `translations`. */
  datatype FileEntry = FileEntry(
    id: int,
    originalFilename: string,
    fileType: string,
    downloadUrl: string,
    translations: Option<seq<TranslationEntry>>)

  datatype RecordDetail = RecordDetail(
    id: int,
    recordType: string,
    patientNote: Option<string>,
    createdAt: int,
    createdBy: string,
    files: seq<FileEntry>)

  /** The OCR text of one uploaded report file, its translation, and the
      measured duration of each step in milliseconds. */
  datatype StreamedTranslation = StreamedTranslation(
    originalText: string,
    translatedText: string,
    ocrDurationMs: int,
    translationDurationMs: int)

  /** One element of the report upload result's `files`. */
  datatype ReportFileResult = ReportFileResult(
    id: int,
    originalFilename: string,
    fileType: string,
    downloadUrl: string,
    translation: StreamedTranslation)

  /** The parts of the report upload's final result the pages read. */
  datatype ReportUploadResult = ReportUploadResult(id: int, files: seq<ReportFileResult>)

  /** What axios hands a page as `response.data` for the report upload: the
      parsed JSON body, or the response text itself when it is not JSON. */
  datatype UploadBody = Parsed(result: ReportUploadResult) | RawText(text: string)
}
