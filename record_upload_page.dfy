/** The combined upload page: radiology images and report documents are chosen
    in two file pickers and sent by one submission, as two independent
    requests ("tracks"). Each track settles into its own result, whatever the
    other one does. The await is split: `BeginUpload` is what runs before the
    requests are answered, the `Settle`/`Finish` methods what runs after, and
    `HandleUpload` runs the whole submission against given outcomes. */
module RecordUploadPage {
  import opened Common
  import opened Payloads
  import Text
  import Uploads
  import FileUploader

  datatype UploadStatus = Idle | Uploading | Success | Error

  /** What a settled track leaves for the result screen. */
  datatype TrackResult<+T> = Succeeded(data: T) | Failed(error: string)

  const RadiologyAccepted := [".jpg", ".jpeg", ".png", ".bmp", ".dcm"]
  const ReportAccepted := [".jpg", ".jpeg", ".png", ".pdf"]
  const MaxSizeMB := 50

  const OcrErrorPrefix := "[OCR error:"
  const TranslationErrorPrefix := "[Translation error:"

  function ExtractError(e: HttpError): string
  {
    Uploads.ErrorText(e, Uploads.ProcessingMessage)
  }

  function RadiologyTrack(o: Outcome<int>): TrackResult<int>
  {
    match o
    case Ok(id) => Succeeded(id)
    case Err(e) => Failed(ExtractError(e))
  }

  /** `{ success: true, files: res.data.files }` or the failure message;
      a body that was not parsed as JSON has no `files`, and the success
      carries None (`undefined`). */
  function ReportTrack(o: Outcome<UploadBody>): TrackResult<Option<seq<ReportFileResult>>>
  {
    match o
    case Ok(Parsed(r)) => Succeeded(Some(r.files))
    case Ok(RawText(_)) => Succeeded(None)
    case Err(e) => Failed(ExtractError(e))
  }

  /** The result slot of a track after a submission: empty when the track was
      not launched. */
  function Slot<T>(launched: bool, r: TrackResult<T>): Option<TrackResult<T>>
  {
    if launched then Some(r) else None
  }

  predicate SlotFailed<T>(slot: Option<TrackResult<T>>)
  {
    slot.Some? && slot.value.Failed?
  }

  /** `hasAnyError`: some track that ran failed. */
  predicate AnyTrackFailed(radiology: Option<TrackResult<int>>, report: Option<TrackResult<Option<seq<ReportFileResult>>>>)
  {
    SlotFailed(radiology) || SlotFailed(report)
  }

  /** After a submission the error banner is up exactly when a launched track's
      request failed; a track that was not launched never raises it, and one
      track's outcome never hides the other's failure. */
  lemma AnyErrorIffLaunchedTrackFailed(
    radiologyFiles: seq<FileUploader.File>, reportFiles: seq<FileUploader.File>,
    radiologyOutcome: Outcome<int>, reportOutcome: Outcome<UploadBody>)
    ensures AnyTrackFailed(
        Slot(radiologyFiles != [], RadiologyTrack(radiologyOutcome)),
        Slot(reportFiles != [], ReportTrack(reportOutcome)))
      <==> (radiologyFiles != [] && radiologyOutcome.Err?) || (reportFiles != [] && reportOutcome.Err?)
  {
  }

  /** A failed track's message is the server's detail, the processing message
      or the connection message, as `Uploads.ErrorText` decides. */
  lemma FailedTrackMessage(e: HttpError)
    ensures RadiologyTrack(Err(e)) == Failed(Uploads.ErrorText(e, Uploads.ProcessingMessage))
    ensures ReportTrack(Err(e)) == Failed(Uploads.ErrorText(e, Uploads.ProcessingMessage))
    ensures e.ErrNoResponse? ==> RadiologyTrack(Err(e)).error == Uploads.ConnectionMessage
  {
  }

  /** The requests one submission issues, radiology first. */
  function PlannedRequests(radiologyFiles: seq<FileUploader.File>, reportFiles: seq<FileUploader.File>, note: string): seq<Uploads.UploadRequest>
  {
    var n := Uploads.TrimmedNote(note);
    (if radiologyFiles != [] then [Uploads.UploadRequest(Uploads.RadiologyUploadEndpoint, radiologyFiles, n)] else [])
    + (if reportFiles != [] then [Uploads.UploadRequest(Uploads.ReportUploadEndpoint, reportFiles, n)] else [])
  }

  /** Each endpoint is called exactly when its picker holds files, with those
      files and the trimmed note, and nothing else is called. */
  lemma PlannedRequestsRouting(radiologyFiles: seq<FileUploader.File>, reportFiles: seq<FileUploader.File>, note: string)
    ensures var r := PlannedRequests(radiologyFiles, reportFiles, note);
      && |r| == (if radiologyFiles != [] then 1 else 0) + (if reportFiles != [] then 1 else 0)
      && (forall req :: req in r ==> req.patientNote == Uploads.TrimmedNote(note))
      && (forall req :: req in r ==>
            (req.endpoint == Uploads.RadiologyUploadEndpoint && req.files == radiologyFiles)
            || (req.endpoint == Uploads.ReportUploadEndpoint && req.files == reportFiles))
      && ((exists req :: req in r && req.endpoint == Uploads.RadiologyUploadEndpoint) <==> radiologyFiles != [])
      && ((exists req :: req in r && req.endpoint == Uploads.ReportUploadEndpoint) <==> reportFiles != [])
  {
    var r := PlannedRequests(radiologyFiles, reportFiles, note);
    var n := Uploads.TrimmedNote(note);
    if radiologyFiles != [] {
      assert Uploads.UploadRequest(Uploads.RadiologyUploadEndpoint, radiologyFiles, n) in r;
    }
    if reportFiles != [] {
      assert Uploads.UploadRequest(Uploads.ReportUploadEndpoint, reportFiles, n) in r;
    }
  }

  predicate OcrFailed(f: ReportFileResult)
  {
    Text.StartsWith(f.translation.originalText, OcrErrorPrefix)
  }

  predicate TranslationFailed(f: ReportFileResult)
  {
    Text.StartsWith(f.translation.translatedText, TranslationErrorPrefix)
  }

  /** The "all processed" banner condition. */
  predicate AllProcessed(files: seq<ReportFileResult>)
  {
    forall i :: 0 <= i < |files| ==> !OcrFailed(files[i]) && !TranslationFailed(files[i])
  }

  datatype TranslationView = TranslationErrorNotice | TranslatedText(text: string) | NoTranslation

  /** How one report file of a successful upload is shown. */
  datatype FileView =
    | OcrErrorNotice(name: string)
    | TextView(name: string, original: Option<string>, translation: TranslationView)

  function ViewOf(f: ReportFileResult): (v: FileView)
    ensures v.name == f.originalFilename
    ensures v.OcrErrorNotice? <==> OcrFailed(f)
    ensures v.TextView? ==> (v.translation.TranslationErrorNotice? <==> TranslationFailed(f))
    ensures v.TextView? && v.original.Some? ==> v.original.value == f.translation.originalText != []
    ensures v.TextView? && v.translation.TranslatedText? ==> v.translation.text == f.translation.translatedText != []
  {
    var t := f.translation;
    if OcrFailed(f) then OcrErrorNotice(f.originalFilename)
    else
      TextView(
        f.originalFilename,
        if t.originalText != [] then Some(t.originalText) else None,
        if TranslationFailed(f) then TranslationErrorNotice
        else if t.translatedText != [] then TranslatedText(t.translatedText)
        else NoTranslation)
  }

  predicate ShowsErrorNotice(v: FileView)
  {
    v.OcrErrorNotice? || v.translation.TranslationErrorNotice?
  }

  /** The success banner and the per-file notices agree: the banner shows
      exactly when no file shows an error notice. */
  lemma {:induction false} BannerAgreesWithFiles(files: seq<ReportFileResult>)
    ensures AllProcessed(files) <==> forall i :: 0 <= i < |files| ==> !ShowsErrorNotice(ViewOf(files[i]))
  {
    if !AllProcessed(files) {
      var i :| 0 <= i < |files| && (OcrFailed(files[i]) || TranslationFailed(files[i]));
      assert ShowsErrorNotice(ViewOf(files[i]));
    }
  }

  /** A file whose OCR failed shows neither of its texts, even when its
      translation text is present. */
  lemma OcrFailureHidesTexts(f: ReportFileResult)
    requires OcrFailed(f)
    ensures ViewOf(f) == OcrErrorNotice(f.originalFilename)
    ensures !AllProcessed([f])
  {
    assert [f][0] == f;
  }

  /** What the report section of the result screen shows for its slot:
      nothing without a slot; the banner and the per-file views for a
      success that carries a `files` array (an empty array is truthy too);
      the error line for a failure with a message; and an empty section
      otherwise. */
  datatype ReportSection = NoSection | FilesSection(files: seq<ReportFileResult>) | ErrorSection(message: string) | EmptySection

  function ReportSectionOf(slot: Option<TrackResult<Option<seq<ReportFileResult>>>>): (r: ReportSection)
    ensures r.NoSection? <==> slot.None?
    ensures r.FilesSection? <==> slot.Some? && slot.value.Succeeded? && slot.value.data.Some?
    ensures r.FilesSection? ==> r.files == slot.value.data.value
    ensures r.ErrorSection? <==> slot.Some? && slot.value.Failed? && slot.value.error != []
    ensures r.ErrorSection? ==> r.message == slot.value.error
  {
    match slot
    case None => NoSection
    case Some(Succeeded(Some(files))) => FilesSection(files)
    case Some(Succeeded(None)) => EmptySection
    case Some(Failed(message)) => if message != [] then ErrorSection(message) else EmptySection
  }

  /** A launched report track shows an empty section exactly when its request
      succeeded with a body that was not parsed as JSON: neither a banner, nor
      a file, nor an error is shown, and the page does not count it as an
      error. Every failure has a non-empty message, so it always shows. */
  lemma EmptySectionIffRawAnswer(o: Outcome<UploadBody>)
    ensures ReportSectionOf(Some(ReportTrack(o))).EmptySection? <==> o.Ok? && o.payload.RawText?
    ensures o.Ok? ==> !SlotFailed(Some(ReportTrack(o)))
  {
    if o.Err? {
      assert ExtractError(o.error) != [];
    }
  }

  class RecordUploadPage {
    var radiologyFiles: seq<FileUploader.File>
    var reportFiles: seq<FileUploader.File>
    var patientNote: string
    var status: UploadStatus
    var uploadProgress: nat
    var radiologyResult: Option<TrackResult<int>>
    var reportResult: Option<TrackResult<Option<seq<ReportFileResult>>>>
    /** The requests issued so far, in order. */
    var sent: seq<Uploads.UploadRequest>

    constructor ()
      ensures radiologyFiles == [] && reportFiles == [] && patientNote == []
      ensures status == Idle && uploadProgress == 0
      ensures radiologyResult == None && reportResult == None && sent == []
    {
      radiologyFiles := [];
      reportFiles := [];
      patientNote := [];
      status := Idle;
      uploadProgress := 0;
      radiologyResult := None;
      reportResult := None;
      sent := [];
    }

    /** The radiology picker reported a new list. */
    method HandleRadiologyFiles(files: seq<FileUploader.File>)
      modifies this`radiologyFiles, this`status
      ensures radiologyFiles == files && status == Idle
    {
      radiologyFiles := files;
      status := Idle;
    }

    /** The report picker reported a new list. */
    method HandleReportFiles(files: seq<FileUploader.File>)
      modifies this`reportFiles, this`status
      ensures reportFiles == files && status == Idle
    {
      reportFiles := files;
      status := Idle;
    }

    method EditNote(note: string)
      modifies this`patientNote
      ensures patientNote == note
    {
      patientNote := note;
    }

    /** The part of a submission that runs before any answer: nothing at all
        when both pickers are empty; otherwise the page enters `Uploading` with
        both results cleared and the bar at 0, and the launched tracks'
        requests go out. */
    method BeginUpload() returns (started: bool)
      modifies this`status, this`uploadProgress, this`radiologyResult, this`reportResult, this`sent
      ensures started <==> radiologyFiles != [] || reportFiles != []
      ensures !started ==>
        && status == old(status) && uploadProgress == old(uploadProgress)
        && radiologyResult == old(radiologyResult) && reportResult == old(reportResult) && sent == old(sent)
      ensures started ==>
        && status == Uploading && uploadProgress == 0
        && radiologyResult == None && reportResult == None
        && sent == old(sent) + PlannedRequests(radiologyFiles, reportFiles, patientNote)
    {
      if |radiologyFiles| == 0 && |reportFiles| == 0 {
        return false;
      }
      status := Uploading;
      radiologyResult := None;
      reportResult := None;
      uploadProgress := 0;
      var note := Uploads.TrimmedNote(patientNote);
      if |radiologyFiles| > 0 {
        sent := sent + [Uploads.UploadRequest(Uploads.RadiologyUploadEndpoint, radiologyFiles, note)];
      }
      if |reportFiles| > 0 {
        sent := sent + [Uploads.UploadRequest(Uploads.ReportUploadEndpoint, reportFiles, note)];
      }
      return true;
    }

    /** The radiology request's progress callbacks, in order. */
    method TrackProgress(events: seq<Uploads.ProgressEvent>)
      modifies this`uploadProgress
      ensures uploadProgress == Uploads.ProgressAfter(old(uploadProgress), events)
    {
      var i := 0;
      while i < |events|
        invariant 0 <= i <= |events|
        invariant uploadProgress == Uploads.ProgressAfter(old(uploadProgress), events[..i])
      {
        assert events[..i + 1][..i] == events[..i];
        if events[i].total != 0 {
          uploadProgress := Uploads.Percent(events[i].loaded, events[i].total);
        }
        i := i + 1;
      }
      assert events[..i] == events;
    }

    method SettleRadiology(o: Outcome<int>)
      modifies this`radiologyResult
      ensures radiologyResult == Some(RadiologyTrack(o))
    {
      match o
      case Ok(id) =>
        radiologyResult := Some(Succeeded(id));
      case Err(e) =>
        radiologyResult := Some(Failed(ExtractError(e)));
    }

    method SettleReport(o: Outcome<UploadBody>)
      modifies this`reportResult
      ensures reportResult == Some(ReportTrack(o))
    {
      match o
      case Ok(body) =>
        reportResult := Some(Succeeded(if body.Parsed? then Some(body.result.files) else None));
      case Err(e) =>
        reportResult := Some(Failed(ExtractError(e)));
    }

    /** Every launched track has settled: the page shows its results, even when
        every track failed. */
    method FinishUpload()
      modifies this`status
      ensures status == Success
    {
      status := Success;
    }

    /** A whole submission, given the radiology request's progress callbacks
        and both requests' outcomes; a track that is not launched never reads
        its outcome. */
    method HandleUpload(progress: seq<Uploads.ProgressEvent>, radiologyOutcome: Outcome<int>, reportOutcome: Outcome<UploadBody>)
      modifies this`status, this`uploadProgress, this`radiologyResult, this`reportResult, this`sent
      ensures radiologyFiles == [] && reportFiles == [] ==>
        && status == old(status) && uploadProgress == old(uploadProgress)
        && radiologyResult == old(radiologyResult) && reportResult == old(reportResult) && sent == old(sent)
      ensures radiologyFiles != [] || reportFiles != [] ==>
        && status == Success
        && uploadProgress == (if radiologyFiles != [] then Uploads.ProgressAfter(0, progress) else 0)
        && radiologyResult == Slot(radiologyFiles != [], RadiologyTrack(radiologyOutcome))
        && reportResult == Slot(reportFiles != [], ReportTrack(reportOutcome))
        && sent == old(sent) + PlannedRequests(radiologyFiles, reportFiles, patientNote)
    {
      var started := BeginUpload();
      if !started {
        return;
      }
      ghost var requests := sent;
      if |radiologyFiles| > 0 {
        TrackProgress(progress);
        SettleRadiology(radiologyOutcome);
      }
      if |reportFiles| > 0 {
        SettleReport(reportOutcome);
      }
      FinishUpload();
      assert sent == requests;
    }

    function HasAnyError(): bool
      reads this
    {
      AnyTrackFailed(radiologyResult, reportResult)
    }

    /** Submit is disabled while uploading or when both pickers are empty. */
    function SubmitDisabled(): bool
      reads this
    {
      status == Uploading || (radiologyFiles == [] && reportFiles == [])
    }

    method ResetForm()
      modifies this`radiologyFiles, this`reportFiles, this`patientNote, this`status,
        this`uploadProgress, this`radiologyResult, this`reportResult
      ensures radiologyFiles == [] && reportFiles == [] && patientNote == []
      ensures status == Idle && uploadProgress == 0
      ensures radiologyResult == None && reportResult == None
    {
      radiologyFiles := [];
      reportFiles := [];
      patientNote := [];
      status := Idle;
      uploadProgress := 0;
      radiologyResult := None;
      reportResult := None;
    }
  }
}
