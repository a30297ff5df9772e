/** The report upload page: one picker, one request to the report endpoint,
    and a four-step machine (`idle`, `uploading`, `done`, `error`). The await
    in the submit handler splits it into `BeginUpload` and `SettleUpload`. */
module ReportUploadPage {
  import opened Common
  import opened Payloads
  import Uploads
  import FileUploader

  datatype ProcessingStep = Idle | Uploading | Done | Error

  const Accepted := [".jpg", ".jpeg", ".png", ".pdf"]

  /** The message of a failed upload. */
  function FailureMessage(e: HttpError): string
  {
    Uploads.ErrorText(e, Uploads.ProcessingMessage)
  }

  /** The three possible texts of a failed upload. */
  lemma FailureMessageCases(e: HttpError)
    ensures e.ErrNoResponse? ==> FailureMessage(e) == Uploads.ConnectionMessage
    ensures e.ErrResponse? && e.detail.Some? && e.detail.value != [] ==> FailureMessage(e) == e.detail.value
    ensures e.ErrResponse? && (e.detail.None? || e.detail.value == []) ==> FailureMessage(e) == Uploads.ProcessingMessage
  {
    if e.ErrResponse? {
      Uploads.ErrorTextShowsDetail(e.status, e.detail, Uploads.ProcessingMessage);
    }
  }

  class ReportUploadPage {
    var files: seq<FileUploader.File>
    var patientNote: string
    var step: ProcessingStep
    var errorMessage: Option<string>
    /** `results`; None is `undefined`, which is what `response.data.files`
        gives when the answer was not parsed as JSON. */
    var results: Option<seq<ReportFileResult>>
    /** `recordId`; None is `null` or `undefined`. */
    var recordId: Option<int>
    /** The requests issued so far, in order. */
    var sent: seq<Uploads.UploadRequest>

    /** What the step tells about the other fields: a running upload had
        files and shows no error or results, and the error step always has a
        message. The picker stays usable while a request is in flight, so a
        finished upload may have no files selected and may still show the
        message of an earlier failed submission (`StaleErrorAfterSuccess`,
        `DoneWithoutFiles`); an answer that is not JSON leaves it without a
        record and without results. */
    predicate Valid()
      reads this
    {
      && (step == Uploading ==> errorMessage == None && results == Some([]) && files != [])
      && (step == Error ==> errorMessage.Some?)
    }

    constructor ()
      ensures Valid()
      ensures files == [] && patientNote == [] && step == Idle && errorMessage == None
      ensures results == Some([]) && recordId == None && sent == []
    {
      files := [];
      patientNote := [];
      step := Idle;
      errorMessage := None;
      results := Some([]);
      recordId := None;
      sent := [];
    }

    /** The picker reported a new list: back to `idle`, error cleared. */
    method HandleFilesSelected(selected: seq<FileUploader.File>)
      requires Valid()
      modifies this`files, this`step, this`errorMessage
      ensures Valid()
      ensures files == selected && step == Idle && errorMessage == None
    {
      files := selected;
      step := Idle;
      errorMessage := None;
    }

    method EditNote(note: string)
      requires Valid()
      modifies this`patientNote
      ensures Valid() && patientNote == note
    {
      patientNote := note;
    }

    /** The part of a submission before the answer. Without files only the
        "select a file" message is set and nothing is sent; otherwise the error
        and results are cleared, the step is `uploading` and the request goes
        out with the trimmed note. */
    method BeginUpload() returns (started: bool)
      requires Valid()
      modifies this`step, this`errorMessage, this`results, this`sent
      ensures Valid()
      ensures started <==> files != []
      ensures !started ==>
        && errorMessage == Some(Uploads.SelectFilesMessage)
        && step == old(step) && results == old(results) && sent == old(sent)
      ensures started ==>
        && step == Uploading && errorMessage == None && results == Some([])
        && sent == old(sent) + [Uploads.UploadRequest(Uploads.ReportUploadEndpoint, files, Uploads.TrimmedNote(patientNote))]
    {
      if |files| == 0 {
        errorMessage := Some(Uploads.SelectFilesMessage);
        return false;
      }
      errorMessage := None;
      results := Some([]);
      step := Uploading;
      var note := Uploads.TrimmedNote(patientNote);
      sent := sent + [Uploads.UploadRequest(Uploads.ReportUploadEndpoint, files, note)];
      return true;
    }

    /** The answer: `response.data.id` and `response.data.files` on
        success, the mapped message on failure. A body that was not parsed
        as JSON has neither, so both become undefined and the page still
        reaches `done`. The answer applies whatever the page did meanwhile,
        since nothing ties it to the submission it belongs to. */
    method SettleUpload(o: Outcome<UploadBody>)
      requires Valid()
      modifies this`step, this`errorMessage, this`results, this`recordId
      ensures Valid()
      ensures o.Ok? ==> step == Done && errorMessage == old(errorMessage)
      ensures o.Ok? && o.payload.Parsed? ==>
        recordId == Some(o.payload.result.id) && results == Some(o.payload.result.files)
      ensures o.Ok? && o.payload.RawText? ==> recordId == None && results == None
      ensures o.Err? ==>
        && step == Error && errorMessage == Some(FailureMessage(o.error))
        && recordId == old(recordId) && results == old(results)
    {
      match o
      case Ok(body) =>
        match body {
          case Parsed(r) =>
            recordId := Some(r.id);
            results := Some(r.files);
          case RawText(_) =>
            recordId := None;
            results := None;
        }
        step := Done;
      case Err(e) =>
        step := Error;
        errorMessage := Some(FailureMessage(e));
    }

    /** A whole submission against the request's outcome. */
    method HandleUpload(o: Outcome<UploadBody>)
      requires Valid()
      modifies this`step, this`errorMessage, this`results, this`recordId, this`sent
      ensures Valid()
      ensures files == [] ==>
        && errorMessage == Some(Uploads.SelectFilesMessage)
        && step == old(step) && results == old(results) && recordId == old(recordId) && sent == old(sent)
      ensures files != [] ==>
        && sent == old(sent) + [Uploads.UploadRequest(Uploads.ReportUploadEndpoint, files, Uploads.TrimmedNote(patientNote))]
        && (o.Ok? ==> step == Done && errorMessage == None)
        && (o.Ok? && o.payload.Parsed? ==>
              recordId == Some(o.payload.result.id) && results == Some(o.payload.result.files))
        && (o.Ok? && o.payload.RawText? ==> recordId == None && results == None)
        && (o.Err? ==> step == Error && errorMessage == Some(FailureMessage(o.error))
                       && results == Some([]) && recordId == old(recordId))
    {
      var started := BeginUpload();
      if started {
        SettleUpload(o);
      }
    }

    method ResetForm()
      requires Valid()
      modifies this`files, this`patientNote, this`step, this`errorMessage, this`results, this`recordId
      ensures Valid()
      ensures files == [] && patientNote == [] && step == Idle && errorMessage == None
      ensures results == Some([]) && recordId == None
    {
      files := [];
      patientNote := [];
      step := Idle;
      errorMessage := None;
      results := Some([]);
      recordId := None;
    }

    /** The submit button is rendered in `idle` and `error`. */
    function ShowsSubmit(): bool
      reads this
    {
      step == Idle || step == Error
    }

    function SubmitDisabled(): bool
      reads this
    {
      files == []
    }

    /** The "new upload" button is rendered in `done` only. */
    function ShowsNewUpload(): bool
      reads this
    {
      step == Done
    }

    /** The render evaluates `results.length`, which throws when `results` is
        undefined; with no error boundary above the page, nothing is shown. */
    predicate RenderThrows()
      reads this
    {
      results.None?
    }
  }

  /** In any reachable state at most one of the two buttons is rendered, and
      none while uploading, when the render also succeeds. */
  lemma ButtonsExclusive(p: ReportUploadPage)
    requires p.Valid()
    ensures !(p.ShowsSubmit() && p.ShowsNewUpload())
    ensures p.step == Uploading ==> !p.ShowsSubmit() && !p.ShowsNewUpload() && !p.RenderThrows()
  {
  }

  /** A second submission sent while the first is in flight: the first fails,
      then the second succeeds. The success path does not clear the message,
      so the page ends `done`, offering a new upload, with the first failure
      still shown. */
  method StaleErrorAfterSuccess(a: FileUploader.File, b: FileUploader.File, e: HttpError, body: UploadBody)
      returns (page: ReportUploadPage)
    ensures page.Valid()
    ensures page.step == Done && page.ShowsNewUpload()
    ensures page.errorMessage == Some(FailureMessage(e))
  {
    page := new ReportUploadPage();
    page.HandleFilesSelected([a]);
    var first := page.BeginUpload();
    page.HandleFilesSelected([b]);
    var second := page.BeginUpload();
    page.SettleUpload(Err(e));
    page.SettleUpload(Ok(body));
  }

  /** The files removed while the request is in flight: its answer still
      lands, and the page ends `done` with nothing selected. */
  method DoneWithoutFiles(a: FileUploader.File, body: ReportUploadResult) returns (page: ReportUploadPage)
    ensures page.Valid()
    ensures page.step == Done && page.files == [] && page.recordId == Some(body.id) && page.results == Some(body.files)
  {
    page := new ReportUploadPage();
    page.HandleFilesSelected([a]);
    var started := page.BeginUpload();
    page.HandleFilesSelected([]);
    page.SettleUpload(Ok(Parsed(body)));
  }
}
