/** The radiology upload page: one picker, one request to the radiology
    endpoint with a progress bar, and a status (`idle`, `uploading`, `success`,
    `error`). The await in the submit handler splits it into `BeginUpload`,
    the progress callbacks and `SettleUpload`. */
module RadiologyUploadPage {
  import opened Common
  import Uploads
  import FileUploader

  datatype UploadStatus = Idle | Uploading | Success | Error

  const Accepted := [".jpg", ".jpeg", ".png", ".bmp", ".dcm"]

  /** The message of a failed upload; this page's fallback is the upload
      message, not the processing one. */
  function FailureMessage(e: HttpError): string
  {
    Uploads.ErrorText(e, Uploads.UploadFailedMessage)
  }

  lemma FailureMessageCases(e: HttpError)
    ensures e.ErrNoResponse? ==> FailureMessage(e) == Uploads.ConnectionMessage
    ensures e.ErrResponse? && e.detail.Some? && e.detail.value != [] ==> FailureMessage(e) == e.detail.value
    ensures e.ErrResponse? && (e.detail.None? || e.detail.value == []) ==> FailureMessage(e) == Uploads.UploadFailedMessage
  {
    if e.ErrResponse? {
      Uploads.ErrorTextShowsDetail(e.status, e.detail, Uploads.UploadFailedMessage);
    }
  }

  class RadiologyUploadPage {
    var files: seq<FileUploader.File>
    var patientNote: string
    var status: UploadStatus
    var errorMessage: Option<string>
    var recordId: Option<int>
    var uploadProgress: nat
    /** The requests issued so far, in order. */
    var sent: seq<Uploads.UploadRequest>

    /** A running upload had files and shows no error, a successful one has
        its record, and the error status has a message. The picker stays
        usable while a request is in flight, so a successful upload may have
        no files selected and may still carry the message of an earlier
        failed submission (`StaleErrorAfterSuccess`, `SuccessWithoutFiles`). */
    predicate Valid()
      reads this
    {
      && (status == Uploading ==> errorMessage == None && files != [])
      && (status == Success ==> recordId.Some?)
      && (status == Error ==> errorMessage.Some?)
    }

    constructor ()
      ensures Valid()
      ensures files == [] && patientNote == [] && status == Idle && errorMessage == None
      ensures recordId == None && uploadProgress == 0 && sent == []
    {
      files := [];
      patientNote := [];
      status := Idle;
      errorMessage := None;
      recordId := None;
      uploadProgress := 0;
      sent := [];
    }

    method HandleFilesSelected(selected: seq<FileUploader.File>)
      requires Valid()
      modifies this`files, this`status, this`errorMessage
      ensures Valid()
      ensures files == selected && status == Idle && errorMessage == None
    {
      files := selected;
      status := Idle;
      errorMessage := None;
    }

    method EditNote(note: string)
      requires Valid()
      modifies this`patientNote
      ensures Valid() && patientNote == note
    {
      patientNote := note;
    }

    /** Without files only the message is set; otherwise the page enters
        `uploading` with no error and the bar at 0, and the request goes out. */
    method BeginUpload() returns (started: bool)
      requires Valid()
      modifies this`status, this`errorMessage, this`uploadProgress, this`sent
      ensures Valid()
      ensures started <==> files != []
      ensures !started ==>
        && errorMessage == Some(Uploads.SelectFilesMessage)
        && status == old(status) && uploadProgress == old(uploadProgress) && sent == old(sent)
      ensures started ==>
        && status == Uploading && errorMessage == None && uploadProgress == 0
        && sent == old(sent) + [Uploads.UploadRequest(Uploads.RadiologyUploadEndpoint, files, Uploads.TrimmedNote(patientNote))]
    {
      if |files| == 0 {
        errorMessage := Some(Uploads.SelectFilesMessage);
        return false;
      }
      status := Uploading;
      errorMessage := None;
      uploadProgress := 0;
      var note := Uploads.TrimmedNote(patientNote);
      sent := sent + [Uploads.UploadRequest(Uploads.RadiologyUploadEndpoint, files, note)];
      return true;
    }

    /** One `onUploadProgress` callback. */
    method OnUploadProgress(e: Uploads.ProgressEvent)
      requires Valid()
      modifies this`uploadProgress
      ensures Valid()
      ensures uploadProgress == Uploads.ProgressAfterEvent(old(uploadProgress), e)
    {
      if e.total != 0 {
        uploadProgress := Uploads.Percent(e.loaded, e.total);
      }
    }

    /** The answer, applied whatever the page did meanwhile: nothing ties it
        to the submission it belongs to. */
    method SettleUpload(o: Outcome<int>)
      requires Valid()
      modifies this`status, this`errorMessage, this`recordId
      ensures Valid()
      ensures o.Ok? ==> status == Success && recordId == Some(o.payload) && errorMessage == old(errorMessage)
      ensures o.Err? ==> status == Error && errorMessage == Some(FailureMessage(o.error)) && recordId == old(recordId)
    {
      match o
      case Ok(id) =>
        recordId := Some(id);
        status := Success;
      case Err(e) =>
        status := Error;
        errorMessage := Some(FailureMessage(e));
    }

    /** A whole submission, given the progress callbacks and the outcome. */
    method HandleUpload(progress: seq<Uploads.ProgressEvent>, o: Outcome<int>)
      requires Valid()
      modifies this`status, this`errorMessage, this`uploadProgress, this`recordId, this`sent
      ensures Valid()
      ensures files == [] ==>
        && errorMessage == Some(Uploads.SelectFilesMessage)
        && status == old(status) && uploadProgress == old(uploadProgress) && recordId == old(recordId) && sent == old(sent)
      ensures files != [] ==>
        && sent == old(sent) + [Uploads.UploadRequest(Uploads.RadiologyUploadEndpoint, files, Uploads.TrimmedNote(patientNote))]
        && uploadProgress == Uploads.ProgressAfter(0, progress)
        && (o.Ok? ==> status == Success && errorMessage == None && recordId == Some(o.payload))
        && (o.Err? ==> status == Error && errorMessage == Some(FailureMessage(o.error)) && recordId == old(recordId))
    {
      var started := BeginUpload();
      if !started {
        return;
      }
      var i := 0;
      while i < |progress|
        invariant 0 <= i <= |progress|
        invariant Valid() && status == Uploading && errorMessage == None
        invariant uploadProgress == Uploads.ProgressAfter(0, progress[..i])
        invariant recordId == old(recordId)
        invariant sent == old(sent) + [Uploads.UploadRequest(Uploads.RadiologyUploadEndpoint, files, Uploads.TrimmedNote(patientNote))]
      {
        assert progress[..i + 1][..i] == progress[..i];
        OnUploadProgress(progress[i]);
        i := i + 1;
      }
      assert progress[..i] == progress;
      SettleUpload(o);
    }

    /** `resetForm` restores all six fields. */
    method ResetForm()
      requires Valid()
      modifies this`files, this`patientNote, this`status, this`errorMessage, this`recordId, this`uploadProgress
      ensures Valid()
      ensures files == [] && patientNote == [] && status == Idle && errorMessage == None
      ensures recordId == None && uploadProgress == 0
    {
      files := [];
      patientNote := [];
      status := Idle;
      errorMessage := None;
      recordId := None;
      uploadProgress := 0;
    }

    function SubmitDisabled(): bool
      reads this
    {
      status == Uploading || files == []
    }
  }

  /** A submit the page would refuse is never offered: the button is disabled
      while uploading and whenever there is nothing to send. */
  lemma SubmitOfferedOnlyWithFiles(p: RadiologyUploadPage)
    requires p.Valid()
    ensures !p.SubmitDisabled() ==> p.files != [] && p.status != Uploading
    ensures p.status == Uploading ==> p.SubmitDisabled() && p.errorMessage == None
  {
  }

  /** A second submission sent while the first is in flight: the first fails,
      then the second succeeds. The success path does not clear the message,
      so the page ends `success` with the first failure still set. */
  method StaleErrorAfterSuccess(a: FileUploader.File, b: FileUploader.File, e: HttpError, id: int)
      returns (page: RadiologyUploadPage)
    ensures page.Valid()
    ensures page.status == Success && page.recordId == Some(id)
    ensures page.errorMessage == Some(FailureMessage(e))
  {
    page := new RadiologyUploadPage();
    page.HandleFilesSelected([a]);
    var first := page.BeginUpload();
    page.HandleFilesSelected([b]);
    var second := page.BeginUpload();
    page.SettleUpload(Err(e));
    page.SettleUpload(Ok(id));
  }

  /** The files removed while the request is in flight: its answer still
      lands, and the page ends `success` with nothing selected. */
  method SuccessWithoutFiles(a: FileUploader.File, id: int) returns (page: RadiologyUploadPage)
    ensures page.Valid()
    ensures page.status == Success && page.files == [] && page.recordId == Some(id)
  {
    page := new RadiologyUploadPage();
    page.HandleFilesSelected([a]);
    var started := page.BeginUpload();
    page.HandleFilesSelected([]);
    page.SettleUpload(Ok(id));
  }
}
