/** What the three upload pages share: the message shown for a failed request,
    the integer progress percentage, the trimmed patient note, and the
    multipart request each page issues. */
module Uploads {
  import opened Common
  import Text
  import FileUploader

  const RadiologyUploadEndpoint := "/api/radiology/upload"
  const ReportUploadEndpoint := "/api/reports/upload"

  const ConnectionMessage := "Sunucu ile bağlantı kurulamadı."
  /** The fallback of the record and report upload pages. */
  const ProcessingMessage := "İşlem sırasında bir hata oluştu."
  /** The fallback of the radiology upload page. */
  const UploadFailedMessage := "Yükleme sırasında bir hata oluştu."
  const SelectFilesMessage := "Lütfen en az bir dosya seçin."

  /** The text shown for a failed request: the server's `detail` when the
      response carries a non-empty one, the page's `generic` text for any other
      response, and the connection message when no response arrived. */
  function ErrorText(e: HttpError, generic: string): (r: string)
    requires generic != []
    ensures r != []
    ensures e.ErrNoResponse? ==> r == ConnectionMessage
    ensures e.ErrResponse? ==> r == generic || (e.detail.Some? && r == e.detail.value)
  {
    match e
    case ErrNoResponse => ConnectionMessage
    case ErrResponse(_, detail) =>
      if detail.Some? && detail.value != [] then detail.value else generic
  }

  /** The server's explanation is shown verbatim whenever it is not empty, and
      the fallback is shown exactly when there is none to show. */
  lemma ErrorTextShowsDetail(status: int, detail: Option<string>, generic: string)
    requires generic != []
    ensures detail.Some? && detail.value != [] ==> ErrorText(ErrResponse(status, detail), generic) == detail.value
    ensures detail.None? || detail.value == [] ==> ErrorText(ErrResponse(status, detail), generic) == generic
  {
  }

  /** `Math.round(loaded * 100 / total)`: the nearest integer to the exact
      percentage, halves rounded up. */
  function Percent(loaded: nat, total: nat): (r: nat)
    requires total > 0
    ensures 2 * total * r <= 200 * loaded + total < 2 * total * (r + 1)
  {
    (200 * loaded + total) / (2 * total)
  }

  /** Percentages of a transfer that has not overshot stay within 0..100 and
      reach 100 at the end. */
  lemma PercentBounds(loaded: nat, total: nat)
    requires 0 < total && loaded <= total
    ensures Percent(loaded, total) <= 100
    ensures loaded == total ==> Percent(loaded, total) == 100
  {
    var r := Percent(loaded, total);
    var c := 2 * total;
    if r > 100 {
      MulMonotone(c, 101, r);
    }
    if loaded == total {
      PercentOfWhole(total);
    }
  }

  lemma PercentOfWhole(total: nat)
    requires 0 < total
    ensures Percent(total, total) == 100
  {
    var r := Percent(total, total);
    var c := 2 * total;
    if r > 100 {
      MulMonotone(c, 101, r);
    } else if r < 100 {
      MulMonotone(c, r + 1, 100);
    }
  }

  /** More bytes sent never lowers the percentage. */
  lemma PercentMonotone(a: nat, b: nat, total: nat)
    requires 0 < total && a <= b
    ensures Percent(a, total) <= Percent(b, total)
  {
    var ra, rb := Percent(a, total), Percent(b, total);
    if ra > rb {
      assert 2 * total * ra >= 2 * total * (rb + 1) by { MulMonotone(2 * total, rb + 1, ra); }
    }
  }

  lemma MulMonotone(c: nat, x: nat, y: nat)
    requires x <= y
    ensures c * x <= c * y
  {
  }

  /** One `onUploadProgress` callback; `total` 0 stands for an absent or zero
      total, which JavaScript treats as false. */
  datatype ProgressEvent = ProgressEvent(loaded: nat, total: nat)

  /** The progress after one callback: updated only when the total is known. */
  function ProgressAfterEvent(progress: nat, e: ProgressEvent): nat
  {
    if e.total != 0 then Percent(e.loaded, e.total) else progress
  }

  /** The progress after a run of callbacks, applied in order. */
  function ProgressAfter(progress: nat, events: seq<ProgressEvent>): nat
  {
    if events == [] then progress
    else ProgressAfterEvent(ProgressAfter(progress, events[..|events| - 1]), events[|events| - 1])
  }

  /** The bar shows the percentage of the last callback that knew its total,
      or the starting value when none did. */
  lemma {:induction false} LastKnownTotalWins(progress: nat, events: seq<ProgressEvent>)
    ensures (forall i :: 0 <= i < |events| ==> events[i].total == 0) ==> ProgressAfter(progress, events) == progress
    ensures (exists i :: 0 <= i < |events| && events[i].total != 0) ==>
      exists i :: 0 <= i < |events| && events[i].total != 0
        && ProgressAfter(progress, events) == Percent(events[i].loaded, events[i].total)
        && forall j :: i < j < |events| ==> events[j].total == 0
  {
    if events != [] {
      var init := events[..|events| - 1];
      var last := events[|events| - 1];
      LastKnownTotalWins(progress, init);
      assert forall i :: 0 <= i < |init| ==> init[i] == events[i];
      if last.total == 0 && exists i :: 0 <= i < |events| && events[i].total != 0 {
        var k :| 0 <= k < |events| && events[k].total != 0;
        assert init[k] == events[k];
      }
    }
  }

  /** A transfer whose callbacks never overshoot keeps the bar within 0..100. */
  lemma {:induction false} ProgressStaysInRange(progress: nat, events: seq<ProgressEvent>)
    requires progress <= 100
    requires forall i :: 0 <= i < |events| ==> events[i].loaded <= events[i].total
    ensures ProgressAfter(progress, events) <= 100
  {
    if events != [] {
      var init := events[..|events| - 1];
      var last := events[|events| - 1];
      ProgressStaysInRange(progress, init);
      if last.total != 0 {
        PercentBounds(last.loaded, last.total);
      }
    }
  }

  /** The `patient_note` form field: the trimmed note, left out when blank. */
  function TrimmedNote(note: string): (r: Option<string>)
    ensures r.None? <==> forall i :: 0 <= i < |note| ==> Text.IsSpace(note[i], Text.JavaScript)
    ensures r.Some? ==> r.value != [] && !Text.IsSpace(r.value[0], Text.JavaScript) && !Text.IsSpace(r.value[|r.value| - 1], Text.JavaScript)
  {
    Text.StripFacts(note, Text.JavaScript);
    var t := Text.Strip(note, Text.JavaScript);
    if t != [] then Some(t) else None
  }

  /** A note that is sent is the typed note with only its surrounding
      whitespace cut: it is the slice `note[i..j]`, and everything outside the
      slice is whitespace. */
  lemma TrimmedNoteIsTypedNote(note: string) returns (i: nat, j: nat)
    requires TrimmedNote(note).Some?
    ensures i <= j <= |note| && TrimmedNote(note).value == note[i..j]
    ensures forall k :: 0 <= k < i ==> Text.IsSpace(note[k], Text.JavaScript)
    ensures forall k :: j <= k < |note| ==> Text.IsSpace(note[k], Text.JavaScript)
  {
    i, j := Text.StripIsSlice(note, Text.JavaScript);
  }

  /** A multipart POST of the selected files, with the optional note. */
  datatype UploadRequest = UploadRequest(endpoint: string, files: seq<FileUploader.File>, patientNote: Option<string>)
}
