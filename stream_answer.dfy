/** How the report upload's answer reaches the pages. The route answers with a
    `text/event-stream` body, while both upload pages read `response.data` as
    the JSON of the final result. The shared client sets no `responseType`,
    so axios tries `JSON.parse` on the text, fails, and hands the pages the
    text itself. */
module StreamAnswer {
  import opened Common
  import opened Payloads
  import ApiClient
  import ReportPipeline
  import ReportUploadPage
  import RecordUploadPage
  import FileUploader

  /** Every event stream the route sends begins with `data: `, which no JSON
      value begins with, so the pages receive the raw text, whatever the
      events are. */
  lemma {:induction false} StreamAnswerIsRawText(events: seq<ReportPipeline.StreamEvent>,
                                                 json: ReportPipeline.StreamEvent -> string,
                                                 parse: string -> Option<ReportUploadResult>)
    requires events != []
    ensures ApiClient.ResponseData(ReportPipeline.StreamText(events, json), parse)
      == RawText(ReportPipeline.StreamText(events, json))
  {
    var text := ReportPipeline.StreamText(events, json);
    assert text[..|ReportPipeline.EventPrefix|] == ReportPipeline.EventPrefix;
    assert text[0] == 'd';
    assert !ApiClient.IsJsonSpace(text[0]) && text[0] !in ApiClient.JsonValueStarts;
  }

  /** The report upload page given the route's answer: it reaches `done`
      with neither a record nor results, and its render throws. */
  method ReportPageGetsStream(a: FileUploader.File, events: seq<ReportPipeline.StreamEvent>,
                              json: ReportPipeline.StreamEvent -> string,
                              parse: string -> Option<ReportUploadResult>)
      returns (page: ReportUploadPage.ReportUploadPage)
    requires events != []
    ensures page.step == ReportUploadPage.Done && page.errorMessage == None
    ensures page.recordId == None && page.results == None && page.RenderThrows()
  {
    page := new ReportUploadPage.ReportUploadPage();
    page.HandleFilesSelected([a]);
    var body := ApiClient.ResponseData(ReportPipeline.StreamText(events, json), parse);
    StreamAnswerIsRawText(events, json, parse);
    page.HandleUpload(Ok(body));
  }

  /** The combined upload page given the route's answer for its report files:
      it reaches `success`, the report track counts as succeeded, and its
      section shows nothing at all. */
  method RecordPageGetsStream(a: FileUploader.File, events: seq<ReportPipeline.StreamEvent>,
                              json: ReportPipeline.StreamEvent -> string,
                              parse: string -> Option<ReportUploadResult>,
                              radiologyOutcome: Outcome<int>)
      returns (page: RecordUploadPage.RecordUploadPage)
    requires events != []
    ensures page.status == RecordUploadPage.Success && !page.HasAnyError()
    ensures page.reportResult == Some(RecordUploadPage.Succeeded(None))
    ensures RecordUploadPage.ReportSectionOf(page.reportResult) == RecordUploadPage.EmptySection
  {
    page := new RecordUploadPage.RecordUploadPage();
    page.HandleReportFiles([a]);
    var body := ApiClient.ResponseData(ReportPipeline.StreamText(events, json), parse);
    StreamAnswerIsRawText(events, json, parse);
    page.HandleUpload([], radiologyOutcome, Ok(body));
  }
}
