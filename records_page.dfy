/** The records page: the feed of one or both record kinds, a kind filter, and
    a single expanded card whose detail is fetched when the card is opened.
    Each await is split: `BeginToggle` runs up to the detail request and
    `ResolveDetail` when its answer arrives. */
module RecordsPage {
  import opened Common
  import opened Payloads
  import opened Records
  import Sorting

  datatype RecordFilter = All | RadiologyOnly | ReportOnly

  predicate WantsRadiology(f: RecordFilter) { f == All || f == RadiologyOnly }
  predicate WantsReports(f: RecordFilter) { f == All || f == ReportOnly }

  /** The list requests one fetch issues, in order. The report list is awaited
      after the radiology one, so a failed radiology request means the report
      list is never asked for. */
  function ListRequests(filter: RecordFilter, radiology: Outcome<seq<ListEntry>>): seq<string>
  {
    (if WantsRadiology(filter) then [RadiologyListEndpoint] else [])
    + (if WantsReports(filter) && !(WantsRadiology(filter) && radiology.Err?) then [ReportListEndpoint] else [])
  }

  /** The sorted list one fetch produces, or `None` when one of its requests
      failed. */
  function Fetched(filter: RecordFilter, radiology: Outcome<seq<ListEntry>>, reports: Outcome<seq<ListEntry>>): Option<seq<RecordItem>>
  {
    if (WantsRadiology(filter) && radiology.Err?) || (WantsReports(filter) && reports.Err?) then None
    else
      var r := if WantsRadiology(filter) then radiology.payload else [];
      var p := if WantsReports(filter) then reports.payload else [];
      Some(Feed(r, p))
  }

  /** A fetch succeeds exactly when every list its filter needs arrived; its
      items are then all of the kinds the filter selects, newest first, and
      with the `all` filter it is the feed of both lists. */
  lemma FetchedFacts(filter: RecordFilter, radiology: Outcome<seq<ListEntry>>, reports: Outcome<seq<ListEntry>>)
    ensures Fetched(filter, radiology, reports).Some?
      <==> (WantsRadiology(filter) ==> radiology.Ok?) && (WantsReports(filter) ==> reports.Ok?)
    ensures Fetched(filter, radiology, reports).Some? ==>
      var items := Fetched(filter, radiology, reports).value;
      && Sorting.Descending(items, CreatedAt)
      && (forall item :: item in items ==>
            (item.recordType == RadiologyKind && WantsRadiology(filter) && item.entry in radiology.payload)
            || (item.recordType == ReportKind && WantsReports(filter) && item.entry in reports.payload))
    ensures filter == All && radiology.Ok? && reports.Ok? ==>
      Fetched(filter, radiology, reports) == Some(Feed(radiology.payload, reports.payload))
  {
    if Fetched(filter, radiology, reports).Some? {
      var r := if WantsRadiology(filter) then radiology.payload else [];
      var p := if WantsReports(filter) then reports.payload else [];
      FeedFacts(r, p);
    }
  }

  class RecordsPage {
    var records: seq<RecordItem>
    var loading: bool
    var filter: RecordFilter
    /** The key of the expanded card. */
    var expandedId: Option<string>
    var expandedDetail: Option<RecordDetail>
    /** The GET requests issued so far, in order. */
    var requested: seq<string>

    constructor ()
      ensures records == [] && loading && filter == All
      ensures expandedId == None && expandedDetail == None && requested == []
    {
      records := [];
      loading := true;
      filter := All;
      expandedId := None;
      expandedDetail := None;
      requested := [];
    }

    /** A filter button; the page then fetches again with the new filter. */
    method SelectFilter(f: RecordFilter)
      modifies this`filter
      ensures filter == f
    {
      filter := f;
    }

    /** `fetchRecords` up to its first request: loading starts, and the
        fetch keeps the filter it was started with. */
    method BeginFetch() returns (fetchFilter: RecordFilter)
      modifies this`loading
      ensures loading && fetchFilter == filter
    {
      loading := true;
      fetchFilter := filter;
    }

    /** The rest of a fetch started under `fetchFilter`, against the outcomes
        of its list requests (an outcome the filter does not need is never
        read). A failed request leaves the shown list as it was; loading ends
        on every path. Nothing checks that `fetchFilter` is still the page's
        filter, or that no other fetch is pending. */
    method SettleFetch(fetchFilter: RecordFilter, radiology: Outcome<seq<ListEntry>>, reports: Outcome<seq<ListEntry>>)
      modifies this`records, this`loading, this`requested
      ensures !loading
      ensures requested == old(requested) + ListRequests(fetchFilter, radiology)
      ensures records == match Fetched(fetchFilter, radiology, reports)
                         case Some(items) => items
                         case None => old(records)
    {
      var results: seq<RecordItem> := [];
      var failed := false;
      if fetchFilter == All || fetchFilter == RadiologyOnly {
        requested := requested + [RadiologyListEndpoint];
        match radiology
        case Ok(list) =>
          results := results + Stamp(RadiologyKind, list);
        case Err(_) =>
          failed := true;
      }
      if !failed && (fetchFilter == All || fetchFilter == ReportOnly) {
        requested := requested + [ReportListEndpoint];
        match reports
        case Ok(list) =>
          results := results + Stamp(ReportKind, list);
        case Err(_) =>
          failed := true;
      }
      if !failed {
        assert results == Merge(if WantsRadiology(fetchFilter) then radiology.payload else [],
                                if WantsReports(fetchFilter) then reports.payload else []);
        results := Sorting.SortNewestFirst(results, CreatedAt);
        records := results;
      }
      loading := false;
    }

    /** A whole fetch that no other fetch overlaps, under the current filter. */
    method FetchRecords(radiology: Outcome<seq<ListEntry>>, reports: Outcome<seq<ListEntry>>)
      modifies this`records, this`loading, this`requested
      ensures !loading
      ensures requested == old(requested) + ListRequests(filter, radiology)
      ensures records == match Fetched(filter, radiology, reports)
                         case Some(items) => items
                         case None => old(records)
    {
      var fetchFilter := BeginFetch();
      SettleFetch(fetchFilter, radiology, reports);
    }

    /** A click on a card, up to the detail request. Clicking the expanded
        card collapses it and requests nothing; clicking another card expands
        it (the previous detail stays until the answer) and requests its
        detail from the endpoint of its kind. */
    method BeginToggle(item: RecordItem) returns (request: Option<string>)
      modifies this`expandedId, this`expandedDetail, this`requested
      ensures old(expandedId) == Some(Key(item)) ==>
        && expandedId == None && expandedDetail == None
        && request == None && requested == old(requested)
      ensures old(expandedId) != Some(Key(item)) ==>
        && expandedId == Some(Key(item)) && expandedDetail == old(expandedDetail)
        && request == Some(DetailEndpoint(item.recordType, item.entry.id))
        && requested == old(requested) + [request.value]
    {
      var key := Key(item);
      if expandedId == Some(key) {
        expandedId := None;
        expandedDetail := None;
        return None;
      }
      expandedId := Some(key);
      var endpoint := DetailEndpoint(item.recordType, item.entry.id);
      requested := requested + [endpoint];
      return Some(endpoint);
    }

    /** The answer to a detail request, stored whatever card is expanded by
        then. */
    method ResolveDetail(o: Outcome<RecordDetail>)
      modifies this`expandedDetail
      ensures expandedDetail == (if o.Ok? then Some(o.payload) else None)
    {
      match o
      case Ok(detail) =>
        expandedDetail := Some(detail);
      case Err(_) =>
        expandedDetail := None;
    }

    /** A click whose request, if any, is answered before anything else
        happens. */
    method ToggleExpand(item: RecordItem, o: Outcome<RecordDetail>)
      modifies this`expandedId, this`expandedDetail, this`requested
      ensures old(expandedId) == Some(Key(item)) ==> expandedId == None && expandedDetail == None
      ensures old(expandedId) != Some(Key(item)) ==>
        && expandedId == Some(Key(item))
        && expandedDetail == (if o.Ok? then Some(o.payload) else None)
    {
      var request := BeginToggle(item);
      if request.Some? {
        ResolveDetail(o);
      }
    }

    /** The detail a card shows: the stored one, when the card is expanded. */
    function ShownDetail(item: RecordItem): Option<RecordDetail>
      reads this
    {
      if expandedId == Some(Key(item)) && expandedDetail.Some? then expandedDetail else None
    }
  }

  /** Nothing matches an answer to the card it was requested for: two cards
      opened in a row whose first answer arrives last leave the second card
      showing the first card's detail. */
  method LateAnswerShownUnderOtherCard(a: RecordItem, b: RecordItem, detailA: RecordDetail, detailB: RecordDetail)
      returns (page: RecordsPage)
    requires Key(a) != Key(b)
    ensures page.expandedId == Some(Key(b))
    ensures page.ShownDetail(b) == Some(detailA)
    ensures page.ShownDetail(a) == None
  {
    page := new RecordsPage();
    var requestA := page.BeginToggle(a);
    var requestB := page.BeginToggle(b);
    page.ResolveDetail(Ok(detailB));
    page.ResolveDetail(Ok(detailA));
  }

  /** Nothing ties a list to the filter it was fetched for: the filter
      switched from radiology to reports while the radiology fetch is pending,
      and the report fetch answering first, leave the report filter showing
      radiology records only. */
  method StaleListUnderNewFilter(radiology: seq<ListEntry>, reports: seq<ListEntry>, e: HttpError)
      returns (page: RecordsPage)
    ensures page.filter == ReportOnly && !page.loading
    ensures page.records == Feed(radiology, [])
    ensures forall item :: item in page.records ==> item.recordType == RadiologyKind
  {
    page := new RecordsPage();
    page.SelectFilter(RadiologyOnly);
    var first := page.BeginFetch();
    page.SelectFilter(ReportOnly);
    var second := page.BeginFetch();
    page.SettleFetch(second, Err(e), Ok(reports));
    page.SettleFetch(first, Ok(radiology), Err(e));
    FetchedFacts(RadiologyOnly, Ok(radiology), Err(e));
  }

  /** The first of two overlapping fetches ends loading while the second is
      still pending. */
  method LoadingEndsWhileFetchPending(radiology: seq<ListEntry>, e: HttpError) returns (page: RecordsPage, pending: RecordFilter)
    ensures pending == ReportOnly && page.filter == ReportOnly
    ensures !page.loading
  {
    page := new RecordsPage();
    page.SelectFilter(RadiologyOnly);
    var first := page.BeginFetch();
    page.SelectFilter(ReportOnly);
    pending := page.BeginFetch();
    page.SettleFetch(first, Ok(radiology), Err(e));
  }

  /** At most one card shows a detail: the expanded one. */
  lemma OneCardShowsDetail(p: RecordsPage, a: RecordItem, b: RecordItem)
    requires KnownKind(a.recordType) && KnownKind(b.recordType)
    requires p.ShownDetail(a).Some? && p.ShownDetail(b).Some?
    ensures a.recordType == b.recordType && a.entry.id == b.entry.id
  {
    KeyIdentifies(a, b);
  }
}
