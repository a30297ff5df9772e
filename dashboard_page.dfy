/** The dashboard's "recent records" panel: both lists requested together,
    merged into the feed, and its five newest entries kept. */
module DashboardPage {
  import opened Common
  import opened Payloads
  import opened Records
  import Sorting

  const RecentCount := 5

  /** The first `min(5, n)` entries of the feed. */
  function Recent(radiology: seq<ListEntry>, reports: seq<ListEntry>): (r: seq<RecordItem>)
    ensures |r| == if |Feed(radiology, reports)| < RecentCount then |Feed(radiology, reports)| else RecentCount
  {
    var all := Feed(radiology, reports);
    if |all| < RecentCount then all else all[..RecentCount]
  }

  /** The panel holds the newest records: each shown entry is at least as
      recent as each fetched entry left out, the shown ones are newest first,
      and all are from the fetched lists with their kind stamped. */
  lemma RecentAreNewest(radiology: seq<ListEntry>, reports: seq<ListEntry>)
    ensures var all := Feed(radiology, reports);
      var shown := Recent(radiology, reports);
      && shown == all[..|shown|]
      && Sorting.Descending(shown, CreatedAt)
      && (forall i, j :: 0 <= i < |shown| <= j < |all| ==> CreatedAt(shown[i]) >= CreatedAt(all[j]))
      && (forall item :: item in shown ==>
            (item.recordType == RadiologyKind && item.entry in radiology) || (item.recordType == ReportKind && item.entry in reports))
  {
    var all := Feed(radiology, reports);
    var shown := Recent(radiology, reports);
    FeedFacts(radiology, reports);
    assert shown == all[..|shown|];
    forall item | item in shown
      ensures (item.recordType == RadiologyKind && item.entry in radiology) || (item.recordType == ReportKind && item.entry in reports)
    {
      var i :| 0 <= i < |shown| && shown[i] == item;
      assert all[i] == item;
    }
  }

  class DashboardPage {
    var recentRecords: seq<RecordItem>
    /** The GET requests issued so far (both lists, together, per fetch). */
    var requested: seq<string>

    constructor ()
      ensures recentRecords == [] && requested == []
    {
      recentRecords := [];
      requested := [];
    }

    /** `fetchRecords` against both outcomes: either failure leaves the panel
        as it was (empty on first load). */
    method FetchRecords(radiology: Outcome<seq<ListEntry>>, reports: Outcome<seq<ListEntry>>)
      modifies this`recentRecords, this`requested
      ensures requested == old(requested) + [RadiologyListEndpoint, ReportListEndpoint]
      ensures radiology.Ok? && reports.Ok? ==> recentRecords == Recent(radiology.payload, reports.payload)
      ensures radiology.Err? || reports.Err? ==> recentRecords == old(recentRecords)
    {
      requested := requested + [RadiologyListEndpoint, ReportListEndpoint];
      if radiology.Err? || reports.Err? {
        return;
      }
      var all := Merge(radiology.payload, reports.payload);
      all := Sorting.SortNewestFirst(all, CreatedAt);
      recentRecords := if |all| < RecentCount then all else all[..RecentCount];
    }
  }
}
