/** The record feed the records page and the dashboard build from the two
    list endpoints: every entry is stamped with the kind of the list it came
    from, the two lists are concatenated (radiology first) and sorted by
    creation time, newest first. Also the feed's card key, the detail endpoint
    a card routes to, and the duration label of a translation. */
module Records {
  import opened Common
  import opened Payloads
  import Text
  import Sorting

  const RadiologyListEndpoint := "/api/radiology/records"
  const ReportListEndpoint := "/api/reports/records"
  const RadiologyDetailPrefix := "/api/radiology/records/"
  const ReportDetailPrefix := "/api/reports/records/"

  /** A list entry with the `record_type` the page stamps on it. */
  datatype RecordItem = RecordItem(recordType: string, entry: ListEntry)

  function CreatedAt(item: RecordItem): int
  {
    item.entry.createdAt
  }

  /** `list.map(r => ({...r, record_type: kind}))`. */
  function Stamp(kind: string, list: seq<ListEntry>): (r: seq<RecordItem>)
    ensures |r| == |list|
    ensures forall i :: 0 <= i < |r| ==> r[i].recordType == kind && r[i].entry == list[i]
  {
    seq(|list|, i requires 0 <= i < |list| => RecordItem(kind, list[i]))
  }

  /** Both lists stamped, radiology entries first. */
  function Merge(radiology: seq<ListEntry>, reports: seq<ListEntry>): seq<RecordItem>
  {
    Stamp(RadiologyKind, radiology) + Stamp(ReportKind, reports)
  }

  /** The merged list after the page's stable sort by creation time, newest
      first. */
  function Feed(radiology: seq<ListEntry>, reports: seq<ListEntry>): seq<RecordItem>
  {
    Sorting.SortNewestFirst(Merge(radiology, reports), CreatedAt)
  }

  /** The feed is newest first; it holds every fetched entry exactly once,
      stamped with the kind of its list; and among entries created at the
      same time the radiology ones come first, each list keeping its order. */
  lemma FeedFacts(radiology: seq<ListEntry>, reports: seq<ListEntry>)
    ensures Sorting.Descending(Feed(radiology, reports), CreatedAt)
    ensures multiset(Feed(radiology, reports)) == multiset(Stamp(RadiologyKind, radiology)) + multiset(Stamp(ReportKind, reports))
    ensures forall item :: item in Feed(radiology, reports) ==>
      (item.recordType == RadiologyKind && item.entry in radiology) || (item.recordType == ReportKind && item.entry in reports)
    ensures forall t ::
      (Sorting.WithKey(Feed(radiology, reports), CreatedAt, t)
       == Sorting.WithKey(Stamp(RadiologyKind, radiology), CreatedAt, t) + Sorting.WithKey(Stamp(ReportKind, reports), CreatedAt, t))
  {
    var a, b := Stamp(RadiologyKind, radiology), Stamp(ReportKind, reports);
    Sorting.SortFacts(a + b, CreatedAt);
    forall t ensures Sorting.WithKey(Feed(radiology, reports), CreatedAt, t) == Sorting.WithKey(a, CreatedAt, t) + Sorting.WithKey(b, CreatedAt, t) {
      Sorting.WithKeyAppend(a, b, CreatedAt, t);
    }
    forall item | item in Feed(radiology, reports)
      ensures (item.recordType == RadiologyKind && item.entry in radiology) || (item.recordType == ReportKind && item.entry in reports)
    {
      assert item in multiset(a + b);
      assert item in a + b;
      if item in a {
        var i :| 0 <= i < |a| && a[i] == item;
      } else {
        var i :| 0 <= i < |b| && b[i] == item;
      }
    }
  }

  /** The card key, `${record_type}-${id}`. */
  function Key(item: RecordItem): string
  {
    item.recordType + "-" + Text.IntToString(item.entry.id)
  }

  predicate KnownKind(kind: string)
  {
    kind == RadiologyKind || kind == ReportKind
  }

  /** Two stamped items share a key only when they are of the same kind and
      have the same id: a radiology and a report record with equal ids are
      different cards. */
  lemma KeyIdentifies(a: RecordItem, b: RecordItem)
    requires KnownKind(a.recordType) && KnownKind(b.recordType)
    requires Key(a) == Key(b)
    ensures a.recordType == b.recordType && a.entry.id == b.entry.id
  {
    var ka, kb := Key(a), Key(b);
    KeySecondChar(a);
    KeySecondChar(b);
    if a.recordType == b.recordType {
      var n := |a.recordType| + 1;
      assert ka[n..] == Text.IntToString(a.entry.id);
      assert kb[n..] == Text.IntToString(b.entry.id);
      Text.IntToStringInjective(a.entry.id, b.entry.id);
    }
  }

  lemma KeySecondChar(item: RecordItem)
    requires |item.recordType| >= 2
    ensures Key(item)[1] == item.recordType[1]
  {
  }

  /** The detail endpoint of a record: the radiology one exactly when its kind
      is `radiology`, the report one for any other kind. */
  function DetailEndpoint(kind: string, id: int): (r: string)
    ensures Text.StartsWith(r, RadiologyDetailPrefix) <==> kind == RadiologyKind
    ensures kind == RadiologyKind ==> r[|RadiologyDetailPrefix|..] == Text.IntToString(id)
    ensures kind != RadiologyKind ==> Text.StartsWith(r, ReportDetailPrefix) && r[|ReportDetailPrefix|..] == Text.IntToString(id)
  {
    var r := if kind == RadiologyKind then RadiologyDetailPrefix + Text.IntToString(id) else ReportDetailPrefix + Text.IntToString(id);
    assert kind != RadiologyKind ==> r[8] != RadiologyDetailPrefix[8];
    r
  }

  /** Reading the id back from an endpoint gives the record's id: different
      records of one kind never share an endpoint. */
  lemma DetailEndpointInjective(kind: string, a: int, b: int)
    requires DetailEndpoint(kind, a) == DetailEndpoint(kind, b)
    ensures a == b
  {
    Text.IntToStringInjective(a, b);
  }

  /** A duration label: whole milliseconds are rendered, the seconds form
      (`toFixed(1)` of a float) is kept as the number it renders. */
  datatype DurationLabel = Millis(text: string) | Seconds(ms: int)

  /** `formatDuration`: nothing for a missing duration, `${ms}ms` below one
      second. */
  function FormatDuration(ms: Option<int>): Option<DurationLabel>
  {
    match ms
    case None => None
    case Some(m) => Some(if m < 1000 then Millis(Text.IntToString(m) + "ms") else Seconds(m))
  }

  /** A present duration always gets a label, a millisecond label exactly
      below 1000, and the label reads back as the duration. */
  lemma FormatDurationReadsBack(m: int)
    ensures FormatDuration(None) == None
    ensures FormatDuration(Some(m)).Some?
    ensures FormatDuration(Some(m)).value.Millis? <==> m < 1000
    ensures 0 <= m < 1000 ==>
      var text := FormatDuration(Some(m)).value.text;
      && |text| > 2 && text[|text| - 2..] == "ms"
      && (forall i :: 0 <= i < |text| - 2 ==> Text.IsDigit(text[i]))
      && Text.DigitsValue(text[..|text| - 2]) == m
  {
    if 0 <= m < 1000 {
      var text := FormatDuration(Some(m)).value.text;
      assert text[..|text| - 2] == Text.NatToString(m);
      Text.NatToStringDigits(m);
      Text.NatToStringRoundTrip(m);
    }
  }
}
