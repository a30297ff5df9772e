/** The record detail page: the record named by the route is fetched from the
    endpoint of its kind, and a report record's files are shown as a sequence
    of text blocks (the OCR text and the translation of each translation row)
    or "no text found" warnings. Each text block is clipped until its key is
    toggled open. */
module RecordDetailPage {
  import opened Common
  import opened Payloads
  import Text
  import Records

  /** The endpoint for the route `/records/:type/:id`; `id` is the route's
      text. */
  function RouteEndpoint(routeType: string, routeId: string): string
  {
    if routeType == RadiologyKind then Records.RadiologyDetailPrefix + routeId else Records.ReportDetailPrefix + routeId
  }

  /** The detail page and an expanded card of the records page ask the same
      endpoint for the same record. */
  lemma RouteEndpointMatchesCard(kind: string, id: int)
    ensures RouteEndpoint(kind, Text.IntToString(id)) == Records.DetailEndpoint(kind, id)
  {
  }

  /** What the page renders for one report file's texts. */
  datatype Block =
    | NoTextWarning(filename: string)
    | OriginalSection(translationId: int, filename: string, text: string, duration: Option<Records.DurationLabel>)
    | TranslatedSection(translationId: int, filename: string, text: string, duration: Option<Records.DurationLabel>)
  {
    predicate IsSection() { OriginalSection? || TranslatedSection? }

    /** The key `toggleText` uses for this block. */
    function Key(): string
      requires IsSection()
    {
      Text.IntToString(translationId) + (if OriginalSection? then "-original" else "-translated")
    }
  }

  /** The blocks of one translation row: its OCR text and, when present, its
      translation; a row without OCR text is only a warning. */
  function TranslationBlocks(filename: string, t: TranslationEntry): seq<Block>
  {
    if t.originalText != [] then
      [OriginalSection(t.id, filename, t.originalText, Records.FormatDuration(t.ocrDurationMs))]
      + (if t.translatedText != [] then
           [TranslatedSection(t.id, filename, t.translatedText, Records.FormatDuration(t.translationDurationMs))]
         else [])
    else [NoTextWarning(filename)]
  }

  function RowsBlocks(filename: string, ts: seq<TranslationEntry>): seq<Block>
  {
    if ts == [] then [] else TranslationBlocks(filename, ts[0]) + RowsBlocks(filename, ts[1..])
  }

  /** A file without translation rows gets one warning. */
  function FileBlocks(f: FileEntry): seq<Block>
  {
    if f.translations.None? || f.translations.value == [] then [NoTextWarning(f.originalFilename)]
    else RowsBlocks(f.originalFilename, f.translations.value)
  }

  function FilesBlocks(files: seq<FileEntry>): seq<Block>
  {
    if files == [] then [] else FileBlocks(files[0]) + FilesBlocks(files[1..])
  }

  /** Text sections are shown for report records only. */
  function TextBlocks(d: RecordDetail): seq<Block>
  {
    if d.recordType == ReportKind then FilesBlocks(d.files) else []
  }

  function CountWarnings(blocks: seq<Block>): nat
  {
    if blocks == [] then 0 else (if blocks[0].NoTextWarning? then 1 else 0) + CountWarnings(blocks[1..])
  }

  function CountEmptyOriginals(ts: seq<TranslationEntry>): nat
  {
    if ts == [] then 0 else (if ts[0].originalText == [] then 1 else 0) + CountEmptyOriginals(ts[1..])
  }

  /** Shown texts are never empty, and every translation section comes right
      after the OCR section of the same row. */
  ghost predicate WellFormed(blocks: seq<Block>)
  {
    && (forall i :: 0 <= i < |blocks| && blocks[i].IsSection() ==> blocks[i].text != [])
    && (forall i :: 0 <= i < |blocks| && blocks[i].TranslatedSection? ==>
          i > 0 && blocks[i - 1].OriginalSection? && blocks[i - 1].translationId == blocks[i].translationId)
    && (blocks != [] ==> !blocks[0].TranslatedSection?)
  }

  lemma {:induction false} CountWarningsAppend(a: seq<Block>, b: seq<Block>)
    ensures CountWarnings(a + b) == CountWarnings(a) + CountWarnings(b)
  {
    if a != [] {
      assert (a + b)[1..] == a[1..] + b;
      CountWarningsAppend(a[1..], b);
    } else {
      assert a + b == b;
    }
  }

  lemma WellFormedAppend(a: seq<Block>, b: seq<Block>)
    requires WellFormed(a) && WellFormed(b)
    ensures WellFormed(a + b)
  {
    var c := a + b;
    forall i | 0 <= i < |c| && c[i].TranslatedSection?
      ensures i > 0 && c[i - 1].OriginalSection? && c[i - 1].translationId == c[i].translationId
    {
      if i >= |a| {
        assert c[i] == b[i - |a|];
        if i > |a| { assert c[i - 1] == b[i - 1 - |a|]; }
      }
    }
    forall i | 0 <= i < |c| && c[i].IsSection() ensures c[i].text != [] {
      if i >= |a| { assert c[i] == b[i - |a|]; }
    }
  }

  /** One row gives a warning exactly when its OCR text is empty, and its
      blocks are well formed. */
  lemma TranslationBlocksFacts(filename: string, t: TranslationEntry)
    ensures WellFormed(TranslationBlocks(filename, t))
    ensures CountWarnings(TranslationBlocks(filename, t)) == if t.originalText == [] then 1 else 0
    ensures forall b :: b in TranslationBlocks(filename, t) && b.TranslatedSection? ==> t.originalText != []
  {
    var bs := TranslationBlocks(filename, t);
    if t.originalText != [] && t.translatedText != [] {
      assert bs[1..][1..] == [];
      assert CountWarnings(bs[1..]) == 0;
    } else if t.originalText != [] {
      assert bs[1..] == [];
    }
  }

  lemma {:induction false} RowsBlocksFacts(filename: string, ts: seq<TranslationEntry>)
    ensures WellFormed(RowsBlocks(filename, ts))
    ensures CountWarnings(RowsBlocks(filename, ts)) == CountEmptyOriginals(ts)
  {
    if ts != [] {
      RowsBlocksFacts(filename, ts[1..]);
      TranslationBlocksFacts(filename, ts[0]);
      WellFormedAppend(TranslationBlocks(filename, ts[0]), RowsBlocks(filename, ts[1..]));
      CountWarningsAppend(TranslationBlocks(filename, ts[0]), RowsBlocks(filename, ts[1..]));
    }
  }

  /** A file without translation rows gets exactly one warning; otherwise it
      gets one warning per row without OCR text. A translation is never shown
      without the OCR text it came from, and no shown text is empty. */
  lemma FileBlocksFacts(f: FileEntry)
    ensures WellFormed(FileBlocks(f))
    ensures CountWarnings(FileBlocks(f)) ==
      if f.translations.None? || f.translations.value == [] then 1 else CountEmptyOriginals(f.translations.value)
  {
    if f.translations.Some? && f.translations.value != [] {
      RowsBlocksFacts(f.originalFilename, f.translations.value);
    }
  }

  /** The whole page's text blocks are well formed, and a record that is not a
      report shows none. */
  lemma {:induction false} TextBlocksWellFormed(d: RecordDetail)
    ensures WellFormed(TextBlocks(d))
    ensures d.recordType != ReportKind ==> TextBlocks(d) == []
  {
    if d.recordType == ReportKind {
      FilesBlocksWellFormed(d.files);
    }
  }

  lemma {:induction false} FilesBlocksWellFormed(files: seq<FileEntry>)
    ensures WellFormed(FilesBlocks(files))
  {
    if files != [] {
      FileBlocksFacts(files[0]);
      FilesBlocksWellFormed(files[1..]);
      WellFormedAppend(FileBlocks(files[0]), FilesBlocks(files[1..]));
    }
  }

  /** `expandedTexts[key]`, an absent key counting as false. */
  function IsExpanded(m: map<string, bool>, key: string): bool
  {
    key in m && m[key]
  }

  /** `{...prev, [key]: !prev[key]}`. */
  function Toggled(m: map<string, bool>, key: string): map<string, bool>
  {
    m[key := !IsExpanded(m, key)]
  }

  /** Toggling flips exactly one entry, and toggling twice restores every
      entry's state. */
  lemma ToggleFlipsOnlyItsKey(m: map<string, bool>, key: string)
    ensures IsExpanded(Toggled(m, key), key) == !IsExpanded(m, key)
    ensures forall k :: k != key ==> IsExpanded(Toggled(m, key), k) == IsExpanded(m, k)
    ensures forall k :: IsExpanded(Toggled(Toggled(m, key), key), k) == IsExpanded(m, k)
  {
  }

  /** A text block is height-clipped unless its key is expanded. */
  function Clipped(m: map<string, bool>, b: Block): bool
    requires b.IsSection()
  {
    !IsExpanded(m, b.Key())
  }

  /** The OCR and translation blocks of one row toggle independently. */
  lemma RowKeysDistinct(id: int, filename: string, a: string, b: string, da: Option<Records.DurationLabel>, db: Option<Records.DurationLabel>)
    ensures OriginalSection(id, filename, a, da).Key() != TranslatedSection(id, filename, b, db).Key()
  {
    var ka := OriginalSection(id, filename, a, da).Key();
    var kb := TranslatedSection(id, filename, b, db).Key();
    var n := |Text.IntToString(id)|;
    assert ka[n + 1] == 'o' && kb[n + 1] == 't';
  }

  datatype PageView = Loading | NotFound | Shown(detail: RecordDetail, blocks: seq<Block>)

  class RecordDetailPage {
    const routeType: string
    const routeId: string
    var detail: Option<RecordDetail>
    var loading: bool
    var expandedTexts: map<string, bool>
    /** The GET requests issued so far, in order. */
    var requested: seq<string>

    constructor (routeType: string, routeId: string)
      ensures this.routeType == routeType && this.routeId == routeId
      ensures detail == None && loading && expandedTexts == map[] && requested == []
    {
      this.routeType := routeType;
      this.routeId := routeId;
      detail := None;
      loading := true;
      expandedTexts := map[];
      requested := [];
    }

    /** `fetchDetail` against the outcome of its request: the answer, or no
        record when it failed; loading ends on every path. */
    method FetchDetail(o: Outcome<RecordDetail>)
      modifies this`detail, this`loading, this`requested
      ensures requested == old(requested) + [RouteEndpoint(routeType, routeId)]
      ensures detail == (if o.Ok? then Some(o.payload) else None)
      ensures !loading
    {
      loading := true;
      var endpoint := if routeType == RadiologyKind then Records.RadiologyDetailPrefix + routeId else Records.ReportDetailPrefix + routeId;
      requested := requested + [endpoint];
      match o {
        case Ok(d) =>
          detail := Some(d);
        case Err(_) =>
          detail := None;
      }
      loading := false;
    }

    method ToggleText(key: string)
      modifies this`expandedTexts
      ensures expandedTexts == Toggled(old(expandedTexts), key)
    {
      var open := key in expandedTexts && expandedTexts[key];
      expandedTexts := expandedTexts[key := !open];
    }

    function View(): PageView
      reads this
    {
      if loading then Loading
      else if detail.None? then NotFound
      else Shown(detail.value, TextBlocks(detail.value))
    }
  }

  /** After a fetch the page shows the record when the request succeeded and
      "not found" when it failed, never the loading state. */
  lemma ViewAfterFetch(p: RecordDetailPage, o: Outcome<RecordDetail>)
    requires !p.loading && p.detail == (if o.Ok? then Some(o.payload) else None)
    ensures o.Err? <==> p.View() == NotFound
    ensures o.Ok? ==> p.View() == Shown(o.payload, TextBlocks(o.payload))
  {
  }
}
