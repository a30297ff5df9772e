/** The backend's three tables (records, their uploaded files, and the
    translations of a file) and the files stored on disk. Rows are values;
    the database is an object whose tables the upload routes extend. Primary
    keys are handed out in increasing order. */
module Store {
  import opened Common
  import Sorting

  datatype RecordRow = RecordRow(
    id: int,
    recordType: string,
    patientNote: Option<string>,
    createdAt: int,
    createdBy: string)

  datatype FileRow = FileRow(
    id: int,
    recordId: int,
    originalFilename: string,
    storedPath: string,
    fileType: string)

  datatype TranslationRow = TranslationRow(
    id: int,
    fileId: int,
    originalText: string,
    translatedText: string,
    ocrDurationMs: Option<int>,
    translationDurationMs: Option<int>)

  /** What the read-only routes see: the three tables and the stored paths
      that exist on disk. */
  datatype Tables = Tables(
    records: seq<RecordRow>,
    files: seq<FileRow>,
    translations: seq<TranslationRow>,
    disk: set<string>)

  /** `query(Record).filter(id == id, record_type == kind).first()`. */
  function FindRecord(records: seq<RecordRow>, id: int, kind: string): (r: Option<RecordRow>)
    ensures r.None? <==> forall i :: 0 <= i < |records| ==> !(records[i].id == id && records[i].recordType == kind)
    ensures r.Some? ==> r.value in records && r.value.id == id && r.value.recordType == kind
  {
    if records == [] then None
    else if records[0].id == id && records[0].recordType == kind then Some(records[0])
    else FindRecord(records[1..], id, kind)
  }

  /** `query(UploadedFile).filter(id == id).first()`. */
  function FindFile(files: seq<FileRow>, id: int): (r: Option<FileRow>)
    ensures r.None? <==> forall i :: 0 <= i < |files| ==> files[i].id != id
    ensures r.Some? ==> r.value in files && r.value.id == id
  {
    if files == [] then None
    else if files[0].id == id then Some(files[0])
    else FindFile(files[1..], id)
  }

  /** The `record.files` relationship. SQL fixes no order for it; the model
      chooses table order. */
  function FilesOf(files: seq<FileRow>, recordId: int): (r: seq<FileRow>)
    ensures forall f :: f in r <==> f in files && f.recordId == recordId
  {
    if files == [] then []
    else (if files[0].recordId == recordId then [files[0]] else []) + FilesOf(files[1..], recordId)
  }

  /** The `file.translations` relationship. SQL fixes no order for it; the
      model chooses table order. */
  function TranslationsOf(translations: seq<TranslationRow>, fileId: int): (r: seq<TranslationRow>)
    ensures forall t :: t in r <==> t in translations && t.fileId == fileId
  {
    if translations == [] then []
    else (if translations[0].fileId == fileId then [translations[0]] else []) + TranslationsOf(translations[1..], fileId)
  }

  lemma {:induction false} FilesOfAppend(a: seq<FileRow>, b: seq<FileRow>, recordId: int)
    ensures FilesOf(a + b, recordId) == FilesOf(a, recordId) + FilesOf(b, recordId)
  {
    if a != [] {
      assert (a + b)[1..] == a[1..] + b;
      FilesOfAppend(a[1..], b, recordId);
    } else {
      assert a + b == b;
    }
  }

  /** A record no row points at has no files. */
  lemma {:induction false} FilesOfNonePointing(rows: seq<FileRow>, recordId: int)
    requires forall k :: 0 <= k < |rows| ==> rows[k].recordId != recordId
    ensures FilesOf(rows, recordId) == []
  {
    if rows != [] {
      FilesOfNonePointing(rows[1..], recordId);
    }
  }

  /** A record's files are exactly those rows that point at it. */
  lemma {:induction false} FilesOfAllPointing(rows: seq<FileRow>, recordId: int)
    requires forall k :: 0 <= k < |rows| ==> rows[k].recordId == recordId
    ensures FilesOf(rows, recordId) == rows
  {
    if rows != [] {
      FilesOfAllPointing(rows[1..], recordId);
    }
  }

  /** Rows ahead of any row with a given key do not change what a lookup by
      that key finds. */
  lemma {:induction false} FindRecordSkips(a: seq<RecordRow>, b: seq<RecordRow>, id: int, kind: string)
    requires forall i :: 0 <= i < |a| ==> a[i].id != id
    ensures FindRecord(a + b, id, kind) == FindRecord(b, id, kind)
  {
    if a != [] {
      assert (a + b)[1..] == a[1..] + b;
      FindRecordSkips(a[1..], b, id, kind);
    } else {
      assert a + b == b;
    }
  }

  /** The same for the translations of a file. */
  lemma {:induction false} TranslationsOfAppend(a: seq<TranslationRow>, b: seq<TranslationRow>, fileId: int)
    ensures TranslationsOf(a + b, fileId) == TranslationsOf(a, fileId) + TranslationsOf(b, fileId)
  {
    if a != [] {
      assert (a + b)[1..] == a[1..] + b;
      TranslationsOfAppend(a[1..], b, fileId);
    } else {
      assert a + b == b;
    }
  }

  /** A file no translation row points at has no translations. */
  lemma {:induction false} TranslationsOfNonePointing(rows: seq<TranslationRow>, fileId: int)
    requires forall k :: 0 <= k < |rows| ==> rows[k].fileId != fileId
    ensures TranslationsOf(rows, fileId) == []
  {
    if rows != [] {
      TranslationsOfNonePointing(rows[1..], fileId);
    }
  }

  /** A file exactly one row points at has that row as its only translation. */
  lemma {:induction false} TranslationsOfOnePointing(rows: seq<TranslationRow>, fileId: int, k: nat)
    requires k < |rows| && rows[k].fileId == fileId
    requires forall j :: 0 <= j < |rows| && j != k ==> rows[j].fileId != fileId
    ensures TranslationsOf(rows, fileId) == [rows[k]]
  {
    if k == 0 {
      TranslationsOfNonePointing(rows[1..], fileId);
    } else {
      TranslationsOfOnePointing(rows[1..], fileId, k - 1);
    }
  }

  function OfKind(records: seq<RecordRow>, kind: string): (r: seq<RecordRow>)
    ensures forall x :: x in r <==> x in records && x.recordType == kind
  {
    if records == [] then []
    else (if records[0].recordType == kind then [records[0]] else []) + OfKind(records[1..], kind)
  }

  function CreatedAt(r: RecordRow): int
  {
    r.createdAt
  }

  /** `filter(record_type == kind).order_by(created_at.desc())`. SQL leaves
      the order of rows created at the same time open; the model keeps them in
      table order. */
  function RecordsOfKind(records: seq<RecordRow>, kind: string): seq<RecordRow>
  {
    Sorting.SortNewestFirst(OfKind(records, kind), CreatedAt)
  }

  /** A list query returns every record of its kind and nothing else, newest
      first. */
  lemma RecordsOfKindFacts(records: seq<RecordRow>, kind: string)
    ensures Sorting.Descending(RecordsOfKind(records, kind), CreatedAt)
    ensures multiset(RecordsOfKind(records, kind)) == multiset(OfKind(records, kind))
    ensures forall x :: x in RecordsOfKind(records, kind) <==> x in records && x.recordType == kind
    ensures |RecordsOfKind(records, kind)| == |OfKind(records, kind)|
  {
    Sorting.SortFacts(OfKind(records, kind), CreatedAt);
    assert |multiset(RecordsOfKind(records, kind))| == |multiset(OfKind(records, kind))|;
    forall x ensures x in RecordsOfKind(records, kind) <==> x in OfKind(records, kind) {
      assert x in RecordsOfKind(records, kind) <==> x in multiset(RecordsOfKind(records, kind));
      assert x in OfKind(records, kind) <==> x in multiset(OfKind(records, kind));
    }
  }

  /** Primary keys increase strictly in table order and stay below the next
      key to be handed out. */
  ghost predicate KeysBelow<T>(rows: seq<T>, key: T -> int, next: int)
    decreases |rows|
  {
    rows == [] || (key(rows[|rows| - 1]) < next && KeysBelow(rows[..|rows| - 1], key, key(rows[|rows| - 1])))
  }

  /** Keys below `next` are pairwise distinct and ordered, and all below
      `next`. */
  lemma {:induction false} KeysBelowOrdered<T>(rows: seq<T>, key: T -> int, next: int)
    requires KeysBelow(rows, key, next)
    ensures forall i, j :: 0 <= i < j < |rows| ==> key(rows[i]) < key(rows[j]) < next
    ensures forall i :: 0 <= i < |rows| ==> key(rows[i]) < next
  {
    if rows != [] {
      var init := rows[..|rows| - 1];
      KeysBelowOrdered(init, key, key(rows[|rows| - 1]));
      forall i, j | 0 <= i < j < |rows| ensures key(rows[i]) < key(rows[j]) < next {
        assert rows[i] == init[i];
        if j < |rows| - 1 { assert rows[j] == init[j]; }
      }
      forall i | 0 <= i < |rows| ensures key(rows[i]) < next {
        if i < |rows| - 1 { assert rows[i] == init[i]; }
      }
    }
  }

  /** Every row refers (by its record or its file) to a key below `bound`,
      that is, to a row already created. */
  ghost predicate RefsBelow<T>(rows: seq<T>, ref: T -> int, bound: int)
    decreases |rows|
  {
    rows == [] || (ref(rows[|rows| - 1]) < bound && RefsBelow(rows[..|rows| - 1], ref, bound))
  }

  lemma {:induction false} RefsBelowAll<T>(rows: seq<T>, ref: T -> int, bound: int)
    ensures RefsBelow(rows, ref, bound) <==> forall i :: 0 <= i < |rows| ==> ref(rows[i]) < bound
    decreases |rows|
  {
    if rows != [] {
      var init := rows[..|rows| - 1];
      RefsBelowAll(init, ref, bound);
      assert forall i :: 0 <= i < |init| ==> rows[i] == init[i];
    }
  }

  /** A bound that grows keeps every reference below it. */
  lemma RefsBelowGrow<T>(rows: seq<T>, ref: T -> int, bound: int, bound': int)
    requires RefsBelow(rows, ref, bound) && bound <= bound'
    ensures RefsBelow(rows, ref, bound')
  {
    RefsBelowAll(rows, ref, bound);
    RefsBelowAll(rows, ref, bound');
  }

  function RecordId(r: RecordRow): int { r.id }
  function FileId(f: FileRow): int { f.id }
  function TranslationId(t: TranslationRow): int { t.id }
  function FileRecord(f: FileRow): int { f.recordId }
  function TranslationFile(t: TranslationRow): int { t.fileId }

  /** Keys are increasing and below the next key of their table, and every
      file belongs to a record already created, every translation to a file. */
  ghost predicate TablesValid(records: seq<RecordRow>, files: seq<FileRow>, translations: seq<TranslationRow>,
                              nextRecordId: int, nextFileId: int, nextTranslationId: int)
  {
    && KeysBelow(records, RecordId, nextRecordId)
    && KeysBelow(files, FileId, nextFileId)
    && RefsBelow(files, FileRecord, nextRecordId)
    && KeysBelow(translations, TranslationId, nextTranslationId)
    && RefsBelow(translations, TranslationFile, nextFileId)
  }

  /** In consistent tables every key and every reference is below the next
      key of its table. */
  lemma TablesValidBounds(records: seq<RecordRow>, files: seq<FileRow>, translations: seq<TranslationRow>,
                          nextRecordId: int, nextFileId: int, nextTranslationId: int)
    requires TablesValid(records, files, translations, nextRecordId, nextFileId, nextTranslationId)
    ensures forall i :: 0 <= i < |records| ==> records[i].id < nextRecordId
    ensures forall i :: 0 <= i < |files| ==> files[i].id < nextFileId && files[i].recordId < nextRecordId
    ensures forall i :: 0 <= i < |translations| ==>
      translations[i].id < nextTranslationId && translations[i].fileId < nextFileId
  {
    KeysBelowOrdered(records, RecordId, nextRecordId);
    KeysBelowOrdered(files, FileId, nextFileId);
    RefsBelowAll(files, FileRecord, nextRecordId);
    KeysBelowOrdered(translations, TranslationId, nextTranslationId);
    RefsBelowAll(translations, TranslationFile, nextFileId);
  }

  class Database {
    var records: seq<RecordRow>
    var files: seq<FileRow>
    var translations: seq<TranslationRow>
    /** The stored paths present on disk. */
    var disk: set<string>
    var nextRecordId: int
    var nextFileId: int
    var nextTranslationId: int

    ghost predicate Valid()
      reads this
    {
      TablesValid(records, files, translations, nextRecordId, nextFileId, nextTranslationId)
    }

    function Snapshot(): Tables
      reads this
    {
      Tables(records, files, translations, disk)
    }

    constructor ()
      ensures Valid()
      ensures records == [] && files == [] && translations == [] && disk == {}
      ensures nextRecordId == 1 && nextFileId == 1 && nextTranslationId == 1
    {
      records := [];
      files := [];
      translations := [];
      disk := {};
      nextRecordId := 1;
      nextFileId := 1;
      nextTranslationId := 1;
    }

    /** `db.add(Record(...))` and `flush`: the row gets a key no row had. */
    method AddRecord(kind: string, note: Option<string>, createdBy: string, now: int) returns (row: RecordRow)
      requires Valid()
      modifies this`records, this`nextRecordId
      ensures Valid()
      ensures row == RecordRow(old(nextRecordId), kind, note, now, createdBy)
      ensures records == old(records) + [row]
      ensures nextRecordId == old(nextRecordId) + 1
    {
      row := RecordRow(nextRecordId, kind, note, now, createdBy);
      assert (records + [row])[..|records|] == records;
      RefsBelowGrow(files, FileRecord, nextRecordId, nextRecordId + 1);
      records := records + [row];
      nextRecordId := nextRecordId + 1;
    }

    /** `db.add(UploadedFile(...))` for an existing record. */
    method AddFile(recordId: int, name: string, path: string, fileType: string) returns (row: FileRow)
      requires Valid() && recordId < nextRecordId
      modifies this`files, this`nextFileId
      ensures Valid()
      ensures row == FileRow(old(nextFileId), recordId, name, path, fileType)
      ensures files == old(files) + [row]
      ensures nextFileId == old(nextFileId) + 1
    {
      row := FileRow(nextFileId, recordId, name, path, fileType);
      assert (files + [row])[..|files|] == files;
      RefsBelowGrow(translations, TranslationFile, nextFileId, nextFileId + 1);
      files := files + [row];
      nextFileId := nextFileId + 1;
    }

    /** `db.add(Translation(...))`. */
    method AddTranslation(fileId: int, original: string, translated: string, ocrMs: Option<int>, translationMs: Option<int>)
        returns (row: TranslationRow)
      requires Valid() && fileId < nextFileId
      modifies this`translations, this`nextTranslationId
      ensures Valid()
      ensures row == TranslationRow(old(nextTranslationId), fileId, original, translated, ocrMs, translationMs)
      ensures translations == old(translations) + [row]
      ensures nextTranslationId == old(nextTranslationId) + 1
    {
      row := TranslationRow(nextTranslationId, fileId, original, translated, ocrMs, translationMs);
      assert (translations + [row])[..|translations|] == translations;
      translations := translations + [row];
      nextTranslationId := nextTranslationId + 1;
    }

    /** Writing an uploaded file's content to its stored path. */
    method WriteFile(path: string)
      modifies this`disk
      ensures disk == old(disk) + {path}
    {
      disk := disk + {path};
    }
  }
}
