/** The radiology router: upload of images (stored as they are, no text
    processing), the list of radiology records, one record with its files, and
    the download of a stored image. Every route is behind `get_current_user`;
    the routes here receive the resolved user. */
module RadiologyRouter {
  import opened Common
  import opened Payloads
  import opened Store
  import opened RouterCommon
  import AuthRouter
  import Sorting

  const Allowed := ["jpg", "jpeg", "png", "bmp", "dcm"]
  const FilesPrefix := "/api/radiology/files/"

  function FileEntryOf(f: FileRow): FileEntry
  {
    FileEntry(f.id, f.originalFilename, f.fileType, DownloadUrl(FilesPrefix, f.id), None)
  }

  /** The body the upload and the detail route both return for a record. */
  function DetailOf(r: RecordRow, files: seq<FileRow>): (d: RecordDetail)
    ensures |d.files| == |files|
  {
    RecordDetail(r.id, r.recordType, r.patientNote, r.createdAt, r.createdBy,
                 seq(|files|, i requires 0 <= i < |files| => FileEntryOf(files[i])))
  }

  function ListEntryOf(t: Tables, r: RecordRow): ListEntry
  {
    ListEntry(r.id, r.patientNote, r.createdAt, r.createdBy, |FilesOf(t.files, r.id)|, None)
  }

  /** `list_radiology_records`. */
  function ListRadiologyRecords(t: Tables): (r: seq<ListEntry>)
    ensures |r| == |RecordsOfKind(t.records, RadiologyKind)|
    ensures forall i :: 0 <= i < |r| ==> r[i] == ListEntryOf(t, RecordsOfKind(t.records, RadiologyKind)[i])
  {
    var rows := RecordsOfKind(t.records, RadiologyKind);
    seq(|rows|, i requires 0 <= i < |rows| => ListEntryOf(t, rows[i]))
  }

  /** The list holds one entry per radiology record and nothing else, newest
      first, each counting that record's files. */
  lemma ListFacts(t: Tables)
    ensures var list := ListRadiologyRecords(t);
      && |list| == |OfKind(t.records, RadiologyKind)|
      && (forall i, j :: 0 <= i < j < |list| ==> list[i].createdAt >= list[j].createdAt)
      && (set e | e in list) == (set r | r in t.records && r.recordType == RadiologyKind :: ListEntryOf(t, r))
  {
    RecordsOfKindFacts(t.records, RadiologyKind);
    ListOrder(t);
    ListOnlyOfKind(t);
    ListEveryOfKind(t);
  }

  /** The list runs newest first. */
  lemma ListOrder(t: Tables)
    ensures forall i, j :: 0 <= i < j < |ListRadiologyRecords(t)| ==> ListRadiologyRecords(t)[i].createdAt >= ListRadiologyRecords(t)[j].createdAt
  {
    var rows := RecordsOfKind(t.records, RadiologyKind);
    RecordsOfKindFacts(t.records, RadiologyKind);
    forall i, j | 0 <= i < j < |ListRadiologyRecords(t)| ensures ListRadiologyRecords(t)[i].createdAt >= ListRadiologyRecords(t)[j].createdAt {
      assert CreatedAt(rows[i]) >= CreatedAt(rows[j]);
    }
  }

  /** Every entry is the entry of a radiology record. */
  lemma ListOnlyOfKind(t: Tables)
    ensures forall e :: e in ListRadiologyRecords(t) ==>
      e in (set r | r in t.records && r.recordType == RadiologyKind :: ListEntryOf(t, r))
  {
    var rows := RecordsOfKind(t.records, RadiologyKind);
    var list := ListRadiologyRecords(t);
    RecordsOfKindFacts(t.records, RadiologyKind);
    forall e | e in list ensures e in (set r | r in t.records && r.recordType == RadiologyKind :: ListEntryOf(t, r)) {
      var i :| 0 <= i < |list| && list[i] == e;
      assert rows[i] in rows;
    }
  }

  /** Every radiology record has its entry in the list. */
  lemma ListEveryOfKind(t: Tables)
    ensures forall r :: r in t.records && r.recordType == RadiologyKind ==> ListEntryOf(t, r) in ListRadiologyRecords(t)
  {
    var rows := RecordsOfKind(t.records, RadiologyKind);
    var list := ListRadiologyRecords(t);
    RecordsOfKindFacts(t.records, RadiologyKind);
    forall r | r in t.records && r.recordType == RadiologyKind ensures ListEntryOf(t, r) in list {
      var i :| 0 <= i < |rows| && rows[i] == r;
      assert list[i] == ListEntryOf(t, r);
    }
  }


  /** `get_radiology_record`: 404 unless a radiology record has that id. */
  function GetRadiologyRecord(t: Tables, id: int): (r: RouteResult<RecordDetail>)
    ensures r.Reject? <==> forall i :: 0 <= i < |t.records| ==> !(t.records[i].id == id && t.records[i].recordType == RadiologyKind)
    ensures r.Reject? ==> r.error == HttpException(404, RecordNotFoundDetail)
    ensures r.Answer? ==> r.body.id == id && r.body.recordType == RadiologyKind
  {
    match FindRecord(t.records, id, RadiologyKind)
    case None => Reject(HttpException(404, RecordNotFoundDetail))
    case Some(row) => Answer(DetailOf(row, FilesOf(t.files, row.id)))
  }

  /** `download_radiology_file`. */
  function DownloadRadiologyFile(t: Tables, fileId: int): RouteResult<FileRow>
  {
    DownloadFile(t, RadiologyKind, fileId)
  }

  /** `upload_radiology`. The uploaded names are validated first; a refused
      upload stores nothing. Otherwise a radiology record is created for the
      current user, each file is written to its stored path (`storedPath(i)`
      for the i-th file, a fresh name in the source) and given a row, and the
      answer is the new record with its files, as the detail route will return
      it. */
  method UploadRadiology(db: Database, filenames: seq<string>, patientNote: Option<string>,
                         currentUser: AuthRouter.UserDict, now: int, storedPath: nat -> string)
      returns (r: RouteResult<RecordDetail>)
    requires db.Valid()
    modifies db
    ensures db.Valid()
    ensures UploadRejection(filenames, Allowed).Some? ==>
      && r == Reject(UploadRejection(filenames, Allowed).value)
      && db.records == old(db.records) && db.files == old(db.files) && db.disk == old(db.disk)
    ensures UploadRejection(filenames, Allowed).None? ==>
      |db.files| == |old(db.files)| + |filenames| && db.files[..|old(db.files)|] == old(db.files)
    ensures UploadRejection(filenames, Allowed).None? ==>
      var record := RecordRow(old(db.nextRecordId), RadiologyKind, patientNote, now, CreatedBy(currentUser));
      var added := db.files[|old(db.files)|..];
      && db.records == old(db.records) + [record]
      && (forall k :: 0 <= k < |old(db.records)| ==> old(db.records)[k].id < record.id)
      && (forall k :: 0 <= k < |filenames| ==>
            && added[k].id == old(db.nextFileId) + k && added[k].recordId == record.id
            && added[k].originalFilename == filenames[k] && added[k].fileType == GetExtension(filenames[k])
            && added[k].storedPath == storedPath(k))
      && db.disk == old(db.disk) + StoredPaths(storedPath, |filenames|)
      && r == Answer(DetailOf(record, added))
      && r == GetRadiologyRecord(db.Snapshot(), record.id)
    ensures db.translations == old(db.translations)
  {
    TablesValidBounds(db.records, db.files, db.translations, db.nextRecordId, db.nextFileId, db.nextTranslationId);
    var rejection, record, added := StoreUpload(db, RadiologyKind, Allowed, filenames, patientNote,
                                                currentUser, now, storedPath);
    if rejection.Some? {
      return Reject(rejection.value);
    }
    UploadAnswerIsDetail(old(db.records), record, old(db.files), added, db.Snapshot());
    assert db.files[|old(db.files)|..] == added;
    r := Answer(DetailOf(record, added));
  }

  /** After an upload the detail route finds the new record and exactly the
      files just added. */
  lemma UploadAnswerIsDetail(oldRecords: seq<RecordRow>, record: RecordRow, before: seq<FileRow>,
                             added: seq<FileRow>, t: Tables)
    requires forall k :: 0 <= k < |oldRecords| ==> oldRecords[k].id < record.id
    requires forall k :: 0 <= k < |before| ==> before[k].recordId < record.id
    requires forall k :: 0 <= k < |added| ==> added[k].recordId == record.id
    requires record.recordType == RadiologyKind
    requires t.records == oldRecords + [record] && t.files == before + added
    ensures FilesOf(t.files, record.id) == added
    ensures GetRadiologyRecord(t, record.id) == Answer(DetailOf(record, added))
  {
    FilesOfAppend(before, added, record.id);
    FilesOfAllPointing(added, record.id);
    FilesOfNonePointing(before, record.id);
    FindRecordSkips(oldRecords, [record], record.id, RadiologyKind);
  }
}
