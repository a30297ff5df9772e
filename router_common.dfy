/** What the two upload routers share, written identically in both: the
    extension of an uploaded filename, the all-or-nothing whitelist check of an
    upload, the `created_by` of a new record, and the guarded file download. */
module RouterCommon {
  import opened Common
  import opened Store
  import Text
  import FileUploader
  import AuthRouter

  const NoFilesDetail := "No files provided"
  const RecordNotFoundDetail := "Record not found"
  const FileNotFoundDetail := "File not found"
  const NotOnDiskDetail := "File not found on disk"

  /** `_get_extension`: the lower-cased text after the last dot, or nothing
      when the name has no dot. */
  function GetExtension(filename: string): (r: string)
    ensures '.' !in r
    ensures '.' !in filename ==> r == []
  {
    if '.' in filename then
      Text.AfterLastDotFacts(filename);
      Text.Lower(Text.AfterLastDot(filename))
    else []
  }

  /** `base.ext` has extension `ext`, lower-cased. */
  lemma GetExtensionOfDotted(base: string, ext: string)
    requires '.' !in ext
    ensures GetExtension(base + "." + ext) == Text.Lower(ext)
  {
    Text.AfterLastDotOfDotted(base, ext);
    assert (base + "." + ext)[|base|] == '.';
  }

  /** The frontend's label and the backend's extension agree on every name
      with a dot: the label is a dot followed by the extension. */
  lemma LabelIsDotExtension(name: string)
    requires '.' in name
    ensures FileUploader.ExtensionLabel(name) == "." + GetExtension(name)
  {
  }

  /** A name without a dot has no extension on the backend, while the
      frontend labels it with the whole name: a file named `pdf` passes the
      report picker and is refused by the report upload. */
  lemma DotlessNameDisagrees()
    ensures FileUploader.ExtensionLabel("pdf") == ".pdf"
    ensures GetExtension("pdf") == ""
  {
    assert '.' !in "pdf";
    FileUploader.ExtensionLabelOfUndotted("pdf");
    assert Text.Lower("pdf") == "pdf";
  }

  function InvalidTypeDetail(filename: string, allowed: seq<string>): string
  {
    "Invalid file type: " + filename + ". Allowed: " + Text.Join(allowed, ", ")
  }

  /** The verdict on one file of an upload. */
  function ExtensionVerdict(filename: string, allowed: seq<string>): Option<HttpException>
  {
    if GetExtension(filename) in allowed then None
    else Some(HttpException(400, InvalidTypeDetail(filename, allowed)))
  }

  /** Why an upload is refused before anything is stored: it is empty, or
      names the first file whose extension is not allowed. The empty case is
      the handler's own check; over HTTP, FastAPI's `File(...)` answers a
      request without files with 422 before the handler runs. */
  function UploadRejection(filenames: seq<string>, allowed: seq<string>): Option<HttpException>
  {
    if filenames == [] then Some(HttpException(400, NoFilesDetail))
    else FileUploader.FirstVerdict(filenames, n => ExtensionVerdict(n, allowed))
  }

  /** An upload is accepted exactly when it is non-empty and every extension
      is allowed; a refusal is always a 400 that names the first offender. */
  lemma UploadRejectionFacts(filenames: seq<string>, allowed: seq<string>) returns (k: nat)
    ensures UploadRejection(filenames, allowed) == None
        <==> filenames != [] && forall i :: 0 <= i < |filenames| ==> GetExtension(filenames[i]) in allowed
    ensures UploadRejection(filenames, allowed).Some? ==> UploadRejection(filenames, allowed).value.status == 400
    ensures UploadRejection(filenames, allowed).Some? && filenames != [] ==>
      && k < |filenames|
      && GetExtension(filenames[k]) !in allowed
      && UploadRejection(filenames, allowed).value.detail == InvalidTypeDetail(filenames[k], allowed)
      && forall j :: 0 <= j < k ==> GetExtension(filenames[j]) in allowed
  {
    k := 0;
    var check := n => ExtensionVerdict(n, allowed);
    if filenames != [] {
      FileUploader.FirstVerdictNoneIff(filenames, check);
      if UploadRejection(filenames, allowed).Some? {
        k := FileUploader.FirstVerdictPosition(filenames, check);
        assert forall j :: 0 <= j < k ==> check(filenames[j]) == None;
      }
    }
  }

  /** The validation loop of an upload route. */
  method ValidateUpload(filenames: seq<string>, allowed: seq<string>) returns (rejection: Option<HttpException>)
    ensures rejection == UploadRejection(filenames, allowed)
  {
    if |filenames| == 0 {
      return Some(HttpException(400, NoFilesDetail));
    }
    ghost var check := n => ExtensionVerdict(n, allowed);
    var i := 0;
    while i < |filenames|
      invariant 0 <= i <= |filenames|
      invariant UploadRejection(filenames, allowed) == FileUploader.FirstVerdict(filenames[i..], check)
    {
      FileUploader.FirstVerdictStep(filenames, i, check);
      var ext := GetExtension(filenames[i]);
      if ext !in allowed {
        return Some(HttpException(400, InvalidTypeDetail(filenames[i], allowed)));
      }
      i := i + 1;
    }
    return None;
  }

  /** The rows the upload loop adds for `filenames`, in upload order, the
      first one under key `firstId`. */
  function NewFileRows(firstId: int, recordId: int, filenames: seq<string>, storedPath: nat -> string): (rows: seq<FileRow>)
    ensures |rows| == |filenames|
  {
    if filenames == [] then []
    else
      var last := |filenames| - 1;
      NewFileRows(firstId, recordId, filenames[..last], storedPath)
        + [FileRow(firstId + last, recordId, filenames[last], storedPath(last), GetExtension(filenames[last]))]
  }

  /** The k-th new row holds the k-th name, its extension, its stored path and
      the k-th key from `firstId` on, and points at the record. */
  lemma {:induction false} NewFileRowsFacts(firstId: int, recordId: int, filenames: seq<string>, storedPath: nat -> string)
    ensures forall k :: 0 <= k < |filenames| ==>
      var row := NewFileRows(firstId, recordId, filenames, storedPath)[k];
      && row.id == firstId + k && row.recordId == recordId && row.originalFilename == filenames[k]
      && row.fileType == GetExtension(filenames[k]) && row.storedPath == storedPath(k)
    decreases |filenames|
  {
    if filenames != [] {
      var last := |filenames| - 1;
      NewFileRowsFacts(firstId, recordId, filenames[..last], storedPath);
    }
  }

  lemma NewFileRowsSnoc(firstId: int, recordId: int, filenames: seq<string>, storedPath: nat -> string, i: nat)
    requires i < |filenames|
    ensures NewFileRows(firstId, recordId, filenames[..i + 1], storedPath)
         == NewFileRows(firstId, recordId, filenames[..i], storedPath)
            + [FileRow(firstId + i, recordId, filenames[i], storedPath(i), GetExtension(filenames[i]))]
  {
    assert filenames[..i + 1][..i] == filenames[..i];
  }

  lemma AppendSnoc<T>(a: seq<T>, b: seq<T>, x: T)
    ensures a + (b + [x]) == (a + b) + [x]
  {
  }

  /** The stored paths of the first `n` files of an upload. */
  function StoredPaths(storedPath: nat -> string, n: nat): set<string>
  {
    if n == 0 then {} else StoredPaths(storedPath, n - 1) + {storedPath(n - 1)}
  }

  /** They are exactly the paths `storedPath(k)` for `k` below `n`. */
  lemma {:induction false} StoredPathsMembers(storedPath: nat -> string, n: nat)
    ensures StoredPaths(storedPath, n) == set k | 0 <= k < n :: storedPath(k)
  {
    if n > 0 {
      StoredPathsMembers(storedPath, n - 1);
      assert (set k | 0 <= k < n :: storedPath(k)) == (set k | 0 <= k < n - 1 :: storedPath(k)) + {storedPath(n - 1)};
    }
  }

  lemma UnionSnoc<T>(a: set<T>, b: set<T>, x: T)
    ensures a + (b + {x}) == (a + b) + {x}
  {
  }


  /** The tables and the disk hold the first `i` files of an upload that
      started from `files0` and `disk0` with next file key `firstId`. */
  ghost predicate Stored(db: Database, files0: seq<FileRow>, disk0: set<string>, firstId: int, recordId: int,
                         filenames: seq<string>, storedPath: nat -> string, i: nat)
    requires i <= |filenames|
    reads db
  {
    && db.Valid() && recordId < db.nextRecordId
    && db.files == files0 + NewFileRows(firstId, recordId, filenames[..i], storedPath)
    && db.disk == disk0 + StoredPaths(storedPath, i)
    && db.nextFileId == firstId + i
  }

  /** One turn of the upload loop: the i-th file's content is written to its
      stored path, then its row is added under the next file key. */
  method StoreFile(db: Database, recordId: int, filenames: seq<string>, storedPath: nat -> string, i: nat,
                   ghost files0: seq<FileRow>, ghost disk0: set<string>, ghost firstId: int)
    requires i < |filenames| && Stored(db, files0, disk0, firstId, recordId, filenames, storedPath, i)
    modifies db`files, db`nextFileId, db`disk
    ensures Stored(db, files0, disk0, firstId, recordId, filenames, storedPath, i + 1)
  {
    var ext := GetExtension(filenames[i]);
    db.WriteFile(storedPath(i));
    var row := db.AddFile(recordId, filenames[i], storedPath(i), ext);
    NewFileRowsSnoc(firstId, recordId, filenames, storedPath, i);
    AppendSnoc(files0, NewFileRows(firstId, recordId, filenames[..i], storedPath), row);
    UnionSnoc(disk0, StoredPaths(storedPath, i), storedPath(i));
  }

  /** The loop of both upload routes that writes each file to its stored
      path (`storedPath(i)` for the i-th file, a fresh name in the source) and
      adds its row to the record, in upload order. */
  method StoreFiles(db: Database, recordId: int, filenames: seq<string>, storedPath: nat -> string)
      returns (added: seq<FileRow>)
    requires db.Valid() && recordId < db.nextRecordId
    modifies db`files, db`nextFileId, db`disk
    ensures db.Valid()
    ensures added == NewFileRows(old(db.nextFileId), recordId, filenames, storedPath)
    ensures db.files == old(db.files) + added
    ensures db.disk == old(db.disk) + StoredPaths(storedPath, |filenames|)
    ensures db.nextFileId == old(db.nextFileId) + |added|
  {
    var before := |db.files|;
    var i := 0;
    assert filenames[..0] == [];
    while i < |filenames|
      invariant 0 <= i <= |filenames|
      invariant Stored(db, old(db.files), old(db.disk), old(db.nextFileId), recordId, filenames, storedPath, i)
    {
      StoreFile(db, recordId, filenames, storedPath, i, old(db.files), old(db.disk), old(db.nextFileId));
      i := i + 1;
    }
    assert filenames[..i] == filenames;
    added := db.files[before..];
  }

  /** The part of both upload routes before the answer: validation of the
      names against the router's whitelist, then the record of the route's kind
      for the current user, then each file written to its stored path with a
      row of its own. A refused upload stores nothing. */
  method StoreUpload(db: Database, kind: string, allowed: seq<string>, filenames: seq<string>,
                     patientNote: Option<string>, currentUser: AuthRouter.UserDict, now: int,
                     storedPath: nat -> string)
      returns (rejection: Option<HttpException>, record: RecordRow, items: seq<FileRow>)
    requires db.Valid()
    modifies db`records, db`nextRecordId, db`files, db`nextFileId, db`disk
    ensures db.Valid()
    ensures rejection == UploadRejection(filenames, allowed)
    ensures rejection.Some? ==>
      db.records == old(db.records) && db.files == old(db.files) && db.disk == old(db.disk)
    ensures rejection.None? ==>
      && record == RecordRow(old(db.nextRecordId), kind, patientNote, now, CreatedBy(currentUser))
      && db.records == old(db.records) + [record]
      && db.files == old(db.files) + items && |items| == |filenames|
      && (forall k :: 0 <= k < |filenames| ==>
            && items[k].id == old(db.nextFileId) + k && items[k].recordId == record.id
            && items[k].originalFilename == filenames[k] && items[k].fileType == GetExtension(filenames[k])
            && items[k].storedPath == storedPath(k))
      && db.nextFileId == old(db.nextFileId) + |filenames|
      && db.disk == old(db.disk) + StoredPaths(storedPath, |filenames|)
  {
    rejection := ValidateUpload(filenames, allowed);
    if rejection.Some? {
      record := RecordRow(0, kind, patientNote, now, "");
      items := [];
      return;
    }
    var username := CreatedBy(currentUser);
    record := db.AddRecord(kind, patientNote, username, now);
    items := StoreFiles(db, record.id, filenames, storedPath);
    NewFileRowsFacts(old(db.nextFileId), record.id, filenames, storedPath);
  }

  /** `current_user.get("username", current_user.get("email", "unknown"))`. */
  function CreatedBy(user: AuthRouter.UserDict): (r: string)
    ensures "username" in user ==> r == user["username"]
    ensures "username" !in user && "email" in user ==> r == user["email"]
    ensures "username" !in user && "email" !in user ==> r == "unknown"
  {
    if "username" in user then user["username"]
    else if "email" in user then user["email"]
    else "unknown"
  }

  /** The download URL of a stored file under a router's prefix. */
  function DownloadUrl(prefix: string, fileId: int): string
  {
    prefix + Text.IntToString(fileId)
  }

  /** The download routes: the file row to serve, or 404 when the id is
      unknown, when its record is not of the router's kind, or when the
      stored copy is missing. */
  function DownloadFile(t: Tables, kind: string, fileId: int): (r: RouteResult<FileRow>)
    ensures FindFile(t.files, fileId).None? ==> r == Reject(HttpException(404, FileNotFoundDetail))
    ensures r.Answer? <==>
      && FindFile(t.files, fileId).Some?
      && FindRecord(t.records, FindFile(t.files, fileId).value.recordId, kind).Some?
      && FindFile(t.files, fileId).value.storedPath in t.disk
    ensures r.Answer? ==> r.body.id == fileId && r.body in t.files
    ensures r.Reject? ==> r.error.status == 404
  {
    match FindFile(t.files, fileId)
    case None => Reject(HttpException(404, FileNotFoundDetail))
    case Some(f) =>
      if FindRecord(t.records, f.recordId, kind).None? then Reject(HttpException(404, FileNotFoundDetail))
      else if f.storedPath !in t.disk then Reject(HttpException(404, NotOnDiskDetail))
      else Answer(f)
  }

  /** A file of one kind of record is never served by the other router. */
  lemma DownloadStaysInItsKind(t: Tables, fileId: int)
    requires DownloadFile(t, "radiology", fileId).Answer?
    requires forall i, j :: 0 <= i < j < |t.records| ==> t.records[i].id != t.records[j].id
    ensures DownloadFile(t, "report", fileId).Reject?
  {
    var f := FindFile(t.files, fileId).value;
    var r := FindRecord(t.records, f.recordId, "radiology").value;
    var i :| 0 <= i < |t.records| && t.records[i] == r;
  }
}
