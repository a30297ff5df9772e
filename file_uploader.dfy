/** The file picker component used by the upload pages: it validates a
    chosen batch against an extension whitelist and a size ceiling, keeps the
    list of selected files, and reports every new list to its parent through
    the `onFilesSelected` callback. */
module FileUploader {
  import opened Common
  import Text

  /** A browser `File`, as far as the uploader looks at it. */
  datatype File = File(name: string, size: nat)

  /** The label the whitelist is matched against: a dot followed by the
      lower-cased last dot-separated segment of the name. */
  function ExtensionLabel(name: string): string
  {
    "." + Text.Lower(Text.AfterLastDot(name))
  }

  /** A name `base.ext` is matched on `.ext`, lower-cased, whatever `base` is. */
  lemma ExtensionLabelOfDotted(base: string, ext: string)
    requires '.' !in ext
    ensures ExtensionLabel(base + "." + ext) == "." + Text.Lower(ext)
  {
    Text.AfterLastDotOfDotted(base, ext);
  }

  /** A name without a dot is matched on `.` followed by the whole name. */
  lemma ExtensionLabelOfUndotted(name: string)
    requires '.' !in name
    ensures ExtensionLabel(name) == "." + Text.Lower(name)
  {
    Text.AfterLastDotOfUndotted(name);
  }

  /** Why a batch was refused, naming the first offending file. */
  datatype Rejection = UnsupportedType(file: File) | TooLarge(file: File)

  function MaxBytes(maxSizeMB: nat): nat
  {
    maxSizeMB * 1024 * 1024
  }

  /** The check one file must pass: extension first, then size. */
  function Check(f: File, acceptedTypes: seq<string>, maxBytes: nat): Option<Rejection>
  {
    if ExtensionLabel(f.name) !in acceptedTypes then Some(UnsupportedType(f))
    else if f.size > maxBytes then Some(TooLarge(f))
    else None
  }

  /** The first verdict `check` gives, in sequence order, that is not `None`. */
  function FirstVerdict<T, R>(s: seq<T>, check: T -> Option<R>): Option<R>
  {
    if s == [] then None
    else if check(s[0]).Some? then check(s[0])
    else FirstVerdict(s[1..], check)
  }

  /** No verdict exactly when every element passes. */
  lemma {:induction false} FirstVerdictNoneIff<T, R>(s: seq<T>, check: T -> Option<R>)
    ensures FirstVerdict(s, check) == None <==> forall i :: 0 <= i < |s| ==> check(s[i]) == None
  {
    if s != [] {
      var t := s[1..];
      FirstVerdictNoneIff(t, check);
      if FirstVerdict(s, check) == None {
        forall i | 0 <= i < |s| ensures check(s[i]) == None {
          if i > 0 { assert s[i] == t[i - 1]; }
        }
      }
      if forall i :: 0 <= i < |s| ==> check(s[i]) == None {
        forall i | 0 <= i < |t| ensures check(t[i]) == None {
          assert t[i] == s[i + 1];
        }
      }
    }
  }

  /** A verdict is that of some element preceded only by passing ones. */
  lemma {:induction false} FirstVerdictPosition<T, R>(s: seq<T>, check: T -> Option<R>) returns (k: nat)
    requires FirstVerdict(s, check).Some?
    ensures k < |s| && check(s[k]) == FirstVerdict(s, check)
    ensures forall j :: 0 <= j < k ==> check(s[j]) == None
  {
    if check(s[0]).Some? {
      k := 0;
    } else {
      var t := s[1..];
      var k' := FirstVerdictPosition(t, check);
      k := k' + 1;
      assert s[k] == t[k'];
      forall j | 0 <= j < k ensures check(s[j]) == None {
        if j > 0 { assert s[j] == t[j - 1]; }
      }
    }
  }

  /** The verdict of an element preceded only by passing ones is the first. */
  lemma {:induction false} FirstVerdictAt<T, R>(s: seq<T>, check: T -> Option<R>, k: nat)
    requires k < |s| && check(s[k]).Some?
    requires forall j :: 0 <= j < k ==> check(s[j]) == None
    ensures FirstVerdict(s, check) == check(s[k])
  {
    if k > 0 {
      var t := s[1..];
      assert check(s[0]) == None;
      forall j | 0 <= j < k - 1 ensures check(t[j]) == None {
        assert t[j] == s[j + 1];
      }
      assert t[k - 1] == s[k];
      FirstVerdictAt(t, check, k - 1);
    }
  }

  lemma FirstVerdictStep<T, R>(s: seq<T>, i: nat, check: T -> Option<R>)
    requires i < |s|
    ensures FirstVerdict(s[i..], check) == if check(s[i]).Some? then check(s[i]) else FirstVerdict(s[i + 1..], check)
  {
    assert s[i..][1..] == s[i + 1..];
  }

  /** `Check` with the whitelist and ceiling fixed. */
  function Checker(acceptedTypes: seq<string>, maxBytes: nat): File -> Option<Rejection>
  {
    f => Check(f, acceptedTypes, maxBytes)
  }

  /** The rejection of the first file, in batch order, that fails its check. */
  function FirstRejection(batch: seq<File>, acceptedTypes: seq<string>, maxBytes: nat): Option<Rejection>
  {
    FirstVerdict(batch, Checker(acceptedTypes, maxBytes))
  }

  /** A batch passes exactly when every one of its files passes. */
  lemma FirstRejectionNoneIff(batch: seq<File>, acceptedTypes: seq<string>, maxBytes: nat)
    ensures FirstRejection(batch, acceptedTypes, maxBytes) == None
        <==> forall i :: 0 <= i < |batch| ==> Check(batch[i], acceptedTypes, maxBytes) == None
  {
    FirstVerdictNoneIff(batch, Checker(acceptedTypes, maxBytes));
  }

  /** All or nothing: a rejection is that of a file of the batch which is
      preceded only by files that pass, wherever it stands. */
  lemma FirstRejectionNamesFirstFailure(batch: seq<File>, acceptedTypes: seq<string>, maxBytes: nat)
      returns (k: nat)
    requires FirstRejection(batch, acceptedTypes, maxBytes).Some?
    ensures k < |batch|
    ensures Check(batch[k], acceptedTypes, maxBytes) == FirstRejection(batch, acceptedTypes, maxBytes)
    ensures forall j :: 0 <= j < k ==> Check(batch[j], acceptedTypes, maxBytes) == None
  {
    k := FirstVerdictPosition(batch, Checker(acceptedTypes, maxBytes));
  }

  /** The ceiling is strict: a file of exactly `maxSizeMB` MiB passes, one byte
      more is refused. */
  lemma SizeCeilingIsStrict(name: string, acceptedTypes: seq<string>, maxSizeMB: nat)
    requires ExtensionLabel(name) in acceptedTypes
    ensures Check(File(name, maxSizeMB * 1048576), acceptedTypes, MaxBytes(maxSizeMB)) == None
    ensures Check(File(name, maxSizeMB * 1048576 + 1), acceptedTypes, MaxBytes(maxSizeMB)).Some?
  {
  }

  /** The message shown for a rejection. */
  function Message(r: Rejection, acceptedTypes: seq<string>, maxSizeMB: nat): string
  {
    match r
    case UnsupportedType(f) =>
      "\"" + f.name + "\" desteklenmeyen dosya tipi. Kabul edilen: " + Text.Join(acceptedTypes, ", ")
    case TooLarge(f) =>
      "\"" + f.name + "\" dosya boyutu " + Text.NatToString(maxSizeMB) + "MB limitini aşıyor."
  }

  class Uploader {
    const acceptedTypes: seq<string>
    const multiple: bool
    const maxSizeMB: nat
    /** The selected files. */
    var files: seq<File>
    /** The error line shown under the drop zone. */
    var error: Option<string>
    /** Every list passed to `onFilesSelected`, in call order. */
    var reported: seq<seq<File>>

    constructor (acceptedTypes: seq<string>, multiple: bool, maxSizeMB: nat)
      ensures this.acceptedTypes == acceptedTypes && this.multiple == multiple && this.maxSizeMB == maxSizeMB
      ensures files == [] && error == None && reported == []
    {
      this.acceptedTypes := acceptedTypes;
      this.multiple := multiple;
      this.maxSizeMB := maxSizeMB;
      files := [];
      error := None;
      reported := [];
    }

    /** Returns the whole batch, in order, when every file passes, and clears
        the error; otherwise returns nothing and shows the first failure. */
    method ValidateFiles(batch: seq<File>) returns (valid: seq<File>)
      modifies this`error
      ensures FirstRejection(batch, acceptedTypes, MaxBytes(maxSizeMB)) == None ==> valid == batch && error == None
      ensures FirstRejection(batch, acceptedTypes, MaxBytes(maxSizeMB)).Some? ==>
        valid == [] && error == Some(Message(FirstRejection(batch, acceptedTypes, MaxBytes(maxSizeMB)).value, acceptedTypes, maxSizeMB))
    {
      valid := [];
      var maxBytes := MaxBytes(maxSizeMB);
      var i := 0;
      while i < |batch|
        invariant 0 <= i <= |batch|
        invariant valid == batch[..i]
        invariant forall j :: 0 <= j < i ==> Check(batch[j], acceptedTypes, maxBytes) == None
      {
        var file := batch[i];
        var ext := ExtensionLabel(file.name);
        if ext !in acceptedTypes {
          FirstVerdictAt(batch, Checker(acceptedTypes, maxBytes), i);
          error := Some(Message(UnsupportedType(file), acceptedTypes, maxSizeMB));
          return [];
        }
        if file.size > maxBytes {
          FirstVerdictAt(batch, Checker(acceptedTypes, maxBytes), i);
          error := Some(Message(TooLarge(file), acceptedTypes, maxSizeMB));
          return [];
        }
        assert batch[..i + 1] == batch[..i] + [file];
        valid := valid + [file];
        i := i + 1;
      }
      FirstRejectionNoneIff(batch, acceptedTypes, maxBytes);
      assert valid == batch;
      error := None;
    }

    /** A refused or empty batch changes neither the list nor the parent; an
        accepted one is appended (`multiple`) or replaces the list, and the new
        list is reported. */
    method HandleFiles(batch: seq<File>)
      modifies this`error, this`files, this`reported
      ensures var verdict := FirstRejection(batch, acceptedTypes, MaxBytes(maxSizeMB));
        if verdict == None && batch != [] then
          && files == (if multiple then old(files) + batch else batch)
          && reported == old(reported) + [files]
          && error == None
        else
          && files == old(files)
          && reported == old(reported)
          && error == (if verdict == None then None else Some(Message(verdict.value, acceptedTypes, maxSizeMB)))
    {
      var validated := ValidateFiles(batch);
      if |validated| == 0 {
        return;
      }
      var newFiles := if multiple then files + validated else validated;
      files := newFiles;
      reported := reported + [newFiles];
    }

    /** Keeps every file but the one at `index` (none, when out of range), in
        order, and reports the new list. */
    method RemoveFile(index: int)
      modifies this`files, this`reported
      ensures 0 <= index < |old(files)| ==> files == old(files)[..index] + old(files)[index + 1..]
      ensures !(0 <= index < |old(files)|) ==> files == old(files)
      ensures reported == old(reported) + [files]
    {
      var newFiles: seq<File> := [];
      var i := 0;
      while i < |files|
        invariant 0 <= i <= |files|
        invariant newFiles == if 0 <= index < i then files[..index] + files[index + 1..i] else files[..i]
      {
        if i != index {
          newFiles := newFiles + [files[i]];
        }
        i := i + 1;
      }
      assert files[..|files|] == files;
      files := newFiles;
      reported := reported + [newFiles];
    }
  }
}
