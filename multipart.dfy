/** The multipart/form-data body the admission form sends and the server
    receives: named text fields and named file parts, in order. */
module Multipart {
  /** A selected file: the name it had on the applicant's disk and its
      bytes. */
  datatype UploadFile = UploadFile(originalName: string, content: seq<bv8>)

  datatype Part = TextField(name: string, value: string) | FilePart(name: string, file: UploadFile)

  /** The text fields as the server sees them (`req.body`): each name with
      the value of its first occurrence. */
  function Fields(parts: seq<Part>): (r: map<string, string>)
    ensures forall n :: n in r <==> exists i :: 0 <= i < |parts| && parts[i].TextField? && parts[i].name == n
  {
    if parts == [] then map[]
    else
      var rest := Fields(parts[1..]);
      assert forall i :: 0 < i < |parts| ==> parts[i] == parts[1..][i - 1];
      if parts[0].TextField? then rest[parts[0].name := parts[0].value] else rest
  }

  /** The files sent under one field name (`req.files` of
      `upload.array(field)`), in body order. */
  function Files(parts: seq<Part>, field: string): (r: seq<UploadFile>)
    ensures |r| <= |parts|
  {
    if parts == [] then []
    else (if parts[0].FilePart? && parts[0].name == field then [parts[0].file] else []) + Files(parts[1..], field)
  }

  /** A text field is read back with the value of its first occurrence. */
  lemma {:induction false} FieldsFirstOccurrence(parts: seq<Part>, k: nat, n: string, v: string)
    requires k < |parts| && parts[k] == TextField(n, v)
    requires forall j :: 0 <= j < k ==> !(parts[j].TextField? && parts[j].name == n)
    ensures n in Fields(parts) && Fields(parts)[n] == v
  {
    if k > 0 {
      assert parts[1..][k - 1] == parts[k];
      assert forall j :: 0 <= j < k - 1 ==> parts[1..][j] == parts[j + 1];
      FieldsFirstOccurrence(parts[1..], k - 1, n, v);
    }
  }

  /** Text fields before the file parts do not change which files are
      read, and file parts under the field are read in order. */
  lemma {:induction false} FilesAfterFields(parts: seq<Part>, offset: nat, field: string, files: seq<UploadFile>)
    requires |parts| == offset + |files|
    requires forall i :: 0 <= i < offset ==> parts[i].TextField?
    requires forall i :: 0 <= i < |files| ==> parts[offset + i] == FilePart(field, files[i])
    ensures Files(parts, field) == files
    decreases |parts|
  {
    if parts == [] {
    } else if offset > 0 {
      var rest := parts[1..];
      assert forall i :: 0 <= i < |files| ==> rest[offset - 1 + i] == FilePart(field, files[i]);
      FilesAfterFields(rest, offset - 1, field, files);
    } else {
      var rest := parts[1..];
      assert parts[0] == FilePart(field, files[0]);
      assert forall i :: 0 <= i < |files| - 1 ==> rest[i] == FilePart(field, files[1..][i]);
      FilesAfterFields(rest, 0, field, files[1..]);
      assert files == [files[0]] + files[1..];
    }
  }
}
