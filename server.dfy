/** The backend's two POST handlers with logic of their own: the chat
    endpoint's guard and status mapping, and the admission endpoint's
    database/filesystem/mail sequence, with its naming rule for stored
    uploads and its attachment list. The model client, the database, the
    filesystem and the mailer are parameters that say how each call ends. */
module Server {
  import opened Wrappers
  import opened Multipart
  import Text
  import ApiConfig

  // ---------------------------------------------------------------------------
  // POST /api/chat
  // ---------------------------------------------------------------------------

  const EmptyMessageError: string := "Tin nhắn trống"
  const BusyReply: string := "Hệ thống đang bận, vui lòng thử lại sau."

  /** How the call to the language model ends: with the answer's text, or
      with an exception anywhere in the chat session. */
  datatype ModelOutcome = Answered(text: string) | ModelFailed

  datatype ChatBody = ChatError(error: string) | ChatReply(reply: string)

  /** The response, and whether the model was consulted at all. */
  datatype ChatResponse = ChatResponse(status: nat, body: ChatBody, modelCalled: bool)

  /** The chat handler: a missing or empty `message` is rejected with 400
      before the model is consulted; otherwise the model's text is the
      reply, and a model failure is a 500 carrying the fixed busy reply. */
  function HandleChat(message: Option<string>, model: ModelOutcome): (r: ChatResponse)
    ensures r.status == 400 <==> !ApiConfig.Truthy(message)
    ensures r.modelCalled <==> ApiConfig.Truthy(message)
    ensures r.status == 400 ==> r.body == ChatError(EmptyMessageError)
    ensures r.status != 400 ==> r.body.ChatReply?
    ensures r.status == 500 <==> ApiConfig.Truthy(message) && model.ModelFailed?
    ensures r.status == 500 ==> r.body == ChatReply(BusyReply)
    ensures ApiConfig.Truthy(message) && model.Answered? ==>
      r.status == 200 && r.body == ChatReply(model.text)
  {
    if !ApiConfig.Truthy(message) then ChatResponse(400, ChatError(EmptyMessageError), false)
    else match model
      case Answered(text) => ChatResponse(200, ChatReply(text), true)
      case ModelFailed => ChatResponse(500, ChatReply(BusyReply), true)
  }

  // ---------------------------------------------------------------------------
  // Upload naming
  // ---------------------------------------------------------------------------

  /** Node's POSIX `path.extname`: trailing slashes are ignored; in the last
      path segment, the text from the last dot on, unless there is no dot,
      the only dot starts the segment, or the segment is "..". */
  function Extname(path: string): (r: string)
    ensures r == [] || r[0] == '.'
    ensures '/' !in r
  {
    var base := Text.AfterLast(ApiConfig.TrimTrailingSlashes(path), '/');
    match Text.LastIndexOf(base, '.')
    case None => ""
    case Some(d) =>
      if d == 0 || base == ".." then ""
      else
        assert forall i :: 0 <= i < |base| - d ==> base[d..][i] == base[d + i];
        base[d..]
  }

  /** `path.extname(name) || ".jpg"`. */
  function StoredExtension(originalName: string): (r: string)
    ensures |r| > 0 && r[0] == '.'
  {
    var ext := Extname(originalName);
    if ext == "" then ".jpg" else ext
  }

  /** The name the `index`-th upload is stored under: its 1-based position,
      then the extension. */
  function StoredName(index: nat, originalName: string): (r: string)
    ensures |r| > 0 && Text.IsDigit(r[0])
  {
    Text.Decimal(index + 1) + StoredExtension(originalName)
  }

  /** The per-submission folder, relative to the server directory. */
  function UserFolder(id: nat): string {
    "public/user/admission_" + Text.Decimal(id)
  }

  /** `path.join(dir, name)` for a plain file name. */
  function Join(dir: string, name: string): string {
    dir + "/" + name
  }

  const InfoFileName: string := "info.json"

  function InfoPath(id: nat): string {
    Join(UserFolder(id), InfoFileName)
  }

  function UploadPath(id: nat, index: nat, originalName: string): string {
    Join(UserFolder(id), StoredName(index, originalName))
  }

  /** For a name with no slash, the whole name is the last segment. */
  lemma ExtnameOfPlainName(name: string)
    requires '/' !in name
    ensures Extname(name) ==
      match Text.LastIndexOf(name, '.')
      case None => ""
      case Some(d) => if d == 0 || name == ".." then "" else name[d..]
  {
    assert name == [] || name[|name| - 1] != '/';
    assert ApiConfig.TrimTrailingSlashes(name) == name;
    Text.AfterLastWhole(name, '/');
  }

  /** A file name with a plain extension keeps it: "scan.PDF" gives ".PDF". */
  lemma ExtnameOfDotted(stem: string, ext: string)
    requires stem != [] && stem != "."
    requires '/' !in stem && '/' !in ext && '.' !in ext
    ensures Extname(stem + "." + ext) == "." + ext
  {
    var name := stem + "." + ext;
    var d := |stem|;
    assert name[d] == '.' && name[d + 1..] == ext && name[d..] == "." + ext;
    assert '/' !in name by {
      forall i | 0 <= i < |name| ensures name[i] != '/' {
        if i < d { assert name[i] == stem[i]; }
        else if i > d { assert name[i] == ext[i - d - 1]; }
      }
    }
    ExtnameOfPlainName(name);
    Text.LastIndexOfIs(name, '.', d);
    assert name != ".." by {
      if |name| == 2 { assert stem == name[..1]; }
    }
  }

  /** A name without a dot, or a dot-file such as ".env", has no extension,
      so its upload is stored as ".jpg". */
  lemma StoredAsJpegWithoutExtension(originalName: string)
    requires '/' !in originalName
    requires '.' !in originalName || (|originalName| > 1 && originalName[0] == '.' && '.' !in originalName[1..])
    ensures StoredExtension(originalName) == ".jpg"
  {
    ExtnameOfPlainName(originalName);
    if '.' in originalName {
      Text.LastIndexOfIs(originalName, '.', 0);
    }
  }

  /** Two digit strings each followed by a text starting with a dot can only
      be equal when the digit strings are. */
  lemma DigitsBeforeDot(d1: string, e1: string, d2: string, e2: string)
    requires Text.AllDigits(d1) && Text.AllDigits(d2)
    requires |e1| > 0 && e1[0] == '.' && |e2| > 0 && e2[0] == '.'
    requires d1 + e1 == d2 + e2
    ensures d1 == d2
  {
    if |d1| < |d2| {
      CharAfterShorter(d1, e1, d2, e2);
      assert false;
    } else if |d2| < |d1| {
      CharAfterShorter(d2, e2, d1, e1);
      assert false;
    }
    assert d1 == (d1 + e1)[..|d1|];
  }

  lemma CharAfterShorter(d1: string, e1: string, d2: string, e2: string)
    requires d1 + e1 == d2 + e2 && |d1| < |d2|
    ensures e1[0] == d2[|d1|]
  {
    assert (d1 + e1)[|d1|] == e1[0];
  }

  /** Different positions are stored under different names, whatever the
      original names were. */
  lemma StoredNamesDistinct(i: nat, j: nat, a: string, b: string)
    requires i != j
    ensures StoredName(i, a) != StoredName(j, b)
  {
    var di, dj := Text.Decimal(i + 1), Text.Decimal(j + 1);
    var ea, eb := StoredExtension(a), StoredExtension(b);
    if di + ea == dj + eb {
      DigitsBeforeDot(di, ea, dj, eb);
      Text.DecimalInjective(i + 1, j + 1);
    }
  }

  /** Within one submission, no two stored files share a path, and no upload
      overwrites `info.json`. */
  lemma StoredPathsDistinct(id: nat, i: nat, j: nat, a: string, b: string)
    ensures i != j ==> UploadPath(id, i, a) != UploadPath(id, j, b)
    ensures UploadPath(id, i, a) != InfoPath(id)
  {
    var dir := UserFolder(id);
    var x, y := StoredName(i, a), StoredName(j, b);
    JoinInjective(dir, x, y);
    JoinInjective(dir, x, InfoFileName);
    if i != j {
      StoredNamesDistinct(i, j, a, b);
    }
    assert x != InfoFileName by {
      assert Text.IsDigit(x[0]);
    }
  }

  lemma JoinInjective(dir: string, x: string, y: string)
    ensures Join(dir, x) == Join(dir, y) <==> x == y
  {
    var p := dir + "/";
    if Join(dir, x) == Join(dir, y) {
      assert x == (p + x)[|p|..];
      assert y == (p + y)[|p|..];
    }
  }

  // ---------------------------------------------------------------------------
  // POST /api/admission
  // ---------------------------------------------------------------------------

  const DatabaseError: string := "Lỗi lưu Database"
  const SavedAndMailed: string := "Nộp hồ sơ và gửi email thành công!"
  const SavedMailFailed: string := "Lưu hồ sơ thành công (Lỗi gửi mail)"

  datatype JsonValue = JString(s: string) | JNumber(n: int)

  /** `{ ...req.body, id, submitted_at }`: the text fields, then the id and
      the timestamp, which override fields of the same name. */
  function InfoData(fields: map<string, string>, id: nat, submittedAt: string): (r: map<string, JsonValue>)
    ensures r.Keys == fields.Keys + {"id", "submitted_at"}
    ensures r["id"] == JNumber(id) && r["submitted_at"] == JString(submittedAt)
    ensures forall k :: k in fields && k != "id" && k != "submitted_at" ==> r[k] == JString(fields[k])
  {
    (map k | k in fields :: JString(fields[k]))["id" := JNumber(id)]["submitted_at" := JString(submittedAt)]
  }

  datatype StoredFile =
    | InfoFile(path: string, info: map<string, JsonValue>)
    | UploadCopy(path: string, content: seq<bv8>)

  datatype Attachment = Attachment(filename: string, path: string)

  datatype AdmissionBody = AdmissionError(error: string) | AdmissionSaved(message: string, id: nat)

  /** The response, every file written in order, the mail's attachment list,
      and whether the mail went out. */
  datatype AdmissionResult = AdmissionResult(
    status: nat, body: AdmissionBody, written: seq<StoredFile>, attachments: seq<Attachment>, mailSent: bool)

  /** How many uploads get written when the `failingWrite`-th filesystem
      write throws (write 0 creates the folders and `info.json`, write
      `i + 1` stores upload `i`). */
  function UploadsWritten(failingWrite: Option<nat>, count: nat): (k: nat)
    ensures k <= count
    ensures failingWrite.None? || failingWrite.value > count ==> k == count
    ensures failingWrite == Some(0) ==> k == 0
    ensures failingWrite.Some? && 0 < failingWrite.value <= count ==> k == failingWrite.value - 1
  {
    match failingWrite
    case None => count
    case Some(f) => if f == 0 then 0 else if f - 1 < count then f - 1 else count
  }

  /** The stored path of every upload of a submission, in order. */
  function UploadPaths(id: nat, files: seq<UploadFile>): (r: seq<string>)
    ensures |r| == |files|
  {
    if files == [] then []
    else UploadPaths(id, files[..|files| - 1]) + [UploadPath(id, |files| - 1, files[|files| - 1].originalName)]
  }

  lemma {:induction false} UploadPathsAt(id: nat, files: seq<UploadFile>, i: nat)
    requires i < |files|
    ensures UploadPaths(id, files)[i] == UploadPath(id, i, files[i].originalName)
  {
    if i < |files| - 1 {
      var init := files[..|files| - 1];
      UploadPathsAt(id, init, i);
      assert init[i] == files[i];
    }
  }

  /** The first `k` uploads in order: the copies the handler writes and the
      entries of the mail's attachment list, each under its stored path. */
  ghost predicate UploadsStored(paths: seq<string>, files: seq<UploadFile>, k: nat,
                                copies: seq<StoredFile>, attachments: seq<Attachment>)
    requires k <= |files| == |paths|
  {
    && |copies| == k && |attachments| == k
    && (forall i :: 0 <= i < k ==> copies[i] == UploadCopy(paths[i], files[i].content))
    && (forall i :: 0 <= i < k ==> attachments[i] == Attachment(files[i].originalName, paths[i]))
  }

  /** Storing one more upload extends both lists by its entry. */
  lemma UploadsStoredSnoc(paths: seq<string>, files: seq<UploadFile>, k: nat,
                          copies: seq<StoredFile>, attachments: seq<Attachment>)
    requires k < |files| == |paths| && UploadsStored(paths, files, k, copies, attachments)
    ensures UploadsStored(paths, files, k + 1, copies + [UploadCopy(paths[k], files[k].content)],
                          attachments + [Attachment(files[k].originalName, paths[k])])
  {
  }

  /** The `files.forEach` loop: each upload is written under its stored
      name and added to the attachment list, until the `failingWrite`-th
      filesystem write (upload `failingWrite - 1`) throws. */
  method StoreUploads(id: nat, files: seq<UploadFile>, failingWrite: Option<nat>)
    returns (copies: seq<StoredFile>, attachments: seq<Attachment>, failed: bool)
    requires failingWrite != Some(0)
    ensures UploadsStored(UploadPaths(id, files), files, UploadsWritten(failingWrite, |files|), copies, attachments)
    ensures failed <==> failingWrite.Some? && failingWrite.value <= |files|
  {
    ghost var paths := UploadPaths(id, files);
    copies, attachments := [], [];
    var i := 0;
    failed := false;
    while i < |files| && !failed
      invariant 0 <= i <= |files|
      invariant failed ==> i < |files| && failingWrite.Some? && failingWrite.value == i + 1
      invariant !failed ==> failingWrite.None? || failingWrite.value > i
      invariant UploadsStored(paths, files, i, copies, attachments)
      decreases |files| - i, !failed
    {
      if failingWrite.Some? && failingWrite.value == i + 1 {
        failed := true;
      } else {
        var path := UploadPath(id, i, files[i].originalName);
        UploadPathsAt(id, files, i);
        UploadsStoredSnoc(paths, files, i, copies, attachments);
        copies := copies + [UploadCopy(path, files[i].content)];
        attachments := attachments + [Attachment(files[i].originalName, path)];
        i := i + 1;
      }
    }
  }

  /** The admission handler. The insert either fails (`insertId == None`)
      or yields the new id; `failingWrite` names the filesystem write that
      throws, if any (write 0 creates the folders and `info.json`, write
      `i + 1` stores upload `i`); `mailOk` says whether sending the mail
      succeeds. */
  method HandleAdmission(body: seq<Part>, insertId: Option<nat>, submittedAt: string,
                         failingWrite: Option<nat>, mailOk: bool)
    returns (r: AdmissionResult)
    ensures insertId.None? ==>
      r == AdmissionResult(500, AdmissionError(DatabaseError), [], [], false)
    ensures insertId.Some? ==> r.status == 200 && r.body.AdmissionSaved? && r.body.id == insertId.value
    ensures insertId.Some? && failingWrite == Some(0) ==>
      r.written == [] && r.attachments == [] && !r.mailSent
    ensures insertId.Some? && failingWrite != Some(0) ==>
      var files := Files(body, "files");
      && |r.written| >= 1
      && r.written[0] == InfoFile(InfoPath(insertId.value), InfoData(Fields(body), insertId.value, submittedAt))
      && UploadsStored(UploadPaths(insertId.value, files), files, UploadsWritten(failingWrite, |files|),
                       r.written[1..], r.attachments)
    ensures insertId.Some? ==>
      (r.mailSent <==> mailOk && (failingWrite.None? || failingWrite.value > |Files(body, "files")|))
    ensures insertId.Some? ==> r.body.message == (if r.mailSent then SavedAndMailed else SavedMailFailed)
  {
    if insertId.None? {
      return AdmissionResult(500, AdmissionError(DatabaseError), [], [], false);
    }
    var id := insertId.value;
    if failingWrite == Some(0) {
      return AdmissionResult(200, AdmissionSaved(SavedMailFailed, id), [], [], false);
    }
    var info := InfoFile(InfoPath(id), InfoData(Fields(body), id, submittedAt));
    var copies, attachments, failed := StoreUploads(id, Files(body, "files"), failingWrite);
    assert ([info] + copies)[1..] == copies;
    if failed || !mailOk {
      r := AdmissionResult(200, AdmissionSaved(SavedMailFailed, id), [info] + copies, attachments, false);
    } else {
      r := AdmissionResult(200, AdmissionSaved(SavedAndMailed, id), [info] + copies, attachments, true);
    }
  }
}
