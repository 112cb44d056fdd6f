/** The admission form: six text fields, the selected documents, and the
    submit handler, which checks the major against the fixed list, builds
    the multipart body and resets the form after an accepted submission.
    The request is split into the step that builds and sends it and the
    step that receives its outcome, which is a parameter; the browser alert
    is returned as a value. */
module AdmissionForm {
  import opened Wrappers
  import opened Multipart

  /** `MAJORS`: the only majors the form accepts, exactly as written. */
  const Majors: seq<string> := [
    "An toàn thông tin (7480202)",
    "An toàn thông tin - Chất lượng cao",
    "Báo chí (Journalism) (7320101)",
    "Công nghệ đa phương tiện (7329001)",
    "Công nghệ Internet vạn vật (IoT) (7520208)",
    "Công nghệ kỹ thuật Điện, điện tử (7510301)",
    "Công nghệ tài chính – Fintech (7340205)",
    "Công nghệ thông tin (7480201)",
    "Công nghệ thông tin - Hệ Chất lượng cao",
    "Công nghệ thông tin - Định hướng ứng dụng",
    "Công nghệ thông tin - Việt Nhật",
    "Kế toán (7340301)",
    "Kế toán - Chất lượng cao chuẩn quốc tế (ACCA)",
    "Khoa học máy tính (7480101)",
    "Kỹ thuật Điện tử viễn thông (7520207)",
    "Kỹ thuật Điều khiển và Tự động hóa (7520216)",
    "Kỹ thuật dữ liệu (Mạng máy tính & TT dữ liệu)",
    "Logistics và quản trị chuỗi cung ứng (7340101)",
    "Marketing (7340115)",
    "Marketing - Hệ Chất lượng cao",
    "Quan hệ công chúng (Ngành Marketing)",
    "Quản trị kinh doanh (7340101)",
    "Thiết kế và Phát triển Game",
    "Thương mại điện tử (7340122)",
    "Trí tuệ nhân tạo (7480107)",
    "Trí tuệ nhân tạo vạn vật (AIoT)",
    "Truyền thông đa phương tiện (7320104)"
  ]

  /** The form's fields, in the order they are appended to the body. */
  const FieldNames: seq<string> := ["full_name", "birth_date", "gender", "address", "cccd", "major"]

  type FormData = map<string, string>

  /** The initial and post-success form: every field empty except gender,
      which defaults to "Nam". */
  const InitialForm: FormData :=
    map["full_name" := "", "birth_date" := "", "gender" := "Nam", "address" := "", "cccd" := "", "major" := ""]

  /** The alerts the submit handler can raise. */
  datatype Alert = InvalidMajor | Submitted | Rejected | ConnectionFailed

  /** How the request ended: a response with `ok` set or not, or a network
      error. */
  datatype SubmitOutcome = Ok | NotOk | NetworkError

  predicate HasAllFields(form: FormData) {
    forall n :: n in FieldNames ==> n in form
  }

  /** The body for a form and a file selection: the six fields in order,
      then every file under "files" in selection order. */
  ghost predicate IsBodyFor(parts: seq<Part>, form: FormData, files: seq<UploadFile>)
    requires HasAllFields(form)
  {
    && |parts| == |FieldNames| + |files|
    && (forall i :: 0 <= i < |FieldNames| ==> parts[i] == TextField(FieldNames[i], form[FieldNames[i]]))
    && (forall i :: 0 <= i < |files| ==> parts[|FieldNames| + i] == FilePart("files", files[i]))
  }

  /** The `FormData` assembly of `handleSubmit`: the six `append` calls and
      the loop over the selected files. */
  method BuildBody(form: FormData, files: seq<UploadFile>) returns (parts: seq<Part>)
    requires HasAllFields(form)
    ensures IsBodyFor(parts, form, files)
  {
    parts := [
      TextField("full_name", form["full_name"]),
      TextField("birth_date", form["birth_date"]),
      TextField("gender", form["gender"]),
      TextField("address", form["address"]),
      TextField("cccd", form["cccd"]),
      TextField("major", form["major"])
    ];
    var i := 0;
    while i < |files|
      invariant 0 <= i <= |files|
      invariant |parts| == |FieldNames| + i
      invariant forall k :: 0 <= k < |FieldNames| ==> parts[k] == TextField(FieldNames[k], form[FieldNames[k]])
      invariant forall k :: 0 <= k < i ==> parts[|FieldNames| + k] == FilePart("files", files[k])
    {
      parts := parts + [FilePart("files", files[i])];
      i := i + 1;
    }
  }

  /** What the server reads back from a body the form built: every form
      field under its own name and no other text field, and the selected
      files in selection order. */
  lemma BodyReadBack(parts: seq<Part>, form: FormData, files: seq<UploadFile>)
    requires HasAllFields(form) && IsBodyFor(parts, form, files)
    ensures Files(parts, "files") == files
    ensures forall n :: n in Fields(parts) <==> n in FieldNames
    ensures forall n :: n in FieldNames ==> Fields(parts)[n] == form[n]
  {
    FilesAfterFields(parts, |FieldNames|, "files", files);
    forall k | 0 <= k < |FieldNames|
      ensures FieldNames[k] in Fields(parts) && Fields(parts)[FieldNames[k]] == form[FieldNames[k]]
    {
      assert forall j :: 0 <= j < k ==> FieldNames[j] != FieldNames[k];
      FieldsFirstOccurrence(parts, k, FieldNames[k], form[FieldNames[k]]);
    }
    forall j | |FieldNames| <= j < |parts|
      ensures parts[j].FilePart?
    {
      assert parts[|FieldNames| + (j - |FieldNames|)] == FilePart("files", files[j - |FieldNames|]);
    }
    forall n | n in Fields(parts)
      ensures n in FieldNames
    {
      var i :| 0 <= i < |parts| && parts[i].TextField? && parts[i].name == n;
      if i < |FieldNames| {
        assert parts[i] == TextField(FieldNames[i], form[FieldNames[i]]);
      }
    }
  }

  class Form {
    var formData: FormData
    var selectedFiles: seq<UploadFile>
    var isSubmitting: bool

    ghost predicate Valid()
      reads this
    {
      HasAllFields(formData)
    }

    constructor ()
      ensures Valid()
      ensures formData == InitialForm && selectedFiles == [] && !isSubmitting
    {
      formData, selectedFiles, isSubmitting := InitialForm, [], false;
    }

    /** `handleChange`: only the named field takes the new value. */
    method HandleChange(name: string, value: string)
      requires Valid()
      modifies this`formData
      ensures Valid()
      ensures name in formData && formData[name] == value
      ensures forall n :: n != name ==> (n in formData <==> n in old(formData))
      ensures forall n :: n != name && n in old(formData) ==> formData[n] == old(formData)[n]
    {
      formData := formData[name := value];
    }

    /** `handleFileChange`: the selection replaces the previous one. */
    method HandleFileChange(files: seq<UploadFile>)
      modifies this`selectedFiles
      ensures selectedFiles == files
    {
      selectedFiles := files;
    }

    /** The synchronous half of `handleSubmit`. A major that is not exactly
        one of `Majors` raises the alert, sends nothing and leaves
        isSubmitting false; otherwise the body is built and the request is
        in flight. The submit button is disabled while submitting. */
    method BeginSubmit() returns (body: Option<seq<Part>>, alert: Option<Alert>)
      requires Valid() && !isSubmitting
      modifies this`isSubmitting
      ensures Valid()
      ensures formData["major"] !in Majors ==>
        body == None && alert == Some(InvalidMajor) && !isSubmitting
      ensures formData["major"] in Majors ==>
        && body.Some? && IsBodyFor(body.value, formData, selectedFiles)
        && alert == None && isSubmitting
    {
      isSubmitting := true;
      if formData["major"] !in Majors {
        isSubmitting := false;
        return None, Some(InvalidMajor);
      }
      var parts := BuildBody(formData, selectedFiles);
      body, alert := Some(parts), None;
    }

    /** The asynchronous half: an ok response resets the form and the file
        selection; a rejected response or a network error keeps both; every
        outcome ends the submission and raises its alert. */
    method CompleteSubmit(outcome: SubmitOutcome) returns (alert: Alert)
      requires Valid() && isSubmitting
      modifies this
      ensures Valid() && !isSubmitting
      ensures outcome == Ok ==> formData == InitialForm && selectedFiles == [] && alert == Submitted
      ensures outcome == NotOk ==>
        formData == old(formData) && selectedFiles == old(selectedFiles) && alert == Rejected
      ensures outcome == NetworkError ==>
        formData == old(formData) && selectedFiles == old(selectedFiles) && alert == ConnectionFailed
    {
      match outcome {
        case Ok =>
          alert := Submitted;
          formData := InitialForm;
          selectedFiles := [];
        case NotOk =>
          alert := Rejected;
        case NetworkError =>
          alert := ConnectionFailed;
      }
      isSubmitting := false;
    }
  }
}
