/** The student page of frontend/src/App.js: its table (`data`), its edit
    pointer (`editing`), the form's initial values and validation, the
    FormData it submits, and the state transitions run in the success
    continuation of each request. */
module StudentPage {
  import opened Wrappers
  import opened Rows

  /** A row of the table. Rows fetched from the server have no Password,
      IsActive or IsDeleted property (None); a row edited on the page
      gains them. */
  datatype Student = Student(
    ID: int, Name: string, Email: string, ProfileImage: Option<string>,
    Password: Option<string>, IsActive: Option<bool>, IsDeleted: Option<bool>)

  function StudentId(s: Student): int
  {
    s.ID
  }

  /** A browser File chosen in the file input. */
  datatype File = File(name: string)

  /** The Formik values of the student form. */
  datatype StudentValues = StudentValues(
    Name: string, Email: string, Password: string, ConfirmPassword: string,
    ProfileImage: Option<File>, IsActive: Option<bool>, IsDeleted: Option<bool>)

  /** The form's `initialValues`: the edited row's fields in edit mode,
      blanks with IsActive set in create mode; passwords and the image
      always start empty. */
  function InitialValues(editing: Option<Student>): (v: StudentValues)
    ensures v.Password == "" && v.ConfirmPassword == "" && v.ProfileImage == None
    ensures editing.Some? ==>
              && v.Name == editing.value.Name && v.Email == editing.value.Email
              && v.IsActive == editing.value.IsActive && v.IsDeleted == editing.value.IsDeleted
    ensures editing.None? ==>
              v.Name == "" && v.Email == "" && v.IsActive == Some(true) && v.IsDeleted == Some(false)
  {
    StudentValues(
      if editing.Some? then editing.value.Name else "",
      if editing.Some? then editing.value.Email else "",
      "", "", None,
      if editing.Some? then editing.value.IsActive else Some(true),
      if editing.Some? then editing.value.IsDeleted else Some(false))
  }

  /** The fields the validation schema rejects. A required string must be
      non-empty; ConfirmPassword must also be one of [Password, null],
      and a text field is never null. The email-format test is not part
      of this model. */
  function FormErrors(v: StudentValues): (errs: set<string>)
    ensures errs <= {"Name", "Email", "Password", "ConfirmPassword"}
    ensures "Name" in errs <==> v.Name == ""
    ensures "Email" in errs <==> v.Email == ""
    ensures "Password" in errs <==> v.Password == ""
    ensures "ConfirmPassword" in errs <==> v.ConfirmPassword == "" || v.ConfirmPassword != v.Password
  {
    (if v.Name == "" then {"Name"} else {})
    + (if v.Email == "" then {"Email"} else {})
    + (if v.Password == "" then {"Password"} else {})
    + (if v.ConfirmPassword !in [v.Password] || v.ConfirmPassword == "" then {"ConfirmPassword"} else {})
  }

  predicate FormValid(v: StudentValues)
  {
    FormErrors(v) == {}
  }

  lemma FormValidIff(v: StudentValues)
    ensures FormValid(v) <==>
              v.Name != "" && v.Email != "" && v.Password != "" && v.ConfirmPassword == v.Password
  {
  }

  /** The `initialValues` expression never validates, in either mode: both
      passwords start empty. */
  lemma InitialValuesRejected(editing: Option<Student>)
    ensures !FormValid(InitialValues(editing))
  {
  }

  /** A FormData part: text, or a file. */
  datatype Part = Text(text: string) | Blob(file: File)

  datatype Entry = Entry(key: string, part: Part)

  /** The text FormData.append stores for a checkbox value (undefined when
      the edited row had no such property). */
  function FlagText(b: Option<bool>): string
  {
    match b
    case None => "undefined"
    case Some(true) => "true"
    case Some(false) => "false"
  }

  /** The FormData `handleSubmit` sends. ConfirmPassword is not sent. */
  function FormDataOf(v: StudentValues): (fd: seq<Entry>)
    ensures |fd| == (if v.ProfileImage.Some? then 6 else 5)
    ensures (exists i :: 0 <= i < |fd| && fd[i].key == "ProfileImage") <==> v.ProfileImage.Some?
    ensures forall i :: 0 <= i < |fd| ==> (fd[i].part.Blob? <==> fd[i].key == "ProfileImage")
    ensures forall i :: 0 <= i < |fd| ==> fd[i].key != "ConfirmPassword"
    ensures fd[0] == Entry("Name", Text(v.Name)) && fd[1] == Entry("Email", Text(v.Email))
    ensures fd[2..5] == [Entry("Password", Text(v.Password)), Entry("IsActive", Text(FlagText(v.IsActive))),
                         Entry("IsDeleted", Text(FlagText(v.IsDeleted)))]
    ensures v.ProfileImage.Some? ==> fd[5] == Entry("ProfileImage", Blob(v.ProfileImage.value))
  {
    var fd :=
      [Entry("Name", Text(v.Name)), Entry("Email", Text(v.Email)), Entry("Password", Text(v.Password)),
       Entry("IsActive", Text(FlagText(v.IsActive))), Entry("IsDeleted", Text(FlagText(v.IsDeleted)))]
      + (if v.ProfileImage.Some? then [Entry("ProfileImage", Blob(v.ProfileImage.value))] else []);
    assert v.ProfileImage.Some? ==> fd[5].key == "ProfileImage";
    fd
  }

  /** The sequence of `formData.append` calls. */
  method BuildFormData(v: StudentValues) returns (fd: seq<Entry>)
    ensures fd == FormDataOf(v)
  {
    fd := [];
    fd := fd + [Entry("Name", Text(v.Name))];
    fd := fd + [Entry("Email", Text(v.Email))];
    fd := fd + [Entry("Password", Text(v.Password))];
    fd := fd + [Entry("IsActive", Text(FlagText(v.IsActive)))];
    fd := fd + [Entry("IsDeleted", Text(FlagText(v.IsDeleted)))];
    if v.ProfileImage.Some? {
      fd := fd + [Entry("ProfileImage", Blob(v.ProfileImage.value))];
    }
  }

  /** The path the page shows for a newly chosen file: its original name,
      not the name the server stores it under. */
  function UploadPath(f: File): string
  {
    "/uploads/" + f.name
  }

  /** The row after a confirmed update: the form's fields spread over the
      old row, the image kept unless a new file was chosen. */
  function EditedRow(s: Student, v: StudentValues): (r: Student)
    ensures r.ID == s.ID
    ensures r.Name == v.Name && r.Email == v.Email && r.Password == Some(v.Password)
    ensures r.IsActive == v.IsActive && r.IsDeleted == v.IsDeleted
    ensures v.ProfileImage.None? ==> r.ProfileImage == s.ProfileImage
    ensures v.ProfileImage.Some? ==> r.ProfileImage == Some(UploadPath(v.ProfileImage.value))
  {
    s.(Name := v.Name, Email := v.Email, Password := Some(v.Password),
       ProfileImage := if v.ProfileImage.Some? then Some(UploadPath(v.ProfileImage.value)) else s.ProfileImage,
       IsActive := v.IsActive, IsDeleted := v.IsDeleted)
  }

  /** `data.map(student => student.ID === id ? edited : student)` */
  function ApplyEdit(rows: seq<Student>, id: int, v: StudentValues): (r: seq<Student>)
    ensures |r| == |rows|
    ensures forall i :: 0 <= i < |rows| && rows[i].ID == id ==> r[i] == EditedRow(rows[i], v)
    ensures forall i :: 0 <= i < |rows| && rows[i].ID != id ==> r[i] == rows[i]
  {
    if rows == [] then []
    else [if rows[0].ID == id then EditedRow(rows[0], v) else rows[0]] + ApplyEdit(rows[1..], id, v)
  }

  /** An update keeps every row's ID, so the table's keys do not change. */
  lemma ApplyEditKeepsIds(rows: seq<Student>, id: int, v: StudentValues)
    ensures forall i :: 0 <= i < |rows| ==> ApplyEdit(rows, id, v)[i].ID == rows[i].ID
  {
  }

  /** Applying the same confirmed update twice changes nothing more. */
  lemma ApplyEditIdempotent(rows: seq<Student>, id: int, v: StudentValues)
    ensures ApplyEdit(ApplyEdit(rows, id, v), id, v) == ApplyEdit(rows, id, v)
  {
  }

  /** Deleting a row after updating it leaves what deleting it alone would:
      the update touches no row of another ID. */
  lemma {:induction false} DeleteAfterEdit(rows: seq<Student>, id: int, v: StudentValues)
    ensures Without(ApplyEdit(rows, id, v), StudentId, id) == Without(rows, StudentId, id)
  {
    if rows != [] {
      var edited := ApplyEdit(rows, id, v);
      assert edited[1..] == ApplyEdit(rows[1..], id, v);
      DeleteAfterEdit(rows[1..], id, v);
    }
  }

  /** The requests `handleSubmit` issues. */
  datatype StudentRequest = PutStudent(id: int, form: seq<Entry>) | PostStudent(form: seq<Entry>)

  /** The state of the App component. */
  class StudentPageState {
    var data: seq<Student>
    var editing: Option<Student>

    constructor ()
      ensures data == [] && editing == None
    {
      data := [];
      editing := None;
    }

    /** The mount effect, once `GET /student` has answered. */
    method Loaded(rows: seq<Student>)
      modifies this
      ensures data == rows && editing == old(editing)
    {
      data := rows;
    }

    /** `handleEdit` */
    method Edit(s: Student)
      modifies this
      ensures editing == Some(s) && data == old(data)
    {
      editing := Some(s);
    }

    /** The Cancel button: leaves edit mode, keeps the table. */
    method Cancel()
      modifies this
      ensures editing == None && data == old(data)
    {
      editing := None;
    }

    /** `handleSubmit`, which Formik calls only with values that validate:
        PUT to the edited row's ID in edit mode, POST otherwise. */
    method Submit(v: StudentValues) returns (req: StudentRequest)
      requires FormValid(v)
      ensures editing.Some? <==> req.PutStudent?
      ensures editing.Some? ==> req == PutStudent(editing.value.ID, FormDataOf(v))
      ensures editing.None? ==> req == PostStudent(FormDataOf(v))
    {
      var formData := BuildFormData(v);
      if editing.Some? {
        req := PutStudent(editing.value.ID, formData);
      } else {
        req := PostStudent(formData);
      }
    }

    /** After a confirmed `DELETE /student/:id`. */
    method DeleteSucceeded(id: int)
      modifies this
      ensures data == Without(old(data), StudentId, id) && editing == old(editing)
    {
      data := Without(data, StudentId, id);
    }

    /** After a confirmed `PUT /student/:id`, with the ID and values the
        request was made with. */
    method UpdateSucceeded(id: int, v: StudentValues)
      modifies this
      ensures data == ApplyEdit(old(data), id, v) && editing == None
    {
      data := ApplyEdit(data, id, v);
      editing := None;
    }

    /** After a confirmed `POST /student`: the record the server returned
        is appended. */
    method CreateSucceeded(created: Student)
      modifies this
      ensures data == old(data) + [created] && editing == old(editing)
    {
      data := data + [created];
    }
  }
}
