/** What the pages send, seen by the handlers that receive it: the JSON
    body axios makes of the user form, and what multer makes of the
    student FormData. */
module Interplay {
  import opened Wrappers
  import opened Js
  import opened Sql
  import opened Server
  import SP = StudentPage
  import UM = UserMaster

  /** The JSON body axios sends for the user form values. */
  function UserJson(u: UM.User): (body: Body)
    ensures "status" !in body
    ensures Member(body, "userid") == Num(u.userid)
    ensures Member(body, "isactive") == Bool(u.isactive) && Member(body, "isdeleted") == Bool(u.isdeleted)
  {
    FormJson(u)["userid" := Num(u.userid)]
  }

  /** The properties of the form other than `userid`. */
  function FormJson(u: UM.User): (body: Body)
    ensures "status" !in body && "userid" !in body
  {
    map[
      "username" := Str(u.username),
      "user_firstname" := Str(u.user_firstname), "user_lastname" := Str(u.user_lastname),
      "user_email" := Str(u.user_email), "user_phone" := Str(u.user_phone),
      "user_password" := Str(u.user_password), "user_confirmpassword" := Str(u.user_confirmpassword),
      "role" := Str(u.role), "isactive" := Bool(u.isactive), "isdeleted" := Bool(u.isdeleted)]
  }

  /** The form's boolean checkboxes always pass the server's type check:
      a create from the page always reaches the database. */
  lemma CreateFromFormIssuesInsert(u: UM.User, outcome: DbOutcome)
    ensures HandleCreateUser(UserJson(u), outcome).query.Some?
    ensures HandleCreateUser(UserJson(u), outcome).reply.status != 400
  {
  }

  /** The userid the page assigns before the POST is not among the
      inserted columns: the server's statement does not depend on it. */
  lemma CreateIgnoresClientUserId(u: UM.User, counter: int, outcome: DbOutcome)
    ensures HandleCreateUser(UserJson(u.(userid := counter)), outcome) == HandleCreateUser(UserJson(u), outcome)
  {
    assert FormJson(u.(userid := counter)) == FormJson(u);
    UserColumnsAreNames();
    forall i | 0 <= i < |UserColumns|
      ensures Member(UserJson(u.(userid := counter)), UserColumns[i]) == Member(UserJson(u), UserColumns[i])
    {
      assert UserColumns[i] != "userid";
    }
    CreateUserReadsOnlyColumns(UserJson(u.(userid := counter)), UserJson(u), outcome);
  }

  /** The page's update body has no `status` property, so reading
      `status.isactive` throws before any query: an update from the page
      never reaches the database. */
  lemma UpdateFromFormThrows(u: UM.User, userid: string, outcome: DbOutcome)
    ensures HandleUpdateUser(UserJson(u), userid, outcome) == Exchange(None, ThrownInHandler)
  {
  }

  /** multer's view of a multipart body: every text part becomes a body
      field; a file part under `ProfileImage` is stored under the name
      `stored`. Of two parts with the same name the model keeps the last
      one; the page never sends a name twice. */
  function MultipartFields(fd: seq<SP.Entry>): (body: Body)
    ensures forall k :: k in body ==> body[k].Str?
  {
    if fd == [] then map[]
    else
      var rest := MultipartFields(fd[..|fd| - 1]);
      var last := fd[|fd| - 1];
      if last.part.Text? then rest[last.key := Str(last.part.text)] else rest
  }

  function MultipartFile(fd: seq<SP.Entry>, stored: string): (f: Option<UploadedFile>)
    ensures f.Some? <==> exists i :: 0 <= i < |fd| && fd[i].key == "ProfileImage" && fd[i].part.Blob?
    ensures f.Some? ==> f.value.filename == stored
  {
    if exists i :: 0 <= i < |fd| && fd[i].key == "ProfileImage" && fd[i].part.Blob?
    then Some(UploadedFile(stored)) else None
  }

  /** A field set by part j survives the later parts when none of them
      repeats its name. */
  lemma {:induction false} MultipartFieldsKeep(fd: seq<SP.Entry>, j: nat)
    requires j < |fd| && fd[j].part.Text?
    requires forall i :: j < i < |fd| ==> fd[i].key != fd[j].key
    ensures fd[j].key in MultipartFields(fd)
    ensures MultipartFields(fd)[fd[j].key] == Str(fd[j].part.text)
  {
    var init := fd[..|fd| - 1];
    if j < |fd| - 1 {
      assert init[j] == fd[j];
      MultipartFieldsKeep(init, j);
    }
  }

  /** A student update from the page, as the server builds it: Name and
      Email are bound as typed, and the image clause with the server's
      stored path appears exactly when a file was chosen. */
  lemma UpdateStudentFromForm(v: SP.StudentValues, stored: string, studentId: string)
    ensures var fd := SP.FormDataOf(v);
            var q := StudentUpdateQuery(MultipartFields(fd), MultipartFile(fd, stored), studentId);
            && q.sql == Update("student", StudentUpdateColumns(v.ProfileImage.Some?), "ID")
            && q.params == [Str(v.Name), Str(v.Email)]
                           + (if v.ProfileImage.Some? then [Str("/uploads/" + stored)] else [])
                           + [Str(studentId)]
  {
    var fd := SP.FormDataOf(v);
    MultipartFieldsKeep(fd, 0);
    MultipartFieldsKeep(fd, 1);
    if v.ProfileImage.Some? {
      assert fd[5].key == "ProfileImage" && fd[5].part.Blob?;
    }
  }

  /** After an update with a new file, the page shows the file's original
      name while the server stored the file under its own: the two paths
      agree only if the names do. */
  lemma ShownPathMatchesStoredIff(f: SP.File, stored: string)
    ensures SP.UploadPath(f) == "/uploads/" + stored <==> f.name == stored
  {
    if SP.UploadPath(f) == "/uploads/" + stored {
      var n := |"/uploads/"|;
      assert f.name == SP.UploadPath(f)[n..];
      assert stored == ("/uploads/" + stored)[n..];
    }
  }
}
