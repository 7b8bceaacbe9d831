/** The route handlers of backend/server.js with the network, Express and
    MySQL stripped away. A handler receives the parsed request (body,
    route parameter, uploaded file) and the outcome of its one database
    call as an input, and yields the statement it issues (if any) and the
    reply it gives. */
module Server {
  import opened Wrappers
  import opened Js
  import opened Sql

  /** A parsed JSON or multipart request body. */
  type Body = map<string, JsValue>

  /** A parameterised statement and the values bound to its `?` marks. */
  datatype Query = Query(sql: string, params: seq<JsValue>)

  /** Every placeholder has exactly one bound value. */
  predicate Aligned(q: Query)
  {
    Placeholders(q.sql) == |q.params|
  }

  /** What the MySQL callback receives: an error, or a result carrying
      `affectedRows` and `insertId`. */
  datatype DbOutcome = DbError | DbOk(affectedRows: nat, insertId: int)

  datatype Reply =
    /** `res.status(status).json(body)` or `res.send(body)` (status 200). */
    | Send(status: int, body: JsValue)
    /** An exception thrown synchronously in the handler; Express's default
        error handler answers it with status 500. */
    | ThrownInHandler
    /** An exception thrown inside the query callback, outside any Express
        error handling: the driver rethrows it as an uncaught exception, so
        no reply is sent and the Node process ends, for every later request
        too. */
    | ThrownInCallback

  /** The statement a handler issues (None: no database call) and its reply. */
  datatype Exchange = Exchange(query: Option<Query>, reply: Reply)

  function ErrorBody(msg: string): JsValue
  {
    Obj(map["error" := Str(msg)])
  }

  function MessageBody(msg: string): JsValue
  {
    Obj(map["message" := Str(msg)])
  }

  // ---------------------------------------------------------------- users

  /** The columns of `usermaster` written by create and update, in order. */
  const UserColumns: seq<string> := [
    "username", "user_firstname", "user_lastname", "user_email", "user_phone",
    "user_password", "user_confirmpassword", "role", "isactive", "isdeleted"]

  lemma UserColumnsAreNames()
    ensures |UserColumns| == 10 && Names(UserColumns)
    ensures "userid" !in UserColumns
  {
  }

  /** `POST /users`: the INSERT and its ten values, taken from the body. */
  function CreateUserQuery(body: Body): (q: Query)
    ensures q.sql == Insert("usermaster", UserColumns)
    ensures Aligned(q) && |q.params| == |UserColumns| == 10
    ensures forall i :: 0 <= i < |UserColumns| ==> q.params[i] == Member(body, UserColumns[i])
  {
    UserColumnsAreNames();
    InsertPlaceholders("usermaster", UserColumns);
    Query(Insert("usermaster", UserColumns),
      [Member(body, "username"), Member(body, "user_firstname"), Member(body, "user_lastname"),
       Member(body, "user_email"), Member(body, "user_phone"), Member(body, "user_password"),
       Member(body, "user_confirmpassword"), Member(body, "role"),
       Member(body, "isactive"), Member(body, "isdeleted")])
  }

  /** `POST /users`: 400 without a query unless both status fields are
      booleans; otherwise 500 on a database error and 201 on success. */
  function HandleCreateUser(body: Body, outcome: DbOutcome): (x: Exchange)
    ensures x.query.Some? <==> Member(body, "isactive").Bool? && Member(body, "isdeleted").Bool?
    ensures x.query.Some? ==> x.query.value == CreateUserQuery(body)
    ensures x.reply.Send?
    ensures x.reply.status == 400 <==> x.query.None?
    ensures x.reply.status == 500 <==> x.query.Some? && outcome.DbError?
    ensures x.reply.status == 201 <==> x.query.Some? && outcome.DbOk?
    ensures x.query.None? ==> x.reply.body == ErrorBody("Invalid status fields")
    ensures x.reply.status == 500 ==> x.reply.body == ErrorBody("Error saving user")
    ensures x.reply.status == 201 ==> x.reply.body == MessageBody("User saved successfully")
  {
    var isactive := Member(body, "isactive");
    var isdeleted := Member(body, "isdeleted");
    if TypeOf(isactive) != "boolean" || TypeOf(isdeleted) != "boolean" then
      Exchange(None, Send(400, ErrorBody("Invalid status fields")))
    else
      Exchange(Some(CreateUserQuery(body)),
        if outcome.DbError? then Send(500, ErrorBody("Error saving user"))
        else Send(201, MessageBody("User saved successfully")))
  }

  /** `POST /users` reads nothing of its body but the ten inserted
      properties: two bodies that agree on them get the same answer. */
  lemma CreateUserReadsOnlyColumns(b1: Body, b2: Body, outcome: DbOutcome)
    requires forall i :: 0 <= i < |UserColumns| ==> Member(b1, UserColumns[i]) == Member(b2, UserColumns[i])
    ensures HandleCreateUser(b1, outcome) == HandleCreateUser(b2, outcome)
  {
    var q1, q2 := CreateUserQuery(b1), CreateUserQuery(b2);
    assert q1.params == q2.params;
    assert UserColumns[8] == "isactive" && UserColumns[9] == "isdeleted";
  }

  /** The route parameters Express extracts from `/users/:userid`. */
  function UserRouteParams(userid: string): (params: map<string, string>)
    ensures params.Keys == {"userid"}
  {
    map["userid" := userid]
  }

  /** Reading `req.params.name`. */
  function Param(params: map<string, string>, name: string): (v: JsValue)
    ensures name in params ==> v == Str(params[name])
    ensures name !in params ==> v == Undefined
  {
    if name in params then Str(params[name]) else Undefined
  }

  /** `flag ? 1 : 0` */
  function Flag(v: JsValue): (r: JsValue)
    ensures r == Num(1) || r == Num(0)
    ensures r == Num(1) <==> Truthy(v)
  {
    if Truthy(v) then Num(1) else Num(0)
  }

  /** The statement of `PUT /users/:userid` once `status` is known not to
      be nullish: all ten columns are set and the row is chosen by the
      value of route parameter `whereParam`. */
  function UpdateUserQuery(body: Body, status: JsValue, userid: string, whereParam: string): (q: Query)
    requires !Nullish(status)
    ensures Aligned(q) && |q.params| == 11
    ensures q.sql == Update("usermaster", UserColumns, "userid")
    ensures forall i :: 0 <= i < 8 ==> q.params[i] == Member(body, UserColumns[i])
    ensures q.params[8] == Flag(Get(status, "isactive"))
    ensures q.params[9] == Flag(Get(status, "isdeleted"))
    ensures q.params[10] == Param(UserRouteParams(userid), whereParam)
  {
    UserColumnsAreNames();
    UpdatePlaceholders("usermaster", UserColumns, "userid");
    Query(Update("usermaster", UserColumns, "userid"),
      [Member(body, "username"), Member(body, "user_firstname"), Member(body, "user_lastname"),
       Member(body, "user_email"), Member(body, "user_phone"), Member(body, "user_password"),
       Member(body, "user_confirmpassword"), Member(body, "role"),
       Flag(Get(status, "isactive")), Flag(Get(status, "isdeleted")),
       Param(UserRouteParams(userid), whereParam)])
  }

  /** `PUT /users/:userid`, parameterised by the name of the route
      parameter read for the WHERE value: the source reads `id`. */
  function UpdateUserWith(body: Body, userid: string, whereParam: string, outcome: DbOutcome): (x: Exchange)
    ensures x.query.None? <==> Nullish(Member(body, "status"))
    ensures x.query.None? ==> x.reply == ThrownInHandler
    ensures x.query.Some? ==>
              x.query.value == UpdateUserQuery(body, Member(body, "status"), userid, whereParam)
    ensures x.query.Some? && outcome.DbError? ==> x.reply == ThrownInCallback
    ensures x.query.Some? && outcome.DbOk? ==>
              x.reply == Send(200, Obj(body["userid" := Str(userid)]))
  {
    var status := Member(body, "status");
    if Nullish(status) then
      Exchange(None, ThrownInHandler)
    else
      Exchange(Some(UpdateUserQuery(body, status, userid, whereParam)),
        if outcome.DbError? then ThrownInCallback
        else Send(200, Obj(body["userid" := Str(userid)])))
  }

  /** `PUT /users/:userid` as written: the WHERE value is `req.params.id`,
      which the route does not declare, so it is always `undefined`; the
      echoed body carries the route's `userid`. */
  function HandleUpdateUser(body: Body, userid: string, outcome: DbOutcome): (x: Exchange)
    ensures x == UpdateUserWith(body, userid, "id", outcome)
    ensures x.query.Some? ==> |x.query.value.params| == 11 && x.query.value.params[10] == Undefined
    ensures x.query.Some? && outcome.DbOk? ==>
              && x.reply.Send? && x.reply.status == 200 && x.reply.body.Obj?
              && x.reply.body.fields.Keys == body.Keys + {"userid"}
              && x.reply.body.fields["userid"] == Str(userid)
              && (forall k :: k in body && k != "userid" ==> x.reply.body.fields[k] == body[k])
  {
    UpdateUserWith(body, userid, "id", outcome)
  }

  /** `PUT /users/:userid` with the WHERE value read from the declared
      parameter: the update targets the row the route names and nothing
      else differs from the handler as written. */
  function HandleUpdateUserCorrected(body: Body, userid: string, outcome: DbOutcome): (x: Exchange)
    ensures x.query.Some? ==> |x.query.value.params| == 11 && x.query.value.params[10] == Str(userid)
    ensures var y := HandleUpdateUser(body, userid, outcome);
            && x.reply == y.reply && x.query.Some? == y.query.Some?
            && (x.query.Some? ==> x.query.value.sql == y.query.value.sql
                                  && x.query.value.params[..10] == y.query.value.params[..10])
  {
    UpdateUserWith(body, userid, "userid", outcome)
  }

  /** As written, no update issued by `PUT /users/:userid` binds the row
      id named in its route. */
  lemma UpdateUserMissesRouteId(body: Body, userid: string, outcome: DbOutcome)
    requires !Nullish(Member(body, "status"))
    ensures HandleUpdateUser(body, userid, outcome).query.Some?
    ensures HandleUpdateUser(body, userid, outcome).query.value.params[10] != Str(userid)
    ensures HandleUpdateUserCorrected(body, userid, outcome).query.value.params[10] == Str(userid)
  {
  }

  /** `DELETE /users/:userid`: affected rows are not checked. */
  function HandleDeleteUser(userid: string, outcome: DbOutcome): (x: Exchange)
    ensures x.query.Some? && Aligned(x.query.value)
    ensures x.query.value == Query(Delete("usermaster", "userid"), [Str(userid)])
    ensures x.reply == ThrownInCallback <==> outcome.DbError?
    ensures outcome.DbOk? ==> x.reply == Send(200, MessageBody("User deleted"))
  {
    DeletePlaceholders("usermaster", "userid");
    Exchange(Some(Query(Delete("usermaster", "userid"), [Str(userid)])),
      if outcome.DbError? then ThrownInCallback else Send(200, MessageBody("User deleted")))
  }

  // ------------------------------------------------------------- students

  /** The file multer stored for the `ProfileImage` part, under the name
      it generated. */
  datatype UploadedFile = UploadedFile(filename: string)

  /** `req.file ? '/uploads/' + req.file.filename : null` */
  function ImagePath(file: Option<UploadedFile>): (p: JsValue)
    ensures file.None? ==> p == Null
    ensures file.Some? ==> p == Str("/uploads/" + file.value.filename)
    ensures Truthy(p) <==> file.Some?
  {
    match file
    case None => Null
    case Some(f) => Str("/uploads/" + f.filename)
  }

  const StudentColumns: seq<string> := ["Name", "Email", "ProfileImage"]

  /** The record `POST /student` answers with. */
  function StudentRecord(id: int, name: JsValue, email: JsValue, image: JsValue): JsValue
  {
    Obj(map["ID" := Num(id), "Name" := name, "Email" := email, "ProfileImage" := image])
  }

  /** `POST /student`: always status 200, even on a database error, whose
      body is the JSON string "Error...". */
  function HandleCreateStudent(body: Body, file: Option<UploadedFile>, outcome: DbOutcome): (x: Exchange)
    ensures x.query.Some? && Aligned(x.query.value)
    ensures x.query.value.sql == Insert("student", StudentColumns)
    ensures x.query.value.params == [Member(body, "Name"), Member(body, "Email"), ImagePath(file)]
    ensures x.reply.Send? && x.reply.status == 200
    ensures outcome.DbError? ==> x.reply.body == Str("Error...")
    ensures outcome.DbOk? ==>
              && x.reply.body.Obj?
              && x.reply.body.fields.Keys == {"ID", "Name", "Email", "ProfileImage"}
              && x.reply.body.fields["ID"] == Num(outcome.insertId)
              && x.reply.body.fields["Name"] == Member(body, "Name")
              && x.reply.body.fields["Email"] == Member(body, "Email")
              && x.reply.body.fields["ProfileImage"] == ImagePath(file)
  {
    assert Names(StudentColumns);
    InsertPlaceholders("student", StudentColumns);
    var path := ImagePath(file);
    Exchange(Some(Query(Insert("student", StudentColumns), [Member(body, "Name"), Member(body, "Email"), path])),
      if outcome.DbError? then Send(200, Str("Error..."))
      else Send(200, StudentRecord(outcome.insertId, Member(body, "Name"), Member(body, "Email"), path)))
  }

  /** The columns `PUT /student/:id` sets. */
  function StudentUpdateColumns(hasImage: bool): (cols: seq<string>)
    ensures "ProfileImage" in cols <==> hasImage
    ensures |cols| == (if hasImage then 3 else 2) && Names(cols)
    ensures cols[..2] == ["Name", "Email"]
  {
    ["Name", "Email"] + (if hasImage then ["ProfileImage"] else [])
  }

  /** The statement `PUT /student/:id` issues: the image clause and its
      value are present exactly when a file was uploaded, every
      placeholder has one value and the id is bound last. */
  function StudentUpdateQuery(body: Body, file: Option<UploadedFile>, studentId: string): (q: Query)
    ensures Aligned(q)
    ensures q.sql == Update("student", StudentUpdateColumns(file.Some?), "ID")
    ensures q.params == [Member(body, "Name"), Member(body, "Email")]
                        + (if file.Some? then [Str("/uploads/" + file.value.filename)] else [])
                        + [Str(studentId)]
    ensures |q.params| == (if file.Some? then 4 else 3) && q.params[|q.params| - 1] == Str(studentId)
  {
    var path := ImagePath(file);
    var cols := StudentUpdateColumns(Truthy(path));
    assert Names(cols);
    UpdatePlaceholders("student", cols, "ID");
    Query(Update("student", cols, "ID"),
      [Member(body, "Name"), Member(body, "Email")] + (if Truthy(path) then [path] else []) + [Str(studentId)])
  }

  /** The builder of `PUT /student/:id`, extending the text and the value
      list step by step as the source does. */
  method BuildStudentUpdate(body: Body, file: Option<UploadedFile>, studentId: string) returns (q: Query)
    ensures q == StudentUpdateQuery(body, file, studentId)
  {
    var path := ImagePath(file);
    var sql := "UPDATE student SET " + Join(Assignments(["Name", "Email"]));
    var params := [Member(body, "Name"), Member(body, "Email")];
    ghost var cols := ["Name", "Email"];
    if Truthy(path) {
      ExtendAssignments(cols, "ProfileImage");
      sql := sql + (", " + Assign("ProfileImage"));
      params := params + [path];
      cols := cols + ["ProfileImage"];
    }
    assert cols == StudentUpdateColumns(file.Some?);
    assert sql == "UPDATE student SET " + Join(Assignments(cols));
    sql := sql + (" WHERE " + Assign("ID"));
    params := params + [Str(studentId)];
    assert "UPDATE student SET " == "UPDATE " + "student" + " SET ";
    UpdateParts("student", cols, "ID");
    q := Query(sql, params);
  }

  /** The reply of the student update and delete callbacks. */
  function AffectedRowsReply(outcome: DbOutcome, failure: string, success: string): (r: Reply)
    ensures r.Send?
    ensures r.status == 500 <==> outcome.DbError?
    ensures r.status == 404 <==> outcome.DbOk? && outcome.affectedRows == 0
    ensures r.status == 200 <==> outcome.DbOk? && outcome.affectedRows > 0
    ensures r.status == 500 ==> r.body == ErrorBody(failure)
    ensures r.status == 404 ==> r.body == ErrorBody("Student not found")
    ensures r.status == 200 ==> r.body == MessageBody(success)
  {
    if outcome.DbError? then Send(500, ErrorBody(failure))
    else if outcome.affectedRows == 0 then Send(404, ErrorBody("Student not found"))
    else Send(200, MessageBody(success))
  }

  /** `PUT /student/:id` */
  method HandleUpdateStudent(body: Body, file: Option<UploadedFile>, studentId: string, outcome: DbOutcome)
    returns (x: Exchange)
    ensures x.query == Some(StudentUpdateQuery(body, file, studentId))
    ensures x.reply == AffectedRowsReply(outcome, "Failed to update student", "Student updated successfully")
  {
    var q := BuildStudentUpdate(body, file, studentId);
    x := Exchange(Some(q), AffectedRowsReply(outcome, "Failed to update student", "Student updated successfully"));
  }

  /** `DELETE /student/:id` */
  function HandleDeleteStudent(studentId: string, outcome: DbOutcome): (x: Exchange)
    ensures x.query.Some? && Aligned(x.query.value)
    ensures x.query.value == Query(Delete("student", "ID"), [Str(studentId)])
    ensures x.reply.Send? && (x.reply.status == 404 <==> outcome.DbOk? && outcome.affectedRows == 0)
    ensures x.reply.status == 500 <==> outcome.DbError?
    ensures x.reply == AffectedRowsReply(outcome, "Failed to delete student", "Student deleted successfully")
  {
    DeletePlaceholders("student", "ID");
    Exchange(Some(Query(Delete("student", "ID"), [Str(studentId)])),
      AffectedRowsReply(outcome, "Failed to delete student", "Student deleted successfully"))
  }
}
