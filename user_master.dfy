/** The user page of frontend/src/UserMaster.js: the id counter derived
    from the fetched list, the table (`users`), the edit pointer
    (`editUser`), the form's initial values and validation, and the
    transitions run in the success continuation of each request. */
module UserMaster {
  import opened Wrappers
  import opened Rows

  /** A user as the form and the table hold it. The table's rows come
      from `GET /users`; the status flags are modelled as booleans. */
  datatype User = User(
    userid: int, username: string, user_firstname: string, user_lastname: string,
    user_email: string, user_phone: string, user_password: string,
    user_confirmpassword: string, role: string, isactive: bool, isdeleted: bool)

  function UserId(u: User): int
  {
    u.userid
  }

  /** `users.reduce((maxId, user) => Math.max(maxId, user.userid), init)`:
      the largest of `init` and every userid. */
  function MaxUserId(users: seq<User>, init: int): (m: int)
    ensures m >= init
    ensures forall i :: 0 <= i < |users| ==> users[i].userid <= m
    ensures m == init || exists i :: 0 <= i < |users| && users[i].userid == m
  {
    if users == [] then init
    else
      var acc := if init >= users[0].userid then init else users[0].userid;
      var m := MaxUserId(users[1..], acc);
      assert forall i :: 1 <= i < |users| ==> users[i] == users[1..][i - 1];
      m
  }

  /** The counter set after the fetch: one more than the largest userid,
      and 1 for an empty list or one of non-positive ids. */
  function NextUserId(users: seq<User>): (c: int)
    ensures c >= 1
    ensures forall i :: 0 <= i < |users| ==> users[i].userid < c
    ensures users == [] ==> c == 1
    ensures c == 1 || exists i :: 0 <= i < |users| && users[i].userid == c - 1
  {
    MaxUserId(users, 0) + 1
  }

  /** The empty form of create mode. */
  const DefaultValues: User := User(0, "", "", "", "", "", "", "", "", false, false)

  /** `editUser || { userid: 0, ..., isactive: false, isdeleted: false }` */
  function InitialValues(editUser: Option<User>): (v: User)
    ensures editUser.Some? ==> v == editUser.value
    ensures editUser.None? ==>
              && v.userid == 0 && v.username == "" && v.user_firstname == "" && v.user_lastname == ""
              && v.user_email == "" && v.user_phone == "" && v.user_password == ""
              && v.user_confirmpassword == "" && v.role == "" && !v.isactive && !v.isdeleted
  {
    match editUser
    case Some(u) => u
    case None => DefaultValues
  }

  /** The fields the validation schema has rules for, besides the two
      booleans: every one is a required string. */
  const RequiredFields: set<string> := {
    "username", "user_firstname", "user_lastname", "user_phone", "user_email",
    "user_password", "user_confirmpassword", "role"}

  /** Whether the rule of one field fails: a required string must be
      non-empty, and the confirmation must also be one of [user_password]. */
  predicate Rejected(v: User, field: string)
  {
    if field == "username" then v.username == ""
    else if field == "user_firstname" then v.user_firstname == ""
    else if field == "user_lastname" then v.user_lastname == ""
    else if field == "user_phone" then v.user_phone == ""
    else if field == "user_email" then v.user_email == ""
    else if field == "user_password" then v.user_password == ""
    else if field == "user_confirmpassword" then
      v.user_confirmpassword !in [v.user_password] || v.user_confirmpassword == ""
    else if field == "role" then v.role == ""
    else false
  }

  /** The fields the validation schema rejects. The boolean fields always
      hold a boolean, so their rules always pass. The email-format test is
      not part of this model. */
  function FormErrors(v: User): (errs: set<string>)
    ensures errs <= RequiredFields
    ensures "username" in errs <==> v.username == ""
    ensures "user_firstname" in errs <==> v.user_firstname == ""
    ensures "user_lastname" in errs <==> v.user_lastname == ""
    ensures "user_phone" in errs <==> v.user_phone == ""
    ensures "user_email" in errs <==> v.user_email == ""
    ensures "user_password" in errs <==> v.user_password == ""
    ensures "user_confirmpassword" in errs <==>
              v.user_confirmpassword == "" || v.user_confirmpassword != v.user_password
    ensures "role" in errs <==> v.role == ""
  {
    set field | field in RequiredFields && Rejected(v, field)
  }

  predicate FormValid(v: User)
  {
    FormErrors(v) == {}
  }

  lemma FormValidIff(v: User)
    ensures FormValid(v) <==>
              && v.username != "" && v.user_firstname != "" && v.user_lastname != ""
              && v.user_phone != "" && v.user_email != "" && v.user_password != ""
              && v.user_confirmpassword == v.user_password && v.role != ""
  {
  }

  /** The empty create form cannot be submitted. */
  lemma DefaultValuesRejected()
    ensures !FormValid(InitialValues(None))
  {
  }

  /** The requests `handleSubmit` issues: PUT to the edited user's id, or
      POST of the values with the counter as userid. */
  datatype UserRequest = PutUser(target: int, values: User) | PostUser(values: User)

  /** The state of the UserMaster component. */
  class UserMasterState {
    var userIdCounter: int
    var users: seq<User>
    var editUser: Option<User>

    constructor ()
      ensures userIdCounter == 1 && users == [] && editUser == None
    {
      userIdCounter := 1;
      users := [];
      editUser := None;
    }

    /** The mount effect, once `GET /users` has answered. */
    method Loaded(fetched: seq<User>)
      modifies this
      ensures users == fetched && userIdCounter == NextUserId(fetched) && editUser == old(editUser)
    {
      users := fetched;
      var lastUserId := MaxUserId(fetched, 0);
      userIdCounter := lastUserId + 1;
    }

    /** `handleEdit` */
    method Edit(u: User)
      modifies this
      ensures editUser == Some(u) && users == old(users) && userIdCounter == old(userIdCounter)
    {
      editUser := Some(u);
    }

    /** `handleSubmit`, which Formik calls only with values that validate.
        In create mode the values get the counter as userid before the POST;
        the state itself changes only once the request has succeeded. */
    method Submit(values: User) returns (req: UserRequest)
      requires FormValid(values)
      ensures editUser.Some? <==> req.PutUser?
      ensures editUser.Some? ==> req == PutUser(editUser.value.userid, values)
      ensures editUser.None? ==> req.values.userid == userIdCounter
      ensures editUser.None? ==> req == PostUser(values.(userid := userIdCounter))
    {
      if editUser.Some? {
        req := PutUser(editUser.value.userid, values);
      } else {
        var posted := values.(userid := userIdCounter);
        req := PostUser(posted);
      }
    }

    /** After the request and the `GET /users` refetch have both succeeded:
        the table is the refetched list; an update leaves edit mode, a
        create steps the counter by one (it is not recomputed from the
        refetched list). */
    method SubmitSucceeded(req: UserRequest, refetched: seq<User>)
      modifies this
      ensures users == refetched
      ensures req.PutUser? ==> editUser == None && userIdCounter == old(userIdCounter)
      ensures req.PostUser? ==> editUser == old(editUser) && userIdCounter == old(userIdCounter) + 1
    {
      users := refetched;
      match req
      case PutUser(_, _) =>
        editUser := None;
      case PostUser(_) =>
        userIdCounter := userIdCounter + 1;
    }

    /** After a confirmed `DELETE /users/:userid`. */
    method DeleteSucceeded(userId: int)
      modifies this
      ensures users == Without(old(users), UserId, userId)
      ensures editUser == old(editUser) && userIdCounter == old(userIdCounter)
    {
      users := Without(users, UserId, userId);
    }
  }
}
