# CRUD administration system: a Dafny model of its route and page logic

The system is a small administration tool for two tables, `usermaster`
and `student`. An Express API service turns each HTTP route into one
parameterised MySQL statement. Two React pages each keep a table and an
edit pointer, and submit a Formik form. This project models the decisions
those three files make, once the network, the database and the rendering
are removed:

- **Route handlers** of `backend/server.js` (modules `Server`, `Sql`, `Js`).
  A handler takes the parsed request and the outcome of its one database
  call (`DbOutcome`: an error, or `affectedRows` and `insertId`). It yields
  the statement it issues and its reply (`Exchange`). The SQL texts are
  rendered from their table and column names, so the number of `?`
  placeholders can be related to the bound values. Request bodies are
  untyped JavaScript values (`JsValue`), because the only server-side
  validation is a `typeof` test.
- **The student page**, `frontend/src/App.js` (module `StudentPage`). It
  covers the form's initial values and validation rules and the FormData
  it sends. The class `StudentPageState` holds `data` and `editing` and
  runs each request's success continuation.
- **The user page**, `frontend/src/UserMaster.js` (module `UserMaster`).
  It covers the id counter, the initial values and the validation rules.
  The class `UserMasterState` holds `userIdCounter`, `users` and
  `editUser`.
- **The delete filter** both pages share (module `Rows`).
- **Where page and server meet** (module `Interplay`). This is the JSON
  body axios sends, and what multer makes of the student FormData.

Requests are answered one at a time. Each request's success continuation
is a method of the page's class. A failure continuation only logs, so it
changes nothing.

Three behaviours of the source are stated and proved as they are:

- `PUT /users/:userid` binds `req.params.id` in its WHERE clause. The
  route never declares that parameter, so the bound value is always
  `undefined` (`Server.HandleUpdateUser`, see Findings).
- The user page sends `isactive`/`isdeleted` at the top level of its PUT
  body. The server reads `status.isactive`, and the body has no `status`.
  So every update issued from the page throws in the handler before any
  query runs (`Interplay.UpdateFromFormThrows`).
- `POST /student` answers status 200 even on a database error. The body
  is then the JSON string `"Error..."` (`Server.HandleCreateStudent`).

The model assumes these platform semantics, each written as a plain
definition and not as a property of the source:

- Destructuring `req.body` and reading a property of an object
  (`Js.Member`) gives the stored value, or `undefined` for a missing key,
  for keys that `Object.prototype` does not define.
- Reading a property of a value that is neither an object nor nullish
  (`Js.Get`) gives `undefined`, for keys that no built-in prototype
  defines.
- `req.params.name` (`Server.Param`) is the route's string for a declared
  parameter, and `undefined` otherwise.
- `req.file` (`Interplay.MultipartFile`) is present exactly when a
  `ProfileImage` file part was sent, and it carries the name multer stored
  it under.

## Model

| member | source | states |
|---|---|---|
| `Js.TypeOf` | backend/server.js:45 | `typeof` gives "boolean" exactly for a boolean and "undefined" exactly for `undefined` |
| `Sql.InsertPlaceholders` | backend/server.js:50 | an INSERT over n columns holds exactly n placeholders |
| `Sql.ExtendAssignments` | backend/server.js:133-134 | appending a column to a SET list appends exactly `, column = ?` to its text |
| `Sql.UpdatePlaceholders` | backend/server.js:87 | an UPDATE setting n columns holds exactly n + 1 placeholders |
| `Sql.DeletePlaceholders` | backend/server.js:95 | a DELETE by key holds exactly one placeholder |
| `Sql.PlaceholdersConcat` | backend/server.js:133 | appending text adds its placeholders to the count |
| `Sql.JoinPlaceholders` | backend/server.js:87 | a ", "-joined list of items with k placeholders each holds k times their number |
| `Server.UserColumnsAreNames` | backend/server.js:50 | the ten inserted columns are plain names, and `userid` is not one of them |
| `Server.CreateUserQuery` | backend/server.js:50-51 | the statement is the INSERT into `usermaster` over the ten columns in order; ten values are bound to its ten placeholders; the i-th value is the body field named by the i-th column |
| `Server.CreateUserReadsOnlyColumns` | backend/server.js:43-51 | two bodies that agree on the ten inserted properties get the same validation, statement, values and reply |
| `Server.HandleCreateUser` | backend/server.js:40-64 | a query is issued iff both `isactive` and `isdeleted` are booleans; otherwise 400 "Invalid status fields"; 500 "Error saving user" iff issued and the database fails; 201 "User saved successfully" iff issued and it succeeds |
| `Server.UserRouteParams` | backend/server.js:85 | the route `/users/:userid` declares exactly the parameter `userid` |
| `Server.Flag` | backend/server.js:88 | `flag ? 1 : 0` is always 0 or 1, and 1 exactly for a truthy flag |
| `Server.UpdateUserQuery` | backend/server.js:86-88 | eleven values aligned with the UPDATE's placeholders: eight body fields in column order, the two status flags as 1/0, then the value of the chosen route parameter as the WHERE value |
| `Server.UpdateUserWith` | backend/server.js:85-92 | no query, and a throw in the handler, iff `status` is null or undefined; otherwise the query of `Server.UpdateUserQuery`; a database error throws in the callback; success echoes the body with `userid` set to the route parameter |
| `Server.HandleUpdateUser` | backend/server.js:85-92 | as written, it is `Server.UpdateUserWith` with the undeclared parameter `id`, so the WHERE value is always `undefined`; the 200 echo has the body's keys plus `userid`, holds the route's `userid`, and keeps every other field |
| `Server.HandleUpdateUserCorrected` | backend/server.js:88 | binding the declared `userid` puts the route's id in WHERE; the reply, the text and the other ten values are those of the handler as written |
| `Server.UpdateUserMissesRouteId` | backend/server.js:88 | whenever the update is issued, the handler as written never binds the route's id, and the corrected one always does |
| `Server.HandleDeleteUser` | backend/server.js:94-100 | one aligned DELETE bound to the route id; a database error throws in the callback; otherwise 200 "User deleted", whatever the affected-row count |
| `Server.ImagePath` | backend/server.js:126 | null without an uploaded file, else "/uploads/" + the stored filename; truthy exactly when a file was uploaded |
| `Server.HandleCreateStudent` | backend/server.js:112-121 | one aligned INSERT of Name, Email and the image path; status 200 on every outcome; a database error answers "Error..."; success answers exactly {ID: insertId, Name, Email, ProfileImage: path} |
| `Server.StudentUpdateColumns` | backend/server.js:129-135 | the SET list is Name, Email and nothing else without an image, and Name, Email plus ProfileImage with one; its columns are plain names |
| `Server.StudentUpdateQuery` | backend/server.js:123-138 | placeholders equal bound values; the ProfileImage clause and its value are present iff a file was uploaded; params = [Name, Email] ++ [path if file] ++ [id], 4 or 3 long, the id last |
| `Server.BuildStudentUpdate` | backend/server.js:129-138 | the text and values extended step by step equal the statement specified above |
| `Server.AffectedRowsReply` | backend/server.js:140-149 | 500 iff the database fails, 404 "Student not found" iff no row was affected, 200 with the success message otherwise |
| `Server.HandleUpdateStudent` | backend/server.js:123-150 | issues the specified update and answers by the affected-rows mapping |
| `Server.HandleDeleteStudent` | backend/server.js:152-165 | one aligned DELETE bound to the id; 404 iff zero rows affected; 500 iff the database fails |
| `Rows.Without` | frontend/src/App.js:41 | every kept row is an original row without the key, and every original row without the key is kept |
| `Rows.WithoutAppend` | frontend/src/App.js:41 | order is kept: filtering a concatenation filters each part |
| `Rows.WithoutAbsent` | frontend/src/App.js:41 | deleting a key no row has changes nothing |
| `Rows.WithoutLength` | frontend/src/App.js:41 | the length drops by exactly the number of rows with the key |
| `Rows.WithoutIdempotent` | frontend/src/UserMaster.js:79 | deleting the same key twice equals deleting it once |
| `StudentPage.InitialValues` | frontend/src/App.js:133-141 | edit mode copies Name, Email, IsActive, IsDeleted from the row; create mode has blanks, IsActive true, IsDeleted false; passwords empty and no image in both |
| `StudentPage.FormErrors` | frontend/src/App.js:112-127 | Name, Email and Password are rejected iff empty; ConfirmPassword iff empty or different from Password; no other field is rejected |
| `StudentPage.FormValidIff` | frontend/src/App.js:112-122 | in the model, which leaves out the email-format test, the form validates iff Name, Email, Password are non-empty and ConfirmPassword equals Password |
| `StudentPage.InitialValuesRejected` | frontend/src/App.js:133-141 | the `initialValues` expression never validates, in either mode, because both passwords start empty |
| `StudentPage.FormDataOf` | frontend/src/App.js:47-55 | Name, Email, Password, IsActive and IsDeleted text parts in that order with the form's values, then a ProfileImage part carrying the chosen file iff one was chosen; only that part is a file; ConfirmPassword is never sent |
| `StudentPage.BuildFormData` | frontend/src/App.js:47-55 | the sequence of `append` calls builds exactly that FormData |
| `StudentPage.EditedRow` | frontend/src/App.js:72 | an edited row keeps its ID and takes the form's fields; its image is kept without a new file, else it becomes "/uploads/" + the file's original name |
| `StudentPage.ApplyEdit` | frontend/src/App.js:70-74 | the length is unchanged; rows with the edited ID become the edited row; every other row is identical |
| `StudentPage.ApplyEditKeepsIds` | frontend/src/App.js:70-74 | no row's ID changes |
| `StudentPage.ApplyEditIdempotent` | frontend/src/App.js:70-74 | applying the same update twice equals applying it once |
| `StudentPage.DeleteAfterEdit` | frontend/src/App.js:41 | deleting an ID after updating it gives what deleting it alone gives |
| `StudentPage.StudentPageState.constructor` | frontend/src/App.js:8-9 | the table starts empty and not in edit mode |
| `StudentPage.StudentPageState.Loaded` | frontend/src/App.js:20-22 | the fetched rows become the table |
| `StudentPage.StudentPageState.Edit` | frontend/src/App.js:26-28 | edit mode points at the chosen row; the table is unchanged |
| `StudentPage.StudentPageState.Cancel` | frontend/src/App.js:192 | leaves edit mode without touching the table |
| `StudentPage.StudentPageState.Submit` | frontend/src/App.js:46-109 | with validating values: a PUT to the edited row's ID iff in edit mode, a POST otherwise, carrying the FormData of the values; no state changes |
| `StudentPage.StudentPageState.DeleteSucceeded` | frontend/src/App.js:40-42 | the table becomes the old table without the rows of that ID |
| `StudentPage.StudentPageState.UpdateSucceeded` | frontend/src/App.js:69-75 | the table becomes the edited table and edit mode ends |
| `StudentPage.StudentPageState.CreateSucceeded` | frontend/src/App.js:98-99 | the returned record is appended after the unchanged old rows |
| `UserMaster.MaxUserId` | frontend/src/UserMaster.js:32 | the reduce yields at least its seed, at least every userid, and is the seed or one of the userids |
| `UserMaster.NextUserId` | frontend/src/UserMaster.js:32-33 | the counter exceeds every fetched userid, is at least 1 and is 1 for an empty list; it is 1 or one more than some userid |
| `UserMaster.InitialValues` | frontend/src/UserMaster.js:85-97 | the edited user if any, else userid 0, empty strings and both flags false |
| `UserMaster.FormErrors` | frontend/src/UserMaster.js:7-20 | each required string field is rejected iff empty; the confirmation iff empty or different from the password |
| `UserMaster.FormValidIff` | frontend/src/UserMaster.js:7-20 | in the model, which leaves out the email-format test, the form validates iff every required string is non-empty and the confirmation equals the password |
| `UserMaster.DefaultValuesRejected` | frontend/src/UserMaster.js:85-97 | the empty create form does not validate |
| `UserMaster.UserMasterState.constructor` | frontend/src/UserMaster.js:23-25 | counter 1, empty list, not in edit mode |
| `UserMaster.UserMasterState.Loaded` | frontend/src/UserMaster.js:27-36 | the fetched list becomes the table and the counter becomes one more than its largest userid |
| `UserMaster.UserMasterState.Edit` | frontend/src/UserMaster.js:71-74 | edit mode points at the chosen user; list and counter unchanged |
| `UserMaster.UserMasterState.Submit` | frontend/src/UserMaster.js:38-55 | with validating values: a PUT to the edited user's id iff in edit mode; otherwise a POST of the values with userid set to the current counter |
| `UserMaster.UserMasterState.SubmitSucceeded` | frontend/src/UserMaster.js:38-68 | the list becomes the refetched one; after a PUT edit mode ends and the counter is kept; after a POST the counter steps by exactly one |
| `UserMaster.UserMasterState.DeleteSucceeded` | frontend/src/UserMaster.js:76-83 | the list becomes the old list without the users of that userid; counter and edit mode unchanged |
| `Interplay.UserJson` | frontend/src/UserMaster.js:40 | the body axios sends has the form's userid and boolean flags and no `status` property |
| `Interplay.CreateFromFormIssuesInsert` | backend/server.js:45-48 | a create from the user page always passes the boolean check and reaches the database |
| `Interplay.CreateIgnoresClientUserId` | frontend/src/UserMaster.js:54 | the userid the page assigns before the POST does not change what the server does |
| `Interplay.UpdateFromFormThrows` | backend/server.js:86-88 | an update from the user page throws in the handler and issues no query |
| `Interplay.MultipartFields` | backend/server.js:123 | every body field multer builds from text parts is a string |
| `Interplay.UpdateStudentFromForm` | backend/server.js:123-138 | for the page's FormData, the server binds the typed Name and Email; it adds the image clause and the stored path iff a file was chosen, then the id |
| `Interplay.ShownPathMatchesStoredIff` | frontend/src/App.js:72 | the path the page shows after an update equals the server's stored path iff the original file name equals the stored name |

## Left out

- The MySQL connection and its connect error: the database is replaced by the `DbOutcome` input. SQL itself is not executed.
- multer's disk storage and its `Date.now() + extension` file name: the stored name is a parameter of the model, because it depends on the clock and the filesystem.
- Express wiring, CORS, body parsing and the static `/uploads` route: framework behaviour.
- The read routes `GET /users`, `GET /users/:userid` and `GET /student`: they pass the database answer through.
- fetch and axios networking, promise chaining, `alert` and `console` logging: I/O. A failure continuation only logs, so the model has no transition for it.
- Rendering of the tables and forms, `resetForm`, `setSubmitting` and the file-input reset: these produce no state the model holds.
- frontend/src/AppRoutes.js is not part of this model: it is router configuration.
- Concurrency between requests in flight: requests are modelled one at a time.
- `StudentPage.FormErrors`, `StudentPage.FormValidIff`: do not model the email-format test, because that is a regular expression inside the validation library. The model's `FormValid` therefore accepts any non-empty Email, which the page rejects when malformed.
- `UserMaster.FormErrors`, `UserMaster.FormValidIff`: do not model the email-format test, for the same reason. The model's `FormValid` therefore accepts any non-empty user_email, which the page rejects when malformed.
- `StudentPage.InitialValues`, `StudentPage.InitialValuesRejected`, `UserMaster.InitialValues`: the model states the `initialValues` expression. Neither page asks Formik to reinitialise (no `enableReinitialize`, no `key`), so Formik keeps the values of its first render. A later Edit therefore switches the title, the button and the submit branch, but does not load the row into the form's fields; the model does not hold the form's values, so it does not capture this.
- `Js.JsValue`: JSON arrays have no case of their own, and `Obj` is a map, so property order (as in the echo `{ ...req.body, userid }`) is not kept. No modelled outcome depends on either: `typeof`, truthiness and reads of `isactive`/`isdeleted` treat an array as they treat an object, and nothing reads the order.
- `Js.JsValue`: numbers are integers. Fractions, NaN and `Math.max` coercing non-number userids are not modelled, because the fields involved hold integers.
- `Js.Member`, `Js.Get`: properties inherited from a prototype (`toString` on an object, `length` on a string) are not modelled. The handlers read only column names, `status`, `isactive` and `isdeleted`, which no built-in prototype defines.
- Exceptions in query callbacks (`ThrownInCallback`): an exception thrown in a query callback is rethrown by the mysql driver as an uncaught exception, which ends the Node process. The model records the throw for that one request; it does not model that later requests then go unanswered.
- `Js.Get`: reading a property of `null` or `undefined` throws in JavaScript. The model represents that throw only where the source reads request data (`status` in `PUT /users/:userid`).
- `UserMaster.User`: MySQL returns `isactive`/`isdeleted` as 0/1. The page's rows model them as booleans.
- `StudentPage.StudentPageState.CreateSucceeded`: takes a typed row. So it does not capture that the server's 200 `"Error..."` answer to a failed create would be appended to the table as a row.
- `UserMaster.UserMasterState.Submit`: the source assigns `values.userid` in place on Formik's values object. The model places the updated record in the request instead. A successful create resets the form's values. After a failed POST or a failed refetch, the assigned userid stays in the form, where the read-only User Id field shows it; the model does not hold the form's values, so it does not capture this.
- `Interplay.MultipartFields`: multer's merging of repeated field names into arrays is not modelled. The page never sends a name twice.
- JSON encoding of replies, which drops members whose value is `undefined`, is not modelled. Reply bodies are `JsValue` objects.
- Route ids are strings in the model. The page's conversion of a numeric ID into its URL is not modelled.

## Findings

| source | as written | input that shows it | evidently intended | confidence | as-written member | corrected member |
|---|---|---|---|---|---|---|
| backend/server.js:88 | the WHERE value bound is `req.params.id`, a parameter the route `/users/:userid` does not declare, so it is always `undefined` | `PUT /users/7` with body `{status: {isactive: true, isdeleted: false}}`: the eleventh bound value is `undefined`, not "7" | bind `req.params.userid`, the id the route names and the reply echoes | high; not executed | `Server.HandleUpdateUser` (exhibited by `Server.UpdateUserMissesRouteId`) | `Server.HandleUpdateUserCorrected` |

The handler as written stays the model of the route. The corrected
handler differs only in the WHERE value, and that is proved beside it.
