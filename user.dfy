/**
 * The user routes: the employee lookup (`GET /user/:employeeId`), which
 * answers with a record only when exactly one row has the id, and the two
 * POST routes that add and modify an employee: their checks on the id and
 * the name, the refusal of an id that already exists, and the field-by-field
 * merge of a modification with the stored record.
 *
 * The database is a list of rows (or the error a query fails with), the
 * clock is the stamp the caller passes in, and whether the transaction
 * commits is an input. The local HTTP call the POST routes make to the lookup
 * route is the lookup itself. Where the handlers send a second answer after a
 * first one, that second `res.json` throws ERR_HTTP_HEADERS_SENT inside the
 * promise callback; nothing handles the rejection, so only the first answer
 * reaches the client, and writes already started still happen.
 */
module User {
  import opened JsText

  // ---------------------------------------------------------------------
  // Data
  // ---------------------------------------------------------------------

  /** The request body fields the handlers read. `fistName` is the `FIST_NAME`
      field the name check reads; `firstName` is the `FIRST_NAME` that is stored. */
  datatype Body = Body(
    employeeId: Option<string>, fistName: Option<string>, firstName: Option<string>,
    middleName: Option<string>, lastName: Option<string>, departmentName: Option<string>)

  /** A row of the `USER` table. */
  datatype UserRow = UserRow(
    employeeId: string, firstName: Option<string>, middleName: Option<string>,
    lastName: Option<string>, departmentName: Option<string>, lastLoginDttm: Option<string>)

  /** The table, or the error code every query fails with. */
  datatype Db = Db(rows: seq<UserRow>, error: Option<string>)

  /** A JSON value that is compared with `===`: a number or a string. */
  datatype JsValue = Num(n: int) | Text(s: string)

  /** What the lookup route sends. A record carries the selected columns; a column
      that is not selected reads as `undefined` (`None`). */
  datatype UserJson =
    | Record(employeeId: string, firstName: Option<string>, middleName: Option<string>,
             lastName: Option<string>, departmentName: Option<string>, lastLoginDttm: Option<string>)
    | NotFoundJson(id: string)   // `{code: 100, status: "Can't find employee data with id ..."}`
    | ConnErrorJson              // `{code: 100, status: "Error in connection database"}`
    | Silent                     // any other database error: nothing is sent

  // ---------------------------------------------------------------------
  // The lookup
  // ---------------------------------------------------------------------

  /** `WHERE EMPLOYEE_ID = ?`: the rows with the id, in table order. */
  function RowsWithId(rows: seq<UserRow>, id: string): (r: seq<UserRow>)
    ensures |r| <= |rows|
  {
    if rows == [] then []
    else
      var init := RowsWithId(rows[..|rows| - 1], id);
      if rows[|rows| - 1].employeeId == id then init + [rows[|rows| - 1]] else init
  }

  /** The query returns exactly the rows with the id. */
  lemma {:induction false} RowsWithIdMembers(rows: seq<UserRow>, id: string)
    ensures forall u :: u in RowsWithId(rows, id) <==> u in rows && u.employeeId == id
  {
    if rows != [] {
      RowsWithIdMembers(rows[..|rows| - 1], id);
      SplitLast(rows);
    }
  }

  /** The columns of the lookup's SELECT: `MIDDLE_NAME` is among them only when
      `selectsMiddle` holds. */
  function Project(u: UserRow, selectsMiddle: bool): UserJson {
    Record(u.employeeId, u.firstName, if selectsMiddle then u.middleName else None,
           u.lastName, u.departmentName, u.lastLoginDttm)
  }

  /** `GET /user/:employeeId`. As written the SELECT has no `MIDDLE_NAME`
      (`selectsMiddle` false). */
  function GetUser(db: Db, id: string, selectsMiddle: bool): UserJson {
    if db.error.Some? then
      (if db.error.value == "ENOTFOUND" then ConnErrorJson else Silent)
    else
      var rows := RowsWithId(db.rows, id);
      if |rows| != 1 then NotFoundJson(id) else Project(rows[0], selectsMiddle)
  }

  /** `json.code`. */
  function CodeOf(j: UserJson): Option<JsValue> {
    if j.NotFoundJson? || j.ConnErrorJson? then Some(Num(100)) else None
  }

  /** `json.EMPLOYEE_ID`. */
  function JsonId(j: UserJson): Option<string> {
    if j.Record? then Some(j.employeeId) else None
  }

  /** A record is sent exactly when the query succeeds with one row, and it is that
      row; code 100 is sent for any other number of rows and for a connection that
      cannot be made; any other error leaves the request unanswered. */
  lemma GetUserSpec(db: Db, id: string, selectsMiddle: bool)
    ensures var j := GetUser(db, id, selectsMiddle);
      (j.Record? <==> db.error.None? && |RowsWithId(db.rows, id)| == 1) &&
      (j.Record? ==> j == Project(RowsWithId(db.rows, id)[0], selectsMiddle) && RowsWithId(db.rows, id)[0] in db.rows) &&
      (CodeOf(j) == Some(Num(100)) <==>
        (db.error.Some? && db.error.value == "ENOTFOUND") || (db.error.None? && |RowsWithId(db.rows, id)| != 1)) &&
      (j.Silent? <==> db.error.Some? && db.error.value != "ENOTFOUND")
  {
    RowsWithIdMembers(db.rows, id);
    if db.error.None? && |RowsWithId(db.rows, id)| == 1 {
      assert RowsWithId(db.rows, id)[0] in RowsWithId(db.rows, id);
    }
  }

  /** A record's id is the id it was looked up by. */
  lemma GetUserId(db: Db, id: string, selectsMiddle: bool)
    ensures GetUser(db, id, selectsMiddle).Record? ==> JsonId(GetUser(db, id, selectsMiddle)) == Some(id)
  {
    RowsWithIdMembers(db.rows, id);
    if db.error.None? && |RowsWithId(db.rows, id)| == 1 {
      assert RowsWithId(db.rows, id)[0] in RowsWithId(db.rows, id);
    }
  }

  // ---------------------------------------------------------------------
  // Checks on the request
  // ---------------------------------------------------------------------

  /** `(param.EMPLOYEE_ID || '').length < 1`. */
  predicate IdMissing(b: Body) {
    |OrEmpty(b.employeeId)| < 1
  }

  /** `(param.FIST_NAME || param.LAST_NAME || param.MIDDLE_NAME || '').length < 1` as
      written, with `FIRST_NAME` in place of `FIST_NAME` otherwise. */
  predicate NameMissing(b: Body, asWritten: bool) {
    !Truthy(if asWritten then b.fistName else b.firstName) && !Truthy(b.lastName) && !Truthy(b.middleName)
  }

  /** The id check passes exactly for a present, non-empty id. */
  lemma IdMissingSpec(b: Body)
    ensures IdMissing(b) <==> !Truthy(b.employeeId)
  {
  }

  // ---------------------------------------------------------------------
  // Replies and writes
  // ---------------------------------------------------------------------

  datatype UserReply =
    | IdEmpty      // `{code: 400, status: "Employee id should not be empty."}`
    | NameEmpty    // `{code: 400, status: "Length of name should be longer than zero."}`
    | IdExists     // `{code: 100, status: "Employee id exists in the system."}`
    | IdUnknown    // `{code: 100, status: "Employee id doesn't exist in the system."}`
    | Succeeded    // `{"code": 200, "status": "Succed post request."}`
    | Failed       // `{"code": 400, "status": "Post request failed."}`

  /** The committed statement of a transaction: an INSERT, or the UPDATE of every
      column but the id of the rows with the row's id. */
  datatype Write = Insert(row: UserRow) | Update(row: UserRow)

  /** The answer the client gets (the first one sent) and what was committed. */
  datatype Outcome = Outcome(reply: Option<UserReply>, writes: seq<Write>)

  /** A second `res.json` after a first one does not reach the client. */
  function FirstOf(sent: Option<UserReply>, next: UserReply): Option<UserReply> {
    if sent.Some? then sent else Some(next)
  }

  /** A transaction of one statement: committed and answered 200, or rolled back and
      answered 400. */
  function Transact(sent: Option<UserReply>, w: Write, committed: bool): Outcome {
    if committed then Outcome(FirstOf(sent, Succeeded), [w]) else Outcome(FirstOf(sent, Failed), [])
  }

  // ---------------------------------------------------------------------
  // POST /add_user
  // ---------------------------------------------------------------------

  /** The row `insertUser` adds: the request's fields and the current stamp. */
  function NewRow(b: Body, curDttm: string): UserRow
    requires !IdMissing(b)
  {
    UserRow(b.employeeId.value, b.firstName, b.middleName, b.lastName, b.departmentName, Some(curDttm))
  }

  /** `POST /add_user`. As written the name check reads `FIST_NAME` and does not
      return after its answer, and the lookup leaves out `MIDDLE_NAME`; otherwise the
      check reads `FIRST_NAME` and ends the request. */
  function AddUser(b: Body, db: Db, curDttm: string, committed: bool, asWritten: bool): Outcome {
    if IdMissing(b) then Outcome(Some(IdEmpty), [])
    else if NameMissing(b, asWritten) && !asWritten then Outcome(Some(NameEmpty), [])
    else
      var sent := if NameMissing(b, asWritten) then Some(NameEmpty) else None;
      var json := GetUser(db, b.employeeId.value, !asWritten);
      if json.Silent? then Outcome(sent, [])
      else if JsonId(json) == b.employeeId then Outcome(FirstOf(sent, IdExists), [])
      else Transact(sent, Insert(NewRow(b, curDttm)), committed)
  }

  /** The id is checked first: an empty or missing one is answered 400 with nothing
      written, and only such an id is answered that way. */
  lemma AddUserIdChecked(b: Body, db: Db, curDttm: string, committed: bool, asWritten: bool)
    ensures var o := AddUser(b, db, curDttm, committed, asWritten);
      (o.reply == Some(IdEmpty) <==> IdMissing(b)) && (IdMissing(b) ==> o.writes == [])
  {
  }

  /** A nameless employee is refused with nothing written. */
  lemma NamelessNotInserted(b: Body, db: Db, curDttm: string, committed: bool)
    requires !IdMissing(b) && NameMissing(b, false)
    ensures AddUser(b, db, curDttm, committed, false) == Outcome(Some(NameEmpty), [])
  {
  }

  /** An id the table already holds once is refused with nothing written. */
  lemma AddUserRefusesDuplicate(b: Body, db: Db, curDttm: string, committed: bool)
    requires !IdMissing(b) && !NameMissing(b, false)
    requires db.error.None? && |RowsWithId(db.rows, b.employeeId.value)| == 1
    ensures AddUser(b, db, curDttm, committed, false) == Outcome(Some(IdExists), [])
  {
    GetUserSpec(db, b.employeeId.value, true);
    GetUserId(db, b.employeeId.value, true);
  }

  /** Whatever is written is one insert of the request's fields with the current
      stamp, after the id and name checks passed and the lookup found no record for the
      id; and it is answered 200. */
  lemma AddUserInsertsOnce(b: Body, db: Db, curDttm: string, committed: bool)
    requires AddUser(b, db, curDttm, committed, false).writes != []
    ensures !IdMissing(b) && !NameMissing(b, false)
    ensures !GetUser(db, b.employeeId.value, true).Record?
    ensures AddUser(b, db, curDttm, committed, false) == Outcome(Some(Succeeded), [Insert(NewRow(b, curDttm))])
  {
    GetUserId(db, b.employeeId.value, true);
  }

  /** The effect of a committed statement on the table. */
  function Apply(rows: seq<UserRow>, w: Write): seq<UserRow> {
    match w
    case Insert(u) => rows + [u]
    case Update(u) => UpdateRows(rows, u)
  }

  /** The UPDATE: every row with the id takes the new values. */
  function UpdateRows(rows: seq<UserRow>, u: UserRow): (r: seq<UserRow>)
    ensures |r| == |rows|
  {
    if rows == [] then []
    else
      var last := rows[|rows| - 1];
      UpdateRows(rows[..|rows| - 1], u) + [if last.employeeId == u.employeeId then u else last]
  }

  lemma {:induction false} RowsWithIdInsert(rows: seq<UserRow>, u: UserRow)
    ensures RowsWithId(rows + [u], u.employeeId) == RowsWithId(rows, u.employeeId) + [u]
  {
    assert (rows + [u])[..|rows|] == rows;
  }

  /** An employee added to a table without the id is found by the lookup afterwards,
      with the fields that were sent. */
  lemma AddThenGet(b: Body, db: Db, curDttm: string)
    requires !IdMissing(b) && !NameMissing(b, false)
    requires db.error.None? && RowsWithId(db.rows, b.employeeId.value) == []
    ensures var o := AddUser(b, db, curDttm, true, false);
      o.writes == [Insert(NewRow(b, curDttm))] &&
      GetUser(Db(Apply(db.rows, o.writes[0]), None), b.employeeId.value, true) == Project(NewRow(b, curDttm), true)
  {
    RowsWithIdInsert(db.rows, NewRow(b, curDttm));
  }

  // ---------------------------------------------------------------------
  // POST /modify_user
  // ---------------------------------------------------------------------

  /** `json.FIRST_NAME` and the other stored columns; `undefined` when the answer is not a
      record. */
  function StoredFirst(j: UserJson): Option<string> { if j.Record? then j.firstName else None }

  function StoredMiddle(j: UserJson): Option<string> { if j.Record? then j.middleName else None }

  function StoredLast(j: UserJson): Option<string> { if j.Record? then j.lastName else None }

  function StoredDepartment(j: UserJson): Option<string> { if j.Record? then j.departmentName else None }

  /** The four assignments `param.X = param.X || json.X`. */
  function Merge(b: Body, j: UserJson): Body {
    b.(firstName := Or(b.firstName, StoredFirst(j)),
       middleName := Or(b.middleName, StoredMiddle(j)),
       lastName := Or(b.lastName, StoredLast(j)),
       departmentName := Or(b.departmentName, StoredDepartment(j)))
  }

  /** Each of the four fields keeps the request's value when it is a non-empty string
      and takes the stored one otherwise; the id and the `FIST_NAME` field are
      untouched. */
  lemma MergeFields(b: Body, j: UserJson)
    ensures var m := Merge(b, j);
      m.employeeId == b.employeeId && m.fistName == b.fistName &&
      (Truthy(b.firstName) ==> m.firstName == b.firstName) && (!Truthy(b.firstName) ==> m.firstName == StoredFirst(j)) &&
      (Truthy(b.middleName) ==> m.middleName == b.middleName) && (!Truthy(b.middleName) ==> m.middleName == StoredMiddle(j)) &&
      (Truthy(b.lastName) ==> m.lastName == b.lastName) && (!Truthy(b.lastName) ==> m.lastName == StoredLast(j)) &&
      (Truthy(b.departmentName) ==> m.departmentName == b.departmentName) &&
      (!Truthy(b.departmentName) ==> m.departmentName == StoredDepartment(j))
  {
  }

  /** Merging with the same record a second time changes nothing. */
  lemma MergeIdempotent(b: Body, j: UserJson)
    ensures Merge(Merge(b, j), j) == Merge(b, j)
  {
  }

  /** The request body the handler updates in place. */
  class Params {
    var employeeId: Option<string>
    var fistName: Option<string>
    var firstName: Option<string>
    var middleName: Option<string>
    var lastName: Option<string>
    var departmentName: Option<string>

    constructor (b: Body)
      ensures Snapshot() == b
    {
      employeeId := b.employeeId;
      fistName := b.fistName;
      firstName := b.firstName;
      middleName := b.middleName;
      lastName := b.lastName;
      departmentName := b.departmentName;
    }

    function Snapshot(): Body
      reads this
    {
      Body(employeeId, fistName, firstName, middleName, lastName, departmentName)
    }

    /** Lines 189-192 of the handler: the four fields fall back to the stored ones. */
    method MergeStored(json: UserJson)
      modifies this
      ensures Snapshot() == Merge(old(Snapshot()), json)
    {
      firstName := Or(firstName, StoredFirst(json));
      middleName := Or(middleName, StoredMiddle(json));
      lastName := Or(lastName, StoredLast(json));
      departmentName := Or(departmentName, StoredDepartment(json));
    }
  }

  /** The row `updateUser` writes for a merged body: its fields and the current stamp. */
  function UpdatedRow(m: Body, curDttm: string): UserRow
    requires !IdMissing(m)
  {
    UserRow(m.employeeId.value, m.firstName, m.middleName, m.lastName, m.departmentName, Some(curDttm))
  }

  /** `'100' === json.code` as written (a string never equals the number the lookup
      sends), `100 === json.code` otherwise. */
  predicate NotFound(j: UserJson, asWritten: bool) {
    CodeOf(j) == Some(if asWritten then Text("100") else Num(100))
  }

  /** `POST /modify_user`. */
  function ModifyUser(b: Body, db: Db, curDttm: string, committed: bool, asWritten: bool): Outcome {
    if IdMissing(b) then Outcome(Some(IdEmpty), [])
    else if NameMissing(b, asWritten) && !asWritten then Outcome(Some(NameEmpty), [])
    else
      var sent := if NameMissing(b, asWritten) then Some(NameEmpty) else None;
      var json := GetUser(db, b.employeeId.value, !asWritten);
      if json.Silent? then Outcome(sent, [])
      else if NotFound(json, asWritten) then Outcome(FirstOf(sent, IdUnknown), [])
      else Transact(sent, Update(UpdatedRow(Merge(b, json), curDttm)), committed)
  }

  /** An id the lookup does not find is answered code 100 with nothing written. */
  lemma UnknownIdRefused(b: Body, db: Db, curDttm: string, committed: bool)
    requires !IdMissing(b) && !NameMissing(b, false)
    requires db.error.None? && |RowsWithId(db.rows, b.employeeId.value)| != 1
    ensures ModifyUser(b, db, curDttm, committed, false) == Outcome(Some(IdUnknown), [])
  {
  }

  /** Whatever is written is one update of the merged fields with the current stamp,
      for an id the lookup found exactly once. */
  lemma ModifyUserUpdatesOnce(b: Body, db: Db, curDttm: string, committed: bool)
    requires ModifyUser(b, db, curDttm, committed, false).writes != []
    ensures !IdMissing(b) && !NameMissing(b, false)
    ensures db.error.None? && |RowsWithId(db.rows, b.employeeId.value)| == 1
    ensures var j := GetUser(db, b.employeeId.value, true);
      ModifyUser(b, db, curDttm, committed, false) ==
        Outcome(Some(Succeeded), [Update(UpdatedRow(Merge(b, j), curDttm))])
  {
    GetUserSpec(db, b.employeeId.value, true);
  }

  /** A modification that leaves the middle name out keeps the stored one. */
  lemma StoredMiddleNameKept(b: Body, db: Db, curDttm: string)
    requires !IdMissing(b) && !NameMissing(b, false) && !Truthy(b.middleName)
    requires db.error.None? && |RowsWithId(db.rows, b.employeeId.value)| == 1
    ensures var o := ModifyUser(b, db, curDttm, true, false);
      o.writes != [] && o.writes[0].row.middleName == RowsWithId(db.rows, b.employeeId.value)[0].middleName
  {
  }

  // ---------------------------------------------------------------------
  // The handlers as written
  // ---------------------------------------------------------------------

  /** As written, a request without any name is answered 400 and the employee is
      inserted all the same. */
  lemma NamelessStillInserted(id: string, db: Db, curDttm: string)
    requires id != "" && db.error.None? && RowsWithId(db.rows, id) == []
    ensures var b := Body(Some(id), None, None, None, None, None);
      AddUser(b, db, curDttm, true, true) == Outcome(Some(NameEmpty), [Insert(NewRow(b, curDttm))])
  {
  }

  /** As written, a request that names the employee only by `FIRST_NAME` is answered
      as nameless (and, the check not returning, the employee is inserted after that
      answer). */
  lemma FirstNameOnlyFlagged(b: Body, db: Db, curDttm: string)
    requires b.fistName.None? && Truthy(b.firstName) && !Truthy(b.lastName) && !Truthy(b.middleName)
    requires !IdMissing(b) && db.error.None? && RowsWithId(db.rows, b.employeeId.value) == []
    ensures NameMissing(b, true)
    ensures AddUser(b, db, curDttm, true, true) == Outcome(Some(NameEmpty), [Insert(NewRow(b, curDttm))])
  {
  }

  /** With the check on `FIRST_NAME`, the same request passes it and is answered 200
      for its one insert. */
  lemma FirstNameOnlyAdded(b: Body, db: Db, curDttm: string)
    requires b.fistName.None? && Truthy(b.firstName) && !Truthy(b.lastName) && !Truthy(b.middleName)
    requires !IdMissing(b) && db.error.None? && RowsWithId(db.rows, b.employeeId.value) == []
    ensures !NameMissing(b, false)
    ensures AddUser(b, db, curDttm, true, false) == Outcome(Some(Succeeded), [Insert(NewRow(b, curDttm))])
  {
    AddThenGet(b, db, curDttm);
  }

  /** As written, an id the lookup does not find is updated (an UPDATE of no row) and
      answered 200. */
  lemma UnknownIdUpdatedAsWritten(b: Body, db: Db, curDttm: string)
    requires !IdMissing(b) && !NameMissing(b, true)
    requires db.error.None? && RowsWithId(db.rows, b.employeeId.value) == []
    ensures var o := ModifyUser(b, db, curDttm, true, true);
      o.reply == Some(Succeeded) &&
      o.writes == [Update(UpdatedRow(Merge(b, NotFoundJson(b.employeeId.value)), curDttm))]
  {
  }

  /** As written, a modification that leaves the middle name out clears the stored
      one, because the lookup does not select it. */
  lemma MiddleNameErasedAsWritten(b: Body, db: Db, curDttm: string)
    requires !IdMissing(b) && !NameMissing(b, true) && b.middleName.None?
    requires db.error.None? && |RowsWithId(db.rows, b.employeeId.value)| == 1
    ensures var o := ModifyUser(b, db, curDttm, true, true);
      o.writes != [] && o.writes[0].row.middleName == None
  {
  }
}
