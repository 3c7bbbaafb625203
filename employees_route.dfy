/**
 * /api/admin/employees. POST creates an employee account: name, email and
 * password are required, the email must be new, the password is stored
 * hashed with 10 rounds and the role is "USER"; anything else in the body is
 * ignored. GET lists the "USER" accounts without their passwords, newest
 * (largest id) first.
 */
module EmployeesRoute {
  import opened Wrappers
  import opened Js
  import opened Store
  import Seqs

  const MissingFieldsMessage: string := "名前、メールアドレス、パスワードは必須です"
  const EmailTakenMessage: string := "このメールアドレスは既に使用されています"
  const CreateFailedMessage: string := "従業員の作成に失敗しました"
  const ListFailedMessage: string := "従業員一覧の取得に失敗しました"

  /** The JSON body the admin page sends; `positionIds` comes along but is never read. */
  datatype EmployeeBody = EmployeeBody(
    name: Option<string>,
    email: Option<string>,
    password: Option<string>,
    positionIds: seq<Id>)

  /** The first check that fails, as its error message, or `None` when the account can be created. */
  function EmployeeCheck(body: EmployeeBody, users: seq<User>): (r: Option<string>)
    ensures r.None? <==> Present(body.name) && Present(body.email) && Present(body.password) && !HasEmail(users, body.email.value)
    ensures r.Some? && !(Present(body.name) && Present(body.email) && Present(body.password)) ==> r.value == MissingFieldsMessage
    ensures r.Some? && Present(body.name) && Present(body.email) && Present(body.password) ==> r.value == EmailTakenMessage
  {
    if !Present(body.name) || !Present(body.email) || !Present(body.password) then Some(MissingFieldsMessage)
    else if HasEmail(users, body.email.value) then Some(EmailTakenMessage)
    else None
  }

  /** The row a successful POST adds. */
  function NewEmployee(body: EmployeeBody, id: Id): (u: User)
    requires body.name.Some? && body.email.Some? && body.password.Some?
    ensures u.role == "USER" && u.email == body.email.value && u.password == Hashed(10, body.password.value)
  {
    User(id, body.name.value, body.email.value, Hashed(10, body.password.value), "USER")
  }

  /** The position ids in the body change neither the check nor the row created. */
  lemma PositionIdsIgnored(body: EmployeeBody, users: seq<User>, ids: seq<Id>, id: Id)
    ensures EmployeeCheck(body.(positionIds := ids), users) == EmployeeCheck(body, users)
    ensures body.name.Some? && body.email.Some? && body.password.Some? ==>
      NewEmployee(body.(positionIds := ids), id) == NewEmployee(body, id)
  {
  }

  /** POST: a refusal leaves the database as it was; success adds exactly the new employee and answers 201 without the password. */
  method CreateEmployee(db: Db, body: EmployeeBody) returns (r: Reply<UserView>)
    requires db.Valid()
    modifies db
    ensures db.Valid()
    ensures EmployeeCheck(body, old(db.users)).Some? ==>
      && r == Fail(400, EmployeeCheck(body, old(db.users)).value)
      && db.users == old(db.users) && db.nextId == old(db.nextId)
    ensures EmployeeCheck(body, old(db.users)).None? ==>
      && db.users == old(db.users) + [NewEmployee(body, old(db.nextId))]
      && db.nextId == old(db.nextId) + 1
      && r == Ok(201, View(NewEmployee(body, old(db.nextId))))
    ensures db.shifts == old(db.shifts) && db.requests == old(db.requests)
  {
    var check := EmployeeCheck(body, db.users);
    if check.Some? {
      return Fail(400, check.value);
    }
    var u := db.AddUser(body.name.value, body.email.value, Hashed(10, body.password.value), "USER");
    r := Ok(201, View(u));
  }

  function IsEmployee(u: User): bool { u.role == "USER" }

  /** The sort key of `orderBy: { id: 'desc' }`: larger ids sort first. */
  function NewestFirst(u: User): int { -(u.id as int) }

  /** The projection of each row in order. */
  function Views(users: seq<User>): (r: seq<UserView>)
    ensures |r| == |users| && forall i :: 0 <= i < |users| ==> r[i] == View(users[i])
  {
    seq(|users|, i requires 0 <= i < |users| => View(users[i]))
  }

  /** GET: the "USER" rows sorted by id, largest first, projected to id, name, email and role. */
  function ListEmployees(users: seq<User>): (r: seq<UserView>)
    ensures |r| == |Seqs.Filter(users, IsEmployee)|
    ensures forall i :: 0 <= i < |r| ==> r[i].role == "USER"
  {
    var sorted := Seqs.SortBy(Seqs.Filter(users, IsEmployee), NewestFirst);
    SortedRowsAreEmployees(users, sorted);
    Views(sorted)
  }

  /** Sorting keeps the filtered rows, so every sorted row is a "USER" row of the table. */
  lemma SortedRowsAreEmployees(users: seq<User>, sorted: seq<User>)
    requires multiset(sorted) == multiset(Seqs.Filter(users, IsEmployee))
    ensures forall i :: 0 <= i < |sorted| ==> sorted[i] in users && IsEmployee(sorted[i])
  {
    forall i | 0 <= i < |sorted|
      ensures sorted[i] in users && IsEmployee(sorted[i])
    {
      assert sorted[i] in multiset(Seqs.Filter(users, IsEmployee));
    }
  }

  /** Every entry is the view of a "USER" row of the table, so no password is ever listed. */
  lemma ListEmployeesSound(users: seq<User>)
    ensures forall i :: 0 <= i < |ListEmployees(users)| ==>
      ListEmployees(users)[i].role == "USER" && exists u :: u in users && IsEmployee(u) && View(u) == ListEmployees(users)[i]
  {
    SortedRowsAreEmployees(users, Seqs.SortBy(Seqs.Filter(users, IsEmployee), NewestFirst));
  }

  /** Every "USER" row of the table is listed, and the list is as long as there are such rows. */
  lemma ListEmployeesComplete(users: seq<User>)
    ensures forall u :: u in users && IsEmployee(u) ==> View(u) in ListEmployees(users)
    ensures |ListEmployees(users)| == |Seqs.Filter(users, IsEmployee)|
  {
    var rows := Seqs.Filter(users, IsEmployee);
    var sorted := Seqs.SortBy(rows, NewestFirst);
    forall u | u in users && IsEmployee(u)
      ensures View(u) in ListEmployees(users)
    {
      assert u in rows;
      assert u in multiset(sorted);
      var k :| 0 <= k < |sorted| && sorted[k] == u;
      assert ListEmployees(users)[k] == View(u);
    }
  }

  /** Ids never increase along the list. */
  lemma ListEmployeesNewestFirst(users: seq<User>)
    ensures forall i, j :: 0 <= i < j < |ListEmployees(users)| ==> ListEmployees(users)[i].id >= ListEmployees(users)[j].id
  {
    var sorted := Seqs.SortBy(Seqs.Filter(users, IsEmployee), NewestFirst);
    forall i, j | 0 <= i < j < |sorted|
      ensures sorted[i].id >= sorted[j].id
    {
      assert NewestFirst(sorted[i]) <= NewestFirst(sorted[j]);
    }
  }

  // The route as written imports `prisma` as a default export, but the client
  // module exports it by name only. The imported value is undefined, so the first
  // `prisma.user` access throws inside the `try`, and the `catch` answers 500.
  // CreateEmployee and ListEmployees above are the route with the import corrected.

  /** POST as written: the field check still runs; everything after it throws and answers 500. */
  function CreateEmployeeAsWritten(body: EmployeeBody): (r: Reply<UserView>)
    ensures r.Fail?
    ensures r.status == 400 <==> !(Present(body.name) && Present(body.email) && Present(body.password))
  {
    if !Present(body.name) || !Present(body.email) || !Present(body.password) then Fail(400, MissingFieldsMessage)
    else Fail(500, CreateFailedMessage)
  }

  /** GET as written: `findMany` on the undefined import throws. */
  function ListEmployeesAsWritten(users: seq<User>): (r: Reply<seq<UserView>>)
    ensures r.Fail? && r.status == 500
  {
    Fail(500, ListFailedMessage)
  }

  /**
   * As written, no account is ever created: a body the corrected route accepts, or
   * refuses for a taken email, gets 500 instead. And a table with a "USER" row,
   * which the corrected GET lists, gets 500 from GET.
   */
  lemma DefaultImportAnswers500(body: EmployeeBody, users: seq<User>, k: nat)
    requires k < |users| && IsEmployee(users[k])
    ensures CreateEmployeeAsWritten(body).status != 201
    ensures EmployeeCheck(body, users) != Some(MissingFieldsMessage) ==>
      CreateEmployeeAsWritten(body) == Fail(500, CreateFailedMessage)
    ensures |ListEmployees(users)| > 0 && ListEmployeesAsWritten(users) == Fail(500, ListFailedMessage)
  {
    assert users[k] in Seqs.Filter(users, IsEmployee);
  }
}
