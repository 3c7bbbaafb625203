/**
 * POST /api/admin/register: creates an administrator account. The checks run
 * in a fixed order and the first failure answers 400: all four fields
 * present, then the registration code equal to the one configured on the
 * server, then an email no user has yet. On success the password is stored
 * hashed with 10 rounds, the role is "ADMIN", and the reply (201) is the new
 * user without the password.
 */
module AdminRegisterRoute {
  import opened Wrappers
  import opened Js
  import opened Store

  const MissingFieldsMessage: string := "名前、メールアドレス、パスワード、管理者コードは必須です"
  const BadCodeMessage: string := "管理者コードが正しくありません"
  const EmailTakenMessage: string := "このメールアドレスは既に使用されています"

  /** The JSON body; a field that is absent or not a string is `None`. */
  datatype RegisterBody = RegisterBody(
    name: Option<string>,
    email: Option<string>,
    password: Option<string>,
    adminCode: Option<string>)

  /**
   * The first check that fails, as its error message, or `None` when all pass;
   * `configuredCode` is the server's registration code, `None` when unset.
   */
  function RegisterCheck(body: RegisterBody, configuredCode: Option<string>, users: seq<User>): (r: Option<string>)
    ensures r.None? <==>
      && Present(body.name) && Present(body.email) && Present(body.password) && Present(body.adminCode)
      && Present(configuredCode) && body.adminCode == configuredCode
      && !HasEmail(users, body.email.value)
    ensures r.Some? ==> r.value in {MissingFieldsMessage, BadCodeMessage, EmailTakenMessage}
  {
    if !Present(body.name) || !Present(body.email) || !Present(body.password) || !Present(body.adminCode) then
      Some(MissingFieldsMessage)
    else if !Present(configuredCode) || body.adminCode.value != configuredCode.value then
      Some(BadCodeMessage)
    else if HasEmail(users, body.email.value) then
      Some(EmailTakenMessage)
    else
      None
  }

  /** A missing field is reported whatever the code and the table; a wrong code is reported whatever the table. */
  lemma CheckOrder(body: RegisterBody, configuredCode: Option<string>, users: seq<User>, others: seq<User>)
    ensures !Present(body.name) || !Present(body.email) || !Present(body.password) || !Present(body.adminCode) ==>
      RegisterCheck(body, configuredCode, users) == Some(MissingFieldsMessage)
    ensures RegisterCheck(body, configuredCode, users) == Some(BadCodeMessage) ==>
      RegisterCheck(body, configuredCode, others) == Some(BadCodeMessage)
  {
  }

  /** The row a successful registration adds. */
  function NewAdmin(body: RegisterBody, id: Id): (u: User)
    requires body.name.Some? && body.email.Some? && body.password.Some?
    ensures u.role == "ADMIN" && u.email == body.email.value
    ensures u.password == Hashed(10, body.password.value)
  {
    User(id, body.name.value, body.email.value, Hashed(10, body.password.value), "ADMIN")
  }

  /** Once registered, the same body is refused for its email. */
  lemma RegisterTwiceRefused(body: RegisterBody, configuredCode: Option<string>, users: seq<User>, id: Id)
    requires RegisterCheck(body, configuredCode, users).None?
    ensures RegisterCheck(body, configuredCode, users + [NewAdmin(body, id)]) == Some(EmailTakenMessage)
  {
    assert (users + [NewAdmin(body, id)])[|users|].email == body.email.value;
  }

  /** The handler: every refusal leaves the database as it was; success adds exactly the new administrator. */
  method Register(db: Db, body: RegisterBody, configuredCode: Option<string>) returns (r: Reply<UserView>)
    requires db.Valid()
    modifies db
    ensures db.Valid()
    ensures RegisterCheck(body, configuredCode, old(db.users)).Some? ==>
      && r == Fail(400, RegisterCheck(body, configuredCode, old(db.users)).value)
      && db.users == old(db.users) && db.nextId == old(db.nextId)
    ensures RegisterCheck(body, configuredCode, old(db.users)).None? ==>
      && db.users == old(db.users) + [NewAdmin(body, old(db.nextId))]
      && db.nextId == old(db.nextId) + 1
      && r == Ok(201, View(NewAdmin(body, old(db.nextId))))
    ensures db.shifts == old(db.shifts) && db.requests == old(db.requests)
  {
    var check := RegisterCheck(body, configuredCode, db.users);
    if check.Some? {
      return Fail(400, check.value);
    }
    var u := db.AddUser(body.name.value, body.email.value, Hashed(10, body.password.value), "ADMIN");
    r := Ok(201, View(u));
  }
}
