/**
 * The login page: a "login" tab that signs in with email and password and a
 * "register" tab that creates an employee account through
 * /api/admin/employees. A signed-in visitor, before or after signing in, is
 * sent to the administrator dashboard when the session's role is "ADMIN" and
 * to the employee dashboard otherwise.
 */
module LoginPage {
  import opened Wrappers
  import opened Js
  import EmployeesRoute
  import Store

  const AdminHome: string := "/admin/dashboard"
  const EmployeeHome: string := "/dashboard/employee"
  const LoginFailedMessage: string := "ログインに失敗しました。メールアドレスとパスワードを確認してください。"
  const LoginErrorMessage: string := "ログイン中にエラーが発生しました。"
  const MissingFieldsMessage: string := "すべてのフィールドを入力してください。"
  const RegisterFailedMessage: string := "登録に失敗しました。"
  const RegisterErrorMessage: string := "登録中にエラーが発生しました。"

  /** Where a session with this role is sent; `None` is a session without a role. */
  function Home(role: Option<string>): (path: string)
    ensures path == AdminHome <==> role == Some("ADMIN")
    ensures path == AdminHome || path == EmployeeHome
  {
    if role == Some("ADMIN") then AdminHome else EmployeeHome
  }

  datatype Tab = LoginTab | RegisterTab

  /** How `signIn` ended: an ok result and the role of the session then read, a result that is not ok, or an exception. */
  datatype SignInOutcome = SignedIn(role: Option<string>) | Refused | SignInThrew

  /** How the register POST ended: ok, not ok with the `error` its body carried, or an exception. */
  datatype RegisterOutcome = Registered | Rejected(serverError: Option<string>) | RegisterThrew

  /** The JSON the register tab posts: name, email and password, no position ids. */
  function RegisterBody(name: string, email: string, password: string): (b: EmployeesRoute.EmployeeBody)
    ensures b.name == Some(name) && b.email == Some(email) && b.password == Some(password) && b.positionIds == []
  {
    EmployeesRoute.EmployeeBody(Some(name), Some(email), Some(password), [])
  }

  /** A body the register tab lets through is refused by the route only for an email already in use. */
  lemma RegisterBodyAccepted(name: string, email: string, password: string, users: seq<Store.User>)
    requires name != "" && email != "" && password != ""
    ensures EmployeesRoute.EmployeeCheck(RegisterBody(name, email, password), users).None? <==> !Store.HasEmail(users, email)
  {
  }

  /** Against the route as written, every body the register tab lets through is answered 500, whatever the table holds. */
  lemma RegisterBodyRefusedAsWritten(name: string, email: string, password: string)
    requires name != "" && email != "" && password != ""
    ensures EmployeesRoute.CreateEmployeeAsWritten(RegisterBody(name, email, password)) ==
      Store.Fail(500, EmployeesRoute.CreateFailedMessage)
  {
  }

  class Page {
    var activeTab: Tab
    var email: string
    var password: string
    var name: string
    var isLoading: bool
    var error: string

    constructor ()
      ensures activeTab == LoginTab && email == "" && password == "" && name == ""
      ensures !isLoading && error == ""
    {
      activeTab := LoginTab;
      email, password, name := "", "", "";
      isLoading := false;
      error := "";
    }

    /** `handleLogin`: the path the page moves to (if any) and the error shown; loading is over either way. */
    method Login(outcome: SignInOutcome) returns (redirect: Option<string>)
      modifies this`isLoading, this`error
      ensures !isLoading
      ensures outcome.SignedIn? ==> redirect == Some(Home(outcome.role)) && error == ""
      ensures outcome.Refused? ==> redirect.None? && error == LoginFailedMessage
      ensures outcome.SignInThrew? ==> redirect.None? && error == LoginErrorMessage
    {
      isLoading := true;
      error := "";
      match outcome {
        case SignedIn(role) =>
          redirect := Some(Home(role));
        case Refused =>
          redirect := None;
          error := LoginFailedMessage;
        case SignInThrew =>
          redirect := None;
          error := LoginErrorMessage;
      }
      isLoading := false;
    }

    /**
     * `handleRegister`: an empty field sends nothing; success alerts, moves to
     * the login tab and clears the three fields; failure shows the server's
     * message or the default one and keeps the form.
     */
    method Register(outcome: RegisterOutcome) returns (sent: Option<EmployeesRoute.EmployeeBody>, alerted: bool)
      modifies this
      ensures !isLoading
      ensures sent.None? <==> old(name) == "" || old(email) == "" || old(password) == ""
      ensures sent.None? ==>
        && !alerted && error == MissingFieldsMessage && activeTab == old(activeTab)
        && name == old(name) && email == old(email) && password == old(password)
      ensures sent.Some? ==> sent.value == RegisterBody(old(name), old(email), old(password))
      ensures sent.Some? && outcome.Registered? ==>
        && alerted && error == "" && activeTab == LoginTab && name == "" && email == "" && password == ""
      ensures sent.Some? && !outcome.Registered? ==>
        && !alerted && activeTab == old(activeTab)
        && name == old(name) && email == old(email) && password == old(password)
        && error == (if outcome.RegisterThrew? then RegisterErrorMessage
                     else if Present(outcome.serverError) then outcome.serverError.value
                     else RegisterFailedMessage)
    {
      isLoading := true;
      error := "";
      if name == "" || email == "" || password == "" {
        error := MissingFieldsMessage;
        isLoading := false;
        return None, false;
      }
      sent := Some(RegisterBody(name, email, password));
      alerted := false;
      match outcome {
        case Registered =>
          alerted := true;
          activeTab := LoginTab;
          name, email, password := "", "", "";
        case Rejected(serverError) =>
          error := if Present(serverError) then serverError.value else RegisterFailedMessage;
        case RegisterThrew =>
          error := RegisterErrorMessage;
      }
      isLoading := false;
    }

    /** `handleTabChange`: the error is cleared; the login tab clears the name, the register tab the email and password. */
    method TabChange(tab: Tab)
      modifies this`activeTab, this`error, this`name, this`email, this`password
      ensures activeTab == tab && error == ""
      ensures tab == LoginTab ==> name == "" && email == old(email) && password == old(password)
      ensures tab == RegisterTab ==> name == old(name) && email == "" && password == ""
    {
      activeTab := tab;
      error := "";
      if tab == LoginTab {
        name := "";
      } else {
        email, password := "", "";
      }
    }
  }
}
