/**
 * The administrator registration form: five text fields, client-side checks
 * run in order (all fields filled, passwords equal, password at least six
 * characters) with only the first failure reported, then a POST to
 * /api/admin/register without the confirmation field; success clears the
 * form and schedules the move to the login page.
 */
module AdminRegisterPage {
  import opened Wrappers
  import opened Js
  import AdminRegisterRoute
  import Store

  const MissingFieldsMessage: string := "すべての項目を入力してください"
  const MismatchMessage: string := "パスワードが一致しません"
  const ShortPasswordMessage: string := "パスワードは6文字以上で入力してください"
  const CreatedMessage: string := "管理者アカウントを作成しました"
  const DefaultFailureMessage: string := "管理者の登録に失敗しました"

  datatype Field = Name | Email | Password | ConfirmPassword | AdminCode

  datatype FormData = FormData(name: string, email: string, password: string, confirmPassword: string, adminCode: string)

  const EmptyForm: FormData := FormData("", "", "", "", "")

  /** The value of one field. */
  function Get(form: FormData, field: Field): string
  {
    match field
    case Name => form.name
    case Email => form.email
    case Password => form.password
    case ConfirmPassword => form.confirmPassword
    case AdminCode => form.adminCode
  }

  /** `handleInputChange`: the named field reads back as the value, the other four are unchanged. */
  function WithField(form: FormData, field: Field, value: string): (r: FormData)
    ensures Get(r, field) == value
    ensures forall f :: f != field ==> Get(r, f) == Get(form, f)
  {
    match field
    case Name => form.(name := value)
    case Email => form.(email := value)
    case Password => form.(password := value)
    case ConfirmPassword => form.(confirmPassword := value)
    case AdminCode => form.(adminCode := value)
  }

  /** The message of the first check that fails, or `None` when the form may be sent. */
  function FormCheck(form: FormData): (r: Option<string>)
    ensures r.None? <==>
      form.name != "" && form.email != "" && form.password != "" && form.adminCode != ""
      && form.password == form.confirmPassword && |form.password| >= 6
  {
    if form.name == "" || form.email == "" || form.password == "" || form.adminCode == "" then Some(MissingFieldsMessage)
    else if form.password != form.confirmPassword then Some(MismatchMessage)
    else if |form.password| < 6 then Some(ShortPasswordMessage)
    else None
  }

  /** The checks' order: an empty field wins over a mismatch, a mismatch over a short password; six characters are enough. */
  lemma FormCheckOrder(form: FormData)
    ensures (form.name == "" || form.email == "" || form.password == "" || form.adminCode == "") ==>
      FormCheck(form) == Some(MissingFieldsMessage)
    ensures (form.name != "" && form.email != "" && form.password != "" && form.adminCode != "" &&
      form.password != form.confirmPassword) ==> FormCheck(form) == Some(MismatchMessage)
    ensures (form.name != "" && form.email != "" && form.adminCode != "" && |form.password| == 6 &&
      form.password == form.confirmPassword) ==> FormCheck(form).None?
  {
  }

  /** The JSON the form posts: four fields, never the confirmation. */
  function RequestBody(form: FormData): (b: AdminRegisterRoute.RegisterBody)
    ensures b.name == Some(form.name) && b.email == Some(form.email)
    ensures b.password == Some(form.password) && b.adminCode == Some(form.adminCode)
  {
    AdminRegisterRoute.RegisterBody(Some(form.name), Some(form.email), Some(form.password), Some(form.adminCode))
  }

  /** A form the page lets through never trips the route's missing-field check. */
  lemma AcceptedFormHasAllFields(form: FormData, configuredCode: Option<string>, users: seq<Store.User>)
    requires FormCheck(form).None?
    ensures AdminRegisterRoute.RegisterCheck(RequestBody(form), configuredCode, users) != Some(AdminRegisterRoute.MissingFieldsMessage)
  {
  }

  /** What a submit did: the body posted (if any), the toast text and whether the page moves on to /login. */
  datatype Outcome = Outcome(sent: Option<AdminRegisterRoute.RegisterBody>, toast: string, redirect: bool)

  class Page {
    var form: FormData
    var isLoading: bool

    constructor ()
      ensures form == EmptyForm && !isLoading
    {
      form := EmptyForm;
      isLoading := false;
    }

    method InputChange(field: Field, value: string)
      modifies this`form
      ensures form == WithField(old(form), field, value)
    {
      form := WithField(form, field, value);
    }

    /**
     * `handleSubmit`, given whether the response was ok and the `error` it
     * carried: a refused form sends nothing; a failed POST shows the server's
     * message or the default one; success resets all five fields.
     */
    method Submit(ok: bool, serverError: Option<string>) returns (out: Outcome)
      modifies this
      ensures FormCheck(old(form)).Some? ==>
        out == Outcome(None, FormCheck(old(form)).value, false) && form == old(form) && isLoading == old(isLoading)
      ensures FormCheck(old(form)).None? ==> !isLoading
      ensures FormCheck(old(form)).None? && ok ==>
        out == Outcome(Some(RequestBody(old(form))), CreatedMessage, true) && form == EmptyForm
      ensures FormCheck(old(form)).None? && !ok ==>
        && out == Outcome(Some(RequestBody(old(form))), if Present(serverError) then serverError.value else DefaultFailureMessage, false)
        && form == old(form)
    {
      var check := FormCheck(form);
      if check.Some? {
        return Outcome(None, check.value, false);
      }
      isLoading := true;
      var body := RequestBody(form);
      if ok {
        out := Outcome(Some(body), CreatedMessage, true);
        form := EmptyForm;
      } else {
        out := Outcome(Some(body), if Present(serverError) then serverError.value else DefaultFailureMessage, false);
      }
      isLoading := false;
    }
  }
}
