/** The member registration page (app/member/register/page.tsx): the form
    state, its validity test, `handleChange`, and `handleSubmit` with the
    outcome of its request as an input. Its toasts go to the toast provider
    through `push`; the id `push` draws is an input. */
module RegisterPage {
  import opened Base
  import opened Toasts
  import RegisterApi

  datatype Form = Form(fullName: string, email: string, dob: string, password: string, confirm: string)

  /** The `name` attribute of the input that changed. */
  datatype Field = FullName | Email | Dob | Password | Confirm

  const EMPTY_FORM: Form := Form("", "", "", "", "")

  /** `isValid`: three non-empty fields, a password of at least six
      characters, and a matching confirmation. */
  predicate IsValid(f: Form)
    ensures IsValid(f) ==> |f.confirm| >= 6
    ensures f.password != f.confirm ==> !IsValid(f)
    ensures f.fullName == "" || f.email == "" || f.dob == "" ==> !IsValid(f)
  {
    f.fullName != "" && f.email != "" && f.dob != "" && |f.password| >= 6 && f.password == f.confirm
  }

  /** `{ ...prev, [name]: value }` */
  function WithField(f: Form, field: Field, value: string): (g: Form)
    ensures field == FullName ==> g == f.(fullName := value)
    ensures field == Email ==> g == f.(email := value)
    ensures field == Dob ==> g == f.(dob := value)
    ensures field == Password ==> g == f.(password := value)
    ensures field == Confirm ==> g == f.(confirm := value)
  {
    match field
    case FullName => f.(fullName := value)
    case Email => f.(email := value)
    case Dob => f.(dob := value)
    case Password => f.(password := value)
    case Confirm => f.(confirm := value)
  }

  /** The JSON the page sends: `fullName`, `email`, `dob` and `password`, and
      no confirmation. */
  function RequestBody(f: Form): (b: RegisterApi.RegisterBody)
    ensures b.name.None? && b.dateOfBirth.None?
    ensures b.fullName == Some(f.fullName) && b.email == Some(f.email)
    ensures b.dob == Some(f.dob) && b.password == Some(f.password)
  {
    RegisterApi.RegisterBody(Some(f.fullName), None, Some(f.email), Some(f.password), Some(f.dob), None)
  }

  /** What the request ended with: a response with its status and the
      `error` field of its JSON, or an exception with its message. */
  datatype SubmitOutcome = Responded(status: int, error: Option<string>) | Failed(message: Option<string>)

  /** `res.ok` */
  predicate IsOk(status: int) {
    200 <= status <= 299
  }

  /** `{ type: 'error' }` */
  const ERROR_OPTS: ToastOptions := ToastOptions(Some(ErrorToast), None)

  /** `{ type: 'success' }` */
  const SUCCESS_OPTS: ToastOptions := ToastOptions(Some(SuccessToast), None)

  /** A form the page accepts always passes the endpoint's four presence
      checks: the endpoint can then only refuse the date, and otherwise
      registers exactly the typed name, e-mail and password. */
  lemma {:induction false} ValidFormPassesPresenceChecks(f: Form, parseDate: string -> Option<Date>)
    requires IsValid(f)
    ensures var v := RegisterApi.Validate(RequestBody(f), parseDate);
            (v.Ok? <==> parseDate(f.dob).Some?)
            && (v.Err? ==> v.error == "Invalid date format, use YYYY-MM-DD")
            && (v.Ok? ==> v.value == RegisterApi.Registration(f.fullName, f.email, f.password, parseDate(f.dob).value))
  {
    var b := RequestBody(f);
    assert RegisterApi.NameOf(b) == Some(f.fullName);
    assert RegisterApi.DateOf(b) == Some(f.dob);
  }

  class RegisterPage {
    var form: Form
    var loading: bool
    var error: Option<string>
    var navigations: seq<Navigation>
    /** The bodies POSTed to /api/members/register, oldest first. */
    var requests: seq<RegisterApi.RegisterBody>
    /** The provider `useToast()` returned. */
    const toaster: ToastProvider

    constructor (toaster: ToastProvider)
      ensures form == EMPTY_FORM && !loading && error.None?
      ensures navigations == [] && requests == [] && this.toaster == toaster
    {
      form := EMPTY_FORM;
      loading := false;
      error := None;
      navigations := [];
      requests := [];
      this.toaster := toaster;
    }

    /** `handleChange`: only the named field takes the new value. */
    method HandleChange(field: Field, value: string)
      modifies this
      ensures form == WithField(old(form), field, value)
      ensures loading == old(loading) && error == old(error)
      ensures navigations == old(navigations) && requests == old(requests)
    {
      form := WithField(form, field, value);
    }

    /** `setLoading(true)` and the `fetch` it guards. */
    method BeginRequest()
      modifies this
      ensures loading
      ensures requests == old(requests) + [RequestBody(form)]
      ensures form == old(form) && error == old(error) && navigations == old(navigations)
    {
      loading := true;
      requests := requests + [RequestBody(form)];
    }

    /** `handleSubmit`, given how the request ends and the id of the toast it shows. */
    method HandleSubmit(outcome: SubmitOutcome, toastId: string)
      modifies this, toaster
      ensures form == old(form)
      ensures !IsValid(old(form)) ==>
                toaster.toasts == old(toaster.toasts) + [MakeToast(toastId, "Please fill all fields correctly", ERROR_OPTS)]
                && requests == old(requests) && loading == old(loading)
                && error == old(error) && navigations == old(navigations)
      ensures IsValid(old(form)) ==> requests == old(requests) + [RequestBody(old(form))] && !loading
      ensures IsValid(old(form)) && outcome.Responded? && outcome.status == 409 ==>
                toaster.toasts == old(toaster.toasts)
                                  + [MakeToast(toastId, "Email already registered, log in instead.", ERROR_OPTS)]
                && navigations == old(navigations) && error == old(error)
      ensures IsValid(old(form)) && outcome.Responded? && outcome.status != 409 && !IsOk(outcome.status) ==>
                toaster.toasts == old(toaster.toasts)
                                  + [MakeToast(toastId, if Truthy(outcome.error) then outcome.error.value else "Registration failed.",
                                               ERROR_OPTS)]
                && navigations == old(navigations) && error == old(error)
      ensures IsValid(old(form)) && outcome.Responded? && IsOk(outcome.status) ==>
                toaster.toasts == old(toaster.toasts)
                                  + [MakeToast(toastId, "Registration successful, You can now login", SUCCESS_OPTS)]
                && navigations == old(navigations) + [Push("/login")] && error == old(error)
      ensures IsValid(old(form)) && outcome.Failed? ==>
                toaster.toasts == old(toaster.toasts) && navigations == old(navigations)
                && error == Some(if Truthy(outcome.message) then outcome.message.value else "Unexpected error")
    {
      if !IsValid(form) {
        toaster.Push("Please fill all fields correctly", ERROR_OPTS, toastId);
        return;
      }
      BeginRequest();
      match outcome {
        case Responded(status, err) =>
          if status == 409 {
            toaster.Push("Email already registered, log in instead.", ERROR_OPTS, toastId);
          } else if !IsOk(status) {
            toaster.Push(if Truthy(err) then err.value else "Registration failed.", ERROR_OPTS, toastId);
          } else {
            toaster.Push("Registration successful, You can now login", SUCCESS_OPTS, toastId);
            navigations := navigations + [Push("/login")];
          }
        case Failed(message) =>
          error := Some(if Truthy(message) then message.value else "Unexpected error");
      }
      loading := false;
    }
  }
}
