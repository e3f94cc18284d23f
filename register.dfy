/**
 * The sign-up page: the form is checked in a fixed order and the first
 * failing check's message is shown; only a form that passes every check
 * is sent to the server.
 */
module RegisterPage {
  import opened Common

  datatype RegisterForm = RegisterForm(
    email: string, password: string, confirmPassword: string, username: string, displayName: string)

  const MinPasswordLength: nat := 8

  /** The `name` attribute of each input of the form. */
  datatype FormField = Email | Password | ConfirmPassword | Username | DisplayName

  /** The text of one input. */
  function Field(f: RegisterForm, name: FormField): string {
    match name
    case Email => f.email
    case Password => f.password
    case ConfirmPassword => f.confirmPassword
    case Username => f.username
    case DisplayName => f.displayName
  }

  /** `{ ...prev, [name]: value }`: the named input takes the value, the others keep theirs. */
  function WithField(f: RegisterForm, name: FormField, value: string): (r: RegisterForm)
    ensures Field(r, name) == value
    ensures forall other: FormField :: other != name ==> Field(r, other) == Field(f, other)
  {
    match name
    case Email => f.(email := value)
    case Password => f.(password := value)
    case ConfirmPassword => f.(confirmPassword := value)
    case Username => f.(username := value)
    case DisplayName => f.(displayName := value)
  }

  /** `validateForm`: the message of the first check that fails, or none when the form is valid. */
  function ValidateForm(f: RegisterForm): (err: Option<string>)
    ensures err.Some? ==> err.value != ""
  {
    if IsEmpty(f.email) || IsEmpty(f.password) || IsEmpty(f.username) || IsEmpty(f.displayName) then
      Some("All fields are required")
    else if Utf16Length(f.password) < MinPasswordLength then
      Some("Password must be at least 8 characters")
    else if f.password != f.confirmPassword then
      Some("Passwords do not match")
    else if !IsNameToken(f.username) then
      Some("Username can only contain letters, numbers, underscores, and hyphens")
    else if !HasUpper(f.password) then
      Some("Password must contain at least one uppercase letter")
    else if !HasDigit(f.password) then
      Some("Password must contain at least one number")
    else if !HasSpecial(f.password) then
      Some("Password must contain at least one special character (!@#$%^&*)")
    else
      None
  }

  /** Every rule of the form, in no particular order. */
  predicate AcceptableForm(f: RegisterForm) {
    && f.email != "" && f.displayName != ""
    && IsNameToken(f.username)
    && f.confirmPassword == f.password
    && Utf16Length(f.password) >= MinPasswordLength
    && HasUpper(f.password) && HasDigit(f.password) && HasSpecial(f.password)
  }

  /** The form passes exactly when it meets every rule. */
  lemma ValidExactlyWhenAcceptable(f: RegisterForm)
    ensures ValidateForm(f).None? <==> AcceptableForm(f)
  {
  }

  /** An empty field is reported first, whatever else is wrong. */
  lemma EmptyFieldReportedFirst(f: RegisterForm)
    requires f.email == "" || f.password == "" || f.username == "" || f.displayName == ""
    ensures ValidateForm(f) == Some("All fields are required")
  {
  }

  /** The password rules come after the username rule: a bad username hides a weak password. */
  lemma UsernameBeforeStrength(f: RegisterForm)
    requires f.email != "" && f.username != "" && f.displayName != ""
    requires Utf16Length(f.password) >= MinPasswordLength && f.confirmPassword == f.password
    requires !IsNameToken(f.username)
    ensures ValidateForm(f) == Some("Username can only contain letters, numbers, underscores, and hyphens")
  {
  }

  class SignUp {
    var form: RegisterForm
    var error: string
    var isLoading: bool
    /** The forms handed to the sign-up call, in order. */
    var submitted: seq<RegisterForm>
    var navigatedTo: Option<string>

    constructor (form: RegisterForm)
      ensures this.form == form && error == "" && !isLoading && submitted == [] && navigatedTo == None
    {
      this.form := form;
      error, isLoading, submitted, navigatedTo := "", false, [], None;
    }

    /** `handleChange`: typing in one input updates that field of the form and nothing else. */
    method HandleChange(name: FormField, value: string)
      modifies this
      ensures form == WithField(old(form), name, value)
      ensures error == old(error) && isLoading == old(isLoading) && submitted == old(submitted)
      ensures navigatedTo == old(navigatedTo)
    {
      form := WithField(form, name, value);
    }

    /**
     * `handleSubmit`: clears the error, stops with the first failing
     * check's message, and otherwise signs up and goes to the channels,
     * or shows why signing up failed.
     */
    method HandleSubmit(outcome: Fetch<()>)
      modifies this
      ensures ValidateForm(form).Some? ==>
        error == ValidateForm(form).value && submitted == old(submitted) && navigatedTo == old(navigatedTo) &&
        isLoading == old(isLoading)
      ensures ValidateForm(form).None? ==> submitted == old(submitted) + [form] && !isLoading
      ensures ValidateForm(form).None? && outcome.Fetched? ==> error == "" && navigatedTo == Some("/app/channels")
      ensures ValidateForm(form).None? && outcome.Failed? ==>
        error == ErrorText(outcome.message, "Registration failed") && navigatedTo == old(navigatedTo)
      ensures form == old(form)
    {
      error := "";
      var check := ValidateForm(form);
      if check.Some? {
        error := check.value;
        return;
      }
      isLoading := true;
      submitted := submitted + [form];
      match outcome {
        case Fetched(_) =>
          navigatedTo := Some("/app/channels");
        case Failed(msg) =>
          error := ErrorText(msg, "Registration failed");
      }
      isLoading := false;
    }
  }
}
