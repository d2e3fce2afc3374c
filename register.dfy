/**
 * The registration page: its three inputs, `validate` (name required, the
 * email check, a password of at least six UTF-16 code units), `handleChange`,
 * and `handleRegister`, which clears the server error, validates, sends the
 * form and, when the request settles, either goes to the login page or shows
 * the server's message. As on the login page, the request is split at its
 * `await` into `SubmitRegister` and `SettleRegister`.
 */
module Register {
  import opened Wrappers
  import opened JsStrings
  import opened PageCommon

  /** The three inputs, by their `name` attribute. */
  datatype RegisterField = Name | Email | Password

  datatype RegisterForm = RegisterForm(name: string, email: string, password: string)
  {
    function Get(f: RegisterField): string
    {
      match f
      case Name => name
      case Email => email
      case Password => password
    }

    /** `{ ...form, [field]: value }`. */
    function With(f: RegisterField, v: string): (r: RegisterForm)
      ensures r.Get(f) == v
      ensures forall g | g != f :: r.Get(g) == Get(g)
    {
      match f
      case Name => this.(name := v)
      case Email => this.(email := v)
      case Password => this.(password := v)
    }
  }

  const BlankRegisterForm := RegisterForm("", "", "")

  /** The `errors` object of the page: one optional message per input. */
  datatype RegisterErrors = RegisterErrors(name: Option<string>, email: Option<string>, password: Option<string>)
  {
    function Get(f: RegisterField): Option<string>
    {
      match f
      case Name => name
      case Email => email
      case Password => password
    }

    /** `{ ...errors, [field]: message }`. */
    function With(f: RegisterField, v: Option<string>): (r: RegisterErrors)
      ensures r.Get(f) == v
      ensures forall g | g != f :: r.Get(g) == Get(g)
    {
      match f
      case Name => this.(name := v)
      case Email => this.(email := v)
      case Password => this.(password := v)
    }

    /** `Object.keys(errors).length`. */
    function KeyCount(): (n: nat)
      ensures n <= 3
      ensures n == 0 <==> name.None? && email.None? && password.None?
    {
      (if name.Some? then 1 else 0) + (if email.Some? then 1 else 0) + (if password.Some? then 1 else 0)
    }
  }

  const NoRegisterErrors := RegisterErrors(None, None, None)

  const NameRequired: string := "Name is required"
  const PasswordRequired: string := "Password required"
  const PasswordTooShort: string := "Minimum 6 characters"
  const RegistrationFailed: string := "Registration Failed"
  const LoginPath: string := "/"

  /** The name is only required: it is not trimmed, so any non-empty text,
      spaces included, passes. */
  function NameRule(name: string): (r: Option<string>)
    ensures r == None <==> name != ""
    ensures r.Some? ==> r.value == NameRequired
  {
    if name == "" then Some(NameRequired) else None
  }

  /** The password rule: required, then at least six UTF-16 code units
      (`password.length`). A password passes exactly when it is that long. */
  function PasswordRule(password: string): (r: Option<string>)
    ensures r == Some(PasswordRequired) <==> password == ""
    ensures r == Some(PasswordTooShort) <==> password != "" && Utf16Length(password) < 6
    ensures r == None <==> Utf16Length(password) >= 6
  {
    if password == "" then Some(PasswordRequired)
    else if Utf16Length(password) < 6 then Some(PasswordTooShort)
    else None
  }

  /** Six characters are always enough, and three characters outside the Basic
      Multilingual Plane already count as six. */
  lemma PasswordLengthEnough(password: string)
    ensures |password| >= 6 ==> PasswordRule(password) == None
    ensures |password| < 6 && (forall i | 0 <= i < |password| :: password[i] as int <= 0xFFFF) ==>
              PasswordRule(password).Some?
    ensures |password| == 3 && (forall i | 0 <= i < 3 :: password[i] as int > 0xFFFF) ==>
              PasswordRule(password) == None
  {
  }

  /** The error object `validate` builds; it has no key exactly when every
      input passes. */
  function RegisterErrorsOf(form: RegisterForm): (e: RegisterErrors)
    ensures e.KeyCount() == 0 <==>
              form.name != "" && MatchesEmail(form.email) && Utf16Length(form.password) >= 6
    ensures e == NoRegisterErrors <==> e.KeyCount() == 0
  {
    RegisterErrors(NameRule(form.name), EmailRule(form.email), PasswordRule(form.password))
  }

  /** `validate`'s construction of `temp`, one input after the other. */
  method BuildRegisterErrors(form: RegisterForm) returns (temp: RegisterErrors)
    ensures temp == RegisterErrorsOf(form)
  {
    temp := RegisterErrors(None, None, None);

    if form.name == "" {
      temp := temp.(name := Some(NameRequired));
    }

    if form.email == "" {
      temp := temp.(email := Some(EmailRequired));
    } else if !MatchesEmail(form.email) {
      temp := temp.(email := Some(InvalidEmail));
    }

    if form.password == "" {
      temp := temp.(password := Some(PasswordRequired));
    } else if Utf16Length(form.password) < 6 {
      temp := temp.(password := Some(PasswordTooShort));
    }
  }

  /** A name of spaces only is accepted here, unlike on the employee form. */
  lemma SpacesNamePasses(form: RegisterForm)
    requires form.name != [] && forall i | 0 <= i < |form.name| :: form.name[i] == ' '
    ensures RegisterErrorsOf(form).name == None
  {
  }

  class RegisterScreen {
    var form: RegisterForm
    var errors: RegisterErrors
    var serverError: string
    var loading: bool

    /** The state the page starts in. */
    constructor ()
      ensures form == BlankRegisterForm && errors == NoRegisterErrors
      ensures serverError == "" && !loading
    {
      form := BlankRegisterForm;
      errors := NoRegisterErrors;
      serverError := "";
      loading := false;
    }

    /** `handleChange`: the typed input takes the new value and its error is
        cleared to ""; every other value and error stays. */
    method HandleChange(field: RegisterField, value: string)
      modifies this`form, this`errors
      ensures form.Get(field) == value
      ensures forall g | g != field :: form.Get(g) == old(form).Get(g)
      ensures errors.Get(field) == Some("")
      ensures forall g | g != field :: errors.Get(g) == old(errors).Get(g)
    {
      form := form.With(field, value);
      errors := errors.With(field, Some(""));
    }

    /** `validate`: the error object becomes the inputs' errors, and the result
        is whether it has no key. */
    method Validate() returns (ok: bool)
      modifies this`errors
      ensures errors == RegisterErrorsOf(form)
      ensures ok <==> form.name != "" && MatchesEmail(form.email) && Utf16Length(form.password) >= 6
    {
      var temp := BuildRegisterErrors(form);
      errors := temp;
      ok := temp.KeyCount() == 0;
    }

    /** `handleRegister` up to its request: the server error is cleared and the
        form validated; an invalid form stops there, with `loading` as it was;
        a valid one sets `loading` and sends the form. */
    method SubmitRegister() returns (request: Option<RegisterForm>)
      modifies this`errors, this`serverError, this`loading
      ensures serverError == "" && errors == RegisterErrorsOf(form)
      ensures request.Some? <==> errors == NoRegisterErrors
      ensures request.Some? ==> request.value == form && loading
      ensures request.None? ==> loading == old(loading)
    {
      serverError := "";
      var ok := Validate();
      if !ok {
        return None;
      }
      loading := true;
      request := Some(form);
    }

    /** `handleRegister` once its request settles: success opens the login
        page; a failure shows the server's message, or "Registration Failed".
        Either way `loading` ends. */
    method SettleRegister(outcome: WriteOutcome) returns (navigateTo: Option<string>)
      modifies this`serverError, this`loading
      ensures !loading
      ensures outcome.Written? ==> navigateTo == Some(LoginPath) && serverError == old(serverError)
      ensures outcome.WriteFailed? ==>
                navigateTo == None && serverError == MessageOr(outcome.message, RegistrationFailed)
    {
      loading := false;
      match outcome
      case Written =>
        navigateTo := Some(LoginPath);
      case WriteFailed(message) =>
        serverError := MessageOr(message, RegistrationFailed);
        navigateTo := None;
    }

    /** The whole of `handleRegister`, with the outcome the request would settle
        with: nothing is sent unless the form is valid, and a sent form ends
        with `loading` false and either the login page or the server's message. */
    method HandleRegister(outcome: WriteOutcome) returns (request: Option<RegisterForm>, navigateTo: Option<string>)
      modifies this`errors, this`serverError, this`loading
      ensures errors == RegisterErrorsOf(form)
      ensures request.Some? <==> RegisterErrorsOf(form) == NoRegisterErrors
      ensures request.None? ==> navigateTo == None && serverError == "" && loading == old(loading)
      ensures request.Some? ==> request.value == form && !loading
      ensures request.Some? && outcome.Written? ==> navigateTo == Some(LoginPath) && serverError == ""
      ensures request.Some? && outcome.WriteFailed? ==>
                navigateTo == None && serverError == MessageOr(outcome.message, RegistrationFailed)
    {
      navigateTo := None;
      request := SubmitRegister();
      if request.Some? {
        navigateTo := SettleRegister(outcome);
      }
    }
  }
}
