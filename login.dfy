/**
 * The login page: its two inputs, `validate`, the per-input error clearing,
 * and `handleLogin`, which clears the server error, validates, sends the
 * credentials and, when the request settles, either stores the token and
 * goes to the dashboard or shows the server's message. The request is split
 * at its `await`: `SubmitLogin` runs up to the request, `SettleLogin` from
 * its outcome on; the browser's `localStorage` is the `TokenStore` object.
 */
module Login {
  import opened Wrappers
  import opened JsStrings
  import opened PageCommon

  datatype LoginField = Email | Password

  /** The `errors` object of the login page: one optional message per input. */
  datatype LoginErrors = LoginErrors(email: Option<string>, password: Option<string>)
  {
    function Get(f: LoginField): Option<string>
    {
      match f
      case Email => email
      case Password => password
    }

    /** `Object.keys(errors).length`. */
    function KeyCount(): (n: nat)
      ensures n <= 2
      ensures n == 0 <==> email.None? && password.None?
    {
      (if email.Some? then 1 else 0) + (if password.Some? then 1 else 0)
    }
  }

  const NoLoginErrors := LoginErrors(None, None)

  const PasswordRequired: string := "Password is required"

  /** The password is only required: any non-empty text passes, however short. */
  function PasswordRule(password: string): (r: Option<string>)
    ensures r == None <==> password != ""
    ensures r.Some? ==> r.value == PasswordRequired
  {
    if password == "" then Some(PasswordRequired) else None
  }

  /** The error object `validate` builds for the two inputs; it has no key
      exactly when the email matches the pattern and a password was typed. */
  function LoginErrorsOf(email: string, password: string): (e: LoginErrors)
    ensures e.KeyCount() == 0 <==> MatchesEmail(email) && password != ""
    ensures e == NoLoginErrors <==> MatchesEmail(email) && password != ""
  {
    LoginErrors(EmailRule(email), PasswordRule(password))
  }

  /** `validate`'s construction of `temp`: the email's first failing check,
      then the password's. */
  method BuildLoginErrors(email: string, password: string) returns (temp: LoginErrors)
    ensures temp == LoginErrorsOf(email, password)
  {
    temp := LoginErrors(None, None);

    if email == "" {
      temp := temp.(email := Some(EmailRequired));
    } else if !MatchesEmail(email) {
      temp := temp.(email := Some(InvalidEmail));
    }

    if password == "" {
      temp := temp.(password := Some(PasswordRequired));
    }
  }

  /** The body of `POST /auth/login`. */
  datatype Credentials = Credentials(email: string, password: string)

  /** How the login request settles: a response with its `token` field (absent
      when the body has none), or a failure with the response's `error` field. */
  datatype LoginOutcome = LoggedIn(token: Option<string>) | LoginRejected(message: Option<string>)

  /** `localStorage.setItem` turns its value into a string: a missing token is
      stored as the text "undefined". */
  function StoredText(token: Option<string>): string
  {
    match token
    case Some(t) => t
    case None => "undefined"
  }

  const LoginFailed: string := "Login Failed"
  const DashboardPath: string := "/dashboard"

  /** The browser's storage, reduced to the one item the pages use: "token". */
  class TokenStore {
    var token: Option<string>

    constructor (initial: Option<string>)
      ensures token == initial
    {
      token := initial;
    }

    /** `localStorage.setItem("token", value)`. */
    method SetToken(value: string)
      modifies this
      ensures token == Some(value)
    {
      token := Some(value);
    }
  }

  class LoginScreen {
    var email: string
    var password: string
    var errors: LoginErrors
    var serverError: string
    var loading: bool

    /** The state the page starts in. */
    constructor ()
      ensures email == "" && password == "" && errors == NoLoginErrors
      ensures serverError == "" && !loading
    {
      email := "";
      password := "";
      errors := NoLoginErrors;
      serverError := "";
      loading := false;
    }

    /** The email input's `onChange`: the value is taken and only the email's
        error is cleared to "". */
    method OnEmailInput(value: string)
      modifies this`email, this`errors
      ensures email == value
      ensures errors.email == Some("") && errors.password == old(errors).password
    {
      email := value;
      errors := errors.(email := Some(""));
    }

    /** The password input's `onChange`: the value is taken and only the
        password's error is cleared to "". */
    method OnPasswordInput(value: string)
      modifies this`password, this`errors
      ensures password == value
      ensures errors.password == Some("") && errors.email == old(errors).email
    {
      password := value;
      errors := errors.(password := Some(""));
    }

    /** `validate`: the error object becomes the inputs' errors, and the result
        is whether it has no key. */
    method Validate() returns (ok: bool)
      modifies this`errors
      ensures errors == LoginErrorsOf(email, password)
      ensures ok <==> MatchesEmail(email) && password != ""
    {
      var temp := BuildLoginErrors(email, password);
      errors := temp;
      ok := temp.KeyCount() == 0;
    }

    /** `handleLogin` up to its request: the server error is cleared and the
        inputs validated; an invalid form stops there, with `loading` as it was;
        a valid one sets `loading` and sends the credentials. */
    method SubmitLogin() returns (request: Option<Credentials>)
      modifies this`errors, this`serverError, this`loading
      ensures serverError == "" && errors == LoginErrorsOf(email, password)
      ensures request.Some? <==> MatchesEmail(email) && password != ""
      ensures request.Some? ==> request.value == Credentials(email, password) && loading
      ensures request.None? ==> loading == old(loading)
    {
      serverError := "";
      var ok := Validate();
      if !ok {
        return None;
      }
      loading := true;
      request := Some(Credentials(email, password));
    }

    /** `handleLogin` once its request settles: a response's token is stored and
        the dashboard opened; a failure leaves the token alone and shows the
        server's message, or "Login Failed". Either way `loading` ends. */
    method SettleLogin(outcome: LoginOutcome, store: TokenStore) returns (navigateTo: Option<string>)
      modifies this`serverError, this`loading, store
      ensures !loading
      ensures outcome.LoggedIn? ==>
                && store.token == Some(StoredText(outcome.token))
                && navigateTo == Some(DashboardPath) && serverError == old(serverError)
      ensures outcome.LoginRejected? ==>
                && store.token == old(store.token) && navigateTo == None
                && serverError == MessageOr(outcome.message, LoginFailed)
    {
      loading := false;
      match outcome
      case LoggedIn(token) =>
        store.SetToken(StoredText(token));
        navigateTo := Some(DashboardPath);
      case LoginRejected(message) =>
        serverError := MessageOr(message, LoginFailed);
        navigateTo := None;
    }

    /** The whole of `handleLogin`, with the outcome the request would settle
        with: nothing is sent and the stored token is untouched unless the form
        is valid; a valid form ends with `loading` false and either the token
        stored or the server's message shown. */
    method HandleLogin(outcome: LoginOutcome, store: TokenStore)
      returns (request: Option<Credentials>, navigateTo: Option<string>)
      modifies this`errors, this`serverError, this`loading, store
      ensures errors == LoginErrorsOf(email, password)
      ensures request.Some? <==> MatchesEmail(email) && password != ""
      ensures request.None? ==>
                && navigateTo == None && serverError == "" && loading == old(loading)
                && store.token == old(store.token)
      ensures request.Some? ==> request.value == Credentials(email, password) && !loading
      ensures request.Some? && outcome.LoggedIn? ==>
                && store.token == Some(StoredText(outcome.token))
                && navigateTo == Some(DashboardPath) && serverError == ""
      ensures request.Some? && outcome.LoginRejected? ==>
                && store.token == old(store.token) && navigateTo == None
                && serverError == MessageOr(outcome.message, LoginFailed)
    {
      navigateTo := None;
      request := SubmitLogin();
      if request.Some? {
        navigateTo := SettleLogin(outcome, store);
      }
    }
  }
}
