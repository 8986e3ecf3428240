/**
 * The sign-in / sign-up form of app/auth.tsx: its `isSignUp` and `error` state,
 * the ordered validation of `handleAuth`, the dispatch to `signUp` or `signIn`,
 * and the mode toggle. The authentication back end is a parameter that answers a
 * call with an error text or with nothing; navigation is returned as the route
 * passed to `router.replace`.
 */
module AuthScreen {
  import opened Wrappers
  import JsText

  const FILL_IN_ALL_FIELDS := "Please fill in all fields."
  const PASSWORD_TOO_SHORT := "Passwords must be at least 6 characters long."
  const MIN_PASSWORD_LENGTH := 6
  const HOME_ROUTE := "/"

  /** A call into the authentication context. */
  datatype AuthCall = SignUp(email: string, password: string, name: string) | SignIn(email: string, password: string)

  /** The first check: an empty email or password, or, when signing up, a blank name. */
  predicate MissingField(isSignUp: bool, name: string, email: string, password: string) {
    email == "" || password == "" || (isSignUp && JsText.Trim(name) == "")
  }

  /** The second check: `password.length < 6`, with JavaScript's UTF-16 length. */
  predicate PasswordTooShort(password: string) {
    JsText.Utf16Length(password) < MIN_PASSWORD_LENGTH
  }

  /** `if (error)`: a returned error counts only when it is a non-empty text. */
  predicate Reported(answer: Option<string>) {
    answer.Some? && answer.value != ""
  }

  /** A sign-up name made only of white space counts as missing. */
  lemma BlankNameIsMissing(name: string, email: string, password: string)
    requires forall i :: 0 <= i < |name| ==> JsText.IsWhiteSpace(name[i])
    ensures MissingField(true, name, email, password)
  {
    JsText.TrimEmptyIff(name);
  }

  /** A sign-in ignores the name field altogether. */
  lemma SignInIgnoresName(name: string, name2: string, email: string, password: string)
    ensures MissingField(false, name, email, password) == MissingField(false, name2, email, password)
  {
  }

  /** Characters outside the Basic Multilingual Plane count twice towards the minimum length. */
  lemma SupplementaryCharactersCountTwice(password: string)
    requires |password| == 3
    requires forall i :: 0 <= i < |password| ==> password[i] as int > 0xFFFF
    ensures !PasswordTooShort(password)
  {
  }

  /** The form's state. */
  class AuthForm {
    var isSignUp: bool
    var name: string
    var email: string
    var password: string
    var error: Option<string>

    constructor ()
      ensures !isSignUp && name == "" && email == "" && password == "" && error == None
    {
      isSignUp, name, email, password, error := false, "", "", "", None;
    }

    /**
     * `handleAuth`: the missing-field check first, then the length check, each
     * setting its message and stopping; otherwise the error is cleared and exactly
     * one of `signUp` (with the trimmed name) or `signIn` is called. A reported
     * error is stored and nothing navigates; otherwise the form navigates home.
     */
    method HandleAuth(backend: AuthCall -> Option<string>) returns (call: Option<AuthCall>, navigateTo: Option<string>)
      modifies this`error
      ensures MissingField(isSignUp, name, email, password) ==>
        call.None? && navigateTo.None? && error == Some(FILL_IN_ALL_FIELDS)
      ensures !MissingField(isSignUp, name, email, password) && PasswordTooShort(password) ==>
        call.None? && navigateTo.None? && error == Some(PASSWORD_TOO_SHORT)
      ensures !MissingField(isSignUp, name, email, password) && !PasswordTooShort(password) ==>
        call == Some(if isSignUp then SignUp(email, password, JsText.Trim(name)) else SignIn(email, password))
      ensures call.Some? && Reported(backend(call.value)) ==> error == backend(call.value) && navigateTo.None?
      ensures call.Some? && !Reported(backend(call.value)) ==> error == None && navigateTo == Some(HOME_ROUTE)
    {
      if email == "" || password == "" || (isSignUp && JsText.Trim(name) == "") {
        error := Some(FILL_IN_ALL_FIELDS);
        return None, None;
      }
      if JsText.Utf16Length(password) < MIN_PASSWORD_LENGTH {
        error := Some(PASSWORD_TOO_SHORT);
        return None, None;
      }
      error := None;
      var c := if isSignUp then SignUp(email, password, JsText.Trim(name)) else SignIn(email, password);
      call := Some(c);
      var answer := backend(c);
      if Reported(answer) {
        error := answer;
        return call, None;
      }
      navigateTo := Some(HOME_ROUTE);
    }

    /** The "Sign In" / "Sign Up" switch: flips the mode and clears the error. */
    method ToggleMode()
      modifies this`isSignUp, this`error
      ensures isSignUp == !old(isSignUp) && error == None
    {
      isSignUp := !isSignUp;
      error := None;
    }
  }
}
