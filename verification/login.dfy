/**
 * The sign-in page: the check for empty fields, the mapping from an
 * authentication error to the message shown, and the `error`/`loading`
 * bookkeeping around one sign-in attempt.
 */
module Login {
  import opened Wrappers

  const GenericMessage := "An error occurred. Please try again."

  const MissingFieldsMessage := "Please enter email and password"

  /** The error codes the page explains, with the message each one shows. */
  const CodeMessages: map<string, string> := map[
    "auth/user-not-found" := "No user found with this email.",
    "auth/wrong-password" := "Incorrect password. Please try again.",
    "auth/invalid-email" := "Invalid email address.",
    "auth/too-many-requests" := "Too many failed attempts. Please try again later.",
    "auth/invalid-credential" := "Invalid login credentials. Please check your email and password."
  ]

  /** JavaScript truthiness of a string-valued property: present and non-empty. */
  predicate Truthy(s: Option<string>) {
    s.Some? && s.value != ""
  }

  /**
   * The message the catch block shows for an error with `code` and `message`:
   * a fixed message for the five codes of `CodeMessages`, the error's own
   * message (or the generic one) for any other code, and the generic message
   * when there is no code. It is never empty, so a failed attempt always
   * shows the error banner.
   */
  function ErrorMessage(code: Option<string>, message: Option<string>): (r: string)
    ensures r != ""
    ensures !Truthy(code) ==> r == GenericMessage
    ensures Truthy(code) && code.value in CodeMessages ==> r == CodeMessages[code.value]
    ensures Truthy(code) && code.value !in CodeMessages ==>
      r == if Truthy(message) then message.value else GenericMessage
  {
    if !Truthy(code) then GenericMessage
    else
      match code.value
      case "auth/user-not-found" => "No user found with this email."
      case "auth/wrong-password" => "Incorrect password. Please try again."
      case "auth/invalid-email" => "Invalid email address."
      case "auth/too-many-requests" => "Too many failed attempts. Please try again later."
      case "auth/invalid-credential" => "Invalid login credentials. Please check your email and password."
      case _ => if Truthy(message) then message.value else GenericMessage
  }

  /** What `signInWithEmailAndPassword` answers: success, or an error with an optional code and message. */
  datatype SignInResponse = SignedIn | Rejected(code: Option<string>, message: Option<string>)

  class LoginForm {
    var email: string
    var password: string
    var error: string
    var loading: bool

    constructor ()
      ensures email == "" && password == "" && error == "" && !loading
    {
      email, password, error, loading := "", "", "", false;
    }

    method SetEmail(e: string)
      modifies this
      ensures email == e && password == old(password) && error == old(error) && loading == old(loading)
    {
      email := e;
    }

    method SetPassword(p: string)
      modifies this
      ensures password == p && email == old(email) && error == old(error) && loading == old(loading)
    {
      password := p;
    }

    /**
     * `handleLogin`. `response` is what the sign-in call answers if it is made;
     * `calledSignIn` says whether it was made and `navigated` whether the page
     * moved on to the notes.
     */
    method HandleLogin(response: SignInResponse) returns (calledSignIn: bool, navigated: bool)
      modifies this
      ensures email == old(email) && password == old(password)
      ensures !loading
      ensures calledSignIn <==> email != "" && password != ""
      ensures !calledSignIn ==> error == MissingFieldsMessage && !navigated
      ensures calledSignIn ==> navigated == response.SignedIn?
      ensures calledSignIn && response.SignedIn? ==> error == ""
      ensures calledSignIn && response.Rejected? ==> error == ErrorMessage(response.code, response.message)
      ensures error == "" <==> navigated
    {
      error := "";
      loading := true;
      if email == "" || password == "" {
        error := MissingFieldsMessage;
        loading := false;
        calledSignIn, navigated := false, false;
        loading := false;  // the `finally` block runs on the early return too
        return;
      }
      calledSignIn := true;
      match response {
        case SignedIn =>
          navigated := true;
        case Rejected(code, message) =>
          error := ErrorMessage(code, message);
          navigated := false;
      }
      loading := false;
    }
  }
}
