/** The Login page: sign-in and the hidden admin sign-up, reached by
    clicking the logo five times; the messages shown for failed attempts;
    and the password-reset dialog. */
module LoginPage {
  import opened Wrappers
  import opened Strings

  // ---------------------------------------------------------------------
  // Error messages

  /** A failed sign-in or sign-up: the error's `code` and `message`. */
  datatype AuthError = AuthError(code: string, message: string)

  /** The message `handleSubmit` shows for a failed attempt. */
  function ErrorMessage(err: AuthError): (shown: string)
    ensures err.code in {"auth/invalid-credential", "auth/user-not-found", "auth/wrong-password"}
            ==> shown == "Invalid email or password."
    ensures err.code == "auth/email-already-in-use" ==> shown == "Email already in use."
    ensures err.code == "auth/too-many-requests" ==> shown == "Too many attempts. Please try again later."
    ensures err.code == "auth/weak-password" ==> shown == "Password should be at least 6 characters."
    ensures !KnownCode(err.code) ==>
              shown == if err.message != "" then err.message else "Operation failed. Check connection."
    ensures shown != ""
  {
    if err.code == "auth/invalid-credential" || err.code == "auth/user-not-found"
       || err.code == "auth/wrong-password" then "Invalid email or password."
    else if err.code == "auth/email-already-in-use" then "Email already in use."
    else if err.code == "auth/too-many-requests" then "Too many attempts. Please try again later."
    else if err.code == "auth/weak-password" then "Password should be at least 6 characters."
    else if err.message != "" then err.message
    else "Operation failed. Check connection."
  }

  predicate KnownCode(code: string)
  {
    code in {"auth/invalid-credential", "auth/user-not-found", "auth/wrong-password",
             "auth/email-already-in-use", "auth/too-many-requests", "auth/weak-password"}
  }

  /** The three credential errors read alike, so the page never tells
      whether an account exists. */
  lemma CredentialErrorsAlike(a: AuthError, b: AuthError)
    requires a.code in {"auth/user-not-found", "auth/wrong-password", "auth/invalid-credential"}
    requires b.code in {"auth/user-not-found", "auth/wrong-password", "auth/invalid-credential"}
    ensures ErrorMessage(a) == ErrorMessage(b)
  {
  }

  // ---------------------------------------------------------------------
  // The secret click counter

  /** The counter after one more logo click: the fifth click wraps it to 0. */
  function NextClickCount(count: nat): (next: nat)
    requires count < 5
    ensures next < 5
    ensures next == 0 <==> count == 4
    ensures next != 0 ==> next == count + 1
  {
    if count + 1 == 5 then 0 else count + 1
  }

  /** The counter after `n` clicks from a fresh page. */
  function CountAfter(n: nat): (count: nat)
    ensures count < 5
  {
    if n == 0 then 0 else NextClickCount(CountAfter(n - 1))
  }

  /** Counting clicks is counting modulo five, and the set-up mode is
      switched on by every fifth click and no other. */
  lemma {:induction false} CountAfterIsModulo(n: nat)
    ensures CountAfter(n) == n % 5
    ensures n > 0 ==> (CountAfter(n - 1) == 4 <==> n % 5 == 0)
  {
    if n > 0 {
      CountAfterIsModulo(n - 1);
    }
  }

  // ---------------------------------------------------------------------
  // The screen

  /** What a submit asks the authentication service for. */
  datatype AuthRequest =
    | SignIn(email: string, password: string)
    | SignUp(email: string, password: string, displayName: string)

  class LoginScreen {
    var email: string
    var password: string
    var displayName: string
    var registering: bool
    var clickCount: nat
    var error: string
    var loading: bool
    var forgotOpen: bool
    var resetEmail: string
    var resetLoading: bool

    /** The counter never reaches five. */
    predicate Valid()
      reads this
    {
      clickCount < 5
    }

    constructor ()
      ensures Valid()
      ensures email == "" && password == "" && displayName == "" && !registering
      ensures clickCount == 0 && error == "" && !loading
      ensures !forgotOpen && resetEmail == "" && !resetLoading
    {
      email := "";
      password := "";
      displayName := "";
      registering := false;
      clickCount := 0;
      error := "";
      loading := false;
      forgotOpen := false;
      resetEmail := "";
      resetLoading := false;
    }

    /** `handleLogoClick`: the fifth click turns the admin set-up on with a
        notice and starts the count again. */
    method LogoClick()
      requires Valid()
      modifies this
      ensures Valid()
      ensures clickCount == NextClickCount(old(clickCount))
      ensures old(clickCount) == 4 ==> registering && error == "Admin setup mode enabled."
      ensures old(clickCount) != 4 ==> registering == old(registering) && error == old(error)
      ensures email == old(email) && password == old(password) && displayName == old(displayName)
      ensures loading == old(loading)
      ensures forgotOpen == old(forgotOpen) && resetEmail == old(resetEmail) && resetLoading == old(resetLoading)
    {
      var newCount := clickCount + 1;
      if newCount == 5 {
        registering := true;
        error := "Admin setup mode enabled.";
        clickCount := 0;
      } else {
        clickCount := newCount;
      }
    }

    /** "Back to Login": leaves the set-up mode and clears the message. */
    method BackToLogin()
      requires Valid()
      modifies this
      ensures Valid()
      ensures !registering && error == ""
      ensures clickCount == old(clickCount) && email == old(email) && password == old(password)
      ensures displayName == old(displayName) && loading == old(loading)
      ensures forgotOpen == old(forgotOpen) && resetEmail == old(resetEmail) && resetLoading == old(resetLoading)
    {
      registering := false;
      error := "";
    }

    /** The first half of `handleSubmit`: the request sent, with the email
        trimmed, while the button shows loading and the message is
        cleared. */
    method Submit() returns (request: AuthRequest)
      requires Valid()
      modifies this
      ensures Valid()
      ensures loading && error == ""
      ensures request.email == Trim(email) && request.password == password
      ensures request.SignUp? <==> registering
      ensures registering ==> request.displayName == displayName
      ensures email == old(email) && password == old(password) && registering == old(registering)
      ensures displayName == old(displayName) && clickCount == old(clickCount)
      ensures forgotOpen == old(forgotOpen) && resetEmail == old(resetEmail) && resetLoading == old(resetLoading)
    {
      loading := true;
      error := "";
      if registering {
        request := SignUp(Trim(email), password, displayName);
      } else {
        request := SignIn(Trim(email), password);
      }
    }

    /** The rest of `handleSubmit` once the request settles: a failure shows
        its message and re-enables the button; a success leaves the page
        loading until the signed-in user redirects it. */
    method SubmitSettled(failure: Option<AuthError>)
      requires Valid()
      modifies this
      ensures Valid()
      ensures failure.Some? ==> error == ErrorMessage(failure.value) && !loading
      ensures failure.None? ==> error == old(error) && loading == old(loading)
      ensures email == old(email) && registering == old(registering) && clickCount == old(clickCount)
      ensures password == old(password) && displayName == old(displayName)
      ensures forgotOpen == old(forgotOpen) && resetEmail == old(resetEmail) && resetLoading == old(resetLoading)
    {
      if failure.Some? {
        error := ErrorMessage(failure.value);
        loading := false;
      }
    }

    /** The first half of `handleForgotPassword`: an empty field sends
        nothing; otherwise the trimmed address is sent while the dialog
        shows loading. */
    method RequestReset() returns (sent: Option<string>)
      requires Valid()
      modifies this
      ensures Valid()
      ensures old(resetEmail) == "" <==> sent.None?
      ensures sent.None? ==> resetLoading == old(resetLoading)
      ensures sent.Some? ==> sent.value == Trim(resetEmail) && resetLoading
      ensures old(resetEmail) != "" && AllJsSpace(old(resetEmail)) ==> sent == Some("")
      ensures resetEmail == old(resetEmail) && forgotOpen == old(forgotOpen)
      ensures email == old(email) && error == old(error) && loading == old(loading)
      ensures password == old(password) && displayName == old(displayName)
      ensures registering == old(registering) && clickCount == old(clickCount)
    {
      if resetEmail == "" {
        return None;
      }
      if AllJsSpace(resetEmail) {
        BlankResetAddressSent(resetEmail);
      }
      resetLoading := true;
      sent := Some(Trim(resetEmail));
    }

    /** The rest of `handleForgotPassword`: a reset that went through closes
        the dialog and clears the field; the loading flag drops either way. */
    method ResetSettled(succeeded: bool)
      requires Valid()
      modifies this
      ensures Valid()
      ensures !resetLoading
      ensures succeeded ==> !forgotOpen && resetEmail == ""
      ensures !succeeded ==> forgotOpen == old(forgotOpen) && resetEmail == old(resetEmail)
      ensures email == old(email) && error == old(error) && loading == old(loading)
      ensures password == old(password) && displayName == old(displayName)
      ensures registering == old(registering) && clickCount == old(clickCount)
    {
      if succeeded {
        forgotOpen := false;
        resetEmail := "";
      }
      resetLoading := false;
    }
  }

  /** Only the empty field is refused: an address of white space alone
      passes the check and is sent trimmed to nothing. */
  lemma BlankResetAddressSent(s: string)
    requires s != "" && AllJsSpace(s)
    ensures Trim(s) == ""
  {
    TrimStartRemovesSpace(s);
  }
}
