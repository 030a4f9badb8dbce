/** The email login form with its sign-in / sign-up switch. */
module LoginView {
  import opened Wrappers

  /** Which action the submit button performs. */
  datatype Mode = SignInMode | SignUpMode

  /** The backend call a submit makes. */
  datatype AuthCall = SignUpCall(email: string, password: string) | SignInCall(email: string, password: string)

  const CheckFields: string := "Revisa el correo y que ambas contraseñas coincidan."

  /** The mode link: sign-in becomes sign-up and back. */
  function Toggled(m: Mode): (r: Mode)
    ensures r != m
  {
    match m
    case SignInMode => SignUpMode
    case SignUpMode => SignInMode
  }

  /** Two clicks on the mode link restore the mode. */
  lemma ToggleTwice(m: Mode)
    ensures Toggled(Toggled(m)) == m
  {
  }

  /** The check `onSubmit` makes before calling the backend: only sign-up
      checks, and it refuses an empty email, an empty password or two different
      passwords; sign-in never looks at the repeated password. */
  function SubmitCheck(mode: Mode, email: string, pass: string, pass2: string): (err: Option<string>)
    ensures err.None? <==> mode.SignInMode? || (email != "" && pass != "" && pass == pass2)
    ensures err.Some? ==> err.value == CheckFields
  {
    if mode.SignUpMode? && (email == "" || pass == "" || pass != pass2) then Some(CheckFields)
    else None
  }

  /** The call a submit that passes the check makes. */
  function CallFor(mode: Mode, email: string, pass: string): AuthCall {
    match mode
    case SignUpMode => SignUpCall(email, pass)
    case SignInMode => SignInCall(email, pass)
  }

  /** The form's state. */
  class Login {
    var email: string
    var pass: string
    var pass2: string
    var loading: bool
    var mode: Mode
    var err: Option<string>

    /** An empty form in sign-in mode. */
    constructor ()
      ensures email == "" && pass == "" && pass2 == ""
      ensures !loading && mode == SignInMode && err.None?
    {
      email, pass, pass2 := "", "", "";
      loading, mode, err := false, SignInMode, None;
    }

    /** `onGoogle`: clears the error, waits on Google, reports a failure. */
    method OnGoogle(reply: Outcome)
      modifies this`err, this`loading
      ensures !loading
      ensures err == (if reply.Failure? then Some(reply.message) else None)
    {
      err := None;
      loading := true;
      if reply.Failure? {
        err := Some(reply.message);
      }
      loading := false;
    }

    /** `onSubmit`: clears the error and sets loading; a failed check is thrown
        before any call; otherwise the call for the mode is made. Whatever
        happens, the error ends as the message of what was thrown (or none) and
        loading ends false. */
    method OnSubmit(reply: Outcome) returns (call: Option<AuthCall>)
      modifies this`err, this`loading
      ensures SubmitCheck(mode, email, pass, pass2).Some? ==>
        call.None? && err == SubmitCheck(mode, email, pass, pass2)
      ensures SubmitCheck(mode, email, pass, pass2).None? ==>
        call == Some(CallFor(mode, email, pass))
        && err == (if reply.Failure? then Some(reply.message) else None)
      ensures !loading
    {
      err := None;
      loading := true;
      var thrown: Option<string> := None;
      if mode == SignUpMode {
        if email == "" || pass == "" || pass != pass2 {
          thrown := Some(CheckFields);
          call := None;
        } else {
          call := Some(SignUpCall(email, pass));
          if reply.Failure? {
            thrown := Some(reply.message);
          }
        }
      } else {
        call := Some(SignInCall(email, pass));
        if reply.Failure? {
          thrown := Some(reply.message);
        }
      }
      if thrown.Some? {
        err := thrown;
      }
      loading := false;
    }

    /** The mode link. */
    method ToggleMode()
      modifies this`mode
      ensures mode == Toggled(old(mode))
    {
      mode := if mode == SignInMode then SignUpMode else SignInMode;
    }
  }
}
