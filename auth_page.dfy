/** The sign-in page: Google, email sign-in and email sign-up, each of which
    clears the feedback first and reports either an error or a message. */
module AuthPageView {
  import opened Wrappers
  import opened Text

  /** Which button is waiting for the backend. */
  datatype Busy = Google | SignIn | SignUp

  /** The reply of the sign-up call: an error, or the data, of which only whether
      a session came back and whether the user's email is already confirmed
      matter here. */
  datatype SignUpReply = SignUpFailed(message: string) | SignedUp(hasSession: bool, emailConfirmed: bool)

  const TooShort: string := "La contraseña debe tener al menos 6 caracteres."
  const Mismatch: string := "Las contraseñas no coinciden."
  const AccountCreated: string := "Cuenta creada. Ya puedes entrar."
  const ConfirmationSent: string := "Te enviamos un correo para confirmar la cuenta."

  /** The fewest UTF-16 code units a sign-up password may have. */
  const MinPasswordLength: nat := 6

  /** The checks of `handleSignup`, in order: the length first, then the match. */
  function SignUpCheck(password: string, password2: string): (err: Option<string>)
    ensures err.None? <==> Utf16Length(password) >= MinPasswordLength && password == password2
    ensures Utf16Length(password) < MinPasswordLength ==> err == Some(TooShort)
    ensures Utf16Length(password) >= MinPasswordLength && password != password2 ==> err == Some(Mismatch)
  {
    if Utf16Length(password) < MinPasswordLength then Some(TooShort)
    else if password != password2 then Some(Mismatch)
    else None
  }

  /** The message after a successful sign-up. */
  function SignUpMessage(hasSession: bool, emailConfirmed: bool): (msg: string)
    ensures msg == AccountCreated <==> hasSession || emailConfirmed
    ensures msg == ConfirmationSent <==> !hasSession && !emailConfirmed
  {
    if hasSession || emailConfirmed then AccountCreated else ConfirmationSent
  }

  /** The length is counted in UTF-16 code units, as JavaScript does: a password
      of six or more characters is never too short, one of two or fewer always
      is (whatever the confirmation holds), and one of three characters outside
      the Basic Multilingual Plane already passes the length check. */
  lemma PasswordLengthInCodeUnits(password: string, password2: string)
    ensures |password| >= MinPasswordLength ==> SignUpCheck(password, password2) != Some(TooShort)
    ensures 2 * |password| < MinPasswordLength ==> SignUpCheck(password, password2) == Some(TooShort)
    ensures SignUpCheck("\U{1F511}\U{1F511}\U{1F511}", "\U{1F511}\U{1F511}\U{1F511}").None?
  {
    assert Utf16Length("\U{1F511}\U{1F511}\U{1F511}") == 6;
  }

  /** The page's state. */
  class AuthPage {
    var email: string
    var password: string
    var password2: string
    var loading: Option<Busy>
    var msg: Option<string>
    var err: Option<string>

    /** An empty page, nothing pending and no feedback. */
    constructor ()
      ensures email == "" && password == "" && password2 == ""
      ensures loading.None? && msg.None? && err.None?
    {
      email, password, password2 := "", "", "";
      loading, msg, err := None, None, None;
    }

    /** `resetFeedback`: clears both the error and the message. */
    method ResetFeedback()
      modifies this`err, this`msg
      ensures err.None? && msg.None?
    {
      err := None;
      msg := None;
    }

    /** `handleGoogle`: clears the feedback, waits on Google, and reports the
        error if the redirect could not start. */
    method HandleGoogle(reply: Outcome)
      modifies this`err, this`msg, this`loading
      ensures msg.None? && loading.None?
      ensures err == (if reply.Failure? then Some(reply.message) else None)
    {
      ResetFeedback();
      loading := Some(Google);
      if reply.Failure? {
        err := Some(reply.message);
      }
      loading := None;
    }

    /** `handleSignin`: clears the feedback, signs in with email and password,
        and reports the error if any. */
    method HandleSignin(reply: Outcome) returns (called: bool)
      modifies this`err, this`msg, this`loading
      ensures called
      ensures msg.None? && loading.None?
      ensures err == (if reply.Failure? then Some(reply.message) else None)
    {
      ResetFeedback();
      loading := Some(SignIn);
      called := true;
      if reply.Failure? {
        err := Some(reply.message);
      }
      loading := None;
    }

    /** `handleSignup`: clears the feedback; a failed check sets its error and
        returns before the call, with `loading` untouched; otherwise the call is
        made, exactly one of the error and the message is set, and nothing is
        pending afterwards. */
    method HandleSignup(reply: SignUpReply) returns (called: bool)
      modifies this`err, this`msg, this`loading
      ensures called <==> SignUpCheck(password, password2).None?
      ensures !called ==> err == SignUpCheck(password, password2) && msg.None? && loading == old(loading)
      ensures called ==> loading.None? && (err.Some? <==> msg.None?)
      ensures called && reply.SignUpFailed? ==> err == Some(reply.message)
      ensures called && reply.SignedUp? ==> msg == Some(SignUpMessage(reply.hasSession, reply.emailConfirmed))
    {
      ResetFeedback();
      if Utf16Length(password) < MinPasswordLength {
        err := Some(TooShort);
        return false;
      }
      if password != password2 {
        err := Some(Mismatch);
        return false;
      }
      loading := Some(SignUp);
      called := true;
      match reply {
        case SignUpFailed(m) =>
          err := Some(m);
        case SignedUp(hasSession, confirmed) =>
          if hasSession || confirmed {
            msg := Some(AccountCreated);
          } else {
            msg := Some(ConfirmationSent);
          }
      }
      loading := None;
    }
  }
}
