/**
 * The sign-in / sign-up dialog (AuthModal.tsx): a mode switch, the form
 * fields, and the error and busy flags around an asynchronous submit.
 */
module AuthModal {
  import opened Wrappers
  import opened Types
  import Accounts

  const Unexpected: string := "An unexpected error occurred."

  datatype Mode = LoginMode | RegisterMode

  datatype AuthForm = AuthForm(mode: Mode, name: string, email: string, password: string, error: string, loading: bool)

  /** A fresh dialog in the requested mode. */
  function Fresh(initialMode: Mode): (f: AuthForm)
    ensures f.mode == initialMode && f.name == "" && f.email == "" && f.password == ""
    ensures f.error == "" && !f.loading
  {
    AuthForm(initialMode, "", "", "", "", false)
  }

  function Other(m: Mode): Mode
  {
    if m == LoginMode then RegisterMode else LoginMode
  }

  /** `toggleMode`: the other mode, the error cleared, the fields kept. */
  function Toggle(f: AuthForm): (g: AuthForm)
    ensures g.mode != f.mode && g.error == ""
    ensures g.name == f.name && g.email == f.email && g.password == f.password && g.loading == f.loading
  {
    f.(mode := Other(f.mode), error := "")
  }

  /** Switching twice is back where it started, without the error. */
  lemma ToggleTwice(f: AuthForm)
    ensures Toggle(Toggle(f)) == f.(error := "")
  {
  }

  /** What the submit asks the application to do. */
  datatype AuthRequest = SignIn(credentials: Accounts.Credentials) | SignUp(details: Accounts.Details)

  /** The start of `handleSubmit`: clear the error, mark busy, and call the handler of the current mode. */
  function Submit(f: AuthForm): (r: (AuthForm, AuthRequest))
    ensures r.0 == f.(error := "", loading := true)
    ensures f.mode == LoginMode <==> r.1.SignIn?
    ensures r.1.SignIn? ==> r.1.credentials == Accounts.Credentials(f.email, Some(f.password))
    ensures r.1.SignUp? ==> r.1.details == Accounts.Details(f.name, f.email, Some(f.password))
  {
    var request := if f.mode == LoginMode
      then SignIn(Accounts.Credentials(f.email, Some(f.password)))
      else SignUp(Accounts.Details(f.name, f.email, Some(f.password)));
    (f.(error := "", loading := true), request)
  }

  /**
   * The end of `handleSubmit`: `failure` is the thrown message, if the
   * handler threw; an empty message shows the generic one. Busy ends either way.
   */
  function Finish(f: AuthForm, failure: Option<string>): (g: AuthForm)
    ensures !g.loading
    ensures failure.None? ==> g.error == f.error
    ensures failure.Some? && failure.value != "" ==> g.error == failure.value
    ensures failure.Some? && failure.value == "" ==> g.error == Unexpected
    ensures failure.Some? ==> g.error != ""
    ensures g.mode == f.mode && g.name == f.name && g.email == f.email && g.password == f.password
  {
    var error := match failure
      case None => f.error
      case Some(m) => if m != "" then m else Unexpected;
    f.(error := error, loading := false)
  }

  /** `handleClose`: every field, the error and the busy flag cleared; the mode is kept. */
  function Close(f: AuthForm): (g: AuthForm)
    ensures g == Fresh(f.mode)
  {
    AuthForm(f.mode, "", "", "", "", false)
  }

  /** The effect on opening, closing or a new initial mode: that mode, and no error. */
  function Reopen(f: AuthForm, initialMode: Mode): (g: AuthForm)
    ensures g.mode == initialMode && g.error == ""
    ensures g.name == f.name && g.email == f.email && g.password == f.password && g.loading == f.loading
  {
    f.(mode := initialMode, error := "")
  }

  /**
   * A whole submit against the user list: the request runs through the
   * account rules, and its outcome is shown. The new account's id and time
   * are passed in.
   */
  function SubmitAgainst(f: AuthForm, users: seq<User>, newId: int, createdAt: string): (r: (AuthForm, Option<User>))
    ensures !r.0.loading
    ensures f.mode == LoginMode ==>
      (r.1.Some? <==> exists u :: u in users && u.email == f.email && u.password == Some(f.password))
    ensures f.mode == LoginMode && r.1.None? ==> r.0.error == Accounts.InvalidCredentials
    ensures f.mode == RegisterMode ==> (r.1.None? <==> Accounts.EmailInUse(users, f.email))
    ensures f.mode == RegisterMode && r.1.None? ==> r.0.error == Accounts.EmailTaken
    ensures r.1.Some? ==> r.0.error == ""
  {
    var (busy, request) := Submit(f);
    match request
    case SignIn(c) =>
      (match Accounts.Login(users, c)
       case Ok(u) => (Finish(busy, None), Some(u))
       case Err(m) => (Finish(busy, Some(m)), None))
    case SignUp(d) =>
      (match Accounts.Register(users, d, newId, createdAt)
       case Ok(reg) => (Finish(busy, None), Some(reg.current))
       case Err(m) => (Finish(busy, Some(m)), None))
  }

  /** The dialog always sends a password, so an account stored without one cannot sign in through it. */
  lemma NoPasswordNoSignIn(f: AuthForm, users: seq<User>, newId: int, createdAt: string)
    requires f.mode == LoginMode
    requires forall u :: u in users && u.email == f.email ==> u.password.None?
    ensures SubmitAgainst(f, users, newId, createdAt).1.None?
  {
  }
}
