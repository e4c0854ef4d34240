/** The authentication page (`Auth`): one form that signs in with a password
    or signs up, switched by the `isSignUp` flag. */
module AuthPage {
  import opened Common
  import opened Store

  /** The form's fields: `isSignUp`, `email`, `password`, `fullName`. */
  datatype Form = Form(isSignUp: bool, email: string, password: string, fullName: string)

  /** The "Already have an account? / Don't have an account?" button. */
  function ToggleMode(f: Form): Form {
    f.(isSignUp := !f.isSignUp)
  }

  /** Toggling flips only the mode, and two toggles restore the form. */
  lemma ToggleSpec(f: Form)
    ensures ToggleMode(f).isSignUp == !f.isSignUp
    ensures ToggleMode(f).email == f.email && ToggleMode(f).password == f.password
    ensures ToggleMode(f).fullName == f.fullName
    ensures ToggleMode(ToggleMode(f)) == f
  {
  }

  /** The full-name field is rendered, and `required`, in sign-up mode only. */
  predicate FullNameRequired(f: Form) {
    f.isSignUp
  }

  /** The browser's constraint validation, which must pass before `onSubmit`
      runs: every rendered `required` field is non-empty and the email field
      (`type="email"`) holds a well-formed address, a judgement passed in as
      `emailWellFormed`. */
  predicate Submittable(f: Form, emailWellFormed: bool) {
    f.email != "" && emailWellFormed && f.password != "" && (FullNameRequired(f) ==> f.fullName != "")
  }

  /** An empty full name blocks submission in sign-up mode and never in sign-in mode. */
  lemma FullNameOnlyGatesSignUp(f: Form, emailWellFormed: bool)
    requires f.email != "" && emailWellFormed && f.password != "" && f.fullName == ""
    ensures Submittable(f, emailWellFormed) <==> !f.isSignUp
  {
  }

  /** The request `handleAuth` sends for the current form. */
  function RequestFor(f: Form, origin: string): (r: AuthRequest)
    ensures r.SignUp? <==> f.isSignUp
    ensures r.SignUp? || r.SignInWithPassword?
    ensures r.email == f.email && r.password == f.password
    ensures r.SignUp? ==> r.fullName == f.fullName && r.emailRedirectTo == origin + "/"
  {
    if f.isSignUp then SignUp(f.email, f.password, f.fullName, origin + "/")
    else SignInWithPassword(f.email, f.password)
  }

  /** What the answer to a submit made in mode `wasSignUp` does: the new value
      of `isSignUp`, the router's location, and the toast shown. `error` is
      the thrown error's message, `None` on success. */
  datatype Settled = Settled(isSignUp: bool, location: Route, toast: Toast)

  function Settle(isSignUp: bool, location: Route, wasSignUp: bool, error: Option<string>): (s: Settled)
    ensures error.Some? ==> s == Settled(isSignUp, location, Error(error.value))
    ensures error.None? && wasSignUp ==> !s.isSignUp && s.location == location && s.toast.Info?
    ensures error.None? && !wasSignUp ==> s.isSignUp == isSignUp && s.location == DashboardRoute && s.toast.Info?
    ensures s.location != location ==> error.None? && !wasSignUp
  {
    match error
    case Some(msg) => Settled(isSignUp, location, Error(msg))
    case None =>
      if wasSignUp then Settled(false, location, Info("Account created! Please check your email to verify."))
      else Settled(isSignUp, DashboardRoute, Info("Welcome back!"))
  }

  class AuthView {
    var isLoading: bool
    var isSignUp: bool
    var email: string
    var password: string
    var fullName: string
    /** The router's location, as last set by `navigate`. */
    var location: Route
    var toasts: seq<Toast>
    /** The mode (`isSignUp`) the submit awaiting its answer was made in; the
        submit button is disabled while one is outstanding. */
    var awaiting: Option<bool>

    ghost predicate Valid()
      reads this
    {
      isLoading <==> awaiting.Some?
    }

    function Snapshot(): Form
      reads this
    {
      Form(isSignUp, email, password, fullName)
    }

    constructor ()
      ensures Valid() && Snapshot() == Form(false, "", "", "") && !isLoading
      ensures location == AuthRoute && toasts == [] && awaiting == None
    {
      isLoading, isSignUp, email, password, fullName := false, false, "", "", "";
      location, toasts, awaiting := AuthRoute, [], None;
    }

    method EditFields(newEmail: string, newPassword: string, newFullName: string)
      requires Valid()
      modifies this
      ensures Valid()
      ensures Snapshot() == old(Snapshot()).(email := newEmail, password := newPassword, fullName := newFullName)
      ensures isLoading == old(isLoading) && location == old(location)
      ensures toasts == old(toasts) && awaiting == old(awaiting)
    {
      email, password, fullName := newEmail, newPassword, newFullName;
    }

    method Toggle()
      requires Valid()
      modifies this
      ensures Valid()
      ensures Snapshot() == ToggleMode(old(Snapshot()))
      ensures isLoading == old(isLoading) && location == old(location)
      ensures toasts == old(toasts) && awaiting == old(awaiting)
    {
      isSignUp := !isSignUp;
    }

    /** A submit of the form: the submit button is disabled while loading,
        and the browser blocks a form that is not `Submittable`; otherwise
        `handleAuth` raises the loading flag and sends its request. */
    method Submit(auth: AuthClient, origin: string, emailWellFormed: bool)
      requires Valid()
      modifies this, auth
      ensures Valid()
      ensures Snapshot() == old(Snapshot()) && location == old(location) && toasts == old(toasts)
      ensures old(isLoading) || !Submittable(old(Snapshot()), emailWellFormed) ==>
        auth.requests == old(auth.requests) && isLoading == old(isLoading) && awaiting == old(awaiting)
      ensures !old(isLoading) && Submittable(old(Snapshot()), emailWellFormed) ==>
        auth.requests == old(auth.requests) + [RequestFor(old(Snapshot()), origin)] &&
        isLoading && awaiting == Some(old(isSignUp))
    {
      if isLoading || !Submittable(Snapshot(), emailWellFormed) {
        return;
      }
      isLoading := true;
      auth.Send(RequestFor(Snapshot(), origin));
      awaiting := Some(isSignUp);
    }

    /** The answer to the outstanding submit, which is judged by the mode it
        was made in even if the mode was toggled meanwhile; `finally` lowers
        the loading flag whatever the outcome. */
    method Answered(error: Option<string>)
      requires Valid() && awaiting.Some?
      modifies this
      ensures Valid()
      ensures var s := Settle(old(isSignUp), old(location), old(awaiting).value, error);
        isSignUp == s.isSignUp && location == s.location && toasts == old(toasts) + [s.toast]
      ensures !isLoading && awaiting == None
      ensures email == old(email) && password == old(password) && fullName == old(fullName)
    {
      var s := Settle(isSignUp, location, awaiting.value, error);
      toasts := toasts + [s.toast];
      isSignUp := s.isSignUp;
      location := s.location;
      isLoading := false;
      awaiting := None;
    }
  }
}
