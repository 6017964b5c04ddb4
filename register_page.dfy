/**
 * The registration page: the password confirmation check it makes before
 * calling the session's `register`, the redirect home, and which error the
 * alert shows.
 */
module RegisterPage {
  import opened Wrappers
  import opened ClientErrors
  import opened AuthContext
  import Routing

  const PasswordsDiffer: string := "Passwords do not match"
  const MinPasswordLength: nat := 6

  /**
   * The browser's own checks before `onSubmit` fires: every field filled in
   * and both password fields at least six characters long. The email-format
   * check of an `type="email"` input is the parameter `looksLikeEmail`.
   */
  predicate FormAccepts(name: string, email: string, password: string, confirm: string, looksLikeEmail: string -> bool) {
    name != "" && email != "" && looksLikeEmail(email)
    && |password| >= MinPasswordLength && |confirm| >= MinPasswordLength
  }

  /** `localError || error`: the page's own error first, otherwise the session's, and nothing when both are empty. */
  function ShownError(localError: string, error: Option<string>): (shown: Option<string>)
    ensures localError != "" ==> shown == Some(localError)
    ensures localError == "" ==> (shown.Some? <==> error.Some? && error.value != "")
    ensures shown.Some? ==> shown.value != "" && (shown.value == localError || error == Some(shown.value))
  {
    if localError != "" then Some(localError)
    else if error.Some? && error.value != "" then error
    else None
  }

  /** A mismatch message always wins over whatever the session reports. */
  lemma MismatchShadowsSessionError(error: Option<string>)
    ensures ShownError(PasswordsDiffer, error) == Some(PasswordsDiffer)
  {
  }

  class Register {
    var localError: string
    /** Whether the page has navigated to `/` (with `replace`). */
    var navigatedHome: bool

    constructor ()
      ensures localError == "" && !navigatedHome
    {
      localError := "";
      navigatedHome := false;
    }

    /** The mount effect: the session's previous error is cleared. */
    method Mount(auth: AuthProvider)
      modifies auth
      ensures auth.state == old(auth.state).(error := None) && auth.storage == old(auth.storage)
    {
      auth.ClearError();
    }

    /** The effect on `user`: a signed-in user is sent home. */
    method UserChanged(auth: AuthProvider)
      modifies this
      ensures navigatedHome == (old(navigatedHome) || auth.state.user.Some?)
      ensures localError == old(localError)
    {
      if auth.state.user.Some? {
        navigatedHome := true;
      }
    }

    /**
     * `handleSubmit`, with `outcome` what POST `/auth/register` would
     * answer. Different passwords: the mismatch message and no request,
     * the session untouched. Equal passwords: the local error cleared and
     * `register` called; on success the page goes home.
     */
    method HandleSubmit(auth: AuthProvider, password: string, confirm: string, outcome: AuthOutcome)
      modifies this, auth
      ensures password != confirm ==>
        && localError == PasswordsDiffer && navigatedHome == old(navigatedHome)
        && auth.state == old(auth.state) && auth.storage == old(auth.storage)
      ensures password == confirm ==>
        && localError == ""
        && navigatedHome == (old(navigatedHome) || outcome.Answered?)
        && !auth.state.loading
        && (outcome.Answered? ==>
              && auth.state == AuthState(Some(UserOf(outcome.data)), Some(outcome.data.token), false, None)
              && auth.storage == old(auth.storage)[TokenKey := Text(outcome.data.token)][UserKey := UserJson(UserOf(outcome.data))])
        && (outcome.Rejected? ==>
              && auth.state == AuthState(None, None, false, Some(Describe(outcome.response, RegistrationFailed)))
              && auth.storage == old(auth.storage)
              && ShownError(localError, auth.state.error) == Some(Describe(outcome.response, RegistrationFailed)))
    {
      localError := "";
      if password != confirm {
        localError := PasswordsDiffer;
        return;
      }
      var ok := auth.Register(outcome);
      if ok {
        navigatedHome := true;
      }
    }

    /** The form's submit event: blocked by the browser unless `FormAccepts`, otherwise `HandleSubmit`. */
    method Submit(auth: AuthProvider, name: string, email: string, password: string, confirm: string,
                  looksLikeEmail: string -> bool, outcome: AuthOutcome)
      modifies this, auth
      ensures !FormAccepts(name, email, password, confirm, looksLikeEmail) ==>
        && localError == old(localError) && navigatedHome == old(navigatedHome)
        && auth.state == old(auth.state) && auth.storage == old(auth.storage)
      ensures FormAccepts(name, email, password, confirm, looksLikeEmail) ==>
        (localError == "" <==> password == confirm) && (navigatedHome <==> old(navigatedHome) || (password == confirm && outcome.Answered?))
    {
      if FormAccepts(name, email, password, confirm, looksLikeEmail) {
        HandleSubmit(auth, password, confirm, outcome);
      }
    }
  }

  /**
   * `handleSubmit` as the application composes it, for a page shown at
   * `/register`. With equal passwords `register` first dispatches
   * SET_LOADING, so `PublicRoute` puts the spinner (`during`) in place of
   * the page and the page unmounts. A rejection's AUTH_ERROR ends loading,
   * a new page (`after`) mounts, and its mount effect clears the session's
   * error: the alert shows nothing, and the reason is lost. A success sends
   * the path home instead.
   */
  method SubmitAsComposed(auth: AuthProvider, page: Register, password: string, confirm: string, outcome: AuthOutcome)
    returns (during: Routing.Screen, after: Register)
    requires Routing.Render("/register", auth.state) == Routing.Show(Routing.RegisterPage, false)
    modifies page, auth
    ensures password != confirm ==>
      && after == page && during == Routing.Show(Routing.RegisterPage, false)
      && ShownError(after.localError, auth.state.error) == Some(PasswordsDiffer)
    ensures password == confirm ==> during == Routing.Loading
    ensures password == confirm && outcome.Answered? ==> Routing.Render("/register", auth.state) == Routing.Navigate("/")
    ensures password == confirm && outcome.Rejected? ==>
      && fresh(after) && Routing.Render("/register", auth.state) == Routing.Show(Routing.RegisterPage, false)
      && ShownError(after.localError, auth.state.error) == None
  {
    during := Routing.Render("/register", if password == confirm then Reduce(auth.state, SetLoading) else auth.state);
    page.HandleSubmit(auth, password, confirm, outcome);
    after := page;
    if password == confirm && outcome.Rejected? {
      after := new Register();
      after.Mount(auth);
    }
  }

  /** After a rejected registration the alert shows the reason the server gave, or the default. */
  lemma RejectedRegistrationShowsReason(response: Option<ErrorData>)
    ensures ShownError("", Some(Describe(response, RegistrationFailed))) == Some(Describe(response, RegistrationFailed))
  {
  }
}
