/**
 * The two route guards and the application's route table. A guard looks at
 * nothing but `user` and `loading` of the authentication state.
 */
module Routing {
  import opened Wrappers
  import opened AuthContext

  datatype Guard = Spinner | RenderChildren | Redirect(to: string, replace: bool)

  /** `PrivateRoute`: wait while loading, then admit a user and send everyone else to the login page. */
  function PrivateRoute(s: AuthState): (g: Guard)
    ensures s.loading ==> g == Spinner
    ensures !s.loading ==> (g == RenderChildren <==> s.user.Some?)
    ensures !s.loading && s.user.None? ==> g == Redirect("/login", true)
  {
    if s.loading then Spinner
    else if s.user.Some? then RenderChildren
    else Redirect("/login", true)
  }

  /** `PublicRoute`: wait while loading, then send a user home and show the page to everyone else. */
  function PublicRoute(s: AuthState): (g: Guard)
    ensures s.loading ==> g == Spinner
    ensures !s.loading ==> (g == RenderChildren <==> s.user.None?)
    ensures !s.loading && s.user.Some? ==> g == Redirect("/", true)
  {
    if s.loading then Spinner
    else if s.user.Some? then Redirect("/", true)
    else RenderChildren
  }

  /** The decision ignores the token and the error: a stored token without a user does not admit. */
  lemma GuardsReadOnlyUserAndLoading(s: AuthState, t: AuthState)
    requires s.user == t.user && s.loading == t.loading
    ensures PrivateRoute(s) == PrivateRoute(t) && PublicRoute(s) == PublicRoute(t)
  {
  }

  /** Once loading is over, exactly one of the two guards renders its children. */
  lemma ExactlyOneGuardAdmits(s: AuthState)
    requires !s.loading
    ensures (PrivateRoute(s) == RenderChildren) != (PublicRoute(s) == RenderChildren)
  {
  }

  // ---------------------------------------------------------------- route table

  datatype Page = LoginPage | RegisterPage | DashboardPage | ExpensesPage

  /** What a path is bound to: a page under `PublicRoute`, a page inside the `PrivateRoute` layout, or the catch-all. */
  datatype Binding = Public(page: Page) | Private(page: Page) | CatchAll

  /** The `<Routes>` table; `*` takes every path that no other route matches. */
  function RouteFor(path: string): (b: Binding)
    ensures b.Public? <==> path == "/login" || path == "/register"
    ensures b.Private? <==> path == "/" || path == "/expenses"
    ensures path == "/login" ==> b == Public(LoginPage)
    ensures path == "/register" ==> b == Public(RegisterPage)
    ensures path == "/" ==> b == Private(DashboardPage)
    ensures path == "/expenses" ==> b == Private(ExpensesPage)
  {
    if path == "/login" then Public(LoginPage)
    else if path == "/register" then Public(RegisterPage)
    else if path == "/" then Private(DashboardPage)
    else if path == "/expenses" then Private(ExpensesPage)
    else CatchAll
  }

  /** What the router shows for one path: the spinner, a page (inside the layout or not), or a navigation. */
  datatype Screen = Loading | Show(page: Page, inLayout: bool) | Navigate(to: string)

  function GuardScreen(g: Guard, page: Page, inLayout: bool): Screen {
    match g
    case Spinner => Loading
    case RenderChildren => Show(page, inLayout)
    case Redirect(to, _) => Navigate(to)
  }

  function Render(path: string, s: AuthState): Screen {
    match RouteFor(path)
    case Public(p) => GuardScreen(PublicRoute(s), p, false)
    case Private(p) => GuardScreen(PrivateRoute(s), p, true)
    case CatchAll => Navigate("/")
  }

  /** Follows at most `hops` navigations from `path`. */
  function Settle(path: string, s: AuthState, hops: nat): Screen
    decreases hops
  {
    var r := Render(path, s);
    if r.Navigate? && hops > 0 then Settle(r.to, s, hops - 1) else r
  }

  predicate IsPrivatePage(p: Page) {
    p == DashboardPage || p == ExpensesPage
  }

  /**
   * With loading over, every path, known or not, reaches a page within two
   * navigations: a private page (in the layout) exactly when there is a
   * user, the login or register page otherwise.
   */
  lemma EveryPathSettles(path: string, s: AuthState)
    requires !s.loading
    ensures Settle(path, s, 2).Show?
    ensures Settle(path, s, 2).inLayout <==> s.user.Some?
    ensures IsPrivatePage(Settle(path, s, 2).page) <==> s.user.Some?
    ensures s.user.None? && path != "/register" ==> Settle(path, s, 2).page == LoginPage
    ensures s.user.Some? && path != "/expenses" ==> Settle(path, s, 2).page == DashboardPage
    ensures s.user.None? && path == "/register" ==> Settle(path, s, 2) == Show(RegisterPage, false)
    ensures s.user.Some? && path == "/expenses" ==> Settle(path, s, 2) == Show(ExpensesPage, true)
  {
    assert Render("/login", s) == (if s.user.Some? then Navigate("/") else Show(LoginPage, false));
    assert Render("/", s) == (if s.user.Some? then Show(DashboardPage, true) else Navigate("/login"));
  }

  /**
   * A login or registration request replaces the public page by the
   * spinner, so the page unmounts; a rejection (AUTH_ERROR) brings the same
   * page back as a new mount, and a success sends the path home.
   */
  lemma AuthRequestRemountsPage(path: string, s: AuthState, message: Option<string>, user: UserInfo, token: string)
    requires path == "/login" || path == "/register"
    requires Render(path, s).Show?
    ensures Render(path, Reduce(s, SetLoading)) == Loading
    ensures Render(path, Reduce(Reduce(s, SetLoading), AuthError(message))) == Render(path, s)
    ensures Render(path, Reduce(Reduce(s, SetLoading), AuthSuccess(user, token))) == Navigate("/")
  {
  }

  /** While loading, every path shows the spinner after at most the catch-all's one navigation. */
  lemma LoadingShowsSpinner(path: string, s: AuthState)
    requires s.loading
    ensures Settle(path, s, 1) == Loading
  {
    assert Render("/", s) == Loading;
  }
}
