/** The routing shell of src/App.jsx: the guard in front of the dashboard,
    the start-up handler that sends a reloaded page back to `/`, and the
    route table. */
module App {
  import opened Js
  import opened Text
  import AuthContext

  /** What the guard renders. */
  datatype GuardView = Spinner | Children | RedirectTo(path: string)

  /** `ProtectedRoute`: a spinner while the session is loading, then the
      page for a signed-in user and a redirect to `/login` otherwise. */
  function Guard(loading: bool, user: Option<AuthContext.User>): GuardView {
    if loading then Spinner
    else if user.Some? then Children
    else RedirectTo("/login")
  }

  /** The guard's three outcomes: the spinner exactly while loading, the
      page exactly for a signed-in user once loaded, the login page
      otherwise. */
  lemma GuardMeaning(loading: bool, user: Option<AuthContext.User>)
    ensures Guard(loading, user) == Spinner <==> loading
    ensures Guard(loading, user) == Children <==> !loading && user.Some?
    ensures Guard(loading, user) == RedirectTo("/login") <==> !loading && user.None?
  {
  }

  /** `!window.history.state || window.history.state.idx === 0`: no history
      state (or a falsy one), or one whose `idx` is the number 0. */
  predicate IsPageRefresh(state: Option<Json>) {
    !Present(state) || (state.value.JObject? && Lookup(state.value.fields, "idx") == Some(JNum(0)))
  }

  /** A history entry the router pushed after the first one is not taken
      for a reload. */
  lemma LaterEntryIsNoRefresh(fields: map<string, Json>, idx: int)
    requires Lookup(fields, "idx") == Some(JNum(idx)) && idx != 0
    ensures !IsPageRefresh(Some(JObject(fields)))
  {
  }

  const IntendedPageKey: string := "intendedPage"
  const LandingPath: string := "/"

  /** The parts of the browser the refresh handler reads and writes. */
  class Browser {
    var pathname: string
    var historyState: Option<Json>
    var sessionStorage: map<string, string>

    constructor (pathname: string, historyState: Option<Json>, sessionStorage: map<string, string>)
      ensures this.pathname == pathname && this.historyState == historyState
      ensures this.sessionStorage == sessionStorage
    {
      this.pathname := pathname;
      this.historyState := historyState;
      this.sessionStorage := sessionStorage;
    }

    /** The `RefreshHandler` effect, run once when the application mounts:
      on a reload away from `/` it records the page and goes to `/`;
      otherwise it does nothing. */
    method RunRefreshHandler()
      modifies this`pathname, this`sessionStorage
      ensures IsPageRefresh(historyState) && old(pathname) != LandingPath ==>
        sessionStorage == old(sessionStorage)[IntendedPageKey := old(pathname)] && pathname == LandingPath
      ensures !(IsPageRefresh(historyState) && old(pathname) != LandingPath) ==>
        sessionStorage == old(sessionStorage) && pathname == old(pathname)
    {
      if IsPageRefresh(historyState) && pathname != LandingPath {
        sessionStorage := sessionStorage[IntendedPageKey := pathname];
        pathname := LandingPath;
      }
    }
  }

  /** The pages of the route table. */
  datatype Page = LandingPage | LoginPage | RegisterPage | DashboardPage

  /** A route: its path, its page and whether the guard stands in front. */
  datatype Route = Route(path: string, page: Page, guarded: bool)

  const LandingRoute: string := "/"
  const LoginRoute: string := "/login"
  const RegisterRoute: string := "/register"
  const DashboardRoute: string := "/dashboard"

  const Routes: seq<Route> := [
    Route(LandingRoute, LandingPage, false),
    Route(LoginRoute, LoginPage, false),
    Route(RegisterRoute, RegisterPage, false),
    Route(DashboardRoute, DashboardPage, true)]

  /** How the router matches a route's path against the location: the
      path compiled to a regular expression with the `i` flag and any run
      of slashes allowed at its end, that is the path's characters
      regardless of ASCII case, then any number of `/`. */
  predicate PathMatches(routePath: string, pathname: string) {
    |routePath| <= |pathname|
    && (forall k :: 0 <= k < |routePath| ==> AsciiUpper(pathname[k]) == AsciiUpper(routePath[k]))
    && (forall k :: |routePath| <= k < |pathname| ==> pathname[k] == '/')
  }

  /** What a location shows. */
  datatype Screen = Blank | Show(page: Page) | Loading | Redirect(path: string)

  /** The screen for `pathname`: nothing when no route matches, the page
      for an open route, and the guard's decision for a guarded one. */
  function Resolve(pathname: string, loading: bool, user: Option<AuthContext.User>): Screen {
    ResolveIn(Routes, pathname, loading, user)
  }

  /** The screen for a matched route. */
  function RouteScreen(route: Route, loading: bool, user: Option<AuthContext.User>): Screen {
    if !route.guarded then Show(route.page)
    else match Guard(loading, user)
      case Spinner => Loading
      case Children => Show(route.page)
      case RedirectTo(p) => Redirect(p)
  }

  /** The first route whose path matches `pathname` decides. */
  function ResolveIn(routes: seq<Route>, pathname: string, loading: bool, user: Option<AuthContext.User>): Screen {
    if routes == [] then Blank
    else if PathMatches(routes[0].path, pathname) then RouteScreen(routes[0], loading, user)
    else ResolveIn(routes[1..], pathname, loading, user)
  }

  /** The route that decides is the first one whose path matches. */
  lemma {:induction false} ResolveInFindsFirst(routes: seq<Route>, i: nat, pathname: string, loading: bool,
                                               user: Option<AuthContext.User>)
    requires i < |routes| && PathMatches(routes[i].path, pathname)
    requires forall j :: 0 <= j < i ==> !PathMatches(routes[j].path, pathname)
    ensures ResolveIn(routes, pathname, loading, user) == RouteScreen(routes[i], loading, user)
  {
    if i > 0 {
      ResolveInFindsFirst(routes[1..], i - 1, pathname, loading, user);
    }
  }

  /** A location no route matches shows nothing. */
  lemma {:induction false} UnmatchedPathBlank(routes: seq<Route>, pathname: string, loading: bool,
                                              user: Option<AuthContext.User>)
    requires forall j :: 0 <= j < |routes| ==> !PathMatches(routes[j].path, pathname)
    ensures ResolveIn(routes, pathname, loading, user) == Blank
  {
    if routes != [] {
      UnmatchedPathBlank(routes[1..], pathname, loading, user);
    }
  }

  /** The four route paths differ in their second character (a `/` for the
      landing page, `L`, `R` and `D` up to case for the others), so a
      location matches at most one of them. */
  lemma RoutesExclusive(pathname: string, i: nat, j: nat)
    requires i < j < |Routes|
    requires PathMatches(Routes[i].path, pathname)
    ensures !PathMatches(Routes[j].path, pathname)
  {
    if i == 0 {
      if |pathname| >= 2 {
        assert pathname[1] == '/';
      }
    } else {
      assert AsciiUpper(pathname[1]) == AsciiUpper(Routes[i].path[1]);
    }
  }

  /** A location matching `/` shows the landing page. */
  lemma LandingResolves(pathname: string, loading: bool, user: Option<AuthContext.User>)
    requires PathMatches(LandingRoute, pathname)
    ensures Resolve(pathname, loading, user) == Show(LandingPage)
  {
    ResolveInFindsFirst(Routes, 0, pathname, loading, user);
  }

  /** A location matching `/login` shows the login page. */
  lemma LoginResolves(pathname: string, loading: bool, user: Option<AuthContext.User>)
    requires PathMatches(LoginRoute, pathname)
    ensures Resolve(pathname, loading, user) == Show(LoginPage)
  {
    if PathMatches(Routes[0].path, pathname) {
      RoutesExclusive(pathname, 0, 1);
    }
    ResolveInFindsFirst(Routes, 1, pathname, loading, user);
  }

  /** A location matching `/register` shows the registration page. */
  lemma RegisterResolves(pathname: string, loading: bool, user: Option<AuthContext.User>)
    requires PathMatches(RegisterRoute, pathname)
    ensures Resolve(pathname, loading, user) == Show(RegisterPage)
  {
    forall j | 0 <= j < 2 ensures !PathMatches(Routes[j].path, pathname) {
      if PathMatches(Routes[j].path, pathname) {
        RoutesExclusive(pathname, j, 2);
      }
    }
    ResolveInFindsFirst(Routes, 2, pathname, loading, user);
  }

  /** A location matching `/dashboard` shows what the guard decides. */
  lemma DashboardResolves(pathname: string, loading: bool, user: Option<AuthContext.User>)
    requires PathMatches(DashboardRoute, pathname)
    ensures Resolve(pathname, loading, user) ==
      (if loading then Loading else if user.Some? then Show(DashboardPage) else Redirect("/login"))
  {
    forall j | 0 <= j < 3 ensures !PathMatches(Routes[j].path, pathname) {
      if PathMatches(Routes[j].path, pathname) {
        RoutesExclusive(pathname, j, 3);
      }
    }
    ResolveInFindsFirst(Routes, 3, pathname, loading, user);
  }

  /** The screen for every location: each route's page for the locations
      its path matches (the dashboard behind the guard), nothing for the
      rest. */
  lemma ResolveMeaning(pathname: string, loading: bool, user: Option<AuthContext.User>)
    ensures PathMatches(LandingRoute, pathname) ==> Resolve(pathname, loading, user) == Show(LandingPage)
    ensures PathMatches(LoginRoute, pathname) ==> Resolve(pathname, loading, user) == Show(LoginPage)
    ensures PathMatches(RegisterRoute, pathname) ==> Resolve(pathname, loading, user) == Show(RegisterPage)
    ensures PathMatches(DashboardRoute, pathname) ==>
      Resolve(pathname, loading, user) ==
        (if loading then Loading else if user.Some? then Show(DashboardPage) else Redirect("/login"))
    ensures (forall j :: 0 <= j < |Routes| ==> !PathMatches(Routes[j].path, pathname)) ==>
      Resolve(pathname, loading, user) == Blank
  {
    if PathMatches(LandingRoute, pathname) {
      LandingResolves(pathname, loading, user);
    }
    if PathMatches(LoginRoute, pathname) {
      LoginResolves(pathname, loading, user);
    }
    if PathMatches(RegisterRoute, pathname) {
      RegisterResolves(pathname, loading, user);
    }
    if PathMatches(DashboardRoute, pathname) {
      DashboardResolves(pathname, loading, user);
    }
    if forall j :: 0 <= j < |Routes| ==> !PathMatches(Routes[j].path, pathname) {
      UnmatchedPathBlank(Routes, pathname, loading, user);
    }
  }

  /** Only the dashboard's locations depend on the session: the spinner and
      the redirect to `/login` appear exactly on locations matching
      `/dashboard`, whatever their case and trailing slashes. */
  lemma OnlyDashboardGuarded(pathname: string, loading: bool, user: Option<AuthContext.User>)
    ensures Resolve(pathname, loading, user) == Loading <==> loading && PathMatches(DashboardRoute, pathname)
    ensures Resolve(pathname, loading, user) == Redirect("/login") <==>
      !loading && user.None? && PathMatches(DashboardRoute, pathname)
    ensures !PathMatches(DashboardRoute, pathname) ==> Resolve(pathname, loading, user) == Resolve(pathname, false, None)
  {
    ResolveMeaning(pathname, loading, user);
    ResolveMeaning(pathname, false, None);
  }

  /** The router ignores case and trailing slashes: `/Dashboard/` is the
      dashboard behind the guard and `/LOGIN` the login page. */
  lemma CaseAndSlashVariants(loading: bool, user: Option<AuthContext.User>)
    ensures Resolve("/Dashboard/", loading, user) == Resolve(DashboardRoute, loading, user)
    ensures Resolve("/LOGIN", loading, user) == Show(LoginPage)
  {
    assert PathMatches(DashboardRoute, "/Dashboard/");
    assert PathMatches(DashboardRoute, DashboardRoute);
    assert PathMatches(LoginRoute, "/LOGIN");
    ResolveMeaning("/Dashboard/", loading, user);
    ResolveMeaning(DashboardRoute, loading, user);
    ResolveMeaning("/LOGIN", loading, user);
  }

  /** After a logout, the next start-up finds nobody signed in and the
      dashboard sends the visitor to the login page. */
  lemma DashboardAfterLogout(storage: map<string, string>)
    ensures Resolve(DashboardRoute, false, AuthContext.RestoredUser(AuthContext.SignedOutStorage(storage)))
      == Redirect("/login")
  {
    ResolveMeaning(DashboardRoute, false, AuthContext.RestoredUser(AuthContext.SignedOutStorage(storage)));
    assert PathMatches(DashboardRoute, DashboardRoute);
    AuthContext.NoUserRestoredAfterSignOut(storage);
  }
}
