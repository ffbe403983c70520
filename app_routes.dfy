/**
 * The client's route table and its guard: while the session is loading only a
 * spinner is shown; afterwards the root sends a logged-in user to the dashboard
 * of their role, each dashboard admits exactly one role, and every other path
 * goes back to the root.
 */
module AppRoutes {
  import opened Common
  import Api

  datatype Page = LoginPage | StudentDashboard | DriverDashboard | AdminDashboard

  /** What a route renders: a spinner with its text, a `<Navigate replace>`, or a page. */
  datatype Element = Spinner(text: string) | Redirect(to: string) | Show(page: Page)

  /** `ProtectedRoute({children, allowedRoles})`; `allowedRoles` may be left out. */
  function ProtectedRoute(loading: bool, user: Option<Api.ClientUser>,
                          allowedRoles: Option<seq<string>>, child: Page): Element
  {
    if loading then Spinner("Loading...")
    else if user.None? then Redirect("/")
    else if allowedRoles.Some? && user.value.role !in allowedRoles.value then Redirect("/")
    else Show(child)
  }

  /**
   * Loading wins over everything; then the child is shown exactly to a user
   * whose role is allowed, where no list allows every user, and everyone else
   * is sent to the root.
   */
  lemma ProtectedRouteMeaning(loading: bool, user: Option<Api.ClientUser>,
                              allowedRoles: Option<seq<string>>, child: Page)
    ensures loading ==> ProtectedRoute(loading, user, allowedRoles, child) == Spinner("Loading...")
    ensures ProtectedRoute(loading, user, allowedRoles, child) == Show(child) <==>
      (!loading && user.Some? &&
       (allowedRoles.None? || exists k :: 0 <= k < |allowedRoles.value| && allowedRoles.value[k] == user.value.role))
    ensures !loading && ProtectedRoute(loading, user, allowedRoles, child) != Show(child) ==>
      ProtectedRoute(loading, user, allowedRoles, child) == Redirect("/")
  {
    if !loading && user.Some? && allowedRoles.Some? && user.value.role in allowedRoles.value {
      var k :| 0 <= k < |allowedRoles.value| && allowedRoles.value[k] == user.value.role;
    }
  }

  /** Trailing slashes are not significant to the router. */
  function StripTrailingSlashes(path: string): (r: string)
    ensures |r| <= |path| && r == path[..|r|]
    ensures r == [] || r[|r| - 1] != '/'
    ensures forall i :: |r| <= i < |path| ==> path[i] == '/'
  {
    if path != [] && path[|path| - 1] == '/' then StripTrailingSlashes(path[..|path| - 1]) else path
  }

  /** The form a path is matched in: case does not matter and trailing slashes are dropped; the root becomes "". */
  function Canonical(path: string): string
  {
    ToLower(StripTrailingSlashes(path))
  }

  /** The root's element: a logged-in user goes to "/" and their role, anyone else sees the login form. */
  function RootElement(user: Option<Api.ClientUser>): Element
  {
    if user.Some? then Redirect("/" + user.value.role) else Show(LoginPage)
  }

  /** The `<Routes>` table, with the catch-all last. */
  function RouteElement(path: string, loading: bool, user: Option<Api.ClientUser>): Element
  {
    var p := Canonical(path);
    if p == "" then RootElement(user)
    else if p == "/student" then ProtectedRoute(loading, user, Some(["student"]), StudentDashboard)
    else if p == "/driver" then ProtectedRoute(loading, user, Some(["driver"]), DriverDashboard)
    else if p == "/admin" then ProtectedRoute(loading, user, Some(["admin"]), AdminDashboard)
    else Redirect("/")
  }

  /** What `AppContent` renders: the initialising spinner, or the navbar flag and the route's element. */
  datatype Screen = Initializing | Rendered(navbar: bool, main: Element)

  function AppContent(path: string, loading: bool, user: Option<Api.ClientUser>): (s: Screen)
    ensures s == Initializing <==> loading
    ensures s.Rendered? ==> (s.navbar <==> user.Some?)
    ensures s.Rendered? ==> !s.main.Spinner?
  {
    if loading then Initializing
    else Rendered(user.Some?, RouteElement(path, false, user))
  }

  /** The dashboard each role lives on. */
  function DashboardOf(role: string): Option<Page>
  {
    if role == "student" then Some(StudentDashboard)
    else if role == "driver" then Some(DriverDashboard)
    else if role == "admin" then Some(AdminDashboard)
    else None
  }

  lemma CanonicalOfRolePath(role: string)
    requires role in {"student", "driver", "admin"}
    ensures Canonical("/" + role) == "/" + role
  {
    assert StripTrailingSlashes("/" + role) == "/" + role;
  }

  /**
   * Each dashboard path, in whatever case and with any trailing slashes, shows
   * its page exactly to a logged-in user of its own role, and otherwise
   * redirects to the root.
   */
  lemma DashboardAdmitsOneRole(path: string, u: Api.ClientUser)
    requires Canonical(path) in {"/student", "/driver", "/admin"}
    ensures var role := Canonical(path)[1..];
      (RouteElement(path, false, Some(u)) == Show(DashboardOf(role).value) <==> u.role == role) &&
      (u.role != role ==> RouteElement(path, false, Some(u)) == Redirect("/")) &&
      RouteElement(path, false, None) == Redirect("/")
  {
  }

  /** A logged-in user at the root is sent to "/" and their role; a visitor sees the login form. */
  lemma RootRedirectsByRole(path: string, user: Option<Api.ClientUser>, loading: bool)
    requires Canonical(path) == ""
    ensures user.Some? ==> RouteElement(path, loading, user) == Redirect("/" + user.value.role)
    ensures user.None? ==> RouteElement(path, loading, user) == Show(LoginPage)
  {
  }

  /** Every path outside the table goes back to the root, whoever asks. */
  lemma CatchAllRedirects(path: string, loading: bool, user: Option<Api.ClientUser>)
    requires Canonical(path) !in {"", "/student", "/driver", "/admin"}
    ensures RouteElement(path, loading, user) == Redirect("/")
  {
  }

  /**
   * A user of one of the three roles reaches their dashboard in one redirect
   * from the root; a user of any other role is only ever redirected.
   */
  lemma RootLandsOnDashboard(u: Api.ClientUser)
    ensures DashboardOf(u.role).Some? ==>
      RouteElement(RootElement(Some(u)).to, false, Some(u)) == Show(DashboardOf(u.role).value)
    ensures DashboardOf(u.role).None? ==>
      RouteElement("/" + u.role, false, Some(u)).Redirect?
  {
    if DashboardOf(u.role).Some? {
      CanonicalOfRolePath(u.role);
    } else {
      var p := Canonical("/" + u.role);
      if p in {"/student", "/driver", "/admin"} {
        DashboardAdmitsOneRole("/" + u.role, u);
      }
    }
  }

  /** Whoever a mock login returns lands on the dashboard of the role they chose. */
  lemma MockLoginLandsOnDashboard(c: Api.Credentials, now: nat)
    requires Api.MockLogin(c, now).LoggedIn?
    ensures var u := Api.MockLogin(c, now).user;
      AppContent(RootElement(Some(u)).to, false, Some(u)) == Rendered(true, Show(DashboardOf(c.role).value))
  {
    Api.MockLoginMeaning(c, now);
    RootLandsOnDashboard(Api.MockLogin(c, now).user);
  }
}
