/**
 * The front end's route table and its guard: which screen a path shows, for
 * a given authentication state. A guarded route shows a spinner while the
 * session is being restored, sends a visitor without a user or with a role
 * it does not admit to `/login`, and otherwise shows its page.
 */
module Routes {
  import opened Wrappers
  import opened Auth

  /** What the guard decides. */
  datatype Decision = Spinner | Redirect(to: string) | RenderChildren

  /**
   * `ProtectedRoute`: loading wins over everything; then a missing user, then
   * a role outside `allowedRoles` (when the route lists roles) redirect to
   * `/login`; otherwise the children render.
   */
  function Guard(loading: bool, user: Option<AuthUser>, allowedRoles: Option<seq<Role>>): (d: Decision)
    ensures loading ==> d == Spinner
    ensures !loading && user.None? ==> d == Redirect("/login")
    ensures !loading && user.Some? && allowedRoles.Some? && user.value.role !in allowedRoles.value ==>
              d == Redirect("/login")
    ensures d == RenderChildren <==>
              !loading && user.Some? && (allowedRoles.None? || user.value.role in allowedRoles.value)
    ensures d.Redirect? ==> d.to == "/login"
  {
    if loading then Spinner
    else if user.None? then Redirect("/login")
    else if allowedRoles.Some? && user.value.role !in allowedRoles.value then Redirect("/login")
    else RenderChildren
  }

  /** Without a role list, every signed-in user gets the children once loading is over. */
  lemma UnrestrictedAdmitsAnyUser(u: AuthUser)
    ensures Guard(false, Some(u), None) == RenderChildren
  {
  }

  datatype PageName = LoginPage | RegisterPage | SessionPage | UserDashboard | AdminDashboard

  /** A route's element: a page, a page behind the guard with a role list, or a redirect. */
  datatype Element =
    | Plain(page: PageName)
    | Protected(roles: seq<Role>, guarded: PageName)
    | Navigate(target: string)

  /** A path segment pattern: a literal, or a parameter matching any non-empty segment. */
  datatype Segment = Lit(text: string) | Param

  datatype Route = Route(pattern: seq<Segment>, element: Element)

  /** A URL path, split into its non-empty segments; `/` is the empty path. */
  type Path = seq<string>

  /** The route table, in declaration order. */
  const Table: seq<Route> := [
    Route([Lit("login")], Plain(LoginPage)),
    Route([Lit("register")], Plain(RegisterPage)),
    Route([Lit("session"), Param], Protected([User, Admin], SessionPage)),
    Route([Lit("dashboard")], Protected([User], UserDashboard)),
    Route([Lit("admin")], Protected([Admin], AdminDashboard)),
    Route([], Navigate("/login"))
  ]

  predicate SegmentMatches(s: Segment, part: string) {
    match s
    case Lit(t) => part == t
    case Param => part != ""
  }

  predicate PatternMatches(pattern: seq<Segment>, path: Path) {
    |pattern| == |path| && forall i :: 0 <= i < |path| ==> SegmentMatches(pattern[i], path[i])
  }

  /** The first route of `routes` whose pattern matches the path. */
  function FirstMatch(routes: seq<Route>, path: Path): (r: Option<nat>)
    ensures r.None? <==> forall i :: 0 <= i < |routes| ==> !PatternMatches(routes[i].pattern, path)
    ensures r.Some? ==> r.value < |routes| && PatternMatches(routes[r.value].pattern, path)
  {
    if routes == [] then None
    else if PatternMatches(routes[0].pattern, path) then Some(0)
    else match FirstMatch(routes[1..], path)
      case None => None
      case Some(k) => Some(k + 1)
  }

  /** No path matches two routes of the table, so declaration order does not matter. */
  lemma TableRoutesDisjoint(path: Path, i: nat, j: nat)
    requires i < |Table| && j < |Table|
    requires PatternMatches(Table[i].pattern, path) && PatternMatches(Table[j].pattern, path)
    ensures i == j
  {
    if |path| == 2 {
      assert i == 2 && j == 2;
    } else if |path| == 1 {
      assert path[0] == "login" || path[0] == "register" || path[0] == "dashboard" || path[0] == "admin";
    }
  }

  /** The element the router renders for a path, if any route matches. */
  function Resolve(path: Path): (e: Option<Element>)
    ensures e.Some? <==> exists i :: 0 <= i < |Table| && PatternMatches(Table[i].pattern, path)
    ensures e.Some? ==> exists i :: 0 <= i < |Table| && PatternMatches(Table[i].pattern, path)
                                   && Table[i].element == e.value
  {
    match FirstMatch(Table, path)
    case None => None
    case Some(k) => Some(Table[k].element)
  }

  /** A path matching route `k` resolves to route `k`'s element. */
  lemma ResolvesTo(path: Path, k: nat)
    requires k < |Table| && PatternMatches(Table[k].pattern, path)
    ensures Resolve(path) == Some(Table[k].element)
  {
    var j := FirstMatch(Table, path).value;
    TableRoutesDisjoint(path, j, k);
  }

  /** What the visitor ends up seeing. */
  datatype Screen = Shows(page: PageName) | Loading | GoesTo(to: string) | Blank

  /** The screen for a path under the given authentication state. */
  function Outcome(path: Path, loading: bool, user: Option<AuthUser>): (s: Screen)
    ensures Resolve(path).None? <==> s == Blank
  {
    match Resolve(path)
    case None => Blank
    case Some(Plain(p)) => Shows(p)
    case Some(Navigate(to)) => GoesTo(to)
    case Some(Protected(roles, p)) =>
      match Guard(loading, user, Some(roles))
      case Spinner => Loading
      case Redirect(to) => GoesTo(to)
      case RenderChildren => Shows(p)
  }

  /** `/login` and `/register` show their forms whatever the authentication state. */
  lemma LoginAndRegisterUnguarded(loading: bool, user: Option<AuthUser>)
    ensures Outcome(["login"], loading, user) == Shows(LoginPage)
    ensures Outcome(["register"], loading, user) == Shows(RegisterPage)
  {
    assert PatternMatches(Table[0].pattern, ["login"]);
    ResolvesTo(["login"], 0);
    assert PatternMatches(Table[1].pattern, ["register"]);
    ResolvesTo(["register"], 1);
  }

  /** `/session/:id` shows the session page to a signed-in user of either role. */
  lemma SessionAdmitsBothRoles(id: string, u: AuthUser)
    requires id != ""
    ensures Outcome(["session", id], false, Some(u)) == Shows(SessionPage)
  {
    assert PatternMatches(Table[2].pattern, ["session", id]);
    ResolvesTo(["session", id], 2);
    assert Resolve(["session", id]) == Some(Protected([User, Admin], SessionPage));
    assert u.role in [User, Admin] by {
      if u.role == User { assert [User, Admin][0] == u.role; } else { assert [User, Admin][1] == u.role; }
    }
  }

  /** `/dashboard` shows the participant's dashboard exactly to participants. */
  lemma DashboardOnlyForUsers(u: AuthUser)
    ensures Outcome(["dashboard"], false, Some(u)) == Shows(UserDashboard) <==> u.role == User
    ensures u.role == Admin ==> Outcome(["dashboard"], false, Some(u)) == GoesTo("/login")
  {
    assert PatternMatches(Table[3].pattern, ["dashboard"]);
    ResolvesTo(["dashboard"], 3);
    assert Resolve(["dashboard"]) == Some(Protected([User], UserDashboard));
    assert u.role in [User] <==> u.role == User;
  }

  /** `/admin` shows the admin's dashboard exactly to admins. */
  lemma AdminPageOnlyForAdmins(u: AuthUser)
    ensures Outcome(["admin"], false, Some(u)) == Shows(AdminDashboard) <==> u.role == Admin
  {
    assert PatternMatches(Table[4].pattern, ["admin"]);
    ResolvesTo(["admin"], 4);
    assert Resolve(["admin"]) == Some(Protected([Admin], AdminDashboard));
    assert u.role in [Admin] <==> u.role == Admin;
  }

  /** `/` sends everyone to `/login`. */
  lemma RootRedirectsToLogin(loading: bool, user: Option<AuthUser>)
    ensures Outcome([], loading, user) == GoesTo("/login")
  {
    assert PatternMatches(Table[5].pattern, []);
    ResolvesTo([], 5);
  }

  /** On no path is an admin shown the participant's dashboard. */
  lemma AdminNeverSeesUserDashboard(path: Path, loading: bool, u: AuthUser)
    requires u.role == Admin
    ensures Outcome(path, loading, Some(u)) != Shows(UserDashboard)
  {
    match FirstMatch(Table, path)
    case None =>
    case Some(k) =>
      if Table[k].element == Protected([User], UserDashboard) {
        assert Guard(loading, Some(u), Some([User])) != RenderChildren;
      }
  }

  /** Without a signed-in user, only the login and register forms are ever shown. */
  lemma AnonymousSeesOnlyForms(path: Path, loading: bool)
    ensures Outcome(path, loading, None).Shows? ==>
              Outcome(path, loading, None).page in {LoginPage, RegisterPage}
  {
  }
}
