/** `components/auth-provider.tsx`: the client-side route guard, the `isLoading`
    flag with `login`, and the context value pages read through `useAuth`. */
module AuthProvider {
  import opened Common
  import opened Text

  /** `useSession().status`. */
  datatype Status = Loading | Authenticated | Unauthenticated

  /** The routes an anonymous visitor may stay on. */
  const PublicRoutes: seq<string> := ["/", "/login", "/register"]

  /** `/${role.toLowerCase()}/dashboard`. */
  function Dashboard(role: Role): string
  {
    "/" + Lower(RoleName(role)) + "/dashboard"
  }

  /** The `switch` on the role for a signed-in user on the login or register page. */
  function LoginTarget(role: Role): string
  {
    match role
    case Admin => "/admin/dashboard"
    case Trainer => "/trainer/dashboard"
    case Student => "/student/dashboard"
  }

  /** The role whose area a path belongs to, tested in the effect's order. */
  function AreaOf(pathname: string): Option<Role>
  {
    if StartsWith(pathname, "/admin") then Some(Admin)
    else if StartsWith(pathname, "/trainer") then Some(Trainer)
    else if StartsWith(pathname, "/student") then Some(Student)
    else None
  }

  /** The `router.push` calls of one run of the route-protection effect, in order. */
  function Redirects(status: Status, session: Session, pathname: string): seq<string>
  {
    if status == Loading then []
    else if session.None? then
      if pathname in PublicRoutes then [] else ["/login"]
    else
      var role := session.value.role;
      var onEntry := if pathname == "/login" || pathname == "/register" then [LoginTarget(role)] else [];
      var area := AreaOf(pathname);
      var wrongArea := if area.Some? && area.value != role then [Dashboard(role)] else [];
      onEntry + wrongArea
  }

  /** `Lower(s) == t` follows from the two agreeing character by character. */
  lemma LowerIs(s: string, t: string)
    requires |s| == |t| && forall i :: 0 <= i < |s| ==> LowerChar(s[i]) == t[i]
    ensures Lower(s) == t
  {
  }

  /** The lower-cased role name of each role. */
  lemma LowerRoleName(role: Role)
    ensures role == Admin ==> Lower(RoleName(role)) == "admin"
    ensures role == Trainer ==> Lower(RoleName(role)) == "trainer"
    ensures role == Student ==> Lower(RoleName(role)) == "student"
  {
    match role
    case Admin => LowerIs("ADMIN", "admin");
    case Trainer => LowerIs("TRAINER", "trainer");
    case Student => LowerIs("STUDENT", "student");
  }

  lemma LowerRoleNames()
    ensures Lower(RoleName(Admin)) == "admin"
    ensures Lower(RoleName(Trainer)) == "trainer"
    ensures Lower(RoleName(Student)) == "student"
  {
    LowerRoleName(Admin);
    LowerRoleName(Trainer);
    LowerRoleName(Student);
  }

  /** The dashboard path of each role, spelled out. */
  lemma AdminDashboardPath()
    ensures Dashboard(Admin) == "/admin/dashboard"
  {
    LowerRoleName(Admin);
    var n := "admin";
    assert "/" + n + "/dashboard" == "/admin/dashboard";
  }

  lemma TrainerDashboardPath()
    ensures Dashboard(Trainer) == "/trainer/dashboard"
  {
    LowerRoleName(Trainer);
    var n := "trainer";
    assert "/" + n + "/dashboard" == "/trainer/dashboard";
  }

  lemma StudentDashboardPath()
    ensures Dashboard(Student) == "/student/dashboard"
  {
    LowerRoleName(Student);
    var n := "student";
    assert "/" + n + "/dashboard" == "/student/dashboard";
  }

  lemma DashboardPaths()
    ensures Dashboard(Admin) == "/admin/dashboard"
    ensures Dashboard(Trainer) == "/trainer/dashboard"
    ensures Dashboard(Student) == "/student/dashboard"
  {
    AdminDashboardPath();
    TrainerDashboardPath();
    StudentDashboardPath();
  }

  /** The literal targets of the `switch` are the lower-cased dashboards. */
  lemma {:induction false} LoginTargetIsDashboard(role: Role)
    ensures LoginTarget(role) == Dashboard(role)
  {
    DashboardPaths();
  }

  /** While the session is loading the guard does nothing. */
  lemma NoRedirectWhileLoading(session: Session, pathname: string)
    ensures Redirects(Loading, session, pathname) == []
  {
  }

  /** Without a session exactly the non-public paths are sent to the login page. */
  lemma AnonymousGuard(status: Status, pathname: string)
    requires status != Loading
    ensures pathname in PublicRoutes ==> Redirects(status, None, pathname) == []
    ensures pathname !in PublicRoutes ==> Redirects(status, None, pathname) == ["/login"]
  {
  }

  lemma EntryPagesHaveNoArea(pathname: string)
    requires pathname == "/login" || pathname == "/register"
    ensures AreaOf(pathname) == None
  {
    assert pathname[1] != "/admin"[1];
    assert pathname[1] != "/trainer"[1];
    assert pathname[1] != "/student"[1];
  }

  /** One run of the effect pushes at most one route: the login and register
      pages lie in no role's area. */
  lemma {:induction false} AtMostOneRedirect(status: Status, session: Session, pathname: string)
    ensures |Redirects(status, session, pathname)| <= 1
  {
    if pathname == "/login" || pathname == "/register" {
      EntryPagesHaveNoArea(pathname);
    }
  }

  /** A signed-in user on the login or register page goes to their own dashboard. */
  lemma {:induction false} SignedInLeavesEntryPages(status: Status, a: Actor, pathname: string)
    requires status != Loading
    requires pathname == "/login" || pathname == "/register"
    ensures Redirects(status, Some(a), pathname) == [Dashboard(a.role)]
  {
    EntryPagesHaveNoArea(pathname);
    LoginTargetIsDashboard(a.role);
  }

  /** Elsewhere, a signed-in user is redirected exactly when the path lies in
      another role's area, and then to their own dashboard. */
  lemma AreaGuard(status: Status, a: Actor, pathname: string)
    requires status != Loading
    requires pathname != "/login" && pathname != "/register"
    ensures AreaOf(pathname).Some? && AreaOf(pathname).value != a.role ==>
              Redirects(status, Some(a), pathname) == [Dashboard(a.role)]
    ensures !(AreaOf(pathname).Some? && AreaOf(pathname).value != a.role) ==>
              Redirects(status, Some(a), pathname) == []
  {
  }

  /** A role's own dashboard lies in that role's area. */
  lemma {:induction false} DashboardArea(role: Role)
    ensures AreaOf(Dashboard(role)) == Some(role)
  {
    DashboardPaths();
    var d := Dashboard(role);
    match role
    case Admin =>
      assert d[..6] == "/admin";
    case Trainer =>
      assert d[..6] != "/admin" by { assert d[1] != "/admin"[1]; }
      assert d[..8] == "/trainer";
    case Student =>
      assert d[..6] != "/admin" by { assert d[1] != "/admin"[1]; }
      assert d[..8] != "/trainer" by { assert d[1] != "/trainer"[1]; }
      assert d[..8] == "/student";
  }

  /** Every redirect a signed-in user receives lands on a page where the guard is
      satisfied: there is no redirect loop. */
  lemma {:induction false} RedirectTargetIsStable(status: Status, a: Actor, pathname: string)
    requires status != Loading
    requires Redirects(status, Some(a), pathname) != []
    ensures var r := Redirects(status, Some(a), pathname);
            |r| == 1 && Redirects(status, Some(a), r[0]) == []
  {
    AtMostOneRedirect(status, Some(a), pathname);
    var r := Redirects(status, Some(a), pathname);
    if pathname == "/login" || pathname == "/register" {
      SignedInLeavesEntryPages(status, a, pathname);
    }
    assert r[0] == Dashboard(a.role);
    DashboardArea(a.role);
    DashboardPaths();
    assert Dashboard(a.role) != "/login" && Dashboard(a.role) != "/register" by {
      assert |Dashboard(a.role)| > 9;
    }
  }

  /** The outcome of `signIn("credentials", { redirect: false })`: a result
      whose `error` may be set, or a rejected promise. */
  datatype SignInResult = Returned(error: Option<string>) | Threw(reason: string)

  /** How `login` settles: it resolves, or it rethrows. */
  datatype LoginOutcome = Resolved | Rethrown(reason: string)

  /** The `isLoading` state cell of the provider. */
  class AuthState {
    var isLoading: bool

    /** `useState(true)`. */
    constructor ()
      ensures isLoading
    {
      isLoading := true;
    }

    /** The effect on `status`: once the session has settled, loading is over. */
    method StatusChanged(status: Status)
      modifies this
      ensures isLoading == (old(isLoading) && status == Loading)
    {
      if status != Loading {
        isLoading := false;
      }
    }

    /** `login`: sets the flag, signs in, and in every case clears the flag;
        an error result or a failed sign-in is rethrown. */
    method Login(result: SignInResult) returns (r: LoginOutcome)
      modifies this
      ensures !isLoading
      ensures r == Resolved <==> result.Returned? && !Given(result.error)
      ensures result.Returned? && Given(result.error) ==> r == Rethrown(result.error.value)
      ensures result.Threw? ==> r == Rethrown(result.reason)
    {
      isLoading := true;
      match result {
        case Threw(reason) =>
          r := Rethrown(reason);
        case Returned(error) =>
          if error.Some? && error.value != "" {
            r := Rethrown(error.value);
          } else {
            r := Resolved;
          }
      }
      isLoading := false;
    }

    /** The value the provider hands to `useAuth`. */
    function Context(): AuthContextValue
      reads this
    {
      AuthContextValue(isLoading)
    }
  }

  /** `user` as a page reads it from the context: a role string. */
  datatype PageUser = PageUser(role: string)

  /** The context value `{ login, logout, isLoading }`: it has no `user`, so a
      page destructuring `user` from it always gets `undefined`. */
  datatype AuthContextValue = AuthContextValue(isLoading: bool) {
    function User(): Option<PageUser>
    {
      None
    }
  }

  /** What a page's gate renders. */
  datatype Gate = ShowLoading | ShowUnauthorized | ShowContent

  /** The gate the pages apply, as written: loading first, then a user whose role
      is the given lower-case string. */
  function PageGate(isLoading: bool, user: Option<PageUser>, role: string): (g: Gate)
    ensures isLoading ==> g == ShowLoading
    ensures g == ShowContent <==> !isLoading && user.Some? && user.value.role == role
  {
    if isLoading then ShowLoading
    else if user.None? || user.value.role != role then ShowUnauthorized
    else ShowContent
  }

  /** As written no page ever shows its content: the context has no user, and a
      user carrying the session's role would spell it in upper case. */
  lemma {:induction false} PagesNeverShowContent(ctx: AuthContextValue, r: Role)
    ensures PageGate(ctx.isLoading, ctx.User(), Lower(RoleName(r))) != ShowContent
    ensures forall s :: PageGate(ctx.isLoading, Some(PageUser(RoleName(s))), Lower(RoleName(r))) != ShowContent
  {
    LowerRoleNames();
    forall s ensures RoleName(s) != Lower(RoleName(r)) {
      assert RoleName(s)[0] != Lower(RoleName(r))[0];
    }
  }

  /** The gate with the user taken from the session the provider holds. */
  function PageGateCorrected(isLoading: bool, session: Session, role: Role): (g: Gate)
    ensures isLoading ==> g == ShowLoading
    ensures g == ShowContent <==> !isLoading && session.Some? && session.value.role == role
  {
    if isLoading then ShowLoading
    else if session.None? || session.value.role != role then ShowUnauthorized
    else ShowContent
  }

  /** The corrected gate and the route guard agree: on a page of a role's area
      that the guard leaves alone, a settled session sees the content. */
  lemma {:induction false} GuardAndGateAgree(status: Status, a: Actor, pathname: string, role: Role)
    requires status != Loading
    requires AreaOf(pathname) == Some(role)
    requires Redirects(status, Some(a), pathname) == []
    ensures PageGateCorrected(false, Some(a), role) == ShowContent
  {
    if pathname == "/login" || pathname == "/register" {
      EntryPagesHaveNoArea(pathname);
    }
  }
}
