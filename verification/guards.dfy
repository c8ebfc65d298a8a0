/** The two route guards: `ProtectedRoute`, which admits authenticated users
    whose role is allowed, and `PublicRoute`, which admits only visitors who
    are not logged in. Both read `loading`, `isAuthenticated` and the user's
    role from the auth slice. */
module Guards {
  import opened Common

  /** What a guard renders: the loading spinner, a `<Navigate replace>` (with
      the `from` location state when there is one), or its children. */
  datatype Outcome = Spinner | Redirect(target: string, from: Option<string>) | Render

  /** The part of the auth slice the guards read. `role` is `user?.role`,
      absent when there is no user or the user has no role. */
  datatype Session = Session(loading: bool, isAuthenticated: bool, role: Option<string>)

  const LoginPath := "/login"
  const DashboardPath := "/dashboard"
  const InstructorHomePath := "/instructor/courses"

  /** `user?.role?.toLowerCase()` */
  function RoleKey(role: Option<string>): (r: Option<string>)
    ensures r.Some? <==> role.Some?
    ensures r.Some? ==> r.value == Lower(role.value)
  {
    match role
    case None => None
    case Some(x) => Some(Lower(x))
  }

  /** `allowedRoles.includes(user?.role?.toLowerCase())`: an absent role is
      never included, since the lists hold only strings. */
  predicate RoleAllowed(role: Option<string>, allowedRoles: seq<string>) {
    var k := RoleKey(role);
    k.Some? && k.value in allowedRoles
  }

  /** ProtectedRoute's fallback when the role does not match. */
  function ProtectedDefault(role: Option<string>): string {
    if RoleKey(role) == Some("instructor") then InstructorHomePath else DashboardPath
  }

  /** PublicRoute's `getDefaultRoute`: a switch on the lowercased role. */
  function GetDefaultRoute(role: Option<string>): string {
    match RoleKey(role)
    case Some(r) => if r == "instructor" then InstructorHomePath else DashboardPath
    case None => DashboardPath
  }

  function ProtectedRoute(s: Session, allowedRoles: seq<string>, pathname: string): (r: Outcome)
    ensures s.loading ==> r == Spinner
    ensures !s.loading && !s.isAuthenticated ==> r == Redirect(LoginPath, Some(pathname))
    ensures !s.loading && s.isAuthenticated ==>
      (r == Render <==> |allowedRoles| == 0 || RoleAllowed(s.role, allowedRoles))
    ensures !s.loading && s.isAuthenticated && r != Render ==> r == Redirect(GetDefaultRoute(s.role), None)
  {
    if s.loading then Spinner
    else if !s.isAuthenticated then Redirect(LoginPath, Some(pathname))
    else if |allowedRoles| > 0 && !RoleAllowed(s.role, allowedRoles) then Redirect(ProtectedDefault(s.role), None)
    else Render
  }

  function PublicRoute(s: Session): (r: Outcome)
    ensures s.loading ==> r == Spinner
    ensures r == Render <==> !s.loading && !s.isAuthenticated
    ensures !s.loading && s.isAuthenticated ==>
      r.Redirect? && r.from == None &&
      (r.target == InstructorHomePath <==> s.role.Some? && Lower(s.role.value) == "instructor")
    ensures r.Redirect? ==> r.target in {InstructorHomePath, DashboardPath}
  {
    if s.loading then Spinner
    else if s.isAuthenticated then Redirect(GetDefaultRoute(s.role), None)
    else Render
  }

  // ---------------------------------------------------------------- properties

  /** The two guards send a user of any role to the same home page. */
  lemma DefaultRoutesAgree(role: Option<string>)
    ensures GetDefaultRoute(role) == ProtectedDefault(role)
  {
  }

  /** The role comparison ignores case: "Instructor", "INSTRUCTOR" and
      "instructor" are all admitted where "instructor" is allowed. */
  lemma RoleCaseInsensitive(s: Session, allowedRoles: seq<string>, pathname: string)
    requires !s.loading && s.isAuthenticated && s.role.Some?
    requires "instructor" in allowedRoles
    requires Lower(s.role.value) == "instructor"
    ensures ProtectedRoute(s, allowedRoles, pathname) == Render
    ensures ProtectedRoute(s.(role := Some("Instructor")), allowedRoles, pathname) == Render
  {
    assert Lower("Instructor") == "instructor";
  }

  /** With no allowed roles given, every authenticated user gets the page,
      whatever their role, even none. */
  lemma EmptyRolesAdmitEveryone(role: Option<string>, pathname: string)
    ensures ProtectedRoute(Session(false, true, role), [], pathname) == Render
  {
  }
}
