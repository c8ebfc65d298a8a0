/** The navigation bar: the user's initials, which link is highlighted, and
    which links each kind of visitor sees on a wide screen and in the mobile
    menu. */
module Navbar {
  import opened Common
  import Auth
  import Guards
  import Routes

  /** `name?.[0] || ""`: the first character, if there is one. */
  function FirstChar(name: Option<string>): (r: string)
    ensures |r| <= 1
    ensures |r| == 1 <==> Truthy(name)
    ensures |r| == 1 ==> r[0] == name.value[0]
  {
    if Truthy(name) then [name.value[0]] else ""
  }

  /** `getUserInitials()`: "" without a user; otherwise the first letters of
      the first and last names, upper-cased, each missing name giving
      nothing. */
  function Initials(user: Option<Auth.User>): (r: string)
    ensures user.None? ==> r == ""
    ensures |r| <= 2
    ensures user.Some? ==> |r| == |FirstChar(user.value.firstName)| + |FirstChar(user.value.lastName)|
    ensures user.Some? && Truthy(user.value.firstName) ==> r[0] == UpperChar(user.value.firstName.value[0])
    ensures user.Some? && Truthy(user.value.lastName) ==> r[|r| - 1] == UpperChar(user.value.lastName.value[0])
  {
    match user
    case None => ""
    case Some(u) => Upper(FirstChar(u.firstName) + FirstChar(u.lastName))
  }

  /** `isActive(path)`: the link for `path` is highlighted. */
  predicate IsActive(pathname: string, path: string) {
    pathname == path
  }

  /** The links the bar offers, in order. The wide-screen bar shows the
      course links only for the exact role "student"; the mobile menu shows
      them for every role other than the exact role "instructor". Both
      compare the role case-sensitively. */
  function Links(isAuthenticated: bool, role: Option<string>, mobile: bool): (r: seq<string>)
    ensures !isAuthenticated ==> r == ["/login", "/register"]
    ensures isAuthenticated ==> ("/cart" in r <==> if mobile then role != Some("instructor") else role == Some("student"))
    ensures isAuthenticated ==>
      ("/instructor/courses" in r <==> role == Some("instructor")) && ("/dashboard" in r <==> role != Some("instructor"))
  {
    if !isAuthenticated then ["/login", "/register"]
    else
      var courseLinks := if (if mobile then role != Some("instructor") else role == Some("student"))
        then ["/", "/courses", "/cart"] else [];
      var menu := if role == Some("instructor") then ["/instructor/profile", "/instructor/courses"]
        else ["/dashboard", "/profile"];
      courseLinks + menu
  }

  // ---------------------------------------------------------------- properties

  /** No two links of the bar share a path, so at most one is highlighted. */
  lemma AtMostOneActive(isAuthenticated: bool, role: Option<string>, mobile: bool, pathname: string, i: int, j: int)
    requires var links := Links(isAuthenticated, role, mobile);
      0 <= i < |links| && 0 <= j < |links| && IsActive(pathname, links[i]) && IsActive(pathname, links[j])
    ensures i == j
  {
  }

  /** Whatever the role, the mobile menu offers every link of the wide-screen
      bar. */
  lemma DesktopLinksOnMobile(isAuthenticated: bool, role: Option<string>)
    ensures forall l :: l in Links(isAuthenticated, role, false) ==> l in Links(isAuthenticated, role, true)
  {
  }

  /** A user whose role is stored as "Student" is let into the student pages
      by the guard, which ignores case, and sees the cart link in the mobile
      menu, but not on the wide-screen bar, which does not ignore case. */
  lemma CapitalizedStudentRole(pathname: string)
    ensures Guards.ProtectedRoute(Guards.Session(false, true, Some("Student")), Routes.StudentOnly, pathname) == Guards.Render
    ensures "/cart" in Links(true, Some("Student"), true)
    ensures "/cart" !in Links(true, Some("Student"), false)
  {
    assert Lower("Student") == "student";
  }

  /** Two-letter initials for a user with both names. */
  lemma InitialsOfFullName(u: Auth.User)
    requires Truthy(u.firstName) && Truthy(u.lastName)
    ensures Initials(Some(u)) == [UpperChar(u.firstName.value[0]), UpperChar(u.lastName.value[0])]
  {
  }
}
