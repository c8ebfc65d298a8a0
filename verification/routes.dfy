/** The route table of the application: every path pattern with the guard
    that wraps its page, how a pathname is matched against the patterns,
    and what a visitor sees at a pathname. */
module Routes {
  import opened Common
  import opened Guards

  /** One `/`-separated part of a route pattern: literal text or a `:param`. */
  datatype Segment = Lit(text: string) | Param(name: string)

  /** The wrapper around a route's page. */
  datatype Guard = PublicOnly | Protected(allowedRoles: seq<string>)

  datatype Route = Route(pattern: seq<Segment>, guard: Guard)

  const StudentOnly: seq<string> := ["student"]
  const InstructorOnly: seq<string> := ["instructor"]
  const AnyRole: seq<string> := []

  /** The `<Routes>` of the application, in declaration order. */
  const Table: seq<Route> := [
    Route([Lit("login")], PublicOnly),
    Route([Lit("register")], PublicOnly),
    Route([], Protected(StudentOnly)),
    Route([Lit("dashboard")], Protected(StudentOnly)),
    Route([Lit("courses")], Protected(StudentOnly)),
    Route([Lit("cart")], Protected(StudentOnly)),
    Route([Lit("enrolled-courses")], Protected(StudentOnly)),
    Route([Lit("my-quiz-attempts")], Protected(StudentOnly)),
    Route([Lit("paymentsuccess")], Protected(StudentOnly)),
    Route([Lit("enrolled-course"), Param("courseId")], Protected(StudentOnly)),
    Route([Lit("course"), Param("id")], Protected(AnyRole)),
    Route([Lit("course"), Param("courseId"), Lit("video"), Param("videoId")], Protected(AnyRole)),
    Route([Lit("profile")], Protected(AnyRole)),
    Route([Lit("instructor"), Lit("profile")], Protected(InstructorOnly)),
    Route([Lit("instructor"), Lit("courses")], Protected(InstructorOnly)),
    Route([Lit("instructor"), Lit("create-course")], Protected(InstructorOnly)),
    Route([Lit("instructor"), Lit("course"), Param("courseId"), Lit("lessons")], Protected(InstructorOnly))
  ]

  // ---------------------------------------------------------------- pathnames

  /** Drops the empty parts at the end: a pattern matches a pathname with
      any number of trailing slashes. */
  function DropTrailingEmpty(parts: seq<string>): (r: seq<string>)
    ensures r <= parts
    ensures r == [] || r[|r| - 1] != ""
    ensures forall k :: |r| <= k < |parts| ==> parts[k] == ""
  {
    if parts == [] || parts[|parts| - 1] != "" then parts
    else DropTrailingEmpty(parts[..|parts| - 1])
  }

  /** One more trailing slash adds an empty part at the end, which is
      dropped again. */
  lemma TrailingEmptyIgnored(parts: seq<string>)
    ensures DropTrailingEmpty(parts + [""]) == DropTrailingEmpty(parts)
  {
    assert (parts + [""])[..|parts|] == parts;
  }

  /** The parts of a pathname that the patterns' segments are matched
      against: the leading `/` removed, then split, then trailing empty parts
      dropped. An empty part in the middle (`//`) is kept and matches no
      segment. */
  function Segments(pathname: string): seq<string> {
    DropTrailingEmpty(Split(if |pathname| > 0 && pathname[0] == '/' then pathname[1..] else pathname, '/'))
  }

  predicate IsSegmentText(w: string) {
    |w| > 0 && FreeOf(w, '/')
  }

  /** The pathname whose parts are `parts`. */
  function Pathname(parts: seq<string>): string {
    "/" + Join(parts, "/")
  }

  // ---------------------------------------------------------------- matching

  /** Patterns match case-insensitively; a parameter matches any non-empty
      part. */
  predicate SegmentMatches(p: Segment, part: string) {
    match p
    case Lit(t) => Lower(part) == t
    case Param(_) => part != ""
  }

  predicate Matches(pattern: seq<Segment>, parts: seq<string>) {
    |pattern| == |parts| && forall k :: 0 <= k < |parts| ==> SegmentMatches(pattern[k], parts[k])
  }

  /** The position of the first route of `routes` whose pattern matches. */
  function FirstMatch(routes: seq<Route>, parts: seq<string>): (r: Option<nat>)
    ensures r.Some? ==> r.value < |routes| && Matches(routes[r.value].pattern, parts)
    ensures r.Some? ==> forall k :: 0 <= k < r.value ==> !Matches(routes[k].pattern, parts)
    ensures r.None? ==> forall k :: 0 <= k < |routes| ==> !Matches(routes[k].pattern, parts)
  {
    if routes == [] then None
    else if Matches(routes[0].pattern, parts) then Some(0)
    else match FirstMatch(routes[1..], parts)
      case None => None
      case Some(i) => Some(i + 1)
  }

  /** The row of the table that renders at `pathname`, if any. */
  function Resolve(pathname: string): Option<nat> {
    FirstMatch(Table, Segments(pathname))
  }

  /** What the guard of a route decides. */
  function Decide(s: Session, guard: Guard, pathname: string): Outcome {
    match guard
    case PublicOnly => PublicRoute(s)
    case Protected(roles) => ProtectedRoute(s, roles, pathname)
  }

  /** What a visitor sees at `pathname`: nothing when no route matches,
      otherwise the decision of the route's guard. */
  function Visit(s: Session, pathname: string): (r: Option<Outcome>)
    ensures r.None? <==> forall k :: 0 <= k < |Table| ==> !Matches(Table[k].pattern, Segments(pathname))
    ensures r.Some? ==> Resolve(pathname).Some? && r.value == Decide(s, Table[Resolve(pathname).value].guard, pathname)
  {
    match Resolve(pathname)
    case None => None
    case Some(i) => Some(Decide(s, Table[i].guard, pathname))
  }

  // ---------------------------------------------------------------- properties

  /** Reading back the parts of a pathname built from non-empty slash-free
      parts gives those parts. */
  lemma SegmentsOfPathname(parts: seq<string>)
    requires forall k :: 0 <= k < |parts| ==> IsSegmentText(parts[k])
    ensures Segments(Pathname(parts)) == parts
  {
    assert Pathname(parts)[1..] == Join(parts, "/");
    if parts == [] {
      assert Split("", '/') == [""];
    } else {
      SplitJoin(parts, '/');
    }
  }

  /** Two patterns that some list of parts could both match: same length,
      and no position where both are literals with different text. */
  predicate Compatible(p: seq<Segment>, q: seq<Segment>)
    decreases |p|
  {
    |p| == |q| &&
    (p == [] || (!(p[0].Lit? && q[0].Lit? && p[0].text != q[0].text) && Compatible(p[1..], q[1..])))
  }

  lemma {:induction false} BothMatchCompatible(p: seq<Segment>, q: seq<Segment>, parts: seq<string>)
    requires Matches(p, parts) && Matches(q, parts)
    ensures Compatible(p, q)
    decreases |p|
  {
    if p != [] {
      assert SegmentMatches(p[0], parts[0]) && SegmentMatches(q[0], parts[0]);
      assert Matches(p[1..], parts[1..]) by {
        forall k | 0 <= k < |parts| - 1 ensures SegmentMatches(p[1..][k], parts[1..][k]) {
          assert SegmentMatches(p[k + 1], parts[k + 1]);
        }
      }
      assert Matches(q[1..], parts[1..]) by {
        forall k | 0 <= k < |parts| - 1 ensures SegmentMatches(q[1..][k], parts[1..][k]) {
          assert SegmentMatches(q[k + 1], parts[k + 1]);
        }
      }
      BothMatchCompatible(p[1..], q[1..], parts[1..]);
    }
  }

  predicate PairwiseDisjoint(routes: seq<Route>) {
    forall i, j :: 0 <= i < j < |routes| ==> !Compatible(routes[i].pattern, routes[j].pattern)
  }

  /** No two patterns of the table are compatible, so at most one route
      matches any pathname and declaration order never matters. */
  lemma TablePatternsDisjoint()
    ensures PairwiseDisjoint(Table)
  {
    forall i, j | 0 <= i < j < |Table|
      ensures !Compatible(Table[i].pattern, Table[j].pattern)
    {
      var p, q := Table[i].pattern, Table[j].pattern;
      if |p| == |q| {
        assert |p| > 0 && p[0].Lit? && q[0].Lit?;
        if p[0].text == q[0].text {
          // only the three two-part instructor pages share a first part
          assert 13 <= i < j <= 15;
          assert p[1].text != q[1].text;
        }
      }
    }
  }

  /** In a table of disjoint patterns the first match is the only match. */
  lemma FirstMatchIsTheMatch(routes: seq<Route>, parts: seq<string>, i: int)
    requires PairwiseDisjoint(routes)
    requires 0 <= i < |routes|
    ensures FirstMatch(routes, parts) == Some(i) <==> Matches(routes[i].pattern, parts)
  {
    var r := FirstMatch(routes, parts);
    if Matches(routes[i].pattern, parts) && r != Some(i) {
      // the first match comes before every other match
      var j := r.value;
      BothMatchCompatible(routes[j].pattern, routes[i].pattern, parts);
    }
  }

  /** The route a pathname resolves to is exactly the route whose pattern
      matches it. */
  lemma ResolveIsTheMatch(pathname: string, i: int)
    requires 0 <= i < |Table|
    ensures Resolve(pathname) == Some(i) <==> Matches(Table[i].pattern, Segments(pathname))
  {
    TablePatternsDisjoint();
    FirstMatchIsTheMatch(Table, Segments(pathname), i);
  }

  /** The guard each route of the table carries: only `/login` and
      `/register` are public-only, everything under `/instructor` admits
      instructors only, the course, video and profile pages admit any role,
      and every other page admits students only. */
  lemma TableGuards()
    ensures forall i :: 0 <= i < |Table| ==>
      (Table[i].guard == PublicOnly <==> Table[i].pattern == [Lit("login")] || Table[i].pattern == [Lit("register")])
    ensures forall i :: 0 <= i < |Table| ==>
      (Table[i].guard == Protected(InstructorOnly) <==> |Table[i].pattern| > 0 && Table[i].pattern[0] == Lit("instructor"))
    ensures forall i :: 0 <= i < |Table| ==>
      (Table[i].guard == Protected(AnyRole) <==>
        |Table[i].pattern| > 0 && (Table[i].pattern[0] == Lit("course") || Table[i].pattern[0] == Lit("profile")))
    ensures forall i :: 0 <= i < |Table| ==>
      Table[i].guard == PublicOnly || Table[i].guard == Protected(StudentOnly) ||
      Table[i].guard == Protected(InstructorOnly) || Table[i].guard == Protected(AnyRole)
  {
  }

  lemma LowercaseLiterals()
    ensures Lower("dashboard") == "dashboard"
    ensures Lower("instructor") == "instructor"
    ensures Lower("courses") == "courses"
    ensures Lower("login") == "login"
  {
  }

  lemma SegmentsOfDashboard(p: string)
    requires p == DashboardPath
    ensures Segments(p) == ["dashboard"]
  {
    assert p == Pathname(["dashboard"]);
    SegmentsOfPathname(["dashboard"]);
  }

  lemma SegmentsOfInstructorHome(p: string)
    requires p == InstructorHomePath
    ensures Segments(p) == ["instructor", "courses"]
  {
    assert p == Pathname(["instructor", "courses"]);
    SegmentsOfPathname(["instructor", "courses"]);
  }

  lemma SegmentsOfLogin(p: string)
    requires p == LoginPath
    ensures Segments(p) == ["login"]
  {
    assert p == Pathname(["login"]);
    SegmentsOfPathname(["login"]);
  }

  /** A pathname whose parts match row `i` resolves to row `i`. */
  lemma ResolvesTo(p: string, parts: seq<string>, i: int)
    requires 0 <= i < |Table|
    requires Segments(p) == parts && Matches(Table[i].pattern, parts)
    ensures Resolve(p) == Some(i)
  {
    ResolveIsTheMatch(p, i);
  }

  lemma HomePatternsMatch()
    ensures Matches(Table[3].pattern, ["dashboard"])
    ensures Matches(Table[14].pattern, ["instructor", "courses"])
    ensures Matches(Table[0].pattern, ["login"])
  {
    LowercaseLiterals();
  }

  lemma HomeRowGuards()
    ensures Table[3].guard == Protected(StudentOnly)
    ensures Table[14].guard == Protected(InstructorOnly)
    ensures Table[0].guard == PublicOnly
  {
  }

  /** `/dashboard` resolves to the student dashboard. */
  lemma DashboardResolves(p: string)
    requires p == DashboardPath
    ensures Resolve(p) == Some(3)
  {
    SegmentsOfDashboard(p);
    HomePatternsMatch();
    ResolvesTo(p, ["dashboard"], 3);
  }

  /** `/instructor/courses` resolves to the instructor's course list. */
  lemma InstructorHomeResolves(p: string)
    requires p == InstructorHomePath
    ensures Resolve(p) == Some(14)
  {
    SegmentsOfInstructorHome(p);
    HomePatternsMatch();
    ResolvesTo(p, ["instructor", "courses"], 14);
  }

  /** `/login` resolves to the login page. */
  lemma LoginResolves(p: string)
    requires p == LoginPath
    ensures Resolve(p) == Some(0)
  {
    SegmentsOfLogin(p);
    HomePatternsMatch();
    ResolvesTo(p, ["login"], 0);
  }

  /** A signed-in student or instructor who is sent home is let in there, so
      neither is ever redirected twice in a row. */
  lemma KnownRolesNeverLoop(s: Session, pathname: string)
    requires !s.loading && s.isAuthenticated
    requires RoleKey(s.role) == Some("student") || RoleKey(s.role) == Some("instructor")
    ensures var o := Visit(s, pathname);
      o.Some? && o.value.Redirect? ==> Visit(s, o.value.target) == Some(Render)
  {
    var o := Visit(s, pathname);
    if o.Some? && o.value.Redirect? {
      var t := o.value.target;
      DecideRedirectsHome(s, Table[Resolve(pathname).value].guard, pathname);
      assert t == GetDefaultRoute(s.role);
      if RoleKey(s.role) == Some("student") {
        StudentHomeRenders(s);
      } else {
        InstructorHomeRenders(s);
      }
    }
  }

  /** A signed-in student is let in at `/dashboard`. */
  lemma StudentHomeRenders(s: Session)
    requires !s.loading && s.isAuthenticated && RoleKey(s.role) == Some("student")
    ensures GetDefaultRoute(s.role) == DashboardPath
    ensures Visit(s, DashboardPath) == Some(Render)
  {
    HomeRowGuards();
    DashboardResolves(DashboardPath);
    var g := Table[3].guard;
    assert Visit(s, DashboardPath) == Some(Decide(s, g, DashboardPath));
    assert RoleAllowed(s.role, StudentOnly);
    assert Decide(s, g, DashboardPath) == Render;
  }

  /** A signed-in instructor is let in at `/instructor/courses`. */
  lemma InstructorHomeRenders(s: Session)
    requires !s.loading && s.isAuthenticated && RoleKey(s.role) == Some("instructor")
    ensures GetDefaultRoute(s.role) == InstructorHomePath
    ensures Visit(s, InstructorHomePath) == Some(Render)
  {
    HomeRowGuards();
    InstructorHomeResolves(InstructorHomePath);
    var g := Table[14].guard;
    assert Visit(s, InstructorHomePath) == Some(Decide(s, g, InstructorHomePath));
    assert RoleAllowed(s.role, InstructorOnly);
    assert Decide(s, g, InstructorHomePath) == Render;
  }

  /** Whatever the guard, a signed-in user is only ever sent to their home
      page. */
  lemma DecideRedirectsHome(s: Session, g: Guard, pathname: string)
    requires !s.loading && s.isAuthenticated
    ensures Decide(s, g, pathname).Redirect? ==> Decide(s, g, pathname) == Redirect(GetDefaultRoute(s.role), None)
  {
  }

  /** A signed-in user whose role is neither student nor instructor (or who
      has no role) is sent from `/dashboard` to `/dashboard` again: the
      student dashboard does not admit them, and their home page is that
      same dashboard. */
  lemma UnknownRoleLoops(s: Session, pathname: string)
    requires !s.loading && s.isAuthenticated
    requires RoleKey(s.role) != Some("student") && RoleKey(s.role) != Some("instructor")
    requires pathname == DashboardPath
    ensures Visit(s, pathname) == Some(Redirect(pathname, None))
  {
    DashboardResolves(pathname);
    HomeRowGuards();
    var g := Table[3].guard;
    assert Visit(s, pathname) == Some(Decide(s, g, pathname));
    assert !RoleAllowed(s.role, StudentOnly);
    assert GetDefaultRoute(s.role) == DashboardPath;
  }

  /** A visitor who is not signed in is sent from any guarded page to
      `/login`, remembering where they came from, and the login page lets
      them in. */
  lemma VisitorsReachLogin(s: Session, pathname: string)
    requires !s.loading && !s.isAuthenticated
    ensures var o := Visit(s, pathname);
      o.Some? && o.value != Render ==> o.value == Redirect(LoginPath, Some(pathname)) && Visit(s, o.value.target) == Some(Render)
  {
    var o := Visit(s, pathname);
    if o.Some? && o.value != Render {
      LoginResolves(o.value.target);
      HomeRowGuards();
    }
  }

  /** While the auth state is loading, every route shows the spinner. */
  lemma LoadingShowsSpinner(s: Session, pathname: string)
    requires s.loading
    ensures Visit(s, pathname).Some? ==> Visit(s, pathname) == Some(Spinner)
  {
  }

  /** Whoever sees an instructor page is an instructor, whoever sees a
      student-only page is a student, and only visitors who are not signed
      in see the public-only pages. */
  lemma RenderedPagesMatchRole(s: Session, pathname: string)
    requires Visit(s, pathname) == Some(Render)
    ensures Resolve(pathname).Some?
    ensures var g := Table[Resolve(pathname).value].guard;
      (g == Protected(InstructorOnly) ==> RoleKey(s.role) == Some("instructor")) &&
      (g == Protected(StudentOnly) ==> RoleKey(s.role) == Some("student")) &&
      (g == PublicOnly ==> !s.isAuthenticated)
  {
  }
}
