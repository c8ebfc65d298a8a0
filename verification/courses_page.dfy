/** The course catalogue page: which list it shows, the case-insensitive
    search over it, six courses per page, the category and instructor
    toggles, and the names shown for a course's category and instructor. */
module CoursesPage {
  import opened Common
  import opened Domain
  import StringUtils
  import Pagination
  import CourseSlice

  const CoursesPerPage: nat := 6

  /** The page's own state. */
  datatype Filters = Filters(
    searchQuery: string,
    selectedCategory: Option<string>,
    selectedInstructor: Option<string>,
    currentPage: int)

  const InitialFilters := Filters("", None, None, 1)

  /** The course requests a handler dispatches. */
  datatype Fetch = FetchCourses | FilterByCategory(categoryIds: seq<string>) | FilterByInstructor(instructorId: string)

  /** What a handler does to the URL's search parameters. */
  datatype ParamsWrite = KeepParams | SetCategoryParam(categoryId: string) | ClearParams

  /** The outcome of one handler: the new page state (before the page-reset
      effect runs), the requests it dispatched, and its URL write. */
  datatype Step = Step(filters: Filters, dispatched: seq<Fetch>, params: ParamsWrite)

  // ---------------------------------------------------------------- search

  /** The search test: the lower-cased title or description contains the
      lower-cased query. */
  predicate MatchesQuery(c: Course, q: string) {
    Includes(Lower(c.title), Lower(q)) || Includes(Lower(c.description), Lower(q))
  }

  /** `displayCourses.filter(...)` */
  function Search(cs: seq<Course>, q: string): (r: seq<Course>)
    ensures |r| <= |cs|
    ensures forall c :: c in r <==> c in cs && MatchesQuery(c, q)
  {
    if cs == [] then []
    else (if MatchesQuery(cs[0], q) then [cs[0]] else []) + Search(cs[1..], q)
  }

  /** `isFiltered ? filteredCourses : courses` */
  function DisplayCourses(s: CourseSlice.CourseState): (r: seq<Course>)
    ensures s.isFiltered ==> r == s.filteredCourses
    ensures !s.isFiltered ==> r == s.courses
  {
    if s.isFiltered then s.filteredCourses else s.courses
  }

  function Results(s: CourseSlice.CourseState, f: Filters): seq<Course> {
    Search(DisplayCourses(s), f.searchQuery)
  }

  /** The courses on the current page. */
  function CurrentCourses(s: CourseSlice.CourseState, f: Filters): (r: seq<Course>)
    ensures |r| <= CoursesPerPage
    ensures f.currentPage >= 1 ==> forall k :: 0 <= k < |r| ==>
      (f.currentPage - 1) * CoursesPerPage + k < |Results(s, f)| &&
      r[k] == Results(s, f)[(f.currentPage - 1) * CoursesPerPage + k]
  {
    Pagination.PageItems(Results(s, f), f.currentPage, CoursesPerPage);
    Pagination.Page(Results(s, f), f.currentPage, CoursesPerPage)
  }

  function TotalPages(s: CourseSlice.CourseState, f: Filters): (r: nat)
    ensures r * CoursesPerPage >= |Results(s, f)|
    ensures r > 0 ==> (r - 1) * CoursesPerPage < |Results(s, f)|
  {
    Pagination.PageCount(|Results(s, f)|, CoursesPerPage)
  }

  // ---------------------------------------------------------------- handlers

  /** `handleCategoryFilter(categoryId)`: a second click on the selected
      category drops the filter and fetches every course; any other click
      selects it, writes it to the URL and asks for its courses. The
      instructor selection is cleared either way. */
  function HandleCategoryFilter(f: Filters, categoryId: string): (r: Step)
    ensures r.filters.selectedInstructor.None?
    ensures r.filters.searchQuery == f.searchQuery && r.filters.currentPage == f.currentPage
    ensures f.selectedCategory == Some(categoryId) ==>
      r.filters.selectedCategory.None? && r.dispatched == [FetchCourses] && r.params == KeepParams
    ensures f.selectedCategory != Some(categoryId) ==>
      r.filters.selectedCategory == Some(categoryId) && r.dispatched == [FilterByCategory([categoryId])] &&
      r.params == SetCategoryParam(categoryId)
  {
    if f.selectedCategory == Some(categoryId) then
      Step(f.(selectedCategory := None, selectedInstructor := None), [FetchCourses], KeepParams)
    else
      Step(f.(selectedCategory := Some(categoryId), selectedInstructor := None),
        [FilterByCategory([categoryId])], SetCategoryParam(categoryId))
  }

  /** `handleInstructorFilter(instructorId)`: the same toggle for
      instructors; it clears the category selection and leaves the URL
      alone. */
  function HandleInstructorFilter(f: Filters, instructorId: string): (r: Step)
    ensures r.filters.selectedCategory.None?
    ensures r.filters.searchQuery == f.searchQuery && r.filters.currentPage == f.currentPage
    ensures r.params == KeepParams
    ensures f.selectedInstructor == Some(instructorId) ==>
      r.filters.selectedInstructor.None? && r.dispatched == [FetchCourses]
    ensures f.selectedInstructor != Some(instructorId) ==>
      r.filters.selectedInstructor == Some(instructorId) && r.dispatched == [FilterByInstructor(instructorId)]
  {
    if f.selectedInstructor == Some(instructorId) then
      Step(f.(selectedInstructor := None, selectedCategory := None), [FetchCourses], KeepParams)
    else
      Step(f.(selectedInstructor := Some(instructorId), selectedCategory := None),
        [FilterByInstructor(instructorId)], KeepParams)
  }

  /** `handleSearch`: the query is the field's text as typed. */
  function HandleSearch(f: Filters, text: string): (r: Filters)
    ensures r.searchQuery == text
    ensures r.selectedCategory == f.selectedCategory && r.selectedInstructor == f.selectedInstructor
    ensures r.currentPage == f.currentPage
  {
    f.(searchQuery := text)
  }

  /** `clearFilters`: both selections and the query are dropped, the URL
      parameters emptied and every course fetched again. */
  function ClearFilters(f: Filters): (r: Step)
    ensures !FiltersActive(r.filters)
    ensures r.filters.currentPage == f.currentPage
    ensures r.dispatched == [FetchCourses] && r.params == ClearParams
  {
    Step(f.(selectedCategory := None, selectedInstructor := None, searchQuery := ""), [FetchCourses], ClearParams)
  }

  /** The "Clear" button shows while a category, an instructor or a query is
      set. */
  predicate FiltersActive(f: Filters) {
    Truthy(f.selectedCategory) || Truthy(f.selectedInstructor) || f.searchQuery != ""
  }

  /** `handlePageChange(n)`, without the scroll. */
  function HandlePageChange(f: Filters, page: int): (r: Filters)
    ensures r.currentPage == page
    ensures r.searchQuery == f.searchQuery
    ensures r.selectedCategory == f.selectedCategory && r.selectedInstructor == f.selectedInstructor
  {
    f.(currentPage := page)
  }

  /** The effect on `[selectedCategory, selectedInstructor, searchQuery]`: it
      runs after a render in which any of the three changed, and sends the
      page back to 1. */
  function ResetPage(before: Filters, after: Filters): (r: Filters)
    ensures r.searchQuery == after.searchQuery
    ensures r.selectedCategory == after.selectedCategory && r.selectedInstructor == after.selectedInstructor
    ensures r.currentPage == 1 || r.currentPage == after.currentPage
  {
    if before.selectedCategory != after.selectedCategory || before.selectedInstructor != after.selectedInstructor
      || before.searchQuery != after.searchQuery
    then after.(currentPage := 1)
    else after
  }

  // ---------------------------------------------------------------- names

  /** `k` is the position of the first category with id `id`. */
  predicate FirstCategory(categories: seq<Category>, id: string, k: int) {
    0 <= k < |categories| && categories[k].id == id && forall j :: 0 <= j < k ==> categories[j].id != id
  }

  predicate FirstInstructor(instructors: seq<Instructor>, id: string, k: int) {
    0 <= k < |instructors| && instructors[k].id == id && forall j :: 0 <= j < k ==> instructors[j].id != id
  }

  /** `categories.find((cat) => cat._id === id)`, as a position. */
  function FindCategory(categories: seq<Category>, id: string): (r: Option<nat>)
    ensures r.None? <==> forall k :: 0 <= k < |categories| ==> categories[k].id != id
    ensures r.Some? ==> FirstCategory(categories, id, r.value)
  {
    if categories == [] then None
    else if categories[0].id == id then Some(0)
    else match FindCategory(categories[1..], id)
      case None => None
      case Some(k) => Some(k + 1)
  }

  /** `instructors.find((inst) => inst._id === id)`, as a position. */
  function FindInstructor(instructors: seq<Instructor>, id: string): (r: Option<nat>)
    ensures r.None? <==> forall k :: 0 <= k < |instructors| ==> instructors[k].id != id
    ensures r.Some? ==> FirstInstructor(instructors, id, r.value)
  {
    if instructors == [] then None
    else if instructors[0].id == id then Some(0)
    else match FindInstructor(instructors[1..], id)
      case None => None
      case Some(k) => Some(k + 1)
  }

  /** `getCategoryName(categoryId)`: the name of the first category with that
      id, else "Uncategorized". */
  function GetCategoryName(categories: seq<Category>, categoryId: string): (r: string)
    ensures (forall k :: 0 <= k < |categories| ==> categories[k].id != categoryId) ==> r == "Uncategorized"
    ensures forall k :: FirstCategory(categories, categoryId, k) ==> r == categories[k].name
  {
    match FindCategory(categories, categoryId)
    case None => "Uncategorized"
    case Some(k) =>
      assert forall j :: FirstCategory(categories, categoryId, j) ==> j == k;
      categories[k].name
  }

  /** `getInstructorName(instructorId, course)`: the course's own
      `instructorName` when it has a non-empty one, else the capitalized full
      name of the first instructor with that id, else "Unknown Instructor". */
  function GetInstructorName(instructors: seq<Instructor>, instructorId: string, c: Course): (r: string)
    ensures Truthy(c.instructorName) ==> r == c.instructorName.value
    ensures !Truthy(c.instructorName) && (forall k :: 0 <= k < |instructors| ==> instructors[k].id != instructorId) ==>
      r == "Unknown Instructor"
    ensures !Truthy(c.instructorName) ==> forall k :: FirstInstructor(instructors, instructorId, k) ==>
      StringUtils.CapitalizedFrom(FullName(instructors[k]), r)
  {
    if Truthy(c.instructorName) then c.instructorName.value
    else match FindInstructor(instructors, instructorId)
      case None => "Unknown Instructor"
      case Some(k) =>
        assert forall j :: FirstInstructor(instructors, instructorId, j) ==> j == k;
        StringUtils.CapitalizeName(FullName(instructors[k]))
  }

  /** `${first_name} ${last_name}` */
  function FullName(i: Instructor): string {
    i.firstName + " " + i.lastName
  }

  // ---------------------------------------------------------------- properties

  /** The search keeps the relative order of the list: searching two lists
      one after the other is searching their concatenation. */
  lemma {:induction false} SearchConcat(a: seq<Course>, b: seq<Course>, q: string)
    ensures Search(a + b, q) == Search(a, q) + Search(b, q)
  {
    if a != [] {
      assert (a + b)[0] == a[0];
      assert (a + b)[1..] == a[1..] + b;
      SearchConcat(a[1..], b, q);
    } else {
      assert a + b == b;
    }
  }

  /** The empty query keeps every course. */
  lemma {:induction false} EmptyQueryKeepsAll(cs: seq<Course>)
    ensures Search(cs, "") == cs
  {
    if cs != [] {
      assert OccursAt(Lower(cs[0].title), Lower(""), 0);
      EmptyQueryKeepsAll(cs[1..]);
    }
  }

  lemma LowerUpper(q: string)
    ensures Lower(Upper(q)) == Lower(q)
  {
  }

  /** The query's case does not matter: typing it in capitals finds the same
      courses. */
  lemma {:induction false} SearchIgnoresQueryCase(cs: seq<Course>, q: string)
    ensures Search(cs, Upper(q)) == Search(cs, q)
  {
    LowerUpper(q);
    if cs != [] {
      SearchIgnoresQueryCase(cs[1..], q);
    }
  }

  /** After a category filter comes back, the page lists the filtered
      courses that match the query, and its pages cover them exactly. */
  lemma ShowsFilteredAfterCategoryFilter(s: CourseSlice.CourseState, list: seq<Course>, count: int, f: Filters)
    ensures var t := CourseSlice.Reduce(s, CourseSlice.CategoryFulfilled(list, count));
      Results(t, f) == Search(list, f.searchQuery) &&
      Pagination.Pages(Results(t, f), TotalPages(t, f), CoursesPerPage) == Results(t, f)
  {
    var t := CourseSlice.Reduce(s, CourseSlice.CategoryFulfilled(list, count));
    assert t.isFiltered && t.filteredCourses == list;
    var xs := Results(t, f);
    assert xs == Search(list, f.searchQuery);
    Pagination.PagesPartition(xs, CoursesPerPage);
    assert TotalPages(t, f) == Pagination.PageCount(|xs|, CoursesPerPage);
  }

  /** Clicking the same category twice leaves no category or instructor
      selected, and the second click fetches every course. */
  lemma CategoryToggleTwice(f: Filters, categoryId: string)
    requires f.selectedCategory != Some(categoryId)
    ensures var once := HandleCategoryFilter(f, categoryId).filters;
      var twice := HandleCategoryFilter(once, categoryId);
      twice.filters.selectedCategory.None? && twice.filters.selectedInstructor.None? &&
      twice.dispatched == [FetchCourses]
  {
  }

  /** The two toggles exclude each other: after either one, at most one of
      the selections is set. */
  lemma SelectionsExclusive(f: Filters, id: string)
    ensures HandleCategoryFilter(f, id).filters.selectedInstructor.None?
    ensures HandleInstructorFilter(f, id).filters.selectedCategory.None?
  {
  }

  /** The page goes back to 1 exactly when the category, the instructor or
      the query changed; a page change alone keeps the page chosen. */
  lemma PageResetIffFiltersChange(before: Filters, after: Filters)
    requires after.currentPage != 1
    ensures ResetPage(before, after).currentPage == 1 <==>
      before.selectedCategory != after.selectedCategory || before.selectedInstructor != after.selectedInstructor ||
      before.searchQuery != after.searchQuery
  {
  }

  /** A new query always brings the page back to 1; choosing a page with the
      same filters keeps it. */
  lemma SearchResetsPage(f: Filters, text: string, page: int)
    requires text != f.searchQuery
    ensures ResetPage(f, HandleSearch(f, text)).currentPage == 1
    ensures ResetPage(f, HandlePageChange(f, page)).currentPage == page
  {
  }
}
