/** The courses slice: the full course list, the result of the last
    category or instructor filter, and which of the two the listing shows. */
module CourseSlice {
  import opened Common
  import opened Domain

  datatype CourseState = CourseState(
    courses: seq<Course>,
    currentCourse: Option<Course>,
    loading: bool,
    error: Option<string>,
    filteredCourses: seq<Course>,
    total: int,
    isFiltered: bool,
    selectedCategory: Option<string>,
    selectedInstructor: Option<string>)

  /** The five asynchronous requests of the slice. */
  datatype Call = FetchAll | FetchOne | Create | FilterByCategory | FilterByInstructor

  /** The five reducers and the three phases of each of the five thunks.
      Every pending phase acts alike and so does every rejection, so those
      carry the request they belong to; each fulfilled phase has its own
      payload. A list payload is the `{courses, total}` pair the thunks
      build. */
  datatype Event =
    | ClearCurrentCourse
    | ClearError
    | ClearFilters
    | SetSelectedCategory(category: Option<string>)
    | SetSelectedInstructor(instructor: Option<string>)
    | Pending(call: Call)
    | Rejection(call: Call, message: Option<string>)
    | FetchFulfilled(list: seq<Course>, count: int)
    | ByIdFulfilled(course: Option<Course>)
    | CreateFulfilled(created: Course)
    | CategoryFulfilled(list: seq<Course>, count: int)
    | InstructorFulfilled(list: seq<Course>, count: int)

  const Init := CourseState([], None, false, None, [], 0, false, None, None)

  /** The fixed message each request's rejection falls back to. */
  function Fallback(call: Call): string {
    match call
    case FetchAll => "Failed to fetch courses"
    case FetchOne => "Failed to fetch course"
    case Create => "Failed to create course"
    case FilterByCategory => "Failed to filter courses by category"
    case FilterByInstructor => "Failed to filter courses by instructor"
  }

  /** The query string of the category filter request: the ids joined by
      commas. */
  function CategoryQuery(categoryIds: seq<string>): string {
    "/course/filter/category?category=" + Join(categoryIds, ",")
  }

  function Reduce(s: CourseState, e: Event): CourseState {
    match e
    case ClearCurrentCourse => s.(currentCourse := None)
    case ClearError => s.(error := None)
    case ClearFilters =>
      s.(filteredCourses := [], isFiltered := false, selectedCategory := None, selectedInstructor := None)
    case SetSelectedCategory(c) => s.(selectedCategory := c)
    case SetSelectedInstructor(i) => s.(selectedInstructor := i)
    case FetchFulfilled(list, n) =>
      s.(loading := false, courses := list, total := n, error := None, isFiltered := false)
    case ByIdFulfilled(c) => s.(loading := false, currentCourse := c)
    case CreateFulfilled(c) => s.(loading := false, courses := s.courses + [c], total := s.total + 1)
    case CategoryFulfilled(list, n) =>
      s.(loading := false, filteredCourses := list, total := n, error := None, isFiltered := true)
    case InstructorFulfilled(list, n) =>
      s.(loading := false, filteredCourses := list, total := n, error := None, isFiltered := true)
    case Pending(_) => Start(s)
    case Rejection(call, m) => Fail(s, m, Fallback(call))
  }

  function Start(s: CourseState): CourseState {
    s.(loading := true, error := None)
  }

  function Fail(s: CourseState, m: Option<string>, fallback: string): CourseState {
    s.(loading := false, error := Some(MessageOr(m, fallback)))
  }

  // ---------------------------------------------------------------- properties

  /** Every pending phase starts a request with a clean error and changes
      nothing else. */
  lemma PendingStarts(s: CourseState, call: Call)
    ensures Reduce(s, Pending(call)) == s.(loading := true, error := None)
  {
  }

  /** A rejection only ends the request and reports the server's message or
      the request's fixed fallback. */
  lemma RejectedFails(s: CourseState, call: Call, m: Option<string>)
    ensures Reduce(s, Rejection(call, m)) ==
      s.(loading := false, error := Some(if Truthy(m) then m.value else Fallback(call)))
  {
  }

  /** Fetching all courses replaces the list and total and switches the
      listing back to it, leaving the last filter result in place. */
  lemma FetchShowsAll(s: CourseState, list: seq<Course>, n: int)
    ensures var r := Reduce(s, FetchFulfilled(list, n));
      r.courses == list && r.total == n && !r.isFiltered && r.filteredCourses == s.filteredCourses
  {
  }

  /** Either filter result replaces the filtered list and total and switches
      the listing to it, leaving the full list in place. */
  lemma FilterShowsFiltered(s: CourseState, list: seq<Course>, n: int)
    ensures var r := Reduce(s, CategoryFulfilled(list, n));
      r.filteredCourses == list && r.total == n && r.isFiltered && r.courses == s.courses
    ensures Reduce(s, InstructorFulfilled(list, n)) == Reduce(s, CategoryFulfilled(list, n))
  {
  }

  /** A created course is appended and the total grows by exactly one. */
  lemma CreateAppends(s: CourseState, c: Course)
    ensures var r := Reduce(s, CreateFulfilled(c));
      r.courses == s.courses + [c] && r.total == s.total + 1 && r.filteredCourses == s.filteredCourses
  {
  }

  /** `clearFilters` empties the filter result and both selections, and keeps
      the full list and total. */
  lemma ClearFiltersKeepsList(s: CourseState)
    ensures var r := Reduce(s, ClearFilters);
      r.filteredCourses == [] && !r.isFiltered && r.selectedCategory == None &&
      r.selectedInstructor == None && r.courses == s.courses && r.total == s.total
  {
  }

  /** A single category id is sent as is; a longer list separates the ids by
      commas, so every id appears in the query in order. */
  lemma {:induction false} CategoryJoin(ids: seq<string>, id: string)
    ensures Join([id], ",") == id
    ensures |ids| > 0 ==> Join(ids + [id], ",") == Join(ids, ",") + "," + id
  {
    if |ids| > 1 {
      assert (ids + [id])[1..] == ids[1..] + [id];
      CategoryJoin(ids[1..], id);
    }
  }
}
