/** The user slice: the fetched profile, enrolled courses, per-course progress
    and the instructor list. */
module UserSlice {
  import opened Common
  import opened Domain
  import Auth

  datatype UserState = UserState(
    profile: Option<Auth.User>,
    enrolledCourses: seq<Course>,
    courseProgress: map<string, Progress>,
    instructors: seq<Instructor>,
    loading: bool,
    error: Option<string>)

  /** The six asynchronous requests of the slice. */
  datatype Call = GetProfile | UpdateProfile | GetEnrolled | GetProgress | GetInstructors | Enroll

  /** The two reducers and the three phases of each of the six thunks.
      Every pending phase acts alike and so does every rejection, so those
      carry the request they belong to; each fulfilled phase has its own
      payload, of which only the field the reducer reads is kept. */
  datatype Event =
    | ClearProfile
    | ClearError
    | Pending(call: Call)
    | Rejection(call: Call, message: Option<string>)
    | ProfileFulfilled(data: Option<Auth.User>)
    | UpdateProfileFulfilled(data: Option<Auth.User>)
    | EnrolledFulfilled(details: Option<seq<Course>>)
    | ProgressFulfilled(progress: Progress)
    | InstructorsFulfilled(instructors: seq<Instructor>)
    | EnrollFulfilled(course: Course)

  const Init := UserState(None, [], map[], [], false, None)

  predicate IsFulfilled(e: Event) {
    e.ProfileFulfilled? || e.UpdateProfileFulfilled? || e.EnrolledFulfilled? ||
    e.ProgressFulfilled? || e.InstructorsFulfilled? || e.EnrollFulfilled?
  }

  /** The fixed message each request's rejection falls back to. */
  function Fallback(call: Call): string {
    match call
    case GetProfile => "Failed to fetch user profile"
    case UpdateProfile => "Failed to update user profile"
    case GetEnrolled => "Failed to fetch enrolled courses"
    case GetProgress => "Failed to fetch course progress"
    case GetInstructors => "Failed to fetch instructors"
    case Enroll => "Failed to enroll in course"
  }

  /** The `fetchCourseProgress` thunk: a 404 whose message is exactly
      "Progress not found" becomes a zero record for the requested course and
      user; any other failure is rejected with the server's message. */
  function FetchProgress(userId: string, courseId: string, reply: Result): (r: Event)
    ensures reply.Ok? ==> r == ProgressFulfilled(reply.progress)
    ensures reply.Failed? && IsProgressNotFound(reply.error) ==>
      r == ProgressFulfilled(ZeroProgress(courseId, userId))
    ensures reply.Failed? && !IsProgressNotFound(reply.error) ==>
      r == Rejection(GetProgress, reply.error.message)
  {
    match reply
    case Ok(p) => ProgressFulfilled(p)
    case Failed(e) =>
      if IsProgressNotFound(e) then ProgressFulfilled(ZeroProgress(courseId, userId))
      else Rejection(GetProgress, e.message)
  }

  /** Reply of `GET /progress/:userId/:courseId`. */
  datatype Result = Ok(progress: Progress) | Failed(error: HttpError)

  function Reduce(s: UserState, e: Event): UserState {
    match e
    case ClearProfile => s.(profile := None)
    case ClearError => s.(error := None)
    case ProfileFulfilled(d) => s.(loading := false, profile := d, error := None)
    case UpdateProfileFulfilled(d) => s.(loading := false, profile := d, error := None)
    case EnrolledFulfilled(d) =>
      s.(loading := false, enrolledCourses := if d.Some? then d.value else [], error := None)
    case ProgressFulfilled(p) =>
      s.(loading := false, courseProgress := s.courseProgress[p.courseId := p], error := None)
    case InstructorsFulfilled(list) => s.(loading := false, instructors := list)
    case EnrollFulfilled(c) => s.(loading := false, enrolledCourses := s.enrolledCourses + [c], error := None)
    case Pending(_) => Start(s)
    case Rejection(call, m) => Fail(s, m, Fallback(call))
  }

  /** What every pending case does. */
  function Start(s: UserState): UserState {
    s.(loading := true, error := None)
  }

  /** What every rejected case does. */
  function Fail(s: UserState, m: Option<string>, fallback: string): UserState {
    s.(loading := false, error := Some(MessageOr(m, fallback)))
  }

  // ---------------------------------------------------------------- properties

  /** Every pending phase starts a request with a clean error and changes
      nothing else. */
  lemma PendingStarts(s: UserState, call: Call)
    ensures Reduce(s, Pending(call)) == s.(loading := true, error := None)
  {
  }

  /** Every fulfilled phase ends the request. */
  lemma FulfilledEnds(s: UserState, e: Event)
    requires IsFulfilled(e)
    ensures !Reduce(s, e).loading
  {
  }

  /** A rejection changes nothing but `loading` and the error, which is the
      server's message or the request's fallback. */
  lemma RejectedFails(s: UserState, call: Call, m: Option<string>)
    ensures Reduce(s, Rejection(call, m)) ==
      s.(loading := false, error := Some(if Truthy(m) then m.value else Fallback(call)))
  {
  }

  /** `clearProfile` and `clearError` each change one field. */
  lemma ClearersFrame(s: UserState)
    ensures Reduce(s, ClearProfile) == s.(profile := None)
    ensures Reduce(s, ClearError) == s.(error := None)
  {
  }

  /** A fetched progress record is filed under its own course id and leaves
      every other course's record as it was. */
  lemma ProgressStoredUnderCourse(s: UserState, p: Progress)
    ensures var r := Reduce(s, ProgressFulfilled(p));
      p.courseId in r.courseProgress && r.courseProgress[p.courseId] == p &&
      r.courseProgress.Keys == s.courseProgress.Keys + {p.courseId} &&
      (forall k :: k in s.courseProgress && k != p.courseId ==> r.courseProgress[k] == s.courseProgress[k])
  {
  }

  /** The not-found normalisation composed with the reducer: the zero record
      is filed under the requested course. */
  lemma NotFoundFilesZeroRecord(s: UserState, userId: string, courseId: string, err: HttpError)
    requires IsProgressNotFound(err)
    ensures var r := Reduce(s, FetchProgress(userId, courseId, Failed(err)));
      courseId in r.courseProgress && r.courseProgress[courseId] == ZeroProgress(courseId, userId)
  {
  }

  /** Enrolling appends the returned course after the existing ones, without
      a duplicate check; a failed enrolment leaves the list alone. */
  lemma EnrollAppends(s: UserState, c: Course, m: Option<string>)
    ensures var r := Reduce(s, EnrollFulfilled(c));
      |r.enrolledCourses| == |s.enrolledCourses| + 1 &&
      r.enrolledCourses[..|s.enrolledCourses|] == s.enrolledCourses &&
      r.enrolledCourses[|s.enrolledCourses|] == c
    ensures var r := Reduce(s, Rejection(Enroll, m));
      r.enrolledCourses == s.enrolledCourses &&
      r.error == Some(if Truthy(m) then m.value else "Failed to enroll in course")
  {
    assert (s.enrolledCourses + [c])[..|s.enrolledCourses|] == s.enrolledCourses;
  }

  /** Enrolling twice in the same course lists it twice. */
  lemma EnrollTwiceDuplicates(s: UserState, c: Course)
    ensures var r := Reduce(Reduce(s, EnrollFulfilled(c)), EnrollFulfilled(c));
      multiset(r.enrolledCourses)[c] == multiset(s.enrolledCourses)[c] + 2
  {
    assert Reduce(Reduce(s, EnrollFulfilled(c)), EnrollFulfilled(c)).enrolledCourses
      == s.enrolledCourses + [c] + [c];
  }

  /** Fetching the enrolled list replaces it, or empties it when the payload
      has no list. */
  lemma EnrolledListReplaced(s: UserState, d: Option<seq<Course>>)
    ensures Reduce(s, EnrolledFulfilled(d)).enrolledCourses == (if d.Some? then d.value else [])
    ensures Reduce(s, EnrolledFulfilled(d)).courseProgress == s.courseProgress
  {
  }
}
