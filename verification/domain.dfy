/** Records the server sends and several pages share. Only the fields the
    front end reads are kept. */
module Domain {
  import opened Common

  /** A course as listed by `/courses` and the filter endpoints. */
  datatype Course = Course(
    id: string,
    title: string,
    description: string,
    price: int,
    thumbnail: Option<string>,
    instructorName: Option<string>,
    instructor: string,
    category: string,
    courseType: string)

  datatype Instructor = Instructor(id: string, firstName: string, lastName: string)

  datatype Category = Category(id: string, name: string)

  /** Per-user, per-course progress counters. */
  datatype Progress = Progress(
    courseId: string,
    userId: string,
    completedLessonsCount: int,
    completedVideosCount: int,
    totalLessonsCount: int,
    totalVideosCount: int,
    completedLessons: seq<string>,
    completedVideos: seq<string>,
    courseCompletionPercentage: int)

  /** A failed HTTP call: the response status and the `message` of the
      response body, both absent when no response arrived. */
  datatype HttpError = HttpError(status: Option<int>, message: Option<string>)

  /** The progress record used when the server has none yet. */
  function ZeroProgress(courseId: string, userId: string): (p: Progress)
    ensures p.courseId == courseId && p.userId == userId
    ensures p.completedLessonsCount == 0 && p.completedVideosCount == 0
    ensures p.totalLessonsCount == 0 && p.totalVideosCount == 0
    ensures p.completedLessons == [] && p.completedVideos == []
    ensures p.courseCompletionPercentage == 0
  {
    Progress(courseId, userId, 0, 0, 0, 0, [], [], 0)
  }

  /** The one failure the progress readers treat as "no progress yet". */
  predicate IsProgressNotFound(e: HttpError) {
    e.status == Some(404) && e.message == Some("Progress not found")
  }

  /** A file picked in a form: its name, its size in bytes and its MIME
      type. */
  datatype File = File(name: string, size: int, mimeType: string)

  const MaxImageBytes := 5 * 1024 * 1024

  /** The image check of the course-thumbnail and profile-picture pickers:
      the size is checked first, then the `image/` MIME prefix. The result
      is the error message, or `None` for an accepted file. */
  function CheckImage(f: File): (r: Option<string>)
    ensures r.None? <==> f.size <= MaxImageBytes && StartsWith(f.mimeType, "image/")
    ensures f.size > MaxImageBytes ==> r == Some("File size must be less than 5MB")
    ensures f.size <= MaxImageBytes && !StartsWith(f.mimeType, "image/") ==> r == Some("Please upload an image file")
  {
    if f.size > MaxImageBytes then Some("File size must be less than 5MB")
    else if !StartsWith(f.mimeType, "image/") then Some("Please upload an image file")
    else None
  }

  /** A quiz question: its text, its options and the index of the right
      option. */
  datatype Question = Question(question: string, options: seq<string>, correctAnswer: int)

  datatype Quiz = Quiz(id: string, lesson: string, description: string, questions: seq<Question>)
}
