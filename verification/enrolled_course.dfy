/** The page of a course the student is enrolled in: loading lessons,
    progress and quizzes, which videos are done, and taking a quiz. */
module EnrolledCourse {
  import opened Common
  import opened Domain
  import Lessons
  import UserSlice
  import Ui

  /** A server reply body, as field names to values; `{...a, ...b}` is the
      right-biased union `a + b`. */
  type Reply = map<string, string>

  datatype Page = Page(
    loading: bool,
    lessons: seq<Lessons.Lesson>,
    progress: Option<Progress>,
    quizzes: map<string, seq<Quiz>>,
    expanded: Lessons.Expanded,
    toasts: seq<Ui.Toast>)

  const Initial := Page(true, [], None, map[], map[], [])

  /** The progress request with the page's own `catch`: a missing record
      becomes the zero record for this course and user; any other failure is
      passed on. */
  function ProgressOrFailure(courseId: string, userId: string, reply: UserSlice.Result): (r: Option<Progress>)
    ensures reply.Ok? ==> r == Some(reply.progress)
    ensures reply.Failed? && IsProgressNotFound(reply.error) ==> r == Some(ZeroProgress(courseId, userId))
    ensures reply.Failed? && !IsProgressNotFound(reply.error) ==> r.None?
  {
    match reply
    case Ok(p) => Some(p)
    case Failed(e) => if IsProgressNotFound(e) then Some(ZeroProgress(courseId, userId)) else None
  }

  /** A fresh record (total lesson count 0) gets its totals from the lessons:
      their number, and their videos with a missing list counting 0. */
  function WithTotals(p: Progress, lessons: seq<Lessons.Lesson>): (r: Progress)
    ensures p.totalLessonsCount == 0 ==>
      r == p.(totalLessonsCount := |lessons|, totalVideosCount := Lessons.TotalVideos(lessons))
    ensures p.totalLessonsCount != 0 ==> r == p
  {
    if p.totalLessonsCount == 0 then p.(totalLessonsCount := |lessons|, totalVideosCount := Lessons.TotalVideos(lessons))
    else p
  }

  /** The quizzes kept per lesson: a lesson gets an entry only when its
      request succeeded with a non-empty list; failures are dropped. */
  function QuizMap(lessons: seq<Lessons.Lesson>, replies: seq<Settled<seq<Quiz>>>): (m: map<string, seq<Quiz>>)
    requires |replies| == |lessons|
    ensures forall id :: id in m ==>
      exists i :: 0 <= i < |lessons| && lessons[i].id == id && Kept(replies[i]) && m[id] == replies[i].value
    ensures forall i :: 0 <= i < |lessons| && Kept(replies[i]) ==> lessons[i].id in m
    decreases |lessons|
  {
    if lessons == [] then map[]
    else
      var last := |lessons| - 1;
      var m := QuizMap(lessons[..last], replies[..last]);
      if Kept(replies[last]) then m[lessons[last].id := replies[last].value]
      else m
  }

  predicate Kept(reply: Settled<seq<Quiz>>) {
    reply.Fulfilled? && |reply.value| > 0
  }

  /** The page's load: nothing is requested without a course id and a user
      id, and the page keeps its spinner. Otherwise the lessons and the
      progress are fetched together; either failing leaves the page empty
      with "Failed to load course data". */
  function Load(
    courseId: string, userId: Option<string>, lessonsReply: Settled<seq<Lessons.Lesson>>,
    progressReply: UserSlice.Result, quizReplies: seq<Settled<seq<Quiz>>>): (r: Page)
    requires lessonsReply.Fulfilled? ==> |quizReplies| == |lessonsReply.value|
    ensures courseId == "" || !Truthy(userId) ==> r == Initial
    ensures courseId != "" && Truthy(userId) ==> !r.loading
    ensures r.progress.Some? ==> lessonsReply.Fulfilled? && r.lessons == lessonsReply.value
    ensures Loaded(courseId, userId, lessonsReply, progressReply) ==>
      r.progress == Some(WithTotals(ProgressOrFailure(courseId, userId.value, progressReply).value, lessonsReply.value)) &&
      r.expanded == Lessons.InitialExpanded(lessonsReply.value) && r.toasts == []
    ensures courseId != "" && Truthy(userId) && !Loaded(courseId, userId, lessonsReply, progressReply) ==>
      r == Initial.(loading := false, toasts := [Ui.Failure("Failed to load course data")])
  {
    if courseId == "" || !Truthy(userId) then Initial
    else
      var progress := ProgressOrFailure(courseId, userId.value, progressReply);
      match lessonsReply
      case Rejected(_) => Initial.(loading := false, toasts := [Ui.Failure("Failed to load course data")])
      case Fulfilled(lessons) =>
        if progress.None? then Initial.(loading := false, toasts := [Ui.Failure("Failed to load course data")])
        else Page(false, lessons, Some(WithTotals(progress.value, lessons)), QuizMap(lessons, quizReplies),
          Lessons.InitialExpanded(lessons), [])
  }

  /** Both requests went through, the progress one possibly by way of the
      zero record. */
  predicate Loaded(courseId: string, userId: Option<string>, lessonsReply: Settled<seq<Lessons.Lesson>>,
    progressReply: UserSlice.Result)
  {
    courseId != "" && Truthy(userId) && lessonsReply.Fulfilled? &&
    ProgressOrFailure(courseId, userId.value, progressReply).Some?
  }

  /** `isVideoCompleted(id)` */
  predicate IsVideoCompleted(progress: Option<Progress>, videoId: string) {
    progress.Some? && videoId in progress.value.completedVideos
  }

  // ---------------------------------------------------------------- quizzes

  datatype Session = Session(
    currentVideo: Option<Lessons.Video>,
    currentQuiz: Option<Quiz>,
    answers: seq<Option<int>>,
    results: Option<Reply>)

  /** `handleStartQuiz`: the video closes, the old results go, and every
      answer starts empty. */
  function StartQuiz(s: Session, quiz: Quiz): (r: Session)
    ensures r.currentVideo.None? && r.currentQuiz == Some(quiz) && r.results.None?
    ensures |r.answers| == |quiz.questions| && forall i :: 0 <= i < |r.answers| ==> r.answers[i].None?
  {
    Session(None, Some(quiz), seq(|quiz.questions|, _ => None), None)
  }

  /** `handleAnswerSelect`: the page passes the index of a question it
      shows. */
  function SelectAnswer(s: Session, question: int, option: int): (r: Session)
    requires 0 <= question < |s.answers|
    ensures |r.answers| == |s.answers| && r.answers[question] == Some(option)
    ensures forall i :: 0 <= i < |s.answers| && i != question ==> r.answers[i] == s.answers[i]
    ensures r.currentVideo == s.currentVideo && r.currentQuiz == s.currentQuiz && r.results == s.results
  {
    s.(answers := s.answers[question := Some(option)])
  }

  predicate AllAnswered(answers: seq<Option<int>>) {
    forall i :: 0 <= i < |answers| ==> answers[i].Some?
  }

  datatype Submission = Submission(session: Session, requested: bool, toasts: seq<Ui.Toast>)

  /** `handleQuizSubmit`: refused while any answer is empty; otherwise the
      answers are sent and then the score, and the two replies are merged
      into the results. `answerReply` and `scoreReply` are the two
      outcomes; the score is requested only after the answers succeeded. */
  function SubmitQuiz(s: Session, answerReply: Settled<Reply>, scoreReply: Settled<Reply>): (r: Submission)
    ensures r.requested <==> AllAnswered(s.answers)
    ensures !r.requested ==> r.session == s && r.toasts == [Ui.Failure("Please answer all questions")]
    ensures r.requested && answerReply.Fulfilled? && scoreReply.Fulfilled? ==>
      r.session == s.(results := Some(answerReply.value + scoreReply.value)) &&
      r.toasts == [Ui.Success("Quiz submitted successfully!")]
    ensures r.requested && answerReply.Rejected? ==>
      r.session == s && r.toasts == [Ui.Failure(MessageOr(answerReply.message, "Failed to submit quiz"))]
    ensures r.requested && answerReply.Fulfilled? && scoreReply.Rejected? ==>
      r.session == s && r.toasts == [Ui.Failure(MessageOr(scoreReply.message, "Failed to submit quiz"))]
  {
    if !AllAnswered(s.answers) then Submission(s, false, [Ui.Failure("Please answer all questions")])
    else match answerReply
      case Rejected(m) => Submission(s, true, [Ui.Failure(MessageOr(m, "Failed to submit quiz"))])
      case Fulfilled(a) =>
        match scoreReply
        case Rejected(m) => Submission(s, true, [Ui.Failure(MessageOr(m, "Failed to submit quiz"))])
        case Fulfilled(b) => Submission(s.(results := Some(a + b)), true, [Ui.Success("Quiz submitted successfully!")])
  }

  // ---------------------------------------------------------------- properties

  /** The page and the user slice read a failed progress request the same
      way: both produce the zero record exactly for the "not found" reply. */
  lemma PageAgreesWithSlice(courseId: string, userId: string, reply: UserSlice.Result)
    ensures ProgressOrFailure(courseId, userId, reply).Some? <==>
      UserSlice.FetchProgress(userId, courseId, reply).ProgressFulfilled?
    ensures ProgressOrFailure(courseId, userId, reply).Some? ==>
      UserSlice.FetchProgress(userId, courseId, reply) == UserSlice.ProgressFulfilled(ProgressOrFailure(courseId, userId, reply).value)
  {
  }

  /** A new student's progress counts every lesson and every listed video. */
  lemma FreshProgressCountsEverything(
    courseId: string, userId: string, lessons: seq<Lessons.Lesson>, err: HttpError,
    quizReplies: seq<Settled<seq<Quiz>>>)
    requires userId != "" && courseId != "" && IsProgressNotFound(err) && |quizReplies| == |lessons|
    ensures var r := Load(courseId, Some(userId), Fulfilled(lessons), UserSlice.Failed(err), quizReplies);
      r.progress.Some? && r.progress.value.totalLessonsCount == |lessons| &&
      r.progress.value.totalVideosCount == Lessons.TotalVideos(lessons) &&
      r.progress.value.completedVideos == [] &&
      forall v :: !IsVideoCompleted(r.progress, v)
  {
  }

  /** Right after a quiz starts (one with any question), submitting is
      refused and sends nothing. */
  lemma FreshQuizRefused(s: Session, quiz: Quiz, a: Settled<Reply>, b: Settled<Reply>)
    requires |quiz.questions| > 0
    ensures !SubmitQuiz(StartQuiz(s, quiz), a, b).requested
  {
    assert StartQuiz(s, quiz).answers[0].None?;
  }

  /** Answering a question never empties another one, so once every
      question is answered the quiz can be submitted, whatever is changed
      afterwards. */
  lemma AnsweredStaysAnswered(s: Session, question: int, option: int)
    requires 0 <= question < |s.answers|
    requires AllAnswered(s.answers)
    ensures AllAnswered(SelectAnswer(s, question, option).answers)
  {
  }

  /** The results merge the two replies, the score reply winning on fields
      both carry. */
  lemma ScoreWinsOnSharedFields(s: Session, a: Reply, b: Reply, field: string)
    requires AllAnswered(s.answers)
    requires field in b
    ensures SubmitQuiz(s, Fulfilled(a), Fulfilled(b)).session.results.value[field] == b[field]
  {
  }
}
