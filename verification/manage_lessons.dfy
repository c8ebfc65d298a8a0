/** The instructor's lesson-management page: loading a course's lessons and
    quizzes, adding lessons and videos, and creating, updating and deleting
    quizzes, with the counts the page header and the lesson rows show. */
module ManageLessons {
  import opened Common
  import opened Domain
  import Lessons
  import QuizForm
  import Ui

  /** A video picked for a lesson but not yet uploaded. A title typed before
      any file was picked makes an entry without file, duration or name. */
  datatype VideoData = VideoData(file: Option<File>, duration: Option<int>, name: Option<string>, title: string)

  datatype Page = Page(
    loading: bool,
    lessons: seq<Lessons.Lesson>,
    expanded: Lessons.Expanded,
    showAddLesson: bool,
    newLessonTitle: string,
    videoData: map<string, VideoData>,
    quizzes: map<string, seq<Quiz>>,
    showQuizForm: Option<string>,
    editingQuiz: Option<Quiz>,
    deleteConfirm: Option<Quiz>)

  const Initial := Page(true, [], map[], false, "", map[], map[], None, None, None)

  /** A handler's result: the page after it, whether it sent a request, and
      the toasts it raised. */
  datatype Outcome = Outcome(page: Page, requested: bool, toasts: seq<Ui.Toast>)

  /** The server's answer to a new lesson or video, with the `message` of
      the response body. */
  datatype LessonCreated = LessonCreated(id: string, title: string, message: Option<string>)
  datatype VideoCreated = VideoCreated(video: Lessons.Video, message: Option<string>)

  // ---------------------------------------------------------------- loading

  /** `lessonDetails || []` */
  function LessonList(details: Option<seq<Lessons.Lesson>>): (ls: seq<Lessons.Lesson>)
    ensures details.Some? ==> ls == details.value
    ensures details.None? ==> ls == []
  {
    match details
    case Some(ls) => ls
    case None => []
  }

  /** No later lesson shares lesson `i`'s id, so its quizzes are the ones
      kept for that id. */
  predicate LastWithId(lessons: seq<Lessons.Lesson>, i: int)
    requires 0 <= i < |lessons|
  {
    forall j :: i < j < |lessons| ==> lessons[j].id != lessons[i].id
  }

  /** Every quiz request of the load succeeded; the first failure ends the
      loop and loses the quizzes fetched so far. */
  predicate AllOk(replies: seq<Ui.Response<seq<Quiz>>>) {
    forall i :: 0 <= i < |replies| ==> replies[i].Ok?
  }

  /** The ids of the lessons. */
  function Ids(lessons: seq<Lessons.Lesson>): set<string> {
    set i | 0 <= i < |lessons| :: lessons[i].id
  }

  /** The quizzes fetched lesson by lesson: one entry per lesson id (see
      `QuizMapValue` for what each holds). */
  function QuizMap(lessons: seq<Lessons.Lesson>, replies: seq<Ui.Response<seq<Quiz>>>): (m: map<string, seq<Quiz>>)
    requires |replies| == |lessons| && AllOk(replies)
    ensures m.Keys == Ids(lessons)
    decreases |lessons|
  {
    if lessons == [] then map[]
    else
      var last := |lessons| - 1;
      assert Ids(lessons) == Ids(lessons[..last]) + {lessons[last].id} by {
        assert forall i :: 0 <= i < last ==> lessons[..last][i] == lessons[i];
      }
      QuizMap(lessons[..last], replies[..last])[lessons[last].id := replies[last].body]
  }

  /** The page's load. A failed course request leaves no lessons; a failed
      quiz request keeps the lessons but loses every quiz. Both raise "Failed
      to load course details", and the spinner goes in every case. */
  function Load(
    courseReply: Ui.Response<Option<seq<Lessons.Lesson>>>,
    quizReplies: seq<Ui.Response<seq<Quiz>>>): (r: Outcome)
    requires courseReply.Ok? ==> |quizReplies| == |LessonList(courseReply.body)|
    ensures !r.page.loading && r.requested
    ensures courseReply.Err? ==>
      r.page.lessons == [] && r.page.quizzes == map[] && r.toasts == [Ui.Failure("Failed to load course details")]
    ensures courseReply.Ok? ==>
      r.page.lessons == LessonList(courseReply.body) &&
      r.page.expanded == Lessons.InitialExpanded(LessonList(courseReply.body))
    ensures courseReply.Ok? ==> (r.toasts == [] <==> AllOk(quizReplies))
    ensures courseReply.Ok? && AllOk(quizReplies) ==> r.page.quizzes == QuizMap(LessonList(courseReply.body), quizReplies)
    ensures r.toasts != [] ==> r.page.quizzes == map[] && r.toasts == [Ui.Failure("Failed to load course details")]
  {
    match courseReply
    case Err(_) => Outcome(Initial.(loading := false), true, [Ui.Failure("Failed to load course details")])
    case Ok(details) =>
      var lessons := LessonList(details);
      var p := Initial.(loading := false, lessons := lessons, expanded := Lessons.InitialExpanded(lessons));
      if AllOk(quizReplies) then Outcome(p.(quizzes := QuizMap(lessons, quizReplies)), true, [])
      else Outcome(p, true, [Ui.Failure("Failed to load course details")])
  }

  // ---------------------------------------------------------------- lessons

  /** `handleAddLesson`: a blank title is refused without a request; a
      created lesson is appended with empty video and quiz lists, and the
      title field is cleared and closed. */
  function AddLesson(p: Page, reply: Ui.Response<LessonCreated>): (r: Outcome)
    ensures r.requested <==> !IsBlank(p.newLessonTitle)
    ensures !r.requested ==> r.page == p && r.toasts == [Ui.Failure("Please enter a lesson title")]
    ensures r.requested && reply.Ok? ==>
      r.page == p.(lessons := r.page.lessons, newLessonTitle := "", showAddLesson := false) &&
      r.page.lessons == p.lessons + [Lessons.Lesson(reply.body.id, reply.body.title, Some([]), Some([]))] &&
      r.toasts == [Ui.Success(MessageOr(reply.body.message, "Lesson added successfully!"))]
    ensures r.requested && reply.Err? ==>
      r.page == p && r.toasts == [Ui.Failure(Ui.ResponseOrErrorMessage(reply.error, "Failed to add lesson"))]
  {
    TrimEmptyIffBlank(p.newLessonTitle);
    if Trim(p.newLessonTitle) == "" then Outcome(p, false, [Ui.Failure("Please enter a lesson title")])
    else match reply
      case Ok(created) =>
        var lesson := Lessons.Lesson(created.id, created.title, Some([]), Some([]));
        Outcome(p.(lessons := p.lessons + [lesson], newLessonTitle := "", showAddLesson := false), true,
          [Ui.Success(MessageOr(created.message, "Lesson added successfully!"))])
      case Err(e) => Outcome(p, true, [Ui.Failure(Ui.ResponseOrErrorMessage(e, "Failed to add lesson"))])
  }

  // ---------------------------------------------------------------- videos

  /** `file.name.split(".")[0]`: the name up to its first dot. */
  function DefaultTitle(name: string): (t: string)
    ensures |t| <= |name| && t == name[..|t|]
    ensures FreeOf(t, '.')
    ensures |t| < |name| ==> name[|t|] == '.'
  {
    SplitFirst(name, '.');
    Split(name, '.')[0]
  }

  /** `handleVideoFileChange`: nothing happens without a file; a file whose
      metadata fails to load raises "Error loading video file"; otherwise
      the lesson's pending video is the file with its rounded duration
      (`metadata`) and the default title. */
  function PickVideo(p: Page, lessonId: string, file: Option<File>, metadata: Option<int>): (r: Outcome)
    ensures !r.requested
    ensures file.None? ==> r.page == p && r.toasts == []
    ensures file.Some? && metadata.None? ==> r.page == p && r.toasts == [Ui.Failure("Error loading video file")]
    ensures file.Some? && metadata.Some? ==>
      r.toasts == [] && lessonId in r.page.videoData && r.page == p.(videoData := p.videoData[lessonId := r.page.videoData[lessonId]]) &&
      r.page.videoData[lessonId] ==
        VideoData(file, metadata, Some(file.value.name), DefaultTitle(file.value.name))
  {
    match file
    case None => Outcome(p, false, [])
    case Some(f) =>
      match metadata
      case None => Outcome(p, false, [Ui.Failure("Error loading video file")])
      case Some(d) =>
        Outcome(p.(videoData := p.videoData[lessonId := VideoData(file, metadata, Some(f.name), DefaultTitle(f.name))]),
          false, [])
  }

  /** `handleVideoTitleChange`: the pending video keeps its file and takes
      the new title; without one, an entry with only the title appears. */
  function ChangeVideoTitle(p: Page, lessonId: string, title: string): (r: Page)
    ensures r == p.(videoData := r.videoData)
    ensures lessonId in r.videoData && r.videoData[lessonId].title == title
    ensures lessonId in p.videoData ==> r.videoData[lessonId] == p.videoData[lessonId].(title := title)
    ensures lessonId !in p.videoData ==> r.videoData[lessonId].file.None?
    ensures forall id :: id != lessonId ==>
      (id in r.videoData <==> id in p.videoData) && (id in p.videoData ==> r.videoData[id] == p.videoData[id])
  {
    var entry := if lessonId in p.videoData then p.videoData[lessonId].(title := title)
      else VideoData(None, None, None, title);
    p.(videoData := p.videoData[lessonId := entry])
  }

  /** The lessons after an upload: every lesson with that id gets the video
      at the end of its list, a missing list counting as empty. */
  function AppendVideo(lessons: seq<Lessons.Lesson>, lessonId: string, v: Lessons.Video): (r: seq<Lessons.Lesson>)
    ensures |r| == |lessons|
    ensures forall i :: 0 <= i < |lessons| && lessons[i].id != lessonId ==> r[i] == lessons[i]
    ensures forall i :: 0 <= i < |lessons| && lessons[i].id == lessonId ==>
      r[i] == lessons[i].(videoDetails := Some(Lessons.Videos(lessons[i]) + [v]))
  {
    seq(|lessons|, i requires 0 <= i < |lessons| =>
      if lessons[i].id == lessonId then lessons[i].(videoDetails := Some(Lessons.Videos(lessons[i]) + [v]))
      else lessons[i])
  }

  /** A pending video the upload button may send: one with a file. */
  predicate HasFile(p: Page, lessonId: string) {
    lessonId in p.videoData && p.videoData[lessonId].file.Some?
  }

  /** `handleAddVideo`: refused without a picked file, then with a blank
      title; an uploaded video is appended to its lesson and the pending
      entry is dropped. */
  function AddVideo(p: Page, lessonId: string, reply: Ui.Response<VideoCreated>): (r: Outcome)
    ensures r.requested <==> HasFile(p, lessonId) && !IsBlank(p.videoData[lessonId].title)
    ensures !HasFile(p, lessonId) ==> r.page == p && r.toasts == [Ui.Failure("Please select a video file")]
    ensures HasFile(p, lessonId) && IsBlank(p.videoData[lessonId].title) ==>
      r.page == p && r.toasts == [Ui.Failure("Please enter a video title")]
    ensures r.requested && reply.Ok? ==>
      r.page == p.(lessons := AppendVideo(p.lessons, lessonId, reply.body.video), videoData := p.videoData - {lessonId}) &&
      r.toasts == [Ui.Success(MessageOr(reply.body.message, "Video added successfully!"))]
    ensures r.requested && reply.Err? ==>
      r.page == p && r.toasts == [Ui.Failure(Ui.ResponseOrErrorMessage(reply.error, "Failed to add video"))]
  {
    if !HasFile(p, lessonId) then Outcome(p, false, [Ui.Failure("Please select a video file")])
    else
      TrimEmptyIffBlank(p.videoData[lessonId].title);
      if Trim(p.videoData[lessonId].title) == "" then Outcome(p, false, [Ui.Failure("Please enter a video title")])
      else match reply
        case Ok(created) =>
          Outcome(p.(lessons := AppendVideo(p.lessons, lessonId, created.video), videoData := p.videoData - {lessonId}),
            true, [Ui.Success(MessageOr(created.message, "Video added successfully!"))])
        case Err(e) => Outcome(p, true, [Ui.Failure(Ui.ResponseOrErrorMessage(e, "Failed to add video"))])
  }

  // ---------------------------------------------------------------- quizzes

  /** `prev[lessonId] || []` */
  function QuizzesFor(m: map<string, seq<Quiz>>, lessonId: string): (qs: seq<Quiz>)
    ensures lessonId in m ==> qs == m[lessonId]
    ensures lessonId !in m ==> qs == []
  {
    if lessonId in m then m[lessonId] else []
  }

  /** `handleCreateQuiz`: the created quiz is appended to its lesson's list
      and the form closes. */
  function CreateQuiz(p: Page, lessonId: string, reply: Ui.Response<Quiz>): (r: Outcome)
    ensures r.requested
    ensures reply.Ok? ==>
      r.page == p.(quizzes := r.page.quizzes, showQuizForm := None) &&
      QuizzesFor(r.page.quizzes, lessonId) == QuizzesFor(p.quizzes, lessonId) + [reply.body] &&
      r.toasts == [Ui.Success("Quiz created successfully!")]
    ensures reply.Ok? ==> forall id :: id != lessonId ==> QuizzesFor(r.page.quizzes, id) == QuizzesFor(p.quizzes, id)
    ensures reply.Err? ==>
      r.page == p && r.toasts == [Ui.Failure(MessageOr(reply.error.responseMessage, "Failed to create quiz"))]
  {
    match reply
    case Ok(q) =>
      Outcome(p.(quizzes := p.quizzes[lessonId := QuizzesFor(p.quizzes, lessonId) + [q]], showQuizForm := None), true,
        [Ui.Success("Quiz created successfully!")])
    case Err(e) => Outcome(p, true, [Ui.Failure(MessageOr(e.responseMessage, "Failed to create quiz"))])
  }

  /** Every quiz with the id replaced by the updated one, in place. */
  function ReplaceQuiz(qs: seq<Quiz>, quizId: string, updated: Quiz): (r: seq<Quiz>)
    ensures |r| == |qs|
    ensures forall i :: 0 <= i < |qs| ==> r[i] == (if qs[i].id == quizId then updated else qs[i])
  {
    seq(|qs|, i requires 0 <= i < |qs| => if qs[i].id == quizId then updated else qs[i])
  }

  /** `handleUpdateQuiz`: the list of the lesson the edited quiz names
      (the page opens the editor from that list, so it is there) gets the
      updated quiz in place, and the editor closes. */
  function UpdateQuiz(p: Page, quizId: string, reply: Ui.Response<Quiz>): (r: Outcome)
    requires p.editingQuiz.Some?
    requires reply.Ok? ==> p.editingQuiz.value.lesson in p.quizzes
    ensures r.requested
    ensures reply.Ok? ==>
      var lessonId := p.editingQuiz.value.lesson;
      r.page == p.(quizzes := p.quizzes[lessonId := ReplaceQuiz(p.quizzes[lessonId], quizId, reply.body)], editingQuiz := None) &&
      r.toasts == [Ui.Success("Quiz updated successfully!")]
    ensures reply.Err? ==>
      r.page == p && r.toasts == [Ui.Failure(MessageOr(reply.error.responseMessage, "Failed to update quiz"))]
  {
    match reply
    case Ok(q) =>
      var lessonId := p.editingQuiz.value.lesson;
      Outcome(p.(quizzes := p.quizzes[lessonId := ReplaceQuiz(p.quizzes[lessonId], quizId, q)], editingQuiz := None), true,
        [Ui.Success("Quiz updated successfully!")])
    case Err(e) => Outcome(p, true, [Ui.Failure(MessageOr(e.responseMessage, "Failed to update quiz"))])
  }

  /** `filter(quiz => quiz._id !== quizId)` */
  function RemoveQuiz(qs: seq<Quiz>, quizId: string): (r: seq<Quiz>)
    ensures |r| <= |qs|
    ensures forall q :: q in r <==> q in qs && q.id != quizId
  {
    if qs == [] then []
    else if qs[0].id == quizId then RemoveQuiz(qs[1..], quizId)
    else [qs[0]] + RemoveQuiz(qs[1..], quizId)
  }

  /** `handleDeleteQuiz`: the quiz leaves the list of the lesson it is
      deleted from (shown on the page, so the list is there), and the
      confirmation closes. */
  function DeleteQuiz(p: Page, quizId: string, lessonId: string, reply: Ui.Response<()>): (r: Outcome)
    requires reply.Ok? ==> lessonId in p.quizzes
    ensures r.requested
    ensures reply.Ok? ==>
      r.page == p.(quizzes := p.quizzes[lessonId := RemoveQuiz(p.quizzes[lessonId], quizId)], deleteConfirm := None) &&
      r.toasts == [Ui.Success("Quiz deleted successfully!")]
    ensures reply.Err? ==>
      r.page == p && r.toasts == [Ui.Failure(MessageOr(reply.error.responseMessage, "Failed to delete quiz"))]
  {
    match reply
    case Ok(_) =>
      Outcome(p.(quizzes := p.quizzes[lessonId := RemoveQuiz(p.quizzes[lessonId], quizId)], deleteConfirm := None), true,
        [Ui.Success("Quiz deleted successfully!")])
    case Err(e) => Outcome(p, true, [Ui.Failure(MessageOr(e.responseMessage, "Failed to delete quiz"))])
  }

  /** The editor opened on quiz `i` of a lesson's list, after it ran
      `steps`. */
  function EditorAfter(p: Page, lessonId: string, i: nat, steps: seq<QuizForm.Step>): (f: QuizForm.Form)
    requires lessonId in p.quizzes && i < |p.quizzes[lessonId]|
    ensures |p.quizzes[lessonId][i].questions| <= |f.questions|
  {
    QuizForm.Run(QuizForm.Init(Some(p.quizzes[lessonId][i])), steps)
  }

  /** Cancelling the editor of quiz `i` of a lesson's list as written. The
      editor's questions start as the quiz's own list, and
      `handleQuestionChange` copies that list but writes into the question
      objects in it, so the quiz's questions are the editor's first ones;
      closing the editor does not undo the writes. Its description and the
      questions added in the editor stay out of the quiz. */
  function CancelEditAsWritten(p: Page, lessonId: string, i: nat, steps: seq<QuizForm.Step>): (r: Page)
    requires lessonId in p.quizzes && i < |p.quizzes[lessonId]|
    ensures r.editingQuiz.None? && r.quizzes.Keys == p.quizzes.Keys
    ensures forall l :: l in p.quizzes && l != lessonId ==> r.quizzes[l] == p.quizzes[l]
    ensures |r.quizzes[lessonId]| == |p.quizzes[lessonId]|
    ensures forall k :: 0 <= k < |p.quizzes[lessonId]| && k != i ==> r.quizzes[lessonId][k] == p.quizzes[lessonId][k]
    ensures var q := p.quizzes[lessonId][i];
      var f := EditorAfter(p, lessonId, i, steps);
      r.quizzes[lessonId][i].id == q.id && r.quizzes[lessonId][i].lesson == q.lesson &&
      r.quizzes[lessonId][i].description == q.description &&
      |r.quizzes[lessonId][i].questions| == |q.questions| &&
      forall k :: 0 <= k < |q.questions| ==> r.quizzes[lessonId][i].questions[k] == f.questions[k]
  {
    var q := p.quizzes[lessonId][i];
    var f := EditorAfter(p, lessonId, i, steps);
    var shared := q.(questions := f.questions[..|q.questions|]);
    p.(quizzes := p.quizzes[lessonId := p.quizzes[lessonId][i := shared]], editingQuiz := None)
  }

  /** Cancelling the editor as intended: it closes and the listed quizzes
      are as they were before it opened. */
  function CancelEdit(p: Page): (r: Page)
    ensures r.editingQuiz.None? && r.quizzes == p.quizzes && r.lessons == p.lessons
  {
    p.(editingQuiz := None)
  }

  // ---------------------------------------------------------------- counts

  /** `lesson.quiz?.length || 0`: the quiz badge of a lesson row, read from
      the lesson record. */
  function QuizBadge(l: Lessons.Lesson): nat {
    match l.quiz
    case Some(ids) => |ids|
    case None => 0
  }

  /** The badge read from the quizzes the page lists under the lesson. */
  function ListedQuizCount(p: Page, lessonId: string): nat {
    |QuizzesFor(p.quizzes, lessonId)|
  }

  /** How many lessons carry the id. */
  function CountWithId(lessons: seq<Lessons.Lesson>, id: string): nat {
    if lessons == [] then 0 else (if lessons[0].id == id then 1 else 0) + CountWithId(lessons[1..], id)
  }

  // ---------------------------------------------------------------- properties

  /** Each lesson id holds the list fetched for it, a repeated id keeping
      the list of its last lesson. */
  lemma {:induction false} QuizMapValue(lessons: seq<Lessons.Lesson>, replies: seq<Ui.Response<seq<Quiz>>>, i: int)
    requires |replies| == |lessons| && AllOk(replies)
    requires 0 <= i < |lessons| && LastWithId(lessons, i)
    ensures lessons[i].id in QuizMap(lessons, replies)
    ensures QuizMap(lessons, replies)[lessons[i].id] == replies[i].body
    decreases |lessons|
  {
    var last := |lessons| - 1;
    if i < last {
      var ls, rs := lessons[..last], replies[..last];
      assert AllOk(rs) by {
        forall k | 0 <= k < |rs| ensures rs[k].Ok? {
          assert rs[k] == replies[k];
        }
      }
      assert LastWithId(ls, i) by {
        forall j | i < j < |ls| ensures ls[j].id != ls[i].id {
          assert ls[j] == lessons[j] && ls[i] == lessons[i];
        }
      }
      assert lessons[last].id != lessons[i].id;
      QuizMapValue(ls, rs, i);
      assert ls[i] == lessons[i];
    }
  }

  /** A new lesson adds one to the lesson count and nothing to the video
      count. */
  lemma AddedLessonCounts(p: Page, reply: Ui.Response<LessonCreated>)
    requires !IsBlank(p.newLessonTitle) && reply.Ok?
    ensures var r := AddLesson(p, reply).page;
      |r.lessons| == |p.lessons| + 1 && Lessons.TotalVideos(r.lessons) == Lessons.TotalVideos(p.lessons)
  {
    var r := AddLesson(p, reply).page;
    Lessons.TotalVideosAppend(p.lessons, [r.lessons[|p.lessons|]]);
    assert r.lessons == p.lessons + [r.lessons[|p.lessons|]];
  }

  /** An upload adds one video per lesson carrying the id, so exactly one
      when lesson ids are distinct. */
  lemma {:induction false} VideoCountAfterAdd(lessons: seq<Lessons.Lesson>, lessonId: string, v: Lessons.Video)
    ensures Lessons.TotalVideos(AppendVideo(lessons, lessonId, v)) == Lessons.TotalVideos(lessons) + CountWithId(lessons, lessonId)
    decreases |lessons|
  {
    if lessons != [] {
      var r := AppendVideo(lessons, lessonId, v);
      assert r[1..] == AppendVideo(lessons[1..], lessonId, v);
      VideoCountAfterAdd(lessons[1..], lessonId, v);
    }
  }

  /** An upload to a lesson id the page does not show changes no lesson. */
  lemma UploadToUnknownLesson(lessons: seq<Lessons.Lesson>, lessonId: string, v: Lessons.Video)
    requires forall i :: 0 <= i < |lessons| ==> lessons[i].id != lessonId
    ensures AppendVideo(lessons, lessonId, v) == lessons
  {
  }

  /** Picking a file and uploading it leaves no pending video for that
      lesson, whatever was pending before. */
  lemma UploadClearsPending(p: Page, lessonId: string, f: File, d: int, reply: Ui.Response<VideoCreated>)
    requires !IsBlank(DefaultTitle(f.name)) && reply.Ok?
    ensures lessonId !in AddVideo(PickVideo(p, lessonId, Some(f), Some(d)).page, lessonId, reply).page.videoData
  {
  }

  /** Deleting a quiz just created, whose id no other quiz of the lesson
      has, gives the lesson its list back. */
  lemma {:induction false} RemoveCreated(qs: seq<Quiz>, q: Quiz)
    requires forall i :: 0 <= i < |qs| ==> qs[i].id != q.id
    ensures RemoveQuiz(qs + [q], q.id) == qs
    decreases |qs|
  {
    if qs == [] {
      assert [] + [q] == [q];
      assert [q][1..] == [];
    } else {
      assert (qs + [q])[0] == qs[0];
      assert (qs + [q])[1..] == qs[1..] + [q];
      RemoveCreated(qs[1..], q);
      assert qs == [qs[0]] + qs[1..];
    }
  }

  /** Creating a quiz and then deleting it restores the lesson's list. */
  lemma CreateThenDelete(p: Page, lessonId: string, q: Quiz)
    requires forall i :: 0 <= i < |QuizzesFor(p.quizzes, lessonId)| ==> QuizzesFor(p.quizzes, lessonId)[i].id != q.id
    ensures var created := CreateQuiz(p, lessonId, Ui.Ok(q)).page;
      lessonId in created.quizzes &&
      DeleteQuiz(created, q.id, lessonId, Ui.Ok(())).page.quizzes[lessonId] == QuizzesFor(p.quizzes, lessonId)
  {
    RemoveCreated(QuizzesFor(p.quizzes, lessonId), q);
  }

  /** Removing a quiz twice removes nothing more. */
  lemma RemoveTwice(qs: seq<Quiz>, quizId: string)
    ensures RemoveQuiz(RemoveQuiz(qs, quizId), quizId) == RemoveQuiz(qs, quizId)
  {
  }

  /** The lesson row's badge does not see a created quiz: the lesson keeps
      its count while the list under it grows by one. */
  lemma BadgeMissesCreatedQuiz(p: Page, lessonId: string, q: Quiz, i: int)
    requires 0 <= i < |p.lessons| && p.lessons[i].id == lessonId
    ensures var r := CreateQuiz(p, lessonId, Ui.Ok(q)).page;
      QuizBadge(r.lessons[i]) == QuizBadge(p.lessons[i]) &&
      |QuizzesFor(r.quizzes, lessonId)| == |QuizzesFor(p.quizzes, lessonId)| + 1
  {
  }

  /** A lesson added on the page shows "0 Quizzes" after a quiz is created
      for it, while one quiz is listed under it. */
  lemma NewLessonBadgeStaysZero(p: Page, created: LessonCreated, q: Quiz)
    requires !IsBlank(p.newLessonTitle) && created.id !in p.quizzes
    ensures var added := AddLesson(p, Ui.Ok(created)).page;
      var after := CreateQuiz(added, created.id, Ui.Ok(q)).page;
      QuizBadge(after.lessons[|p.lessons|]) == 0 && ListedQuizCount(after, created.id) == 1
  {
  }

  /** The badge read from the listed quizzes follows every quiz change:
      one more after a creation, and the lesson's own count minus the
      removed ones after a deletion. */
  lemma ListedCountFollowsChanges(p: Page, lessonId: string, q: Quiz, quizId: string)
    ensures ListedQuizCount(CreateQuiz(p, lessonId, Ui.Ok(q)).page, lessonId) == ListedQuizCount(p, lessonId) + 1
    ensures lessonId in p.quizzes ==>
      ListedQuizCount(DeleteQuiz(p, quizId, lessonId, Ui.Ok(())).page, lessonId) ==
        |RemoveQuiz(p.quizzes[lessonId], quizId)|
  {
  }

  /** `filter` keeps the other quizzes in their order and with their
      repetitions: removing from a concatenation removes from each part. */
  lemma {:induction false} RemoveQuizConcat(a: seq<Quiz>, b: seq<Quiz>, quizId: string)
    ensures RemoveQuiz(a + b, quizId) == RemoveQuiz(a, quizId) + RemoveQuiz(b, quizId)
    decreases |a|
  {
    if a == [] {
      assert a + b == b;
    } else {
      assert (a + b)[1..] == a[1..] + b;
      RemoveQuizConcat(a[1..], b, quizId);
    }
  }

  /** A quiz whose id is not the removed one stays, in place among the
      others: the list is what comes before it, the quiz, and what follows,
      each filtered. */
  lemma RemoveQuizKeepsOthers(qs: seq<Quiz>, i: int, quizId: string)
    requires 0 <= i < |qs| && qs[i].id != quizId
    ensures RemoveQuiz(qs, quizId) == RemoveQuiz(qs[..i], quizId) + [qs[i]] + RemoveQuiz(qs[i + 1..], quizId)
  {
    assert qs == qs[..i] + ([qs[i]] + qs[i + 1..]);
    RemoveQuizConcat(qs[..i], [qs[i]] + qs[i + 1..], quizId);
    RemoveQuizConcat([qs[i]], qs[i + 1..], quizId);
    assert ([qs[i]] + qs[i + 1..])[1..] == qs[i + 1..];
  }

  /** A successful update keeps the number of quizzes listed under every
      lesson, leaves the other lessons' lists and the other quizzes of the
      edited lesson as they were, and lists the server's quiz wherever the
      edited one was. */
  lemma UpdateKeepsOtherQuizzes(p: Page, quizId: string, updated: Quiz, lessonId: string)
    requires p.editingQuiz.Some? && p.editingQuiz.value.lesson in p.quizzes
    ensures var after := UpdateQuiz(p, quizId, Ui.Ok(updated)).page;
      ListedQuizCount(after, lessonId) == ListedQuizCount(p, lessonId) &&
      after.quizzes.Keys == p.quizzes.Keys &&
      (lessonId != p.editingQuiz.value.lesson && lessonId in p.quizzes ==> after.quizzes[lessonId] == p.quizzes[lessonId]) &&
      (forall k :: 0 <= k < |p.quizzes[p.editingQuiz.value.lesson]| ==>
        after.quizzes[p.editingQuiz.value.lesson][k] ==
          if p.quizzes[p.editingQuiz.value.lesson][k].id == quizId then updated else p.quizzes[p.editingQuiz.value.lesson][k])
  {
  }

  /** As written, a question text typed in the editor and then cancelled is
      still in the listed quiz, and the editor opened on it again shows it. */
  lemma CancelKeepsTypedText(p: Page, lessonId: string, q: Quiz)
    requires lessonId in p.quizzes && p.quizzes[lessonId] == [q]
    requires q.questions == [Question("A", ["x", "y"], 0)]
    ensures var after := CancelEditAsWritten(p, lessonId, 0, [QuizForm.EditQuestion(0, QuizForm.QuestionText("B"))]);
      QuizForm.Init(Some(after.quizzes[lessonId][0])).questions[0].question == "B" &&
      QuizForm.Init(Some(p.quizzes[lessonId][0])).questions[0].question == "A"
  {
    var steps := [QuizForm.EditQuestion(0, QuizForm.QuestionText("B"))];
    var f0 := QuizForm.Init(Some(q));
    var f1 := QuizForm.ChangeQuestion(f0, 0, QuizForm.QuestionText("B"));
    assert QuizForm.Run(f0, steps) == QuizForm.Run(f1, []);
  }

  /** The written cancel agrees with the intended one exactly when the run
      left the quiz's own questions as they were; in particular a run that
      edits no question leaves the page as the intended cancel does. */
  lemma CancelAgreesIffQuestionsKept(p: Page, lessonId: string, i: nat, steps: seq<QuizForm.Step>)
    requires lessonId in p.quizzes && i < |p.quizzes[lessonId]|
    ensures var q := p.quizzes[lessonId][i];
      CancelEditAsWritten(p, lessonId, i, steps) == CancelEdit(p) <==>
        EditorAfter(p, lessonId, i, steps).questions[..|q.questions|] == q.questions
    ensures (forall k :: 0 <= k < |steps| ==> !steps[k].EditQuestion?) ==>
      CancelEditAsWritten(p, lessonId, i, steps) == CancelEdit(p)
  {
    var q := p.quizzes[lessonId][i];
    var f := EditorAfter(p, lessonId, i, steps);
    var shared := q.(questions := f.questions[..|q.questions|]);
    if f.questions[..|q.questions|] == q.questions {
      assert shared == q;
      assert p.quizzes[lessonId][i := shared] == p.quizzes[lessonId];
      assert p.quizzes[lessonId := p.quizzes[lessonId]] == p.quizzes;
    } else {
      var r := CancelEditAsWritten(p, lessonId, i, steps);
      assert r.quizzes[lessonId][i] == shared != q;
    }
  }

  /** After the intended cancel the editor opens again on the quiz as it was
      listed before, whatever was typed. */
  lemma CancelDiscardsEdits(p: Page, lessonId: string, i: nat)
    requires lessonId in p.quizzes && i < |p.quizzes[lessonId]|
    ensures lessonId in CancelEdit(p).quizzes && i < |CancelEdit(p).quizzes[lessonId]|
    ensures QuizForm.Init(Some(CancelEdit(p).quizzes[lessonId][i])) == QuizForm.Init(Some(p.quizzes[lessonId][i]))
  {
  }
}
