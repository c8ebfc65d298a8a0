/** The instructor's lesson page: creating a lesson, then uploading videos
    to it, each step behind its own chain of checks. */
module CreateLesson {
  import opened Common
  import opened Domain
  import Ui

  /** The video form; `duration` is the text of its field and `url` the
      picked file. */
  datatype VideoForm = VideoForm(title: string, duration: string, url: Option<File>)

  const EmptyVideo := VideoForm("", "", None)

  /** The page: the lesson title field, the video form, and the lesson the
      videos go to once one was created. */
  datatype Page = Page(lessonTitle: string, video: VideoForm, currentLessonId: Option<string>)

  const Initial := Page("", EmptyVideo, None)

  /** The create-lesson reply body, read two ways by the two lesson pages:
      its own `_id`, and the `_id` of the `newLesson` it wraps, each absent
      when missing. */
  datatype LessonReply = LessonReply(id: Option<string>, newLessonId: Option<string>)

  /** What an upload sends. */
  datatype VideoRequest = VideoRequest(title: string, duration: string, file: File, lesson: string)

  datatype Outcome = Outcome(page: Page, requested: bool, toasts: seq<Ui.Toast>)
  datatype Upload = Upload(page: Page, request: Option<VideoRequest>, toasts: seq<Ui.Toast>)

  // ---------------------------------------------------------------- inputs

  /** A field of the page, with its new value. */
  datatype Input = LessonTitle(text: string) | VideoTitle(text: string) | Duration(text: string)

  /** `handleLessonInputChange` and `handleVideoInputChange` */
  function ChangeInput(p: Page, input: Input): (r: Page)
    ensures input.LessonTitle? ==> r == p.(lessonTitle := input.text)
    ensures input.VideoTitle? ==> r == p.(video := p.video.(title := input.text))
    ensures input.Duration? ==> r == p.(video := p.video.(duration := input.text))
  {
    match input
    case LessonTitle(t) => p.(lessonTitle := t)
    case VideoTitle(t) => p.(video := p.video.(title := t))
    case Duration(d) => p.(video := p.video.(duration := d))
  }

  /** `handleVideoFileChange`: any picked file is taken, unchecked. */
  function PickFile(p: Page, file: Option<File>): (r: Page)
    ensures file.None? ==> r == p
    ensures file.Some? ==> r == p.(video := p.video.(url := file))
  {
    if file.Some? then p.(video := p.video.(url := file)) else p
  }

  // ---------------------------------------------------------------- lessons

  /** `handleCreateLesson` around the id it takes from the reply: a blank
      title is refused without a request; a created lesson becomes the
      target of the uploads and the title field is cleared. */
  function CreateWith(p: Page, reply: Ui.Response<LessonReply>, read: LessonReply -> Option<string>): (r: Outcome)
    ensures r.requested <==> !IsBlank(p.lessonTitle)
    ensures !r.requested ==> r.page == p && r.toasts == [Ui.Failure("Please enter a lesson title")]
    ensures r.requested && reply.Ok? ==>
      r.page == p.(lessonTitle := "", currentLessonId := read(reply.body)) &&
      r.toasts == [Ui.Success("Lesson created successfully!")]
    ensures r.requested && reply.Err? ==>
      r.page == p && r.toasts == [Ui.Failure(MessageOr(reply.error.responseMessage, "Failed to create lesson"))]
  {
    TrimEmptyIffBlank(p.lessonTitle);
    if Trim(p.lessonTitle) == "" then Outcome(p, false, [Ui.Failure("Please enter a lesson title")])
    else match reply
      case Ok(body) => Outcome(p.(lessonTitle := "", currentLessonId := read(body)), true, [Ui.Success("Lesson created successfully!")])
      case Err(e) => Outcome(p, true, [Ui.Failure(MessageOr(e.responseMessage, "Failed to create lesson"))])
  }

  /** The page as written: the new lesson's id is the reply's own `_id`. */
  function CreateLessonAsWritten(p: Page, reply: Ui.Response<LessonReply>): (r: Outcome)
    ensures r.requested && reply.Ok? ==> r.page.currentLessonId == reply.body.id
  {
    CreateWith(p, reply, (b: LessonReply) => b.id)
  }

  /** The lesson id read where the lesson-management page reads it from
      the same request's reply: inside `newLesson`. */
  function CreateLesson(p: Page, reply: Ui.Response<LessonReply>): (r: Outcome)
    ensures r.requested && reply.Ok? ==> r.page.currentLessonId == reply.body.newLessonId
  {
    CreateWith(p, reply, (b: LessonReply) => b.newLessonId)
  }

  // ---------------------------------------------------------------- videos

  /** The upload checks, in the order `handleAddVideo` makes them. */
  datatype Check = NoLesson | TitleMissing | DurationMissing | FileMissing

  function Message(c: Check): string {
    match c
    case NoLesson => "Please create a lesson first"
    case TitleMissing => "Please enter a video title"
    case DurationMissing => "Please enter video duration"
    case FileMissing => "Please select a video file"
  }

  /** Every check the page fails, in order, a text counting as missing when
      it is all white space. */
  function Failing(p: Page): seq<Check> {
    (if !Truthy(p.currentLessonId) then [NoLesson] else []) +
    (if IsBlank(p.video.title) then [TitleMissing] else []) +
    (if IsBlank(p.video.duration) then [DurationMissing] else []) +
    (if p.video.url.None? then [FileMissing] else [])
  }

  /** The first failing check of `handleAddVideo`. */
  function FirstProblem(p: Page): Option<Check> {
    if !Truthy(p.currentLessonId) then Some(NoLesson)
    else if Trim(p.video.title) == "" then Some(TitleMissing)
    else if Trim(p.video.duration) == "" then Some(DurationMissing)
    else if p.video.url.None? then Some(FileMissing)
    else None
  }

  /** `handleAddVideo`: the first failing check is reported and nothing is
      sent; otherwise the video goes to the current lesson, and a success
      empties the video form for the next one. */
  function AddVideo(p: Page, reply: Ui.Response<()>): (r: Upload)
    ensures r.request.Some? <==> Failing(p) == []
    ensures r.request.None? ==> r.page == p && r.toasts == [Ui.Failure(Message(Failing(p)[0]))]
    ensures r.request.Some? ==>
      r.request.value == VideoRequest(p.video.title, p.video.duration, p.video.url.value, p.currentLessonId.value)
    ensures r.request.Some? && reply.Ok? ==>
      r.page == p.(video := EmptyVideo) && r.toasts == [Ui.Success("Video added successfully!")]
    ensures r.request.Some? && reply.Err? ==>
      r.page == p && r.toasts == [Ui.Failure(MessageOr(reply.error.responseMessage, "Failed to add video"))]
  {
    FirstProblemIsFirst(p);
    match FirstProblem(p)
    case Some(check) => Upload(p, None, [Ui.Failure(Message(check))])
    case None =>
      var request := VideoRequest(p.video.title, p.video.duration, p.video.url.value, p.currentLessonId.value);
      match reply
      case Ok(_) => Upload(p.(video := EmptyVideo), Some(request), [Ui.Success("Video added successfully!")])
      case Err(e) => Upload(p, Some(request), [Ui.Failure(MessageOr(e.responseMessage, "Failed to add video"))])
  }

  // ---------------------------------------------------------------- properties

  /** The chain reports the first entry of the full list of failing
      checks, and passes exactly when there is none. */
  lemma FirstProblemIsFirst(p: Page)
    ensures FirstProblem(p).None? <==> Failing(p) == []
    ensures FirstProblem(p).Some? ==> Failing(p) != [] && FirstProblem(p).value == Failing(p)[0]
  {
    TrimEmptyIffBlank(p.video.title);
    TrimEmptyIffBlank(p.video.duration);
    FirstOfChecks(!Truthy(p.currentLessonId), IsBlank(p.video.title), IsBlank(p.video.duration), p.video.url.None?);
  }

  /** The list of failing checks is empty exactly when no check fails, and
      otherwise starts with the first one that does. */
  lemma FirstOfChecks(lesson: bool, title: bool, duration: bool, file: bool)
    ensures var s := (if lesson then [NoLesson] else []) + (if title then [TitleMissing] else []) +
        (if duration then [DurationMissing] else []) + (if file then [FileMissing] else []);
      (s == [] <==> !lesson && !title && !duration && !file) &&
      (s != [] ==> s[0] == if lesson then NoLesson else if title then TitleMissing
        else if duration then DurationMissing else FileMissing)
  {
  }

  /** Before any lesson exists every upload is refused for that reason,
      whatever the video form holds. */
  lemma NoUploadBeforeLesson(video: VideoForm, reply: Ui.Response<()>)
    ensures AddVideo(Initial.(video := video), reply).toasts == [Ui.Failure("Please create a lesson first")]
    ensures AddVideo(Initial.(video := video), reply).request.None?
  {
    FirstProblemIsFirst(Initial.(video := video));
  }

  /** After an upload the same lesson stays the target, but the form must
      be filled again: the next upload is refused for its title. */
  lemma UploadKeepsLessonClearsForm(p: Page, reply: Ui.Response<()>)
    requires Failing(p) == []
    ensures var q := AddVideo(p, Ui.Ok(())).page;
      q.currentLessonId == p.currentLessonId && AddVideo(q, reply).toasts == [Ui.Failure("Please enter a video title")]
  {
    var q := p.(video := EmptyVideo);
    assert AddVideo(p, Ui.Ok(())).page == q;
    assert Truthy(q.currentLessonId) && IsBlank(q.video.title);
    FirstOfChecks(!Truthy(q.currentLessonId), IsBlank(q.video.title), IsBlank(q.video.duration), q.video.url.None?);
  }

  /** The page as written, given the reply the lesson-management page
      reads (the lesson inside `newLesson`, no top-level `_id`), never has a
      lesson to upload to: every upload is refused. */
  lemma AsWrittenLosesLesson(p: Page, lessonId: string, video: VideoForm, reply: Ui.Response<()>)
    requires !IsBlank(p.lessonTitle) && p.currentLessonId.None?
    ensures var created := CreateLessonAsWritten(p, Ui.Ok(LessonReply(None, Some(lessonId)))).page;
      AddVideo(created.(video := video), reply).toasts == [Ui.Failure("Please create a lesson first")]
  {
    var created := CreateLessonAsWritten(p, Ui.Ok(LessonReply(None, Some(lessonId)))).page;
    FirstProblemIsFirst(created.(video := video));
  }

  /** Reading the id where the other page reads it, a complete video form
      is sent to the created lesson. */
  lemma CreatedLessonReceivesVideos(p: Page, lessonId: string, video: VideoForm, other: Option<string>)
    requires !IsBlank(p.lessonTitle) && lessonId != ""
    requires !IsBlank(video.title) && !IsBlank(video.duration) && video.url.Some?
    ensures var created := CreateLesson(p, Ui.Ok(LessonReply(other, Some(lessonId)))).page;
      var up := AddVideo(created.(video := video), Ui.Ok(()));
      up.request.Some? && up.request.value.lesson == lessonId
  {
  }
}
