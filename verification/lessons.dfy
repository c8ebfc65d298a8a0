/** Lessons (the server's "sections") and their videos, as the course
    detail, enrolled-course and lesson-management pages read them, with the
    counts those pages derive and the expand/collapse state of their
    section lists. */
module Lessons {
  import opened Common

  /** A video; `duration` is absent when the server sent none. */
  datatype Video = Video(id: string, title: string, url: string, duration: Option<int>)

  /** A lesson; `videoDetails` is absent when the server sent no list, and
      `quiz` holds the ids of the lesson's quizzes as the server stored them,
      absent likewise. */
  datatype Lesson = Lesson(id: string, title: string, videoDetails: Option<seq<Video>>, quiz: Option<seq<string>>)

  /** `lesson.videoDetails || []` */
  function Videos(l: Lesson): (vs: seq<Video>)
    ensures l.videoDetails.Some? ==> vs == l.videoDetails.value
    ensures l.videoDetails.None? ==> vs == []
  {
    match l.videoDetails
    case Some(vs) => vs
    case None => []
  }

  /** `lesson.videoDetails?.length || 0`, added up over the lessons. */
  function TotalVideos(lessons: seq<Lesson>): nat {
    if lessons == [] then 0 else |Videos(lessons[0])| + TotalVideos(lessons[1..])
  }

  /** `video.duration || 0` */
  function DurationOf(v: Video): int {
    match v.duration
    case Some(d) => d
    case None => 0
  }

  function VideosDuration(vs: seq<Video>): int {
    if vs == [] then 0 else DurationOf(vs[0]) + VideosDuration(vs[1..])
  }

  /** The running time of all lessons, a missing duration or video list
      counting 0. */
  function TotalDuration(lessons: seq<Lesson>): int {
    if lessons == [] then 0 else VideosDuration(Videos(lessons[0])) + TotalDuration(lessons[1..])
  }

  // ---------------------------------------------------------------- sections

  /** Which sections are open, keyed by lesson id; a missing key is closed. */
  type Expanded = map<string, bool>

  predicate IsExpanded(m: Expanded, id: string) {
    id in m && m[id]
  }

  /** The state after loading: only the first lesson is open. */
  function InitialExpanded(lessons: seq<Lesson>): (m: Expanded)
    ensures forall id :: IsExpanded(m, id) <==> |lessons| > 0 && id == lessons[0].id
  {
    if |lessons| > 0 then map[lessons[0].id := true] else map[]
  }

  /** `toggleSection(id)`: `[id]: !prev[id]`. */
  function Toggle(m: Expanded, id: string): (r: Expanded)
    ensures IsExpanded(r, id) <==> !IsExpanded(m, id)
    ensures forall k :: k != id ==> (IsExpanded(r, k) <==> IsExpanded(m, k))
  {
    m[id := !IsExpanded(m, id)]
  }

  // ---------------------------------------------------------------- properties

  lemma {:induction false} TotalVideosAppend(a: seq<Lesson>, b: seq<Lesson>)
    ensures TotalVideos(a + b) == TotalVideos(a) + TotalVideos(b)
  {
    if a == [] {
      assert a + b == b;
    } else {
      assert (a + b)[0] == a[0];
      assert (a + b)[1..] == a[1..] + b;
      TotalVideosAppend(a[1..], b);
    }
  }

  /** Lessons without a video list add nothing to the video count. */
  lemma {:induction false} MissingListsCountZero(lessons: seq<Lesson>, bare: Lesson)
    requires bare.videoDetails.None?
    ensures TotalVideos(lessons + [bare]) == TotalVideos(lessons)
  {
    TotalVideosAppend(lessons, [bare]);
  }

  /** Toggling a section twice restores whether it is open. */
  lemma ToggleTwice(m: Expanded, id: string, k: string)
    ensures IsExpanded(Toggle(Toggle(m, id), id), k) <==> IsExpanded(m, k)
  {
  }
}
