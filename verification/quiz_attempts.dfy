/** The quiz-attempt history: ten attempts per page, a result label and a
    badge colour per attempt, and first/previous/next/last controls. */
module QuizAttempts {
  import opened Common
  import Pagination

  const ItemsPerPage: nat := 10

  datatype Attempt = Attempt(quizTitle: string, totalQuestions: int, correctAnswers: int)

  datatype Grade = Passed | Average | Failed

  datatype Badge = Green | Yellow | Red

  /** The label, as the page writes it: equal counts pass, and otherwise
      at least half of the questions (a real division in the source) is
      average. */
  function Label(a: Attempt): Grade {
    if a.correctAnswers == a.totalQuestions then Passed
    else if a.correctAnswers as real >= a.totalQuestions as real / 2.0 then Average
    else Failed
  }

  /** The badge colour: a second copy of the same chain of tests. */
  function BadgeColour(a: Attempt): Badge {
    if a.correctAnswers == a.totalQuestions then Green
    else if a.correctAnswers as real >= a.totalQuestions as real / 2.0 then Yellow
    else Red
  }

  /** What the page shows. */
  datatype View = Spinner | ErrorText(message: string) | Table(attempts: seq<Attempt>)

  /** The page after its one fetch. `userId` is `user?._id`; without one no
      request is sent and `loading` keeps its initial `true`. `reply` is the
      outcome of the request. */
  function Load(userId: Option<string>, reply: Settled<seq<Attempt>>): (v: View)
    ensures !Truthy(userId) ==> v == Spinner
    ensures Truthy(userId) && reply.Fulfilled? ==> v == Table(reply.value)
    ensures Truthy(userId) && reply.Rejected? ==> v == ErrorText("Failed to fetch quiz attempts")
  {
    if !Truthy(userId) then Spinner
    else match reply
      case Fulfilled(list) => Table(list)
      case Rejected(_) => ErrorText("Failed to fetch quiz attempts")
  }

  /** `quizAttempts.slice(startIndex, endIndex)` */
  function CurrentAttempts(attempts: seq<Attempt>, currentPage: int): (r: seq<Attempt>)
    ensures |r| <= ItemsPerPage
    ensures currentPage >= 1 ==> forall k :: 0 <= k < |r| ==>
      (currentPage - 1) * ItemsPerPage + k < |attempts| && r[k] == attempts[(currentPage - 1) * ItemsPerPage + k]
  {
    Pagination.PageItems(attempts, currentPage, ItemsPerPage);
    Pagination.JsSlice(attempts, (currentPage - 1) * ItemsPerPage, (currentPage - 1) * ItemsPerPage + ItemsPerPage)
  }

  function TotalPages(attempts: seq<Attempt>): (r: nat)
    ensures r * ItemsPerPage >= |attempts|
    ensures r > 0 ==> (r - 1) * ItemsPerPage < |attempts|
  {
    Pagination.PageCount(|attempts|, ItemsPerPage)
  }

  /** The four buttons: where each leads, and whether it is disabled. */
  datatype Button = Button(target: int, disabled: bool)

  datatype Controls = Hidden | Shown(first: Button, prev: Button, next: Button, last: Button)

  function PageControls(currentPage: int, totalPages: nat): (c: Controls)
    ensures c.Shown? <==> totalPages > 1
    ensures c.Shown? ==>
      c.first.target == 1 && c.prev.target == currentPage - 1 &&
      c.next.target == currentPage + 1 && c.last.target == totalPages
    ensures c.Shown? ==> (c.first.disabled <==> currentPage == 1) && (c.prev.disabled <==> currentPage == 1)
    ensures c.Shown? ==> (c.next.disabled <==> currentPage == totalPages) && (c.last.disabled <==> currentPage == totalPages)
  {
    if totalPages > 1 then
      Shown(
        Button(1, currentPage == 1), Button(currentPage - 1, currentPage == 1),
        Button(currentPage + 1, currentPage == totalPages), Button(totalPages, currentPage == totalPages))
    else Hidden
  }

  /** The targets of the enabled buttons. */
  function EnabledTargets(c: Controls): set<int> {
    match c
    case Hidden => {}
    case Shown(first, prev, next, last) =>
      (if first.disabled then {} else {first.target}) + (if prev.disabled then {} else {prev.target}) +
      (if next.disabled then {} else {next.target}) + (if last.disabled then {} else {last.target})
  }

  // ---------------------------------------------------------------- properties

  /** The label in whole numbers: "Passed" exactly when every question was
      answered right (0 of 0 included), "Average" exactly when it is not
      passed and twice the correct count reaches the total, "Failed"
      otherwise. */
  lemma LabelIntegerForm(a: Attempt)
    ensures Label(a) == Passed <==> a.correctAnswers == a.totalQuestions
    ensures Label(a) == Average <==> a.correctAnswers != a.totalQuestions && 2 * a.correctAnswers >= a.totalQuestions
    ensures Label(a) == Failed <==> a.correctAnswers != a.totalQuestions && 2 * a.correctAnswers < a.totalQuestions
  {
  }

  /** The badge and the label always tell the same story. */
  lemma BadgeMatchesLabel(a: Attempt)
    ensures BadgeColour(a) == Green <==> Label(a) == Passed
    ensures BadgeColour(a) == Yellow <==> Label(a) == Average
    ensures BadgeColour(a) == Red <==> Label(a) == Failed
  {
  }

  /** From any page between 1 and the last, every enabled button leads to a
      page between 1 and the last, so the controls never reach an empty page. */
  lemma ControlsStayInRange(currentPage: int, totalPages: nat)
    requires 1 <= currentPage <= totalPages
    ensures forall p :: p in EnabledTargets(PageControls(currentPage, totalPages)) ==> 1 <= p <= totalPages
  {
  }

  /** Every page the controls can reach holds at least one attempt, and the
      pages together list each attempt once, in order. */
  lemma ReachablePagesNonEmpty(attempts: seq<Attempt>, currentPage: int)
    requires 1 <= currentPage <= TotalPages(attempts)
    ensures forall p :: p in EnabledTargets(PageControls(currentPage, TotalPages(attempts))) ==>
      |CurrentAttempts(attempts, p)| > 0
    ensures Pagination.Pages(attempts, TotalPages(attempts), ItemsPerPage) == attempts
  {
    var n := TotalPages(attempts);
    ControlsStayInRange(currentPage, n);
    forall p | p in EnabledTargets(PageControls(currentPage, n))
      ensures |CurrentAttempts(attempts, p)| > 0
    {
      Pagination.PagesInRange(attempts, p, ItemsPerPage);
    }
    Pagination.PagesPartition(attempts, ItemsPerPage);
  }
}
