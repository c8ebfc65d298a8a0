/** A course's own page: its lesson and running-time totals, the reviews and
    the review form, and the enroll and add-to-cart buttons. */
module CourseDetail {
  import opened Common
  import Domain
  import Cart
  import Auth
  import Ui
  import Lessons
  import CourseCard
  import CourseSlice

  /** The course as the page fetches it, with its lessons when the server
      sent them. */
  datatype Details = Details(course: Domain.Course, lessonDetails: Option<seq<Lessons.Lesson>>)

  // ---------------------------------------------------------------- totals

  /** A JavaScript number as far as these sums need: an integer, or NaN once
      `undefined` has been added in. */
  datatype Num = Num(n: int) | NaN

  /** Which total a fold computes. */
  datatype Measure = LessonCount | Duration

  /** What one section adds under `m` when it has a video list. */
  function SectionValue(m: Measure, vs: seq<Lessons.Video>): int {
    match m
    case LessonCount => |vs|
    case Duration => Lessons.VideosDuration(vs)
  }

  /** One step of the page's `reduce` over sections: a section without a
      video list adds `undefined`, which turns the sum into NaN for good. */
  function AddSection(m: Measure, acc: Num, l: Lessons.Lesson): Num {
    match l.videoDetails
    case None => NaN
    case Some(vs) => if acc.NaN? then NaN else Num(acc.n + SectionValue(m, vs))
  }

  function Fold(m: Measure, acc: Num, ls: seq<Lessons.Lesson>): Num
    decreases |ls|
  {
    if ls == [] then acc else Fold(m, AddSection(m, acc, ls[0]), ls[1..])
  }

  /** `sum || 0`: NaN (and 0) read as 0. */
  function OrZero(x: Num): int {
    match x
    case NaN => 0
    case Num(n) => n
  }

  /** `totalLessons` as the page computes it. */
  function TotalLessonsAsWritten(d: Details): int {
    match d.lessonDetails
    case None => 0
    case Some(ls) => OrZero(Fold(LessonCount, Num(0), ls))
  }

  /** `totalDuration` as the page computes it. */
  function TotalDurationAsWritten(d: Details): int {
    match d.lessonDetails
    case None => 0
    case Some(ls) => OrZero(Fold(Duration, Num(0), ls))
  }

  /** The lesson count with a missing video list counted as empty, as the
      enrolled-course and lesson-management pages count. */
  function TotalLessons(d: Details): (r: nat)
    ensures d.lessonDetails.None? ==> r == 0
  {
    match d.lessonDetails
    case None => 0
    case Some(ls) => Lessons.TotalVideos(ls)
  }

  function TotalDuration(d: Details): (r: int)
    ensures d.lessonDetails.None? ==> r == 0
  {
    match d.lessonDetails
    case None => 0
    case Some(ls) => Lessons.TotalDuration(ls)
  }

  predicate AllListed(ls: seq<Lessons.Lesson>) {
    forall i :: 0 <= i < |ls| ==> ls[i].videoDetails.Some?
  }

  /** The corrected total under `m`. */
  function Corrected(m: Measure, ls: seq<Lessons.Lesson>): int {
    match m
    case LessonCount => Lessons.TotalVideos(ls)
    case Duration => Lessons.TotalDuration(ls)
  }

  // ---------------------------------------------------------------- reviews

  /** A review as fetched: the author's `user.name` and the review's own
      `name`, each absent when missing. */
  datatype Review = Review(userName: Option<string>, name: Option<string>, rating: int, comment: string)

  datatype ShownReview = ShownReview(review: Review, displayName: string)

  /** `review.user?.name || review.name || "Anonymous"` */
  function DisplayName(r: Review): (s: string)
    ensures Truthy(r.userName) ==> s == r.userName.value
    ensures !Truthy(r.userName) && Truthy(r.name) ==> s == r.name.value
    ensures !Truthy(r.userName) && !Truthy(r.name) ==> s == "Anonymous"
  {
    MessageOr(r.userName, MessageOr(r.name, "Anonymous"))
  }

  function ShowReviews(rs: seq<Review>): (shown: seq<ShownReview>)
    ensures |shown| == |rs|
    ensures forall i :: 0 <= i < |rs| ==> shown[i] == ShownReview(rs[i], DisplayName(rs[i]))
  {
    seq(|rs|, i requires 0 <= i < |rs| => ShownReview(rs[i], DisplayName(rs[i])))
  }

  /** How string concatenation prints a field: a missing one as
      "undefined". */
  function Printed(s: Option<string>): string {
    match s
    case Some(v) => v
    case None => "undefined"
  }

  datatype ReviewForm = ReviewForm(reviews: seq<ShownReview>, rating: int, comment: string)

  /** The reply to a review submission: the created review and the
      response's `message`. */
  datatype ReviewReply = ReviewReply(review: Review, message: Option<string>)

  datatype Submitted = Submitted(form: ReviewForm, requested: bool, effects: Ui.Effects)

  /** `handleSubmitReview`. */
  function HandleSubmitReview(user: Option<Auth.User>, f: ReviewForm, pathname: string, reply: Settled<ReviewReply>): (r: Submitted)
    ensures r.requested <==> user.Some? && f.rating != 0
    ensures r.effects.dispatched == []
    ensures user.None? ==>
      r.form == f && r.effects == Ui.Effects([], Some(Ui.ToLogin(pathname)), [Ui.Failure("Please login to submit a review")])
    ensures user.Some? && f.rating == 0 ==> r.form == f && r.effects.toasts == [Ui.Failure("Please select a rating")]
    ensures r.requested && reply.Fulfilled? ==>
      r.form.rating == 0 && r.form.comment == "" &&
      r.form.reviews == f.reviews + [ShownReview(reply.value.review,
        Printed(user.value.firstName) + " " + Printed(user.value.lastName))] &&
      r.effects.toasts == [Ui.Success(MessageOr(reply.value.message, "Review submitted successfully!"))]
    ensures r.requested && reply.Rejected? ==>
      r.form == f && r.effects.toasts == [Ui.Failure(MessageOr(reply.message, "Failed to submit review"))]
  {
    if user.None? then
      Submitted(f, false, Ui.Effects([], Some(Ui.ToLogin(pathname)), [Ui.Failure("Please login to submit a review")]))
    else if f.rating == 0 then
      Submitted(f, false, Ui.Effects([], None, [Ui.Failure("Please select a rating")]))
    else match reply
      case Fulfilled(rep) =>
        var shown := ShownReview(rep.review, Printed(user.value.firstName) + " " + Printed(user.value.lastName));
        Submitted(ReviewForm(f.reviews + [shown], 0, ""), true,
          Ui.Effects([], None, [Ui.Success(MessageOr(rep.message, "Review submitted successfully!"))]))
      case Rejected(m) =>
        Submitted(f, true, Ui.Effects([], None, [Ui.Failure(MessageOr(m, "Failed to submit review"))]))
  }

  // ---------------------------------------------------------------- buttons

  /** `filteredCourses.some((course) => course._id === id)`: the page's test
      for "own course", which hides the buttons and the review form. */
  predicate IsOwnCourseAsWritten(filteredCourses: seq<Domain.Course>, id: string) {
    exists k :: 0 <= k < |filteredCourses| && filteredCourses[k].id == id
  }

  /** The test the card uses and the page's name promises: the signed-in user
      teaches the course. */
  predicate IsOwnCourse(user: Option<Auth.User>, c: Domain.Course) {
    CourseCard.IsOwnCourse(user, c)
  }

  /** `handleEnroll`: a signed-in user first gets a free (price 0) copy of the
      course in the cart unless it is there already, then the enrollment is
      requested with the page's `id`. */
  function HandleEnroll(
    user: Option<Auth.User>, cart: Cart.CartState, id: string, c: Domain.Course, pathname: string,
    enrollReply: Settled<()>): (r: Ui.Effects)
    ensures user.None? ==>
      r == Ui.Effects([], Some(Ui.ToLogin(pathname)), [Ui.Failure("Please login to enroll in the course")])
    ensures user.Some? && Cart.HasId(cart.items, id) ==> r.dispatched == [Ui.Enroll(id, user.value.id)]
    ensures user.Some? && !Cart.HasId(cart.items, id) ==>
      r.dispatched == [Ui.AddToCart(CourseCard.ItemOf(c, 0)), Ui.Enroll(id, user.value.id)]
    ensures user.Some? && enrollReply.Fulfilled? ==>
      r.navigation == Some(Ui.To("/enrolled-courses")) && r.toasts == [Ui.Success("Successfully enrolled in the course!")]
    ensures user.Some? && enrollReply.Rejected? ==>
      r.navigation.None? && r.toasts == [Ui.Failure(MessageOr(enrollReply.message, "Failed to enroll in the course"))]
  {
    if user.None? then
      Ui.Effects([], Some(Ui.ToLogin(pathname)), [Ui.Failure("Please login to enroll in the course")])
    else
      var add := if Cart.HasId(cart.items, id) then [] else [Ui.AddToCart(CourseCard.ItemOf(c, 0))];
      var ds := add + [Ui.Enroll(id, user.value.id)];
      match enrollReply
      case Fulfilled(_) => Ui.Effects(ds, Some(Ui.To("/enrolled-courses")), [Ui.Success("Successfully enrolled in the course!")])
      case Rejected(m) => Ui.Effects(ds, None, [Ui.Failure(MessageOr(m, "Failed to enroll in the course"))])
  }

  /** `handleAddToCart`: in the cart already, it only navigates there;
      otherwise it adds the course at its price and stays on the page. */
  function HandleAddToCart(user: Option<Auth.User>, cart: Cart.CartState, id: string, c: Domain.Course, pathname: string): (r: Ui.Effects)
    ensures user.None? ==>
      r == Ui.Effects([], Some(Ui.ToLogin(pathname)), [Ui.Failure("Please login to add course to cart")])
    ensures user.Some? && Cart.HasId(cart.items, id) ==> r == Ui.Effects([], Some(Ui.To("/cart")), [])
    ensures user.Some? && !Cart.HasId(cart.items, id) ==>
      r == Ui.Effects([Ui.AddToCart(CourseCard.ItemOf(c, c.price))], None, [Ui.Success("Course added to cart successfully!")])
  {
    if user.None? then Ui.Effects([], Some(Ui.ToLogin(pathname)), [Ui.Failure("Please login to add course to cart")])
    else if Cart.HasId(cart.items, id) then Ui.Effects([], Some(Ui.To("/cart")), [])
    else Ui.Effects([Ui.AddToCart(CourseCard.ItemOf(c, c.price))], None, [Ui.Success("Course added to cart successfully!")])
  }

  /** The page's one action button runs `handleEnroll` for a free course and
      `handleAddToCart` otherwise. */
  function Click(
    user: Option<Auth.User>, cart: Cart.CartState, id: string, c: Domain.Course, pathname: string,
    enrollReply: Settled<()>): (r: Ui.Effects)
    ensures c.courseType == "free" ==> r == HandleEnroll(user, cart, id, c, pathname, enrollReply)
    ensures c.courseType != "free" ==> r == HandleAddToCart(user, cart, id, c, pathname)
  {
    if c.courseType == "free" then HandleEnroll(user, cart, id, c, pathname, enrollReply)
    else HandleAddToCart(user, cart, id, c, pathname)
  }

  // ---------------------------------------------------------------- properties

  lemma {:induction false} FoldNaN(m: Measure, ls: seq<Lessons.Lesson>)
    ensures Fold(m, NaN, ls) == NaN
    decreases |ls|
  {
    if ls != [] {
      FoldNaN(m, ls[1..]);
    }
  }

  lemma {:induction false} CorrectedStep(m: Measure, ls: seq<Lessons.Lesson>)
    requires ls != [] && ls[0].videoDetails.Some?
    ensures Corrected(m, ls) == SectionValue(m, ls[0].videoDetails.value) + Corrected(m, ls[1..])
  {
  }

  /** When every section has a video list, the page's fold is the plain sum. */
  lemma {:induction false} FoldAllListed(m: Measure, acc: int, ls: seq<Lessons.Lesson>)
    requires AllListed(ls)
    ensures Fold(m, Num(acc), ls) == Num(acc + Corrected(m, ls))
    decreases |ls|
  {
    if ls != [] {
      CorrectedStep(m, ls);
      FoldAllListed(m, acc + SectionValue(m, ls[0].videoDetails.value), ls[1..]);
    }
  }

  /** One section without a video list anywhere turns the fold into NaN. */
  lemma {:induction false} FoldMissing(m: Measure, acc: Num, ls: seq<Lessons.Lesson>, k: int)
    requires 0 <= k < |ls| && ls[k].videoDetails.None?
    ensures Fold(m, acc, ls) == NaN
    decreases |ls|
  {
    if k == 0 {
      FoldNaN(m, ls[1..]);
    } else {
      FoldMissing(m, AddSection(m, acc, ls[0]), ls[1..], k - 1);
    }
  }

  /** As written, the totals are right exactly when every section has a video
      list, and collapse to 0 as soon as one section lacks it. */
  lemma TotalsAsWritten(d: Details)
    requires d.lessonDetails.Some?
    ensures AllListed(d.lessonDetails.value) ==>
      TotalLessonsAsWritten(d) == TotalLessons(d) && TotalDurationAsWritten(d) == TotalDuration(d)
    ensures !AllListed(d.lessonDetails.value) ==> TotalLessonsAsWritten(d) == 0 && TotalDurationAsWritten(d) == 0
  {
    var ls := d.lessonDetails.value;
    if AllListed(ls) {
      FoldAllListed(LessonCount, 0, ls);
      FoldAllListed(Duration, 0, ls);
    } else {
      var k :| 0 <= k < |ls| && ls[k].videoDetails.None?;
      FoldMissing(LessonCount, Num(0), ls, k);
      FoldMissing(Duration, Num(0), ls, k);
    }
  }

  /** The input that shows it: one section with a ten-second video and one
      section the server sent without a video list. The page shows 0
      lessons and 0 seconds; the intended totals are 1 and 10. */
  lemma MissingListZeroesTotals(c: Domain.Course)
    ensures var v := Lessons.Video("v1", "Intro", "intro.mp4", Some(10));
      var d := Details(c, Some([Lessons.Lesson("a", "Basics", Some([v]), None), Lessons.Lesson("b", "Next", None, None)]));
      TotalLessonsAsWritten(d) == 0 && TotalDurationAsWritten(d) == 0 &&
      TotalLessons(d) == 1 && TotalDuration(d) == 10
  {
    var v := Lessons.Video("v1", "Intro", "intro.mp4", Some(10));
    var ls := [Lessons.Lesson("a", "Basics", Some([v]), None), Lessons.Lesson("b", "Next", None, None)];
    TotalsAsWritten(Details(c, Some(ls)));
    assert ls[1..][1..] == [];
  }

  /** The corrected totals: a section without a video list adds nothing,
      and adding sections adds their counts. */
  lemma CorrectedTotalsAdd(c: Domain.Course, ls: seq<Lessons.Lesson>, more: seq<Lessons.Lesson>, bare: Lessons.Lesson)
    requires bare.videoDetails.None?
    ensures TotalLessons(Details(c, Some(ls + more))) == TotalLessons(Details(c, Some(ls))) + TotalLessons(Details(c, Some(more)))
    ensures TotalLessons(Details(c, Some(ls + [bare]))) == TotalLessons(Details(c, Some(ls)))
  {
    Lessons.TotalVideosAppend(ls, more);
    Lessons.MissingListsCountZero(ls, bare);
  }

  /** As written, any course the catalogue's last filter returned counts as
      "own": after a category filter that lists this course, a student who
      does not teach it sees no button and no review form. */
  lemma FilteredCourseHidesActions(s: CourseSlice.CourseState, list: seq<Domain.Course>, n: int, student: Auth.User, k: int)
    requires 0 <= k < |list| && student.id != list[k].instructor
    ensures var t := CourseSlice.Reduce(s, CourseSlice.CategoryFulfilled(list, n));
      IsOwnCourseAsWritten(t.filteredCourses, list[k].id) && !IsOwnCourse(Some(student), list[k])
  {
  }

  /** With the corrected test, a signed-in user who does not teach the course
      always gets the buttons, whatever the catalogue last showed, and the
      course's teacher never does. */
  lemma OwnCourseByInstructor(user: Auth.User, c: Domain.Course)
    ensures IsOwnCourse(Some(user), c) <==> user.id == c.instructor
    ensures !IsOwnCourse(None, c)
  {
  }

  /** A free course's enrollment puts a price-0 copy in the cart before the
      request, and that copy stays when the enrollment fails. */
  lemma FailedEnrollLeavesFreeCopy(user: Auth.User, cart: Cart.CartState, id: string, c: Domain.Course, pathname: string, m: Option<string>)
    requires c.courseType == "free" && c.id == id && !Cart.HasId(cart.items, id)
    ensures var r := Click(Some(user), cart, id, c, pathname, Rejected(m));
      var after := Ui.ApplyToCart(cart, r.dispatched);
      r.navigation.None? && |after.items| == |cart.items| + 1 && after.items[|cart.items|].price == 0 &&
      after.items[|cart.items|].id == id
  {
    var item := CourseCard.ItemOf(c, 0);
    var r := Click(Some(user), cart, id, c, pathname, Rejected(m));
    assert r.dispatched == [Ui.AddToCart(item), Ui.Enroll(id, user.id)];
    assert r.dispatched[1..] == [Ui.Enroll(id, user.id)];
    var added := Cart.Reduce(cart, Cart.AddToCart(item));
    assert Ui.ApplyToCart(added, [Ui.Enroll(id, user.id)]) == added;
    assert Ui.ApplyToCart(cart, r.dispatched) == added;
  }

  /** A review needs a rating: with none picked, nothing is sent and the form
      is kept as typed. */
  lemma RatingRequired(user: Auth.User, f: ReviewForm, pathname: string, reply: Settled<ReviewReply>)
    requires f.rating == 0
    ensures var r := HandleSubmitReview(Some(user), f, pathname, reply);
      !r.requested && r.form == f
  {
  }

  /** Adding a paid course to the cart keeps the cart's invariant and puts
      the course in it, and a second press of the button only goes to the
      cart. */
  lemma AddToCartTwice(user: Auth.User, cart: Cart.CartState, c: Domain.Course, pathname: string)
    requires Cart.Valid(cart)
    ensures var after := Ui.ApplyToCart(cart, HandleAddToCart(Some(user), cart, c.id, c, pathname).dispatched);
      Cart.HasId(after.items, c.id) && Cart.Valid(after) &&
      HandleAddToCart(Some(user), after, c.id, c, pathname) == Ui.Effects([], Some(Ui.To("/cart")), [])
  {
    if !Cart.HasId(cart.items, c.id) {
      Cart.AddValid(cart, CourseCard.ItemOf(c, c.price));
    }
  }
}
