/** The instructor's new-course form: the thumbnail picker's checks and
    the ordered checks of the submit button before it sends the course. */
module CreateCourse {
  import opened Common
  import opened Domain
  import Ui

  /** The form. `price` is the number field, absent while it is empty;
      `category` is the chosen category id, "" before a choice. */
  datatype Form = Form(
    title: string,
    description: string,
    price: Option<int>,
    thumbnail: Option<File>,
    category: string,
    courseType: string,
    rating: int,
    videos: seq<string>)

  const Initial := Form("", "", None, None, "", "premium", 0, [])

  /** What the create request carries. `instructor` is the signed-in user's
      id, absent without a user. */
  datatype CourseRequest = CourseRequest(
    title: string,
    description: string,
    price: int,
    category: string,
    thumbnail: File,
    courseType: string,
    rating: int,
    videos: seq<string>,
    instructor: Option<string>)

  /** A field of the form, with the value typed or chosen. */
  datatype Input =
    | TitleInput(title: string)
    | DescriptionInput(description: string)
    | PriceInput(price: Option<int>)
    | CategoryInput(category: string)

  /** `handleInputChange`: the named field takes the value. */
  function ChangeInput(f: Form, input: Input): (r: Form)
    ensures input.TitleInput? ==> r == f.(title := input.title)
    ensures input.DescriptionInput? ==> r == f.(description := input.description)
    ensures input.PriceInput? ==> r == f.(price := input.price)
    ensures input.CategoryInput? ==> r == f.(category := input.category)
  {
    match input
    case TitleInput(t) => f.(title := t)
    case DescriptionInput(d) => f.(description := d)
    case PriceInput(p) => f.(price := p)
    case CategoryInput(c) => f.(category := c)
  }

  /** `handleFileChange`: no file does nothing; a file the image check
      refuses leaves the form as it was and shows the check's message; an
      accepted file becomes the thumbnail and nothing else changes. */
  function PickThumbnail(f: Form, file: Option<File>): (r: (Form, seq<Ui.Toast>))
    ensures file.None? ==> r == (f, [])
    ensures file.Some? && CheckImage(file.value).Some? ==> r == (f, [Ui.Failure(CheckImage(file.value).value)])
    ensures file.Some? && CheckImage(file.value).None? ==> r.0 == f.(thumbnail := file) && r.1 == []
  {
    match file
    case None => (f, [])
    case Some(x) =>
      match CheckImage(x)
      case Some(message) => (f, [Ui.Failure(message)])
      case None => (f.(thumbnail := file), [])
  }

  /** `!formData.price || formData.price <= 0` fails. */
  predicate ValidPrice(price: Option<int>) {
    price.Some? && price.value > 0
  }

  /** The submit checks, in the order `handleSubmit` makes them. */
  datatype Check = TitleMissing | DescriptionMissing | PriceInvalid | CategoryMissing | ThumbnailMissing

  function Message(c: Check): string {
    match c
    case TitleMissing => "Please enter a course title"
    case DescriptionMissing => "Please enter a course description"
    case PriceInvalid => "Please enter a valid price"
    case CategoryMissing => "Please select a category"
    case ThumbnailMissing => "Please upload a course thumbnail"
  }

  /** Every check the form fails, in order, a text counting as missing
      when it is all white space. */
  function Failing(f: Form): seq<Check> {
    (if IsBlank(f.title) then [TitleMissing] else []) +
    (if IsBlank(f.description) then [DescriptionMissing] else []) +
    (if !ValidPrice(f.price) then [PriceInvalid] else []) +
    (if f.category == "" then [CategoryMissing] else []) +
    (if f.thumbnail.None? then [ThumbnailMissing] else [])
  }

  datatype Submitted = Submitted(
    request: Option<CourseRequest>,
    navigation: Option<Ui.Navigation>,
    toasts: seq<Ui.Toast>)

  /** The first failing check of `handleSubmit`, in its order. */
  function FirstProblem(f: Form): Option<Check> {
    if Trim(f.title) == "" then Some(TitleMissing)
    else if Trim(f.description) == "" then Some(DescriptionMissing)
    else if !ValidPrice(f.price) then Some(PriceInvalid)
    else if f.category == "" then Some(CategoryMissing)
    else if f.thumbnail.None? then Some(ThumbnailMissing)
    else None
  }

  /** `handleSubmit`: the first failing check is reported and nothing is
      sent. Otherwise the create thunk is dispatched (`reply` is its
      outcome): success goes to the instructor's course list, failure
      reports the rejection's message. */
  function Submit(f: Form, userId: Option<string>, reply: Settled<Course>): (r: Submitted)
    ensures r.request.Some? <==> Failing(f) == []
    ensures r.request.None? ==> r.navigation.None? && r.toasts == [Ui.Failure(Message(Failing(f)[0]))]
    ensures r.request.Some? ==> r.request.value == CourseRequest(
      f.title, f.description, f.price.value, f.category, f.thumbnail.value, f.courseType, f.rating, f.videos, userId)
    ensures r.request.Some? && reply.Fulfilled? ==>
      r.navigation == Some(Ui.To("/instructor/courses")) && r.toasts == [Ui.Success("Course created successfully!")]
    ensures r.request.Some? && reply.Rejected? ==>
      r.navigation.None? && r.toasts == [Ui.Failure(MessageOr(reply.message, "Failed to create course"))]
  {
    FirstProblemIsFirst(f);
    match FirstProblem(f)
    case Some(check) => Submitted(None, None, [Ui.Failure(Message(check))])
    case None =>
      var request := CourseRequest(
        f.title, f.description, f.price.value, f.category, f.thumbnail.value, f.courseType, f.rating, f.videos, userId);
      match reply
      case Fulfilled(_) => Submitted(Some(request), Some(Ui.To("/instructor/courses")), [Ui.Success("Course created successfully!")])
      case Rejected(m) => Submitted(Some(request), None, [Ui.Failure(MessageOr(m, "Failed to create course"))])
  }

  // ---------------------------------------------------------------- properties

  /** The chain of checks reports the first entry of the full list of
      problems, and passes exactly when there is none. */
  lemma FirstProblemIsFirst(f: Form)
    ensures FirstProblem(f).None? <==> Failing(f) == []
    ensures FirstProblem(f).Some? ==> Failing(f) != [] && FirstProblem(f).value == Failing(f)[0]
  {
    TrimEmptyIffBlank(f.title);
    TrimEmptyIffBlank(f.description);
    FirstOfChecks(IsBlank(f.title), IsBlank(f.description), !ValidPrice(f.price), f.category == "", f.thumbnail.None?);
  }

  /** The list of failing checks is empty exactly when no check fails, and
      otherwise starts with the first one that does. */
  lemma FirstOfChecks(title: bool, description: bool, price: bool, category: bool, thumbnail: bool)
    ensures var s := (if title then [TitleMissing] else []) + (if description then [DescriptionMissing] else []) +
        (if price then [PriceInvalid] else []) + (if category then [CategoryMissing] else []) +
        (if thumbnail then [ThumbnailMissing] else []);
      (s == [] <==> !title && !description && !price && !category && !thumbnail) &&
      (s != [] ==> s[0] == if title then TitleMissing else if description then DescriptionMissing
        else if price then PriceInvalid else if category then CategoryMissing else ThumbnailMissing)
  {
  }

  /** A form whose title is blank is refused for it, whatever else it
      holds. */
  lemma BlankTitleRefused(f: Form, userId: Option<string>, reply: Settled<Course>)
    requires IsBlank(f.title)
    ensures Submit(f, userId, reply).toasts == [Ui.Failure("Please enter a course title")]
    ensures Submit(f, userId, reply).request.None?
  {
    assert Failing(f)[0] == TitleMissing;
  }

  /** The form as first shown is refused for its title. */
  lemma InitialFormRefused(userId: Option<string>, reply: Settled<Course>)
    ensures Submit(Initial, userId, reply).toasts == [Ui.Failure("Please enter a course title")]
    ensures Submit(Initial, userId, reply).request.None?
  {
    var f := Initial;
    assert IsBlank(f.title);
    BlankTitleRefused(f, userId, reply);
  }

  /** A price of zero or less is refused once title and description are
      filled, whatever else the form holds. */
  lemma NonPositivePriceRefused(f: Form, userId: Option<string>, reply: Settled<Course>)
    requires !IsBlank(f.title) && !IsBlank(f.description)
    requires f.price.Some? && f.price.value <= 0
    ensures Submit(f, userId, reply).toasts == [Ui.Failure("Please enter a valid price")]
  {
    FirstOfChecks(false, false, true, f.category == "", f.thumbnail.None?);
    assert Failing(f)[0] == PriceInvalid;
  }

  /** An accepted thumbnail settles the last check: a form complete but for
      its thumbnail is sent after one is picked. */
  lemma AcceptedThumbnailCompletes(f: Form, file: File)
    requires CheckImage(file).None?
    requires FirstProblem(f) == Some(ThumbnailMissing)
    ensures Failing(PickThumbnail(f, Some(file)).0) == []
  {
    TrimEmptyIffBlank(f.title);
    TrimEmptyIffBlank(f.description);
    FailingParts(PickThumbnail(f, Some(file)).0);
  }

  /** The list of failing checks, check by check. */
  lemma FailingParts(f: Form)
    ensures Failing(f) == [] <==>
      !IsBlank(f.title) && !IsBlank(f.description) && ValidPrice(f.price) && f.category != "" && f.thumbnail.Some?
  {
  }
}
