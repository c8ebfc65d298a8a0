/** The profile page: the edit form kept in step with the signed-in user,
    the picture picker's checks, and the update it sends. */
module Profile {
  import opened Common
  import opened Domain
  import Auth
  import Ui

  /** The form; `picture` is a newly picked file, absent until one is. */
  datatype Form = Form(firstName: string, lastName: string, email: string, picture: Option<File>)

  const EmptyForm := Form("", "", "", None)

  /** What the picture preview shows: a stored picture's address, or the
      contents of a picked file. */
  datatype Preview = Stored(url: string) | Picked(file: File)

  /** The page. `fetched` is the ref that marks the profile as requested. */
  datatype Page = Page(editing: bool, form: Form, preview: Option<Preview>, fetched: bool, toasts: seq<Ui.Toast>)

  const Initial := Page(false, EmptyForm, None, false, [])

  /** `value || ""` on a field of the user. */
  function OrEmpty(field: Option<string>): (r: string)
    ensures Truthy(field) ==> r == field.value
    ensures !Truthy(field) ==> r == ""
  {
    if field.Some? then field.value else ""
  }

  // ---------------------------------------------------------------- effects

  /** The fetch effect's guard as written: a user id, no fetch yet, and no
      user, the last contradicting the first. */
  predicate ShouldFetchAsWritten(p: Page, user: Option<Auth.User>) {
    user.Some? && user.value.id != "" && !p.fetched && user.None?
  }

  /** `user?._id` */
  function IdOf(user: Option<Auth.User>): (r: Option<string>)
    ensures r.Some? <==> user.Some?
    ensures r.Some? ==> r.value == user.value.id
  {
    if user.Some? then Some(user.value.id) else None
  }

  /** The fetch effect as written: when its guard holds it marks the page as
      fetched and requests the profile of `user?._id`. */
  function FetchEffectAsWritten(p: Page, user: Option<Auth.User>): (r: (Page, Option<string>))
    ensures r.1.Some? ==> r.0 == p.(fetched := true) && r.1 == IdOf(user)
    ensures r.1.None? ==> r.0 == p
  {
    if ShouldFetchAsWritten(p, user) then (p.(fetched := true), IdOf(user)) else (p, None)
  }

  /** The fetch effect without the contradicting conjunct: the profile of a
      signed-in user is requested once. */
  function FetchEffect(p: Page, user: Option<Auth.User>): (r: (Page, Option<string>))
    ensures r.1.Some? <==> user.Some? && user.value.id != "" && !p.fetched
    ensures r.1.Some? ==> r.0 == p.(fetched := true) && r.1.value == user.value.id
    ensures r.1.None? ==> r.0 == p
  {
    if user.Some? && user.value.id != "" && !p.fetched then (p.(fetched := true), Some(user.value.id))
    else (p, None)
  }

  /** The effect run whenever the user changes: with a user, the form is
      refilled from it (a missing field as "") and any picked file is
      dropped; a stored picture replaces the preview, whose old value stays
      otherwise. Without a user nothing changes. */
  function SyncForm(p: Page, user: Option<Auth.User>): (r: Page)
    ensures user.None? ==> r == p
    ensures user.Some? ==>
      r.form == Form(OrEmpty(user.value.firstName), OrEmpty(user.value.lastName), OrEmpty(user.value.email), None)
    ensures user.Some? && Truthy(user.value.profilePicture) ==> r.preview == Some(Stored(user.value.profilePicture.value))
    ensures user.Some? && !Truthy(user.value.profilePicture) ==> r.preview == p.preview
    ensures r.editing == p.editing && r.fetched == p.fetched && r.toasts == p.toasts
  {
    match user
    case None => p
    case Some(u) =>
      var form := Form(OrEmpty(u.firstName), OrEmpty(u.lastName), OrEmpty(u.email), None);
      if Truthy(u.profilePicture) then p.(form := form, preview := Some(Stored(u.profilePicture.value)))
      else p.(form := form)
  }

  // ---------------------------------------------------------------- inputs

  /** A text field of the form, with its new value. */
  datatype Input = FirstName(text: string) | LastName(text: string) | Email(text: string)

  /** `handleInputChange` */
  function ChangeInput(p: Page, input: Input): (r: Page)
    ensures input.FirstName? ==> r == p.(form := p.form.(firstName := input.text))
    ensures input.LastName? ==> r == p.(form := p.form.(lastName := input.text))
    ensures input.Email? ==> r == p.(form := p.form.(email := input.text))
  {
    match input
    case FirstName(t) => p.(form := p.form.(firstName := t))
    case LastName(t) => p.(form := p.form.(lastName := t))
    case Email(t) => p.(form := p.form.(email := t))
  }

  /** `handleFileChange`: no file does nothing; a file the image check
      refuses only shows the check's message; an accepted file becomes the
      picture to send and the preview. */
  function PickPicture(p: Page, file: Option<File>): (r: Page)
    ensures file.None? ==> r == p
    ensures file.Some? && CheckImage(file.value).Some? ==>
      r == p.(toasts := p.toasts + [Ui.Failure(CheckImage(file.value).value)])
    ensures file.Some? && CheckImage(file.value).None? ==>
      r == p.(form := p.form.(picture := file), preview := Some(Picked(file.value)))
  {
    match file
    case None => p
    case Some(f) =>
      match CheckImage(f)
      case Some(message) => p.(toasts := p.toasts + [Ui.Failure(message)])
      case None => p.(form := p.form.(picture := file), preview := Some(Picked(f)))
  }

  /** The edit button flips editing and touches nothing else, so the form
      keeps what was typed across a cancel. */
  function ToggleEditing(p: Page): (r: Page)
    ensures r.editing != p.editing
    ensures r.form == p.form && r.preview == p.preview && r.fetched == p.fetched && r.toasts == p.toasts
  {
    p.(editing := !p.editing)
  }

  // ---------------------------------------------------------------- submit

  /** The multipart body of the update: the three text fields, and the
      picture only when one was picked. */
  datatype ProfileData = ProfileData(userId: string, firstName: string, lastName: string, email: string, picture: Option<File>)

  datatype Submitted = Submitted(page: Page, request: ProfileData, auth: Option<Auth.Event>)

  /** `handleSubmit` for the signed-in `user`, with the update thunk's
      outcome `reply` (the updated user): the form is sent as it is. On
      success the returned user goes to the auth slice, editing ends, the
      preview shows the returned picture and the picked file is dropped;
      on failure only the message is shown. The auth slice's `updateUser`
      rewrites the picture of the object it is handed in place, and the
      preview is read from that object after the dispatch, so it shows the
      server address of the picture, not the path the server returned. */
  function Submit(p: Page, user: Auth.User, reply: Settled<Auth.User>): (r: Submitted)
    ensures r.request == ProfileData(user.id, p.form.firstName, p.form.lastName, p.form.email, p.form.picture)
    ensures reply.Fulfilled? ==>
      r.auth == Some(Auth.UpdateUser(reply.value)) && !r.page.editing && r.page.form == p.form.(picture := None) &&
      r.page.toasts == p.toasts + [Ui.Success("Profile updated successfully!")]
    ensures reply.Fulfilled? && Truthy(reply.value.profilePicture) ==> r.page.preview == Some(Stored(Auth.PictureUrl(reply.value.profilePicture.value)))
    ensures reply.Fulfilled? && !Truthy(reply.value.profilePicture) ==> r.page.preview.None?
    ensures reply.Rejected? ==>
      r.auth.None? && r.page == p.(toasts := p.toasts + [Ui.Failure(MessageOr(reply.message, "Failed to update profile"))])
  {
    var request := ProfileData(user.id, p.form.firstName, p.form.lastName, p.form.email, p.form.picture);
    match reply
    case Fulfilled(u) =>
      var preview := if Truthy(u.profilePicture) then Some(Stored(Auth.PictureUrl(u.profilePicture.value))) else None;
      Submitted(
        p.(editing := false, form := p.form.(picture := None), preview := preview,
           toasts := p.toasts + [Ui.Success("Profile updated successfully!")]),
        request, Some(Auth.UpdateUser(u)))
    case Rejected(m) => Submitted(p.(toasts := p.toasts + [Ui.Failure(MessageOr(m, "Failed to update profile"))]), request, None)
  }

  // ---------------------------------------------------------------- properties

  /** As written the fetch effect never fires, whatever the page and the
      user: its guard asks for a user and for none. */
  lemma FetchNeverFires(p: Page, user: Option<Auth.User>)
    ensures FetchEffectAsWritten(p, user) == (p, None)
  {
  }

  /** Without the contradicting conjunct a signed-in user's profile is
      requested on the first run, and never again after. */
  lemma FetchFiresOnce(user: Auth.User, later: Option<Auth.User>)
    requires user.id != ""
    ensures FetchEffect(Initial, Some(user)).1 == Some(user.id)
    ensures FetchEffect(FetchEffect(Initial, Some(user)).0, later).1.None?
  {
  }

  /** A picture the image check accepts is the one sent; one it refuses
      leaves what would be sent as it was. */
  lemma PickedPictureSent(p: Page, file: File, user: Auth.User, reply: Settled<Auth.User>)
    ensures CheckImage(file).None? ==> Submit(PickPicture(p, Some(file)), user, reply).request.picture == Some(file)
    ensures CheckImage(file).Some? ==>
      Submit(PickPicture(p, Some(file)), user, reply).request == Submit(p, user, reply).request
  {
  }

  /** After a successful update, the auth slice taking the returned user and
      the form refilled from it, the form shows the returned names with no
      file pending, and the preview the returned picture as the auth slice
      rewrites it, or none. */
  lemma UpdateRoundTrip(p: Page, user: Auth.User, s: Auth.AuthState, returned: Auth.User)
    ensures var sent := Submit(p, user, Fulfilled(returned));
      var s' := Auth.Reduce(s, sent.auth.value);
      var q := SyncForm(sent.page, s'.user);
      q.form == Form(OrEmpty(returned.firstName), OrEmpty(returned.lastName), OrEmpty(returned.email), None) &&
      !q.editing &&
      (Truthy(returned.profilePicture) ==> q.preview == Some(Stored(Auth.PictureUrl(returned.profilePicture.value)))) &&
      (!Truthy(returned.profilePicture) ==> q.preview.None?)
  {
    var sent := Submit(p, user, Fulfilled(returned));
    var u := Auth.RewritePicture(returned);
    assert Auth.Reduce(s, sent.auth.value).user == Some(u);
  }

  /** The preview a successful update leaves is the picture of the user the
      auth slice then holds, whatever the slice held before. */
  lemma PreviewIsSessionPicture(p: Page, user: Auth.User, s: Auth.AuthState, returned: Auth.User)
    ensures var sent := Submit(p, user, Fulfilled(returned));
      var held := Auth.Reduce(s, sent.auth.value).user;
      held.Some? &&
      (Truthy(returned.profilePicture) ==> sent.page.preview == Some(Stored(held.value.profilePicture.value))) &&
      (!Truthy(held.value.profilePicture) ==> sent.page.preview.None?)
  {
  }

  /** Submitting the form as refilled from a user sends that user's fields
      back unchanged (missing ones as ""). */
  lemma SyncedFormResends(p: Page, user: Auth.User, reply: Settled<Auth.User>)
    ensures Submit(SyncForm(p, Some(user)), user, reply).request ==
      ProfileData(user.id, OrEmpty(user.firstName), OrEmpty(user.lastName), OrEmpty(user.email), None)
  {
  }
}
