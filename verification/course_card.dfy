/** A course's card in the listings: its picture, whether the action button
    shows, and what one click on the button does. */
module CourseCard {
  import opened Common
  import Domain
  import Cart
  import Auth
  import Ui

  const ServerPrefix := "https://learnify-server-s6fg.onrender.com/"
  const PlaceholderImage := "https://via.placeholder.com/400x225?text=No+Image"

  /** The card's picture: the server prefix and the thumbnail path with its
      backslashes turned into slashes, or the placeholder. */
  function ImageUrl(thumbnail: Option<string>): (r: string)
    ensures !Truthy(thumbnail) ==> r == PlaceholderImage
    ensures Truthy(thumbnail) ==> r == Auth.PictureUrl(thumbnail.value)
  {
    if Truthy(thumbnail) then ServerPrefix + SlashPath(thumbnail.value) else PlaceholderImage
  }

  /** `user?._id === instructor`: the signed-in user teaches this course. */
  predicate IsOwnCourse(user: Option<Auth.User>, c: Domain.Course) {
    user.Some? && user.value.id == c.instructor
  }

  /** The cart entry the card adds: the course's own fields and price. */
  function ItemOf(c: Domain.Course, price: int): (item: Cart.CartItem)
    ensures item.id == c.id && item.title == c.title && item.price == price
    ensures item.thumbnail == c.thumbnail && item.instructorName == c.instructorName
  {
    Cart.CartItem(c.id, c.title, price, c.thumbnail, c.instructorName)
  }

  /** `handleEnrollClick`. `enrollReply` is the outcome of the enrollment,
      read only for a free course. */
  function HandleEnrollClick(
    user: Option<Auth.User>, cart: Cart.CartState, c: Domain.Course, pathname: string,
    enrollReply: Settled<()>): (r: Ui.Effects)
    ensures user.None? ==>
      r == Ui.Effects([], Some(Ui.ToLogin(pathname)), [Ui.Failure("Please login to enroll in the course")])
    ensures user.Some? && c.courseType == "free" ==> r.dispatched == [Ui.Enroll(c.id, user.value.id)]
    ensures user.Some? && c.courseType == "free" && enrollReply.Fulfilled? ==>
      r.navigation == Some(Ui.To("/enrolled-courses")) && r.toasts == [Ui.Success("Successfully enrolled in the course!")]
    ensures user.Some? && c.courseType == "free" && enrollReply.Rejected? ==>
      r.navigation.None? && r.toasts == [Ui.Failure(MessageOr(enrollReply.message, "Failed to process enrollment"))]
    ensures user.Some? && c.courseType != "free" ==> r.navigation == Some(Ui.To("/cart"))
    ensures user.Some? && c.courseType != "free" && Cart.HasId(cart.items, c.id) ==> r.dispatched == [] && r.toasts == []
    ensures user.Some? && c.courseType != "free" && !Cart.HasId(cart.items, c.id) ==>
      r.dispatched == [Ui.AddToCart(ItemOf(c, c.price))] && r.toasts == [Ui.Success("Course added to cart successfully!")]
  {
    if user.None? then
      Ui.Effects([], Some(Ui.ToLogin(pathname)), [Ui.Failure("Please login to enroll in the course")])
    else if c.courseType == "free" then
      var enroll := [Ui.Enroll(c.id, user.value.id)];
      match enrollReply
      case Fulfilled(_) =>
        Ui.Effects(enroll, Some(Ui.To("/enrolled-courses")), [Ui.Success("Successfully enrolled in the course!")])
      case Rejected(m) =>
        Ui.Effects(enroll, None, [Ui.Failure(MessageOr(m, "Failed to process enrollment"))])
    else if Cart.HasId(cart.items, c.id) then
      Ui.Effects([], Some(Ui.To("/cart")), [])
    else
      Ui.Effects([Ui.AddToCart(ItemOf(c, c.price))], Some(Ui.To("/cart")), [Ui.Success("Course added to cart successfully!")])
  }

  // ---------------------------------------------------------------- properties

  /** The card's picture is built exactly like a profile picture. */
  lemma ImageLikeProfilePicture(path: string)
    requires path != ""
    ensures ImageUrl(Some(path)) == Auth.PictureUrl(path)
  {
  }

  /** A free course never reaches the cart from its card. */
  lemma FreeCourseSkipsCart(user: Option<Auth.User>, cart: Cart.CartState, c: Domain.Course, pathname: string,
    enrollReply: Settled<()>)
    requires c.courseType == "free"
    ensures Ui.ApplyToCart(cart, HandleEnrollClick(user, cart, c, pathname, enrollReply).dispatched) == cart
  {
  }

  /** A paid course ends up in the cart after one click, the cart stays
      valid, and a second click only navigates to the cart. */
  lemma PaidCourseClickedTwice(user: Auth.User, cart: Cart.CartState, c: Domain.Course, pathname: string,
    enrollReply: Settled<()>)
    requires c.courseType != "free"
    requires Cart.Valid(cart)
    ensures var after := Ui.ApplyToCart(cart, HandleEnrollClick(Some(user), cart, c, pathname, enrollReply).dispatched);
      Cart.HasId(after.items, c.id) && Cart.Valid(after) &&
      HandleEnrollClick(Some(user), after, c, pathname, enrollReply) == Ui.Effects([], Some(Ui.To("/cart")), [])
  {
    if !Cart.HasId(cart.items, c.id) {
      Cart.AddValid(cart, ItemOf(c, c.price));
    }
  }
}
