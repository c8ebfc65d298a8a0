/** The side effects the pages' handlers have besides state: toasts and
    navigation. */
module Ui {
  import opened Common
  import Cart

  datatype Toast = Success(text: string) | Failure(text: string)

  /** A `navigate(target)`, with the `from` location it hands to the login
      page when there is one. */
  datatype Navigation = Navigation(target: string, from: Option<string>)

  /** `navigate("/login", { state: { from: location } })` */
  function ToLogin(pathname: string): (n: Navigation)
    ensures n.target == "/login" && n.from == Some(pathname)
  {
    Navigation("/login", Some(pathname))
  }

  function To(target: string): (n: Navigation)
    ensures n.target == target && n.from.None?
  {
    Navigation(target, None)
  }

  /** A failed request as the handlers see it: the `message` of the response
      body and the error's own `message`, each absent when missing. */
  datatype RequestError = RequestError(responseMessage: Option<string>, errorMessage: Option<string>)

  /** An HTTP call as a handler awaits it: the response body, or the error
      its `catch` receives. */
  datatype Response<+T> = Ok(body: T) | Err(error: RequestError)

  /** `error.response?.data?.message || error.message || fallback` */
  function ResponseOrErrorMessage(e: RequestError, fallback: string): (r: string)
    ensures Truthy(e.responseMessage) ==> r == e.responseMessage.value
    ensures !Truthy(e.responseMessage) && Truthy(e.errorMessage) ==> r == e.errorMessage.value
    ensures !Truthy(e.responseMessage) && !Truthy(e.errorMessage) ==> r == fallback
  {
    MessageOr(e.responseMessage, MessageOr(e.errorMessage, fallback))
  }

  /** The store actions the course card and the course page dispatch. */
  datatype Dispatch = AddToCart(item: Cart.CartItem) | Enroll(courseId: string, userId: string)

  /** Everything a click handler does outside its own state. */
  datatype Effects = Effects(dispatched: seq<Dispatch>, navigation: Option<Navigation>, toasts: seq<Toast>)

  /** The cart after the dispatched cart actions, in order. */
  function ApplyToCart(c: Cart.CartState, ds: seq<Dispatch>): Cart.CartState
    decreases |ds|
  {
    if ds == [] then c
    else match ds[0]
      case AddToCart(item) => ApplyToCart(Cart.Reduce(c, Cart.AddToCart(item)), ds[1..])
      case Enroll(_, _) => ApplyToCart(c, ds[1..])
  }
}
