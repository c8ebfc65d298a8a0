/** The checkout flow of the cart page: one press of "Proceed to Checkout"
    runs key fetch, payment-script load, order creation and opens the
    payment widget; the widget later calls back with a payment or is
    dismissed. Every outcome of the server, the script and the widget is an
    input. */
module Checkout {
  import opened Common
  import Cart
  import Payment

  /** The outside calls an attempt makes, in order. */
  datatype Request =
    | KeyRequest
    | ScriptLoad
    | CheckoutRequest(amount: int, courseIds: seq<string>, userId: string)

  /** Where an attempt stopped. */
  datatype Stage = KeyFailed | ScriptFailed | CheckoutFailed | NoOrder | KeyMissing | WidgetOpen

  /** The options the widget is opened with. */
  datatype Widget = Widget(key: string, amount: int, currency: string, orderId: string)

  datatype Attempt = Attempt(
    stage: Stage,
    requests: seq<Request>,
    payment: Payment.PaymentState,
    isProcessing: bool,
    errorToast: Option<string>,
    widget: Option<Widget>)

  const ScriptUrl := "https://checkout.razorpay.com/v1/checkout.js"

  /** `cartItems.map((item) => item._id)` */
  function CourseIds(items: seq<Cart.CartItem>): (ids: seq<string>)
    ensures |ids| == |items|
    ensures forall i :: 0 <= i < |items| ==> ids[i] == items[i].id
  {
    seq(|items|, i requires 0 <= i < |items| => items[i].id)
  }

  /** The cart page asks for the key on its own when none is cached and the
      cart is not empty. */
  predicate PrefetchesKey(key: Option<string>, cart: Cart.CartState) {
    !Truthy(key) && |cart.items| > 0
  }

  /** Both the checkout button and every remove button are disabled while an
      attempt is processing. */
  predicate ButtonsEnabled(isProcessing: bool) {
    !isProcessing
  }

  /** `handleCheckout`. `key` is the key the page read from the store when it
      rendered, and stays the value the handler sees for the whole attempt;
      `keyReply` is the outcome of the key fetch (used only when `key` is not
      truthy), `scriptLoaded` whether the script loaded, and `orderReply` the
      outcome of the order request, whose value is `result.order`. */
  function HandleCheckout(
    p: Payment.PaymentState, cart: Cart.CartState, userId: string, key: Option<string>,
    keyReply: Settled<Option<string>>, scriptLoaded: bool, orderReply: Settled<Option<Payment.Order>>): (r: Attempt)
    ensures r.isProcessing <==> r.stage == WidgetOpen
    ensures r.widget.Some? <==> r.stage == WidgetOpen
    ensures r.errorToast.None? <==> r.stage == WidgetOpen
    ensures r.stage == KeyFailed <==> !Truthy(key) && keyReply.Rejected?
    ensures r.stage == KeyFailed ==>
      r.requests == [KeyRequest] && r.errorToast == Some(MessageOr(keyReply.message, "Failed to get payment configuration"))
    ensures r.stage == ScriptFailed <==> (Truthy(key) || keyReply.Fulfilled?) && !scriptLoaded
    ensures r.stage == ScriptFailed ==>
      r.errorToast == Some("Razorpay SDK failed to load") &&
      r.requests == (if Truthy(key) then [] else [KeyRequest]) + [ScriptLoad]
    ensures r.stage == CheckoutFailed <==> (Truthy(key) || keyReply.Fulfilled?) && scriptLoaded && orderReply.Rejected?
    ensures r.stage == CheckoutFailed ==> r.errorToast == Some(MessageOr(orderReply.message, "Payment failed"))
    ensures CheckoutRequest(cart.total, CourseIds(cart.items), userId) in r.requests <==>
      r.stage in {CheckoutFailed, NoOrder, KeyMissing, WidgetOpen}
    ensures forall req :: req in r.requests ==>
      req in {KeyRequest, ScriptLoad, CheckoutRequest(cart.total, CourseIds(cart.items), userId)}
    ensures r.stage == NoOrder <==>
      (Truthy(key) || keyReply.Fulfilled?) && scriptLoaded && orderReply.Fulfilled? && orderReply.value.None?
    ensures r.stage == NoOrder ==> r.errorToast == Some("Failed to create order")
    ensures r.stage == WidgetOpen <==> Truthy(key) && scriptLoaded && orderReply.Fulfilled? && orderReply.value.Some?
    ensures r.stage == WidgetOpen ==>
      var o := orderReply.value.value;
      r.widget == Some(Widget(key.value, o.amount, o.currency, o.id))
    ensures r.stage == KeyMissing <==>
      !Truthy(key) && keyReply.Fulfilled? && scriptLoaded && orderReply.Fulfilled? && orderReply.value.Some?
    ensures r.stage == KeyMissing ==> r.errorToast == Some("Payment configuration is missing")
    ensures r.stage in {CheckoutFailed, NoOrder, KeyMissing, WidgetOpen} ==>
      r.requests == (if Truthy(key) then [] else [KeyRequest]) + [ScriptLoad, CheckoutRequest(cart.total, CourseIds(cart.items), userId)]
    ensures r.payment.razorpayKey == (if Truthy(key) || keyReply.Rejected? then p.razorpayKey else keyReply.value)
  {
    var keyStep := if Truthy(key) then p else match keyReply
      case Fulfilled(k) => Payment.Reduce(p, Payment.KeyFulfilled(k))
      case Rejected(m) => Payment.Reduce(p, Payment.KeyRejected(m));
    var keyRequests := if Truthy(key) then [] else [KeyRequest];
    if !Truthy(key) && keyReply.Rejected? then
      Attempt(KeyFailed, keyRequests, keyStep, false,
        Some(MessageOr(keyReply.message, "Failed to get payment configuration")), None)
    else if !scriptLoaded then
      Attempt(ScriptFailed, keyRequests + [ScriptLoad], keyStep, false, Some("Razorpay SDK failed to load"), None)
    else
      var request := CheckoutRequest(cart.total, CourseIds(cart.items), userId);
      var requests := keyRequests + [ScriptLoad, request];
      var pending := Payment.Reduce(keyStep, Payment.CheckoutPending);
      match orderReply
      case Rejected(m) =>
        // `unwrap` throws the rejection payload into the outer catch
        Attempt(CheckoutFailed, requests, Payment.Reduce(pending, Payment.CheckoutRejected(m)), false,
          Some(MessageOr(m, "Payment failed")), None)
      case Fulfilled(order) =>
        var settled := Payment.Reduce(pending, Payment.CheckoutFulfilled(order));
        if order.None? then
          Attempt(NoOrder, requests, settled, false, Some("Failed to create order"), None)
        else if !Truthy(key) then
          Attempt(KeyMissing, requests, settled, false, Some("Payment configuration is missing"), None)
        else
          Attempt(WidgetOpen, requests, settled, true, None,
            Some(Widget(key.value, order.value.amount, order.value.currency, order.value.id)))
  }

  /** How the payment-verification request went. */
  datatype Verification = Resolved | Threw

  /** What the widget's `handler` leaves behind. */
  datatype Settlement = Settlement(
    cart: Cart.CartState,
    navigation: Option<string>,
    errorToast: Option<string>,
    isProcessing: bool)

  function SuccessUrl(paymentId: string): string {
    "/paymentsuccess?reference=" + paymentId
  }

  /** The widget's `handler`: the verification request is always sent, and
      the payment is taken as successful whenever the widget returned a
      payment id, whether that request resolved or threw. */
  function Handler(cart: Cart.CartState, paymentId: Option<string>, verification: Verification): (r: Settlement)
    ensures Truthy(paymentId) ==>
      r.cart == Cart.Init && r.navigation == Some(SuccessUrl(paymentId.value)) && r.errorToast.None? && r.isProcessing
    ensures !Truthy(paymentId) ==>
      r.cart == cart && r.navigation.None? && r.errorToast == Some("Payment verification failed") && !r.isProcessing
  {
    match verification
    case Resolved =>
      if Truthy(paymentId) then Settlement(Cart.Reduce(cart, Cart.ClearCart), Some(SuccessUrl(paymentId.value)), None, true)
      else Settlement(cart, None, Some("Payment verification failed"), false)
    case Threw =>
      if Truthy(paymentId) then Settlement(Cart.Reduce(cart, Cart.ClearCart), Some(SuccessUrl(paymentId.value)), None, true)
      else Settlement(cart, None, Some("Payment verification failed"), false)
  }

  /** The widget's `ondismiss`: the attempt ends and the buttons come back. */
  function Dismiss(a: Attempt): (r: Attempt)
    ensures !r.isProcessing && ButtonsEnabled(r.isProcessing)
    ensures r.requests == a.requests && r.payment == a.payment && r.errorToast == a.errorToast
    ensures r.stage == a.stage && r.widget == a.widget
  {
    a.(isProcessing := false)
  }

  // ---------------------------------------------------------------- properties

  /** The page stops asking for the key once the fetched key is stored, and
      never asks with an emptied cart; while no key is cached, a cart with
      items asks. */
  lemma PrefetchUntilKeyStored(p: Payment.PaymentState, cart: Cart.CartState, k: string)
    requires k != ""
    ensures !Truthy(p.razorpayKey) && |cart.items| > 0 ==> PrefetchesKey(p.razorpayKey, cart)
    ensures !PrefetchesKey(Payment.Reduce(p, Payment.KeyFulfilled(Some(k))).razorpayKey, cart)
    ensures !PrefetchesKey(p.razorpayKey, Cart.Reduce(cart, Cart.ClearCart))
  {
  }

  /** The verification outcome never changes what the handler does: only the
      presence of a payment id does. */
  lemma VerificationIgnored(cart: Cart.CartState, paymentId: Option<string>)
    ensures Handler(cart, paymentId, Resolved) == Handler(cart, paymentId, Threw)
  {
  }

  /** A failed key fetch ends the attempt before the script is loaded or any
      order requested. */
  lemma KeyFailureStopsEarly(
    p: Payment.PaymentState, cart: Cart.CartState, userId: string, key: Option<string>,
    m: Option<string>, scriptLoaded: bool, orderReply: Settled<Option<Payment.Order>>)
    requires !Truthy(key)
    ensures var r := HandleCheckout(p, cart, userId, key, Rejected(m), scriptLoaded, orderReply);
      r.stage == KeyFailed && ScriptLoad !in r.requests && !r.isProcessing && r.payment.razorpayKey == p.razorpayKey
  {
  }

  /** A key fetched during an attempt is stored, but the attempt still ends
      with "Payment configuration is missing", after the order was created:
      the handler only sees the key the page had when the attempt began. */
  lemma FetchedKeyNotSeen(
    p: Payment.PaymentState, cart: Cart.CartState, userId: string, key: Option<string>,
    fetched: string, order: Payment.Order)
    requires !Truthy(key)
    ensures var r := HandleCheckout(p, cart, userId, key, Fulfilled(Some(fetched)), true, Fulfilled(Some(order)));
      r.stage == KeyMissing && r.widget.None? && r.payment.razorpayKey == Some(fetched) &&
      r.payment.order == Some(order) &&
      CheckoutRequest(cart.total, CourseIds(cart.items), userId) in r.requests
  {
  }

  /** With a cached key, the requests are exactly the script load and the
      order, carrying the cart total and the ids in cart order. */
  lemma RequestsWithCachedKey(
    p: Payment.PaymentState, cart: Cart.CartState, userId: string, key: Option<string>,
    keyReply: Settled<Option<string>>, orderReply: Settled<Option<Payment.Order>>)
    requires Truthy(key)
    ensures HandleCheckout(p, cart, userId, key, keyReply, true, orderReply).requests
      == [ScriptLoad, CheckoutRequest(cart.total, CourseIds(cart.items), userId)]
    ensures HandleCheckout(p, cart, userId, key, keyReply, false, orderReply).requests == [ScriptLoad]
  {
  }

  /** A full successful purchase: from an attempt that opened the widget, a
      payment id empties the cart and leads to the success page carrying that
      id; without one, the cart is kept and the buttons come back. */
  lemma PurchaseEndToEnd(
    p: Payment.PaymentState, cart: Cart.CartState, userId: string, key: Option<string>,
    keyReply: Settled<Option<string>>, order: Payment.Order, paymentId: Option<string>, v: Verification)
    requires Truthy(key)
    ensures var a := HandleCheckout(p, cart, userId, key, keyReply, true, Fulfilled(Some(order)));
      var h := Handler(cart, paymentId, v);
      a.stage == WidgetOpen && !ButtonsEnabled(a.isProcessing) &&
      (Truthy(paymentId) ==> h.cart.items == [] && h.cart.total == 0) &&
      (!Truthy(paymentId) ==> h.cart == cart && ButtonsEnabled(h.isProcessing))
  {
  }
}
