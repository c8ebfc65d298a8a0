/** The payment slice: the payment-provider key, the order of the current
    checkout attempt, and request status. It is kept in memory only. */
module Payment {
  import opened Common

  /** The order the `/checkout` endpoint creates. */
  datatype Order = Order(id: string, amount: int, currency: string)

  datatype PaymentState = PaymentState(
    loading: bool,
    error: Option<string>,
    razorpayKey: Option<string>,
    order: Option<Order>)

  /** `clearPaymentState` and the settled phases of the two thunks. The
      `getRazorpayKey` thunk has no pending case in the slice. The fulfilled
      payloads are `response.data.key` and `response.data.order`, either of
      which may be missing. */
  datatype Event =
    | ClearPaymentState
    | CheckoutPending
    | CheckoutFulfilled(order: Option<Order>)
    | CheckoutRejected(message: Option<string>)
    | KeyFulfilled(key: Option<string>)
    | KeyRejected(message: Option<string>)

  const Init := PaymentState(false, None, None, None)

  function Reduce(s: PaymentState, e: Event): PaymentState {
    match e
    case ClearPaymentState => s.(loading := false, error := None, order := None)
    case CheckoutPending => s.(loading := true, error := None)
    case CheckoutFulfilled(o) => s.(loading := false, order := o)
    case CheckoutRejected(m) => s.(loading := false, error := Some(MessageOr(m, "Checkout failed")))
    case KeyFulfilled(k) => s.(razorpayKey := k)
    case KeyRejected(m) => s.(error := Some(MessageOr(m, "Failed to get Razorpay key")))
  }

  /** `clearPaymentState` resets the attempt but keeps the cached key. */
  lemma ClearKeepsKey(s: PaymentState)
    ensures Reduce(s, ClearPaymentState) == Init.(razorpayKey := s.razorpayKey)
  {
  }

  /** The key thunk touches only the key on success and only the error on
      failure; the checkout thunk never touches the key. */
  lemma KeyEventsFrame(s: PaymentState, k: Option<string>, m: Option<string>)
    ensures Reduce(s, KeyFulfilled(k)) == s.(razorpayKey := k)
    ensures Reduce(s, KeyRejected(m)).razorpayKey == s.razorpayKey
    ensures Reduce(s, KeyRejected(m)).loading == s.loading
    ensures Reduce(s, KeyRejected(m)).order == s.order
    ensures Reduce(s, KeyRejected(m)).error == Some(if Truthy(m) then m.value else "Failed to get Razorpay key")
  {
  }

  /** The checkout thunk drives `loading`; a rejection keeps the previous
      order and reports "Checkout failed" when the server gave no message. */
  lemma CheckoutEvents(s: PaymentState, o: Option<Order>, m: Option<string>)
    ensures Reduce(s, CheckoutPending) == s.(loading := true, error := None)
    ensures Reduce(s, CheckoutFulfilled(o)) == s.(loading := false, order := o)
    ensures var r := Reduce(s, CheckoutRejected(m));
      !r.loading && r.order == s.order && r.razorpayKey == s.razorpayKey &&
      r.error == Some(if Truthy(m) then m.value else "Checkout failed")
  {
  }

  /** No event of the checkout thunk or `clearPaymentState` ever changes the
      cached key. */
  lemma OnlyKeyFetchChangesKey(s: PaymentState, e: Event)
    requires !e.KeyFulfilled?
    ensures Reduce(s, e).razorpayKey == s.razorpayKey
  {
  }
}
