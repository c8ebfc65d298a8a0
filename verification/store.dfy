/** The root store: the six slices combined, and the root reducer that
    resets every slice when `auth/logout` is dispatched. The categories
    slice is not part of this model; its state type `C`, its initial state
    and its reducer are parameters. */
module Store {
  import opened Common
  import Auth
  import CourseSlice
  import UserSlice
  import Cart
  import Payment

  /** A dispatched action, tagged by the slice that declares it. Every slice
      sees every action; the slices' own action types never collide. */
  datatype Action<E> =
    | AuthAction(auth: Auth.Event)
    | CoursesAction(courses: CourseSlice.Event)
    | UserAction(user: UserSlice.Event)
    | CategoriesAction(categories: E)
    | CartAction(cart: Cart.Event)
    | PaymentAction(payment: Payment.Event)

  datatype RootState<C> = RootState(
    auth: Auth.AuthState,
    courses: CourseSlice.CourseState,
    user: UserSlice.UserState,
    categories: C,
    cart: Cart.CartState,
    payment: Payment.PaymentState)

  /** `action.type === 'auth/logout'` */
  predicate IsLogout<E>(a: Action<E>) {
    a.AuthAction? && a.auth.Logout?
  }

  /** Every slice at its initial state. */
  function InitialState<C>(categoriesInit: C): RootState<C> {
    RootState(Auth.Init, CourseSlice.Init, UserSlice.Init, categoriesInit, Cart.Init, Payment.Init)
  }

  /** `combineReducers`: each slice reduces the action; a slice ignores the
      actions it does not declare. */
  function AppReduce<C, E>(s: RootState<C>, a: Action<E>, categoriesReduce: (C, Action<E>) -> C): (r: RootState<C>)
    ensures !a.AuthAction? ==> r.auth == s.auth
    ensures !a.CoursesAction? ==> r.courses == s.courses
    ensures !a.UserAction? ==> r.user == s.user
    ensures !a.CartAction? ==> r.cart == s.cart
    ensures !a.PaymentAction? ==> r.payment == s.payment
  {
    RootState(
      if a.AuthAction? then Auth.Reduce(s.auth, a.auth) else s.auth,
      if a.CoursesAction? then CourseSlice.Reduce(s.courses, a.courses) else s.courses,
      if a.UserAction? then UserSlice.Reduce(s.user, a.user) else s.user,
      categoriesReduce(s.categories, a),
      if a.CartAction? then Cart.Reduce(s.cart, a.cart) else s.cart,
      if a.PaymentAction? then Payment.Reduce(s.payment, a.payment) else s.payment)
  }

  /** `rootReducer`: on `auth/logout` the state is discarded and the combined
      reducer runs on the initial state; any other action goes to the
      combined reducer unchanged. */
  function RootReduce<C, E>(s: RootState<C>, a: Action<E>, categoriesInit: C, categoriesReduce: (C, Action<E>) -> C): (r: RootState<C>)
    ensures IsLogout(a) ==>
      r.auth == Auth.Init && r.courses == CourseSlice.Init && r.user == UserSlice.Init &&
      r.cart == Cart.Init && r.payment == Payment.Init &&
      r.categories == categoriesReduce(categoriesInit, a)
    ensures IsLogout(a) ==> !r.auth.isAuthenticated && r.cart.items == [] && r.cart.total == 0
    ensures IsLogout(a) ==> r.payment.razorpayKey == None
    ensures !IsLogout(a) ==> r == AppReduce(s, a, categoriesReduce)
  {
    if IsLogout(a) then AppReduce(InitialState(categoriesInit), a, categoriesReduce)
    else AppReduce(s, a, categoriesReduce)
  }

  /** The slices redux-persist writes to storage: everything but `payment`. */
  datatype PersistedState<C> = PersistedState(
    auth: Auth.AuthState,
    courses: CourseSlice.CourseState,
    user: UserSlice.UserState,
    categories: C,
    cart: Cart.CartState)

  function Persisted<C>(s: RootState<C>): (p: PersistedState<C>)
    ensures p.auth == s.auth && p.cart == s.cart && p.categories == s.categories
    ensures p.courses == s.courses && p.user == s.user
  {
    PersistedState(s.auth, s.courses, s.user, s.categories, s.cart)
  }

  function RootReduceAll<C, E>(s: RootState<C>, actions: seq<Action<E>>, categoriesInit: C, categoriesReduce: (C, Action<E>) -> C): RootState<C>
    decreases |actions|
  {
    if actions == [] then s
    else RootReduceAll(RootReduce(s, actions[0], categoriesInit, categoriesReduce), actions[1..], categoriesInit, categoriesReduce)
  }

  // ---------------------------------------------------------------- properties

  /** The payment slice is left out of persistence only: two states that
      differ in their payment slice persist identically, yet logout still
      resets the payment slice in memory. */
  lemma BlacklistOnlyAffectsPersistence<C, E>(s: RootState<C>, p: Payment.PaymentState, categoriesInit: C, categoriesReduce: (C, Action<E>) -> C)
    ensures Persisted(s.(payment := p)) == Persisted(s)
    ensures RootReduce(s.(payment := p), AuthAction(Auth.Logout), categoriesInit, categoriesReduce).payment == Payment.Init
  {
  }

  /** After logout, the store no longer depends on what it held before. */
  lemma LogoutForgetsHistory<C, E>(s1: RootState<C>, s2: RootState<C>, categoriesInit: C, categoriesReduce: (C, Action<E>) -> C)
    ensures RootReduce(s1, AuthAction(Auth.Logout), categoriesInit, categoriesReduce)
         == RootReduce(s2, AuthAction(Auth.Logout), categoriesInit, categoriesReduce)
  {
  }

  /** The cart invariant (total is the sum of the prices, ids distinct) holds
      after every action the store can receive, logout included. */
  lemma RootKeepsCartValid<C, E>(s: RootState<C>, a: Action<E>, categoriesInit: C, categoriesReduce: (C, Action<E>) -> C)
    requires Cart.Valid(s.cart)
    ensures Cart.Valid(RootReduce(s, a, categoriesInit, categoriesReduce).cart)
  {
    if a.CartAction? && !IsLogout(a) {
      Cart.ReduceValid(s.cart, a.cart);
    }
  }

  /** From the initial store, after any sequence of actions, the cart total
      equals the sum of the cart's prices and its ids are distinct. */
  lemma {:induction false} CartValidAfterAnyActions<C, E>(s: RootState<C>, actions: seq<Action<E>>, categoriesInit: C, categoriesReduce: (C, Action<E>) -> C)
    requires Cart.Valid(s.cart)
    ensures Cart.Valid(RootReduceAll(s, actions, categoriesInit, categoriesReduce).cart)
    decreases |actions|
  {
    if actions != [] {
      RootKeepsCartValid(s, actions[0], categoriesInit, categoriesReduce);
      CartValidAfterAnyActions(RootReduce(s, actions[0], categoriesInit, categoriesReduce), actions[1..], categoriesInit, categoriesReduce);
    }
  }

  /** An authenticated session always has a user, in every reachable store. */
  lemma {:induction false} AuthenticatedHasUserAfterAnyActions<C, E>(s: RootState<C>, actions: seq<Action<E>>, categoriesInit: C, categoriesReduce: (C, Action<E>) -> C)
    requires Auth.HasUserWhenAuthenticated(s.auth)
    ensures Auth.HasUserWhenAuthenticated(RootReduceAll(s, actions, categoriesInit, categoriesReduce).auth)
    decreases |actions|
  {
    if actions != [] {
      var a := actions[0];
      var next := RootReduce(s, a, categoriesInit, categoriesReduce);
      if a.AuthAction? && !IsLogout(a) {
        Auth.AuthenticatedHasUser(s.auth, [a.auth]);
        assert Auth.ReduceAll(s.auth, [a.auth]) == Auth.ReduceAll(Auth.Reduce(s.auth, a.auth), []);
      }
      AuthenticatedHasUserAfterAnyActions(next, actions[1..], categoriesInit, categoriesReduce);
    }
  }
}
