/** The auth slice: who is logged in, their token, and the request status of
    the login and register calls. */
module Auth {
  import opened Common

  /** The user record the server returns (`data` of the login response). */
  datatype User = User(
    id: string,
    firstName: Option<string>,
    lastName: Option<string>,
    email: Option<string>,
    role: Option<string>,
    profilePicture: Option<string>)

  datatype AuthState = AuthState(
    user: Option<User>,
    token: Option<string>,
    loading: bool,
    error: Option<string>,
    isAuthenticated: bool)

  /** Body of a successful login response. */
  datatype LoginPayload = LoginPayload(data: User, token: Option<string>)

  /** The slice's reducers and the settled phases of its two thunks. The
      rejected phases carry `action.payload?.message`. */
  datatype Event =
    | Logout
    | UpdateUser(user: User)
    | ClearError
    | LoginPending
    | LoginFulfilled(payload: LoginPayload)
    | LoginRejected(message: Option<string>)
    | RegisterPending
    | RegisterFulfilled
    | RegisterRejected(message: Option<string>)

  const Init := AuthState(None, None, false, None, false)

  /** The server origin every stored picture path is resolved against. */
  const BaseUrl := "https://learnify-server-s6fg.onrender.com"

  /** `${BASE_URL}/${path.replace(/\\/g, "/")}` */
  function PictureUrl(path: string): (r: string)
    ensures |r| == |BaseUrl| + 1 + |path|
    ensures r[..|BaseUrl| + 1] == BaseUrl + "/"
    ensures forall i :: |BaseUrl| + 1 <= i < |r| ==> r[i] != '\\'
    ensures forall i :: 0 <= i < |path| ==>
      r[|BaseUrl| + 1 + i] == (if path[i] == '\\' then '/' else path[i])
  {
    BaseUrl + "/" + SlashPath(path)
  }

  /** The picture rewrite of the login thunk and of `updateUser`: applied only
      to a non-empty picture; every other field is kept. */
  function RewritePicture(u: User): (r: User)
    ensures r.id == u.id && r.firstName == u.firstName && r.lastName == u.lastName
    ensures r.email == u.email && r.role == u.role
    ensures !Truthy(u.profilePicture) ==> r == u
    ensures Truthy(u.profilePicture) ==>
      r.profilePicture.Some? && r.profilePicture.value == PictureUrl(u.profilePicture.value)
  {
    if Truthy(u.profilePicture) then u.(profilePicture := Some(PictureUrl(u.profilePicture.value)))
    else u
  }

  /** The `login` thunk: a successful response is passed on with its user's
      picture rewritten; a failed one becomes a rejection. */
  function LoginThunk(response: Settled<LoginPayload>): (r: Event)
    ensures response.Fulfilled? ==>
      r.LoginFulfilled? && r.payload.token == response.value.token &&
      r.payload.data == RewritePicture(response.value.data)
    ensures response.Rejected? ==> r == LoginRejected(response.message)
  {
    match response
    case Fulfilled(p) => LoginFulfilled(p.(data := RewritePicture(p.data)))
    case Rejected(m) => LoginRejected(m)
  }

  predicate IsPending(e: Event) {
    e.LoginPending? || e.RegisterPending?
  }

  predicate IsSettled(e: Event) {
    e.LoginFulfilled? || e.LoginRejected? || e.RegisterFulfilled? || e.RegisterRejected?
  }

  function Reduce(s: AuthState, e: Event): AuthState {
    match e
    case Logout => s.(user := None, token := None, isAuthenticated := false)
    case UpdateUser(u) => s.(user := Some(RewritePicture(u)), isAuthenticated := true)
    case ClearError => s.(error := None)
    case LoginPending => s.(loading := true, error := None)
    case LoginFulfilled(p) =>
      s.(loading := false, user := Some(p.data), token := p.token, isAuthenticated := true, error := None)
    case LoginRejected(m) =>
      s.(loading := false, error := Some(MessageOr(m, "Login failed")), isAuthenticated := false)
    case RegisterPending => s.(loading := true, error := None)
    case RegisterFulfilled => s.(loading := false, error := None)
    case RegisterRejected(m) =>
      s.(loading := false, error := Some(MessageOr(m, "Registration failed")), isAuthenticated := false)
  }

  function ReduceAll(s: AuthState, es: seq<Event>): AuthState
    decreases |es|
  {
    if es == [] then s else ReduceAll(Reduce(s, es[0]), es[1..])
  }

  // ---------------------------------------------------------------- properties

  /** `logout` drops the session but not the request status. */
  lemma LogoutClearsSession(s: AuthState)
    ensures var r := Reduce(s, Logout);
      r.user == None && r.token == None && !r.isAuthenticated &&
      r.loading == s.loading && r.error == s.error
  {
  }

  /** A successful login installs the server's user and token. */
  lemma LoginFulfilledAuthenticates(s: AuthState, response: LoginPayload)
    ensures var r := Reduce(s, LoginThunk(Fulfilled(response)));
      r.isAuthenticated && !r.loading && r.error == None &&
      r.user == Some(RewritePicture(response.data)) && r.token == response.token
  {
  }

  /** A failed login reports the server's message, or "Login failed", and
      forces the session to unauthenticated without touching user or token. */
  lemma LoginRejectedKeepsSession(s: AuthState, m: Option<string>)
    ensures var r := Reduce(s, LoginRejected(m));
      !r.isAuthenticated && !r.loading && r.user == s.user && r.token == s.token &&
      r.error == Some(if Truthy(m) then m.value else "Login failed")
  {
  }

  /** Registering never logs anyone in; a failed registration logs out the
      session flag with "Registration failed" as fallback message. */
  lemma RegisterNeverAuthenticates(s: AuthState, m: Option<string>)
    ensures Reduce(s, RegisterFulfilled).isAuthenticated == s.isAuthenticated
    ensures Reduce(s, RegisterFulfilled).user == s.user
    ensures Reduce(s, RegisterFulfilled).token == s.token
    ensures var r := Reduce(s, RegisterRejected(m));
      !r.isAuthenticated && r.user == s.user && r.token == s.token &&
      r.error == Some(if Truthy(m) then m.value else "Registration failed")
  {
  }

  /** `updateUser` replaces the whole user and forces the session flag on,
      whatever the token. */
  lemma UpdateUserReplacesUser(s: AuthState, u: User)
    ensures var r := Reduce(s, UpdateUser(u));
      r.isAuthenticated && r.token == s.token && r.user == Some(RewritePicture(u)) &&
      r.loading == s.loading && r.error == s.error
  {
  }

  /** Both pending cases start a request with a clean error; every settled
      case ends it. */
  lemma RequestStatus(s: AuthState, e: Event)
    ensures IsPending(e) ==> Reduce(s, e).loading && Reduce(s, e).error == None
    ensures IsSettled(e) ==> !Reduce(s, e).loading
    ensures !IsPending(e) && !IsSettled(e) ==> Reduce(s, e).loading == s.loading
  {
  }

  /** The invariant the reducers do keep: an authenticated session always has
      a user. */
  predicate HasUserWhenAuthenticated(s: AuthState) {
    s.isAuthenticated ==> s.user.Some?
  }

  lemma {:induction false} AuthenticatedHasUser(s: AuthState, es: seq<Event>)
    requires HasUserWhenAuthenticated(s)
    ensures HasUserWhenAuthenticated(ReduceAll(s, es))
    decreases |es|
  {
    if es != [] {
      AuthenticatedHasUser(Reduce(s, es[0]), es[1..]);
    }
  }

  /** The session flag does not track the token: from the initial state a
      single `updateUser` yields an authenticated session with no token. */
  lemma UpdateUserWithoutToken(u: User)
    ensures Reduce(Init, UpdateUser(u)).isAuthenticated
    ensures Reduce(Init, UpdateUser(u)).token == None
  {
  }

  /** Conversely, a failed login after a successful one leaves a user and a
      token behind in an unauthenticated session. */
  lemma StaleSessionAfterFailedLogin(p: LoginPayload, m: Option<string>)
    ensures var r := ReduceAll(Init, [LoginFulfilled(p), LoginRejected(m)]);
      !r.isAuthenticated && r.user == Some(p.data) && r.token == p.token
  {
    var s1 := Reduce(Init, LoginFulfilled(p));
    assert ReduceAll(Init, [LoginFulfilled(p), LoginRejected(m)]) == ReduceAll(s1, [LoginRejected(m)]);
    assert ReduceAll(s1, [LoginRejected(m)]) == ReduceAll(Reduce(s1, LoginRejected(m)), []);
  }
}
