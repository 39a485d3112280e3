/** The client's auth store (`useAuthStore`) as a small state machine over
    the signed-in user, the `isAuthenticated` flag, the error message and
    the two tokens kept in `localStorage`. Each action's effect is a
    function on `AuthState`, and the store's methods are proved to apply
    it. */
module AuthStore {
  import opened Common
  import opened Client

  /** The user profile as the client holds it. */
  datatype UserView = UserView(id: int, email: string, fullName: string, isActive: bool, createdAt: string)

  /** The login response body as the store reads it: it looks for a
      refresh token, which the backend's `Token` never carries. */
  datatype LoginData = LoginData(accessToken: string, refreshToken: Option<string>)

  const AccessTokenKey := "access_token"
  const RefreshTokenKey := "refresh_token"
  const LoginFailed := "Login failed"
  const RegistrationFailed := "Registration failed"
  const UpdateProfileFailed := "Failed to update profile"

  /** Everything the actions change, apart from the loading flag. */
  datatype AuthState = AuthState(
    user: Option<UserView>,
    isAuthenticated: bool,
    error: Option<string>,
    storage: map<string, string>)

  /** `localStorage.getItem('access_token')` is a non-empty string. */
  predicate HasToken(storage: map<string, string>) {
    AccessTokenKey in storage && storage[AccessTokenKey] != ""
  }

  /** The store believes it is signed in only while an access token is
      stored. */
  predicate Consistent(s: AuthState) {
    s.isAuthenticated ==> AccessTokenKey in s.storage
  }

  // ---------------------------------------------------------------------------
  // The effect of each action
  // ---------------------------------------------------------------------------

  /** The synchronous part of `initAuth`: signed in when a token is
      stored. The `fetchUser` it starts is not awaited; its completion is a
      later `AfterFetchUser`. */
  function AfterInitAuth(s: AuthState): (t: AuthState)
    ensures t.user == s.user && t.error == s.error && t.storage == s.storage
    ensures t.isAuthenticated <==> s.isAuthenticated || HasToken(s.storage)
  {
    if HasToken(s.storage) then s.(isAuthenticated := true) else s
  }

  /** `logout`: both tokens removed, no user, signed out. */
  function LoggedOut(s: AuthState): (t: AuthState)
    ensures t.user.None? && !t.isAuthenticated && t.error == s.error
    ensures AccessTokenKey !in t.storage && RefreshTokenKey !in t.storage
    ensures forall k :: k in s.storage && k != AccessTokenKey && k != RefreshTokenKey ==>
      k in t.storage && t.storage[k] == s.storage[k]
  {
    s.(user := None, isAuthenticated := false, storage := s.storage - {AccessTokenKey, RefreshTokenKey})
  }

  /** The tokens a successful login writes: the access token always, the
      refresh token only when the response has a non-empty one (an older
      one is then left in place). */
  function StoreTokens(storage: map<string, string>, d: LoginData): (m: map<string, string>)
    ensures AccessTokenKey in m && m[AccessTokenKey] == d.accessToken
    ensures Truthy(d.refreshToken) ==> RefreshTokenKey in m && m[RefreshTokenKey] == d.refreshToken.value
    ensures !Truthy(d.refreshToken) ==>
      (RefreshTokenKey in m <==> RefreshTokenKey in storage)
      && (RefreshTokenKey in storage ==> m[RefreshTokenKey] == storage[RefreshTokenKey])
  {
    var m := storage[AccessTokenKey := d.accessToken];
    if Truthy(d.refreshToken) then m[RefreshTokenKey := d.refreshToken.value] else m
  }

  /** `fetchUser`: the user on success; a failure logs out. */
  function AfterFetchUser(s: AuthState, resp: Response<UserView>): (t: AuthState)
    ensures resp.Success? ==> t.user == Some(resp.data) && t.isAuthenticated == s.isAuthenticated
    ensures resp.Success? ==> t.storage == s.storage && t.error == s.error
    ensures resp.Failure? ==> t.user.None? && !t.isAuthenticated && AccessTokenKey !in t.storage
  {
    match resp
    case Success(u) => s.(user := Some(u))
    case Failure(_) => LoggedOut(s)
  }

  /** `login`, once its request and (when that succeeded) the `fetchUser`
      it awaits have settled. A `fetchUser` failure logs out, and its error
      reaches `login`'s handler. */
  function AfterLogin(s: AuthState, loginResp: Response<LoginData>, meResp: Response<UserView>): (t: AuthState)
    ensures t.isAuthenticated <==> LoginSucceeds(loginResp, meResp) || (loginResp.Failure? && s.isAuthenticated)
    ensures t.error.None? <==> LoginSucceeds(loginResp, meResp)
    ensures LoginSucceeds(loginResp, meResp) ==> t.user == Some(meResp.data)
    ensures loginResp.Success? ==> (AccessTokenKey in t.storage <==> meResp.Success?)
  {
    var cleared := s.(error := None);
    match loginResp
    case Failure(detail) => cleared.(error := Some(ErrorMessage(detail, LoginFailed)))
    case Success(data) =>
      var signedIn := cleared.(storage := StoreTokens(cleared.storage, data), isAuthenticated := true);
      match meResp
      case Success(_) => AfterFetchUser(signedIn, meResp)
      case Failure(detail) => AfterFetchUser(signedIn, meResp).(error := Some(ErrorMessage(detail, LoginFailed)))
  }

  /** What `login` returns. */
  predicate LoginSucceeds(loginResp: Response<LoginData>, meResp: Response<UserView>) {
    loginResp.Success? && meResp.Success?
  }

  /** `register`: on success, whatever the login that follows does. */
  function AfterRegister(s: AuthState, regResp: Response<UserView>, loginResp: Response<LoginData>,
                         meResp: Response<UserView>): (t: AuthState)
    ensures regResp.Failure? ==> t.user == s.user && t.isAuthenticated == s.isAuthenticated && t.storage == s.storage
    ensures t.error.None? <==> regResp.Success? && LoginSucceeds(loginResp, meResp)
  {
    match regResp
    case Failure(detail) => s.(error := Some(ErrorMessage(detail, RegistrationFailed)))
    case Success(_) => AfterLogin(s.(error := None), loginResp, meResp)
  }

  /** `updateProfile`: it neither clears the error first nor touches the
      loading flag. */
  function AfterUpdateProfile(s: AuthState, resp: Response<UserView>): (t: AuthState)
    ensures t.isAuthenticated == s.isAuthenticated && t.storage == s.storage
    ensures resp.Success? ==> t.user == Some(resp.data) && t.error == s.error
    ensures resp.Failure? ==> t.user == s.user && t.error.Some?
  {
    match resp
    case Success(u) => s.(user := Some(u))
    case Failure(detail) => s.(error := Some(ErrorMessage(detail, UpdateProfileFailed)))
  }

  // ---------------------------------------------------------------------------
  // Properties of the actions
  // ---------------------------------------------------------------------------

  /** `initAuth` signs in exactly when a token is stored, and otherwise
      changes nothing. */
  lemma InitAuthIffToken(s: AuthState)
    ensures AfterInitAuth(s).isAuthenticated <==> s.isAuthenticated || HasToken(s.storage)
    ensures !HasToken(s.storage) ==> AfterInitAuth(s) == s
    ensures AfterInitAuth(s).user == s.user && AfterInitAuth(s).storage == s.storage
  {
  }

  /** Logging out twice is logging out once. */
  lemma LogoutIdempotent(s: AuthState)
    ensures LoggedOut(LoggedOut(s)) == LoggedOut(s)
  {
    assert LoggedOut(s).storage - {AccessTokenKey, RefreshTokenKey} == LoggedOut(s).storage;
  }

  /** A login whose `fetchUser` fails ends signed out with no tokens and
      no user, reports false, and shows the fetch's error. */
  lemma LoginFetchFailureLogsOut(s: AuthState, data: LoginData, detail: Option<string>)
    ensures var t := AfterLogin(s, Success(data), Failure(detail));
      && !t.isAuthenticated && t.user.None?
      && AccessTokenKey !in t.storage && RefreshTokenKey !in t.storage
      && t.error == Some(ErrorMessage(detail, LoginFailed))
      && !LoginSucceeds(Success(data), Failure(detail))
  {
  }

  /** A successful login stores the access token, the refresh token only
      when one came, signs in, and holds the fetched user. */
  lemma LoginSuccessStoresTokens(s: AuthState, data: LoginData, u: UserView)
    ensures var t := AfterLogin(s, Success(data), Success(u));
      && t.isAuthenticated && t.user == Some(u) && t.error.None?
      && t.storage[AccessTokenKey] == data.accessToken
      && (Truthy(data.refreshToken) ==> t.storage[RefreshTokenKey] == data.refreshToken.value)
      && (!Truthy(data.refreshToken) ==> (RefreshTokenKey in t.storage <==> RefreshTokenKey in s.storage))
  {
  }

  /** A refused login leaves the session as it was. */
  lemma LoginFailureKeepsSession(s: AuthState, detail: Option<string>, meResp: Response<UserView>)
    ensures var t := AfterLogin(s, Failure(detail), meResp);
      t.user == s.user && t.isAuthenticated == s.isAuthenticated && t.storage == s.storage
      && t.error == Some(ErrorMessage(detail, LoginFailed))
  {
  }

  /** A successful registration has exactly the effect and the result of
      the login that follows it; a failed one only sets the error. */
  lemma RegisterIsLogin(s: AuthState, regResp: Response<UserView>, loginResp: Response<LoginData>,
                        meResp: Response<UserView>)
    ensures regResp.Success? ==> AfterRegister(s, regResp, loginResp, meResp) == AfterLogin(s, loginResp, meResp)
    ensures regResp.Failure? ==>
      AfterRegister(s, regResp, loginResp, meResp) == s.(error := Some(ErrorMessage(regResp.detail, RegistrationFailed)))
  {
  }

  /** A failed profile update keeps the user and reports the error. */
  lemma UpdateProfileFailureKeepsUser(s: AuthState, detail: Option<string>)
    ensures AfterUpdateProfile(s, Failure(detail)).user == s.user
    ensures AfterUpdateProfile(s, Failure(detail)).error == Some(ErrorMessage(detail, UpdateProfileFailed))
  {
  }

  /** Every action keeps the store's flag in step with its token. */
  lemma {:induction false} ActionsKeepConsistent(s: AuthState, loginResp: Response<LoginData>,
                                                 meResp: Response<UserView>, regResp: Response<UserView>)
    requires Consistent(s)
    ensures Consistent(AfterInitAuth(s)) && Consistent(LoggedOut(s)) && Consistent(AfterFetchUser(s, meResp))
    ensures Consistent(AfterLogin(s, loginResp, meResp))
    ensures Consistent(AfterRegister(s, regResp, loginResp, meResp))
    ensures Consistent(AfterUpdateProfile(s, meResp))
  {
  }

  // ---------------------------------------------------------------------------
  // The store
  // ---------------------------------------------------------------------------

  class Store {
    var user: Option<UserView>
    var isAuthenticated: bool
    var loading: bool
    var error: Option<string>
    /** `localStorage`. */
    var storage: map<string, string>

    constructor (storage: map<string, string>)
      ensures user.None? && !isAuthenticated && !loading && error.None? && this.storage == storage
    {
      user := None;
      isAuthenticated := false;
      loading := false;
      error := None;
      this.storage := storage;
    }

    function State(): AuthState
      reads this
    {
      AuthState(user, isAuthenticated, error, storage)
    }

    method InitAuth()
      modifies this
      ensures State() == AfterInitAuth(old(State())) && loading == old(loading)
    {
      if AccessTokenKey in storage && storage[AccessTokenKey] != "" {
        isAuthenticated := true;
      }
    }

    method Logout()
      modifies this
      ensures State() == LoggedOut(old(State())) && loading == old(loading)
    {
      storage := storage - {AccessTokenKey};
      storage := storage - {RefreshTokenKey};
      user := None;
      isAuthenticated := false;
    }

    method FetchUser(resp: Response<UserView>) returns (r: Settled<UserView>)
      modifies this
      ensures State() == AfterFetchUser(old(State()), resp) && loading == old(loading)
      ensures resp.Success? ==> r == Resolved(resp.data)
      ensures resp.Failure? ==> r == Rejected(resp.detail)
    {
      match resp {
        case Success(data) =>
          user := Some(data);
          r := Resolved(data);
        case Failure(detail) =>
          Logout();
          r := Rejected(detail);
      }
    }

    method Login(loginResp: Response<LoginData>, meResp: Response<UserView>) returns (ok: bool)
      modifies this
      ensures State() == AfterLogin(old(State()), loginResp, meResp) && !loading
      ensures ok == LoginSucceeds(loginResp, meResp)
    {
      loading := true;
      error := None;
      match loginResp {
        case Failure(detail) =>
          error := Some(ErrorMessage(detail, LoginFailed));
          ok := false;
        case Success(data) =>
          storage := storage[AccessTokenKey := data.accessToken];
          if data.refreshToken.Some? && data.refreshToken.value != "" {
            storage := storage[RefreshTokenKey := data.refreshToken.value];
          }
          isAuthenticated := true;
          var fetched := FetchUser(meResp);
          if fetched.Rejected? {
            error := Some(ErrorMessage(fetched.detail, LoginFailed));
            ok := false;
          } else {
            ok := true;
          }
      }
      loading := false;
    }

    method Register(regResp: Response<UserView>, loginResp: Response<LoginData>, meResp: Response<UserView>)
      returns (ok: bool)
      modifies this
      ensures State() == AfterRegister(old(State()), regResp, loginResp, meResp) && !loading
      ensures ok == (regResp.Success? && LoginSucceeds(loginResp, meResp))
    {
      loading := true;
      error := None;
      match regResp {
        case Failure(detail) =>
          error := Some(ErrorMessage(detail, RegistrationFailed));
          ok := false;
        case Success(_) =>
          ok := Login(loginResp, meResp);
      }
      loading := false;
    }

    method UpdateProfile(resp: Response<UserView>) returns (ok: bool)
      modifies this
      ensures State() == AfterUpdateProfile(old(State()), resp) && loading == old(loading)
      ensures ok == resp.Success?
    {
      match resp {
        case Success(data) =>
          user := Some(data);
          ok := true;
        case Failure(detail) =>
          error := Some(ErrorMessage(detail, UpdateProfileFailed));
          ok := false;
      }
    }
  }
}
