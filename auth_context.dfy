/**
 * The client's authentication state: the reducer, and the provider whose
 * operations pair `localStorage` writes with dispatched actions. The results
 * of HTTP calls enter as parameters.
 */
module AuthContext {
  import opened Wrappers
  import opened ClientErrors

  /** The user object kept by the client: the server's response without `token`. */
  datatype UserInfo = UserInfo(id: nat, name: string, email: string)

  datatype AuthState = AuthState(user: Option<UserInfo>, token: Option<string>, loading: bool, error: Option<string>)

  datatype Action =
    | AuthSuccess(user: UserInfo, token: string)
    | AuthError(message: Option<string>)
    | UserLoaded(loaded: UserInfo)
    | Logout
    | ClearError
    | SetLoading
    | Unrecognised(kind: string)

  /** `authReducer`: each action rewrites only the fields its case names. */
  function Reduce(s: AuthState, a: Action): (r: AuthState)
    ensures a.AuthSuccess? ==> r == AuthState(Some(a.user), Some(a.token), false, None)
    ensures a.AuthError? ==> r == AuthState(None, None, false, a.message)
    ensures a.UserLoaded? ==> r.user == Some(a.loaded) && !r.loading && r.token == s.token && r.error == s.error
    ensures a.Logout? ==> r == AuthState(None, None, false, None)
    ensures a.ClearError? ==> r == s.(error := None)
    ensures a.SetLoading? ==> r == s.(loading := true)
    ensures a.Unrecognised? ==> r == s
  {
    match a
    case AuthSuccess(u, t) => s.(user := Some(u), token := Some(t), loading := false, error := None)
    case AuthError(msg) => s.(user := None, token := None, loading := false, error := msg)
    case UserLoaded(u) => s.(user := Some(u), loading := false)
    case Logout => s.(user := None, token := None, loading := false, error := None)
    case ClearError => s.(error := None)
    case SetLoading => s.(loading := true)
    case Unrecognised(_) => s
  }

  /** Every action that ends a request settles `loading`; the others leave it alone or raise it. */
  lemma SettlingActions(s: AuthState, a: Action)
    ensures (a.AuthSuccess? || a.AuthError? || a.UserLoaded? || a.Logout?) ==> !Reduce(s, a).loading
    ensures (a.ClearError? || a.Unrecognised?) ==> Reduce(s, a).loading == s.loading
  {
  }

  /**
   * A `SET_LOADING` immediately followed by the request's outcome leaves no
   * trace, and the outcomes that replace the session forget the state before.
   */
  lemma OutcomeOverridesLoading(s: AuthState, t: AuthState, a: Action)
    requires a.AuthSuccess? || a.AuthError? || a.Logout?
    ensures Reduce(Reduce(s, SetLoading), a) == Reduce(s, a)
    ensures Reduce(s, a) == Reduce(t, a)
  {
  }

  /** Clearing the error is idempotent and touches nothing a route guard looks at. */
  lemma ClearErrorIsIdempotent(s: AuthState)
    ensures Reduce(Reduce(s, ClearError), ClearError) == Reduce(s, ClearError)
    ensures Reduce(s, ClearError).user == s.user && Reduce(s, ClearError).loading == s.loading
  {
  }

  // ---------------------------------------------------------------- storage

  const TokenKey: string := "token"
  const UserKey: string := "user"

  /** A `localStorage` value: a plain string, or the JSON text of a user (stored as the user it parses back to). */
  datatype Stored = Text(s: string) | UserJson(user: UserInfo)

  /** `initialState`: whatever the storage holds, with `loading` raised and no error. */
  function InitialState(storage: map<string, Stored>): (s: AuthState)
    ensures s.loading && s.error.None?
    ensures s.user.Some? <==> UserKey in storage && storage[UserKey].UserJson?
    ensures s.token.Some? <==> TokenKey in storage && storage[TokenKey].Text?
    ensures UserKey in storage && storage[UserKey].UserJson? ==> s.user == Some(storage[UserKey].user)
    ensures TokenKey in storage && storage[TokenKey].Text? ==> s.token == Some(storage[TokenKey].s)
  {
    AuthState(
      if UserKey in storage && storage[UserKey].UserJson? then Some(storage[UserKey].user) else None,
      if TokenKey in storage && storage[TokenKey].Text? then Some(storage[TokenKey].s) else None,
      true,
      None)
  }

  /** `!state.token`: a missing or empty token. */
  predicate HasToken(s: AuthState) {
    s.token.Some? && s.token.value != ""
  }

  /** The body of a successful `/auth/register` or `/auth/login`. */
  datatype AuthPayload = AuthPayload(id: nat, name: string, email: string, token: string)

  /** The result of a register or login request: answered with a body, or rejected (with the response's data if any). */
  datatype AuthOutcome = Answered(data: AuthPayload) | Rejected(response: Option<ErrorData>)

  /** `const { token, ...user } = res.data`. */
  function UserOf(p: AuthPayload): UserInfo {
    UserInfo(p.id, p.name, p.email)
  }

  const RegistrationFailed: string := "Registration failed"
  const LoginFailed: string := "Login failed"

  class AuthProvider {
    var state: AuthState
    var storage: map<string, Stored>

    constructor (stored: map<string, Stored>)
      ensures state == InitialState(stored) && storage == stored
    {
      state := InitialState(stored);
      storage := stored;
    }

    method Dispatch(a: Action)
      modifies this
      ensures state == Reduce(old(state), a) && storage == old(storage)
    {
      state := Reduce(state, a);
    }

    /**
     * `loadUser`, with `me` the result of GET `/auth/me` (`None` when it
     * failed). No token: an error without a message. A failed check: both
     * keys removed, then the same error. Every path ends with `loading` false.
     */
    method LoadUser(me: Option<UserInfo>)
      modifies this
      ensures !state.loading
      ensures !HasToken(old(state)) ==> state == Reduce(old(state), AuthError(None)) && storage == old(storage)
      ensures HasToken(old(state)) && me.Some? ==>
        state == Reduce(old(state), UserLoaded(me.value)) && storage == old(storage)
      ensures HasToken(old(state)) && me.None? ==>
        state == Reduce(old(state), AuthError(None)) && storage == old(storage) - {TokenKey, UserKey}
    {
      if !HasToken(state) {
        Dispatch(AuthError(None));
        return;
      }
      if me.Some? {
        Dispatch(UserLoaded(me.value));
      } else {
        storage := storage - {TokenKey};
        storage := storage - {UserKey};
        Dispatch(AuthError(None));
      }
    }

    /** The shared body of `register` and `login`; `fallback` is each one's default message. */
    method Authenticate(outcome: AuthOutcome, fallback: string) returns (ok: bool)
      modifies this
      ensures ok == outcome.Answered?
      ensures !state.loading
      ensures outcome.Answered? ==>
        && state == AuthState(Some(UserOf(outcome.data)), Some(outcome.data.token), false, None)
        && storage == old(storage)[TokenKey := Text(outcome.data.token)][UserKey := UserJson(UserOf(outcome.data))]
      ensures outcome.Rejected? ==>
        && state == AuthState(None, None, false, Some(Describe(outcome.response, fallback)))
        && storage == old(storage)
    {
      Dispatch(SetLoading);
      match outcome {
        case Answered(data) =>
          var user := UserOf(data);
          storage := storage[TokenKey := Text(data.token)];
          storage := storage[UserKey := UserJson(user)];
          Dispatch(AuthSuccess(user, data.token));
          ok := true;
        case Rejected(response) =>
          Dispatch(AuthError(Some(Describe(response, fallback))));
          ok := false;
      }
    }

    /** `register`: success stores both keys and holds the new session; failure keeps storage as it was. */
    method Register(outcome: AuthOutcome) returns (ok: bool)
      modifies this
      ensures ok == outcome.Answered? && !state.loading
      ensures outcome.Answered? ==>
        && state == AuthState(Some(UserOf(outcome.data)), Some(outcome.data.token), false, None)
        && storage == old(storage)[TokenKey := Text(outcome.data.token)][UserKey := UserJson(UserOf(outcome.data))]
      ensures outcome.Rejected? ==>
        && state == AuthState(None, None, false, Some(Describe(outcome.response, RegistrationFailed)))
        && storage == old(storage)
    {
      ok := Authenticate(outcome, RegistrationFailed);
    }

    /** `login`: the same as `register` with its own default message. */
    method Login(outcome: AuthOutcome) returns (ok: bool)
      modifies this
      ensures ok == outcome.Answered? && !state.loading
      ensures outcome.Answered? ==>
        && state == AuthState(Some(UserOf(outcome.data)), Some(outcome.data.token), false, None)
        && storage == old(storage)[TokenKey := Text(outcome.data.token)][UserKey := UserJson(UserOf(outcome.data))]
      ensures outcome.Rejected? ==>
        && state == AuthState(None, None, false, Some(Describe(outcome.response, LoginFailed)))
        && storage == old(storage)
    {
      ok := Authenticate(outcome, LoginFailed);
    }

    /** `logout`: both keys removed and the session cleared. */
    method Logout()
      modifies this
      ensures storage == old(storage) - {TokenKey, UserKey}
      ensures state == AuthState(None, None, false, None)
    {
      storage := storage - {TokenKey};
      storage := storage - {UserKey};
      Dispatch(Action.Logout);
    }

    method ClearError()
      modifies this
      ensures state == old(state).(error := None) && storage == old(storage)
    {
      Dispatch(Action.ClearError);
    }
  }

  /**
   * What the storage written by a successful login gives back on the next
   * page load: the same user and token, waiting for `loadUser`.
   */
  lemma StoredSessionReloads(storage: map<string, Stored>, p: AuthPayload)
    ensures var s := InitialState(storage[TokenKey := Text(p.token)][UserKey := UserJson(UserOf(p))]);
      s.user == Some(UserOf(p)) && s.token == Some(p.token) && s.loading
  {
  }

  /** After `logout` the next page load starts with no user and no token. */
  lemma LoggedOutStorageReloadsEmpty(storage: map<string, Stored>)
    ensures var s := InitialState(storage - {TokenKey, UserKey});
      s.user.None? && s.token.None? && !HasToken(s)
  {
  }
}
