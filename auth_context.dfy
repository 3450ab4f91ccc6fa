/**
 * The frontend's `AuthProvider`: the signed-in user, the bearer token and a
 * loading flag, kept in step with two `localStorage` keys.
 *
 * `localStorage` is a map from keys to strings. The login and register API
 * calls are outside this model: each call's result is an input, `None` when
 * the call threw.
 */
module AuthContext {
  import opened Wrappers
  import opened AuthJson

  const AuthUserKey := "auth_user"
  const AuthTokenKey := "auth_token"

  type Storage = map<string, string>

  /** `localStorage.getItem(key)`. */
  function GetItem(storage: Storage, key: string): Option<string>
  {
    if key in storage then Some(storage[key]) else None
  }

  /**
   * `getStoredUser()`: null when `auth_user` is missing or empty or its text
   * does not parse; a user stored by `login` is read back unchanged.
   */
  function GetStoredUser(storage: Storage): (r: Option<AuthUser>)
    ensures AuthUserKey !in storage || storage[AuthUserKey] == "" ==> r.None?
    ensures r.Some? ==> Parse(storage[AuthUserKey]) == r
    ensures forall u :: GetItem(storage, AuthUserKey) == Some(Stringify(u)) ==> r == Some(u)
  {
    forall u | GetItem(storage, AuthUserKey) == Some(Stringify(u)) ensures Parse(Stringify(u)) == Some(u) {
      ParseStringify(u);
    }
    match GetItem(storage, AuthUserKey)
    case None => None
    case Some(raw) => if raw == "" then None else Parse(raw)
  }

  /** The provider's state and the storage it writes. */
  datatype Session = Session(user: Option<AuthUser>, token: Option<string>, isLoading: bool, storage: Storage)

  /** The state a provider starts from, read from storage. */
  function Restore(storage: Storage): Session
  {
    Session(GetStoredUser(storage), GetItem(storage, AuthTokenKey), false, storage)
  }

  /** The effect of `login` (and of `register`) once the API call returned `response` or threw. */
  function SignIn(s: Session, response: Option<AuthUser>): Session
  {
    match response
    case None => s.(isLoading := false)
    case Some(u) =>
      Session(Some(u), Some(u.token), false, s.storage[AuthUserKey := Stringify(u)][AuthTokenKey := u.token])
  }

  /** The effect of `logout`. */
  function SignOut(s: Session): Session
  {
    Session(None, None, s.isLoading, s.storage - {AuthUserKey, AuthTokenKey})
  }

  /** `isAuthenticated`: `Boolean(token)`. */
  predicate Authenticated(s: Session)
  {
    s.token.Some? && s.token.value != ""
  }

  /** The state shows what storage holds: a reload would restore the same user and token. */
  ghost predicate Mirrors(s: Session)
  {
    s.user == GetStoredUser(s.storage) && s.token == GetItem(s.storage, AuthTokenKey)
  }

  /**
   * A successful sign-in sets the user and token from the response and
   * writes both keys; a failed one changes nothing but the loading flag,
   * which is false afterwards either way.
   */
  lemma SignInOutcome(s: Session, response: Option<AuthUser>)
    ensures !SignIn(s, response).isLoading
    ensures response.None? ==> SignIn(s, response) == s.(isLoading := false)
    ensures response.Some? ==>
      var r := SignIn(s, response);
      && r.user == response && r.token == Some(response.value.token)
      && GetItem(r.storage, AuthTokenKey) == r.token
      && GetStoredUser(r.storage) == response
      && (Authenticated(r) <==> response.value.token != "")
      && forall k :: k != AuthUserKey && k != AuthTokenKey ==> GetItem(r.storage, k) == GetItem(s.storage, k)
  {
  }

  /** A fresh provider mirrors storage, and sign-in and sign-out keep it so. */
  lemma {:induction false} TransitionsKeepMirror(s: Session, response: Option<AuthUser>, storage: Storage)
    ensures Mirrors(Restore(storage))
    ensures Mirrors(s) ==> Mirrors(SignIn(s, response)) && Mirrors(SignOut(s))
  {
    if response.Some? {
      ParseStringify(response.value);
    }
  }

  /** Reloading after a successful sign-in restores the signed-in user and token. */
  lemma {:induction false} ReloadAfterSignIn(s: Session, u: AuthUser)
    ensures Restore(SignIn(s, Some(u)).storage) == Session(Some(u), Some(u.token), false, SignIn(s, Some(u)).storage)
  {
    ParseStringify(u);
  }

  /** `logout` clears user, token and both keys, and a second `logout` changes nothing. */
  lemma SignOutOutcome(s: Session)
    ensures var r := SignOut(s);
      && r.user.None? && r.token.None? && !Authenticated(r)
      && AuthUserKey !in r.storage && AuthTokenKey !in r.storage
      && SignOut(r) == r
      && Restore(r.storage) == Session(None, None, false, r.storage)
  {
  }

  class AuthProvider {
    var user: Option<AuthUser>
    var token: Option<string>
    var isLoading: bool
    var storage: Storage

    function State(): Session
      reads this
    {
      Session(user, token, isLoading, storage)
    }

    /** `useState(getStoredUser())`, `useState(localStorage.getItem("auth_token"))`, `useState(false)`. */
    constructor (stored: Storage)
      ensures State() == Restore(stored)
    {
      user := GetStoredUser(stored);
      token := GetItem(stored, AuthTokenKey);
      isLoading := false;
      storage := stored;
    }

    /** `isAuthenticated`: the token is present and not empty. */
    function IsAuthenticated(): (r: bool)
      reads this
      ensures r <==> token.Some? && token.value != ""
    {
      Authenticated(State())
    }

    /** `login(payload)`; `rejected` when the promise rejects because the API call threw. */
    method Login(response: Option<AuthUser>) returns (rejected: bool)
      modifies this
      ensures State() == SignIn(old(State()), response)
      ensures rejected == response.None?
    {
      isLoading := true;
      if response.Some? {
        var authUser := response.value;
        user := Some(authUser);
        token := Some(authUser.token);
        storage := storage[AuthUserKey := Stringify(authUser)];
        storage := storage[AuthTokenKey := authUser.token];
      }
      isLoading := false;
      rejected := response.None?;
    }

    /** `register(payload)`: the same effect as `login`. */
    method Register(response: Option<AuthUser>) returns (rejected: bool)
      modifies this
      ensures State() == SignIn(old(State()), response)
      ensures rejected == response.None?
    {
      isLoading := true;
      if response.Some? {
        var authUser := response.value;
        user := Some(authUser);
        token := Some(authUser.token);
        storage := storage[AuthUserKey := Stringify(authUser)];
        storage := storage[AuthTokenKey := authUser.token];
      }
      isLoading := false;
      rejected := response.None?;
    }

    /** `logout()`. */
    method Logout()
      modifies this
      ensures State() == SignOut(old(State()))
    {
      user := None;
      token := None;
      storage := storage - {AuthUserKey};
      storage := storage - {AuthTokenKey};
    }
  }
}
