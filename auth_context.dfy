/** The session manager of src/context/AuthContext.jsx: the signed-in user,
    the loading flag and the three keys it keeps in the browser's durable
    storage. Remote calls are not made here; their outcome is an argument. */
module AuthContext {
  import opened Js
  import Api

  const AccessTokenKey: string := Api.AccessTokenKey
  const RefreshTokenKey: string := "refresh_token"
  const UsernameKey: string := "username"

  /** The three keys the session owns. */
  const SessionKeys: set<string> := {AccessTokenKey, RefreshTokenKey, UsernameKey}

  /** The `user` object `{ username }`. On start-up the name is read back
      from storage and may be missing (`null`). */
  datatype User = User(username: Option<string>)

  /** What the client gets back from `POST token/`: a token pair, or a
      failure with the error response's data when there was a response. */
  datatype LoginReply =
    | Issued(access: string, refresh: string)
    | LoginRefused(response: Option<Json>)

  /** What the client gets back from `POST register/`. */
  datatype RegisterReply =
    | Registered
    | RegisterRefused(response: Option<Json>)

  /** The `{ success, error }` objects that `login` and `register` return. */
  datatype AuthResult = AuthSuccess | AuthFailure(error: Json)

  /** The user that start-up restores from storage: present exactly when a
      non-empty access token is stored, whatever the stored name. */
  function RestoredUser(storage: map<string, string>): (u: Option<User>)
    ensures u.Some? <==> Filled(Lookup(storage, AccessTokenKey))
    ensures u.Some? ==> u.value.username == Lookup(storage, UsernameKey)
  {
    if Filled(Lookup(storage, AccessTokenKey)) then Some(User(Lookup(storage, UsernameKey))) else None
  }

  /** Storage after a successful login. */
  function SignedInStorage(storage: map<string, string>, username: string, access: string, refresh: string)
    : (s: map<string, string>)
    ensures Lookup(s, AccessTokenKey) == Some(access)
    ensures Lookup(s, RefreshTokenKey) == Some(refresh)
    ensures Lookup(s, UsernameKey) == Some(username)
    ensures forall k :: k !in SessionKeys ==> Lookup(s, k) == Lookup(storage, k)
  {
    storage[AccessTokenKey := access][RefreshTokenKey := refresh][UsernameKey := username]
  }

  /** Storage after logout. */
  function SignedOutStorage(storage: map<string, string>): (s: map<string, string>)
    ensures forall k :: k in SessionKeys ==> k !in s
    ensures forall k :: k !in SessionKeys ==> Lookup(s, k) == Lookup(storage, k)
  {
    storage - SessionKeys
  }

  /** The message a failed login reports: the server's `detail` when it is
      truthy, otherwise `'Login failed'`. */
  function LoginError(response: Option<Json>): (e: Json)
    ensures Truthy(e)
    ensures response.Some? && response.value.JObject? && Present(Lookup(response.value.fields, "detail"))
      ==> e == response.value.fields["detail"]
    ensures !(response.Some? && response.value.JObject? && Present(Lookup(response.value.fields, "detail")))
      ==> e == JStr("Login failed")
  {
    var detail := match response
      case Some(JObject(fields)) => Lookup(fields, "detail")
      case _ => None;
    OrElse(detail, JStr("Login failed"))
  }

  /** The error a failed registration reports: the server's whole payload
      when it is truthy, otherwise `'Registration failed'`. */
  function RegisterError(response: Option<Json>): (e: Json)
    ensures Truthy(e)
    ensures Present(response) ==> e == response.value
    ensures !Present(response) ==> e == JStr("Registration failed")
  {
    OrElse(response, JStr("Registration failed"))
  }

  /** The context provider's state. */
  class AuthProvider {
    var user: Option<User>
    var loading: bool
    /** The browser's `localStorage`, shared with every other key. */
    var storage: map<string, string>

    /** The provider as first rendered: no user, still loading. */
    constructor (storage: map<string, string>)
      ensures user == None && loading && this.storage == storage
    {
      user := None;
      loading := true;
      this.storage := storage;
    }

    /** The start-up effect: restore the user from a stored token without
      any network call, then stop loading. */
    method Bootstrap()
      modifies this`user, this`loading
      ensures user == if RestoredUser(storage).Some? then RestoredUser(storage) else old(user)
      ensures !loading
    {
      var token := Lookup(storage, AccessTokenKey);
      if Filled(token) {
        var username := Lookup(storage, UsernameKey);
        user := Some(User(username));
      }
      loading := false;
    }

    /** `login(username, password)`, with the reply to `POST token/` given. */
    method Login(username: string, password: string, reply: LoginReply) returns (result: AuthResult)
      modifies this`user, this`storage
      ensures reply.Issued? ==> result == AuthSuccess
      ensures reply.Issued? ==> storage == SignedInStorage(old(storage), username, reply.access, reply.refresh)
      ensures reply.Issued? ==> user == Some(User(Some(username)))
      ensures reply.LoginRefused? ==> result == AuthFailure(LoginError(reply.response))
      ensures reply.LoginRefused? ==> storage == old(storage) && user == old(user)
    {
      match reply
      case Issued(access, refresh) =>
        storage := storage[AccessTokenKey := access];
        storage := storage[RefreshTokenKey := refresh];
        storage := storage[UsernameKey := username];
        user := Some(User(Some(username)));
        result := AuthSuccess;
      case LoginRefused(response) =>
        result := AuthFailure(LoginError(response));
    }

    /** `register(userData)`, with the reply to `POST register/` given; it
      changes no state at all. */
    method Register(userData: Json, reply: RegisterReply) returns (result: AuthResult)
      ensures result.AuthSuccess? <==> reply.Registered?
      ensures reply.RegisterRefused? ==> result == AuthFailure(RegisterError(reply.response))
    {
      match reply
      case Registered =>
        result := AuthSuccess;
      case RegisterRefused(response) =>
        result := AuthFailure(RegisterError(response));
    }

    /** `logout()`: drop the three keys and the user; it cannot fail. */
    method Logout()
      modifies this`user, this`storage
      ensures storage == SignedOutStorage(old(storage))
      ensures user == None
    {
      storage := storage - {AccessTokenKey};
      storage := storage - {RefreshTokenKey};
      storage := storage - {UsernameKey};
      user := None;
    }
  }

  /** Logging out twice is logging out once. */
  lemma SignOutIdempotent(storage: map<string, string>)
    ensures SignedOutStorage(SignedOutStorage(storage)) == SignedOutStorage(storage)
  {
  }

  /** Start-up after a logout finds nobody signed in. */
  lemma NoUserRestoredAfterSignOut(storage: map<string, string>)
    ensures RestoredUser(SignedOutStorage(storage)) == None
  {
  }

  /** Start-up after a login with a non-empty access token restores exactly
      the user who signed in. */
  lemma SignedInUserRestored(storage: map<string, string>, username: string, access: string, refresh: string)
    requires access != ""
    ensures RestoredUser(SignedInStorage(storage, username, access, refresh)) == Some(User(Some(username)))
  {
  }

  /** A login whose server hands out an empty access token is not
      remembered across a reload. */
  lemma EmptyTokenNotRestored(storage: map<string, string>, username: string, refresh: string)
    ensures RestoredUser(SignedInStorage(storage, username, "", refresh)) == None
  {
  }

  /** The login scenario: alice signs in and gets the pair t1/r1. */
  method AliceSignsIn(storage: map<string, string>)
  {
    var auth := new AuthProvider(storage);
    auth.Bootstrap();
    var result := auth.Login("alice", "Secret123", Issued("t1", "r1"));
    assert result == AuthSuccess;
    assert auth.user == Some(User(Some("alice")));
    assert Lookup(auth.storage, AccessTokenKey) == Some("t1");
    assert Lookup(auth.storage, RefreshTokenKey) == Some("r1");
    assert Lookup(auth.storage, UsernameKey) == Some("alice");
    assert !auth.loading;
    auth.Logout();
    assert auth.storage.Keys !! SessionKeys;
    assert RestoredUser(auth.storage) == None;
  }
}
