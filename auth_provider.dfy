/** The auth provider: the signed-in user and token held by the page, kept in
    step with the session storage. The token is read from storage when the
    provider is created and validated once against `/api/auth/me`. Both of
    its requests go through the shared client, so a 401 answer first passes
    the client's response interceptor, which clears storage and assigns
    `/login` to the window's location. */
module AuthProvider {
  import opened Common
  import opened Session
  import ApiClient

  const MeEndpoint := "/api/auth/me"
  const LoginEndpoint := "/api/auth/login"

  /** The requests the provider issues. */
  datatype AuthRequest = MeRequest | LoginRequest(username: string, password: string)

  /** The body of a successful login answer. */
  datatype LoginBody = LoginBody(accessToken: string, user: User)

  /** `!!token && !!user`: a present, non-empty token together with a user;
      an empty token never authenticates. */
  predicate Authenticated(token: Option<string>, user: Option<User>)
  {
    Truthy(token) && user.Some?
  }

  class AuthProvider {
    var user: Option<User>
    var token: Option<string>
    var loading: bool
    const storage: SessionStorage
    /** The requests issued so far, in order. */
    var requested: seq<AuthRequest>

    /** A user is only held together with the token that storage holds. */
    predicate Mirrored()
      reads this, storage
    {
      user.Some? ==> token == storage.token
    }

    /** The provider is created with the stored token, no user, and loading. */
    constructor (storage: SessionStorage)
      ensures this.storage == storage && Mirrored()
      ensures token == storage.token && user == None && loading && requested == []
    {
      this.storage := storage;
      token := storage.token;
      user := None;
      loading := true;
      requested := [];
    }

    function IsAuthenticated(): bool
      reads this
    {
      Authenticated(token, user)
    }

    /** `validateToken` against the outcome of `/api/auth/me`. Without a
        truthy stored token nothing is requested and only loading ends. On
        success the user is the answer and the token the stored one; on
        failure the session is cleared from storage and state, and a 401 also
        has the interceptor load `/login`. Loading ends on every path. */
    method ValidateToken(me: Outcome<User>) returns (reload: Option<string>)
      requires Mirrored()
      modifies this`user, this`token, this`loading, this`requested, storage
      ensures Mirrored() && !loading
      ensures reload.Some? <==> Truthy(old(storage.token)) && me.Err? && IsUnauthorized(me.error)
      ensures reload.Some? ==> reload.value == ApiClient.LoginPath
      ensures !Truthy(old(storage.token)) ==>
        && requested == old(requested) && user == old(user) && token == old(token)
        && storage.token == old(storage.token) && storage.user == old(storage.user)
      ensures Truthy(old(storage.token)) && me.Ok? ==>
        && requested == old(requested) + [MeRequest]
        && user == Some(me.payload) && token == old(storage.token)
        && storage.token == old(storage.token) && storage.user == old(storage.user)
      ensures Truthy(old(storage.token)) && me.Err? ==>
        && requested == old(requested) + [MeRequest]
        && user == None && token == None && storage.token == None && storage.user == None
    {
      reload := None;
      var storedToken := storage.token;
      if storedToken.None? || storedToken.value == [] {
        loading := false;
        return;
      }
      requested := requested + [MeRequest];
      match me {
        case Ok(u) =>
          user := Some(u);
          token := storedToken;
        case Err(e) =>
          var rejected;
          rejected, reload := ApiClient.OnResponseError(e, storage);
          storage.Clear();
          user := None;
          token := None;
      }
      loading := false;
    }

    /** `login` against the outcome of its request. On success the token and
        user go to storage and to state. On failure the provider's state is
        unchanged and the error is handed back to the caller; a 401 has first
        passed the interceptor, which cleared storage and loaded `/login`, so
        the state mirrors storage again only once that load has happened. */
    method Login(username: string, password: string, o: Outcome<LoginBody>)
        returns (failure: Option<HttpError>, reload: Option<string>)
      requires Mirrored()
      modifies this`user, this`token, this`requested, storage
      ensures reload.None? ==> Mirrored()
      ensures requested == old(requested) + [LoginRequest(username, password)]
      ensures failure.Some? <==> o.Err?
      ensures reload.Some? <==> o.Err? && IsUnauthorized(o.error)
      ensures reload.Some? ==> reload.value == ApiClient.LoginPath
      ensures o.Ok? ==>
        && storage.token == Some(o.payload.accessToken) && storage.user == Some(o.payload.user)
        && token == Some(o.payload.accessToken) && user == Some(o.payload.user)
      ensures o.Err? ==> failure == Some(o.error) && user == old(user) && token == old(token)
      ensures o.Err? && IsUnauthorized(o.error) ==> storage.token == None && storage.user == None
      ensures o.Err? && !IsUnauthorized(o.error) ==>
        storage.token == old(storage.token) && storage.user == old(storage.user)
    {
      requested := requested + [LoginRequest(username, password)];
      match o {
        case Err(e) =>
          var rejected;
          rejected, reload := ApiClient.OnResponseError(e, storage);
          return Some(rejected), reload;
        case Ok(body) =>
          storage.token := Some(body.accessToken);
          storage.user := Some(body.user);
          token := Some(body.accessToken);
          user := Some(body.user);
          return None, None;
      }
    }

    /** `logout`: both storage keys removed and both fields cleared. */
    method Logout()
      modifies this`user, this`token, storage
      ensures Mirrored()
      ensures user == None && token == None && storage.token == None && storage.user == None
    {
      storage.Clear();
      token := None;
      user := None;
    }
  }

  /** While the provider is authenticated, the token it holds is the stored
      one, so every request the client sends carries it. */
  lemma AuthenticatedRequestsCarryToken(p: AuthProvider)
    requires p.Mirrored() && p.IsAuthenticated()
    ensures Truthy(p.storage.token) && p.storage.token == p.token
  {
  }
}
