/** The backend's authentication routes. A request is authorised by a
    `Bearer` header whose token the identity service resolves to a user;
    `login` exchanges credentials for a token and the user it belongs to, and
    `me` returns the current user. The identity service's answers are inputs:
    `getUser` maps a token to the user dict or to the exception it raised. */
module AuthRouter {
  import opened Common
  import Text
  import Session
  import ApiClient

  /** A JSON object from the identity service, its values kept as text. */
  type UserDict = map<string, string>

  const BearerPrefix := "Bearer "
  const TokenKey := "token"
  const AccessTokenKey := "access_token"

  const MissingHeaderDetail := "Missing or invalid authorization header"
  const InvalidTokenDetail := "Invalid or expired token"
  const NoTokenDetail := "No access token received"
  const UserInfoDetail := "Failed to fetch user info"

  /** `s.split(" ", 1)[1]`: the text after the first space. */
  function AfterFirstSpace(s: string): string
    requires ' ' in s
  {
    if s[0] == ' ' then s[1..] else AfterFirstSpace(s[1..])
  }

  /** Splitting at the first space skips a space-free prefix and the space. */
  lemma {:induction false} AfterFirstSpaceSkips(p: string, rest: string)
    requires ' ' !in p
    ensures ' ' in p + " " + rest
    ensures AfterFirstSpace(p + " " + rest) == rest
  {
    var s := p + " " + rest;
    assert s[|p|] == ' ';
    if p != [] {
      assert s[1..] == p[1..] + " " + rest;
      AfterFirstSpaceSkips(p[1..], rest);
    }
  }

  /** For a header with the `Bearer ` prefix the token is exactly the rest of
      the header. */
  lemma BearerTokenIsSuffix(h: string)
    requires Text.StartsWith(h, BearerPrefix)
    ensures ' ' in h && AfterFirstSpace(h) == h[|BearerPrefix|..]
  {
    assert h == "Bearer" + " " + h[|BearerPrefix|..];
    AfterFirstSpaceSkips("Bearer", h[|BearerPrefix|..]);
  }

  /** `get_current_user`: 401 without a `Bearer ` header or when the identity
      service refuses the token; otherwise the user with the token added. */
  function GetCurrentUser(header: Option<string>, getUser: string -> Attempt<UserDict>): (r: RouteResult<UserDict>)
    ensures r.Answer? <==>
      header.Some? && Text.StartsWith(header.value, BearerPrefix) && getUser(header.value[|BearerPrefix|..]).Returned?
    ensures r.Answer? ==>
      r.body == getUser(header.value[|BearerPrefix|..]).value[TokenKey := header.value[|BearerPrefix|..]]
    ensures r.Reject? ==> r.error.status == 401
  {
    if header.None? || header.value == [] || !Text.StartsWith(header.value, BearerPrefix) then
      Reject(HttpException(401, MissingHeaderDetail))
    else
      BearerTokenIsSuffix(header.value);
      var token := AfterFirstSpace(header.value);
      match getUser(token)
      case Raised(_) => Reject(HttpException(401, InvalidTokenDetail))
      case Returned(user) => Answer(user[TokenKey := token])
  }

  /** `me`: the current user without its `token` key. */
  function Me(current: UserDict): (r: UserDict)
    ensures TokenKey !in r
    ensures forall k :: k != TokenKey ==> (k in r <==> k in current)
    ensures forall k :: k in r ==> r[k] == current[k]
  {
    map k | k in current && k != TokenKey :: current[k]
  }

  /** `me` gives back the service's user unchanged, unless that user had a
      `token` key of its own, which is dropped. */
  lemma MeReturnsServiceUser(header: Option<string>, getUser: string -> Attempt<UserDict>)
    requires GetCurrentUser(header, getUser).Answer?
    ensures var user := getUser(header.value[|BearerPrefix|..]).value;
      && Me(GetCurrentUser(header, getUser).body) == user - {TokenKey}
      && (TokenKey !in user ==> Me(GetCurrentUser(header, getUser).body) == user)
  {
    var user := getUser(header.value[|BearerPrefix|..]).value;
    assert Me(GetCurrentUser(header, getUser).body) == user - {TokenKey};
  }

  /** The body of a successful login. */
  datatype LoginAnswer = LoginAnswer(accessToken: string, user: UserDict)

  /** `login`: 401 when the credentials are refused, when the answer has no
      non-empty `access_token`, or when the token's user cannot be fetched. */
  function Login(username: string, password: string, authenticate: Attempt<UserDict>,
                 getUser: string -> Attempt<UserDict>): (r: RouteResult<LoginAnswer>)
    ensures r.Answer? <==>
      && authenticate.Returned?
      && AccessTokenKey in authenticate.value && authenticate.value[AccessTokenKey] != []
      && getUser(authenticate.value[AccessTokenKey]).Returned?
    ensures r.Answer? ==>
      r.body == LoginAnswer(authenticate.value[AccessTokenKey], getUser(authenticate.value[AccessTokenKey]).value)
    ensures r.Reject? ==> r.error.status == 401
    ensures authenticate.Raised? ==> r == Reject(HttpException(401, "Authentication failed: " + authenticate.exc))
  {
    match authenticate
    case Raised(exc) => Reject(HttpException(401, "Authentication failed: " + exc))
    case Returned(authData) =>
      if AccessTokenKey !in authData || authData[AccessTokenKey] == [] then
        Reject(HttpException(401, NoTokenDetail))
      else
        var accessToken := authData[AccessTokenKey];
        match getUser(accessToken)
        case Raised(_) => Reject(HttpException(401, UserInfoDetail))
        case Returned(user) => Answer(LoginAnswer(accessToken, user))
  }

  /** The session round trip: the token a login hands out is truthy, so once
      stored the client sends it as a `Bearer` header, and `get_current_user`
      reads that header back to the same token. A missing or empty stored
      token sends no header and is refused with 401. */
  lemma BearerRoundTrip(token: Option<string>, getUser: string -> Attempt<UserDict>)
    ensures Session.Truthy(token) ==>
      GetCurrentUser(ApiClient.BearerFor(token), getUser)
        == (match getUser(token.value)
            case Returned(user) => Answer(user[TokenKey := token.value])
            case Raised(_) => Reject(HttpException(401, InvalidTokenDetail)))
    ensures !Session.Truthy(token) ==>
      GetCurrentUser(ApiClient.BearerFor(token), getUser) == Reject(HttpException(401, MissingHeaderDetail))
  {
    if Session.Truthy(token) {
      var h := ApiClient.BearerFor(token).value;
      assert Text.StartsWith(h, BearerPrefix);
      BearerTokenIsSuffix(h);
    }
  }

  /** A login answer always carries a token the client will send. */
  lemma LoginTokenIsSent(username: string, password: string, authenticate: Attempt<UserDict>,
                         getUser: string -> Attempt<UserDict>)
    requires Login(username, password, authenticate, getUser).Answer?
    ensures var t := Login(username, password, authenticate, getUser).body.accessToken;
      && Session.Truthy(Some(t))
      && GetCurrentUser(ApiClient.BearerFor(Some(t)), getUser).Answer?
  {
    var t := Login(username, password, authenticate, getUser).body.accessToken;
    BearerRoundTrip(Some(t), getUser);
  }
}
