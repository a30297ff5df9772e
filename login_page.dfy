/** The login page: a username/password form whose submit handler validates
    the fields, calls the provider's `login`, and maps a failure to one of
    three messages. An authenticated visitor is sent to the home page. */
module LoginPage {
  import opened Common
  import opened Session
  import Text
  import ApiClient
  import AP = AuthProvider

  const HomePath := "/"
  const RequiredMessage := "Kullanıcı adı ve şifre gereklidir."
  const WrongCredentialsMessage := "Kullanıcı adı veya şifre hatalı."
  const RetryMessage := "Giriş yapılamadı. Lütfen tekrar deneyin."
  const ConnectionMessage := "Sunucu ile bağlantı kurulamadı."

  /** The message for a failed login. */
  function LoginErrorText(e: HttpError): (r: string)
    ensures r == WrongCredentialsMessage <==> IsUnauthorized(e)
    ensures r == ConnectionMessage <==> e.ErrNoResponse?
    ensures r == RetryMessage <==> e.ErrResponse? && e.status != 401
  {
    match e
    case ErrResponse(status, _) => if status == 401 then WrongCredentialsMessage else RetryMessage
    case ErrNoResponse => ConnectionMessage
  }

  /** Both fields have a non-blank character. */
  predicate Filled(username: string, password: string)
  {
    Text.Strip(username, Text.JavaScript) != [] && Text.Strip(password, Text.JavaScript) != []
  }

  class LoginPage {
    var username: string
    var password: string
    var error: Option<string>
    var loading: bool
    /** The client-side navigations made so far. */
    var navigations: seq<string>
    /** The paths assigned to `window.location.href` so far; each starts a
        full page load that builds the application again from storage. */
    var locationLoads: seq<string>

    constructor ()
      ensures username == [] && password == [] && error == None && !loading
      ensures navigations == [] && locationLoads == []
    {
      username := [];
      password := [];
      error := None;
      loading := false;
      navigations := [];
      locationLoads := [];
    }

    method EditFields(u: string, p: string)
      modifies this`username, this`password
      ensures username == u && password == p
    {
      username := u;
      password := p;
    }

    /** A render: an authenticated visitor is navigated home and nothing is
        rendered. */
    method Render(isAuthenticated: bool) returns (rendersForm: bool)
      modifies this`navigations
      ensures rendersForm <==> !isAuthenticated
      ensures navigations == old(navigations) + (if isAuthenticated then [HomePath] else [])
    {
      if isAuthenticated {
        navigations := navigations + [HomePath];
        return false;
      }
      return true;
    }

    /** The submit handler up to the login call: the error is cleared, and a
        blank field sets the required-fields message and stops. */
    method BeginSubmit() returns (proceed: bool)
      modifies this`error, this`loading
      ensures proceed <==> Filled(username, password)
      ensures proceed ==> error == None && loading
      ensures !proceed ==> error == Some(RequiredMessage) && loading == old(loading)
    {
      error := None;
      if Text.Strip(username, Text.JavaScript) == [] || Text.Strip(password, Text.JavaScript) == [] {
        error := Some(RequiredMessage);
        return false;
      }
      loading := true;
      return true;
    }

    /** After the login call: home on success, the mapped message on failure;
        loading ends either way. */
    method FinishSubmit(failure: Option<HttpError>)
      requires error == None
      modifies this`error, this`loading, this`navigations
      ensures !loading
      ensures failure.None? ==> navigations == old(navigations) + [HomePath] && error == None
      ensures failure.Some? ==> navigations == old(navigations) && error == Some(LoginErrorText(failure.value))
    {
      match failure {
        case None =>
          navigations := navigations + [HomePath];
        case Some(e) =>
          error := Some(LoginErrorText(e));
      }
      loading := false;
    }

    /** A whole submission against the outcome of the login request. The
        fields are sent as typed, untrimmed. A 401 has passed the client's
        interceptor before the message is set: storage is cleared and
        `/login` is loaded. */
    method HandleSubmit(auth: AP.AuthProvider, o: Outcome<AP.LoginBody>)
      requires auth.Mirrored()
      modifies this`error, this`loading, this`navigations, this`locationLoads
      modifies auth`user, auth`token, auth`requested, auth.storage
      ensures locationLoads == old(locationLoads) ==> auth.Mirrored()
      ensures !Filled(username, password) ==>
        && error == Some(RequiredMessage) && loading == old(loading)
        && navigations == old(navigations) && locationLoads == old(locationLoads)
        && auth.requested == old(auth.requested) && auth.token == old(auth.token) && auth.user == old(auth.user)
        && auth.storage.token == old(auth.storage.token) && auth.storage.user == old(auth.storage.user)
      ensures Filled(username, password) ==>
        && !loading
        && auth.requested == old(auth.requested) + [AP.LoginRequest(username, password)]
        && (o.Ok? ==> (navigations == old(navigations) + [HomePath] && error == None
                       && locationLoads == old(locationLoads)
                       && auth.IsAuthenticated() == (o.payload.accessToken != [])))
        && (o.Err? ==> (navigations == old(navigations) && error == Some(LoginErrorText(o.error))
                        && auth.token == old(auth.token) && auth.user == old(auth.user)))
        && (o.Err? && IsUnauthorized(o.error) ==>
              && locationLoads == old(locationLoads) + [ApiClient.LoginPath]
              && auth.storage.token == None && auth.storage.user == None)
        && (o.Err? && !IsUnauthorized(o.error) ==>
              && locationLoads == old(locationLoads)
              && auth.storage.token == old(auth.storage.token) && auth.storage.user == old(auth.storage.user))
    {
      var proceed := BeginSubmit();
      if !proceed {
        return;
      }
      var failure, reload := auth.Login(username, password, o);
      if reload.Some? {
        locationLoads := locationLoads + [reload.value];
      }
      FinishSubmit(failure);
    }
  }

  /** A wrong password never shows its message for long: the login answer is
      a 401, so the interceptor has assigned `/login` to the location before
      the page sets the wrong-credentials message, and the page that load
      brings up, built again from the cleared storage, has no message and no
      session. */
  method WrongPasswordMessageReplaced(u: string, p: string, detail: Option<string>)
      returns (before: LoginPage, after: LoginPage, auth: AP.AuthProvider)
    requires Filled(u, p)
    ensures before.error == Some(WrongCredentialsMessage) && before.locationLoads == [ApiClient.LoginPath]
    ensures after.error == None && !auth.IsAuthenticated() && auth.storage.token == None
  {
    var storage := new SessionStorage(None, None);
    var signedOut := new AP.AuthProvider(storage);
    before := new LoginPage();
    before.EditFields(u, p);
    before.HandleSubmit(signedOut, Err(ErrResponse(401, detail)));
    auth := new AP.AuthProvider(storage);
    after := new LoginPage();
  }

  /** Each failure gets exactly one of the three messages, and none of them
      is the required-fields message. */
  lemma LoginErrorTextDistinct(e: HttpError)
    ensures LoginErrorText(e) in {WrongCredentialsMessage, RetryMessage, ConnectionMessage}
    ensures LoginErrorText(e) != RequiredMessage
  {
  }
}
