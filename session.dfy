/** The browser's `sessionStorage`, as far as the session uses it: the `token`
    and `user` keys. The storage is one object shared by the auth provider and
    the API client's interceptors. */
module Session {
  import opened Common

  /** The signed-in user as the identity service describes it. */
  datatype User = User(id: int, username: string, fullName: string, role: string)

  /** JavaScript truthiness of a stored string: present and not empty. */
  predicate Truthy(s: Option<string>)
  {
    s.Some? && s.value != []
  }

  class SessionStorage {
    /** The `token` key. */
    var token: Option<string>
    /** The `user` key; the JSON text it holds is modelled by the value it
        encodes. */
    var user: Option<User>

    constructor (token: Option<string>, user: Option<User>)
      ensures this.token == token && this.user == user
    {
      this.token := token;
      this.user := user;
    }

    /** `removeItem('token')` and `removeItem('user')`. */
    method Clear()
      modifies this
      ensures token == None && user == None
    {
      token := None;
      user := None;
    }
  }
}
