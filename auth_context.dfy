/**
 * The sign-in state holder: on every report from the identity provider it
 * records the user, asks the backend for a session token when the user has an
 * email and stores the token it gets, drops the stored token when the user
 * has none, and then stops loading.
 */
module AuthContext {
  import opened Wrappers
  import opened Habits
  import opened Browser

  const DefaultApiUrl: string := "http://localhost:5000"

  /** `POST <apiUrl>/jwt` with body `{ email, name }`. */
  datatype JwtRequest = JwtRequest(url: string, email: string, name: string)

  /** How the token request settled: a response whose `data.token` may be missing, or a thrown error. */
  datatype JwtReply =
    | JwtIssued(token: Option<string>)
    | JwtFailed

  /** The configured backend, or the local default when the setting is missing or empty. */
  function ApiUrl(configured: Option<string>): (r: string)
    ensures Truthy(configured) ==> r == configured.value
    ensures !Truthy(configured) ==> r == DefaultApiUrl
  {
    Or(configured, Some(DefaultApiUrl)).value
  }

  /** The name sent with the token request: the display name when present, otherwise the email. */
  function NameFor(u: User): (r: string)
    requires Truthy(u.email)
    ensures r != ""
    ensures Truthy(u.displayName) ==> r == u.displayName.value
    ensures !Truthy(u.displayName) ==> r == u.email.value
  {
    Or(u.displayName, u.email).value
  }

  class AuthProvider {
    var user: Option<User>
    var loading: bool
    /** The browser whose local storage holds the session token. */
    const window: Window

    constructor (window: Window)
      ensures this.window == window
      ensures user.None? && loading
    {
      this.window := window;
      user := None;
      loading := true;
    }

    /**
     * The `onAuthStateChanged` callback. `u` is the reported user (None on
     * sign-out), `reply` how the token request settled; `request` is the
     * token request made, if any.
     */
    method OnAuthStateChanged(u: Option<User>, apiUrl: Option<string>, reply: JwtReply) returns (request: Option<JwtRequest>)
      modifies this, window
      ensures user == u && !loading
      ensures window.location == old(window.location)
      ensures !(u.Some? && Truthy(u.value.email)) ==> request.None? && window.token.None?
      ensures u.Some? && Truthy(u.value.email) ==>
                request == Some(JwtRequest(ApiUrl(apiUrl) + "/jwt", u.value.email.value, NameFor(u.value)))
      ensures u.Some? && Truthy(u.value.email) ==>
                window.token == if reply.JwtIssued? && Truthy(reply.token) then reply.token else old(window.token)
    {
      user := u;
      if u.Some? && Truthy(u.value.email) {
        request := Some(JwtRequest(ApiUrl(apiUrl) + "/jwt", u.value.email.value, NameFor(u.value)));
        match reply {
          case JwtIssued(token) =>
            if Truthy(token) {
              window.token := token;
            }
          case JwtFailed =>
        }
      } else {
        request := None;
        window.token := None;
      }
      loading := false;
    }
  }

  /** Signing out and then in again with an issued token leaves the new token stored. */
  method SignOutThenIn(provider: AuthProvider, someone: User, apiUrl: Option<string>, issued: string)
    requires Truthy(someone.email) && issued != ""
    modifies provider, provider.window
    ensures provider.user == Some(someone) && !provider.loading
    ensures provider.window.token == Some(issued)
  {
    var r1 := provider.OnAuthStateChanged(None, apiUrl, JwtFailed);
    var r2 := provider.OnAuthStateChanged(Some(someone), apiUrl, JwtIssued(Some(issued)));
  }
}
