/**
 * The guard in front of the signed-in pages: a spinner while the sign-in
 * state is unknown, a redirect to the sign-in page that remembers where the
 * visitor was going when nobody is signed in, and the child pages otherwise.
 */
module PrivateRoute {
  import opened Wrappers
  import opened Habits
  import AuthContext

  const LoginPath: string := "/login"

  datatype Decision =
    | Spinner
    | Redirect(to: string, from: string, replace: bool)
    | Outlet

  /** What `PrivateRoute` renders for the auth state `(loading, user)` at `location`. */
  function Decide(loading: bool, user: Option<User>, location: string): (r: Decision)
    ensures r.Spinner? <==> loading
    ensures r.Redirect? <==> !loading && user.None?
    ensures r.Outlet? <==> !loading && user.Some?
    ensures r.Redirect? ==> r == Redirect(LoginPath, location, true)
  {
    if loading then Spinner
    else if user.None? then Redirect(LoginPath, location, true)
    else Outlet
  }

  /**
   * Once the identity provider has reported, the guard never shows the
   * spinner again: it lets a signed-in user through and sends anybody else
   * to the sign-in page.
   */
  method AfterFirstReport(provider: AuthContext.AuthProvider, u: Option<User>, apiUrl: Option<string>,
                          reply: AuthContext.JwtReply, location: string) returns (d: Decision)
    modifies provider, provider.window
    ensures u.Some? ==> d == Outlet
    ensures u.None? ==> d == Redirect(LoginPath, location, true) && provider.window.token.None?
  {
    var request := provider.OnAuthStateChanged(u, apiUrl, reply);
    d := Decide(provider.loading, provider.user, location);
  }
}
