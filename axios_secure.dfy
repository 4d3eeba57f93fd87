/**
 * The authenticated HTTP client: every outgoing request carries the stored
 * session token as a bearer credential (section 2.1 of RFC 6750), and a
 * 401 Unauthorized answer (section 15.5.2 of RFC 9110) throws the token
 * away and sends the window to the sign-in page, while the error still
 * reaches the caller.
 */
module AxiosSecure {
  import opened Wrappers
  import opened Text
  import opened Habits
  import opened Browser

  /** The part of an axios request config the interceptors look at. */
  datatype RequestConfig = RequestConfig(verb: string, url: string, headers: map<string, string>)

  /** A settled response: `status` is None when no response arrived (a network failure). */
  datatype HttpError = HttpError(status: Option<int>, code: Option<string>, serverMessage: Option<string>)

  datatype Settled<T> =
    | Resolved(response: T)
    | Rejected(error: HttpError)

  const AuthorizationHeader: string := "authorization"
  const Unauthorized: int := 401
  const LoginPath: string := "/login"

  // ---------------------------------------------------------------------------
  // The credential

  /** The `Authorization` header value: the scheme "Bearer", one space, the token. */
  function BearerCredentials(token: string): string {
    "Bearer " + token
  }

  /** Reads the token back from an `Authorization` value; None when it is not a bearer credential. */
  function ParseBearer(value: string): (r: Option<string>)
    ensures r.Some? ==> BearerCredentials(r.value) == value
  {
    if StartsWith(value, "Bearer ") then
      assert value == value[..7] + value[7..];
      Some(value[7..])
    else None
  }

  /** Reading back the credential gives the token that went in. */
  lemma BearerRoundTrip(token: string)
    ensures ParseBearer(BearerCredentials(token)) == Some(token)
  {
    var v := BearerCredentials(token);
    assert v[..7] == "Bearer ";
    assert v[7..] == token;
  }

  /** A character of RFC 6750's b64token: letters, digits and `-._~+/`. */
  predicate IsB64TokenChar(c: char) {
    ('A' <= c <= 'Z') || ('a' <= c <= 'z') || ('0' <= c <= '9')
    || c == '-' || c == '.' || c == '_' || c == '~' || c == '+' || c == '/'
  }

  /** `t` is `k` b64token characters followed only by `=` padding. */
  predicate B64TokenSplit(t: string, k: nat) {
    1 <= k <= |t|
    && (forall i :: 0 <= i < k ==> IsB64TokenChar(t[i]))
    && (forall i :: k <= i < |t| ==> t[i] == '=')
  }

  /** RFC 6750's `b64token = 1*( ALPHA / DIGIT / "-" / "." / "_" / "~" / "+" / "/" ) *"="`. */
  ghost predicate IsB64Token(t: string) {
    exists k: nat :: B64TokenSplit(t, k)
  }

  /** `v` is "Bearer", then `n` spaces, then a b64token. */
  ghost predicate BearerSplit(v: string, n: nat) {
    1 <= n && 6 + n <= |v| && v[..6] == "Bearer"
    && (forall i :: 6 <= i < 6 + n ==> v[i] == ' ')
    && IsB64Token(v[6 + n..])
  }

  /** RFC 6750's `credentials = "Bearer" 1*SP b64token`. */
  ghost predicate IsBearerCredentials(v: string) {
    exists n: nat :: BearerSplit(v, n)
  }

  /**
   * The header the interceptor builds is a well-formed bearer credential
   * whenever the stored token is a b64token; the interceptor itself does not
   * check the token's characters.
   */
  lemma WellFormedCredentials(token: string)
    requires IsB64Token(token)
    ensures IsBearerCredentials(BearerCredentials(token))
  {
    var v := BearerCredentials(token);
    assert v[7..] == token;
    assert v[..6] == "Bearer";
    assert v[6] == ' ';
    assert BearerSplit(v, 1);
  }

  // ---------------------------------------------------------------------------
  // The interceptors

  /**
   * The request interceptor: the token is read from storage on every call;
   * when it is present and not empty the request gains
   * `authorization: Bearer <token>`, otherwise it goes out unchanged.
   */
  method AttachToken(window: Window, config: RequestConfig) returns (out: RequestConfig)
    ensures Truthy(window.token) ==>
              AuthorizationHeader in out.headers
              && ParseBearer(out.headers[AuthorizationHeader]) == window.token
    ensures Truthy(window.token) ==>
              out == config.(headers := config.headers[AuthorizationHeader := BearerCredentials(window.token.value)])
    ensures !Truthy(window.token) ==> out == config
  {
    var token := window.token;
    out := config;
    if token.Some? && token.value != "" {
      out := out.(headers := out.headers[AuthorizationHeader := BearerCredentials(token.value)]);
      BearerRoundTrip(token.value);
    }
  }

  /**
   * The response interceptor: a success passes through; every error is
   * rejected to the caller as it came; a 401 first removes the stored token
   * and moves the window to '/login', any other error leaves both alone.
   */
  method HandleResponse<T>(window: Window, reply: Settled<T>) returns (result: Settled<T>)
    modifies window
    ensures result == reply
    ensures reply.Rejected? && reply.error.status == Some(Unauthorized) ==>
              window.token.None? && window.location == LoginPath
    ensures !(reply.Rejected? && reply.error.status == Some(Unauthorized)) ==>
              window.token == old(window.token) && window.location == old(window.location)
  {
    if reply.Rejected? && reply.error.status == Some(Unauthorized) {
      window.token := None;
      window.location := LoginPath;
    }
    result := reply;
  }

  /** One call through the client: the request as sent, then the settled outcome the caller sees. */
  method Send<T>(window: Window, config: RequestConfig, reply: Settled<T>) returns (sent: RequestConfig, result: Settled<T>)
    modifies window
    ensures Truthy(old(window.token)) ==>
              sent == config.(headers := config.headers[AuthorizationHeader := BearerCredentials(old(window.token).value)])
    ensures !Truthy(old(window.token)) ==> sent == config
    ensures result == reply
    ensures reply.Rejected? && reply.error.status == Some(Unauthorized) ==>
              window.token.None? && window.location == LoginPath
    ensures !(reply.Rejected? && reply.error.status == Some(Unauthorized)) ==>
              window.token == old(window.token) && window.location == old(window.location)
  {
    sent := AttachToken(window, config);
    result := HandleResponse(window, reply);
  }

  /**
   * The session ends on a 401: after one call is answered 401, the next call
   * goes out without a credential, and its error (if any) still reaches the caller.
   */
  method ExpiredSession<T>(window: Window, first: RequestConfig, second: RequestConfig, secondReply: Settled<T>)
    returns (sentFirst: RequestConfig, sentSecond: RequestConfig)
    requires Truthy(window.token)
    modifies window
    ensures sentFirst.headers == first.headers[AuthorizationHeader := BearerCredentials(old(window.token).value)]
    ensures sentSecond == second
    ensures window.token.None? && window.location == LoginPath
  {
    var r1, r2;
    sentFirst, r1 := Send<T>(window, first, Rejected(HttpError(Some(Unauthorized), None, None)));
    sentSecond, r2 := Send(window, second, secondReply);
  }

  /**
   * No caching: a token stored between two calls is the one the second call
   * carries.
   */
  method TokenReadPerRequest(window: Window, config: RequestConfig, newToken: string) returns (before: RequestConfig, after: RequestConfig)
    requires newToken != ""
    modifies window
    ensures !Truthy(old(window.token)) ==> before == config
    ensures Truthy(old(window.token)) ==> before.headers == config.headers[AuthorizationHeader := BearerCredentials(old(window.token).value)]
    ensures after.headers == config.headers[AuthorizationHeader := BearerCredentials(newToken)]
    ensures window.token == Some(newToken)
  {
    before := AttachToken(window, config);
    window.token := Some(newToken);
    after := AttachToken(window, config);
  }
}
