/**
 * The login endpoint of functions/api/login.ts: start the OAuth 2.0
 * authorization-code flow with PKCE. It draws a verifier, stores it in a signed
 * `code_verifier` cookie and redirects (302) to the provider's authorization
 * endpoint with the request parameters of section 4.1.1 of RFC 6749 and
 * section 4.3 of RFC 7636, using the "plain" challenge method.
 */
module Login {
  import opened Wrappers
  import opened Http
  import opened Environment
  import opened Kukkii
  import opened Crypto

  /** The path the provider redirects back to. */
  const CallbackPath: string := "/api/callback"

  /** The cookie that carries the verifier from login to callback. */
  const VerifierCookie: string := "code_verifier"

  /** The `redirect_uri` for a deployment served at `origin`. */
  function RedirectUri(origin: string): string
  {
    origin + CallbackPath
  }

  /**
   * The authorization request parameters, in the order the handler lists them:
   * `response_type=code`, the client id, the "plain" method, the challenge and the
   * redirect URI of this origin.
   */
  function AuthorizationParams(clientId: string, challenge: string, origin: string): (p: seq<Pair>)
    ensures |p| == 5
    ensures p[0].0 == "response_type" && p[1].0 == "client_id" && p[2].0 == "code_challenge_method"
      && p[3].0 == "code_challenge" && p[4].0 == "redirect_uri"
    ensures QueryGet(p, "response_type") == Some("code")
    ensures QueryGet(p, "client_id") == Some(clientId)
    ensures QueryGet(p, "code_challenge_method") == Some("plain")
    ensures QueryGet(p, "code_challenge") == Some(challenge)
    ensures QueryGet(p, "redirect_uri") == Some(RedirectUri(origin))
  {
    var p4 := [("redirect_uri", RedirectUri(origin))];
    var p3 := [("code_challenge", challenge)] + p4;
    var p2 := [("code_challenge_method", "plain")] + p3;
    var p1 := [("client_id", clientId)] + p2;
    var p0 := [("response_type", "code")] + p1;
    QueryGetCons(p0[0], p1, "client_id");
    QueryGetCons(p0[0], p1, "code_challenge_method");
    QueryGetCons(p1[0], p2, "code_challenge_method");
    QueryGetCons(p0[0], p1, "code_challenge");
    QueryGetCons(p1[0], p2, "code_challenge");
    QueryGetCons(p2[0], p3, "code_challenge");
    QueryGetCons(p0[0], p1, "redirect_uri");
    QueryGetCons(p1[0], p2, "redirect_uri");
    QueryGetCons(p2[0], p3, "redirect_uri");
    QueryGetCons(p3[0], p4, "redirect_uri");
    p0
  }

  /** `AUTH_URL` with its query replaced by exactly the authorization parameters. */
  function AuthorizationUrl(env: Env, challenge: string, origin: string): (u: Url)
    ensures u.origin == env.authUrl.origin && u.pathname == env.authUrl.pathname && u.hash == env.authUrl.hash
    ensures u.search == AuthorizationParams(env.clientId, challenge, origin)
  {
    env.authUrl.(search := AuthorizationParams(env.clientId, challenge, origin))
  }

  /** The options the verifier cookie is written with: none, so a session cookie on path "/". */
  lemma VerifierCookieOptions()
    ensures WithDefaultPath(NoOptions) == NoOptions.(path := Some("/"))
    ensures WithDefaultPath(NoOptions).expires.None? && WithDefaultPath(NoOptions).maxAge.None?
  {
  }

  /**
   * What the login handler answers for a request from `origin` when the drawn
   * challenge is `challenge`: a bodiless 302 whose one `set-cookie` entry is the
   * signed verifier (equal to the challenge, plain method), written with no expiry,
   * and whose one `location` entry is the serialised authorization URL (`href`
   * stands for `URL.toString`).
   */
  function LoginResponse(env: Env, codec: Codec, href: Url -> string, origin: string, challenge: string): (r: ResponseValue)
    ensures r.status == 302 && r.body.None?
    ensures Values(r.headers, "set-cookie") ==
      [codec.serializeSigned(VerifierCookie, GenerateCodeVerifier(challenge), env.cookieSecret, NoOptions.(path := Some("/")))]
    ensures Values(r.headers, "location") == [href(AuthorizationUrl(env, challenge, origin))]
    ensures |r.headers| == 2
  {
    var cookie := codec.serializeSigned(VerifierCookie, GenerateCodeVerifier(challenge), env.cookieSecret, WithDefaultPath(NoOptions));
    var headers := NewResponse(None, 302).headers + [("set-cookie", cookie)];
    assert Values(headers, "location") == [] by {
      AppendCookie([], cookie);
    }
    var r := ResponseValue(302, None, SetEntry(headers, "location", href(AuthorizationUrl(env, challenge, origin))));
    AppendCookie([], cookie);
    ValuesAppend(headers, [("location", href(AuthorizationUrl(env, challenge, origin)))], "set-cookie");
    r
  }

  /** The verifier drawn from a stream that holds enough accepted bytes. */
  function DrawnChallenge(stream: seq<Byte>): (challenge: string)
    requires AcceptedFrom(stream, 0, |Possible| - 1) >= TokenLength
    ensures |challenge| == TokenLength && '9' !in challenge
  {
    NineNeverDrawn(stream);
    DrawString(stream, TokenLength, Possible, |Possible| - 1).value.text
  }

  /**
   * `onRequest` of the login endpoint. The random source is the byte stream, which
   * must hold the 128 accepted bytes the verifier needs (the source keeps drawing
   * until it has them).
   */
  method Login(env: Env, codec: Codec, href: Url -> string, request: Request, stream: seq<Byte>)
    returns (response: Response)
    requires AcceptedFrom(stream, 0, |Possible| - 1) >= TokenLength
    ensures fresh(response) && fresh(response.headers)
    ensures response.Value() == LoginResponse(env, codec, href, request.url.origin, DrawnChallenge(stream))
  {
    var origin := request.url.origin;
    response := new Response(None, 302);
    var drawn := GenerateRandomString(stream);
    var challenge := drawn.value;
    var verifier := GenerateCodeVerifier(challenge);
    SetSignedCookie(response.headers, codec, VerifierCookie, verifier, env.cookieSecret, NoOptions);
    var url := AuthorizationUrl(env, challenge, origin);
    response.headers.Set("location", href(url));
  }
}
