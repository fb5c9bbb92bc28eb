/**
 * The callback endpoint of functions/api/callback.ts: finish the authorization-code
 * flow. It checks for the `code` query parameter and the signed `code_verifier`
 * cookie, queues the deletion of that cookie, exchanges the code at the token
 * endpoint (section 4.1.3 of RFC 6749, with the verifier of section 4.5 of
 * RFC 7636), stores both tokens in signed cookies and redirects to the site root.
 *
 * The token endpoint is a function from the request sent to the reply received,
 * and the two reads of the clock are parameters.
 */
module Callback {
  import opened Wrappers
  import opened Http
  import opened Environment
  import opened Kukkii
  import opened Crypto
  import opened Login

  /** The fields of the token endpoint's JSON body; `None` when a field is missing or null. */
  datatype TokenJson = TokenJson(accessToken: Option<string>, expiresIn: Option<int>, refreshToken: Option<string>)

  /**
   * What `fetch` yields: a rejected promise (network failure), or a reply with its
   * `ok` flag and its body, `None` when the body is not JSON.
   */
  datatype TokenReply = Rejected | Reply(ok: bool, json: Option<TokenJson>)

  /** The request `fetchToken` sends: URL, method, content type and form body in order. */
  datatype TokenRequest = TokenRequest(url: string, httpMethod: string, contentType: string, body: seq<Pair>)

  /** A token response that passed validation. */
  datatype Tokens = Tokens(accessToken: string, expiresIn: int, refreshToken: string)

  /**
   * Why the handler throws: `fetch` rejected, the reply was not ok ("Failed to fetch
   * token"), the body was not JSON, or a field was falsy ("Invalid token response").
   */
  datatype Failure = FetchRejected | FailedToFetchToken | BodyNotJson | InvalidTokenResponse

  /**
   * The token request of `fetchToken`: a form-encoded POST to `TOKEN_URL` whose body
   * holds, in this order, the client credentials, the code, the verifier, the grant
   * type `authorization_code` and the same redirect URI the login sent.
   */
  function TokenRequestFor(env: Env, origin: string, code: string, verifier: string): (req: TokenRequest)
    ensures req.url == env.tokenUrl && req.httpMethod == "POST"
    ensures req.contentType == "application/x-www-form-urlencoded"
    ensures |req.body| == 6
    ensures req.body[0].0 == "client_id" && req.body[1].0 == "client_secret" && req.body[2].0 == "code"
      && req.body[3].0 == "code_verifier" && req.body[4].0 == "grant_type" && req.body[5].0 == "redirect_uri"
    ensures QueryGet(req.body, "client_id") == Some(env.clientId)
    ensures QueryGet(req.body, "client_secret") == Some(env.clientSecret)
    ensures QueryGet(req.body, "code") == Some(code)
    ensures QueryGet(req.body, "code_verifier") == Some(verifier)
    ensures QueryGet(req.body, "grant_type") == Some("authorization_code")
    ensures QueryGet(req.body, "redirect_uri") == Some(RedirectUri(origin))
  {
    var b5 := [("redirect_uri", RedirectUri(origin))];
    var b4 := [("grant_type", "authorization_code")] + b5;
    var b3 := [("code_verifier", verifier)] + b4;
    var b2 := [("code", code)] + b3;
    var b1 := [("client_secret", env.clientSecret)] + b2;
    var b0 := [("client_id", env.clientId)] + b1;
    QueryGetCons(b0[0], b1, "client_secret");
    QueryGetCons(b0[0], b1, "code");
    QueryGetCons(b1[0], b2, "code");
    QueryGetCons(b0[0], b1, "code_verifier");
    QueryGetCons(b1[0], b2, "code_verifier");
    QueryGetCons(b2[0], b3, "code_verifier");
    QueryGetCons(b0[0], b1, "grant_type");
    QueryGetCons(b1[0], b2, "grant_type");
    QueryGetCons(b2[0], b3, "grant_type");
    QueryGetCons(b3[0], b4, "grant_type");
    QueryGetCons(b0[0], b1, "redirect_uri");
    QueryGetCons(b1[0], b2, "redirect_uri");
    QueryGetCons(b2[0], b3, "redirect_uri");
    QueryGetCons(b3[0], b4, "redirect_uri");
    QueryGetCons(b4[0], b5, "redirect_uri");
    TokenRequest(env.tokenUrl, "POST", "application/x-www-form-urlencoded", b0)
  }

  /** JavaScript truthiness of a possibly missing number: neither missing nor zero. */
  predicate TruthyNumber(n: Option<int>)
  {
    n.Some? && n.value != 0
  }

  /**
   * The checks `fetchToken` makes on the reply: a rejected fetch, a reply that is
   * not ok, a body that is not JSON and a falsy field each fail; otherwise the three
   * fields are the tokens.
   */
  function CheckTokenReply(reply: TokenReply): (r: Result<Tokens, Failure>)
    ensures reply.Rejected? ==> r == Failure(FetchRejected)
    ensures reply.Reply? && !reply.ok ==> r == Failure(FailedToFetchToken)
    ensures reply.Reply? && reply.ok && reply.json.None? ==> r == Failure(BodyNotJson)
    ensures r.Success? <==>
      reply.Reply? && reply.ok && reply.json.Some? && Truthy(reply.json.value.accessToken)
      && TruthyNumber(reply.json.value.expiresIn) && Truthy(reply.json.value.refreshToken)
    ensures r.Failure? && reply.Reply? && reply.ok && reply.json.Some? ==> r.error == InvalidTokenResponse
    ensures r.Success? ==>
      reply.json.value == TokenJson(Some(r.value.accessToken), Some(r.value.expiresIn), Some(r.value.refreshToken))
  {
    match reply
    case Rejected => Failure(FetchRejected)
    case Reply(ok, json) =>
      if !ok then Failure(FailedToFetchToken)
      else if json.None? then Failure(BodyNotJson)
      else
        var j := json.value;
        if !Truthy(j.accessToken) || !TruthyNumber(j.expiresIn) || !Truthy(j.refreshToken) then
          Failure(InvalidTokenResponse)
        else Success(Tokens(j.accessToken.value, j.expiresIn.value, j.refreshToken.value))
  }

  /**
   * `fetchToken`: send the token request, then check the reply. Tokens come back
   * only from an ok JSON reply to a request carrying this code and verifier, and
   * none of them is falsy.
   */
  function FetchToken(env: Env, origin: string, code: string, verifier: string,
                      endpoint: TokenRequest -> TokenReply): (r: Result<Tokens, Failure>)
    ensures var request := TokenRequestFor(env, origin, code, verifier);
      request.url == env.tokenUrl &&
      QueryGet(request.body, "code") == Some(code) && QueryGet(request.body, "code_verifier") == Some(verifier) &&
      (r.Success? ==>
        endpoint(request).Reply? && endpoint(request).ok &&
        endpoint(request).json ==
          Some(TokenJson(Some(r.value.accessToken), Some(r.value.expiresIn), Some(r.value.refreshToken))) &&
        r.value.accessToken != "" && r.value.expiresIn != 0 && r.value.refreshToken != "")
    ensures endpoint(TokenRequestFor(env, origin, code, verifier)).Rejected? ==> r == Failure(FetchRejected)
    ensures var reply := endpoint(TokenRequestFor(env, origin, code, verifier));
      reply.Reply? && !reply.ok ==> r == Failure(FailedToFetchToken)
    ensures var reply := endpoint(TokenRequestFor(env, origin, code, verifier));
      reply.Reply? && reply.ok && reply.json.None? ==> r == Failure(BodyNotJson)
    ensures var reply := endpoint(TokenRequestFor(env, origin, code, verifier));
      reply.Reply? && reply.ok && reply.json.Some? ==>
        var j := reply.json.value;
        if Truthy(j.accessToken) && TruthyNumber(j.expiresIn) && Truthy(j.refreshToken)
        then r == Success(Tokens(j.accessToken.value, j.expiresIn.value, j.refreshToken.value))
        else r == Failure(InvalidTokenResponse)
  {
    CheckTokenReply(endpoint(TokenRequestFor(env, origin, code, verifier)))
  }

  /**
   * The options a token cookie is written with: it expires `expiresIn` seconds
   * after `now` (milliseconds), and it is `HttpOnly` and `Secure`.
   */
  function TokenCookieOptions(now: int, expiresIn: int): (opt: CookieOptions)
    ensures opt.expires == Some(now + expiresIn * 1000)
    ensures opt.httpOnly == Some(true) && opt.secure == Some(true)
    ensures opt.(expires := None, httpOnly := None, secure := None) == NoOptions
  {
    NoOptions.(expires := Some(now + expiresIn * 1000), httpOnly := Some(true), secure := Some(true))
  }

  /**
   * A token cookie is written on path "/" without `Max-Age`, and it outlives the
   * moment it is written exactly when the provider's `expires_in` is positive: the
   * validation lets a negative lifetime through, and such a cookie is born expired.
   */
  lemma TokenCookieLifetime(now: int, expiresIn: int)
    ensures WithDefaultPath(TokenCookieOptions(now, expiresIn)).path == Some("/")
    ensures WithDefaultPath(TokenCookieOptions(now, expiresIn)).maxAge.None?
    ensures WithDefaultPath(TokenCookieOptions(now, expiresIn)).expires.value > now <==> expiresIn > 0
  {
  }

  /** The `code` query parameter of the callback request. */
  function CodeOf(request: Request): Option<string>
  {
    QueryGet(request.url.search, "code")
  }

  /** The verified `code_verifier` cookie of the callback request. */
  function VerifierOf(env: Env, codec: Codec, request: Request): Option<string>
  {
    GetSignedCookie(codec, request, env.cookieSecret, VerifierCookie)
  }

  /**
   * The token request the callback sends, if it gets that far: only when both the
   * code and the verifier are truthy, and then built from exactly those two.
   */
  function CallbackTokenRequest(env: Env, codec: Codec, request: Request): (req: Option<TokenRequest>)
    ensures req.Some? <==> Truthy(CodeOf(request)) && Truthy(VerifierOf(env, codec, request))
    ensures req.Some? ==>
      req.value == TokenRequestFor(env, request.url.origin, CodeOf(request).value, VerifierOf(env, codec, request).value)
    ensures req.Some? ==>
      QueryGet(req.value.body, "code") == CodeOf(request) &&
      QueryGet(req.value.body, "code_verifier") == VerifierOf(env, codec, request) &&
      QueryGet(req.value.body, "redirect_uri") == Some(RedirectUri(request.url.origin))
  {
    if Truthy(CodeOf(request)) && Truthy(VerifierOf(env, codec, request)) then
      Some(TokenRequestFor(env, request.url.origin, CodeOf(request).value, VerifierOf(env, codec, request).value))
    else None
  }

  /** The `set-cookie` value that deletes the verifier cookie. */
  function VerifierDeletion(codec: Codec): string
  {
    codec.serialize(VerifierCookie, "", WithDefaultPath(Expiring(NoOptions)))
  }

  /** The `set-cookie` value that stores one token, read off the clock at `now`. */
  function TokenCookie(env: Env, codec: Codec, name: string, token: string, now: int, expiresIn: int): string
  {
    codec.serializeSigned(name, token, env.cookieSecret, WithDefaultPath(TokenCookieOptions(now, expiresIn)))
  }

  /**
   * The redirect a successful exchange answers with: no body, three cookies in the
   * order they were queued (the verifier's deletion, the access token, the refresh
   * token) and one `location`, the site root.
   */
  function Redirect(env: Env, codec: Codec, origin: string, t: Tokens, now1: int, now2: int): (r: ResponseValue)
    ensures r.status == 302 && r.body.None?
    ensures Values(r.headers, "set-cookie") ==
      [ VerifierDeletion(codec),
        TokenCookie(env, codec, "access_token", t.accessToken, now1, t.expiresIn),
        TokenCookie(env, codec, "refresh_token", t.refreshToken, now2, t.expiresIn) ]
    ensures Values(r.headers, "location") == [origin + "/"]
    ensures |r.headers| == 4
  {
    var deletion := VerifierDeletion(codec);
    var access := TokenCookie(env, codec, "access_token", t.accessToken, now1, t.expiresIn);
    var refresh := TokenCookie(env, codec, "refresh_token", t.refreshToken, now2, t.expiresIn);
    var h0 := NewResponse(None, 302).headers;
    var h3 := h0 + [("set-cookie", deletion)] + [("set-cookie", access)] + [("set-cookie", refresh)];
    RedirectHeaders(h0, deletion, access, refresh, origin + "/");
    ResponseValue(302, None, SetEntry(h3, "location", origin + "/"))
  }

  /** The header list of `Redirect`: three queued cookies, then `location` set on a list without one. */
  lemma RedirectHeaders(h0: seq<Pair>, deletion: string, access: string, refresh: string, location: string)
    requires h0 == []
    ensures var h3 := h0 + [("set-cookie", deletion)] + [("set-cookie", access)] + [("set-cookie", refresh)];
      var h4 := SetEntry(h3, "location", location);
      Values(h4, "set-cookie") == [deletion, access, refresh] &&
      Values(h4, "location") == [location] && |h4| == 4
  {
    var h1 := h0 + [("set-cookie", deletion)];
    var h2 := h1 + [("set-cookie", access)];
    var h3 := h2 + [("set-cookie", refresh)];
    QueueCookie(h0, deletion);
    QueueCookie(h1, access);
    QueueCookie(h2, refresh);
    SetOnAbsent(h3, "location", location, "set-cookie");
  }

  /** Queuing a cookie adds its value to the `set-cookie` values and none to `location`. */
  lemma QueueCookie(h: seq<Pair>, cookie: string)
    ensures Values(h + [("set-cookie", cookie)], "set-cookie") == Values(h, "set-cookie") + [cookie]
    ensures Values(h + [("set-cookie", cookie)], "location") == Values(h, "location")
  {
    ValuesAppend(h, [("set-cookie", cookie)], "set-cookie");
    ValuesAppend(h, [("set-cookie", cookie)], "location");
    assert [("set-cookie", cookie)][1..] == [];
  }

  /**
   * `headers.set` of a name the list does not hold appends one entry and leaves
   * the values of every other name as they were.
   */
  lemma SetOnAbsent(h: seq<Pair>, name: string, value: string, other: string)
    requires Values(h, name) == [] && other != name
    ensures Values(SetEntry(h, name, value), name) == [value]
    ensures Values(SetEntry(h, name, value), other) == Values(h, other)
    ensures |SetEntry(h, name, value)| == |h| + 1
  {
    ValuesAppend(h, [(name, value)], other);
    assert [(name, value)][1..] == [];
  }

  /** What the handler does: answer with a response, or throw. */
  datatype Outcome = Respond(response: ResponseValue) | Throw(failure: Failure)

  /**
   * The callback handler's outcome. A falsy code and then a falsy verifier are each
   * answered with their own 400, whatever the token endpoint would say. With both
   * present, a failed exchange throws (the queued deletion is lost with the
   * response), and a successful one answers with the redirect.
   */
  function CallbackOutcome(env: Env, codec: Codec, request: Request, endpoint: TokenRequest -> TokenReply, now1: int, now2: int): (o: Outcome)
    ensures !Truthy(CodeOf(request)) ==> o == Respond(NewResponse(Some("No code provided"), 400))
    ensures Truthy(CodeOf(request)) && !Truthy(VerifierOf(env, codec, request)) ==>
      o == Respond(NewResponse(Some("No code_verifier provided"), 400))
    ensures CallbackTokenRequest(env, codec, request).Some? ==>
      var reply := CheckTokenReply(endpoint(CallbackTokenRequest(env, codec, request).value));
      o == if reply.Failure? then Throw(reply.error)
           else Respond(Redirect(env, codec, request.url.origin, reply.value, now1, now2))
  {
    var origin := request.url.origin;
    var code := CodeOf(request);
    var verifier := VerifierOf(env, codec, request);
    if !Truthy(code) then Respond(NewResponse(Some("No code provided"), 400))
    else if !Truthy(verifier) then Respond(NewResponse(Some("No code_verifier provided"), 400))
    else
      match FetchToken(env, origin, code.value, verifier.value, endpoint)
      case Failure(e) => Throw(e)
      case Success(t) => Respond(Redirect(env, codec, origin, t, now1, now2))
  }

  /** Only a successful exchange redirects; every other outcome is a 400 or a throw. */
  lemma RedirectsOnlyAfterExchange(env: Env, codec: Codec, request: Request, endpoint: TokenRequest -> TokenReply, now1: int, now2: int)
    ensures
      var o := CallbackOutcome(env, codec, request, endpoint, now1, now2);
      o.Respond? && o.response.status == 302 <==>
        CallbackTokenRequest(env, codec, request).Some? &&
        CheckTokenReply(endpoint(CallbackTokenRequest(env, codec, request).value)).Success?
  {
  }

  /** The handler's result: the response it returns, or what it throws. */
  datatype Handled = Returned(response: Response) | Threw(failure: Failure)

  /** The outcome a client observes from a handler result. */
  function Observe(h: Handled): Outcome
    reads if h.Returned? then {h.response as object, h.response.headers} else {}
  {
    match h
    case Returned(response) => Respond(response.Value())
    case Threw(failure) => Throw(failure)
  }

  /** `onRequest` of the callback endpoint. */
  method HandleCallback(env: Env, codec: Codec, request: Request, endpoint: TokenRequest -> TokenReply, now1: int, now2: int)
    returns (h: Handled)
    ensures h.Returned? ==> fresh(h.response) && fresh(h.response.headers)
    ensures Observe(h) == CallbackOutcome(env, codec, request, endpoint, now1, now2)
  {
    var origin := request.url.origin;
    var code := CodeOf(request);
    if !Truthy(code) {
      var r := new Response(Some("No code provided"), 400);
      return Returned(r);
    }
    var verifier := VerifierOf(env, codec, request);
    if !Truthy(verifier) {
      var r := new Response(Some("No code_verifier provided"), 400);
      return Returned(r);
    }
    var response := new Response(None, 302);
    DeleteCookie(response.headers, codec, VerifierCookie, NoOptions);
    var tokens := FetchToken(env, origin, code.value, verifier.value, endpoint);
    if tokens.Failure? {
      return Threw(tokens.error);
    }
    var t := tokens.value;
    SetSignedCookie(response.headers, codec, "access_token", t.accessToken, env.cookieSecret, TokenCookieOptions(now1, t.expiresIn));
    SetSignedCookie(response.headers, codec, "refresh_token", t.refreshToken, env.cookieSecret, TokenCookieOptions(now2, t.expiresIn));
    response.headers.Set("location", origin + "/");
    return Returned(response);
  }

  /**
   * The PKCE binding across the two handlers: when the callback request carries a
   * code and the cookie jar verifies `code_verifier` to the challenge a login drew
   * from `stream`, the token request carries that challenge as its `code_verifier`
   * (the "plain" method makes verifier and challenge equal), and its client id and
   * redirect URI are the ones the authorization request of that origin carried.
   */
  lemma VerifierReachesTokenEndpoint(env: Env, codec: Codec, request: Request, stream: seq<Byte>)
    requires AcceptedFrom(stream, 0, |Possible| - 1) >= TokenLength
    requires Truthy(CodeOf(request)) && Truthy(request.cookie)
    requires Lookup(codec.parseSigned(request.cookie.value, env.cookieSecret, Some(VerifierCookie)), VerifierCookie)
      == Some(DrawnChallenge(stream))
    ensures CallbackTokenRequest(env, codec, request).Some?
    ensures
      var sent := CallbackTokenRequest(env, codec, request).value.body;
      var authorization := AuthorizationUrl(env, DrawnChallenge(stream), request.url.origin).search;
      QueryGet(sent, "code_verifier") == QueryGet(authorization, "code_challenge") &&
      QueryGet(authorization, "code_challenge_method") == Some("plain") &&
      QueryGet(sent, "client_id") == QueryGet(authorization, "client_id") &&
      QueryGet(sent, "redirect_uri") == QueryGet(authorization, "redirect_uri")
  {
    var challenge := DrawnChallenge(stream);
    assert challenge != "" by { assert |challenge| == TokenLength; }
  }
}
