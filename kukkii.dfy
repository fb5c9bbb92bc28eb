/**
 * The cookie session wrappers of functions/kukkii/index.ts: read a plain or
 * signed cookie from a request's `Cookie` header, and append a plain, signed or
 * expiring `Set-Cookie` header (section 4.1 of RFC 6265) to a response's header list.
 *
 * The wire codec and the HMAC signing live in a file that is not part of this
 * model; its four operations are the fields of a `Codec` value that every
 * operation receives, so nothing is assumed about them.
 */
module Kukkii {
  import opened Wrappers
  import opened Http

  /**
   * `CookieOptions`: each attribute is `None` when the options object does not
   * carry that property. `expires` is a time in milliseconds since the epoch,
   * `maxAge` a number of seconds.
   */
  datatype CookieOptions = CookieOptions(
    path: Option<string>,
    domain: Option<string>,
    expires: Option<int>,
    maxAge: Option<int>,
    httpOnly: Option<bool>,
    secure: Option<bool>,
    sameSite: Option<string>,
    partitioned: Option<bool>)

  /** The options of a call that passes none (`opt` undefined, so `...opt` adds nothing). */
  const NoOptions: CookieOptions := CookieOptions(None, None, None, None, None, None, None, None)

  /** The cookie codec: `parse`, `serialize`, `parseSigned` and `serializeSigned`. */
  datatype Codec = Codec(
    parse: (string, Option<string>) -> map<string, string>,
    serialize: (string, string, CookieOptions) -> string,
    parseSigned: (string, string, Option<string>) -> map<string, string>,
    serializeSigned: (string, string, string, CookieOptions) -> string)

  /** JavaScript truthiness of a possibly missing string: neither missing nor empty. */
  predicate Truthy(s: Option<string>)
  {
    s.Some? && s.value != ""
  }

  /** `obj[key]` on a parsed cookie object: `None` (undefined) when the key is not there. */
  function Lookup(m: map<string, string>, key: string): (r: Option<string>)
    ensures r.Some? <==> key in m
    ensures r.Some? ==> r.value == m[key]
  {
    if key in m then Some(m[key]) else None
  }

  /**
   * `getCookie(request, key)`: with no `Cookie` header, or an empty one, there is
   * no value; otherwise the value the codec parses for `key`.
   */
  function GetCookie(codec: Codec, request: Request, key: string): (r: Option<string>)
    ensures !Truthy(request.cookie) ==> r.None?
    ensures Truthy(request.cookie) ==> r == Lookup(codec.parse(request.cookie.value, Some(key)), key)
  {
    if !Truthy(request.cookie) then None
    else Lookup(codec.parse(request.cookie.value, Some(key)), key)
  }

  /** `getCookie(request)` without a key: every parsed cookie, the empty object when there is no header. */
  function GetCookies(codec: Codec, request: Request): (r: map<string, string>)
    ensures !Truthy(request.cookie) ==> r == map[]
    ensures Truthy(request.cookie) ==> r == codec.parse(request.cookie.value, None)
  {
    if !Truthy(request.cookie) then map[] else codec.parse(request.cookie.value, None)
  }

  /**
   * `getSignedCookie(request, secret, key)`: with no `Cookie` header, or an empty
   * one, there is no value; otherwise the value the signed codec verifies for `key`.
   */
  function GetSignedCookie(codec: Codec, request: Request, secret: string, key: string): (r: Option<string>)
    ensures !Truthy(request.cookie) ==> r.None?
    ensures Truthy(request.cookie) ==> r == Lookup(codec.parseSigned(request.cookie.value, secret, Some(key)), key)
  {
    if !Truthy(request.cookie) then None
    else Lookup(codec.parseSigned(request.cookie.value, secret, Some(key)), key)
  }

  /**
   * `{ path: "/", ...opt }`: the caller's path when it gives one, "/" otherwise;
   * every other attribute exactly as the caller gave it.
   */
  function WithDefaultPath(opt: CookieOptions): (r: CookieOptions)
    ensures r.path == if opt.path.Some? then opt.path else Some("/")
    ensures r.(path := opt.path) == opt
  {
    if opt.path.Some? then opt else opt.(path := Some("/"))
  }

  /**
   * `{ ...opt, maxAge: 0 }`: a `Max-Age` of zero, which makes the user agent expire
   * the cookie at once (section 5.2.2 of RFC 6265), whatever `maxAge` the caller
   * gave; every other attribute exactly as the caller gave it.
   */
  function Expiring(opt: CookieOptions): (r: CookieOptions)
    ensures r.maxAge == Some(0)
    ensures r.(maxAge := opt.maxAge) == opt
  {
    opt.(maxAge := Some(0))
  }

  /**
   * The options `deleteCookie` serialises with: `Max-Age=0` overriding the caller's,
   * the caller's path or the "/" default, and the caller's other attributes.
   */
  lemma DeletionOptions(opt: CookieOptions)
    ensures WithDefaultPath(Expiring(opt)).maxAge == Some(0)
    ensures WithDefaultPath(Expiring(opt)).path == WithDefaultPath(opt).path
    ensures WithDefaultPath(Expiring(opt)) == WithDefaultPath(opt).(maxAge := Some(0))
  {
  }

  /** `setCookie(headers, name, value, opt)`: exactly one `set-cookie` entry is appended. */
  method SetCookie(headers: Headers, codec: Codec, name: string, value: string, opt: CookieOptions)
    modifies headers
    ensures headers.entries ==
      old(headers.entries) + [("set-cookie", codec.serialize(name, value, WithDefaultPath(opt)))]
  {
    var cookie := codec.serialize(name, value, WithDefaultPath(opt));
    headers.Append("set-cookie", cookie);
  }

  /** `setSignedCookie(headers, name, value, secret, opt)`: exactly one `set-cookie` entry is appended. */
  method SetSignedCookie(headers: Headers, codec: Codec, name: string, value: string, secret: string, opt: CookieOptions)
    modifies headers
    ensures headers.entries ==
      old(headers.entries) + [("set-cookie", codec.serializeSigned(name, value, secret, WithDefaultPath(opt)))]
  {
    var cookie := codec.serializeSigned(name, value, secret, WithDefaultPath(opt));
    headers.Append("set-cookie", cookie);
  }

  /**
   * `deleteCookie(headers, name, opt)`: sets the cookie to the empty value with
   * `Max-Age=0`; exactly one `set-cookie` entry is appended.
   */
  method DeleteCookie(headers: Headers, codec: Codec, name: string, opt: CookieOptions)
    modifies headers
    ensures headers.entries ==
      old(headers.entries) + [("set-cookie", codec.serialize(name, "", WithDefaultPath(Expiring(opt))))]
  {
    SetCookie(headers, codec, name, "", Expiring(opt));
  }

  /**
   * Appending a cookie adds exactly its value to the response's `set-cookie` values
   * and leaves every other header as it was.
   */
  lemma {:induction false} AppendCookie(entries: seq<Pair>, cookie: string)
    ensures Values(entries + [("set-cookie", cookie)], "set-cookie") == Values(entries, "set-cookie") + [cookie]
    ensures forall name :: name != "set-cookie" ==>
      Values(entries + [("set-cookie", cookie)], name) == Values(entries, name)
  {
    ValuesAppend(entries, [("set-cookie", cookie)], "set-cookie");
    forall name | name != "set-cookie"
      ensures Values(entries + [("set-cookie", cookie)], name) == Values(entries, name)
    {
      ValuesAppend(entries, [("set-cookie", cookie)], name);
    }
  }
}
