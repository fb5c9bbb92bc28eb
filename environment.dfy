/** The deployment configuration every handler receives (functions/env.ts). */
module Environment {
  import opened Http

  /**
   * `Env`: the OAuth client credentials, the provider's authorization and token
   * endpoints, the cookie-signing secret and the upstream API base URL.
   * `AUTH_URL` is held already parsed, as `new URL(c.env.AUTH_URL)` yields it.
   */
  datatype Env = Env(
    clientId: string,
    clientSecret: string,
    authUrl: Url,
    cookieSecret: string,
    tokenUrl: string,
    apiUrl: string)
}
