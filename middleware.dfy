/** The request gate of middleware.ts: a pure decision between continuing and redirecting to /login. */
module Middleware {
  import opened Wrappers
  import Strings
  import Server

  datatype Decision = Next | RedirectToLogin

  const PUBLIC_PATHS: seq<string> := ["/login", "/register"]
  /** The matcher `/dashboard/:path*`: the page itself and everything below it. */
  const MATCHED_ROOT: string := "/dashboard"
  const TOKEN_SEPARATOR: char := '.'

  /** `token.split('.').length !== 3`: not the three parts of the JWS compact form (section 7.1 of RFC 7515). */
  predicate Malformed(token: string)
  {
    |Strings.Split(token, TOKEN_SEPARATOR)| != 3
  }

  /** `middleware(req)`, with the cookie `token` (None when absent) and `verifyToken`, the same
      verifier the API routes use (None when it throws). */
  function Middleware(path: string, token: Option<string>, verify: Server.Verifier): (d: Decision)
    ensures path in PUBLIC_PATHS ==> d == Next
    ensures path !in PUBLIC_PATHS ==>
      (d == Next <==> token.Some? && Strings.Count(token.value, TOKEN_SEPARATOR) == 2 && verify(token.value).Some?)
  {
    if path in PUBLIC_PATHS then Next
    else if token.None? || token.value == "" || Malformed(token.value) then RedirectToLogin
    else if verify(token.value).Some? then Next
    else RedirectToLogin
  }

  /** `config.matcher`: the paths the middleware runs for. */
  predicate Matched(path: string)
  {
    path == MATCHED_ROOT || MATCHED_ROOT + "/" <= path
  }

  /** A request as Next.js routes it: unmatched paths never reach the middleware. */
  function Gate(path: string, token: Option<string>, verify: Server.Verifier): (d: Decision)
    ensures !Matched(path) ==> d == Next
    ensures Matched(path) ==>
      (d == Next <==> token.Some? && Strings.Count(token.value, TOKEN_SEPARATOR) == 2 && verify(token.value).Some?)
  {
    if !Matched(path) then Next else Middleware(path, token, verify)
  }

  /** A missing, empty or malformed token is redirected whatever `verifyToken` would say, so it is never verified. */
  lemma MalformedNeverVerified(path: string, token: Option<string>, v1: Server.Verifier, v2: Server.Verifier)
    requires path !in PUBLIC_PATHS
    requires token.None? || Malformed(token.value)
    ensures Middleware(path, token, v1) == RedirectToLogin
    ensures Middleware(path, token, v2) == RedirectToLogin
  {
  }

  /** No matched path is public, so behind the matcher the public-path branch never fires. */
  lemma PublicPathsUnmatched(path: string)
    requires Matched(path)
    ensures path !in PUBLIC_PATHS
  {
  }
}
