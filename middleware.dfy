/**
 * The middleware chain every request goes through (server/server.js:85-89): the CORS gate
 * `allowCrossDomain` (server/server.js:149-161), then `authorize` on paths under `/a`,
 * then the route handler.
 */
module Middleware {
  import opened Authorization

  /** What a middleware does with the request: hand it on by calling `next()`, or answer it. */
  datatype Action = CallNext | Respond(status: int)

  /**
   * The response headers and what happens next. Node keeps a response's headers in a table
   * keyed by the LOWER-CASED header name, so `setHeader` replaces a header set earlier under
   * any spelling of the same name; the maps here are keyed the same way.
   */
  datatype Outcome = Outcome(headers: map<string, string>, action: Action)

  /** A header name as Node's header table keys it: no upper-case ASCII letter. */
  predicate IsLowerName(name: string)
  {
    forall i :: 0 <= i < |name| ==> !('A' <= name[i] <= 'Z')
  }

  /** The three CORS headers, under their lower-cased names. */
  const CorsHeaders: map<string, string> := map[
    "access-control-allow-origin" := "*",
    "access-control-allow-methods" := "PUT, GET, POST, DELETE",
    "access-control-allow-headers" := "Authorization"]

  /**
   * `allowCrossDomain`: set the three CORS headers on every response (over any value
   * already set for them under any spelling; `headers` is keyed by lower-cased name), end preflight `OPTIONS` requests with 204, pass on all others.
   */
  function AllowCrossDomain(httpMethod: string, headers: map<string, string>): (r: Outcome)
    requires forall h :: h in headers ==> IsLowerName(h)
    ensures forall h :: h in CorsHeaders ==> h in r.headers && r.headers[h] == CorsHeaders[h]
    ensures forall h :: h in headers && h !in CorsHeaders ==> h in r.headers && r.headers[h] == headers[h]
    ensures r.headers.Keys == headers.Keys + CorsHeaders.Keys
    ensures r.action == CallNext <==> httpMethod != "OPTIONS"
    ensures r.action != CallNext ==> r.action == Respond(204)
  {
    var withCors := headers + CorsHeaders;
    if httpMethod == "OPTIONS" then Outcome(withCors, Respond(204)) else Outcome(withCors, CallNext)
  }

  /** The last step of `authorize`: `next()` once on success, an empty 401 on every failure. */
  function AuthorizeAction(d: Decision): (a: Action)
    ensures a == CallNext <==> d == Authorized
    ensures a != CallNext ==> a == Respond(401)
  {
    if d.Authorized? then CallNext else Respond(401)
  }

  /**
   * The chain for one request: `httpMethod` is its HTTP method, `underA` tells whether its
   * path is mounted under `/a`, and `decision` is what `authorize` would decide for it. The
   * route handler runs (`CallNext`) exactly for a non-preflight request that is outside
   * `/a` or authorized; a preflight is answered 204 before `authorize` sees it, and a
   * rejection under `/a` is a 401.
   */
  function Pipeline(httpMethod: string, underA: bool, decision: Decision): (a: Action)
    ensures a == CallNext <==> httpMethod != "OPTIONS" && (!underA || decision == Authorized)
    ensures httpMethod == "OPTIONS" ==> a == Respond(204)
    ensures httpMethod != "OPTIONS" && underA && decision.Rejected? ==> a == Respond(401)
  {
    var cors := AllowCrossDomain(httpMethod, map[]);
    if cors.action != CallNext then cors.action
    else if underA then AuthorizeAction(decision)
    else CallNext
  }
}
