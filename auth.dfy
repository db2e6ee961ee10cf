/** The token authority of backend/src/lib/auth.js: what `issueToken` hands
    to the signer, and the decision `authMiddleware` takes on the
    `Authorization` header. Signing and signature checking are not modelled:
    verification is the abstract `Verifier` of module Js. */
module Auth {
  import opened Js

  const BearerPrefix: string := "Bearer "
  const DefaultIssuer: string := "devops-backend"
  const DefaultAudience: string := "devops-clients"
  const Algorithm: string := "HS256"
  /** `expiresIn: "1h"`. */
  const LifetimeSeconds: nat := 3600

  /** The environment variables the authority reads (None when unset). */
  datatype Env = Env(secret: Option<string>, issuer: Option<string>, audience: Option<string>)

  /** The call `jwt.sign(payload, secret, options)` that `issueToken` makes. */
  datatype SignRequest = SignRequest(
    payload: map<string, string>,
    secret: Option<string>,
    algorithm: string,
    expiresInSeconds: nat,
    issuer: string,
    audience: string)

  /** `process.env.X || fallback`: an unset or empty variable falls back. */
  function Setting(v: Option<string>, fallback: string): (r: string)
    ensures v.Some? && v.value != "" ==> r == v.value
    ensures v.None? || v.value == "" ==> r == fallback
  {
    if v.Some? && v.value != "" then v.value else fallback
  }

  /** The issuer and audience checks `jwt.verify` applies with
      `{issuer: process.env.JWT_ISSUER, audience: process.env.JWT_AUDIENCE}`:
      an unset or empty option is not checked. */
  predicate ClaimChecksPass(env: Env, iss: string, aud: string) {
    && (env.issuer.Some? && env.issuer.value != "" ==> iss == env.issuer.value)
    && (env.audience.Some? && env.audience.value != "" ==> aud == env.audience.value)
  }

  /** `issueToken(payload)`. The token it signs carries the configured
      issuer and audience (or the fixed defaults), HS256 and a one-hour
      lifetime, and therefore passes the issuer/audience checks that
      verification applies under the same environment. */
  function IssueToken(payload: map<string, string>, env: Env): (r: SignRequest)
    ensures r.payload == payload && r.secret == env.secret
    ensures r.algorithm == "HS256" && r.expiresInSeconds == 3600
    ensures env.issuer.None? || env.issuer == Some("") ==> r.issuer == DefaultIssuer
    ensures env.audience.None? || env.audience == Some("") ==> r.audience == DefaultAudience
    ensures env.issuer.Some? && env.issuer.value != "" ==> r.issuer == env.issuer.value
    ensures env.audience.Some? && env.audience.value != "" ==> r.audience == env.audience.value
    ensures r.issuer != "" && r.audience != ""
    ensures ClaimChecksPass(env, r.issuer, r.audience)
  {
    SignRequest(payload, env.secret, Algorithm, LifetimeSeconds,
                Setting(env.issuer, DefaultIssuer), Setting(env.audience, DefaultAudience))
  }

  /** `req.headers.authorization || ""`. */
  function HeaderText(header: Option<string>): string {
    if header.Some? then header.value else ""
  }

  predicate StartsWithBearer(h: string) {
    |h| >= |BearerPrefix| && h[..|BearerPrefix|] == BearerPrefix
  }

  /** The bearer token: the header with its 7-character prefix removed,
      or None when the header is missing, lacks the prefix or is the
      prefix alone (an empty token is falsy). */
  function BearerToken(header: Option<string>): (r: Option<string>)
    ensures r.Some? ==> r.value != "" && HeaderText(header) == BearerPrefix + r.value
    ensures r.None? <==> !StartsWithBearer(HeaderText(header)) || HeaderText(header) == BearerPrefix
  {
    var h := HeaderText(header);
    if StartsWithBearer(h) && |h| > |BearerPrefix| then Some(h[|BearerPrefix|..]) else None
  }

  /** The outcome of `authMiddleware`: `next()` with `req.user` set, or a 401. */
  datatype Decision = PassThrough(user: Claims) | Unauthorized(error: string) {
    function Status(): int {
      if PassThrough? then 200 else 401
    }
  }

  /** `authMiddleware(req, res, next)`: exactly one of pass-through (with the
      decoded claims) or 401 "Missing token" / 401 "Invalid token". */
  function Authenticate(header: Option<string>, verify: Verifier): (d: Decision)
    ensures d == Unauthorized("Missing token") <==> BearerToken(header).None?
    ensures d == Unauthorized("Invalid token") <==>
              BearerToken(header).Some? && verify(BearerToken(header).value).None?
    ensures d.PassThrough? <==>
              BearerToken(header).Some? && verify(BearerToken(header).value).Some?
    ensures d.PassThrough? ==> d.user == verify(BearerToken(header).value).value
    ensures d.Unauthorized? ==> d.Status() == 401
  {
    match BearerToken(header)
    case None => Unauthorized("Missing token")
    case Some(token) =>
      match verify(token)
      case None => Unauthorized("Invalid token")
      case Some(decoded) => PassThrough(decoded)
  }
}
