/** How the three authenticating adapters compare when they verify tokens
    under the same secret, issuer and audience (one `Verifier`): the REST
    middleware of backend/src/lib/auth.js, the GraphQL gate and context of
    backend/src/graphql/server.js and the Socket.IO handshake of
    backend/src/ws/socket.js. */
module AuthConsistency {
  import opened Js
  import Auth
  import Graph
  import Rooms

  /** A non-empty bearer token is accepted by all three adapters or by none,
      and when accepted every adapter sees the same claims. */
  lemma SameTokenSameVerdict(t: string, verify: Verifier)
    requires t != ""
    ensures Auth.Authenticate(Some(Auth.BearerPrefix + t), verify).PassThrough?
            <==> Graph.GraphRequestAuth(Some(Auth.BearerPrefix + t), verify).Authorized?
    ensures Graph.GraphRequestAuth(Some(Auth.BearerPrefix + t), verify).Authorized?
            <==> Rooms.Authorize(Str(t), Undefined, verify).Admitted?
    ensures Auth.Authenticate(Some(Auth.BearerPrefix + t), verify).PassThrough? ==>
              && Auth.Authenticate(Some(Auth.BearerPrefix + t), verify).user
                 == Graph.GraphRequestAuth(Some(Auth.BearerPrefix + t), verify).user
              && Auth.Authenticate(Some(Auth.BearerPrefix + t), verify).user
                 == Rooms.Authorize(Str(t), Undefined, verify).user
  {
    var h := Auth.BearerPrefix + t;
    assert h[..|Auth.BearerPrefix|] == Auth.BearerPrefix;
    assert h[7..] == t;
    assert Auth.BearerToken(Some(h)) == Some(t);
  }

  /** A request or handshake that carries no token at all is rejected by all
      three adapters before any verification. */
  lemma NoTokenRejectedEverywhere(verify: Verifier)
    ensures Auth.Authenticate(None, verify) == Auth.Unauthorized("Missing token")
    ensures Graph.GraphRequestAuth(None, verify) == Graph.GateRejected
    ensures Rooms.Authorize(Undefined, Undefined, verify) == Rooms.Rejected("Missing token")
  {
  }

  /** The header that is the prefix alone is where REST and GraphQL part:
      REST answers "Missing token", while GraphQL passes its gate and hands
      the empty token to the verifier. */
  lemma BarePrefixDivergence(verify: Verifier)
    ensures Auth.Authenticate(Some(Auth.BearerPrefix), verify) == Auth.Unauthorized("Missing token")
    ensures !Graph.GraphRequestAuth(Some(Auth.BearerPrefix), verify).GateRejected?
    ensures verify("").Some? ==>
              Graph.GraphRequestAuth(Some(Auth.BearerPrefix), verify) == Graph.Authorized(verify("").value)
  {
    var h := Auth.BearerPrefix;
    assert h[..|Auth.BearerPrefix|] == Auth.BearerPrefix;
    assert h[7..] == "";
  }
}
