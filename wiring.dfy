/** How the session store and the HTTP client meet through the shared
    token storage. */
module Wiring {
  import opened Common
  import opened ApiConfig
  import opened Session

  /** After a successful login the next request carries the new token as
      its bearer credential. */
  method LoginThenRequest(p: AuthProvider, token: string, config: RequestConfig) returns (sent: RequestConfig)
    requires token != "" && p.decode(token).Some?
    modifies p, p.storage, config`headers
    ensures p.isAuthenticated && p.userData == p.decode(token)
    ensures sent == config && AuthorizationHeader in sent.headers
    ensures sent.headers[AuthorizationHeader] == "Bearer " + token
  {
    p.Login(token);
    sent := InterceptRequest(config, p.storage);
  }

  /** A 401 answer removes the stored token, but the session store is not
      told: it still reports the user as signed in until its token is
      checked again. */
  method UnauthorizedLeavesSessionSignedIn<R>(p: AuthProvider, err: Thrown) returns (settled: Result<R, Thrown>)
    requires IsUnauthorized(err)
    modifies p.storage
    ensures settled == Failure(err)
    ensures p.storage.token == None && p.DecodedToken().None?
    ensures p.isAuthenticated == old(p.isAuthenticated) && p.userData == old(p.userData)
  {
    settled := InterceptResponse(Failure(err), p.storage);
  }
}
