/** The session store behind the authentication context: whether the user
    is signed in, the claims of their token, whether the stored token is
    still being checked, and the token kept in browser storage. Decoding a
    token is an external library call, given to the store as a function;
    the clock is given to each check as a parameter in milliseconds. */
module Session {
  import opened Common
  import opened Records
  import opened Browser

  /** `exp && exp < Date.now() / 1000`: the token carries a non-zero expiry
      that lies in the past. The comparison is made in milliseconds, which
      avoids the division. */
  predicate Expired(c: Claims, nowMs: int)
  {
    c.exp.Some? && c.exp.value != 0 && c.exp.value * 1000 < nowMs
  }

  /** The millisecond comparison is the seconds comparison of the source. */
  lemma ExpiredInSeconds(c: Claims, nowMs: int)
    requires c.exp.Some?
    ensures Expired(c, nowMs) <==> c.exp.value != 0 && (c.exp.value as real) < (nowMs as real) / 1000.0
  {
  }

  /** A token without an expiry, or with expiry 0, never counts as expired;
      one that has expired stays expired as time goes on. */
  lemma ExpiryFacts(c: Claims, nowMs: int, laterMs: int)
    ensures c.exp.None? || c.exp == Some(0) ==> !Expired(c, nowMs)
    ensures Expired(c, nowMs) && nowMs <= laterMs ==> Expired(c, laterMs)
  {
  }

  /** What checking a stored token finds. */
  datatype TokenVerdict = NoToken | Undecodable | Stale(claims: Claims) | Current(claims: Claims)

  function Inspect(stored: Option<string>, decode: string -> Option<Claims>, nowMs: int): (v: TokenVerdict)
    ensures v.NoToken? <==> !Truthy(stored)
    ensures v.Undecodable? <==> Truthy(stored) && decode(stored.value).None?
    ensures v.Stale? || v.Current? ==> Truthy(stored) && decode(stored.value) == Some(v.claims)
    ensures v.Stale? ==> Expired(v.claims, nowMs)
    ensures v.Current? ==> !Expired(v.claims, nowMs)
  {
    if !Truthy(stored) then NoToken
    else match decode(stored.value)
      case None => Undecodable
      case Some(c) => if Expired(c, nowMs) then Stale(c) else Current(c)
  }

  class AuthProvider {
    /** Browser storage holding the token under the key `token`. */
    const storage: TokenStorage
    /** The token decoder: the claims of a well-formed token, nothing otherwise. */
    const decode: string -> Option<Claims>

    var isAuthenticated: bool
    var userData: Option<Claims>
    var loading: bool

    /** The user is signed in exactly when claims are held. */
    predicate Valid()
      reads this
    {
      isAuthenticated <==> userData.Some?
    }

    /** The store as first mounted: signed out, still loading. */
    constructor (storage: TokenStorage, decode: string -> Option<Claims>)
      ensures this.storage == storage && this.decode == decode
      ensures Valid() && !isAuthenticated && userData.None? && loading
    {
      this.storage := storage;
      this.decode := decode;
      isAuthenticated := false;
      userData := None;
      loading := true;
    }

    /** `getDecodedToken`: the claims of the token now in storage, read
        afresh; nothing when there is no token or it does not decode. */
    function DecodedToken(): (c: Option<Claims>)
      reads storage
      ensures !Truthy(storage.token) ==> c.None?
      ensures Truthy(storage.token) ==> c == decode(storage.token.value)
    {
      var token := storage.GetItem();
      if !Truthy(token) then None else decode(token.value)
    }

    /** `logout`: forget the token and the user. */
    method Logout()
      modifies this, storage
      ensures storage.token == None
      ensures Valid() && !isAuthenticated && userData.None?
      ensures loading == old(loading)
    {
      storage.RemoveItem();
      isAuthenticated := false;
      userData := None;
    }

    /** `validateAndSetToken`: check the stored token at time `nowMs`. No
        token leaves the user signed out; an undecodable or expired token is
        removed and the user signed out; a current token signs the user in
        with its claims. Loading ends on every path, and the answer is
        whether the user ends signed in. */
    method ValidateAndSetToken(nowMs: int) returns (ok: bool)
      modifies this, storage
      ensures Valid() && !loading && ok == isAuthenticated
      ensures var v := Inspect(old(storage.token), decode, nowMs);
        (v.NoToken? ==> !isAuthenticated && storage.token == old(storage.token)) &&
        (v.Undecodable? || v.Stale? ==> !isAuthenticated && storage.token == None) &&
        (v.Current? ==> isAuthenticated && userData == Some(v.claims) && storage.token == old(storage.token))
      ensures ok ==> userData == DecodedToken()
    {
      var token := storage.GetItem();
      if !Truthy(token) {
        isAuthenticated := false;
        userData := None;
        loading := false;
        return false;
      }
      var decoded := decode(token.value);
      if decoded.None? {
        Logout();
        loading := false;
        return false;
      }
      if Expired(decoded.value, nowMs) {
        Logout();
        loading := false;
        return false;
      }
      userData := decoded;
      isAuthenticated := true;
      loading := false;
      return true;
    }

    /** `login`: an empty or undecodable token changes nothing; a decodable
        one is stored and signs the user in with its claims, without any
        expiry check. */
    method Login(token: string)
      modifies this, storage
      ensures token == "" || decode(token).None? ==>
        storage.token == old(storage.token) && isAuthenticated == old(isAuthenticated) &&
        userData == old(userData)
      ensures token != "" && decode(token).Some? ==>
        storage.token == Some(token) && isAuthenticated && userData == decode(token)
      ensures loading == old(loading)
      ensures old(Valid()) ==> Valid()
    {
      if token == "" {
        return;
      }
      var decoded := decode(token);
      if decoded.Some? {
        storage.SetItem(token);
        userData := decoded;
        isAuthenticated := true;
      }
    }
  }

  /** Logging out twice leaves the same state as logging out once. */
  method LogoutIdempotent(p: AuthProvider)
    modifies p, p.storage
    ensures p.storage.token == None && !p.isAuthenticated && p.userData.None?
    ensures p.loading == old(p.loading)
  {
    p.Logout();
    ghost var once := (p.storage.token, p.isAuthenticated, p.userData, p.loading);
    p.Logout();
    assert (p.storage.token, p.isAuthenticated, p.userData, p.loading) == once;
  }
}
