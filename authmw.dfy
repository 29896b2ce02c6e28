/**
 * The two authentication middlewares: `authenticateJWT`, which rejects a
 * request without a valid bearer token for an existing user, and
 * `optionalAuth`, which attaches the user when it can and never rejects.
 * Token verification is a parameter; a token is modelled by its text.
 */
module AuthMiddleware {
  import opened Wrappers
  import opened Strings
  import opened Users
  import opened Http

  const BearerPrefix := "Bearer "

  /** The token of an `Authorization: Bearer <token>` header: the second space-separated word. */
  function BearerToken(header: Option<string>): (token: Option<string>)
    ensures token.Some? <==> Truthy(header) && StartsWith(header.value, BearerPrefix)
  {
    if Truthy(header) && StartsWith(header.value, BearerPrefix) then
      SplitAfterPrefix(header.value);
      Some(Split(header.value, ' ')[1])
    else None
  }

  lemma SplitAfterPrefix(h: string)
    requires StartsWith(h, BearerPrefix)
    ensures Split(h, ' ') == ["Bearer"] + Split(h[|BearerPrefix|..], ' ')
  {
    assert h == "Bearer" + [' '] + h[|BearerPrefix|..];
    SplitAtSeparator("Bearer", h[|BearerPrefix|..], ' ');
  }

  /** The token is what follows "Bearer " up to the next space. */
  lemma BearerTokenOf(t: string)
    ensures BearerToken(Some(BearerPrefix + t)) == Some(Split(t, ' ')[0])
    ensures ' ' !in t ==> BearerToken(Some(BearerPrefix + t)) == Some(t)
  {
    var h := BearerPrefix + t;
    assert StartsWith(h, BearerPrefix);
    assert h[|BearerPrefix|..] == t;
    SplitAfterPrefix(h);
    if ' ' !in t {
      SplitNoSeparator(t, ' ');
    }
  }

  /** A header without the exact, case-sensitive "Bearer " prefix carries no token. */
  lemma NoBearerNoToken()
    ensures BearerToken(None) == None
    ensures BearerToken(Some("")) == None
    ensures BearerToken(Some("Bearer")) == None
    ensures BearerToken(Some("bearer abc")) == None
    ensures BearerToken(Some("Basic abc")) == None
  {
    assert "bearer abc"[0] != BearerPrefix[0];
    assert "Basic abc"[1] != BearerPrefix[1];
  }

  /** A second space after "Bearer" leaves an empty token, whatever follows it. */
  lemma DoubleSpaceEmptyToken(t: string)
    ensures BearerToken(Some(BearerPrefix + [' '] + t)) == Some("")
  {
    assert BearerPrefix + [' '] + t == BearerPrefix + ([' '] + t);
    BearerTokenOf([' '] + t);
    assert "" + [' '] + t == [' '] + t;
    SplitAtSeparator("", t, ' ');
  }

  /** The outcome of authenticating a request. */
  datatype Gate = Admit(user: PublicUser) | Deny(status: nat, error: string)

  /**
   * `authenticateJWT` without its effects: the header, the token verifier,
   * the `users` rows, and whether the user query throws.
   */
  function Authenticate(header: Option<string>, verify: string -> Verified, rows: seq<User>,
                        queryFails: bool): (g: Gate)
    ensures BearerToken(header).None? ==> g == Deny(401, "No token provided")
    ensures g.Admit? <==> BearerToken(header).Some? && verify(BearerToken(header).value).Decoded?
                          && !queryFails && ById(rows, verify(BearerToken(header).value).claims.userId).Some?
    ensures g.Admit? ==> exists u :: u in rows && g.user == SessionColumns(u)
                           && u.id == verify(BearerToken(header).value).claims.userId
    ensures g.Deny? ==> g.status in {401, 500}
    ensures BearerToken(header).Some? ==>
      var v := verify(BearerToken(header).value);
      (v.JwtError? ==> g == Deny(401, "Invalid token"))
      && (v.OtherError? || (v.Decoded? && queryFails) ==> g == Deny(500, "Authentication error"))
      && (v.Decoded? && !queryFails && ById(rows, v.claims.userId).None? ==> g == Deny(401, "User not found"))
  {
    match BearerToken(header)
    case None => Deny(401, "No token provided")
    case Some(token) =>
      match verify(token)
      case JwtError => Deny(401, "Invalid token")
      case OtherError => Deny(500, "Authentication error")
      case Decoded(claims) =>
        if queryFails then Deny(500, "Authentication error")
        else match ById(rows, claims.userId)
          case None => Deny(401, "User not found")
          case Some(u) => Admit(SessionColumns(u))
  }

  /**
   * A token signed for a row of a keyed table, sent as "Bearer <token>",
   * admits exactly that row's session columns.
   */
  lemma IssuedTokenAdmits(rows: seq<User>, u: User, token: string, verify: string -> Verified)
    requires Keyed(rows) && u in rows
    requires ' ' !in token && verify(token) == Decoded(ClaimsOf(u))
    ensures Authenticate(Some(BearerPrefix + token), verify, rows, false) == Admit(SessionColumns(u))
  {
    BearerTokenOf(token);
    ByIdFindsRow(rows, u);
  }

  /** A token whose user no longer exists is refused with 401. */
  lemma DeletedUserRefused(rows: seq<User>, claims: Claims, token: string, verify: string -> Verified)
    requires ' ' !in token && verify(token) == Decoded(claims)
    requires forall i :: 0 <= i < |rows| ==> rows[i].id != claims.userId
    ensures Authenticate(Some(BearerPrefix + token), verify, rows, false) == Deny(401, "User not found")
  {
    BearerTokenOf(token);
  }

  /** `authenticateJWT`: attach the user and call `next()`, or send the refusal. */
  method AuthenticateJWT(ex: Exchange, header: Option<string>, verify: string -> Verified,
                         rows: seq<User>, queryFails: bool)
    modifies ex
    ensures var g := Authenticate(header, verify, rows, queryFails);
      if g.Admit? then
        ex.user == Some(g.user) && ex.nextCalls == old(ex.nextCalls) + [None]
        && ex.replies == old(ex.replies)
      else
        ex.user == old(ex.user) && ex.nextCalls == old(ex.nextCalls)
        && ex.replies == old(ex.replies) + [ErrorReply(g.status, g.error, [])]
  {
    var g := Authenticate(header, verify, rows, queryFails);
    if g.Admit? {
      ex.user := Some(g.user);
      ex.nextCalls := ex.nextCalls + [None];
    } else {
      ex.replies := ex.replies + [ErrorReply(g.status, g.error, [])];
    }
  }

  /** `optionalAuth`: attach the user when authentication would admit; always call `next()` once. */
  method OptionalAuth(ex: Exchange, header: Option<string>, verify: string -> Verified,
                      rows: seq<User>, queryFails: bool)
    modifies ex
    ensures ex.nextCalls == old(ex.nextCalls) + [None]
    ensures ex.replies == old(ex.replies)
    ensures var g := Authenticate(header, verify, rows, queryFails);
      ex.user == if g.Admit? then Some(g.user) else old(ex.user)
  {
    var g := Authenticate(header, verify, rows, queryFails);
    if g.Admit? {
      ex.user := Some(g.user);
    }
    ex.nextCalls := ex.nextCalls + [None];
  }
}
