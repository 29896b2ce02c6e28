/**
 * The two passport strategies: the JWT strategy's user lookup and the
 * Google strategy's find-or-create rule, which links an existing account
 * found by Google id or email, or else creates a password-less account.
 */
module Passport {
  import opened Wrappers
  import opened Lists
  import opened Users
  import opened AuthMiddleware

  /** The arguments given to passport's `done(error, user)`; `user == None` stands for `false`. */
  datatype Done = Done(error: Option<string>, user: Option<PublicUser>)

  /** The JWT strategy's verify callback for a decoded payload; `queryFails` says the lookup throws. */
  function JwtLookup(rows: seq<User>, payload: Claims, queryFails: bool): (d: Done)
    ensures queryFails ==> d.error.Some? && d.user.None?
    ensures !queryFails ==> d.error.None?
    ensures !queryFails ==> (d.user.None? <==> forall i :: 0 <= i < |rows| ==> rows[i].id != payload.userId)
    ensures d.user.Some? ==> exists u :: u in rows && u.id == payload.userId && d.user.value == SessionColumns(u)
  {
    if queryFails then Done(Some("query failed"), None)
    else match ById(rows, payload.userId)
      case None => Done(None, None)
      case Some(u) => Done(None, Some(SessionColumns(u)))
  }

  /**
   * Given the same token text after `Bearer `, the JWT strategy's lookup
   * and `authenticateJWT` admit exactly the same user: the one whose id the
   * token carries, seen through the same four columns.
   */
  lemma JwtLookupAgreesWithMiddleware(token: string, verify: string -> Verified, rows: seq<User>)
    requires ' ' !in token && verify(token).Decoded?
    ensures var d := JwtLookup(rows, verify(token).claims, false);
      var g := Authenticate(Some(BearerPrefix + token), verify, rows, false);
      (g.Admit? <==> d.user.Some?)
      && (g.Admit? ==> g.user == d.user.value && g.user.id == verify(token).claims.userId)
  {
    BearerTokenOf(token);
  }

  /** The Google strategy is registered only when both the client id and the secret are set. */
  function GoogleEnabled(clientId: Option<string>, clientSecret: Option<string>): (enabled: bool)
    ensures enabled <==> clientId.Some? && clientId.value != "" && clientSecret.Some? && clientSecret.value != ""
  {
    Truthy(clientId) && Truthy(clientSecret)
  }

  /** The parts of a Google profile the strategy reads: the first email and the first photo. */
  datatype GoogleProfile = GoogleProfile(id: string, displayName: string,
                                         email: Option<string>, photo: Option<string>)

  /** `google_id = $1 OR email = $2`; an absent email compares as NULL and matches nothing. */
  predicate MatchesProfile(u: User, p: GoogleProfile) {
    u.googleId == Some(p.id) || (p.email.Some? && u.email == p.email.value)
  }

  function ProfileMatcher(p: GoogleProfile): User -> bool {
    (u: User) => MatchesProfile(u, p)
  }

  function FindProfile(rows: seq<User>, p: GoogleProfile): Option<User> {
    First(rows, ProfileMatcher(p))
  }

  /** The row created for a Google profile that matches no account: no password. */
  function GoogleAccount(p: GoogleProfile, id: string): (u: User)
    requires p.email.Some?
    ensures u.id == id && u.email == p.email.value && u.name == p.displayName && u.avatar == p.photo
    ensures u.password.None? && !HasPassword(u) && u.googleId == Some(p.id)
    ensures MatchesProfile(u, p)
  {
    User(id, p.email.value, None, p.displayName, Some(p.id), p.photo)
  }

  /**
   * The Google strategy's verify callback. `newId` is the id the database
   * generates for an inserted row. A matched account is returned as it was
   * read, before any linking update.
   */
  method GoogleVerify(db: UserTable, p: GoogleProfile, newId: string) returns (r: Result<User>)
    requires db.Valid()
    modifies db
    ensures db.Valid()
    ensures var m := FindProfile(old(db.rows), p);
      if m.Some? then
        if Truthy(m.value.googleId) then db.rows == old(db.rows) && r == Success(m.value)
        else if CanLink(old(db.rows), m.value.id, p.id) then
          db.rows == LinkRows(old(db.rows), m.value.id, p.id, p.photo) && r == Success(m.value)
        else db.rows == old(db.rows) && r.Failure?
      else if p.email.None? then db.rows == old(db.rows) && r.Failure?
      else if CanInsert(old(db.rows), GoogleAccount(p, newId)) then
        db.rows == old(db.rows) + [GoogleAccount(p, newId)] && r == Success(GoogleAccount(p, newId))
      else db.rows == old(db.rows) && r.Failure?
  {
    var m := FindProfile(db.rows, p);
    if m.Some? {
      var user := m.value;
      if !Truthy(user.googleId) {
        var ok := db.Link(user.id, p.id, p.photo);
        if !ok {
          return Failure("duplicate google_id");
        }
      }
      return Success(user);
    }
    if p.email.None? {
      return Failure("email is NOT NULL");
    }
    var u := GoogleAccount(p, newId);
    var ok := db.Insert(u);
    if !ok {
      return Failure("duplicate key");
    }
    r := Success(u);
  }

  /**
   * Linking leaves the account's token payload and its password as they
   * were, and every other row untouched.
   */
  lemma LinkKeepsIdentity(rows: seq<User>, id: string, p: GoogleProfile)
    ensures forall i :: 0 <= i < |rows| ==>
      var after := LinkRows(rows, id, p.id, p.photo)[i];
      ClaimsOf(after) == ClaimsOf(rows[i]) && after.password == rows[i].password
      && (rows[i].id != id ==> after == rows[i])
  {
  }

  /**
   * After an account has been linked, the next sign-in with the same
   * profile finds that same account, now holding the Google id, so it
   * is neither linked again nor duplicated.
   */
  lemma LinkedAccountIsFoundAgain(rows: seq<User>, p: GoogleProfile)
    requires Keyed(rows) && p.id != ""
    requires FindProfile(rows, p).Some? && !Truthy(FindProfile(rows, p).value.googleId)
    ensures var u := FindProfile(rows, p).value;
      var linked := LinkRows(rows, u.id, p.id, p.photo);
      FindProfile(linked, p) == Some(u.(googleId := Some(p.id), avatar := p.photo))
      && Truthy(FindProfile(linked, p).value.googleId)
  {
    var u := FindProfile(rows, p).value;
    var linked := LinkRows(rows, u.id, p.id, p.photo);
    var k :| 0 <= k < |rows| && rows[k] == u && MatchesProfile(rows[k], p)
             && forall j :: 0 <= j < k ==> !MatchesProfile(rows[j], p);
    forall j | 0 <= j < k
      ensures !ProfileMatcher(p)(linked[j])
    {
      assert !Conflicts(rows[j], rows[k]);
      assert linked[j] == rows[j];
    }
    assert ProfileMatcher(p)(linked[k]);
    FirstAt(linked, ProfileMatcher(p), k);
  }
}
