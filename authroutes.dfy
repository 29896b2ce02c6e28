/**
 * The `/register` and `/login` handlers: their outcome chains over the
 * `users` table. Password hashing and comparison are parameters; the token
 * is represented by the claims it is signed over.
 */
module AuthRoutes {
  import opened Wrappers
  import opened Lists
  import opened Users
  import opened AuthMiddleware

  /** The JSON answer of an auth route: the user and token, or an error. */
  datatype AuthReply =
    | Authenticated(status: nat, user: PublicUser, token: Claims)
    | Refused(status: nat, error: string)

  /** The row `/register` inserts: no Google id, no avatar, and the hash in place of the password. */
  function NewAccount(id: string, email: string, password: string, name: string,
                      hash: string -> string): (u: User)
    ensures u.password == Some(hash(password)) && u.googleId.None? && u.avatar.None?
    ensures ClaimsOf(u) == Claims(id, email)
  {
    User(id, email, Some(hash(password)), name, None, None)
  }

  /**
   * `POST /register` after validation. `newId` is the id the database
   * generates; `analyticsOk` says whether the analytics insert succeeds.
   */
  method Register(db: UserTable, email: string, password: string, name: string, newId: string,
                  hash: string -> string, analyticsOk: bool) returns (reply: AuthReply)
    requires db.Valid()
    modifies db
    ensures db.Valid()
    ensures ByEmail(old(db.rows), email).Some? ==>
      reply == Refused(400, "Email already registered") && db.rows == old(db.rows)
    ensures ByEmail(old(db.rows), email).None? ==>
      var u := NewAccount(newId, email, password, name, hash);
      if !CanInsert(old(db.rows), u) then
        reply == Refused(500, "Registration failed") && db.rows == old(db.rows)
      else
        db.rows == old(db.rows) + [u]
        && reply == if analyticsOk then Authenticated(201, WithoutPassword(u), ClaimsOf(u))
                    else Refused(500, "Registration failed")
  {
    if ByEmail(db.rows, email).Some? {
      return Refused(400, "Email already registered");
    }
    var u := NewAccount(newId, email, password, name, hash);
    var ok := db.Insert(u);
    if !ok {
      return Refused(500, "Registration failed");
    }
    if !analyticsOk {
      return Refused(500, "Registration failed");
    }
    reply := Authenticated(201, WithoutPassword(u), ClaimsOf(u));
  }

  /** `POST /login` after validation; `compare(plain, hash)` is bcrypt's comparison. */
  function Login(rows: seq<User>, email: string, password: string,
                 compare: (string, string) -> bool, analyticsOk: bool): (r: AuthReply)
    ensures ByEmail(rows, email).None? ==> r == Refused(401, "Invalid credentials")
    ensures r.Authenticated? <==>
      ByEmail(rows, email).Some? && HasPassword(ByEmail(rows, email).value)
      && compare(password, ByEmail(rows, email).value.password.value) && analyticsOk
    ensures r.Authenticated? ==>
      var u := ByEmail(rows, email).value;
      u in rows && u.email == email && r.status == 200
      && r.user == WithoutPassword(u) && r.token == ClaimsOf(u)
    ensures r.Refused? ==> r.status in {401, 500}
    ensures ByEmail(rows, email).Some? ==> var u := ByEmail(rows, email).value;
      (!HasPassword(u) ==> r == Refused(401, "Please use Google login"))
      && (HasPassword(u) && !compare(password, u.password.value) ==> r == Refused(401, "Invalid credentials"))
      && (HasPassword(u) && compare(password, u.password.value) && !analyticsOk ==> r == Refused(500, "Login failed"))
  {
    match ByEmail(rows, email)
    case None => Refused(401, "Invalid credentials")
    case Some(u) =>
      if !HasPassword(u) then Refused(401, "Please use Google login")
      else if !compare(password, u.password.value) then Refused(401, "Invalid credentials")
      else if !analyticsOk then Refused(500, "Login failed")
      else Authenticated(200, WithoutPassword(u), ClaimsOf(u))
  }

  /** An account without a password is sent to Google before any comparison is made. */
  lemma GoogleOnlyAccount(rows: seq<User>, u: User, password: string,
                          c1: (string, string) -> bool, c2: (string, string) -> bool, ok: bool)
    requires Keyed(rows) && u in rows && !HasPassword(u)
    ensures Login(rows, u.email, password, c1, ok) == Refused(401, "Please use Google login")
    ensures Login(rows, u.email, password, c1, ok) == Login(rows, u.email, password, c2, ok)
  {
    ByEmailFindsRow(rows, u);
  }

  /** A wrong password is answered exactly as an unknown email is. */
  lemma WrongPasswordLooksUnknown(rows: seq<User>, u: User, stranger: string, password: string,
                                  compare: (string, string) -> bool, ok: bool)
    requires Keyed(rows) && u in rows && HasPassword(u) && !compare(password, u.password.value)
    requires forall i :: 0 <= i < |rows| ==> rows[i].email != stranger
    ensures Login(rows, u.email, password, compare, ok) == Login(rows, stranger, password, compare, ok)
  {
    ByEmailFindsRow(rows, u);
  }

  /**
   * Registering and then logging in with the same password succeeds, when
   * the comparison accepts a password against its own hash, and returns the
   * registered user with the same token payload.
   */
  lemma RegisterThenLogin(rows: seq<User>, id: string, email: string, password: string, name: string,
                          hash: string -> string, compare: (string, string) -> bool)
    requires ByEmail(rows, email).None? && hash(password) != ""
    requires compare(password, hash(password))
    ensures var u := NewAccount(id, email, password, name, hash);
      Login(rows + [u], email, password, compare, true) == Authenticated(200, WithoutPassword(u), ClaimsOf(u))
  {
    var u := NewAccount(id, email, password, name, hash);
    var all := rows + [u];
    var r := ByEmail(all, email);
    assert all[|rows|] == u;
    var k :| 0 <= k < |all| && all[k] == r.value && r.value.email == email
             && forall j :: 0 <= j < k ==> all[j].email != email;
  }

  /**
   * A token issued by a successful login opens `authenticateJWT` for the
   * same account, seen through the columns the middleware reads.
   */
  lemma LoginTokenAuthenticates(rows: seq<User>, email: string, password: string,
                                compare: (string, string) -> bool, token: string, verify: string -> Verified)
    requires Keyed(rows)
    requires Login(rows, email, password, compare, true).Authenticated?
    requires ' ' !in token && verify(token) == Decoded(Login(rows, email, password, compare, true).token)
    ensures var u := ByEmail(rows, email).value;
      Authenticate(Some(BearerPrefix + token), verify, rows, false) == Admit(SessionColumns(u))
  {
    var u := ByEmail(rows, email).value;
    IssuedTokenAdmits(rows, u, token, verify);
  }
}
