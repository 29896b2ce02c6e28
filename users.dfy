/**
 * The `users` table and the identity values derived from its rows: the
 * public view of a row, the token payload and the outcome of verifying a
 * token. Password hashing and token signing are outside the model; a token
 * is represented by the claims it was signed over.
 */
module Users {
  import opened Wrappers
  import opened Lists

  /** A row of `users`; `password` is the stored hash, missing for Google-only accounts. */
  datatype User = User(id: string, email: string, password: Option<string>, name: string,
                       googleId: Option<string>, avatar: Option<string>)

  /** A user as sent to clients: every column but the password. */
  datatype PublicUser = PublicUser(id: string, email: string, name: string,
                                   googleId: Option<string>, avatar: Option<string>)

  /** The payload `{ userId, email }` every issued token is signed over. */
  datatype Claims = Claims(userId: string, email: string)

  /** What `jwt.verify` does with a token: decode it, or throw a JWT error or some other error. */
  datatype Verified = Decoded(claims: Claims) | JwtError | OtherError

  /** `const { password, ...rest } = user` */
  function WithoutPassword(u: User): (p: PublicUser)
    ensures p.id == u.id && p.email == u.email && p.name == u.name
    ensures p.googleId == u.googleId && p.avatar == u.avatar
  {
    PublicUser(u.id, u.email, u.name, u.googleId, u.avatar)
  }

  /** The columns `SELECT id, email, name, avatar` reads; the Google id is not among them. */
  function SessionColumns(u: User): (p: PublicUser)
    ensures p.id == u.id && p.email == u.email && p.name == u.name && p.avatar == u.avatar
    ensures p.googleId.None?
  {
    PublicUser(u.id, u.email, u.name, None, u.avatar)
  }

  /** The payload of the token issued to `u`. */
  function ClaimsOf(u: User): Claims {
    Claims(u.id, u.email)
  }

  /** `if (!user.password)` fails for a missing and for an empty password. */
  predicate HasPassword(u: User) {
    Truthy(u.password)
  }

  /** Two rows that the primary key or a UNIQUE column (email, google_id) forbids together. */
  predicate Conflicts(a: User, b: User) {
    a.id == b.id || a.email == b.email || (a.googleId.Some? && a.googleId == b.googleId)
  }

  /** The table's key constraints hold. */
  predicate Keyed(rows: seq<User>) {
    forall i, j :: 0 <= i < j < |rows| ==> !Conflicts(rows[i], rows[j])
  }

  /** An INSERT of `u` violates no key constraint. */
  predicate CanInsert(rows: seq<User>, u: User) {
    forall i :: 0 <= i < |rows| ==> !Conflicts(rows[i], u)
  }

  /** `SELECT … FROM users WHERE email = $1` */
  function ByEmail(rows: seq<User>, email: string): Option<User> {
    First(rows, (u: User) => u.email == email)
  }

  /** `SELECT … FROM users WHERE id = $1` */
  function ById(rows: seq<User>, id: string): Option<User> {
    First(rows, (u: User) => u.id == id)
  }

  /** In a keyed table the lookup by id finds the one row holding that id. */
  lemma ByIdFindsRow(rows: seq<User>, u: User)
    requires Keyed(rows) && u in rows
    ensures ById(rows, u.id) == Some(u)
  {
    var r := ById(rows, u.id);
    var k :| 0 <= k < |rows| && rows[k] == r.value && r.value.id == u.id;
    var m :| 0 <= m < |rows| && rows[m] == u;
    if k != m {
      assert Conflicts(rows[k], rows[m]) && Conflicts(rows[m], rows[k]);
    }
  }

  /** In a keyed table the lookup by email finds the one row holding that email. */
  lemma ByEmailFindsRow(rows: seq<User>, u: User)
    requires Keyed(rows) && u in rows
    ensures ByEmail(rows, u.email) == Some(u)
  {
    var r := ByEmail(rows, u.email);
    var k :| 0 <= k < |rows| && rows[k] == r.value && r.value.email == u.email;
    var m :| 0 <= m < |rows| && rows[m] == u;
    if k != m {
      assert Conflicts(rows[k], rows[m]) && Conflicts(rows[m], rows[k]);
    }
  }

  /** The rows after `UPDATE users SET google_id = $1, avatar = $2 WHERE id = $3`. */
  function LinkRows(rows: seq<User>, id: string, googleId: string, avatar: Option<string>): (r: seq<User>)
    ensures |r| == |rows|
    ensures forall i :: 0 <= i < |rows| ==>
      r[i] == if rows[i].id == id then rows[i].(googleId := Some(googleId), avatar := avatar) else rows[i]
  {
    seq(|rows|, i requires 0 <= i < |rows| =>
      if rows[i].id == id then rows[i].(googleId := Some(googleId), avatar := avatar) else rows[i])
  }

  /** The UNIQUE constraint on google_id allows giving `googleId` to the row `id`. */
  predicate CanLink(rows: seq<User>, id: string, googleId: string) {
    forall i :: 0 <= i < |rows| && rows[i].id != id ==> rows[i].googleId != Some(googleId)
  }

  /** The `users` table. */
  class UserTable {
    var rows: seq<User>

    ghost predicate Valid()
      reads this
    {
      Keyed(rows)
    }

    constructor ()
      ensures Valid() && rows == []
    {
      rows := [];
    }

    /** `INSERT INTO users …`; fails, changing nothing, when a key constraint would break. */
    method Insert(u: User) returns (ok: bool)
      requires Valid()
      modifies this
      ensures Valid()
      ensures ok <==> CanInsert(old(rows), u)
      ensures rows == if ok then old(rows) + [u] else old(rows)
    {
      ok := forall i :: 0 <= i < |rows| ==> !Conflicts(rows[i], u);
      if ok {
        rows := rows + [u];
      }
    }

    /** `UPDATE users SET google_id = $1, avatar = $2 WHERE id = $3` */
    method Link(id: string, googleId: string, avatar: Option<string>) returns (ok: bool)
      requires Valid()
      modifies this
      ensures Valid()
      ensures ok <==> CanLink(old(rows), id, googleId)
      ensures rows == if ok then LinkRows(old(rows), id, googleId, avatar) else old(rows)
    {
      ok := forall i :: 0 <= i < |rows| && rows[i].id != id ==> rows[i].googleId != Some(googleId);
      if ok {
        var linked := LinkRows(rows, id, googleId, avatar);
        assert Keyed(linked) by {
          forall i, j | 0 <= i < j < |linked| ensures !Conflicts(linked[i], linked[j]) {
            assert !Conflicts(rows[i], rows[j]);
          }
        }
        rows := linked;
      }
    }
  }
}
