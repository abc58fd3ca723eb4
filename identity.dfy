/**
 * The users table as the auth routes and the Google strategy use it, and the
 * store that holds it together with the three token tables. Users are kept in
 * rowid order, so "the first row that matches" is what `db.get` and
 * `findUnique` return.
 */
module Identity {
  import opened Wrappers
  import opened Ledger

  /** `auth_provider`: how the account was created or last linked. */
  datatype Provider = Local | MagicLink | Google

  /** A users row, with the columns the auth code reads and writes. */
  datatype User = User(
    user_id: nat,
    email: string,
    password_hash: Option<string>,
    display_name: Option<string>,
    profile_image_url: Option<string>,
    google_id: Option<string>,
    auth_provider: Option<Provider>,
    email_verified: bool)

  /** Index of the first user satisfying `p`, or |users| when none does. */
  function FirstUser(users: seq<User>, p: User -> bool): (k: nat)
    ensures k <= |users|
    ensures forall j :: 0 <= j < k ==> !p(users[j])
    ensures k < |users| ==> p(users[k])
  {
    if |users| == 0 then 0
    else if p(users[0]) then 0
    else 1 + FirstUser(users[1..], p)
  }

  /** `SELECT * FROM users WHERE ... LIMIT 1`: the first matching row, or none. */
  function Lookup(users: seq<User>, p: User -> bool): (r: Option<User>)
    ensures r.Some? <==> exists i :: 0 <= i < |users| && p(users[i])
    ensures r.Some? ==> r.value in users && p(r.value)
  {
    var k := FirstUser(users, p);
    if k < |users| then Some(users[k]) else None
  }

  function HasEmail(email: string): User -> bool
  {
    (u: User) => u.email == email
  }

  function HasId(id: int): User -> bool
  {
    (u: User) => u.user_id == id
  }

  function HasGoogleId(googleId: string): User -> bool
  {
    (u: User) => u.google_id == Some(googleId)
  }

  /** `WHERE email = ?` */
  function ByEmail(users: seq<User>, email: string): Option<User>
  {
    Lookup(users, HasEmail(email))
  }

  /** `WHERE user_id = ?` */
  function ById(users: seq<User>, id: int): Option<User>
  {
    Lookup(users, HasId(id))
  }

  /** `WHERE google_id = ?` */
  function ByGoogleId(users: seq<User>, googleId: string): Option<User>
  {
    Lookup(users, HasGoogleId(googleId))
  }

  /** The SET list of an `UPDATE users SET ... WHERE user_id = ?` the auth code issues. */
  datatype Change =
    | MarkVerified               // email_verified = 1
    | SetHash(hash: string)      // password_hash = ?
    | LinkGoogle(googleId: string) // google_id = ?, auth_provider = 'google', email_verified = true

  /** One row after the SET list; the key and the email never change. */
  function Apply(u: User, c: Change): (r: User)
    ensures r.user_id == u.user_id && r.email == u.email
  {
    match c
    case MarkVerified => u.(email_verified := true)
    case SetHash(h) => u.(password_hash := Some(h))
    case LinkGoogle(g) => u.(google_id := Some(g), auth_provider := Some(Google), email_verified := true)
  }

  /** `UPDATE users SET ... WHERE user_id = ?`: the row with that id changes, no other. */
  function UpdateById(users: seq<User>, id: int, c: Change): (r: seq<User>)
    ensures |r| == |users|
  {
    seq(|users|, i requires 0 <= i < |users| => if users[i].user_id == id then Apply(users[i], c) else users[i])
  }

  /** The table invariant: rowids are positive, increasing, no larger than the last
      one handed out, and email is UNIQUE. */
  ghost predicate Registered(users: seq<User>, last: nat)
  {
    (forall i :: 0 <= i < |users| ==> 0 < users[i].user_id <= last)
    && (forall i, j :: 0 <= i < j < |users| ==> users[i].user_id < users[j].user_id)
    && (forall i, j :: 0 <= i < j < |users| ==> users[i].email != users[j].email)
  }

  /** Under the invariant a user is the one row with its id. */
  lemma ByIdFindsUser(users: seq<User>, last: nat, i: nat)
    requires Registered(users, last) && i < |users|
    ensures ById(users, users[i].user_id) == Some(users[i])
  {
    var k := FirstUser(users, HasId(users[i].user_id));
    assert HasId(users[i].user_id)(users[i]);
    assert k <= i;
  }

  /** Under the invariant a user is the one row with its email. */
  lemma ByEmailFindsUser(users: seq<User>, last: nat, i: nat)
    requires Registered(users, last) && i < |users|
    ensures ByEmail(users, users[i].email) == Some(users[i])
  {
    var k := FirstUser(users, HasEmail(users[i].email));
    assert HasEmail(users[i].email)(users[i]);
    assert k <= i;
  }

  /** Appending a row under the next rowid whose email is new keeps the invariant. */
  lemma AppendRegistered(users: seq<User>, last: nat, u: User)
    requires Registered(users, last) && u.user_id == last + 1 && ByEmail(users, u.email).None?
    ensures Registered(users + [u], last + 1)
  {
    var s := users + [u];
    forall i, j | 0 <= i < j < |s| ensures s[i].email != s[j].email {
      if j == |users| {
        assert !HasEmail(u.email)(users[i]);
      }
    }
  }

  /** An UPDATE by id keeps the invariant: it changes neither keys nor emails. */
  lemma UpdateRegistered(users: seq<User>, last: nat, id: int, c: Change)
    requires Registered(users, last)
    ensures Registered(UpdateById(users, id, c), last)
  {
    var r := UpdateById(users, id, c);
    assert forall i :: 0 <= i < |users| ==> r[i].user_id == users[i].user_id && r[i].email == users[i].email;
  }

  /** The users table and the three token tables of the auth routes. */
  class AuthStore {
    var users: seq<User>
    var lastUserId: nat
    var emailTokens: seq<TokenRow>
    var magicTokens: seq<TokenRow>
    var resetTokens: seq<TokenRow>

    ghost predicate Valid()
      reads this
    {
      Registered(users, lastUserId)
    }

    constructor ()
      ensures Valid() && users == [] && lastUserId == 0
      ensures emailTokens == [] && magicTokens == [] && resetTokens == []
    {
      users := [];
      lastUserId := 0;
      emailTokens := [];
      magicTokens := [];
      resetTokens := [];
    }

    /** `INSERT INTO users ...` of `u`'s columns: the row gets the next rowid, unless
        its email is taken, which the UNIQUE constraint refuses. */
    method AddUser(u: User) returns (r: Option<User>)
      requires Valid()
      modifies this
      ensures Valid()
      ensures r.Some? <==> ByEmail(old(users), u.email).None?
      ensures r.Some? ==>
        r.value == u.(user_id := old(lastUserId) + 1) && users == old(users) + [r.value] && lastUserId == r.value.user_id
      ensures r.None? ==> users == old(users) && lastUserId == old(lastUserId)
      ensures emailTokens == old(emailTokens) && magicTokens == old(magicTokens) && resetTokens == old(resetTokens)
    {
      if ByEmail(users, u.email).Some? {
        return None;
      }
      var row := u.(user_id := lastUserId + 1);
      AppendRegistered(users, lastUserId, row);
      users := users + [row];
      lastUserId := lastUserId + 1;
      r := Some(row);
    }

    /** `UPDATE users SET ... WHERE user_id = ?` */
    method Update(id: int, c: Change)
      requires Valid()
      modifies this
      ensures Valid()
      ensures users == UpdateById(old(users), id, c) && lastUserId == old(lastUserId)
      ensures emailTokens == old(emailTokens) && magicTokens == old(magicTokens) && resetTokens == old(resetTokens)
    {
      UpdateRegistered(users, lastUserId, id, c);
      users := UpdateById(users, id, c);
    }
  }
}
