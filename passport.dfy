/**
 * Session serialisation and the Google OAuth verify callback. The callback first
 * looks for an existing account, then links an account with the same email, and
 * otherwise creates one. It is modelled twice: `GoogleCallbackAsWritten` looks the
 * profile id up as a `user_id`, as the code does; `GoogleCallback` looks it up as a
 * `google_id`, which is what the rest of the callback (it stores `google_id`)
 * evidently relies on.
 */
module Passport {
  import opened Wrappers
  import opened Identity

  /** serializeUser: the session keeps only the user id. */
  function Serialize(u: User): nat
  {
    u.user_id
  }

  /** deserializeUser: the row is read again by id, the first one in scan order;
      a missing row yields null. */
  function Deserialize(users: seq<User>, id: int): (r: Option<User>)
    ensures r.Some? ==> r.value in users && r.value.user_id == id
    ensures r.Some? ==> exists i :: 0 <= i < |users| && users[i] == r.value
                                    && forall j :: 0 <= j < i ==> users[j].user_id != id
    ensures r.None? ==> forall u :: u in users ==> u.user_id != id
  {
    var r := ById(users, id);
    var k := FirstUser(users, HasId(id));
    assert forall j :: 0 <= j < k ==> !HasId(id)(users[j]);
    assert r.None? ==> forall u :: u in users ==> !HasId(id)(u);
    r
  }

  /** Every stored user survives the session round trip unchanged. */
  lemma SessionRoundTrip(users: seq<User>, last: nat, u: User)
    requires Registered(users, last) && u in users
    ensures Deserialize(users, Serialize(u)) == Some(u)
  {
    var i :| 0 <= i < |users| && users[i] == u;
    ByIdFindsUser(users, last, i);
  }

  // ---- How SQLite reads a text id compared with the INTEGER key ----

  predicate AllDigits(s: string)
  {
    forall i :: 0 <= i < |s| ==> '0' <= s[i] <= '9'
  }

  /** The value of a string of decimal digits. */
  function DigitsValue(s: string): nat
    requires AllDigits(s)
  {
    if |s| == 0 then 0 else DigitsValue(s[..|s| - 1]) * 10 + (s[|s| - 1] as int - '0' as int)
  }

  const Int64Limit: nat := 0x8000_0000_0000_0000

  /** The key a text id is compared as: a string of digits denoting a 64-bit integer
      is converted by the column's integer affinity; anything else stays text and
      equals no integer key. */
  function ParseId(s: string): (r: Option<nat>)
    ensures r.Some? ==> |s| > 0 && AllDigits(s) && r.value < Int64Limit
  {
    if |s| > 0 && AllDigits(s) && DigitsValue(s) < Int64Limit then Some(DigitsValue(s)) else None
  }

  function Digit(d: nat): (c: char)
    requires d < 10
    ensures '0' <= c <= '9' && c as int - '0' as int == d
  {
    ('0' as int + d) as char
  }

  /** A number written in decimal. */
  function Decimal(n: nat): (s: string)
    ensures |s| > 0 && AllDigits(s)
  {
    if n < 10 then [Digit(n)] else Decimal(n / 10) + [Digit(n % 10)]
  }

  lemma {:induction false} DecimalValue(n: nat)
    ensures DigitsValue(Decimal(n)) == n
  {
    if n >= 10 {
      var d := Decimal(n / 10);
      assert Decimal(n)[..|Decimal(n)| - 1] == d;
      DecimalValue(n / 10);
    }
  }

  /** An id written in decimal is read back as that id. */
  lemma ParseDecimal(n: nat)
    requires n < Int64Limit
    ensures ParseId(Decimal(n)) == Some(n)
  {
    DecimalValue(n);
  }

  // ---- The verify callback ----

  /** The parts of the Google profile the callback reads: `id`, `emails[0].value`,
      `displayName` and `photos[0].value`. */
  datatype Profile = Profile(id: string, email: Option<string>, displayName: Option<string>, photo: Option<string>)

  /** `done(null, user)` or `done(error)`. */
  datatype Outcome = Done(user: User) | Failed

  /** An outcome together with the users table it leaves. */
  datatype Step = Step(outcome: Outcome, users: seq<User>, lastUserId: nat)

  /** The email of a created account: the profile's, or `<id>@google.oauth`. */
  function AccountEmail(p: Profile): (e: string)
    ensures Given(p.email) ==> e == p.email.value
    ensures !Given(p.email) ==> e == p.id + "@google.oauth"
  {
    if Given(p.email) then p.email.value else p.id + "@google.oauth"
  }

  /** The columns a Google sign-up inserts. */
  function GoogleRow(p: Profile): User
  {
    User(0, AccountEmail(p), None, p.displayName, p.photo, Some(p.id), Some(Google), true)
  }

  /** The account an email links to, when the profile has an email. */
  function LinkTarget(users: seq<User>, p: Profile): Option<User>
  {
    if Given(p.email) then ByEmail(users, p.email.value) else None
  }

  /** The callback after the fast path missed: link by email, or create. Creation
      under an email that is taken violates UNIQUE and fails. */
  function LinkOrCreateStep(users: seq<User>, last: nat, p: Profile): (s: Step)
    ensures s.outcome.Failed? ==> s.users == users && s.lastUserId == last
    ensures |s.users| == |users| || (|s.users| == |users| + 1 && s.users[..|users|] == users)
  {
    var linked := LinkTarget(users, p);
    if linked.Some? then
      Step(Done(linked.value), UpdateById(users, linked.value.user_id, LinkGoogle(p.id)), last)
    else if ByEmail(users, AccountEmail(p)).Some? then
      Step(Failed, users, last)
    else
      var row := GoogleRow(p).(user_id := last + 1);
      assert (users + [row])[..|users|] == users;
      Step(Done(row), users + [row], last + 1)
  }

  /** `Users.findById(profile.id)`: the profile id compared with `user_id`. */
  function FastPathAsWritten(users: seq<User>, p: Profile): (r: Option<User>)
    ensures r.Some? ==> r.value in users && ParseId(p.id) == Some(r.value.user_id)
  {
    var key := ParseId(p.id);
    if key.None? then None else ById(users, key.value)
  }

  /** The account already linked to this Google id. */
  function FastPath(users: seq<User>, p: Profile): (r: Option<User>)
    ensures r.Some? ==> r.value in users && r.value.google_id == Some(p.id)
  {
    ByGoogleId(users, p.id)
  }

  function CallbackStepAsWritten(users: seq<User>, last: nat, p: Profile): Step
  {
    var found := FastPathAsWritten(users, p);
    if found.Some? then Step(Done(found.value), users, last) else LinkOrCreateStep(users, last, p)
  }

  function CallbackStep(users: seq<User>, last: nat, p: Profile): Step
  {
    var found := FastPath(users, p);
    if found.Some? then Step(Done(found.value), users, last) else LinkOrCreateStep(users, last, p)
  }

  /** Lines 34-60 of the callback on the store. */
  method LinkOrCreate(store: AuthStore, p: Profile) returns (outcome: Outcome)
    requires store.Valid()
    modifies store
    ensures store.Valid()
    ensures Step(outcome, store.users, store.lastUserId) == LinkOrCreateStep(old(store.users), old(store.lastUserId), p)
    ensures store.emailTokens == old(store.emailTokens) && store.magicTokens == old(store.magicTokens)
    ensures store.resetTokens == old(store.resetTokens)
  {
    if Given(p.email) {
      var user := ByEmail(store.users, p.email.value);
      if user.Some? {
        store.Update(user.value.user_id, LinkGoogle(p.id));
        return Done(user.value);
      }
    }
    var created := store.AddUser(GoogleRow(p));
    if created.None? {
      return Failed;
    }
    ByIdFindsUser(store.users, store.lastUserId, |store.users| - 1);
    var result := ById(store.users, created.value.user_id);
    outcome := Done(result.value);
  }

  /** The verify callback as written: the fast path compares the profile id with `user_id`. */
  method GoogleCallbackAsWritten(store: AuthStore, p: Profile) returns (outcome: Outcome)
    requires store.Valid()
    modifies store
    ensures store.Valid()
    ensures Step(outcome, store.users, store.lastUserId) == CallbackStepAsWritten(old(store.users), old(store.lastUserId), p)
    ensures store.emailTokens == old(store.emailTokens) && store.magicTokens == old(store.magicTokens)
    ensures store.resetTokens == old(store.resetTokens)
  {
    var user := FastPathAsWritten(store.users, p);
    if user.Some? {
      return Done(user.value);
    }
    outcome := LinkOrCreate(store, p);
  }

  /** The verify callback with the fast path on `google_id`. */
  method GoogleCallback(store: AuthStore, p: Profile) returns (outcome: Outcome)
    requires store.Valid()
    modifies store
    ensures store.Valid()
    ensures Step(outcome, store.users, store.lastUserId) == CallbackStep(old(store.users), old(store.lastUserId), p)
    ensures store.emailTokens == old(store.emailTokens) && store.magicTokens == old(store.magicTokens)
    ensures store.resetTokens == old(store.resetTokens)
  {
    var user := FastPath(store.users, p);
    if user.Some? {
      return Done(user.value);
    }
    outcome := LinkOrCreate(store, p);
  }

  /** Linking: the account with the profile's email is returned as it was read, and
      is now the same row with the Google id, provider 'google' and a verified email;
      no row is added. */
  lemma LinkPath(users: seq<User>, last: nat, p: Profile)
    requires Registered(users, last) && LinkTarget(users, p).Some?
    ensures var u := LinkTarget(users, p).value;
            var s := LinkOrCreateStep(users, last, p);
            s.outcome == Done(u) && |s.users| == |users| && s.lastUserId == last
            && ById(s.users, u.user_id) == Some(Apply(u, LinkGoogle(p.id)))
  {
    var u := LinkTarget(users, p).value;
    var i :| 0 <= i < |users| && users[i] == u;
    var r := UpdateById(users, u.user_id, LinkGoogle(p.id));
    UpdateRegistered(users, last, u.user_id, LinkGoogle(p.id));
    ByIdFindsUser(r, last, i);
  }

  /** Creation: exactly one row is added, under the next id, with provider 'google',
      a verified email, the Google id and the chosen email, and it is the row returned. */
  lemma CreatePath(users: seq<User>, last: nat, p: Profile)
    requires Registered(users, last) && LinkTarget(users, p).None? && ByEmail(users, AccountEmail(p)).None?
    ensures var s := LinkOrCreateStep(users, last, p);
            s.outcome.Done? && |s.users| == |users| + 1 && s.lastUserId == last + 1
            && s.outcome.user == s.users[|users|] && s.outcome.user.user_id == last + 1
            && s.outcome.user.auth_provider == Some(Google) && s.outcome.user.email_verified
            && s.outcome.user.email == AccountEmail(p) && s.outcome.user.google_id == Some(p.id)
  {
  }

  /** The callback fails only when creation clashes, which needs a profile without
      email whose fallback address is taken. */
  lemma FailsOnlyWithoutEmail(users: seq<User>, last: nat, p: Profile)
    requires LinkOrCreateStep(users, last, p).outcome.Failed?
    ensures !Given(p.email) && ByEmail(users, p.id + "@google.oauth").Some?
  {
  }

  /** Any successful callback leaves an account linked to the Google id. */
  lemma LinkedAfterLogin(users: seq<User>, last: nat, p: Profile)
    requires Registered(users, last)
    requires CallbackStep(users, last, p).outcome.Done?
    ensures var s := CallbackStep(users, last, p);
            Registered(s.users, s.lastUserId) && FastPath(s.users, p).Some?
  {
    if FastPath(users, p).Some? {
      var u := FastPath(users, p).value;
      var i :| 0 <= i < |users| && users[i] == u;
      assert HasGoogleId(p.id)(users[i]);
    } else if LinkTarget(users, p).Some? {
      LinkedByLink(users, last, p);
    } else {
      LinkedByCreate(users, last, p);
    }
  }

  lemma LinkedByLink(users: seq<User>, last: nat, p: Profile)
    requires Registered(users, last) && LinkTarget(users, p).Some?
    ensures var s := LinkOrCreateStep(users, last, p);
            Registered(s.users, s.lastUserId) && FastPath(s.users, p).Some?
  {
    var u := LinkTarget(users, p).value;
    var i :| 0 <= i < |users| && users[i] == u;
    var r := UpdateById(users, u.user_id, LinkGoogle(p.id));
    UpdateRegistered(users, last, u.user_id, LinkGoogle(p.id));
    assert HasGoogleId(p.id)(r[i]);
  }

  lemma LinkedByCreate(users: seq<User>, last: nat, p: Profile)
    requires Registered(users, last) && LinkTarget(users, p).None?
    requires LinkOrCreateStep(users, last, p).outcome.Done?
    ensures var s := LinkOrCreateStep(users, last, p);
            Registered(s.users, s.lastUserId) && FastPath(s.users, p).Some?
  {
    var row := GoogleRow(p).(user_id := last + 1);
    AppendRegistered(users, last, row);
    assert HasGoogleId(p.id)((users + [row])[|users|]);
  }

  /** A repeat login with the same Google account takes the fast path: it returns the
      linked account and leaves the store as it is. */
  lemma RepeatLogin(users: seq<User>, last: nat, p: Profile)
    requires Registered(users, last)
    requires CallbackStep(users, last, p).outcome.Done?
    ensures var s := CallbackStep(users, last, p);
            var t := CallbackStep(s.users, s.lastUserId, p);
            t.outcome.Done? && t.outcome.user.google_id == Some(p.id)
            && t.users == s.users && t.lastUserId == s.lastUserId
  {
    LinkedAfterLogin(users, last, p);
  }

  /** The Google profile of the repeat-login counterexample: id 900 and no email. */
  const NoEmailProfile := Profile("900", None, None, None)

  lemma ParseNineHundred()
    ensures ParseId("900") == Some(900)
  {
    assert DigitsValue("900") == 900 by {
      assert "900"[..2] == "90" && "90"[..1] == "9" && "9"[..0] == "";
    }
  }

  /** The account the first login of `NoEmailProfile` creates: user 1, `900@google.oauth`. */
  const FirstAccount := GoogleRow(NoEmailProfile).(user_id := 1)

  /** As written, the first login of `NoEmailProfile` creates `FirstAccount`. */
  lemma FirstLoginAsWritten()
    ensures CallbackStepAsWritten([], 0, NoEmailProfile) == Step(Done(FirstAccount), [FirstAccount], 1)
  {
    ParseNineHundred();
  }

  /** As written, the next login of the same profile fails: 900 is no user id, and
      creation clashes with the email the first login stored. */
  lemma SecondLoginAsWritten()
    ensures CallbackStepAsWritten([FirstAccount], 1, NoEmailProfile).outcome == Failed
  {
    ParseNineHundred();
    assert !HasId(900)(FirstAccount);
    assert FirstUser([FirstAccount], HasId(900)) == 1 by {
      assert [FirstAccount][1..] == [];
    }
    assert HasEmail(AccountEmail(NoEmailProfile))(FirstAccount);
  }

  /** As written, the no-email profile "900" logs in once on an empty store and then
      never again: the hypotheses of `RepeatLoginFailsAsWritten` can be met. */
  lemma RepeatLoginFailsAt900()
    ensures var s := CallbackStepAsWritten([], 0, NoEmailProfile);
            s.outcome.Done? && CallbackStepAsWritten(s.users, s.lastUserId, NoEmailProfile).outcome == Failed
  {
    FirstLoginAsWritten();
    SecondLoginAsWritten();
  }

  /** No stored user has an id above the last one handed out. */
  lemma NoUserAbove(users: seq<User>, last: nat, n: int)
    requires Registered(users, last) && n > last
    ensures ById(users, n).None?
  {
    forall i | 0 <= i < |users| ensures !HasId(n)(users[i]) {
    }
  }

  /** As written, a Google account without email whose id does not read as a user id
      up to the one its first login creates, logs in once and then never again: the
      second login misses the fast path, and its creation clashes with the
      `<id>@google.oauth` email the first one stored. Real Google ids (21 digits) are
      beyond 64 bits and never read as a user id. */
  lemma RepeatLoginFailsAsWritten(users: seq<User>, last: nat, p: Profile)
    requires Registered(users, last) && !Given(p.email)
    requires ParseId(p.id).None? || ParseId(p.id).value > last + 1
    requires CallbackStepAsWritten(users, last, p).outcome.Done?
    ensures var s := CallbackStepAsWritten(users, last, p);
            CallbackStepAsWritten(s.users, s.lastUserId, p).outcome == Failed
  {
    if ParseId(p.id).Some? {
      NoUserAbove(users, last, ParseId(p.id).value);
    }
    assert FastPathAsWritten(users, p).None?;
    var row := GoogleRow(p).(user_id := last + 1);
    assert ByEmail(users, AccountEmail(p)).None?;
    var s := CallbackStepAsWritten(users, last, p);
    assert s == Step(Done(row), users + [row], last + 1);
    AppendRegistered(users, last, row);
    if ParseId(p.id).Some? {
      NoUserAbove(s.users, s.lastUserId, ParseId(p.id).value);
    }
    assert FastPathAsWritten(s.users, p).None?;
    assert HasEmail(AccountEmail(p))(s.users[|users|]);
    assert ByEmail(s.users, AccountEmail(p)).Some?;
  }

  /** A local account, and a Google profile with another email whose id is "1". */
  const Alice := User(1, "alice@example.com", Some("hash"), None, None, None, Some(Local), false)
  const Mallory := Profile("1", Some("mallory@example.com"), None, None)

  /** As written, a Google profile whose id reads as an existing user id logs in as
      that user, whatever its email. */
  lemma ForeignAccountAsWritten()
    ensures CallbackStepAsWritten([Alice], 1, Mallory).outcome == Done(Alice)
    ensures Alice.email != Mallory.email.value
  {
    assert DigitsValue("1") == 1 by {
      assert "1"[..0] == "";
    }
    assert HasId(1)(Alice);
  }

  /** As written, whenever a profile id reads as the id of a stored user, the callback
      logs in as that user and changes nothing, whatever the profile's email. */
  lemma IdCollisionAsWritten(users: seq<User>, last: nat, p: Profile, n: nat)
    requires ParseId(p.id) == Some(n) && ById(users, n).Some?
    ensures CallbackStepAsWritten(users, last, p) == Step(Done(ById(users, n).value), users, last)
    ensures ById(users, n).value.user_id == n
  {
  }

  /** With the Google-id lookup the same profile gets an account of its own. */
  lemma ForeignAccountCorrected()
    ensures CallbackStep([Alice], 1, Mallory).outcome.Done?
    ensures CallbackStep([Alice], 1, Mallory).outcome.user.email == Mallory.email.value
    ensures CallbackStep([Alice], 1, Mallory).outcome.user.user_id == 2
  {
    assert !HasGoogleId("1")(Alice);
    assert !HasEmail("mallory@example.com")(Alice);
    assert FirstUser([Alice], HasGoogleId("1")) == 1 by {
      assert [Alice][1..] == [];
    }
    assert FirstUser([Alice], HasEmail("mallory@example.com")) == 1 by {
      assert [Alice][1..] == [];
    }
  }
}
