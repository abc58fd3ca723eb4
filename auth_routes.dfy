/**
 * The store transitions of the /auth routes: local signup, email verification,
 * magic-link request and redemption, and password reset. Signing and checking a
 * JWT, hashing a password and sending mail are not modelled: each handler is
 * given the signed `token`, the bcrypt `hash`, the outcome of `jwt.verify`
 * (`decoded`: the user id it yields, or None when it throws), whether the mail
 * went out (`mailed`), and the time `now` in milliseconds.
 */
module AuthRoutes {
  import opened Wrappers
  import opened Ledger
  import opened Identity

  /** What the handler answers: a rendered view or a redirect. */
  datatype Response = Render(view: string) | Redirect(location: string)

  const Minute := 60 * 1000
  const Hour := 60 * Minute
  /** Lifetimes of the three kinds of token: 24 h, 15 min and 1 h. */
  const VerificationLifetime := 24 * Hour
  const MagicLinkLifetime := 15 * Minute
  const ResetLifetime := Hour

  /** The columns signup inserts: email, password_hash, display_name, 'local', 0. */
  function SignupRow(email: string, hash: string, displayName: string): User
  {
    User(0, email, Some(hash), Some(displayName), None, None, Some(Local), false)
  }

  /** The columns a magic-link request inserts for an unknown email: email, 'magic_link', 1. */
  function MagicLinkRow(email: string): User
  {
    User(0, email, None, None, None, None, Some(MagicLink), true)
  }

  function IsLocalWith(email: string): User -> bool
  {
    (u: User) => u.email == email && u.auth_provider == Some(Local)
  }

  /** `SELECT * FROM users WHERE email = ? AND auth_provider = 'local'`; an absent email
      binds NULL, which matches nothing. */
  function LocalAccount(users: seq<User>, email: Option<string>): (r: Option<User>)
    ensures r.Some? ==> email.Some? && r.value in users && r.value.email == email.value && r.value.auth_provider == Some(Local)
    ensures r.None? ==> email.None? || forall u :: u in users ==> !(u.email == email.value && u.auth_provider == Some(Local))
  {
    if email.None? then None
    else
      var r := Lookup(users, IsLocalWith(email.value));
      assert r.None? ==> forall u :: u in users ==> !IsLocalWith(email.value)(u);
      r
  }

  /** POST /signup */
  method Signup(store: AuthStore, email: Option<string>, password: Option<string>, displayName: Option<string>,
                hash: string, token: string, now: int, mailed: bool) returns (resp: Response)
    requires store.Valid()
    modifies store
    ensures store.Valid()
    ensures !(Given(email) && Given(password) && Given(displayName)) ==>
      resp == Redirect("/auth/register?error=All fields are required") && unchanged(store)
    ensures Given(email) && Given(password) && Given(displayName) && ByEmail(old(store.users), email.value).Some? ==>
      resp == Redirect("/auth/register?error=Email already registered") && unchanged(store)
    ensures Given(email) && Given(password) && Given(displayName) && ByEmail(old(store.users), email.value).None? ==>
      var u := SignupRow(email.value, hash, displayName.value).(user_id := old(store.lastUserId) + 1);
      store.users == old(store.users) + [u] && store.lastUserId == u.user_id
      && store.emailTokens == Issue(old(store.emailTokens), u.user_id, token, now + VerificationLifetime)
      && store.magicTokens == old(store.magicTokens) && store.resetTokens == old(store.resetTokens)
      && resp == if mailed then Render("auth/verify-sent") else Redirect("/auth/register?error=Something went wrong")
  {
    if !(Given(email) && Given(password) && Given(displayName)) {
      return Redirect("/auth/register?error=All fields are required");
    }
    if ByEmail(store.users, email.value).Some? {
      return Redirect("/auth/register?error=Email already registered");
    }
    var added := store.AddUser(SignupRow(email.value, hash, displayName.value));
    var user := added.value;
    store.emailTokens := Issue(store.emailTokens, user.user_id, token, now + VerificationLifetime);
    resp := if mailed then Render("auth/verify-sent") else Redirect("/auth/register?error=Something went wrong");
  }

  /** GET /verify-email */
  method VerifyEmail(store: AuthStore, token: Option<string>, decoded: Option<int>, now: int) returns (resp: Response)
    requires store.Valid()
    modifies store
    ensures store.Valid()
    ensures !Given(token) || decoded.None? ==>
      resp == Redirect("/auth/login?error=Invalid verification link") && unchanged(store)
    ensures Given(token) && decoded.Some? && !Live(old(store.emailTokens), token.value, now) ==>
      resp == Redirect("/auth/login?error=Invalid or expired verification link") && unchanged(store)
    ensures Given(token) && decoded.Some? && Live(old(store.emailTokens), token.value, now) ==>
      resp == Render("auth/verified")
      && store.users == UpdateById(old(store.users), decoded.value, MarkVerified)
      && store.emailTokens == MarkUsed(old(store.emailTokens), token.value)
      && store.lastUserId == old(store.lastUserId)
      && store.magicTokens == old(store.magicTokens) && store.resetTokens == old(store.resetTokens)
    ensures Given(token) && decoded.Some? ==> forall later :: later >= now ==> !Live(store.emailTokens, token.value, later)
  {
    if !Given(token) || decoded.None? {
      return Redirect("/auth/login?error=Invalid verification link");
    }
    if !Live(store.emailTokens, token.value, now) {
      forall later | later >= now ensures !Live(store.emailTokens, token.value, later) {
        if Live(store.emailTokens, token.value, later) {
          LiveEarlier(store.emailTokens, token.value, now, later);
        }
      }
      return Redirect("/auth/login?error=Invalid or expired verification link");
    }
    store.Update(decoded.value, MarkVerified);
    store.emailTokens := MarkUsed(store.emailTokens, token.value);
    forall later | later >= now ensures !Live(store.emailTokens, token.value, later) {
      SingleUse(old(store.emailTokens), token.value, later);
    }
    resp := Render("auth/verified");
  }

  /** POST /magic-link */
  method RequestMagicLink(store: AuthStore, email: Option<string>, token: string, now: int, mailed: bool)
    returns (resp: Response)
    requires store.Valid()
    modifies store
    ensures store.Valid()
    ensures !Given(email) ==> resp == Redirect("/auth/login?error=Email is required") && unchanged(store)
    ensures Given(email) && ByEmail(old(store.users), email.value).Some? ==>
      store.users == old(store.users) && store.lastUserId == old(store.lastUserId)
      && store.magicTokens == Issue(old(store.magicTokens), ByEmail(old(store.users), email.value).value.user_id,
                                    token, now + MagicLinkLifetime)
    ensures Given(email) && ByEmail(old(store.users), email.value).None? ==>
      var u := MagicLinkRow(email.value).(user_id := old(store.lastUserId) + 1);
      store.users == old(store.users) + [u] && store.lastUserId == u.user_id
      && store.magicTokens == Issue(old(store.magicTokens), u.user_id, token, now + MagicLinkLifetime)
    ensures Given(email) ==>
      store.emailTokens == old(store.emailTokens) && store.resetTokens == old(store.resetTokens)
      && resp == if mailed then Render("auth/magic-link-sent") else Redirect("/auth/login?error=Something went wrong")
  {
    if !Given(email) {
      return Redirect("/auth/login?error=Email is required");
    }
    var user := ByEmail(store.users, email.value);
    if user.None? {
      var added := store.AddUser(MagicLinkRow(email.value));
      ByIdFindsUser(store.users, store.lastUserId, |store.users| - 1);
      user := ById(store.users, added.value.user_id);
    }
    store.magicTokens := Issue(store.magicTokens, user.value.user_id, token, now + MagicLinkLifetime);
    resp := if mailed then Render("auth/magic-link-sent") else Redirect("/auth/login?error=Something went wrong");
  }

  /** GET /magic-link/verify: on success the token is closed first, then the user is
      loaded and logged in (`login`). */
  method RedeemMagicLink(store: AuthStore, token: Option<string>, decoded: Option<int>, now: int)
    returns (resp: Response, login: Option<User>)
    requires store.Valid()
    modifies store
    ensures store.Valid()
    ensures !Given(token) || decoded.None? ==>
      resp == Redirect("/auth/login?error=Invalid magic link") && login.None? && unchanged(store)
    ensures Given(token) && decoded.Some? && !Live(old(store.magicTokens), token.value, now) ==>
      resp == Redirect("/auth/login?error=Invalid or expired magic link") && login.None? && unchanged(store)
    ensures Given(token) && decoded.Some? && Live(old(store.magicTokens), token.value, now) ==>
      store.magicTokens == MarkUsed(old(store.magicTokens), token.value)
      && store.users == old(store.users) && store.lastUserId == old(store.lastUserId)
      && store.emailTokens == old(store.emailTokens) && store.resetTokens == old(store.resetTokens)
      && login == ById(old(store.users), decoded.value)
      && resp == if login.Some? then Redirect("/") else Redirect("/auth/login?error=User not found")
    ensures Given(token) && decoded.Some? ==> forall later :: later >= now ==> !Live(store.magicTokens, token.value, later)
  {
    login := None;
    if !Given(token) || decoded.None? {
      return Redirect("/auth/login?error=Invalid magic link"), None;
    }
    if !Live(store.magicTokens, token.value, now) {
      forall later | later >= now ensures !Live(store.magicTokens, token.value, later) {
        if Live(store.magicTokens, token.value, later) {
          LiveEarlier(store.magicTokens, token.value, now, later);
        }
      }
      return Redirect("/auth/login?error=Invalid or expired magic link"), None;
    }
    store.magicTokens := MarkUsed(store.magicTokens, token.value);
    forall later | later >= now ensures !Live(store.magicTokens, token.value, later) {
      SingleUse(old(store.magicTokens), token.value, later);
    }
    login := ById(store.users, decoded.value);
    if login.None? {
      return Redirect("/auth/login?error=User not found"), None;
    }
    resp := Redirect("/");
  }

  /** POST /forgot-password: a token only for a local account, and the same page either way. */
  method ForgotPassword(store: AuthStore, email: Option<string>, token: string, now: int, mailed: bool)
    returns (resp: Response)
    requires store.Valid()
    modifies store
    ensures store.Valid()
    ensures LocalAccount(old(store.users), email).None? ==> resp == Render("auth/reset-sent") && unchanged(store)
    ensures LocalAccount(old(store.users), email).Some? ==>
      store.resetTokens == Issue(old(store.resetTokens), LocalAccount(old(store.users), email).value.user_id,
                                 token, now + ResetLifetime)
      && store.users == old(store.users) && store.lastUserId == old(store.lastUserId)
      && store.emailTokens == old(store.emailTokens) && store.magicTokens == old(store.magicTokens)
      && resp == if mailed then Render("auth/reset-sent") else Redirect("/auth/forgot-password?error=Something went wrong")
    ensures mailed ==> resp == Render("auth/reset-sent")
  {
    var user := LocalAccount(store.users, email);
    if user.None? {
      return Render("auth/reset-sent");
    }
    store.resetTokens := Issue(store.resetTokens, user.value.user_id, token, now + ResetLifetime);
    resp := if mailed then Render("auth/reset-sent") else Redirect("/auth/forgot-password?error=Something went wrong");
  }

  /** GET /reset-password: checks the token against password_reset_tokens only and
      changes nothing. */
  function ResetPasswordPage(resetTokens: seq<TokenRow>, token: Option<string>, decoded: Option<int>, now: int)
    : (r: Response)
    ensures r == Render("auth/reset-password") <==> Given(token) && decoded.Some? && Live(resetTokens, token.value, now)
    ensures r != Render("auth/reset-password") ==>
      r == Redirect("/auth/login?error=Invalid reset link") || r == Redirect("/auth/login?error=Invalid or expired reset link")
  {
    if !Given(token) then Redirect("/auth/login?error=Invalid reset link")
    else if decoded.None? then Redirect("/auth/login?error=Invalid reset link")
    else if !Live(resetTokens, token.value, now) then Redirect("/auth/login?error=Invalid or expired reset link")
    else Render("auth/reset-password")
  }

  /** POST /reset-password */
  method ResetPassword(store: AuthStore, token: Option<string>, password: Option<string>, confirm: Option<string>,
                       decoded: Option<int>, hash: string, now: int) returns (resp: Response)
    requires store.Valid()
    modifies store
    ensures store.Valid()
    ensures !Given(token) || !Given(password) ==> resp == Redirect("/auth/login?error=Invalid request") && unchanged(store)
    ensures Given(token) && Given(password) && confirm != password ==>
      resp == Redirect("/auth/reset-password?token=" + token.value + "&error=Passwords do not match") && unchanged(store)
    ensures Given(token) && Given(password) && confirm == password && decoded.None? ==>
      resp == Redirect("/auth/login?error=Something went wrong") && unchanged(store)
    ensures Given(token) && Given(password) && confirm == password && decoded.Some?
            && !Live(old(store.resetTokens), token.value, now) ==>
      resp == Redirect("/auth/login?error=Invalid or expired reset link") && unchanged(store)
    ensures Given(token) && Given(password) && confirm == password && decoded.Some?
            && Live(old(store.resetTokens), token.value, now) ==>
      store.users == UpdateById(old(store.users), decoded.value, SetHash(hash))
      && store.resetTokens == MarkUsed(old(store.resetTokens), token.value)
      && store.lastUserId == old(store.lastUserId)
      && store.emailTokens == old(store.emailTokens) && store.magicTokens == old(store.magicTokens)
      && resp == Redirect("/auth/login?success=Password reset successfully")
  {
    if !Given(token) || !Given(password) {
      return Redirect("/auth/login?error=Invalid request");
    }
    if password != confirm {
      return Redirect("/auth/reset-password?token=" + token.value + "&error=Passwords do not match");
    }
    if decoded.None? {
      return Redirect("/auth/login?error=Something went wrong");
    }
    if !Live(store.resetTokens, token.value, now) {
      return Redirect("/auth/login?error=Invalid or expired reset link");
    }
    store.Update(decoded.value, SetHash(hash));
    store.resetTokens := MarkUsed(store.resetTokens, token.value);
    resp := Redirect("/auth/login?success=Password reset successfully");
  }
}
