/**
 * The three token tables of the auth routes: email_verification_tokens,
 * magic_link_tokens and password_reset_tokens. Each is a sequence of rows in
 * insertion order; a redemption asks
 * `SELECT ... WHERE token = ? AND used = 0 AND expires_at > now` and closes the
 * token with `UPDATE ... SET used = 1 WHERE token = ?`.
 */
module Ledger {

  /** One token row: the user it was issued for, the signed token, its expiry in
      milliseconds, and `used`. */
  datatype TokenRow = TokenRow(user_id: nat, token: string, expires_at: int, used: bool)

  /** The row is selected by `WHERE token = ? AND used = 0 AND expires_at > now`. */
  predicate Redeemable(row: TokenRow, token: string, now: int)
  {
    row.token == token && !row.used && row.expires_at > now
  }

  /** The redemption query finds a row: the token may be redeemed at `now`. */
  predicate Live(rows: seq<TokenRow>, token: string, now: int)
  {
    exists i :: 0 <= i < |rows| && Redeemable(rows[i], token, now)
  }

  /** `UPDATE ... SET used = 1 WHERE token = ?`: every row with that token is closed. */
  function MarkUsed(rows: seq<TokenRow>, token: string): (r: seq<TokenRow>)
    ensures |r| == |rows|
    ensures forall i :: 0 <= i < |rows| ==> r[i].token == rows[i].token && r[i].user_id == rows[i].user_id
  {
    seq(|rows|, i requires 0 <= i < |rows| => if rows[i].token == token then rows[i].(used := true) else rows[i])
  }

  /** `INSERT INTO ... (user_id, token, expires_at) VALUES (?, ?, ?)`; `used` starts at 0. */
  function Issue(rows: seq<TokenRow>, userId: nat, token: string, expiresAt: int): (r: seq<TokenRow>)
    ensures |r| == |rows| + 1 && r[..|rows|] == rows
  {
    rows + [TokenRow(userId, token, expiresAt, false)]
  }

  /** A redeemed token is never redeemable again, at any time. */
  lemma SingleUse(rows: seq<TokenRow>, token: string, now: int)
    ensures !Live(MarkUsed(rows, token), token, now)
  {
    var r := MarkUsed(rows, token);
    forall i | 0 <= i < |r| ensures !Redeemable(r[i], token, now) {
      if rows[i].token == token {
        assert r[i].used;
      } else {
        assert r[i].token != token;
      }
    }
  }

  /** Closing one token leaves every other token exactly as redeemable as it was. */
  lemma MarkUsedKeepsOthers(rows: seq<TokenRow>, token: string, other: string, now: int)
    requires other != token
    ensures Live(MarkUsed(rows, token), other, now) <==> Live(rows, other, now)
  {
    var r := MarkUsed(rows, token);
    forall i | 0 <= i < |rows| ensures Redeemable(r[i], other, now) <==> Redeemable(rows[i], other, now) {
      if rows[i].token == token {
        assert r[i].token != other && rows[i].token != other;
      }
    }
    if Live(rows, other, now) {
      var i :| 0 <= i < |rows| && Redeemable(rows[i], other, now);
      assert Redeemable(r[i], other, now);
    }
  }

  /** A newly issued token is redeemable exactly until it expires; the others are unaffected. */
  lemma IssueLive(rows: seq<TokenRow>, userId: nat, token: string, expiresAt: int, t: string, now: int)
    ensures Live(Issue(rows, userId, token, expiresAt), t, now) <==> Live(rows, t, now) || (t == token && expiresAt > now)
  {
    var r := Issue(rows, userId, token, expiresAt);
    assert r[|rows|] == TokenRow(userId, token, expiresAt, false);
    if Live(rows, t, now) {
      var i :| 0 <= i < |rows| && Redeemable(rows[i], t, now);
      assert r[i] == rows[i];
    }
    if Live(r, t, now) {
      var i :| 0 <= i < |r| && Redeemable(r[i], t, now);
      if i < |rows| {
        assert r[i] == rows[i];
      }
    }
  }

  /** A token redeemable at `now` was redeemable at every earlier time. */
  lemma LiveEarlier(rows: seq<TokenRow>, token: string, earlier: int, now: int)
    requires earlier <= now && Live(rows, token, now)
    ensures Live(rows, token, earlier)
  {
    var i :| 0 <= i < |rows| && Redeemable(rows[i], token, now);
    assert Redeemable(rows[i], token, earlier);
  }
}
