# Music streaming back end: auth, identity and catalogue store

This is a Dafny model of the stateful core of an Express and SQLite music streaming
back end. It covers:

- **BaseModel** (`lib/BaseModel.ts`): the generic CRUD layer over one table.
  - It builds `key = ?` clauses and binds values in key order.
  - Operations: findMany, findUnique, findById, create, update, updateById, delete,
    deleteById, count, exists and findManyPaginated.
  - Each is given its effect on the table, including the statements SQLite refuses:
    an empty WHERE or SET list, an unknown column, a UNIQUE clash.
- **The catalogue models** (`models/index.ts`):
  - `extendModel` and its override order;
  - Tracks.play and Tracks.popular;
  - Playlists.addTrack and Playlists.tracks;
  - the artist-name and album enrichment of Artists, Albums and Tracks.
- **The auth routes** (`src/routes/auth.ts`):
  - signup, email verification, magic-link request and redemption, forgot-password,
    and the reset-password page and form;
  - how each of them changes the users table and the three token tables
    `email_verification_tokens`, `magic_link_tokens` and `password_reset_tokens`.
- **Passport** (`config/passport.ts`): session serialisation and the Google OAuth
  verify callback, which looks up, then links, then creates.
- **The authentication gates** (`src/middleware/auth.ts`).

Modules, one per file:

| module | file | what it holds |
|---|---|---|
| `Wrappers` | `wrappers.dfy` | `Option`; `Given`, JavaScript truthiness of an optional string |
| `Sql` | `sql.dfy` | Values, SQL `=`, and the ORDER BY relation |
| `Clause` | `clause.dfy` | The SQL text BaseModel builds, and the values it binds |
| `Base` | `base.dfy` | The `BaseModel` class over a `seq` of rows in scan order |
| `Catalogue` | `catalogue.dfy` | `extendModel`, and a `Library` class holding the four catalogue tables |
| `Ledger` | `ledger.dfy` | The three token tables: issue, redeemable, mark used |
| `Identity` | `identity.dfy` | Typed users, lookups, and the `AuthStore` class |
| `AuthRoutes` | `auth_routes.dfy` | The `/auth` handlers as methods on an `AuthStore` |
| `Passport` | `passport.dfy` | serialize/deserialize, and the Google callback as written and as corrected |
| `Middleware` | `middleware.dfy` | isAuthenticated, isNotAuthenticated, attachUser |

Modelling choices:

- **Rows.** A table is a sequence of rows kept in rowid order. SQLite scans a table in
  that order, so `db.get` and `LIMIT 1` return the first matching row.
- **The users table.** It is a `seq<User>` rather than a map from id to user, so that
  "first match" keeps its meaning. Its invariant (`Identity.Registered`) says:
  - ids are positive, increasing and no larger than the last one handed out;
  - email is UNIQUE.
- **Token tables.** They are sequences of `TokenRow` rather than maps from token to row:
  - Two tokens signed for the same user within the same second are the same string.
  - Two such rows can therefore exist.
  - `UPDATE ... SET used = 1 WHERE token = ?` closes all of them, which is exactly what
    `Ledger.MarkUsed` does.
- **Inputs from outside.** Signing and verifying a JWT, bcrypt hashing and sending mail
  are not modelled. Each handler receives their results as parameters:
  - the signed `token`;
  - the `hash`;
  - `decoded`, the user id `jwt.verify` yields, or `None` when it throws;
  - `mailed`, whether the mail went out.
- **Time.** Time is an integer `now` in milliseconds.

## Model

| member | source | states |
|---|---|---|
| Sql.ValueLeTotal | lib/BaseModel.ts:186-188 | Any two column values are ordered one way or the other by ORDER BY |
| Sql.ValueLeTransitive | lib/BaseModel.ts:186-188 | The ORDER BY relation on values is transitive |
| Clause.UpdateBindings | lib/BaseModel.ts:79-88 | The update binds the data values in key order, followed by the where values in key order |
| Clause.WhereClausePlaceholders | lib/BaseModel.ts:18-19 | A WHERE clause joined by " AND ", or a SET clause joined by ", ", holds exactly one placeholder per key |
| Clause.PlaceholdersCount | lib/BaseModel.ts:61 | The VALUES list of create has exactly one placeholder per column |
| Clause.SelectBindsWhereValues | lib/BaseModel.ts:11-22 | The SELECT of findMany has as many placeholders as where values bound |
| Clause.InsertBindsDataValues | lib/BaseModel.ts:59-64 | The INSERT of create has as many placeholders as data values bound |
| Clause.UpdateBindsDataThenWhere | lib/BaseModel.ts:79-88 | The UPDATE has as many placeholders as the data-then-where bindings |
| Base.Filter | lib/BaseModel.ts:18-22 | A filtered row is a table row that satisfies every `key = value` |
| Base.Reject | lib/BaseModel.ts:115-120 | A row a DELETE keeps is a table row that fails the WHERE |
| Base.FirstIndex | lib/BaseModel.ts:35-36 | `LIMIT 1` picks the first matching row in scan order, or none |
| Base.Assign | lib/BaseModel.ts:80-88 | SET writes each given field and leaves every other field of the row as it was |
| Base.UpdateRows | lib/BaseModel.ts:87-88 | An UPDATE keeps the number of rows |
| Base.MatchesKey | lib/BaseModel.ts:47-48 | `WHERE k = ?` holds exactly when the row's `k` is SQL-equal to the value |
| Base.FilterMembership | lib/BaseModel.ts:18-22 | A row is in the SELECT result if and only if it is in the table and matches |
| Base.FilterNoCondition | lib/BaseModel.ts:13-16 | An empty filter returns every row |
| Base.FilterAppend | lib/BaseModel.ts:21-22 | Filtering keeps scan order: it distributes over concatenation |
| Base.FilterMultiset | lib/BaseModel.ts:21-22 | The SELECT result is a sub-multiset of the table |
| Base.RejectMembership | lib/BaseModel.ts:119-120 | A DELETE keeps exactly the rows that do not match |
| Base.RejectShrinks | lib/BaseModel.ts:119-122 | A DELETE removes rows if and only if some row matched |
| Base.FilterNonEmpty | lib/BaseModel.ts:154-157 | Some row is selected if and only if some row matches |
| Base.RejectUnique | lib/BaseModel.ts:119-120 | A DELETE never breaks a UNIQUE or key constraint |
| Base.UpdateKeepsUnique | lib/BaseModel.ts:87-88 | An UPDATE that sets no constrained column keeps uniqueness |
| Base.InsertOrdered | lib/BaseModel.ts:186-188 | Inserting into an ordered run adds exactly that row |
| Base.SortBy | lib/BaseModel.ts:186-188 | ORDER BY permutes the rows |
| Base.InsertOrderedSorted | lib/BaseModel.ts:186-188 | Inserting a row keeps a run sorted |
| Base.SortBySorted | lib/BaseModel.ts:186-188 | ORDER BY `column direction` returns the rows sorted in that direction |
| Base.Skip | lib/BaseModel.ts:190-191 | The effective OFFSET is never past the end |
| Base.Arrange | lib/BaseModel.ts:186-188 | The optional ORDER BY keeps the candidate rows, as a permutation |
| Base.PageShape | lib/BaseModel.ts:190-191 | `LIMIT ? OFFSET ?` returns the contiguous slice after the offset, with at most `limit` rows |
| Base.PageMultiset | lib/BaseModel.ts:190-191 | A page is drawn from the rows it pages |
| Base.PageSorted | lib/BaseModel.ts:186-191 | A page of a sorted sequence is sorted |
| Base.PageOfArranged | lib/BaseModel.ts:176-193 | A page of the arranged rows: its length and bound, drawn from the candidates. When unordered it is the slice after the offset. When ordered it is the slice after the offset of some sorting of the candidates |
| Base.BaseModel.constructor | lib/BaseModel.ts:4-7 | A model over an empty table with the given name, primary key, columns and column defaults |
| Base.BaseModel.KnownKey | lib/BaseModel.ts:47 | A single-key WHERE names a known column if and only if that key is a column |
| Base.BaseModel.AppendStored | lib/BaseModel.ts:63-64 | Appending a full row under the next rowid that clashes with no key keeps the table invariant |
| Base.BaseModel.NewRow | lib/BaseModel.ts:59-64 | The inserted row has every column: the given values, the new rowid as key, and elsewhere the column's DEFAULT, or NULL when it has none |
| Base.BaseModel.FindMany | lib/BaseModel.ts:9-27 | Exactly the matching rows in scan order, or every row for an empty `where`. Fails on an unknown column |
| Base.BaseModel.FindUnique | lib/BaseModel.ts:29-43 | The first matching row, or null when none matches. Fails on an empty `where` or an unknown column |
| Base.BaseModel.FindById | lib/BaseModel.ts:45-55 | findUnique on the primary key. Fails when the key is not a column, with a syntax error for the empty name |
| Base.BaseModel.FindByIdIsTheKeyedRow | lib/BaseModel.ts:45-55 | Under the invariant, findById returns the one row holding that key |
| Base.BaseModel.Insert | lib/BaseModel.ts:59-64 | INSERT appends exactly one row with the next rowid when SQLite accepts the statement, and changes nothing otherwise |
| Base.BaseModel.Create | lib/BaseModel.ts:57-75 | create inserts one row and returns it re-read by `lastID`. It fails after the insert when findById cannot run |
| Base.BaseModel.Update | lib/BaseModel.ts:77-95 | Matching rows get the SET fields and other rows and fields are unchanged. Returns true if and only if a row matched. Errors leave the table |
| Base.BaseModel.UpdateById | lib/BaseModel.ts:97-111 | The same, restricted to the row whose primary key equals `id` |
| Base.BaseModel.Delete | lib/BaseModel.ts:113-127 | Removes exactly the matching rows. Returns true if and only if some row was removed. Errors leave the table |
| Base.BaseModel.DeleteById | lib/BaseModel.ts:129-139 | The same, restricted to the primary key: the remaining rows keep their order |
| Base.BaseModel.Count | lib/BaseModel.ts:141-162 | The number of rows findMany returns. Positive if and only if some row matches |
| Base.BaseModel.Exists | lib/BaseModel.ts:164-167 | True if and only if some row matches |
| Base.BaseModel.FindManyPaginated | lib/BaseModel.ts:169-198 | Filter, optional ORDER BY, then OFFSET/LIMIT: the length, drawn from the matching rows. Unordered: the in-order slice after the offset. Ordered: the slice after the offset of a sorting of the matching rows |
| Catalogue.ExtendModel | models/index.ts:17-35 | The base methods, then the extensions. An extension replaces the base method of the same name |
| Catalogue.EntriesOfAppend | models/index.ts:300-303 | A new entry of the playlist adds one to the count addTrack reads |
| Catalogue.AddAll | models/index.ts:299-312 | Successive addTrack calls append one row each |
| Catalogue.AddAllPositions | models/index.ts:299-312 | Successive adds append entries at positions count+1, count+2, … and leave earlier rows in place |
| Catalogue.AddsToEmptyPlaylist | models/index.ts:299-312 | n adds to an empty playlist give positions 1..n |
| Catalogue.AddOne | models/index.ts:299-312 | One addTrack appends the entry at the playlist's row count + 1 |
| Catalogue.Bumped | models/index.ts:185-188 | Play keeps the number of rows |
| Catalogue.UpdateIsBumped | models/index.ts:182-188 | Under a unique track_id, the UPDATE of play changes only that track's play_count, to one more |
| Catalogue.BumpedCounts | models/index.ts:185-188 | Only the named track's play count rises, by exactly one. Every other row, and every other field, is unchanged |
| Catalogue.SliceEnd | models/index.ts:195 | `slice(0, limit)` keeps at most the whole array, counting a negative limit from the back |
| Catalogue.Swap | models/index.ts:194 | Exchanging two elements permutes the array |
| Catalogue.SwapLeft | models/index.ts:194 | One insertion step keeps the sorted part sorted around the moving element |
| Catalogue.Settled | models/index.ts:194 | When the moving element stops, one more element is in descending order |
| Catalogue.SortByPlays | models/index.ts:194 | The in-place sort leaves the array in non-increasing play_count order, as a permutation |
| Catalogue.SortedByPlays | models/index.ts:192-194 | The fetched rows sorted by play count, highest first, as a permutation |
| Catalogue.TopByPlays | models/index.ts:191-195 | At most `limit` rows, non-increasing, drawn from the table. Every omitted track has no more plays than the last returned |
| Catalogue.PrefixOmits | models/index.ts:195 | A prefix of a descending arrangement is descending, drawn from the rows, and bounds what it omits |
| Catalogue.EntryExt | models/index.ts:305-311 | A row with exactly those five columns and values is the entry |
| Catalogue.Library.constructor | models/index.ts:11-15 | The catalogue over the given four tables |
| Catalogue.Library.ArtistById | models/index.ts:48 | The first artist in scan order with that id, or null when there is none |
| Catalogue.Library.TrackAlbum | models/index.ts:156-164 | null when no track has the id. A stored album when the track's album_id names one. Any album returned is stored and has the album_id of a track with that id |
| Catalogue.Library.TrackView | models/index.ts:204-210 | The track with every own field kept, including its play count. album_name, artist_id and cover_image_url come from the track's album. artist_name comes from that album's artist. Each is NULL when the album or artist is missing |
| Catalogue.Library.TrackById | models/index.ts:236-250 | null if and only if no track has the id. Otherwise the enriched view of a stored track with that id |
| Catalogue.Library.ResolveTracks | models/index.ts:290-294 | Resolving never yields more tracks than ids |
| Catalogue.Library.ResolveOne | models/index.ts:290-294 | One row resolves to its track, or to nothing when the id has no track |
| Catalogue.Library.ResolveAppend | models/index.ts:290-294 | Resolving keeps row order: it distributes over concatenation. With ResolveOne, each row contributes its track, or nothing when missing |
| Catalogue.Library.ResolvedAreTracks | models/index.ts:292-294 | Every resolved track is the view of a stored track |
| Catalogue.Library.ResolveKeepsAll | models/index.ts:290-294 | When every id resolves, all are kept in row order |
| Catalogue.Library.ResolveDropsMissing | models/index.ts:294 | An id with no track is dropped: the result is strictly shorter |
| Catalogue.Library.PlaylistTracks | models/index.ts:285-297 | The playlist's rows resolved in row order, dropping the ids with no track. At most the playlist's row count, each the view of a stored track |
| Catalogue.Library.AlbumView | models/index.ts:123-127 | The album with every field kept, plus the artist's name, or NULL for a missing artist |
| Catalogue.Library.AlbumById | models/index.ts:119-128 | null if and only if no album has the id. Otherwise that album with `artist_name` |
| Catalogue.Library.AlbumArtist | models/index.ts:84-89 | null when the album is missing. A stored artist when the album's artist_id names one. Any artist returned is stored and has the album's artist_id |
| Catalogue.Library.ArtistAlbums | models/index.ts:44-54 | The artist's albums in scan order, every field kept, each with the artist's name |
| Catalogue.Library.FullDiscography | models/index.ts:56-64 | null if and only if the artist is missing. Otherwise the stored artist with ArtistAlbums |
| Catalogue.Library.TrackViews | models/index.ts:197-212 | One enriched view per ranked track, in order |
| Catalogue.Library.Popular | models/index.ts:191-213 | At most `limit` enriched tracks, non-increasing by play count. Every omitted track has no more plays than the last returned |
| Catalogue.Library.Play | models/index.ts:181-189 | "Track not found" if and only if no track has the id, and then nothing changes. Otherwise exactly that track's play_count rises by one |
| Catalogue.Library.NewTrackPlays | config/database.ts:84 | A track inserted without a play count gets the DEFAULT 0 |
| Catalogue.Library.PlayUpdateAllowed | models/index.ts:185-188 | The UPDATE play issues is accepted, keeps keys unique and equals Bumped |
| Catalogue.Library.Entries | models/index.ts:300-302 | The playlist's existing rows, in scan order |
| Catalogue.Library.EntryInsertable | models/index.ts:305-311 | SQLite accepts the INSERT addTrack issues |
| Catalogue.Library.EntryRow | models/index.ts:305-311 | The inserted row is the entry with those five values |
| Catalogue.Library.AddTrackAsWritten | models/index.ts:299-312 | As written: the entry is appended at position count + 1, then the call fails with a syntax error |
| Catalogue.Library.AddTrack | models/index.ts:299-312 | Corrected: the entry is appended at position count + 1 and returned |
| Ledger.MarkUsed | src/routes/auth.ts:111-114 | Closing a token keeps every row's user and token |
| Ledger.Issue | src/routes/auth.ts:63-66 | Issuing appends exactly one row and keeps the earlier rows |
| Ledger.SingleUse | src/routes/auth.ts:199-202 | After `SET used = 1 WHERE token = ?` the token is never redeemable again, at any time |
| Ledger.MarkUsedKeepsOthers | src/routes/auth.ts:111-114 | Closing one token leaves every other token exactly as redeemable as it was |
| Ledger.IssueLive | src/routes/auth.ts:159-162 | A new token is redeemable exactly while unexpired. Other tokens are unaffected |
| Ledger.LiveEarlier | src/routes/auth.ts:95-98 | A token redeemable now was redeemable at every earlier time |
| Identity.FirstUser | src/routes/auth.ts:38-41 | The index of the first user satisfying the WHERE |
| Identity.Lookup | src/routes/auth.ts:38-41 | `db.get` finds a row if and only if some row matches, and that row matches |
| Identity.Apply | src/routes/auth.ts:106-109 | A SET list of the auth code never changes a user's id or email |
| Identity.UpdateById | src/routes/auth.ts:337-340 | `UPDATE users ... WHERE user_id = ?` keeps the row count |
| Identity.ByIdFindsUser | src/routes/auth.ts:204-207 | Under the invariant, the lookup by id returns the user with that id |
| Identity.ByEmailFindsUser | src/routes/auth.ts:136 | Under the invariant, the lookup by email returns the user with that email |
| Identity.AppendRegistered | src/routes/auth.ts:49-53 | Inserting a new email under the next id keeps the users invariant |
| Identity.UpdateRegistered | src/routes/auth.ts:106-109 | An UPDATE by id keeps the users invariant |
| Identity.AuthStore.constructor | config/database.ts:44-52 | Empty users and token tables |
| Identity.AuthStore.AddUser | config/database.ts:47 | INSERT succeeds if and only if the email is new, appending the row under the next id. Otherwise nothing changes |
| Identity.AuthStore.Update | src/routes/auth.ts:337-340 | The users table becomes the UPDATE by id of the old one. Nothing else changes |
| AuthRoutes.LocalAccount | src/routes/auth.ts:239-242 | A user with that email and provider 'local', or none. An absent email matches nothing |
| AuthRoutes.Signup | src/routes/auth.ts:28-78 | A missing field or a taken email is rejected with no change. Otherwise one local, unverified user and one 24 h verification token for it are added |
| AuthRoutes.VerifyEmail | src/routes/auth.ts:82-124 | Succeeds if and only if the token is live in the verification table. It then verifies the decoded user and closes the token; otherwise nothing changes. Afterwards the token is dead from now on |
| AuthRoutes.RequestMagicLink | src/routes/auth.ts:128-175 | An unknown email creates one magic-link, verified user. A known one leaves users untouched. Either way one 15 min token is added for that user |
| AuthRoutes.RedeemMagicLink | src/routes/auth.ts:177-224 | Single use: a live token is closed before the user is loaded, and is dead from now on. Logs in exactly the decoded user, or reports "User not found" |
| AuthRoutes.ForgotPassword | src/routes/auth.ts:235-276 | A 1 h reset token only for a local account. Otherwise no change, and the same "reset sent" page either way |
| AuthRoutes.ResetPasswordPage | src/routes/auth.ts:278-305 | The form is shown if and only if the token is live in the reset table. Nothing changes |
| AuthRoutes.ResetPassword | src/routes/auth.ts:307-352 | A missing field, a mismatch, a bad JWT or a dead token change nothing. A valid request replaces that user's hash and closes the token |
| Passport.Deserialize | config/passport.ts:9-16 | The first stored user in scan order with that id, or null when no user has it |
| Passport.SessionRoundTrip | config/passport.ts:5-16 | deserialize(serialize(u)) yields u for every stored user |
| Passport.ParseId | config/passport.ts:28 | A text id reaches the integer key only as a non-empty digit string below 2^63 |
| Passport.Decimal | config/passport.ts:28 | A decimal numeral is a non-empty digit string |
| Passport.DecimalValue | config/passport.ts:28 | A decimal numeral denotes its number |
| Passport.ParseDecimal | config/passport.ts:28 | An id written in decimal is looked up as that id |
| Passport.AccountEmail | config/passport.ts:50 | The profile's email when given, otherwise `<id>@google.oauth` |
| Passport.LinkOrCreateStep | config/passport.ts:34-63 | A failed callback leaves the users table unchanged. At most one row is added, after the existing ones |
| Passport.FastPathAsWritten | config/passport.ts:28 | As written: a user whose user_id is the profile id read as an integer |
| Passport.FastPath | config/passport.ts:28-32 | Corrected: a user already linked to this Google id |
| Passport.LinkOrCreate | config/passport.ts:34-63 | The store moves as LinkOrCreateStep says, and the re-read of the created row never yields null |
| Passport.GoogleCallbackAsWritten | config/passport.ts:26-64 | The store and outcome are those of the callback with the user_id fast path |
| Passport.GoogleCallback | config/passport.ts:26-64 | The store and outcome are those of the callback with the google_id fast path |
| Passport.LinkPath | config/passport.ts:34-46 | Link: the row is returned as read before the update. It now has the Google id, provider 'google' and a verified email. No row is added |
| Passport.CreatePath | config/passport.ts:49-60 | Create: exactly one row, under the next id, with provider 'google', a verified email, the Google id and the chosen email. That row is returned |
| Passport.FailsOnlyWithoutEmail | config/passport.ts:49-63 | The callback fails only for a profile without email whose `<id>@google.oauth` is taken. A failure is never returned as a user |
| Passport.LinkedAfterLogin | config/passport.ts:28-60 | After any successful callback, an account is linked to the Google id and the users invariant holds |
| Passport.LinkedByLink | config/passport.ts:39-43 | The link path leaves the account linked to the Google id |
| Passport.LinkedByCreate | config/passport.ts:49-56 | The create path leaves the account linked to the Google id |
| Passport.RepeatLogin | config/passport.ts:28-32 | Corrected: a repeat login takes the fast path, returns the linked account and changes nothing |
| Passport.FirstLoginAsWritten | config/passport.ts:49-60 | As written: the first login of a profile without email creates user 1 as `900@google.oauth` |
| Passport.SecondLoginAsWritten | config/passport.ts:28-63 | As written: the next login of that profile misses the fast path and fails on the taken email |
| Passport.RepeatLoginFailsAsWritten | config/passport.ts:28-63 | As written: after a successful login, a Google account without email cannot log in again, when its id does not read as a user id up to the one that login creates. This covers every 21-digit Google id |
| Passport.RepeatLoginFailsAt900 | config/passport.ts:28-63 | As written: the no-email profile "900" logs in once on an empty store and then fails |
| Passport.IdCollisionAsWritten | config/passport.ts:28-32 | As written: whenever a profile id reads as a stored user's id, the callback logs in as that user and changes nothing, whatever the profile's email |
| Passport.ForeignAccountAsWritten | config/passport.ts:28-32 | As written: profile "1" with email `mallory@example.com` logs in as the local user 1, `alice@example.com` |
| Passport.ForeignAccountCorrected | config/passport.ts:28-56 | Corrected: that profile gets a new account of its own, with its own email |
| Middleware.IsAuthenticated | src/middleware/auth.ts:3-17 | Proceeds if and only if authenticated. 401 if and only if unauthenticated under `/api/`. Otherwise a redirect to `/auth/login` |
| Middleware.IsNotAuthenticated | src/middleware/auth.ts:19-29 | Proceeds if and only if not authenticated. Otherwise a redirect to `/` |
| Middleware.GatesComplementary | src/middleware/auth.ts:3-29 | On every path, exactly one of the two gates lets a request through |
| Middleware.AttachUser | src/middleware/auth.ts:31-34 | Always proceeds. `locals.user` is the session's user, or null |

## Left out

### Outside inputs and the schema

- JWT signing and verification, bcrypt and mail sending are parameters:
  - `decoded` is the outcome of `jwt.verify`, and `None` means it threw.
  - `token` and `hash` are opaque strings.
  - `mailed` says whether the mail was sent. When it was not, the catch branch answers
    after the rows were already written.
- AuthRoutes.VerifyEmail: the `expires_at > datetime('now')` test is modelled as an
  integer comparison with `now`. The source compares an ISO-8601 text, with a `T`,
  against SQLite's text datetime, with a space; that textual comparison is not modelled.
- AuthRoutes.RedeemMagicLink: the same integer comparison. `req.login` is taken to
  succeed, so its "Login failed" branch is not modelled.
- AuthRoutes.ResetPassword: the same integer comparison.
- Concurrency: each redemption reads and then writes in two statements. Requests are
  modelled one at a time, so double-redemption races are not covered.
- Local password login (`src/routes/auth.ts:18-24`) and logout (`src/routes/auth.ts:356-363`):
  - login delegates to a passport "local" strategy that is not defined in these files;
  - logout only ends the session.
- The users DDL (`config/database.ts:44-52`) does not match the auth code:
  - it has `username NOT NULL UNIQUE` and `password_hash NOT NULL`;
  - it lacks `auth_provider`, `email_verified` and `google_id`.

  The model uses the columns the auth code writes. It keeps email UNIQUE as the
  users-table invariant, and does not model the other NOT NULL constraints.
- The users table of the auth code is the typed `Identity.AuthStore`, not a
  `Base.BaseModel`. Passport's `Users.findById`, `findUnique`, `updateById` and `create`
  run on that typed table with the same first-match and UNIQUE semantics.
- NOT NULL, foreign keys, `ON DELETE` actions and column type affinity are not modelled.
  The exception is `Passport.ParseId`.
- Passport.ParseId: only digit strings are read as integer keys. SQLite would also
  convert leading or trailing spaces, a sign, or a decimal with an integral value.
- An `undefined` value bound to a statement (a missing display name or photo) is
  modelled as NULL (`None`).
- Catalogue.Library.TrackView, Catalogue.Library.AlbumView and Catalogue.Library.ArtistAlbums
  write NULL for a field read through a missing album or artist (`album?.album_title`,
  `artist?.artist_name`). The source yields `undefined` there, which the JSON response
  omits; the model does not tell an omitted field from a null one.

### BaseModel and catalogue contracts

- Base.BaseModel.Update requires that the SET list does not assign the primary key.
  The source allows it; the model does not cover changing a row's key.
- Base.BaseModel.UpdateById has the same requirement as Update.
- Base.BaseModel.Insert requires that `data` does not name the primary key, so
  explicit rowids are not modelled.
- Base.BaseModel.Create has the same requirement as Insert.
- Base.BaseModel.Create never returns null: an INSERT always yields a non-zero `lastID`,
  so the null result of `lib/BaseModel.ts:70` is unreachable here.
- Base.BaseModel.FindManyPaginated returns the statement's rows. The array of bound
  values it builds by pushes is covered only through the clause lemmas.
- The composite primary key of playlist_tracks (`config/database.ts:111`) is not
  enforced. The model declares that table with the empty key name and no UNIQUE
  columns, as `models/index.ts:15` does.
- Catalogue.Library.Popular takes an integer `limit`. The route passes
  `Number(req.query.limit)`, which can be NaN (`slice(0, NaN)` is empty) or a fraction
  (`slice(0, 2.5)` cuts at 2). Non-integer limits are not modelled.
- Catalogue.Library.Popular names the ranked rows through a ghost out-parameter
  `top`. Its relation to the table is stated on `top`, and the returned views are
  stated to be `TrackView(top[i])`.
- Catalogue.Plays reads a NULL or missing play_count as 0. An insert that omits the
  column stores its DEFAULT 0 (`Catalogue.Library.NewTrackPlays`). A NULL could only
  come from an explicit NULL or an UPDATE, which the NOT NULL constraint would refuse;
  that constraint is not modelled.
- Base.BaseModel.NewRow writes NULL to an omitted column whose DEFAULT is
  `CURRENT_TIMESTAMP` (`created_at`, `updated_at`, `added_at`), because the clock is
  not modelled. Constant defaults are modelled: `explicit` and `play_count` start at 0.
- Catalogue.SortByPlays: does not state how rows with equal play counts are ordered.
  `Array.prototype.sort` is stable, and so is the insertion sort, which swaps only on
  a strict comparison. Which of several tied tracks make the first `limit` is therefore
  decided by scan order, and that is not proved.
- These model methods are compositions of modelled pieces (a findMany followed by
  TrackView or AlbumView) and are not modelled separately:
  - Albums.tracks, Albums.withTracks, Albums.findMany, Albums.findManyPaginated;
  - Tracks.artist, Tracks.cover_image_url, Tracks.findMany, Tracks.findManyPaginated;
  - Users.playlists.

## Findings

| source | as written | input that shows it | evidently intended | confidence | as-written member | corrected member |
|---|---|---|---|---|---|---|
| models/index.ts:15 | PlaylistTracksModel is declared with the primary key name `""`. Playlists.addTrack ends in `create`, whose findById then issues `SELECT * FROM playlist_tracks WHERE  = ? LIMIT 1` | Any `addTrack(p, t, u)`: the row is inserted, then the call throws a syntax error, so the caller sees a failure for a row that was stored | addTrack appends the entry and returns it | high; not executed | Catalogue.Library.AddTrackAsWritten | Catalogue.Library.AddTrack |
| config/passport.ts:28 | The fast path runs `Users.findById(profile.id)`, which compares the Google profile id with `user_id`, not with `google_id` | Profile id "900" without email, on an empty store. The first login creates user 1 as `900@google.oauth`; the second misses the fast path and its create clashes with that email, so it fails. The same holds for any no-email id that does not read as a user id up to the new one. Profile id "1" with email `mallory@example.com` logs in as existing user 1 | The fast path looks the account up by `google_id` | high; not executed | Passport.GoogleCallbackAsWritten, Passport.RepeatLoginFailsAsWritten, Passport.IdCollisionAsWritten | Passport.GoogleCallback, Passport.RepeatLogin, Passport.ForeignAccountCorrected |
