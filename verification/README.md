# Nusantara Bercerita backend: user store and favourites, in Dafny

This project models the user side of the story site's backend (`server.js`).
It covers registration, login, profile read and update, password change, and
a user's favourite stories. It also covers the bearer-token gate that stands
in front of the protected endpoints.

Every handler loads the whole `users` array, finds the caller's record by id
or email, and checks its guards in a fixed order. A failed guard gives one
fixed outcome and leaves the array as it was. There are three differences
between handlers:

- The mutating handlers (register, profile update, password change, adding
  and removing a favourite) change the array in memory and then write the
  whole array back. Adding a favourite skips the write when the id is
  already present.
- The password change checks for empty passwords before it loads the array.
- The read-only handlers (login, profile read, favourite status and the
  favourites list) never change or write the array.

The model has three modules:

- `Records` holds the values: `User`, `Story`, `Claim`, `Profile`, the
  `Failure` outcomes with their HTTP status (`StatusCode`), the lookups by id
  and by email (`find` / `findIndex`), and the list operations on favourites
  (the `includes`-guarded `push`, and the `filter`s).
- `Auth` holds the token extraction from the `Authorization` header
  (`split(' ')[1]`) and the gate `authenticateToken`.
- `Store` holds the class `UserStore`. Its field `users: seq<User>` is the
  array the handlers load. Its field `saves` counts whole-array write-backs.
  The mutating handlers are methods with `modifies this`. The read-only
  handlers are functions that read `this`, so the methods can state facts
  about the new state in their terms. For example, after `FavRemove` the
  status is `Ok(false)`.

Things outside the model are parameters:

- bcrypt is a `Hasher`, a pair of functions `hash` and `verify`. Two
  properties of it are named, `Sound` and `Binding`. They appear only as
  hypotheses on the clauses that need them.
- The JWT verifier is an oracle `string -> Option<Claim>`.
- `Date.now()` is the `freshId` argument of `Register`.
- The catalogue read from `stories.json` is the `stories` argument of
  `FavList`.
- Protected handlers take the caller's id, as the gate verified it.

Three behaviours of server.js that the model keeps as the code has them:

- An `Authorization` header that is present but empty is not a missing
  token. In JavaScript, `"" && …` evaluates to `""`, and `""` is not `null`,
  so the 401 branch is not taken and the empty string goes to the token
  verifier. The same empty token comes out of a header such as `Bearer `
  (nothing after the space). Whether the empty token is rejected (403) is up
  to the verifier, which the model leaves to its oracle.
- Favourites are an ordered list. A new id goes at the end. The "set"
  behaviour (no duplicates) is an invariant that the handlers preserve. It
  is not a property of the type.
- Login uses the first record that holds the email. Once a profile update
  has duplicated an email, login with that address sees only the earlier
  record. `ChangePassword`'s login clauses are therefore conditioned on
  unique emails.

## Model

| member | source | states |
|---|---|---|
| `Records.StatusCode` | server.js:25-158 | 400 exactly for a missing field or a taken email; 401 exactly for no token or a wrong password; 403 exactly for a token that does not verify; 404 exactly for an unknown email or user |
| `Records.FindById` | server.js:101-102 | `None` exactly when no record carries the id; otherwise the first index whose record carries it |
| `Records.FindByEmail` | server.js:72-73 | `None` exactly when no record holds the email (exact string equality); otherwise the first index holding it |
| `Records.FindByIdKeepsIds` | server.js:101-107 | rewriting any fields but the ids leaves the lookup by id where it was |
| `Records.UniqueEmailFindsOwner` | server.js:72 | with unique emails, the lookup by email finds the one record holding that email |
| `Records.ProfileEmailOverwriteMayDuplicate` | server.js:104-106 | overwriting one record's email can turn a store with unique emails into one without them |
| `Records.AddFavorite` | server.js:139-140 | the id is present afterwards; membership is the old membership plus the id; if the id was present nothing changes, otherwise it is appended at the end; no duplicates is preserved |
| `Records.AddFavoriteIdempotent` | server.js:139-142 | adding an id twice gives the same favourites as adding it once |
| `Records.RemoveFavorite` | server.js:150 | the id is absent afterwards; every other id stays; nothing changes if the id was absent; no duplicates is preserved |
| `Records.RemoveFavoriteConcat` | server.js:150 | removal distributes over concatenation, so the other ids keep their relative order |
| `Records.RemoveFavoriteIdempotent` | server.js:150 | removing an id twice gives the same favourites as removing it once |
| `Records.FavoriteStories` | server.js:159 | a story is in the result exactly when it is in the catalogue and its id is a favourite |
| `Records.FavoriteStoriesConcat` | server.js:159 | the listing distributes over concatenation of the catalogue, so it keeps catalogue order |
| `Records.FavoriteStoriesByMembership` | server.js:159 | the listing depends only on which catalogue ids are favourites, not on their order or repetition |
| `Records.StaleFavoriteIgnored` | server.js:159 | a favourite id that names no story changes nothing in the listing |
| `Auth.Split` | server.js:24 | at least one field; no field contains a space; a space-free string is its own only field; a string with a space has at least two fields |
| `Auth.SplitJoin` | server.js:24 | joining the fields of a split with single spaces gives the string back |
| `Auth.JoinSplit` | server.js:24 | splitting the space-joined fields gives the fields back |
| `Auth.SplitCons` | server.js:24 | splitting `a + " " + b` with `a` space-free gives `a` followed by the fields of `b` |
| `Auth.BearerToken` | server.js:23-25 | no token exactly when the header is absent, or is non-empty with no space; an empty header yields the empty token; a token never contains a space |
| `Auth.BearerTokenOfHeader` | server.js:24 | a header `scheme token …` yields exactly `token`, whatever the scheme word |
| `Auth.Authenticate` | server.js:22-32 | 401 (`NoToken`) exactly when there is no token; otherwise 403 (`InvalidToken`) or the claim the verifier returned for some space-free token; an empty header reaches the verifier |
| `Auth.AuthenticateBearer` | server.js:24-31 | for `scheme token …` (any further space-separated parts), the gate gives exactly what the verifier says about `token` |
| `Store.UserStore.constructor` | server.js:35-43 | the store starts from the array as loaded, with no write-backs yet |
| `Store.UserStore.Login` | server.js:69-79 | `EmailNotFound` exactly when no record holds the email; `Ok` only with the first holder's claim when the password verifies against its hash; `WrongPassword` when it does not; with unique emails, `Ok` exactly when some record with that email verifies |
| `Store.UserStore.GetProfile` | server.js:91-96 | `UserNotFound` exactly when no record carries the id; otherwise the first such record's fullname, email and phone number, never its hash |
| `Store.UserStore.FavStatus` | server.js:127-133 | `UserNotFound` exactly when no record carries the id; otherwise whether that record's favourites contain the story id |
| `Store.UserStore.FavList` | server.js:154-161 | `UserNotFound` exactly when no record carries the id; otherwise exactly the catalogue stories whose id the caller favourited, in catalogue order |
| `Store.UserStore.Register` | server.js:56-67 | `MissingFields` exactly when a field is empty; then `EmailTaken` exactly when the email is held; each error leaves the array and write count unchanged; success appends exactly one record (hashed password, empty phone, no favourites) and writes once; email uniqueness and duplicate-free favourites are preserved; with a sound hasher, login with the same credentials then succeeds with the new id |
| `Store.UserStore.UpdateProfile` | server.js:98-109 | `UserNotFound` (store unchanged) exactly when the id is absent; otherwise only the caller's fullname, email and phone change, one write; the profile read back is the new one; uniqueness survives exactly when no other record holds the new email |
| `Store.UserStore.ChangePassword` | server.js:111-124 | `MissingFields` for an empty old or new password before any lookup; then `UserNotFound`; then `WrongPassword` when the old password does not verify; errors change nothing; success replaces only the caller's hash by `hash(new)`, one write; with unique emails, login with the new password then succeeds, and with a binding hasher the old one fails |
| `Store.UserStore.FavAdd` | server.js:134-144 | `UserNotFound` (store unchanged) exactly when the id is absent; otherwise only the caller's favourites change, to `AddFavorite`; there is no write when the id was present (store unchanged), and one write otherwise; the status is then true |
| `Store.UserStore.FavRemove` | server.js:145-153 | `UserNotFound` (store unchanged) exactly when the id is absent; otherwise only the caller's favourites change, to `RemoveFavorite`; exactly one write even when the id was absent; the status is then false |

## Left out

- Express routing, CORS, JSON body parsing, the `/` banner and `app.listen`
  (server.js:2-15, 51-53, 164-166) are framework plumbing.
- The file layer in `readData` / `writeUsers` (server.js:35-46) is not
  modelled. The loaded array is the constructor's argument; a missing or
  unparsable file would give `[]`. The model counts whole-array writes in
  `saves`, but not their JSON encoding, and not a failing write.
- bcrypt's random salt and cost factor are not modelled. `Hasher.hash` is a
  function, so one password always has one hash in the model. `Sound` and
  `Binding` state what is assumed of `compare`.
- Store.UserStore.ChangePassword: the clause that the old password no longer
  logs in assumes `Binding`, which bcrypt does not have. bcrypt reads only
  the first 72 bytes of a password, so two passwords that agree on those
  bytes verify against each other's hash. For such an old/new pair the old
  password still logs in, and the model does not cover that case.
- Token signing and the one-hour expiry (server.js:27-31, 78) are left out.
  `Login` returns the claim `{id, fullname}` that would be signed. The
  verifier is an oracle, so the "valid at 59 minutes, invalid at 61" boundary
  is outside the model.
- Fresh ids from `Date.now()` are an argument. As in the code, nothing checks
  that they are unique. With equal ids, every lookup picks the first record.
- Request body values are modelled as strings. The empty string stands for a
  value that fails `!x`. An absent or non-string JSON field is not modelled.
  This includes the `phoneNumber || ""` fallback in the profile response.
- Response message texts are not modelled. Each outcome is a `Failure` with
  its status code.
- Concurrency is not modelled. Each handler is one atomic step, so the
  lost update between two interleaved load/modify/write sequences is not
  represented.
- The story-by-id endpoint (server.js:83-88) is a plain catalogue lookup. It
  is not modelled.
