# harmony-hub: the social-graph store and its guards, in Dafny

harmony-hub is a small social music application. Users register locally or through Spotify.
They keep playlists, comment on playlists and follow one another. This project models the server
side of that, in four parts:

- **The in-memory store `MemStorage`** (`storage.dfy`, module `Storage`). It is a class holding
  four maps, for users, playlists, comments and follow edges, each keyed by integer id. All four
  maps take their ids from one shared counter `currentId`.
  - Its invariant `Valid()` says three things: every key lies in `[1, currentId)`, each record's
    id equals its key, and no id is used in two tables.
  - Every create returns the old counter as the new id and raises the counter by one, so ids are
    fresh and strictly increasing across all tables.
  - The queries are pure functions. JavaScript `Map` iteration follows insertion order. Keys come
    from an increasing counter and are never re-inserted, so that order is ascending key order.
    `Tables.Values` lists a map in that order.
- **The route handlers** (`routes.dfy`, module `Routes`). Each handler resolves the caller from
  the session, runs its guards in the source's order and ends in at most one store call. It
  returns the status code and the response body. The contracts state two things:
  - a guard failure (401, 404, 403, 400, or a failed body validation) leaves the store unchanged;
  - no handler changes the owner of a surviving playlist (`OwnersKept`).
- **Accounts** (`auth.dfy` and `password.dfy`, modules `Auth` and `Password`):
  - the stored password format `<hex key>.<hex salt>`, and its split-and-compare round trip;
  - the local-login check and registration;
  - the Spotify find-or-create callback;
  - the session's serialization of a user to its id.
- **Record shapes** (`schema.dfy`, module `Schema`):
  - the four rows, with nullable columns as `Option`;
  - the insert-schema field picks, and the request bodies they are applied to.

Some of the source's behaviour is kept as written and stated in contracts:

- Username uniqueness is declared on the users table. The store does not enforce it, and only
  registration checks it. `Auth.SpotifyCallback` states that a new Spotify user breaks uniqueness
  exactly when an existing user already has the chosen name.
- `followUser` stores duplicate edges. `unfollowUser` removes only the oldest one.
  `getFollowers` and `getFollowing` still list each user once.
- Creating a comment does not check that the playlist exists, and following does not check that
  the target user exists.

## Model

| member | source | states |
|---|---|---|
| Schema.ParsePlaylist | shared/schema.ts:42-46 | validation succeeds iff name and tracks are present; the result keeps exactly name, description and tracks |
| Schema.ParseComment | shared/schema.ts:48-51 | validation succeeds iff content and playlistId are present; the result keeps exactly those two fields |
| Schema.ParsePlaylistIgnoresOwner | shared/schema.ts:42-46 | no owner or Spotify id in a body can change what playlist validation yields |
| Schema.ParseCommentIgnoresAuthor | shared/schema.ts:48-51 | a user id in a comment body never changes what comment validation yields |
| Tables.Values | server/storage.ts:61 | `Array.from(map.values())` holds exactly the stored values |
| Tables.ValuesIncreasing | server/storage.ts:55-61 | values of a map keyed by record id are listed in strictly increasing id order, all below the counter |
| Tables.IncreasingIsDistinct | server/storage.ts:148-149 | a list in strictly increasing id order has no repeated element |
| Tables.Filter | server/storage.ts:92-94 | `filter` keeps exactly the elements satisfying the predicate and never grows the list |
| Tables.FilterIncreasing | server/storage.ts:91-95 | filtering preserves increasing id order |
| Tables.Find | server/storage.ts:55-57 | `find` returns nothing iff no element matches; otherwise a matching element of the list |
| Tables.Map | server/storage.ts:144-146 | `map` keeps the length and maps each position; its elements are exactly the images |
| Tables.FindInValuesNone | server/storage.ts:135-137 | when `find` over a map's values misses, no stored value matches |
| Tables.FindInValuesSome | server/storage.ts:135-137 | when `find` over a map's values hits, the value found is stored under its own id, matches, and has the smallest matching key |
| Tables.FindFirst | server/storage.ts:135-137 | on a list in increasing id order, `find` returns the matching element with the smallest id |
| Storage.MergeUser | server/storage.ts:75 | the spread merge keeps the id, overwrites every given field and keeps every omitted one |
| Storage.MergePlaylist | server/storage.ts:101 | the same for playlists, including the owner when a patch names one |
| Storage.MergeIdempotent | server/storage.ts:71-78 | applying the same patch twice equals applying it once, for users and playlists |
| Storage.InsertNewest | server/storage.ts:124 | one insertion step of the sort adds exactly the comment to the multiset |
| Storage.InsertNewestSorted | server/storage.ts:124 | inserting into a newest-first list keeps it newest first |
| Storage.SortNewestFirst | server/storage.ts:124 | the sort yields a permutation of its input ordered by non-increasing `createdAt` |
| Storage.InsertNewestStable | server/storage.ts:124 | inserting a comment with the smallest id keeps ties in id order |
| Storage.SortNewestFirstStable | server/storage.ts:121-125 | sorting a list in id order is stable: comments with equal timestamps stay in creation order |
| Storage.FirstEdge | server/storage.ts:135-137 | the edge unfollow picks: none iff no (follower, followed) edge exists; otherwise a stored matching edge with the smallest id |
| Storage.AddKeepsUnique | shared/schema.ts:7 | adding a user under a fresh id keeps usernames unique iff no stored user has its name |
| Storage.ReplaceKeepsUnique | shared/schema.ts:7 | replacing a user by one with the same username keeps usernames unique |
| Storage.MemStorage.constructor | server/storage.ts:39-44 | the store starts with four empty tables and the counter at 1, satisfying the invariant |
| Storage.MemStorage.GetUser | server/storage.ts:50-52 | the user stored under that id, or none when no user has it |
| Storage.MemStorage.GetAllUsers | server/storage.ts:60-62 | exactly the stored users, in increasing id order |
| Storage.MemStorage.GetUserByUsername | server/storage.ts:54-58 | none iff no user has the name; otherwise a stored user with that name and the smallest such id |
| Storage.MemStorage.GetPlaylist | server/storage.ts:87-89 | the playlist stored under that id, or none |
| Storage.MemStorage.GetUserPlaylists | server/storage.ts:91-95 | exactly the stored playlists owned by the user, in increasing id order |
| Storage.MemStorage.GetPlaylistComments | server/storage.ts:121-125 | exactly the playlist's comments, each once, newest first, ties in creation order |
| Storage.MemStorage.GetFollowers | server/storage.ts:143-150 | a user is listed iff it is stored and has an edge to the given id; each user once, in id order |
| Storage.MemStorage.GetFollowing | server/storage.ts:152-159 | a user is listed iff it is stored and the given id has an edge to it; each user once, in id order |
| Storage.MemStorage.NextIdFresh | server/storage.ts:65 | the counter is used by no table and exceeds every id in use |
| Storage.MemStorage.CreateUser | server/storage.ts:64-69 | the new user has the old counter as id and the given fields; the counter grows by one; only the users table gains that key |
| Storage.MemStorage.UpdateUser | server/storage.ts:71-78 | an absent id fails with the table unchanged; otherwise only that key changes, to the merge |
| Storage.MemStorage.CreatePlaylist | server/storage.ts:80-85 | as for users: fresh id, given fields, only the playlists table changes |
| Storage.MemStorage.UpdatePlaylist | server/storage.ts:97-104 | an absent id fails with the table unchanged; otherwise only that key changes, to the merge |
| Storage.MemStorage.DeletePlaylist | server/storage.ts:106-108 | removes exactly that key, which is a no-op when it is absent, so a repeated delete changes nothing |
| Storage.MemStorage.CreateComment | server/storage.ts:110-119 | fresh id, given fields and the clock reading; only the comments table changes |
| Storage.MemStorage.FollowUser | server/storage.ts:127-132 | always adds a new edge with a fresh id, even for a pair already stored |
| Storage.MemStorage.UnfollowUser | server/storage.ts:134-141 | removes the oldest matching edge and no other, or nothing when none matches |
| Password.HexChar | server/auth.ts:22 | a nibble becomes a hex digit, never the separator |
| Password.HexValue | server/auth.ts:27 | a character has a value iff it is a hex digit of either case, and the value is a nibble |
| Password.Hex | server/auth.ts:22 | hex encoding is two hex digits per byte and never contains the separator |
| Password.HexDecode | server/auth.ts:27 | hex decoding yields at most one byte per two characters |
| Password.HexRoundTrip | server/auth.ts:22-27 | decoding an encoding gives back the bytes |
| Password.Split | server/auth.ts:26 | split yields at least one piece, exactly one iff the separator is absent, and no piece holds the separator |
| Password.SplitWhole | server/auth.ts:26 | a separator-free string splits into itself |
| Password.SplitFirst | server/auth.ts:26 | a separator-free prefix before the separator is split off as the first piece |
| Password.HashPassword | server/auth.ts:19-23 | the stored string is 161 characters; splitting it on the dot gives the 128-digit hex key and the 32-digit hex salt |
| Password.ComparePasswords | server/auth.ts:25-30 | a missing salt or a key length mismatch throws; otherwise true iff the decoded hash equals the derived key |
| Password.CompareHashed | server/auth.ts:19-30 | comparing against a stored hash accepts exactly the passwords deriving the same key, and always the original |
| Auth.SerializeInjective | server/auth.ts:106 | the session stores only the user's id, and that id identifies a stored user: two stored users serializing alike are the same user |
| Auth.DeserializeUser | server/auth.ts:107-110 | the stored user with the session's id, or none when it is gone |
| Auth.SessionRoundTrip | server/auth.ts:106-110 | deserializing a stored user's serialization gives back that user |
| Auth.Caller | server/routes.ts:12 | a request is authenticated iff its session holds the id of a stored user, who is then the caller |
| Auth.VerifyLocal | server/auth.ts:47-54 | no user with the name rejects; only the stored user with that name and the smallest id is checked: it is logged in iff its password compares true, and the check throws iff the comparison throws; no other user with the name is ever logged in |
| Auth.Register | server/auth.ts:113-128 | a taken name answers 400 and changes nothing; otherwise 201 and exactly one new user holding the hashed password, who can then log in with it; uniqueness is kept |
| Auth.SpotifyUsername | server/auth.ts:91 | the display name, or the profile id when the display name is missing or empty |
| Auth.FindBySpotifyId | server/auth.ts:75-76 | none iff no stored user is linked to the profile; otherwise the linked user with the smallest id |
| Auth.SpotifyCallback | server/auth.ts:67-102 | a linked user only gets the two new tokens; otherwise exactly one new linked user with both tokens and a hashed random password; uniqueness is lost exactly when the chosen name is taken |
| Auth.CurrentUser | server/auth.ts:169-172 | 401 without a valid session; otherwise 200 with the caller's own record |
| Routes.StoredDescription | server/routes.ts:20-24 | a created playlist stores the body's description, or null when it is missing |
| Routes.UpdateOf | server/routes.ts:43-44 | the update patch carries the validated name, description and tracks, and never an owner or Spotify id |
| Routes.UpdateKeepsOwner | server/routes.ts:43-44 | whatever the body, the merged playlist keeps its owner |
| Routes.ListPlaylists | server/routes.ts:11-15 | 401 without a caller; otherwise 200 with exactly the caller's own playlists, each once, in increasing id order |
| Routes.CreatePlaylistRoute | server/routes.ts:17-26 | 401 or a failed validation changes nothing; otherwise one playlist owned by the caller, whatever owner the body names, with no Spotify id; the counter rises by one |
| Routes.GetPlaylistRoute | server/routes.ts:28-34 | 401, then 404 for an absent id, otherwise 200 with the stored playlist |
| Routes.UpdatePlaylistRoute | server/routes.ts:36-46 | 401, 404, 403 for a non-owner, and a failed validation all change nothing; the owner's valid body merges into that one playlist; no owner ever changes |
| Routes.DeletePlaylistRoute | server/routes.ts:48-57 | 401, 404 and 403 change nothing; the owner's request removes exactly that playlist and answers 204 |
| Routes.ListCommentsRoute | server/routes.ts:60-64 | 401, or 200 with exactly the playlist's comments, each once, newest first, ties in creation order |
| Routes.CreateCommentRoute | server/routes.ts:66-76 | 401 or a failed validation changes nothing; otherwise one comment by the caller on the path's playlist, whatever the body names; the counter rises by one |
| Routes.FollowRoute | server/routes.ts:79-87 | 401, or 400 for a self-follow, changes nothing; otherwise exactly one new edge from the caller to the target; the counter rises by one |
| Routes.UnfollowRoute | server/routes.ts:89-94 | 401 changes nothing; otherwise 204, and the caller's oldest edge to the target is removed if there is one |
| Routes.FollowersRoute | server/routes.ts:96-100 | 401, or 200 with each stored follower of the user once |
| Routes.FollowingRoute | server/routes.ts:102-106 | 401, or 200 with each stored user the user follows, once |

## Left out

- Everything asynchronous: every store call is a synchronous step, and `Promise` interleavings are not modelled.
- The HTTP layer: Express wiring, `createServer`, JSON serialization, and the text of error responses.
- Logging: `console.log` and `console.error` calls.
- The session store, express-session and passport set-up, OAuth scopes and redirects, and the logout route (server/auth.ts:33-43, :59-66, :130-167). A session is modelled only as the user id it holds.
- The error path of `req.login` in registration, and the Spotify callback's `done(err)` path: nothing the model calls throws there.
- `/api/login`'s answer. The credential check it runs is `Auth.VerifyLocal`.
- Cryptography. `scrypt` is a function parameter (`Password.Kdf`). The random salt and the random password bytes are parameters. Constant-time comparison is not modelled; `timingSafeEqual` is modelled only by its result and its length check.
- The clock. `createdAt` is the parameter `now` of `CreateComment`, and nothing is assumed about successive readings.
- `Number(req.params.id)` yielding `NaN` for a non-numeric path. Path ids are integers in the model.
- Zod type checking. Validation is reduced to the presence of the required fields. A thrown validation error is written as status 500, with the store unchanged.
- Storage.MergePlaylist, Storage.MergeUser: a patch carrying an `id` field is not modelled; no caller passes one.
- Routes.StoredDescription: an absent description (`undefined`) and a null one are both stored as null.
- Auth.Register: the registration body is not validated in the source. A body without a username stores a user whose username is undefined, and a body without a password throws in `hashPassword` before anything is stored. The model's body type always carries both strings, so neither case is modelled.
- Auth.Register: the username check and the create are separated by the asynchronous `hashPassword`, so two interleaved registrations of one name can both succeed. The 400 case and the "uniqueness is kept" promise hold only for registrations that do not interleave.
- Auth.SpotifyCallback: the find and the create are separated by the asynchronous `hashPassword`, so two interleaved callbacks for one profile can create two users linked to it. The find-or-create promise holds only for callbacks that do not interleave.
- `insertUserSchema`: no core code parses with it, since registration spreads the raw body. Auth.Register therefore takes the create input (username, password and optional Spotify fields) directly.
- Activity feed, recommendations, notifications and playlist discovery: the client requests these endpoints, but the server registers no handler for them.
- The React client (`client/src/**`).
- Drizzle and Postgres table machinery. `tracks` is an opaque sequence of strings.
- Integer overflow of the id counter: JavaScript numbers are exact up to 2^53, and the model's ids are unbounded.
