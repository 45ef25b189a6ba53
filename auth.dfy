/** Accounts (server/auth.ts): the local-login check, registration, the Spotify find-or-create
    callback, and the session's serialization of a user to its id. */
module Auth {
  import opened Common
  import opened Schema
  import opened Tables
  import opened Storage
  import opened Password

  /** `serializeUser`: a session stores only the user's id. */
  function SerializeUser(u: User): int {
    u.id
  }

  /** Serialization identifies a stored user: two stored users with the same serialization are
      the same user. */
  lemma SerializeInjective(store: MemStorage, u: User, v: User)
    requires store.Valid() && store.HasUser(u) && store.HasUser(v)
    requires SerializeUser(u) == SerializeUser(v)
    ensures u == v
  {
  }

  /** `deserializeUser`: the user stored under the session's id, if it is still there. */
  function DeserializeUser(store: MemStorage, id: int): (r: Option<User>)
    reads store
    requires store.Valid()
    ensures r.Some? ==> store.HasUser(r.value) && r.value.id == id
    ensures r.None? ==> forall u :: store.HasUser(u) ==> u.id != id
  {
    store.GetUser(id)
  }

  /** A session holding a stored user's id resolves to that very user. */
  lemma SessionRoundTrip(store: MemStorage, u: User)
    requires store.Valid() && store.HasUser(u)
    ensures DeserializeUser(store, SerializeUser(u)) == Some(u)
  {
  }

  /** `req.user` behind `req.isAuthenticated()`: a request is authenticated when its session holds
      an id that still resolves to a stored user. */
  function Caller(store: MemStorage, session: Option<int>): (r: Option<User>)
    reads store
    requires store.Valid()
    ensures r.Some? <==> session.Some? && session.value in store.users
    ensures r.Some? ==> store.HasUser(r.value) && r.value.id == session.value
  {
    if session.None? then None else DeserializeUser(store, session.value)
  }

  /** The LocalStrategy verify callback: `Ok(Some(u))` logs in as `u`, `Ok(None)` rejects the
      credentials, `Err` is an exception from the password comparison. */
  function VerifyLocal(store: MemStorage, scrypt: Kdf, username: string, password: string)
    : (r: Result<Option<User>, CompareError>)
    reads store
    requires store.Valid()
    ensures (forall u :: store.HasUser(u) ==> u.username != username) ==> r == Ok(None)
    ensures r.Ok? && r.value.Some? ==>
              store.HasUser(r.value.value) && r.value.value.username == username
              && ComparePasswords(scrypt, password, r.value.value.password) == Ok(true)
    ensures r.Ok? && r.value.Some? ==>
              forall v :: store.HasUser(v) && v.username == username ==> r.value.value.id <= v.id
    ensures forall u :: store.HasUser(u) && u.username == username
                        && (forall v :: store.HasUser(v) && v.username == username ==> u.id <= v.id) ==>
              && (r == Ok(Some(u)) <==> ComparePasswords(scrypt, password, u.password) == Ok(true))
              && (r.Err? <==> ComparePasswords(scrypt, password, u.password).Err?)
    ensures forall u :: store.HasUser(u) && u.username == username && store.UniqueUsernames() ==>
              (r == Ok(Some(u)) <==> ComparePasswords(scrypt, password, u.password) == Ok(true))
  {
    var found := store.GetUserByUsername(username);
    if found.None? then Ok(None)
    else
      match ComparePasswords(scrypt, password, found.value.password)
      case Err(e) => Err(e)
      case Ok(matches) => if matches then Ok(Some(found.value)) else Ok(None)
  }

  /** `POST /api/register`: a taken username answers 400 and changes nothing; otherwise exactly one
      user is created, with the body's fields and the hashed password, who can then log in with
      the password given. */
  method Register(store: MemStorage, scrypt: Kdf, body: NewUser, salt: seq<byte>)
    returns (status: int, user: Option<User>)
    requires store.Valid() && |salt| == 16
    modifies store
    ensures store.Valid()
    ensures old(store.GetUserByUsername(body.username)).Some? ==>
              status == BadRequest400 && user.None? && unchanged(store)
    ensures old(store.GetUserByUsername(body.username)).None? ==>
              && status == Created201 && user.Some?
              && user.value == User(old(store.currentId), body.username, HashPassword(scrypt, body.password, salt),
                                    body.spotifyId, body.spotifyToken, body.spotifyRefreshToken)
              && store.users == old(store.users)[user.value.id := user.value]
              && store.currentId == old(store.currentId) + 1
              && store.playlists == old(store.playlists) && store.comments == old(store.comments)
              && store.follows == old(store.follows)
    ensures status == Created201 ==> VerifyLocal(store, scrypt, body.username, body.password) == Ok(Some(user.value))
    ensures old(store.UniqueUsernames()) ==> store.UniqueUsernames()
  {
    var existing := store.GetUserByUsername(body.username);
    if existing.Some? {
      return BadRequest400, None;
    }
    var hashed := HashPassword(scrypt, body.password, salt);
    var created := store.CreateUser(NewUser(body.username, hashed, body.spotifyId, body.spotifyToken, body.spotifyRefreshToken));
    status, user := Created201, Some(created);
    CompareHashed(scrypt, body.password, body.password, salt);
    assert forall u :: store.HasUser(u) && u.username == body.username ==> u == created;
    assert store.GetUserByUsername(body.username) == Some(created);
  }

  /** The identity a Spotify login hands over. */
  datatype Profile = Profile(id: string, displayName: Option<string>)

  /** `profile.displayName || profile.id`: a missing or empty display name falls back to the id. */
  function SpotifyUsername(profile: Profile): (r: string)
    ensures profile.displayName.Some? && profile.displayName.value != "" ==> r == profile.displayName.value
    ensures profile.displayName.None? || profile.displayName.value == "" ==> r == profile.id
  {
    if profile.displayName.Some? && profile.displayName.value != "" then profile.displayName.value
    else profile.id
  }

  /** `getAllUsers().find(u => u.spotifyId === profile.id)`: the linked user with the smallest id. */
  function FindBySpotifyId(store: MemStorage, spotifyId: string): (r: Option<User>)
    reads store
    requires store.Valid()
    ensures r.None? <==> forall u :: store.HasUser(u) ==> u.spotifyId != Some(spotifyId)
    ensures r.Some? ==> store.HasUser(r.value) && r.value.spotifyId == Some(spotifyId)
    ensures r.Some? ==> forall u :: store.HasUser(u) && u.spotifyId == Some(spotifyId) ==> r.value.id <= u.id
  {
    var all := store.GetAllUsers();
    var linked := (u: User) => u.spotifyId == Some(spotifyId);
    var r := Find(all, linked);
    assert r.None? ==> forall u :: u in all ==> u.spotifyId != Some(spotifyId) by {
      if r.None? {
        forall u | u in all ensures u.spotifyId != Some(spotifyId) {
          var i :| 0 <= i < |all| && all[i] == u;
        }
      }
    }
    if r.Some? then
      FindFirst(all, linked, IdOfUser);
      r
    else r
  }

  /** The Spotify strategy callback. A user already linked to the profile gets the new tokens and
      nothing else changes. Otherwise one user is created, linked to the profile, with the two
      tokens and a hashed random password. Nothing checks that the chosen username is free: when
      it is taken, the store loses username uniqueness. */
  method SpotifyCallback(store: MemStorage, scrypt: Kdf, profile: Profile, accessToken: string,
                         refreshToken: string, randomPassword: seq<byte>, salt: seq<byte>)
    returns (user: User)
    requires store.Valid() && |randomPassword| == 16 && |salt| == 16
    modifies store
    ensures store.Valid()
    ensures old(FindBySpotifyId(store, profile.id)).Some? ==>
              && user == old(FindBySpotifyId(store, profile.id)).value.(spotifyToken := Some(accessToken),
                                                                       spotifyRefreshToken := Some(refreshToken))
              && store.users == old(store.users)[user.id := user]
              && store.currentId == old(store.currentId)
    ensures old(FindBySpotifyId(store, profile.id)).None? ==>
              && user == User(old(store.currentId), SpotifyUsername(profile),
                              HashPassword(scrypt, Hex(randomPassword), salt),
                              Some(profile.id), Some(accessToken), Some(refreshToken))
              && store.users == old(store.users)[user.id := user]
              && store.currentId == old(store.currentId) + 1
    ensures store.playlists == old(store.playlists) && store.comments == old(store.comments)
    ensures store.follows == old(store.follows)
    ensures old(FindBySpotifyId(store, profile.id)).Some? && old(store.UniqueUsernames()) ==> store.UniqueUsernames()
    ensures old(FindBySpotifyId(store, profile.id)).None? && old(store.UniqueUsernames()) ==>
              (store.UniqueUsernames() <==> forall k :: k in old(store.users) ==> old(store.users)[k].username != SpotifyUsername(profile))
  {
    ghost var before := store.users;
    var existing := FindBySpotifyId(store, profile.id);
    if existing.Some? {
      var updated := store.UpdateUser(existing.value.id,
        UserPatch(None, None, None, Some(Some(accessToken)), Some(Some(refreshToken))));
      user := updated.value;
      if UniqueNames(before) {
        ReplaceKeepsUnique(before, user.id, user);
      }
      return;
    }
    var password := HashPassword(scrypt, Hex(randomPassword), salt);
    user := store.CreateUser(NewUser(SpotifyUsername(profile), password, Some(profile.id),
                                     Some(accessToken), Some(refreshToken)));
    if UniqueNames(before) {
      AddKeepsUnique(before, user);
    }
  }

  /** `GET /api/user`: the caller's own record, or 401. */
  method CurrentUser(store: MemStorage, session: Option<int>) returns (status: int, user: Option<User>)
    requires store.Valid()
    ensures Caller(store, session).None? ==> status == Unauthorized401 && user.None?
    ensures Caller(store, session).Some? ==> status == Ok200 && user.Some? && store.HasUser(user.value)
                                             && session == Some(user.value.id)
  {
    var me := Caller(store, session);
    if me.None? {
      return Unauthorized401, None;
    }
    return Ok200, me;
  }
}
