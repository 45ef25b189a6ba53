/** The request handlers of server/routes.ts. Each one resolves the caller from the session,
    runs its guards in order and ends in at most one store call. A handler takes the store, the
    session's user id (`None` when nobody is logged in), the path id and the request body, and
    returns the status code and the JSON body it answers with. */
module Routes {
  import opened Common
  import opened Schema
  import opened Tables
  import opened Storage
  import opened Auth

  /** Every playlist present both before and after has the same owner. */
  ghost predicate OwnersKept(before: map<int, Playlist>, after: map<int, Playlist>) {
    forall k :: k in before && k in after ==> after[k].userId == before[k].userId
  }

  /** The description a created playlist stores: a missing description reads back as null. */
  function StoredDescription(d: Option<Option<string>>): (r: Option<string>)
    ensures d.Some? ==> r == d.value
    ensures d.None? ==> r.None?
  {
    if d.Some? then d.value else None
  }

  /** The patch PUT hands to `updatePlaylist`: the validated fields and nothing else, so neither
      the owner nor the Spotify id is ever part of it. */
  function UpdateOf(v: InsertPlaylist): (p: PlaylistPatch)
    ensures p.userId.None? && p.spotifyId.None?
    ensures p.name == Some(v.name) && p.tracks == Some(v.tracks) && p.description == v.description
  {
    PlaylistPatch(Some(v.name), v.description, None, None, Some(v.tracks))
  }

  /** Whatever body PUT receives, the merged playlist keeps its owner. */
  lemma UpdateKeepsOwner(pl: Playlist, body: PlaylistBody)
    requires ParsePlaylist(body).Some?
    ensures MergePlaylist(pl, UpdateOf(ParsePlaylist(body).value)).userId == pl.userId
  {
  }

  /** `GET /api/playlists`: exactly the caller's own playlists. */
  method ListPlaylists(store: MemStorage, session: Option<int>) returns (status: int, body: seq<Playlist>)
    requires store.Valid()
    ensures Caller(store, session).None? ==> status == Unauthorized401 && body == []
    ensures Caller(store, session).Some? ==>
              && status == Ok200
              && (forall p :: p in body <==> store.HasPlaylist(p) && p.userId == session.value)
              && Increasing(body, IdOfPlaylist) && Distinct(body)
  {
    var me := Caller(store, session);
    if me.None? {
      return Unauthorized401, [];
    }
    body := store.GetUserPlaylists(me.value.id);
    IncreasingIsDistinct(body, IdOfPlaylist);
    return Ok200, body;
  }

  /** `POST /api/playlists`: creates one playlist owned by the caller, whatever owner the body
      names; a body that fails validation creates nothing. */
  method CreatePlaylistRoute(store: MemStorage, session: Option<int>, body: PlaylistBody)
    returns (status: int, created: Option<Playlist>)
    requires store.Valid()
    modifies store
    ensures store.Valid()
    ensures OwnersKept(old(store.playlists), store.playlists)
    ensures old(Caller(store, session)).None? ==> status == Unauthorized401 && unchanged(store)
    ensures old(Caller(store, session)).Some? && ParsePlaylist(body).None? ==> status == Threw500 && unchanged(store)
    ensures status != Created201 ==> created.None? && unchanged(store)
    ensures old(Caller(store, session)).Some? && ParsePlaylist(body).Some? ==>
              var v := ParsePlaylist(body).value;
              && status == Created201 && created.Some?
              && created.value == Playlist(old(store.currentId), v.name, StoredDescription(v.description),
                                           session.value, None, v.tracks)
              && store.playlists == old(store.playlists)[created.value.id := created.value]
              && store.users == old(store.users) && store.comments == old(store.comments)
              && store.follows == old(store.follows) && store.currentId == old(store.currentId) + 1
    ensures status == Created201 ==> created.Some? && Some(created.value.userId) == session
  {
    var me := Caller(store, session);
    if me.None? {
      return Unauthorized401, None;
    }
    var validated := ParsePlaylist(body);
    if validated.None? {
      return Threw500, None;
    }
    var v := validated.value;
    var p := store.CreatePlaylist(NewPlaylist(v.name, StoredDescription(v.description), me.value.id, None, v.tracks));
    return Created201, Some(p);
  }

  /** `GET /api/playlists/:id`: the playlist, or 404. */
  method GetPlaylistRoute(store: MemStorage, session: Option<int>, id: int) returns (status: int, found: Option<Playlist>)
    requires store.Valid()
    ensures Caller(store, session).None? ==> status == Unauthorized401 && found.None?
    ensures Caller(store, session).Some? && id !in store.playlists ==> status == NotFound404 && found.None?
    ensures Caller(store, session).Some? && id in store.playlists ==>
              status == Ok200 && found.Some? && store.HasPlaylist(found.value) && found.value.id == id
  {
    var me := Caller(store, session);
    if me.None? {
      return Unauthorized401, None;
    }
    var playlist := store.GetPlaylist(id);
    if playlist.None? {
      return NotFound404, None;
    }
    return Ok200, playlist;
  }

  /** `PUT /api/playlists/:id`: 401, 404 and 403 (not the owner) change nothing; an owner's valid
      body overwrites name and tracks, and the description when given; the owner never changes. */
  method UpdatePlaylistRoute(store: MemStorage, session: Option<int>, id: int, body: PlaylistBody)
    returns (status: int, updated: Option<Playlist>)
    requires store.Valid()
    modifies store
    ensures store.Valid()
    ensures OwnersKept(old(store.playlists), store.playlists)
    ensures store.playlists.Keys == old(store.playlists.Keys)
    ensures old(Caller(store, session)).None? ==> status == Unauthorized401 && unchanged(store)
    ensures old(Caller(store, session)).Some? && id !in old(store.playlists) ==>
              status == NotFound404 && unchanged(store)
    ensures old(Caller(store, session)).Some? && id in old(store.playlists)
            && Some(old(store.playlists)[id].userId) != session ==>
              status == Forbidden403 && unchanged(store)
    ensures old(Caller(store, session)).Some? && id in old(store.playlists)
            && Some(old(store.playlists)[id].userId) == session && ParsePlaylist(body).None? ==>
              status == Threw500 && unchanged(store)
    ensures status != Ok200 ==> updated.None? && unchanged(store)
    ensures status == Ok200 ==>
              && id in old(store.playlists) && Some(old(store.playlists)[id].userId) == session
              && ParsePlaylist(body).Some? && updated.Some?
              && updated.value == MergePlaylist(old(store.playlists)[id], UpdateOf(ParsePlaylist(body).value))
              && store.playlists == old(store.playlists)[id := updated.value]
              && store.users == old(store.users) && store.comments == old(store.comments)
              && store.follows == old(store.follows) && store.currentId == old(store.currentId)
    ensures (old(Caller(store, session)).Some? && id in old(store.playlists)
             && Some(old(store.playlists)[id].userId) == session && ParsePlaylist(body).Some?) ==> status == Ok200
  {
    var me := Caller(store, session);
    if me.None? {
      return Unauthorized401, None;
    }
    var playlist := store.GetPlaylist(id);
    if playlist.None? {
      return NotFound404, None;
    }
    if playlist.value.userId != me.value.id {
      return Forbidden403, None;
    }
    var validated := ParsePlaylist(body);
    if validated.None? {
      return Threw500, None;
    }
    var r := store.UpdatePlaylist(playlist.value.id, UpdateOf(validated.value));
    return Ok200, Some(r.value);
  }

  /** `DELETE /api/playlists/:id`: 401, 404 and 403 change nothing; the owner's request removes
      exactly that playlist and answers 204. */
  method DeletePlaylistRoute(store: MemStorage, session: Option<int>, id: int) returns (status: int)
    requires store.Valid()
    modifies store
    ensures store.Valid()
    ensures OwnersKept(old(store.playlists), store.playlists)
    ensures old(Caller(store, session)).None? ==> status == Unauthorized401 && unchanged(store)
    ensures old(Caller(store, session)).Some? && id !in old(store.playlists) ==>
              status == NotFound404 && unchanged(store)
    ensures old(Caller(store, session)).Some? && id in old(store.playlists)
            && Some(old(store.playlists)[id].userId) != session ==>
              status == Forbidden403 && unchanged(store)
    ensures old(Caller(store, session)).Some? && id in old(store.playlists)
            && Some(old(store.playlists)[id].userId) == session ==>
              && status == NoContent204
              && store.playlists == old(store.playlists) - {id}
              && store.users == old(store.users) && store.comments == old(store.comments)
              && store.follows == old(store.follows) && store.currentId == old(store.currentId)
  {
    var me := Caller(store, session);
    if me.None? {
      return Unauthorized401;
    }
    var playlist := store.GetPlaylist(id);
    if playlist.None? {
      return NotFound404;
    }
    if playlist.value.userId != me.value.id {
      return Forbidden403;
    }
    store.DeletePlaylist(playlist.value.id);
    return NoContent204;
  }

  /** `GET /api/playlists/:id/comments`: the playlist's comments, newest first. */
  method ListCommentsRoute(store: MemStorage, session: Option<int>, playlistId: int) returns (status: int, body: seq<Comment>)
    requires store.Valid()
    ensures Caller(store, session).None? ==> status == Unauthorized401 && body == []
    ensures Caller(store, session).Some? ==>
              && status == Ok200
              && (forall c :: c in body <==> store.HasComment(c) && c.playlistId == playlistId)
              && Distinct(body) && NewestFirst(body) && NewestFirstStable(body)
  {
    var me := Caller(store, session);
    if me.None? {
      return Unauthorized401, [];
    }
    return Ok200, store.GetPlaylistComments(playlistId);
  }

  /** `POST /api/playlists/:id/comments`: stores one comment by the caller on the playlist named
      by the path, whatever playlist or author the body names. The body must still carry a
      playlist id to pass validation. The playlist itself is not looked up. */
  method CreateCommentRoute(store: MemStorage, session: Option<int>, playlistId: int, body: CommentBody, now: Timestamp)
    returns (status: int, created: Option<Comment>)
    requires store.Valid()
    modifies store
    ensures store.Valid()
    ensures store.playlists == old(store.playlists)
    ensures old(Caller(store, session)).None? ==> status == Unauthorized401 && unchanged(store)
    ensures old(Caller(store, session)).Some? && ParseComment(body).None? ==> status == Threw500 && unchanged(store)
    ensures status != Created201 ==> created.None? && unchanged(store)
    ensures old(Caller(store, session)).Some? && ParseComment(body).Some? ==>
              && status == Created201 && created.Some?
              && created.value == Comment(old(store.currentId), ParseComment(body).value.content,
                                          session.value, playlistId, now)
              && store.comments == old(store.comments)[created.value.id := created.value]
              && store.users == old(store.users) && store.follows == old(store.follows)
              && store.currentId == old(store.currentId) + 1
  {
    var me := Caller(store, session);
    if me.None? {
      return Unauthorized401, None;
    }
    var validated := ParseComment(body);
    if validated.None? {
      return Threw500, None;
    }
    var c := store.CreateComment(NewComment(validated.value.content, me.value.id, playlistId), now);
    return Created201, Some(c);
  }

  /** `POST /api/users/:id/follow`: following oneself answers 400 and changes nothing; otherwise
      exactly one edge from the caller to the target is added, even if one exists already, and
      whether or not the target is a stored user. */
  method FollowRoute(store: MemStorage, session: Option<int>, target: int) returns (status: int, edge: Option<Follow>)
    requires store.Valid()
    modifies store
    ensures store.Valid()
    ensures store.playlists == old(store.playlists)
    ensures old(Caller(store, session)).None? ==> status == Unauthorized401 && unchanged(store)
    ensures old(Caller(store, session)).Some? && session == Some(target) ==> status == BadRequest400 && unchanged(store)
    ensures status != Created201 ==> edge.None? && unchanged(store)
    ensures old(Caller(store, session)).Some? && session != Some(target) ==>
              && status == Created201 && edge.Some?
              && edge.value == Follow(old(store.currentId), session.value, target)
              && store.follows == old(store.follows)[edge.value.id := edge.value]
              && |store.follows| == |old(store.follows)| + 1
              && store.HasEdge(session.value, target)
              && store.users == old(store.users) && store.comments == old(store.comments)
              && store.currentId == old(store.currentId) + 1
  {
    var me := Caller(store, session);
    if me.None? {
      return Unauthorized401, None;
    }
    if target == me.value.id {
      return BadRequest400, None;
    }
    var f := store.FollowUser(me.value.id, target);
    assert store.follows[f.id] == f;
    return Created201, Some(f);
  }

  /** `DELETE /api/users/:id/follow`: always 204 for a logged-in caller; removes the caller's
      oldest edge to the target, if there is one. */
  method UnfollowRoute(store: MemStorage, session: Option<int>, target: int) returns (status: int)
    requires store.Valid()
    modifies store
    ensures store.Valid()
    ensures store.playlists == old(store.playlists)
    ensures old(Caller(store, session)).None? ==> status == Unauthorized401 && unchanged(store)
    ensures old(Caller(store, session)).Some? ==>
              && status == NoContent204
              && (var e := FirstEdge(old(store.follows), old(store.currentId), session.value, target);
                  store.follows == if e.Some? then old(store.follows) - {e.value.id} else old(store.follows))
              && store.users == old(store.users) && store.comments == old(store.comments)
              && store.currentId == old(store.currentId)
  {
    var me := Caller(store, session);
    if me.None? {
      return Unauthorized401;
    }
    store.UnfollowUser(me.value.id, target);
    return NoContent204;
  }

  /** `GET /api/users/:id/followers`: each follower of the user once. */
  method FollowersRoute(store: MemStorage, session: Option<int>, id: int) returns (status: int, body: seq<User>)
    requires store.Valid()
    ensures Caller(store, session).None? ==> status == Unauthorized401 && body == []
    ensures Caller(store, session).Some? ==>
              && status == Ok200
              && (forall u :: u in body <==> store.HasUser(u) && store.HasEdge(u.id, id))
              && Distinct(body)
  {
    var me := Caller(store, session);
    if me.None? {
      return Unauthorized401, [];
    }
    return Ok200, store.GetFollowers(id);
  }

  /** `GET /api/users/:id/following`: each user the user follows once. */
  method FollowingRoute(store: MemStorage, session: Option<int>, id: int) returns (status: int, body: seq<User>)
    requires store.Valid()
    ensures Caller(store, session).None? ==> status == Unauthorized401 && body == []
    ensures Caller(store, session).Some? ==>
              && status == Ok200
              && (forall u :: u in body <==> store.HasUser(u) && store.HasEdge(id, u.id))
              && Distinct(body)
  {
    var me := Caller(store, session);
    if me.None? {
      return Unauthorized401, [];
    }
    return Ok200, store.GetFollowing(id);
  }
}
