/** The in-memory store: four tables keyed by integer id, and one counter from which every
    table draws its ids. */
module Storage {
  import opened Common
  import opened Schema
  import opened Tables

  /** What `updateUser` and `updatePlaylist` throw when the id is absent. */
  datatype StoreError = UserNotFound | PlaylistNotFound

  /** A `Partial<User>`: each field is either omitted (`None`) or given. A nullable field can be
      given as null (`Some(None)`). */
  datatype UserPatch = UserPatch(
    username: Option<string>,
    password: Option<string>,
    spotifyId: Option<Option<string>>,
    spotifyToken: Option<Option<string>>,
    spotifyRefreshToken: Option<Option<string>>)

  /** A `Partial<Playlist>`. Nothing in the store stops a patch from naming a new owner. */
  datatype PlaylistPatch = PlaylistPatch(
    name: Option<string>,
    description: Option<Option<string>>,
    userId: Option<int>,
    spotifyId: Option<Option<string>>,
    tracks: Option<Tracks>)

  function IdOfUser(u: User): int { u.id }
  function IdOfPlaylist(p: Playlist): int { p.id }
  function IdOfComment(c: Comment): int { c.id }
  function IdOfFollow(f: Follow): int { f.id }

  /** One field of a shallow merge: the patch's value when it gives one, the old value otherwise. */
  function Override<T>(given: Option<T>, current: T): T {
    if given.Some? then given.value else current
  }

  /** The field-level meaning of a shallow merge. */
  ghost predicate Overrides<T>(given: Option<T>, before: T, after: T) {
    if given.Some? then after == given.value else after == before
  }

  /** `{ ...user, ...updates }`: given fields overwrite, omitted fields keep their value, and the
      id never changes. */
  function MergeUser(u: User, p: UserPatch): (r: User)
    ensures r.id == u.id
    ensures Overrides(p.username, u.username, r.username)
    ensures Overrides(p.password, u.password, r.password)
    ensures Overrides(p.spotifyId, u.spotifyId, r.spotifyId)
    ensures Overrides(p.spotifyToken, u.spotifyToken, r.spotifyToken)
    ensures Overrides(p.spotifyRefreshToken, u.spotifyRefreshToken, r.spotifyRefreshToken)
  {
    User(u.id,
         Override(p.username, u.username),
         Override(p.password, u.password),
         Override(p.spotifyId, u.spotifyId),
         Override(p.spotifyToken, u.spotifyToken),
         Override(p.spotifyRefreshToken, u.spotifyRefreshToken))
  }

  /** `{ ...playlist, ...updates }` for playlists. */
  function MergePlaylist(pl: Playlist, p: PlaylistPatch): (r: Playlist)
    ensures r.id == pl.id
    ensures Overrides(p.name, pl.name, r.name)
    ensures Overrides(p.description, pl.description, r.description)
    ensures Overrides(p.userId, pl.userId, r.userId)
    ensures Overrides(p.spotifyId, pl.spotifyId, r.spotifyId)
    ensures Overrides(p.tracks, pl.tracks, r.tracks)
  {
    Playlist(pl.id,
             Override(p.name, pl.name),
             Override(p.description, pl.description),
             Override(p.userId, pl.userId),
             Override(p.spotifyId, pl.spotifyId),
             Override(p.tracks, pl.tracks))
  }

  /** Applying the same patch twice is the same as applying it once. */
  lemma MergeIdempotent(u: User, up: UserPatch, pl: Playlist, pp: PlaylistPatch)
    ensures MergeUser(MergeUser(u, up), up) == MergeUser(u, up)
    ensures MergePlaylist(MergePlaylist(pl, pp), pp) == MergePlaylist(pl, pp)
  {
  }

  /** Comments newest first: `s` ordered by non-increasing `createdAt`. */
  ghost predicate NewestFirst(s: seq<Comment>) {
    forall i, j :: 0 <= i < j < |s| ==> s[i].createdAt >= s[j].createdAt
  }

  /** Newest first, and comments with equal timestamps in increasing id order: the order a
      stable sort gives when its input is in increasing id order. */
  ghost predicate NewestFirstStable(s: seq<Comment>) {
    forall i, j :: 0 <= i < j < |s| ==>
      s[i].createdAt > s[j].createdAt || (s[i].createdAt == s[j].createdAt && s[i].id < s[j].id)
  }

  /** One step of a stable insertion sort: `c` goes before the first comment that is not newer. */
  function InsertNewest(c: Comment, s: seq<Comment>): (r: seq<Comment>)
    ensures multiset(r) == multiset(s) + multiset{c}
  {
    if s == [] || s[0].createdAt <= c.createdAt then [c] + s
    else
      assert s == [s[0]] + s[1..];
      [s[0]] + InsertNewest(c, s[1..])
  }

  /** Inserting into a newest-first sequence keeps it newest first. */
  lemma {:induction false} InsertNewestSorted(c: Comment, s: seq<Comment>)
    requires NewestFirst(s)
    ensures NewestFirst(InsertNewest(c, s))
  {
    if s == [] || s[0].createdAt <= c.createdAt {
      forall j | 0 <= j < |s| ensures s[j].createdAt <= c.createdAt {
        assert s[0].createdAt >= s[j].createdAt || j == 0;
      }
    } else {
      InsertNewestSorted(c, s[1..]);
      var rest := InsertNewest(c, s[1..]);
      forall j | 0 <= j < |rest| ensures rest[j].createdAt <= s[0].createdAt {
        assert rest[j] in multiset(rest);
        if rest[j] != c {
          assert rest[j] in multiset(s[1..]);
          var k :| 0 <= k < |s[1..]| && s[1..][k] == rest[j];
          assert s[k + 1] == rest[j];
        }
      }
    }
  }

  /** `.sort((a, b) => b.createdAt - a.createdAt)`: a stable sort, newest first. */
  function SortNewestFirst(s: seq<Comment>): (r: seq<Comment>)
    ensures multiset(r) == multiset(s)
    ensures NewestFirst(r)
  {
    if s == [] then []
    else
      assert s == [s[0]] + s[1..];
      var sorted := SortNewestFirst(s[1..]);
      InsertNewestSorted(s[0], sorted);
      InsertNewest(s[0], sorted)
  }

  /** Inserting a comment whose id is below every other id keeps the stable order. */
  lemma {:induction false} InsertNewestStable(c: Comment, s: seq<Comment>)
    requires NewestFirstStable(s)
    requires forall x :: x in s ==> c.id < x.id
    ensures NewestFirstStable(InsertNewest(c, s))
  {
    if s == [] || s[0].createdAt <= c.createdAt {
    } else {
      InsertNewestStable(c, s[1..]);
      var rest := InsertNewest(c, s[1..]);
      assert s == [s[0]] + s[1..];
      forall j | 0 <= j < |rest|
        ensures s[0].createdAt > rest[j].createdAt
                || (s[0].createdAt == rest[j].createdAt && s[0].id < rest[j].id)
      {
        assert rest[j] in multiset(rest);
        if rest[j] != c {
          assert rest[j] in multiset(s[1..]);
          var k :| 0 <= k < |s[1..]| && s[1..][k] == rest[j];
          assert s[k + 1] == rest[j];
        }
      }
    }
  }

  /** Sorting comments listed in increasing id order leaves equal timestamps in id order. */
  lemma {:induction false} SortNewestFirstStable(s: seq<Comment>)
    requires Increasing(s, IdOfComment)
    ensures NewestFirstStable(SortNewestFirst(s))
  {
    if s != [] {
      assert Increasing(s[1..], IdOfComment);
      SortNewestFirstStable(s[1..]);
      var sorted := SortNewestFirst(s[1..]);
      forall x | x in sorted ensures s[0].id < x.id {
        assert x in multiset(sorted);
        assert x in multiset(s[1..]);
        var k :| 0 <= k < |s[1..]| && s[1..][k] == x;
        assert s[k + 1] == x;
        assert IdOfComment(s[0]) < IdOfComment(s[k + 1]);
      }
      InsertNewestStable(s[0], sorted);
    }
  }

  /** The edge `unfollowUser` removes: the first edge from `follower` to `followed` in the
      iteration order of the follows table, which is the one with the smallest id. */
  function FirstEdge(follows: map<int, Follow>, n: int, follower: int, followed: int): (r: Option<Follow>)
    requires forall k :: k in follows ==> 0 <= k < n && follows[k].id == k
    ensures r.None? <==> forall k :: k in follows ==> !(follows[k].followerId == follower && follows[k].followedId == followed)
    ensures r.Some? ==> r.value.id in follows && follows[r.value.id] == r.value
                        && r.value.followerId == follower && r.value.followedId == followed
    ensures r.Some? ==> forall k :: k in follows && follows[k].followerId == follower && follows[k].followedId == followed
                                    ==> r.value.id <= k
  {
    var matches := (f: Follow) => f.followerId == follower && f.followedId == followed;
    var r := Find(Values(follows, n), matches);
    if r.Some? then
      FindInValuesSome(follows, n, matches, IdOfFollow);
      r
    else
      FindInValuesNone(follows, n, matches);
      r
  }

  /** No two keys of a users table hold the same username. */
  ghost predicate UniqueNames(users: map<int, User>) {
    forall k1, k2 :: k1 in users && k2 in users && users[k1].username == users[k2].username ==> k1 == k2
  }

  /** Adding a user under a fresh key keeps usernames unique exactly when its name is not taken. */
  lemma AddKeepsUnique(users: map<int, User>, u: User)
    requires u.id !in users && UniqueNames(users)
    ensures UniqueNames(users[u.id := u]) <==> forall k :: k in users ==> users[k].username != u.username
  {
    if UniqueNames(users[u.id := u]) {
      forall k | k in users ensures users[k].username != u.username {
        var after := users[u.id := u];
        assert after[k] == users[k] && after[u.id] == u;
      }
    }
  }

  /** Replacing a user by one with the same username keeps usernames unique. */
  lemma ReplaceKeepsUnique(users: map<int, User>, id: int, u: User)
    requires id in users && u.username == users[id].username && UniqueNames(users)
    ensures UniqueNames(users[id := u])
  {
  }

  /** The store. All four tables draw their ids from `currentId`, which starts at 1 and only
      grows, so an id names at most one record in at most one table. */
  class MemStorage {
    var users: map<int, User>
    var playlists: map<int, Playlist>
    var comments: map<int, Comment>
    var follows: map<int, Follow>
    var currentId: int

    /** The store invariant: every key lies in [1, currentId), each record's id is its key, and
        no key is used by two tables. */
    ghost predicate Valid()
      reads this
    {
      && 1 <= currentId
      && (forall k :: k in users ==> 1 <= k < currentId && users[k].id == k)
      && (forall k :: k in playlists ==> 1 <= k < currentId && playlists[k].id == k)
      && (forall k :: k in comments ==> 1 <= k < currentId && comments[k].id == k)
      && (forall k :: k in follows ==> 1 <= k < currentId && follows[k].id == k)
      && users.Keys !! playlists.Keys && users.Keys !! comments.Keys && users.Keys !! follows.Keys
      && playlists.Keys !! comments.Keys && playlists.Keys !! follows.Keys
      && comments.Keys !! follows.Keys
    }

    /** Every id in use, in any table. */
    ghost function Ids(): set<int>
      reads this
    {
      users.Keys + playlists.Keys + comments.Keys + follows.Keys
    }

    /** The username uniqueness the users table declares. The store does not enforce it. */
    ghost predicate UniqueUsernames()
      reads this
    {
      UniqueNames(users)
    }

    /** Some stored edge says that `follower` follows `followed`. */
    ghost predicate HasEdge(follower: int, followed: int)
      reads this
    {
      exists k :: k in follows && follows[k].followerId == follower && follows[k].followedId == followed
    }

    constructor ()
      ensures Valid()
      ensures users == map[] && playlists == map[] && comments == map[] && follows == map[]
      ensures currentId == 1
    {
      users, playlists, comments, follows := map[], map[], map[], map[];
      currentId := 1;
    }

    /** A user stored at its own id. */
    ghost predicate HasUser(u: User)
      reads this
    {
      u.id in users && users[u.id] == u
    }

    /** A playlist stored at its own id. */
    ghost predicate HasPlaylist(p: Playlist)
      reads this
    {
      p.id in playlists && playlists[p.id] == p
    }

    /** A comment stored at its own id. */
    ghost predicate HasComment(c: Comment)
      reads this
    {
      c.id in comments && comments[c.id] == c
    }

    /** `getUser`: the user stored under that id, if any. */
    function GetUser(id: int): (r: Option<User>)
      reads this
      requires Valid()
      ensures r.Some? ==> HasUser(r.value) && r.value.id == id
      ensures r.None? ==> forall u :: HasUser(u) ==> u.id != id
    {
      if id in users then Some(users[id]) else None
    }

    /** `getAllUsers`: every stored user once, in increasing id order. */
    function GetAllUsers(): (r: seq<User>)
      reads this
      requires Valid()
      ensures forall u :: u in r <==> HasUser(u)
      ensures Increasing(r, IdOfUser)
    {
      ValuesIncreasing(users, currentId, IdOfUser);
      Values(users, currentId)
    }

    /** `getUserByUsername`: the user with that name and the smallest id, or none when no user has it. */
    function GetUserByUsername(name: string): (r: Option<User>)
      reads this
      requires Valid()
      ensures r.None? <==> forall u :: HasUser(u) ==> u.username != name
      ensures r.Some? ==> HasUser(r.value) && r.value.username == name
      ensures r.Some? ==> forall u :: HasUser(u) && u.username == name ==> r.value.id <= u.id
    {
      var all := GetAllUsers();
      var named := (u: User) => u.username == name;
      var r := Find(all, named);
      assert r.None? <==> forall u :: u in all ==> u.username != name by {
        if r.None? {
          forall u | u in all ensures u.username != name {
            var i :| 0 <= i < |all| && all[i] == u;
          }
        }
      }
      if r.Some? then
        FindFirst(all, named, IdOfUser);
        r
      else r
    }

    /** `getPlaylist`: the playlist stored under that id, if any. */
    function GetPlaylist(id: int): (r: Option<Playlist>)
      reads this
      requires Valid()
      ensures r.Some? ==> HasPlaylist(r.value) && r.value.id == id
      ensures r.None? ==> forall p :: HasPlaylist(p) ==> p.id != id
    {
      if id in playlists then Some(playlists[id]) else None
    }

    /** `getUserPlaylists`: exactly the playlists the user owns, each once, in increasing id order. */
    function GetUserPlaylists(owner: int): (r: seq<Playlist>)
      reads this
      requires Valid()
      ensures forall p :: p in r <==> HasPlaylist(p) && p.userId == owner
      ensures Increasing(r, IdOfPlaylist)
    {
      var all := Values(playlists, currentId);
      var owned := (p: Playlist) => p.userId == owner;
      ValuesIncreasing(playlists, currentId, IdOfPlaylist);
      FilterIncreasing(all, owned, IdOfPlaylist);
      Filter(all, owned)
    }

    /** `getPlaylistComments`: exactly the comments on that playlist, each once, newest first,
        comments with the same timestamp in the order they were created. */
    function GetPlaylistComments(playlistId: int): (r: seq<Comment>)
      reads this
      requires Valid()
      ensures forall c :: c in r <==> HasComment(c) && c.playlistId == playlistId
      ensures Distinct(r)
      ensures NewestFirst(r) && NewestFirstStable(r)
    {
      var all := Values(comments, currentId);
      var onPlaylist := (c: Comment) => c.playlistId == playlistId;
      ValuesIncreasing(comments, currentId, IdOfComment);
      FilterIncreasing(all, onPlaylist, IdOfComment);
      var matching := Filter(all, onPlaylist);
      SortNewestFirstStable(matching);
      var r := SortNewestFirst(matching);
      assert forall c :: c in r <==> c in matching by {
        forall c ensures c in r <==> c in matching {
          assert c in r <==> c in multiset(r);
          assert c in matching <==> c in multiset(matching);
        }
      }
      assert Distinct(r) by {
        forall i, j | 0 <= i < j < |r| ensures r[i] != r[j] {
          assert r[i].id != r[j].id || r[i].createdAt > r[j].createdAt;
        }
      }
      r
    }

    /** `getFollowers`: every stored user with an edge to `followed`, each once (even when an edge
        is stored twice), in increasing id order; ids of edges with no stored user are dropped. */
    function GetFollowers(followed: int): (r: seq<User>)
      reads this
      requires Valid()
      ensures forall u :: u in r <==> HasUser(u) && HasEdge(u.id, followed)
      ensures Increasing(r, IdOfUser) && Distinct(r)
    {
      var edges := Filter(Values(follows, currentId), (f: Follow) => f.followedId == followed);
      var followerIds := Map(edges, (f: Follow) => f.followerId);
      var all := GetAllUsers();
      var listed := (u: User) => u.id in followerIds;
      FilterIncreasing(all, listed, IdOfUser);
      var r := Filter(all, listed);
      IncreasingIsDistinct(r, IdOfUser);
      assert forall u :: u in r <==> HasUser(u) && HasEdge(u.id, followed) by {
        forall u ensures u in r <==> HasUser(u) && HasEdge(u.id, followed) {
          if HasUser(u) && HasEdge(u.id, followed) {
            var k :| k in follows && follows[k].followerId == u.id && follows[k].followedId == followed;
            assert follows[k] in edges;
            var i :| 0 <= i < |edges| && edges[i] == follows[k];
            assert followerIds[i] == u.id;
          }
          if u in r {
            var i :| 0 <= i < |edges| && edges[i].followerId == u.id;
            assert edges[i] in edges;
          }
        }
      }
      r
    }

    /** `getFollowing`: every stored user that `follower` has an edge to, each once, in increasing
        id order; ids of edges with no stored user are dropped. */
    function GetFollowing(follower: int): (r: seq<User>)
      reads this
      requires Valid()
      ensures forall u :: u in r <==> HasUser(u) && HasEdge(follower, u.id)
      ensures Increasing(r, IdOfUser) && Distinct(r)
    {
      var edges := Filter(Values(follows, currentId), (f: Follow) => f.followerId == follower);
      var followedIds := Map(edges, (f: Follow) => f.followedId);
      var all := GetAllUsers();
      var listed := (u: User) => u.id in followedIds;
      FilterIncreasing(all, listed, IdOfUser);
      var r := Filter(all, listed);
      IncreasingIsDistinct(r, IdOfUser);
      assert forall u :: u in r <==> HasUser(u) && HasEdge(follower, u.id) by {
        forall u ensures u in r <==> HasUser(u) && HasEdge(follower, u.id) {
          if HasUser(u) && HasEdge(follower, u.id) {
            var k :| k in follows && follows[k].followerId == follower && follows[k].followedId == u.id;
            assert follows[k] in edges;
            var i :| 0 <= i < |edges| && edges[i] == follows[k];
            assert followedIds[i] == u.id;
          }
          if u in r {
            var i :| 0 <= i < |edges| && edges[i].followedId == u.id;
            assert edges[i] in edges;
          }
        }
      }
      r
    }

    /** The next id is in use nowhere, and every id in use is below it. */
    lemma NextIdFresh()
      requires Valid()
      ensures currentId !in Ids()
      ensures forall k :: k in Ids() ==> 1 <= k < currentId
    {
    }

    /** `createUser`: the new user gets the old counter value as its id and the given fields;
        only the users table and the counter change. */
    method CreateUser(nu: NewUser) returns (u: User)
      requires Valid()
      modifies this
      ensures Valid()
      ensures u == User(old(currentId), nu.username, nu.password, nu.spotifyId, nu.spotifyToken, nu.spotifyRefreshToken)
      ensures currentId == old(currentId) + 1
      ensures u.id !in old(Ids()) && forall k :: k in old(Ids()) ==> k < u.id
      ensures users == old(users)[u.id := u]
      ensures playlists == old(playlists) && comments == old(comments) && follows == old(follows)
    {
      var id := currentId;
      currentId := currentId + 1;
      u := User(id, nu.username, nu.password, nu.spotifyId, nu.spotifyToken, nu.spotifyRefreshToken);
      users := users[id := u];
    }

    /** `updateUser`: fails, changing nothing, when the id is absent; otherwise shallow-merges the
        patch into that one user. */
    method UpdateUser(id: int, patch: UserPatch) returns (r: Result<User, StoreError>)
      requires Valid()
      modifies this
      ensures Valid()
      ensures id !in old(users) ==> r == Err(UserNotFound) && users == old(users)
      ensures id in old(users) ==> r == Ok(MergeUser(old(users)[id], patch)) && users == old(users)[id := r.value]
      ensures playlists == old(playlists) && comments == old(comments) && follows == old(follows)
      ensures currentId == old(currentId)
    {
      var found := GetUser(id);
      if found.None? {
        return Err(UserNotFound);
      }
      var updated := MergeUser(found.value, patch);
      users := users[id := updated];
      r := Ok(updated);
    }

    /** `createPlaylist`: as `createUser`, for playlists. */
    method CreatePlaylist(np: NewPlaylist) returns (p: Playlist)
      requires Valid()
      modifies this
      ensures Valid()
      ensures p == Playlist(old(currentId), np.name, np.description, np.userId, np.spotifyId, np.tracks)
      ensures currentId == old(currentId) + 1
      ensures p.id !in old(Ids()) && forall k :: k in old(Ids()) ==> k < p.id
      ensures playlists == old(playlists)[p.id := p]
      ensures users == old(users) && comments == old(comments) && follows == old(follows)
    {
      var id := currentId;
      currentId := currentId + 1;
      p := Playlist(id, np.name, np.description, np.userId, np.spotifyId, np.tracks);
      playlists := playlists[id := p];
    }

    /** `updatePlaylist`: fails, changing nothing, when the id is absent; otherwise shallow-merges
        the patch into that one playlist. */
    method UpdatePlaylist(id: int, patch: PlaylistPatch) returns (r: Result<Playlist, StoreError>)
      requires Valid()
      modifies this
      ensures Valid()
      ensures id !in old(playlists) ==> r == Err(PlaylistNotFound) && playlists == old(playlists)
      ensures id in old(playlists) ==> r == Ok(MergePlaylist(old(playlists)[id], patch))
                                       && playlists == old(playlists)[id := r.value]
      ensures users == old(users) && comments == old(comments) && follows == old(follows)
      ensures currentId == old(currentId)
    {
      var found := GetPlaylist(id);
      if found.None? {
        return Err(PlaylistNotFound);
      }
      var updated := MergePlaylist(found.value, patch);
      playlists := playlists[id := updated];
      r := Ok(updated);
    }

    /** `deletePlaylist`: removes exactly that key; nothing happens when it is absent. */
    method DeletePlaylist(id: int)
      requires Valid()
      modifies this
      ensures Valid()
      ensures playlists == old(playlists) - {id}
      ensures id !in old(playlists) ==> playlists == old(playlists)
      ensures users == old(users) && comments == old(comments) && follows == old(follows)
      ensures currentId == old(currentId)
    {
      playlists := playlists - {id};
    }

    /** `createComment`: as `createUser`, for comments; `now` stands for the clock reading. */
    method CreateComment(nc: NewComment, now: Timestamp) returns (c: Comment)
      requires Valid()
      modifies this
      ensures Valid()
      ensures c == Comment(old(currentId), nc.content, nc.userId, nc.playlistId, now)
      ensures currentId == old(currentId) + 1
      ensures c.id !in old(Ids()) && forall k :: k in old(Ids()) ==> k < c.id
      ensures comments == old(comments)[c.id := c]
      ensures users == old(users) && playlists == old(playlists) && follows == old(follows)
    {
      var id := currentId;
      currentId := currentId + 1;
      c := Comment(id, nc.content, nc.userId, nc.playlistId, now);
      comments := comments[id := c];
    }

    /** `followUser`: always adds a new edge, even when the same pair is already stored. */
    method FollowUser(follower: int, followed: int) returns (f: Follow)
      requires Valid()
      modifies this
      ensures Valid()
      ensures f == Follow(old(currentId), follower, followed)
      ensures currentId == old(currentId) + 1
      ensures f.id !in old(Ids()) && forall k :: k in old(Ids()) ==> k < f.id
      ensures follows == old(follows)[f.id := f]
      ensures users == old(users) && playlists == old(playlists) && comments == old(comments)
    {
      var id := currentId;
      currentId := currentId + 1;
      f := Follow(id, follower, followed);
      follows := follows[id := f];
    }

    /** `unfollowUser`: removes the oldest edge from `follower` to `followed` and no other; nothing
        happens when there is none. */
    method UnfollowUser(follower: int, followed: int)
      requires Valid()
      modifies this
      ensures Valid()
      ensures var e := FirstEdge(old(follows), old(currentId), follower, followed);
              follows == if e.Some? then old(follows) - {e.value.id} else old(follows)
      ensures !old(HasEdge(follower, followed)) ==> follows == old(follows)
      ensures old(HasEdge(follower, followed)) ==> |follows| == |old(follows)| - 1
      ensures users == old(users) && playlists == old(playlists) && comments == old(comments)
      ensures currentId == old(currentId)
    {
      var found := FirstEdge(follows, currentId, follower, followed);
      if found.Some? {
        follows := follows - {found.value.id};
      }
    }
  }
}
