/** The four record shapes of the application (users, playlists, follows, comments), the input
    shapes the store's create operations take, the field picks of the insert schemas, and the
    request bodies those picks are applied to. */
module Schema {
  import opened Common

  /** The tracks of a playlist: a JSON document the application never looks into. */
  type Tracks = seq<string>

  /** A milliseconds-since-epoch timestamp, as `Date.getTime()` gives it. */
  type Timestamp = int

  /** A user row: username and password are required; the three Spotify fields are nullable.
      The password is the stored credential string "<hash>.<salt>", never the raw password. */
  datatype User = User(
    id: int,
    username: string,
    password: string,
    spotifyId: Option<string>,
    spotifyToken: Option<string>,
    spotifyRefreshToken: Option<string>)

  /** A playlist row: name, owner and tracks are required; description and Spotify id are nullable. */
  datatype Playlist = Playlist(
    id: int,
    name: string,
    description: Option<string>,
    userId: int,
    spotifyId: Option<string>,
    tracks: Tracks)

  /** A follow edge: all three fields required. */
  datatype Follow = Follow(id: int, followerId: int, followedId: int)

  /** A comment row: every field required. */
  datatype Comment = Comment(
    id: int,
    content: string,
    userId: int,
    playlistId: int,
    createdAt: Timestamp)

  /** The argument of `createUser`: the insert-schema pick (username, password) together with the
      optional Spotify fields. */
  datatype NewUser = NewUser(
    username: string,
    password: string,
    spotifyId: Option<string>,
    spotifyToken: Option<string>,
    spotifyRefreshToken: Option<string>)

  /** The argument of `createPlaylist`: a playlist without its id. */
  datatype NewPlaylist = NewPlaylist(
    name: string,
    description: Option<string>,
    userId: int,
    spotifyId: Option<string>,
    tracks: Tracks)

  /** The argument of `createComment`: a comment without its id and timestamp. */
  datatype NewComment = NewComment(content: string, userId: int, playlistId: int)

  /** What the playlist insert schema keeps: name and tracks (required) and description
      (optional and nullable: `None` when the key is absent, `Some(None)` when it is null). */
  datatype InsertPlaylist = InsertPlaylist(name: string, description: Option<Option<string>>, tracks: Tracks)

  /** What the comment insert schema keeps: content and playlist id, both required. */
  datatype InsertComment = InsertComment(content: string, playlistId: int)

  /** A playlist request body as a client may send it: each field may be missing, and a client
      may try to set the owner or the Spotify id. */
  datatype PlaylistBody = PlaylistBody(
    name: Option<string>,
    description: Option<Option<string>>,
    tracks: Option<Tracks>,
    userId: Option<int>,
    spotifyId: Option<Option<string>>)

  /** A comment request body as a client may send it. */
  datatype CommentBody = CommentBody(content: Option<string>, playlistId: Option<int>, userId: Option<int>)

  /** `insertPlaylistSchema.parse`: succeeds exactly when the required fields are present, and
      keeps only name, description and tracks (every other key is stripped). `None` stands for
      the validation error the parser throws. */
  function ParsePlaylist(b: PlaylistBody): (r: Option<InsertPlaylist>)
    ensures r.Some? <==> b.name.Some? && b.tracks.Some?
    ensures r.Some? ==> r.value.name == b.name.value && r.value.tracks == b.tracks.value
                        && r.value.description == b.description
  {
    if b.name.Some? && b.tracks.Some? then Some(InsertPlaylist(b.name.value, b.description, b.tracks.value))
    else None
  }

  /** `insertCommentSchema.parse`: succeeds exactly when content and playlist id are both present,
      and keeps only those two fields. */
  function ParseComment(b: CommentBody): (r: Option<InsertComment>)
    ensures r.Some? <==> b.content.Some? && b.playlistId.Some?
    ensures r.Some? ==> r.value.content == b.content.value && r.value.playlistId == b.playlistId.value
  {
    if b.content.Some? && b.playlistId.Some? then Some(InsertComment(b.content.value, b.playlistId.value))
    else None
  }

  /** Whatever owner or Spotify id a body names, validation gives the same result: a client
      cannot set either through the playlist insert schema. */
  lemma ParsePlaylistIgnoresOwner(b: PlaylistBody, owner: Option<int>, spotify: Option<Option<string>>)
    ensures ParsePlaylist(b.(userId := owner, spotifyId := spotify)) == ParsePlaylist(b)
  {
  }

  /** Likewise, a body's user id never reaches the validated comment. */
  lemma ParseCommentIgnoresAuthor(b: CommentBody, author: Option<int>)
    ensures ParseComment(b.(userId := author)) == ParseComment(b)
  {
  }
}
