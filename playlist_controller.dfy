/** Playlists: creating, listing, the playlist view, adding and removing videos, editing and deleting
    (src/controllers/playlist.controller.js). None of the handlers compares a playlist's owner with
    the principal. Adding writes the `videos` array while removing and the view use `video`, so a
    video added through the handler never shows in the view and cannot be removed. */
module PlaylistController {
  import opened Common
  import opened Query
  import opened Entities
  import opened Database

  // ----- the name and description check -----

  /** `name.trim() === "" || description.trim() === ""`, evaluated left to right: an undefined name
      throws before the description is read, a blank name short-circuits to the 404, and only then is
      the description trimmed. */
  function RequiredFields(name: Option<string>, description: Option<string>): (r: Result<(string, string)>)
    ensures r.Ok? <==> name.Some? && !IsBlank(name.value) && description.Some? && !IsBlank(description.value)
    ensures r.Ok? ==> r.value == (name.value, description.value)
    ensures name.None? ==> r.Err? && r.error.TypeError?
    ensures name.Some? && IsBlank(name.value) ==> r == Err(ApiError(404, "All fields are required"))
    ensures name.Some? && !IsBlank(name.value) && description.None? ==> r.Err? && r.error.TypeError?
    ensures name.Some? && !IsBlank(name.value) && description.Some? && IsBlank(description.value) ==>
      r == Err(ApiError(404, "All fields are required"))
  {
    match RequiredText(name, 404, "All fields are required")
    case Err(e) => Err(e)
    case Ok(n) =>
      match RequiredText(description, 404, "All fields are required")
      case Err(e) => Err(e)
      case Ok(d) => Ok((n, d))
  }

  /** A blank name is refused even when the description is missing altogether. */
  lemma BlankNameHidesMissingDescription(name: string)
    requires IsBlank(name)
    ensures RequiredFields(Some(name), None) == Err(ApiError(404, "All fields are required"))
  {
  }

  // ----- createPlaylist -----

  /** createPlaylist: the field check, then a new playlist owned by the principal with both arrays
      empty. */
  function CreatePlaylistSpec(playlists: seq<Playlist>, principal: Id, name: Option<string>, description: Option<string>, nid: Id)
    : (r: Step<seq<Playlist>, Playlist>)
    ensures r.reply.Err? ==>
      r.state == playlists && RequiredFields(name, description).Err? && r.reply == Err(RequiredFields(name, description).error)
    ensures r.reply.Ok? <==> RequiredFields(name, description).Ok?
    ensures r.reply.Ok? ==>
      && r.reply.value == Playlist(nid, principal, name.value, description.value, [], [])
      && r.state == playlists + [r.reply.value]
  {
    match RequiredFields(name, description)
    case Err(e) => Step(Err(e), playlists)
    case Ok((n, d)) =>
      var p := Playlist(nid, principal, n, d, [], []);
      Step(Ok(p), playlists + [p])
  }

  // ----- getUserPlaylists -----

  function OwnedBy(owner: Id): Playlist -> bool
  {
    (p: Playlist) => p.owner == owner
  }

  /** getUserPlaylists: 401 on a malformed id, otherwise the user's playlists in stored order. Whether
      the user exists is not checked: an unknown user has none. */
  function UserPlaylists(playlists: seq<Playlist>, userId: IdParam): (r: Result<seq<Playlist>>)
    ensures !IsValidObjectId(userId) <==> r == Err(ApiError(401, "user id is invalid"))
    ensures r.Ok? ==> forall p :: p in r.value <==> p in playlists && p.owner == userId.id
  {
    match userId
    case Malformed(_) => Err(ApiError(401, "user id is invalid"))
    case ObjectId(u) => Ok(Find(playlists, OwnedBy(u)))
  }

  /** A newly created playlist is among its creator's playlists. */
  lemma CreatedPlaylistListed(playlists: seq<Playlist>, principal: Id, name: Option<string>, description: Option<string>, nid: Id)
    requires CreatePlaylistSpec(playlists, principal, name, description, nid).reply.Ok?
    ensures CreatePlaylistSpec(playlists, principal, name, description, nid).reply.value
         in UserPlaylists(CreatePlaylistSpec(playlists, principal, name, description, nid).state, ObjectId(principal)).value
  {
  }

  // ----- getPlaylistById -----

  /** A video as the playlist view nests it. The owner projection names `avater`, a field users do
      not have, so the owner comes back without an avatar. */
  datatype PlaylistVideo = PlaylistVideo(video: Video, videoOwner: Option<OwnerView>)

  function VideoOwner(users: seq<User>, owner: Id): (r: Option<OwnerView>)
    ensures r.Some? ==> r.value.avatar.None?
    ensures r.None? <==> LookupOwner(users, owner).None?
  {
    match LookupOwner(users, owner)
    case None => None
    case Some(o) => Some(o.(avatar := None))
  }

  function PlaylistVideoIn(users: seq<User>): Video -> PlaylistVideo
  {
    (v: Video) => PlaylistVideo(v, VideoOwner(users, v.owner))
  }

  /** `$lookup` from videos with `localField: "video"`: the videos whose id the array holds, in the
      order of the videos collection. */
  function InList(ids: seq<Id>): Video -> bool
  {
    (v: Video) => v.id in ids
  }

  /** One row of the view: the playlist document with the joined videos beside it. */
  datatype PlaylistView = PlaylistView(playlist: Playlist, playlistVideo: seq<PlaylistVideo>)

  function PlaylistViewIn(videos: seq<Video>, users: seq<User>): Playlist -> PlaylistView
  {
    (p: Playlist) => PlaylistView(p, Map(Find(videos, InList(p.video)), PlaylistVideoIn(users)))
  }

  /** getPlaylistById: 404 on a malformed id, otherwise the aggregate's array. An array is always truthy,
      so an unknown playlist gives an empty array rather than the 404 the handler means to send. */
  function PlaylistDetail(playlists: seq<Playlist>, videos: seq<Video>, users: seq<User>, playlistId: IdParam)
    : (r: Result<seq<PlaylistView>>)
    ensures !IsValidObjectId(playlistId) <==> r == Err(ApiError(404, "playlist id is invalid"))
    ensures r.Ok? ==> forall x :: x in r.value ==>
      && x.playlist in playlists && x.playlist.id == playlistId.id
      && forall pv :: pv in x.playlistVideo ==>
           pv.video in videos && pv.video.id in x.playlist.video && pv.videoOwner == VideoOwner(users, pv.video.owner)
  {
    match playlistId
    case Malformed(_) => Err(ApiError(404, "playlist id is invalid"))
    case ObjectId(id) =>
      var found := Find(playlists, HasKey(PlaylistKey, id));
      var rows := Map(found, PlaylistViewIn(videos, users));
      forall x | x in rows
        ensures x.playlist in playlists && x.playlist.id == id
        ensures forall pv :: pv in x.playlistVideo ==>
          pv.video in videos && pv.video.id in x.playlist.video && pv.videoOwner == VideoOwner(users, pv.video.owner)
      {
        MapMember(found, PlaylistViewIn(videos, users), x);
        var joined := Find(videos, InList(x.playlist.video));
        forall pv | pv in x.playlistVideo
          ensures pv.video in videos && pv.video.id in x.playlist.video && pv.videoOwner == VideoOwner(users, pv.video.owner)
        {
          MapMember(joined, PlaylistVideoIn(users), pv);
        }
      }
      Ok(rows)
  }

  /** An unknown playlist is not an error: the view is an empty array. */
  lemma MissingPlaylistIsEmpty(playlists: seq<Playlist>, videos: seq<Video>, users: seq<User>, id: Id)
    requires PlaylistById(playlists, id).None?
    ensures PlaylistDetail(playlists, videos, users, ObjectId(id)) == Ok([])
  {
    FindEmpty(playlists, HasKey(PlaylistKey, id));
  }

  /** An existing playlist's view starts with that playlist and every video listed in its `video`
      array that exists. */
  lemma PlaylistDetailShows(playlists: seq<Playlist>, videos: seq<Video>, users: seq<User>, id: Id, v: Video)
    requires PlaylistById(playlists, id).Some?
    requires v in videos && v.id in PlaylistById(playlists, id).value.video
    ensures PlaylistDetail(playlists, videos, users, ObjectId(id)).value != []
    ensures PlaylistDetail(playlists, videos, users, ObjectId(id)).value[0].playlist == PlaylistById(playlists, id).value
    ensures PlaylistVideo(v, VideoOwner(users, v.owner))
         in PlaylistDetail(playlists, videos, users, ObjectId(id)).value[0].playlistVideo
  {
    var p := PlaylistById(playlists, id).value;
    var joined := Find(videos, InList(p.video));
    assert v in joined;
    MapMember(joined, PlaylistVideoIn(users), PlaylistVideo(v, VideoOwner(users, v.owner)));
  }

  // ----- addVideoToPlaylist and removeVideoFromPlaylist -----

  function AddVideo(video: Id): Playlist -> Playlist
  {
    (p: Playlist) => p.(videos := AddToSet(p.videos, video))
  }

  function PullVideo(video: Id): Playlist -> Playlist
  {
    (p: Playlist) => p.(video := Pull(p.video, video))
  }

  /** The two id checks shared by adding and removing, both 404. */
  function PlaylistAndVideo(playlistId: IdParam, videoId: IdParam): (r: Result<(Id, Id)>)
    ensures !IsValidObjectId(playlistId) ==> r == Err(ApiError(404, "playlist id is invalid"))
    ensures IsValidObjectId(playlistId) && !IsValidObjectId(videoId) ==> r == Err(ApiError(404, "video id is invalid"))
    ensures r.Ok? <==> IsValidObjectId(playlistId) && IsValidObjectId(videoId)
    ensures r.Ok? ==> r.value == (playlistId.id, videoId.id)
  {
    match playlistId
    case Malformed(_) => Err(ApiError(404, "playlist id is invalid"))
    case ObjectId(p) =>
      match videoId
      case Malformed(_) => Err(ApiError(404, "video id is invalid"))
      case ObjectId(v) => Ok((p, v))
  }

  /** A `findByIdAndUpdate` with `new: true` on playlists: the updated playlist, or the handler's 404
      when there is none. */
  function UpdatePlaylistWith(playlists: seq<Playlist>, id: Id, change: Playlist -> Playlist, missing: string)
    : (r: Step<seq<Playlist>, Playlist>)
    requires forall p :: PlaylistKey(change(p)) == PlaylistKey(p)
    ensures PlaylistById(playlists, id).None? <==> r == Step(Err(ApiError(404, missing)), playlists)
    ensures r.reply.Ok? ==>
      && r.reply.value == change(PlaylistById(playlists, id).value)
      && PlaylistById(r.state, id) == Some(r.reply.value)
      && |r.state| == |playlists|
    ensures forall other :: other != id ==>
      Find(r.state, HasKey(PlaylistKey, other)) == Find(playlists, HasKey(PlaylistKey, other))
  {
    forall other | other != id
      ensures Find(FindOneAndUpdate(playlists, HasKey(PlaylistKey, id), change), HasKey(PlaylistKey, other))
           == Find(playlists, HasKey(PlaylistKey, other))
    {
      UpdateLeavesOtherKeys(playlists, PlaylistKey, id, change, other);
    }
    match PlaylistById(playlists, id)
    case None => Step(Err(ApiError(404, missing)), playlists)
    case Some(p) =>
      UpdateByKeyKeepsFirst(playlists, PlaylistKey, id, change);
      Step(Ok(change(p)), FindOneAndUpdate(playlists, HasKey(PlaylistKey, id), change))
  }

  /** addVideoToPlaylist: both id checks, then `$addToSet` on `videos`. Neither the video's existence
      nor the playlist's owner is checked. */
  function AddVideoSpec(playlists: seq<Playlist>, playlistId: IdParam, videoId: IdParam): (r: Step<seq<Playlist>, Playlist>)
    ensures r.reply.Err? ==> r.state == playlists
    ensures r.reply.Ok? <==>
      IsValidObjectId(playlistId) && IsValidObjectId(videoId) && PlaylistById(playlists, playlistId.id).Some?
    ensures IsValidObjectId(playlistId) && IsValidObjectId(videoId) && PlaylistById(playlists, playlistId.id).None? ==>
      r.reply == Err(ApiError(404, "something went wrong while adding a video to playlist"))
    ensures r.reply.Ok? ==>
      && r.reply.value == PlaylistById(playlists, playlistId.id).value.(videos := r.reply.value.videos)
      && videoId.id in r.reply.value.videos
      && (forall w :: w in r.reply.value.videos <==> w in PlaylistById(playlists, playlistId.id).value.videos || w == videoId.id)
      && PlaylistById(r.state, playlistId.id) == Some(r.reply.value)
      && |r.state| == |playlists|
    ensures IsValidObjectId(playlistId) ==> forall other :: other != playlistId.id ==>
      Find(r.state, HasKey(PlaylistKey, other)) == Find(playlists, HasKey(PlaylistKey, other))
  {
    match PlaylistAndVideo(playlistId, videoId)
    case Err(e) => Step(Err(e), playlists)
    case Ok((p, v)) => UpdatePlaylistWith(playlists, p, AddVideo(v), "something went wrong while adding a video to playlist")
  }

  /** removeVideoFromPlaylist: both id checks, then `$pull` on `video`. */
  function RemoveVideoSpec(playlists: seq<Playlist>, playlistId: IdParam, videoId: IdParam): (r: Step<seq<Playlist>, Playlist>)
    ensures r.reply.Err? ==> r.state == playlists
    ensures r.reply.Ok? <==>
      IsValidObjectId(playlistId) && IsValidObjectId(videoId) && PlaylistById(playlists, playlistId.id).Some?
    ensures IsValidObjectId(playlistId) && IsValidObjectId(videoId) && PlaylistById(playlists, playlistId.id).None? ==>
      r.reply == Err(ApiError(404, "something went wrong while removing a video from playlist"))
    ensures r.reply.Ok? ==>
      && r.reply.value == PlaylistById(playlists, playlistId.id).value.(video := r.reply.value.video)
      && (forall w :: w in r.reply.value.video <==> w in PlaylistById(playlists, playlistId.id).value.video && w != videoId.id)
      && PlaylistById(r.state, playlistId.id) == Some(r.reply.value)
      && |r.state| == |playlists|
    ensures IsValidObjectId(playlistId) ==> forall other :: other != playlistId.id ==>
      Find(r.state, HasKey(PlaylistKey, other)) == Find(playlists, HasKey(PlaylistKey, other))
  {
    match PlaylistAndVideo(playlistId, videoId)
    case Err(e) => Step(Err(e), playlists)
    case Ok((p, v)) => UpdatePlaylistWith(playlists, p, PullVideo(v), "something went wrong while removing a video from playlist")
  }

  /** Adding the same video twice leaves the playlists, and the reply, as adding it once. */
  lemma AddVideoIdempotent(playlists: seq<Playlist>, playlistId: IdParam, videoId: IdParam)
    ensures AddVideoSpec(AddVideoSpec(playlists, playlistId, videoId).state, playlistId, videoId)
         == AddVideoSpec(playlists, playlistId, videoId)
  {
    var first := AddVideoSpec(playlists, playlistId, videoId);
    if first.reply.Ok? {
      var t := first.state;
      var i := IndexOf(t, HasKey(PlaylistKey, playlistId.id));
      assert t[i] == first.reply.value;
      UpdateFixed(t, HasKey(PlaylistKey, playlistId.id), AddVideo(videoId.id));
    }
  }

  /** An added video is held once, however often it is added. */
  lemma AddVideoHoldsOnce(playlists: seq<Playlist>, p: Id, v: Id)
    requires PlaylistById(playlists, p).Some? && Occurrences(PlaylistById(playlists, p).value.videos, v) <= 1
    ensures Occurrences(AddVideoSpec(playlists, ObjectId(p), ObjectId(v)).reply.value.videos, v) == 1
  {
    AddToSetOnce(PlaylistById(playlists, p).value.videos, v);
  }

  /** Removing a video the handler added does not take it out: the add wrote `videos`, the remove
      pulls from `video`. */
  lemma AddThenRemoveKeepsVideo(playlists: seq<Playlist>, p: Id, v: Id)
    requires PlaylistById(playlists, p).Some?
    ensures v in RemoveVideoSpec(AddVideoSpec(playlists, ObjectId(p), ObjectId(v)).state, ObjectId(p), ObjectId(v)).reply.value.videos
  {
  }

  /** Adding a video does not make it appear in the playlist's view: the view joins on `video`. */
  lemma AddedVideoNotInView(playlists: seq<Playlist>, bound: nat, videos: seq<Video>, users: seq<User>, p: Id, v: Id)
    requires Keyed(playlists, PlaylistKey, bound)
    requires PlaylistById(playlists, p).Some? ==> v !in PlaylistById(playlists, p).value.video
    ensures forall x, pv ::
      (x in PlaylistDetail(AddVideoSpec(playlists, ObjectId(p), ObjectId(v)).state, videos, users, ObjectId(p)).value
       && pv in x.playlistVideo) ==> pv.video.id != v
  {
    var r := AddVideoSpec(playlists, ObjectId(p), ObjectId(v));
    if r.reply.Err? {
      MissingPlaylistIsEmpty(playlists, videos, users, p);
    } else {
      KeyedUpdateHit(playlists, PlaylistKey, bound, p, AddVideo(v));
    }
  }

  /** After a remove, the view of that playlist no longer lists the video. */
  lemma RemovedVideoLeavesView(playlists: seq<Playlist>, bound: nat, videos: seq<Video>, users: seq<User>, p: Id, v: Id)
    requires Keyed(playlists, PlaylistKey, bound)
    ensures forall x, pv ::
      (x in PlaylistDetail(RemoveVideoSpec(playlists, ObjectId(p), ObjectId(v)).state, videos, users, ObjectId(p)).value
       && pv in x.playlistVideo) ==> pv.video.id != v
  {
    var r := RemoveVideoSpec(playlists, ObjectId(p), ObjectId(v));
    if r.reply.Err? {
      MissingPlaylistIsEmpty(playlists, videos, users, p);
    } else {
      KeyedUpdateHit(playlists, PlaylistKey, bound, p, PullVideo(v));
    }
  }

  // ----- deletePlaylist and updatePlaylist -----

  /** deletePlaylist: 404 on a malformed id; `findByIdAndDelete`, 404 when there was nothing to delete. */
  function DeletePlaylistSpec(playlists: seq<Playlist>, playlistId: IdParam): (r: Step<seq<Playlist>, ()>)
    ensures r.reply.Err? ==> r.state == playlists
    ensures !IsValidObjectId(playlistId) ==> r.reply == Err(ApiError(404, "playlist id is invalid"))
    ensures IsValidObjectId(playlistId) && PlaylistById(playlists, playlistId.id).None? ==>
      r.reply == Err(ApiError(404, "Something went wrong while deleting playlist"))
    ensures r.reply.Ok? <==> IsValidObjectId(playlistId) && PlaylistById(playlists, playlistId.id).Some?
    ensures r.reply.Ok? ==> |r.state| == |playlists| - 1
  {
    match playlistId
    case Malformed(_) => Step(Err(ApiError(404, "playlist id is invalid")), playlists)
    case ObjectId(id) =>
      IndexOfNone(playlists, HasKey(PlaylistKey, id));
      if PlaylistById(playlists, id).None? then Step(Err(ApiError(404, "Something went wrong while deleting playlist")), playlists)
      else Step(Ok(()), FindOneAndDelete(playlists, HasKey(PlaylistKey, id)))
  }

  /** The delete removes that playlist and no other. */
  lemma DeletePlaylistRemovesOnlyIt(playlists: seq<Playlist>, bound: nat, id: Id, other: Id)
    requires Keyed(playlists, PlaylistKey, bound) && other != id
    ensures PlaylistById(DeletePlaylistSpec(playlists, ObjectId(id)).state, id).None?
    ensures Find(DeletePlaylistSpec(playlists, ObjectId(id)).state, HasKey(PlaylistKey, other))
         == Find(playlists, HasKey(PlaylistKey, other))
  {
    DeleteRemovesKey(playlists, PlaylistKey, bound, id);
    DeleteLeavesOtherKeys(playlists, PlaylistKey, id, other);
  }

  /** Deleting a playlist just created gives back the playlists as they were. */
  lemma CreateThenDeleteRestores(playlists: seq<Playlist>, principal: Id, name: Option<string>, description: Option<string>, nid: Id)
    requires Keyed(playlists, PlaylistKey, nid)
    requires CreatePlaylistSpec(playlists, principal, name, description, nid).reply.Ok?
    ensures DeletePlaylistSpec(CreatePlaylistSpec(playlists, principal, name, description, nid).state, ObjectId(nid))
         == Step(Ok(()), playlists)
  {
    var p := Playlist(nid, principal, name.value, description.value, [], []);
    DeleteAppended(playlists, PlaylistKey, nid, p);
    assert PlaylistById(playlists + [p], nid).Some? by {
      assert p in playlists + [p];
    }
  }

  function SetDetails(name: string, description: string): Playlist -> Playlist
  {
    (p: Playlist) => p.(name := name, description := description)
  }

  /** updatePlaylist: the id check, then the field check (both 404), then `$set` of name and
      description; 404 when there is no such playlist. On success the handler builds its reply with
      `, json(...)` in place of `.json(...)`, so nothing is sent: the reply is the unit value. */
  function UpdatePlaylistSpec(playlists: seq<Playlist>, playlistId: IdParam, name: Option<string>, description: Option<string>)
    : (r: Step<seq<Playlist>, ()>)
    ensures r.reply.Err? ==> r.state == playlists
    ensures !IsValidObjectId(playlistId) ==> r.reply == Err(ApiError(404, "playlist id is invalid"))
    ensures IsValidObjectId(playlistId) && RequiredFields(name, description).Err? ==>
      r.reply == Err(RequiredFields(name, description).error)
    ensures IsValidObjectId(playlistId) && RequiredFields(name, description).Ok? && PlaylistById(playlists, playlistId.id).None? ==>
      r.reply == Err(ApiError(404, "Something went wrong while updating playlist"))
    ensures r.reply.Ok? <==>
      IsValidObjectId(playlistId) && RequiredFields(name, description).Ok? && PlaylistById(playlists, playlistId.id).Some?
    ensures r.reply.Ok? ==>
      && PlaylistById(r.state, playlistId.id)
         == Some(PlaylistById(playlists, playlistId.id).value.(name := name.value, description := description.value))
      && |r.state| == |playlists|
    ensures IsValidObjectId(playlistId) ==> forall other :: other != playlistId.id ==>
      Find(r.state, HasKey(PlaylistKey, other)) == Find(playlists, HasKey(PlaylistKey, other))
  {
    match playlistId
    case Malformed(_) => Step(Err(ApiError(404, "playlist id is invalid")), playlists)
    case ObjectId(id) =>
      match RequiredFields(name, description)
      case Err(e) => Step(Err(e), playlists)
      case Ok((n, d)) =>
        var s := UpdatePlaylistWith(playlists, id, SetDetails(n, d), "Something went wrong while updating playlist");
        Step(if s.reply.Ok? then Ok(()) else Err(s.reply.error), s.state)
  }

  /** Anyone may change any playlist: no handler takes the principal, and an edit with both fields
      present succeeds on every existing playlist and keeps its owner. */
  lemma AnyoneCanEditPlaylist(playlists: seq<Playlist>, id: Id, name: string, description: string)
    requires PlaylistById(playlists, id).Some? && !IsBlank(name) && !IsBlank(description)
    ensures UpdatePlaylistSpec(playlists, ObjectId(id), Some(name), Some(description)).reply.Ok?
    ensures PlaylistById(UpdatePlaylistSpec(playlists, ObjectId(id), Some(name), Some(description)).state, id).value.owner
         == PlaylistById(playlists, id).value.owner
  {
  }

  // ----- against the store -----

  method CreatePlaylist(store: Store, principal: Id, name: Option<string>, description: Option<string>) returns (r: Result<Playlist>)
    requires store.Valid()
    modifies store`playlists, store`nextId
    ensures store.Valid()
    ensures Step(r, store.playlists) == CreatePlaylistSpec(old(store.playlists), principal, name, description, old(store.nextId))
  {
    var fields := RequiredFields(name, description);
    if fields.Err? {
      return Err(fields.error);
    }
    var id := store.NewId();
    var playlist := Playlist(id, principal, fields.value.0, fields.value.1, [], []);
    KeyedAppend(store.playlists, PlaylistKey, id, playlist);
    store.playlists := store.playlists + [playlist];
    r := Ok(playlist);
  }

  /** The shared tail of the three updating handlers: find the playlist, then apply the change. */
  method UpdateStored(store: Store, id: Id, change: Playlist -> Playlist, missing: string) returns (r: Result<Playlist>)
    requires store.Valid()
    requires forall p :: PlaylistKey(change(p)) == PlaylistKey(p)
    modifies store`playlists
    ensures store.Valid()
    ensures Step(r, store.playlists) == UpdatePlaylistWith(old(store.playlists), id, change, missing)
  {
    var found := FindOne(store.playlists, HasKey(PlaylistKey, id));
    if found.None? {
      return Err(ApiError(404, missing));
    }
    KeyedUpdate(store.playlists, PlaylistKey, store.nextId, HasKey(PlaylistKey, id), change);
    store.playlists := FindOneAndUpdate(store.playlists, HasKey(PlaylistKey, id), change);
    r := Ok(change(found.value));
  }

  method AddVideoToPlaylist(store: Store, playlistId: IdParam, videoId: IdParam) returns (r: Result<Playlist>)
    requires store.Valid()
    modifies store`playlists
    ensures store.Valid()
    ensures Step(r, store.playlists) == AddVideoSpec(old(store.playlists), playlistId, videoId)
  {
    var ids := PlaylistAndVideo(playlistId, videoId);
    if ids.Err? {
      return Err(ids.error);
    }
    r := UpdateStored(store, ids.value.0, AddVideo(ids.value.1), "something went wrong while adding a video to playlist");
  }

  method RemoveVideoFromPlaylist(store: Store, playlistId: IdParam, videoId: IdParam) returns (r: Result<Playlist>)
    requires store.Valid()
    modifies store`playlists
    ensures store.Valid()
    ensures Step(r, store.playlists) == RemoveVideoSpec(old(store.playlists), playlistId, videoId)
  {
    var ids := PlaylistAndVideo(playlistId, videoId);
    if ids.Err? {
      return Err(ids.error);
    }
    r := UpdateStored(store, ids.value.0, PullVideo(ids.value.1), "something went wrong while removing a video from playlist");
  }

  method DeletePlaylist(store: Store, playlistId: IdParam) returns (r: Result<()>)
    requires store.Valid()
    modifies store`playlists
    ensures store.Valid()
    ensures Step(r, store.playlists) == DeletePlaylistSpec(old(store.playlists), playlistId)
  {
    if !IsValidObjectId(playlistId) {
      return Err(ApiError(404, "playlist id is invalid"));
    }
    var deleted := FindOne(store.playlists, HasKey(PlaylistKey, playlistId.id));
    if deleted.None? {
      return Err(ApiError(404, "Something went wrong while deleting playlist"));
    }
    KeyedDelete(store.playlists, PlaylistKey, store.nextId, HasKey(PlaylistKey, playlistId.id));
    store.playlists := FindOneAndDelete(store.playlists, HasKey(PlaylistKey, playlistId.id));
    r := Ok(());
  }

  method UpdatePlaylist(store: Store, playlistId: IdParam, name: Option<string>, description: Option<string>) returns (r: Result<()>)
    requires store.Valid()
    modifies store`playlists
    ensures store.Valid()
    ensures Step(r, store.playlists) == UpdatePlaylistSpec(old(store.playlists), playlistId, name, description)
  {
    if !IsValidObjectId(playlistId) {
      return Err(ApiError(404, "playlist id is invalid"));
    }
    var fields := RequiredFields(name, description);
    if fields.Err? {
      return Err(fields.error);
    }
    var updated := UpdateStored(store, playlistId.id, SetDetails(fields.value.0, fields.value.1), "Something went wrong while updating playlist");
    r := if updated.Ok? then Ok(()) else Err(updated.error);
  }
}
