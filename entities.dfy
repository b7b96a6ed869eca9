/** The documents of the seven collections, and the owner projection that the views join in. */
module Entities {
  import opened Common
  import opened Query

  /** A registered account. `watchHistory` lists the ids of the videos the user has opened. */
  datatype User = User(
    id: Id,
    userName: string,
    email: string,
    fullName: string,
    avatar: string,
    coverImage: string,
    password: string,
    watchHistory: seq<Id>)

  datatype Video = Video(
    id: Id,
    owner: Id,
    title: string,
    description: string,
    tags: seq<string>,
    duration: nat,
    views: nat,
    isPublished: bool,
    videoFile: string,
    thumbnail: string,
    createdAt: nat)

  datatype Comment = Comment(id: Id, owner: Id, video: Id, content: string, createdAt: nat)

  datatype Tweet = Tweet(id: Id, owner: Id, content: string, createdAt: nat)

  /** A playlist carries the two array fields the handlers use: `videos`, which adding writes, and
      `video`, which removing pulls from and the playlist view reads. */
  datatype Playlist = Playlist(
    id: Id,
    owner: Id,
    name: string,
    description: string,
    videos: seq<Id>,
    video: seq<Id>)

  /** A like: who liked, and the optional tweet, comment and video it is about. */
  datatype Like = Like(id: Id, likedBy: Id, tweet: Option<Id>, comment: Option<Id>, video: Option<Id>)

  /** `subscriber` follows `channel` (both are users). */
  datatype Subscription = Subscription(id: Id, subscriber: Id, channel: Id)

  function UserKey(u: User): Id { u.id }
  function VideoKey(v: Video): Id { v.id }
  function CommentKey(c: Comment): Id { c.id }
  function TweetKey(t: Tweet): Id { t.id }
  function PlaylistKey(p: Playlist): Id { p.id }
  function LikeKey(l: Like): Id { l.id }
  function SubscriptionKey(s: Subscription): Id { s.id }

  /** What `$project: { fullName: 1, userName: 1, avatar: 1 }` keeps of a user (the id always stays).
      `avatar` is None when the projection does not name an existing field. */
  datatype OwnerView = OwnerView(id: Id, userName: string, fullName: string, avatar: Option<string>)

  function Projected(u: User): OwnerView
  {
    OwnerView(u.id, u.userName, u.fullName, Some(u.avatar))
  }

  /** `findById` on the users collection. */
  function UserById(users: seq<User>, id: Id): (r: Option<User>)
    ensures r.None? <==> forall u :: u in users ==> u.id != id
    ensures r.Some? ==> r.value in users && r.value.id == id
    ensures r.Some? ==> IndexOf(users, HasKey(UserKey, id)) < |users| && r.value == users[IndexOf(users, HasKey(UserKey, id))]
  {
    forall u: User ensures HasKey(UserKey, id)(u) == (UserKey(u) == id) { }
    FindOne(users, HasKey(UserKey, id))
  }

  /** `findById` on the videos collection. */
  function VideoById(videos: seq<Video>, id: Id): (r: Option<Video>)
    ensures r.None? <==> forall v :: v in videos ==> v.id != id
    ensures r.Some? ==> r.value in videos && r.value.id == id
    ensures r.Some? ==> IndexOf(videos, HasKey(VideoKey, id)) < |videos| && r.value == videos[IndexOf(videos, HasKey(VideoKey, id))]
  {
    forall v: Video ensures HasKey(VideoKey, id)(v) == (VideoKey(v) == id) { }
    FindOne(videos, HasKey(VideoKey, id))
  }

  /** `findById` on the tweets collection. */
  function TweetById(tweets: seq<Tweet>, id: Id): (r: Option<Tweet>)
    ensures r.None? <==> forall t :: t in tweets ==> t.id != id
    ensures r.Some? ==> r.value in tweets && r.value.id == id
    ensures r.Some? ==> IndexOf(tweets, HasKey(TweetKey, id)) < |tweets| && r.value == tweets[IndexOf(tweets, HasKey(TweetKey, id))]
  {
    forall t: Tweet ensures HasKey(TweetKey, id)(t) == (TweetKey(t) == id) { }
    FindOne(tweets, HasKey(TweetKey, id))
  }

  /** `findById` on the comments collection. */
  function CommentById(comments: seq<Comment>, id: Id): (r: Option<Comment>)
    ensures r.None? <==> forall c :: c in comments ==> c.id != id
    ensures r.Some? ==> r.value in comments && r.value.id == id
    ensures r.Some? ==> IndexOf(comments, HasKey(CommentKey, id)) < |comments| && r.value == comments[IndexOf(comments, HasKey(CommentKey, id))]
  {
    forall c: Comment ensures HasKey(CommentKey, id)(c) == (CommentKey(c) == id) { }
    FindOne(comments, HasKey(CommentKey, id))
  }

  /** `findById` on the playlists collection. */
  function PlaylistById(playlists: seq<Playlist>, id: Id): (r: Option<Playlist>)
    ensures r.None? <==> forall p :: p in playlists ==> p.id != id
    ensures r.Some? ==> r.value in playlists && r.value.id == id
    ensures r.Some? ==> IndexOf(playlists, HasKey(PlaylistKey, id)) < |playlists| && r.value == playlists[IndexOf(playlists, HasKey(PlaylistKey, id))]
  {
    forall p: Playlist ensures HasKey(PlaylistKey, id)(p) == (PlaylistKey(p) == id) { }
    FindOne(playlists, HasKey(PlaylistKey, id))
  }

  /** `$lookup` from users by id followed by `$first`: the projection of the first user with that id,
      or nothing (the field is dropped) when there is none. */
  function LookupOwner(users: seq<User>, id: Id): (r: Option<OwnerView>)
    ensures r.None? <==> forall u :: u in users ==> u.id != id
    ensures r.Some? ==> r.value.id == id && exists u :: u in users && u.id == id && r.value == Projected(u)
  {
    match FindOne(users, HasKey(UserKey, id))
    case None => None
    case Some(u) => Some(Projected(u))
  }

  /** A video as the join views return it: the document with its owner projection beside it. */
  datatype VideoView = VideoView(video: Video, owner: Option<OwnerView>)

  function ViewOf(users: seq<User>, v: Video): VideoView
  {
    VideoView(v, LookupOwner(users, v.owner))
  }

  /** The per-video stage of the join, as a function to map over a list of videos. */
  function ViewIn(users: seq<User>): Video -> VideoView
  {
    v => ViewOf(users, v)
  }
}
