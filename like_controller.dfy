/** Likes on videos, comments and tweets: the three toggles and the liked-videos view
    (src/controllers/like.controller.js). */
module LikeController {
  import opened Common
  import opened Query
  import opened Entities
  import opened Database
  import opened Toggles

  /** What a like points at: exactly one of the Like record's three optional references. */
  datatype Target = OnVideo(id: Id) | OnComment(id: Id) | OnTweet(id: Id)

  /** The lookup filter `{ likedBy: principal, video | comment | tweet: id }`. */
  function LikeBy(principal: Id, t: Target): Like -> bool
  {
    (l: Like) => l.likedBy == principal &&
      match t
      case OnVideo(v) => l.video == Some(v)
      case OnComment(c) => l.comment == Some(c)
      case OnTweet(w) => l.tweet == Some(w)
  }

  /** The document `Like.create({ <target>: id, likedBy: principal })` stores. */
  function NewLike(id: Id, principal: Id, t: Target): (l: Like)
    ensures LikeBy(principal, t)(l)
  {
    match t
    case OnVideo(v) => Like(id, principal, None, None, Some(v))
    case OnComment(c) => Like(id, principal, None, Some(c), None)
    case OnTweet(w) => Like(id, principal, Some(w), None, None)
  }

  datatype LikeReply = Liked(like: Like) | Unliked

  /** The toggle as toggleVideoLike performs it: findOne, then create or delete by the found id. */
  function ToggleLike(likes: seq<Like>, principal: Id, t: Target, nid: Id): (r: Step<seq<Like>, LikeReply>)
    ensures r.reply.Ok?
    ensures r.reply.value.Liked? <==> forall l :: l in likes ==> !LikeBy(principal, t)(l)
    ensures r.reply.value.Liked? ==>
      r.reply.value.like == NewLike(nid, principal, t) && r.state == likes + [NewLike(nid, principal, t)]
    ensures r.reply.value.Unliked? ==> |r.state| == |likes| - 1
  {
    var (outcome, state) := Toggle(likes, LikeBy(principal, t), LikeKey, NewLike(nid, principal, t));
    Step(Ok(if outcome.Created? then Liked(outcome.edge) else Unliked), state)
  }

  /** toggleVideoLike: 400 on a malformed id, otherwise the toggle. */
  function ToggleVideoLikeSpec(likes: seq<Like>, principal: Id, videoId: IdParam, nid: Id): (r: Step<seq<Like>, LikeReply>)
    ensures !IsValidObjectId(videoId) ==> r == Step(Err(ApiError(400, "Video Id is invalid")), likes)
    ensures IsValidObjectId(videoId) ==> r.reply.Ok?
  {
    match videoId
    case Malformed(_) => Step(Err(ApiError(400, "Video Id is invalid")), likes)
    case ObjectId(v) => ToggleLike(likes, principal, OnVideo(v), nid)
  }

  /** The filter `findByIdAndDelete(found)` builds from the array of found likes: the array is cast to
      `$in` over the ids of its elements. */
  function IdIn(ids: seq<Id>): Like -> bool
  {
    (l: Like) => l.id in ids
  }

  /** toggleCommentLike and toggleTweetLike as written: `find` instead of `findOne`, create when the
      array is empty, otherwise hand the whole array to findByIdAndDelete. */
  function ToggleByFind(likes: seq<Like>, principal: Id, t: Target, nid: Id): (r: Step<seq<Like>, LikeReply>)
    ensures r.reply.Ok?
    ensures r.reply.value.Liked? <==> Find(likes, LikeBy(principal, t)) == []
  {
    var found := Find(likes, LikeBy(principal, t));
    if found == [] then
      Step(Ok(Liked(NewLike(nid, principal, t))), likes + [NewLike(nid, principal, t)])
    else
      Step(Ok(Unliked), FindOneAndDelete(likes, IdIn(Map(found, LikeKey))))
  }

  function ToggleCommentLikeSpec(likes: seq<Like>, principal: Id, commentId: IdParam, nid: Id): (r: Step<seq<Like>, LikeReply>)
    ensures !IsValidObjectId(commentId) ==> r == Step(Err(ApiError(400, "comment Id is invalid")), likes)
    ensures IsValidObjectId(commentId) ==> r.reply.Ok?
  {
    match commentId
    case Malformed(_) => Step(Err(ApiError(400, "comment Id is invalid")), likes)
    case ObjectId(c) => ToggleByFind(likes, principal, OnComment(c), nid)
  }

  /** toggleTweetLike; its invalid-id message says "Video". */
  function ToggleTweetLikeSpec(likes: seq<Like>, principal: Id, tweetId: IdParam, nid: Id): (r: Step<seq<Like>, LikeReply>)
    ensures !IsValidObjectId(tweetId) ==> r == Step(Err(ApiError(400, "Video Id is invalid")), likes)
    ensures IsValidObjectId(tweetId) ==> r.reply.Ok?
  {
    match tweetId
    case Malformed(_) => Step(Err(ApiError(400, "Video Id is invalid")), likes)
    case ObjectId(w) => ToggleByFind(likes, principal, OnTweet(w), nid)
  }

  /** Passing the found array to findByIdAndDelete deletes the same like that deleting by the first
      found id would: with distinct ids, a like whose id is among the found ones is a found one. */
  lemma ToggleByFindIsToggle(likes: seq<Like>, principal: Id, t: Target, nid: Id)
    requires Keyed(likes, LikeKey, nid)
    ensures ToggleByFind(likes, principal, t, nid) == ToggleLike(likes, principal, t, nid)
  {
    var p := LikeBy(principal, t);
    var found := Find(likes, p);
    FindEmpty(likes, p);
    if found != [] {
      var ids := Map(found, LikeKey);
      forall j | 0 <= j < |likes| && p(likes[j]) ensures IdIn(ids)(likes[j]) {
        assert likes[j] in found;
        MapMember(found, LikeKey, likes[j].id);
      }
      forall j | 0 <= j < |likes| && IdIn(ids)(likes[j]) ensures p(likes[j]) {
        MapMember(found, LikeKey, likes[j].id);
        var x :| x in found && likes[j].id == LikeKey(x);
        var k :| 0 <= k < |likes| && likes[k] == x;
        assert k == j;
      }
      IndexOfAgree(likes, IdIn(ids), p);
      var e := NewLike(nid, principal, t);
      RemovesFirstMatch(likes, p, LikeKey, e, nid);
    }
  }

  /** toggleVideoLike: the like for (principal, video) is created when absent and deleted when present. */
  lemma ToggleVideoLikeCount(likes: seq<Like>, principal: Id, v: Id, nid: Id)
    requires Keyed(likes, LikeKey, nid)
    requires |Find(likes, LikeBy(principal, OnVideo(v)))| <= 1
    ensures |Find(ToggleVideoLikeSpec(likes, principal, ObjectId(v), nid).state, LikeBy(principal, OnVideo(v)))|
         == 1 - |Find(likes, LikeBy(principal, OnVideo(v)))|
  {
    ToggleCount(likes, LikeBy(principal, OnVideo(v)), LikeKey, NewLike(nid, principal, OnVideo(v)), nid);
  }

  /** The same count flip for comment and tweet likes, despite their as-written delete. */
  lemma ToggleByFindCount(likes: seq<Like>, principal: Id, t: Target, nid: Id)
    requires Keyed(likes, LikeKey, nid)
    requires |Find(likes, LikeBy(principal, t))| <= 1
    ensures |Find(ToggleByFind(likes, principal, t, nid).state, LikeBy(principal, t))| == 1 - |Find(likes, LikeBy(principal, t))|
  {
    ToggleByFindIsToggle(likes, principal, t, nid);
    ToggleCount(likes, LikeBy(principal, t), LikeKey, NewLike(nid, principal, t), nid);
  }

  /** Liking and then unliking gives back exactly the original likes. */
  lemma ToggleLikeTwiceRestores(likes: seq<Like>, principal: Id, t: Target, nid: Id, nid': Id)
    requires Keyed(likes, LikeKey, nid)
    requires forall l :: l in likes ==> !LikeBy(principal, t)(l)
    ensures ToggleLike(likes, principal, t, nid).reply == Ok(Liked(NewLike(nid, principal, t)))
    ensures ToggleLike(ToggleLike(likes, principal, t, nid).state, principal, t, nid') == Step(Ok(Unliked), likes)
  {
    ToggleTwiceFromAbsent(likes, LikeBy(principal, t), LikeKey, NewLike(nid, principal, t), NewLike(nid', principal, t), nid);
  }

  /** The same round trip for toggleCommentLike and toggleTweetLike. */
  lemma ToggleByFindTwiceRestores(likes: seq<Like>, principal: Id, t: Target, nid: Id)
    requires Keyed(likes, LikeKey, nid)
    requires forall l :: l in likes ==> !LikeBy(principal, t)(l)
    ensures ToggleByFind(ToggleByFind(likes, principal, t, nid).state, principal, t, nid + 1) == Step(Ok(Unliked), likes)
  {
    ToggleByFindIsToggle(likes, principal, t, nid);
    ToggleLikeTwiceRestores(likes, principal, t, nid, nid + 1);
    var after := ToggleLike(likes, principal, t, nid).state;
    KeyedAppend(likes, LikeKey, nid, NewLike(nid, principal, t));
    ToggleByFindIsToggle(after, principal, t, nid + 1);
  }

  /** A toggle leaves the likes of every other (principal, target) pair of the same kind as they were,
      and never adds a like for a pair of another kind. */
  lemma ToggleLikeOtherPairs(likes: seq<Like>, principal: Id, t: Target, nid: Id, principal': Id, t': Target)
    requires Keyed(likes, LikeKey, nid)
    requires (principal', t') != (principal, t)
    ensures |Find(ToggleLike(likes, principal, t, nid).state, LikeBy(principal', t'))| <= |Find(likes, LikeBy(principal', t'))|
    ensures t'.OnVideo? == t.OnVideo? && t'.OnComment? == t.OnComment? ==>
      Find(ToggleLike(likes, principal, t, nid).state, LikeBy(principal', t')) == Find(likes, LikeBy(principal', t'))
  {
    var p, q, e := LikeBy(principal, t), LikeBy(principal', t'), NewLike(nid, principal, t);
    ToggleNeverGrowsOthers(likes, p, LikeKey, e, nid, q);
    if t'.OnVideo? == t.OnVideo? && t'.OnComment? == t.OnComment? {
      ToggleOthersUnchanged(likes, p, LikeKey, e, nid, q);
    }
  }

  /** At most one like per (principal, target) pair. */
  ghost predicate AtMostOnePerPair(likes: seq<Like>)
  {
    forall principal: Id, t: Target :: |Find(likes, LikeBy(principal, t))| <= 1
  }

  lemma ToggleKeepsAtMostOne(likes: seq<Like>, principal: Id, t: Target, nid: Id)
    requires Keyed(likes, LikeKey, nid) && AtMostOnePerPair(likes)
    ensures Keyed(ToggleLike(likes, principal, t, nid).state, LikeKey, nid + 1)
    ensures AtMostOnePerPair(ToggleLike(likes, principal, t, nid).state)
  {
    var e := NewLike(nid, principal, t);
    ToggleKeyed(likes, LikeBy(principal, t), LikeKey, e, nid);
    forall principal': Id, t': Target ensures |Find(ToggleLike(likes, principal, t, nid).state, LikeBy(principal', t'))| <= 1 {
      if (principal', t') == (principal, t) {
        ToggleCount(likes, LikeBy(principal, t), LikeKey, e, nid);
      } else {
        ToggleLikeOtherPairs(likes, principal, t, nid, principal', t');
      }
    }
  }

  /** A run of toggle requests (principal, target), served one after another with increasing ids. */
  function ApplyToggles(likes: seq<Like>, requests: seq<(Id, Target)>, nid: Id): seq<Like>
    decreases |requests|
  {
    if requests == [] then likes
    else ApplyToggles(ToggleLike(likes, requests[0].0, requests[0].1, nid).state, requests[1..], nid + 1)
  }

  /** Served sequentially, toggles never produce a second like for the same pair. */
  lemma {:induction false} TogglesKeepAtMostOne(likes: seq<Like>, requests: seq<(Id, Target)>, nid: Id)
    requires Keyed(likes, LikeKey, nid) && AtMostOnePerPair(likes)
    ensures AtMostOnePerPair(ApplyToggles(likes, requests, nid))
    decreases |requests|
  {
    if requests != [] {
      ToggleKeepsAtMostOne(likes, requests[0].0, requests[0].1, nid);
      TogglesKeepAtMostOne(ToggleLike(likes, requests[0].0, requests[0].1, nid).state, requests[1..], nid + 1);
    }
  }

  /** The videos a like refers to: `$lookup` from videos on the like's `video`, then one view each. */
  function LikedVideo(videos: seq<Video>, users: seq<User>, ref: Option<Id>): seq<VideoView>
  {
    match ref
    case None => []
    case Some(v) => Map(Find(videos, HasKey(VideoKey, v)), ViewIn(users))
  }

  /** getLikedVideos: the principal's likes in collection order, each replaced by the video it refers to;
      `$unwind` drops the likes whose lookup is empty. */
  function LikedVideos(likes: seq<Like>, videos: seq<Video>, users: seq<User>, principal: Id): (r: seq<VideoView>)
  {
    if likes == [] then []
    else
      (if likes[0].likedBy == principal then LikedVideo(videos, users, likes[0].video) else [])
      + LikedVideos(likes[1..], videos, users, principal)
  }

  lemma {:induction false} LikedVideosConcat(a: seq<Like>, b: seq<Like>, videos: seq<Video>, users: seq<User>, principal: Id)
    ensures LikedVideos(a + b, videos, users, principal) == LikedVideos(a, videos, users, principal) + LikedVideos(b, videos, users, principal)
  {
    if a == [] {
      assert a + b == b;
    } else {
      assert (a + b)[0] == a[0];
      assert (a + b)[1..] == a[1..] + b;
      LikedVideosConcat(a[1..], b, videos, users, principal);
    }
  }

  /** The lookup of one like yields the view of the video it refers to, if that video exists. */
  lemma LikedVideoMembers(videos: seq<Video>, users: seq<User>, ref: Option<Id>, x: VideoView)
    ensures x in LikedVideo(videos, users, ref) <==> exists v :: v in videos && ref == Some(v.id) && x == ViewOf(users, v)
  {
    if ref.Some? {
      var p := HasKey(VideoKey, ref.value);
      var found := Find(videos, p);
      MapMember(found, ViewIn(users), x);
      if x in Map(found, ViewIn(users)) {
        var y :| y in found && x == ViewIn(users)(y);
        assert p(y);
        assert VideoKey(y) == ref.value;
        assert y in videos && ref == Some(y.id) && x == ViewOf(users, y);
      }
      if exists v :: v in videos && ref == Some(v.id) && x == ViewOf(users, v) {
        var v :| v in videos && ref == Some(v.id) && x == ViewOf(users, v);
        assert VideoKey(v) == ref.value;
        assert p(v);
        assert v in found;
        assert x == ViewIn(users)(v);
      }
    }
  }

  /** A view is in the liked-videos list exactly when the principal has a like on an existing video
      and the view is that video's. Likes on comments or tweets contribute nothing. */
  lemma {:induction false} LikedVideosMembers(likes: seq<Like>, videos: seq<Video>, users: seq<User>, principal: Id, x: VideoView)
    ensures x in LikedVideos(likes, videos, users, principal) <==>
      exists l, v :: l in likes && v in videos && l.likedBy == principal && l.video == Some(v.id) && x == ViewOf(users, v)
  {
    if likes != [] {
      var l := likes[0];
      LikedVideosMembers(likes[1..], videos, users, principal, x);
      LikedVideoMembers(videos, users, l.video, x);
      if exists l', v :: l' in likes && v in videos && l'.likedBy == principal && l'.video == Some(v.id) && x == ViewOf(users, v) {
        var l', v :| l' in likes && v in videos && l'.likedBy == principal && l'.video == Some(v.id) && x == ViewOf(users, v);
        if l' != l {
          assert l' in likes[1..];
        }
      }
      if x in LikedVideos(likes, videos, users, principal) && l.likedBy == principal && x in LikedVideo(videos, users, l.video) {
        assert l in likes;
      }
    }
  }

  /** Liking an existing video appends its view to the principal's liked-videos list. */
  lemma LikeAppearsInLikedVideos(likes: seq<Like>, videos: seq<Video>, users: seq<User>, principal: Id, v: Id, nid: Id)
    requires Keyed(videos, VideoKey, nid)
    requires forall l :: l in likes ==> !LikeBy(principal, OnVideo(v))(l)
    ensures LikedVideos(ToggleLike(likes, principal, OnVideo(v), nid).state, videos, users, principal)
         == LikedVideos(likes, videos, users, principal) + Map(Find(videos, HasKey(VideoKey, v)), ViewIn(users))
  {
    var l := NewLike(nid, principal, OnVideo(v));
    LikedVideosConcat(likes, [l], videos, users, principal);
    assert [l][1..] == [];
  }

  /** toggleVideoLike against the store. */
  method ToggleVideoLike(store: Store, principal: Id, videoId: IdParam) returns (r: Result<LikeReply>)
    requires store.Valid()
    modifies store`likes, store`nextId
    ensures store.Valid()
    ensures Step(r, store.likes) == ToggleVideoLikeSpec(old(store.likes), principal, videoId, old(store.nextId))
  {
    if !IsValidObjectId(videoId) {
      return Err(ApiError(400, "Video Id is invalid"));
    }
    var t := OnVideo(videoId.id);
    var like := FindOne(store.likes, LikeBy(principal, t));
    if like.None? {
      var id := store.NewId();
      var created := NewLike(id, principal, t);
      KeyedAppend(store.likes, LikeKey, id, created);
      store.likes := store.likes + [created];
      return Ok(Liked(created));
    }
    KeyedDelete(store.likes, LikeKey, store.nextId, HasKey(LikeKey, like.value.id));
    store.likes := FindOneAndDelete(store.likes, HasKey(LikeKey, like.value.id));
    r := Ok(Unliked);
  }

  /** The shared body of toggleCommentLike and toggleTweetLike against the store. */
  method ToggleLikeByFind(store: Store, principal: Id, t: Target) returns (r: Result<LikeReply>)
    requires store.Valid()
    modifies store`likes, store`nextId
    ensures store.Valid()
    ensures Step(r, store.likes) == ToggleByFind(old(store.likes), principal, t, old(store.nextId))
  {
    var found := Find(store.likes, LikeBy(principal, t));
    if |found| == 0 {
      var id := store.NewId();
      var created := NewLike(id, principal, t);
      KeyedAppend(store.likes, LikeKey, id, created);
      store.likes := store.likes + [created];
      return Ok(Liked(created));
    }
    var ids := Map(found, LikeKey);
    KeyedDelete(store.likes, LikeKey, store.nextId, IdIn(ids));
    store.likes := FindOneAndDelete(store.likes, IdIn(ids));
    r := Ok(Unliked);
  }

  method ToggleCommentLike(store: Store, principal: Id, commentId: IdParam) returns (r: Result<LikeReply>)
    requires store.Valid()
    modifies store`likes, store`nextId
    ensures store.Valid()
    ensures Step(r, store.likes) == ToggleCommentLikeSpec(old(store.likes), principal, commentId, old(store.nextId))
  {
    if !IsValidObjectId(commentId) {
      return Err(ApiError(400, "comment Id is invalid"));
    }
    r := ToggleLikeByFind(store, principal, OnComment(commentId.id));
  }

  method ToggleTweetLike(store: Store, principal: Id, tweetId: IdParam) returns (r: Result<LikeReply>)
    requires store.Valid()
    modifies store`likes, store`nextId
    ensures store.Valid()
    ensures Step(r, store.likes) == ToggleTweetLikeSpec(old(store.likes), principal, tweetId, old(store.nextId))
  {
    if !IsValidObjectId(tweetId) {
      return Err(ApiError(400, "Video Id is invalid"));
    }
    r := ToggleLikeByFind(store, principal, OnTweet(tweetId.id));
  }
}
