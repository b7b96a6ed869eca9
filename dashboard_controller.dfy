/** The channel dashboard: the stats roll-up and the channel's own video list
    (src/controllers/dashboard.controller.js). Both handlers only read. */
module DashboardController {
  import opened Common
  import opened Query
  import opened Entities
  import opened LikeController
  import opened SubscriptionController
  import opened VideoController

  /** `$match: { owner }` on videos. */
  function OwnedBy(owner: Id): Video -> bool
  {
    (v: Video) => v.owner == owner
  }

  /** The tweets `$lookup` joins on: `owner` equal to the video's owner. */
  function TweetedBy(owner: Id): Tweet -> bool
  {
    (t: Tweet) => t.owner == owner
  }

  /** The likes `$lookup` joins on: `video` equal to the video's id. */
  function LikesVideo(video: Id): Like -> bool
  {
    (l: Like) => l.video == Some(video)
  }

  /** `$size` of a video's likes lookup. */
  function LikeCount(likes: seq<Like>, video: Id): nat
  {
    |Find(likes, LikesVideo(video))|
  }

  /** `$sum: "$views"` over a group of videos. */
  function SumViews(vs: seq<Video>): nat
  {
    if vs == [] then 0 else vs[0].views + SumViews(vs[1..])
  }

  lemma {:induction false} SumViewsConcat(a: seq<Video>, b: seq<Video>)
    ensures SumViews(a + b) == SumViews(a) + SumViews(b)
  {
    if a == [] {
      assert a + b == b;
    } else {
      assert (a + b)[1..] == a[1..] + b;
      SumViewsConcat(a[1..], b);
    }
  }

  /** The one document the `$group` with `_id: null` produces. */
  datatype Stats = Stats(totalVideo: nat, totalVideoViews: nat, totalSubscribers: nat, totalLikes: nat, totalTweets: nat)

  /** getChannelStats: 404 without a principal. Otherwise the principal's videos are grouped into one
      document, whose three `$first` sizes are taken from the first video in collection order. With no
      videos the aggregate is empty and the reply's data is `stats[0]`, undefined: here None. The
      `!stats` check never fires, since an array is truthy. */
  function ChannelStats(videos: seq<Video>, likes: seq<Like>, subs: seq<Subscription>, tweets: seq<Tweet>, principal: Option<Id>)
    : (r: Result<Option<Stats>>)
    ensures r.Err? <==> principal.None?
    ensures r.Err? ==> r.error == ApiError(404, "Unathorized access")
    ensures r.Ok? ==> (r.value.None? <==> forall v :: v in videos ==> v.owner != principal.value)
    ensures r.Ok? && r.value.Some? ==>
      && r.value.value.totalVideo == |Find(videos, OwnedBy(principal.value))| > 0
      && r.value.value.totalSubscribers == |Find(subs, ChannelIs(principal.value))|
      && r.value.value.totalTweets == |Find(tweets, TweetedBy(principal.value))|
  {
    match principal
    case None => Err(ApiError(404, "Unathorized access"))
    case Some(p) =>
      var owned := Find(videos, OwnedBy(p));
      FindEmpty(videos, OwnedBy(p));
      if owned == [] then Ok(None)
      else
        Ok(Some(Stats(
          |owned|,
          SumViews(owned),
          |Find(subs, ChannelIs(p))|,
          LikeCount(likes, owned[0].id),
          |Find(tweets, TweetedBy(p))|)))
  }

  /** One row of getChannelVideos: the video with its owner's projection and its number of likes. */
  datatype ChannelVideo = ChannelVideo(video: Video, owner: Option<OwnerView>, likes: nat)

  function ChannelVideoIn(users: seq<User>, likes: seq<Like>): Video -> ChannelVideo
  {
    (v: Video) => ChannelVideo(v, LookupOwner(users, v.owner), LikeCount(likes, v.id))
  }

  /** getChannelVideos: 404 without a principal, otherwise one row per video the principal owns, in
      collection order (its `!videos` check never fires either). */
  function ChannelVideos(videos: seq<Video>, users: seq<User>, likes: seq<Like>, principal: Option<Id>)
    : (r: Result<seq<ChannelVideo>>)
    ensures r.Err? <==> principal.None?
    ensures r.Err? ==> r.error == ApiError(404, "Unathorized access")
    ensures r.Ok? ==> |r.value| == |Find(videos, OwnedBy(principal.value))|
    ensures r.Ok? ==> forall x :: x in r.value <==>
      exists v :: v in videos && v.owner == principal.value &&
        x == ChannelVideo(v, LookupOwner(users, v.owner), LikeCount(likes, v.id))
  {
    match principal
    case None => Err(ApiError(404, "Unathorized access"))
    case Some(p) =>
      var owned := Find(videos, OwnedBy(p));
      var rows := Map(owned, ChannelVideoIn(users, likes));
      forall x
        ensures x in rows <==>
          exists v :: v in videos && v.owner == p && x == ChannelVideo(v, LookupOwner(users, v.owner), LikeCount(likes, v.id))
      {
        MapMember(owned, ChannelVideoIn(users, likes), x);
      }
      Ok(rows)
  }

  function RowVideo(x: ChannelVideo): Video { x.video }

  /** The two handlers agree on the channel: the stats count the listed videos and sum their views, and
      `totalLikes` is the like count of the first listed video only, not the total over all of them. */
  lemma StatsAgreeWithChannelVideos(videos: seq<Video>, users: seq<User>, likes: seq<Like>, subs: seq<Subscription>,
                                    tweets: seq<Tweet>, principal: Id)
    requires ChannelStats(videos, likes, subs, tweets, Some(principal)).value.Some?
    ensures var s := ChannelStats(videos, likes, subs, tweets, Some(principal)).value.value;
            var rows := ChannelVideos(videos, users, likes, Some(principal)).value;
            && s.totalVideo == |rows| > 0
            && s.totalVideoViews == SumViews(Map(rows, RowVideo))
            && s.totalLikes == rows[0].likes
  {
    var owned := Find(videos, OwnedBy(principal));
    var rows := Map(owned, ChannelVideoIn(users, likes));
    assert Map(rows, RowVideo) == owned;
  }

  /** A concrete channel with two videos, each liked once: `totalLikes` is 1. */
  lemma TotalLikesCountsFirstVideoOnly()
    ensures var a := Video(1, 9, "", "", [], 0, 0, true, "", "", 0);
            var b := Video(2, 9, "", "", [], 0, 0, true, "", "", 0);
            var likes := [Like(3, 5, None, None, Some(1)), Like(4, 5, None, None, Some(2))];
            && LikeCount(likes, 1) + LikeCount(likes, 2) == 2
            && ChannelStats([a, b], likes, [], [], Some(9)) == Ok(Some(Stats(2, 0, 0, 1, 0)))
  {
    var a := Video(1, 9, "", "", [], 0, 0, true, "", "", 0);
    var b := Video(2, 9, "", "", [], 0, 0, true, "", "", 0);
    var la, lb := Like(3, 5, None, None, Some(1)), Like(4, 5, None, None, Some(2));
    var likes := [la, lb];
    assert [a, b][1..] == [b] && [b][1..] == [];
    assert likes[1..] == [lb] && [lb][1..] == [];
    assert Find([a, b], OwnedBy(9)) == [a, b];
    assert Find(likes, LikesVideo(1)) == [la];
    assert Find(likes, LikesVideo(2)) == [lb];
  }

  /** A like on any video other than the channel's first one leaves `totalLikes` as it was. */
  lemma TotalLikesIgnoresLaterVideos(videos: seq<Video>, likes: seq<Like>, subs: seq<Subscription>, tweets: seq<Tweet>,
                                     principal: Id, l: Like)
    requires ChannelStats(videos, likes, subs, tweets, Some(principal)).value.Some?
    requires l.video != Some(Find(videos, OwnedBy(principal))[0].id)
    ensures ChannelStats(videos, likes + [l], subs, tweets, Some(principal))
         == ChannelStats(videos, likes, subs, tweets, Some(principal))
  {
    var first := Find(videos, OwnedBy(principal))[0].id;
    FindConcat(likes, [l], LikesVideo(first));
    FindSingleton(l, LikesVideo(first));
    assert Find(likes, LikesVideo(first)) + [] == Find(likes, LikesVideo(first));
  }

  /** Liking one of the channel's videos raises that video's row in getChannelVideos by one. */
  lemma LikeRaisesChannelVideoLikes(videos: seq<Video>, users: seq<User>, likes: seq<Like>, liker: Id, v: Video, nid: Id)
    requires v in videos
    requires forall l :: l in likes ==> !LikeBy(liker, OnVideo(v.id))(l)
    ensures ChannelVideo(v, LookupOwner(users, v.owner), LikeCount(likes, v.id) + 1)
         in ChannelVideos(videos, users, ToggleVideoLikeSpec(likes, liker, ObjectId(v.id), nid).state, Some(v.owner)).value
  {
    var l := NewLike(nid, liker, OnVideo(v.id));
    assert ToggleVideoLikeSpec(likes, liker, ObjectId(v.id), nid).state == likes + [l];
    FindConcat(likes, [l], LikesVideo(v.id));
    FindSingleton(l, LikesVideo(v.id));
  }

  /** Subscribing to the channel raises `totalSubscribers` by one and changes no other figure. */
  lemma SubscribeRaisesTotalSubscribers(videos: seq<Video>, likes: seq<Like>, subs: seq<Subscription>, tweets: seq<Tweet>,
                                        subscriber: Id, channel: Id, nid: Id)
    requires ChannelStats(videos, likes, subs, tweets, Some(channel)).value.Some?
    requires forall s :: s in subs ==> !SubscriptionOf(subscriber, channel)(s)
    ensures var before := ChannelStats(videos, likes, subs, tweets, Some(channel)).value.value;
            var subs' := ToggleSubscriptionSpec(subs, subscriber, ObjectId(channel), nid).state;
            (ChannelStats(videos, likes, subs', tweets, Some(channel))
               == Ok(Some(before.(totalSubscribers := before.totalSubscribers + 1))))
  {
    var s := NewSubscription(nid, subscriber, channel);
    FindConcat(subs, [s], ChannelIs(channel));
    FindSingleton(s, ChannelIs(channel));
  }

  /** `$inc` on one of the channel's videos: the same number of videos with the same first one, and one
      more view in total. */
  lemma AddViewRaisesSum(videos: seq<Video>, id: Id, principal: Id)
    requires IndexOf(videos, HasKey(VideoKey, id)) < |videos|
    requires videos[IndexOf(videos, HasKey(VideoKey, id))].owner == principal
    ensures var owned, owned' := Find(videos, OwnedBy(principal)), Find(FindOneAndUpdate(videos, HasKey(VideoKey, id), AddView), OwnedBy(principal));
            && |owned'| == |owned| > 0
            && owned'[0].id == owned[0].id
            && SumViews(owned') == SumViews(owned) + 1
  {
    var i, r, p := IndexOf(videos, HasKey(VideoKey, id)), FindOneAndUpdate(videos, HasKey(VideoKey, id), AddView), OwnedBy(principal);
    assert r[..i] == videos[..i] && r[i + 1..] == videos[i + 1..];
    FindSplit(videos, i, p);
    FindSplit(r, i, p);
    FindSingleton(videos[i], p);
    FindSingleton(r[i], p);
    var before, after := Find(videos[..i], p), Find(videos[i + 1..], p);
    SumViewsConcat(before + [videos[i]], after);
    SumViewsConcat(before, [videos[i]]);
    SumViewsConcat(before + [r[i]], after);
    SumViewsConcat(before, [r[i]]);
    assert [videos[i]][1..] == [] && [r[i]][1..] == [];
  }

  /** The stats with `delta` more views. */
  function MoreViews(s: Stats, delta: nat): Stats
  {
    s.(totalVideoViews := s.totalVideoViews + delta)
  }

  /** Two video collections in which the principal owns as many videos, the first one the same, and
      `delta` more views in total: the stats differ in `totalVideoViews` only, by `delta`. */
  lemma StatsDifferInViewsOnly(videos: seq<Video>, videos': seq<Video>, likes: seq<Like>, subs: seq<Subscription>,
                               tweets: seq<Tweet>, principal: Id, delta: nat)
    requires Find(videos, OwnedBy(principal)) != []
    requires |Find(videos', OwnedBy(principal))| == |Find(videos, OwnedBy(principal))|
    requires Find(videos', OwnedBy(principal))[0].id == Find(videos, OwnedBy(principal))[0].id
    requires SumViews(Find(videos', OwnedBy(principal))) == SumViews(Find(videos, OwnedBy(principal))) + delta
    ensures ChannelStats(videos, likes, subs, tweets, Some(principal)).value.Some?
    ensures ChannelStats(videos', likes, subs, tweets, Some(principal))
         == Ok(Some(MoreViews(ChannelStats(videos, likes, subs, tweets, Some(principal)).value.value, delta)))
  {
  }

  /** Counting a view of a video raises its owner's `totalVideoViews` by one, and only that figure. */
  lemma CountViewRaisesTotalViews(videos: seq<Video>, likes: seq<Like>, subs: seq<Subscription>, tweets: seq<Tweet>,
                                  v: Video, history: seq<Id>)
    requires VideoById(videos, v.id) == Some(v)
    ensures ChannelStats(videos, likes, subs, tweets, Some(v.owner)).value.Some?
    ensures ChannelStats(CountView(videos, v.id, history), likes, subs, tweets, Some(v.owner))
         == Ok(Some(MoreViews(ChannelStats(videos, likes, subs, tweets, Some(v.owner)).value.value,
                              if v.id in history then 0 else 1)))
  {
    assert Find(videos, OwnedBy(v.owner)) != [] by {
      assert v in videos && OwnedBy(v.owner)(v);
    }
    if v.id !in history {
      AddViewRaisesSum(videos, v.id, v.owner);
    }
    StatsDifferInViewsOnly(videos, CountView(videos, v.id, history), likes, subs, tweets, v.owner,
      if v.id in history then 0 else 1);
  }

  /** A view that getVideobyId counts raises the owner's `totalVideoViews` by one; a repeat view by the
      same viewer changes nothing on the dashboard. */
  lemma ViewRaisesTotalViews(c: Catalog, viewer: Id, videoId: IdParam, likes: seq<Like>, subs: seq<Subscription>, tweets: seq<Tweet>)
    requires ViewVideoSpec(c, viewer, videoId).reply.Ok?
    ensures var v := VideoById(c.videos, videoId.id).value;
            var history := UserById(c.users, viewer).value.watchHistory;
            && ChannelStats(c.videos, likes, subs, tweets, Some(v.owner)).value.Some?
            && ChannelStats(ViewVideoSpec(c, viewer, videoId).state.videos, likes, subs, tweets, Some(v.owner))
               == Ok(Some(MoreViews(ChannelStats(c.videos, likes, subs, tweets, Some(v.owner)).value.value,
                                    if videoId.id in history then 0 else 1)))
  {
    var history := UserById(c.users, viewer).value.watchHistory;
    assert ViewVideoSpec(c, viewer, videoId).state.videos == CountView(c.videos, videoId.id, history);
    CountViewRaisesTotalViews(c.videos, likes, subs, tweets, VideoById(c.videos, videoId.id).value, history);
  }
}
