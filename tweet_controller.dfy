/** Tweets: creation, a user's timeline, and the owner-gated edit and delete
    (src/controllers/tweet.controller.js). */
module TweetController {
  import opened Common
  import opened Query
  import opened Sorting
  import opened Entities
  import opened Database
  import opened DashboardController

  // ----- createTweet -----

  /** createTweet: the content must be sent and not blank (401 otherwise); the tweet is stored as sent,
      untrimmed, with the principal as owner. `now` is the creation timestamp the store assigns. */
  function CreateTweetSpec(tweets: seq<Tweet>, principal: Id, content: Option<string>, nid: Id, now: nat)
    : (r: Step<seq<Tweet>, Tweet>)
    ensures r.reply.Err? ==> r.state == tweets
    ensures r.reply.Ok? <==> content.Some? && !IsBlank(content.value)
    ensures content.Some? && IsBlank(content.value) ==> r.reply == Err(ApiError(401, "content is required"))
    ensures r.reply.Ok? ==>
      && r.reply.value == Tweet(nid, principal, content.value, now)
      && r.state == tweets + [r.reply.value]
  {
    match RequiredText(content, 401, "content is required")
    case Err(e) => Step(Err(e), tweets)
    case Ok(c) =>
      var t := Tweet(nid, principal, c, now);
      Step(Ok(t), tweets + [t])
  }

  // ----- getUserTweets -----

  /** One timeline row: the tweet with `owner` replaced by the owner's projection. */
  datatype TweetView = TweetView(tweet: Tweet, owner: Option<OwnerView>)

  function TweetViewIn(users: seq<User>): Tweet -> TweetView
  {
    (t: Tweet) => TweetView(t, LookupOwner(users, t.owner))
  }

  function RowCreatedAt(x: TweetView): int { x.tweet.createdAt }

  /** getUserTweets: 404 on a malformed id, 404 when no user has it, otherwise the user's tweets with
      the owner joined in, newest first (`$sort` by createdAt descending, ties in collection order). */
  function UserTweets(tweets: seq<Tweet>, users: seq<User>, userId: IdParam): (r: Result<seq<TweetView>>)
    ensures !IsValidObjectId(userId) ==> r == Err(ApiError(404, "user id is invalid"))
    ensures IsValidObjectId(userId) && UserById(users, userId.id).None? ==> r == Err(ApiError(404, "User does not exist"))
    ensures r.Ok? <==> IsValidObjectId(userId) && UserById(users, userId.id).Some?
    ensures r.Ok? ==> |r.value| == |Find(tweets, TweetedBy(userId.id))|
    ensures r.Ok? ==> Ordered(r.value, RowCreatedAt, true)
    ensures r.Ok? ==> forall x :: x in r.value <==>
      exists t :: t in tweets && t.owner == userId.id && x == TweetView(t, LookupOwner(users, userId.id))
  {
    match userId
    case Malformed(_) => Err(ApiError(404, "user id is invalid"))
    case ObjectId(u) =>
      if UserById(users, u).None? then Err(ApiError(404, "User does not exist"))
      else
        var owned := Find(tweets, TweetedBy(u));
        var rows := Map(owned, TweetViewIn(users));
        var sorted := SortBy(rows, RowCreatedAt, true);
        assert |sorted| == |rows| by {
          assert |multiset(sorted)| == |multiset(rows)|;
        }
        forall x
          ensures x in sorted <==> exists t :: t in tweets && t.owner == u && x == TweetView(t, LookupOwner(users, u))
        {
          assert x in sorted <==> x in multiset(rows);
          MapMember(owned, TweetViewIn(users), x);
        }
        Ok(sorted)
  }

  /** Tweets created at the same instant keep their collection order on the timeline. */
  lemma UserTweetsKeepTiesInOrder(tweets: seq<Tweet>, users: seq<User>, userId: Id, at: nat)
    requires UserById(users, userId).Some?
    ensures Find(UserTweets(tweets, users, ObjectId(userId)).value, KeyIs(RowCreatedAt, at))
         == Find(Map(Find(tweets, TweetedBy(userId)), TweetViewIn(users)), KeyIs(RowCreatedAt, at))
  {
    SortByStable(Map(Find(tweets, TweetedBy(userId)), TweetViewIn(users)), RowCreatedAt, true, at);
  }

  /** A created tweet shows on its author's timeline, with the author's projection. */
  lemma CreatedTweetOnTimeline(tweets: seq<Tweet>, users: seq<User>, principal: Id, content: Option<string>, nid: Id, now: nat)
    requires CreateTweetSpec(tweets, principal, content, nid, now).reply.Ok?
    requires UserById(users, principal).Some?
    ensures TweetView(Tweet(nid, principal, content.value, now), LookupOwner(users, principal))
         in UserTweets(CreateTweetSpec(tweets, principal, content, nid, now).state, users, ObjectId(principal)).value
  {
    assert Tweet(nid, principal, content.value, now) in CreateTweetSpec(tweets, principal, content, nid, now).state;
  }

  /** A created tweet raises its author's `totalTweets` on the dashboard by one. */
  lemma CreateTweetRaisesTotalTweets(videos: seq<Video>, likes: seq<Like>, subs: seq<Subscription>, tweets: seq<Tweet>,
                                     principal: Id, content: Option<string>, nid: Id, now: nat)
    requires CreateTweetSpec(tweets, principal, content, nid, now).reply.Ok?
    requires ChannelStats(videos, likes, subs, tweets, Some(principal)).value.Some?
    ensures ChannelStats(videos, likes, subs, CreateTweetSpec(tweets, principal, content, nid, now).state, Some(principal))
         == Ok(Some(ChannelStats(videos, likes, subs, tweets, Some(principal)).value.value.(
              totalTweets := ChannelStats(videos, likes, subs, tweets, Some(principal)).value.value.totalTweets + 1)))
  {
    var t := Tweet(nid, principal, content.value, now);
    FindConcat(tweets, [t], TweetedBy(principal));
    FindSingleton(t, TweetedBy(principal));
  }

  // ----- updateTweet and deleteTweet -----

  function SetContent(content: string): Tweet -> Tweet
  {
    (t: Tweet) => t.(content := content)
  }

  /** The owner check shared by the edit and the delete: `findById`, then the owner comparison. A
      missing tweet makes `oldTweet.owner` a TypeError. */
  function OwnedTweet(tweets: seq<Tweet>, principal: Id, id: Id): (r: Result<Tweet>)
    ensures TweetById(tweets, id).None? ==> r.Err? && r.error.TypeError?
    ensures TweetById(tweets, id).Some? && TweetById(tweets, id).value.owner != principal ==>
      r == Err(ApiError(404, "unathorized access"))
    ensures r.Ok? <==> TweetById(tweets, id).Some? && TweetById(tweets, id).value.owner == principal
    ensures r.Ok? ==> r == Ok(TweetById(tweets, id).value)
  {
    match TweetById(tweets, id)
    case None => Err(TypeError("Cannot read properties of null (reading 'owner')"))
    case Some(t) => if t.owner != principal then Err(ApiError(404, "unathorized access")) else Ok(t)
  }

  /** updateTweet: 404 on a malformed id, then the content check (before the tweet is even read, so a
      non-owner sending blank content is told the content is required), then the owner check; the
      owner's edit sets `content` and nothing else. */
  function UpdateTweetSpec(tweets: seq<Tweet>, principal: Id, tweetId: IdParam, content: Option<string>)
    : (r: Step<seq<Tweet>, Tweet>)
    ensures r.reply.Err? ==> r.state == tweets
    ensures !IsValidObjectId(tweetId) ==> r.reply == Err(ApiError(404, "tweet id is invalid"))
    ensures IsValidObjectId(tweetId) && content.Some? && IsBlank(content.value) ==>
      r.reply == Err(ApiError(404, "Content is required"))
    ensures IsValidObjectId(tweetId) && content.Some? && !IsBlank(content.value) && OwnedTweet(tweets, principal, tweetId.id).Err? ==>
      r.reply == Err(OwnedTweet(tweets, principal, tweetId.id).error)
    ensures r.reply.Ok? <==>
      IsValidObjectId(tweetId) && content.Some? && !IsBlank(content.value) && OwnedTweet(tweets, principal, tweetId.id).Ok?
    ensures r.reply.Ok? ==>
      && r.reply.value == TweetById(tweets, tweetId.id).value.(content := content.value)
      && TweetById(r.state, tweetId.id) == Some(r.reply.value)
      && |r.state| == |tweets|
  {
    match tweetId
    case Malformed(_) => Step(Err(ApiError(404, "tweet id is invalid")), tweets)
    case ObjectId(id) =>
      match RequiredText(content, 404, "Content is required")
      case Err(e) => Step(Err(e), tweets)
      case Ok(c) =>
        match OwnedTweet(tweets, principal, id)
        case Err(e) => Step(Err(e), tweets)
        case Ok(t) =>
          UpdateByKeyKeepsFirst(tweets, TweetKey, id, SetContent(c));
          Step(Ok(t.(content := c)), FindOneAndUpdate(tweets, HasKey(TweetKey, id), SetContent(c)))
  }

  /** An edit changes no other tweet. */
  lemma UpdateTweetLeavesOthers(tweets: seq<Tweet>, principal: Id, tweetId: IdParam, content: Option<string>, other: Id)
    requires IsValidObjectId(tweetId) && other != tweetId.id
    ensures Find(UpdateTweetSpec(tweets, principal, tweetId, content).state, HasKey(TweetKey, other))
         == Find(tweets, HasKey(TweetKey, other))
  {
    if content.Some? {
      UpdateLeavesOtherKeys(tweets, TweetKey, tweetId.id, SetContent(content.value), other);
    }
  }

  /** Editing a tweet and then editing it back to its old content restores the collection. */
  lemma UpdateTweetUndone(tweets: seq<Tweet>, principal: Id, id: Id, content: string)
    requires UpdateTweetSpec(tweets, principal, ObjectId(id), Some(content)).reply.Ok?
    requires !IsBlank(TweetById(tweets, id).value.content)
    ensures UpdateTweetSpec(UpdateTweetSpec(tweets, principal, ObjectId(id), Some(content)).state,
                            principal, ObjectId(id), Some(TweetById(tweets, id).value.content)).state
         == tweets
  {
    var t := TweetById(tweets, id).value;
    var p := HasKey(TweetKey, id);
    assert p(SetContent(content)(t)) && SetContent(t.content)(SetContent(content)(t)) == t;
    UpdateUndone(tweets, p, SetContent(content), SetContent(t.content));
  }

  /** deleteTweet: 404 on a malformed id, then the owner check, then the delete. Its failure check
      tests the handler function `deleteTweet` itself, which is always truthy, so once the owner check
      passes the reply is success. */
  function DeleteTweetSpec(tweets: seq<Tweet>, principal: Id, tweetId: IdParam): (r: Step<seq<Tweet>, ()>)
    ensures r.reply.Err? ==> r.state == tweets
    ensures !IsValidObjectId(tweetId) ==> r.reply == Err(ApiError(404, "tweet id is invalid"))
    ensures IsValidObjectId(tweetId) && OwnedTweet(tweets, principal, tweetId.id).Err? ==>
      r.reply == Err(OwnedTweet(tweets, principal, tweetId.id).error)
    ensures r.reply.Ok? <==> IsValidObjectId(tweetId) && OwnedTweet(tweets, principal, tweetId.id).Ok?
    ensures r.reply.Ok? ==> |r.state| == |tweets| - 1
  {
    match tweetId
    case Malformed(_) => Step(Err(ApiError(404, "tweet id is invalid")), tweets)
    case ObjectId(id) =>
      match OwnedTweet(tweets, principal, id)
      case Err(e) => Step(Err(e), tweets)
      case Ok(_) => Step(Ok(()), FindOneAndDelete(tweets, HasKey(TweetKey, id)))
  }

  /** The owner's delete removes that tweet and no other. */
  lemma DeleteTweetRemovesOnlyIt(tweets: seq<Tweet>, bound: nat, principal: Id, id: Id, other: Id)
    requires Keyed(tweets, TweetKey, bound)
    requires DeleteTweetSpec(tweets, principal, ObjectId(id)).reply.Ok? && other != id
    ensures TweetById(DeleteTweetSpec(tweets, principal, ObjectId(id)).state, id).None?
    ensures Find(DeleteTweetSpec(tweets, principal, ObjectId(id)).state, HasKey(TweetKey, other))
         == Find(tweets, HasKey(TweetKey, other))
  {
    DeleteRemovesKey(tweets, TweetKey, bound, id);
    DeleteLeavesOtherKeys(tweets, TweetKey, id, other);
  }

  /** The author deleting a tweet just created gives back the tweets as they were. */
  lemma CreateThenDeleteRestores(tweets: seq<Tweet>, principal: Id, content: Option<string>, nid: Id, now: nat)
    requires Keyed(tweets, TweetKey, nid)
    requires CreateTweetSpec(tweets, principal, content, nid, now).reply.Ok?
    ensures DeleteTweetSpec(CreateTweetSpec(tweets, principal, content, nid, now).state, principal, ObjectId(nid))
         == Step(Ok(()), tweets)
  {
    var t := Tweet(nid, principal, content.value, now);
    DeleteAppended(tweets, TweetKey, nid, t);
    assert TweetById(tweets + [t], nid) == Some(t) by {
      assert (tweets + [t])[|tweets|] == t;
      KeyedAppend(tweets, TweetKey, nid, t);
      KeyedFirstIsOnly(tweets + [t], TweetKey, nid + 1, |tweets|);
    }
  }

  /** Neither the edit nor the delete of someone else's tweet changes anything; the edit with blank
      content is refused for the content before ownership is looked at. */
  lemma NonOwnerChangesNothing(tweets: seq<Tweet>, principal: Id, id: Id, content: string)
    requires TweetById(tweets, id).Some? && TweetById(tweets, id).value.owner != principal
    ensures UpdateTweetSpec(tweets, principal, ObjectId(id), Some(content))
         == Step(Err(if IsBlank(content) then ApiError(404, "Content is required") else ApiError(404, "unathorized access")), tweets)
    ensures DeleteTweetSpec(tweets, principal, ObjectId(id)) == Step(Err(ApiError(404, "unathorized access")), tweets)
  {
  }

  // ----- against the store -----

  method CreateTweet(store: Store, principal: Id, content: Option<string>, now: nat) returns (r: Result<Tweet>)
    requires store.Valid()
    modifies store`tweets, store`nextId
    ensures store.Valid()
    ensures Step(r, store.tweets) == CreateTweetSpec(old(store.tweets), principal, content, old(store.nextId), now)
  {
    var c := RequiredText(content, 401, "content is required");
    if c.Err? {
      return Err(c.error);
    }
    var id := store.NewId();
    var tweet := Tweet(id, principal, c.value, now);
    KeyedAppend(store.tweets, TweetKey, id, tweet);
    store.tweets := store.tweets + [tweet];
    r := Ok(tweet);
  }

  method UpdateTweet(store: Store, principal: Id, tweetId: IdParam, content: Option<string>) returns (r: Result<Tweet>)
    requires store.Valid()
    modifies store`tweets
    ensures store.Valid()
    ensures Step(r, store.tweets) == UpdateTweetSpec(old(store.tweets), principal, tweetId, content)
  {
    if !IsValidObjectId(tweetId) {
      return Err(ApiError(404, "tweet id is invalid"));
    }
    var c := RequiredText(content, 404, "Content is required");
    if c.Err? {
      return Err(c.error);
    }
    var oldTweet := OwnedTweet(store.tweets, principal, tweetId.id);
    if oldTweet.Err? {
      return Err(oldTweet.error);
    }
    var change := SetContent(c.value);
    KeyedUpdate(store.tweets, TweetKey, store.nextId, HasKey(TweetKey, tweetId.id), change);
    store.tweets := FindOneAndUpdate(store.tweets, HasKey(TweetKey, tweetId.id), change);
    r := Ok(change(oldTweet.value));
  }

  method DeleteTweet(store: Store, principal: Id, tweetId: IdParam) returns (r: Result<()>)
    requires store.Valid()
    modifies store`tweets
    ensures store.Valid()
    ensures Step(r, store.tweets) == DeleteTweetSpec(old(store.tweets), principal, tweetId)
  {
    if !IsValidObjectId(tweetId) {
      return Err(ApiError(404, "tweet id is invalid"));
    }
    var oldTweet := OwnedTweet(store.tweets, principal, tweetId.id);
    if oldTweet.Err? {
      return Err(oldTweet.error);
    }
    KeyedDelete(store.tweets, TweetKey, store.nextId, HasKey(TweetKey, tweetId.id));
    store.tweets := FindOneAndDelete(store.tweets, HasKey(TweetKey, tweetId.id));
    r := Ok(());
  }
}
