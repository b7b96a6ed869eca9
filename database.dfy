/** The document store the controllers share: one collection per model, each kept in insertion
    order, and the counter that hands out fresh ObjectIds. */
module Database {
  import opened Common
  import opened Query
  import opened Entities

  class Store {
    var users: seq<User>
    var videos: seq<Video>
    var comments: seq<Comment>
    var tweets: seq<Tweet>
    var playlists: seq<Playlist>
    var likes: seq<Like>
    var subscriptions: seq<Subscription>
    /** The id the next created document receives. */
    var nextId: nat

    /** Every collection has distinct ids, all below `bound`. */
    ghost predicate KeyedBelow(bound: nat)
      reads this
    {
      && Keyed(users, UserKey, bound)
      && Keyed(videos, VideoKey, bound)
      && Keyed(comments, CommentKey, bound)
      && Keyed(tweets, TweetKey, bound)
      && Keyed(playlists, PlaylistKey, bound)
      && Keyed(likes, LikeKey, bound)
      && Keyed(subscriptions, SubscriptionKey, bound)
    }

    ghost predicate Valid()
      reads this
    {
      KeyedBelow(nextId)
    }

    constructor ()
      ensures Valid()
      ensures users == [] && videos == [] && comments == [] && tweets == []
      ensures playlists == [] && likes == [] && subscriptions == [] && nextId == 0
    {
      users, videos, comments, tweets := [], [], [], [];
      playlists, likes, subscriptions := [], [], [];
      nextId := 0;
    }

    /** Store new contents for the videos and the users at once, as a view does. */
    method SetVideosAndUsers(videos': seq<Video>, users': seq<User>)
      requires Valid() && Keyed(videos', VideoKey, nextId) && Keyed(users', UserKey, nextId)
      modifies this`videos, this`users
      ensures Valid() && videos == videos' && users == users'
    {
      videos, users := videos', users';
    }

    /** A fresh ObjectId: no document of any collection carries it yet. */
    method NewId() returns (id: Id)
      requires Valid()
      modifies this`nextId
      ensures id == old(nextId) && nextId == id + 1
      ensures KeyedBelow(id) && Valid()
    {
      id := nextId;
      nextId := nextId + 1;
    }
  }
}
