# Youtube-Backend-Learning controllers, modelled in Dafny

This project models the request handlers of a video-sharing backend (Express + Mongoose). It covers likes, subscriptions, videos, accounts, the channel dashboard, tweets, comments and playlists. Each handler is modelled as an operation on an in-memory entity store, and the project proves what those operations guarantee.

The layers, bottom up:

- `Common` covers ids, `Result`/`Error` and the JavaScript string operations the handlers use: `trim() === ""`, ASCII `toLowerCase`, and substring search standing in for a literal case-insensitive `$regex`. `isValidObjectId` is the `IdParam` datatype: `ObjectId(id)` is a well-formed id and `Malformed(raw)` is anything else.
- `Query` holds the Mongo operators the handlers call, stated over sequences in collection order: `find`, `findOne`, `findOneAndDelete` / `findByIdAndDelete`, `findOneAndUpdate` / `findByIdAndUpdate`, `$addToSet`, `$pull`, `$skip`/`$limit` and `Math.ceil(count / limit)`. It also defines the `Keyed` invariant: ids are distinct and below the store's next id.
- `Sorting` holds the stable sort behind `.sort` and `$sort`.
- `Toggles` holds the check-then-act edge toggle shared by likes and subscriptions.
- `Entities` holds the seven document shapes and the owner projection that `$lookup` + `$first` builds.
- `Database` holds the `Store` class: one sequence field per collection, plus the id allocator.
- One module per controller file. Each state-changing handler has two parts:
  - a pure specification function `XxxSpec`, which returns the reply and the new collection;
  - a `Store` method, which performs the change in place and is proved equal to the specification.

  Read-only handlers are pure functions over the collections.

Quirks of the handlers are modelled as written, and lemmas exhibit their consequences:

- the comment and tweet unlikes pass an array to `findByIdAndDelete`;
- playlists are added to `videos` but removed from, and joined on, `video`;
- `totalLikes` counts only the channel's first video;
- the subscribed-channels list joins the subscriber instead of the channel;
- the tweet delete checks the function rather than its result;
- the registration duplicate check compares the userName as sent against names stored in lower case (under the user-schema assumptions listed under "Left out").

## Model

| member | source | states |
|---|---|---|
| Common.TrimEmptyIffBlank | src/controllers/user.controller.js:46 | `trim()` yields "" exactly when every character is JavaScript whitespace. |
| Common.RequiredText | src/controllers/tweet.controller.js:11-13 | A required text field is accepted iff it was sent and is not blank. It is returned unchanged; undefined raises a TypeError; blank raises the handler's own status and message. |
| Common.ToLower | src/controllers/user.controller.js:85 | Same length; every character is its ASCII lower-case counterpart. |
| Common.ToLowerIdempotent | src/controllers/user.controller.js:85 | Lower-casing a lower-cased name changes nothing. |
| Common.Contains | src/controllers/video.controller.js:18-20 | True iff the pattern occurs at some position of the text. |
| Query.Find | src/controllers/playlist.controller.js:45 | `find` keeps exactly the documents that match, and no more than there were. |
| Query.FindOne | src/controllers/like.controller.js:14 | `findOne` is absent iff nothing matches; otherwise it is the first match in collection order. |
| Query.FindOneAndDelete | src/controllers/video.controller.js:304 | Deletes the first match and nothing else; no match leaves the collection as it was. |
| Query.FindOneAndUpdate | src/controllers/video.controller.js:331-341 | Same length; only the first match changes, and it becomes the update applied to it. |
| Query.AddToSet | src/controllers/playlist.controller.js:130-140 | After `$addToSet` the id is held; the members are the old ones plus it; a held id leaves the array as it was. |
| Query.AddToSetOnce | src/controllers/video.controller.js:132-139 | An array holding the id at most once holds it exactly once after `$addToSet`. |
| Query.Pull | src/controllers/playlist.controller.js:164-174 | After `$pull` the id is gone, and every other member stays. |
| Query.Page | src/controllers/comment.controller.js:51-56 | `$skip: (page-1)*limit` then `$limit` is the slice at that offset: at most `limit` items, empty past the end. |
| Query.CeilDiv | src/controllers/video.controller.js:41 | `Math.ceil(count / limit)` is the least number of pages of `limit` that holds `count` items. |
| Query.PageCovers | src/controllers/video.controller.js:30-31 | Item i is on page `i / limit + 1`, which lies between 1 and the page count, at offset `i % limit`. |
| Query.LastPageSize | src/controllers/video.controller.js:41 | The last page holds `count % limit` items, or a full page when that is 0. |
| Query.UpdateLeavesOtherKeys | src/controllers/tweet.controller.js:113-123 | An update by id leaves the documents with any other id as they were. |
| Query.DeleteLeavesOtherKeys | src/controllers/tweet.controller.js:149 | A delete by id leaves the documents with any other id as they were. |
| Query.UpdateUndone | src/controllers/tweet.controller.js:113-123 | An update followed by its inverse restores the collection. |
| Query.DeleteAppended | src/controllers/comment.controller.js:82 | Deleting the document just appended under a fresh id restores the collection. |
| Query.DeleteRemovesKey | src/controllers/comment.controller.js:143-145 | With distinct ids, nothing with the deleted id remains. |
| Sorting.SortBy | src/controllers/video.controller.js:29 | The result is a permutation of the input, ordered by the key in the requested direction. |
| Sorting.SortByStable | src/controllers/tweet.controller.js:77-81 | Documents with equal keys keep their collection order. |
| Sorting.OrderedPage | src/controllers/comment.controller.js:46-56 | A page of an ordered sequence is ordered. |
| Sorting.FindSortedPage | src/controllers/video.controller.js:28-31 | The page is the slice at `(page-1)*limit` of the matches sorted by the key: at most `limit` items, all matching, in order. |
| Sorting.FindSortedPageCovers | src/controllers/video.controller.js:28-41 | Every matching document is on some page from 1 to `ceil(count / limit)`. |
| Sorting.FindSortedPagePastEnd | src/controllers/video.controller.js:28-41 | Pages past `ceil(count / limit)` are empty. |
| Toggles.Toggle | src/controllers/subscription.controller.js:18-45 | An edge is created (appended) iff none matches; otherwise a matching edge is removed, shrinking the collection by one. |
| Toggles.RemovesFirstMatch | src/controllers/like.controller.js:32 | The removal deletes the first matching edge, as `findByIdAndDelete(found._id)` does. |
| Toggles.ToggleCount | src/controllers/like.controller.js:14-40 | With at most one matching edge, a toggle flips the number of matching edges between 0 and 1. |
| Toggles.ToggleTwiceFromAbsent | src/controllers/like.controller.js:14-40 | From no edge, create then remove restores the collection. |
| Toggles.ToggleOthersUnchanged | src/controllers/like.controller.js:17-32 | Edges that cannot match the toggled pair are as they were. |
| Toggles.ToggleNeverGrowsOthers | src/controllers/like.controller.js:17-32 | No other pair gains an edge. |
| Toggles.ToggleKeyed | src/controllers/subscription.controller.js:21-37 | A toggle keeps ids distinct and below the next id. |
| Entities.UserById | src/controllers/video.controller.js:111-115 | `findById` on users finds the user with that id, or reports that none exists. |
| Entities.VideoById | src/controllers/video.controller.js:105-109 | `findById` on videos finds the video with that id, or reports that none exists. |
| Entities.TweetById | src/controllers/tweet.controller.js:107 | `findById` on tweets finds the tweet with that id, or reports that none exists. |
| Entities.CommentById | src/controllers/comment.controller.js:112 | `findById` on comments finds the comment with that id, or reports that none exists. |
| Entities.PlaylistById | src/controllers/playlist.controller.js:130 | `findById` on playlists finds the playlist with that id, or reports that none exists. |
| Entities.LookupOwner | src/controllers/video.controller.js:148-167 | The `$lookup` + `$first` owner projection is absent iff no user has the id; otherwise it projects such a user. |
| Database.Store.NewId | src/controllers/tweet.controller.js:15 | Hands out the next id and keeps every collection's ids below it. |
| LikeController.NewLike | src/models/like.model.js:6-21 | A created like matches the (likedBy, target) filter it was created for. |
| LikeController.ToggleLike | src/controllers/like.controller.js:14-40 | Liked iff the principal had no like on the target, and the new like is appended; otherwise one like is removed. |
| LikeController.ToggleVideoLikeSpec | src/controllers/like.controller.js:7-42 | A malformed id gives 400 "Video Id is invalid" with likes unchanged; a valid id always toggles. |
| LikeController.ToggleByFind | src/controllers/like.controller.js:51-77 | Liked iff `find` returned nothing; otherwise the like whose id is among those found is deleted. |
| LikeController.ToggleCommentLikeSpec | src/controllers/like.controller.js:44-80 | A malformed id gives 400 "comment Id is invalid" with likes unchanged; a valid id always toggles. |
| LikeController.ToggleTweetLikeSpec | src/controllers/like.controller.js:82-117 | A malformed id gives 400 with the message "Video Id is invalid" and likes unchanged; a valid id always toggles. |
| LikeController.ToggleByFindIsToggle | src/controllers/like.controller.js:69 | With distinct ids, deleting by the found array does what deleting the found like does. |
| LikeController.ToggleVideoLikeCount | src/controllers/like.controller.js:14-40 | With at most one like on the pair beforehand, the like exists afterwards exactly when it did not before. |
| LikeController.ToggleByFindCount | src/controllers/like.controller.js:51-77 | The same flip holds for comment and tweet likes. |
| LikeController.ToggleLikeTwiceRestores | src/controllers/like.controller.js:14-40 | Like then unlike restores the like collection exactly. |
| LikeController.ToggleByFindTwiceRestores | src/controllers/like.controller.js:51-115 | Like then unlike restores the collection for comments and tweets. |
| LikeController.ToggleLikeOtherPairs | src/controllers/like.controller.js:17-32 | No other (principal, target) pair gains a like; pairs of the same kind are left exactly as they were. |
| LikeController.ToggleKeepsAtMostOne | src/controllers/like.controller.js:14-32 | One toggle keeps at most one like per pair and keeps ids distinct. |
| LikeController.TogglesKeepAtMostOne | src/controllers/like.controller.js:14-32 | Any sequence of toggles, served one after another, keeps at most one like per pair. |
| LikeController.LikedVideos | src/controllers/like.controller.js:122-170 | The principal's liked videos in like order; specified by LikedVideosMembers (exact membership) and LikedVideosConcat (order). |
| LikeController.LikedVideosConcat | src/controllers/like.controller.js:122-170 | The liked-videos view of two runs of likes is the two views joined. |
| LikeController.LikedVideoMembers | src/controllers/like.controller.js:128-160 | One like joins to the view of the video it refers to, if that video exists. |
| LikeController.LikedVideosMembers | src/controllers/like.controller.js:122-170 | A view is listed iff the principal has a like on an existing video with that view; likes on comments, tweets or deleted videos drop out. |
| LikeController.LikeAppearsInLikedVideos | src/controllers/like.controller.js:17-21 | Liking an existing video appends its view to the principal's liked-videos list. |
| LikeController.ToggleVideoLike | src/controllers/like.controller.js:7-42 | The store's reply and likes are those of the toggle specification, and the store stays valid. |
| LikeController.ToggleCommentLike | src/controllers/like.controller.js:44-80 | The same, for comment likes. |
| LikeController.ToggleTweetLike | src/controllers/like.controller.js:82-117 | The same, for tweet likes. |
| SubscriptionController.NewSubscription | src/controllers/subscription.controller.js:21-26 | A created edge matches the (subscriber, channel) filter, under the fresh id. |
| SubscriptionController.ToggleSubscriptionSpec | src/controllers/subscription.controller.js:11-47 | A malformed id gives 404 with subscriptions unchanged. Otherwise it subscribes iff there was no edge (the edge is appended), and unsubscribes by removing one edge. |
| SubscriptionController.ToggleSubscriptionCount | src/controllers/subscription.controller.js:18-45 | The (principal, channel) edge exists afterwards exactly when it did not before. |
| SubscriptionController.ToggleSubscriptionTwiceRestores | src/controllers/subscription.controller.js:18-45 | Subscribe then unsubscribe restores the subscriptions exactly. |
| SubscriptionController.ToggleSubscriptionOthers | src/controllers/subscription.controller.js:37 | The edges of every other pair are exactly as they were. |
| SubscriptionController.SelfSubscriptionAccepted | src/controllers/subscription.controller.js:11-35 | Subscribing to one's own channel succeeds. |
| SubscriptionController.ToggleSubscription | src/controllers/subscription.controller.js:11-47 | The store's reply and subscriptions are those of the specification. |
| SubscriptionController.ChannelSubscribers | src/controllers/subscription.controller.js:50-96 | A malformed id or an empty list gives 401. Otherwise exactly the edges into the channel, one row each (as many rows as edges), each with the subscriber's projection. |
| SubscriptionController.SubscribedChannels | src/controllers/subscription.controller.js:99-146 | A malformed id gives 401. Otherwise exactly the edges out of the subscriber, one row each, each showing the subscriber's own projection as `channel`. |
| SubscriptionController.SubscribedChannelsShowSubscriber | src/controllers/subscription.controller.js:113-132 | Every row's `channel` is the subscriber's own projection, because of `localField: "subscriber"`. |
| SubscriptionController.SubscribedChannelsNamesTheWrongUser | src/controllers/subscription.controller.js:113-132 | Concrete case: user 1 follows user 2, yet the row names user 1. |
| VideoController.OwnerFilter | src/controllers/video.controller.js:24-26 | `userId` filters by owner iff it is an id; a non-empty malformed value is a CastError. |
| VideoController.GetAllVideos | src/controllers/video.controller.js:10-46 | Fails iff the owner filter fails. The page is the slice at `(page-1)*limit` of the matching videos sorted as requested: at most `limit` of them, in order. `totalCount` counts every match; `totalPages` is its ceiling over `limit`. |
| VideoController.EveryMatchIsOnSomePage | src/controllers/video.controller.js:28-41 | Every listed video is on some page between 1 and `totalPages`. |
| VideoController.NoVideosPastLastPage | src/controllers/video.controller.js:28-41 | A page past `totalPages` is empty. |
| VideoController.ViewVideoSpec | src/controllers/video.controller.js:99-177 | 400 on a malformed id, 404 for a missing video or viewer, in that order, with nothing changed. Otherwise it succeeds. |
| VideoController.ViewCountsFirstViewOnly | src/controllers/video.controller.js:117-130 | `views` rises by exactly one iff the video was not in the viewer's history; the reply shows the counted video. |
| VideoController.ViewRecordsHistory | src/controllers/video.controller.js:132-139 | The video enters the viewer's history, and nothing else about the viewer changes. |
| VideoController.ViewTwiceSameAsOnce | src/controllers/video.controller.js:117-139 | A repeat view changes nothing and gives the same reply. |
| VideoController.ViewVideoOthersUnchanged | src/controllers/video.controller.js:120-139 | Every other video and every other user is as before. |
| VideoController.ViewLeavesOneHistoryEntry | src/controllers/video.controller.js:132-139 | After a view the history holds the video exactly once. |
| VideoController.LookupIgnoresHistory | src/controllers/video.controller.js:148-167 | The owner projection does not depend on watch histories. |
| VideoController.ViewVideo | src/controllers/video.controller.js:99-177 | The store's reply, videos and users are those of the specification. |
| VideoController.OwnedVideo | src/controllers/video.controller.js:183-191 | 400 on a malformed id, TypeError for a missing video, 300 "Unauthorized Access" for a non-owner. Otherwise the owner's video. |
| VideoController.UpdateVideoSpec | src/controllers/video.controller.js:180-217 | Succeeds iff the owner check passes and both title and description are truthy (400 otherwise); then only those two fields of that video change. Errors change nothing. |
| VideoController.UpdateThumbnailSpec | src/controllers/video.controller.js:220-271 | Owner check, then 400 without a file, a TypeError for a null upload, 400 for an upload without a url, 400 for a failed old-asset delete, each with the videos unchanged. Otherwise only the thumbnail URL changes. |
| VideoController.DeleteVideoSpec | src/controllers/video.controller.js:274-314 | Owner check, then 404/400 when the file or thumbnail delete fails. Otherwise the video is removed. |
| VideoController.DeleteVideoRemovesOnlyIt | src/controllers/video.controller.js:304 | After a delete the id is gone and every other video is as before. |
| VideoController.TogglePublishSpec | src/controllers/video.controller.js:317-351 | Succeeds iff the owner check passes; then `isPublished` of that video is negated. |
| VideoController.TogglePublishTwiceRestores | src/controllers/video.controller.js:331-341 | Two toggles restore the collection. |
| VideoController.UpdateVideoLeavesOthers | src/controllers/video.controller.js:200-210 | The edit leaves every other video as before. |
| VideoController.UpdateThumbnailLeavesOthers | src/controllers/video.controller.js:254-264 | The edit leaves every other video as before. |
| VideoController.TogglePublishLeavesOthers | src/controllers/video.controller.js:331-341 | The toggle leaves every other video as before. |
| VideoController.NonOwnerChangesNothing | src/controllers/video.controller.js:187-191 | For each of the four edits, a non-owner gets 300 "Unauthorized Access" and the videos are unchanged. |
| VideoController.UpdateVideo | src/controllers/video.controller.js:180-217 | The store's reply and videos are those of the specification. |
| VideoController.UpdateThumbnail | src/controllers/video.controller.js:220-271 | The store's reply and videos are those of the specification. |
| VideoController.DeleteVideo | src/controllers/video.controller.js:274-314 | The store's reply and videos are those of the specification. |
| VideoController.TogglePublishStatus | src/controllers/video.controller.js:317-351 | The store's reply and videos are those of the specification. |
| UserController.NewUser | src/controllers/user.controller.js:79-86 | The new account has the fresh id, a lower-cased userName and an empty history. `coverImage` is "" iff no cover URL came back. |
| UserController.AvatarLocalPath | src/controllers/user.controller.js:58 | Without a files object the path is undefined; a files object without `avatar` throws a TypeError; otherwise the first entry's path. |
| UserController.RegistrationError | src/controllers/user.controller.js:45-76 | Gives 400 for a blank field, then 404 for a taken userName or email. Then a multipart request without an avatar throws a TypeError, and a request with no files at all gets 400 "Avater file is required". No error iff every check passes. |
| UserController.RegisterUserSpec | src/controllers/user.controller.js:32-100 | Errors leave users unchanged. Success appends exactly the new account and replies with it. |
| UserController.RegisterKeepsEmailsDistinct | src/controllers/user.controller.js:51-57 | Registration keeps emails distinct. |
| UserController.RegisterKeepsNamesLowerCase | src/controllers/user.controller.js:85 | Registration keeps every stored userName lower case. |
| UserController.RegisterAdmitsNameInOtherCase | src/controllers/user.controller.js:51-56 | When a differently-cased name gets through, two accounts end up with the same stored userName. |
| UserController.RegisterAliceTwice | src/controllers/user.controller.js:51-85 | Concrete case: "alice" is stored and "Alice" registers successfully. |
| UserController.RegisterUser | src/controllers/user.controller.js:32-100 | The store's reply and users are those of the specification. |
| UserController.CreateUser | src/controllers/user.controller.js:79-86 | `User.create` appends the new account under the next id. |
| UserController.UpdateAccountDetailsSpec | src/controllers/user.controller.js:245-269 | 400 iff either field is falsy, with nothing changed. Otherwise the same number of users, and a null reply iff the principal does not exist. |
| UserController.UpdateAccountDetailsSetsOnlyThem | src/controllers/user.controller.js:252-260 | Only fullName and email of the principal change; every other account is as before. |
| UserController.UpdateAccountDetails | src/controllers/user.controller.js:245-269 | The store's reply and users are those of the specification. |
| UserController.ChannelProfileOf | src/controllers/user.controller.js:357-425 | 400 for a missing or blank name, 404 when no one has the lower-cased name. Otherwise the profile of the first account with that name: its id, names, email, avatar and cover image, the subscriber count, the count of channels it follows, and `isSubscribed` iff the principal follows it. |
| UserController.EarlierAccountKeepsProfile | src/controllers/user.controller.js:417-423 | Accounts appended later never change a profile that already resolves: with a shared stored name, `channel[0]` is the earlier account. |
| UserController.SubscribeShowsInProfile | src/controllers/user.controller.js:370-400 | After subscribing, the profile shows one more subscriber and `isSubscribed`. |
| UserController.ChannelProfileDoesNotTrim | src/controllers/user.controller.js:360-368 | A name with a leading space passes the blank check yet matches no one. |
| UserController.WatchHistory | src/controllers/user.controller.js:428-475 | TypeError iff the principal does not exist. Otherwise one entry per video in the history, each with its owner projection. |
| UserController.WatchHistoryIsComplete | src/controllers/user.controller.js:436-470 | Every existing video in the history is listed. |
| UserController.ViewedVideoIsInWatchHistory | src/controllers/user.controller.js:436-470 | After a successful view, the video is in the viewer's watch history. |
| DashboardController.ChannelStats | src/controllers/dashboard.controller.js:9-73 | 404 without a principal. No owned videos gives no document. Otherwise: the number of owned videos, the sum of their views, the subscriber count, the first video's like count and the tweet count. |
| DashboardController.ChannelVideos | src/controllers/dashboard.controller.js:75-132 | 404 without a principal. Otherwise exactly one row per owned video, with its owner projection and its number of likes. |
| DashboardController.StatsAgreeWithChannelVideos | src/controllers/dashboard.controller.js:48-49 | `totalVideo` is the length of the channel-videos list, and `totalVideoViews` the sum of its views. |
| DashboardController.TotalLikesCountsFirstVideoOnly | src/controllers/dashboard.controller.js:51 | Concrete case: two videos liked once each give `totalLikes` 1. |
| DashboardController.TotalLikesIgnoresLaterVideos | src/controllers/dashboard.controller.js:51 | A like on any video but the first leaves the stats as they were. |
| DashboardController.LikeRaisesChannelVideoLikes | src/controllers/dashboard.controller.js:104-119 | Liking a video raises its row's like count by one. |
| DashboardController.SubscribeRaisesTotalSubscribers | src/controllers/dashboard.controller.js:30-35 | Subscribing raises `totalSubscribers` by one and changes no other figure. |
| DashboardController.AddViewRaisesSum | src/controllers/dashboard.controller.js:49 | `$inc` on an owned video keeps the owned list's length and first video, and raises the view sum by one. |
| DashboardController.StatsDifferInViewsOnly | src/controllers/dashboard.controller.js:45-53 | Two collections that differ only in view totals give stats that differ only in `totalVideoViews`. |
| DashboardController.CountViewRaisesTotalViews | src/controllers/dashboard.controller.js:49 | Counting a view raises the owner's `totalVideoViews` by one, and nothing else. |
| DashboardController.ViewRaisesTotalViews | src/controllers/dashboard.controller.js:49 | A first view raises the owner's `totalVideoViews` by one; a repeat view leaves it. |
| TweetController.CreateTweetSpec | src/controllers/tweet.controller.js:8-31 | 401 for blank content, with nothing changed. Otherwise the tweet, owned by the principal, is appended. |
| TweetController.UserTweets | src/controllers/tweet.controller.js:33-92 | 404 for a malformed or unknown user. Otherwise exactly that user's tweets with the owner projection, newest first. |
| TweetController.UserTweetsKeepTiesInOrder | src/controllers/tweet.controller.js:77-81 | Tweets with equal `createdAt` keep their collection order. |
| TweetController.CreatedTweetOnTimeline | src/controllers/tweet.controller.js:15-20 | A created tweet shows on its author's timeline. |
| TweetController.CreateTweetRaisesTotalTweets | src/controllers/tweet.controller.js:15-20 | A created tweet raises the author's `totalTweets` by one. |
| TweetController.OwnedTweet | src/controllers/tweet.controller.js:107-111 | TypeError for a missing tweet, 404 "unathorized access" for a non-owner. Otherwise the owner's tweet. |
| TweetController.UpdateTweetSpec | src/controllers/tweet.controller.js:94-133 | The id check, then the content check, then the owner check. On success only the content of that tweet changes. |
| TweetController.UpdateTweetLeavesOthers | src/controllers/tweet.controller.js:113-123 | The edit leaves every other tweet as before. |
| TweetController.UpdateTweetUndone | src/controllers/tweet.controller.js:113-123 | Editing back to the old content restores the collection. |
| TweetController.DeleteTweetSpec | src/controllers/tweet.controller.js:135-159 | The id check, then the owner check, then removal. The failure check never fires. |
| TweetController.DeleteTweetRemovesOnlyIt | src/controllers/tweet.controller.js:149 | The owner's delete removes that tweet and no other. |
| TweetController.CreateThenDeleteRestores | src/controllers/tweet.controller.js:15-153 | Creating a tweet and then deleting it restores the collection. |
| TweetController.NonOwnerChangesNothing | src/controllers/tweet.controller.js:103-111 | A non-owner's edit or delete is refused and nothing changes. |
| TweetController.CreateTweet | src/controllers/tweet.controller.js:8-31 | The store's reply and tweets are those of the specification. |
| TweetController.UpdateTweet | src/controllers/tweet.controller.js:94-133 | The store's reply and tweets are those of the specification. |
| TweetController.DeleteTweet | src/controllers/tweet.controller.js:135-159 | The store's reply and tweets are those of the specification. |
| CommentController.CommentPage | src/controllers/comment.controller.js:16-57 | The rows are the slice at `(page-1)*limit` of the video's comments sorted newest first, each with its owner projection: at most `limit` rows, in order. |
| CommentController.VideoComments | src/controllers/comment.controller.js:7-67 | 401 iff the id is malformed. A sent `limit` makes the aggregation fail. Otherwise the slice at `(page-1)*10` of the video's comments, newest first, page 1 by default. |
| CommentController.EveryCommentOnSomePage | src/controllers/comment.controller.js:46-56 | Every comment on the video is on some page between 1 and `ceil(count / 10)`. |
| CommentController.NoCommentsPastLastPage | src/controllers/comment.controller.js:51-56 | Pages past the last one are empty. |
| CommentController.PageIgnoresOtherVideos | src/controllers/comment.controller.js:16-21 | A comment on another video changes no page. |
| CommentController.AddCommentSpec | src/controllers/comment.controller.js:69-97 | 404 for blank content, then 401 for a malformed id, with nothing changed. Otherwise the comment is appended with owner, video and time. |
| CommentController.UpdateCommentSpec | src/controllers/comment.controller.js:99-132 | 404 for blank content, 401 for a malformed id, 404 for a missing comment. Otherwise only the content changes. |
| CommentController.UpdateCommentLeavesOthers | src/controllers/comment.controller.js:112-122 | The edit leaves every other comment as before. |
| CommentController.AnyoneCanEditComment | src/controllers/comment.controller.js:99-132 | Any principal's edit of an existing comment succeeds, and the owner is kept. |
| CommentController.DeleteCommentSpec | src/controllers/comment.controller.js:134-155 | 401 for a malformed id, 404 for a missing comment. Otherwise one comment is removed. |
| CommentController.DeleteCommentRemovesOnlyIt | src/controllers/comment.controller.js:143-145 | The delete removes that comment and no other. |
| CommentController.AddThenDeleteRestores | src/controllers/comment.controller.js:82-145 | Deleting a comment just added restores the collection. |
| CommentController.AddComment | src/controllers/comment.controller.js:69-97 | The store's reply and comments are those of the specification. |
| CommentController.UpdateComment | src/controllers/comment.controller.js:99-132 | The store's reply and comments are those of the specification. |
| CommentController.DeleteComment | src/controllers/comment.controller.js:134-155 | The store's reply and comments are those of the specification. |
| PlaylistController.RequiredFields | src/controllers/playlist.controller.js:14-16 | Accepted iff both fields are sent and not blank. An undefined name raises a TypeError before anything else; a blank name gives 404. |
| PlaylistController.BlankNameHidesMissingDescription | src/controllers/playlist.controller.js:14 | A blank name gives 404 even when the description is missing. |
| PlaylistController.CreatePlaylistSpec | src/controllers/playlist.controller.js:10-35 | Fails iff the field check fails, with nothing changed. Otherwise it appends a playlist owned by the principal, with empty video arrays. |
| PlaylistController.UserPlaylists | src/controllers/playlist.controller.js:37-56 | 401 iff the id is malformed. Otherwise exactly the playlists the user owns. |
| PlaylistController.CreatedPlaylistListed | src/controllers/playlist.controller.js:18-45 | A created playlist is among its creator's playlists. |
| PlaylistController.VideoOwner | src/controllers/playlist.controller.js:83-100 | The nested owner exists iff the user does, and never carries an avatar (the projection names `avater`). |
| PlaylistController.PlaylistDetail | src/controllers/playlist.controller.js:58-117 | 404 iff the id is malformed. Each row is the stored playlist with that id. Each joined video is a stored video listed in the playlist's `video`, with its owner. |
| PlaylistController.MissingPlaylistIsEmpty | src/controllers/playlist.controller.js:66-111 | An unknown playlist gives an empty array, not 404. |
| PlaylistController.PlaylistDetailShows | src/controllers/playlist.controller.js:66-104 | An existing playlist's view shows it, together with every stored video listed in `video`. |
| PlaylistController.PlaylistAndVideo | src/controllers/playlist.controller.js:122-128 | 404 for a malformed playlist id, then 404 for a malformed video id. |
| PlaylistController.UpdatePlaylistWith | src/controllers/playlist.controller.js:130-143 | 404 with nothing changed iff the playlist is missing. Otherwise the playlist becomes the change applied to it, and every other playlist is as before. |
| PlaylistController.AddVideoSpec | src/controllers/playlist.controller.js:119-150 | Fails on the id checks or a missing playlist, with nothing changed. Otherwise only `videos` of that playlist changes, to gain the video; the length and every other playlist stay as they were. |
| PlaylistController.RemoveVideoSpec | src/controllers/playlist.controller.js:152-185 | Fails on the id checks or a missing playlist, with nothing changed. Otherwise only `video` of that playlist changes, to lose the video; the length and every other playlist stay as they were. |
| PlaylistController.AddVideoIdempotent | src/controllers/playlist.controller.js:130-140 | Adding twice gives the same playlists and reply as adding once. |
| PlaylistController.AddVideoHoldsOnce | src/controllers/playlist.controller.js:133-135 | The added video is held exactly once. |
| PlaylistController.AddThenRemoveKeepsVideo | src/controllers/playlist.controller.js:133-168 | Removing the video just added leaves it in `videos`. |
| PlaylistController.AddedVideoNotInView | src/controllers/playlist.controller.js:75-134 | An added video does not appear among the playlist view's joined videos. |
| PlaylistController.RemovedVideoLeavesView | src/controllers/playlist.controller.js:75-168 | After a remove, the playlist view no longer lists the video. |
| PlaylistController.DeletePlaylistSpec | src/controllers/playlist.controller.js:187-203 | 404 for a malformed id or a missing playlist. Otherwise one playlist is removed. |
| PlaylistController.DeletePlaylistRemovesOnlyIt | src/controllers/playlist.controller.js:194 | The delete removes that playlist and no other. |
| PlaylistController.CreateThenDeleteRestores | src/controllers/playlist.controller.js:18-194 | Deleting a playlist just created restores the collection. |
| PlaylistController.UpdatePlaylistSpec | src/controllers/playlist.controller.js:205-239 | The id check, then the field check, then 404 for a missing playlist. Otherwise only name and description change, and every other playlist is as before. |
| PlaylistController.AnyoneCanEditPlaylist | src/controllers/playlist.controller.js:205-239 | Any edit with good fields succeeds, whoever sends it, and the owner is kept. |
| PlaylistController.CreatePlaylist | src/controllers/playlist.controller.js:10-35 | The store's reply and playlists are those of the specification. |
| PlaylistController.AddVideoToPlaylist | src/controllers/playlist.controller.js:119-150 | The store's reply and playlists are those of the specification. |
| PlaylistController.RemoveVideoFromPlaylist | src/controllers/playlist.controller.js:152-185 | The store's reply and playlists are those of the specification. |
| PlaylistController.DeletePlaylist | src/controllers/playlist.controller.js:187-203 | The store's reply and playlists are those of the specification. |
| PlaylistController.UpdatePlaylist | src/controllers/playlist.controller.js:205-239 | The store's reply and playlists are those of the specification. |

## Left out

- Authentication and session handling are not modelled, because they rely on JWT signing, bcrypt hashing and cookies from external libraries. This covers token generation, `loginUser`, `logoutUser`, `refreshAccessToken`, `changeCurrentPassword` and `getCurrentUser`. The principal is a parameter, and stored passwords are kept as sent.
- Calls to the media host (upload and delete) are foreign network calls. Their outcomes are parameters: an uploaded URL or none, and a delete that succeeded or failed. `publishVideo`, `updateUserAvatar` and `updateUserCoverImage` consist mostly of those calls and are not modelled.
- Express plumbing is not modelled: response envelopes, `asyncHandler`, multer, cookies, route wiring in src/routes/video.routes.js, and the health check's uptime and connection state. A reply is the handler's data, or an `Error` carrying its status and message.
- The null checks after `create`, `findByIdAndUpdate` and `find` guard against persistence failures. The model's store never fails, so those branches are unreachable and not modelled.
- Concurrency is not modelled. Requests are served one after another; at most one like or subscription per pair is proved only under that sequential order.
- `$regex` is modelled as a case-insensitive literal substring match. Regular-expression metacharacters and case folding beyond ASCII A–Z are not modelled.
- `page` and `limit` arrive as query strings. In getAllVideos both are coerced (by the arithmetic of `skip` and by the query's `limit`), and the model takes them as numbers at least 1 (the requires of `GetAllVideos`); a string that is not a positive number is not modelled.
- CommentController.VideoComments: `page` is coerced by the arithmetic of `$skip` and taken as a number at least 1; a sent `limit` reaches the `$limit` stage as a string, which the database refuses, so the model answers a DatabaseError for it and serves pages of the default 10 only.
- Timestamps (`createdAt`) are parameters. Video `duration` (a float) is a plain number that no handler computes with.
- The playlist and user schema files are not part of this model. The model assumes:
  - `User.create` fails with a ValidationError when a required field is missing;
  - a new playlist starts with both `videos` and `video` empty;
  - the user schema has no `lowercase` setter on `userName` or `email` (Mongoose would apply one to query filters too) and no unique index on them (which would make `User.create` or the account-details `$set` fail on a duplicate).
- UserController.RegisterAdmitsNameInOtherCase and UserController.RegisterAliceTwice hold under those schema assumptions only; with a `lowercase` setter or a unique index on `userName`, "Alice" would be refused next to "alice".
- Collection order stands in for Mongo's natural order, and the sort is stable. That order decides `$first` in the dashboard roll-up and which duplicate a lookup finds. The watch history lists videos in the order of the videos collection, not in the order of the history array.
- getVideoComments joins each comment's owner before it sorts and pages. The model projects the already sorted comments instead. The join does not touch `createdAt`, so the rows are the same.
- `updatePlaylist` calls `res.status(200), json(...)`, so no response body is sent. PlaylistController.UpdatePlaylistSpec replies with the unit value.
- `getChannelStats` answers `undefined` data when the channel has no videos. DashboardController.ChannelStats returns `None` there instead of zeros.
- `deleteVideo` does not delete the video's likes, comments or playlist entries, and neither does the model.
- VideoController.GetAllVideos: only the numeric fields `views`, `duration` and `createdAt`, or a field no document has, can be named by `sortBy`; sorting by a string, boolean or id field (title, description, owner, `_id`, `isPublished`, …) is not modelled.
- VideoController.ViewVideoSpec: the handler validates `videoId?.trim()` but queries with the untrimmed id, so a well-formed id with surrounding spaces passes the check and then fails the cast; such an id is not modelled (`IdParam` has no padded case).
- VideoController.OwnedVideo: the same untrimmed-id cast failure in updateVideo, updateThumbnail, deleteVideo and togglePublishStatus is not modelled.
- SubscriptionController.SubscribedChannels: the same untrimmed-id failure (the check trims, `new ObjectId(subscriberId)` does not) is not modelled.
- Mongo casts an array given as an `_id` to `$in`. LikeController.ToggleByFind models the array passed to `findByIdAndDelete` that way.

- LikeController.LikedVideos: this view is specified through LikedVideosMembers and LikedVideosConcat rather than its own postcondition.
