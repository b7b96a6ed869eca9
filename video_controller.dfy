/** Videos (src/controllers/video.controller.js): the filtered, sorted and paged listing, the view
    counter with its watch-history side effect, and the four edits only a video's owner may make. */
module VideoController {
  import opened Common
  import opened Query
  import opened Sorting
  import opened Entities
  import opened Database

  // ----- getAllVideos -----

  /** The numeric fields `sortBy` may name, and `Unsorted`: a field no document has (an absent `sortBy`
      becomes the field "undefined"), under which every document has the same missing key, so
      collection order is kept. */
  datatype SortField = Views | Duration | CreatedAt | Unsorted

  function SortKey(field: SortField): Video -> int
  {
    match field
    case Views => (v: Video) => v.views
    case Duration => (v: Video) => v.duration
    case CreatedAt => (v: Video) => v.createdAt
    case Unsorted => (v: Video) => 0
  }

  /** `sortType === 'asc' ? 1 : -1`: everything but the exact string "asc" sorts descending. */
  predicate Descending(sortType: Option<string>)
  {
    sortType != Some("asc")
  }

  /** The query string of the listing; None is a parameter that was not sent. */
  datatype ListRequest = ListRequest(
    page: Option<nat>,
    limit: Option<nat>,
    query: Option<string>,
    sortBy: SortField,
    sortType: Option<string>,
    userId: Option<IdParam>)

  /** Page and limit as sent must be positive numbers. */
  predicate WellFormed(req: ListRequest)
  {
    && (req.page.Some? ==> req.page.value >= 1)
    && (req.limit.Some? ==> req.limit.value >= 1)
  }

  /** `page = 1` */
  function PageNumber(req: ListRequest): nat
  {
    if req.page.Some? then req.page.value else 1
  }

  /** `limit = 10` */
  function PageSize(req: ListRequest): nat
  {
    if req.limit.Some? then req.limit.value else 10
  }

  /** `filter.owner = userId` when userId is truthy. A truthy id that is not an ObjectId cannot be cast
      for the comparison with `owner`. */
  function OwnerFilter(userId: Option<IdParam>): (r: Result<Option<Id>>)
    ensures r.Err? <==> userId.Some? && userId.value.Malformed? && userId.value.raw != ""
    ensures r.Err? ==> r.error.CastError?
    ensures r.Ok? && r.value.Some? <==> userId.Some? && userId.value.ObjectId?
    ensures r.Ok? && r.value.Some? ==> r.value.value == userId.value.id
  {
    match userId
    case None => Ok(None)
    case Some(ObjectId(id)) => Ok(Some(id))
    case Some(Malformed(raw)) =>
      if raw == "" then Ok(None) else Err(CastError("Cast to ObjectId failed for value \"" + raw + "\" at path \"owner\""))
  }

  /** The `$or` of three case-insensitive regex matches; on the `tags` array a match of any one tag counts. */
  predicate MatchesQuery(v: Video, pattern: string)
  {
    || MatchesIgnoringCase(v.title, pattern)
    || MatchesIgnoringCase(v.description, pattern)
    || exists tag :: tag in v.tags && MatchesIgnoringCase(tag, pattern)
  }

  /** Whether a video passes the listing's filter. Unpublished videos are listed too. */
  predicate Listed(query: Option<string>, owner: Option<Id>, v: Video)
  {
    && (Truthy(query) ==> MatchesQuery(v, query.value))
    && (owner.Some? ==> v.owner == owner.value)
  }

  function ListFilter(query: Option<string>, owner: Option<Id>): Video -> bool
  {
    (v: Video) => Listed(query, owner, v)
  }

  datatype VideoPage = VideoPage(videos: seq<Video>, currentPage: nat, totalPages: nat, totalCount: nat)

  /** getAllVideos: the requested page of the matching videos in the requested order, with the number
      of matches and of pages. */
  function GetAllVideos(videos: seq<Video>, req: ListRequest): (r: Result<VideoPage>)
    requires WellFormed(req)
    ensures r.Err? <==> OwnerFilter(req.userId).Err?
    ensures r.Err? ==> r.error == OwnerFilter(req.userId).error
    ensures r.Ok? ==> r.value.currentPage == PageNumber(req) && |r.value.videos| <= PageSize(req)
    ensures r.Ok? ==> forall v :: v in r.value.videos ==>
      v in videos && Listed(req.query, OwnerFilter(req.userId).value, v)
    ensures r.Ok? ==> Ordered(r.value.videos, SortKey(req.sortBy), Descending(req.sortType))
    ensures r.Ok? ==> r.value.totalCount == |Find(videos, ListFilter(req.query, OwnerFilter(req.userId).value))|
    ensures r.Ok? ==> r.value.totalPages == CeilDiv(r.value.totalCount, PageSize(req))
    ensures r.Ok? ==> r.value.videos == Page(SortBy(Find(videos, ListFilter(req.query, OwnerFilter(req.userId).value)),
      SortKey(req.sortBy), Descending(req.sortType)), PageNumber(req), PageSize(req))
  {
    match OwnerFilter(req.userId)
    case Err(e) => Err(e)
    case Ok(owner) =>
      var filter := ListFilter(req.query, owner);
      var count := |Find(videos, filter)|;
      var shown := FindSortedPage(videos, filter, SortKey(req.sortBy), Descending(req.sortType), PageNumber(req), PageSize(req));
      Ok(VideoPage(shown, PageNumber(req), CeilDiv(count, PageSize(req)), count))
  }

  /** Every matching video is on one of the pages 1 to totalPages. */
  lemma EveryMatchIsOnSomePage(videos: seq<Video>, req: ListRequest, v: Video)
    requires WellFormed(req) && GetAllVideos(videos, req).Ok?
    requires v in videos && Listed(req.query, OwnerFilter(req.userId).value, v)
    ensures exists page: nat :: (1 <= page <= GetAllVideos(videos, req).value.totalPages &&
                                 v in GetAllVideos(videos, req.(page := Some(page))).value.videos)
  {
    var filter := ListFilter(req.query, OwnerFilter(req.userId).value);
    var key, descending, limit := SortKey(req.sortBy), Descending(req.sortType), PageSize(req);
    FindSortedPageCovers(videos, filter, key, descending, limit, v);
    var page: nat :| 1 <= page <= CeilDiv(|Find(videos, filter)|, limit) && v in FindSortedPage(videos, filter, key, descending, page, limit);
    assert GetAllVideos(videos, req.(page := Some(page))).value.videos == FindSortedPage(videos, filter, key, descending, page, limit);
  }

  /** Pages past the last one are empty. */
  lemma NoVideosPastLastPage(videos: seq<Video>, req: ListRequest)
    requires WellFormed(req) && GetAllVideos(videos, req).Ok?
    requires PageNumber(req) > GetAllVideos(videos, req).value.totalPages
    ensures GetAllVideos(videos, req).value.videos == []
  {
    var filter := ListFilter(req.query, OwnerFilter(req.userId).value);
    FindSortedPagePastEnd(videos, filter, SortKey(req.sortBy), Descending(req.sortType), PageNumber(req), PageSize(req));
  }

  // ----- getVideobyId -----

  /** The two collections a view touches. */
  datatype Catalog = Catalog(videos: seq<Video>, users: seq<User>)

  /** `$inc: { views: 1 }` */
  function AddView(v: Video): Video
  {
    v.(views := v.views + 1)
  }

  /** `$addToSet: { watchHistory: videoId }` */
  function Watch(videoId: Id): User -> User
  {
    (u: User) => u.(watchHistory := AddToSet(u.watchHistory, videoId))
  }

  /** The `$inc` runs only for a video the viewer has not watched before. */
  function CountView(videos: seq<Video>, id: Id, history: seq<Id>): seq<Video>
  {
    if id in history then videos else FindOneAndUpdate(videos, HasKey(VideoKey, id), AddView)
  }

  /** getVideobyId: the id must be well formed and name a video, and the viewer must exist; then the
      view is counted, the video goes into the viewer's history, and the reply is the video as updated
      with its owner's projection. */
  function ViewVideoSpec(c: Catalog, principal: Id, videoId: IdParam): (r: Step<Catalog, VideoView>)
    ensures !IsValidObjectId(videoId) ==> r == Step(Err(ApiError(400, "VideoId is missing")), c)
    ensures IsValidObjectId(videoId) && VideoById(c.videos, videoId.id).None? ==>
      r == Step(Err(ApiError(404, "Video does not exist")), c)
    ensures IsValidObjectId(videoId) && VideoById(c.videos, videoId.id).Some? && UserById(c.users, principal).None? ==>
      r == Step(Err(ApiError(404, "User does not exist")), c)
    ensures r.reply.Ok? <==>
      IsValidObjectId(videoId) && VideoById(c.videos, videoId.id).Some? && UserById(c.users, principal).Some?
  {
    match videoId
    case Malformed(_) => Step(Err(ApiError(400, "VideoId is missing")), c)
    case ObjectId(id) =>
      if VideoById(c.videos, id).None? then Step(Err(ApiError(404, "Video does not exist")), c)
      else if UserById(c.users, principal).None? then Step(Err(ApiError(404, "User does not exist")), c)
      else
        var videos := CountView(c.videos, id, UserById(c.users, principal).value.watchHistory);
        var users := FindOneAndUpdate(c.users, HasKey(UserKey, principal), Watch(id));
        Step(Ok(ViewOf(users, VideoById(videos, id).value)), Catalog(videos, users))
  }

  /** A view adds one to `views` exactly when the video was not yet in the viewer's history; the reply
      shows the video as it now is, with its owner's projection. */
  lemma ViewCountsFirstViewOnly(c: Catalog, principal: Id, videoId: IdParam)
    requires ViewVideoSpec(c, principal, videoId).reply.Ok?
    ensures var v, u := VideoById(c.videos, videoId.id).value, UserById(c.users, principal).value;
            var r := ViewVideoSpec(c, principal, videoId);
            && r.reply.value.video == v.(views := if videoId.id in u.watchHistory then v.views else v.views + 1)
            && r.reply.value.owner == LookupOwner(c.users, v.owner)
            && VideoById(r.state.videos, videoId.id) == Some(r.reply.value.video)
            && |r.state.videos| == |c.videos|
  {
    var id := videoId.id;
    UpdateByKeyKeepsFirst(c.videos, VideoKey, id, AddView);
    LookupIgnoresHistory(c.users, HasKey(UserKey, principal), Watch(id), VideoById(c.videos, id).value.owner);
  }

  /** A view puts the video into the viewer's history, and changes nothing else about the viewer. */
  lemma ViewRecordsHistory(c: Catalog, principal: Id, videoId: IdParam)
    requires ViewVideoSpec(c, principal, videoId).reply.Ok?
    ensures var u := UserById(c.users, principal).value;
            var r := ViewVideoSpec(c, principal, videoId);
            && UserById(r.state.users, principal) == Some(u.(watchHistory := AddToSet(u.watchHistory, videoId.id)))
            && |r.state.users| == |c.users|
  {
    UpdateByKeyKeepsFirst(c.users, UserKey, principal, Watch(videoId.id));
  }

  /** The owner join reads only the projected fields, which the history update does not touch. */
  lemma LookupIgnoresHistory(users: seq<User>, p: User -> bool, f: User -> User, id: Id)
    requires forall u :: f(u).id == u.id && Projected(f(u)) == Projected(u)
    ensures LookupOwner(FindOneAndUpdate(users, p, f), id) == LookupOwner(users, id)
  {
    var r := FindOneAndUpdate(users, p, f);
    var q := HasKey(UserKey, id);
    forall j | 0 <= j < |users| ensures r[j].id == users[j].id && Projected(r[j]) == Projected(users[j]) {
      if j == IndexOf(users, p) {
        assert r[j] == f(users[j]);
      } else {
        assert r[j] == users[j];
      }
    }
    assert forall u: User :: q(u) <==> u.id == id;
    var i := IndexOf(users, q);
    IndexOfIs(r, q, i);
    IndexOfNone(users, q);
    IndexOfNone(r, q);
  }

  /** A second view by the same user changes nothing and answers as the first did. */
  lemma ViewTwiceSameAsOnce(c: Catalog, principal: Id, videoId: IdParam)
    requires ViewVideoSpec(c, principal, videoId).reply.Ok?
    ensures ViewVideoSpec(ViewVideoSpec(c, principal, videoId).state, principal, videoId)
         == ViewVideoSpec(c, principal, videoId)
  {
    var id := videoId.id;
    ViewRecordsHistory(c, principal, videoId);
    ViewCountsFirstViewOnly(c, principal, videoId);
    var first := ViewVideoSpec(c, principal, videoId);
    var c' := first.state;
    var u' := UserById(c'.users, principal).value;
    assert id in u'.watchHistory;
    UpdateFixed(c'.users, HasKey(UserKey, principal), Watch(id));
    ViewVideoSpecOk(c', principal, id, u');
  }

  /** A view leaves every other video and every other user as they were. */
  lemma ViewVideoOthersUnchanged(c: Catalog, principal: Id, videoId: IdParam, otherVideo: Id, otherUser: Id)
    requires IsValidObjectId(videoId) && otherVideo != videoId.id && otherUser != principal
    ensures Find(ViewVideoSpec(c, principal, videoId).state.videos, HasKey(VideoKey, otherVideo))
         == Find(c.videos, HasKey(VideoKey, otherVideo))
    ensures Find(ViewVideoSpec(c, principal, videoId).state.users, HasKey(UserKey, otherUser))
         == Find(c.users, HasKey(UserKey, otherUser))
  {
    UpdateLeavesOtherKeys(c.videos, VideoKey, videoId.id, AddView, otherVideo);
    UpdateLeavesOtherKeys(c.users, UserKey, principal, Watch(videoId.id), otherUser);
  }

  /** After any view the video is in the viewer's history exactly once, when it was there at most once. */
  lemma ViewLeavesOneHistoryEntry(c: Catalog, principal: Id, videoId: IdParam)
    requires ViewVideoSpec(c, principal, videoId).reply.Ok?
    requires Occurrences(UserById(c.users, principal).value.watchHistory, videoId.id) <= 1
    ensures Occurrences(UserById(ViewVideoSpec(c, principal, videoId).state.users, principal).value.watchHistory, videoId.id) == 1
  {
    ViewRecordsHistory(c, principal, videoId);
    AddToSetOnce(UserById(c.users, principal).value.watchHistory, videoId.id);
  }

  /** Counting a view keeps ids distinct and below the bound, and keeps the video findable. */
  lemma CountViewKeyed(videos: seq<Video>, id: Id, history: seq<Id>, bound: nat)
    requires Keyed(videos, VideoKey, bound) && VideoById(videos, id).Some?
    ensures Keyed(CountView(videos, id, history), VideoKey, bound)
    ensures VideoById(CountView(videos, id, history), id).Some?
  {
    KeyedUpdate(videos, VideoKey, bound, HasKey(VideoKey, id), AddView);
    UpdateByKeyKeepsFirst(videos, VideoKey, id, AddView);
  }

  /** What a successful view does, in the terms the store method computes it. */
  lemma ViewVideoSpecOk(c: Catalog, principal: Id, id: Id, u: User)
    requires VideoById(c.videos, id).Some? && UserById(c.users, principal) == Some(u)
    requires VideoById(CountView(c.videos, id, u.watchHistory), id).Some?
    ensures ViewVideoSpec(c, principal, ObjectId(id))
         == Step(Ok(ViewOf(FindOneAndUpdate(c.users, HasKey(UserKey, principal), Watch(id)),
                           VideoById(CountView(c.videos, id, u.watchHistory), id).value)),
                 Catalog(CountView(c.videos, id, u.watchHistory), FindOneAndUpdate(c.users, HasKey(UserKey, principal), Watch(id))))
  {
  }

  /** The checks of getVideobyId ahead of any change: the viewer, or the error the handler stops with. */
  function ViewTarget(c: Catalog, principal: Id, videoId: IdParam): (r: Result<User>)
    ensures r.Err? ==> ViewVideoSpec(c, principal, videoId) == Step(Err(r.error), c)
    ensures r.Ok? ==>
      && IsValidObjectId(videoId) && VideoById(c.videos, videoId.id).Some?
      && UserById(c.users, principal) == Some(r.value)
  {
    match videoId
    case Malformed(_) => Err(ApiError(400, "VideoId is missing"))
    case ObjectId(id) =>
      if VideoById(c.videos, id).None? then Err(ApiError(404, "Video does not exist"))
      else if UserById(c.users, principal).None? then Err(ApiError(404, "User does not exist"))
      else Ok(UserById(c.users, principal).value)
  }

  /** getVideobyId against the store. */
  method ViewVideo(store: Store, principal: Id, videoId: IdParam) returns (r: Result<VideoView>)
    requires store.Valid()
    modifies store`videos, store`users
    ensures store.Valid()
    ensures Step(r, Catalog(store.videos, store.users))
         == ViewVideoSpec(Catalog(old(store.videos), old(store.users)), principal, videoId)
  {
    var user := ViewTarget(Catalog(store.videos, store.users), principal, videoId);
    if user.Err? {
      return Err(user.error);
    }
    var id := videoId.id;
    var videos := CountView(store.videos, id, user.value.watchHistory);
    var users := FindOneAndUpdate(store.users, HasKey(UserKey, principal), Watch(id));
    CountViewKeyed(store.videos, id, user.value.watchHistory, store.nextId);
    KeyedUpdate(store.users, UserKey, store.nextId, HasKey(UserKey, principal), Watch(id));
    var video := VideoById(videos, id);
    ViewVideoSpecOk(Catalog(store.videos, store.users), principal, id, user.value);
    store.SetVideosAndUsers(videos, users);
    r := Ok(ViewOf(users, video.value));
  }

  // ----- the owner-only edits -----

  /** `findById(videoId)` and the comparison of its owner with the principal, shared by the four edits.
      A missing video makes reading `preVideo.owner` throw. */
  function OwnedVideo(videos: seq<Video>, principal: Id, videoId: IdParam): (r: Result<Video>)
    ensures !IsValidObjectId(videoId) ==> r == Err(ApiError(400, "VideoId is missing"))
    ensures IsValidObjectId(videoId) && VideoById(videos, videoId.id).None? ==> r.Err? && r.error.TypeError?
    ensures IsValidObjectId(videoId) && VideoById(videos, videoId.id).Some? && VideoById(videos, videoId.id).value.owner != principal
      ==> r == Err(ApiError(300, "Unauthorized Access"))
    ensures r.Ok? <==> IsValidObjectId(videoId) && VideoById(videos, videoId.id).Some? && VideoById(videos, videoId.id).value.owner == principal
    ensures r.Ok? ==> r.value in videos && r.value.id == videoId.id && r.value == VideoById(videos, videoId.id).value
  {
    match videoId
    case Malformed(_) => Err(ApiError(400, "VideoId is missing"))
    case ObjectId(id) =>
      match VideoById(videos, id)
      case None => Err(TypeError("Cannot read properties of null (reading 'owner')"))
      case Some(v) => if v.owner != principal then Err(ApiError(300, "Unauthorized Access")) else Ok(v)
  }

  function SetDetails(title: string, description: string): Video -> Video
  {
    (v: Video) => v.(title := title, description := description)
  }

  /** updateVideo: after the owner check, both title and description must be truthy; then exactly
      those two fields are set. */
  function UpdateVideoSpec(videos: seq<Video>, principal: Id, videoId: IdParam, title: Option<string>, description: Option<string>)
    : (r: Step<seq<Video>, Video>)
    ensures r.reply.Err? ==> r.state == videos
    ensures OwnedVideo(videos, principal, videoId).Err? ==> r.reply == Err(OwnedVideo(videos, principal, videoId).error)
    ensures OwnedVideo(videos, principal, videoId).Ok? && !(Truthy(title) && Truthy(description)) ==>
      r.reply == Err(ApiError(400, "All fields are required"))
    ensures r.reply.Ok? <==> OwnedVideo(videos, principal, videoId).Ok? && Truthy(title) && Truthy(description)
    ensures r.reply.Ok? ==>
      && r.reply.value == OwnedVideo(videos, principal, videoId).value.(title := title.value, description := description.value)
      && VideoById(r.state, videoId.id) == Some(r.reply.value)
      && |r.state| == |videos|
  {
    match OwnedVideo(videos, principal, videoId)
    case Err(e) => Step(Err(e), videos)
    case Ok(v) =>
      if !Truthy(title) || !Truthy(description) then Step(Err(ApiError(400, "All fields are required")), videos)
      else
        var change := SetDetails(title.value, description.value);
        UpdateByKeyKeepsFirst(videos, VideoKey, v.id, change);
        Step(Ok(change(v)), FindOneAndUpdate(videos, HasKey(VideoKey, v.id), change))
  }

  function SetThumbnail(url: string): Video -> Video
  {
    (v: Video) => v.(thumbnail := url)
  }

  /** updateThumbnail. The upload and the deletion of the old asset are foreign calls; their outcomes
      are inputs: `upload` is the url the upload returned (None when it returned null), `oldDeleted`
      whether deleting the previous thumbnail succeeded. */
  function UpdateThumbnailSpec(videos: seq<Video>, principal: Id, videoId: IdParam, filePath: Option<string>,
                               upload: Option<string>, oldDeleted: bool)
    : (r: Step<seq<Video>, Video>)
    ensures r.reply.Err? ==> r.state == videos
    ensures OwnedVideo(videos, principal, videoId).Err? ==> r.reply == Err(OwnedVideo(videos, principal, videoId).error)
    ensures OwnedVideo(videos, principal, videoId).Ok? && !Truthy(filePath) ==>
      r.reply == Err(ApiError(400, "Thumbnail file is missing"))
    ensures OwnedVideo(videos, principal, videoId).Ok? && Truthy(filePath) && upload.None? ==>
      r.reply.Err? && r.reply.error.TypeError?
    ensures OwnedVideo(videos, principal, videoId).Ok? && Truthy(filePath) && upload == Some("") ==>
      r.reply == Err(ApiError(400, "Error while uploading thumbnail file"))
    ensures OwnedVideo(videos, principal, videoId).Ok? && Truthy(filePath) && Truthy(upload) && !oldDeleted ==>
      r.reply == Err(ApiError(400, "Error while deleting thumbnail file"))
    ensures r.reply.Ok? <==>
      OwnedVideo(videos, principal, videoId).Ok? && Truthy(filePath) && Truthy(upload) && oldDeleted
    ensures r.reply.Ok? ==>
      && r.reply.value == OwnedVideo(videos, principal, videoId).value.(thumbnail := upload.value)
      && VideoById(r.state, videoId.id) == Some(r.reply.value)
      && |r.state| == |videos|
  {
    match OwnedVideo(videos, principal, videoId)
    case Err(e) => Step(Err(e), videos)
    case Ok(v) =>
      if !Truthy(filePath) then Step(Err(ApiError(400, "Thumbnail file is missing")), videos)
      else if upload.None? then Step(Err(TypeError("Cannot read properties of null (reading 'url')")), videos)
      else if upload.value == "" then Step(Err(ApiError(400, "Error while uploading thumbnail file")), videos)
      else if !oldDeleted then Step(Err(ApiError(400, "Error while deleting thumbnail file")), videos)
      else
        var change := SetThumbnail(upload.value);
        UpdateByKeyKeepsFirst(videos, VideoKey, v.id, change);
        Step(Ok(change(v)), FindOneAndUpdate(videos, HasKey(VideoKey, v.id), change))
  }

  /** deleteVideo. Whether deleting the stored video file and the thumbnail succeeded are inputs. Likes,
      comments, playlists and watch histories that name the video are not touched. */
  function DeleteVideoSpec(videos: seq<Video>, principal: Id, videoId: IdParam, videoFileDeleted: bool, thumbnailDeleted: bool)
    : (r: Step<seq<Video>, ()>)
    ensures r.reply.Err? ==> r.state == videos
    ensures OwnedVideo(videos, principal, videoId).Err? ==> r.reply == Err(OwnedVideo(videos, principal, videoId).error)
    ensures OwnedVideo(videos, principal, videoId).Ok? && !videoFileDeleted ==>
      r.reply == Err(ApiError(404, "Error while deleting video file"))
    ensures OwnedVideo(videos, principal, videoId).Ok? && videoFileDeleted && !thumbnailDeleted ==>
      r.reply == Err(ApiError(400, "Error while deleting thumbnail file"))
    ensures r.reply.Ok? <==> OwnedVideo(videos, principal, videoId).Ok? && videoFileDeleted && thumbnailDeleted
    ensures r.reply.Ok? ==> |r.state| == |videos| - 1
  {
    match OwnedVideo(videos, principal, videoId)
    case Err(e) => Step(Err(e), videos)
    case Ok(v) =>
      if !videoFileDeleted then Step(Err(ApiError(404, "Error while deleting video file")), videos)
      else if !thumbnailDeleted then Step(Err(ApiError(400, "Error while deleting thumbnail file")), videos)
      else Step(Ok(()), FindOneAndDelete(videos, HasKey(VideoKey, v.id)))
  }

  /** A successful delete removes that video and only that one. */
  lemma DeleteVideoRemovesOnlyIt(videos: seq<Video>, bound: nat, principal: Id, videoId: IdParam, other: Id)
    requires Keyed(videos, VideoKey, bound)
    requires DeleteVideoSpec(videos, principal, videoId, true, true).reply.Ok? && other != videoId.id
    ensures VideoById(DeleteVideoSpec(videos, principal, videoId, true, true).state, videoId.id).None?
    ensures Find(DeleteVideoSpec(videos, principal, videoId, true, true).state, HasKey(VideoKey, other))
         == Find(videos, HasKey(VideoKey, other))
  {
    DeleteRemovesKey(videos, VideoKey, bound, videoId.id);
    DeleteLeavesOtherKeys(videos, VideoKey, videoId.id, other);
  }

  function SetPublished(isPublished: bool): Video -> Video
  {
    (v: Video) => v.(isPublished := isPublished)
  }

  /** togglePublishStatus: the owner flips `isPublished`. */
  function TogglePublishSpec(videos: seq<Video>, principal: Id, videoId: IdParam): (r: Step<seq<Video>, Video>)
    ensures r.reply.Err? ==> r.state == videos
    ensures OwnedVideo(videos, principal, videoId).Err? ==> r.reply == Err(OwnedVideo(videos, principal, videoId).error)
    ensures r.reply.Ok? <==> OwnedVideo(videos, principal, videoId).Ok?
    ensures r.reply.Ok? ==>
      var v := OwnedVideo(videos, principal, videoId).value;
      && r.reply.value == v.(isPublished := !v.isPublished)
      && VideoById(r.state, videoId.id) == Some(r.reply.value)
      && |r.state| == |videos|
  {
    match OwnedVideo(videos, principal, videoId)
    case Err(e) => Step(Err(e), videos)
    case Ok(v) =>
      var change := SetPublished(!v.isPublished);
      UpdateByKeyKeepsFirst(videos, VideoKey, v.id, change);
      Step(Ok(change(v)), FindOneAndUpdate(videos, HasKey(VideoKey, v.id), change))
  }

  /** Toggling the publish status twice gives back the very same collection. */
  lemma TogglePublishTwiceRestores(videos: seq<Video>, principal: Id, videoId: IdParam)
    requires TogglePublishSpec(videos, principal, videoId).reply.Ok?
    ensures TogglePublishSpec(TogglePublishSpec(videos, principal, videoId).state, principal, videoId)
         == Step(Ok(OwnedVideo(videos, principal, videoId).value), videos)
  {
    var v := OwnedVideo(videos, principal, videoId).value;
    var p := HasKey(VideoKey, v.id);
    UpdateUndone(videos, p, SetPublished(!v.isPublished), SetPublished(v.isPublished));
  }

  /** The field edits change no video but the one they name. */
  lemma UpdateVideoLeavesOthers(videos: seq<Video>, principal: Id, videoId: IdParam, title: Option<string>,
                                description: Option<string>, other: Id)
    requires IsValidObjectId(videoId) && other != videoId.id
    ensures Find(UpdateVideoSpec(videos, principal, videoId, title, description).state, HasKey(VideoKey, other))
         == Find(videos, HasKey(VideoKey, other))
  {
    if title.Some? && description.Some? {
      UpdateLeavesOtherKeys(videos, VideoKey, videoId.id, SetDetails(title.value, description.value), other);
    }
  }

  lemma UpdateThumbnailLeavesOthers(videos: seq<Video>, principal: Id, videoId: IdParam, filePath: Option<string>,
                                    upload: Option<string>, oldDeleted: bool, other: Id)
    requires IsValidObjectId(videoId) && other != videoId.id
    ensures Find(UpdateThumbnailSpec(videos, principal, videoId, filePath, upload, oldDeleted).state, HasKey(VideoKey, other))
         == Find(videos, HasKey(VideoKey, other))
  {
    if upload.Some? {
      UpdateLeavesOtherKeys(videos, VideoKey, videoId.id, SetThumbnail(upload.value), other);
    }
  }

  lemma TogglePublishLeavesOthers(videos: seq<Video>, principal: Id, videoId: IdParam, other: Id)
    requires IsValidObjectId(videoId) && other != videoId.id
    ensures Find(TogglePublishSpec(videos, principal, videoId).state, HasKey(VideoKey, other))
         == Find(videos, HasKey(VideoKey, other))
  {
    var v := VideoById(videos, videoId.id);
    if v.Some? {
      UpdateLeavesOtherKeys(videos, VideoKey, videoId.id, SetPublished(!v.value.isPublished), other);
    }
  }

  /** Someone other than the owner can change nothing about an existing video. */
  lemma NonOwnerChangesNothing(videos: seq<Video>, principal: Id, id: Id, title: Option<string>, description: Option<string>,
                               filePath: Option<string>, upload: Option<string>, oldDeleted: bool, fileDeleted: bool, thumbDeleted: bool)
    requires VideoById(videos, id).Some? && VideoById(videos, id).value.owner != principal
    ensures UpdateVideoSpec(videos, principal, ObjectId(id), title, description) == Step(Err(ApiError(300, "Unauthorized Access")), videos)
    ensures UpdateThumbnailSpec(videos, principal, ObjectId(id), filePath, upload, oldDeleted) == Step(Err(ApiError(300, "Unauthorized Access")), videos)
    ensures DeleteVideoSpec(videos, principal, ObjectId(id), fileDeleted, thumbDeleted) == Step(Err(ApiError(300, "Unauthorized Access")), videos)
    ensures TogglePublishSpec(videos, principal, ObjectId(id)) == Step(Err(ApiError(300, "Unauthorized Access")), videos)
  {
  }

  // ----- the edits against the store -----

  /** The owner check against the store: the video to edit, or the error the handler throws. */
  method CheckOwner(store: Store, principal: Id, videoId: IdParam) returns (r: Result<Video>)
    ensures r == OwnedVideo(store.videos, principal, videoId)
  {
    if !IsValidObjectId(videoId) {
      return Err(ApiError(400, "VideoId is missing"));
    }
    var preVideo := FindOne(store.videos, HasKey(VideoKey, videoId.id));
    if preVideo.None? {
      return Err(TypeError("Cannot read properties of null (reading 'owner')"));
    }
    if preVideo.value.owner != principal {
      return Err(ApiError(300, "Unauthorized Access"));
    }
    r := Ok(preVideo.value);
  }

  method UpdateVideo(store: Store, principal: Id, videoId: IdParam, title: Option<string>, description: Option<string>)
    returns (r: Result<Video>)
    requires store.Valid()
    modifies store`videos
    ensures store.Valid()
    ensures Step(r, store.videos) == UpdateVideoSpec(old(store.videos), principal, videoId, title, description)
  {
    var preVideo := CheckOwner(store, principal, videoId);
    if preVideo.Err? {
      return Err(preVideo.error);
    }
    if !Truthy(title) || !Truthy(description) {
      return Err(ApiError(400, "All fields are required"));
    }
    var change := SetDetails(title.value, description.value);
    KeyedUpdate(store.videos, VideoKey, store.nextId, HasKey(VideoKey, videoId.id), change);
    store.videos := FindOneAndUpdate(store.videos, HasKey(VideoKey, videoId.id), change);
    r := Ok(change(preVideo.value));
  }

  method UpdateThumbnail(store: Store, principal: Id, videoId: IdParam, filePath: Option<string>,
                         upload: Option<string>, oldDeleted: bool)
    returns (r: Result<Video>)
    requires store.Valid()
    modifies store`videos
    ensures store.Valid()
    ensures Step(r, store.videos) == UpdateThumbnailSpec(old(store.videos), principal, videoId, filePath, upload, oldDeleted)
  {
    var preVideo := CheckOwner(store, principal, videoId);
    if preVideo.Err? {
      return Err(preVideo.error);
    }
    if !Truthy(filePath) {
      return Err(ApiError(400, "Thumbnail file is missing"));
    }
    if upload.None? {
      return Err(TypeError("Cannot read properties of null (reading 'url')"));
    }
    if upload.value == "" {
      return Err(ApiError(400, "Error while uploading thumbnail file"));
    }
    if !oldDeleted {
      return Err(ApiError(400, "Error while deleting thumbnail file"));
    }
    var change := SetThumbnail(upload.value);
    KeyedUpdate(store.videos, VideoKey, store.nextId, HasKey(VideoKey, videoId.id), change);
    store.videos := FindOneAndUpdate(store.videos, HasKey(VideoKey, videoId.id), change);
    r := Ok(change(preVideo.value));
  }

  method DeleteVideo(store: Store, principal: Id, videoId: IdParam, videoFileDeleted: bool, thumbnailDeleted: bool)
    returns (r: Result<()>)
    requires store.Valid()
    modifies store`videos
    ensures store.Valid()
    ensures Step(r, store.videos) == DeleteVideoSpec(old(store.videos), principal, videoId, videoFileDeleted, thumbnailDeleted)
  {
    var preVideo := CheckOwner(store, principal, videoId);
    if preVideo.Err? {
      return Err(preVideo.error);
    }
    if !videoFileDeleted {
      return Err(ApiError(404, "Error while deleting video file"));
    }
    if !thumbnailDeleted {
      return Err(ApiError(400, "Error while deleting thumbnail file"));
    }
    KeyedDelete(store.videos, VideoKey, store.nextId, HasKey(VideoKey, videoId.id));
    store.videos := FindOneAndDelete(store.videos, HasKey(VideoKey, videoId.id));
    r := Ok(());
  }

  method TogglePublishStatus(store: Store, principal: Id, videoId: IdParam) returns (r: Result<Video>)
    requires store.Valid()
    modifies store`videos
    ensures store.Valid()
    ensures Step(r, store.videos) == TogglePublishSpec(old(store.videos), principal, videoId)
  {
    var preVideo := CheckOwner(store, principal, videoId);
    if preVideo.Err? {
      return Err(preVideo.error);
    }
    var change := SetPublished(!preVideo.value.isPublished);
    KeyedUpdate(store.videos, VideoKey, store.nextId, HasKey(VideoKey, videoId.id), change);
    store.videos := FindOneAndUpdate(store.videos, HasKey(VideoKey, videoId.id), change);
    r := Ok(change(preVideo.value));
  }
}
