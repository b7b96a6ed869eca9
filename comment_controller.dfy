/** Comments on videos: the comment page, adding, and the edit and delete, which check no ownership
    (src/controllers/comment.controller.js). */
module CommentController {
  import opened Common
  import opened Query
  import opened Sorting
  import opened Entities
  import opened Database

  // ----- getVideoComments -----

  /** `$match: { video }` on comments. */
  function OnVideo(video: Id): Comment -> bool
  {
    (c: Comment) => c.video == video
  }

  function CommentCreatedAt(c: Comment): int { c.createdAt }

  /** One row of the page: the comment with `owner` replaced by the owner's projection. */
  datatype CommentView = CommentView(comment: Comment, owner: Option<OwnerView>)

  function CommentViewIn(users: seq<User>): Comment -> CommentView
  {
    (c: Comment) => CommentView(c, LookupOwner(users, c.owner))
  }

  function RowCreatedAt(x: CommentView): int { x.comment.createdAt }

  /** One page of a video's comments, newest first, each with its owner's projection. */
  function CommentPage(comments: seq<Comment>, users: seq<User>, video: Id, page: nat, limit: nat): (rows: seq<CommentView>)
    requires page >= 1 && limit >= 1
    ensures |rows| <= limit
    ensures Ordered(rows, RowCreatedAt, true)
    ensures forall x :: x in rows ==>
      x.comment in comments && x.comment.video == video && x.owner == LookupOwner(users, x.comment.owner)
    ensures rows == Map(Page(SortBy(Find(comments, OnVideo(video)), CommentCreatedAt, true), page, limit), CommentViewIn(users))
  {
    var found := FindSortedPage(comments, OnVideo(video), CommentCreatedAt, true, page, limit);
    var rows := Map(found, CommentViewIn(users));
    forall x | x in rows ensures x.comment in found && x.owner == LookupOwner(users, x.comment.owner) {
      MapMember(found, CommentViewIn(users), x);
    }
    OrderedMap(found, CommentCreatedAt, CommentViewIn(users), RowCreatedAt, true);
    rows
  }

  /** The page size of getVideoComments: the default `limit = 10` is a number, but a `limit` sent in the
      query string stays a string, which the `$limit` stage refuses. */
  const DefaultLimit: nat := 10

  /** getVideoComments: 401 on a malformed id; a sent `limit` makes the aggregation fail; otherwise the
      slice at `(page - 1) * 10` of the video's comments, newest first, with `page` defaulting to 1 (the
      string `page` is coerced by the arithmetic of `$skip`). The pipeline joins the owner before sorting
      and paging; the join changes neither the sort key nor the number of rows, so it is applied last
      here. The video itself is not looked up: an unknown video has an empty page. */
  function VideoComments(comments: seq<Comment>, users: seq<User>, videoId: IdParam, page: Option<nat>, limit: Option<nat>)
    : (r: Result<seq<CommentView>>)
    requires page.Some? ==> page.value >= 1
    ensures !IsValidObjectId(videoId) <==> r == Err(ApiError(401, "Video id is invalid"))
    ensures IsValidObjectId(videoId) && limit.Some? ==> r.Err? && r.error.DatabaseError?
    ensures r.Ok? <==> IsValidObjectId(videoId) && limit.None?
    ensures r.Ok? ==> |r.value| <= DefaultLimit && Ordered(r.value, RowCreatedAt, true)
    ensures r.Ok? ==> r.value == Map(Page(SortBy(Find(comments, OnVideo(videoId.id)), CommentCreatedAt, true),
      if page.Some? then page.value else 1, DefaultLimit), CommentViewIn(users))
  {
    match videoId
    case Malformed(_) => Err(ApiError(401, "Video id is invalid"))
    case ObjectId(v) =>
      if limit.Some? then Err(DatabaseError("the limit must be specified as a number"))
      else Ok(CommentPage(comments, users, v, if page.Some? then page.value else 1, DefaultLimit))
  }

  /** Every comment on the video is on one of the pages 1 to ceil(comments / 10). */
  lemma EveryCommentOnSomePage(comments: seq<Comment>, users: seq<User>, video: Id, c: Comment)
    requires c in comments && c.video == video
    ensures exists page: nat :: (1 <= page <= CeilDiv(|Find(comments, OnVideo(video))|, DefaultLimit) &&
      CommentView(c, LookupOwner(users, c.owner)) in VideoComments(comments, users, ObjectId(video), Some(page), None).value)
  {
    FindSortedPageCovers(comments, OnVideo(video), CommentCreatedAt, true, DefaultLimit, c);
    var page: nat :| 1 <= page <= CeilDiv(|Find(comments, OnVideo(video))|, DefaultLimit) &&
      c in FindSortedPage(comments, OnVideo(video), CommentCreatedAt, true, page, DefaultLimit);
    var found := FindSortedPage(comments, OnVideo(video), CommentCreatedAt, true, page, DefaultLimit);
    var view := CommentView(c, LookupOwner(users, c.owner));
    assert view in Map(found, CommentViewIn(users)) by {
      MapMember(found, CommentViewIn(users), view);
    }
    assert VideoComments(comments, users, ObjectId(video), Some(page), None).value == Map(found, CommentViewIn(users));
  }

  /** Pages past the last one are empty. */
  lemma NoCommentsPastLastPage(comments: seq<Comment>, users: seq<User>, video: Id, page: nat)
    requires page > CeilDiv(|Find(comments, OnVideo(video))|, DefaultLimit)
    ensures VideoComments(comments, users, ObjectId(video), Some(page), None) == Ok([])
  {
    FindSortedPagePastEnd(comments, OnVideo(video), CommentCreatedAt, true, page, DefaultLimit);
  }

  /** A comment on another video leaves every page of this video's comments as it was. */
  lemma PageIgnoresOtherVideos(comments: seq<Comment>, users: seq<User>, video: Id, page: Option<nat>, limit: Option<nat>, c: Comment)
    requires page.Some? ==> page.value >= 1
    requires c.video != video
    ensures VideoComments(comments + [c], users, ObjectId(video), page, limit)
         == VideoComments(comments, users, ObjectId(video), page, limit)
  {
    FindConcat(comments, [c], OnVideo(video));
    FindSingleton(c, OnVideo(video));
    assert Find(comments, OnVideo(video)) + [] == Find(comments, OnVideo(video));
  }

  // ----- addComment -----

  /** addComment: the content check comes first (404 when blank), then the id check (401). The comment
      is stored with the principal as owner; whether the video exists is not checked. */
  function AddCommentSpec(comments: seq<Comment>, principal: Id, videoId: IdParam, content: Option<string>, nid: Id, now: nat)
    : (r: Step<seq<Comment>, Comment>)
    ensures r.reply.Err? ==> r.state == comments
    ensures content.Some? && IsBlank(content.value) ==> r.reply == Err(ApiError(404, "content is required"))
    ensures content.Some? && !IsBlank(content.value) && !IsValidObjectId(videoId) ==>
      r.reply == Err(ApiError(401, "video id is invalid"))
    ensures r.reply.Ok? <==> content.Some? && !IsBlank(content.value) && IsValidObjectId(videoId)
    ensures r.reply.Ok? ==>
      && r.reply.value == Comment(nid, principal, videoId.id, content.value, now)
      && r.state == comments + [r.reply.value]
  {
    match RequiredText(content, 404, "content is required")
    case Err(e) => Step(Err(e), comments)
    case Ok(text) =>
      match videoId
      case Malformed(_) => Step(Err(ApiError(401, "video id is invalid")), comments)
      case ObjectId(v) =>
        var c := Comment(nid, principal, v, text, now);
        Step(Ok(c), comments + [c])
  }

  // ----- updateComment and deleteComment -----

  function SetText(content: string): Comment -> Comment
  {
    (c: Comment) => c.(content := content)
  }

  /** updateComment: the content check (404), then the id check (401), then `findByIdAndUpdate`; a
      missing comment is 404. Nothing compares the comment's owner with the principal, so the handler
      takes no principal here. */
  function UpdateCommentSpec(comments: seq<Comment>, commentId: IdParam, content: Option<string>): (r: Step<seq<Comment>, Comment>)
    ensures r.reply.Err? ==> r.state == comments
    ensures content.Some? && IsBlank(content.value) ==> r.reply == Err(ApiError(404, "content is required"))
    ensures content.Some? && !IsBlank(content.value) && !IsValidObjectId(commentId) ==>
      r.reply == Err(ApiError(401, "comment id is invalid"))
    ensures content.Some? && !IsBlank(content.value) && IsValidObjectId(commentId) && CommentById(comments, commentId.id).None? ==>
      r.reply == Err(ApiError(404, "something went wrong while updating comment"))
    ensures r.reply.Ok? <==>
      content.Some? && !IsBlank(content.value) && IsValidObjectId(commentId) && CommentById(comments, commentId.id).Some?
    ensures r.reply.Ok? ==>
      && r.reply.value == CommentById(comments, commentId.id).value.(content := content.value)
      && CommentById(r.state, commentId.id) == Some(r.reply.value)
      && |r.state| == |comments|
  {
    match RequiredText(content, 404, "content is required")
    case Err(e) => Step(Err(e), comments)
    case Ok(text) =>
      match commentId
      case Malformed(_) => Step(Err(ApiError(401, "comment id is invalid")), comments)
      case ObjectId(id) =>
        match CommentById(comments, id)
        case None => Step(Err(ApiError(404, "something went wrong while updating comment")), comments)
        case Some(c) =>
          UpdateByKeyKeepsFirst(comments, CommentKey, id, SetText(text));
          Step(Ok(c.(content := text)), FindOneAndUpdate(comments, HasKey(CommentKey, id), SetText(text)))
  }

  /** An edit changes no other comment. */
  lemma UpdateCommentLeavesOthers(comments: seq<Comment>, commentId: IdParam, content: Option<string>, other: Id)
    requires IsValidObjectId(commentId) && other != commentId.id
    ensures Find(UpdateCommentSpec(comments, commentId, content).state, HasKey(CommentKey, other))
         == Find(comments, HasKey(CommentKey, other))
  {
    if content.Some? {
      UpdateLeavesOtherKeys(comments, CommentKey, commentId.id, SetText(content.value), other);
    }
  }

  /** Anyone may edit any comment: the edit of an existing comment with visible content succeeds
      whoever wrote it, and the comment keeps its author. */
  lemma AnyoneCanEditComment(comments: seq<Comment>, id: Id, content: string)
    requires CommentById(comments, id).Some? && !IsBlank(content)
    ensures UpdateCommentSpec(comments, ObjectId(id), Some(content)).reply.Ok?
    ensures UpdateCommentSpec(comments, ObjectId(id), Some(content)).reply.value.owner == CommentById(comments, id).value.owner
  {
  }

  /** deleteComment: 401 on a malformed id; `findByIdAndDelete`, 404 when there was nothing to delete.
      No ownership check either. */
  function DeleteCommentSpec(comments: seq<Comment>, commentId: IdParam): (r: Step<seq<Comment>, ()>)
    ensures r.reply.Err? ==> r.state == comments
    ensures !IsValidObjectId(commentId) ==> r.reply == Err(ApiError(401, "comment id is invalid"))
    ensures IsValidObjectId(commentId) && CommentById(comments, commentId.id).None? ==>
      r.reply == Err(ApiError(404, "Comment does not exist"))
    ensures r.reply.Ok? <==> IsValidObjectId(commentId) && CommentById(comments, commentId.id).Some?
    ensures r.reply.Ok? ==> |r.state| == |comments| - 1
  {
    match commentId
    case Malformed(_) => Step(Err(ApiError(401, "comment id is invalid")), comments)
    case ObjectId(id) =>
      IndexOfNone(comments, HasKey(CommentKey, id));
      if CommentById(comments, id).None? then Step(Err(ApiError(404, "Comment does not exist")), comments)
      else Step(Ok(()), FindOneAndDelete(comments, HasKey(CommentKey, id)))
  }

  /** The delete removes that comment and no other. */
  lemma DeleteCommentRemovesOnlyIt(comments: seq<Comment>, bound: nat, id: Id, other: Id)
    requires Keyed(comments, CommentKey, bound) && other != id
    ensures CommentById(DeleteCommentSpec(comments, ObjectId(id)).state, id).None?
    ensures Find(DeleteCommentSpec(comments, ObjectId(id)).state, HasKey(CommentKey, other))
         == Find(comments, HasKey(CommentKey, other))
  {
    DeleteRemovesKey(comments, CommentKey, bound, id);
    DeleteLeavesOtherKeys(comments, CommentKey, id, other);
  }

  /** Deleting a comment just added gives back the comments as they were. */
  lemma AddThenDeleteRestores(comments: seq<Comment>, principal: Id, videoId: IdParam, content: Option<string>, nid: Id, now: nat)
    requires Keyed(comments, CommentKey, nid)
    requires AddCommentSpec(comments, principal, videoId, content, nid, now).reply.Ok?
    ensures DeleteCommentSpec(AddCommentSpec(comments, principal, videoId, content, nid, now).state, ObjectId(nid))
         == Step(Ok(()), comments)
  {
    var c := Comment(nid, principal, videoId.id, content.value, now);
    DeleteAppended(comments, CommentKey, nid, c);
    assert CommentById(comments + [c], nid).Some? by {
      assert c in comments + [c];
    }
  }

  // ----- against the store -----

  method AddComment(store: Store, principal: Id, videoId: IdParam, content: Option<string>, now: nat) returns (r: Result<Comment>)
    requires store.Valid()
    modifies store`comments, store`nextId
    ensures store.Valid()
    ensures Step(r, store.comments) == AddCommentSpec(old(store.comments), principal, videoId, content, old(store.nextId), now)
  {
    var text := RequiredText(content, 404, "content is required");
    if text.Err? {
      return Err(text.error);
    }
    if !IsValidObjectId(videoId) {
      return Err(ApiError(401, "video id is invalid"));
    }
    var id := store.NewId();
    var comment := Comment(id, principal, videoId.id, text.value, now);
    KeyedAppend(store.comments, CommentKey, id, comment);
    store.comments := store.comments + [comment];
    r := Ok(comment);
  }

  method UpdateComment(store: Store, commentId: IdParam, content: Option<string>) returns (r: Result<Comment>)
    requires store.Valid()
    modifies store`comments
    ensures store.Valid()
    ensures Step(r, store.comments) == UpdateCommentSpec(old(store.comments), commentId, content)
  {
    var text := RequiredText(content, 404, "content is required");
    if text.Err? {
      return Err(text.error);
    }
    if !IsValidObjectId(commentId) {
      return Err(ApiError(401, "comment id is invalid"));
    }
    var comment := FindOne(store.comments, HasKey(CommentKey, commentId.id));
    if comment.None? {
      return Err(ApiError(404, "something went wrong while updating comment"));
    }
    var change := SetText(text.value);
    KeyedUpdate(store.comments, CommentKey, store.nextId, HasKey(CommentKey, commentId.id), change);
    store.comments := FindOneAndUpdate(store.comments, HasKey(CommentKey, commentId.id), change);
    r := Ok(change(comment.value));
  }

  method DeleteComment(store: Store, commentId: IdParam) returns (r: Result<()>)
    requires store.Valid()
    modifies store`comments
    ensures store.Valid()
    ensures Step(r, store.comments) == DeleteCommentSpec(old(store.comments), commentId)
  {
    if !IsValidObjectId(commentId) {
      return Err(ApiError(401, "comment id is invalid"));
    }
    var deleted := FindOne(store.comments, HasKey(CommentKey, commentId.id));
    if deleted.None? {
      return Err(ApiError(404, "Comment does not exist"));
    }
    KeyedDelete(store.comments, CommentKey, store.nextId, HasKey(CommentKey, commentId.id));
    store.comments := FindOneAndDelete(store.comments, HasKey(CommentKey, commentId.id));
    r := Ok(());
  }
}
