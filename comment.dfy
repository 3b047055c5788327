/** src/controllers/comment.controller.js: the getVideoComments view and the
    checks and store effects of addComment, updateComment and deleteComment. */
module CommentController {
  import opened Basics
  import opened Aggregation
  import opened Store

  // ---------------------------------------------------------------------
  // getVideoComments

  /** One projected comment: `_id`, `content`, `createdAt`, `likesCount`,
      the owner card and `isLiked`. */
  datatype CommentView = CommentView(id: Id, content: string, createdAt: int, likesCount: nat,
                                     owner: Option<OwnerCard>, isLiked: bool)

  function OfVideo(videoId: Id): Comment -> bool { (c: Comment) => c.video == videoId }

  /** The lookups of one comment: its author collapsed with `$first`, and
      its Likes counted and searched for the actor. */
  function CommentViewOf(c: Comment, users: seq<User>, likes: seq<Like>, actor: Option<Id>): CommentView {
    var likesOf := Filter(likes, LikesOn(OnComment(c.id)));
    var owner := match First(Filter(users, UserWithId(c.owner)))
                 case None => None
                 case Some(u) => Some(OwnerCardOf(u));
    CommentView(c.id, c.content, c.createdAt, |likesOf|, owner, ActorIn(actor, Map(likesOf, LikedByOf)))
  }

  function ViewFor(users: seq<User>, likes: seq<Like>, actor: Option<Id>): Comment -> CommentView {
    (c: Comment) => CommentViewOf(c, users, likes, actor)
  }

  function VideoComments(comments: seq<Comment>, users: seq<User>, likes: seq<Like>, videoId: Id,
                         actor: Option<Id>, isValid: Id -> bool): (r: Outcome<seq<CommentView>>)
    ensures r.Err? <==> !isValid(videoId)
    ensures r.Err? ==> r == Err(400, "Invalid videoId")
  {
    if !isValid(videoId) then Err(400, "Invalid videoId")
    else Ok(Map(Filter(comments, OfVideo(videoId)), ViewFor(users, likes, actor)))
  }

  /** Row `k` of the view is the view of a comment of the video. */
  lemma VideoCommentRowSource(comments: seq<Comment>, users: seq<User>, likes: seq<Like>, videoId: Id,
                              actor: Option<Id>, k: nat) returns (i: nat)
    requires k < |Filter(comments, OfVideo(videoId))|
    ensures i < |comments| && comments[i].video == videoId
    ensures Map(Filter(comments, OfVideo(videoId)), ViewFor(users, likes, actor))[k]
            == CommentViewOf(comments[i], users, likes, actor)
  {
    i := MapFilterSource(comments, OfVideo(videoId), ViewFor(users, likes, actor), k);
    assert OfVideo(videoId)(comments[i]);
  }

  /** `row` is the view of some comment of the video. */
  ghost predicate ViewOfCommentOf(row: CommentView, comments: seq<Comment>, users: seq<User>, likes: seq<Like>,
                                  videoId: Id, actor: Option<Id>) {
    exists i :: 0 <= i < |comments| && comments[i].video == videoId
                && row == CommentViewOf(comments[i], users, likes, actor)
  }

  /** The view lists one row per comment of the video, in collection order:
      every row is the view of a comment of that video, and every comment of
      the video has its row. */
  lemma VideoCommentsRows(comments: seq<Comment>, users: seq<User>, likes: seq<Like>, videoId: Id,
                          actor: Option<Id>, isValid: Id -> bool)
    requires isValid(videoId)
    ensures var r := VideoComments(comments, users, likes, videoId, actor, isValid).value;
            && |r| == |Filter(comments, OfVideo(videoId))|
            && (forall k :: 0 <= k < |r| ==> ViewOfCommentOf(r[k], comments, users, likes, videoId, actor))
            && (forall i :: 0 <= i < |comments| && comments[i].video == videoId ==>
                  CommentViewOf(comments[i], users, likes, actor) in r)
  {
    var r := Map(Filter(comments, OfVideo(videoId)), ViewFor(users, likes, actor));
    assert r == VideoComments(comments, users, likes, videoId, actor, isValid).value;
    forall k | 0 <= k < |r| ensures ViewOfCommentOf(r[k], comments, users, likes, videoId, actor) {
      var i := VideoCommentRowSource(comments, users, likes, videoId, actor, k);
    }
    forall i | 0 <= i < |comments| && comments[i].video == videoId
      ensures CommentViewOf(comments[i], users, likes, actor) in r
    {
      assert OfVideo(videoId)(comments[i]);
      MapFilterContains(comments, OfVideo(videoId), ViewFor(users, likes, actor), i);
    }
  }

  /** The derived fields of a row: `likesCount` counts the Likes of the
      comment, `isLiked` says whether the actor has one of them, and the
      owner card is that of the first user with the comment's owner id,
      absent when there is none. */
  lemma CommentViewFields(c: Comment, users: seq<User>, likes: seq<Like>, actor: Option<Id>)
    requires Unique(likes, LikeKey)
    ensures CommentViewOf(c, users, likes, actor).likesCount
            == |KeysWhere(likes, LikesOn(OnComment(c.id)), LikeKey)|
    ensures CommentViewOf(c, users, likes, actor).isLiked <==>
              exists i :: 0 <= i < |likes| && likes[i].target == OnComment(c.id) && actor == Some(likes[i].likedBy)
    ensures CommentViewOf(c, users, likes, actor).owner.None? <==>
              forall j :: 0 <= j < |users| ==> users[j].id != c.owner
    ensures CommentViewOf(c, users, likes, actor).owner.Some? ==>
              exists j :: 0 <= j < |users| && users[j].id == c.owner
                          && CommentViewOf(c, users, likes, actor).owner.value == OwnerCardOf(users[j])
                          && forall m :: 0 <= m < j ==> users[m].id != c.owner
  {
    LikesCountIsDistinctLikes(likes, OnComment(c.id));
    ActorLikedIff(likes, OnComment(c.id), actor);
    FirstUserWithId(users, c.owner);
  }

  // ---------------------------------------------------------------------
  // addComment

  /** The checks of addComment in order: the id, the trimmed text, then the
      video's existence. */
  function AddGuard(videos: seq<Video>, videoId: Id, comment: string, isValid: Id -> bool): (r: Outcome<()>)
    ensures !isValid(videoId) ==> r == Err(400, "Invalid videoId")
    ensures isValid(videoId) && AllWhitespace(comment) ==> r == Err(400, "Invalid comment")
    ensures isValid(videoId) && !AllWhitespace(comment) && r.Err? ==> r == Err(404, "Video not found")
    ensures r.Ok? <==> isValid(videoId) && !AllWhitespace(comment)
                       && exists i :: 0 <= i < |videos| && videos[i].id == videoId
  {
    TrimmedEmptyIffBlank(comment);
    if !isValid(videoId) then Err(400, "Invalid videoId")
    else if Trim(comment) == "" then Err(400, "Invalid comment")
    else match FirstIndex(videos, VideoWithId(videoId))
      case None =>
        assert forall i :: 0 <= i < |videos| ==> !VideoWithId(videoId)(videos[i]);
        Err(404, "Video not found")
      case Some(i) =>
        assert VideoWithId(videoId)(videos[i]);
        Ok(())
  }

  method AddComment(db: Db, videoId: Id, comment: string, actor: Id, newId: Id, now: int, isValid: Id -> bool)
    returns (r: Outcome<Comment>)
    requires db.Valid()
    requires forall i :: 0 <= i < |db.comments| ==> db.comments[i].id != newId
    modifies db`comments
    ensures db.Valid()
    ensures match AddGuard(db.videos, videoId, comment, isValid)
            case Err(status, message) => r == Err(status, message) && db.comments == old(db.comments)
            case Ok(_) =>
              && r == Ok(Comment(newId, videoId, actor, comment, now))
              && db.comments == old(db.comments) + [r.value]
  {
    var guard := AddGuard(db.videos, videoId, comment, isValid);
    if guard.Err? {
      return Err(guard.status, guard.message);
    }
    var result := Comment(newId, videoId, actor, comment, now);
    UniqueAppend(db.comments, result, CommentKey);
    db.comments := db.comments + [result];
    r := Ok(result);
  }

  /** A comment addComment creates is listed last for its video, and the
      listing of every other video is unchanged. */
  lemma AddedCommentIsListedLast(comments: seq<Comment>, users: seq<User>, likes: seq<Like>, c: Comment,
                                 videoId: Id, actor: Option<Id>, isValid: Id -> bool)
    requires isValid(videoId)
    ensures VideoComments(comments + [c], users, likes, videoId, actor, isValid).value
            == VideoComments(comments, users, likes, videoId, actor, isValid).value
               + (if c.video == videoId then [CommentViewOf(c, users, likes, actor)] else [])
  {
    FilterAppend(comments, c, OfVideo(videoId));
    var f := ViewFor(users, likes, actor);
    MapConcat(Filter(comments, OfVideo(videoId)), if OfVideo(videoId)(c) then [c] else [], f);
  }

  // ---------------------------------------------------------------------
  // updateComment

  /** The JSON values `req.body.comment` can take, as far as updateComment
      tells them apart: absent (or null), a string, or an object whose
      `owner` is a string or absent. */
  datatype BodyValue = Missing | Text(text: string) | Object(owner: Option<string>)

  /** The status Express sends for an error thrown by the runtime rather
      than as an ApiError. */
  const RuntimeFault: Outcome<string> := Err(500, "TypeError")

  /** The checks of updateComment as written, yielding the value `$set`
      would store. The owner is read from the body value, whose `trim` is
      then called: `comment?.owner.toString()` throws on a string (it has
      no `owner`), and `comment.trim()` throws on an object. */
  function UpdateCheckAsWritten(commentId: Id, body: BodyValue, actor: Id, isValid: Id -> bool): (r: Outcome<string>)
    ensures !isValid(commentId) ==> r == Err(400, "Invalid commentId")
    ensures isValid(commentId) && (body.Missing? || (body.Object? && body.owner.Some? && body.owner.value != actor)) ==>
              r == Err(400, "only comment owner can edit their comment")
  {
    if !isValid(commentId) then Err(400, "Invalid commentId")
    else match body
      case Missing => Err(400, "only comment owner can edit their comment")
      case Text(_) => RuntimeFault
      case Object(None) => RuntimeFault
      case Object(Some(o)) =>
        if o != actor then Err(400, "only comment owner can edit their comment")
        else RuntimeFault
  }

  /** No request body gets past the checks as written. */
  lemma UpdateAsWrittenNeverSucceeds(commentId: Id, body: BodyValue, actor: Id, isValid: Id -> bool)
    ensures UpdateCheckAsWritten(commentId, body, actor, isValid).Err?
    ensures isValid(commentId) && body.Text? ==> UpdateCheckAsWritten(commentId, body, actor, isValid) == RuntimeFault
    ensures isValid(commentId) && body == Object(Some(actor)) ==>
              UpdateCheckAsWritten(commentId, body, actor, isValid) == RuntimeFault
  {
  }

  /** The checks of updateComment with the owner read from the stored
      comment and the text taken from the body: the id, the owner (a
      missing comment has none, so it fails here too), then the trimmed
      text. */
  function UpdateGuard(comments: seq<Comment>, commentId: Id, text: string, actor: Id, isValid: Id -> bool)
    : (r: Outcome<nat>)
    requires Unique(comments, CommentKey)
    ensures !isValid(commentId) ==> r == Err(400, "Invalid commentId")
    ensures isValid(commentId) && !(exists i :: 0 <= i < |comments| && comments[i].id == commentId
                                                && comments[i].owner == actor) ==>
              r == Err(400, "only comment owner can edit their comment")
    ensures r.Ok? <==> isValid(commentId) && !AllWhitespace(text)
                       && exists i :: 0 <= i < |comments| && comments[i].id == commentId && comments[i].owner == actor
    ensures r.Ok? ==> r.value < |comments| && comments[r.value].id == commentId && comments[r.value].owner == actor
    ensures (isValid(commentId) && AllWhitespace(text)
             && exists i :: 0 <= i < |comments| && comments[i].id == commentId && comments[i].owner == actor) ==>
              r == Err(400, "Invalid comment")
    ensures (r.Err? && r != Err(400, "Invalid commentId") && r != Err(400, "only comment owner can edit their comment"))
            ==> r == Err(400, "Invalid comment")
  {
    if !isValid(commentId) then Err(400, "Invalid commentId")
    else match FirstIndex(comments, CommentWithId(commentId))
      case None =>
        assert forall i :: 0 <= i < |comments| ==> !CommentWithId(commentId)(comments[i]);
        Err(400, "only comment owner can edit their comment")
      case Some(i) =>
        assert comments[i].id == commentId;
        UniqueKeyAt(comments, CommentKey, i);
        if comments[i].owner != actor then Err(400, "only comment owner can edit their comment")
        else
          TrimmedEmptyIffBlank(text);
          if Trim(text) == "" then Err(400, "Invalid comment")
          else Ok(i)
  }

  method UpdateComment(db: Db, commentId: Id, text: string, actor: Id, isValid: Id -> bool)
    returns (r: Outcome<Comment>)
    requires db.Valid()
    modifies db`comments
    ensures db.Valid()
    ensures match UpdateGuard(old(db.comments), commentId, text, actor, isValid)
            case Err(status, message) => r == Err(status, message) && db.comments == old(db.comments)
            case Ok(i) =>
              && db.comments == old(db.comments)[i := old(db.comments)[i].(content := text)]
              && r == Ok(db.comments[i])
  {
    var guard := UpdateGuard(db.comments, commentId, text, actor, isValid);
    if guard.Err? {
      return Err(guard.status, guard.message);
    }
    var i := guard.value;
    var updated := db.comments[i].(content := text);
    UniqueReplace(db.comments, i, updated, CommentKey);
    db.comments := db.comments[i := updated];
    r := Ok(updated);
  }

  /** A successful update changes the `content` of the one comment with
      the id, and nothing else: not its owner, video, id or date, and no
      other comment. */
  lemma UpdateChangesOnlyContent(comments: seq<Comment>, commentId: Id, text: string, actor: Id, isValid: Id -> bool)
    requires Unique(comments, CommentKey)
    requires UpdateGuard(comments, commentId, text, actor, isValid).Ok?
    ensures var i := UpdateGuard(comments, commentId, text, actor, isValid).value;
            var after := comments[i := comments[i].(content := text)];
            && |after| == |comments|
            && (forall k :: 0 <= k < |comments| && comments[k].id != commentId ==> after[k] == comments[k])
            && (forall k :: 0 <= k < |comments| && comments[k].id == commentId ==>
                  && after[k].content == text && after[k].id == comments[k].id
                  && after[k].owner == comments[k].owner && after[k].video == comments[k].video
                  && after[k].createdAt == comments[k].createdAt)
  {
    var i := UpdateGuard(comments, commentId, text, actor, isValid).value;
    forall k | 0 <= k < |comments| && k != i ensures comments[k].id != commentId {
      if k < i { assert CommentKey(comments[k]) != CommentKey(comments[i]); }
      else { assert CommentKey(comments[i]) != CommentKey(comments[k]); }
    }
  }

  // ---------------------------------------------------------------------
  // deleteComment

  /** The checks of deleteComment: the id, then the comment's existence.
      There is no owner check. */
  function DeleteGuard(comments: seq<Comment>, commentId: Id, isValid: Id -> bool): (r: Outcome<nat>)
    ensures !isValid(commentId) ==> r == Err(400, "Invalid CommentID")
    ensures isValid(commentId) && r.Err? ==> r == Err(400, "Comment not found")
    ensures r.Ok? <==> isValid(commentId) && exists i :: 0 <= i < |comments| && comments[i].id == commentId
    ensures r.Ok? ==> r.value < |comments| && comments[r.value].id == commentId
  {
    if !isValid(commentId) then Err(400, "Invalid CommentID")
    else match FirstIndex(comments, CommentWithId(commentId))
      case None =>
        assert forall i :: 0 <= i < |comments| ==> !CommentWithId(commentId)(comments[i]);
        Err(400, "Comment not found")
      case Some(i) =>
        assert CommentWithId(commentId)(comments[i]);
        Ok(i)
  }

  method DeleteComment(db: Db, commentId: Id, isValid: Id -> bool) returns (r: Outcome<Comment>)
    requires db.Valid()
    modifies db`comments
    ensures db.Valid()
    ensures match DeleteGuard(old(db.comments), commentId, isValid)
            case Err(status, message) => r == Err(status, message) && db.comments == old(db.comments)
            case Ok(i) => db.comments == RemoveAt(old(db.comments), i) && r == Ok(old(db.comments)[i])
  {
    var guard := DeleteGuard(db.comments, commentId, isValid);
    if guard.Err? {
      return Err(guard.status, guard.message);
    }
    var i := guard.value;
    var result := db.comments[i];
    UniqueRemoveAt(db.comments, i, CommentKey);
    db.comments := RemoveAt(db.comments, i);
    r := Ok(result);
  }

  function OtherThan(id: Id): Comment -> bool { (c: Comment) => c.id != id }

  /** A successful delete removes exactly the comment with the id: no
      comment keeps the id and every other comment stays, in order. */
  lemma DeleteRemovesOnlyThatComment(comments: seq<Comment>, commentId: Id, isValid: Id -> bool)
    requires Unique(comments, CommentKey)
    requires DeleteGuard(comments, commentId, isValid).Ok?
    ensures var after := RemoveAt(comments, DeleteGuard(comments, commentId, isValid).value);
            && (forall k :: 0 <= k < |after| ==> after[k].id != commentId)
            && Filter(after, OtherThan(commentId)) == Filter(comments, OtherThan(commentId))
            && |after| == |comments| - 1
  {
    var i := DeleteGuard(comments, commentId, isValid).value;
    var after := RemoveAt(comments, i);
    forall k | 0 <= k < |after| ensures after[k].id != commentId {
      if k < i { assert CommentKey(comments[k]) != CommentKey(comments[i]); }
      else { assert CommentKey(comments[i]) != CommentKey(comments[k + 1]); }
    }
    FilterRemoveAt(comments, i, OtherThan(commentId));
  }
}
