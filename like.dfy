/** src/controllers/like.controller.js: the three like toggles and the
    liked-videos view. */
module LikeController {
  import opened Basics
  import opened Aggregation
  import opened Store
  import opened Toggle

  /** The `findOne` condition of a toggle: `{<target field>: id, likedBy: actor}`. */
  function ByActorOn(target: LikeTarget, actor: Id): Like -> bool {
    (l: Like) => l.target == target && l.likedBy == actor
  }

  /** Every Like that is not the pair's. */
  function NotByActorOn(target: LikeTarget, actor: Id): Like -> bool {
    (l: Like) => !(l.target == target && l.likedBy == actor)
  }

  /** The relationship a Like records. */
  function PairOf(l: Like): (LikeTarget, Id) {
    (l.target, l.likedBy)
  }

  /** The Like collection after one toggle by `actor` on `target`; `newId` and
      `now` are the `_id` and `createdAt` the store gives a created row. */
  function LikeToggled(likes: seq<Like>, target: LikeTarget, actor: Id, newId: Id, now: int): seq<Like> {
    Toggled(likes, ByActorOn(target, actor), Like(newId, target, actor, now))
  }

  /** A toggle flips the pair: it creates the row when there is none and
      otherwise deletes one, so the pair's count moves by exactly one. */
  lemma ToggleFlipsLike(likes: seq<Like>, target: LikeTarget, actor: Id, newId: Id, now: int)
    ensures Matches(LikeToggled(likes, target, actor, newId, now), ByActorOn(target, actor))
            == if Matches(likes, ByActorOn(target, actor)) == 0 then 1
               else Matches(likes, ByActorOn(target, actor)) - 1
  {
    ToggleCount(likes, ByActorOn(target, actor), Like(newId, target, actor, now));
  }

  /** Likes on other targets or kinds, and likes by other users, are kept
      unchanged and in order. */
  lemma ToggleKeepsOtherLikes(likes: seq<Like>, target: LikeTarget, actor: Id, newId: Id, now: int)
    ensures Filter(LikeToggled(likes, target, actor, newId, now), NotByActorOn(target, actor))
            == Filter(likes, NotByActorOn(target, actor))
  {
    ToggleKeepsOthers(likes, ByActorOn(target, actor), Like(newId, target, actor, now),
                      NotByActorOn(target, actor));
  }

  /** Liking and then unliking restores the Like collection exactly. */
  lemma ToggleLikeTwiceFromUnliked(likes: seq<Like>, target: LikeTarget, actor: Id,
                                   id1: Id, now1: int, id2: Id, now2: int)
    requires Matches(likes, ByActorOn(target, actor)) == 0
    ensures LikeToggled(LikeToggled(likes, target, actor, id1, now1), target, actor, id2, now2) == likes
  {
    ToggleTwiceFromAbsent(likes, ByActorOn(target, actor), Like(id1, target, actor, now1),
                          Like(id2, target, actor, now2));
  }

  /** Unliking and then liking again restores every relationship: the
      multiset of (target, likedBy) pairs is the original one. Only the
      re-created row's `_id` and `createdAt` are new. */
  lemma ToggleLikeTwiceFromLiked(likes: seq<Like>, target: LikeTarget, actor: Id,
                                 id1: Id, now1: int, id2: Id, now2: int)
    requires Matches(likes, ByActorOn(target, actor)) == 1
    ensures multiset(Map(LikeToggled(LikeToggled(likes, target, actor, id1, now1), target, actor, id2, now2), PairOf))
            == multiset(Map(likes, PairOf))
  {
    var m := ByActorOn(target, actor);
    var created := Like(id2, target, actor, now2);
    ToggleTwiceFromPresent(likes, m, Like(id1, target, actor, now1), created);
    MapRemoveAppend(likes, FirstIndex(likes, m).value, created, PairOf);
  }

  /** At most one Like per (target, actor) pair. */
  ghost predicate OneLikePerPair(likes: seq<Like>) {
    forall target, actor :: Matches(likes, ByActorOn(target, actor)) <= 1
  }

  /** Sequential toggles never create a second Like for a pair. */
  lemma TogglePreservesOneLikePerPair(likes: seq<Like>, target: LikeTarget, actor: Id, newId: Id, now: int)
    requires OneLikePerPair(likes)
    ensures OneLikePerPair(LikeToggled(likes, target, actor, newId, now))
  {
    var m := ByActorOn(target, actor);
    var created := Like(newId, target, actor, now);
    forall t, a ensures Matches(LikeToggled(likes, target, actor, newId, now), ByActorOn(t, a)) <= 1 {
      if (t, a) == (target, actor) {
        ToggleCount(likes, m, created);
      } else {
        ToggleKeepsOthers(likes, m, created, ByActorOn(t, a));
      }
    }
  }

  /** The find, then delete or create, of one toggle. */
  method ToggleLike(db: Db, target: LikeTarget, actor: Id, newId: Id, now: int) returns (state: State)
    requires db.Valid()
    requires forall i :: 0 <= i < |db.likes| ==> db.likes[i].id != newId
    modifies db`likes
    ensures db.Valid()
    ensures db.likes == LikeToggled(old(db.likes), target, actor, newId, now)
    ensures state == Resulting(old(db.likes), ByActorOn(target, actor))
  {
    var likedAlready := FirstIndex(db.likes, ByActorOn(target, actor));
    if likedAlready.Some? {
      UniqueRemoveAt(db.likes, likedAlready.value, LikeKey);
      db.likes := RemoveAt(db.likes, likedAlready.value);
      state := Absent;
    } else {
      var created := Like(newId, target, actor, now);
      UniqueAppend(db.likes, created, LikeKey);
      db.likes := db.likes + [created];
      state := Present;
    }
  }

  /** toggleVideoLike: the id is validated before any Like is read. */
  method ToggleVideoLike(db: Db, videoId: Id, actor: Id, newId: Id, now: int, isValid: Id -> bool)
    returns (r: Outcome<State>)
    requires db.Valid()
    requires forall i :: 0 <= i < |db.likes| ==> db.likes[i].id != newId
    modifies db`likes
    ensures db.Valid()
    ensures !isValid(videoId) ==> r == Err(400, "Invalid videoId!!") && db.likes == old(db.likes)
    ensures isValid(videoId) ==>
              && r == Ok(Resulting(old(db.likes), ByActorOn(OnVideo(videoId), actor)))
              && db.likes == LikeToggled(old(db.likes), OnVideo(videoId), actor, newId, now)
  {
    if !isValid(videoId) {
      return Err(400, "Invalid videoId!!");
    }
    var state := ToggleLike(db, OnVideo(videoId), actor, newId, now);
    r := Ok(state);
  }

  /** toggleCommentLike (its message for a bad id also says "videoId"). */
  method ToggleCommentLike(db: Db, commentId: Id, actor: Id, newId: Id, now: int, isValid: Id -> bool)
    returns (r: Outcome<State>)
    requires db.Valid()
    requires forall i :: 0 <= i < |db.likes| ==> db.likes[i].id != newId
    modifies db`likes
    ensures db.Valid()
    ensures !isValid(commentId) ==> r == Err(400, "Invalid videoId!!") && db.likes == old(db.likes)
    ensures isValid(commentId) ==>
              && r == Ok(Resulting(old(db.likes), ByActorOn(OnComment(commentId), actor)))
              && db.likes == LikeToggled(old(db.likes), OnComment(commentId), actor, newId, now)
  {
    if !isValid(commentId) {
      return Err(400, "Invalid videoId!!");
    }
    var state := ToggleLike(db, OnComment(commentId), actor, newId, now);
    r := Ok(state);
  }

  /** toggleTweetLike (its message for a bad id also says "videoId"). */
  method ToggleTweetLike(db: Db, tweetId: Id, actor: Id, newId: Id, now: int, isValid: Id -> bool)
    returns (r: Outcome<State>)
    requires db.Valid()
    requires forall i :: 0 <= i < |db.likes| ==> db.likes[i].id != newId
    modifies db`likes
    ensures db.Valid()
    ensures !isValid(tweetId) ==> r == Err(400, "Invalid videoId!!") && db.likes == old(db.likes)
    ensures isValid(tweetId) ==>
              && r == Ok(Resulting(old(db.likes), ByActorOn(OnTweet(tweetId), actor)))
              && db.likes == LikeToggled(old(db.likes), OnTweet(tweetId), actor, newId, now)
  {
    if !isValid(tweetId) {
      return Err(400, "Invalid videoId!!");
    }
    var state := ToggleLike(db, OnTweet(tweetId), actor, newId, now);
    r := Ok(state);
  }

  // ---------------------------------------------------------------------
  // getLikedVideos

  /** The value of the named id field of a Like document; absent when the
      document has no such field. */
  function LikeField(l: Like, field: string): Option<Id> {
    if field == "likedBy" then Some(l.likedBy)
    else if field == "video" && l.target.OnVideo? then Some(l.target.video)
    else if field == "comment" && l.target.OnComment? then Some(l.target.comment)
    else if field == "tweet" && l.target.OnTweet? then Some(l.target.tweet)
    else None
  }

  /** The projected `likedVideo` sub-object, with its `ownerDetails`. */
  datatype LikedVideoCard = LikedVideoCard(id: Id, videoFileUrl: string, thumbnailUrl: string,
                                           owner: Id, title: Option<string>, description: Option<string>,
                                           views: nat, duration: real, createdAt: int,
                                           isPublished: bool, ownerDetails: OwnerCard)

  /** A row after both unwinds, before the projection drops the Like's own
      `createdAt`. */
  datatype LikedRow = LikedRow(likeCreatedAt: int, likedVideo: LikedVideoCard)

  /** An emitted row: `_id` is excluded, only `likedVideo` remains. */
  datatype LikedVideoEntry = LikedVideoEntry(likedVideo: LikedVideoCard)

  function LikedVideoCardOf(v: Video, u: User): LikedVideoCard {
    LikedVideoCard(v.id, v.videoFileUrl, v.thumbnailUrl, v.owner, v.title, v.description,
                   v.views, v.duration, v.createdAt, v.isPublished, OwnerCardOf(u))
  }

  function RowKey(r: LikedRow): int { r.likeCreatedAt }

  function EntryOf(r: LikedRow): LikedVideoEntry { LikedVideoEntry(r.likedVideo) }

  /** The `$lookup` condition from a Like to its video: `localField: "video"`. */
  function VideoOfLike(l: Like): Video -> bool {
    (v: Video) => LikeField(l, "video") == Some(v.id)
  }

  /** The row of one (Like, video, owner) after both `$unwind`s. */
  function RowFor(l: Like, v: Video): User -> LikedRow {
    (u: User) => LikedRow(l.createdAt, LikedVideoCardOf(v, u))
  }

  /** The nested `$lookup` of a video's owner, unwound. */
  function OwnerRows(l: Like, users: seq<User>): Video -> seq<LikedRow> {
    (v: Video) => Map(Filter(users, UserWithId(v.owner)), RowFor(l, v))
  }

  /** The rows one Like contributes: the `$lookup` of its video, the nested
      `$lookup` of that video's owner, and both `$unwind`s. */
  function RowsOfLike(videos: seq<Video>, users: seq<User>): Like -> seq<LikedRow> {
    (l: Like) => FlatMap(Filter(videos, VideoOfLike(l)), OwnerRows(l, users))
  }

  /** The first `$match`: Likes whose field `field` holds the actor's id. */
  function HasField(field: string, actor: Id): Like -> bool {
    (l: Like) => LikeField(l, field) == Some(actor)
  }

  /** The pipeline with its first `$match` on the Like field `field`, before
      `$sort`; `actor` is `req.user._id`. */
  function LikedRowsMatching(field: string, likes: seq<Like>, videos: seq<Video>, users: seq<User>, actor: Id)
    : seq<LikedRow>
  {
    FlatMap(Filter(likes, HasField(field, actor)), RowsOfLike(videos, users))
  }

  /** getLikedVideos as written: its `$match` names the field `LikedBy`. */
  function LikedVideosAsWritten(likes: seq<Like>, videos: seq<Video>, users: seq<User>, actor: Id)
    : (r: seq<LikedVideoEntry>)
    ensures |r| == |LikedRowsMatching("LikedBy", likes, videos, users, actor)|
  {
    var rows := LikedRowsMatching("LikedBy", likes, videos, users, actor);
    assert |SortDesc(rows, RowKey)| == |multiset(SortDesc(rows, RowKey))| == |rows|;
    Map(SortDesc(rows, RowKey), EntryOf)
  }

  /** The field names the pipeline reads are told apart by their first letter. */
  lemma LikeFieldCases(l: Like, id: Id)
    ensures LikeField(l, "LikedBy") == None
    ensures LikeField(l, "likedBy") == Some(l.likedBy)
    ensures LikeField(l, "video") == Some(id) <==> l.target == OnVideo(id)
  {
    assert "LikedBy"[0] == 'L' && "video"[0] == 'v' && "likedBy"[0] == 'l';
    assert "comment"[0] == 'c' && "tweet"[0] == 't';
  }

  /** No Like carries a `LikedBy` field, so as written the view is always empty. */
  lemma LikedVideosAsWrittenIsEmpty(likes: seq<Like>, videos: seq<Video>, users: seq<User>, actor: Id)
    ensures LikedVideosAsWritten(likes, videos, users, actor) == []
  {
    forall i | 0 <= i < |likes| ensures !HasField("LikedBy", actor)(likes[i]) {
      LikeFieldCases(likes[i], actor);
    }
    FilterNone(likes, HasField("LikedBy", actor));
  }

  /** The sorted rows of the corrected pipeline, matching on `likedBy`:
      newest Like first, and a permutation of the joined rows. */
  function LikedRows(likes: seq<Like>, videos: seq<Video>, users: seq<User>, actor: Id): (r: seq<LikedRow>)
    ensures SortedDesc(r, RowKey)
    ensures multiset(r) == multiset(LikedRowsMatching("likedBy", likes, videos, users, actor))
  {
    SortDesc(LikedRowsMatching("likedBy", likes, videos, users, actor), RowKey)
  }

  /** getLikedVideos with the field name the toggles write. */
  function LikedVideos(likes: seq<Like>, videos: seq<Video>, users: seq<User>, actor: Id)
    : (r: seq<LikedVideoEntry>)
    ensures |r| == |LikedRowsMatching("likedBy", likes, videos, users, actor)|
  {
    assert |LikedRows(likes, videos, users, actor)| == |multiset(LikedRows(likes, videos, users, actor))|;
    Map(LikedRows(likes, videos, users, actor), EntryOf)
  }

  /** A (Like, video, owner) triple the view joins. */
  ghost predicate Joined(l: Like, v: Video, u: User, actor: Id) {
    l.likedBy == actor && l.target == OnVideo(v.id) && u.id == v.owner
  }

  /** What one Like contributes: exactly its video joined with that video's
      owner, once per existing (video, owner) pair. */
  lemma RowsOfLikeMember(l: Like, videos: seq<Video>, users: seq<User>, row: LikedRow)
    requires row in RowsOfLike(videos, users)(l)
    ensures exists v, u :: v in videos && u in users && l.target == OnVideo(v.id) && u.id == v.owner
                           && row == RowFor(l, v)(u)
  {
    var vs := Filter(videos, VideoOfLike(l));
    var f := OwnerRows(l, users);
    assert row in FlatMap(vs, f);
    var j := FlatMapMember(vs, f, row);
    var v := vs[j];
    assert v in videos && VideoOfLike(l)(v);
    LikeFieldCases(l, v.id);
    assert row in Map(Filter(users, UserWithId(v.owner)), RowFor(l, v));
    var n := MapFilterMember(users, UserWithId(v.owner), RowFor(l, v), row);
    var u := users[n];
    assert u.id == v.owner;
  }

  lemma RowsOfLikeContains(l: Like, videos: seq<Video>, users: seq<User>, v: Video, u: User)
    requires v in videos && u in users && l.target == OnVideo(v.id) && u.id == v.owner
    ensures RowFor(l, v)(u) in RowsOfLike(videos, users)(l)
  {
    LikeFieldCases(l, v.id);
    var vs := Filter(videos, VideoOfLike(l));
    var us := Filter(users, UserWithId(v.owner));
    var vj :| 0 <= vj < |videos| && videos[vj] == v;
    assert VideoOfLike(l)(videos[vj]);
    var j :| 0 <= j < |vs| && vs[j] == v;
    var un :| 0 <= un < |users| && users[un] == u;
    assert UserWithId(v.owner)(users[un]);
    var n :| 0 <= n < |us| && us[n] == u;
    var owned := Map(us, RowFor(l, v));
    assert owned == OwnerRows(l, users)(vs[j]);
    assert owned[n] == RowFor(l, v)(u);
    FlatMapContains(vs, OwnerRows(l, users), j, RowFor(l, v)(u));
  }

  /** The unsorted rows are exactly the joins of the actor's Likes. */
  lemma MatchingRowMember(likes: seq<Like>, videos: seq<Video>, users: seq<User>, actor: Id, row: LikedRow)
    requires row in LikedRowsMatching("likedBy", likes, videos, users, actor)
    ensures exists l, v, u :: l in likes && v in videos && u in users && Joined(l, v, u, actor)
                              && row == RowFor(l, v)(u)
  {
    var matched := Filter(likes, HasField("likedBy", actor));
    var i := FlatMapMember(matched, RowsOfLike(videos, users), row);
    var l := matched[i];
    assert l in likes && HasField("likedBy", actor)(l);
    LikeFieldCases(l, actor);
    RowsOfLikeMember(l, videos, users, row);
    var v, u :| v in videos && u in users && l.target == OnVideo(v.id) && u.id == v.owner
                && row == RowFor(l, v)(u);
    assert Joined(l, v, u, actor);
  }

  lemma MatchingRowContains(likes: seq<Like>, videos: seq<Video>, users: seq<User>, actor: Id,
                            l: Like, v: Video, u: User)
    requires l in likes && v in videos && u in users && Joined(l, v, u, actor)
    ensures RowFor(l, v)(u) in LikedRowsMatching("likedBy", likes, videos, users, actor)
  {
    RowsOfLikeContains(l, videos, users, v, u);
    LikeFieldCases(l, actor);
    var matched := Filter(likes, HasField("likedBy", actor));
    var li :| 0 <= li < |likes| && likes[li] == l;
    assert HasField("likedBy", actor)(likes[li]);
    var i :| 0 <= i < |matched| && matched[i] == l;
    FlatMapContains(matched, RowsOfLike(videos, users), i, RowFor(l, v)(u));
  }

  lemma SortedRowsContain(likes: seq<Like>, videos: seq<Video>, users: seq<User>, actor: Id, row: LikedRow)
    requires row in LikedRowsMatching("likedBy", likes, videos, users, actor)
    ensures row in LikedRows(likes, videos, users, actor)
  {
    assert row in multiset(LikedRowsMatching("likedBy", likes, videos, users, actor));
  }

  /** Every row of the corrected view is a video the actor liked, whose
      video and owner both exist. */
  lemma LikedVideosAreLikedByActor(likes: seq<Like>, videos: seq<Video>, users: seq<User>, actor: Id,
                                   k: nat)
    requires k < |LikedVideos(likes, videos, users, actor)|
    ensures exists l, v, u :: l in likes && v in videos && u in users && Joined(l, v, u, actor)
              && LikedVideos(likes, videos, users, actor)[k] == LikedVideoEntry(LikedVideoCardOf(v, u))
  {
    var sorted := LikedRows(likes, videos, users, actor);
    var row := sorted[k];
    assert LikedVideos(likes, videos, users, actor)[k] == EntryOf(row);
    assert row in multiset(sorted);
    MatchingRowMember(likes, videos, users, actor, row);
  }

  /** Every Like by the actor whose video and owner exist appears in the
      corrected view. */
  lemma LikedVideosIncludeEveryLike(likes: seq<Like>, videos: seq<Video>, users: seq<User>, actor: Id,
                                    l: Like, v: Video, u: User)
    requires l in likes && v in videos && u in users && Joined(l, v, u, actor)
    ensures LikedVideoEntry(LikedVideoCardOf(v, u)) in LikedVideos(likes, videos, users, actor)
  {
    var row := RowFor(l, v)(u);
    MatchingRowContains(likes, videos, users, actor, l, v, u);
    SortedRowsContain(likes, videos, users, actor, row);
    MapContains(LikedRows(likes, videos, users, actor), EntryOf, row);
    assert EntryOf(row) == LikedVideoEntry(LikedVideoCardOf(v, u));
  }
}
