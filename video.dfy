/** src/controllers/video.controller.js: the stage list getAllVideos builds,
    publishAVideo's checks and store effect, and getVideoById's view and
    store effects. */
module VideoController {
  import opened Basics
  import opened Aggregation
  import opened Store

  // ---------------------------------------------------------------------
  // getAllVideos

  /** The stages getAllVideos pushes: the Atlas text search over `title` and
      `description`, the owner filter, the published filter and `$sort`. */
  datatype Stage = Search(query: string) | MatchOwner(owner: Id) | MatchPublished
                 | Sort(field: string, ascending: bool)

  /** `$sort: {[sortBy]: sortType === 'asc' ? 1 : -1}` when both are given,
      `{createdAt: -1}` otherwise. */
  function SortFor(sortBy: Option<string>, sortType: Option<string>): Stage {
    if Truthy(sortBy) && Truthy(sortType) then Sort(sortBy.value, sortType.value == "asc")
    else Sort("createdAt", false)
  }

  /** The stage list for the given query parameters, once `userId` has
      passed validation. */
  function ListPipeline(query: Option<string>, userId: Option<string>, sortBy: Option<string>,
                        sortType: Option<string>): (r: seq<Stage>)
    ensures |r| == 2 + (if Truthy(query) then 1 else 0) + (if Truthy(userId) then 1 else 0)
    ensures r[|r| - 1] == SortFor(sortBy, sortType)
  {
    (if Truthy(query) then [Search(query.value)] else [])
    + (if Truthy(userId) then [MatchOwner(userId.value)] else [])
    + [MatchPublished, SortFor(sortBy, sortType)]
  }

  /** The pushes of getAllVideos. A `userId` that is present but invalid
      stops the handler before the published filter is pushed. */
  method BuildPipeline(query: Option<string>, sortBy: Option<string>, sortType: Option<string>,
                       userId: Option<string>, isValid: Id -> bool)
    returns (r: Outcome<seq<Stage>>)
    ensures Truthy(userId) && !isValid(userId.value) ==> r == Err(400, "Invalid userId")
    ensures !(Truthy(userId) && !isValid(userId.value)) ==> r == Ok(ListPipeline(query, userId, sortBy, sortType))
  {
    var pipeline: seq<Stage> := [];
    if Truthy(query) {
      pipeline := pipeline + [Search(query.value)];
    }
    ghost var searched := pipeline;
    assert searched == if Truthy(query) then [Search(query.value)] else [];
    if Truthy(userId) {
      if !isValid(userId.value) {
        return Err(400, "Invalid userId");
      }
      pipeline := pipeline + [MatchOwner(userId.value)];
    }
    ghost var filtered := pipeline;
    assert filtered == searched + (if Truthy(userId) then [MatchOwner(userId.value)] else []);
    pipeline := pipeline + [MatchPublished];
    if Truthy(sortBy) && Truthy(sortType) {
      pipeline := pipeline + [Sort(sortBy.value, sortType.value == "asc")];
    } else {
      pipeline := pipeline + [Sort("createdAt", false)];
    }
    assert pipeline == filtered + [MatchPublished, SortFor(sortBy, sortType)];
    r := Ok(pipeline);
  }

  /** The search stage is present exactly when `query` is truthy, and then it
      is the first stage and searches for `query`. */
  lemma SearchStageIffQuery(query: Option<string>, userId: Option<string>, sortBy: Option<string>,
                            sortType: Option<string>)
    ensures (exists k :: 0 <= k < |ListPipeline(query, userId, sortBy, sortType)|
                         && ListPipeline(query, userId, sortBy, sortType)[k].Search?) <==> Truthy(query)
    ensures forall k :: 0 <= k < |ListPipeline(query, userId, sortBy, sortType)|
                        && ListPipeline(query, userId, sortBy, sortType)[k].Search? ==>
              k == 0 && ListPipeline(query, userId, sortBy, sortType)[k] == Search(query.value)
  {
    var p := ListPipeline(query, userId, sortBy, sortType);
    if Truthy(query) {
      assert p[0].Search?;
    }
  }

  /** A valid `userId` adds exactly one owner filter; without a `userId`
      there is none. */
  lemma OwnerStageIffUserId(query: Option<string>, userId: Option<string>, sortBy: Option<string>,
                            sortType: Option<string>)
    ensures (exists k :: 0 <= k < |ListPipeline(query, userId, sortBy, sortType)|
                         && ListPipeline(query, userId, sortBy, sortType)[k].MatchOwner?) <==> Truthy(userId)
    ensures forall k, m :: (&& 0 <= k < |ListPipeline(query, userId, sortBy, sortType)|
                            && 0 <= m < |ListPipeline(query, userId, sortBy, sortType)|
                            && ListPipeline(query, userId, sortBy, sortType)[k].MatchOwner?
                            && ListPipeline(query, userId, sortBy, sortType)[m].MatchOwner?) ==> k == m
  {
    var p := ListPipeline(query, userId, sortBy, sortType);
    var i := if Truthy(query) then 1 else 0;
    forall k | 0 <= k < |p| && p[k].MatchOwner? ensures Truthy(userId) && k == i {
    }
    if Truthy(userId) {
      assert p[i].MatchOwner?;
    }
  }

  /** The owner filter there is filters on `userId`. */
  lemma OwnerStageIsUserId(query: Option<string>, userId: Option<string>, sortBy: Option<string>,
                           sortType: Option<string>)
    ensures forall k :: 0 <= k < |ListPipeline(query, userId, sortBy, sortType)|
                        && ListPipeline(query, userId, sortBy, sortType)[k].MatchOwner? ==>
              ListPipeline(query, userId, sortBy, sortType)[k] == MatchOwner(userId.value)
  {
  }

  /** The published filter is always present, after the search and owner
      stages, and the sort stage comes last. */
  lemma PublishedThenSortLast(query: Option<string>, userId: Option<string>, sortBy: Option<string>,
                              sortType: Option<string>)
    ensures var p := ListPipeline(query, userId, sortBy, sortType);
            && |p| >= 2 && p[|p| - 2] == MatchPublished && p[|p| - 1].Sort?
            && forall k :: 0 <= k < |p| && (p[k].Search? || p[k].MatchOwner?) ==> k < |p| - 2
  {
  }

  /** The sort rule: on `sortBy`, ascending exactly when `sortType` is
      "asc", when both are given; on `createdAt`, descending, otherwise. */
  lemma SortRule(query: Option<string>, userId: Option<string>, sortBy: Option<string>, sortType: Option<string>)
    ensures Last(ListPipeline(query, userId, sortBy, sortType)).Some?
    ensures var s := Last(ListPipeline(query, userId, sortBy, sortType)).value;
            && s.Sort?
            && (Truthy(sortBy) && Truthy(sortType) ==> s.field == sortBy.value && (s.ascending <==> sortType.value == "asc"))
            && (!(Truthy(sortBy) && Truthy(sortType)) ==> s.field == "createdAt" && !s.ascending)
  {
  }

  /** The condition one stage imposes on a video; `$sort` imposes none.
      `matches(q, v)` stands for the text search of `q` in `v`'s title and
      description. */
  predicate Admits(s: Stage, v: Video, matches: (string, Video) -> bool) {
    match s
    case Search(q) => matches(q, v)
    case MatchOwner(o) => v.owner == o
    case MatchPublished => v.isPublished
    case Sort(_, _) => true
  }

  function StageFilter(s: Stage, matches: (string, Video) -> bool): Video -> bool {
    (v: Video) => Admits(s, v, matches)
  }

  /** The sort key of a `$sort` stage; `key(f, v)` is the value of field
      `f` of `v`. */
  function SortKey(key: (string, Video) -> int, field: string, ascending: bool): Video -> int {
    (v: Video) => if ascending then -key(field, v) else key(field, v)
  }

  function RunStage(s: Stage, vs: seq<Video>, matches: (string, Video) -> bool, key: (string, Video) -> int)
    : seq<Video>
  {
    match s
    case Sort(f, asc) => SortDesc(vs, SortKey(key, f, asc))
    case _ => Filter(vs, StageFilter(s, matches))
  }

  /** The aggregation over the video collection. */
  function Run(stages: seq<Stage>, vs: seq<Video>, matches: (string, Video) -> bool, key: (string, Video) -> int)
    : seq<Video>
    decreases |stages|
  {
    if stages == [] then vs else Run(stages[1..], RunStage(stages[0], vs, matches, key), matches, key)
  }

  lemma RunStageMembership(s: Stage, vs: seq<Video>, matches: (string, Video) -> bool,
                           key: (string, Video) -> int, v: Video)
    ensures v in RunStage(s, vs, matches, key) <==> v in vs && Admits(s, v, matches)
  {
    if s.Sort? {
      assert v in multiset(vs) <==> v in multiset(RunStage(s, vs, matches, key));
    } else {
      if v in vs && Admits(s, v, matches) {
        var i :| 0 <= i < |vs| && vs[i] == v;
        assert StageFilter(s, matches)(vs[i]);
      }
      if v in RunStage(s, vs, matches, key) {
        var k :| 0 <= k < |RunStage(s, vs, matches, key)| && RunStage(s, vs, matches, key)[k] == v;
        assert StageFilter(s, matches)(v);
      }
    }
  }

  /** A video survives the stages exactly when every stage admits it. */
  lemma {:induction false} RunMembership(stages: seq<Stage>, vs: seq<Video>, matches: (string, Video) -> bool,
                                         key: (string, Video) -> int, v: Video)
    ensures v in Run(stages, vs, matches, key) <==>
              v in vs && forall k :: 0 <= k < |stages| ==> Admits(stages[k], v, matches)
    decreases |stages|
  {
    if stages != [] {
      var next := RunStage(stages[0], vs, matches, key);
      RunMembership(stages[1..], next, matches, key, v);
      RunStageMembership(stages[0], vs, matches, key, v);
      assert forall k :: 1 <= k < |stages| ==> stages[k] == stages[1..][k - 1];
      if v in vs && forall k :: 0 <= k < |stages| ==> Admits(stages[k], v, matches) {
        assert forall k :: 0 <= k < |stages[1..]| ==> Admits(stages[1..][k], v, matches) by {
          forall k | 0 <= k < |stages[1..]| ensures Admits(stages[1..][k], v, matches) {
            assert stages[1..][k] == stages[k + 1];
          }
        }
      }
    }
  }

  /** getAllVideos lists exactly the published videos of the collection that
      match the search, when there is one, and belong to `userId`, when it
      is given. */
  lemma ListedVideos(query: Option<string>, userId: Option<string>, sortBy: Option<string>, sortType: Option<string>,
                     videos: seq<Video>, matches: (string, Video) -> bool, key: (string, Video) -> int, v: Video)
    ensures v in Run(ListPipeline(query, userId, sortBy, sortType), videos, matches, key) <==>
              && v in videos && v.isPublished
              && (Truthy(userId) ==> v.owner == userId.value)
              && (Truthy(query) ==> matches(query.value, v))
  {
    var p := ListPipeline(query, userId, sortBy, sortType);
    RunMembership(p, videos, matches, key, v);
    PublishedThenSortLast(query, userId, sortBy, sortType);
    var n := |p|;
    if Truthy(query) {
      assert p[0] == Search(query.value);
    }
    if Truthy(userId) {
      var i := if Truthy(query) then 1 else 0;
      assert p[i] == MatchOwner(userId.value);
    }
    if v in videos && v.isPublished && (Truthy(userId) ==> v.owner == userId.value)
       && (Truthy(query) ==> matches(query.value, v)) {
      forall k | 0 <= k < n ensures Admits(p[k], v, matches) {
      }
    }
  }

  /** Running one more stage after a list of stages applies it to their result. */
  lemma {:induction false} RunAppend(stages: seq<Stage>, s: Stage, vs: seq<Video>,
                                     matches: (string, Video) -> bool, key: (string, Video) -> int)
    ensures Run(stages + [s], vs, matches, key) == RunStage(s, Run(stages, vs, matches, key), matches, key)
    decreases |stages|
  {
    if stages == [] {
      assert ([] + [s])[1..] == [];
    } else {
      assert (stages + [s])[1..] == stages[1..] + [s];
      RunAppend(stages[1..], s, RunStage(stages[0], vs, matches, key), matches, key);
    }
  }

  /** getAllVideos lists its videos in the order of the sort rule: by
      `sortBy`, ascending exactly when `sortType` is "asc", when both are
      given, and newest `createdAt` first otherwise. */
  lemma ListedVideosOrder(query: Option<string>, userId: Option<string>, sortBy: Option<string>,
                          sortType: Option<string>, videos: seq<Video>, matches: (string, Video) -> bool,
                          key: (string, Video) -> int)
    ensures var r := Run(ListPipeline(query, userId, sortBy, sortType), videos, matches, key);
            && (Truthy(sortBy) && Truthy(sortType) && sortType.value == "asc" ==>
                  forall i, j :: 0 <= i < j < |r| ==> key(sortBy.value, r[i]) <= key(sortBy.value, r[j]))
            && (Truthy(sortBy) && Truthy(sortType) && sortType.value != "asc" ==>
                  forall i, j :: 0 <= i < j < |r| ==> key(sortBy.value, r[i]) >= key(sortBy.value, r[j]))
            && (!(Truthy(sortBy) && Truthy(sortType)) ==>
                  forall i, j :: 0 <= i < j < |r| ==> key("createdAt", r[i]) >= key("createdAt", r[j]))
  {
    var p := ListPipeline(query, userId, sortBy, sortType);
    var stage := SortFor(sortBy, sortType);
    var front := p[..|p| - 1];
    assert p == front + [stage];
    RunAppend(front, stage, videos, matches, key);
    var r := Run(p, videos, matches, key);
    assert SortedDesc(r, SortKey(key, stage.field, stage.ascending));
  }

  // ---------------------------------------------------------------------
  // publishAVideo

  /** What the upload service returns for a file that was uploaded. */
  datatype Upload = Upload(url: string, duration: real)

  /** `field?.trim() === ""`: true only for a present string whose trimmed
      form is empty; an absent field passes. */
  predicate BlankField(f: Option<string>) {
    f.Some? && Trim(f.value) == ""
  }

  /** The checks of publishAVideo in order. The local paths and the
      upload results stand for the multipart files and for the upload
      service's answers. */
  function PublishCheck(title: Option<string>, description: Option<string>, videoLocalPath: Option<string>,
                        thumbnailLocalPath: Option<string>, video: Option<Upload>, thumbnail: Option<Upload>)
    : (r: Outcome<()>)
    ensures r.Ok? <==> !BlankField(title) && !BlankField(description) && Truthy(videoLocalPath)
                       && Truthy(thumbnailLocalPath) && video.Some? && thumbnail.Some?
    ensures !BlankField(title) && !BlankField(description) && !Truthy(videoLocalPath) ==>
              r == Err(400, "Video is required!!")
    ensures !BlankField(title) && !BlankField(description) && Truthy(videoLocalPath) && !Truthy(thumbnailLocalPath) ==>
              r == Err(400, "Thumnail is required!!")
    ensures (&& !BlankField(title) && !BlankField(description) && Truthy(videoLocalPath)
             && Truthy(thumbnailLocalPath) && video.None?) ==>
              r == Err(400, "Error while uploading video")
    ensures (&& !BlankField(title) && !BlankField(description) && Truthy(videoLocalPath)
             && Truthy(thumbnailLocalPath) && video.Some? && thumbnail.None?) ==>
              r == Err(400, "Error while uploading thumbnail")
  {
    if BlankField(title) || BlankField(description) then Err(400, "All fields are required")
    else if !Truthy(videoLocalPath) then Err(400, "Video is required!!")
    else if !Truthy(thumbnailLocalPath) then Err(400, "Thumnail is required!!")
    else if video.None? then Err(400, "Error while uploading video")
    else if thumbnail.None? then Err(400, "Error while uploading thumbnail")
    else Ok(())
  }

  /** The field check rejects a title or description made only of
      whitespace, the empty string included, and nothing else. */
  lemma BlankFieldsRejected(title: Option<string>, description: Option<string>, videoLocalPath: Option<string>,
                            thumbnailLocalPath: Option<string>, video: Option<Upload>, thumbnail: Option<Upload>)
    ensures PublishCheck(title, description, videoLocalPath, thumbnailLocalPath, video, thumbnail)
              == Err(400, "All fields are required")
            <==> (title.Some? && AllWhitespace(title.value)) || (description.Some? && AllWhitespace(description.value))
  {
    BlankFieldIff(title);
    BlankFieldIff(description);
  }

  lemma BlankFieldIff(f: Option<string>)
    ensures BlankField(f) <==> f.Some? && AllWhitespace(f.value)
  {
    if f.Some? { TrimmedEmptyIffBlank(f.value); }
  }

  /** With both text fields absent, only the files and the uploads decide. */
  lemma AbsentFieldsPass(videoLocalPath: Option<string>, thumbnailLocalPath: Option<string>,
                         video: Option<Upload>, thumbnail: Option<Upload>)
    ensures PublishCheck(None, None, videoLocalPath, thumbnailLocalPath, video, thumbnail).Ok? <==>
              Truthy(videoLocalPath) && Truthy(thumbnailLocalPath) && video.Some? && thumbnail.Some?
  {
  }

  method PublishAVideo(db: Db, title: Option<string>, description: Option<string>, videoLocalPath: Option<string>,
                       thumbnailLocalPath: Option<string>, video: Option<Upload>, thumbnail: Option<Upload>,
                       actor: Id, newId: Id, now: int)
    returns (r: Outcome<Video>)
    requires db.Valid()
    requires forall i :: 0 <= i < |db.videos| ==> db.videos[i].id != newId
    modifies db`videos
    ensures db.Valid()
    ensures match PublishCheck(title, description, videoLocalPath, thumbnailLocalPath, video, thumbnail)
            case Err(status, message) => r == Err(status, message) && db.videos == old(db.videos)
            case Ok(_) =>
              && r == Ok(Video(newId, actor, title, description, video.value.url, thumbnail.value.url,
                               video.value.duration, 0, true, now))
              && db.videos == old(db.videos) + [r.value]
  {
    match PublishCheck(title, description, videoLocalPath, thumbnailLocalPath, video, thumbnail)
    case Err(status, message) =>
      r := Err(status, message);
    case Ok(_) =>
      var publish := Video(newId, actor, title, description, video.value.url, thumbnail.value.url,
                           video.value.duration, 0, true, now);
      UniqueAppend(db.videos, publish, VideoKey);
      db.videos := db.videos + [publish];
      r := Ok(publish);
  }

  // ---------------------------------------------------------------------
  // getVideoById

  /** The projected owner: `_id`, `username`, `avatar.url`, `subscribersCount`
      and `isSubscribed`. */
  datatype VideoOwnerCard = VideoOwnerCard(id: Id, username: string, avatarUrl: string,
                                           subscribersCount: nat, isSubscribed: bool)

  /** The projected video. `comments` is listed in the projection but the
      document has no such field, so it is absent. */
  datatype VideoView = VideoView(id: Id, videoFileUrl: string, title: Option<string>,
                                 description: Option<string>, views: nat, createdAt: int, duration: real,
                                 owner: Option<VideoOwnerCard>, likesCount: nat, isLiked: bool)

  /** The operands `$in` compares: an id, or a whole Subscription document. */
  datatype InOperand = IdOperand(id: Id) | SubscriptionOperand(doc: Subscription)

  function AsOperand(s: Subscription): InOperand { SubscriptionOperand(s) }

  /** `isSubscribed` as written: `$in: [actor, "$subscribers"]` looks for the
      actor's id among the Subscription documents themselves. */
  function IsSubscribedAsWritten(actor: Option<Id>, subscribers: seq<Subscription>): bool {
    actor.Some? && IdOperand(actor.value) in Map(subscribers, AsOperand)
  }

  /** `isSubscribed` over the `subscriber` field, as the like flag does. */
  function IsSubscribed(actor: Option<Id>, subscribers: seq<Subscription>): bool {
    ActorIn(actor, Map(subscribers, SubscriberOf))
  }

  /** An id never equals a document, so as written no actor is ever
      reported as subscribed. */
  lemma IsSubscribedAsWrittenNeverHolds(actor: Option<Id>, subscribers: seq<Subscription>)
    ensures !IsSubscribedAsWritten(actor, subscribers)
  {
    if actor.Some? {
      var ops := Map(subscribers, AsOperand);
      forall k | 0 <= k < |ops| ensures ops[k] != IdOperand(actor.value) {
        assert ops[k] == SubscriptionOperand(subscribers[k]);
      }
    }
  }

  /** The intended flag holds exactly when the actor has a Subscription to
      the channel. */
  lemma IsSubscribedIffSubscribed(actor: Option<Id>, subs: seq<Subscription>, channel: Id)
    ensures IsSubscribed(actor, Filter(subs, ToChannel(channel))) <==>
              exists i :: 0 <= i < |subs| && subs[i].channel == channel && actor == Some(subs[i].subscriber)
  {
    var theirs := Filter(subs, ToChannel(channel));
    var ids := Map(theirs, SubscriberOf);
    if IsSubscribed(actor, theirs) {
      var k :| 0 <= k < |ids| && actor == Some(ids[k]);
      var i :| 0 <= i < |subs| && subs[i] == theirs[k];
      assert ToChannel(channel)(theirs[k]);
    }
    if exists i :: 0 <= i < |subs| && subs[i].channel == channel && actor == Some(subs[i].subscriber) {
      var i :| 0 <= i < |subs| && subs[i].channel == channel && actor == Some(subs[i].subscriber);
      assert ToChannel(channel)(subs[i]);
      var k :| 0 <= k < |theirs| && theirs[k] == subs[i];
      assert ids[k] == subs[i].subscriber;
    }
  }

  function OwnerCardFor(u: User, subs: seq<Subscription>, actor: Option<Id>,
                        flag: (Option<Id>, seq<Subscription>) -> bool): VideoOwnerCard
  {
    var subscribers := Filter(subs, ToChannel(u.id));
    VideoOwnerCard(u.id, u.username, u.avatarUrl, |subscribers|, flag(actor, subscribers))
  }

  /** The video with its likes, its owner collapsed with `$first`, and the
      projection; `flag` computes `isSubscribed`. */
  function ViewOf(v: Video, likes: seq<Like>, users: seq<User>, subs: seq<Subscription>, actor: Option<Id>,
                  flag: (Option<Id>, seq<Subscription>) -> bool): (r: VideoView)
    ensures r.id == v.id && r.views == v.views && r.createdAt == v.createdAt
    ensures r.owner.Some? ==> r.owner.value.id == v.owner
    ensures r.likesCount <= |likes|
    ensures actor.None? ==> !r.isLiked
  {
    var likesOf := Filter(likes, LikesOn(OnVideo(v.id)));
    var owner := match First(Filter(users, UserWithId(v.owner)))
                 case None => None
                 case Some(u) => Some(OwnerCardFor(u, subs, actor, flag));
    VideoView(v.id, v.videoFileUrl, v.title, v.description, v.views, v.createdAt, v.duration, owner,
              |likesOf|, ActorIn(actor, Map(likesOf, LikedByOf)))
  }

  function ViewFor(likes: seq<Like>, users: seq<User>, subs: seq<Subscription>, actor: Option<Id>,
                   flag: (Option<Id>, seq<Subscription>) -> bool): Video -> VideoView
  {
    (v: Video) => ViewOf(v, likes, users, subs, actor, flag)
  }

  /** The aggregation's result array for `videoId`. */
  function VideoById(videos: seq<Video>, likes: seq<Like>, users: seq<User>, subs: seq<Subscription>,
                     videoId: Id, actor: Option<Id>, flag: (Option<Id>, seq<Subscription>) -> bool)
    : (r: seq<VideoView>)
    ensures forall k :: 0 <= k < |r| ==> r[k].id == videoId
    ensures r == [] <==> forall i :: 0 <= i < |videos| ==> videos[i].id != videoId
  {
    var found := Filter(videos, VideoWithId(videoId));
    var r := Map(found, ViewFor(likes, users, subs, actor, flag));
    assert forall k :: 0 <= k < |r| ==> r[k].id == videoId by {
      forall k | 0 <= k < |r| ensures r[k].id == videoId {
        assert VideoWithId(videoId)(found[k]);
        assert r[k] == ViewOf(found[k], likes, users, subs, actor, flag);
      }
    }
    assert (forall i :: 0 <= i < |videos| ==> videos[i].id != videoId) ==> found == [] by {
      if forall i :: 0 <= i < |videos| ==> videos[i].id != videoId {
        FilterNone(videos, VideoWithId(videoId));
      }
    }
    assert found == [] ==> forall i :: 0 <= i < |videos| ==> videos[i].id != videoId by {
      if found == [] {
        forall i | 0 <= i < |videos| ensures videos[i].id != videoId {
          assert !VideoWithId(videoId)(videos[i]);
        }
      }
    }
    r
  }

  /** The derived fields of the view: `likesCount` counts the video's Likes,
      `isLiked` says whether the actor has one, and the owner's
      `subscribersCount` counts the Subscriptions to the owner's channel. */
  lemma VideoViewFields(v: Video, likes: seq<Like>, users: seq<User>, subs: seq<Subscription>, actor: Option<Id>)
    requires Unique(likes, LikeKey) && Unique(subs, SubscriptionKey)
    ensures ViewOf(v, likes, users, subs, actor, IsSubscribed).likesCount
            == |KeysWhere(likes, LikesOn(OnVideo(v.id)), LikeKey)|
    ensures ViewOf(v, likes, users, subs, actor, IsSubscribed).isLiked <==>
              exists i :: 0 <= i < |likes| && likes[i].target == OnVideo(v.id) && actor == Some(likes[i].likedBy)
    ensures ViewOf(v, likes, users, subs, actor, IsSubscribed).owner.Some? ==>
              && ViewOf(v, likes, users, subs, actor, IsSubscribed).owner.value.id == v.owner
              && ViewOf(v, likes, users, subs, actor, IsSubscribed).owner.value.subscribersCount
                 == |KeysWhere(subs, ToChannel(v.owner), SubscriptionKey)|
              && (ViewOf(v, likes, users, subs, actor, IsSubscribed).owner.value.isSubscribed <==>
                    exists i :: 0 <= i < |subs| && subs[i].channel == v.owner && actor == Some(subs[i].subscriber))
  {
    LikesCountIsDistinctLikes(likes, OnVideo(v.id));
    ActorLikedIff(likes, OnVideo(v.id), actor);
    var owners := Filter(users, UserWithId(v.owner));
    if owners != [] {
      assert UserWithId(v.owner)(owners[0]);
      FilterSizeIsKeyCount(subs, ToChannel(v.owner), SubscriptionKey);
      IsSubscribedIffSubscribed(actor, subs, v.owner);
    }
  }

  /** The `views` increment, on the video `findByIdAndUpdate` finds. */
  function ViewsIncremented(videos: seq<Video>, videoId: Id): seq<Video> {
    match FirstIndex(videos, VideoWithId(videoId))
    case None => videos
    case Some(i) => videos[i := videos[i].(views := videos[i].views + 1)]
  }

  /** The `$addToSet` on the actor's `watchHistory`. */
  function WatchHistoryAdded(users: seq<User>, actor: Id, videoId: Id): seq<User> {
    match FirstIndex(users, UserWithId(actor))
    case None => users
    case Some(i) => users[i := users[i].(watchHistory := AddToSet(users[i].watchHistory, videoId))]
  }

  /** With unique ids, the video with the id gains exactly one view and no
      other video changes. */
  lemma ViewsIncrementedByOne(videos: seq<Video>, videoId: Id)
    requires Unique(videos, VideoKey)
    ensures |ViewsIncremented(videos, videoId)| == |videos|
    ensures forall k :: 0 <= k < |videos| ==>
              ViewsIncremented(videos, videoId)[k]
              == if videos[k].id == videoId then videos[k].(views := videos[k].views + 1) else videos[k]
  {
    match FirstIndex(videos, VideoWithId(videoId))
    case None =>
      assert forall k :: 0 <= k < |videos| ==> !VideoWithId(videoId)(videos[k]);
    case Some(i) =>
      forall k | 0 <= k < |videos| && k != i ensures videos[k].id != videoId {
        if k < i {
          assert VideoKey(videos[k]) != VideoKey(videos[i]);
        } else {
          assert VideoKey(videos[i]) != VideoKey(videos[k]);
        }
      }
  }

  /** After the call the actor's history holds the video exactly once when
      it held it at most once, and every other user is unchanged. */
  lemma WatchHistoryIsSetInsert(users: seq<User>, actor: Id, videoId: Id)
    requires Unique(users, UserKey)
    ensures |WatchHistoryAdded(users, actor, videoId)| == |users|
    ensures forall k :: 0 <= k < |users| && users[k].id != actor ==> WatchHistoryAdded(users, actor, videoId)[k] == users[k]
    ensures forall k :: 0 <= k < |users| && users[k].id == actor ==>
              && WatchHistoryAdded(users, actor, videoId)[k].watchHistory == AddToSet(users[k].watchHistory, videoId)
              && videoId in WatchHistoryAdded(users, actor, videoId)[k].watchHistory
              && (NoDuplicates(users[k].watchHistory) ==> NoDuplicates(WatchHistoryAdded(users, actor, videoId)[k].watchHistory))
  {
    match FirstIndex(users, UserWithId(actor))
    case None =>
      assert forall k :: 0 <= k < |users| ==> !UserWithId(actor)(users[k]);
    case Some(i) =>
      forall k | 0 <= k < |users| && k != i ensures users[k].id != actor {
        if k < i {
          assert UserKey(users[k]) != UserKey(users[i]);
        } else {
          assert UserKey(users[i]) != UserKey(users[k]);
        }
      }
  }

  lemma IncrementKeepsIds(videos: seq<Video>, videoId: Id)
    requires Unique(videos, VideoKey)
    ensures Unique(ViewsIncremented(videos, videoId), VideoKey)
  {
    match FirstIndex(videos, VideoWithId(videoId))
    case None =>
    case Some(i) => UniqueReplace(videos, i, videos[i].(views := videos[i].views + 1), VideoKey);
  }

  lemma WatchHistoryKeepsIds(users: seq<User>, actor: Id, videoId: Id)
    requires Unique(users, UserKey)
    ensures Unique(WatchHistoryAdded(users, actor, videoId), UserKey)
  {
    match FirstIndex(users, UserWithId(actor))
    case None =>
    case Some(i) =>
      UniqueReplace(users, i, users[i].(watchHistory := AddToSet(users[i].watchHistory, videoId)), UserKey);
  }

  /** The view is composed before the increment: it shows one view fewer
      than the store holds afterwards. */
  lemma ViewShowsCountBeforeIncrement(videos: seq<Video>, likes: seq<Like>, users: seq<User>,
                                      subs: seq<Subscription>, videoId: Id, actor: Option<Id>, k: nat)
    requires Unique(videos, VideoKey) && k < |videos| && videos[k].id == videoId
    ensures VideoById(videos, likes, users, subs, videoId, actor, IsSubscribed) != []
    ensures VideoById(videos, likes, users, subs, videoId, actor, IsSubscribed)[0].views + 1
            == ViewsIncremented(videos, videoId)[k].views
  {
    ViewsIncrementedByOne(videos, videoId);
    var found := Filter(videos, VideoWithId(videoId));
    assert VideoWithId(videoId)(videos[k]);
    assert videos[k] in found;
    forall m | 0 <= m < |videos| && m != k ensures videos[m].id != videoId {
      if m < k { assert VideoKey(videos[m]) != VideoKey(videos[k]); }
      if m > k { assert VideoKey(videos[k]) != VideoKey(videos[m]); }
    }
    var j := FilterSource(videos, VideoWithId(videoId), 0);
    assert j == k;
  }

  /** getVideoById: the view, then the increment, then the history update. */
  method GetVideoById(db: Db, videoId: Id, actor: Id, isValid: Id -> bool) returns (r: Outcome<seq<VideoView>>)
    requires db.Valid()
    modifies db`videos, db`users
    ensures db.Valid()
    ensures !isValid(videoId) ==>
              r == Err(400, "VideoId is not valid!!") && db.videos == old(db.videos) && db.users == old(db.users)
    ensures isValid(videoId) ==>
              && r == Ok(VideoById(old(db.videos), db.likes, old(db.users), db.subscriptions, videoId, Some(actor),
                                   IsSubscribed))
              && db.videos == ViewsIncremented(old(db.videos), videoId)
              && db.users == WatchHistoryAdded(old(db.users), actor, videoId)
  {
    if !isValid(videoId) {
      return Err(400, "VideoId is not valid!!");
    }
    var video := VideoById(db.videos, db.likes, db.users, db.subscriptions, videoId, Some(actor), IsSubscribed);
    RecordView(db, videoId, actor);
    r := Ok(video);
  }

  /** The two writes of getVideoById: the `views` increment and the
      `$addToSet` on the actor's watch history. */
  method RecordView(db: Db, videoId: Id, actor: Id)
    requires db.Valid()
    modifies db`videos, db`users
    ensures db.Valid()
    ensures db.videos == ViewsIncremented(old(db.videos), videoId)
    ensures db.users == WatchHistoryAdded(old(db.users), actor, videoId)
  {
    IncrementKeepsIds(db.videos, videoId);
    db.videos := ViewsIncremented(db.videos, videoId);
    WatchHistoryKeepsIds(db.users, actor, videoId);
    db.users := WatchHistoryAdded(db.users, actor, videoId);
  }
}
