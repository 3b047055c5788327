/** The documents of the six collections the controllers read and write, and
    the store that holds them. A collection is a sequence in its natural
    order: `create` appends, `findByIdAndDelete` removes the document found and
    `findByIdAndUpdate` replaces it where it stands. */
module Store {
  import opened Basics
  import opened Aggregation

  /** A user, reduced to what the views project and what getVideoById writes. */
  datatype User = User(id: Id, username: string, fullName: string, avatarUrl: string,
                       watchHistory: seq<Id>)

  /** A video. `title` and `description` are absent when publishAVideo was
      called without them. */
  datatype Video = Video(id: Id, owner: Id, title: Option<string>, description: Option<string>,
                         videoFileUrl: string, thumbnailUrl: string, duration: real,
                         views: nat, isPublished: bool, createdAt: int)

  datatype Comment = Comment(id: Id, video: Id, owner: Id, content: string, createdAt: int)

  /** A Like sets exactly one of the fields `video`, `comment` and `tweet`. */
  datatype LikeTarget = OnVideo(video: Id) | OnComment(comment: Id) | OnTweet(tweet: Id)

  datatype Like = Like(id: Id, target: LikeTarget, likedBy: Id, createdAt: int)

  datatype Subscription = Subscription(id: Id, channel: Id, subscriber: Id, createdAt: int)

  datatype Playlist = Playlist(id: Id, name: string, description: string, owner: Id,
                               videos: seq<Id>, createdAt: int, updatedAt: int)

  function UserKey(u: User): Id { u.id }
  function VideoKey(v: Video): Id { v.id }
  function CommentKey(c: Comment): Id { c.id }
  function LikeKey(l: Like): Id { l.id }
  function SubscriptionKey(s: Subscription): Id { s.id }
  function PlaylistKey(p: Playlist): Id { p.id }
  function ChannelOf(s: Subscription): Id { s.channel }
  function SubscriberOf(s: Subscription): Id { s.subscriber }

  /** The conditions `findById(id)` uses, one per collection. */
  function UserWithId(id: Id): User -> bool { (u: User) => u.id == id }
  function VideoWithId(id: Id): Video -> bool { (v: Video) => v.id == id }
  function CommentWithId(id: Id): Comment -> bool { (c: Comment) => c.id == id }
  function VideosOf(owner: Id): Video -> bool { (v: Video) => v.owner == owner }
  /** The Subscriptions of a channel: `$match: {channel: c}`, or a
      `$lookup` of "subscriptions" on `foreignField: "channel"`. */
  function ToChannel(c: Id): Subscription -> bool { (s: Subscription) => s.channel == c }
  /** The Likes of one video, comment or tweet: a `$lookup` of "likes" on
      that target's field. */
  function LikesOn(target: LikeTarget): Like -> bool { (l: Like) => l.target == target }
  function LikedByOf(l: Like): Id { l.likedBy }
  function PlaylistWithId(id: Id): Playlist -> bool { (p: Playlist) => p.id == id }

  /** The owner sub-object several views project: `username`, `fullName`
      and `avatar.url` only. */
  datatype OwnerCard = OwnerCard(username: string, fullName: string, avatarUrl: string)

  function OwnerCardOf(u: User): OwnerCard {
    OwnerCard(u.username, u.fullName, u.avatarUrl)
  }

  /** `$first` of a lookup of users on `_id`: absent exactly when no user has
      the id, and otherwise the first user in collection order that has it. */
  lemma FirstUserWithId(users: seq<User>, id: Id)
    ensures First(Filter(users, UserWithId(id))).None? <==> forall j :: 0 <= j < |users| ==> users[j].id != id
    ensures First(Filter(users, UserWithId(id))).Some? ==>
              exists j :: 0 <= j < |users| && users[j].id == id && First(Filter(users, UserWithId(id))) == Some(users[j])
                          && forall m :: 0 <= m < j ==> users[m].id != id
  {
    var p := UserWithId(id);
    if Filter(users, p) != [] {
      FirstOfFilter(users, p);
      var j :| 0 <= j < |users| && p(users[j]) && First(Filter(users, p)) == Some(users[j])
               && forall m :: 0 <= m < j ==> !p(users[m]);
      assert users[j].id == id;
    } else {
      forall j | 0 <= j < |users| ensures users[j].id != id {
        assert users[j] !in Filter(users, p);
        assert !p(users[j]);
      }
    }
    if forall j :: 0 <= j < |users| ==> users[j].id != id {
      FilterNone(users, p);
    }
  }

  /** `$in: [actor, "$likes.likedBy"]` over the Likes of one target holds
      exactly when the actor has a Like on that target. */
  lemma ActorLikedIff(likes: seq<Like>, target: LikeTarget, actor: Option<Id>)
    ensures ActorIn(actor, Map(Filter(likes, LikesOn(target)), LikedByOf)) <==>
              exists i :: 0 <= i < |likes| && likes[i].target == target && actor == Some(likes[i].likedBy)
  {
    ActorInMapFilter(likes, LikesOn(target), LikedByOf, actor);
    if ActorIn(actor, Map(Filter(likes, LikesOn(target)), LikedByOf)) {
      var i :| 0 <= i < |likes| && LikesOn(target)(likes[i]) && actor == Some(LikedByOf(likes[i]));
      assert likes[i].target == target && actor == Some(likes[i].likedBy);
    }
    if exists i :: 0 <= i < |likes| && likes[i].target == target && actor == Some(likes[i].likedBy) {
      var i :| 0 <= i < |likes| && likes[i].target == target && actor == Some(likes[i].likedBy);
      assert LikesOn(target)(likes[i]) && actor == Some(LikedByOf(likes[i]));
    }
  }

  /** `$size` of the Likes of one target counts distinct Like documents. */
  lemma LikesCountIsDistinctLikes(likes: seq<Like>, target: LikeTarget)
    requires Unique(likes, LikeKey)
    ensures |Filter(likes, LikesOn(target))| == |KeysWhere(likes, LikesOn(target), LikeKey)|
  {
    FilterSizeIsKeyCount(likes, LikesOn(target), LikeKey);
  }

  /** The database. Every collection keeps its `_id`s unique. */
  class Db {
    var users: seq<User>
    var videos: seq<Video>
    var comments: seq<Comment>
    var likes: seq<Like>
    var subscriptions: seq<Subscription>
    var playlists: seq<Playlist>

    ghost predicate Valid()
      reads this
    {
      && Unique(users, UserKey)
      && Unique(videos, VideoKey)
      && Unique(comments, CommentKey)
      && Unique(likes, LikeKey)
      && Unique(subscriptions, SubscriptionKey)
      && Unique(playlists, PlaylistKey)
    }

    constructor ()
      ensures Valid()
      ensures users == [] && videos == [] && comments == []
      ensures likes == [] && subscriptions == [] && playlists == []
    {
      users, videos, comments := [], [], [];
      likes, subscriptions, playlists := [], [], [];
    }
  }
}
