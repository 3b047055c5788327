/** src/controllers/subscription.controller.js: toggleSubscription and the
    two subscription list views. */
module SubscriptionController {
  import opened Basics
  import opened Aggregation
  import opened Store
  import opened Toggle

  /** `$match: {subscriber: id}`. */
  function BySubscriber(id: Id): Subscription -> bool {
    (s: Subscription) => s.subscriber == id
  }

  /** The `findOne` condition: `{channel: channelId, subscriber: actor}`. */
  function SubMatch(channel: Id, subscriber: Id): Subscription -> bool {
    (s: Subscription) => s.channel == channel && s.subscriber == subscriber
  }

  /** Every Subscription that is not the pair's. */
  function NotSubMatch(channel: Id, subscriber: Id): Subscription -> bool {
    (s: Subscription) => !(s.channel == channel && s.subscriber == subscriber)
  }

  /** The relationship a Subscription records. */
  function PairOf(s: Subscription): (Id, Id) {
    (s.channel, s.subscriber)
  }

  /** The Subscription collection after one toggle of `actor` on `channel`. */
  function SubscriptionsToggled(subs: seq<Subscription>, channel: Id, actor: Id, newId: Id, now: int)
    : seq<Subscription>
  {
    Toggled(subs, SubMatch(channel, actor), Subscription(newId, channel, actor, now))
  }

  /** A toggle moves the pair's row count by exactly one. */
  lemma ToggleFlipsSubscription(subs: seq<Subscription>, channel: Id, actor: Id, newId: Id, now: int)
    ensures Matches(SubscriptionsToggled(subs, channel, actor, newId, now), SubMatch(channel, actor))
            == if Matches(subs, SubMatch(channel, actor)) == 0 then 1
               else Matches(subs, SubMatch(channel, actor)) - 1
  {
    ToggleCount(subs, SubMatch(channel, actor), Subscription(newId, channel, actor, now));
  }

  /** Rows of every other (channel, subscriber) pair are kept, in order. */
  lemma ToggleKeepsOtherSubscriptions(subs: seq<Subscription>, channel: Id, actor: Id, newId: Id, now: int)
    ensures Filter(SubscriptionsToggled(subs, channel, actor, newId, now), NotSubMatch(channel, actor))
            == Filter(subs, NotSubMatch(channel, actor))
  {
    ToggleKeepsOthers(subs, SubMatch(channel, actor), Subscription(newId, channel, actor, now),
                      NotSubMatch(channel, actor));
  }

  /** Subscribing and then unsubscribing restores the collection exactly. */
  lemma ToggleSubscriptionTwiceFromUnsubscribed(subs: seq<Subscription>, channel: Id, actor: Id,
                                                id1: Id, now1: int, id2: Id, now2: int)
    requires Matches(subs, SubMatch(channel, actor)) == 0
    ensures SubscriptionsToggled(SubscriptionsToggled(subs, channel, actor, id1, now1), channel, actor, id2, now2)
            == subs
  {
    ToggleTwiceFromAbsent(subs, SubMatch(channel, actor), Subscription(id1, channel, actor, now1),
                          Subscription(id2, channel, actor, now2));
  }

  /** Unsubscribing and subscribing again restores every relationship; only
      the re-created row's `_id` and `createdAt` are new. */
  lemma ToggleSubscriptionTwiceFromSubscribed(subs: seq<Subscription>, channel: Id, actor: Id,
                                              id1: Id, now1: int, id2: Id, now2: int)
    requires Matches(subs, SubMatch(channel, actor)) == 1
    ensures multiset(Map(SubscriptionsToggled(SubscriptionsToggled(subs, channel, actor, id1, now1),
                                              channel, actor, id2, now2), PairOf))
            == multiset(Map(subs, PairOf))
  {
    var m := SubMatch(channel, actor);
    var created := Subscription(id2, channel, actor, now2);
    ToggleTwiceFromPresent(subs, m, Subscription(id1, channel, actor, now1), created);
    MapRemoveAppend(subs, FirstIndex(subs, m).value, created, PairOf);
  }

  /** What toggleSubscription sends back: the deleted row with "Unsubscribed
      Successfully", or the created row with "Subscribed Successfully". */
  datatype Reply = Unsubscribed(row: Subscription) | Subscribed(row: Subscription)

  method ToggleSubscription(db: Db, channelId: Id, actor: Id, newId: Id, now: int, isValid: Id -> bool)
    returns (r: Outcome<Reply>)
    requires db.Valid()
    requires forall i :: 0 <= i < |db.subscriptions| ==> db.subscriptions[i].id != newId
    modifies db`subscriptions
    ensures db.Valid()
    ensures !isValid(channelId) ==>
              r == Err(400, "Invalid channelId") && db.subscriptions == old(db.subscriptions)
    ensures isValid(channelId) ==>
              db.subscriptions == SubscriptionsToggled(old(db.subscriptions), channelId, actor, newId, now)
    ensures isValid(channelId) ==>
              match FirstIndex(old(db.subscriptions), SubMatch(channelId, actor))
              case Some(i) => r == Ok(Unsubscribed(old(db.subscriptions)[i]))
              case None => r == Ok(Subscribed(Subscription(newId, channelId, actor, now)))
  {
    if !isValid(channelId) {
      return Err(400, "Invalid channelId");
    }
    var subscribed := FirstIndex(db.subscriptions, SubMatch(channelId, actor));
    if subscribed.Some? {
      var unsubscribed := db.subscriptions[subscribed.value];
      UniqueRemoveAt(db.subscriptions, subscribed.value, SubscriptionKey);
      db.subscriptions := RemoveAt(db.subscriptions, subscribed.value);
      return Ok(Unsubscribed(unsubscribed));
    }
    var subscribe := Subscription(newId, channelId, actor, now);
    UniqueAppend(db.subscriptions, subscribe, SubscriptionKey);
    db.subscriptions := db.subscriptions + [subscribe];
    r := Ok(Subscribed(subscribe));
  }

  // ---------------------------------------------------------------------
  // getUserChannelSubscribers

  /** The `subscribers` document after its nested lookup and `$addFields`:
      the projected user fields, whether the subscription is mutual, and the
      size of the subscriber's own subscriber list. */
  datatype SubscriberCard = SubscriberCard(id: Id, username: string, fullName: string, avatarUrl: string,
                                           subscribedToSubscriber: bool, subscribersCount: nat)

  function SubscriberCardOf(u: User, subs: seq<Subscription>, channelId: Id): SubscriberCard {
    var theirs := Filter(subs, ToChannel(u.id));
    SubscriberCard(u.id, u.username, u.fullName, u.avatarUrl,
                   ActorIn(Some(channelId), Map(theirs, SubscriberOf)), |theirs|)
  }

  /** The value of a field `$project` descends into: the subscription's own
      `subscriber` id, or the unwound `subscribers` document. */
  datatype FieldValue = IdValue(id: Id) | SubscriberDoc(card: SubscriberCard)

  /** Projecting sub-fields keeps a document's listed fields; a field that
      holds a plain id has no sub-fields and is dropped. */
  function ProjectSubscriber(f: FieldValue): Option<SubscriberCard> {
    match f
    case IdValue(_) => None
    case SubscriberDoc(card) => Some(card)
  }

  /** An emitted row: `_id` is excluded and only `subscriber` may remain. */
  datatype SubscriberEntry = SubscriberEntry(subscriber: Option<SubscriberCard>)

  /** The row as written: the projection names `subscriber`, the id field of
      the Subscription, rather than the unwound `subscribers` document. */
  function AsWrittenOut(): (Subscription, User) -> SubscriberEntry {
    (s: Subscription, u: User) => SubscriberEntry(ProjectSubscriber(IdValue(s.subscriber)))
  }

  /** The row with the projection on the unwound `subscribers` document. */
  function ProjectedOut(subs: seq<Subscription>, channelId: Id): (Subscription, User) -> SubscriberEntry {
    (s: Subscription, u: User) => SubscriberEntry(ProjectSubscriber(SubscriberDoc(SubscriberCardOf(u, subs, channelId))))
  }

  /** The subscriptions of the channel, each joined with its subscriber's
      user document and unwound, shaped by `out`. */
  function SubscriberRows(subs: seq<Subscription>, users: seq<User>, channelId: Id,
                          out: (Subscription, User) -> SubscriberEntry): seq<SubscriberEntry>
  {
    Lookup(Filter(subs, ToChannel(channelId)), SubscriberOf, users, UserKey, out)
  }

  /** getUserChannelSubscribers as written. */
  function ChannelSubscribersAsWritten(subs: seq<Subscription>, users: seq<User>, channelId: Id,
                                       isValid: Id -> bool): (r: Outcome<seq<SubscriberEntry>>)
    ensures r.Err? <==> !isValid(channelId)
    ensures r.Err? ==> r == Err(400, "Invalid channelId")
  {
    if !isValid(channelId) then Err(400, "Invalid channelId")
    else Ok(SubscriberRows(subs, users, channelId, AsWrittenOut()))
  }

  /** getUserChannelSubscribers with the projection on `subscribers`. */
  function ChannelSubscribers(subs: seq<Subscription>, users: seq<User>, channelId: Id,
                              isValid: Id -> bool): (r: Outcome<seq<SubscriberEntry>>)
    ensures r.Err? <==> !isValid(channelId)
    ensures r.Err? ==> r == Err(400, "Invalid channelId")
  {
    if !isValid(channelId) then Err(400, "Invalid channelId")
    else Ok(SubscriberRows(subs, users, channelId, ProjectedOut(subs, channelId)))
  }

  /** As written, every row has the same length as the intended list but
      carries no subscriber details at all. */
  lemma ChannelSubscribersAsWrittenAreBlank(subs: seq<Subscription>, users: seq<User>, channelId: Id,
                                            isValid: Id -> bool)
    requires Unique(users, UserKey) && isValid(channelId)
    ensures forall k :: 0 <= k < |ChannelSubscribersAsWritten(subs, users, channelId, isValid).value| ==>
              ChannelSubscribersAsWritten(subs, users, channelId, isValid).value[k].subscriber == None
    ensures |ChannelSubscribersAsWritten(subs, users, channelId, isValid).value|
            == |ChannelSubscribers(subs, users, channelId, isValid).value|
  {
    var mine := Filter(subs, ToChannel(channelId));
    var rows := SubscriberRows(subs, users, channelId, AsWrittenOut());
    forall k | 0 <= k < |rows| ensures rows[k].subscriber == None {
      assert rows[k] in rows;
      LookupMember(mine, SubscriberOf, users, UserKey, AsWrittenOut(), rows[k]);
    }
    LookupOnUniqueKeySize(mine, SubscriberOf, users, UserKey, AsWrittenOut());
    LookupOnUniqueKeySize(mine, SubscriberOf, users, UserKey, ProjectedOut(subs, channelId));
  }

  /** `$unwind` drops every subscription whose subscriber has no user
      document: one entry per subscription of the channel with an existing
      subscriber. */
  lemma ChannelSubscribersCount(subs: seq<Subscription>, users: seq<User>, channelId: Id, isValid: Id -> bool)
    requires Unique(users, UserKey) && isValid(channelId)
    ensures |ChannelSubscribers(subs, users, channelId, isValid).value|
            == |Filter(Filter(subs, ToChannel(channelId)), HasMatch(SubscriberOf, users, UserKey))|
  {
    LookupOnUniqueKeySize(Filter(subs, ToChannel(channelId)), SubscriberOf, users, UserKey,
                          ProjectedOut(subs, channelId));
  }

  /** The entries are exactly the subscribers of the channel that exist,
      each with its own subscriber card. */
  lemma ChannelSubscribersEntries(subs: seq<Subscription>, users: seq<User>, channelId: Id,
                                  isValid: Id -> bool, e: SubscriberEntry)
    requires isValid(channelId)
    ensures e in ChannelSubscribers(subs, users, channelId, isValid).value <==>
              exists i, j :: 0 <= i < |subs| && 0 <= j < |users| && subs[i].channel == channelId
                             && users[j].id == subs[i].subscriber
                             && e == SubscriberEntry(Some(SubscriberCardOf(users[j], subs, channelId)))
  {
    var rows := SubscriberRows(subs, users, channelId, ProjectedOut(subs, channelId));
    assert ChannelSubscribers(subs, users, channelId, isValid).value == rows;
    if e in rows {
      SubscriberEntryMember(subs, users, channelId, e);
    }
    if exists i, j :: 0 <= i < |subs| && 0 <= j < |users| && subs[i].channel == channelId
                      && users[j].id == subs[i].subscriber
                      && e == SubscriberEntry(Some(SubscriberCardOf(users[j], subs, channelId))) {
      var i, j :| 0 <= i < |subs| && 0 <= j < |users| && subs[i].channel == channelId
                  && users[j].id == subs[i].subscriber
                  && e == SubscriberEntry(Some(SubscriberCardOf(users[j], subs, channelId)));
      SubscriberEntryContains(subs, users, channelId, i, j);
    }
  }

  lemma SubscriberEntryMember(subs: seq<Subscription>, users: seq<User>, channelId: Id, e: SubscriberEntry)
    requires e in SubscriberRows(subs, users, channelId, ProjectedOut(subs, channelId))
    ensures exists i, j :: 0 <= i < |subs| && 0 <= j < |users| && subs[i].channel == channelId
                           && users[j].id == subs[i].subscriber
                           && e == SubscriberEntry(Some(SubscriberCardOf(users[j], subs, channelId)))
  {
    var mine := Filter(subs, ToChannel(channelId));
    var out := ProjectedOut(subs, channelId);
    LookupMember(mine, SubscriberOf, users, UserKey, out, e);
    var i, j :| 0 <= i < |mine| && 0 <= j < |users| && users[j].id == mine[i].subscriber
                && e == out(mine[i], users[j]);
    var i' := FilterSource(subs, ToChannel(channelId), i);
    assert subs[i'].channel == channelId;
    assert e == SubscriberEntry(Some(SubscriberCardOf(users[j], subs, channelId)));
  }

  lemma SubscriberEntryContains(subs: seq<Subscription>, users: seq<User>, channelId: Id, i: nat, j: nat)
    requires i < |subs| && j < |users| && subs[i].channel == channelId && users[j].id == subs[i].subscriber
    ensures SubscriberEntry(Some(SubscriberCardOf(users[j], subs, channelId)))
            in SubscriberRows(subs, users, channelId, ProjectedOut(subs, channelId))
  {
    var mine := Filter(subs, ToChannel(channelId));
    var out := ProjectedOut(subs, channelId);
    assert ToChannel(channelId)(subs[i]);
    var i' :| 0 <= i' < |mine| && mine[i'] == subs[i];
    LookupContains(mine, SubscriberOf, users, UserKey, out, i', j);
    assert out(mine[i'], users[j]) == SubscriberEntry(Some(SubscriberCardOf(users[j], subs, channelId)));
  }

  /** `subscribedToSubscriber` holds exactly when the channel itself
      subscribes to the subscriber's channel: the subscription is mutual. */
  lemma SubscribedToSubscriberIffMutual(u: User, subs: seq<Subscription>, channelId: Id)
    ensures SubscriberCardOf(u, subs, channelId).subscribedToSubscriber <==>
              exists i :: 0 <= i < |subs| && subs[i].channel == u.id && subs[i].subscriber == channelId
  {
    ActorInMapFilter(subs, ToChannel(u.id), SubscriberOf, Some(channelId));
    if SubscriberCardOf(u, subs, channelId).subscribedToSubscriber {
      var i :| 0 <= i < |subs| && ToChannel(u.id)(subs[i]) && Some(channelId) == Some(SubscriberOf(subs[i]));
      assert subs[i].channel == u.id && subs[i].subscriber == channelId;
    }
    if exists i :: 0 <= i < |subs| && subs[i].channel == u.id && subs[i].subscriber == channelId {
      var i :| 0 <= i < |subs| && subs[i].channel == u.id && subs[i].subscriber == channelId;
      assert ToChannel(u.id)(subs[i]) && Some(channelId) == Some(SubscriberOf(subs[i]));
    }
  }

  /** `subscribersCount` is the number of distinct subscriptions to the
      subscriber's own channel. */
  lemma SubscribersCountIsChannelSize(u: User, subs: seq<Subscription>, channelId: Id)
    requires Unique(subs, SubscriptionKey)
    ensures SubscriberCardOf(u, subs, channelId).subscribersCount
            == |KeysWhere(subs, ToChannel(u.id), SubscriptionKey)|
  {
    FilterSizeIsKeyCount(subs, ToChannel(u.id), SubscriptionKey);
  }

  // ---------------------------------------------------------------------
  // getSubscribedChannels

  /** The projected `latestVideo`. */
  datatype LatestVideoCard = LatestVideoCard(id: Id, videoFileUrl: string, thumbnailUrl: string, owner: Id,
                                             title: Option<string>, description: Option<string>,
                                             duration: real, createdAt: int)

  /** The projected `subscribedChannel`. */
  datatype ChannelCard = ChannelCard(id: Id, username: string, fullName: string, avatarUrl: string,
                                     latestVideo: Option<LatestVideoCard>)

  datatype SubscribedChannelEntry = SubscribedChannelEntry(subscribedChannel: ChannelCard)

  function LatestVideoCardOf(v: Video): LatestVideoCard {
    LatestVideoCard(v.id, v.videoFileUrl, v.thumbnailUrl, v.owner, v.title, v.description, v.duration, v.createdAt)
  }

  /** `$last` of the channel's videos in lookup order. */
  function LatestVideo(videos: seq<Video>, channel: Id): Option<LatestVideoCard> {
    match Last(Filter(videos, VideosOf(channel)))
    case None => None
    case Some(v) => Some(LatestVideoCardOf(v))
  }

  function ChannelCardOf(u: User, videos: seq<Video>): ChannelCard {
    ChannelCard(u.id, u.username, u.fullName, u.avatarUrl, LatestVideo(videos, u.id))
  }

  function ChannelOut(videos: seq<Video>): (Subscription, User) -> SubscribedChannelEntry {
    (s: Subscription, u: User) => SubscribedChannelEntry(ChannelCardOf(u, videos))
  }

  /** The subscriber's subscriptions, each joined with its channel's user
      document and unwound. */
  function SubscribedChannelRows(subs: seq<Subscription>, users: seq<User>, videos: seq<Video>, subscriberId: Id)
    : seq<SubscribedChannelEntry>
  {
    Lookup(Filter(subs, BySubscriber(subscriberId)), ChannelOf, users, UserKey, ChannelOut(videos))
  }

  /** getSubscribedChannels: only an empty `subscriberId` is refused. */
  function SubscribedChannels(subs: seq<Subscription>, users: seq<User>, videos: seq<Video>, subscriberId: Id)
    : (r: Outcome<seq<SubscribedChannelEntry>>)
    ensures r.Err? <==> subscriberId == ""
    ensures r.Err? ==> r == Err(400, "Invalid subscriberID")
  {
    if subscriberId == "" then Err(400, "Invalid subscriberID")
    else Ok(SubscribedChannelRows(subs, users, videos, subscriberId))
  }

  /** `latestVideo` is absent exactly when the channel owns no video, and is
      otherwise the channel's video that comes last in the collection. */
  lemma LatestVideoIsLastOwned(videos: seq<Video>, channel: Id)
    ensures LatestVideo(videos, channel).None? <==> forall j :: 0 <= j < |videos| ==> videos[j].owner != channel
    ensures LatestVideo(videos, channel).Some? ==>
              exists i :: 0 <= i < |videos| && videos[i].owner == channel
                          && LatestVideo(videos, channel) == Some(LatestVideoCardOf(videos[i]))
                          && forall j :: i < j < |videos| ==> videos[j].owner != channel
  {
    var p := VideosOf(channel);
    LastOfFilter(videos, p);
    assert forall j :: 0 <= j < |videos| ==> (p(videos[j]) <==> videos[j].owner == channel);
  }

  /** The entries are exactly the channels, with existing user documents,
      that the subscriber subscribes to. */
  lemma SubscribedChannelsEntries(subs: seq<Subscription>, users: seq<User>, videos: seq<Video>,
                                  subscriberId: Id, e: SubscribedChannelEntry)
    requires subscriberId != ""
    ensures e in SubscribedChannels(subs, users, videos, subscriberId).value <==>
              exists i, j :: 0 <= i < |subs| && 0 <= j < |users| && subs[i].subscriber == subscriberId
                             && users[j].id == subs[i].channel
                             && e == SubscribedChannelEntry(ChannelCardOf(users[j], videos))
  {
    var rows := SubscribedChannelRows(subs, users, videos, subscriberId);
    assert SubscribedChannels(subs, users, videos, subscriberId).value == rows;
    if e in rows {
      ChannelEntryMember(subs, users, videos, subscriberId, e);
    }
    if exists i, j :: 0 <= i < |subs| && 0 <= j < |users| && subs[i].subscriber == subscriberId
                      && users[j].id == subs[i].channel
                      && e == SubscribedChannelEntry(ChannelCardOf(users[j], videos)) {
      var i, j :| 0 <= i < |subs| && 0 <= j < |users| && subs[i].subscriber == subscriberId
                  && users[j].id == subs[i].channel
                  && e == SubscribedChannelEntry(ChannelCardOf(users[j], videos));
      ChannelEntryContains(subs, users, videos, subscriberId, i, j);
    }
  }

  lemma ChannelEntryMember(subs: seq<Subscription>, users: seq<User>, videos: seq<Video>, subscriberId: Id,
                           e: SubscribedChannelEntry)
    requires e in SubscribedChannelRows(subs, users, videos, subscriberId)
    ensures exists i, j :: 0 <= i < |subs| && 0 <= j < |users| && subs[i].subscriber == subscriberId
                           && users[j].id == subs[i].channel
                           && e == SubscribedChannelEntry(ChannelCardOf(users[j], videos))
  {
    var mine := Filter(subs, BySubscriber(subscriberId));
    var out := ChannelOut(videos);
    LookupMember(mine, ChannelOf, users, UserKey, out, e);
    var i, j :| 0 <= i < |mine| && 0 <= j < |users| && users[j].id == mine[i].channel
                && e == out(mine[i], users[j]);
    var i' := FilterSource(subs, BySubscriber(subscriberId), i);
    assert subs[i'].subscriber == subscriberId;
    assert e == SubscribedChannelEntry(ChannelCardOf(users[j], videos));
  }

  lemma ChannelEntryContains(subs: seq<Subscription>, users: seq<User>, videos: seq<Video>, subscriberId: Id,
                             i: nat, j: nat)
    requires i < |subs| && j < |users| && subs[i].subscriber == subscriberId && users[j].id == subs[i].channel
    ensures SubscribedChannelEntry(ChannelCardOf(users[j], videos))
            in SubscribedChannelRows(subs, users, videos, subscriberId)
  {
    var mine := Filter(subs, BySubscriber(subscriberId));
    var out := ChannelOut(videos);
    assert BySubscriber(subscriberId)(subs[i]);
    var i' :| 0 <= i' < |mine| && mine[i'] == subs[i];
    LookupContains(mine, ChannelOf, users, UserKey, out, i', j);
    assert out(mine[i'], users[j]) == SubscribedChannelEntry(ChannelCardOf(users[j], videos));
  }

  /** One entry per subscription of the subscriber whose channel exists. */
  lemma SubscribedChannelsCount(subs: seq<Subscription>, users: seq<User>, videos: seq<Video>, subscriberId: Id)
    requires Unique(users, UserKey) && subscriberId != ""
    ensures |SubscribedChannels(subs, users, videos, subscriberId).value|
            == |Filter(Filter(subs, BySubscriber(subscriberId)), HasMatch(ChannelOf, users, UserKey))|
  {
    LookupOnUniqueKeySize(Filter(subs, BySubscriber(subscriberId)), ChannelOf, users, UserKey,
                          ChannelOut(videos));
  }
}
