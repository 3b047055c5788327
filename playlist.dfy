/** src/controllers/playlist.controller.js: the playlist handlers and the two
    playlist views. */
module PlaylistController {
  import opened Basics
  import opened Aggregation
  import opened Store

  /** The `$lookup` of a playlist's `videos` array: every video whose `_id`
      is an element of it, each once, in the order of the collection. */
  function InPlaylist(ids: seq<Id>): Video -> bool {
    (v: Video) => v.id in ids
  }

  function Views(v: Video): nat { v.views }

  function OwnedBy(owner: Id): Playlist -> bool {
    (p: Playlist) => p.owner == owner
  }

  predicate HasPlaylist(playlists: seq<Playlist>, id: Id) {
    exists i :: 0 <= i < |playlists| && playlists[i].id == id
  }

  predicate HasVideo(videos: seq<Video>, id: Id) {
    exists j :: 0 <= j < |videos| && videos[j].id == id
  }

  // ---------------------------------------------------------------------
  // createPlaylist

  method CreatePlaylist(db: Db, name: Option<string>, description: Option<string>, actor: Id,
                        newId: Id, now: int)
    returns (r: Outcome<Playlist>)
    requires db.Valid()
    requires forall i :: 0 <= i < |db.playlists| ==> db.playlists[i].id != newId
    modifies db`playlists
    ensures db.Valid()
    ensures !(Truthy(name) && Truthy(description)) ==>
              r == Err(400, "Both name and description is required") && db.playlists == old(db.playlists)
    ensures Truthy(name) && Truthy(description) ==>
              && r == Ok(Playlist(newId, name.value, description.value, actor, [], now, now))
              && db.playlists == old(db.playlists) + [r.value]
  {
    if !Truthy(name) || !Truthy(description) {
      return Err(400, "Both name and description is required");
    }
    var playlist := Playlist(newId, name.value, description.value, actor, [], now, now);
    UniqueAppend(db.playlists, playlist, PlaylistKey);
    db.playlists := db.playlists + [playlist];
    r := Ok(playlist);
  }

  // ---------------------------------------------------------------------
  // getUserPlaylists

  /** An emitted row: exactly `_id`, `name`, `description`, `totalVideos`,
      `totalViews` and `updatedAt`. */
  datatype PlaylistSummary = PlaylistSummary(id: Id, name: string, description: string,
                                             totalVideos: nat, totalViews: nat, updatedAt: int)

  function SummaryOf(videos: seq<Video>): (r: Playlist -> PlaylistSummary)
    ensures forall p: Playlist :: r(p).id == p.id && r(p).updatedAt == p.updatedAt && r(p).totalVideos <= |videos|
  {
    (p: Playlist) =>
      var joined := Filter(videos, InPlaylist(p.videos));
      PlaylistSummary(p.id, p.name, p.description, |joined|, Sum(joined, Views), p.updatedAt)
  }

  /** getUserPlaylists; an invalid id raises an error whose status is 200. */
  function UserPlaylists(playlists: seq<Playlist>, videos: seq<Video>, userId: Id, isValid: Id -> bool)
    : (r: Outcome<seq<PlaylistSummary>>)
    ensures r.Err? <==> !isValid(userId)
    ensures r.Err? ==> r == Err(200, "Invalid userId")
    ensures r.Ok? ==> |r.value| == |Filter(playlists, OwnedBy(userId))|
    ensures r.Ok? ==> forall i :: 0 <= i < |playlists| && playlists[i].owner == userId ==>
                        SummaryOf(videos)(playlists[i]) in r.value
  {
    if !isValid(userId) then Err(200, "Invalid userId")
    else
      var rows := Map(Filter(playlists, OwnedBy(userId)), SummaryOf(videos));
      assert forall i :: 0 <= i < |playlists| && playlists[i].owner == userId ==> SummaryOf(videos)(playlists[i]) in rows by {
        forall i | 0 <= i < |playlists| && playlists[i].owner == userId
          ensures SummaryOf(videos)(playlists[i]) in rows
        {
          assert OwnedBy(userId)(playlists[i]);
          MapFilterContains(playlists, OwnedBy(userId), SummaryOf(videos), i);
        }
      }
      Ok(rows)
  }

  /** One row per playlist of the user, in collection order, each the
      summary of that playlist. */
  lemma UserPlaylistsRows(playlists: seq<Playlist>, videos: seq<Video>, userId: Id, isValid: Id -> bool,
                          k: nat)
    requires isValid(userId) && k < |UserPlaylists(playlists, videos, userId, isValid).value|
    ensures exists i :: 0 <= i < |playlists| && playlists[i].owner == userId
              && UserPlaylists(playlists, videos, userId, isValid).value[k].id == playlists[i].id
              && UserPlaylists(playlists, videos, userId, isValid).value[k] == SummaryOf(videos)(playlists[i])
  {
    var mine := Filter(playlists, OwnedBy(userId));
    var i :| 0 <= i < |playlists| && playlists[i] == mine[k];
    assert UserPlaylists(playlists, videos, userId, isValid).value[k] == SummaryOf(videos)(mine[k]);
  }

  /** `totalVideos` counts the distinct referenced ids that exist as videos:
      ids of deleted videos and repeated ids count nothing extra. */
  lemma TotalVideosCountsExistingMembers(p: Playlist, videos: seq<Video>)
    requires Unique(videos, VideoKey)
    ensures SummaryOf(videos)(p).totalVideos
            == |set id | id in p.videos && HasVideo(videos, id)|
  {
    FilterSizeIsKeyCount(videos, InPlaylist(p.videos), VideoKey);
    var ks := KeysWhere(videos, InPlaylist(p.videos), VideoKey);
    var ids := set id | id in p.videos && HasVideo(videos, id);
    forall id | id in ids ensures id in ks {
      var j :| 0 <= j < |videos| && videos[j].id == id;
      assert InPlaylist(p.videos)(videos[j]);
    }
    forall id | id in ks ensures id in ids {
      var v :| v in videos && InPlaylist(p.videos)(v) && VideoKey(v) == id;
      var j :| 0 <= j < |videos| && videos[j] == v;
    }
    assert ks == ids;
  }

  /** Adding an existing video that was not yet a member raises
      `totalVideos` by one and `totalViews` by that video's views. */
  lemma AddingVideoRaisesTotals(p: Playlist, videos: seq<Video>, j: nat)
    requires Unique(videos, VideoKey) && j < |videos| && videos[j].id !in p.videos
    ensures SummaryOf(videos)(WithVideoAdded(p, videos[j].id)).totalVideos
            == SummaryOf(videos)(p).totalVideos + 1
    ensures SummaryOf(videos)(WithVideoAdded(p, videos[j].id)).totalViews
            == SummaryOf(videos)(p).totalViews + videos[j].views
  {
    var v := videos[j].id;
    var added := AddToSet(p.videos, v);
    assert added == p.videos + [v];
    forall k | 0 <= k < |videos| && k != j
      ensures InPlaylist(added)(videos[k]) == InPlaylist(p.videos)(videos[k])
    {
      assert videos[k].id != v by {
        if k < j { assert VideoKey(videos[k]) != VideoKey(videos[j]); }
        else { assert VideoKey(videos[j]) != VideoKey(videos[k]); }
      }
    }
    FilterWidenByOne(videos, InPlaylist(p.videos), InPlaylist(added), j, Views);
  }

  // ---------------------------------------------------------------------
  // getPlaylistById

  /** A projected element of `videos`. */
  datatype PlaylistVideoCard = PlaylistVideoCard(id: Id, videoFileUrl: string, thumbnailUrl: string,
                                                 title: Option<string>, description: Option<string>,
                                                 duration: real, createdAt: int, views: nat)

  /** The emitted document. `totalViews` is listed in the projection but no
      stage computes it, so it is absent; `owner` is absent when the owner's
      user document does not exist. */
  datatype PlaylistDetail = PlaylistDetail(id: Id, name: string, description: string, createdAt: int,
                                           updatedAt: int, totalVideos: nat,
                                           videos: seq<PlaylistVideoCard>, owner: Option<OwnerCard>)

  function PlaylistVideoCardOf(v: Video): PlaylistVideoCard {
    PlaylistVideoCard(v.id, v.videoFileUrl, v.thumbnailUrl, v.title, v.description, v.duration,
                      v.createdAt, v.views)
  }

  /** `$match: {"videos.isPublished": true}` on the looked-up array: some
      element is published. */
  predicate SomePublished(joined: seq<Video>) {
    exists k :: 0 <= k < |joined| && joined[k].isPublished
  }

  /** The owner `$lookup` collapsed with `$first` and projected. */
  function OwnerOf(users: seq<User>, owner: Id): Option<OwnerCard> {
    match First(Filter(users, UserWithId(owner)))
    case None => None
    case Some(u) => Some(OwnerCardOf(u))
  }

  function DetailOf(p: Playlist, videos: seq<Video>, users: seq<User>): (r: PlaylistDetail)
    ensures r.id == p.id && r.totalVideos == |r.videos|
    ensures forall k :: 0 <= k < |r.videos| ==> r.videos[k].id in p.videos
    ensures forall j :: 0 <= j < |videos| && videos[j].id in p.videos ==> PlaylistVideoCardOf(videos[j]) in r.videos
  {
    var joined := Filter(videos, InPlaylist(p.videos));
    var cards := Map(joined, PlaylistVideoCardOf);
    assert forall k :: 0 <= k < |cards| ==> cards[k].id in p.videos by {
      forall k | 0 <= k < |cards| ensures cards[k].id in p.videos {
        assert InPlaylist(p.videos)(joined[k]);
      }
    }
    assert forall j :: 0 <= j < |videos| && videos[j].id in p.videos ==> PlaylistVideoCardOf(videos[j]) in cards by {
      forall j | 0 <= j < |videos| && videos[j].id in p.videos ensures PlaylistVideoCardOf(videos[j]) in cards {
        assert InPlaylist(p.videos)(videos[j]);
        MapFilterContains(videos, InPlaylist(p.videos), PlaylistVideoCardOf, j);
      }
    }
    PlaylistDetail(p.id, p.name, p.description, p.createdAt, p.updatedAt, |joined|, cards, OwnerOf(users, p.owner))
  }

  function Visible(videos: seq<Video>): Playlist -> bool {
    (p: Playlist) => SomePublished(Filter(videos, InPlaylist(p.videos)))
  }

  function DetailFor(videos: seq<Video>, users: seq<User>): Playlist -> PlaylistDetail {
    (p: Playlist) => DetailOf(p, videos, users)
  }

  /** getPlaylistById: the aggregation's result array. */
  function PlaylistById(playlists: seq<Playlist>, videos: seq<Video>, users: seq<User>, playlistId: Id,
                        isValid: Id -> bool): (r: Outcome<seq<PlaylistDetail>>)
    ensures r.Err? <==> !isValid(playlistId)
    ensures r.Err? ==> r == Err(400, "Invalid playlistId")
  {
    if !isValid(playlistId) then Err(400, "Invalid playlistId")
    else Ok(Map(Filter(Filter(playlists, PlaylistWithId(playlistId)), Visible(videos)), DetailFor(videos, users)))
  }

  /** The playlist is returned exactly when it exists and at least one of
      its existing videos is published; ids are unique, so at most once. */
  lemma PlaylistByIdVisibleIff(playlists: seq<Playlist>, videos: seq<Video>, users: seq<User>,
                               playlistId: Id, isValid: Id -> bool)
    requires isValid(playlistId) && Unique(playlists, PlaylistKey)
    ensures |PlaylistById(playlists, videos, users, playlistId, isValid).value| <= 1
    ensures PlaylistById(playlists, videos, users, playlistId, isValid).value != [] <==>
              exists i, j :: 0 <= i < |playlists| && 0 <= j < |videos| && playlists[i].id == playlistId
                             && videos[j].id in playlists[i].videos && videos[j].isPublished
  {
    var found := Filter(playlists, PlaylistWithId(playlistId));
    var shown := Filter(found, Visible(videos));
    UniqueKeyMatchesAtMostOne(playlists, PlaylistKey, PlaylistWithId(playlistId), playlistId);
    if shown != [] {
      ShownPlaylistHasPublishedVideo(playlists, videos, playlistId);
    }
    if exists i, j :: 0 <= i < |playlists| && 0 <= j < |videos| && playlists[i].id == playlistId
                      && videos[j].id in playlists[i].videos && videos[j].isPublished {
      var i, j :| 0 <= i < |playlists| && 0 <= j < |videos| && playlists[i].id == playlistId
                  && videos[j].id in playlists[i].videos && videos[j].isPublished;
      PublishedVideoShowsPlaylist(playlists, videos, playlistId, i, j);
    }
  }

  lemma ShownPlaylistHasPublishedVideo(playlists: seq<Playlist>, videos: seq<Video>, playlistId: Id)
    requires Filter(Filter(playlists, PlaylistWithId(playlistId)), Visible(videos)) != []
    ensures exists i, j :: 0 <= i < |playlists| && 0 <= j < |videos| && playlists[i].id == playlistId
                           && videos[j].id in playlists[i].videos && videos[j].isPublished
  {
    var i := ShownPlaylistIndex(playlists, videos, playlistId);
    var j := VisibleHasPublished(playlists[i], videos);
  }

  lemma ShownPlaylistIndex(playlists: seq<Playlist>, videos: seq<Video>, playlistId: Id) returns (i: nat)
    requires Filter(Filter(playlists, PlaylistWithId(playlistId)), Visible(videos)) != []
    ensures i < |playlists| && playlists[i].id == playlistId && Visible(videos)(playlists[i])
  {
    var found := Filter(playlists, PlaylistWithId(playlistId));
    var k := FilterSource(found, Visible(videos), 0);
    i := FilterSource(playlists, PlaylistWithId(playlistId), k);
  }

  /** A published member of a visible playlist. */
  lemma VisibleHasPublished(p: Playlist, videos: seq<Video>) returns (j: nat)
    requires Visible(videos)(p)
    ensures j < |videos| && videos[j].id in p.videos && videos[j].isPublished
  {
    var joined := Filter(videos, InPlaylist(p.videos));
    var k :| 0 <= k < |joined| && joined[k].isPublished;
    var v := joined[k];
    assert v in videos && InPlaylist(p.videos)(v);
    j :| 0 <= j < |videos| && videos[j] == v;
  }

  lemma PublishedVideoShowsPlaylist(playlists: seq<Playlist>, videos: seq<Video>, playlistId: Id, i: nat, j: nat)
    requires i < |playlists| && j < |videos| && playlists[i].id == playlistId
    requires videos[j].id in playlists[i].videos && videos[j].isPublished
    ensures Filter(Filter(playlists, PlaylistWithId(playlistId)), Visible(videos)) != []
  {
    var p := playlists[i];
    var found := Filter(playlists, PlaylistWithId(playlistId));
    assert PlaylistWithId(playlistId)(playlists[i]);
    var joined := Filter(videos, InPlaylist(p.videos));
    assert InPlaylist(p.videos)(videos[j]);
    var k :| 0 <= k < |joined| && joined[k] == videos[j];
    assert Visible(videos)(p);
    var i' :| 0 <= i' < |found| && found[i'] == p;
    assert p in Filter(found, Visible(videos));
  }

  /** The publication test does not filter the array: `totalVideos` and
      `videos` cover every existing member, published or not. */
  lemma PlaylistDetailCountsAllVideos(p: Playlist, videos: seq<Video>, users: seq<User>, j: nat)
    requires j < |videos| && videos[j].id in p.videos
    ensures DetailOf(p, videos, users).totalVideos == |DetailOf(p, videos, users).videos|
    ensures PlaylistVideoCardOf(videos[j]) in DetailOf(p, videos, users).videos
  {
    var joined := Filter(videos, InPlaylist(p.videos));
    assert InPlaylist(p.videos)(videos[j]);
    MapContains(joined, PlaylistVideoCardOf, videos[j]);
  }

  /** `owner` is the projection of the first user with the owner's id, and
      is absent exactly when there is none. */
  lemma PlaylistOwnerIsFirstUser(users: seq<User>, owner: Id)
    ensures OwnerOf(users, owner).None? <==> forall k :: 0 <= k < |users| ==> users[k].id != owner
    ensures OwnerOf(users, owner).Some? ==>
              exists k :: 0 <= k < |users| && users[k].id == owner
                          && OwnerOf(users, owner) == Some(OwnerCardOf(users[k]))
                          && forall m :: 0 <= m < k ==> users[m].id != owner
  {
    var matching := Filter(users, UserWithId(owner));
    if matching != [] {
      FirstOfFilter(users, UserWithId(owner));
    } else {
      assert forall k :: 0 <= k < |users| ==> !UserWithId(owner)(users[k]);
    }
  }

  // ---------------------------------------------------------------------
  // addVideoToPlaylist, removeVideoFromPlaylist

  function WithVideoAdded(p: Playlist, videoId: Id): Playlist {
    p.(videos := AddToSet(p.videos, videoId))
  }

  function WithVideoRemoved(p: Playlist, videoId: Id): Playlist {
    p.(videos := Pull(p.videos, videoId))
  }

  /** The checks addVideoToPlaylist and removeVideoFromPlaylist share, in
      their order; on success, the position of the playlist. `notOwner` is
      each handler's own message for a foreign playlist. */
  function MembershipGuard(playlists: seq<Playlist>, videos: seq<Video>, playlistId: Id, videoId: Id,
                           actor: Id, isValid: Id -> bool, notOwner: string): (r: Outcome<nat>)
    requires Unique(playlists, PlaylistKey)
    ensures !isValid(playlistId) ==> r == Err(400, "Invalid PlaylistId")
    ensures isValid(playlistId) && !isValid(videoId) ==> r == Err(400, "Invalid videoId")
    ensures isValid(playlistId) && isValid(videoId) && !HasPlaylist(playlists, playlistId) ==>
              r == Err(400, "Playlist does not exist")
    ensures (isValid(playlistId) && isValid(videoId) && HasPlaylist(playlists, playlistId)
             && !HasVideo(videos, videoId)) ==> r == Err(400, "Video does not exist")
    ensures r.Ok? <==> isValid(playlistId) && isValid(videoId) && HasVideo(videos, videoId)
                       && exists i :: 0 <= i < |playlists| && playlists[i].id == playlistId
                                      && playlists[i].owner == actor
    ensures (isValid(playlistId) && isValid(videoId) && HasVideo(videos, videoId)
             && exists i :: 0 <= i < |playlists| && playlists[i].id == playlistId && playlists[i].owner != actor) ==>
              r == Err(400, notOwner)
    ensures r.Ok? ==> r.value < |playlists| && playlists[r.value].id == playlistId
                      && playlists[r.value].owner == actor
    ensures (r.Err? && r.message == notOwner && notOwner != "Playlist does not exist"
             && notOwner != "Video does not exist" && notOwner != "Invalid videoId"
             && notOwner != "Invalid PlaylistId") ==>
              exists i :: 0 <= i < |playlists| && playlists[i].id == playlistId && playlists[i].owner != actor
  {
    if !isValid(playlistId) then Err(400, "Invalid PlaylistId")
    else if !isValid(videoId) then Err(400, "Invalid videoId")
    else
      var playlist := FirstIndex(playlists, PlaylistWithId(playlistId));
      var video := FirstIndex(videos, VideoWithId(videoId));
      if playlist.None? then
        assert !HasPlaylist(playlists, playlistId) by {
          forall i | 0 <= i < |playlists| ensures playlists[i].id != playlistId {
            assert !PlaylistWithId(playlistId)(playlists[i]);
          }
        }
        Err(400, "Playlist does not exist")
      else if video.None? then
        assert !HasVideo(videos, videoId) by {
          forall j | 0 <= j < |videos| ensures videos[j].id != videoId {
            assert !VideoWithId(videoId)(videos[j]);
          }
        }
        Err(400, "Video does not exist")
      else
        assert HasVideo(videos, videoId) by {
          assert VideoWithId(videoId)(videos[video.value]);
        }
        UniqueKeyAt(playlists, PlaylistKey, playlist.value);
        OwnerGuard(playlists, playlist.value, playlistId, actor, notOwner)
  }

  /** The owner comparison on the playlist found at `i`. */
  function OwnerGuard(playlists: seq<Playlist>, i: nat, playlistId: Id, actor: Id, notOwner: string)
    : (r: Outcome<nat>)
    requires Unique(playlists, PlaylistKey) && i < |playlists| && playlists[i].id == playlistId
    ensures r.Ok? <==> exists k :: 0 <= k < |playlists| && playlists[k].id == playlistId
                                   && playlists[k].owner == actor
    ensures r.Ok? ==> r == Ok(i) && playlists[i].owner == actor
    ensures r.Err? ==> r == Err(400, notOwner) && playlists[i].owner != actor
  {
    forall k | 0 <= k < |playlists| && k != i ensures playlists[k].id != playlistId {
      if k < i {
        assert PlaylistKey(playlists[k]) != PlaylistKey(playlists[i]);
      } else {
        assert PlaylistKey(playlists[i]) != PlaylistKey(playlists[k]);
      }
    }
    if playlists[i].owner != actor then Err(400, notOwner) else Ok(i)
  }

  method AddVideoToPlaylist(db: Db, playlistId: Id, videoId: Id, actor: Id, isValid: Id -> bool)
    returns (r: Outcome<Playlist>)
    requires db.Valid()
    modifies db`playlists
    ensures db.Valid()
    ensures match MembershipGuard(old(db.playlists), db.videos, playlistId, videoId, actor, isValid,
                                  "Only owner can add new videos to playlist")
            case Err(status, message) => r == Err(status, message) && db.playlists == old(db.playlists)
            case Ok(i) =>
              && db.playlists == old(db.playlists)[i := WithVideoAdded(old(db.playlists)[i], videoId)]
              && r == Ok(db.playlists[i])
  {
    var guard := MembershipGuard(db.playlists, db.videos, playlistId, videoId, actor, isValid,
                                 "Only owner can add new videos to playlist");
    if guard.Err? {
      return Err(guard.status, guard.message);
    }
    var i := guard.value;
    var updated := WithVideoAdded(db.playlists[i], videoId);
    UniqueReplace(db.playlists, i, updated, PlaylistKey);
    db.playlists := db.playlists[i := updated];
    r := Ok(updated);
  }

  method RemoveVideoFromPlaylist(db: Db, playlistId: Id, videoId: Id, actor: Id, isValid: Id -> bool)
    returns (r: Outcome<Playlist>)
    requires db.Valid()
    modifies db`playlists
    ensures db.Valid()
    ensures match MembershipGuard(old(db.playlists), db.videos, playlistId, videoId, actor, isValid,
                                  "Only owner can remove videos from playlist")
            case Err(status, message) => r == Err(status, message) && db.playlists == old(db.playlists)
            case Ok(i) =>
              && db.playlists == old(db.playlists)[i := WithVideoRemoved(old(db.playlists)[i], videoId)]
              && r == Ok(db.playlists[i])
  {
    var guard := MembershipGuard(db.playlists, db.videos, playlistId, videoId, actor, isValid,
                                 "Only owner can remove videos from playlist");
    if guard.Err? {
      return Err(guard.status, guard.message);
    }
    var i := guard.value;
    var updated := WithVideoRemoved(db.playlists[i], videoId);
    UniqueReplace(db.playlists, i, updated, PlaylistKey);
    db.playlists := db.playlists[i := updated];
    r := Ok(updated);
  }

  /** Adding is set insertion: a member is not added again, a new id is
      appended, and adding twice leaves exactly one copy. */
  lemma AddVideoIsSetInsertion(p: Playlist, videoId: Id)
    ensures videoId in p.videos ==> WithVideoAdded(p, videoId) == p
    ensures videoId !in p.videos ==> WithVideoAdded(p, videoId).videos == p.videos + [videoId]
    ensures WithVideoAdded(WithVideoAdded(p, videoId), videoId) == WithVideoAdded(p, videoId)
    ensures multiset(WithVideoAdded(p, videoId).videos)[videoId]
            == if videoId in p.videos then multiset(p.videos)[videoId] else 1
  {
    if videoId !in p.videos {
      assert multiset(p.videos)[videoId] == 0;
    }
  }

  /** Removing deletes every copy of the id and keeps every other member with
      its multiplicity and relative order; the other fields are kept. */
  lemma RemoveVideoPullsEveryCopy(p: Playlist, videoId: Id)
    ensures videoId !in WithVideoRemoved(p, videoId).videos
    ensures multiset(WithVideoRemoved(p, videoId).videos) == multiset(p.videos)[videoId := 0]
    ensures forall a, b :: p.videos == a + b ==>
              WithVideoRemoved(p, videoId).videos == Pull(a, videoId) + Pull(b, videoId)
    ensures WithVideoRemoved(p, videoId).(videos := p.videos) == p
  {
    PullSpec(p.videos, videoId);
  }

  /** Removing after adding is the same as removing. */
  lemma RemoveUndoesAdd(p: Playlist, videoId: Id)
    ensures WithVideoRemoved(WithVideoAdded(p, videoId), videoId) == WithVideoRemoved(p, videoId)
  {
    PullAfterAddToSet(p.videos, videoId);
  }

  // ---------------------------------------------------------------------
  // deletePlaylist

  /** The checks of deletePlaylist: only an empty id is refused as invalid. */
  function DeleteGuard(playlists: seq<Playlist>, playlistId: Id, actor: Id): (r: Outcome<nat>)
    requires Unique(playlists, PlaylistKey)
    ensures playlistId == "" ==> r == Err(400, "Invalid playlistID")
    ensures playlistId != "" && !HasPlaylist(playlists, playlistId) ==> r == Err(400, "Playlist does not exist")
    ensures r.Ok? <==> playlistId != "" && exists i :: 0 <= i < |playlists| && playlists[i].id == playlistId
                                                      && playlists[i].owner == actor
    ensures r.Ok? ==> r.value < |playlists| && playlists[r.value].id == playlistId
                      && playlists[r.value].owner == actor
    ensures (playlistId != "" && HasPlaylist(playlists, playlistId) && r.Err?) ==>
              r == Err(400, "Only owner can delete playlist")
  {
    if playlistId == "" then Err(400, "Invalid playlistID")
    else match FirstIndex(playlists, PlaylistWithId(playlistId))
      case None =>
        assert !HasPlaylist(playlists, playlistId) by {
          forall i | 0 <= i < |playlists| ensures playlists[i].id != playlistId {
            assert !PlaylistWithId(playlistId)(playlists[i]);
          }
        }
        Err(400, "Playlist does not exist")
      case Some(i) =>
        OwnerGuard(playlists, i, playlistId, actor, "Only owner can delete playlist")
  }

  method DeletePlaylist(db: Db, playlistId: Id, actor: Id) returns (r: Outcome<Playlist>)
    requires db.Valid()
    modifies db`playlists
    ensures db.Valid()
    ensures match DeleteGuard(old(db.playlists), playlistId, actor)
            case Err(status, message) => r == Err(status, message) && db.playlists == old(db.playlists)
            case Ok(i) => db.playlists == RemoveAt(old(db.playlists), i) && r == Ok(old(db.playlists)[i])
  {
    var guard := DeleteGuard(db.playlists, playlistId, actor);
    if guard.Err? {
      return Err(guard.status, guard.message);
    }
    var i := guard.value;
    var result := db.playlists[i];
    UniqueRemoveAt(db.playlists, i, PlaylistKey);
    db.playlists := RemoveAt(db.playlists, i);
    r := Ok(result);
  }

  /** A successful delete removes exactly the playlist with that id: no
      playlist keeps the id and every other playlist stays, in order. */
  lemma DeleteRemovesOnlyThatPlaylist(playlists: seq<Playlist>, i: nat)
    requires Unique(playlists, PlaylistKey) && i < |playlists|
    ensures !HasPlaylist(RemoveAt(playlists, i), playlists[i].id)
    ensures Filter(RemoveAt(playlists, i), Other(playlists[i].id)) == Filter(playlists, Other(playlists[i].id))
  {
    var r := RemoveAt(playlists, i);
    forall k | 0 <= k < |r| ensures r[k].id != playlists[i].id {
      if k < i { assert PlaylistKey(playlists[k]) != PlaylistKey(playlists[i]); }
      else { assert PlaylistKey(playlists[i]) != PlaylistKey(playlists[k + 1]); }
    }
    FilterRemoveAt(playlists, i, Other(playlists[i].id));
  }

  function Other(id: Id): Playlist -> bool {
    (p: Playlist) => p.id != id
  }

  // ---------------------------------------------------------------------
  // updatePlaylist

  /** The checks of updatePlaylist, with the owner check before the body
      check. */
  function UpdateGuard(playlists: seq<Playlist>, playlistId: Id, name: Option<string>,
                       description: Option<string>, actor: Id): (r: Outcome<nat>)
    requires Unique(playlists, PlaylistKey)
    ensures playlistId == "" ==> r == Err(400, "Invalid playlistId")
    ensures playlistId != "" && !HasPlaylist(playlists, playlistId) ==> r == Err(400, "Playlist doesnot exist")
    ensures (playlistId != "" && exists i :: 0 <= i < |playlists| && playlists[i].id == playlistId
                                             && playlists[i].owner != actor) ==>
              r == Err(400, "Only owner can update playlist")
    ensures r.Ok? <==> playlistId != "" && Truthy(name) && Truthy(description)
                       && exists i :: 0 <= i < |playlists| && playlists[i].id == playlistId
                                      && playlists[i].owner == actor
    ensures r.Ok? ==> r.value < |playlists| && playlists[r.value].id == playlistId
                      && playlists[r.value].owner == actor
    ensures (playlistId != "" && !(Truthy(name) && Truthy(description))
             && exists i :: 0 <= i < |playlists| && playlists[i].id == playlistId && playlists[i].owner == actor) ==>
              r == Err(400, "Both name and description is required")
    ensures (playlistId != "" && HasPlaylist(playlists, playlistId) && !(Truthy(name) && Truthy(description))
             && r.Err? && r.message != "Only owner can update playlist") ==>
              r == Err(400, "Both name and description is required")
  {
    if playlistId == "" then Err(400, "Invalid playlistId")
    else match FirstIndex(playlists, PlaylistWithId(playlistId))
      case None =>
        assert !HasPlaylist(playlists, playlistId) by {
          forall i | 0 <= i < |playlists| ensures playlists[i].id != playlistId {
            assert !PlaylistWithId(playlistId)(playlists[i]);
          }
        }
        Err(400, "Playlist doesnot exist")
      case Some(i) =>
        UniqueKeyAt(playlists, PlaylistKey, i);
        match OwnerGuard(playlists, i, playlistId, actor, "Only owner can update playlist")
        case Err(status, message) => Err(status, message)
        case Ok(_) =>
          if !Truthy(name) || !Truthy(description) then Err(400, "Both name and description is required")
          else Ok(i)
  }

  method UpdatePlaylist(db: Db, playlistId: Id, name: Option<string>, description: Option<string>, actor: Id)
    returns (r: Outcome<Playlist>)
    requires db.Valid()
    modifies db`playlists
    ensures db.Valid()
    ensures match UpdateGuard(old(db.playlists), playlistId, name, description, actor)
            case Err(status, message) => r == Err(status, message) && db.playlists == old(db.playlists)
            case Ok(i) =>
              && db.playlists == old(db.playlists)[i := old(db.playlists)[i].(name := name.value,
                                                                              description := description.value)]
              && r == Ok(db.playlists[i])
  {
    var guard := UpdateGuard(db.playlists, playlistId, name, description, actor);
    if guard.Err? {
      return Err(guard.status, guard.message);
    }
    var i := guard.value;
    var updated := db.playlists[i].(name := name.value, description := description.value);
    UniqueReplace(db.playlists, i, updated, PlaylistKey);
    db.playlists := db.playlists[i := updated];
    r := Ok(updated);
  }
}
