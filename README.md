# Video-sharing backend controllers: a Dafny model

This project models the controllers of a video-sharing backend written
for Express and Mongoose. Users publish videos, comment on them, like
videos, comments and tweets, subscribe to channels and curate playlists.
The model works over an abstract in-memory store: six collections (users,
videos, comments, likes, subscriptions, playlists) held as sequences in
their natural order, with `_id`s compared only for equality. It has
three parts.

- **Mutation handlers as store transitions.** `createPlaylist`,
  `addVideoToPlaylist`, `removeVideoFromPlaylist`, `deletePlaylist`,
  `updatePlaylist`, `toggleSubscription`, the three like toggles,
  `publishAVideo`, the effects of `getVideoById`, `addComment`,
  `updateComment` and `deleteComment` are methods on the store class
  `Store.Db`. Most of them are proved against a guard function: the
  playlist handlers other than `createPlaylist`, `publishAVideo` and the
  comment handlers. The guard runs the handler's checks in source order
  and gives either the ApiError (status and message) or the position of
  the row to write. `createPlaylist`, `toggleSubscription`, the like
  toggles and `getVideoById` make their checks inline. Every method's
  contract says that an error leaves the collection unchanged, and gives
  the new collection exactly on success.
- **Views as functions.** `getUserPlaylists`, `getPlaylistById`,
  `getUserChannelSubscribers`, `getSubscribedChannels`, `getLikedVideos`,
  the view of `getVideoById` and `getVideoComments` are functions over
  the store. They are built from models of the aggregation operators in
  module `Aggregation`: `$match`, `$lookup`, `$unwind`, `$size`, `$in`,
  `$first`, `$last`, `$sum`, `$sort`, `$addToSet` and `$pull`. Lemmas
  relate each derived count and flag to the membership it stands for.
- **The stage list of getAllVideos.** It is built by a method that pushes
  onto a local list, as the handler does. The method is proved against a
  function, and lemmas give the shape of the list and which videos it
  selects.

Modules:
- `Basics`: ids, `Option`, `Outcome` and JavaScript truthiness and `trim`.
- `Aggregation`: models of the query operators.
- `Store`: the documents and the database class.
- `Toggle`: the find-then-delete-or-create machine.
- One controller module per controller file: `PlaylistController`,
  `VideoController`, `SubscriptionController`, `LikeController` and
  `CommentController`.

Outside inputs are parameters:
- `isValidObjectId` is a predicate parameter `isValid`;
- the authenticated user is `actor`;
- the `_id` and the timestamp the store gives a new document are `newId`
  (required to be unused) and `now`;
- the upload service's answers are `Option<Upload>` values;
- the text search is a predicate parameter `matches`;
- the `$sort` key of a field is a function parameter `key`.

Where the specification and the code disagree, the model follows the code:
- The specification asks for an allow-list of sort fields. getAllVideos
  accepts any `sortBy` (src/controllers/video.controller.js:64-70).
- The specification requires an owner check before any deletion of a
  comment. deleteComment makes none (src/controllers/comment.controller.js:162-183).

## Model

| member | source | states |
|---|---|---|
| Basics.TrimmedEmptyIffBlank | src/controllers/comment.controller.js:96-99 | `s.trim() === ""` holds exactly when every character of `s` is JavaScript whitespace, the empty string included |
| Basics.TrimIsCore | src/controllers/comment.controller.js:96 | a non-empty trimmed string neither starts nor ends with whitespace |
| Aggregation.FirstOfFilter | src/controllers/comment.controller.js:44-46 | `$first` of a lookup is the first matching document in collection order |
| Aggregation.LastOfFilter | src/controllers/subscription.controller.js:163-167 | `$last` of a lookup is absent exactly when nothing matches, and is otherwise the last match |
| Aggregation.LookupOnUniqueKeySize | src/controllers/subscription.controller.js:70-111 | a `$lookup` on a unique foreign key followed by `$unwind` keeps exactly the documents that have a match, one row each |
| Aggregation.AddToSetIdempotent | src/controllers/playlist.controller.js:195-197 | `$addToSet` applied twice equals applied once |
| Aggregation.PullSpec | src/controllers/playlist.controller.js:237-240 | `$pull` removes every copy of the value and keeps the other elements in order |
| Aggregation.PullAfterAddToSet | src/controllers/playlist.controller.js:195-240 | pulling a value after adding it to the set equals pulling it from the original |
| Aggregation.SortDesc | src/controllers/like.controller.js:176-180 | `$sort` descending yields a permutation of its input ordered by the key |
| Aggregation.ActorInMapFilter | src/controllers/comment.controller.js:47-53 | `$in` of the actor over a field of the looked-up documents holds exactly when one of them carries the actor's id |
| Store.ActorLikedIff | src/controllers/video.controller.js:232-240 | `$in: [actor, "$likes.likedBy"]` over the Likes of a target holds exactly when the actor has a Like on that target |
| Store.FirstUserWithId | src/controllers/comment.controller.js:44-46 | `$first` of a lookup of users on `_id` is absent exactly when no user has the id, and is otherwise the first user that has it |
| Store.LikesCountIsDistinctLikes | src/controllers/video.controller.js:226-228 | `$size` of the looked-up Likes counts distinct Like documents |
| Toggle.NoMatchesIffNotFound | src/controllers/subscription.controller.js:18-25 | a pair has no row exactly when `findOne` finds none |
| Toggle.ToggleCount | src/controllers/subscription.controller.js:18-52 | each toggle moves the number of rows of its pair by exactly one: up from none, down otherwise |
| Toggle.ToggleKeepsOthers | src/controllers/like.controller.js:17-34 | rows the toggle does not match are kept, in order |
| Toggle.ToggleTwiceFromAbsent | src/controllers/like.controller.js:83-104 | from no row, two toggles restore the collection exactly |
| Toggle.ToggleTwiceFromPresent | src/controllers/like.controller.js:117-138 | from one row, two toggles delete it and append a row for the same pair |
| PlaylistController.CreatePlaylist | src/controllers/playlist.controller.js:12-21 | a missing or empty name or description fails with 400 and writes nothing; otherwise exactly one playlist is appended, owned by the actor, with no videos |
| PlaylistController.UserPlaylists | src/controllers/playlist.controller.js:37-76 | an invalid userId raises status 200 "Invalid userId"; otherwise one summary per playlist the user owns, and every playlist the user owns has its summary in the list |
| PlaylistController.UserPlaylistsRows | src/controllers/playlist.controller.js:42-76 | every row summarises a playlist owned by `userId`, with the id, name, description, totals and updatedAt of that playlist |
| PlaylistController.SummaryOf | src/controllers/playlist.controller.js:42-76 | the summary of one playlist keeps its `_id` and `updatedAt`, and `totalVideos` never exceeds the number of videos |
| PlaylistController.TotalVideosCountsExistingMembers | src/controllers/playlist.controller.js:48-60 | `totalVideos` is the number of distinct referenced ids whose video exists |
| PlaylistController.AddingVideoRaisesTotals | src/controllers/playlist.controller.js:57-64 | adding an existing video that is not yet a member raises `totalVideos` by one and `totalViews` by that video's views |
| PlaylistController.PlaylistById | src/controllers/playlist.controller.js:88-91 | an invalid playlistId fails with 400 "Invalid playlistId" |
| PlaylistController.DetailOf | src/controllers/playlist.controller.js:100-155 | `totalVideos` is the length of `videos`; every card is of a video the playlist references, and every referenced video that exists has its card |
| PlaylistController.PlaylistByIdVisibleIff | src/controllers/playlist.controller.js:93-111 | at most one playlist is returned, and it is returned exactly when one of its looked-up videos is published |
| PlaylistController.PlaylistDetailCountsAllVideos | src/controllers/playlist.controller.js:120-148 | the `videos` array is not filtered by publication: `totalVideos` is its length and every member video appears in it |
| PlaylistController.PlaylistOwnerIsFirstUser | src/controllers/playlist.controller.js:112-153 | `owner` is absent when no user has the owner id, and otherwise is the card of the first such user |
| PlaylistController.MembershipGuard | src/controllers/playlist.controller.js:167-193 | checks, in order: playlist id, video id, playlist existence, video existence, owner, each failing with 400 and its own message (the owner step with the handler's `notOwner` message); it succeeds exactly when both ids are valid, the video exists and the actor owns the playlist |
| PlaylistController.OwnerGuard | src/controllers/playlist.controller.js:190-193 | the owner comparison passes exactly when the stored owner is the actor |
| PlaylistController.AddVideoToPlaylist | src/controllers/playlist.controller.js:164-203 | a failed check leaves the playlists unchanged; on success only that playlist changes, by `$addToSet` of the video |
| PlaylistController.RemoveVideoFromPlaylist | src/controllers/playlist.controller.js:206-247 | a failed check leaves the playlists unchanged; on success only that playlist changes, by `$pull` of the video |
| PlaylistController.AddVideoIsSetInsertion | src/controllers/playlist.controller.js:195-199 | adding a member changes nothing, adding a non-member appends it, adding twice equals adding once, and a new member occurs once |
| PlaylistController.RemoveVideoPullsEveryCopy | src/controllers/playlist.controller.js:237-243 | no copy of the video remains, every other member keeps its count and order, and nothing but `videos` changes |
| PlaylistController.RemoveUndoesAdd | src/controllers/playlist.controller.js:195-243 | removing a just-added video equals removing it from the original playlist |
| PlaylistController.DeleteGuard | src/controllers/playlist.controller.js:254-269 | checks an empty id, then existence, then owner; it succeeds exactly when the actor owns a playlist with that id |
| PlaylistController.DeletePlaylist | src/controllers/playlist.controller.js:251-281 | a failed check leaves the playlists unchanged; on success exactly that playlist is removed and returned |
| PlaylistController.DeleteRemovesOnlyThatPlaylist | src/controllers/playlist.controller.js:271 | after the delete no playlist has the id, and every other playlist remains, in order |
| PlaylistController.UpdateGuard | src/controllers/playlist.controller.js:287-307 | checks an empty id, then existence, then the owner before the name and description, each failing with 400 and its message; for the owner with a missing field the answer is "Both name and description is required"; it succeeds exactly when the actor owns the playlist and both fields are truthy |
| PlaylistController.UpdatePlaylist | src/controllers/playlist.controller.js:283-330 | on success exactly `name` and `description` of that playlist are set; otherwise nothing changes |
| VideoController.BuildPipeline | src/controllers/video.controller.js:29-78 | a truthy but invalid userId fails with 400 "Invalid userId"; otherwise the pushes produce exactly the listed stages |
| VideoController.ListPipeline | src/controllers/video.controller.js:29-78 | one stage for a truthy query, one for a valid userId, then the published filter and the sort, which is last |
| VideoController.SearchStageIffQuery | src/controllers/video.controller.js:30-41 | a search stage is present exactly when `query` is truthy, and it is then the first stage and searches for `query` |
| VideoController.OwnerStageIffUserId | src/controllers/video.controller.js:44-56 | a valid userId adds exactly one owner filter, and no userId adds none |
| VideoController.OwnerStageIsUserId | src/controllers/video.controller.js:51-55 | the owner filter compares the owner with `userId` |
| VideoController.PublishedThenSortLast | src/controllers/video.controller.js:58-78 | the published filter is always present, after the search and owner stages, and the sort stage is last |
| VideoController.SortRule | src/controllers/video.controller.js:64-78 | with both sortBy and sortType, sort on sortBy, ascending exactly when sortType is "asc"; otherwise on createdAt descending |
| VideoController.RunMembership | src/controllers/video.controller.js:80 | a video survives the stages exactly when every stage admits it |
| VideoController.ListedVideos | src/controllers/video.controller.js:29-80 | the listing holds exactly the published videos that match the search, when given, and belong to userId, when given |
| VideoController.ListedVideosOrder | src/controllers/video.controller.js:64-78 | the listing is ordered by `sortBy`, ascending exactly for "asc", when both are given, and by `createdAt`, newest first, otherwise |
| VideoController.BlankFieldsRejected | src/controllers/video.controller.js:102-104 | "All fields are required" is raised exactly when the title or the description is present and made only of whitespace |
| VideoController.PublishCheck | src/controllers/video.controller.js:102-130 | passes exactly when neither text field is blank, both local paths are truthy and both uploads succeed; past the field check, failures come in the order video path, thumbnail path, video upload, thumbnail upload, each with its message |
| VideoController.AbsentFieldsPass | src/controllers/video.controller.js:102-130 | with title and description absent, the outcome depends only on the files and the uploads |
| VideoController.PublishAVideo | src/controllers/video.controller.js:98-153 | a failed check writes nothing; otherwise exactly one published video is appended, owned by the actor, with the uploaded URLs and duration |
| VideoController.IsSubscribedAsWrittenNeverHolds | src/controllers/video.controller.js:200-209 | as written, `isSubscribed` compares the actor's id with whole Subscription documents and is never true |
| VideoController.IsSubscribedIffSubscribed | src/controllers/video.controller.js:186-209 | the corrected flag holds exactly when the actor has a Subscription to the channel |
| VideoController.VideoViewFields | src/controllers/video.controller.js:172-241 | `likesCount` counts the Likes on the video; `isLiked` is true exactly when the actor has one (never for an absent actor); `subscribersCount` counts the Subscriptions to the owner's channel |
| VideoController.ViewOf | src/controllers/video.controller.js:172-256 | the view keeps the video's `_id`, `views` and `createdAt`; an owner card is the video owner's; `likesCount` is at most the number of Likes; `isLiked` is false without an actor |
| VideoController.VideoById | src/controllers/video.controller.js:166-256 | every element is a view of a video with the requested id; the array is empty exactly when no video has that id |
| VideoController.ViewsIncrementedByOne | src/controllers/video.controller.js:266-270 | the video with the id gains exactly one view, and no other video changes |
| VideoController.WatchHistoryIsSetInsert | src/controllers/video.controller.js:273-277 | the actor's history gains the video at most once and keeps no duplicates; other users are unchanged |
| VideoController.RecordView | src/controllers/video.controller.js:264-277 | the two writes leave every collection's ids unique and set the videos and users to the increment and the watch-history insertion, nothing else |
| VideoController.ViewShowsCountBeforeIncrement | src/controllers/video.controller.js:166-270 | the returned view shows one view fewer than the store holds after the call |
| VideoController.GetVideoById | src/controllers/video.controller.js:157-282 | an invalid id fails with 400 and changes nothing; otherwise the view is composed from the state before the call, then views are incremented and the history is updated |
| SubscriptionController.ToggleFlipsSubscription | src/controllers/subscription.controller.js:18-52 | the count of (channelId, actor) rows moves by exactly one |
| SubscriptionController.ToggleKeepsOtherSubscriptions | src/controllers/subscription.controller.js:18-52 | rows of every other pair are untouched, in order |
| SubscriptionController.ToggleSubscriptionTwiceFromUnsubscribed | src/controllers/subscription.controller.js:18-52 | from no subscription, toggling twice restores the rows exactly |
| SubscriptionController.ToggleSubscriptionTwiceFromSubscribed | src/controllers/subscription.controller.js:18-52 | from one subscription, toggling twice restores the multiset of (channel, subscriber) pairs |
| SubscriptionController.ToggleSubscription | src/controllers/subscription.controller.js:10-53 | an invalid channelId fails with 400 and changes nothing; otherwise the found row alone is deleted and returned, or exactly one (channelId, actor) row is created and returned |
| SubscriptionController.ChannelSubscribersAsWritten | src/controllers/subscription.controller.js:59-62 | an invalid channelId fails with 400 "Invalid channelId" |
| SubscriptionController.ChannelSubscribers | src/controllers/subscription.controller.js:59-62 | an invalid channelId fails with 400 "Invalid channelId" |
| SubscriptionController.ChannelSubscribersAsWrittenAreBlank | src/controllers/subscription.controller.js:112-123 | as written, every row's `subscriber` projects to nothing, one row per unwound subscription |
| SubscriptionController.ChannelSubscribersCount | src/controllers/subscription.controller.js:109-111 | `$unwind` keeps one row per subscription of the channel whose subscriber user exists |
| SubscriptionController.ChannelSubscribersEntries | src/controllers/subscription.controller.js:64-124 | a row is listed exactly when it is the card of an existing subscriber of the channel |
| SubscriptionController.SubscribedToSubscriberIffMutual | src/controllers/subscription.controller.js:78-98 | `subscribedToSubscriber` holds exactly when the channel subscribes back to the subscriber |
| SubscriptionController.SubscribersCountIsChannelSize | src/controllers/subscription.controller.js:101-103 | `subscribersCount` counts the distinct Subscriptions to the subscriber's own channel |
| SubscriptionController.SubscribedChannels | src/controllers/subscription.controller.js:136-139 | an empty subscriberId fails with 400 "Invalid subscriberID" |
| SubscriptionController.LatestVideoIsLastOwned | src/controllers/subscription.controller.js:153-169 | `latestVideo` is absent when the channel has no videos, and is otherwise the channel's last video in lookup order |
| SubscriptionController.SubscribedChannelsEntries | src/controllers/subscription.controller.js:141-196 | a row is listed exactly when it is the card of an existing channel the subscriber subscribes to |
| SubscriptionController.SubscribedChannelsCount | src/controllers/subscription.controller.js:172-174 | one row per subscription whose channel user exists |
| LikeController.ToggleFlipsLike | src/controllers/like.controller.js:17-34 | the count of the actor's Likes on the target moves by exactly one |
| LikeController.ToggleKeepsOtherLikes | src/controllers/like.controller.js:83-86 | Likes on other targets or by other users are untouched, in order |
| LikeController.ToggleLikeTwiceFromUnliked | src/controllers/like.controller.js:83-104 | from no Like, toggling twice restores the Like set exactly |
| LikeController.ToggleLikeTwiceFromLiked | src/controllers/like.controller.js:117-138 | from one Like, toggling twice restores the multiset of (target, likedBy) pairs |
| LikeController.TogglePreservesOneLikePerPair | src/controllers/like.controller.js:17-34 | sequential toggles never create a second Like for a (target, actor) pair |
| LikeController.ToggleLike | src/controllers/like.controller.js:17-34 | the found Like alone is deleted, or exactly one Like on the target by the actor is created |
| LikeController.ToggleVideoLike | src/controllers/like.controller.js:8-36 | an invalid id fails with 400 and touches no Like; otherwise the video toggle |
| LikeController.ToggleCommentLike | src/controllers/like.controller.js:74-104 | an invalid id fails with 400 "Invalid videoId!!" and touches no Like; otherwise the comment toggle |
| LikeController.ToggleTweetLike | src/controllers/like.controller.js:108-138 | an invalid id fails with 400 "Invalid videoId!!" and touches no Like; otherwise the tweet toggle |
| LikeController.LikeFieldCases | src/controllers/like.controller.js:146-150 | no Like has a field `LikedBy`; `likedBy` is the liker; `video` is set exactly for video Likes |
| LikeController.LikedVideosAsWrittenIsEmpty | src/controllers/like.controller.js:146-203 | as written, the liked-videos list is always empty |
| LikeController.LikedVideosAsWritten | src/controllers/like.controller.js:146-203 | as written, one entry per row joined after the `$match` on `LikedBy` |
| LikeController.LikedRows | src/controllers/like.controller.js:176-180 | the rows are sorted by the Like's createdAt, descending, and are a permutation of the joined rows |
| LikeController.LikedVideos | src/controllers/like.controller.js:146-203 | with the `$match` on `likedBy`, one entry per joined (Like, video, owner) row |
| LikeController.LikedVideosAreLikedByActor | src/controllers/like.controller.js:146-202 | every listed entry is a video the actor liked, with its existing owner's card |
| LikeController.LikedVideosIncludeEveryLike | src/controllers/like.controller.js:152-202 | every video the actor liked whose owner exists is listed |
| CommentController.VideoComments | src/controllers/comment.controller.js:12-15 | an invalid videoId fails with 400 "Invalid videoId" |
| CommentController.VideoCommentsRows | src/controllers/comment.controller.js:17-22 | one row per comment of the video: every row is such a comment's view, and every such comment has its row |
| CommentController.CommentViewFields | src/controllers/comment.controller.js:23-68 | `likesCount` counts the comment's Likes; `isLiked` is true exactly when the actor has one; `owner` is absent without a matching user and is otherwise the card of the first |
| CommentController.AddGuard | src/controllers/comment.controller.js:91-105 | checks, in order: id validity, a blank comment, video existence (404); it passes exactly when all three hold |
| CommentController.AddComment | src/controllers/comment.controller.js:86-121 | a failed check writes nothing; otherwise exactly one comment is appended, with video = videoId, content = comment and owner = actor |
| CommentController.AddedCommentIsListedLast | src/controllers/comment.controller.js:17-22 | a new comment is listed last for its video, and no other video's listing changes |
| CommentController.UpdateAsWrittenNeverSucceeds | src/controllers/comment.controller.js:133-142 | as written, every request body fails a check or throws before the update |
| CommentController.UpdateCheckAsWritten | src/controllers/comment.controller.js:128-142 | as written, an invalid id fails with 400 "Invalid commentId"; a missing body value or an `owner` other than the actor fails with the owner message |
| CommentController.UpdateGuard | src/controllers/comment.controller.js:128-142 | checks id validity, then that the stored comment is the actor's, then a blank text, each failing with 400 and its message; for the actor's own comment and a blank text the answer is "Invalid comment"; it passes exactly when all three hold |
| CommentController.UpdateComment | src/controllers/comment.controller.js:123-156 | a failed check changes nothing; otherwise only the matched comment's content is set |
| CommentController.UpdateChangesOnlyContent | src/controllers/comment.controller.js:144-150 | the update changes the content of the one comment with the id and nothing else |
| CommentController.DeleteGuard | src/controllers/comment.controller.js:162-172 | an invalid id gives "Invalid CommentID", a missing comment gives "Comment not found", and it passes exactly when the comment exists; no owner is compared |
| CommentController.DeleteComment | src/controllers/comment.controller.js:158-184 | a failed check changes nothing; otherwise exactly that comment is removed and returned |
| CommentController.DeleteRemovesOnlyThatComment | src/controllers/comment.controller.js:174 | no comment keeps the id, and every other comment remains, in order |

## Left out

- HTTP plumbing is not modelled: `req`, `res`, `ApiResponse`, `ApiError` and src/utils/asyncHandler.js. Results are `Ok` values or `Err(status, message)`. Response messages of successful calls are not modelled.
- Pagination (`aggregatePaginate`, `page`, `limit`) is not modelled, since it is library windowing. getVideoComments passes it an already evaluated array.
- The Atlas `$search` ranking is not modelled. A search stage is a given predicate `matches`, and its result keeps collection order.
- The `$sort` order among documents with equal keys is not fixed by the model.
- The Cloudinary uploads, the media durations and the multipart files are not modelled; they are given as parameters.
- ObjectId casting is not modelled. Ids are compared by equality, including the `$match` on a raw string id (video.controller.js:169, playlist.controller.js:96, subscription.controller.js:67 and 144). `isValidObjectId` is a predicate parameter. A CastError from `findById` on a non-id string is not modelled.
- Five runtime faults of the JavaScript are replaced by the effect the code spells out:
  - the undefined `videoPath` (video.controller.js:119) and `owner` (video.controller.js:138);
  - `ObjectId` not imported (like.controller.js:32);
  - `Video` not imported (comment.controller.js:101);
  - `res.status(200, ...)`, which never sends a response (like.controller.js:36).
- PlaylistController.AddVideoToPlaylist: the update query at playlist.controller.js:195 is not awaited. As written the update never runs. The model applies the `$addToSet` and returns the updated playlist.
- PlaylistController.UpdateGuard: playlist.controller.js:294 re-tests `playlistId` instead of the found playlist. A missing playlist therefore dereferences null at line 299. The model answers 400 "Playlist doesnot exist".
- SubscriptionController.ChannelSubscribers: the stage at subscription.controller.js:101-103 puts `subscribersCount` beside `$addFields`. That stage is malformed, so the database would reject the whole pipeline. The model computes `subscribersCount` as intended.
- SubscriptionController.ChannelSubscribersAsWritten: it leaves out the malformed stage at subscription.controller.js:101-103, just as ChannelSubscribers does. As written, the database would reject the pipeline there, before the projection at lines 112-123 runs. The model shows what that projection does once the stage is repaired.
- VideoController.GetVideoById: the returned view uses the corrected `isSubscribed` flag (IsSubscribed). As written, video.controller.js:200-209 always gives false. IsSubscribedAsWrittenNeverHolds proves this about the as-written flag.
- VideoController.PublishAVideo: the stored video gets `views = 0`, the schema default. The schema is not part of this model. A title or description that is not a string is not modelled.
- A missing body field that is then trimmed is not modelled, in addComment and updateComment. It throws a TypeError before any write, so the model takes the text as a string.
- Timestamps are not refreshed: `updatedAt` is not changed by the updates, and the model leaves it as it was.
- The 500 error paths that follow a successful create, update or delete are not modelled, because they cannot occur in a sequential run on an in-memory store. Also not modelled is the check `if(!video)` on an aggregation result array, which is always truthy (video.controller.js:259).
- Concurrency between the find and the write of the toggles is not modelled. Each call runs alone.
- The `comments` field in the projection of getVideoById is not modelled, because the video document has no such field.
- src/controllers/user.controller.js is not part of this model.
- The empty stubs `updateVideo`, `deleteVideo` and `togglePublishStatus` are not modelled; they have no behaviour.

## Findings

| source | as written | input that shows it | evidently intended | confidence | as-written member | corrected member |
|---|---|---|---|---|---|---|
| src/controllers/video.controller.js:200-209 | `$in: [req.user?._id, "$subscribers"]` looks for the user's id among whole Subscription documents | any actor who subscribes to the video's owner: the id never equals a document, so `isSubscribed` is false | `$in` over `"$subscribers.subscriber"`, as the like flag does at line 235; VideoController.GetVideoById returns this corrected flag | not executed | VideoController.IsSubscribedAsWrittenNeverHolds | VideoController.IsSubscribedIffSubscribed |
| src/controllers/like.controller.js:146-150 | the first `$match` is on `LikedBy`, a field no Like has | an actor with Likes on existing videos: the list is empty | `$match` on `likedBy`, the field the toggles write | not executed | LikeController.LikedVideosAsWrittenIsEmpty | LikeController.LikedVideosIncludeEveryLike |
| src/controllers/subscription.controller.js:112-123 | `$project` descends into `subscriber`, the plain id field, rather than the unwound `subscribers` document | any channel with an existing subscriber, once the malformed stage at lines 101-103 is repaired (as written that stage makes the database reject the pipeline first): every row's `subscriber` card is missing | project the unwound `subscribers` document | not executed | SubscriptionController.ChannelSubscribersAsWrittenAreBlank | SubscriptionController.ChannelSubscribersEntries |
| src/controllers/comment.controller.js:133-142 | the owner is read from `req.body.comment?.owner`, and then `comment.trim()` is called on the same value | a body `{comment: "text"}` throws at `owner.toString()`; a body `{comment: {owner: actor}}` throws at `trim` | compare the stored comment's owner with the actor, trim the text and `$set` it | not executed | CommentController.UpdateAsWrittenNeverSucceeds | CommentController.UpdateComment |
