# Video-sharing backend: handler state transitions in Dafny

This project models the request handlers of a small video-sharing backend (a
YouTube clone). The handlers are the like/dislike reactions, the embedded
comments, and the create/read/update/delete operations on channels and
videos. The document database is replaced by an in-memory `Store` object,
`Db.Store`. The store holds the video collection, the channel collection,
each registered user's `channels` list, and a generator of fresh document
ids. Each handler is a method over the store that returns a `Response`: the
payload, `NotFound` (404), `Forbidden` (403) or `BadRequest` (400). Each
method states its whole new state in terms of the old one: what changes and
what is left untouched.

Layout, one module per file:

- `base.dfy` (`Base`): ids, `Option`, `Response`, `Created`.
- `lists.dfy` (`Lists`): `filter(uid => uid !== u)` on id lists. It covers what the filter removes, what it keeps, the relative order of what it keeps, and duplicates.
- `models.dfy` (`Models`): the Video and Channel documents, their schema defaults, and `Object.assign(doc, body)` as a patch with one optional value per schema path.
- `reactions.dfy` (`Reactions`): the like/dislike toggle as a function on the two lists, and its laws.
- `comments.dfy` (`CommentLists`): lookup of an embedded comment by id, editing its text, pulling it out, and their laws.
- `store.dfy` (`Db`): the store class and its id generator.
- `reaction_controller.dfy`, `comment_controller.dfy`, `channel_controller.dfy`, `video_controller.dfy`: one module per controller, with one method per handler.
- `scenario.dfy` (`Scenario`): a client walk-through checked against the handler contracts alone. User A creates "Tech" and uploads "Intro". User B likes it (1 like, 0 dislikes), then dislikes it (0 likes, 1 dislike). B comments, and A cannot edit B's comment. B cannot delete the video or create a second "Tech".

Modelling choices:

- Ids are one type (`nat`). The handlers compare ids only for equality, which stands for the `toString()` comparisons of ObjectIds; only the model's id generator uses their order.
- New ids come from a counter. `Store.Valid()` says every stored video, channel and comment id is below it, so a new id never collides with a stored one. This is an assumption of the model, not a guarantee of the code: ObjectIds are generated from a timestamp, a per-process random value and a counter, without looking at stored ids. The model assumes a generated id never equals a stored one, including a comment id a client put in an update body; to keep that assumption true, an update whose body carries comments moves the counter past their ids (`VideoController.AdvancePast`).
- Ownership checks compare the requester id with `owner`, `uploader` or the comment's `userId`.
- A stored video may lack its `likes` or `dislikes` list (`Option`). The reaction handlers read a missing list as empty and then always store both lists.
- `comments.id(cid)` finds the first comment with that id (`FindComment`). `comment.deleteOne()` on an embedded document pulls every array element with that `_id` (`WithoutComment`). When comment ids are unique, this removes exactly the comment that was found (`WithoutUnique`).
- `Object.assign(doc, req.body)` may overwrite any schema path, including `owner`, `uploader` and `channelId`. The model does not make these immutable. `AssignVideoOwnership` and `AssignChannelOwnership` state when they change.
- Channel names are unique only as far as `createChannel` checks them. `CreateChannel` preserves `NamesUnique`. `UpdateChannel` can rename a channel onto an existing name, because the code does not check.
- The update and delete handlers load, check and change in one atomic step.

The handlers do not protect `owner`, `uploader` or `channelId`, and `updateChannel` does not re-check name uniqueness; the model follows the code.

## Model

| member | source | states |
|---|---|---|
| `Lists.RemoveAll` | backend/controllers/reactionController.js:13 | the filtered list omits `u`, every other id is present iff it was before, and it is no longer than the input |
| `Lists.RemoveAllCount` | backend/controllers/reactionController.js:17 | the filter drops every occurrence of `u` and keeps the exact count of every other id |
| `Lists.RemoveAllLength` | backend/controllers/reactionController.js:23 | the filtered length is the old length minus the occurrences of `u` |
| `Lists.RemoveAllAbsent` | backend/controllers/reactionController.js:13 | filtering out an id that is absent leaves the list as it was |
| `Lists.RemoveAllConcat` | backend/controllers/reactionController.js:13 | the filter distributes over concatenation |
| `Lists.RemoveAllAppended` | backend/controllers/reactionController.js:16-19 | pushing `u` and then filtering it out gives the same list as filtering alone |
| `Lists.RemoveAllKeepsOrder` | backend/controllers/reactionController.js:41 | any two ids other than `u` occur in the same relative order before and after the filter |
| `Lists.AppendKeepsOrder` | backend/controllers/reactionController.js:19 | pushing `u` at the end does not change the relative order of the ids already there |
| `Lists.RemoveAllNoDup` | backend/controllers/reactionController.js:45 | a duplicate-free list stays duplicate-free after the filter |
| `Lists.AppendFreshNoDup` | backend/controllers/reactionController.js:44-47 | pushing an absent id onto a duplicate-free list keeps it duplicate-free |
| `Models.NewVideo` | backend/models/Video.js:3-33 | a new video keeps the given title, URLs, channel and uploader. It starts with 0 views and empty likes, dislikes and comments. Description defaults to "" and category to "General" |
| `Models.NewChannel` | backend/models/Channel.js:3-17 | a new channel keeps the given name and owner and starts with no subscribers and no videos. Description and banner default to "" |
| `Models.AssignVideo` | backend/controllers/videoController.js:81 | `Object.assign(video, body)`: every path the body carries is overwritten with the body's value, every path it omits keeps the stored value |
| `Models.AssignChannel` | backend/controllers/channelController.js:58 | `Object.assign(channel, body)`: every path the body carries is overwritten, every other path keeps the stored value |
| `Models.AssignVideoLaws` | backend/controllers/videoController.js:81 | `Object.assign` on a video: an empty body is the identity, the same body twice equals once, and two bodies in turn equal their merge with the later winning |
| `Models.AssignChannelLaws` | backend/controllers/channelController.js:58 | the same three laws for `Object.assign` on a channel |
| `Models.AssignVideoOwnership` | backend/controllers/videoController.js:81 | `uploader` and `channelId` keep their value iff the body omits them or repeats the stored value, so they are not protected |
| `Models.AssignChannelOwnership` | backend/controllers/channelController.js:58 | `owner` keeps its value iff the body omits it or repeats the stored value |
| `Reactions.Listed` | backend/controllers/reactionController.js:9-10 | a missing list reads as the empty list, and a present one reads as itself |
| `Reactions.Like` | backend/controllers/reactionController.js:12-20 | after a like, `u` is not a disliker and is a liker iff it was not one before. When it was absent, it is appended at the end |
| `Reactions.Dislike` | backend/controllers/reactionController.js:40-48 | after a dislike, `u` is not a liker and is a disliker iff it was not one before. When it was absent, it is appended at the end |
| `Reactions.DislikeMirrorsLike` | backend/controllers/reactionController.js:32-55 | the dislike handler is the like handler with the two lists swapped |
| `Reactions.ReactionsExclusiveForUser` | backend/controllers/reactionController.js:13 | after a like or a dislike by `u`, `u` is in at most one of the two lists |
| `Reactions.LikeWithdraws` | backend/controllers/reactionController.js:16-17 | a like by a current liker removes every occurrence of `u` and shortens the likers by exactly that many |
| `Reactions.DislikeWithdraws` | backend/controllers/reactionController.js:44-45 | a dislike by a current disliker removes every occurrence of `u` and shortens the dislikers by exactly that many |
| `Reactions.LikeKeepsOthers` | backend/controllers/reactionController.js:13-20 | every other user keeps its number of occurrences in both lists after a like |
| `Reactions.LikeKeepsOrder` | backend/controllers/reactionController.js:13-20 | any two other users keep their relative order in both lists after a like |
| `Reactions.LikeKeepsDuplicateFree` | backend/controllers/reactionController.js:16-19 | if neither list has duplicates before a like, neither has any after |
| `Reactions.LikeKeepsExclusive` | backend/controllers/reactionController.js:13-20 | if no user is in both lists before a like, none is after |
| `Reactions.LikeTwice` | backend/controllers/reactionController.js:13-20 | two likes by `u` restore `u`'s presence among the likers and leave `u` out of the dislikers. When `u` was not a liker, the likers list is restored exactly |
| `Reactions.DislikeKeepsOthers` | backend/controllers/reactionController.js:41-48 | every other user keeps its number of occurrences in both lists after a dislike |
| `Reactions.DislikeKeepsOrder` | backend/controllers/reactionController.js:41-48 | any two other users keep their relative order in both lists after a dislike |
| `Reactions.DislikeKeepsDuplicateFree` | backend/controllers/reactionController.js:44-47 | if neither list has duplicates before a dislike, neither has any after |
| `Reactions.DislikeKeepsExclusive` | backend/controllers/reactionController.js:41-48 | if no user is in both lists before a dislike, none is after |
| `Reactions.DislikeTwice` | backend/controllers/reactionController.js:41-48 | two dislikes by `u` restore `u`'s presence among the dislikers and leave `u` out of the likers. When `u` was not a disliker, the dislikers list is restored exactly |
| `Reactions.LikeThenDislike` | backend/controllers/reactionController.js:41-47 | a like followed by a dislike by the same user leaves that user a disliker only |
| `ReactionController.TallyOf` | backend/controllers/reactionController.js:9-10 | the reaction lists a handler starts from: a missing list is empty, a present one is taken as stored |
| `ReactionController.WithTally` | backend/controllers/reactionController.js:9-22 | the saved video holds both reaction lists as computed, every other field is unchanged, and reading the lists back gives the same tally |
| `ReactionController.LikeVideo` | backend/controllers/reactionController.js:4-27 | an unknown video gives NotFound and changes nothing. Otherwise the video's lists become `Like` of the old ones, and the response is their two lengths. Nothing else in the store changes |
| `ReactionController.DislikeVideo` | backend/controllers/reactionController.js:32-55 | an unknown video gives NotFound and changes nothing. Otherwise the video's lists become `Dislike` of the old ones, and the response is their two lengths. Nothing else in the store changes |
| `CommentLists.FindComment` | backend/controllers/commentController.js:28 | `comments.id(cid)` returns the first position holding `cid`, or nothing iff no comment has that id |
| `CommentLists.WithoutComment` | backend/controllers/commentController.js:60 | the delete never lengthens the list, and no remaining comment carries the deleted id |
| `CommentLists.WithoutCommentKeeps` | backend/controllers/commentController.js:60 | after the delete, a comment remains iff it was there and does not carry the deleted id |
| `CommentLists.WithoutCommentSingle` | backend/controllers/commentController.js:60 | pulling from a one-comment list keeps that comment iff its id differs |
| `CommentLists.WithoutCommentConcat` | backend/controllers/commentController.js:60 | the pull distributes over concatenation, so the surviving comments keep their order, also when ids repeat |
| `CommentLists.WithoutCommentCount` | backend/controllers/commentController.js:60 | every comment with another id keeps its number of occurrences; those with the deleted id are all gone |
| `CommentLists.EditText` | backend/controllers/commentController.js:35 | the list keeps its length; the comment at the position gets the new text and keeps its id and author; every other comment is unchanged |
| `CommentLists.EditTextOnlyTarget` | backend/controllers/commentController.js:35 | an edit sets the target's text and keeps its id and author. Every other comment stays the same, and writing the old text back restores the list |
| `CommentLists.FindCommentById` | backend/controllers/commentController.js:28 | the lookup depends only on the sequence of comment ids |
| `CommentLists.EditKeepsLookup` | backend/controllers/commentController.js:35 | after an edit, every comment id is still found at the same position |
| `CommentLists.WithoutAbsent` | backend/controllers/commentController.js:60 | pulling an id that no comment carries leaves the list as it was |
| `CommentLists.WithoutUnique` | backend/controllers/commentController.js:53-60 | with unique ids, the delete removes exactly the comment found, and the rest keep their order |
| `CommentLists.AppendedFound` | backend/controllers/commentController.js:9 | a comment appended under a fresh id is found at the end of the list |
| `CommentLists.DeletedNotFound` | backend/controllers/commentController.js:60 | after the delete, no comment with the deleted id can be found |
| `CommentLists.IdBound` | backend/controllers/commentController.js:9 | a number above every comment id in the list, the point the id generator must pass |
| `CommentLists.AppendFreshUnique` | backend/controllers/commentController.js:9 | appending a comment whose id is above every existing one keeps the ids unique |
| `CommentController.AddComment` | backend/controllers/commentController.js:4-19 | an unknown video gives NotFound and changes nothing. Otherwise exactly one comment (a generated id no stored comment carries, author = requester, the given text) is appended after the unchanged earlier comments, it is found by its id at the end, unique comment ids stay unique, and the full new list is returned |
| `CommentController.EditComment` | backend/controllers/commentController.js:22-45 | checks in order: video missing → NotFound, comment missing → NotFound, requester not the author → Forbidden. Each rejection leaves the store unchanged. Otherwise only the found comment's text changes, and the full new list is returned |
| `CommentController.DeleteComment` | backend/controllers/commentController.js:48-70 | the same checks in the same order, each rejection changing nothing. Otherwise the comment is pulled from the list (with unique ids: exactly the found one, the rest in order) and the full new list is returned |
| `ChannelController.PushChannel` | backend/controllers/channelController.js:24-26 | `$push` appends the new channel id to the requester's `channels` list. Other users are untouched, and an unknown user changes nothing |
| `ChannelController.NameTaken` | backend/controllers/channelController.js:9-10 | `Channel.findOne({ channelName })` finds a document iff some stored channel has exactly this name |
| `ChannelController.CreateChannel` | backend/controllers/channelController.js:5-32 | BadRequest iff a stored channel has exactly this name, and then nothing changes. Otherwise a new channel (owner = requester, given name, defaults applied, no subscribers or videos) is stored under a fresh id, the id generator advances by one, and that id is pushed to the requester's list. Unique names stay unique |
| `ChannelController.GetChannel` | backend/controllers/channelController.js:35-46 | NotFound iff no channel has the id, otherwise the stored channel |
| `ChannelController.UpdateChannel` | backend/controllers/channelController.js:49-64 | unknown id → NotFound; requester not the owner → Forbidden; in both cases nothing changes. Otherwise the body is assigned over that channel alone and the result is returned |
| `ChannelController.DeleteChannel` | backend/controllers/channelController.js:67-81 | unknown id → NotFound; requester not the owner → Forbidden; in both cases nothing changes. Otherwise only the channel record is removed. Its videos and users' `channels` lists are untouched |
| `VideoController.CreateVideo` | backend/controllers/videoController.js:5-38 | unknown channel → NotFound; requester not the channel owner → Forbidden; in both cases nothing changes. Otherwise `NewVideo` (uploader = requester) is stored under a fresh id, the id generator advances by one, and that id is appended to the end of the channel's `videos` |
| `VideoController.AdvancePast` | backend/controllers/videoController.js:81 | the generator never moves back, stays put for a body without comments, and ends above every comment id the body carries |
| `VideoController.GetVideo` | backend/controllers/videoController.js:59-69 | NotFound iff no video has the id, otherwise the stored video |
| `VideoController.UpdateVideo` | backend/controllers/videoController.js:72-87 | unknown id → NotFound; requester not the uploader → Forbidden; in both cases nothing changes. Otherwise the body is assigned over that video alone, the id generator moves past any comment ids the body brings, and the result is returned |
| `VideoController.DeleteVideo` | backend/controllers/videoController.js:90-104 | unknown id → NotFound; requester not the uploader → Forbidden; in both cases nothing changes. Otherwise only the video record is removed, and the owning channel's `videos` list still holds its id |
| `Db.Store.FreshId` | backend/controllers/videoController.js:18-31 | the generated id differs from every stored video, channel and comment id, and the store stays valid |

## Left out

- Authentication (`authController.js`): it rests on bcrypt hashing and JWT signing. The requester id is a parameter of every handler. Users exist in the model only as the keys of `userChannels`, which are fixed when the store is built.
- Search and category filtering (`searchController.js`): the query goes to the database's regular-expression engine.
- `getVideos`: it lists the whole collection in an unspecified order, with joins for display.
- Routing, server wiring and the React front end.
- Unmounted routers: `server.js` mounts only the auth, channel and video routers (backend/server.js:20-22). The reaction and comment routers are never mounted, so the five reaction and comment handlers cannot be reached in the shipped server. They are modelled as written in their controllers.
- The subscription toggle: the channel routes import `toggleSubscribe`, but the channel controller does not define it. The video routes likewise import `searchVideos` and `getVideosByCategory`, which the video controller does not define.
- `.populate(...)` joins and the re-fetch after saving: the handlers return the stored records directly.
- The `catch` → 500 branches. This includes schema validation failures at `save()`: a missing or empty `title`, `thumbnailUrl`, `videoUrl` or `channelName` fails the save with 500. The model takes these fields as given strings.
- A request body without `text` for a comment. The model takes the text as a string.
- Schema casting inside `Object.assign`: values of the wrong type, unknown paths, and `_id` in the body.
- Timestamps, `uploadDate` and each comment's `timestamp`.
- `views` as a JavaScript number: the model uses an unbounded integer.
- Concurrency: each handler is one atomic step, so the read-modify-write races between concurrent requests are not modelled.
- The partial failure between saving a video and pushing its id onto the channel: both happen in one step.
- CommentController.AddComment: a comment `_id` chosen by a client in an `updateVideo` body can equal an id the generator hands out later; `comments.id` then finds the planted comment first. The model assumes generated ids never repeat a stored id (see `VideoController.AdvancePast`), so it does not capture this collision.
