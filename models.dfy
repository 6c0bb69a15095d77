/** The stored documents (the Video and Channel schemas) and the effect of
    `Object.assign(doc, body)` on them. */
module Models {
  import opened Base

  /** A comment embedded in a video: its own id, its author and its text. */
  datatype Comment = Comment(id: Id, userId: Id, text: string)

  /** A video document. `likes` and `dislikes` may be absent from a stored
      document; the reaction handlers read an absent list as empty. */
  datatype Video = Video(
    title: string,
    thumbnailUrl: string,
    videoUrl: string,
    description: string,
    channelId: Id,
    uploader: Id,
    views: int,
    likes: Option<seq<Id>>,
    dislikes: Option<seq<Id>>,
    category: string,
    comments: seq<Comment>)

  /** A channel document. */
  datatype Channel = Channel(
    channelName: string,
    owner: Id,
    description: string,
    channelBanner: string,
    subscribers: seq<Id>,
    videos: seq<Id>)

  const DefaultDescription: string := ""
  const DefaultCategory: string := "General"
  const DefaultBanner: string := ""

  /** A fresh video as the schema builds it: given fields, schema defaults for
      the omitted optional ones, no views, no reactions, no comments. */
  function NewVideo(title: string, thumbnailUrl: string, videoUrl: string,
                    description: Option<string>, channelId: Id, category: Option<string>,
                    uploader: Id): (v: Video)
    ensures v.title == title && v.thumbnailUrl == thumbnailUrl && v.videoUrl == videoUrl
    ensures v.views == 0 && v.likes == Some([]) && v.dislikes == Some([]) && v.comments == []
    ensures description.None? ==> v.description == ""
    ensures description.Some? ==> v.description == description.value
    ensures category.None? ==> v.category == "General"
    ensures category.Some? ==> v.category == category.value
    ensures v.channelId == channelId && v.uploader == uploader
  {
    Video(title, thumbnailUrl, videoUrl, description.GetOr(DefaultDescription),
          channelId, uploader, 0, Some([]), Some([]), category.GetOr(DefaultCategory), [])
  }

  /** A fresh channel as the schema builds it: no subscribers, no videos. */
  function NewChannel(channelName: string, owner: Id, description: Option<string>,
                      channelBanner: Option<string>): (c: Channel)
    ensures c.owner == owner && c.channelName == channelName
    ensures c.subscribers == [] && c.videos == []
    ensures description.None? ==> c.description == ""
    ensures description.Some? ==> c.description == description.value
    ensures channelBanner.None? ==> c.channelBanner == ""
    ensures channelBanner.Some? ==> c.channelBanner == channelBanner.value
  {
    Channel(channelName, owner, description.GetOr(DefaultDescription),
            channelBanner.GetOr(DefaultBanner), [], [])
  }

  /** A request body for a video update: `Some` for each schema path the body
      carries. Every path may be carried, `uploader` and `channelId` included. */
  datatype VideoPatch = VideoPatch(
    title: Option<string>,
    thumbnailUrl: Option<string>,
    videoUrl: Option<string>,
    description: Option<string>,
    channelId: Option<Id>,
    uploader: Option<Id>,
    views: Option<int>,
    likes: Option<seq<Id>>,
    dislikes: Option<seq<Id>>,
    category: Option<string>,
    comments: Option<seq<Comment>>)

  /** A request body for a channel update, one `Some` per path it carries. */
  datatype ChannelPatch = ChannelPatch(
    channelName: Option<string>,
    owner: Option<Id>,
    description: Option<string>,
    channelBanner: Option<string>,
    subscribers: Option<seq<Id>>,
    videos: Option<seq<Id>>)

  const EmptyVideoPatch := VideoPatch(None, None, None, None, None, None, None, None, None, None, None)
  const EmptyChannelPatch := ChannelPatch(None, None, None, None, None, None)

  /** `Object.assign(video, body)`: each path the body carries is overwritten. */
  function AssignVideo(v: Video, p: VideoPatch): (r: Video)
    ensures p.title.Some? ==> r.title == p.title.value
    ensures p.title.None? ==> r.title == v.title
    ensures p.thumbnailUrl.Some? ==> r.thumbnailUrl == p.thumbnailUrl.value
    ensures p.thumbnailUrl.None? ==> r.thumbnailUrl == v.thumbnailUrl
    ensures p.videoUrl.Some? ==> r.videoUrl == p.videoUrl.value
    ensures p.videoUrl.None? ==> r.videoUrl == v.videoUrl
    ensures p.description.Some? ==> r.description == p.description.value
    ensures p.description.None? ==> r.description == v.description
    ensures p.channelId.Some? ==> r.channelId == p.channelId.value
    ensures p.channelId.None? ==> r.channelId == v.channelId
    ensures p.uploader.Some? ==> r.uploader == p.uploader.value
    ensures p.uploader.None? ==> r.uploader == v.uploader
    ensures p.views.Some? ==> r.views == p.views.value
    ensures p.views.None? ==> r.views == v.views
    ensures p.likes.Some? ==> r.likes == p.likes
    ensures p.likes.None? ==> r.likes == v.likes
    ensures p.dislikes.Some? ==> r.dislikes == p.dislikes
    ensures p.dislikes.None? ==> r.dislikes == v.dislikes
    ensures p.category.Some? ==> r.category == p.category.value
    ensures p.category.None? ==> r.category == v.category
    ensures p.comments.Some? ==> r.comments == p.comments.value
    ensures p.comments.None? ==> r.comments == v.comments
  {
    Video(
      p.title.GetOr(v.title),
      p.thumbnailUrl.GetOr(v.thumbnailUrl),
      p.videoUrl.GetOr(v.videoUrl),
      p.description.GetOr(v.description),
      p.channelId.GetOr(v.channelId),
      p.uploader.GetOr(v.uploader),
      p.views.GetOr(v.views),
      if p.likes.Some? then p.likes else v.likes,
      if p.dislikes.Some? then p.dislikes else v.dislikes,
      p.category.GetOr(v.category),
      p.comments.GetOr(v.comments))
  }

  /** `Object.assign(channel, body)`. */
  function AssignChannel(c: Channel, p: ChannelPatch): (r: Channel)
    ensures p.channelName.Some? ==> r.channelName == p.channelName.value
    ensures p.channelName.None? ==> r.channelName == c.channelName
    ensures p.owner.Some? ==> r.owner == p.owner.value
    ensures p.owner.None? ==> r.owner == c.owner
    ensures p.description.Some? ==> r.description == p.description.value
    ensures p.description.None? ==> r.description == c.description
    ensures p.channelBanner.Some? ==> r.channelBanner == p.channelBanner.value
    ensures p.channelBanner.None? ==> r.channelBanner == c.channelBanner
    ensures p.subscribers.Some? ==> r.subscribers == p.subscribers.value
    ensures p.subscribers.None? ==> r.subscribers == c.subscribers
    ensures p.videos.Some? ==> r.videos == p.videos.value
    ensures p.videos.None? ==> r.videos == c.videos
  {
    Channel(
      p.channelName.GetOr(c.channelName),
      p.owner.GetOr(c.owner),
      p.description.GetOr(c.description),
      p.channelBanner.GetOr(c.channelBanner),
      p.subscribers.GetOr(c.subscribers),
      p.videos.GetOr(c.videos))
  }

  /** Two bodies assigned in turn: a path carried by the later one wins. */
  function LaterWins<T>(first: Option<T>, second: Option<T>): (r: Option<T>)
    ensures second.Some? ==> r == second
    ensures second.None? ==> r == first
  {
    if second.Some? then second else first
  }

  /** One body equivalent to assigning `p` and then `q`. */
  function MergeVideoPatches(p: VideoPatch, q: VideoPatch): (r: VideoPatch) {
    VideoPatch(
      LaterWins(p.title, q.title), LaterWins(p.thumbnailUrl, q.thumbnailUrl),
      LaterWins(p.videoUrl, q.videoUrl), LaterWins(p.description, q.description),
      LaterWins(p.channelId, q.channelId), LaterWins(p.uploader, q.uploader),
      LaterWins(p.views, q.views), LaterWins(p.likes, q.likes),
      LaterWins(p.dislikes, q.dislikes), LaterWins(p.category, q.category),
      LaterWins(p.comments, q.comments))
  }

  /** One body equivalent to assigning `p` and then `q`. */
  function MergeChannelPatches(p: ChannelPatch, q: ChannelPatch): (r: ChannelPatch) {
    ChannelPatch(
      LaterWins(p.channelName, q.channelName), LaterWins(p.owner, q.owner),
      LaterWins(p.description, q.description), LaterWins(p.channelBanner, q.channelBanner),
      LaterWins(p.subscribers, q.subscribers), LaterWins(p.videos, q.videos))
  }

  /** An empty body changes nothing; assigning the same body twice is the same
      as assigning it once; assigning two bodies in turn is assigning their
      merge. */
  lemma AssignVideoLaws(v: Video, p: VideoPatch, q: VideoPatch)
    ensures AssignVideo(v, EmptyVideoPatch) == v
    ensures AssignVideo(AssignVideo(v, p), p) == AssignVideo(v, p)
    ensures AssignVideo(AssignVideo(v, p), q) == AssignVideo(v, MergeVideoPatches(p, q))
  {
  }

  lemma AssignChannelLaws(c: Channel, p: ChannelPatch, q: ChannelPatch)
    ensures AssignChannel(c, EmptyChannelPatch) == c
    ensures AssignChannel(AssignChannel(c, p), p) == AssignChannel(c, p)
    ensures AssignChannel(AssignChannel(c, p), q) == AssignChannel(c, MergeChannelPatches(p, q))
  {
  }

  /** A path the body does not carry keeps its value; one it carries takes the
      body's value. Stated for the ownership paths, which the handler does not
      protect. */
  lemma AssignVideoOwnership(v: Video, p: VideoPatch)
    ensures AssignVideo(v, p).uploader == v.uploader <==> p.uploader.None? || p.uploader.value == v.uploader
    ensures AssignVideo(v, p).channelId == v.channelId <==> p.channelId.None? || p.channelId.value == v.channelId
  {
  }

  lemma AssignChannelOwnership(c: Channel, p: ChannelPatch)
    ensures AssignChannel(c, p).owner == c.owner <==> p.owner.None? || p.owner.value == c.owner
  {
  }
}
