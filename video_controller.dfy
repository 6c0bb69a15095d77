/** The video handlers: create, read, update and delete. */
module VideoController {
  import opened Base
  import opened Models
  import opened CommentLists
  import opened Db

  const VideoDeleted: string := "Video deleted successfully"

  /** The generator after a body has been assigned: ids the body brings in
      (those of the comments it carries) are never handed out later. */
  function AdvancePast(n: nat, body: VideoPatch): (m: nat)
    ensures m >= n
    ensures body.comments.None? ==> m == n
    ensures body.comments.Some? ==>
      forall j :: 0 <= j < |body.comments.value| ==> body.comments.value[j].id < m
  {
    if body.comments.None? then n
    else
      var bound := IdBound(body.comments.value);
      if bound > n then bound else n
  }

  /** `POST /api/videos` by `user`: only the owner of the target channel may
      upload; the new video's id is appended to that channel's `videos`. */
  method CreateVideo(db: Store, user: Id, title: string, thumbnailUrl: string, videoUrl: string,
                     description: Option<string>, channelId: Id, category: Option<string>)
    returns (r: Response<Created<Video>>)
    requires db.Valid()
    modifies db
    ensures db.Valid()
    ensures db.userChannels == old(db.userChannels)
    ensures !r.BadRequest?
    ensures r.NotFound? <==> channelId !in old(db.channels)
    ensures r.Forbidden? <==> channelId in old(db.channels) && old(db.channels)[channelId].owner != user
    ensures !r.Ok? ==>
      && db.videos == old(db.videos) && db.channels == old(db.channels)
      && db.nextId == old(db.nextId)
    ensures r.Ok? ==>
      var ch := old(db.channels)[channelId];
      && r.payload.id == old(db.nextId) && r.payload.id !in old(db.videos)
      && db.nextId == old(db.nextId) + 1
      && r.payload.doc == NewVideo(title, thumbnailUrl, videoUrl, description, channelId, category, user)
      && db.videos == old(db.videos)[r.payload.id := r.payload.doc]
      && db.channels == old(db.channels)[channelId := ch.(videos := ch.videos + [r.payload.id])]
  {
    if channelId !in db.channels {
      return NotFound;
    }
    var channel := db.channels[channelId];
    if channel.owner != user {
      return Forbidden;
    }
    var video := NewVideo(title, thumbnailUrl, videoUrl, description, channelId, category, user);
    var id := db.FreshId();
    db.videos := db.videos[id := video];
    db.channels := db.channels[channelId := channel.(videos := channel.videos + [id])];
    r := Ok(Created(id, video));
  }

  /** `GET /api/videos/:id`. */
  method GetVideo(db: Store, id: Id) returns (r: Response<Video>)
    ensures r.Ok? || r.NotFound?
    ensures r.NotFound? <==> id !in db.videos
    ensures r.Ok? ==> r.payload == db.videos[id]
  {
    if id !in db.videos {
      return NotFound;
    }
    r := Ok(db.videos[id]);
  }

  /** `PUT /api/videos/:id` by `user`: only the uploader may update, and the body
      is assigned over the stored video. */
  method UpdateVideo(db: Store, id: Id, user: Id, body: VideoPatch) returns (r: Response<Video>)
    requires db.Valid()
    modifies db
    ensures db.Valid()
    ensures db.channels == old(db.channels) && db.userChannels == old(db.userChannels)
    ensures !r.Ok? ==> db.nextId == old(db.nextId)
    ensures r.Ok? ==> db.nextId == AdvancePast(old(db.nextId), body)
    ensures !r.BadRequest?
    ensures r.NotFound? <==> id !in old(db.videos)
    ensures r.Forbidden? <==> id in old(db.videos) && old(db.videos)[id].uploader != user
    ensures !r.Ok? ==> db.videos == old(db.videos)
    ensures r.Ok? ==>
      && db.videos == old(db.videos)[id := AssignVideo(old(db.videos)[id], body)]
      && r.payload == db.videos[id]
  {
    if id !in db.videos {
      return NotFound;
    }
    var video := db.videos[id];
    if video.uploader != user {
      return Forbidden;
    }
    video := AssignVideo(video, body);
    db.nextId := AdvancePast(db.nextId, body);
    db.videos := db.videos[id := video];
    r := Ok(video);
  }

  /** `DELETE /api/videos/:id` by `user`: only the uploader may delete; the owning
      channel's `videos` list keeps the id. */
  method DeleteVideo(db: Store, id: Id, user: Id) returns (r: Response<string>)
    requires db.Valid()
    modifies db
    ensures db.Valid()
    ensures db.channels == old(db.channels) && db.userChannels == old(db.userChannels)
    ensures db.nextId == old(db.nextId)
    ensures !r.BadRequest?
    ensures r.NotFound? <==> id !in old(db.videos)
    ensures r.Forbidden? <==> id in old(db.videos) && old(db.videos)[id].uploader != user
    ensures !r.Ok? ==> db.videos == old(db.videos)
    ensures r.Ok? ==> r.payload == VideoDeleted && db.videos == old(db.videos) - {id}
  {
    if id !in db.videos {
      return NotFound;
    }
    if db.videos[id].uploader != user {
      return Forbidden;
    }
    db.videos := db.videos - {id};
    r := Ok(VideoDeleted);
  }
}
