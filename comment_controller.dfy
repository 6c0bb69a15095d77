/** The comment handlers: add, edit and delete a comment embedded in a video. */
module CommentController {
  import opened Base
  import opened Models
  import opened CommentLists
  import opened Db

  /** `addComment` (the comment router's `POST /:videoId`) by `user`: anyone
      may comment. */
  method AddComment(db: Store, videoId: Id, user: Id, text: string) returns (r: Response<seq<Comment>>)
    requires db.Valid()
    modifies db
    ensures db.Valid()
    ensures db.channels == old(db.channels) && db.userChannels == old(db.userChannels)
    ensures videoId !in old(db.videos) ==>
      r == NotFound && db.videos == old(db.videos) && db.nextId == old(db.nextId)
    ensures videoId in old(db.videos) ==>
      var v := old(db.videos)[videoId];
      var c := Comment(old(db.nextId), user, text);
      && db.videos == old(db.videos)[videoId := v.(comments := v.comments + [c])]
      && r == Ok(db.videos[videoId].comments)
      && db.nextId == old(db.nextId) + 1
    ensures videoId in old(db.videos) ==>
      var cs := old(db.videos)[videoId].comments;
      && FindComment(db.videos[videoId].comments, old(db.nextId)) == Some(|cs|)
      && (UniqueIds(cs) ==> UniqueIds(db.videos[videoId].comments))
  {
    if videoId !in db.videos {
      return NotFound;
    }
    var video := db.videos[videoId];
    var cid := db.FreshId();
    var comment := Comment(cid, user, text);
    assert forall j :: 0 <= j < |video.comments| ==> video.comments[j].id < cid by {
      forall j | 0 <= j < |video.comments| ensures video.comments[j].id < cid {
        assert video.comments[j] in db.videos[videoId].comments;
      }
    }
    AppendedFound(video.comments, comment);
    if UniqueIds(video.comments) {
      AppendFreshUnique(video.comments, comment);
    }
    var comments := video.comments + [comment];
    db.videos := db.videos[videoId := video.(comments := comments)];
    r := Ok(comments);
  }

  /** `editComment` (the comment router's `PUT /:videoId/:commentId`) by
      `user`: checks, in order, that the video exists, that the comment exists
      and that `user` wrote it. */
  method EditComment(db: Store, videoId: Id, commentId: Id, user: Id, text: string)
    returns (r: Response<seq<Comment>>)
    requires db.Valid()
    modifies db
    ensures db.Valid()
    ensures db.channels == old(db.channels) && db.userChannels == old(db.userChannels)
    ensures db.nextId == old(db.nextId)
    ensures !r.BadRequest?
    ensures !r.Ok? ==> db.videos == old(db.videos)
    ensures videoId !in old(db.videos) ==> r == NotFound
    ensures videoId in old(db.videos) ==>
      var v := old(db.videos)[videoId];
      match FindComment(v.comments, commentId)
      case None => r == NotFound
      case Some(i) =>
        if v.comments[i].userId != user then r == Forbidden
        else
          && db.videos == old(db.videos)[videoId := v.(comments := EditText(v.comments, i, text))]
          && r == Ok(db.videos[videoId].comments)
  {
    if videoId !in db.videos {
      return NotFound;
    }
    var video := db.videos[videoId];
    var found := FindComment(video.comments, commentId);
    if found.None? {
      return NotFound;
    }
    var i := found.value;
    if video.comments[i].userId != user {
      return Forbidden;
    }
    var comments := video.comments[i := video.comments[i].(text := text)];
    db.videos := db.videos[videoId := video.(comments := comments)];
    r := Ok(comments);
  }

  /** `deleteComment` (the comment router's `DELETE /:videoId/:commentId`) by
      `user`: the same checks as an edit, then the comment is pulled from the
      list. */
  method DeleteComment(db: Store, videoId: Id, commentId: Id, user: Id)
    returns (r: Response<seq<Comment>>)
    requires db.Valid()
    modifies db
    ensures db.Valid()
    ensures db.channels == old(db.channels) && db.userChannels == old(db.userChannels)
    ensures db.nextId == old(db.nextId)
    ensures !r.BadRequest?
    ensures !r.Ok? ==> db.videos == old(db.videos)
    ensures videoId !in old(db.videos) ==> r == NotFound
    ensures videoId in old(db.videos) ==>
      var v := old(db.videos)[videoId];
      match FindComment(v.comments, commentId)
      case None => r == NotFound
      case Some(i) =>
        if v.comments[i].userId != user then r == Forbidden
        else
          && db.videos == old(db.videos)[videoId := v.(comments := WithoutComment(v.comments, commentId))]
          && r == Ok(db.videos[videoId].comments)
          && (UniqueIds(v.comments) ==> r.payload == v.comments[..i] + v.comments[i + 1..])
  {
    if videoId !in db.videos {
      return NotFound;
    }
    var video := db.videos[videoId];
    var found := FindComment(video.comments, commentId);
    if found.None? {
      return NotFound;
    }
    if video.comments[found.value].userId != user {
      return Forbidden;
    }
    if UniqueIds(video.comments) {
      WithoutUnique(video.comments, found.value);
    }
    var comments := WithoutComment(video.comments, commentId);
    forall c | c in comments ensures c in video.comments {
      WithoutCommentKeeps(video.comments, commentId, c);
    }
    db.videos := db.videos[videoId := video.(comments := comments)];
    r := Ok(comments);
  }
}
