/** The like and dislike handlers. */
module ReactionController {
  import opened Base
  import opened Models
  import opened Reactions
  import opened Lists
  import opened Db

  /** The response body `{ likes, dislikes }`: the two list lengths. */
  datatype Counts = Counts(likes: nat, dislikes: nat)

  /** A video's reaction lists, an absent list read as empty. */
  function TallyOf(v: Video): (t: Tally)
    ensures v.likes.None? ==> t.likes == []
    ensures v.likes.Some? ==> t.likes == v.likes.value
    ensures v.dislikes.None? ==> t.dislikes == []
    ensures v.dislikes.Some? ==> t.dislikes == v.dislikes.value
  {
    Tally(Listed(v.likes), Listed(v.dislikes))
  }

  /** The video with both reaction lists stored as given. */
  function WithTally(v: Video, t: Tally): (r: Video)
    ensures r.likes == Some(t.likes) && r.dislikes == Some(t.dislikes)
    ensures r.(likes := v.likes, dislikes := v.dislikes) == v
    ensures TallyOf(r) == t
  {
    v.(likes := Some(t.likes), dislikes := Some(t.dislikes))
  }

  /** `likeVideo` by `user` (the reaction router's `POST /:id/like`). */
  method LikeVideo(db: Store, videoId: Id, user: Id) returns (r: Response<Counts>)
    requires db.Valid()
    modifies db
    ensures db.Valid()
    ensures db.channels == old(db.channels) && db.userChannels == old(db.userChannels)
    ensures db.nextId == old(db.nextId)
    ensures videoId !in old(db.videos) ==> r == NotFound && db.videos == old(db.videos)
    ensures videoId in old(db.videos) ==>
      var t := Like(TallyOf(old(db.videos)[videoId]), user);
      && db.videos == old(db.videos)[videoId := WithTally(old(db.videos)[videoId], t)]
      && r == Ok(Counts(|t.likes|, |t.dislikes|))
  {
    if videoId !in db.videos {
      return NotFound;
    }
    var video := db.videos[videoId];
    var likes := Listed(video.likes);
    var dislikes := Listed(video.dislikes);
    dislikes := RemoveAll(dislikes, user);
    if user in likes {
      likes := RemoveAll(likes, user);
    } else {
      likes := likes + [user];
    }
    db.videos := db.videos[videoId := video.(likes := Some(likes), dislikes := Some(dislikes))];
    r := Ok(Counts(|likes|, |dislikes|));
  }

  /** `dislikeVideo` by `user` (the reaction router's `POST /:id/dislike`). */
  method DislikeVideo(db: Store, videoId: Id, user: Id) returns (r: Response<Counts>)
    requires db.Valid()
    modifies db
    ensures db.Valid()
    ensures db.channels == old(db.channels) && db.userChannels == old(db.userChannels)
    ensures db.nextId == old(db.nextId)
    ensures videoId !in old(db.videos) ==> r == NotFound && db.videos == old(db.videos)
    ensures videoId in old(db.videos) ==>
      var t := Dislike(TallyOf(old(db.videos)[videoId]), user);
      && db.videos == old(db.videos)[videoId := WithTally(old(db.videos)[videoId], t)]
      && r == Ok(Counts(|t.likes|, |t.dislikes|))
  {
    if videoId !in db.videos {
      return NotFound;
    }
    var video := db.videos[videoId];
    var likes := Listed(video.likes);
    var dislikes := Listed(video.dislikes);
    likes := RemoveAll(likes, user);
    if user in dislikes {
      dislikes := RemoveAll(dislikes, user);
    } else {
      dislikes := dislikes + [user];
    }
    db.videos := db.videos[videoId := video.(likes := Some(likes), dislikes := Some(dislikes))];
    r := Ok(Counts(|likes|, |dislikes|));
  }
}
