/** A client walk-through checked against the handler contracts: user A
    creates channel "Tech" and uploads "Intro"; user B likes it, then dislikes
    it, comments, and may not delete it; A may not edit B's comment; a second
    "Tech" channel is refused. */
module Scenario {
  import opened Base
  import opened Models
  import opened Db
  import ChannelController
  import VideoController
  import ReactionController
  import CommentController

  method TechIntro() {
    var alice, bob := 100, 200;
    var db := new Store({alice, bob});

    var tech := ChannelController.CreateChannel(db, alice, "Tech", None, None);
    assert tech.Ok?;
    var techId := tech.payload.id;
    assert db.userChannels[alice] == [techId] && db.userChannels[bob] == [];

    var intro := VideoController.CreateVideo(db, alice, "Intro", "thumb", "url", None, techId, None);
    assert intro.Ok?;
    var introId := intro.payload.id;
    assert db.videos[introId].channelId == techId && db.videos[introId].category == "General";
    assert db.channels[techId].videos == [introId];

    var liked := ReactionController.LikeVideo(db, introId, bob);
    assert liked == Ok(ReactionController.Counts(1, 0));
    var disliked := ReactionController.DislikeVideo(db, introId, bob);
    assert disliked == Ok(ReactionController.Counts(0, 1));

    var comments := CommentController.AddComment(db, introId, bob, "nice");
    assert comments.Ok? && |comments.payload| == 1;
    var cid := comments.payload[0].id;
    var edit := CommentController.EditComment(db, introId, cid, alice, "mine now");
    assert edit == Forbidden;

    var removed := VideoController.DeleteVideo(db, introId, bob);
    assert removed == Forbidden;

    var again := ChannelController.CreateChannel(db, bob, "Tech", None, None);
    assert again == BadRequest;
  }
}
