/** The channel handlers: create, read, update and delete. */
module ChannelController {
  import opened Base
  import opened Models
  import opened Db

  const ChannelDeleted: string := "Channel deleted successfully"

  /** `Channel.findOne({ channelName })` finds a document: some stored channel
      has exactly this name. */
  predicate NameTaken(channels: map<Id, Channel>, name: string)
    ensures NameTaken(channels, name) <==> exists c :: c in channels.Values && c.channelName == name
  {
    exists id :: id in channels && channels[id].channelName == name
  }

  /** No two stored channels share a name. */
  predicate NamesUnique(channels: map<Id, Channel>) {
    forall a, b :: a in channels && b in channels && a != b ==>
      channels[a].channelName != channels[b].channelName
  }

  /** `$push: { channels: id }` on the user's document; a user that does not
      exist is left as it is (the update matches nothing). */
  function PushChannel(users: map<Id, seq<Id>>, user: Id, id: Id): (r: map<Id, seq<Id>>)
    ensures r.Keys == users.Keys
    ensures user in users ==> r[user] == users[user] + [id]
    ensures forall u :: u in users && u != user ==> r[u] == users[u]
  {
    if user in users then users[user := users[user] + [id]] else users
  }

  /** `POST /api/channels` by `user`. */
  method CreateChannel(db: Store, user: Id, channelName: string,
                       description: Option<string>, channelBanner: Option<string>)
    returns (r: Response<Created<Channel>>)
    requires db.Valid()
    modifies db
    ensures db.Valid()
    ensures db.videos == old(db.videos)
    ensures r.Ok? || r.BadRequest?
    ensures r.BadRequest? <==> NameTaken(old(db.channels), channelName)
    ensures r.BadRequest? ==>
      && db.channels == old(db.channels) && db.userChannels == old(db.userChannels)
      && db.nextId == old(db.nextId)
    ensures r.Ok? ==>
      && r.payload.id == old(db.nextId) && r.payload.id !in old(db.channels)
      && db.nextId == old(db.nextId) + 1
      && r.payload.doc == NewChannel(channelName, user, description, channelBanner)
      && db.channels == old(db.channels)[r.payload.id := r.payload.doc]
      && db.userChannels == PushChannel(old(db.userChannels), user, r.payload.id)
    ensures NamesUnique(old(db.channels)) ==> NamesUnique(db.channels)
  {
    if NameTaken(db.channels, channelName) {
      return BadRequest;
    }
    var channel := NewChannel(channelName, user, description, channelBanner);
    var id := db.FreshId();
    db.channels := db.channels[id := channel];
    db.userChannels := PushChannel(db.userChannels, user, id);
    r := Ok(Created(id, channel));
  }

  /** `GET /api/channels/:id`. */
  method GetChannel(db: Store, id: Id) returns (r: Response<Channel>)
    ensures r.Ok? || r.NotFound?
    ensures r.NotFound? <==> id !in db.channels
    ensures r.Ok? ==> r.payload == db.channels[id]
  {
    if id !in db.channels {
      return NotFound;
    }
    r := Ok(db.channels[id]);
  }

  /** `PUT /api/channels/:id` by `user`: only the owner may update, and the body
      is assigned over the stored channel. */
  method UpdateChannel(db: Store, id: Id, user: Id, body: ChannelPatch) returns (r: Response<Channel>)
    requires db.Valid()
    modifies db
    ensures db.Valid()
    ensures db.videos == old(db.videos) && db.userChannels == old(db.userChannels)
    ensures db.nextId == old(db.nextId)
    ensures !r.BadRequest?
    ensures r.NotFound? <==> id !in old(db.channels)
    ensures r.Forbidden? <==> id in old(db.channels) && old(db.channels)[id].owner != user
    ensures !r.Ok? ==> db.channels == old(db.channels)
    ensures r.Ok? ==>
      && db.channels == old(db.channels)[id := AssignChannel(old(db.channels)[id], body)]
      && r.payload == db.channels[id]
  {
    if id !in db.channels {
      return NotFound;
    }
    var channel := db.channels[id];
    if channel.owner != user {
      return Forbidden;
    }
    channel := AssignChannel(channel, body);
    db.channels := db.channels[id := channel];
    r := Ok(channel);
  }

  /** `DELETE /api/channels/:id` by `user`: only the owner may delete; the
      channel's videos and its place in users' `channels` lists are kept. */
  method DeleteChannel(db: Store, id: Id, user: Id) returns (r: Response<string>)
    requires db.Valid()
    modifies db
    ensures db.Valid()
    ensures db.videos == old(db.videos) && db.userChannels == old(db.userChannels)
    ensures db.nextId == old(db.nextId)
    ensures !r.BadRequest?
    ensures r.NotFound? <==> id !in old(db.channels)
    ensures r.Forbidden? <==> id in old(db.channels) && old(db.channels)[id].owner != user
    ensures !r.Ok? ==> db.channels == old(db.channels)
    ensures r.Ok? ==> r.payload == ChannelDeleted && db.channels == old(db.channels) - {id}
  {
    if id !in db.channels {
      return NotFound;
    }
    if db.channels[id].owner != user {
      return Forbidden;
    }
    db.channels := db.channels - {id};
    r := Ok(ChannelDeleted);
  }
}
