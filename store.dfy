/** The in-memory stand-in for the database: the video and channel
    collections, each user's `channels` list, and the id generator. */
module Db {
  import opened Base
  import opened Models

  class Store {
    var videos: map<Id, Video>
    var channels: map<Id, Channel>
    /** The `channels` list of every registered user. */
    var userChannels: map<Id, seq<Id>>
    /** The next id the generator hands out. */
    var nextId: nat

    /** Every stored document's id, embedded comments included, is below the
        generator's next id: the generator never repeats an id it has seen. */
    ghost predicate Valid()
      reads this
    {
      && (forall id :: id in videos ==> id < nextId)
      && (forall id :: id in channels ==> id < nextId)
      && (forall id, c :: id in videos && c in videos[id].comments ==> c.id < nextId)
    }

    /** An empty database whose registered users own no channels yet. */
    constructor (users: set<Id>)
      ensures Valid()
      ensures videos == map[] && channels == map[]
      ensures userChannels == map u | u in users :: []
    {
      videos := map[];
      channels := map[];
      userChannels := map u | u in users :: [];
      nextId := 0;
    }

    /** A new document id, distinct from every stored video, channel and
        comment id. */
    method FreshId() returns (id: Id)
      requires Valid()
      modifies this`nextId
      ensures Valid()
      ensures id == old(nextId) && nextId == id + 1
      ensures id !in videos && id !in channels
      ensures forall v, c :: v in videos && c in videos[v].comments ==> c.id != id
    {
      id := nextId;
      nextId := nextId + 1;
    }
  }
}
