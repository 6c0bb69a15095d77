/** The like/dislike toggle on a video's two reaction lists, as values. */
module Reactions {
  import opened Base
  import opened Lists

  /** A video's likers and dislikers, in stored order. */
  datatype Tally = Tally(likes: seq<Id>, dislikes: seq<Id>)

  /** `list || []`: a missing list reads as the empty list. */
  function Listed(o: Option<seq<Id>>): (s: seq<Id>)
    ensures o.None? ==> s == []
    ensures o.Some? ==> s == o.value
  {
    o.GetOr([])
  }

  /** User `u` likes: `u` leaves the dislikers, and flips in the likers
      (every occurrence removed if present, appended at the end otherwise). */
  function Like(t: Tally, u: Id): (r: Tally)
    ensures u !in r.dislikes
    ensures u in r.likes <==> u !in t.likes
    ensures u !in t.likes ==> r.likes == t.likes + [u]
    ensures |r.dislikes| <= |t.dislikes|
  {
    var dislikes := RemoveAll(t.dislikes, u);
    if u in t.likes then Tally(RemoveAll(t.likes, u), dislikes)
    else Tally(t.likes + [u], dislikes)
  }

  /** User `u` dislikes: the mirror image of `Like`. */
  function Dislike(t: Tally, u: Id): (r: Tally)
    ensures u !in r.likes
    ensures u in r.dislikes <==> u !in t.dislikes
    ensures u !in t.dislikes ==> r.dislikes == t.dislikes + [u]
    ensures |r.likes| <= |t.likes|
  {
    var likes := RemoveAll(t.likes, u);
    if u in t.dislikes then Tally(likes, RemoveAll(t.dislikes, u))
    else Tally(likes, t.dislikes + [u])
  }

  /** Swaps the roles of the two lists. */
  function Mirror(t: Tally): (m: Tally)
    ensures m.likes == t.dislikes && m.dislikes == t.likes
  {
    Tally(t.dislikes, t.likes)
  }

  /** No user is both a liker and a disliker. */
  predicate Exclusive(t: Tally) {
    forall v :: v in t.likes ==> v !in t.dislikes
  }

  /** Neither list holds a user twice. */
  predicate DuplicateFree(t: Tally) {
    NoDup(t.likes) && NoDup(t.dislikes)
  }

  /** Disliking is liking with the two lists swapped. */
  lemma DislikeMirrorsLike(t: Tally, u: Id)
    ensures Dislike(t, u) == Mirror(Like(Mirror(t), u))
  {
  }

  /** The reacting user ends up in at most one list. */
  lemma ReactionsExclusiveForUser(t: Tally, u: Id)
    ensures !(u in Like(t, u).likes && u in Like(t, u).dislikes)
    ensures !(u in Dislike(t, u).likes && u in Dislike(t, u).dislikes)
  {
  }

  /** If `u` liked, a like removes every occurrence of `u` from the likers. */
  lemma {:induction false} LikeWithdraws(t: Tally, u: Id)
    requires u in t.likes
    ensures multiset(Like(t, u).likes)[u] == 0
    ensures |Like(t, u).likes| == |t.likes| - multiset(t.likes)[u]
  {
    RemoveAllLength(t.likes, u);
  }

  /** If `u` disliked, a dislike removes every occurrence of `u` from the
      dislikers. */
  lemma DislikeWithdraws(t: Tally, u: Id)
    requires u in t.dislikes
    ensures multiset(Dislike(t, u).dislikes)[u] == 0
    ensures |Dislike(t, u).dislikes| == |t.dislikes| - multiset(t.dislikes)[u]
  {
    DislikeMirrorsLike(t, u);
    LikeWithdraws(Mirror(t), u);
  }

  /** Every other user keeps the number of times it occurs in each list. */
  lemma LikeKeepsOthers(t: Tally, u: Id, v: Id)
    requires v != u
    ensures multiset(Like(t, u).likes)[v] == multiset(t.likes)[v]
    ensures multiset(Like(t, u).dislikes)[v] == multiset(t.dislikes)[v]
  {
    RemoveAllCount(t.dislikes, u, v);
    RemoveAllCount(t.likes, u, v);
  }

  /** Every two other users keep their relative order in each list. */
  lemma LikeKeepsOrder(t: Tally, u: Id, a: Id, b: Id)
    requires a != u && b != u
    ensures Precedes(Like(t, u).likes, a, b) <==> Precedes(t.likes, a, b)
    ensures Precedes(Like(t, u).dislikes, a, b) <==> Precedes(t.dislikes, a, b)
  {
    RemoveAllKeepsOrder(t.dislikes, u, a, b);
    if u in t.likes {
      RemoveAllKeepsOrder(t.likes, u, a, b);
    } else {
      AppendKeepsOrder(t.likes, u, a, b);
    }
  }

  /** A like never introduces a duplicate. */
  lemma LikeKeepsDuplicateFree(t: Tally, u: Id)
    requires DuplicateFree(t)
    ensures DuplicateFree(Like(t, u))
  {
    RemoveAllNoDup(t.dislikes, u);
    if u in t.likes {
      RemoveAllNoDup(t.likes, u);
    } else {
      AppendFreshNoDup(t.likes, u);
    }
  }

  /** A like keeps the lists mutually exclusive. */
  lemma LikeKeepsExclusive(t: Tally, u: Id)
    requires Exclusive(t)
    ensures Exclusive(Like(t, u))
  {
  }

  /** Two likes in a row restore `u`'s presence among the likers and leave
      `u` out of the dislikers; if `u` was not a liker, the likers list is
      restored exactly. */
  lemma LikeTwice(t: Tally, u: Id)
    ensures u in Like(Like(t, u), u).likes <==> u in t.likes
    ensures u !in Like(Like(t, u), u).dislikes
    ensures u !in t.likes ==> Like(Like(t, u), u).likes == t.likes
  {
    if u !in t.likes {
      RemoveAllAppended(t.likes, u);
      RemoveAllAbsent(t.likes, u);
    }
  }

  lemma DislikeKeepsOthers(t: Tally, u: Id, v: Id)
    requires v != u
    ensures multiset(Dislike(t, u).likes)[v] == multiset(t.likes)[v]
    ensures multiset(Dislike(t, u).dislikes)[v] == multiset(t.dislikes)[v]
  {
    DislikeMirrorsLike(t, u);
    LikeKeepsOthers(Mirror(t), u, v);
  }

  lemma DislikeKeepsOrder(t: Tally, u: Id, a: Id, b: Id)
    requires a != u && b != u
    ensures Precedes(Dislike(t, u).likes, a, b) <==> Precedes(t.likes, a, b)
    ensures Precedes(Dislike(t, u).dislikes, a, b) <==> Precedes(t.dislikes, a, b)
  {
    DislikeMirrorsLike(t, u);
    LikeKeepsOrder(Mirror(t), u, a, b);
  }

  lemma DislikeKeepsDuplicateFree(t: Tally, u: Id)
    requires DuplicateFree(t)
    ensures DuplicateFree(Dislike(t, u))
  {
    DislikeMirrorsLike(t, u);
    LikeKeepsDuplicateFree(Mirror(t), u);
  }

  lemma DislikeKeepsExclusive(t: Tally, u: Id)
    requires Exclusive(t)
    ensures Exclusive(Dislike(t, u))
  {
  }

  lemma DislikeTwice(t: Tally, u: Id)
    ensures u in Dislike(Dislike(t, u), u).dislikes <==> u in t.dislikes
    ensures u !in Dislike(Dislike(t, u), u).likes
    ensures u !in t.dislikes ==> Dislike(Dislike(t, u), u).dislikes == t.dislikes
  {
    DislikeMirrorsLike(t, u);
    DislikeMirrorsLike(Dislike(t, u), u);
    LikeTwice(Mirror(t), u);
  }

  /** A like followed by a dislike from the same user leaves that user a
      disliker only (the like is withdrawn, whatever came before). */
  lemma LikeThenDislike(t: Tally, u: Id)
    ensures u !in Dislike(Like(t, u), u).likes
    ensures u in Dislike(Like(t, u), u).dislikes
  {
  }
}
