/** A video's embedded comment list: finding a comment by id, editing its
    text and pulling it out, as values. */
module CommentLists {
  import opened Base
  import opened Models

  /** `comments.id(cid)`: the position of the first comment with id `cid`. */
  function FindComment(cs: seq<Comment>, cid: Id): (r: Option<nat>)
    ensures r.Some? ==> r.value < |cs| && cs[r.value].id == cid
    ensures r.Some? ==> forall j :: 0 <= j < r.value ==> cs[j].id != cid
    ensures r.None? <==> forall j :: 0 <= j < |cs| ==> cs[j].id != cid
  {
    if cs == [] then None
    else if cs[0].id == cid then Some(0)
    else match FindComment(cs[1..], cid)
      case None => None
      case Some(i) => Some(i + 1)
  }

  /** `comment.text = text` on the comment at position `i`. */
  function EditText(cs: seq<Comment>, i: nat, text: string): (r: seq<Comment>)
    requires i < |cs|
    ensures |r| == |cs|
    ensures r[i].id == cs[i].id && r[i].userId == cs[i].userId && r[i].text == text
    ensures forall j :: 0 <= j < |cs| && j != i ==> r[j] == cs[j]
  {
    cs[i := cs[i].(text := text)]
  }

  /** `comment.deleteOne()`: the array pulls every comment carrying `cid`. */
  function WithoutComment(cs: seq<Comment>, cid: Id): (r: seq<Comment>)
    ensures |r| <= |cs|
    ensures forall j :: 0 <= j < |r| ==> r[j].id != cid
  {
    if cs == [] then []
    else if cs[0].id == cid then WithoutComment(cs[1..], cid)
    else [cs[0]] + WithoutComment(cs[1..], cid)
  }

  /** A comment survives a delete iff it was there and does not carry the
      deleted id. */
  lemma {:induction false} WithoutCommentKeeps(cs: seq<Comment>, cid: Id, c: Comment)
    ensures c in WithoutComment(cs, cid) <==> c in cs && c.id != cid
  {
    if cs != [] {
      assert cs == [cs[0]] + cs[1..];
      WithoutCommentKeeps(cs[1..], cid, c);
    }
  }

  /** A one-comment list keeps its comment iff the id differs. */
  lemma WithoutCommentSingle(c: Comment, cid: Id)
    ensures WithoutComment([c], cid) == if c.id == cid then [] else [c]
  {
  }

  /** The pull works piece by piece: deleting from a concatenation deletes
      from each part and keeps the parts in order. With the one-comment case,
      this pins the pull down as an order-keeping filter. */
  lemma {:induction false} WithoutCommentConcat(a: seq<Comment>, b: seq<Comment>, cid: Id)
    ensures WithoutComment(a + b, cid) == WithoutComment(a, cid) + WithoutComment(b, cid)
  {
    if a == [] {
      assert a + b == b;
    } else {
      assert (a + b)[0] == a[0];
      assert (a + b)[1..] == a[1..] + b;
      WithoutCommentConcat(a[1..], b, cid);
    }
  }

  /** Every surviving comment keeps its number of occurrences; those with the
      deleted id drop to none. */
  lemma {:induction false} WithoutCommentCount(cs: seq<Comment>, cid: Id, c: Comment)
    ensures multiset(WithoutComment(cs, cid))[c] == if c.id == cid then 0 else multiset(cs)[c]
  {
    if cs != [] {
      WithoutCommentCount(cs[1..], cid, c);
      assert cs == [cs[0]] + cs[1..];
    }
  }

  /** A number above every comment id in the list. */
  function IdBound(cs: seq<Comment>): (n: nat)
    ensures forall j :: 0 <= j < |cs| ==> cs[j].id < n
  {
    if cs == [] then 0
    else
      var rest := IdBound(cs[1..]);
      if cs[0].id + 1 > rest then cs[0].id + 1 else rest
  }

  /** No two comments share an id (as when every id is freshly generated). */
  predicate UniqueIds(cs: seq<Comment>) {
    forall i, j :: 0 <= i < j < |cs| ==> cs[i].id != cs[j].id
  }

  /** An edit changes the text of the targeted comment and nothing else: its
      id and author stay, every other comment is untouched, and editing the old
      text back restores the list. */
  lemma EditTextOnlyTarget(cs: seq<Comment>, i: nat, text: string)
    requires i < |cs|
    ensures |EditText(cs, i, text)| == |cs|
    ensures EditText(cs, i, text)[i].text == text
    ensures EditText(cs, i, text)[i].id == cs[i].id && EditText(cs, i, text)[i].userId == cs[i].userId
    ensures forall j :: 0 <= j < |cs| && j != i ==> EditText(cs, i, text)[j] == cs[j]
    ensures EditText(EditText(cs, i, text), i, cs[i].text) == cs
  {
  }

  /** Lists with the same ids position by position answer every lookup alike. */
  lemma FindCommentById(a: seq<Comment>, b: seq<Comment>, cid: Id)
    requires |a| == |b|
    requires forall j :: 0 <= j < |a| ==> a[j].id == b[j].id
    ensures FindComment(a, cid) == FindComment(b, cid)
  {
  }

  /** After an edit every comment is still found where it was. */
  lemma EditKeepsLookup(cs: seq<Comment>, i: nat, text: string, cid: Id)
    requires i < |cs|
    ensures FindComment(EditText(cs, i, text), cid) == FindComment(cs, cid)
  {
    FindCommentById(EditText(cs, i, text), cs, cid);
  }

  /** Pulling an id no comment carries changes nothing. */
  lemma {:induction false} WithoutAbsent(cs: seq<Comment>, cid: Id)
    requires forall j :: 0 <= j < |cs| ==> cs[j].id != cid
    ensures WithoutComment(cs, cid) == cs
  {
    if cs != [] {
      WithoutAbsent(cs[1..], cid);
      assert cs == [cs[0]] + cs[1..];
    }
  }

  /** The tail of a list with unique ids has unique ids, and none of them is
      the head's. */
  lemma UniqueTail(cs: seq<Comment>)
    requires UniqueIds(cs) && cs != []
    ensures UniqueIds(cs[1..])
    ensures forall j :: 0 <= j < |cs[1..]| ==> cs[1..][j].id != cs[0].id
  {
    var tail := cs[1..];
    forall a, b | 0 <= a < b < |tail| ensures tail[a].id != tail[b].id {
      assert tail[a] == cs[a + 1] && tail[b] == cs[b + 1];
    }
    forall j | 0 <= j < |tail| ensures tail[j].id != cs[0].id {
      assert tail[j] == cs[j + 1];
    }
  }

  /** With unique ids, a delete removes exactly the comment found, and the
      remaining comments keep their order. */
  lemma {:induction false} WithoutUnique(cs: seq<Comment>, i: nat)
    requires UniqueIds(cs) && i < |cs|
    ensures WithoutComment(cs, cs[i].id) == cs[..i] + cs[i + 1..]
  {
    var cid := cs[i].id;
    var tail := cs[1..];
    UniqueTail(cs);
    if i == 0 {
      WithoutAbsent(tail, cid);
      assert cs[..0] + cs[1..] == tail;
    } else {
      assert cs[0].id != cid;
      assert tail[i - 1] == cs[i];
      WithoutUnique(tail, i - 1);
      calc {
        WithoutComment(cs, cid);
        [cs[0]] + WithoutComment(tail, cid);
        [cs[0]] + (tail[..i - 1] + tail[i..]);
        { assert tail[..i - 1] == cs[1..i] && tail[i..] == cs[i + 1..]; }
        [cs[0]] + (cs[1..i] + cs[i + 1..]);
        { assert cs[..i] == [cs[0]] + cs[1..i]; }
        cs[..i] + cs[i + 1..];
      }
    }
  }

  /** A comment appended under a fresh id is found at the end of the list. */
  lemma AppendedFound(cs: seq<Comment>, c: Comment)
    requires forall j :: 0 <= j < |cs| ==> cs[j].id != c.id
    ensures FindComment(cs + [c], c.id) == Some(|cs|)
  {
    var t := cs + [c];
    assert t[|cs|].id == c.id;
    assert forall j :: 0 <= j < |cs| ==> t[j] == cs[j];
  }

  /** After a delete no comment with the deleted id can be found. */
  lemma DeletedNotFound(cs: seq<Comment>, cid: Id)
    ensures FindComment(WithoutComment(cs, cid), cid).None?
  {
  }

  /** Appending a comment whose id is above every existing id keeps the ids
      unique. */
  lemma AppendFreshUnique(cs: seq<Comment>, c: Comment)
    requires UniqueIds(cs)
    requires forall j :: 0 <= j < |cs| ==> cs[j].id < c.id
    ensures UniqueIds(cs + [c])
  {
    var t := cs + [c];
    forall a, b | 0 <= a < b < |t| ensures t[a].id != t[b].id {
      assert t[a] == cs[a];
      if b < |cs| {
        assert t[b] == cs[b];
      }
    }
  }
}
