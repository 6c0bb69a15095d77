/** Facts about `Array.prototype.filter(x => x !== u)` on id lists: what it
    removes, what it keeps, and in which order. */
module Lists {
  import opened Base

  /** The elements of `s` other than `x`, in their original order. */
  function RemoveAll(s: seq<Id>, x: Id): (r: seq<Id>)
    ensures |r| <= |s|
    ensures x !in r
    ensures forall y :: y != x ==> (y in r <==> y in s)
  {
    if s == [] then []
    else if s[0] == x then RemoveAll(s[1..], x)
    else [s[0]] + RemoveAll(s[1..], x)
  }

  /** `a` occurs somewhere before an occurrence of `b` in `s`. */
  predicate Precedes(s: seq<Id>, a: Id, b: Id) {
    exists i, j :: 0 <= i < j < |s| && s[i] == a && s[j] == b
  }

  /** No element occurs twice. */
  predicate NoDup(s: seq<Id>) {
    forall i, j :: 0 <= i < j < |s| ==> s[i] != s[j]
  }

  /** Every occurrence of `x` is dropped; every other element keeps its number
      of occurrences. */
  lemma {:induction false} RemoveAllCount(s: seq<Id>, x: Id, y: Id)
    ensures multiset(RemoveAll(s, x))[y] == if y == x then 0 else multiset(s)[y]
  {
    if s != [] {
      RemoveAllCount(s[1..], x, y);
      assert s == [s[0]] + s[1..];
    }
  }

  /** Filtering shortens the list by the number of occurrences removed. */
  lemma {:induction false} RemoveAllLength(s: seq<Id>, x: Id)
    ensures |RemoveAll(s, x)| == |s| - multiset(s)[x]
  {
    if s != [] {
      assert s == [s[0]] + s[1..];
      RemoveAllLength(s[1..], x);
    }
  }

  /** Filtering out an element that is absent changes nothing. */
  lemma {:induction false} RemoveAllAbsent(s: seq<Id>, x: Id)
    requires x !in s
    ensures RemoveAll(s, x) == s
  {
    if s != [] {
      assert s[0] != x;
      RemoveAllAbsent(s[1..], x);
      assert s == [s[0]] + s[1..];
    }
  }

  /** Filtering distributes over concatenation. */
  lemma {:induction false} RemoveAllConcat(a: seq<Id>, b: seq<Id>, x: Id)
    ensures RemoveAll(a + b, x) == RemoveAll(a, x) + RemoveAll(b, x)
  {
    if a == [] {
      assert a + b == b;
    } else {
      assert (a + b)[0] == a[0];
      assert (a + b)[1..] == a[1..] + b;
      RemoveAllConcat(a[1..], b, x);
    }
  }

  /** Appending `x` and then filtering it out is the same as filtering it out. */
  lemma RemoveAllAppended(s: seq<Id>, x: Id)
    ensures RemoveAll(s + [x], x) == RemoveAll(s, x)
  {
    RemoveAllConcat(s, [x], x);
    assert RemoveAll([x], x) == [];
  }

  lemma PrecedesCons(h: Id, t: seq<Id>, a: Id, b: Id)
    ensures Precedes([h] + t, a, b) <==> (h == a && b in t) || Precedes(t, a, b)
  {
    var s := [h] + t;
    if Precedes(s, a, b) {
      var i, j :| 0 <= i < j < |s| && s[i] == a && s[j] == b;
      if i == 0 {
        assert t[j - 1] == b;
      } else {
        assert t[i - 1] == a && t[j - 1] == b;
      }
    }
    if h == a && b in t {
      var k :| 0 <= k < |t| && t[k] == b;
      assert s[0] == a && s[k + 1] == b;
    }
    if Precedes(t, a, b) {
      var i, j :| 0 <= i < j < |t| && t[i] == a && t[j] == b;
      assert s[i + 1] == a && s[j + 1] == b;
    }
  }

  /** Filtering out `x` keeps the relative order of every two other elements. */
  lemma {:induction false} RemoveAllKeepsOrder(s: seq<Id>, x: Id, a: Id, b: Id)
    requires a != x && b != x
    ensures Precedes(RemoveAll(s, x), a, b) <==> Precedes(s, a, b)
  {
    if s != [] {
      assert s == [s[0]] + s[1..];
      PrecedesCons(s[0], s[1..], a, b);
      RemoveAllKeepsOrder(s[1..], x, a, b);
      if s[0] != x {
        PrecedesCons(s[0], RemoveAll(s[1..], x), a, b);
      }
    }
  }

  /** Appending an element after the end does not reorder the elements before it. */
  lemma AppendKeepsOrder(s: seq<Id>, x: Id, a: Id, b: Id)
    requires b != x
    ensures Precedes(s + [x], a, b) <==> Precedes(s, a, b)
  {
    var t := s + [x];
    if Precedes(t, a, b) {
      var i, j :| 0 <= i < j < |t| && t[i] == a && t[j] == b;
      assert j < |s|;
      assert s[i] == a && s[j] == b;
    }
    if Precedes(s, a, b) {
      var i, j :| 0 <= i < j < |s| && s[i] == a && s[j] == b;
      assert t[i] == a && t[j] == b;
    }
  }

  lemma NoDupCons(h: Id, t: seq<Id>)
    ensures NoDup([h] + t) <==> h !in t && NoDup(t)
  {
    var s := [h] + t;
    if NoDup(s) {
      forall i, j | 0 <= i < j < |t| ensures t[i] != t[j] {
        assert s[i + 1] == t[i] && s[j + 1] == t[j];
      }
      forall k | 0 <= k < |t| ensures t[k] != h {
        assert s[0] != s[k + 1];
      }
    }
  }

  /** Filtering never introduces a duplicate. */
  lemma {:induction false} RemoveAllNoDup(s: seq<Id>, x: Id)
    requires NoDup(s)
    ensures NoDup(RemoveAll(s, x))
  {
    if s != [] {
      assert s == [s[0]] + s[1..];
      NoDupCons(s[0], s[1..]);
      RemoveAllNoDup(s[1..], x);
      if s[0] != x {
        NoDupCons(s[0], RemoveAll(s[1..], x));
      }
    }
  }

  /** Appending an absent element never introduces a duplicate. */
  lemma AppendFreshNoDup(s: seq<Id>, x: Id)
    requires NoDup(s) && x !in s
    ensures NoDup(s + [x])
  {
  }
}
