/** ORDER BY over a pair of columns: the one strictly ordered listing of a set of keys. */
module Listings {
  /** A sort column with the row id that breaks ties. */
  datatype Key = Key(rank: int, id: int)

  predicate Before(a: Key, b: Key) {
    a.rank < b.rank || (a.rank == b.rank && a.id < b.id)
  }

  lemma Inhabited(s: set<int>)
    ensures s == {} || exists x :: x in s
  {
    if !(exists x :: x in s) { assert s == {}; }
  }

  predicate Descends(s: seq<Key>) {
    forall i, j | 0 <= i < j < |s| :: Before(s[j], s[i])
  }

  predicate IsLast(keys: set<Key>, k: Key) {
    k in keys && forall j | j in keys :: j == k || Before(j, k)
  }

  lemma {:induction false} HasLast(keys: set<Key>)
    requires keys != {}
    ensures exists k :: IsLast(keys, k)
    decreases |keys|
  {
    var k :| k in keys;
    if keys == {k} {
      assert IsLast(keys, k);
    } else {
      HasLast(keys - {k});
      var m :| IsLast(keys - {k}, m);
      var last := if Before(k, m) then m else k;
      forall j | j in keys
        ensures j == last || Before(j, last)
      {
        if j != k { assert j in keys - {k}; }
      }
      assert IsLast(keys, last);
    }
  }

  function Last(keys: set<Key>): (k: Key)
    requires keys != {}
    ensures IsLast(keys, k)
  {
    HasLast(keys);
    var k :| IsLast(keys, k);
    k
  }

  /** ORDER BY rank DESC, id DESC. */
  function Descending(keys: set<Key>): seq<Key>
    decreases |keys|
  {
    if keys == {} then [] else [Last(keys)] + Descending(keys - {Last(keys)})
  }

  /** ORDER BY rank, id. */
  function Ascending(keys: set<Key>): seq<Key> {
    Reversed(Descending(keys))
  }

  function Reversed(s: seq<Key>): seq<Key> {
    seq(|s|, i requires 0 <= i < |s| => s[|s| - 1 - i])
  }

  /** The listing names every key once, in descending order. */
  lemma {:induction false} DescendingLists(keys: set<Key>)
    ensures Descends(Descending(keys)) && |Descending(keys)| == |keys|
    ensures forall k :: k in Descending(keys) <==> k in keys
    decreases |keys|
  {
    if keys != {} {
      var rest := Descending(keys - {Last(keys)});
      DescendingLists(keys - {Last(keys)});
      forall k | k in rest
        ensures Before(k, Last(keys))
      {
        assert k in keys - {Last(keys)};
      }
      forall i, j | 0 <= i < j < |Descending(keys)|
        ensures Before(Descending(keys)[j], Descending(keys)[i])
      {
        assert rest[j - 1] in rest;
      }
    }
  }

  /** No other sequence does. */
  lemma {:induction false} ListingUnique(keys: set<Key>, s: seq<Key>)
    requires Descends(s) && forall k :: k in s <==> k in keys
    ensures s == Descending(keys)
    decreases |keys|
  {
    if s == [] {
      assert forall k :: k !in keys;
      assert keys == {};
    } else {
      assert s[0] in s;
      assert IsLast(keys, s[0]);
      assert s[0] == Last(keys);
      assert forall k :: k in s[1..] <==> k in keys - {s[0]};
      ListingUnique(keys - {s[0]}, s[1..]);
    }
  }

  function Earlier(keys: set<Key>, bound: Key): set<Key> {
    set k | k in keys && Before(k, bound)
  }

  /** What follows the n-th entry of a listing is the listing of the keys before that entry. */
  lemma {:induction false} RestOfListing(keys: set<Key>, n: nat)
    requires 0 < n <= |Descending(keys)|
    ensures Descending(Earlier(keys, Descending(keys)[n - 1])) == Descending(keys)[n..]
  {
    DescendingLists(keys);
    var all := Descending(keys);
    var rest := all[n..];
    forall k
      ensures k in rest <==> k in Earlier(keys, all[n - 1])
    {
      if k in Earlier(keys, all[n - 1]) {
        assert k in all;
        var i :| 0 <= i < |all| && all[i] == k;
        assert rest[i - n] == k;
      }
      if k in rest {
        var i :| 0 <= i < |rest| && rest[i] == k;
        assert all[n + i] == k && Before(all[n + i], all[n - 1]);
        assert k in all;
      }
    }
    ListingUnique(Earlier(keys, all[n - 1]), rest);
  }
}
