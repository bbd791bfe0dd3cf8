/** How the list endpoints turn a table into a response: select the matching
    rows, order them (`ORDER BY`, or the database's own order when the query
    has none), then apply `OFFSET` and `LIMIT`.  Rows are identified by their
    primary keys; rows with equal sort keys come out in an unspecified order,
    as they do from the database. */
module Listing {
  import opened Common

  predicate Distinct<T(==)>(s: seq<T>) {
    forall i, j :: 0 <= i < j < |s| ==> s[i] != s[j]
  }

  ghost predicate SortedBy<K>(s: seq<K>, rank: K -> int) {
    forall i, j :: 0 <= i < j < |s| ==> rank(s[i]) <= rank(s[j])
  }

  /** `s` lists each key of `keys` that `sel` accepts, exactly once. */
  ghost predicate Enumerates<K(!new)>(s: seq<K>, keys: set<K>, sel: K -> bool) {
    Distinct(s) && forall k :: k in s <==> k in keys && sel(k)
  }

  /** `OFFSET offset LIMIT limit` applied to an ordered result. */
  function Window<T>(s: seq<T>, offset: nat, limit: nat): (r: seq<T>)
    ensures |r| <= limit
    ensures |r| == if offset >= |s| then 0 else Min(limit, |s| - offset)
    ensures forall i :: 0 <= i < |r| ==> offset + i < |s| && r[i] == s[offset + i]
  {
    if offset >= |s| then [] else s[offset .. offset + Min(limit, |s| - offset)]
  }

  /** Where a key of rank `rank(k)` goes in a sorted sequence so that it
      follows every key of equal or smaller rank. */
  function InsertionPoint<K>(s: seq<K>, k: K, rank: K -> int): (p: nat)
    ensures p <= |s|
    ensures forall i :: 0 <= i < p ==> rank(s[i]) <= rank(k)
    ensures p < |s| ==> rank(k) < rank(s[p])
  {
    if s == [] || rank(k) < rank(s[0]) then 0 else 1 + InsertionPoint(s[1..], k, rank)
  }

  lemma InsertKeepsSorted<K>(s: seq<K>, k: K, rank: K -> int)
    requires SortedBy(s, rank)
    ensures SortedBy(s[..InsertionPoint(s, k, rank)] + [k] + s[InsertionPoint(s, k, rank)..], rank)
  {
    var p := InsertionPoint(s, k, rank);
    var t := s[..p] + [k] + s[p..];
    forall i, j | 0 <= i < j < |t|
      ensures rank(t[i]) <= rank(t[j])
    {
      if j < p {
        assert t[i] == s[i] && t[j] == s[j];
      } else if j == p {
        assert t[i] == s[i];
      } else if i < p {
        assert t[i] == s[i] && t[j] == s[j - 1];
        assert rank(s[i]) <= rank(k) < rank(s[p]) <= rank(s[j - 1]);
      } else if i == p {
        assert t[j] == s[j - 1];
        assert rank(k) < rank(s[p]) <= rank(s[j - 1]);
      } else {
        assert t[i] == s[i - 1] && t[j] == s[j - 1];
      }
    }
  }

  /** The elements of `s` with `k` inserted at position `p`. */
  lemma InsertAt<K>(s: seq<K>, p: nat, k: K)
    requires p <= |s|
    ensures |s[..p] + [k] + s[p..]| == |s| + 1
    ensures forall i :: 0 <= i < p ==> (s[..p] + [k] + s[p..])[i] == s[i]
    ensures (s[..p] + [k] + s[p..])[p] == k
    ensures forall i :: p < i <= |s| ==> (s[..p] + [k] + s[p..])[i] == s[i - 1]
  {
  }

  /** Inserting a key that is not yet listed keeps the sequence free of
      repetitions. */
  lemma InsertKeepsDistinct<K>(s: seq<K>, p: nat, k: K)
    requires p <= |s| && Distinct(s) && k !in s
    ensures Distinct(s[..p] + [k] + s[p..])
  {
    var t := s[..p] + [k] + s[p..];
    InsertAt(s, p, k);
    forall i, j | 0 <= i < j < |t|
      ensures t[i] != t[j]
    {
      if j < p {
        assert t[i] == s[i] && t[j] == s[j];
      } else if j == p {
        assert t[i] == s[i] && s[i] in s;
      } else if i < p {
        assert t[i] == s[i] && t[j] == s[j - 1];
      } else if i == p {
        assert t[j] == s[j - 1] && s[j - 1] in s;
      } else {
        assert t[i] == s[i - 1] && t[j] == s[j - 1];
      }
    }
  }

  /** Inserting adds exactly the inserted key. */
  lemma InsertAddsKey<K>(s: seq<K>, p: nat, k: K)
    requires p <= |s|
    ensures forall x :: x in s[..p] + [k] + s[p..] <==> x in s || x == k
  {
    assert s == s[..p] + s[p..];
  }

  /** The scan behind every list endpoint: walk the keys in any order, keep
      those `sel` accepts, and keep them ordered by `rank` (a constant rank
      leaves them in the order the walk met them). */
  method CollectSorted<K(==,!new)>(keys: set<K>, sel: K -> bool, rank: K -> int) returns (s: seq<K>)
    ensures Enumerates(s, keys, sel)
    ensures SortedBy(s, rank)
  {
    s := [];
    var rest := keys;
    while rest != {}
      invariant rest <= keys
      invariant Distinct(s) && SortedBy(s, rank)
      invariant forall k :: k in s <==> k in keys - rest && sel(k)
      decreases rest
    {
      var k :| k in rest;
      rest := rest - {k};
      if sel(k) {
        var p := InsertionPoint(s, k, rank);
        InsertKeepsSorted(s, k, rank);
        InsertKeepsDistinct(s, p, k);
        InsertAddsKey(s, p, k);
        s := s[..p] + [k] + s[p..];
      }
    }
  }

  /** The rows of a table under the listed keys, in the listed order. */
  function Rows<K, V>(table: map<K, V>, keys: seq<K>): (r: seq<V>)
    requires forall k :: k in keys ==> k in table
    ensures |r| == |keys|
    ensures forall i :: 0 <= i < |keys| ==> r[i] == table[keys[i]]
  {
    seq(|keys|, i requires 0 <= i < |keys| => table[keys[i]])
  }
}
