/** Sorted key lists: what `sort.Strings` and `sort.Search` of the Go library return for the store. */
module Snapshot {
  import opened Bytes

  ghost predicate Ascending(ks: seq<bytes>) {
    forall i, j :: 0 <= i < j < |ks| ==> Less(ks[i], ks[j])
  }

  function Insert(k: bytes, ks: seq<bytes>): (r: seq<bytes>)
    ensures multiset(r) == multiset(ks)[k := multiset(ks)[k] + 1]
  {
    if ks == [] || Less(k, ks[0]) then
      [k] + ks
    else
      assert ks == [ks[0]] + ks[1..];
      [ks[0]] + Insert(k, ks[1..])
  }

  /** The elements of a finite set of strings in ascending order. */
  ghost function Sorted(s: set<bytes>): (ks: seq<bytes>)
    ensures Ascending(ks)
    ensures forall k :: k in ks <==> k in s
    ensures |ks| == |s|
  {
    if s == {} then
      []
    else
      var k :| k in s;
      var rest := Sorted(s - {k});
      InsertKeepsAscending(k, rest);
      Insert(k, rest)
  }

  lemma {:induction false} InsertKeepsAscending(k: bytes, ks: seq<bytes>)
    requires Ascending(ks) && k !in ks
    ensures Ascending(Insert(k, ks))
    ensures forall x :: x in Insert(k, ks) <==> x == k || x in ks
    ensures |Insert(k, ks)| == |ks| + 1
  {
    if ks != [] {
      LessIsTotal(k, ks[0]);
      if Less(k, ks[0]) {
        forall j | 0 < j < |ks|
          ensures Less(k, ks[j])
        {
          LessIsTransitive(k, ks[0], ks[j]);
        }
      } else {
        InsertKeepsAscending(k, ks[1..]);
        var r := Insert(k, ks[1..]);
        forall j | 0 <= j < |r|
          ensures Less(ks[0], r[j])
        {
          assert r[j] == k || r[j] in ks[1..];
        }
      }
    }
  }

  /** A set has only one ascending list. */
  lemma {:induction false} AscendingListIsUnique(a: seq<bytes>, b: seq<bytes>)
    requires Ascending(a) && Ascending(b)
    requires forall k :: k in a <==> k in b
    ensures a == b
    decreases |a|
  {
    if a == [] {
      NonEmptyHasElement(b);
    } else {
      assert a[0] in b;
      LessIsTotal(a[0], b[0]);
      assert b[0] in a;
      forall k
        ensures k in a[1..] <==> k in b[1..]
      {
        RestIsOthers(a, k);
        RestIsOthers(b, k);
      }
      AscendingListIsUnique(a[1..], b[1..]);
      assert a == [a[0]] + a[1..] && b == [b[0]] + b[1..];
    }
  }

  lemma NonEmptyHasElement(b: seq<bytes>)
    ensures b != [] ==> exists k :: k in b
  {
    if b != [] { assert b[0] in b; }
  }

  lemma RestIsOthers(a: seq<bytes>, k: bytes)
    requires Ascending(a) && a != []
    ensures k in a[1..] <==> k in a && k != a[0]
  {
    LessIsTotal(a[0], a[0]);
  }

  /** Collects the keys in any order, as a Go map range does, and sorts them. */
  method SortedKeys(s: set<bytes>) returns (ks: seq<bytes>)
    ensures ks == Sorted(s)
  {
    ks := [];
    var todo := s;
    while todo != {}
      invariant todo <= s
      invariant Ascending(ks)
      invariant forall k :: k in ks <==> k in s - todo
      decreases todo
    {
      var k :| k in todo;
      InsertKeepsAscending(k, ks);
      ks := Insert(k, ks);
      todo := todo - {k};
    }
    AscendingListIsUnique(ks, Sorted(s));
  }

  /** The position of the first key that is not below the target, or the length if there is none. */
  function SeekIndex(ks: seq<bytes>, target: bytes): (i: nat)
    ensures i <= |ks|
    ensures forall j :: 0 <= j < i ==> Less(ks[j], target)
    ensures i < |ks| ==> !Less(ks[i], target)
  {
    if ks == [] || !Less(ks[0], target) then 0 else 1 + SeekIndex(ks[1..], target)
  }

  lemma {:induction false} SeekIndexIsTheSplit(ks: seq<bytes>, target: bytes, i: nat)
    requires i <= |ks|
    requires forall j :: 0 <= j < i ==> Less(ks[j], target)
    requires i < |ks| ==> !Less(ks[i], target)
    ensures i == SeekIndex(ks, target)
  {
    if i > 0 { SeekIndexIsTheSplit(ks[1..], target, i - 1); }
  }

  lemma BelowStaysBelow(keys: seq<bytes>, t: bytes, h: nat)
    requires Ascending(keys) && h < |keys| && Less(keys[h], t)
    ensures forall m :: 0 <= m <= h ==> Less(keys[m], t)
  {
    forall m | 0 <= m < h
      ensures Less(keys[m], t)
    {
      LessIsTransitive(keys[m], keys[h], t);
    }
  }

  lemma NotBelowStaysNotBelow(keys: seq<bytes>, t: bytes, h: nat)
    requires Ascending(keys) && h < |keys| && !Less(keys[h], t)
    ensures forall m :: h <= m < |keys| ==> !Less(keys[m], t)
  {
    forall m | h <= m < |keys|
      ensures !Less(keys[m], t)
    {
      if m != h && Less(keys[m], t) { LessIsTransitive(keys[h], keys[m], t); }
    }
  }

  function WithPrefix(p: bytes, ks: seq<bytes>): (r: seq<bytes>)
    ensures |r| == |ks|
    ensures forall i :: 0 <= i < |ks| ==> r[i] == p + ks[i]
  {
    seq(|ks|, i requires 0 <= i < |ks| => p + ks[i])
  }

  /** Sorting the prefixed strings gives the prefixes of the sorted strings. */
  lemma SortingPrefixedKeys(p: bytes, s: set<bytes>, t: set<bytes>)
    requires forall x :: x in t <==> p <= x && x[|p|..] in s
    ensures Sorted(t) == WithPrefix(p, Sorted(s))
  {
    var ks := Sorted(s);
    var r := WithPrefix(p, ks);
    forall i, j | 0 <= i < j < |r|
      ensures Less(r[i], r[j])
    {
      PrefixingKeepsOrder(p, ks[i], ks[j]);
    }
    forall x
      ensures x in r <==> x in Sorted(t)
    {
      if x in r {
        var i :| 0 <= i < |r| && r[i] == x;
        assert x[|p|..] == ks[i] && ks[i] in ks;
      }
      if x in t {
        assert x == p + x[|p|..];
        var i :| 0 <= i < |ks| && ks[i] == x[|p|..];
        assert r[i] == x;
      }
    }
    AscendingListIsUnique(r, Sorted(t));
  }

  /** Seeking the prefixed target among prefixed keys lands where seeking the target lands. */
  lemma SeekingPrefixedKeys(p: bytes, ks: seq<bytes>, target: bytes)
    requires Ascending(ks)
    ensures SeekIndex(WithPrefix(p, ks), p + target) == SeekIndex(ks, target)
  {
    var i, j := SeekIndex(ks, target), SeekIndex(WithPrefix(p, ks), p + target);
    if i < j { PrefixingKeepsOrder(p, ks[i], target); }
    if j < i { PrefixingKeepsOrder(p, ks[j], target); }
  }
}
