/**
 The flat key space of db/pebble.go: column family `cf` owns the keys that start with `cf` followed by NUL,
 and is iterated over the half-open range from `cf\x00` to `cf\x01`.
 */
module Keyspace {
  import opened Bytes

  function Prefix(cf: bytes): bytes {
    cf + [0]
  }

  function UpperBound(cf: bytes): bytes {
    cf + [1]
  }

  function FlatKey(cf: bytes, key: bytes): bytes {
    Prefix(cf) + key
  }

  predicate InRange(cf: bytes, s: bytes) {
    AtMost(Prefix(cf), s) && Less(s, UpperBound(cf))
  }

  predicate NulFree(cf: bytes) {
    forall i :: 0 <= i < |cf| ==> cf[i] != 0
  }

  /** No name followed by NUL is the beginning of another name followed by NUL. */
  ghost predicate PrefixFree(names: set<bytes>) {
    forall a, b :: a in names && b in names && a != b ==> !(Prefix(a) <= Prefix(b))
  }

  method CfPrefix(cf: bytes) returns (b: array<byte>)
    ensures fresh(b) && b[..] == Prefix(cf)
  {
    b := new byte[|cf| + 1];
    forall i | 0 <= i < |cf| { b[i] := cf[i]; }
    b[|cf|] := 0x00;
  }

  method CfUpperBound(cf: bytes) returns (b: array<byte>)
    ensures fresh(b) && b[..] == UpperBound(cf)
  {
    b := new byte[|cf| + 1];
    forall i | 0 <= i < |cf| { b[i] := cf[i]; }
    b[|cf|] := 0x01;
  }

  /** A nil key, the zero value of a Go slice, has no bytes to copy. */
  method PrefixedKey(prefix: bytes, key: array?<byte>) returns (pk: array<byte>)
    ensures fresh(pk)
    ensures pk[..] == prefix + if key == null then [] else key[..]
  {
    var n := if key == null then 0 else key.Length;
    pk := new byte[|prefix| + n];
    forall i | 0 <= i < |prefix| { pk[i] := prefix[i]; }
    if key != null {
      forall i | 0 <= i < n { pk[|prefix| + i] := key[i]; }
    }
  }

  /** The iteration bounds of a family enclose exactly the strings that begin with its prefix, whatever its name. */
  lemma {:induction false} RangeIsPrefix(cf: bytes, s: bytes)
    ensures InRange(cf, s) <==> Prefix(cf) <= s
    decreases |cf|
  {
    var p, u := Prefix(cf), UpperBound(cf);
    if s != [] {
      assert s == [s[0]] + s[1..] && p == [p[0]] + p[1..];
      if cf == [] {
        assert p == [0] && u == [1];
        LessIsTotal([], s[1..]);
        assert Less(s, u) <==> s[0] < 1;
        assert s[0] == 0 ==> (s == p <==> s[1..] == []);
      } else {
        RangeIsPrefix(cf[1..], s[1..]);
        assert p[1..] == Prefix(cf[1..]) && u[1..] == UpperBound(cf[1..]);
      }
    }
  }

  /** Within one family the flat keys are ordered as the user keys are. */
  lemma FlatKeysKeepOrder(cf: bytes, a: bytes, b: bytes)
    ensures Less(FlatKey(cf, a), FlatKey(cf, b)) <==> Less(a, b)
  {
    PrefixingKeepsOrder(Prefix(cf), a, b);
  }

  /** Of two prefixes of one string the shorter begins the longer. */
  lemma PrefixesOfOneString(p: bytes, q: bytes, s: bytes)
    requires p <= s && q <= s
    ensures if |p| <= |q| then p <= q else q <= p
  {
    assert p == s[..|p|] && q == s[..|q|];
  }

  /** Two ranges share no string exactly when neither prefix begins with the other. */
  lemma DisjointRanges(a: bytes, b: bytes)
    ensures (forall s :: !(InRange(a, s) && InRange(b, s)))
       <==> (!(Prefix(a) <= Prefix(b)) && !(Prefix(b) <= Prefix(a)))
  {
    RangeIsPrefix(a, Prefix(a));
    RangeIsPrefix(a, Prefix(b));
    RangeIsPrefix(b, Prefix(a));
    RangeIsPrefix(b, Prefix(b));
    forall s | InRange(a, s) && InRange(b, s)
      ensures Prefix(a) <= Prefix(b) || Prefix(b) <= Prefix(a)
    {
      RangeIsPrefix(a, s);
      RangeIsPrefix(b, s);
      PrefixesOfOneString(Prefix(a), Prefix(b), s);
    }
  }

  lemma NulEndsTheName(a: bytes, b: bytes)
    requires NulFree(b) && Prefix(a) <= Prefix(b)
    ensures a == b
  {
    assert Prefix(b)[|a|] == Prefix(a)[|a|] == 0;
    assert a == Prefix(b)[..|a|];
  }

  /** The names `Open` is meant for: without NUL bytes no prefix begins another. */
  lemma NulFreeNamesArePrefixFree(names: set<bytes>)
    requires forall cf :: cf in names ==> NulFree(cf)
    ensures PrefixFree(names)
  {
    forall a, b | a in names && b in names && Prefix(a) <= Prefix(b)
      ensures a == b
    {
      NulEndsTheName(a, b);
    }
  }

  /** A flat key determines its family and its user key. */
  lemma FlatKeyIsInjective(names: set<bytes>, a: bytes, k: bytes, b: bytes, l: bytes)
    requires PrefixFree(names) && a in names && b in names
    requires FlatKey(a, k) == FlatKey(b, l)
    ensures a == b && k == l
  {
    PrefixesOfOneString(Prefix(a), Prefix(b), FlatKey(a, k));
    assert a == b;
    assert k == FlatKey(a, k)[|a| + 1..] && l == FlatKey(b, l)[|b| + 1..];
  }
}
