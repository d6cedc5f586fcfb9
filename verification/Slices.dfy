/** Go byte slices on the heap: a slice is an array, and nil is the null reference. */
module Slices {
  import opened Wrappers
  import opened Bytes

  /** The bytes of a slice; nil has none. */
  function Contents(a: array?<byte>): bytes
    reads a
  {
    if a == null then [] else a[..]
  }

  function KeyBytes(a: array?<byte>): Option<bytes>
    reads a
  {
    if a == null then None else Some(a[..])
  }

  /** `make` followed by `copy`. */
  method Copied(a: array?<byte>) returns (v: array<byte>)
    ensures fresh(v) && v[..] == Contents(a)
  {
    var n := if a == null then 0 else a.Length;
    v := new byte[n];
    if a != null {
      forall i | 0 <= i < n { v[i] := a[i]; }
    }
  }

  /** A fresh slice with the given bytes. */
  method FromBytes(s: bytes) returns (v: array<byte>)
    ensures fresh(v) && v[..] == s
  {
    v := new byte[|s|];
    forall i | 0 <= i < |s| { v[i] := s[i]; }
  }
}
