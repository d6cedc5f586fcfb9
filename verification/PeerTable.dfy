/**
 The peer map of pkg/btcclient/manager.go by value. A ManagedPeer is known by the order in which it was
 created, so `created` lists the addresses of all peers ever made and `entries` gives the mapped ones.
 */
module PeerTable {
  import opened Wrappers

  /** Formatted addresses are only compared, so they may be of any type. */
  type Addr(==, !new)

  /** Nothing in the code sets Unhealthy. */
  datatype Status = Disconnected | Connecting | Connected | Unhealthy

  /** A connection: which dial of the loop made it, whether we asked it to end, whether the other side did. */
  datatype Conn = Conn(serial: nat, told: bool, dropped: bool)

  datatype AddError = PeerAlreadyExists | MaxPeersReached

  datatype Table = Table(entries: map<Addr, nat>, created: seq<Addr>)

  /** Every mapped peer is stored under its own address and is the newest one made for it. */
  ghost predicate NewestMapped(t: Table) {
    forall a :: a in t.entries ==>
      && t.entries[a] < |t.created| && t.created[t.entries[a]] == a
      && forall i :: t.entries[a] < i < |t.created| ==> t.created[i] != a
  }

  ghost predicate Valid(max: nat, t: Table) {
    |t.entries| <= max && NewestMapped(t)
  }

  /** addPeer. */
  function AddOne(max: nat, t: Table, a: Addr): (Table, Option<AddError>) {
    if a in t.entries then (t, Some(PeerAlreadyExists))
    else if |t.entries| >= max then (t, Some(MaxPeersReached))
    else (Table(t.entries[a := |t.created|], t.created + [a]), None)
  }

  /** A known address is refused as known, also when the map is full; a new one only when it is full. */
  lemma RefusedFor(max: nat, t: Table, a: Addr)
    ensures AddOne(max, t, a).1 == Some(PeerAlreadyExists) <==> a in t.entries
    ensures AddOne(max, t, a).1 == Some(MaxPeersReached) <==> a !in t.entries && |t.entries| >= max
    ensures AddOne(max, t, a).1.Some? ==> AddOne(max, t, a).0 == t
  {
  }

  /** removePeer. */
  function RemoveOne(t: Table, a: Addr): Table {
    t.(entries := t.entries - {a})
  }

  /** addDiscoveredPeers: skips known addresses and stops when the map is full. */
  function Discover(max: nat, t: Table, addrs: seq<Addr>): Table
    decreases |addrs|
  {
    if addrs == [] || |t.entries| >= max then t
    else if addrs[0] in t.entries then Discover(max, t, addrs[1..])
    else Discover(max, AddOne(max, t, addrs[0]).0, addrs[1..])
  }

  /** addPeer on every address in order, errors ignored. */
  function AddEach(max: nat, t: Table, addrs: seq<Addr>): Table
    decreases |addrs|
  {
    if addrs == [] then t else AddEach(max, AddOne(max, t, addrs[0]).0, addrs[1..])
  }

  lemma AddKeepsValid(max: nat, t: Table, a: Addr)
    requires Valid(max, t)
    ensures Valid(max, AddOne(max, t, a).0)
  {
    assert a !in t.entries ==> |t.entries[a := |t.created|]| == |t.entries| + 1;
  }

  lemma RemoveKeepsValid(max: nat, t: Table, a: Addr)
    requires Valid(max, t)
    ensures Valid(max, RemoveOne(t, a))
    ensures a in t.entries ==> |RemoveOne(t, a).entries| == |t.entries| - 1
  {
    var r := t.entries - {a};
    assert r.Keys == t.entries.Keys - {a};
    assert |r| == |r.Keys| && |t.entries| == |t.entries.Keys|;
  }

  lemma {:induction false} FullTableStays(max: nat, t: Table, addrs: seq<Addr>)
    requires |t.entries| >= max
    ensures AddEach(max, t, addrs) == t
    decreases |addrs|
  {
    if addrs != [] { FullTableStays(max, t, addrs[1..]); }
  }

  /** Discovery leaves the same table as adding the listed addresses one by one. */
  lemma {:induction false} DiscoveryIsRepeatedAdd(max: nat, t: Table, addrs: seq<Addr>)
    ensures Discover(max, t, addrs) == AddEach(max, t, addrs)
    decreases |addrs|
  {
    if |t.entries| >= max {
      FullTableStays(max, t, addrs);
    } else if addrs != [] {
      DiscoveryIsRepeatedAdd(max, AddOne(max, t, addrs[0]).0, addrs[1..]);
    }
  }

  /** `r` is `t` with peers added: every mapping is kept, and the new peers are exactly the newly mapped ones. */
  ghost predicate Grows(t: Table, r: Table) {
    && t.created <= r.created
    && (forall a :: a in t.entries ==> a in r.entries && r.entries[a] == t.entries[a])
    && (forall a :: a in r.entries && a !in t.entries ==> r.entries[a] >= |t.created|)
    && forall i :: |t.created| <= i < |r.created| ==> r.created[i] in r.entries && r.entries[r.created[i]] == i
  }

  lemma AddGrows(max: nat, t: Table, a: Addr)
    ensures Grows(t, AddOne(max, t, a).0)
  {
  }

  lemma GrowsTransitively(t: Table, r: Table, u: Table)
    requires Grows(t, r) && Grows(r, u)
    ensures Grows(t, u)
  {
    forall i | |t.created| <= i < |u.created|
      ensures u.created[i] in u.entries && u.entries[u.created[i]] == i
    {
      if i < |r.created| { assert r.created[i] == u.created[i]; }
    }
  }

  lemma {:induction false} DiscoveryGrows(max: nat, t: Table, addrs: seq<Addr>)
    ensures Grows(t, Discover(max, t, addrs))
    decreases |addrs|
  {
    if addrs != [] && |t.entries| < max {
      var r := AddOne(max, t, addrs[0]).0;
      DiscoveryGrows(max, r, addrs[1..]);
      GrowsTransitively(t, r, Discover(max, t, addrs));
    }
  }

  /** The listed addresses that are not known yet, each once, in order of first occurrence. */
  function NewOnes(known: set<Addr>, addrs: seq<Addr>): seq<Addr>
    decreases |addrs|
  {
    if addrs == [] then []
    else if addrs[0] in known then NewOnes(known, addrs[1..])
    else [addrs[0]] + NewOnes(known + {addrs[0]}, addrs[1..])
  }

  function Min(a: nat, b: nat): nat {
    if a <= b then a else b
  }

  function Listed(addrs: seq<Addr>): set<Addr> {
    set a | a in addrs
  }

  lemma {:induction false} NewOnesCount(known: set<Addr>, addrs: seq<Addr>)
    ensures |known| + |NewOnes(known, addrs)| == |known + Listed(addrs)|
    ensures forall a :: a in NewOnes(known, addrs) <==> a in addrs && a !in known
    decreases |addrs|
  {
    if addrs == [] {
      assert known + Listed(addrs) == known;
    } else {
      var a, rest := addrs[0], addrs[1..];
      assert addrs == [a] + rest;
      if a in known {
        NewOnesCount(known, rest);
        assert known + Listed(addrs) == known + Listed(rest);
      } else {
        NewOnesCount(known + {a}, rest);
        assert known + Listed(addrs) == (known + {a}) + Listed(rest);
      }
    }
  }

  ghost predicate Distinct(s: seq<Addr>) {
    forall i, j :: 0 <= i < j < |s| ==> s[i] != s[j]
  }

  lemma {:induction false} NewOnesAreDistinct(known: set<Addr>, addrs: seq<Addr>)
    ensures Distinct(NewOnes(known, addrs))
    decreases |addrs|
  {
    if addrs != [] {
      var a, rest := addrs[0], addrs[1..];
      if a in known {
        NewOnesAreDistinct(known, rest);
      } else {
        NewOnesAreDistinct(known + {a}, rest);
        NewOnesCount(known + {a}, rest);
        var more := NewOnes(known + {a}, rest);
        assert forall j :: 0 <= j < |more| ==> more[j] in more && more[j] != a;
        assert NewOnes(known, addrs) == [a] + more;
      }
    }
  }

  function Room(max: nat, t: Table, addrs: seq<Addr>): nat
    requires |t.entries| <= max
  {
    Min(max - |t.entries|, |NewOnes(t.entries.Keys, addrs)|)
  }

  /** Adding a new address uses up one place and the first of the new addresses. */
  lemma AddTakesTheFirst(max: nat, t: Table, addrs: seq<Addr>)
    requires addrs != [] && |t.entries| < max && addrs[0] !in t.entries
    ensures var u, rest := AddOne(max, t, addrs[0]).0, addrs[1..];
            && u.created == t.created + [addrs[0]] && |u.entries| == |t.entries| + 1
            && Room(max, t, addrs) == Room(max, u, rest) + 1
            && NewOnes(t.entries.Keys, addrs) == [addrs[0]] + NewOnes(u.entries.Keys, rest)
  {
    var u := AddOne(max, t, addrs[0]).0;
    assert |u.entries| == |t.entries| + 1;
    assert u.entries.Keys == t.entries.Keys + {addrs[0]};
  }

  lemma {:induction false} DiscoveryCreates(max: nat, t: Table, addrs: seq<Addr>)
    requires |t.entries| <= max
    ensures var r := Discover(max, t, addrs);
            && r.created == t.created + NewOnes(t.entries.Keys, addrs)[..Room(max, t, addrs)]
            && |r.entries| == |t.entries| + Room(max, t, addrs)
    decreases |addrs|
  {
    if addrs != [] && |t.entries| < max {
      var a, rest := addrs[0], addrs[1..];
      if a in t.entries {
        DiscoveryCreates(max, t, rest);
      } else {
        AddTakesTheFirst(max, t, addrs);
        DiscoveryCreates(max, AddOne(max, t, a).0, rest);
      }
    }
  }

  lemma {:induction false} DiscoveryKeeps(max: nat, t: Table, addrs: seq<Addr>)
    requires Valid(max, t)
    ensures Valid(max, Discover(max, t, addrs))
    decreases |addrs|
  {
    if addrs != [] && |t.entries| < max {
      AddKeepsValid(max, t, addrs[0]);
      DiscoveryKeeps(max, AddOne(max, t, addrs[0]).0, addrs[1..]);
    }
  }

  lemma {:induction false} DiscoveryAddsListed(max: nat, t: Table, addrs: seq<Addr>)
    ensures Discover(max, t, addrs).entries.Keys <= t.entries.Keys + Listed(addrs)
    decreases |addrs|
  {
    if addrs != [] && |t.entries| < max {
      var u, rest := AddOne(max, t, addrs[0]).0, addrs[1..];
      DiscoveryAddsListed(max, u, rest);
      assert Listed(rest) <= Listed(addrs) && addrs[0] in Listed(addrs);
      assert u.entries.Keys <= t.entries.Keys + {addrs[0]};
    }
  }

  /**
   Discovery creates peers for exactly the first distinct new addresses there is room for, keeps every
   mapping it found, and leaves min(max, number of distinct old and listed addresses) entries.
   */
  lemma DiscoveryAddsTheFirstNew(max: nat, t: Table, addrs: seq<Addr>)
    requires Valid(max, t)
    ensures var r, news := Discover(max, t, addrs), NewOnes(t.entries.Keys, addrs);
            && Valid(max, r)
            && r.created == t.created + news[..Room(max, t, addrs)]
            && (forall a :: a in t.entries ==> a in r.entries && r.entries[a] == t.entries[a])
            && r.entries.Keys <= t.entries.Keys + Listed(addrs)
            && |r.entries| == Min(max, |t.entries.Keys + Listed(addrs)|)
  {
    DiscoveryCreates(max, t, addrs);
    DiscoveryKeeps(max, t, addrs);
    DiscoveryAddsListed(max, t, addrs);
    DiscoveryGrows(max, t, addrs);
    NewOnesCount(t.entries.Keys, addrs);
    assert |t.entries| == |t.entries.Keys|;
  }
}
