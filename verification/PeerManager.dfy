/**
 The bodies of pkg/btcclient that run under the peer-map lock, as methods that change the map and the peers
 in place. What each does to the map is the matching function of PeerTable. The concurrent protocol in
 PeerProtocol.dfy takes the same functions as its steps for adding and discovery; removals, health checks and the
 sweep it cuts into stages, and VisitInOneGo in PeerLock.dfy puts the stages of one removal together again.
 */
module PeerManager {
  import opened Wrappers
  import opened PeerTable

  class ManagedPeer {
    const address: Addr
    ghost const id: nat
    var status: Status
    var failureCount: nat
    var peer: Option<Conn>
    var cancelled: bool

    /** How often removePeer called the disconnect listener for this peer. */
    ghost var farewells: nat

    constructor (address: Addr, ghost id: nat)
      ensures this.address == address && this.id == id
      ensures status == Disconnected && failureCount == 0 && peer == None && !cancelled && farewells == 0
    {
      this.address, this.id := address, id;
      status, failureCount, peer, cancelled, farewells := Disconnected, 0, None, false, 0;
    }

    /** Its context is cancelled, and its connection, if it has one, was told to disconnect. */
    ghost predicate LetGo()
      reads this
    {
      cancelled && (peer.Some? ==> peer.value.told)
    }
  }

  lemma SameSize<K, V, W>(m: map<K, V>, n: map<K, W>)
    requires m.Keys == n.Keys
    ensures |m| == |n|
  {
    assert |m| == |m.Keys| && |n| == |n.Keys|;
  }

  ghost function At(m: map<Addr, ManagedPeer>, addrs: set<Addr>): set<ManagedPeer> {
    set a | a in addrs && a in m :: m[a]
  }

  lemma AtOneMore(m: map<Addr, ManagedPeer>, addrs: set<Addr>, a: Addr)
    requires a in m && a !in addrs
    requires forall b :: b in m ==> m[b].address == b
    ensures At(m, addrs + {a}) == At(m, addrs) + {m[a]} && m[a] !in At(m, addrs)
  {
  }

  class Manager {
    var peers: map<Addr, ManagedPeer>
    var done: bool
    var started: bool
    var wg: int
    const maxPeers: nat
    const maxFailureCount: nat
    const hasDisconnectListener: bool

    /** The map by value, with the addresses of all peers ever made. */
    ghost var table: Table

    ghost predicate Valid()
      reads this
    {
      && peers.Keys == table.entries.Keys
      && forall a :: a in peers ==> peers[a].address == a && peers[a].id == table.entries[a]
    }

    constructor (maxPeers: nat, maxFailureCount: nat, hasDisconnectListener: bool)
      ensures Valid() && table == Table(map[], []) && !done && !started && wg == 0
      ensures this.maxPeers == maxPeers && this.maxFailureCount == maxFailureCount
      ensures this.hasDisconnectListener == hasDisconnectListener
    {
      this.maxPeers, this.maxFailureCount := maxPeers, maxFailureCount;
      this.hasDisconnectListener := hasDisconnectListener;
      peers, done, started, wg, table := map[], false, false, 0, Table(map[], []);
    }

    /** Makes the peer, maps it and counts its connection loop. */
    method Register(address: Addr) returns (mp: ManagedPeer)
      requires Valid() && address !in peers && |peers| < maxPeers
      modifies this`peers, this`wg, this`table
      ensures Valid() && wg == old(wg) + 1
      ensures fresh(mp) && mp.status == Disconnected && mp.failureCount == 0 && mp.peer == None && !mp.cancelled
      ensures peers == old(peers)[address := mp]
      ensures table == AddOne(maxPeers, old(table), address).0
    {
      SameSize(peers, table.entries);
      mp := new ManagedPeer(address, |table.created|);
      peers := peers[address := mp];
      table := AddOne(maxPeers, table, address).0;
      wg := wg + 1;
    }

    method AddPeer(address: Addr) returns (err: Option<AddError>)
      requires Valid()
      modifies this`peers, this`wg, this`table
      ensures Valid()
      ensures (table, err) == AddOne(maxPeers, old(table), address)
      ensures err == Some(PeerAlreadyExists) <==> address in old(peers)
      ensures err == Some(MaxPeersReached) <==> address !in old(peers) && |old(peers)| >= maxPeers
      ensures peers.Keys == old(peers.Keys) + if err.None? then {address} else {}
      ensures wg == old(wg) + if err.None? then 1 else 0
      ensures forall a :: a in old(peers) ==> a in peers && peers[a] == old(peers)[a]
      ensures err.None? ==> fresh(peers[address]) && !peers[address].cancelled && peers[address].peer == None
    {
      SameSize(peers, table.entries);
      if address in peers { return Some(PeerAlreadyExists); }
      if |peers| >= maxPeers { return Some(MaxPeersReached); }
      var _ := Register(address);
      err := None;
    }

    method AddDiscoveredPeers(addrs: seq<Addr>)
      requires Valid()
      modifies this`peers, this`wg, this`table
      ensures Valid()
      ensures table == Discover(maxPeers, old(table), addrs)
      ensures wg - old(wg) == |table.created| - |old(table).created|
      ensures forall a :: a in old(peers) ==> a in peers && peers[a] == old(peers)[a]
    {
      ghost var goal := Discover(maxPeers, table, addrs);
      for i := 0 to |addrs|
        invariant Valid()
        invariant Discover(maxPeers, table, addrs[i..]) == goal
        invariant wg - old(wg) == |table.created| - |old(table).created|
        invariant forall a :: a in old(peers) ==> a in peers && peers[a] == old(peers)[a]
      {
        SameSize(peers, table.entries);
        assert addrs[i..][0] == addrs[i] && addrs[i..][1..] == addrs[i + 1..];
        if |peers| >= maxPeers { break; }
        if addrs[i] in peers { continue; }
        var _ := Register(addrs[i]);
      }
      SameSize(peers, table.entries);
    }

    /** `mp.cancel()`, then `Disconnect` on the connection if there is one. */
    static method Release(mp: ManagedPeer)
      modifies mp`cancelled, mp`peer
      ensures mp.LetGo() && (mp.peer.Some? <==> old(mp.peer.Some?))
    {
      mp.cancelled := true;
      if mp.peer.Some? { mp.peer := Some(mp.peer.value.(told := true)); }
    }

    ghost function Calls(): nat {
      if hasDisconnectListener then 1 else 0
    }

    ghost function StoredAt(address: Addr): set<ManagedPeer>
      reads this
    {
      if address in peers then {peers[address]} else {}
    }

    /** Removes the peer stored under the address, whichever peer that is, and touches no other. */
    method RemovePeer(address: Addr) returns (found: bool)
      requires Valid()
      modifies this`peers, this`table, StoredAt(address)`cancelled, StoredAt(address)`peer, StoredAt(address)`farewells
      ensures Valid() && found == (address in old(peers))
      ensures peers == old(peers) - {address}
      ensures table == RemoveOne(old(table), address)
      ensures found ==> old(peers)[address].LetGo()
      ensures found ==> old(peers)[address].farewells == old(peers[address].farewells) + Calls()
    {
      table := RemoveOne(table, address);
      if address !in peers { return false; }
      var mp := peers[address];
      Release(mp);
      peers := peers - {address};
      if hasDisconnectListener { mp.farewells := mp.farewells + 1; }
      found := true;
    }

    /**
     A loop that gave up removes the peer now stored under its address: itself, exactly when no newer peer
     has been stored there and nobody removed it first.
     */
    method EvictPeer(mp: ManagedPeer) returns (found: bool)
      requires Valid()
      modifies this`peers, this`table
      modifies StoredAt(mp.address)`cancelled, StoredAt(mp.address)`peer, StoredAt(mp.address)`farewells
      ensures Valid() && table == RemoveOne(old(table), mp.address)
      ensures (exists a :: a in old(peers) && old(peers)[a] == mp && a !in peers)
         <==> old(mp.address in peers && peers[mp.address] == mp)
      ensures forall a :: a in peers <==> a in old(peers) && a != mp.address
    {
      found := RemovePeer(mp.address);
    }

    ghost function Exhausted(): set<Addr>
      reads this, peers.Values
    {
      set a | a in peers && peers[a].failureCount >= maxFailureCount
    }

    ghost function ExhaustedPeers(): set<ManagedPeer>
      reads this, peers.Values
    {
      set a | a in peers && peers[a].failureCount >= maxFailureCount :: peers[a]
    }

    method CollectExhausted() returns (toRemove: set<Addr>)
      requires Valid()
      ensures toRemove == Exhausted()
    {
      toRemove := {};
      var todo := peers.Keys;
      while todo != {}
        invariant todo <= peers.Keys
        invariant toRemove == set a | a in peers.Keys - todo && peers[a].failureCount >= maxFailureCount
        decreases todo
      {
        var a :| a in todo;
        if peers[a].failureCount >= maxFailureCount { toRemove := toRemove + {a}; }
        todo := todo - {a};
      }
    }

    /** Of the peers that `was` maps, those in `handled` were removed and those in `todo` not touched yet. */
    ghost predicate Halfway(
        was: map<Addr, ManagedPeer>, calls: map<ManagedPeer, nat>, handled: set<Addr>, todo: set<Addr>)
      reads this, At(was, handled), At(was, todo)
    {
      && peers == was - handled && handled !! todo && todo <= was.Keys
      && (forall a :: a in was ==> was[a].address == a && was[a] in calls)
      && (forall mp :: mp in At(was, handled) ==> mp.LetGo() && mp in calls && mp.farewells == calls[mp] + Calls())
      && (forall mp :: mp in At(was, todo) ==> mp in calls && mp.farewells == calls[mp])
    }

    method RemoveNext(a: Addr, ghost was: map<Addr, ManagedPeer>, ghost calls: map<ManagedPeer, nat>,
                      ghost handled: set<Addr>, ghost todo: set<Addr>)
      requires Valid() && Halfway(was, calls, handled, todo) && a in todo
      modifies this`peers, this`table, StoredAt(a)`cancelled, StoredAt(a)`peer, StoredAt(a)`farewells
      ensures Valid() && Halfway(was, calls, handled + {a}, todo - {a})
    {
      AtOneMore(was, handled, a);
      AtOneMore(was, todo - {a}, a);
      assert StoredAt(a) == {was[a]};
      var _ := RemovePeer(a);
      assert peers == was - (handled + {a});
    }

    method RemoveAll(addrs: set<Addr>)
      requires Valid() && addrs <= peers.Keys
      modifies this`peers, this`table, At(peers, addrs)`cancelled, At(peers, addrs)`peer, At(peers, addrs)`farewells
      ensures Valid() && peers == old(peers) - addrs
      ensures forall a :: a in addrs ==> old(peers)[a].LetGo()
      ensures forall a :: a in addrs ==> old(peers)[a].farewells == old(peers[a].farewells) + Calls()
    {
      var todo := addrs;
      ghost var was, handled: set<Addr> := peers, {};
      ghost var calls := map mp | mp in peers.Values :: mp.farewells;
      while todo != {}
        invariant Valid() && Halfway(was, calls, handled, todo) && handled + todo == addrs
        decreases todo
      {
        var a :| a in todo;
        assert was[a] in At(was, addrs) && StoredAt(a) == {was[a]};
        RemoveNext(a, was, calls, handled, todo);
        handled, todo := handled + {a}, todo - {a};
      }
      assert handled == addrs && forall a :: a in addrs ==> was[a] in At(was, addrs);
    }

    /** Removes exactly the peers at or over the failure threshold. No peer is marked Unhealthy. */
    method RunHealthChecks()
      requires Valid()
      modifies this`peers, this`table, ExhaustedPeers()`cancelled, ExhaustedPeers()`peer, ExhaustedPeers()`farewells
      ensures Valid() && peers == old(peers) - old(Exhausted())
      ensures forall a :: a in old(Exhausted()) ==> old(peers)[a].LetGo()
      ensures forall a :: a in old(Exhausted()) ==> old(peers)[a].farewells == old(peers[a].farewells) + Calls()
    {
      var toRemove := CollectExhausted();
      assert At(peers, toRemove) == ExhaustedPeers();
      RemoveAll(toRemove);
    }

    /** The part of Stop before it waits: closes `done` and lets every mapped peer go. */
    method CloseAndSweep()
      requires Valid()
      modifies this`done, peers.Values`cancelled, peers.Values`peer
      ensures Valid() && done && peers == old(peers)
      ensures forall a :: a in peers ==> peers[a].LetGo()
    {
      done := true;
      var todo := peers.Keys;
      while todo != {}
        invariant todo <= peers.Keys && done && Valid()
        invariant forall a :: a in peers.Keys - todo ==> peers[a].LetGo()
        decreases todo
      {
        var a :| a in todo;
        Release(peers[a]);
        todo := todo - {a};
      }
    }
  }

  datatype ClientError = AlreadyStarted | NotStarted | StopTimeout

  /** client.go. The goroutines it starts and waits for are in PeerProtocol.dfy. */
  class BtcClient {
    const manager: Manager

    constructor (manager: Manager)
      ensures this.manager == manager
    {
      this.manager := manager;
    }

    method Start() returns (err: Option<ClientError>)
      modifies manager`started, manager`wg
      ensures err == if old(manager.started) then Some(AlreadyStarted) else None
      ensures manager.started && manager.wg == old(manager.wg) + if err.None? then 1 else 0
    {
      if manager.started { return Some(AlreadyStarted); }
      manager.started := true;
      manager.wg := manager.wg + 1;
      err := None;
    }

    /** `quietInTime` says which arm of the last select is taken; after a timeout the client still counts as started. */
    method Stop(quietInTime: bool) returns (err: Option<ClientError>)
      requires manager.Valid()
      modifies manager`done, manager`started, manager.peers.Values`cancelled, manager.peers.Values`peer
      ensures manager.Valid() && manager.peers == old(manager.peers)
      ensures err == if !old(manager.started) then Some(NotStarted) else if quietInTime then None else Some(StopTimeout)
      ensures err == Some(NotStarted) ==> manager.done == old(manager.done)
      ensures err != Some(NotStarted) ==>
                manager.done && forall a :: a in manager.peers ==> manager.peers[a].LetGo()
      ensures manager.started == (old(manager.started) && err.Some?)
    {
      if !manager.started { return Some(NotStarted); }
      manager.CloseAndSweep();
      if !quietInTime { return Some(StopTimeout); }
      manager.started := false;
      err := None;
    }
  }
}
