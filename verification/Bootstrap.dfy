/** How indexer/indexer.go finds its first peers: resolvePeers and connectPeers. */
module Bootstrap {
  import opened Wrappers
  import opened PeerTable
  import opened PeerManager
  import P = PeerProtocol
  import T = PeerTheorems
  import W = PeerWitness

  datatype BootError = NoPeers | AllPeersFailed

  lemma {:induction false} NewOnesOfBoth(known: set<Addr>, a: seq<Addr>, b: seq<Addr>)
    ensures NewOnes(known, a + b) == NewOnes(known, a) + NewOnes(known + Listed(a), b)
    decreases |a|
  {
    if a == [] {
      assert a + b == b && known + Listed(a) == known;
    } else {
      assert (a + b)[1..] == a[1..] + b;
      if a[0] in known {
        NewOnesOfBoth(known, a[1..], b);
        assert known + Listed(a) == known + Listed(a[1..]) by { assert a == [a[0]] + a[1..]; }
      } else {
        NewOnesOfBoth(known + {a[0]}, a[1..], b);
        assert known + Listed(a) == known + {a[0]} + Listed(a[1..]) by { assert a == [a[0]] + a[1..]; }
      }
    }
  }

  /** One of the two loops of resolvePeers: appends the addresses not seen so far. */
  method AppendUnseen(addrs: seq<Addr>, seen: set<Addr>, peers: seq<Addr>)
    returns (seen': set<Addr>, peers': seq<Addr>)
    ensures seen' == seen + Listed(addrs)
    ensures peers' == peers + NewOnes(seen, addrs)
  {
    seen', peers' := seen, peers;
    for i := 0 to |addrs|
      invariant seen' == seen + Listed(addrs[..i])
      invariant peers' == peers + NewOnes(seen, addrs[..i])
    {
      NewOnesOfBoth(seen, addrs[..i], [addrs[i]]);
      assert addrs[..i + 1] == addrs[..i] + [addrs[i]];
      if addrs[i] in seen' { continue; }
      seen' := seen' + {addrs[i]};
      peers' := peers' + [addrs[i]];
    }
    assert addrs[..|addrs|] == addrs;
  }

  lemma ResolvedList(explicit: seq<Addr>, seeds: seq<Addr>)
    ensures var peers := NewOnes({}, explicit + seeds);
            && peers == NewOnes({}, explicit) + NewOnes(Listed(explicit), seeds)
            && Distinct(peers)
            && forall a :: a in peers <==> a in explicit || a in seeds
  {
    NewOnesOfBoth({}, explicit, seeds);
    assert {} + Listed(explicit) == Listed(explicit);
    NewOnesAreDistinct({}, explicit + seeds);
    NewOnesCount({}, explicit + seeds);
  }

  /** Explicit addresses first, then the formatted DNS seeds, each once in order of first occurrence. */
  method ResolvePeers(explicit: seq<Addr>, seeds: seq<Addr>) returns (peers: seq<Addr>)
    ensures peers == NewOnes({}, explicit + seeds)
    ensures NewOnes({}, explicit) <= peers
    ensures Distinct(peers)
    ensures forall a :: a in peers <==> a in explicit || a in seeds
  {
    var seen;
    seen, peers := AppendUnseen(explicit, {}, []);
    assert seen == Listed(explicit);
    seen, peers := AppendUnseen(seeds, seen, peers);
    ResolvedList(explicit, seeds);
  }

  function FirstAt(addrs: seq<Addr>, a: Addr): nat
    requires a in addrs
  {
    if addrs[0] == a then 0 else 1 + FirstAt(addrs[1..], a)
  }

  /** The resolved list is ordered by first occurrence. */
  lemma {:induction false} FirstOccurrencesAscend(known: set<Addr>, addrs: seq<Addr>, i: nat, j: nat)
    requires i < j < |NewOnes(known, addrs)|
    ensures var news := NewOnes(known, addrs);
            news[i] in addrs && news[j] in addrs && FirstAt(addrs, news[i]) < FirstAt(addrs, news[j])
    decreases |addrs|
  {
    var news := NewOnes(known, addrs);
    NewOnesCount(known, addrs);
    NewOnesAreDistinct(known, addrs);
    assert news[i] in news && news[j] in news && news[i] != news[j];
    if addrs[0] in known {
      FirstOccurrencesAscend(known, addrs[1..], i, j);
    } else if i == 0 {
      assert news[0] == addrs[0];
    } else {
      assert news[0] == addrs[0] && news[0] != news[i] && news[0] != news[j];
      FirstOccurrencesAscend(known + {addrs[0]}, addrs[1..], i - 1, j - 1);
    }
  }

  /** There is no room, or nothing in the list is new. */
  ghost predicate AllRefused(max: nat, t: Table, peers: seq<Addr>) {
    |t.entries| >= max || forall a :: a in peers ==> a in t.entries
  }

  /** Adding a list address by address makes no peer exactly when the map is full or has them all already. */
  lemma AllRefusedExactlyWhen(max: nat, t: Table, peers: seq<Addr>)
    ensures |AddEach(max, t, peers).created| == |t.created| <==> AllRefused(max, t, peers)
  {
    if |t.entries| >= max {
      FullTableStays(max, t, peers);
    } else {
      DiscoveryIsRepeatedAdd(max, t, peers);
      DiscoveryCreates(max, t, peers);
      NewOnesCount(t.entries.Keys, peers);
      var news := NewOnes(t.entries.Keys, peers);
      if news != [] { assert news[0] in news; }
    }
  }

  /** Adds every address, going on after errors, and fails only if every single one was refused. */
  method ConnectPeers(manager: Manager, peers: seq<Addr>) returns (err: Option<BootError>)
    requires manager.Valid()
    modifies manager`peers, manager`wg, manager`table
    ensures manager.Valid()
    ensures manager.table == AddEach(manager.maxPeers, old(manager.table), peers)
    ensures err == if peers == [] then Some(NoPeers)
                   else if old(AllRefused(manager.maxPeers, manager.table, peers)) then Some(AllPeersFailed)
                   else None
  {
    if peers == [] { return Some(NoPeers); }
    var errs := 0;
    ghost var goal := AddEach(manager.maxPeers, manager.table, peers);
    for i := 0 to |peers|
      invariant manager.Valid() && errs <= i
      invariant AddEach(manager.maxPeers, manager.table, peers[i..]) == goal
      invariant |manager.table.created| == |old(manager.table).created| + i - errs
    {
      assert peers[i..][0] == peers[i] && peers[i..][1..] == peers[i + 1..];
      var e := manager.AddPeer(peers[i]);
      if e.Some? { errs := errs + 1; }
    }
    AllRefusedExactlyWhen(manager.maxPeers, old(manager.table), peers);
    err := if errs == |peers| then Some(AllPeersFailed) else None;
  }

  lemma {:induction false} DistinctAreAllNew(known: set<Addr>, addrs: seq<Addr>)
    requires Distinct(addrs) && forall i :: 0 <= i < |addrs| ==> addrs[i] !in known
    ensures NewOnes(known, addrs) == addrs
    decreases |addrs|
  {
    if addrs != [] { DistinctAreAllNew(known + {addrs[0]}, addrs[1..]); }
  }

  /**
   Without concurrent changes, connecting to a resolved list from an empty map registers exactly its first
   min(maxPeers, length) addresses.
   */
  lemma FirstOnesAreRegistered(max: nat, created: seq<Addr>, peers: seq<Addr>)
    requires Distinct(peers)
    ensures var r, n := AddEach(max, Table(map[], created), peers), Min(max, |peers|);
            && r.created == created + peers[..n]
            && |r.entries| == n
            && (peers != [] && max > 0 ==> |r.created| > |created|)
  {
    var t := Table(map[], created);
    DiscoveryIsRepeatedAdd(max, t, peers);
    DiscoveryCreates(max, t, peers);
    DistinctAreAllNew({}, peers);
    assert t.entries.Keys == {};
  }

  // Under every interleaving

  /** The addresses that the AddPeer calls of a run ask for, in order. */
  function Asked(actions: seq<P.Action>): seq<Addr> {
    if actions == [] then []
    else (if actions[0].AddPeer? then [actions[0].addr] else []) + Asked(actions[1..])
  }

  predicate Refused(c: P.Config, s: P.State, a: P.Action) {
    a.AddPeer? && AddOne(c.maxPeers, P.TableOf(s), a.addr).1.Some?
  }

  /** What AddPeer answers in a reachable state: known addresses first, then a full map. */
  lemma RefusedInRun(c: P.Config, before: seq<P.Action>, a: Addr)
    requires T.Reaches(c, before)
    ensures var s := T.Reached(c, before);
            var answer := AddOne(c.maxPeers, P.TableOf(s), a).1;
            && (answer == Some(PeerAlreadyExists) <==> a in s.entries)
            && (answer == Some(MaxPeersReached) <==> a !in s.entries && |s.entries| == c.maxPeers)
            && (answer == None <==> a !in s.entries && |s.entries| < c.maxPeers)
  {
    T.MapInvariant(c, before);
    RefusedFor(c.maxPeers, P.TableOf(T.Reached(c, before)), a);
  }

  /** How many of them are refused. */
  function Refusals(c: P.Config, s: P.State, actions: seq<P.Action>): nat
    requires P.Runs(c, s, actions)
    decreases |actions|
  {
    if actions == [] then 0
    else (if Refused(c, s, actions[0]) then 1 else 0) + Refusals(c, P.Apply(c, s, actions[0]), actions[1..])
  }

  lemma {:induction false} RefusalsAreAsked(c: P.Config, s: P.State, actions: seq<P.Action>)
    requires P.Runs(c, s, actions)
    ensures Refusals(c, s, actions) <= |Asked(actions)|
    decreases |actions|
  {
    if actions != [] { RefusalsAreAsked(c, P.Apply(c, s, actions[0]), actions[1..]); }
  }

  /** No peer was ever made, and nobody works on one. */
  predicate NoPeersYet(s: P.State) {
    s.peers == [] && s.entries == map[] && (s.crit.Work? ==> s.crit.stage.Between?)
  }

  lemma NoPeersByStep(c: P.Config, s: P.State, a: P.Action)
    requires NoPeersYet(s) && P.Enabled(c, s, a) && !a.AddPeer?
    ensures NoPeersYet(P.Apply(c, s, a))
  {
  }

  /**
   In a client that is new, one of the AddPeer calls succeeds, whatever all the other goroutines do between them:
   connectPeers, being the only caller of AddPeer on the indexer's client, never reports that all peers failed.
   */
  lemma {:induction false} NotAllAreRefused(c: P.Config, s: P.State, actions: seq<P.Action>)
    requires c.maxPeers > 0 && P.Runs(c, s, actions) && NoPeersYet(s) && Asked(actions) != []
    ensures Refusals(c, s, actions) < |Asked(actions)|
    decreases |actions|
  {
    if actions[0].AddPeer? {
      RefusalsAreAsked(c, P.Apply(c, s, actions[0]), actions[1..]);
    } else {
      NoPeersByStep(c, s, actions[0]);
      NotAllAreRefused(c, P.Apply(c, s, actions[0]), actions[1..]);
    }
  }

  lemma ConnectPeersNeverAllFails(c: P.Config, actions: seq<P.Action>, peers: seq<Addr>)
    requires T.Reaches(c, actions) && Asked(actions) == peers && peers != []
    ensures Refusals(c, P.Init(), actions) < |peers|
  {
    NotAllAreRefused(c, P.Init(), actions);
  }

  ghost predicate NobodyAdds(actions: seq<P.Action>) {
    forall i :: 0 <= i < |actions| ==> !actions[i].AddPeer?
  }

  lemma {:induction false} NoPeersWithoutAdds(c: P.Config, s: P.State, actions: seq<P.Action>)
    requires P.Runs(c, s, actions) && NobodyAdds(actions) && NoPeersYet(s)
    ensures NoPeersYet(P.Run(c, s, actions))
    decreases |actions|
  {
    if actions != [] {
      NoPeersByStep(c, s, actions[0]);
      NoPeersWithoutAdds(c, P.Apply(c, s, actions[0]), actions[1..]);
    }
  }

  /** In particular the first AddPeer succeeds. */
  lemma FirstAddSucceeds(c: P.Config, before: seq<P.Action>, a: Addr)
    requires T.Reaches(c, before) && NobodyAdds(before)
    ensures AddOne(c.maxPeers, P.TableOf(T.Reached(c, before)), a).1 == None
  {
    NoPeersWithoutAdds(c, P.Init(), before);
  }

  /** A second caller of AddPeer, which the indexer does not have, could take the only listed address first. */
  lemma RivalMakesTheFirstAddFail(c: P.Config, a: Addr)
    requires c.maxPeers > 0 && c.maxFailures > 0
    ensures exists s :: W.Reachable(c, s) && AddOne(c.maxPeers, P.TableOf(s), a).1 == Some(PeerAlreadyExists)
  {
    W.FirstAdd(c, a);
    var s := W.Calm(map[a := 0], [P.NewPeer(a, false)], 1);
    assert W.Reachable(c, s) && a in P.TableOf(s).entries;
  }
}
