/** Runs that show where the exceptions in the theorems are real. */
module PeerWitness {
  import opened Wrappers
  import opened PeerTable
  import opened PeerProtocol
  import opened PeerRuns

  ghost predicate Reachable(c: Config, s: State) {
    c.maxPeers > 0 && c.maxFailures > 0 && Leads(c, Init(), s)
  }

  lemma InitReachable(c: Config)
    requires c.maxPeers > 0 && c.maxFailures > 0
    ensures Reachable(c, Init())
  {
    LeadsNowhere(c, Init());
  }

  lemma Onward(c: Config, s: State, a: Action)
    requires Reachable(c, s) && Enabled(c, s, a)
    ensures Reachable(c, Apply(c, s, a))
  {
    LeadsOn(c, Init(), s, a);
  }

  lemma OnwardTo(c: Config, s: State, a: Action, s': State)
    requires Reachable(c, s) && Enabled(c, s, a) && Apply(c, s, a) == s'
    ensures Reachable(c, s')
  {
    Onward(c, s, a);
  }

  /** A state with the given peers, nothing going on besides their loops. */
  function Calm(entries: map<Addr, nat>, peers: seq<Peer>, wg: int): State {
    State(entries, peers, Free, NotStarted, NotCalled, false, wg, false, 0)
  }

  /** The only peer's loop takes some steps. */
  lemma LoopGoesOn(c: Config, m: map<Addr, nat>, p: Peer, course: seq<Peer>)
    requires Reachable(c, Calm(m, [p], 1)) && course != [] && Course(c, p, false, course)
    ensures Reachable(c, Calm(m, [course[|course| - 1]], 1))
  {
    CourseLeads(c, Init(), Calm(m, [p], 1), 0, course);
  }

  lemma FirstAdd(c: Config, a: Addr)
    requires c.maxPeers > 0 && c.maxFailures > 0
    ensures Reachable(c, Calm(map[a := 0], [NewPeer(a, false)], 1))
  {
    InitReachable(c);
    var t := AddOne(c.maxPeers, TableOf(Init()), a).0;
    assert Addresses([]) == [];
    assert t == Table(map[a := 0], [a]);
    assert Grown([], [a], false) == [NewPeer(a, false)];
    Onward(c, Init(), AddPeer(a));
    assert Apply(c, Init(), AddPeer(a)) == Calm(map[a := 0], [NewPeer(a, false)], 1);
  }

  function Dialing(a: Addr): Peer {
    NewPeer(a, false).(pc := InDial, status := Connecting)
  }

  /** A first dial under way. */
  lemma FirstDial(c: Config, a: Addr)
    requires c.maxPeers > 0 && c.maxFailures > 0
    ensures Reachable(c, Calm(map[a := 0], [Dialing(a)], 1))
  {
    FirstAdd(c, a);
    var p := NewPeer(a, false);
    var p1 := p.(pc := CheckContext);
    var p2 := p.(pc := MarkConnecting);
    var p3 := p.(pc := CallDial, status := Connecting);
    LoopGoesOn(c, map[a := 0], p, [p1, p2, p3, Dialing(a)]);
  }

  /** removePeer on the only peer, which has no connection, stage by stage. */
  function Removing(a: Addr, p: Peer, stage: Stage): State {
    Calm(map[a := 0], [p], 1).(crit := Work(User, {a}, stage))
  }

  lemma RemovalSteps(c: Config, a: Addr, p: Peer)
    requires p.address == a && p.conn.None?
    ensures var q, s1 := Cancelled(p), Removing(a, p, Between);
            Enabled(c, s1, WorkLookup(a)) && Apply(c, s1, WorkLookup(a)) == Removing(a, q, Reading(0))
    ensures var q, s2 := Cancelled(p), Removing(a, Cancelled(p), Reading(0));
            Enabled(c, s2, WorkRead) && Apply(c, s2, WorkRead) == Removing(a, q, Deleting(0))
  {
    assert [p][0 := Cancelled(p)] == [Cancelled(p)];
  }

  function OffTheMap(q: Peer): Peer {
    q.(mapFarewells := q.mapFarewells + 1)
  }

  lemma RemovalEnds(c: Config, a: Addr, q: Peer)
    requires q.address == a
    ensures var s3 := Removing(a, q, Deleting(0));
            && Enabled(c, s3, WorkDelete)
            && Apply(c, s3, WorkDelete) == Calm(map[], [OffTheMap(q)], 1).(crit := Work(User, {}, Between))
  {
    assert map[a := 0 as nat] - {a} == map[] && {a} - {a} == {} && [q][0 := OffTheMap(q)] == [OffTheMap(q)];
  }

  lemma LockReleased(c: Config, s: State)
    requires Reachable(c, s.(crit := Work(User, {}, Between))) && s.crit.Free?
    ensures Reachable(c, s)
  {
    OnwardTo(c, s.(crit := Work(User, {}, Between)), WorkEnds, s);
  }

  lemma RemovalReaches(c: Config, a: Addr, p: Peer)
    requires Reachable(c, Calm(map[a := 0], [p], 1)) && p.address == a && p.conn.None?
    ensures Reachable(c, Removing(a, Cancelled(p), Deleting(0)))
  {
    RemovalSteps(c, a, p);
    OnwardTo(c, Calm(map[a := 0], [p], 1), UserRemove(a), Removing(a, p, Between));
    OnwardTo(c, Removing(a, p, Between), WorkLookup(a), Removing(a, Cancelled(p), Reading(0)));
    OnwardTo(c, Removing(a, Cancelled(p), Reading(0)), WorkRead, Removing(a, Cancelled(p), Deleting(0)));
  }

  lemma RemoveOnly(c: Config, a: Addr, p: Peer)
    requires Reachable(c, Calm(map[a := 0], [p], 1)) && p.address == a && p.conn.None?
    ensures Reachable(c, Calm(map[], [OffTheMap(Cancelled(p))], 1))
  {
    RemovalReaches(c, a, p);
    var s := Calm(map[], [OffTheMap(Cancelled(p))], 1);
    RemovalEnds(c, a, Cancelled(p));
    OnwardTo(c, Removing(a, Cancelled(p), Deleting(0)), WorkDelete, s.(crit := Work(User, {}, Between)));
    LockReleased(c, s);
  }

  /**
   A peer removed while it was being dialed can end up connected, off the map and never told to disconnect:
   the exception of CancelledLoopsLetGo happens.
   */
  lemma RemovedPeerStaysConnected(c: Config, a: Addr)
    requires c.maxPeers > 0 && c.maxFailures > 0
    ensures exists p: Peer ::
      && Reachable(c, Calm(map[], [p], 1))
      && p.address == a && p.pc.AwaitDisconnect? && p.status == Status.Connected
      && p.cancelledAt == Some(InDial) && p.conn == Some(Conn(0, false, false))
  {
    FirstDial(c, a);
    var p := Dialing(a);
    RemoveOnly(c, a, p);
    var q := OffTheMap(Cancelled(p));
    DialLeads(c, Init(), Calm(map[], [q], 1), 0);
    assert WithLoopAt(Calm(map[], [q], 1), 0, Settled(AfterSuccess(q))) == Calm(map[], [Settled(AfterSuccess(q))], 1);
  }

  function AfterFailure(p: Peer): Peer {
    p.(pc := WantEvictLock, status := Disconnected, dials := p.dials + [false], failures := p.failures + 1)
  }

  /** A dial that fails is counted, and at the threshold the loop asks for the lock. */
  lemma FailureCounts(c: Config, m: map<Addr, nat>, p: Peer)
    requires Reachable(c, Calm(m, [p], 1)) && p.pc.InDial? && p.failures + 1 >= c.maxFailures
    ensures Reachable(c, Calm(m, [AfterFailure(p)], 1))
  {
    var p1 := p.(pc := MarkFailed, dials := p.dials + [false]);
    var p2 := p1.(pc := CountFailure, status := Disconnected);
    var p3 := p2.(pc := CheckThreshold, failures := p.failures + 1);
    LoopGoesOn(c, m, p, [p1, p2, p3, AfterFailure(p)]);
  }

  /** A dial that failed once too often, the loop asking for the lock to evict its peer. */
  lemma FirstFailure(a: Addr)
    ensures Reachable(Config(2, 1), Calm(map[a := 0], [AfterFailure(Dialing(a))], 1))
  {
    FirstDial(Config(2, 1), a);
    FailureCounts(Config(2, 1), map[a := 0], Dialing(a));
  }

  lemma AddAgain(c: Config, a: Addr, q: Peer)
    requires Reachable(c, Calm(map[], [q], 1)) && q.address == a && c.maxPeers > 0
    ensures Reachable(c, Calm(map[a := 1], [q, NewPeer(a, false)], 2))
  {
    var s, n := Calm(map[], [q], 1), NewPeer(a, false);
    assert Addresses([q]) == [a];
    assert AddOne(c.maxPeers, TableOf(s), a).0 == Table(map[a := 1], [a, a]) by { assert [a] + [a] == [a, a]; }
    assert Grown([q], [a, a], false) == [q, n];
    OnwardTo(c, s, AddPeer(a), Calm(map[a := 1], [q, n], 2));
  }

  /**
   If the address is removed and added again before a failing loop gets the lock, the loop's eviction takes
   away the new peer: it cancels peer 1 although loop 0 is the one that failed.
   */
  lemma EvictionHitsTheNewcomer(a: Addr)
    ensures exists s: State ::
      && Reachable(Config(2, 1), s)
      && s.crit == Work(Loop(0), {a}, Reading(1))
      && |s.peers| == 2 && s.peers[1].cancelled && s.peers[1].failures == 0
  {
    var c, p := Config(2, 1), AfterFailure(Dialing(a));
    FirstFailure(a);
    RemoveOnly(c, a, p);
    var q, n := OffTheMap(Cancelled(p)), NewPeer(a, false);
    AddAgain(c, a, q);
    var s1 := Calm(map[a := 1], [q, n], 2);
    var s2 := TakeEvictLock(s1, 0);
    OnwardTo(c, s1, LoopStep(0, Fails), s2);
    Onward(c, s2, WorkLookup(a));
    assert LookUp(s2, a).peers[1] == Cancelled(n);
  }
}
