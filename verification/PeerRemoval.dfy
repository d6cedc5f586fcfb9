/**
 What becomes of a peer that leaves the map: it never comes back, the health check misses none that it should
 take away, and a removal leaves a connection behind exactly when it met the loop inside the dial.
 */
module PeerRemoval {
  import opened PeerTable
  import opened PeerProtocol
  import opened PeerInvariant
  import opened PeerTheorems
  import opened PeerRuns

  lemma OthersKeepPc(c: Config, s: State, a: Action, i: nat)
    requires Enabled(c, s, a) && !(a.LoopStep? && a.id == i) && i < |Apply(c, s, a).peers|
    ensures var p := Apply(c, s, a).peers[i];
            if i < |s.peers| then p.pc == s.peers[i].pc || p.pc.Returned? else p.pc.CheckDone?
  {
    if i < |s.peers| {
      assert Apply(c, s, a).peers[i].pc == s.peers[i].pc || Apply(c, s, a).peers[i].pc.Returned?;
    } else {
      assert a.AddPeer? || a.AddDiscovered?;
    }
  }

  // Off the map for good

  lemma LoopKeepsAddress(c: Config, p: Peer, done: bool, choice: Choice)
    requires LoopNext(c, p, done, choice).Some?
    ensures LoopNext(c, p, done, choice).value.address == p.address
  {
  }

  /** Peers are only ever added, and keep their addresses. */
  lemma PeersRemain(c: Config, s: State, a: Action, i: nat)
    requires Enabled(c, s, a) && i < |s.peers|
    ensures i < |Apply(c, s, a).peers| && Apply(c, s, a).peers[i].address == s.peers[i].address
  {
    if a.LoopStep? {
      if !s.peers[a.id].pc.WantEvictLock? { LoopKeepsAddress(c, s.peers[a.id], s.done, a.choice); }
    } else if a.AddDiscovered? {
      DiscoveryGrows(c.maxPeers, TableOf(s), a.addrs);
    }
  }

  lemma UnmappedByGrowth(c: Config, s: State, t: Table, background: bool, i: nat)
    requires Grows(TableOf(s), t) && i < |s.peers| && !Mapped(s, i)
    ensures !Mapped(WithTable(s, t, background), i)
  {
    assert |TableOf(s).created| == |s.peers|;
  }

  lemma UnmappedByStep(c: Config, s: State, a: Action, i: nat)
    requires Enabled(c, s, a) && i < |s.peers| && !Mapped(s, i)
    ensures i < |Apply(c, s, a).peers| && !Mapped(Apply(c, s, a), i)
  {
    PeersRemain(c, s, a, i);
    match a
    case AddPeer(addr) =>
      AddGrows(c.maxPeers, TableOf(s), addr);
      UnmappedByGrowth(c, s, AddOne(c.maxPeers, TableOf(s), addr).0, false, i);
    case AddDiscovered(addrs) =>
      DiscoveryGrows(c.maxPeers, TableOf(s), addrs);
      UnmappedByGrowth(c, s, Discover(c.maxPeers, TableOf(s), addrs), true, i);
    case WorkDelete => assert Delete(s).entries.Keys <= s.entries.Keys;
    case _ => assert Apply(c, s, a).entries == s.entries;
  }

  /** A peer that left the map is never mapped again. */
  lemma {:induction false} UnmappedForGood(c: Config, s: State, actions: seq<Action>, i: nat)
    requires Inv(c, s) && Runs(c, s, actions) && i < |s.peers| && !Mapped(s, i)
    ensures i < |Run(c, s, actions).peers| && !Mapped(Run(c, s, actions), i)
    decreases |actions|
  {
    if actions != [] {
      StepKeepsInv(c, s, actions[0]);
      UnmappedByStep(c, s, actions[0], i);
      UnmappedForGood(c, Apply(c, s, actions[0]), actions[1..], i);
    }
  }

  // The health check misses nobody

  /** The check that is running has peer `i` on its list, or will put it there, as long as it is mapped. */
  predicate OnTheList(s: State, a: Addr) {
    match s.crit
    case Free => false
    case Scan(todo, marked) => a in todo || a in marked
    case Work(holder, left, _) => holder.Health? && a in left
  }

  predicate Due(c: Config, s: State, i: nat) {
    && i < |s.peers| && s.peers[i].failures == c.maxFailures
    && (Mapped(s, i) ==> OnTheList(s, s.peers[i].address))
  }

  lemma ThresholdStays(c: Config, s: State, a: Action, i: nat)
    requires c.maxFailures > 0 && Enabled(c, s, a) && i < |s.peers| && PeerOk(c, s.peers[i])
    requires s.peers[i].failures == c.maxFailures
    ensures i < |Apply(c, s, a).peers| && Apply(c, s, a).peers[i].failures == c.maxFailures
  {
    PeersRemain(c, s, a, i);
    match a
    case LoopStep(id, choice) =>
      if id == i && !s.peers[i].pc.WantEvictLock? { StepIsQuiet(c, s.peers[i], s.done, choice); }
    case AddDiscovered(_) =>
    case _ =>
  }

  lemma ListedByStep(c: Config, s: State, a: Action, i: nat)
    requires Enabled(c, s, a) && Due(c, s, i) && Mapped(s, i)
    ensures Mapped(s.(entries := Apply(c, s, a).entries), i) ==> OnTheList(Apply(c, s, a), s.peers[i].address)
  {
    match a
    case ScanOne(addr) =>
    case ScanEnds =>
    case WorkLookup(addr) =>
    case WorkDelete =>
    case WorkEnds =>
    case _ =>
  }

  lemma DueByStep(c: Config, s: State, a: Action, i: nat)
    requires Inv(c, s) && Enabled(c, s, a) && Due(c, s, i)
    ensures Due(c, Apply(c, s, a), i)
  {
    ThresholdStays(c, s, a, i);
    PeersRemain(c, s, a, i);
    if Mapped(s, i) { ListedByStep(c, s, a, i); } else { UnmappedByStep(c, s, a, i); }
  }

  lemma {:induction false} DueAlong(c: Config, s: State, actions: seq<Action>, i: nat)
    requires Inv(c, s) && Runs(c, s, actions) && Due(c, s, i)
    ensures Inv(c, Run(c, s, actions)) && Due(c, Run(c, s, actions), i)
    decreases |actions|
  {
    if actions != [] {
      StepKeepsInv(c, s, actions[0]);
      DueByStep(c, s, actions[0], i);
      DueAlong(c, Apply(c, s, actions[0]), actions[1..], i);
    }
  }

  lemma ListedWhileChecking(c: Config, s: State, i: nat)
    requires HolderOk(c, s) && Due(c, s, i)
    ensures !s.health.Checking? ==> !Mapped(s, i)
  {
  }

  /**
   Every peer that is mapped and at the threshold when a health check takes the lock is off the map when the
   check has released it, and from then on.
   */
  lemma HealthRemovesEveryExhausted(c: Config, before: seq<Action>, after: seq<Action>, i: nat)
    requires Reaches(c, before) && Enabled(c, Reached(c, before), HealthTick)
    requires var s := Reached(c, before);
             && i < |s.peers| && Mapped(s, i) && s.peers[i].failures >= c.maxFailures
             && Runs(c, Apply(c, s, HealthTick), after)
    ensures var t := Run(c, Apply(c, Reached(c, before), HealthTick), after);
            i < |t.peers| && (!t.health.Checking? ==> !Mapped(t, i))
  {
    var s := Reached(c, before);
    ReachedInv(c, before);
    assert PeerOk(c, s.peers[i]);
    StepKeepsInv(c, s, HealthTick);
    DueAlong(c, Apply(c, s, HealthTick), after, i);
    ListedWhileChecking(c, Run(c, Apply(c, s, HealthTick), after), i);
  }

  // Connections left behind

  /** A loop that waits for a connection which nobody has ended. */
  predicate Unended(p: Peer) {
    p.pc.AwaitDisconnect? && p.conn.Some? && !p.conn.value.told && !p.conn.value.dropped
  }

  /** A peer off the map whose loop waits for such a connection. */
  predicate Orphaned(s: State, i: nat) {
    i < |s.peers| && !Mapped(s, i) && Unended(s.peers[i])
  }

  /** Only the other side can end the connection of an orphan. */
  lemma OrphanStays(c: Config, s: State, a: Action, i: nat)
    requires StageOk(s) && HolderOk(c, s) && Enabled(c, s, a) && Orphaned(s, i) && a != RemoteDrop(i)
    ensures Orphaned(Apply(c, s, a), i) && Apply(c, s, a).peers[i].conn == s.peers[i].conn
  {
    UnmappedByStep(c, s, a, i);
    match a
    case AddDiscovered(_) =>
    case LoopStep(_, _) =>
    case WorkTell =>
    case WorkEnds =>
    case _ =>
  }

  /** Loops that start when `done` is closed return at their first check. */
  predicate Silent(p: Peer) {
    p.pc.CheckDone? || p.pc.Returned?
  }

  ghost predicate SilentOnceQuiet(s: State) {
    SaysQuiet(s) ==> s.done && forall i :: 0 <= i < |s.peers| ==> Silent(s.peers[i])
  }

  lemma SilentLoopStep(c: Config, p: Peer, choice: Choice)
    requires Silent(p) && LoopNext(c, p, true, choice).Some?
    ensures Silent(LoopNext(c, p, true, choice).value)
  {
  }

  lemma SilentStays(c: Config, s: State, a: Action, i: nat)
    requires Enabled(c, s, a) && s.done && i < |Apply(c, s, a).peers|
    requires i < |s.peers| ==> Silent(s.peers[i])
    ensures Silent(Apply(c, s, a).peers[i])
  {
    if i < |s.peers| && a.LoopStep? && a.id == i {
      SilentLoopStep(c, s.peers[i], a.choice);
    } else {
      OthersKeepPc(c, s, a, i);
    }
  }

  lemma SilentLoopsStaySilent(c: Config, s: State, a: Action)
    requires Enabled(c, s, a) && s.done && forall i :: 0 <= i < |s.peers| ==> Silent(s.peers[i])
    ensures Apply(c, s, a).done
    ensures forall i :: 0 <= i < |Apply(c, s, a).peers| ==> Silent(Apply(c, s, a).peers[i])
  {
    forall i | 0 <= i < |Apply(c, s, a).peers| ensures Silent(Apply(c, s, a).peers[i]) {
      SilentStays(c, s, a, i);
    }
  }

  lemma SilentByStep(c: Config, s: State, a: Action)
    requires Inv(c, s) && Enabled(c, s, a) && SilentOnceQuiet(s)
    ensures SilentOnceQuiet(Apply(c, s, a))
  {
    OnlyWaitSaysQuiet(c, s, a);
    if SaysQuiet(s) {
      SilentLoopsStaySilent(c, s, a);
    } else if SaysQuiet(Apply(c, s, a)) {
      WaitReturnsWhenQuiet(c, s);
      SilentLoopsStaySilent(c, s, a);
    }
  }

  lemma {:induction false} SilentAlong(c: Config, s: State, actions: seq<Action>)
    requires Inv(c, s) && Runs(c, s, actions) && SilentOnceQuiet(s)
    ensures SilentOnceQuiet(Run(c, s, actions))
    decreases |actions|
  {
    if actions != [] {
      StepKeepsInv(c, s, actions[0]);
      SilentByStep(c, s, actions[0]);
      SilentAlong(c, Apply(c, s, actions[0]), actions[1..]);
    }
  }

  lemma {:induction false} OrphanAlong(c: Config, s: State, actions: seq<Action>, i: nat)
    requires Inv(c, s) && Runs(c, s, actions) && Orphaned(s, i) && RemoteDrop(i) !in actions
    ensures Orphaned(Run(c, s, actions), i) && Run(c, s, actions).peers[i].conn == s.peers[i].conn
    ensures Inv(c, Run(c, s, actions))
    decreases |actions|
  {
    if actions != [] {
      assert actions[0] in actions && forall a :: a in actions[1..] ==> a in actions;
      StepKeepsInv(c, s, actions[0]);
      OrphanStays(c, s, actions[0], i);
      OrphanAlong(c, Apply(c, s, actions[0]), actions[1..], i);
    }
  }

  lemma InitSilent()
    ensures SilentOnceQuiet(Init())
  {
  }

  lemma SilentReached(c: Config, actions: seq<Action>)
    requires Reaches(c, actions)
    ensures SilentOnceQuiet(Reached(c, actions))
  {
    InitHolds(c);
    InitSilent();
    SilentAlong(c, Init(), actions);
  }

  lemma OrphanIsCounted(s: State, i: nat)
    requires Counted(s) && SilentOnceQuiet(s) && Orphaned(s, i)
    ensures s.wg > 0 && !SaysQuiet(s)
  {
    NoneLive(s.peers);
  }

  /**
   An orphan keeps its connection as long as the other side does not drop it, whatever else happens; until then
   the wait group does not come down to zero and Stop does not report success.
   */
  lemma OrphanHoldsUpStop(c: Config, before: seq<Action>, after: seq<Action>, i: nat)
    requires Reaches(c, before) && Orphaned(Reached(c, before), i)
    requires Runs(c, Reached(c, before), after) && RemoteDrop(i) !in after
    ensures var s, t := Reached(c, before), Run(c, Reached(c, before), after);
            && Orphaned(t, i) && t.peers[i].conn == s.peers[i].conn
            && t.wg > 0 && !SaysQuiet(t)
  {
    var s := Reached(c, before);
    ReachedInv(c, before);
    OrphanAlong(c, s, after, i);
    SilentReached(c, before);
    SilentAlong(c, s, after);
    OrphanIsCounted(Run(c, s, after), i);
  }

  // Exactly which removals leave an orphan

  /** A connection that nobody has ended and no canceller is about to end. */
  predicate LeftAlone(s: State, i: nat) {
    i < |s.peers| && Unended(s.peers[i]) && !BeingLetGo(s, i)
  }

  /** A cancelled loop outside the dial, whose connection, if any, is told or about to be. */
  predicate OnItsWayOut(s: State, i: nat) {
    && i < |s.peers| && s.peers[i].cancelled && !s.peers[i].pc.InDial?
    && (s.peers[i].conn.Some? && !s.peers[i].conn.value.told ==>
          s.crit.Work? && (s.crit.stage == Reading(i) || s.crit.stage == Telling(i, s.peers[i].conn.value.serial)))
  }

  lemma WayOutLoopStep(c: Config, p: Peer, done: bool, choice: Choice)
    requires LoopNext(c, p, done, choice).Some? && p.cancelled && !p.pc.InDial?
    ensures var q := LoopNext(c, p, done, choice).value;
            q.cancelled && !q.pc.InDial? && (q.conn == p.conn || q.conn.None?)
  {
  }

  lemma WayOutByLoop(c: Config, s: State, id: nat, choice: Choice, i: nat)
    requires Enabled(c, s, LoopStep(id, choice)) && OnItsWayOut(s, i)
    ensures OnItsWayOut(Apply(c, s, LoopStep(id, choice)), i)
  {
    if !s.peers[id].pc.WantEvictLock? && id == i { WayOutLoopStep(c, s.peers[i], s.done, choice); }
  }

  predicate AtWork(a: Action) {
    a.WorkLookup? || a.WorkRead? || a.WorkTell? || a.WorkDelete? || a.WorkEnds?
  }

  lemma WayOutByWork(c: Config, s: State, a: Action, i: nat)
    requires Enabled(c, s, a) && AtWork(a) && OnItsWayOut(s, i)
    ensures OnItsWayOut(Apply(c, s, a), i)
  {
    match a
    case WorkLookup(_) =>
    case WorkRead =>
    case WorkTell =>
    case WorkDelete =>
    case WorkEnds =>
  }

  lemma WayOutStays(c: Config, s: State, a: Action, i: nat)
    requires Enabled(c, s, a) && OnItsWayOut(s, i)
    ensures OnItsWayOut(Apply(c, s, a), i)
  {
    if a.LoopStep? {
      WayOutByLoop(c, s, a.id, a.choice, i);
    } else if AtWork(a) {
      WayOutByWork(c, s, a, i);
    } else {
      PeersRemain(c, s, a, i);
    }
  }

  lemma {:induction false} WayOutAlong(c: Config, s: State, actions: seq<Action>, i: nat)
    requires Runs(c, s, actions) && OnItsWayOut(s, i)
    ensures OnItsWayOut(Run(c, s, actions), i)
    decreases |actions|
  {
    if actions != [] {
      WayOutStays(c, s, actions[0], i);
      WayOutAlong(c, Apply(c, s, actions[0]), actions[1..], i);
    }
  }

  lemma WayOutEnds(c: Config, s: State, t: State, i: nat)
    requires Inv(c, s) && OnItsWayOut(s, i) && Leads(c, s, t)
    ensures !LeftAlone(t, i) && !Orphaned(t, i)
  {
    var actions :| Runs(c, s, actions) && Run(c, s, actions) == t;
    WayOutAlong(c, s, actions, i);
    RunKeepsInv(c, s, actions);
    assert StageOk(t);
  }

  /** A removal, or the round of the sweep, that meets a dialing peer passes over it. */
  lemma DialingIsPassedOver(c: Config, s0: State, s: State, i: nat)
    requires Leads(c, s0, s) && s.crit.Work? && s.crit.stage == Reading(i) && i < |s.peers| && s.peers[i].conn.None?
    ensures Leads(c, s0, Delete(ReadPointer(s)))
  {
    LeadsOn(c, s0, s, WorkRead);
    LeadsOn(c, s0, ReadPointer(s), WorkDelete);
  }

  lemma DialingIsLeftAlone(c: Config, s0: State, s: State, i: nat)
    requires Leads(c, s0, s) && s.crit.Work? && s.crit.stage == Reading(i) && i < |s.peers|
    requires s.peers[i].conn.None? && s.peers[i].pc.InDial?
    ensures exists t :: Leads(c, s0, t) && LeftAlone(t, i) && (!s.crit.holder.Stopper? ==> Orphaned(t, i))
  {
    var d := Delete(ReadPointer(s));
    DialingIsPassedOver(c, s0, s, i);
    DialLeads(c, s0, d, i);
    var t := WithLoopAt(d, i, Settled(AfterSuccess(d.peers[i])));
    assert LeftAlone(t, i);
  }

  lemma LookedUp(c: Config, s: State, a: Addr)
    requires Inv(c, s) && Enabled(c, s, WorkLookup(a)) && a in s.entries
    ensures var i, s' := s.entries[a], LookUp(s, a);
            && i < |s'.peers| == |s.peers| && s'.peers[i] == Cancelled(s.peers[i]) && s'.crit.Work?
            && s'.crit.stage == Reading(i) && s'.crit.holder == s.crit.holder
            && (s.peers[i].pc.InDial? ==> s.peers[i].conn.None?)
  {
    assert PeerOk(c, s.peers[s.entries[a]]);
  }

  /**
   Once a canceller has looked up peer `i`, the peer can end up with a connection left alone, and after a
   removal off the map with it, if and only if the lookup met its loop inside the dial.
   */
  lemma LeftAloneExactlyWhenDialing(c: Config, before: seq<Action>, a: Addr)
    requires Reaches(c, before) && Enabled(c, Reached(c, before), WorkLookup(a)) && a in Reached(c, before).entries
    ensures var s := Reached(c, before);
            var i, s' := s.entries[a], LookUp(s, a);
            && i < |s.peers|
            && ((exists t :: Leads(c, s', t) && LeftAlone(t, i)) <==> s.peers[i].pc.InDial?)
            && (!s.crit.holder.Stopper? ==>
                  ((exists t :: Leads(c, s', t) && Orphaned(t, i)) <==> s.peers[i].pc.InDial?))
  {
    var s := Reached(c, before);
    ReachedInv(c, before);
    LookedUp(c, s, a);
    StepKeepsInv(c, s, WorkLookup(a));
    var i, s' := s.entries[a], LookUp(s, a);
    if s.peers[i].pc.InDial? {
      LeadsNowhere(c, s');
      DialingIsLeftAlone(c, s', s', i);
    } else {
      forall t | Leads(c, s', t) ensures !LeftAlone(t, i) && !Orphaned(t, i) {
        WayOutEnds(c, s', t, i);
      }
    }
  }

  /** So wherever users may call, removing a peer whose loop is dialing can leave its connection behind. */
  lemma RemovingADialingPeerCanOrphanIt(c: Config, before: seq<Action>, i: nat)
    requires Reaches(c, before)
    requires var s := Reached(c, before);
             s.crit.Free? && UsersAllowed(s) && i < |s.peers| && Mapped(s, i) && s.peers[i].pc.InDial?
    ensures exists t :: Leads(c, Reached(c, before), t) && Orphaned(t, i)
  {
    var s := Reached(c, before);
    var a := s.peers[i].address;
    ReachedInv(c, before);
    StepKeepsInv(c, s, UserRemove(a));
    var s1 := Apply(c, s, UserRemove(a));
    LookedUp(c, s1, a);
    LeadsNowhere(c, s);
    LeadsOn(c, s, s, UserRemove(a));
    LeadsOn(c, s, s1, WorkLookup(a));
    DialingIsLeftAlone(c, s, LookUp(s1, a), i);
  }
}
