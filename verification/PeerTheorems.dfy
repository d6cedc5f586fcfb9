/** What the invariant says about every state that any interleaving can reach. */
module PeerTheorems {
  import opened PeerTable
  import opened PeerProtocol
  import opened PeerInvariant

  ghost predicate Reaches(c: Config, actions: seq<Action>) {
    c.maxPeers > 0 && c.maxFailures > 0 && Runs(c, Init(), actions)
  }

  function Reached(c: Config, actions: seq<Action>): State
    requires Runs(c, Init(), actions)
  {
    Run(c, Init(), actions)
  }

  lemma ReachedInv(c: Config, actions: seq<Action>)
    requires Reaches(c, actions)
    ensures Inv(c, Reached(c, actions))
  {
    InitHolds(c);
    RunKeepsInv(c, Init(), actions);
  }

  /**
   The pointer is there when the loop queues getaddr and waits for the disconnect, whenever the status is
   Connected, and gone once the loop has returned.
   */
  lemma PointerSafety(c: Config, actions: seq<Action>, i: nat)
    requires Reaches(c, actions) && i < |Reached(c, actions).peers|
    ensures var p := Reached(c, actions).peers[i];
            && (p.pc.AskAddresses? || p.pc.AwaitDisconnect? ==> p.conn.Some?)
            && (p.status == Status.Connected ==> p.conn.Some?)
            && p.status == StatusAt(p.pc)
            && (p.pc.Returned? ==> p.conn.None?)
  {
    ReachedInv(c, actions);
    assert PeerOk(c, Reached(c, actions).peers[i]);
  }

  /** A dial has ended and its outcome is not yet in the counter. */
  predicate Booking(pc: Pc) {
    match pc
    case MarkFailed => true
    case CountFailure => true
    case MarkConnected => true
    case ResetFailures => true
    case _ => false
  }

  predicate GivingUp(pc: Pc) {
    match pc
    case CheckThreshold => true
    case WantEvictLock => true
    case Evicting => true
    case _ => false
  }

  /**
   The failure count is the number of consecutive failed dials, except while the last outcome is being
   booked; it never passes the threshold; and a mapped peer at the threshold has its loop between counting
   the failure and evicting itself.
   */
  lemma FailureAccounting(c: Config, actions: seq<Action>, i: nat)
    requires Reaches(c, actions) && i < |Reached(c, actions).peers|
    ensures var s := Reached(c, actions);
            var p := s.peers[i];
            && p.failures <= c.maxFailures
            && (!Booking(p.pc) ==> p.failures == TrailingFails(p.dials))
            && (Mapped(s, i) && p.failures >= c.maxFailures ==> GivingUp(p.pc))
  {
    ReachedInv(c, actions);
    var s := Reached(c, actions);
    assert PeerOk(c, s.peers[i]) && MapOk(c, s, i);
  }

  /** The health check finds on the map, and cancels, only peers that are giving up anyway. */
  lemma HealthRemovesOnlyExhausted(c: Config, actions: seq<Action>, a: Addr)
    requires Reaches(c, actions)
    requires var s := Reached(c, actions); s.crit.Work? && s.crit.holder.Health? && a in s.crit.left
    ensures var s := Reached(c, actions);
            && a in s.entries && s.entries[a] < |s.peers|
            && s.peers[s.entries[a]].failures == c.maxFailures
            && GivingUp(s.peers[s.entries[a]].pc)
  {
    ReachedInv(c, actions);
    var s := Reached(c, actions);
    assert HolderOk(c, s);
    var i := s.entries[a];
    assert PeerOk(c, s.peers[i]) && MapOk(c, s, i);
    assert TableOf(s).created[i] == a;
  }

  /**
   With all listeners set: the loop announces disconnects one for one, at most one behind the connects, and
   with the callback of removePeer there is at most one disconnect more than there were connects.
   */
  lemma CallbackConservation(c: Config, actions: seq<Action>, i: nat)
    requires Reaches(c, actions) && i < |Reached(c, actions).peers|
    ensures var s := Reached(c, actions);
            var p := s.peers[i];
            && p.loopFarewells <= p.connects <= p.loopFarewells + 1
            && p.loopFarewells + p.mapFarewells <= p.connects + 1
            && p.mapFarewells == (if Mapped(s, i) then 0 else 1)
  {
    ReachedInv(c, actions);
    var s := Reached(c, actions);
    assert PeerOk(c, s.peers[i]) && MapOk(c, s, i);
  }

  /** The wait group counts the connection loops and the health loop that have not returned. */
  lemma WaitGroupAccounting(c: Config, actions: seq<Action>)
    requires Reaches(c, actions)
    ensures var s := Reached(c, actions); s.wg == Live(s.peers) + HealthLive(s)
  {
    ReachedInv(c, actions);
  }

  /** Until Stop is called every mapped peer whose context is alive has its loop running. */
  lemma MappedLoopsRun(c: Config, actions: seq<Action>, i: nat)
    requires Reaches(c, actions) && i < |Reached(c, actions).peers|
    ensures var s := Reached(c, actions);
            !s.done && Mapped(s, i) && !s.peers[i].cancelled ==> !s.peers[i].pc.Returned?
  {
    ReachedInv(c, actions);
    assert MapOk(c, Reached(c, actions), i);
  }

  // Stop

  ghost predicate AllReturned(s: State) {
    && (forall i :: 0 <= i < |s.peers| ==> s.peers[i].pc.Returned?)
    && HealthLive(s) == 0
  }

  lemma {:induction false} NoneLive(peers: seq<Peer>)
    ensures Live(peers) == 0 <==> forall i :: 0 <= i < |peers| ==> peers[i].pc.Returned?
    decreases |peers|
  {
    if peers != [] {
      var n := |peers| - 1;
      NoneLive(peers[..n]);
      assert forall i :: 0 <= i < n ==> peers[..n][i] == peers[i];
    }
  }

  lemma {:induction false} RunOneMore(c: Config, s: State, actions: seq<Action>, a: Action)
    requires Runs(c, s, actions)
    ensures Runs(c, s, actions + [a]) <==> Enabled(c, Run(c, s, actions), a)
    ensures Enabled(c, Run(c, s, actions), a) ==> Run(c, s, actions + [a]) == Apply(c, Run(c, s, actions), a)
    decreases |actions|
  {
    if actions == [] {
      assert actions + [a] == [a] && [a][1..] == [];
    } else {
      assert (actions + [a])[1..] == actions[1..] + [a];
      RunOneMore(c, Apply(c, s, actions[0]), actions[1..], a);
    }
  }

  lemma {:induction false} RunsPrefix(c: Config, s: State, actions: seq<Action>, a: Action)
    requires Runs(c, s, actions + [a])
    ensures Runs(c, s, actions)
    decreases |actions|
  {
    if actions != [] {
      assert (actions + [a])[1..] == actions[1..] + [a];
      RunsPrefix(c, Apply(c, s, actions[0]), actions[1..], a);
    }
  }

  /** Some earlier instant of the run at which no loop was alive. */
  ghost predicate WasQuiet(c: Config, actions: seq<Action>) {
    exists k :: 0 <= k <= |actions| && Runs(c, Init(), actions[..k]) && AllReturned(Reached(c, actions[..k]))
  }

  lemma WaitReturnsWhenQuiet(c: Config, s: State)
    requires Inv(c, s) && s.wg == 0
    ensures AllReturned(s)
  {
    NoneLive(s.peers);
  }

  /** wg.Wait has returned, or Stop has reported success. */
  predicate SaysQuiet(s: State) {
    s.waitReturned || s.stop.Succeeded?
  }

  lemma OnlyWaitSaysQuiet(c: Config, s: State, a: Action)
    requires Enabled(c, s, a)
    ensures SaysQuiet(Apply(c, s, a)) ==> SaysQuiet(s) || s.wg == 0
  {
  }

  lemma QuietStaysQuiet(c: Config, actions: seq<Action>, a: Action)
    requires WasQuiet(c, actions)
    ensures WasQuiet(c, actions + [a])
  {
    var k :| 0 <= k <= |actions| && Runs(c, Init(), actions[..k]) && AllReturned(Reached(c, actions[..k]));
    assert (actions + [a])[..k] == actions[..k];
  }

  lemma QuietNow(c: Config, actions: seq<Action>)
    requires Reaches(c, actions) && Reached(c, actions).wg == 0
    ensures WasQuiet(c, actions)
  {
    ReachedInv(c, actions);
    WaitReturnsWhenQuiet(c, Reached(c, actions));
    assert actions[..|actions|] == actions;
  }

  /** Stop reports success only after an instant at which every loop had returned. */
  lemma {:induction false} StopSucceedsOnlyAfterQuiet(c: Config, actions: seq<Action>)
    requires Reaches(c, actions)
    ensures SaysQuiet(Reached(c, actions)) ==> WasQuiet(c, actions)
    decreases |actions|
  {
    if actions != [] && SaysQuiet(Reached(c, actions)) {
      var init, a := actions[..|actions| - 1], actions[|actions| - 1];
      assert actions == init + [a];
      RunsPrefix(c, Init(), init, a);
      RunOneMore(c, Init(), init, a);
      OnlyWaitSaysQuiet(c, Reached(c, init), a);
      StopSucceedsOnlyAfterQuiet(c, init);
      if Reached(c, init).wg == 0 { QuietNow(c, init); }
      QuietStaysQuiet(c, init, a);
    }
  }

  // Cancellation

  /** The holder of the lock has read, or is about to read, the connection of peer `i`. */
  predicate BeingLetGo(s: State, i: nat) {
    s.crit.Work? && (s.crit.stage.Reading? || s.crit.stage.Telling?) && s.crit.stage.id == i
  }

  /**
   A loop cancelled by removePeer or Stop stores at most one more connection, and only if the cancellation
   met it inside the dial. In every other case, once the canceller is past it, a connection it still has was
   told to disconnect.
   */
  lemma CancelledLoopsLetGo(c: Config, actions: seq<Action>, i: nat)
    requires Reaches(c, actions) && i < |Reached(c, actions).peers|
    requires Reached(c, actions).peers[i].cancelledAt.Some?
    ensures var s := Reached(c, actions);
            var p := s.peers[i];
            && p.setsAfterCancel <= (if p.cancelledAt.value.InDial? then 1 else 0)
            && (p.conn.Some? && !p.conn.value.told && !BeingLetGo(s, i) ==> p.cancelledAt.value.InDial?)
  {
    ReachedInv(c, actions);
    var s := Reached(c, actions);
    assert PeerOk(c, s.peers[i]) && UntoldOk(s, i);
  }

  /**
   Once the sweep of Stop is over, every loop there was when it began has been cancelled, by the sweep or by
   an earlier removal; what such a loop still waits for is told to end, or was being dialed when cancelled.
   */
  lemma SweptLoopsLetGo(c: Config, actions: seq<Action>, i: nat)
    requires Reaches(c, actions) && SweepOver(Reached(c, actions)) && i < Reached(c, actions).swept
    ensures var s := Reached(c, actions);
            && i < |s.peers| && s.peers[i].cancelledAt.Some?
            && (s.peers[i].conn.Some? && !BeingLetGo(s, i) ==>
                  s.peers[i].conn.value.told || s.peers[i].cancelledAt.value.InDial?)
  {
    ReachedInv(c, actions);
    CancelledLoopsLetGo(c, actions, i);
  }

  /** Only peers that a removal or Stop has cancelled are told to disconnect. */
  ghost predicate ToldOk(s: State) {
    forall i :: 0 <= i < |s.peers| ==> ToldImpliesCancelled(s.peers[i])
  }

  lemma LoopKeepsTold(c: Config, p: Peer, done: bool, choice: Choice)
    requires LoopNext(c, p, done, choice).Some?
    ensures var q := LoopNext(c, p, done, choice).value;
            q.cancelledAt == p.cancelledAt && (q.conn.Some? && q.conn.value.told ==> p.conn.Some? && p.conn.value.told)
  {
    match p.pc
    case InDial =>
    case ClearPointer =>
    case _ =>
  }

  predicate ToldImpliesCancelled(p: Peer) {
    p.conn.Some? && p.conn.value.told ==> p.cancelledAt.Some?
  }

  lemma ToldByTelling(c: Config, s: State, i: nat)
    requires StageOk(s) && Enabled(c, s, WorkTell) && i < |s.peers| && ToldImpliesCancelled(s.peers[i])
    ensures ToldImpliesCancelled(Tell(s).peers[i])
  {
  }

  lemma ToldByWork(c: Config, s: State, a: Action, i: nat)
    requires Enabled(c, s, a) && (a.WorkLookup? || a.WorkRead? || a.WorkDelete? || a.WorkEnds?)
    requires i < |s.peers| && ToldImpliesCancelled(s.peers[i])
    ensures |Apply(c, s, a).peers| == |s.peers| && ToldImpliesCancelled(Apply(c, s, a).peers[i])
  {
    match a
    case WorkLookup(_) =>
    case WorkRead =>
    case WorkDelete =>
    case WorkEnds =>
  }

  lemma ToldByTable(c: Config, s: State, a: Action, i: nat)
    requires Enabled(c, s, a) && (a.AddPeer? || a.AddDiscovered?) && i < |Apply(c, s, a).peers|
    requires i < |s.peers| ==> ToldImpliesCancelled(s.peers[i])
    ensures ToldImpliesCancelled(Apply(c, s, a).peers[i])
  {
  }

  lemma ToldByPeer(c: Config, s: State, a: Action, i: nat)
    requires Enabled(c, s, a) && (a.RemoteDrop? || a.ContextEnds?)
    requires i < |s.peers| && ToldImpliesCancelled(s.peers[i])
    ensures |Apply(c, s, a).peers| == |s.peers| && ToldImpliesCancelled(Apply(c, s, a).peers[i])
  {
  }

  lemma OthersKeepPeers(c: Config, s: State, a: Action)
    requires Enabled(c, s, a) && !a.LoopStep? && !a.AddPeer? && !a.AddDiscovered? && !a.RemoteDrop? && !a.ContextEnds?
    requires !a.WorkLookup? && !a.WorkRead? && !a.WorkTell? && !a.WorkDelete? && !a.WorkEnds?
    ensures Apply(c, s, a).peers == s.peers
  {
  }

  lemma ToldByLoop(c: Config, s: State, id: nat, choice: Choice, i: nat)
    requires Enabled(c, s, LoopStep(id, choice)) && i < |s.peers| && ToldImpliesCancelled(s.peers[i])
    ensures ToldImpliesCancelled(Apply(c, s, LoopStep(id, choice)).peers[i])
  {
    if !s.peers[id].pc.WantEvictLock? { LoopKeepsTold(c, s.peers[id], s.done, choice); }
  }

  lemma ToldByStep(c: Config, s: State, a: Action, i: nat)
    requires StageOk(s) && Enabled(c, s, a) && i < |Apply(c, s, a).peers|
    requires i < |s.peers| ==> ToldImpliesCancelled(s.peers[i])
    ensures ToldImpliesCancelled(Apply(c, s, a).peers[i])
  {
    if a.LoopStep? {
      ToldByLoop(c, s, a.id, a.choice, i);
    } else if a.WorkTell? {
      ToldByTelling(c, s, i);
    } else if a.WorkLookup? || a.WorkRead? || a.WorkDelete? || a.WorkEnds? {
      ToldByWork(c, s, a, i);
    } else if a.AddPeer? || a.AddDiscovered? {
      ToldByTable(c, s, a, i);
    } else if a.RemoteDrop? || a.ContextEnds? {
      ToldByPeer(c, s, a, i);
    } else {
      OthersKeepPeers(c, s, a);
    }
  }

  lemma {:induction false} ToldAlong(c: Config, s: State, actions: seq<Action>)
    requires ToldOk(s) && Inv(c, s) && Runs(c, s, actions)
    ensures ToldOk(Run(c, s, actions))
    decreases |actions|
  {
    if actions != [] {
      var s' := Apply(c, s, actions[0]);
      assert StageOk(s);
      StepKeepsInv(c, s, actions[0]);
      forall i | 0 <= i < |s'.peers| ensures ToldImpliesCancelled(s'.peers[i]) { ToldByStep(c, s, actions[0], i); }
      ToldAlong(c, s', actions[1..]);
    }
  }

  lemma InitTold()
    ensures ToldOk(Init())
  {
  }

  /** A connection is told to end only when its peer was cancelled by a removal or by Stop. */
  lemma ToldOnlyWhenCancelled(c: Config, actions: seq<Action>, i: nat)
    requires Reaches(c, actions) && i < |Reached(c, actions).peers|
    ensures var p := Reached(c, actions).peers[i];
            p.conn.Some? && p.conn.value.told ==> p.cancelledAt.Some?
  {
    InitHolds(c);
    InitTold();
    ToldAlong(c, Init(), actions);
  }

  // Start before Stop

  lemma StartedByStep(c: Config, s: State, a: Action)
    requires Enabled(c, s, a) && (s.done ==> !s.health.NotStarted?)
    ensures Apply(c, s, a).done ==> !Apply(c, s, a).health.NotStarted?
  {
  }

  lemma {:induction false} StartedAlong(c: Config, s: State, actions: seq<Action>)
    requires Runs(c, s, actions) && (s.done ==> !s.health.NotStarted?)
    ensures Run(c, s, actions).done ==> !Run(c, s, actions).health.NotStarted?
    decreases |actions|
  {
    if actions != [] {
      StartedByStep(c, s, actions[0]);
      StartedAlong(c, Apply(c, s, actions[0]), actions[1..]);
    }
  }

  /** `done` is closed only by a Stop of a client that was started. */
  lemma StoppedOnlyAfterStart(c: Config, actions: seq<Action>)
    requires Reaches(c, actions)
    ensures var s := Reached(c, actions);
            && (s.done <==> !s.stop.NotCalled?)
            && (s.done ==> !s.health.NotStarted?)
  {
    ReachedInv(c, actions);
    StartedAlong(c, Init(), actions);
  }

  // The map

  /** At most maxPeers entries, each under its own address and the newest peer made for it. */
  lemma MapInvariant(c: Config, actions: seq<Action>)
    requires Reaches(c, actions)
    ensures var s := Reached(c, actions);
            && |s.entries| <= c.maxPeers
            && forall a :: a in s.entries ==>
                 && s.entries[a] < |s.peers| && s.peers[s.entries[a]].address == a
                 && forall j :: s.entries[a] < j < |s.peers| ==> s.peers[j].address != a
  {
    ReachedInv(c, actions);
    var s := Reached(c, actions);
    assert forall j :: 0 <= j < |s.peers| ==> TableOf(s).created[j] == s.peers[j].address;
  }

  /** A peer with a loop that has not begun. */
  predicate JustMade(p: Peer, a: Addr, background: bool) {
    && p.address == a && p.background == background && p.pc.CheckDone? && p.status == Status.Disconnected
    && p.failures == 0 && p.conn.None? && !p.cancelled
  }

  /** AddPeer on a known address or a full map changes nothing; else it maps and counts one new loop. */
  lemma AddInRun(c: Config, before: seq<Action>, a: Addr)
    requires Reaches(c, before) && Enabled(c, Reached(c, before), AddPeer(a))
    ensures var s, t := Reached(c, before), Apply(c, Reached(c, before), AddPeer(a));
            if a in s.entries || |s.entries| == c.maxPeers then t == s
            else
              && |t.peers| == |s.peers| + 1 && t.peers[..|s.peers|] == s.peers
              && JustMade(t.peers[|s.peers|], a, false)
              && t == s.(peers := t.peers, entries := s.entries[a := |s.peers|], wg := s.wg + 1)
  {
    var s := Reached(c, before);
    MapInvariant(c, before);
    var r := AddOne(c.maxPeers, TableOf(s), a).0;
    if r == TableOf(s) { assert Grown(s.peers, r.created, false) == s.peers; }
  }

  lemma DiscoveryTable(c: Config, s: State, addrs: seq<Addr>, news: seq<Addr>, n: nat)
    requires TableOk(c, s) && news == NewOnes(s.entries.Keys, addrs)
    requires |s.entries| <= c.maxPeers && n == Min(c.maxPeers - |s.entries|, |news|)
    ensures n <= |news|
    ensures var r := Discover(c.maxPeers, TableOf(s), addrs);
            && |r.created| == |s.peers| + n && (forall i :: 0 <= i < n ==> r.created[|s.peers| + i] == news[i])
            && (forall a :: a in s.entries ==> a in r.entries && r.entries[a] == s.entries[a])
            && |r.entries| == Min(c.maxPeers, |s.entries.Keys + PeerTable.Listed(addrs)|)
  {
    DiscoveryAddsTheFirstNew(c.maxPeers, TableOf(s), addrs);
    assert |TableOf(s).created| == |s.peers|;
  }

  /** `t` is `s` with one loop just made for each of the first `n` of `news`. */
  ghost predicate Discovered(s: State, t: State, news: seq<Addr>, n: nat) {
    && n <= |news| && |t.peers| == |s.peers| + n && t.wg == s.wg + n && t.crit == s.crit
    && (forall i :: 0 <= i < |s.peers| ==> t.peers[i] == s.peers[i])
    && (forall i :: 0 <= i < n ==> JustMade(t.peers[|s.peers| + i], news[i], true))
    && (forall a :: a in s.entries ==> a in t.entries && t.entries[a] == s.entries[a])
  }

  lemma TableDiscovered(s: State, r: Table, news: seq<Addr>, n: nat)
    requires n <= |news| && |r.created| == |s.peers| + n
    requires forall i :: 0 <= i < n ==> r.created[|s.peers| + i] == news[i]
    requires forall a :: a in s.entries ==> a in r.entries && r.entries[a] == s.entries[a]
    ensures Discovered(s, WithTable(s, r, true), news, n)
  {
    var t := WithTable(s, r, true);
    forall i | 0 <= i < n ensures JustMade(t.peers[|s.peers| + i], news[i], true) {
      assert t.peers[|s.peers| + i] == NewPeer(r.created[|s.peers| + i], true);
    }
  }

  lemma DiscoveryOn(c: Config, s: State, addrs: seq<Addr>, news: seq<Addr>, n: nat)
    requires TableOk(c, s) && news == NewOnes(s.entries.Keys, addrs)
    requires |s.entries| <= c.maxPeers && n == Min(c.maxPeers - |s.entries|, |news|)
    requires Enabled(c, s, AddDiscovered(addrs))
    ensures Discovered(s, Apply(c, s, AddDiscovered(addrs)), news, n)
    ensures |Apply(c, s, AddDiscovered(addrs)).entries| == Min(c.maxPeers, |s.entries.Keys + PeerTable.Listed(addrs)|)
  {
    DiscoveryTable(c, s, addrs, news, n);
    TableDiscovered(s, Discover(c.maxPeers, TableOf(s), addrs), news, n);
  }

  /**
   An addr message maps exactly the first new addresses there is room for, in order, each with one new loop whose
   context no caller can end, and leaves the peers it finds.
   */
  lemma DiscoveryInRun(c: Config, before: seq<Action>, addrs: seq<Addr>, news: seq<Addr>, n: nat)
    requires Reaches(c, before) && Enabled(c, Reached(c, before), AddDiscovered(addrs))
    requires var s := Reached(c, before);
             && news == NewOnes(s.entries.Keys, addrs) && |s.entries| <= c.maxPeers
             && n == Min(c.maxPeers - |s.entries|, |news|)
    ensures var s, t := Reached(c, before), Apply(c, Reached(c, before), AddDiscovered(addrs));
            && Discovered(s, t, news, n)
            && |t.entries| == Min(c.maxPeers, |s.entries.Keys + PeerTable.Listed(addrs)|)
  {
    ReachedInv(c, before);
    DiscoveryOn(c, Reached(c, before), addrs, news, n);
  }

  /** Addresses may arrive from a peer that is being dialed, and from any that a dial has reached. */
  lemma AddressesMayArrive(c: Config, s: State, addrs: seq<Addr>, i: nat)
    requires s.crit.Free? && i < |s.peers|
    requires s.peers[i].pc.InDial? || true in s.peers[i].dials
    ensures Enabled(c, s, AddDiscovered(addrs))
  {
    assert Talks(s.peers[i]);
  }

  // Contexts

  /** The context of a discovered peer is ended by removePeer or Stop only. */
  ghost predicate ContextsOk(s: State) {
    forall i :: 0 <= i < |s.peers| ==> EndedByCanceller(s.peers[i])
  }

  lemma LoopKeepsContext(c: Config, p: Peer, done: bool, choice: Choice)
    requires LoopNext(c, p, done, choice).Some?
    ensures var q := LoopNext(c, p, done, choice).value;
            q.background == p.background && q.cancelled == p.cancelled && q.cancelledAt == p.cancelledAt
  {
  }

  predicate EndedByCanceller(p: Peer) {
    p.background && p.cancelled ==> p.cancelledAt.Some?
  }

  lemma ContextByLoop(c: Config, s: State, id: nat, choice: Choice, i: nat)
    requires Enabled(c, s, LoopStep(id, choice)) && i < |s.peers| && EndedByCanceller(s.peers[i])
    ensures EndedByCanceller(Apply(c, s, LoopStep(id, choice)).peers[i])
  {
    if !s.peers[id].pc.WantEvictLock? { LoopKeepsContext(c, s.peers[id], s.done, choice); }
  }

  lemma ContextByWork(c: Config, s: State, a: Action, i: nat)
    requires Enabled(c, s, a) && (a.WorkLookup? || a.WorkRead? || a.WorkTell? || a.WorkDelete? || a.WorkEnds?)
    requires i < |s.peers| && EndedByCanceller(s.peers[i])
    ensures |Apply(c, s, a).peers| == |s.peers| && EndedByCanceller(Apply(c, s, a).peers[i])
  {
    match a
    case WorkLookup(_) =>
    case WorkRead =>
    case WorkTell =>
    case WorkDelete =>
    case WorkEnds =>
  }

  lemma ContextByOther(c: Config, s: State, a: Action, i: nat)
    requires Enabled(c, s, a) && !a.LoopStep? && i < |Apply(c, s, a).peers|
    requires i < |s.peers| ==> EndedByCanceller(s.peers[i])
    ensures EndedByCanceller(Apply(c, s, a).peers[i])
  {
    if a.AddPeer? || a.AddDiscovered? {
    } else if a.ContextEnds? || a.RemoteDrop? {
    } else if a.WorkLookup? || a.WorkRead? || a.WorkTell? || a.WorkDelete? || a.WorkEnds? {
      ContextByWork(c, s, a, i);
    } else {
      OthersKeepPeers(c, s, a);
    }
  }

  lemma ContextsByStep(c: Config, s: State, a: Action)
    requires ContextsOk(s) && Enabled(c, s, a)
    ensures ContextsOk(Apply(c, s, a))
  {
    forall i | 0 <= i < |Apply(c, s, a).peers| ensures EndedByCanceller(Apply(c, s, a).peers[i]) {
      if a.LoopStep? { ContextByLoop(c, s, a.id, a.choice, i); } else { ContextByOther(c, s, a, i); }
    }
  }

  lemma {:induction false} ContextsAlong(c: Config, s: State, actions: seq<Action>)
    requires ContextsOk(s) && Runs(c, s, actions)
    ensures ContextsOk(Run(c, s, actions))
    decreases |actions|
  {
    if actions != [] {
      ContextsByStep(c, s, actions[0]);
      ContextsAlong(c, Apply(c, s, actions[0]), actions[1..]);
    }
  }

  /** A discovered peer is cancelled only by a removal or by Stop; a loop that has cancelled it remembers where. */
  lemma DiscoveredContexts(c: Config, before: seq<Action>, i: nat)
    requires Reaches(c, before) && i < |Reached(c, before).peers|
    ensures var p := Reached(c, before).peers[i];
            p.background && p.cancelled ==> p.cancelledAt.Some?
  {
    ContextsAlong(c, Init(), before);
  }

  /**
   An eviction removes whatever is stored under the failing loop's address: the loop's own peer exactly when
   no newer peer has been made for that address.
   */
  lemma EvictionTarget(c: Config, actions: seq<Action>, i: nat)
    requires Reaches(c, actions)
    requires var s := Reached(c, actions);
             i < |s.peers| && s.peers[i].pc.Evicting? && s.peers[i].address in s.entries
    ensures var s := Reached(c, actions);
            s.entries[s.peers[i].address] == i <==>
              forall j :: i < j < |s.peers| ==> s.peers[j].address != s.peers[i].address
  {
    MapInvariant(c, actions);
  }

  /** No two loops for one address are alive together: of two peers the older one's loop has returned. */
  ghost predicate OneLoopPerAddress(s: State) {
    forall i, j :: 0 <= i < j < |s.peers| && s.peers[i].address == s.peers[j].address ==> s.peers[i].pc.Returned?
  }

  /** Along the run, no address is added again while an older loop for it is alive. */
  ghost predicate NeverReAdded(c: Config, s: State, actions: seq<Action>)
    requires Runs(c, s, actions)
    decreases |actions|
  {
    actions == [] ||
    (OneLoopPerAddress(Apply(c, s, actions[0])) && NeverReAdded(c, Apply(c, s, actions[0]), actions[1..]))
  }

  lemma {:induction false} NeverReAddedEndsClean(c: Config, s: State, actions: seq<Action>)
    requires Runs(c, s, actions) && OneLoopPerAddress(s) && NeverReAdded(c, s, actions)
    ensures OneLoopPerAddress(Run(c, s, actions))
    decreases |actions|
  {
    if actions != [] { NeverReAddedEndsClean(c, Apply(c, s, actions[0]), actions[1..]); }
  }

  /** If addresses are never re-added too early, an eviction removes the failing peer itself or nothing. */
  lemma EvictionsAreOwn(c: Config, actions: seq<Action>, i: nat)
    requires Reaches(c, actions) && NeverReAdded(c, Init(), actions)
    requires var s := Reached(c, actions); i < |s.peers| && s.peers[i].pc.Evicting?
    ensures var s := Reached(c, actions);
            s.peers[i].address in s.entries ==> s.entries[s.peers[i].address] == i
  {
    NeverReAddedEndsClean(c, Init(), actions);
    MapInvariant(c, actions);
    var s := Reached(c, actions);
    if s.peers[i].address in s.entries { EvictionTarget(c, actions, i); }
  }
}
