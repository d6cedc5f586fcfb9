/**
 Which connections Stop has to wait for. A loop with a connection that neither side has ended is saved if some
 canceller can still reach it: the sweep, or an older loop for its address whose eviction takes it away. If not it
 is stranded, and stays so while Stop runs until the other side drops the connection.
 */
module PeerStop {
  import opened Wrappers
  import opened PeerTable
  import opened PeerProtocol
  import opened PeerInvariant
  import opened PeerRemoval
  import opened PeerLock

  predicate Live(conn: Option<Conn>) {
    conn.Some? && !conn.value.told && !conn.value.dropped
  }

  /** A loop that has a connection which neither side has ended, or comes to wait for it. */
  predicate Linked(p: Peer) {
    match p.pc
    case MarkConnected => Live(p.conn)
    case ResetFailures => Live(p.conn)
    case NotifyConnected => Live(p.conn)
    case AskAddresses => Live(p.conn)
    case AwaitDisconnect => Live(p.conn)
    case _ => false
  }

  /** The lock holder is about to tell the connection of peer `i`. */
  predicate Coming(s: State, i: nat)
    requires i < |s.peers|
  {
    s.crit.Work? && (s.crit.stage == Reading(i) ||
                     (s.peers[i].conn.Some? && s.crit.stage == Telling(i, s.peers[i].conn.value.serial)))
  }

  /** It works on peer `i`, but is past its connection. */
  predicate Passed(s: State, i: nat)
    requires i < |s.peers|
  {
    s.crit.Work? && !s.crit.stage.Between? && s.crit.stage.id == i && !Coming(s, i)
  }

  /** While `done` is closed: the loop can still come to evict what is stored under its address. */
  predicate MayEvict(c: Config, p: Peer) {
    match p.pc
    case MarkConnecting => p.failures + 1 >= c.maxFailures
    case CallDial => p.failures + 1 >= c.maxFailures
    case InDial => p.failures + 1 >= c.maxFailures
    case MarkFailed => p.failures + 1 >= c.maxFailures
    case CountFailure => p.failures + 1 >= c.maxFailures
    case CheckThreshold => p.failures >= c.maxFailures
    case WantEvictLock => true
    case Evicting => true
    case _ => false
  }

  /** `j` is another loop for the address of peer `i` and may still evict what is stored there. */
  predicate Evictor(c: Config, s: State, i: nat, j: nat) {
    && i < |s.peers| && j < |s.peers| && j != i
    && s.peers[j].address == s.peers[i].address && MayEvict(c, s.peers[j])
  }

  ghost predicate HasEvictor(c: Config, s: State, i: nat) {
    exists j :: Evictor(c, s, i, j)
  }

  predicate Stopping(s: State) {
    s.stop.WantLock? || s.stop.Sweeping? || s.stop.WaitingForLoops?
  }

  /** Someone can still come to cancel peer `i` and tell its connection; `hunted` says that it has an evictor. */
  predicate CanBeTold(s: State, i: nat, hunted: bool)
    requires i < |s.peers|
  {
    Mapped(s, i) &&
    match s.stop
    case WantLock => !Passed(s, i)
    case Sweeping => (s.crit.Work? && s.peers[i].address in s.crit.left && !Passed(s, i)) || hunted
    case WaitingForLoops => !Passed(s, i) && hunted
    case _ => false
  }

  predicate SavedIf(s: State, i: nat, hunted: bool)
    requires i < |s.peers|
  {
    Coming(s, i) || CanBeTold(s, i, hunted)
  }

  ghost predicate Saved(c: Config, s: State, i: nat)
    requires i < |s.peers|
  {
    SavedIf(s, i, HasEvictor(c, s, i))
  }

  ghost predicate Stranded(c: Config, s: State, i: nat) {
    i < |s.peers| && Linked(s.peers[i]) && !Saved(c, s, i)
  }

  /** With the lock free users may call exactly when Stop does not run: before it is called, and after it has ended. */
  lemma UsersMayCallExactlyWhen(c: Config, s: State, a: Addr)
    requires s.crit.Free?
    ensures Enabled(c, s, AddPeer(a)) <==> !Stopping(s)
    ensures Enabled(c, s, UserRemove(a)) <==> !Stopping(s)
  {
  }

  /** Users cannot hold the lock while Stop runs. */
  ghost predicate UsersKeptOut(s: State) {
    Stopping(s) ==> !(s.crit.Work? && s.crit.holder.User?)
  }

  lemma UsersByStep(c: Config, s: State, a: Action)
    requires UsersKeptOut(s) && Enabled(c, s, a)
    ensures UsersKeptOut(Apply(c, s, a))
  {
  }

  // Steps that are not the lock holder's

  /** What nobody holds the lock for: the same people can be told as far as the same loops may evict. */
  lemma SavedUnless(c: Config, s: State, s': State, i: nat)
    requires i < |s.peers| && i < |s'.peers| && s'.stop == s.stop && s'.crit == s.crit
    requires Mapped(s', i) ==> Mapped(s, i)
    requires s'.peers[i].address == s.peers[i].address && s'.peers[i].conn.Some? && s.peers[i].conn.Some?
    requires s'.peers[i].conn.value.serial == s.peers[i].conn.value.serial
    requires Mapped(s, i) ==> forall j :: Evictor(c, s', i, j) ==> Evictor(c, s, i, j)
    ensures Saved(c, s', i) ==> Saved(c, s, i)
  {
    if HasEvictor(c, s', i) && Mapped(s, i) {
      var j :| Evictor(c, s', i, j);
      assert Evictor(c, s, i, j);
    }
  }

  lemma LinkedStep(c: Config, p: Peer, done: bool, choice: Choice)
    requires LoopNext(c, p, done, choice).Some?
    ensures var q := LoopNext(c, p, done, choice).value;
            && (Linked(p) ==> Linked(q) && q.conn == p.conn)
            && (Linked(q) && !Linked(p) ==> p.pc.InDial? && choice == Succeeds)
  {
    match p.pc
    case InDial =>
    case AwaitDisconnect =>
    case ClearPointer =>
    case Waiting =>
    case _ =>
  }

  /** With `done` closed a cancelled loop does not come to evict if it could not before. */
  lemma EvictorStep(c: Config, p: Peer, choice: Choice)
    requires LoopNext(c, p, true, choice).Some?
    ensures var q := LoopNext(c, p, true, choice).value;
            && (p.cancelled && MayEvict(c, q) ==> MayEvict(c, p))
            && (MayEvict(c, p) && choice != Succeeds ==> MayEvict(c, q))
  {
    match p.pc
    case CheckDone =>
    case CheckContext =>
    case CallDial =>
    case InDial =>
    case CountFailure =>
    case CheckThreshold =>
    case ResetFailures =>
    case Waiting =>
    case _ =>
  }

  /** While a peer is mapped, every other peer for its address is off the map and cancelled. */
  lemma RivalIsCancelled(c: Config, s: State, i: nat, j: nat)
    requires PeersOk(c, s) && MapsOk(c, s) && i < |s.peers| && Mapped(s, i)
    requires j < |s.peers| && j != i && s.peers[j].address == s.peers[i].address
    ensures s.peers[j].cancelled
  {
    assert PeerOk(c, s.peers[j]) && MapOk(c, s, j);
  }

  lemma OtherLoopStep(c: Config, s: State, i: nat, j: nat, choice: Choice)
    requires PeersOk(c, s) && MapsOk(c, s) && s.done && i < |s.peers| && j < |s.peers| && j != i
    requires Linked(s.peers[i]) && LoopNext(c, s.peers[j], s.done, choice).Some?
    ensures Saved(c, OwnStep(c, s, j, choice), i) ==> Saved(c, s, i)
    ensures choice != Succeeds && Saved(c, s, i) ==> Saved(c, OwnStep(c, s, j, choice), i)
  {
    var s' := OwnStep(c, s, j, choice);
    LoopKeepsAddress(c, s.peers[j], s.done, choice);
    EvictorStep(c, s.peers[j], choice);
    if Mapped(s, i) && s.peers[j].address == s.peers[i].address { RivalIsCancelled(c, s, i, j); }
    SavedUnless(c, s, s', i);
    if choice != Succeeds { SavedUnless(c, s', s, i); }
  }

  lemma OwnLoopStep(c: Config, s: State, i: nat, choice: Choice)
    requires i < |s.peers| && Linked(s.peers[i]) && LoopNext(c, s.peers[i], s.done, choice).Some?
    ensures var s' := OwnStep(c, s, i, choice);
            && Linked(s'.peers[i]) && s'.peers[i].conn == s.peers[i].conn
            && (Saved(c, s', i) <==> Saved(c, s, i))
  {
    var s' := OwnStep(c, s, i, choice);
    LinkedStep(c, s.peers[i], s.done, choice);
    LoopKeepsAddress(c, s.peers[i], s.done, choice);
    SavedUnless(c, s, s', i);
    SavedUnless(c, s', s, i);
  }

  /** Another loop takes the lock to evict. */
  lemma EvictLockStep(c: Config, s: State, i: nat, j: nat)
    requires LockOk(c, s) && Stopping(s) && s.crit.Free? && i < |s.peers| && j < |s.peers| && Linked(s.peers[i])
    requires s.peers[j].pc.WantEvictLock?
    ensures i != j && (Saved(c, TakeEvictLock(s, j), i) <==> Saved(c, s, i))
  {
    var s' := TakeEvictLock(s, j);
    assert forall k :: Evictor(c, s', i, k) <==> Evictor(c, s, i, k);
    assert HasEvictor(c, s', i) <==> HasEvictor(c, s, i);
  }

  lemma GrowthStep(c: Config, s: State, t: Table, background: bool, i: nat)
    requires Grows(TableOf(s), t) && |s.peers| <= |t.created| && i < |s.peers| && Linked(s.peers[i])
    ensures Saved(c, WithTable(s, t, background), i) ==> Saved(c, s, i)
  {
    var s' := WithTable(s, t, background);
    if !Mapped(s, i) { UnmappedByGrowth(c, s, t, background, i); }
    assert forall k :: Evictor(c, s', i, k) ==> Evictor(c, s, i, k);
    SavedUnless(c, s, s', i);
  }

  // Steps of the lock holder

  /** Stop sweeps exactly while it holds the lock, and no user holds it. */
  predicate StopperSweeps(s: State) {
    && Stopping(s)
    && (s.crit.Work? ==> !s.crit.holder.User? && (s.crit.holder.Stopper? <==> s.stop.Sweeping?))
  }

  lemma LookupKeepsSaved(s: State, a: Addr, i: nat, hunted: bool)
    requires StopperSweeps(s) && i < |s.peers| && s.crit.Work? && s.crit.stage.Between? && a in s.crit.left
    requires a in s.entries ==> s.entries[a] < |s.peers| && s.peers[s.entries[a]].address == a
    requires a in s.entries && s.entries[a] == i ==> SavedIf(s, i, hunted)
    ensures SavedIf(LookUp(s, a), i, hunted) <==> SavedIf(s, i, hunted)
  {
  }

  lemma ReadKeepsSaved(s: State, i: nat, hunted: bool)
    requires i < |s.peers| && s.peers[i].conn.Some?
    requires s.crit.Work? && s.crit.stage.Reading? && s.crit.stage.id < |s.peers|
    ensures SavedIf(ReadPointer(s), i, hunted) <==> SavedIf(s, i, hunted)
  {
    assert s.crit.stage.id != i ==> !Coming(s, i) && !Coming(ReadPointer(s), i);
  }

  lemma TellKeepsSaved(s: State, i: nat, hunted: bool)
    requires i < |s.peers| && s.crit.Work? && s.crit.stage.Telling? && s.crit.stage.id < |s.peers|
    requires Linked(Tell(s).peers[i])
    ensures Linked(s.peers[i]) && Tell(s).peers[i].conn == s.peers[i].conn
    ensures SavedIf(Tell(s), i, hunted) <==> SavedIf(s, i, hunted)
  {
  }

  lemma DeleteKeepsSaved(s: State, i: nat, hunted: bool)
    requires StopperSweeps(s) && StageOk(s) && i < |s.peers|
    requires s.crit.Work? && s.crit.stage.Deleting? && s.crit.stage.id < |s.peers|
    ensures SavedIf(Delete(s), i, hunted) <==> SavedIf(s, i, hunted)
  {
    assert s.crit.stage.id != i ==> !Coming(s, i) && !Passed(s, i) && !Passed(Delete(s), i);
  }

  lemma EndKeepsSaved(s: State, i: nat, hunted: bool)
    requires StopperSweeps(s) && i < |s.peers| && s.crit.Work? && s.crit.stage.Between? && s.crit.left == {}
    requires s.crit.holder.Loop? ==> s.crit.holder.id < |s.peers|
    ensures SavedIf(EndWork(s), i, hunted) <==> SavedIf(s, i, hunted)
  {
  }

  predicate SamePlace(p: Peer, q: Peer) {
    q.address == p.address && q.pc == p.pc && q.failures == p.failures
  }

  lemma SameEvictors(c: Config, s: State, s': State, i: nat)
    requires |s'.peers| == |s.peers| && forall k :: 0 <= k < |s.peers| ==> SamePlace(s.peers[k], s'.peers[k])
    ensures HasEvictor(c, s', i) <==> HasEvictor(c, s, i)
  {
    assert forall k :: Evictor(c, s', i, k) <==> Evictor(c, s, i, k);
  }

  lemma HolderMovesNoLoop(c: Config, s: State, a: Action)
    requires Enabled(c, s, a) && Holding(a) && !a.WorkEnds?
    ensures var s' := Apply(c, s, a);
            |s'.peers| == |s.peers| && forall k :: 0 <= k < |s.peers| ==> SamePlace(s.peers[k], s'.peers[k])
  {
  }

  /** A loop that has evicted had nothing left to take away under its address. */
  lemma EndKeepsEvictors(c: Config, s: State, i: nat)
    requires HolderOk(c, s) && Enabled(c, s, WorkEnds) && i < |s.peers| && Mapped(s, i)
    ensures HasEvictor(c, EndWork(s), i) <==> HasEvictor(c, s, i)
  {
    assert forall k :: Evictor(c, EndWork(s), i, k) <==> Evictor(c, s, i, k);
  }

  ghost predicate StopOk(c: Config, s: State) {
    Stopping(s) && UsersKeptOut(s) && Inv(c, s)
  }

  lemma StopperSweepsThen(c: Config, s: State)
    requires Stopping(s) && UsersKeptOut(s) && LockOk(c, s)
    ensures StopperSweeps(s)
  {
    assert HolderOk(c, s);
  }

  lemma EntryAddress(c: Config, s: State, a: Addr)
    requires TableOk(c, s) && a in s.entries
    ensures s.entries[a] < |s.peers| && s.peers[s.entries[a]].address == a
  {
    assert TableOf(s).created[s.entries[a]] == a;
  }

  /** Whoever looks up a linked peer was one who could come to tell it. */
  lemma LookupOfLinked(c: Config, s: State, i: nat)
    requires StopperSweeps(s) && HolderOk(c, s) && i < |s.peers| && PeerOk(c, s.peers[i])
    requires Linked(s.peers[i]) && Mapped(s, i)
    requires s.crit.Work? && s.crit.stage.Between? && s.peers[i].address in s.crit.left
    ensures Saved(c, s, i)
  {
    match s.crit.holder
    case Stopper =>
    case Health =>
    case Loop(j) => assert Evictor(c, s, i, j);
  }

  lemma LookupStep(c: Config, s: State, a: Addr, i: nat)
    requires StopperSweeps(s) && HolderOk(c, s) && TableOk(c, s) && i < |s.peers| && PeerOk(c, s.peers[i])
    requires Linked(s.peers[i]) && Enabled(c, s, WorkLookup(a))
    ensures SavedIf(LookUp(s, a), i, HasEvictor(c, s, i)) <==> Saved(c, s, i)
  {
    if a in s.entries {
      EntryAddress(c, s, a);
      if s.entries[a] == i { LookupOfLinked(c, s, i); }
    }
    LookupKeepsSaved(s, a, i, HasEvictor(c, s, i));
  }

  lemma LinkedBefore(c: Config, s: State, a: Action, i: nat)
    requires i < |s.peers| && Enabled(c, s, a) && Holding(a)
    requires i < |Apply(c, s, a).peers| && Linked(Apply(c, s, a).peers[i])
    ensures Linked(s.peers[i]) && Apply(c, s, a).peers[i].conn == s.peers[i].conn
  {
  }

  lemma WorkStep(c: Config, s: State, a: Action, i: nat)
    requires StopperSweeps(s) && LockOk(c, s) && TableOk(c, s) && i < |s.peers| && PeerOk(c, s.peers[i])
    requires Enabled(c, s, a) && Holding(a) && Linked(s.peers[i])
    requires i < |Apply(c, s, a).peers| && Linked(Apply(c, s, a).peers[i])
    ensures SavedIf(Apply(c, s, a), i, HasEvictor(c, s, i)) <==> Saved(c, s, i)
  {
    match a
    case ScanOne(_) =>
    case ScanEnds =>
    case WorkLookup(addr) => LookupStep(c, s, addr, i);
    case WorkRead => ReadKeepsSaved(s, i, HasEvictor(c, s, i));
    case WorkTell => TellKeepsSaved(s, i, HasEvictor(c, s, i));
    case WorkDelete => DeleteKeepsSaved(s, i, HasEvictor(c, s, i));
    case WorkEnds => EndKeepsSaved(s, i, HasEvictor(c, s, i));
  }

  lemma HolderKeepsSaved(c: Config, s: State, a: Action, i: nat)
    requires StopOk(c, s) && i < |s.peers| && Enabled(c, s, a) && Holding(a)
    requires i < |Apply(c, s, a).peers| && Linked(Apply(c, s, a).peers[i])
    ensures Linked(s.peers[i]) && Apply(c, s, a).peers[i].conn == s.peers[i].conn
    ensures Saved(c, Apply(c, s, a), i) <==> Saved(c, s, i)
  {
    StopperSweepsThen(c, s);
    LinkedBefore(c, s, a, i);
    WorkStep(c, s, a, i);
    if !a.WorkEnds? {
      HolderMovesNoLoop(c, s, a);
      SameEvictors(c, s, Apply(c, s, a), i);
    } else if Mapped(s, i) {
      EndKeepsEvictors(c, s, i);
    }
  }

  /** Only the one who is coming to it can tell a connection. */
  lemma LinkedUnlessComing(c: Config, s: State, a: Action, i: nat)
    requires HolderOk(c, s) && Enabled(c, s, a) && Holding(a) && i < |s.peers|
    requires Linked(s.peers[i]) && !Coming(s, i)
    ensures i < |Apply(c, s, a).peers| && Linked(Apply(c, s, a).peers[i])
  {
  }

  // All other steps

  predicate Control(a: Action) {
    match a
    case Start => true
    case HealthTick => true
    case HealthStops => true
    case StopLocks => true
    case WaitReturns => true
    case ContextEnds(_) => true
    case RemoteDrop(_) => true
    case _ => false
  }

  lemma ControlMovesNoLoop(c: Config, s: State, a: Action, i: nat)
    requires Enabled(c, s, a) && Control(a) && i < |s.peers| && a != RemoteDrop(i)
    ensures var s' := Apply(c, s, a);
            && |s'.peers| == |s.peers| && (forall k :: 0 <= k < |s.peers| ==> SamePlace(s.peers[k], s'.peers[k]))
            && s'.peers[i].conn == s.peers[i].conn && s'.entries == s.entries
            && (s'.stop == s.stop || (s.stop.WantLock? && s'.stop.Sweeping?))
  {
  }

  lemma ControlStep(c: Config, s: State, a: Action, i: nat, hunted: bool)
    requires StopperSweeps(s) && Enabled(c, s, a) && Control(a) && i < |s.peers| && a != RemoteDrop(i)
    ensures i < |Apply(c, s, a).peers| && (SavedIf(Apply(c, s, a), i, hunted) <==> SavedIf(s, i, hunted))
  {
    ControlMovesNoLoop(c, s, a, i);
    if s.stop.Sweeping? { assert !a.StopLocks?; }
  }

  lemma ControlKeepsSaved(c: Config, s: State, a: Action, i: nat)
    requires StopOk(c, s) && Enabled(c, s, a) && Control(a) && i < |s.peers| && a != RemoteDrop(i)
    ensures i < |Apply(c, s, a).peers| && Apply(c, s, a).peers[i].conn == s.peers[i].conn
    ensures Apply(c, s, a).peers[i].pc == s.peers[i].pc && Stopping(Apply(c, s, a))
    ensures Saved(c, Apply(c, s, a), i) <==> Saved(c, s, i)
  {
    StopperSweepsThen(c, s);
    ControlMovesNoLoop(c, s, a, i);
    ControlStep(c, s, a, i, HasEvictor(c, s, i));
    SameEvictors(c, s, Apply(c, s, a), i);
  }

  lemma LoopKeepsSaved(c: Config, s: State, j: nat, choice: Choice, i: nat)
    requires StopOk(c, s) && s.done && i < |s.peers| && Linked(s.peers[i]) && Enabled(c, s, LoopStep(j, choice))
    ensures var s' := Apply(c, s, LoopStep(j, choice));
            && i < |s'.peers| && Linked(s'.peers[i]) && s'.peers[i].conn == s.peers[i].conn && s'.stop == s.stop
            && (Saved(c, s', i) ==> Saved(c, s, i))
            && (choice != Succeeds && Saved(c, s, i) ==> Saved(c, s', i))
  {
    if s.peers[j].pc.WantEvictLock? {
      EvictLockStep(c, s, i, j);
    } else if j == i {
      OwnLoopStep(c, s, i, choice);
    } else {
      OtherLoopStep(c, s, i, j, choice);
    }
  }

  lemma AddingKeepsSaved(c: Config, s: State, addrs: seq<Addr>, i: nat)
    requires i < |s.peers| && Linked(s.peers[i]) && Enabled(c, s, AddDiscovered(addrs))
    ensures var s' := Apply(c, s, AddDiscovered(addrs));
            && i < |s'.peers| && s'.peers[i] == s.peers[i] && s'.stop == s.stop
            && (Saved(c, s', i) ==> Saved(c, s, i))
  {
    DiscoveryGrows(c.maxPeers, TableOf(s), addrs);
    GrowthStep(c, s, Discover(c.maxPeers, TableOf(s), addrs), true, i);
  }

  lemma HolderKeepsStopping(c: Config, s: State, a: Action)
    requires Stopping(s) && Enabled(c, s, a) && Holding(a)
    ensures Stopping(Apply(c, s, a))
  {
  }

  /** While Stop runs, only a drop by the other side frees a stranded loop. */
  lemma StrandedStays(c: Config, s: State, a: Action, i: nat)
    requires StopOk(c, s) && SilentOnceQuiet(s) && Enabled(c, s, a) && Stranded(c, s, i)
    requires a != RemoteDrop(i) && a != StopTimesOut
    ensures Stopping(Apply(c, s, a)) && Stranded(c, Apply(c, s, a), i)
    ensures Apply(c, s, a).peers[i].conn == s.peers[i].conn
  {
    if Holding(a) {
      HolderKeepsStopping(c, s, a);
      assert HolderOk(c, s);
      LinkedUnlessComing(c, s, a, i);
      HolderKeepsSaved(c, s, a, i);
    } else if Control(a) {
      ControlKeepsSaved(c, s, a, i);
    } else if a.LoopStep? {
      LoopKeepsSaved(c, s, a.id, a.choice, i);
    } else if a.AddDiscovered? {
      AddingKeepsSaved(c, s, a.addrs, i);
    }
  }

  /** The steps that lead on to the end without a new connection. */
  predicate Modest(a: Action) {
    Holding(a) || a.StopLocks? || a.HealthStops? || (a.LoopStep? && a.choice != Succeeds)
  }

  lemma ModestLinks(c: Config, s: State, a: Action, i: nat)
    requires Enabled(c, s, a) && Modest(a) && !Holding(a)
    requires i < |Apply(c, s, a).peers| && Linked(Apply(c, s, a).peers[i])
    ensures i < |s.peers| && Linked(s.peers[i])
  {
    if a.LoopStep? && a.id == i && !s.peers[i].pc.WantEvictLock? { LinkedStep(c, s.peers[i], s.done, a.choice); }
  }

  lemma ModestStrandsNobody(c: Config, s: State, a: Action, i: nat)
    requires StopOk(c, s) && Enabled(c, s, a) && Modest(a) && !Stranded(c, s, i)
    ensures !Stranded(c, Apply(c, s, a), i)
  {
    if i < |Apply(c, s, a).peers| && Linked(Apply(c, s, a).peers[i]) {
      if Holding(a) {
        HolderKeepsSaved(c, s, a, i);
      } else {
        ModestLinks(c, s, a, i);
        if a.LoopStep? { LoopKeepsSaved(c, s, a.id, a.choice, i); } else { ControlKeepsSaved(c, s, a, i); }
      }
    }
  }
}
