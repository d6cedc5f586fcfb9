/** The invariant of the peer protocol and the proof that every step keeps it. */
module PeerInvariant {
  import opened PeerTable
  import opened PeerProtocol

  // One peer

  /** Failed dials since the last successful one. */
  function TrailingFails(dials: seq<bool>): nat {
    if dials == [] || dials[|dials| - 1] then 0 else 1 + TrailingFails(dials[..|dials| - 1])
  }

  predicate HoldsConn(pc: Pc) {
    match pc
    case MarkConnected => true
    case ResetFailures => true
    case NotifyConnected => true
    case AskAddresses => true
    case AwaitDisconnect => true
    case MarkDisconnected => true
    case ClearPointer => true
    case _ => false
  }

  /** The status that a peer shows where its loop stands. */
  function StatusAt(pc: Pc): Status {
    match pc
    case CallDial => Status.Connecting
    case InDial => Status.Connecting
    case MarkFailed => Status.Connecting
    case MarkConnected => Status.Connecting
    case ResetFailures => Status.Connected
    case NotifyConnected => Status.Connected
    case AskAddresses => Status.Connected
    case AwaitDisconnect => Status.Connected
    case MarkDisconnected => Status.Connected
    case _ => Status.Disconnected
  }

  /** Between the two callbacks of the loop. */
  predicate Announced(pc: Pc) {
    match pc
    case AskAddresses => true
    case AwaitDisconnect => true
    case MarkDisconnected => true
    case ClearPointer => true
    case NotifyDisconnected => true
    case _ => false
  }

  ghost predicate FailuresOk(c: Config, p: Peer) {
    var fails := TrailingFails(p.dials);
    match p.pc
    case MarkFailed => fails == p.failures + 1 && p.failures < c.maxFailures
    case CountFailure => fails == p.failures + 1 && p.failures < c.maxFailures
    case CheckThreshold => fails == p.failures <= c.maxFailures
    case WantEvictLock => fails == p.failures == c.maxFailures
    case Evicting => fails == p.failures == c.maxFailures
    case Returned => fails == p.failures <= c.maxFailures
    case MarkConnected => fails == 0 && p.failures < c.maxFailures
    case ResetFailures => fails == 0 && p.failures < c.maxFailures
    case _ => fails == p.failures < c.maxFailures
  }

  ghost predicate CancelOk(p: Peer) {
    match p.cancelledAt
    case None => p.setsAfterCancel == 0
    case Some(InDial) => p.cancelled && p.setsAfterCancel <= if p.pc.InDial? then 0 else 1
    case Some(_) => p.cancelled && p.setsAfterCancel == 0 && !p.pc.InDial?
  }

  ghost predicate PeerOk(c: Config, p: Peer) {
    && (p.conn.Some? <==> HoldsConn(p.pc))
    && p.status == StatusAt(p.pc)
    && FailuresOk(c, p)
    && p.connects == p.loopFarewells + (if Announced(p.pc) then 1 else 0)
    && CancelOk(p)
  }

  // All peers

  predicate Mapped(s: State, i: nat)
    requires i < |s.peers|
  {
    s.peers[i].address in s.entries && s.entries[s.peers[i].address] == i
  }

  /** Off the map means removed once, by us; a loop that returned had a reason to. */
  ghost predicate MapOk(c: Config, s: State, i: nat)
    requires i < |s.peers|
  {
    var p := s.peers[i];
    && p.mapFarewells == (if Mapped(s, i) then 0 else 1)
    && (!Mapped(s, i) ==> p.cancelledAt.Some?)
    && (p.pc.Returned? ==> s.done || p.cancelled)
    && (p.pc.Returned? && p.failures >= c.maxFailures ==> !Mapped(s, i))
  }

  /**
   A connection outlives its peer's cancellation untold only if the loop was dialing at that moment, or the
   one who cancelled it is about to tell it.
   */
  ghost predicate UntoldOk(s: State, i: nat)
    requires i < |s.peers|
  {
    var p := s.peers[i];
    p.cancelledAt.Some? && !p.cancelledAt.value.InDial? && p.conn.Some? && !p.conn.value.told ==>
      s.crit.Work? && (s.crit.stage == Reading(i) || s.crit.stage == Telling(i, p.conn.value.serial))
  }

  // The lock holder

  ghost predicate StageOk(s: State) {
    s.crit.Work? && !s.crit.stage.Between? ==>
      var i := s.crit.stage.id;
      i < |s.peers| && Mapped(s, i) && s.peers[i].address in s.crit.left && s.peers[i].cancelledAt.Some?
  }

  ghost predicate AtThreshold(c: Config, s: State, addrs: set<Addr>) {
    forall a :: a in addrs ==>
      a in s.entries && s.entries[a] < |s.peers| && s.peers[s.entries[a]].failures == c.maxFailures
  }

  ghost predicate HolderOk(c: Config, s: State) {
    match s.crit
    case Free => true
    case Scan(todo, marked) => s.health.Checking? && todo <= s.entries.Keys && AtThreshold(c, s, marked)
    case Work(User, _, _) => true
    case Work(Health, left, _) => s.health.Checking? && AtThreshold(c, s, left)
    case Work(Stopper, left, _) =>
      && s.stop.Sweeping? && left <= s.entries.Keys && s.swept == |s.peers|
      && forall i :: 0 <= i < |s.peers| && Mapped(s, i) && s.peers[i].address !in left ==>
           s.peers[i].cancelledAt.Some?
    case Work(Loop(id), left, stage) =>
      && id < |s.peers| && s.peers[id].pc.Evicting?
      && left <= {s.peers[id].address}
      && (left == {} ==> s.peers[id].address !in s.entries)
  }

  ghost predicate LockOk(c: Config, s: State) {
    && StageOk(s)
    && HolderOk(c, s)
    && (forall i :: 0 <= i < |s.peers| && s.peers[i].pc.Evicting? ==> s.crit.Work? && s.crit.holder == Loop(i))
    && (s.health.Checking? ==> s.crit.Scan? || (s.crit.Work? && s.crit.holder.Health?))
    && (s.stop.Sweeping? ==> s.crit.Work? && s.crit.holder.Stopper?)
  }

  // Counting and phases

  function Live(peers: seq<Peer>): nat {
    if peers == [] then 0 else Live(peers[..|peers| - 1]) + if peers[|peers| - 1].pc.Returned? then 0 else 1
  }

  function HealthLive(s: State): nat {
    if s.health.Idle? || s.health.Checking? then 1 else 0
  }

  predicate SweepOver(s: State) {
    s.stop.WaitingForLoops? || s.stop.Succeeded? || s.stop.TimedOut?
  }

  ghost predicate PhasesOk(s: State) {
    && (s.done <==> !s.stop.NotCalled?)
    && (s.waitReturned ==> SweepOver(s))
    && (SweepOver(s) ==> s.swept <= |s.peers| && forall i :: 0 <= i < s.swept ==> s.peers[i].cancelledAt.Some?)
  }

  ghost predicate TableOk(c: Config, s: State) {
    PeerTable.Valid(c.maxPeers, TableOf(s))
  }

  ghost predicate PeersOk(c: Config, s: State) {
    forall i :: 0 <= i < |s.peers| ==> PeerOk(c, s.peers[i])
  }

  ghost predicate MapsOk(c: Config, s: State) {
    forall i :: 0 <= i < |s.peers| ==> MapOk(c, s, i)
  }

  ghost predicate UntoldsOk(s: State) {
    forall i :: 0 <= i < |s.peers| ==> UntoldOk(s, i)
  }

  /** The wait group counts the connection loops and the health loop that have not returned. */
  ghost predicate Counted(s: State) {
    s.wg == Live(s.peers) + HealthLive(s)
  }

  ghost predicate Inv(c: Config, s: State) {
    && c.maxPeers > 0 && c.maxFailures > 0
    && TableOk(c, s) && PeersOk(c, s) && MapsOk(c, s) && UntoldsOk(s) && LockOk(c, s) && Counted(s) && PhasesOk(s)
  }

  // Counting lemmas

  lemma {:induction false} LiveUpdate(peers: seq<Peer>, i: nat, p: Peer)
    requires i < |peers|
    ensures Live(peers[i := p]) + (if peers[i].pc.Returned? then 0 else 1)
         == Live(peers) + (if p.pc.Returned? then 0 else 1)
    decreases |peers|
  {
    var n := |peers| - 1;
    if i == n {
      assert peers[i := p][..n] == peers[..n];
    } else {
      assert peers[i := p][..n] == peers[..n][i := p];
      LiveUpdate(peers[..n], i, p);
    }
  }

  lemma {:induction false} LiveGrown(peers: seq<Peer>, created: seq<Addr>, background: bool)
    requires |peers| <= |created|
    ensures Live(Grown(peers, created, background)) == Live(peers) + |created| - |peers|
    decreases |created|
  {
    var r := Grown(peers, created, background);
    if |created| == |peers| {
      assert r == peers;
    } else {
      var n := |created| - 1;
      assert r[..n] == Grown(peers, created[..n], background);
      LiveGrown(peers, created[..n], background);
    }
  }

  // A loop's own step

  lemma OneMoreDial(dials: seq<bool>)
    ensures TrailingFails(dials + [true]) == 0
    ensures TrailingFails(dials + [false]) == TrailingFails(dials) + 1
  {
    assert (dials + [false])[..|dials|] == dials;
  }

  lemma DialKeepsFailures(c: Config, p: Peer, done: bool, choice: Choice)
    requires c.maxFailures > 0 && FailuresOk(c, p) && (p.pc.CallDial? || p.pc.InDial?)
    requires LoopNext(c, p, done, choice).Some?
    ensures FailuresOk(c, LoopNext(c, p, done, choice).value)
  {
    OneMoreDial(p.dials);
  }

  lemma StepKeepsFailures(c: Config, p: Peer, done: bool, choice: Choice)
    requires c.maxFailures > 0 && FailuresOk(c, p) && LoopNext(c, p, done, choice).Some?
    ensures FailuresOk(c, LoopNext(c, p, done, choice).value)
  {
    match p.pc
    case CallDial => DialKeepsFailures(c, p, done, choice);
    case InDial => DialKeepsFailures(c, p, done, choice);
    case CountFailure =>
    case CheckThreshold =>
    case ResetFailures =>
    case _ =>
  }

  lemma StepKeepsPointer(c: Config, p: Peer, done: bool, choice: Choice)
    requires LoopNext(c, p, done, choice).Some? && (p.conn.Some? <==> HoldsConn(p.pc))
    ensures var q := LoopNext(c, p, done, choice).value; q.conn.Some? <==> HoldsConn(q.pc)
  {
    match p.pc
    case InDial =>
    case ClearPointer =>
    case _ =>
  }

  lemma StepKeepsStatus(c: Config, p: Peer, done: bool, choice: Choice)
    requires LoopNext(c, p, done, choice).Some? && p.status == StatusAt(p.pc)
    ensures var q := LoopNext(c, p, done, choice).value; q.status == StatusAt(q.pc)
  {
    match p.pc
    case MarkConnecting =>
    case MarkFailed =>
    case MarkConnected =>
    case MarkDisconnected =>
    case _ =>
  }

  lemma StepKeepsCallbacks(c: Config, p: Peer, done: bool, choice: Choice)
    requires LoopNext(c, p, done, choice).Some?
    requires p.connects == p.loopFarewells + (if Announced(p.pc) then 1 else 0)
    ensures var q := LoopNext(c, p, done, choice).value;
            q.connects == q.loopFarewells + (if Announced(q.pc) then 1 else 0)
  {
    match p.pc
    case NotifyConnected =>
    case NotifyDisconnected =>
    case _ =>
  }

  lemma StepKeepsCancel(c: Config, p: Peer, done: bool, choice: Choice)
    requires LoopNext(c, p, done, choice).Some? && CancelOk(p)
    ensures CancelOk(LoopNext(c, p, done, choice).value)
  {
    match p.pc
    case CheckContext =>
    case CallDial =>
    case InDial =>
    case Waiting =>
    case _ =>
  }

  /** A change of one peer that the rest of the system does not have to notice. */
  ghost predicate Quiet(c: Config, p: Peer, q: Peer, done: bool) {
    && q.address == p.address && q.mapFarewells == p.mapFarewells && q.cancelledAt == p.cancelledAt
    && (p.cancelled ==> q.cancelled)
    && (q.pc.Evicting? <==> p.pc.Evicting?)
    && (q.pc.Returned? ==> (if p.pc.Returned? then q.failures == p.failures
                            else (done || q.cancelled) && q.failures < c.maxFailures))
    && (p.pc.Returned? ==> q.pc.Returned?)
    && (p.failures == c.maxFailures ==> q.failures == c.maxFailures)
    && (p.cancelledAt.Some? && !p.cancelledAt.value.InDial? && q.conn.Some? && !q.conn.value.told ==>
          p.conn.Some? && !p.conn.value.told && p.conn.value.serial == q.conn.value.serial)
  }

  lemma StepKeepsPeer(c: Config, p: Peer, done: bool, choice: Choice)
    requires c.maxFailures > 0 && PeerOk(c, p) && LoopNext(c, p, done, choice).Some?
    ensures PeerOk(c, LoopNext(c, p, done, choice).value)
  {
    StepKeepsFailures(c, p, done, choice);
    StepKeepsPointer(c, p, done, choice);
    StepKeepsStatus(c, p, done, choice);
    StepKeepsCallbacks(c, p, done, choice);
    StepKeepsCancel(c, p, done, choice);
  }

  lemma StepIsQuiet(c: Config, p: Peer, done: bool, choice: Choice)
    requires c.maxFailures > 0 && FailuresOk(c, p) && CancelOk(p) && LoopNext(c, p, done, choice).Some?
    ensures Quiet(c, p, LoopNext(c, p, done, choice).value, done)
  {
    match p.pc
    case CheckDone =>
    case CheckContext =>
    case CallDial =>
    case InDial =>
    case CountFailure =>
    case CheckThreshold =>
    case ResetFailures =>
    case ClearPointer =>
    case Waiting =>
    case _ =>
  }

  /** Replacing one peer by another under the same address leaves the table alone. */
  lemma SameTable(s: State, id: nat, q: Peer)
    requires id < |s.peers| && q.address == s.peers[id].address
    ensures Addresses(s.peers[id := q]) == Addresses(s.peers)
    ensures TableOf(WithPeer(s, id, q)) == TableOf(s)
  {
  }

  /** The peers changed quietly, each under its own address. */
  ghost predicate AllQuiet(c: Config, s: State, s': State) {
    && |s'.peers| == |s.peers|
    && forall i :: 0 <= i < |s.peers| ==> Quiet(c, s.peers[i], s'.peers[i], s.done)
  }

  lemma QuietKeepsLocal(c: Config, s: State, s': State)
    requires AllQuiet(c, s, s') && s'.entries == s.entries && s'.done == s.done && s'.crit == s.crit
    requires MapsOk(c, s) && UntoldsOk(s)
    ensures MapsOk(c, s') && UntoldsOk(s')
  {
    forall i | 0 <= i < |s'.peers|
      ensures MapOk(c, s', i) && UntoldOk(s', i)
    {
      assert MapOk(c, s, i) && UntoldOk(s, i) && Quiet(c, s.peers[i], s'.peers[i], s.done);
    }
  }

  /** What the lock holder relies on. */
  ghost predicate Steady(c: Config, p: Peer, q: Peer) {
    && q.address == p.address
    && (p.cancelledAt.Some? ==> q.cancelledAt.Some?)
    && (q.pc.Evicting? <==> p.pc.Evicting?)
    && (p.failures == c.maxFailures ==> q.failures == c.maxFailures)
  }

  /** The same work is going on, at the same or another stage, on peers that stayed steady. */
  ghost predicate SameWork(c: Config, s: State, s': State) {
    && s'.entries == s.entries && s'.health == s.health && s'.stop == s.stop && s'.swept == s.swept
    && (s'.crit == s.crit ||
        (s.crit.Work? && s'.crit.Work? && s'.crit.holder == s.crit.holder && s'.crit.left == s.crit.left))
    && |s'.peers| == |s.peers|
    && forall i :: 0 <= i < |s.peers| ==> Steady(c, s.peers[i], s'.peers[i])
  }

  lemma HolderKept(c: Config, s: State, s': State)
    requires SameWork(c, s, s') && HolderOk(c, s)
    ensures HolderOk(c, s')
  {
    if s.crit.Work? && s.crit.holder.Stopper? {
      assert forall i :: 0 <= i < |s.peers| ==> (Mapped(s', i) <==> Mapped(s, i));
    }
  }

  lemma LockKept(c: Config, s: State, s': State)
    requires SameWork(c, s, s') && LockOk(c, s) && StageOk(s')
    ensures LockOk(c, s')
  {
    HolderKept(c, s, s');
    forall i | 0 <= i < |s.peers| && s'.peers[i].pc.Evicting?
      ensures s'.crit.Work? && s'.crit.holder == Loop(i)
    {
      assert Steady(c, s.peers[i], s'.peers[i]);
    }
  }

  /** The invariant after one peer was replaced, part by part. */
  lemma Assemble(c: Config, s: State, s': State, id: nat, q: Peer)
    requires Inv(c, s) && id < |s.peers| && s'.peers == s.peers[id := q] && s'.entries == s.entries
    requires PeerOk(c, q) && q.address == s.peers[id].address
    requires MapsOk(c, s') && UntoldsOk(s')
    requires LockOk(c, s')
    requires s'.wg - HealthLive(s') + (if s.peers[id].pc.Returned? then 0 else 1)
          == s.wg - HealthLive(s) + (if q.pc.Returned? then 0 else 1)
    requires PhasesOk(s')
    ensures Inv(c, s')
  {
    LiveUpdate(s.peers, id, q);
    SameTable(s, id, q);
  }

  lemma QuietKeepsInv(c: Config, s: State, id: nat, q: Peer)
    requires Inv(c, s) && id < |s.peers| && Quiet(c, s.peers[id], q, s.done) && PeerOk(c, q)
    ensures Inv(c, WithPeer(s, id, q))
  {
    var s' := WithPeer(s, id, q);
    assert AllQuiet(c, s, s');
    QuietKeepsLocal(c, s, s');
    assert SameWork(c, s, s') && StageOk(s');
    LockKept(c, s, s');
    Assemble(c, s, s', id, q);
  }

  /** A step of a loop outside its eviction. */
  lemma OwnStepKeepsInv(c: Config, s: State, id: nat, choice: Choice)
    requires Inv(c, s) && id < |s.peers| && LoopNext(c, s.peers[id], s.done, choice).Some?
    ensures Inv(c, OwnStep(c, s, id, choice))
  {
    StepKeepsPeer(c, s.peers[id], s.done, choice);
    StepIsQuiet(c, s.peers[id], s.done, choice);
    QuietKeepsInv(c, s, id, LoopNext(c, s.peers[id], s.done, choice).value);
  }

  lemma DropKeepsInv(c: Config, s: State, id: nat)
    requires Inv(c, s) && id < |s.peers| && s.peers[id].conn.Some?
    ensures Inv(c, WithPeer(s, id, Dropped(s.peers[id])))
  {
    assert PeerOk(c, s.peers[id]);
    QuietKeepsInv(c, s, id, Dropped(s.peers[id]));
  }

  lemma ContextEndKeepsInv(c: Config, s: State, id: nat)
    requires Inv(c, s) && id < |s.peers|
    ensures Inv(c, WithPeer(s, id, s.peers[id].(cancelled := true)))
  {
    assert PeerOk(c, s.peers[id]) && MapOk(c, s, id);
    assert Quiet(c, s.peers[id], s.peers[id].(cancelled := true), s.done);
    QuietKeepsInv(c, s, id, s.peers[id].(cancelled := true));
  }

  // Taking and leaving the lock; nothing but control state changes

  /** With the lock free or its holder between two peers, no peer has an untold connection to be excused. */
  lemma NoExcuses(c: Config, s: State, s': State)
    requires Inv(c, s) && s'.peers == s.peers && s'.entries == s.entries && (s.done ==> s'.done)
    requires s.crit.Work? ==> s.crit.stage.Between?
    ensures MapsOk(c, s') && UntoldsOk(s')
  {
    forall i | 0 <= i < |s'.peers|
      ensures MapOk(c, s', i) && UntoldOk(s', i)
    {
      assert MapOk(c, s, i) && UntoldOk(s, i);
    }
  }

  lemma UserRemoveKeepsInv(c: Config, s: State, a: Addr)
    requires Inv(c, s) && s.crit.Free?
    ensures Inv(c, s.(crit := Work(User, {a}, Between)))
  {
    NoExcuses(c, s, s.(crit := Work(User, {a}, Between)));
  }

  lemma HealthTickKeepsInv(c: Config, s: State)
    requires Inv(c, s) && s.health.Idle? && s.crit.Free?
    ensures Inv(c, s.(health := Checking, crit := Scan(s.entries.Keys, {})))
  {
    NoExcuses(c, s, s.(health := Checking, crit := Scan(s.entries.Keys, {})));
  }

  lemma StopLocksKeepsInv(c: Config, s: State)
    requires Inv(c, s) && s.stop.WantLock? && s.crit.Free?
    ensures Inv(c, s.(stop := Sweeping, crit := Work(Stopper, s.entries.Keys, Between), swept := |s.peers|))
  {
    NoExcuses(c, s, s.(stop := Sweeping, crit := Work(Stopper, s.entries.Keys, Between), swept := |s.peers|));
  }

  lemma EvictLockKeepsInv(c: Config, s: State, id: nat)
    requires Inv(c, s) && id < |s.peers| && s.peers[id].pc.WantEvictLock? && s.crit.Free?
    ensures Inv(c, TakeEvictLock(s, id))
  {
    var q := s.peers[id].(pc := Evicting);
    var s' := s.(peers := s.peers[id := q], crit := Work(Loop(id), {q.address}, Between));
    assert PeerOk(c, s.peers[id]);
    forall i | 0 <= i < |s'.peers|
      ensures MapOk(c, s', i) && UntoldOk(s', i)
    {
      assert MapOk(c, s, i) && UntoldOk(s, i);
    }
    Assemble(c, s, s', id, q);
  }

  lemma ControlKeepsInv(c: Config, s: State, s': State)
    requires Inv(c, s) && s'.peers == s.peers && s'.entries == s.entries && s'.crit == s.crit && s'.swept == s.swept
    requires (s.done ==> s'.done) && (s'.health.Checking? <==> s.health.Checking?)
    requires s'.stop.Sweeping? <==> s.stop.Sweeping?
    requires PhasesOk(s') && s'.wg == s.wg + HealthLive(s') - HealthLive(s)
    ensures Inv(c, s')
  {
    forall i | 0 <= i < |s'.peers|
      ensures MapOk(c, s', i) && UntoldOk(s', i)
    {
      assert MapOk(c, s, i) && UntoldOk(s, i);
    }
    assert HolderOk(c, s') by { assert HolderOk(c, s); }
  }

  // The health scan

  lemma ScanOneKeepsInv(c: Config, s: State, a: Addr)
    requires Inv(c, s) && s.crit.Scan? && a in s.crit.todo && a in s.entries && s.entries[a] < |s.peers|
    ensures Inv(c, ScanPeer(c, s, a))
  {
    assert PeerOk(c, s.peers[s.entries[a]]);
    NoExcuses(c, s, ScanPeer(c, s, a));
  }

  lemma ScanEndsKeepsInv(c: Config, s: State)
    requires Inv(c, s) && s.crit.Scan?
    ensures Inv(c, s.(crit := Work(Health, s.crit.marked, Between)))
  {
    NoExcuses(c, s, s.(crit := Work(Health, s.crit.marked, Between)));
  }

  // removePeer and the rounds of the sweep

  lemma LookupMissKeepsInv(c: Config, s: State, a: Addr)
    requires Inv(c, s) && s.crit.Work? && s.crit.stage.Between? && a in s.crit.left && a !in s.entries
    ensures Inv(c, LookUp(s, a))
  {
    NoExcuses(c, s, s.(crit := s.crit.(left := s.crit.left - {a})));
  }

  lemma StageKeepsLocal(c: Config, s: State, id: nat, q: Peer, stage: Stage)
    requires Inv(c, s) && s.crit.Work? && id < |s.peers| && Mapped(s, id) && s.peers[id].address in s.crit.left
    requires !stage.Between? && stage.id == id && q.cancelledAt.Some? && PeerOk(c, q) && q.pc == s.peers[id].pc
    requires Steady(c, s.peers[id], q) && q.mapFarewells == s.peers[id].mapFarewells
    requires q.pc.Returned? ==> q.failures == s.peers[id].failures && (s.peers[id].cancelled ==> q.cancelled)
    requires s.crit.stage.Between? || s.crit.stage.id == id
    requires UntoldOk(s.(peers := s.peers[id := q], crit := s.crit.(stage := stage)), id)
    ensures var s' := s.(peers := s.peers[id := q], crit := s.crit.(stage := stage));
            MapsOk(c, s') && UntoldsOk(s')
  {
    var s' := s.(peers := s.peers[id := q], crit := s.crit.(stage := stage));
    forall i | 0 <= i < |s'.peers|
      ensures MapOk(c, s', i) && UntoldOk(s', i)
    {
      assert MapOk(c, s, i) && UntoldOk(s, i);
      assert Mapped(s', i) <==> Mapped(s, i);
    }
  }

  /** A stage of the work on one peer: the peer may be cancelled or told, its loop does not move. */
  lemma StageKeepsInv(c: Config, s: State, id: nat, q: Peer, stage: Stage)
    requires Inv(c, s) && s.crit.Work? && id < |s.peers| && Mapped(s, id) && s.peers[id].address in s.crit.left
    requires !stage.Between? && stage.id == id && q.cancelledAt.Some? && PeerOk(c, q) && q.pc == s.peers[id].pc
    requires Steady(c, s.peers[id], q) && q.mapFarewells == s.peers[id].mapFarewells
    requires q.pc.Returned? ==> q.failures == s.peers[id].failures && (s.peers[id].cancelled ==> q.cancelled)
    requires s.crit.stage.Between? || s.crit.stage.id == id
    requires UntoldOk(s.(peers := s.peers[id := q], crit := s.crit.(stage := stage)), id)
    ensures Inv(c, s.(peers := s.peers[id := q], crit := s.crit.(stage := stage)))
  {
    var s' := s.(peers := s.peers[id := q], crit := s.crit.(stage := stage));
    StageKeepsLocal(c, s, id, q, stage);
    assert SameWork(c, s, s') && StageOk(s');
    LockKept(c, s, s');
    Assemble(c, s, s', id, q);
  }

  lemma LookupHitKeepsInv(c: Config, s: State, a: Addr)
    requires Inv(c, s) && s.crit.Work? && s.crit.stage.Between? && a in s.crit.left
    requires a in s.entries && s.entries[a] < |s.peers|
    ensures Inv(c, LookUp(s, a))
  {
    var id := s.entries[a];
    assert TableOf(s).created[id] == s.peers[id].address == a;
    assert PeerOk(c, s.peers[id]) && MapOk(c, s, id);
    StageKeepsInv(c, s, id, Cancelled(s.peers[id]), Reading(id));
  }

  lemma ReadKeepsInv(c: Config, s: State)
    requires Inv(c, s) && s.crit.Work? && s.crit.stage.Reading?
    ensures s.crit.stage.id < |s.peers| && Inv(c, ReadPointer(s))
  {
    var id := s.crit.stage.id;
    assert PeerOk(c, s.peers[id]) && MapOk(c, s, id) && UntoldOk(s, id);
    var conn := s.peers[id].conn;
    assert s.peers[id := s.peers[id]] == s.peers;
    StageKeepsInv(c, s, id, s.peers[id], if conn.Some? then Telling(id, conn.value.serial) else Deleting(id));
  }

  lemma TellKeepsInv(c: Config, s: State)
    requires Inv(c, s) && s.crit.Work? && s.crit.stage.Telling?
    ensures s.crit.stage.id < |s.peers| && Inv(c, Tell(s))
  {
    var id := s.crit.stage.id;
    assert PeerOk(c, s.peers[id]) && MapOk(c, s, id) && UntoldOk(s, id);
    StageKeepsInv(c, s, id, Told(s.peers[id], s.crit.stage.serial), Deleting(id));
  }

  /** removePeer deletes the peer it looked up; the sweep only crosses it off. */
  lemma DeletedTable(s: State)
    requires s.crit.Work? && s.crit.stage.Deleting? && !s.crit.holder.Stopper? && s.crit.stage.id < |s.peers|
    ensures TableOf(Delete(s)) == RemoveOne(TableOf(s), s.peers[s.crit.stage.id].address)
  {
    var p := s.peers[s.crit.stage.id];
    SameTable(s, s.crit.stage.id, p.(mapFarewells := p.mapFarewells + 1));
  }

  lemma DeleteKeepsTable(c: Config, s: State)
    requires TableOk(c, s) && s.crit.Work? && s.crit.stage.Deleting? && !s.crit.holder.Stopper?
    requires s.crit.stage.id < |s.peers|
    ensures TableOk(c, Delete(s))
  {
    DeletedTable(s);
    RemoveKeepsValid(c.maxPeers, TableOf(s), s.peers[s.crit.stage.id].address);
  }

  lemma DeleteKeepsPeers(c: Config, s: State)
    requires PeersOk(c, s) && PhasesOk(s)
    requires s.crit.Work? && s.crit.stage.Deleting? && !s.crit.holder.Stopper? && s.crit.stage.id < |s.peers|
    ensures PeersOk(c, Delete(s)) && PhasesOk(Delete(s))
  {
    assert PeerOk(c, s.peers[s.crit.stage.id]);
  }

  lemma DeleteKeepsCount(s: State)
    requires Counted(s)
    requires s.crit.Work? && s.crit.stage.Deleting? && !s.crit.holder.Stopper? && s.crit.stage.id < |s.peers|
    ensures Counted(Delete(s))
  {
    var p := s.peers[s.crit.stage.id];
    LiveUpdate(s.peers, s.crit.stage.id, p.(mapFarewells := p.mapFarewells + 1));
  }

  lemma DeleteKeepsLocal(c: Config, s: State)
    requires PeersOk(c, s) && MapsOk(c, s) && UntoldsOk(s) && StageOk(s)
    requires s.crit.Work? && s.crit.stage.Deleting? && !s.crit.holder.Stopper?
    ensures MapsOk(c, Delete(s)) && UntoldsOk(Delete(s))
  {
    var id, s' := s.crit.stage.id, Delete(s);
    assert PeerOk(c, s.peers[id]);
    forall i | 0 <= i < |s'.peers|
      ensures MapOk(c, s', i) && UntoldOk(s', i)
    {
      assert MapOk(c, s, i) && UntoldOk(s, i);
      assert Mapped(s', i) <==> Mapped(s, i) && i != id;
    }
  }

  lemma DeleteKeepsLock(c: Config, s: State)
    requires LockOk(c, s) && s.crit.Work? && s.crit.stage.Deleting? && !s.crit.holder.Stopper?
    ensures s.crit.stage.id < |s.peers| && LockOk(c, Delete(s))
  {
    var s' := Delete(s);
    assert HolderOk(c, s') by { assert HolderOk(c, s); }
  }

  lemma DeleteKeepsInv(c: Config, s: State)
    requires Inv(c, s) && s.crit.Work? && s.crit.stage.Deleting? && !s.crit.holder.Stopper?
    ensures s.crit.stage.id < |s.peers| && Inv(c, Delete(s))
  {
    DeleteKeepsLock(c, s);
    DeleteKeepsTable(c, s);
    DeleteKeepsPeers(c, s);
    DeleteKeepsCount(s);
    DeleteKeepsLocal(c, s);
  }

  lemma CrossOffKeepsInv(c: Config, s: State)
    requires Inv(c, s) && s.crit.Work? && s.crit.stage.Deleting? && s.crit.holder.Stopper?
    ensures s.crit.stage.id < |s.peers| && Inv(c, Delete(s))
  {
    var s' := Delete(s);
    forall i | 0 <= i < |s'.peers|
      ensures MapOk(c, s', i) && UntoldOk(s', i)
    {
      assert MapOk(c, s, i) && UntoldOk(s, i);
    }
    assert HolderOk(c, s') by {
      assert HolderOk(c, s);
      assert forall i :: 0 <= i < |s.peers| ==> (Mapped(s', i) <==> Mapped(s, i));
    }
  }

  // Releasing the lock

  lemma ReleaseKeepsInv(c: Config, s: State)
    requires Inv(c, s) && s.crit.Work? && s.crit.stage.Between? && s.crit.left == {} && !s.crit.holder.Loop?
    ensures Inv(c, EndWork(s))
  {
    NoExcuses(c, s, EndWork(s));
    forall i | 0 <= i < |s.peers|
      ensures s.crit.holder.Stopper? ==> s.peers[i].cancelledAt.Some?
    {
      assert MapOk(c, s, i);
    }
  }

  lemma EvictionEndsKeepsLocal(c: Config, s: State)
    requires PeersOk(c, s) && MapsOk(c, s) && UntoldsOk(s) && HolderOk(c, s)
    requires s.crit.Work? && s.crit.stage.Between? && s.crit.left == {} && s.crit.holder.Loop?
    ensures s.crit.holder.id < |s.peers|
    ensures PeerOk(c, s.peers[s.crit.holder.id].(pc := Returned))
    ensures MapsOk(c, EndWork(s)) && UntoldsOk(EndWork(s))
  {
    var id := s.crit.holder.id;
    var s' := EndWork(s);
    assert PeerOk(c, s.peers[id]) && MapOk(c, s, id);
    forall i | 0 <= i < |s'.peers|
      ensures MapOk(c, s', i) && UntoldOk(s', i)
    {
      assert MapOk(c, s, i) && UntoldOk(s, i);
      assert Mapped(s', i) <==> Mapped(s, i);
    }
  }

  lemma EvictionEndsKeepsInv(c: Config, s: State)
    requires Inv(c, s) && s.crit.Work? && s.crit.stage.Between? && s.crit.left == {} && s.crit.holder.Loop?
    ensures s.crit.holder.id < |s.peers| && Inv(c, EndWork(s))
  {
    EvictionEndsKeepsLocal(c, s);
    Assemble(c, s, EndWork(s), s.crit.holder.id, s.peers[s.crit.holder.id].(pc := Returned));
  }

  // New peers

  lemma GrownAddresses(s: State, t: Table, background: bool)
    requires Addresses(s.peers) <= t.created
    ensures TableOf(WithTable(s, t, background)) == t
  {
    var r := Grown(s.peers, t.created, background);
    forall i | 0 <= i < |r|
      ensures r[i].address == t.created[i]
    {
      if i < |s.peers| { assert Addresses(s.peers)[i] == s.peers[i].address; }
    }
    assert Addresses(r) == t.created;
  }

  lemma GrowthKeepsPeers(c: Config, s: State, t: Table, background: bool)
    requires c.maxFailures > 0 && |s.peers| <= |t.created| && s.crit.Free?
    requires PeersOk(c, s) && LockOk(c, s) && Counted(s) && PhasesOk(s)
    ensures var s' := WithTable(s, t, background);
            PeersOk(c, s') && LockOk(c, s') && Counted(s') && PhasesOk(s')
  {
    LiveGrown(s.peers, t.created, background);
    var s' := WithTable(s, t, background);
    forall i | 0 <= i < |s'.peers|
      ensures PeerOk(c, s'.peers[i]) && !s'.peers[i].pc.Evicting?
    {
      if i < |s.peers| {
        assert PeerOk(c, s.peers[i]);
      } else {
        assert s'.peers[i] == NewPeer(t.created[i], background);
      }
    }
  }

  lemma GrowthKeepsMapped(s: State, t: Table, background: bool, i: nat)
    requires Grows(TableOf(s), t) && i < |s.peers|
    ensures i < |WithTable(s, t, background).peers| && (Mapped(WithTable(s, t, background), i) <==> Mapped(s, i))
  {
    assert |TableOf(s).created| == |s.peers|;
  }

  lemma GrowthKeepsMaps(c: Config, s: State, t: Table, background: bool)
    requires Grows(TableOf(s), t) && MapsOk(c, s) && UntoldsOk(s) && s.crit.Free?
    ensures |s.peers| <= |t.created|
    ensures var s' := WithTable(s, t, background);
            MapsOk(c, s') && UntoldsOk(s')
  {
    assert |TableOf(s).created| == |s.peers|;
    var s' := WithTable(s, t, background);
    forall i | 0 <= i < |s'.peers|
      ensures MapOk(c, s', i) && UntoldOk(s', i)
    {
      if i < |s.peers| {
        GrowthKeepsMapped(s, t, background, i);
        assert MapOk(c, s, i) && UntoldOk(s, i);
      } else {
        assert s'.peers[i] == NewPeer(t.created[i], background);
      }
    }
  }

  lemma GrowthKeepsTable(c: Config, s: State, t: Table, background: bool)
    requires PeerTable.Valid(c.maxPeers, t) && Addresses(s.peers) <= t.created
    ensures TableOk(c, WithTable(s, t, background))
  {
    GrownAddresses(s, t, background);
  }

  lemma GrowthKeepsInv(c: Config, s: State, t: Table, background: bool)
    requires Inv(c, s) && s.crit.Free?
    requires PeerTable.Valid(c.maxPeers, t) && Grows(TableOf(s), t)
    ensures Inv(c, WithTable(s, t, background))
  {
    assert |TableOf(s).created| == |s.peers|;
    GrowthKeepsMaps(c, s, t, background);
    GrowthKeepsPeers(c, s, t, background);
    GrowthKeepsTable(c, s, t, background);
  }

  lemma AddKeepsInv(c: Config, s: State, a: Addr)
    requires Inv(c, s) && s.crit.Free?
    ensures Inv(c, WithTable(s, AddOne(c.maxPeers, TableOf(s), a).0, false))
  {
    AddKeepsValid(c.maxPeers, TableOf(s), a);
    AddGrows(c.maxPeers, TableOf(s), a);
    GrowthKeepsInv(c, s, AddOne(c.maxPeers, TableOf(s), a).0, false);
  }

  lemma DiscoverKeepsInv(c: Config, s: State, addrs: seq<Addr>)
    requires Inv(c, s) && s.crit.Free?
    ensures |s.peers| <= |Discover(c.maxPeers, TableOf(s), addrs).created|
    ensures Inv(c, WithTable(s, Discover(c.maxPeers, TableOf(s), addrs), true))
  {
    DiscoveryKeeps(c.maxPeers, TableOf(s), addrs);
    DiscoveryGrows(c.maxPeers, TableOf(s), addrs);
    GrowthKeepsInv(c, s, Discover(c.maxPeers, TableOf(s), addrs), true);
  }

  // Every step

  lemma WorkKeepsInv(c: Config, s: State, a: Action)
    requires Inv(c, s) && Enabled(c, s, a)
    requires a.WorkLookup? || a.WorkRead? || a.WorkTell? || a.WorkDelete? || a.WorkEnds?
    ensures Inv(c, Apply(c, s, a))
  {
    match a
    case WorkLookup(addr) =>
      if addr in s.entries { LookupHitKeepsInv(c, s, addr); } else { LookupMissKeepsInv(c, s, addr); }
    case WorkRead => ReadKeepsInv(c, s);
    case WorkTell => TellKeepsInv(c, s);
    case WorkDelete => if s.crit.holder.Stopper? { CrossOffKeepsInv(c, s); } else { DeleteKeepsInv(c, s); }
    case WorkEnds =>
      if s.crit.holder.Loop? { EvictionEndsKeepsInv(c, s); } else { ReleaseKeepsInv(c, s); }
  }

  lemma PeerStepKeepsInv(c: Config, s: State, a: Action)
    requires Inv(c, s) && Enabled(c, s, a) && (a.LoopStep? || a.RemoteDrop? || a.ContextEnds?)
    ensures Inv(c, Apply(c, s, a))
  {
    match a
    case LoopStep(id, choice) =>
      if s.peers[id].pc.WantEvictLock? { EvictLockKeepsInv(c, s, id); } else { OwnStepKeepsInv(c, s, id, choice); }
    case RemoteDrop(id) => DropKeepsInv(c, s, id);
    case ContextEnds(id) => ContextEndKeepsInv(c, s, id);
  }

  lemma AddStepKeepsInv(c: Config, s: State, a: Action)
    requires Inv(c, s) && Enabled(c, s, a) && (a.AddPeer? || a.AddDiscovered?)
    ensures Inv(c, Apply(c, s, a))
  {
    match a
    case AddPeer(addr) => AddKeepsInv(c, s, addr);
    case AddDiscovered(addrs) => DiscoverKeepsInv(c, s, addrs);
  }

  lemma LockStepKeepsInv(c: Config, s: State, a: Action)
    requires Inv(c, s) && Enabled(c, s, a)
    requires a.UserRemove? || a.HealthTick? || a.ScanOne? || a.ScanEnds? || a.StopLocks?
    ensures Inv(c, Apply(c, s, a))
  {
    match a
    case UserRemove(addr) => UserRemoveKeepsInv(c, s, addr);
    case HealthTick => HealthTickKeepsInv(c, s);
    case ScanOne(addr) => ScanOneKeepsInv(c, s, addr);
    case ScanEnds => ScanEndsKeepsInv(c, s);
    case StopLocks => StopLocksKeepsInv(c, s);
  }

  lemma UnlockedStep(c: Config, s: State, a: Action)
    requires PhasesOk(s) && Enabled(c, s, a)
    requires a.Start? || a.HealthStops? || a.StopCalled? || a.WaitReturns? || a.StopSucceeds? || a.StopTimesOut?
    ensures var s' := Apply(c, s, a);
            && s'.peers == s.peers && s'.entries == s.entries && s'.crit == s.crit && s'.swept == s.swept
            && (s.done ==> s'.done) && (s'.health.Checking? <==> s.health.Checking?)
            && (s'.stop.Sweeping? <==> s.stop.Sweeping?)
            && PhasesOk(s') && s'.wg == s.wg + HealthLive(s') - HealthLive(s)
  {
  }

  lemma UnlockedStepKeepsInv(c: Config, s: State, a: Action)
    requires Inv(c, s) && Enabled(c, s, a)
    requires a.Start? || a.HealthStops? || a.StopCalled? || a.WaitReturns? || a.StopSucceeds? || a.StopTimesOut?
    ensures Inv(c, Apply(c, s, a))
  {
    UnlockedStep(c, s, a);
    ControlKeepsInv(c, s, Apply(c, s, a));
  }

  /** Every step of every goroutine keeps the invariant. */
  lemma StepKeepsInv(c: Config, s: State, a: Action)
    requires Inv(c, s) && Enabled(c, s, a)
    ensures Inv(c, Apply(c, s, a))
  {
    if a.AddPeer? || a.AddDiscovered? {
      AddStepKeepsInv(c, s, a);
    } else if a.LoopStep? || a.RemoteDrop? || a.ContextEnds? {
      PeerStepKeepsInv(c, s, a);
    } else if a.UserRemove? || a.HealthTick? || a.ScanOne? || a.ScanEnds? || a.StopLocks? {
      LockStepKeepsInv(c, s, a);
    } else if a.WorkLookup? || a.WorkRead? || a.WorkTell? || a.WorkDelete? || a.WorkEnds? {
      WorkKeepsInv(c, s, a);
    } else {
      UnlockedStepKeepsInv(c, s, a);
    }
  }

  lemma WithoutPeers(c: Config, s: State)
    requires s.peers == []
    ensures PeersOk(c, s) && MapsOk(c, s) && UntoldsOk(s)
  {
  }

  lemma InitTable(c: Config)
    ensures TableOk(c, Init())
  {
    assert TableOf(Init()) == Table(map[], []);
  }

  lemma InitControl(c: Config)
    ensures LockOk(c, Init()) && Counted(Init()) && PhasesOk(Init())
  {
  }

  lemma InitHolds(c: Config)
    requires c.maxPeers > 0 && c.maxFailures > 0
    ensures Inv(c, Init())
  {
    WithoutPeers(c, Init());
    InitTable(c);
    InitControl(c);
  }

  /** The invariant holds after every run of the manager. */
  lemma {:induction false} RunKeepsInv(c: Config, s: State, actions: seq<Action>)
    requires Inv(c, s) && Runs(c, s, actions)
    ensures Inv(c, Run(c, s, actions))
    decreases |actions|
  {
    if actions != [] {
      StepKeepsInv(c, s, actions[0]);
      RunKeepsInv(c, Apply(c, s, actions[0]), actions[1..]);
    }
  }
}
