/**
 A loop whose context is cancelled, by removePeer, by Stop or by its caller, ends whether `done` is closed or not:
 it takes a bounded number of further steps, starts at most one more dial, and takes no peer off the map unless it
 was dialing or giving up already.
 */
module PeerCancelled {
  import opened Wrappers
  import opened PeerTable
  import opened PeerProtocol
  import opened PeerInvariant
  import opened PeerTheorems
  import opened PeerRuns
  import opened PeerRemoval
  import opened PeerLock
  import opened PeerShutdown
  import opened PeerStop
  import opened PeerLiveness

  /** A bound on a cancelled loop's own steps, its eviction work not counted. */
  function GoneRank(pc: Pc): nat {
    match pc
    case MarkConnecting => 14
    case CallDial => 13
    case InDial => 12
    case MarkConnected => 11
    case ResetFailures => 10
    case NotifyConnected => 9
    case AskAddresses => 8
    case AwaitDisconnect => 7
    case MarkDisconnected => 6
    case ClearPointer => 5
    case NotifyDisconnected => 4
    case Waiting => 3
    case CheckDone => 2
    case CheckContext => 1
    case MarkFailed => 9
    case CountFailure => 8
    case CheckThreshold => 7
    case WantEvictLock => 6
    case Evicting => 0
    case Returned => 0
  }

  function GoneWork(s: State, id: nat): int
    requires id < |s.peers|
  {
    GoneRank(s.peers[id].pc) + WorkRank(s, id)
  }

  /** A dial it can still start. */
  function MayStillDial(pc: Pc): nat {
    if pc.MarkConnecting? || pc.CallDial? then 1 else 0
  }

  lemma GoneStep(c: Config, p: Peer, done: bool, choice: Choice)
    requires p.cancelled && LoopNext(c, p, done, choice).Some?
    ensures var q := LoopNext(c, p, done, choice).value;
            && q.cancelled && GoneRank(q.pc) < GoneRank(p.pc)
            && MayStillDial(q.pc) + (if p.pc.CallDial? then 1 else 0) <= MayStillDial(p.pc)
  {
    match p.pc
    case CheckDone =>
    case CheckContext =>
    case MarkConnecting =>
    case CallDial =>
    case InDial =>
    case CheckThreshold =>
    case Waiting =>
    case _ =>
  }

  /** A cancelled loop that may not evict does not come to, and one outside the dial does not come into it. */
  lemma GoneWays(c: Config, p: Peer, done: bool, choice: Choice)
    requires p.cancelled && LoopNext(c, p, done, choice).Some?
    ensures var q := LoopNext(c, p, done, choice).value;
            && (MayEvict(c, q) ==> MayEvict(c, p))
            && (!p.pc.InDial? ==> !q.pc.InDial? && (q.conn == p.conn || q.conn.None?))
  {
    match p.pc
    case CheckDone =>
    case CheckContext =>
    case CallDial =>
    case InDial =>
    case CountFailure =>
    case CheckThreshold =>
    case ResetFailures =>
    case ClearPointer =>
    case Waiting =>
    case _ =>
  }

  lemma OthersKeepCancelled(c: Config, s: State, a: Action, id: nat)
    requires Enabled(c, s, a) && id < |s.peers| && s.peers[id].cancelled && !(a.LoopStep? && a.id == id)
    ensures id < |Apply(c, s, a).peers| && Apply(c, s, a).peers[id].cancelled
    ensures Apply(c, s, a).peers[id].failures == s.peers[id].failures
  {
    match a
    case AddDiscovered(_) =>
    case WorkTell =>
    case _ =>
  }

  lemma OthersKeepGone(c: Config, s: State, a: Action, id: nat)
    requires StageOk(s) && HolderOk(c, s) && Enabled(c, s, a) && !Own(s, a, id)
    requires id < |s.peers| && s.peers[id].cancelled
    ensures id < |Apply(c, s, a).peers| && Apply(c, s, a).peers[id].cancelled
    ensures GoneWork(Apply(c, s, a), id) <= GoneWork(s, id)
    ensures MayStillDial(Apply(c, s, a).peers[id].pc) <= MayStillDial(s.peers[id].pc)
  {
    OthersKeepWorkRank(c, s, a, id);
    OthersKeepPc(c, s, a, id);
    OthersKeepCancelled(c, s, a, id);
  }

  lemma LoopStepGone(c: Config, s: State, id: nat, choice: Choice)
    requires StageOk(s) && HolderOk(c, s) && Enabled(c, s, LoopStep(id, choice)) && s.peers[id].cancelled
    ensures var s' := Apply(c, s, LoopStep(id, choice));
            && s'.peers[id].cancelled && GoneWork(s', id) < GoneWork(s, id)
            && MayStillDial(s'.peers[id].pc) + OneIf(s.peers[id].pc.CallDial?) <= MayStillDial(s.peers[id].pc)
  {
    if s.peers[id].pc.WantEvictLock? {
      assert |{s.peers[id].address}| == 1;
    } else {
      GoneStep(c, s.peers[id], s.done, choice);
    }
  }

  lemma WorkGone(c: Config, s: State, a: Action, id: nat)
    requires StageOk(s) && HolderOk(c, s) && Enabled(c, s, a) && Own(s, a, id) && !a.LoopStep?
    requires id < |s.peers| && s.peers[id].cancelled
    ensures id < |Apply(c, s, a).peers| && Apply(c, s, a).peers[id].cancelled
    ensures GoneWork(Apply(c, s, a), id) < GoneWork(s, id)
    ensures MayStillDial(Apply(c, s, a).peers[id].pc) == 0
  {
    WorkRankFalls(c, s, a, id);
    OthersKeepPc(c, s, a, id);
    OthersKeepCancelled(c, s, a, id);
  }

  /** Its own steps lower the work of a cancelled loop, no other step raises it, and it stays cancelled. */
  lemma GoneByStep(c: Config, s: State, a: Action, id: nat)
    requires StageOk(s) && HolderOk(c, s) && Enabled(c, s, a) && id < |s.peers| && s.peers[id].cancelled
    ensures var s' := Apply(c, s, a);
            && id < |s'.peers| && s'.peers[id].cancelled
            && GoneWork(s', id) + OneIf(Own(s, a, id)) <= GoneWork(s, id)
            && MayStillDial(s'.peers[id].pc) + OneIf(StartsDial(s, a, id)) <= MayStillDial(s.peers[id].pc)
  {
    if !Own(s, a, id) {
      OthersKeepGone(c, s, a, id);
    } else if a.LoopStep? {
      LoopStepGone(c, s, id, a.choice);
    } else {
      WorkGone(c, s, a, id);
    }
  }

  lemma GoneWorkIsBounded(c: Config, s: State, id: nat)
    requires StageOk(s) && HolderOk(c, s) && id < |s.peers|
    ensures 0 <= GoneWork(s, id) <= 14
  {
    if s.crit.Work? && s.crit.holder == Loop(id) {
      assert s.crit.left == {} || s.crit.left == {s.peers[id].address};
      CritRankIsPositive(s);
    }
  }

  lemma {:induction false} GoneAlong(c: Config, s: State, actions: seq<Action>, id: nat)
    requires Inv(c, s) && Runs(c, s, actions) && id < |s.peers| && s.peers[id].cancelled
    ensures var t := Run(c, s, actions);
            && Inv(c, t) && id < |t.peers| && t.peers[id].cancelled
            && OwnSteps(c, s, actions, id) + GoneWork(t, id) <= GoneWork(s, id)
            && DialsStarted(c, s, actions, id) + MayStillDial(t.peers[id].pc) <= MayStillDial(s.peers[id].pc)
    decreases |actions|
  {
    if actions != [] {
      StepKeepsInv(c, s, actions[0]);
      GoneByStep(c, s, actions[0], id);
      GoneAlong(c, Apply(c, s, actions[0]), actions[1..], id);
    }
  }

  // Where a cancelled loop does not come any more

  /** Not giving up, and not in the dial: what it is about to evict or to connect it had begun before. */
  predicate Harmless(c: Config, p: Peer) {
    p.cancelled && !MayEvict(c, p)
  }

  lemma HarmlessStays(c: Config, s: State, a: Action, id: nat)
    requires HolderOk(c, s) && Enabled(c, s, a) && id < |s.peers| && Harmless(c, s.peers[id])
    ensures id < |Apply(c, s, a).peers| && Harmless(c, Apply(c, s, a).peers[id])
  {
    if a.LoopStep? && a.id == id {
      GoneStep(c, s.peers[id], s.done, a.choice);
      GoneWays(c, s.peers[id], s.done, a.choice);
    } else {
      OthersKeepCancelled(c, s, a, id);
      OthersKeepPc(c, s, a, id);
    }
  }

  lemma {:induction false} HarmlessAlong(c: Config, s: State, actions: seq<Action>, id: nat)
    requires Inv(c, s) && Runs(c, s, actions) && id < |s.peers| && Harmless(c, s.peers[id])
    ensures id < |Run(c, s, actions).peers| && Harmless(c, Run(c, s, actions).peers[id])
    decreases |actions|
  {
    if actions != [] {
      assert HolderOk(c, s);
      StepKeepsInv(c, s, actions[0]);
      HarmlessStays(c, s, actions[0], id);
      HarmlessAlong(c, Apply(c, s, actions[0]), actions[1..], id);
    }
  }

  /**
   However the run goes on, and whatever the failure threshold is, a loop whose context is cancelled takes at most
   fourteen more steps and starts at most one more dial, and that only if it was about to.
   */
  lemma CancelledLoopEnds(c: Config, before: seq<Action>, after: seq<Action>, i: nat)
    requires Reaches(c, before) && i < |Reached(c, before).peers| && Reached(c, before).peers[i].cancelled
    requires Runs(c, Reached(c, before), after)
    ensures var s := Reached(c, before);
            && OwnSteps(c, s, after, i) <= 14
            && DialsStarted(c, s, after, i) <= OneIf(s.peers[i].pc.MarkConnecting? || s.peers[i].pc.CallDial?)
  {
    var s := Reached(c, before);
    ReachedInv(c, before);
    GoneAlong(c, s, after, i);
    GoneWorkIsBounded(c, s, i);
    GoneWorkIsBounded(c, Run(c, s, after), i);
  }

  /**
   It comes to evict only if, when it was found cancelled, it was past its check of the context and one more
   failed dial would reach the threshold, or had.
   */
  lemma CancelledLoopEvictsOnlyIf(c: Config, before: seq<Action>, after: seq<Action>, i: nat)
    requires Reaches(c, before) && i < |Reached(c, before).peers| && Reached(c, before).peers[i].cancelled
    requires Runs(c, Reached(c, before), after)
    ensures var s, t := Reached(c, before), Run(c, Reached(c, before), after);
            && i < |t.peers|
            && (t.peers[i].pc.WantEvictLock? || t.peers[i].pc.Evicting? ==> MayEvict(c, s.peers[i]))
  {
    var s := Reached(c, before);
    ReachedInv(c, before);
    GoneAlong(c, s, after, i);
    if !MayEvict(c, s.peers[i]) { HarmlessAlong(c, s, after, i); }
  }

  // No new connection

  /** The loop is outside the dial, and has no other connection than `first`, if it has one. */
  predicate NoneNew(p: Peer, first: Option<Conn>) {
    p.cancelled && !p.pc.InDial? && (p.conn.Some? ==> first.Some? && p.conn.value.serial == first.value.serial)
  }

  lemma OthersKeepConnection(c: Config, s: State, a: Action, i: nat)
    requires Enabled(c, s, a) && i < |s.peers| && !(a.LoopStep? && a.id == i)
    ensures i < |Apply(c, s, a).peers|
    ensures var p, q := s.peers[i], Apply(c, s, a).peers[i];
            q.conn.Some? ==> p.conn.Some? && q.conn.value.serial == p.conn.value.serial
  {
    match a
    case AddDiscovered(_) =>
    case WorkTell =>
    case _ =>
  }

  lemma NoneNewByStep(c: Config, s: State, a: Action, i: nat, first: Option<Conn>)
    requires Enabled(c, s, a) && i < |s.peers| && NoneNew(s.peers[i], first)
    ensures i < |Apply(c, s, a).peers| && NoneNew(Apply(c, s, a).peers[i], first)
  {
    if a.LoopStep? && a.id == i {
      if !s.peers[i].pc.WantEvictLock? {
        GoneStep(c, s.peers[i], s.done, a.choice);
        GoneWays(c, s.peers[i], s.done, a.choice);
      }
    } else {
      OthersKeepCancelled(c, s, a, i);
      OthersKeepPc(c, s, a, i);
      OthersKeepConnection(c, s, a, i);
    }
  }

  lemma {:induction false} NoneNewAlong(c: Config, s: State, actions: seq<Action>, i: nat, first: Option<Conn>)
    requires Runs(c, s, actions) && i < |s.peers| && NoneNew(s.peers[i], first)
    ensures i < |Run(c, s, actions).peers| && NoneNew(Run(c, s, actions).peers[i], first)
    decreases |actions|
  {
    if actions != [] {
      NoneNewByStep(c, s, actions[0], i, first);
      NoneNewAlong(c, Apply(c, s, actions[0]), actions[1..], i, first);
    }
  }

  /** A loop that is found cancelled outside the dial is never in a dial again and stores no further connection. */
  lemma CancelledLoopConnectsNoMore(c: Config, before: seq<Action>, after: seq<Action>, i: nat)
    requires Reaches(c, before) && i < |Reached(c, before).peers| && Runs(c, Reached(c, before), after)
    requires Reached(c, before).peers[i].cancelled && !Reached(c, before).peers[i].pc.InDial?
    ensures var p, t := Reached(c, before).peers[i], Run(c, Reached(c, before), after);
            && i < |t.peers| && !t.peers[i].pc.InDial?
            && (t.peers[i].conn.Some? ==> p.conn.Some? && t.peers[i].conn.value.serial == p.conn.value.serial)
  {
    var s := Reached(c, before);
    NoneNewAlong(c, s, after, i, s.peers[i].conn);
  }

  // It can return

  lemma StepOnWay(c: Config, s0: State, s: State, a: Action)
    requires Leads(c, s0, s) && Sound(c, s) && Enabled(c, s, a)
    ensures Leads(c, s0, Apply(c, s, a)) && Sound(c, Apply(c, s, a))
  {
    LeadsOn(c, s0, s, a);
    SoundByStep(c, s, a);
  }

  /** The lock holder, if there is one, gets to the end of its work. */
  lemma HolderOnWay(c: Config, s0: State, s: State, i: nat) returns (t: State)
    requires Leads(c, s0, s) && Sound(c, s) && i < |s.peers|
    ensures Leads(c, s0, t) && Sound(c, t) && t.crit.Free? && i < |t.peers|
    ensures s.peers[i].pc.WantEvictLock? ==> t.peers[i].pc.WantEvictLock?
    ensures s.peers[i].pc.Evicting? ==> t.peers[i].pc.Returned?
  {
    HolderFinishes(c, s, i);
    var actions :| EndsWell(c, s, i, actions);
    LeadsFurther(c, s0, s, actions);
    SoundAlong(c, s, actions);
    t := Run(c, s, actions);
  }

  lemma EvictionReturns(c: Config, s0: State, s: State, i: nat) returns (t: State)
    requires Leads(c, s0, s) && Sound(c, s) && i < |s.peers|
    requires s.peers[i].pc.WantEvictLock? || s.peers[i].pc.Evicting?
    ensures Leads(c, s0, t) && i < |t.peers| && t.peers[i].pc.Returned?
  {
    t := HolderOnWay(c, s0, s, i);
    if s.peers[i].pc.WantEvictLock? {
      StepOnWay(c, s0, t, LoopStep(i, Fails));
      t := HolderOnWay(c, s0, TakeEvictLock(t, i), i);
    }
  }

  /** The choice that brings a cancelled loop nearer to its end. */
  function WayOut(p: Peer): Choice {
    if p.pc.Waiting? then SeesCancel else Fails
  }

  lemma CancelledCanStep(c: Config, s: State, i: nat)
    requires PeersOk(c, s) && i < |s.peers| && s.peers[i].cancelled && !Unended(s.peers[i])
    requires !s.peers[i].pc.WantEvictLock? && !s.peers[i].pc.Evicting? && !s.peers[i].pc.Returned?
    ensures Enabled(c, s, LoopStep(i, WayOut(s.peers[i])))
  {
    assert PeerOk(c, s.peers[i]);
  }

  /** The other side ends the connection that the loop waits for, if it waits for one. */
  lemma ConnectionEnds(c: Config, s0: State, s: State, i: nat) returns (t: State)
    requires Leads(c, s0, s) && Sound(c, s) && i < |s.peers| && s.peers[i].cancelled
    ensures Leads(c, s0, t) && Sound(c, t) && i < |t.peers| && t.peers[i].cancelled
    ensures t.peers[i].pc == s.peers[i].pc && !Unended(t.peers[i])
  {
    t := s;
    if Unended(s.peers[i]) {
      StepOnWay(c, s0, s, RemoteDrop(i));
      t := Apply(c, s, RemoteDrop(i));
    }
  }

  lemma {:induction false} CancelledReturns(c: Config, s0: State, s: State, i: nat) returns (t: State)
    requires Leads(c, s0, s) && Sound(c, s) && i < |s.peers| && s.peers[i].cancelled
    ensures Leads(c, s0, t) && i < |t.peers| && t.peers[i].pc.Returned?
    decreases GoneRank(s.peers[i].pc)
  {
    if s.peers[i].pc.Returned? {
      t := s;
    } else if s.peers[i].pc.WantEvictLock? || s.peers[i].pc.Evicting? {
      t := EvictionReturns(c, s0, s, i);
    } else {
      var s1 := ConnectionEnds(c, s0, s, i);
      var a := LoopStep(i, WayOut(s1.peers[i]));
      CancelledCanStep(c, s1, i);
      GoneStep(c, s1.peers[i], s1.done, WayOut(s1.peers[i]));
      StepOnWay(c, s0, s1, a);
      t := CancelledReturns(c, s0, Apply(c, s1, a), i);
    }
  }

  /**
   From every reachable state a cancelled loop can return; and the context of a peer that a user added can end, so
   its loop can be made to return without removing it.
   */
  lemma CancelledLoopCanReturn(c: Config, before: seq<Action>, i: nat)
    requires Reaches(c, before) && i < |Reached(c, before).peers|
    requires Reached(c, before).peers[i].cancelled || !Reached(c, before).peers[i].background
    ensures exists t :: Leads(c, Reached(c, before), t) && i < |t.peers| && t.peers[i].pc.Returned?
  {
    var s := Reached(c, before);
    SoundReached(c, before);
    LeadsNowhere(c, s);
    if s.peers[i].cancelled {
      var t := CancelledReturns(c, s, s, i);
    } else {
      StepOnWay(c, s, s, ContextEnds(i));
      var t := CancelledReturns(c, s, Apply(c, s, ContextEnds(i)), i);
    }
  }
}
