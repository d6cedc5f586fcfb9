/**
 Whether Stop can succeed: in every case once the other sides have dropped their connections, and on its own
 exactly when no loop is stranded. And whether a health check can be made: always.
 */
module PeerLiveness {
  import opened PeerProtocol
  import opened PeerInvariant
  import opened PeerTheorems
  import opened PeerRuns
  import opened PeerRemoval
  import opened PeerLock
  import opened PeerShutdown
  import opened PeerStop

  // How much is left to do

  function SumRank(peers: seq<Peer>): nat {
    if peers == [] then 0 else SumRank(peers[..|peers| - 1]) + PcRank(peers[|peers| - 1].pc)
  }

  lemma {:induction false} SumRankUpdate(peers: seq<Peer>, i: nat, p: Peer)
    requires i < |peers|
    ensures SumRank(peers[i := p]) + PcRank(peers[i].pc) == SumRank(peers) + PcRank(p.pc)
    decreases |peers|
  {
    var n := |peers| - 1;
    if i == n {
      assert peers[i := p][..n] == peers[..n];
    } else {
      assert peers[i := p][..n] == peers[..n][i := p];
      SumRankUpdate(peers[..n], i, p);
    }
  }

  function StopStage(s: State): nat {
    match s.stop
    case WantLock => 2
    case Sweeping => 1
    case _ => 0
  }

  function ToDo(s: State): nat {
    SumRank(s.peers) + HealthLive(s) + StopStage(s)
  }

  lemma {:induction false} SameSum(peers: seq<Peer>, others: seq<Peer>)
    requires |others| == |peers| && forall k :: 0 <= k < |peers| ==> SamePlace(peers[k], others[k])
    ensures SumRank(others) == SumRank(peers)
    decreases |peers|
  {
    if peers != [] { SameSum(peers[..|peers| - 1], others[..|others| - 1]); }
  }

  lemma EndAddsNoWork(c: Config, s: State)
    requires Enabled(c, s, WorkEnds) && HolderOk(c, s)
    ensures ToDo(EndWork(s)) <= ToDo(s)
  {
    if s.crit.holder.Loop? {
      SumRankUpdate(s.peers, s.crit.holder.id, s.peers[s.crit.holder.id].(pc := Returned));
    }
  }

  lemma HolderAddsNoWork(c: Config, s: State, a: Action)
    requires Enabled(c, s, a) && Holding(a) && HolderOk(c, s)
    ensures ToDo(Apply(c, s, a)) <= ToDo(s)
  {
    if a.WorkEnds? {
      EndAddsNoWork(c, s);
    } else {
      HolderMovesNoLoop(c, s, a);
      SameSum(s.peers, Apply(c, s, a).peers);
    }
  }

  lemma LoopDoesWork(c: Config, s: State, i: nat, choice: Choice)
    requires s.done && Enabled(c, s, LoopStep(i, choice))
    ensures ToDo(Apply(c, s, LoopStep(i, choice))) < ToDo(s)
  {
    if s.peers[i].pc.WantEvictLock? {
      SumRankUpdate(s.peers, i, s.peers[i].(pc := Evicting));
    } else {
      LoopNextRank(c, s.peers[i], choice);
      SumRankUpdate(s.peers, i, LoopNext(c, s.peers[i], s.done, choice).value);
    }
  }

  predicate Advances(s: State, t: State) {
    ToDo(t) < ToDo(s) || (ToDo(t) == ToDo(s) && 0 <= CritRank(t) < CritRank(s))
  }

  // The next step

  ghost predicate NobodyStranded(c: Config, s: State) {
    forall i :: !Stranded(c, s, i)
  }

  /** The choice that brings a loop nearer to its end without a new connection. */
  function ModestChoice(p: Peer): Choice {
    if p.pc.Waiting? then SeesDone else Fails
  }

  /** A loop that can go on, given one that has not returned: itself, or the one that will evict its peer. */
  lemma SomeLoopGoesOn(c: Config, s: State, i: nat) returns (j: nat)
    requires StopOk(c, s) && NobodyStranded(c, s) && s.crit.Free? && s.stop.WaitingForLoops?
    requires i < |s.peers| && !s.peers[i].pc.Returned?
    ensures j < |s.peers| && Enabled(c, s, LoopStep(j, ModestChoice(s.peers[j])))
  {
    j := i;
    if Unended(s.peers[i]) {
      assert !Stranded(c, s, i);
      j :| Evictor(c, s, i, j);
    }
    assert PeerOk(c, s.peers[j]) && s.done;
  }

  lemma NextStep(c: Config, s: State) returns (a: Action)
    requires StopOk(c, s) && NobodyStranded(c, s)
    requires !(s.crit.Free? && s.stop.WaitingForLoops? && AllReturned(s))
    ensures Enabled(c, s, a) && Modest(a) && Stopping(Apply(c, s, a)) && Advances(s, Apply(c, s, a))
  {
    if !s.crit.Free? {
      LockHolderMoves(c, s);
      a :| Holding(a) && Enabled(c, s, a);
      HolderKeepsStopping(c, s, a);
      assert HolderOk(c, s);
      HolderAddsNoWork(c, s, a);
      HolderStepLowers(c, s, a);
      StepKeepsInv(c, s, a);
      CritRankIsPositive(Apply(c, s, a));
    } else if s.stop.WantLock? {
      a := StopLocks;
    } else if i: nat :| i < |s.peers| && !s.peers[i].pc.Returned? {
      var j := SomeLoopGoesOn(c, s, i);
      a := LoopStep(j, ModestChoice(s.peers[j]));
      LoopDoesWork(c, s, j, ModestChoice(s.peers[j]));
    } else {
      a := HealthStops;
    }
  }

  // Runs

  /** A run without a drop by the other side. */
  predicate NoDrops(actions: seq<Action>) {
    forall i :: 0 <= i < |actions| ==> !actions[i].RemoteDrop?
  }

  ghost predicate SucceedsAlone(c: Config, s: State, actions: seq<Action>) {
    Runs(c, s, actions) && NoDrops(actions) && Run(c, s, actions).stop.Succeeded?
  }

  lemma SucceedsNow(c: Config, s: State)
    requires Inv(c, s) && s.stop.WaitingForLoops? && AllReturned(s)
    ensures SucceedsAlone(c, s, [WaitReturns, StopSucceeds])
  {
    NoneLive(s.peers);
    var s' := Apply(c, s, WaitReturns);
    assert [WaitReturns, StopSucceeds][1..] == [StopSucceeds] && [StopSucceeds][1..] == [];
    assert Runs(c, s', [StopSucceeds]) && Run(c, s', [StopSucceeds]) == Apply(c, s', StopSucceeds);
  }

  lemma SucceedsAfter(c: Config, s: State, a: Action, rest: seq<Action>)
    requires Enabled(c, s, a) && Modest(a) && SucceedsAlone(c, Apply(c, s, a), rest)
    ensures SucceedsAlone(c, s, [a] + rest)
  {
    assert ([a] + rest)[1..] == rest;
  }

  lemma {:induction false} StopsOnItsOwn(c: Config, s: State)
    requires StopOk(c, s) && NobodyStranded(c, s)
    ensures exists actions :: SucceedsAlone(c, s, actions)
    decreases ToDo(s), CritRank(s)
  {
    if s.crit.Free? && s.stop.WaitingForLoops? && AllReturned(s) {
      SucceedsNow(c, s);
    } else {
      var a := NextStep(c, s);
      StepKeepsInv(c, s, a);
      UsersByStep(c, s, a);
      forall i ensures !Stranded(c, Apply(c, s, a), i) { ModestStrandsNobody(c, s, a, i); }
      StopsOnItsOwn(c, Apply(c, s, a));
      var rest :| SucceedsAlone(c, Apply(c, s, a), rest);
      SucceedsAfter(c, s, a, rest);
    }
  }

  // What a stranded loop does to Stop

  lemma TimedOutStays(c: Config, s: State, a: Action)
    requires s.stop.TimedOut? && Enabled(c, s, a) && (s.crit.Work? ==> !s.crit.holder.Stopper?)
    ensures Apply(c, s, a).stop.TimedOut?
  {
  }

  lemma {:induction false} TimedOutForGood(c: Config, s: State, actions: seq<Action>)
    requires Inv(c, s) && s.stop.TimedOut? && Runs(c, s, actions)
    ensures Run(c, s, actions).stop.TimedOut?
    decreases |actions|
  {
    if actions != [] {
      assert HolderOk(c, s);
      StepKeepsInv(c, s, actions[0]);
      TimedOutStays(c, s, actions[0]);
      TimedOutForGood(c, Apply(c, s, actions[0]), actions[1..]);
    }
  }

  /** What the theorems need of a state besides the invariant. */
  ghost predicate Sound(c: Config, s: State) {
    Inv(c, s) && UsersKeptOut(s) && SilentOnceQuiet(s)
  }

  lemma SoundByStep(c: Config, s: State, a: Action)
    requires Sound(c, s) && Enabled(c, s, a)
    ensures Sound(c, Apply(c, s, a))
  {
    StepKeepsInv(c, s, a);
    UsersByStep(c, s, a);
    SilentByStep(c, s, a);
  }

  lemma {:induction false} SoundAlong(c: Config, s: State, actions: seq<Action>)
    requires Sound(c, s) && Runs(c, s, actions)
    ensures Sound(c, Run(c, s, actions))
    decreases |actions|
  {
    if actions != [] {
      SoundByStep(c, s, actions[0]);
      SoundAlong(c, Apply(c, s, actions[0]), actions[1..]);
    }
  }

  lemma {:induction false} UsersAlong(c: Config, s: State, actions: seq<Action>)
    requires UsersKeptOut(s) && Runs(c, s, actions)
    ensures UsersKeptOut(Run(c, s, actions))
    decreases |actions|
  {
    if actions != [] {
      UsersByStep(c, s, actions[0]);
      UsersAlong(c, Apply(c, s, actions[0]), actions[1..]);
    }
  }

  lemma SoundReached(c: Config, actions: seq<Action>)
    requires Reaches(c, actions)
    ensures Sound(c, Reached(c, actions))
  {
    ReachedInv(c, actions);
    SilentReached(c, actions);
    UsersAlong(c, Init(), actions);
  }

  lemma {:induction false} StrandedAlong(c: Config, s: State, actions: seq<Action>, i: nat)
    requires Sound(c, s) && Stopping(s) && Stranded(c, s, i)
    requires Runs(c, s, actions) && RemoteDrop(i) !in actions
    ensures var t := Run(c, s, actions);
            && !t.stop.Succeeded?
            && (StopTimesOut !in actions ==>
                  Stopping(t) && Stranded(c, t, i) && t.peers[i].conn == s.peers[i].conn)
    decreases |actions|
  {
    if actions != [] {
      var a, rest := actions[0], actions[1..];
      assert actions == [a] + rest;
      SoundByStep(c, s, a);
      if a == StopTimesOut {
        TimedOutForGood(c, Apply(c, s, a), rest);
      } else {
        StrandedStays(c, s, a, i);
        StrandedAlong(c, Apply(c, s, a), rest, i);
      }
    }
  }

  lemma StrandedIsCounted(c: Config, s: State, i: nat)
    requires Sound(c, s) && Stranded(c, s, i)
    ensures s.wg > 0 && !SaysQuiet(s)
  {
    NoneLive(s.peers);
  }

  /**
   While Stop runs, a stranded loop, mapped or not, keeps its connection until the other side drops it. Until then
   Stop does not report success, and unless Stop times out the wait group does not come down to zero.
   */
  lemma StrandedHoldsUpStop(c: Config, before: seq<Action>, after: seq<Action>, i: nat)
    requires Reaches(c, before) && Stopping(Reached(c, before)) && Stranded(c, Reached(c, before), i)
    requires Runs(c, Reached(c, before), after) && RemoteDrop(i) !in after
    ensures var s, t := Reached(c, before), Run(c, Reached(c, before), after);
            && !t.stop.Succeeded?
            && (StopTimesOut !in after ==>
                  && Stranded(c, t, i) && t.peers[i].conn == s.peers[i].conn
                  && t.wg > 0 && !SaysQuiet(t))
  {
    var s := Reached(c, before);
    SoundReached(c, before);
    StrandedAlong(c, s, after, i);
    SoundAlong(c, s, after);
    if StopTimesOut !in after { StrandedIsCounted(c, Run(c, s, after), i); }
  }

  /** Stop can succeed without a drop by any other side if and only if no loop is stranded. */
  lemma StopSucceedsAloneExactlyWhen(c: Config, before: seq<Action>)
    requires Reaches(c, before) && Stopping(Reached(c, before))
    ensures var s := Reached(c, before);
            (exists actions :: SucceedsAlone(c, s, actions)) <==> NobodyStranded(c, s)
  {
    var s := Reached(c, before);
    SoundReached(c, before);
    if NobodyStranded(c, s) {
      StopsOnItsOwn(c, s);
    } else {
      var i :| Stranded(c, s, i);
      forall actions ensures !SucceedsAlone(c, s, actions) {
        if SucceedsAlone(c, s, actions) { StrandedAlong(c, s, actions, i); }
      }
    }
  }

  // Stop succeeds once the other sides have dropped

  lemma OneMoreDrop(c: Config, s0: State, s: State, k: nat) returns (t: State)
    requires Leads(c, s0, s) && k < |s.peers| && Linked(s.peers[k])
    ensures Leads(c, s0, t) && t.stop == s.stop
    ensures |t.peers| == |s.peers| && !Linked(t.peers[k])
    ensures forall i :: 0 <= i < |s.peers| && i != k ==> t.peers[i] == s.peers[i]
  {
    LeadsOn(c, s0, s, RemoteDrop(k));
    t := Apply(c, s, RemoteDrop(k));
  }

  /** The other sides of the first `k` peers' connections drop them. */
  lemma {:induction false} DropsLead(c: Config, s0: State, s: State, k: nat) returns (t: State)
    requires Leads(c, s0, s) && k <= |s.peers|
    ensures Leads(c, s0, t) && t.stop == s.stop && |t.peers| == |s.peers|
    ensures forall i :: 0 <= i < k ==> !Linked(t.peers[i])
  {
    t := s;
    if k > 0 {
      t := DropsLead(c, s0, s, k - 1);
      if Linked(t.peers[k - 1]) { t := OneMoreDrop(c, s0, t, k - 1); }
    }
  }

  lemma LeadsFurther(c: Config, s: State, t: State, actions: seq<Action>)
    requires Leads(c, s, t) && Runs(c, t, actions)
    ensures Leads(c, s, Run(c, t, actions))
    decreases |actions|
  {
    if actions != [] {
      LeadsOn(c, s, t, actions[0]);
      LeadsFurther(c, s, Apply(c, t, actions[0]), actions[1..]);
    }
  }

  lemma SoundLeads(c: Config, s: State, t: State)
    requires Sound(c, s) && Leads(c, s, t)
    ensures Sound(c, t)
  {
    var actions :| Runs(c, s, actions) && Run(c, s, actions) == t;
    SoundAlong(c, s, actions);
  }

  lemma StoppingSucceeds(c: Config, s0: State, s: State)
    requires Sound(c, s0) && Leads(c, s0, s) && Stopping(s)
    ensures exists t :: Leads(c, s0, t) && t.stop.Succeeded?
  {
    var d := DropsLead(c, s0, s, |s.peers|);
    SoundLeads(c, s0, d);
    StopsOnItsOwn(c, d);
    var actions :| SucceedsAlone(c, d, actions);
    LeadsFurther(c, s0, d, actions);
  }

  /** The holder works until the lock is free. */
  lemma {:induction false} LockFreed(c: Config, s0: State, s: State) returns (t: State)
    requires Leads(c, s0, s) && Sound(c, s)
    ensures Leads(c, s0, t) && Sound(c, t) && t.crit.Free?
    ensures HealthLive(t) == HealthLive(s) && (t.health.NotStarted? <==> s.health.NotStarted?)
    ensures if s.stop.Sweeping? then t.stop.WaitingForLoops? else t.stop == s.stop
    decreases CritRank(s)
  {
    t := s;
    CritRankIsPositive(s);
    assert LockOk(c, s);
    if !s.crit.Free? {
      LockHolderMoves(c, s);
      var a :| Holding(a) && Enabled(c, s, a);
      HolderStepLowers(c, s, a);
      SoundByStep(c, s, a);
      LeadsOn(c, s0, s, a);
      HolderKeepsPhases(c, s, a);
      t := LockFreed(c, s0, Apply(c, s, a));
    }
  }

  lemma HolderKeepsPhases(c: Config, s: State, a: Action)
    requires HolderOk(c, s) && Enabled(c, s, a) && Holding(a)
    ensures var t := Apply(c, s, a);
            && HealthLive(t) == HealthLive(s) && (t.health.NotStarted? <==> s.health.NotStarted?)
            && (if s.stop.Sweeping? then t.stop.Sweeping? || t.stop.WaitingForLoops? else t.stop == s.stop)
  {
  }

  /** A client that was not stopped yet can be started if it was not, and stopped. */
  lemma StopCanBeCalled(c: Config, s: State) returns (t: State)
    requires Sound(c, s) && s.stop.NotCalled?
    ensures Leads(c, s, t) && Sound(c, t) && Stopping(t)
  {
    LeadsNowhere(c, s);
    t := LockFreed(c, s, s);
    if t.health.NotStarted? {
      SoundByStep(c, t, Start);
      LeadsOn(c, s, t, Start);
      t := Apply(c, t, Start);
    }
    SoundByStep(c, t, StopCalled);
    LeadsOn(c, s, t, StopCalled);
    t := Apply(c, t, StopCalled);
  }

  /** From every reachable state in which Stop has not ended, some continuation lets it report success. */
  lemma StopCanSucceed(c: Config, before: seq<Action>)
    requires Reaches(c, before) && !Reached(c, before).stop.TimedOut?
    ensures exists t :: Leads(c, Reached(c, before), t) && t.stop.Succeeded?
  {
    var s := Reached(c, before);
    SoundReached(c, before);
    LeadsNowhere(c, s);
    if s.stop.NotCalled? {
      var t := StopCanBeCalled(c, s);
      StoppingSucceeds(c, s, t);
    } else if Stopping(s) {
      StoppingSucceeds(c, s, s);
    }
  }

  /** Stop can time out as well. */
  lemma StopCanTimeOut(c: Config, before: seq<Action>)
    requires Reaches(c, before) && !Reached(c, before).stop.Succeeded?
    ensures exists t :: Leads(c, Reached(c, before), t) && t.stop.TimedOut?
  {
    var s := Reached(c, before);
    SoundReached(c, before);
    LeadsNowhere(c, s);
    var t := s;
    if t.stop.NotCalled? { t := StopCanBeCalled(c, s); }
    t := LockFreed(c, s, t);
    if t.stop.WantLock? {
      SoundByStep(c, t, StopLocks);
      LeadsOn(c, s, t, StopLocks);
      t := LockFreed(c, s, Apply(c, t, StopLocks));
    }
    if t.stop.WaitingForLoops? { LeadsOn(c, s, t, StopTimesOut); }
  }

  // Health checks

  lemma {:induction false} ThresholdAlong(c: Config, s: State, actions: seq<Action>, i: nat)
    requires Inv(c, s) && Runs(c, s, actions) && i < |s.peers| && s.peers[i].failures == c.maxFailures
    ensures i < |Run(c, s, actions).peers| && Run(c, s, actions).peers[i].failures == c.maxFailures
    decreases |actions|
  {
    if actions != [] {
      assert PeerOk(c, s.peers[i]);
      StepKeepsInv(c, s, actions[0]);
      ThresholdStays(c, s, actions[0], i);
      ThresholdAlong(c, Apply(c, s, actions[0]), actions[1..], i);
    }
  }

  lemma ThresholdLeads(c: Config, s: State, t: State, i: nat)
    requires Inv(c, s) && Leads(c, s, t) && i < |s.peers| && s.peers[i].failures >= c.maxFailures
    ensures i < |t.peers| && t.peers[i].failures == c.maxFailures
  {
    assert PeerOk(c, s.peers[i]);
    var actions :| Runs(c, s, actions) && Run(c, s, actions) == t;
    ThresholdAlong(c, s, actions, i);
  }

  lemma FreeHealthIsIdle(c: Config, s: State)
    requires LockOk(c, s) && s.crit.Free? && HealthLive(s) == 1
    ensures s.health.Idle?
  {
  }

  /** The check itself, from the tick until the lock is free again. */
  lemma CheckMade(c: Config, s: State) returns (actions: seq<Action>)
    requires Sound(c, s) && Enabled(c, s, HealthTick)
    ensures var s' := Apply(c, s, HealthTick);
            && Runs(c, s', actions) && Run(c, s', actions).crit.Free? && Run(c, s', actions).health.Idle?
            && forall i :: 0 <= i < |s.peers| && s.peers[i].failures == c.maxFailures ==>
                 i < |Run(c, s', actions).peers| && !Mapped(Run(c, s', actions), i)
  {
    var s' := Apply(c, s, HealthTick);
    SoundByStep(c, s, HealthTick);
    LeadsNowhere(c, s');
    var t := LockFreed(c, s', s');
    actions :| Runs(c, s', actions) && Run(c, s', actions) == t;
    FreeHealthIsIdle(c, t);
    forall i | 0 <= i < |s.peers| && s.peers[i].failures == c.maxFailures
      ensures i < |t.peers| && !Mapped(t, i)
    {
      DueAlong(c, s', actions, i);
    }
  }

  /**
   While the health loop waits for its ticker, a check can be made from start to end, and then every peer that was
   at the threshold is off the map.
   */
  lemma HealthCheckCanBeMade(c: Config, before: seq<Action>)
    requires Reaches(c, before) && Reached(c, before).health.Idle?
    ensures exists t ::
      && Leads(c, Reached(c, before), t) && t.health.Idle? && t.crit.Free?
      && forall i :: 0 <= i < |Reached(c, before).peers| && Reached(c, before).peers[i].failures >= c.maxFailures ==>
           i < |t.peers| && !Mapped(t, i)
  {
    var s := Reached(c, before);
    SoundReached(c, before);
    LeadsNowhere(c, s);
    var s1 := LockFreed(c, s, s);
    FreeHealthIsIdle(c, s1);
    var actions := CheckMade(c, s1);
    LeadsOn(c, s, s1, HealthTick);
    LeadsFurther(c, s, Apply(c, s1, HealthTick), actions);
    var t := Run(c, Apply(c, s1, HealthTick), actions);
    forall i | 0 <= i < |s.peers| && s.peers[i].failures >= c.maxFailures
      ensures i < |t.peers| && !Mapped(t, i)
    {
      ThresholdLeads(c, s, s1, i);
    }
  }
}
