/**
 Shutdown: once `done` is closed every connection loop has a bounded number of its own steps left and starts at
 most one more dial, although the select in waitOrCancel may keep choosing the timer; and after the sweep only
 a connection that was being dialed when its loop was cancelled can hold Stop up.
 */
module PeerShutdown {
  import opened Wrappers
  import opened PeerProtocol
  import opened PeerInvariant
  import opened PeerTheorems
  import opened PeerRemoval
  import opened PeerLock

  /** A bound on a loop's own steps from here on when `done` is closed, its eviction work not counted. */
  function PcRank(pc: Pc): nat {
    match pc
    case CheckContext => 14
    case MarkConnecting => 13
    case CallDial => 12
    case InDial => 11
    case MarkFailed => 10
    case CountFailure => 9
    case CheckThreshold => 8
    case WantEvictLock => 7
    case MarkConnected => 10
    case ResetFailures => 9
    case NotifyConnected => 8
    case AskAddresses => 7
    case AwaitDisconnect => 6
    case MarkDisconnected => 5
    case ClearPointer => 4
    case NotifyDisconnected => 3
    case Waiting => 2
    case CheckDone => 1
    case Evicting => 0
    case Returned => 0
  }

  function WorkRank(s: State, id: nat): int {
    if s.crit.Work? && s.crit.holder == Loop(id) then CritRank(s) else 0
  }

  /** A loop that does not exist yet will start at its first check. */
  function Rank(s: State, id: nat): int {
    if id < |s.peers| then PcRank(s.peers[id].pc) + WorkRank(s, id) else 1
  }

  /** Steps that the goroutine of loop `id` takes, those under the peer-map lock included. */
  predicate Own(s: State, a: Action, id: nat) {
    match a
    case LoopStep(i, _) => i == id
    case WorkLookup(_) => s.crit.Work? && s.crit.holder == Loop(id)
    case WorkRead => s.crit.Work? && s.crit.holder == Loop(id)
    case WorkTell => s.crit.Work? && s.crit.holder == Loop(id)
    case WorkDelete => s.crit.Work? && s.crit.holder == Loop(id)
    case WorkEnds => s.crit.Work? && s.crit.holder == Loop(id)
    case _ => false
  }

  predicate StartsDial(s: State, a: Action, id: nat) {
    a.LoopStep? && a.id == id && id < |s.peers| && s.peers[id].pc.CallDial?
  }

  function MayDial(s: State, id: nat): nat {
    if id >= |s.peers| then 0
    else match s.peers[id].pc
         case CheckContext => 1
         case MarkConnecting => 1
         case CallDial => 1
         case _ => 0
  }

  function OneIf(b: bool): nat {
    if b then 1 else 0
  }

  function OwnSteps(c: Config, s: State, actions: seq<Action>, id: nat): nat
    requires Runs(c, s, actions)
    decreases |actions|
  {
    if actions == [] then 0
    else OneIf(Own(s, actions[0], id)) + OwnSteps(c, Apply(c, s, actions[0]), actions[1..], id)
  }

  function DialsStarted(c: Config, s: State, actions: seq<Action>, id: nat): nat
    requires Runs(c, s, actions)
    decreases |actions|
  {
    if actions == [] then 0
    else OneIf(StartsDial(s, actions[0], id)) + DialsStarted(c, Apply(c, s, actions[0]), actions[1..], id)
  }

  lemma LoopNextRank(c: Config, p: Peer, choice: Choice)
    requires LoopNext(c, p, true, choice).Some?
    ensures PcRank(LoopNext(c, p, true, choice).value.pc) < PcRank(p.pc)
  {
    match p.pc
    case CheckDone =>
    case Waiting =>
    case InDial =>
    case _ =>
  }

  lemma LoopNextDials(c: Config, p: Peer, choice: Choice)
    requires LoopNext(c, p, true, choice).Some?
    ensures var q := LoopNext(c, p, true, choice).value;
            && !q.pc.CheckContext?
            && (q.pc.MarkConnecting? ==> p.pc.CheckContext?)
            && (q.pc.CallDial? ==> p.pc.MarkConnecting?)
  {
    match p.pc
    case CheckDone =>
    case CheckContext =>
    case MarkConnecting =>
    case Waiting =>
    case _ =>
  }

  /** Work done by an eviction gets less with every stage, and leaves its loop where it is, or returned. */
  lemma WorkRankFalls(c: Config, s: State, a: Action, id: nat)
    requires StageOk(s) && HolderOk(c, s) && Enabled(c, s, a) && Own(s, a, id) && !a.LoopStep?
    ensures id < |s.peers| && id < |Apply(c, s, a).peers|
    ensures PcRank(Apply(c, s, a).peers[id].pc) == PcRank(s.peers[id].pc) == 0
    ensures WorkRank(Apply(c, s, a), id) < WorkRank(s, id)
  {
    HolderStepLowers(c, s, a);
    CritRankIsPositive(s);
    match a
    case WorkLookup(_) =>
    case WorkRead =>
    case WorkTell =>
    case WorkDelete =>
    case WorkEnds =>
  }

  lemma OthersKeepWorkRank(c: Config, s: State, a: Action, id: nat)
    requires StageOk(s) && Enabled(c, s, a) && !Own(s, a, id)
    ensures WorkRank(Apply(c, s, a), id) <= WorkRank(s, id)
  {
    CritRankIsPositive(s);
    if !Holding(a) && !s.crit.Free? { OthersLeaveTheLock(c, s, a); }
  }

  /** A step that is not the loop's own leaves its place and its eviction work as they are. */
  lemma OthersKeepRank(c: Config, s: State, a: Action, id: nat)
    requires StageOk(s) && HolderOk(c, s) && Enabled(c, s, a) && !Own(s, a, id)
    ensures Rank(Apply(c, s, a), id) <= Rank(s, id)
  {
    OthersKeepWorkRank(c, s, a, id);
    if id < |Apply(c, s, a).peers| { OthersKeepPc(c, s, a, id); }
  }

  lemma LoopStepLowers(c: Config, s: State, a: Action, id: nat)
    requires StageOk(s) && HolderOk(c, s) && s.done && Enabled(c, s, a) && a.LoopStep? && a.id == id
    ensures Rank(Apply(c, s, a), id) < Rank(s, id)
  {
    if s.peers[id].pc.WantEvictLock? {
      assert |{s.peers[id].address}| == 1;
    } else {
      LoopNextRank(c, s.peers[id], a.choice);
    }
  }

  /** While `done` is closed, a loop's own steps lower its rank, and no other step raises it. */
  lemma RankFalls(c: Config, s: State, a: Action, id: nat)
    requires StageOk(s) && HolderOk(c, s) && s.done && Enabled(c, s, a)
    ensures Rank(Apply(c, s, a), id) + OneIf(Own(s, a, id)) <= Rank(s, id)
  {
    if !Own(s, a, id) {
      OthersKeepRank(c, s, a, id);
    } else if a.LoopStep? {
      LoopStepLowers(c, s, a, id);
    } else {
      WorkRankFalls(c, s, a, id);
    }
  }

  /** A dial that starts uses up the one the loop may still start; nothing gives it another. */
  lemma DialsFall(c: Config, s: State, a: Action, id: nat)
    requires s.done && Enabled(c, s, a)
    ensures MayDial(Apply(c, s, a), id) + OneIf(StartsDial(s, a, id)) <= MayDial(s, id)
  {
    if a.LoopStep? && a.id == id && !s.peers[id].pc.WantEvictLock? {
      LoopNextDials(c, s.peers[id], a.choice);
    } else if a.LoopStep? && a.id == id {
      assert TakeEvictLock(s, id).peers[id].pc.Evicting?;
    } else if id < |Apply(c, s, a).peers| {
      OthersKeepPc(c, s, a, id);
    }
  }

  lemma RankIsBounded(c: Config, s: State, id: nat)
    requires StageOk(s) && HolderOk(c, s)
    ensures 0 <= Rank(s, id) <= 14
  {
    if id < |s.peers| && s.crit.Work? && s.crit.holder == Loop(id) {
      assert s.crit.left == {} || s.crit.left == {s.peers[id].address};
    }
  }

  lemma DoneStays(c: Config, s: State, a: Action)
    requires s.done && Enabled(c, s, a)
    ensures Apply(c, s, a).done
  {
  }

  lemma {:induction false} RunRank(c: Config, s: State, actions: seq<Action>, id: nat)
    requires Inv(c, s) && s.done && Runs(c, s, actions)
    ensures OwnSteps(c, s, actions, id) + Rank(Run(c, s, actions), id) <= Rank(s, id)
    ensures DialsStarted(c, s, actions, id) + MayDial(Run(c, s, actions), id) <= MayDial(s, id)
    decreases |actions|
  {
    if actions != [] {
      var a := actions[0];
      StepKeepsInv(c, s, a);
      RankFalls(c, s, a, id);
      DialsFall(c, s, a, id);
      DoneStays(c, s, a);
      RunRank(c, Apply(c, s, a), actions[1..], id);
    }
  }

  /**
   However the rest of the run goes after `done` is closed, a loop takes at most fourteen more steps and starts
   at most one more dial; a loop created later takes one step and starts none.
   */
  lemma ShutdownBound(c: Config, before: seq<Action>, after: seq<Action>, id: nat)
    requires Reaches(c, before) && Reached(c, before).done && Runs(c, Reached(c, before), after)
    ensures var s := Reached(c, before);
            && OwnSteps(c, s, after, id) <= 14
            && DialsStarted(c, s, after, id) <= 1
            && (id >= |s.peers| ==> OwnSteps(c, s, after, id) <= 1 && DialsStarted(c, s, after, id) == 0)
  {
    var s := Reached(c, before);
    ReachedInv(c, before);
    RunRank(c, s, after, id);
    RankIsBounded(c, s, id);
    RunKeepsInv(c, s, after);
    RankIsBounded(c, Run(c, s, after), id);
  }

  // The select of waitOrCancel

  /** One of the arms of the select brings loop `i` to `pc`. */
  ghost predicate CanCome(c: Config, s: State, i: nat, pc: Pc) {
    exists choice :: Enabled(c, s, LoopStep(i, choice)) && Apply(c, s, LoopStep(i, choice)).peers[i].pc == pc
  }

  /** A waiting loop may return exactly if `done` is closed or its context cancelled, and may always go round again. */
  lemma WaitingReturnsExactlyWhen(c: Config, s: State, i: nat)
    requires i < |s.peers| && s.peers[i].pc.Waiting?
    ensures CanCome(c, s, i, Returned) <==> s.done || s.peers[i].cancelled
    ensures CanCome(c, s, i, CheckDone)
  {
    assert Enabled(c, s, LoopStep(i, TimerFires));
    if s.done { assert Enabled(c, s, LoopStep(i, SeesDone)); }
    if s.peers[i].cancelled { assert Enabled(c, s, LoopStep(i, SeesCancel)); }
  }

  // The pause between two dials

  /** The loop has not dialed since it was made or its timer last fired. */
  function Credit(s: State, id: nat): nat {
    if id >= |s.peers| then 1
    else match s.peers[id].pc
         case CheckDone => 1
         case CheckContext => 1
         case MarkConnecting => 1
         case CallDial => 1
         case _ => 0
  }

  predicate TimerRound(s: State, a: Action, id: nat) {
    a == LoopStep(id, TimerFires) && id < |s.peers| && s.peers[id].pc.Waiting?
  }

  function TimerRounds(c: Config, s: State, actions: seq<Action>, id: nat): nat
    requires Runs(c, s, actions)
    decreases |actions|
  {
    if actions == [] then 0
    else OneIf(TimerRound(s, actions[0], id)) + TimerRounds(c, Apply(c, s, actions[0]), actions[1..], id)
  }

  lemma CreditByLoop(c: Config, p: Peer, done: bool, choice: Choice)
    requires LoopNext(c, p, done, choice).Some?
    ensures var q := LoopNext(c, p, done, choice).value;
            q.pc.CheckDone? || q.pc.CheckContext? || q.pc.MarkConnecting? || q.pc.CallDial? ==>
              p.pc.CheckDone? || p.pc.CheckContext? || p.pc.MarkConnecting? || (p.pc.Waiting? && choice == TimerFires)
  {
    match p.pc
    case CheckDone =>
    case CheckContext =>
    case CallDial =>
    case InDial =>
    case CheckThreshold =>
    case AwaitDisconnect =>
    case Waiting =>
    case _ =>
  }

  lemma CreditByStep(c: Config, s: State, a: Action, id: nat)
    requires Enabled(c, s, a)
    ensures Credit(Apply(c, s, a), id) + OneIf(StartsDial(s, a, id)) <= Credit(s, id) + OneIf(TimerRound(s, a, id))
  {
    if a.LoopStep? && a.id == id {
      if !s.peers[id].pc.WantEvictLock? { CreditByLoop(c, s.peers[id], s.done, a.choice); }
    } else if id < |Apply(c, s, a).peers| {
      OthersKeepPc(c, s, a, id);
    }
  }

  lemma {:induction false} CreditAlong(c: Config, s: State, actions: seq<Action>, id: nat)
    requires Runs(c, s, actions)
    ensures DialsStarted(c, s, actions, id) + Credit(Run(c, s, actions), id) <=
            Credit(s, id) + TimerRounds(c, s, actions, id)
    decreases |actions|
  {
    if actions != [] {
      CreditByStep(c, s, actions[0], id);
      CreditAlong(c, Apply(c, s, actions[0]), actions[1..], id);
    }
  }

  /** In every run a loop starts at most one dial more than its timer has fired: it pauses between any two dials. */
  lemma DialsArePaced(c: Config, actions: seq<Action>, id: nat)
    requires Reaches(c, actions)
    ensures DialsStarted(c, Init(), actions, id) <= 1 + TimerRounds(c, Init(), actions, id)
  {
    CreditAlong(c, Init(), actions, id);
  }

  // What can hold up Stop

  /** Loops that were made after the sweep began have not gone past their first check. */
  ghost predicate LateLoopsSilent(s: State) {
    SweepOver(s) ==> s.done && forall i :: s.swept <= i < |s.peers| ==> Silent(s.peers[i])
  }

  lemma SweepEnds(c: Config, s: State, a: Action)
    requires HolderOk(c, s) && Enabled(c, s, a) && !SweepOver(s) && SweepOver(Apply(c, s, a))
    ensures Apply(c, s, a).swept == |Apply(c, s, a).peers|
  {
  }

  lemma SweptIsFixed(c: Config, s: State, a: Action)
    requires Enabled(c, s, a) && SweepOver(s)
    ensures Apply(c, s, a).swept == s.swept
  {
  }

  lemma LateByStep(c: Config, s: State, a: Action)
    requires HolderOk(c, s) && Enabled(c, s, a) && PhasesOk(Apply(c, s, a)) && LateLoopsSilent(s)
    ensures LateLoopsSilent(Apply(c, s, a))
  {
    var s' := Apply(c, s, a);
    if SweepOver(s') && !SweepOver(s) {
      SweepEnds(c, s, a);
    } else if SweepOver(s') {
      SweptIsFixed(c, s, a);
      forall i | s'.swept <= i < |s'.peers| ensures Silent(s'.peers[i]) {
        SilentStays(c, s, a, i);
      }
    }
  }

  lemma {:induction false} LateAlong(c: Config, s: State, actions: seq<Action>)
    requires Inv(c, s) && Runs(c, s, actions) && LateLoopsSilent(s)
    ensures LateLoopsSilent(Run(c, s, actions))
    decreases |actions|
  {
    if actions != [] {
      StepKeepsInv(c, s, actions[0]);
      LateByStep(c, s, actions[0]);
      LateAlong(c, Apply(c, s, actions[0]), actions[1..]);
    }
  }

  lemma InitNotSwept()
    ensures LateLoopsSilent(Init())
  {
  }

  lemma LateReached(c: Config, actions: seq<Action>)
    requires Reaches(c, actions)
    ensures LateLoopsSilent(Reached(c, actions))
  {
    InitHolds(c);
    InitNotSwept();
    LateAlong(c, Init(), actions);
  }

  ghost predicate CanStep(c: Config, s: State, id: nat) {
    exists choice :: Enabled(c, s, LoopStep(id, choice))
  }

  /**
   After the sweep, with the lock free, a loop that has not returned cannot go on exactly when it waits for a
   connection that nobody has ended; then it was there before the sweep, and was dialing that connection when
   the sweep or an earlier removal cancelled it.
   */
  lemma OnlyLateDialsHoldUpStop(c: Config, actions: seq<Action>, id: nat)
    requires Reaches(c, actions) && SweepOver(Reached(c, actions)) && Reached(c, actions).crit.Free?
    requires id < |Reached(c, actions).peers| && !Reached(c, actions).peers[id].pc.Returned?
    ensures var s := Reached(c, actions);
            && (!CanStep(c, s, id) <==> Unended(s.peers[id]))
            && (Unended(s.peers[id]) ==> id < s.swept && s.peers[id].cancelledAt == Some(InDial))
  {
    var s := Reached(c, actions);
    ReachedInv(c, actions);
    NoLoopIsStuck(c, actions, id);
    if s.peers[id].pc.WantEvictLock? { assert Enabled(c, s, LoopStep(id, Fails)); }
    LateReached(c, actions);
    if Unended(s.peers[id]) { SweptLoopsLetGo(c, actions, id); }
  }
}
