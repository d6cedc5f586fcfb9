/**
 The peer-map lock is always released: whoever holds it can take its next step, and has a bounded number of
 them before it lets go. So no loop is stuck, except on a connection that only the other side can end.
 */
module PeerLock {
  import opened PeerTable
  import opened PeerProtocol
  import opened PeerInvariant
  import opened PeerTheorems
  import opened PeerRemoval

  /** The steps of the goroutine that holds the lock. */
  predicate Holding(a: Action) {
    match a
    case ScanOne(_) => true
    case ScanEnds => true
    case WorkLookup(_) => true
    case WorkRead => true
    case WorkTell => true
    case WorkDelete => true
    case WorkEnds => true
    case _ => false
  }

  function StageRank(stage: Stage): int {
    match stage
    case Between => 1
    case Reading(_) => 0
    case Telling(_, _) => -1
    case Deleting(_) => -2
  }

  /** A bound on the holder's steps until it lets go. */
  function CritRank(s: State): int {
    match s.crit
    case Free => 0
    case Scan(todo, marked) => 5 * |todo| + 4 * |marked| + 2
    case Work(_, left, stage) => 4 * |left| + StageRank(stage)
  }

  lemma CritRankIsPositive(s: State)
    requires StageOk(s)
    ensures CritRank(s) >= 0 && (CritRank(s) == 0 <==> s.crit.Free?)
  {
    if s.crit.Work? && !s.crit.stage.Between? { assert |s.crit.left| > 0; }
  }

  lemma LookupLowers(c: Config, s: State, a: Addr)
    requires Enabled(c, s, WorkLookup(a))
    ensures CritRank(LookUp(s, a)) < CritRank(s)
  {
  }

  lemma DeleteLowers(c: Config, s: State)
    requires StageOk(s) && Enabled(c, s, WorkDelete)
    ensures CritRank(Delete(s)) < CritRank(s)
  {
  }

  lemma ScanLowers(c: Config, s: State, a: Addr)
    requires Enabled(c, s, ScanOne(a))
    ensures CritRank(ScanPeer(c, s, a)) < CritRank(s)
  {
  }

  /** Every step of the holder brings it nearer to the end of its work. */
  lemma HolderStepLowers(c: Config, s: State, a: Action)
    requires StageOk(s) && Enabled(c, s, a) && Holding(a)
    ensures CritRank(Apply(c, s, a)) < CritRank(s)
  {
    match a
    case ScanOne(addr) => ScanLowers(c, s, addr);
    case ScanEnds =>
    case WorkLookup(addr) => LookupLowers(c, s, addr);
    case WorkRead =>
    case WorkTell =>
    case WorkDelete => DeleteLowers(c, s);
    case WorkEnds =>
  }

  /** Nobody else touches the lock while it is held. */
  lemma OthersLeaveTheLock(c: Config, s: State, a: Action)
    requires Enabled(c, s, a) && !Holding(a) && !s.crit.Free?
    ensures Apply(c, s, a).crit == s.crit
  {
    match a
    case LoopStep(_, _) =>
    case _ =>
  }

  function HolderSteps(actions: seq<Action>): nat {
    if actions == [] then 0 else HolderSteps(actions[1..]) + if Holding(actions[0]) then 1 else 0
  }

  predicate HeldAlong(c: Config, s: State, actions: seq<Action>)
    requires Runs(c, s, actions)
    decreases |actions|
  {
    !s.crit.Free? && (actions == [] || HeldAlong(c, Apply(c, s, actions[0]), actions[1..]))
  }

  lemma {:induction false} HeldRank(c: Config, s: State, actions: seq<Action>)
    requires Inv(c, s) && Runs(c, s, actions) && HeldAlong(c, s, actions)
    ensures HolderSteps(actions) + CritRank(Run(c, s, actions)) <= CritRank(s)
    ensures CritRank(Run(c, s, actions)) > 0
    decreases |actions|
  {
    CritRankIsPositive(s);
    if actions != [] {
      var a := actions[0];
      StepKeepsInv(c, s, a);
      if Holding(a) { HolderStepLowers(c, s, a); } else { OthersLeaveTheLock(c, s, a); }
      HeldRank(c, Apply(c, s, a), actions[1..]);
    }
  }

  lemma RankWhenTaken(c: Config, s: State, a: Action)
    requires c.maxPeers > 0 && TableOk(c, s) && s.crit.Free? && Enabled(c, s, a)
    ensures CritRank(Apply(c, s, a)) <= 5 * c.maxPeers + 2
  {
    assert |s.entries.Keys| == |s.entries|;
    match a
    case LoopStep(_, _) =>
    case _ =>
  }

  /**
   Whoever takes the lock, and whatever the other goroutines do meanwhile, it makes fewer than 5 * maxPeers + 2
   steps while it holds it.
   */
  lemma LockIsReleased(c: Config, before: seq<Action>, a: Action, during: seq<Action>)
    requires Reaches(c, before) && Reached(c, before).crit.Free? && Enabled(c, Reached(c, before), a)
    requires Runs(c, Apply(c, Reached(c, before), a), during)
    requires HeldAlong(c, Apply(c, Reached(c, before), a), during)
    ensures HolderSteps(during) < 5 * c.maxPeers + 2
  {
    var s := Reached(c, before);
    ReachedInv(c, before);
    RankWhenTaken(c, s, a);
    StepKeepsInv(c, s, a);
    HeldRank(c, Apply(c, s, a), during);
  }

  // The holder's next step

  ghost predicate HolderMoves(c: Config, s: State) {
    exists a :: Holding(a) && Enabled(c, s, a)
  }

  lemma EntryIsAPeer(c: Config, s: State, a: Addr)
    requires TableOk(c, s) && a in s.entries
    ensures s.entries[a] < |s.peers|
  {
    assert |TableOf(s).created| == |s.peers|;
  }

  lemma ScanMoves(c: Config, s: State)
    requires TableOk(c, s) && HolderOk(c, s) && s.crit.Scan?
    ensures HolderMoves(c, s)
  {
    if s.crit.todo == {} {
      assert Enabled(c, s, ScanEnds);
    } else {
      var a :| a in s.crit.todo;
      EntryIsAPeer(c, s, a);
      assert Enabled(c, s, ScanOne(a));
    }
  }

  lemma WorkMoves(c: Config, s: State)
    requires TableOk(c, s) && StageOk(s) && HolderOk(c, s) && s.crit.Work?
    ensures HolderMoves(c, s)
  {
    match s.crit.stage
    case Reading(_) => assert Enabled(c, s, WorkRead);
    case Telling(_, _) => assert Enabled(c, s, WorkTell);
    case Deleting(_) => assert Enabled(c, s, WorkDelete);
    case Between =>
      if s.crit.left == {} {
        assert Enabled(c, s, WorkEnds);
      } else {
        var a :| a in s.crit.left;
        if a in s.entries { EntryIsAPeer(c, s, a); }
        assert Enabled(c, s, WorkLookup(a));
      }
  }

  lemma LockHolderMoves(c: Config, s: State)
    requires Inv(c, s) && !s.crit.Free?
    ensures HolderMoves(c, s)
  {
    if s.crit.Scan? { ScanMoves(c, s); } else { WorkMoves(c, s); }
  }

  /** Steps of the holder alone that lead from `s` to a state in which the lock is free. */
  ghost predicate FreesTheLock(c: Config, s: State, actions: seq<Action>) {
    && Runs(c, s, actions) && (forall a :: a in actions ==> Holding(a))
    && |actions| <= CritRank(s) && Run(c, s, actions).crit.Free?
  }

  predicate LeavingOrGone(pc: Pc) {
    pc.Evicting? || pc.Returned?
  }

  /** The holder's steps move no loop but its own, out of its eviction. */
  lemma HolderStepKeepsLoops(c: Config, s: State, a: Action, i: nat)
    requires HolderOk(c, s) && Enabled(c, s, a) && Holding(a) && i < |s.peers|
    ensures i < |Apply(c, s, a).peers|
    ensures s.peers[i].pc.WantEvictLock? ==> Apply(c, s, a).peers[i].pc.WantEvictLock?
    ensures LeavingOrGone(s.peers[i].pc) ==> LeavingOrGone(Apply(c, s, a).peers[i].pc)
  {
  }

  /** The lock gets free, a loop that waited for it is still there, and one that held it has returned. */
  ghost predicate EndsWell(c: Config, s: State, i: nat, actions: seq<Action>)
    requires i < |s.peers|
  {
    && FreesTheLock(c, s, actions) && i < |Run(c, s, actions).peers|
    && (s.peers[i].pc.WantEvictLock? ==> Run(c, s, actions).peers[i].pc.WantEvictLock?)
    && (LeavingOrGone(s.peers[i].pc) ==> Run(c, s, actions).peers[i].pc.Returned?)
  }

  lemma EndsWellFromHere(c: Config, s: State, a: Action, i: nat, rest: seq<Action>)
    requires HolderOk(c, s) && Enabled(c, s, a) && Holding(a) && i < |s.peers|
    requires CritRank(Apply(c, s, a)) < CritRank(s)
    requires i < |Apply(c, s, a).peers| && EndsWell(c, Apply(c, s, a), i, rest)
    ensures EndsWell(c, s, i, [a] + rest)
  {
    HolderStepKeepsLoops(c, s, a, i);
    assert ([a] + rest)[1..] == rest;
    assert Run(c, s, [a] + rest) == Run(c, Apply(c, s, a), rest);
  }

  lemma HolderGoesOn(c: Config, s: State, i: nat) returns (a: Action)
    requires Inv(c, s) && !s.crit.Free? && i < |s.peers|
    ensures Holding(a) && Enabled(c, s, a) && Inv(c, Apply(c, s, a)) && i < |Apply(c, s, a).peers|
    ensures 0 <= CritRank(Apply(c, s, a)) < CritRank(s)
  {
    LockHolderMoves(c, s);
    a :| Holding(a) && Enabled(c, s, a);
    StepKeepsInv(c, s, a);
    HolderStepLowers(c, s, a);
    HolderStepKeepsLoops(c, s, a, i);
    CritRankIsPositive(Apply(c, s, a));
  }

  /** The holder can get to the end of its work, in at most as many steps as its rank. */
  lemma {:induction false} HolderFinishes(c: Config, s: State, i: nat)
    requires Inv(c, s) && i < |s.peers|
    ensures exists actions :: EndsWell(c, s, i, actions)
    decreases CritRank(s)
  {
    CritRankIsPositive(s);
    if s.crit.Free? {
      assert EndsWell(c, s, i, []);
    } else {
      var a := HolderGoesOn(c, s, i);
      HolderFinishes(c, Apply(c, s, a), i);
      var rest :| EndsWell(c, Apply(c, s, a), i, rest);
      EndsWellFromHere(c, s, a, i, rest);
    }
  }

  // No loop is stuck

  /** The holder of the lock can go on until loop `id` can step, or has returned. */
  ghost predicate ServedByHolder(c: Config, s: State, id: nat) {
    exists actions ::
      && FreesTheLock(c, s, actions)
      && (Enabled(c, Run(c, s, actions), LoopStep(id, Fails)) ||
          (id < |Run(c, s, actions).peers| && Run(c, s, actions).peers[id].pc.Returned?))
  }

  lemma HolderServes(c: Config, s: State, id: nat)
    requires Inv(c, s) && id < |s.peers| && (s.peers[id].pc.WantEvictLock? || s.peers[id].pc.Evicting?)
    ensures ServedByHolder(c, s, id)
  {
    HolderFinishes(c, s, id);
    var actions :| EndsWell(c, s, id, actions);
    assert Enabled(c, Run(c, s, actions), LoopStep(id, Fails)) || Run(c, s, actions).peers[id].pc.Returned?;
  }

  /**
   A loop that has not returned can take a step, or waits for a connection that nobody has ended, or waits for
   the lock or holds it and is served when the holder has taken at most as many steps as its rank says.
   */
  lemma NoLoopIsStuck(c: Config, actions: seq<Action>, id: nat)
    requires Reaches(c, actions) && id < |Reached(c, actions).peers|
    requires !Reached(c, actions).peers[id].pc.Returned?
    ensures var s := Reached(c, actions);
            || (exists choice :: Enabled(c, s, LoopStep(id, choice)))
            || Unended(s.peers[id])
            || ((s.peers[id].pc.WantEvictLock? || s.peers[id].pc.Evicting?) && ServedByHolder(c, s, id))
  {
    var s := Reached(c, actions);
    var p := s.peers[id];
    ReachedInv(c, actions);
    assert PeerOk(c, p);
    if p.pc.Waiting? {
      assert Enabled(c, s, LoopStep(id, TimerFires));
    } else if p.pc.WantEvictLock? || p.pc.Evicting? {
      HolderServes(c, s, id);
    } else {
      assert Enabled(c, s, LoopStep(id, Fails)) || p.pc.AwaitDisconnect?;
    }
  }

  // The holder's work without interruption

  function LetGo(p: Peer): Peer {
    Cancelled(if p.conn.Some? then Told(p, p.conn.value.serial) else p)
  }

  /** The stages of removePeer, or of one round of the sweep, on the peer stored under `a`. */
  function VisitSteps(s: State, a: Addr): seq<Action>
    requires a in s.entries && s.entries[a] < |s.peers|
  {
    if s.peers[s.entries[a]].conn.Some? then [WorkLookup(a), WorkRead, WorkTell, WorkDelete]
    else [WorkLookup(a), WorkRead, WorkDelete]
  }

  lemma StepThenRun(c: Config, s: State, a: Action, rest: seq<Action>)
    requires Enabled(c, s, a)
    ensures Runs(c, s, [a] + rest) <==> Runs(c, Apply(c, s, a), rest)
    ensures Runs(c, Apply(c, s, a), rest) ==> Run(c, s, [a] + rest) == Run(c, Apply(c, s, a), rest)
  {
    assert ([a] + rest)[1..] == rest;
  }

  lemma DeleteInOneGo(c: Config, s: State)
    requires Enabled(c, s, WorkDelete)
    ensures Runs(c, s, [WorkDelete]) && Run(c, s, [WorkDelete]) == Delete(s)
  {
    StepThenRun(c, s, WorkDelete, []);
  }

  /** Cancelled and told, with the lock holder past it. */
  function Visited(s: State, i: nat): State
    requires s.crit.Work? && i < |s.peers|
  {
    s.(peers := s.peers[i := LetGo(s.peers[i])], crit := s.crit.(stage := Deleting(i)))
  }

  lemma ReadInOneGo(c: Config, s: State, i: nat, rest: seq<Action>)
    requires s.crit.Work? && s.crit.stage == Reading(i) && i < |s.peers| && s.peers[i] == Cancelled(s.peers[i])
    requires rest == if s.peers[i].conn.Some? then [WorkTell, WorkDelete] else [WorkDelete]
    ensures Runs(c, s, [WorkRead] + rest) && Run(c, s, [WorkRead] + rest) == Delete(Visited(s, i))
  {
    var s1 := ReadPointer(s);
    DeleteInOneGo(c, Visited(s, i));
    StepThenRun(c, s, WorkRead, rest);
    if s.peers[i].conn.Some? {
      assert Tell(s1) == Visited(s, i) && [WorkTell] + [WorkDelete] == rest;
      StepThenRun(c, s1, WorkTell, [WorkDelete]);
    } else {
      assert s1 == Visited(s, i);
    }
  }

  lemma VisitRuns(c: Config, s: State, a: Addr)
    requires Enabled(c, s, WorkLookup(a)) && a in s.entries
    ensures var i := s.entries[a];
            && Runs(c, s, VisitSteps(s, a)) && Run(c, s, VisitSteps(s, a)) == Delete(Visited(s, i))
  {
    var i, s1 := s.entries[a], LookUp(s, a);
    var rest := if s.peers[i].conn.Some? then [WorkTell, WorkDelete] else [WorkDelete];
    ReadInOneGo(c, s1, i, rest);
    StepThenRun(c, s, WorkLookup(a), [WorkRead] + rest);
    assert Visited(s1, i) == Visited(s, i);
    assert VisitSteps(s, a) == [WorkLookup(a)] + ([WorkRead] + rest);
  }

  lemma VisitedTable(s: State, i: nat)
    requires s.crit.Work? && i < |s.peers|
    ensures TableOf(Delete(Visited(s, i))) ==
            if s.crit.holder.Stopper? then TableOf(s) else RemoveOne(TableOf(s), s.peers[i].address)
  {
    assert Addresses(Delete(Visited(s, i)).peers) == Addresses(s.peers);
  }

  /**
   Taken in one go, the stages of a removal do to the table and the peer what removePeer does, and those of a round
   of the sweep let the peer go and leave the table.
   */
  lemma VisitInOneGo(c: Config, s: State, a: Addr)
    requires TableOk(c, s) && Enabled(c, s, WorkLookup(a)) && a in s.entries
    ensures Runs(c, s, VisitSteps(s, a))
    ensures var t, i := Run(c, s, VisitSteps(s, a)), s.entries[a];
            && i < |s.peers| && t.crit == s.crit.(left := s.crit.left - {a})
            && if s.crit.holder.Stopper? then TableOf(t) == TableOf(s) && t.peers == s.peers[i := LetGo(s.peers[i])]
               else && TableOf(t) == RemoveOne(TableOf(s), a)
                    && t.peers == s.peers[i := LetGo(s.peers[i]).(mapFarewells := s.peers[i].mapFarewells + 1)]
  {
    var i := s.entries[a];
    EntryIsAPeer(c, s, a);
    assert TableOf(s).created[i] == a;
    VisitRuns(c, s, a);
    VisitedTable(s, i);
  }
}
