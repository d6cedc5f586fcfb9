/** Where the answers of the peer go, over whole runs of the header sync: none is appended twice or forgotten. */
module HeaderFlow {
  import Log = HeaderLog
  import opened HeaderSync

  /** Nothing is outstanding without a connection. */
  predicate QuietWhenDown(s: State) {
    !s.connected ==> s.requests == [] && s.answers == []
  }

  function GivenBy(ps: Log.Params, s: State, a: Action): multiset<Got>
    requires Enabled(s, a)
  {
    if a.Answered? then multiset{Got(s.requests[0], Answer(ps, s.chain, s.requests[0]))} else multiset{}
  }

  function LostBy(s: State, a: Action): multiset<Got>
    requires Enabled(s, a)
  {
    if a.Disconnect? then multiset(s.answers[if a.handling then 1 else 0..]) else multiset{}
  }

  function HandledBy(s: State, a: Action): seq<Got>
    requires Enabled(s, a)
  {
    if Appends(a) then [Appended(s, a)] else []
  }

  /** What the peer answers along a run. */
  function Given(ps: Log.Params, s: State, actions: seq<Action>): multiset<Got>
    requires Runs(ps, s, actions)
    decreases |actions|
  {
    if actions == [] then multiset{}
    else GivenBy(ps, s, actions[0]) + Given(ps, Step(ps, s, actions[0]), actions[1..])
  }

  /** The answers that a disconnect cuts off on their way. */
  function Lost(ps: Log.Params, s: State, actions: seq<Action>): multiset<Got>
    requires Runs(ps, s, actions)
    decreases |actions|
  {
    if actions == [] then multiset{}
    else LostBy(s, actions[0]) + Lost(ps, Step(ps, s, actions[0]), actions[1..])
  }

  /** The answers that handlers have appended, in that order. */
  function Handled(ps: Log.Params, s: State, actions: seq<Action>): seq<Got>
    requires Runs(ps, s, actions)
    decreases |actions|
  {
    if actions == [] then []
    else HandledBy(s, actions[0]) + Handled(ps, Step(ps, s, actions[0]), actions[1..])
  }

  function HeadersOf(answers: seq<Got>): seq<Log.Header> {
    if answers == [] then [] else answers[0].batch + HeadersOf(answers[1..])
  }

  function InFlight(s: State): multiset<Got> {
    multiset(s.answers) + multiset(s.late)
  }

  lemma TakeOut(late: seq<Got>, k: nat)
    requires k < |late|
    ensures multiset(late) == multiset(Without(late, k)) + multiset{late[k]}
  {
    assert late == late[..k] + [late[k]] + late[k + 1..];
  }

  lemma TakeFirst(answers: seq<Got>)
    requires answers != []
    ensures multiset(answers) == multiset{answers[0]} + multiset(answers[1..])
  {
    assert answers == [answers[0]] + answers[1..];
  }

  /** No answer appears, doubles or vanishes in a step. */
  predicate Conserves(ps: Log.Params, s: State, a: Action)
    requires Enabled(s, a)
  {
    InFlight(Step(ps, s, a)) + multiset(HandledBy(s, a)) + LostBy(s, a) == InFlight(s) + GivenBy(ps, s, a)
  }

  lemma FinishConserves(ps: Log.Params, s: State, a: Action)
    requires Enabled(s, a) && a.Finish?
    ensures Conserves(ps, s, a)
  {
    var t := Step(ps, s, a);
    TakeOut(s.late, a.k);
    assert t.late == Without(s.late, a.k) && t.answers == s.answers;
  }

  lemma ReplyConserves(ps: Log.Params, s: State, a: Action)
    requires Enabled(s, a) && a.Reply?
    ensures Conserves(ps, s, a)
  {
    var t := Step(ps, s, a);
    TakeFirst(s.answers);
    assert t.late == s.late && t.answers == s.answers[1..];
  }

  lemma DisconnectConserves(ps: Log.Params, s: State, a: Action)
    requires Enabled(s, a) && a.Disconnect?
    ensures Conserves(ps, s, a)
  {
    if a.handling {
      TakeFirst(s.answers);
      assert multiset(s.late + [s.answers[0]]) == multiset(s.late) + multiset{s.answers[0]};
    } else {
      assert s.answers[0..] == s.answers && s.late + [] == s.late;
    }
  }

  lemma StepConserves(ps: Log.Params, s: State, a: Action)
    requires QuietWhenDown(s) && Enabled(s, a)
    ensures Conserves(ps, s, a)
  {
    match a
    case Reply => ReplyConserves(ps, s, a);
    case Finish(_) => FinishConserves(ps, s, a);
    case Disconnect(_) => DisconnectConserves(ps, s, a);
    case Connect =>
    case Answered =>
    case Announce =>
    case Grow(_) =>
  }

  lemma StepAppends(ps: Log.Params, s: State, a: Action)
    requires QuietWhenDown(s) && Enabled(s, a)
    ensures QuietWhenDown(Step(ps, s, a))
    ensures Step(ps, s, a).headers == s.headers + HeadersOf(HandledBy(s, a))
  {
    if Appends(a) { assert HeadersOf([Appended(s, a)]) == Appended(s, a).batch + HeadersOf([]); }
  }

  lemma HeadersOfMore(first: seq<Got>, rest: seq<Got>)
    requires |first| <= 1
    ensures HeadersOf(first + rest) == HeadersOf(first) + HeadersOf(rest)
  {
    if first == [] {
      assert first + rest == rest;
    } else {
      assert first[1..] == [] && (first + rest)[1..] == rest;
    }
  }

  lemma Add(before: multiset<Got>, now: multiset<Got>, after: multiset<Got>, given: multiset<Got>,
            handled: multiset<Got>, lost: multiset<Got>, moreGiven: multiset<Got>, moreHandled: multiset<Got>,
            moreLost: multiset<Got>)
    requires now + handled + lost == before + given && after + moreHandled + moreLost == now + moreGiven
    ensures after + (handled + moreHandled) + (lost + moreLost) == before + (given + moreGiven)
  {
    forall g: Got
      ensures (after + (handled + moreHandled) + (lost + moreLost))[g] == (before + (given + moreGiven))[g]
    {
      assert (now + handled + lost)[g] == (before + given)[g];
      assert (after + moreHandled + moreLost)[g] == (now + moreGiven)[g];
    }
  }

  /**
   Every answer the peer has given has been appended once, or is on its way or with a handler, or was cut off
   on its way by a disconnect.
   */
  lemma {:induction false} AnswersAreConserved(ps: Log.Params, s: State, actions: seq<Action>)
    requires QuietWhenDown(s) && Runs(ps, s, actions)
    ensures InFlight(Run(ps, s, actions)) + multiset(Handled(ps, s, actions)) + Lost(ps, s, actions)
              == InFlight(s) + Given(ps, s, actions)
    decreases |actions|
  {
    if actions != [] {
      var s' := Step(ps, s, actions[0]);
      var handled, more := HandledBy(s, actions[0]), Handled(ps, s', actions[1..]);
      StepConserves(ps, s, actions[0]);
      StepAppends(ps, s, actions[0]);
      AnswersAreConserved(ps, s', actions[1..]);
      assert multiset(handled + more) == multiset(handled) + multiset(more);
      Add(InFlight(s), InFlight(s'), InFlight(Run(ps, s', actions[1..])), GivenBy(ps, s, actions[0]),
          multiset(handled), LostBy(s, actions[0]), Given(ps, s', actions[1..]), multiset(more),
          Lost(ps, s', actions[1..]));
    }
  }

  /** The log is what handlers have appended, in their order, and nothing is asked of a peer that is gone. */
  lemma {:induction false} LogIsWhatWasHandled(ps: Log.Params, s: State, actions: seq<Action>)
    requires QuietWhenDown(s) && Runs(ps, s, actions)
    ensures QuietWhenDown(Run(ps, s, actions))
    ensures Run(ps, s, actions).headers == s.headers + HeadersOf(Handled(ps, s, actions))
    decreases |actions|
  {
    if actions != [] {
      var s' := Step(ps, s, actions[0]);
      StepAppends(ps, s, actions[0]);
      LogIsWhatWasHandled(ps, s', actions[1..]);
      HeadersOfMore(HandledBy(s, actions[0]), Handled(ps, s', actions[1..]));
      Regroup(s.headers, HeadersOf(HandledBy(s, actions[0])), HeadersOf(Handled(ps, s', actions[1..])));
    }
  }

  // Announcements and late handlers wait for nothing

  function Announcements(k: nat): seq<Action> {
    seq(k, _ => Announce)
  }

  function Tips(s: State, k: nat): seq<Log.Hash> {
    seq(k, _ => s.tip)
  }

  /** Whatever is outstanding, a synced log asks from its tip at every announcement, and an unsynced one never. */
  lemma {:induction false} EachAnnouncementAsks(ps: Log.Params, s: State, k: nat)
    requires s.connected
    ensures Runs(ps, s, Announcements(k))
    ensures Run(ps, s, Announcements(k)) == s.(requests := s.requests + if s.synced then Tips(s, k) else [])
    decreases k
  {
    if k == 0 {
      assert s.requests + Tips(s, 0) == s.requests;
    } else {
      var s' := Step(ps, s, Announce);
      EachAnnouncementAsks(ps, s', k - 1);
      assert Announcements(k) == [Announce] + Announcements(k - 1);
      StepThenRun(ps, s, Announce, Announcements(k - 1));
      assert Tips(s, k) == [s.tip] + Tips(s', k - 1);
    }
  }

  /**
   An announcement to a synced log with nothing outstanding brings all that is missing: with n headers missing,
   n/2000 + 1 undisturbed replies store them, and the log stays synced.
   */
  lemma AnnouncedHeadersAreFetched(ps: Log.Params, s: State, missing: nat)
    requires Safe(ps, s) && Unambiguous(ps, s.chain) && s.connected && s.synced && s.requests == [] && s.answers == []
    requires missing == |s.chain| - |s.headers|
    ensures Runs(ps, s, [Announce] + Replies(missing / 2000 + 1))
    ensures var t := Run(ps, s, [Announce] + Replies(missing / 2000 + 1));
            t.headers == s.chain && t.requests == [] && t.answers == [] && t.synced
  {
    StepIsSafe(ps, s, Announce);
    RepliesFinish(ps, Step(ps, s, Announce), missing / 2000 + 1, missing % 2000);
    StepThenRun(ps, s, Announce, Replies(missing / 2000 + 1));
  }

  function Finishes(k: nat): seq<Action> {
    seq(k, _ => Finish(0))
  }

  lemma OldestFinishes(ps: Log.Params, s: State)
    requires s.late != []
    ensures Enabled(s, Finish(0))
    ensures var t := Step(ps, s, Finish(0));
            t.late == s.late[1..] && t.connected == s.connected && t.headers == s.headers + s.late[0].batch
  {
  }

  lemma Regroup(headers: seq<Log.Header>, first: seq<Log.Header>, rest: seq<Log.Header>)
    ensures headers + first + rest == headers + (first + rest)
  {
  }

  /** Connected or not, the handlers of ended connections can all finish, each of them appending its answer. */
  lemma {:induction false} LateHandlersFinish(ps: Log.Params, s: State)
    ensures Runs(ps, s, Finishes(|s.late|))
    ensures var t := Run(ps, s, Finishes(|s.late|));
            t.late == [] && t.connected == s.connected && t.headers == s.headers + HeadersOf(s.late)
    decreases |s.late|
  {
    if s.late != [] {
      OldestFinishes(ps, s);
      var s', rest := Step(ps, s, Finish(0)), Finishes(|s.late| - 1);
      LateHandlersFinish(ps, s');
      assert Finishes(|s.late|) == [Finish(0)] + rest;
      StepThenRun(ps, s, Finish(0), rest);
      Regroup(s.headers, s.late[0].batch, HeadersOf(s'.late));
    }
  }
}
