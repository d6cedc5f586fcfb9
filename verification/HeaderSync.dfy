/**
 Header sync with one honest peer, over whole runs with reconnects: the indexer of
 examples/headerindexer/main.go and a peer that answers each getheaders request, in order, with up to 2000
 headers that follow the locator. A connection that ends may leave a handler behind which appends its answer later.
 */
module HeaderSync {
  import opened HeaderLog

  /** An answer, with the locator it was asked for. */
  datatype Got = Got(locator: Hash, batch: seq<Header>)

  /**
   `chain` is what the peer has, `requests` the locators it has not answered yet, oldest first, `answers` what is on
   its way back, and `late` what handlers of ended connections have received and not yet appended.
   */
  datatype State = State(chain: seq<Header>, headers: seq<Header>, tip: Hash, synced: bool,
                         connected: bool, requests: seq<Hash>, answers: seq<Got>, late: seq<Got>)

  datatype Action =
    | Connect
    | Answered
    | Reply
    | Disconnect(handling: bool)
    | Finish(k: nat)
    | Announce
    | Grow(header: Header)

  function Init(ps: Params, chain: seq<Header>): State {
    State(chain, [], ps.genesis, false, false, [], [], [])
  }

  /** How many headers of the chain the locator covers; an unknown one covers none. */
  function Covered(ps: Params, chain: seq<Header>, locator: Hash): (n: nat)
    ensures n <= |chain|
  {
    if chain == [] || locator == ps.genesis then 0
    else if ps.hash(chain[|chain| - 1]) == locator then |chain|
    else Covered(ps, chain[..|chain| - 1], locator)
  }

  function Answer(ps: Params, chain: seq<Header>, locator: Hash): (r: seq<Header>)
    ensures |r| <= FULL_BATCH
  {
    var n := Covered(ps, chain, locator);
    if |chain| - n <= FULL_BATCH then chain[n..] else chain[n..n + FULL_BATCH]
  }

  /** onHeaders; the follow-up request goes to the connection there is now. */
  function Received(ps: Params, s: State, batch: seq<Header>): State {
    if batch == [] then s
    else
      var tip := ps.hash(batch[|batch| - 1]);
      s.(headers := s.headers + batch, tip := tip,
         synced := s.synced || |batch| != FULL_BATCH,
         requests := s.requests + if |batch| == FULL_BATCH && s.connected then [tip] else [])
  }

  predicate Enabled(s: State, a: Action) {
    match a
    case Connect => !s.connected
    case Answered => s.connected && s.requests != []
    case Reply => s.connected && s.answers != []
    case Disconnect(handling) => s.connected && (handling ==> s.answers != [])
    case Finish(k) => k < |s.late|
    case Announce => s.connected
    case Grow(_) => true
  }

  function Without(late: seq<Got>, k: nat): seq<Got>
    requires k < |late|
  {
    late[..k] + late[k + 1..]
  }

  function Step(ps: Params, s: State, a: Action): State
    requires Enabled(s, a)
  {
    match a
    case Connect => s.(connected := true, requests := [s.tip], answers := [])
    case Answered =>
      s.(requests := s.requests[1..],
         answers := s.answers + [Got(s.requests[0], Answer(ps, s.chain, s.requests[0]))])
    case Reply => Received(ps, s.(answers := s.answers[1..]), s.answers[0].batch)
    case Disconnect(handling) =>
      s.(connected := false, requests := [], answers := [], late := s.late + if handling then [s.answers[0]] else [])
    case Finish(k) => Received(ps, s.(late := Without(s.late, k)), s.late[k].batch)
    case Announce => if s.synced then s.(requests := s.requests + [s.tip]) else s
    case Grow(h) => s.(chain := s.chain + [h])
  }

  predicate Runs(ps: Params, s: State, actions: seq<Action>)
    decreases |actions|
  {
    actions == [] || (Enabled(s, actions[0]) && Runs(ps, Step(ps, s, actions[0]), actions[1..]))
  }

  function Run(ps: Params, s: State, actions: seq<Action>): State
    requires Runs(ps, s, actions)
    decreases |actions|
  {
    if actions == [] then s else Run(ps, Step(ps, s, actions[0]), actions[1..])
  }

  /** Hashes identify the headers of the chain and differ from genesis. */
  ghost predicate Unambiguous(ps: Params, chain: seq<Header>) {
    && (forall i :: 0 <= i < |chain| ==> ps.hash(chain[i]) != ps.genesis)
    && (forall i, j :: 0 <= i < j < |chain| ==> ps.hash(chain[i]) != ps.hash(chain[j]))
  }

  lemma {:induction false} CoveredByTip(ps: Params, chain: seq<Header>, n: nat)
    requires Unambiguous(ps, chain) && n <= |chain|
    ensures Covered(ps, chain, TipOf(ps, chain[..n])) == n
    decreases |chain|
  {
    if n < |chain| && n > 0 {
      CoveredByTip(ps, chain[..|chain| - 1], n);
      assert chain[..|chain| - 1][..n] == chain[..n];
    }
  }

  // Over every run, with reconnects, a growing chain, late handlers and announcements at any time

  /** The locator is the tip the log has, or one it had before. */
  ghost predicate OldTip(ps: Params, headers: seq<Header>, locator: Hash) {
    exists m :: 0 <= m <= |headers| && locator == TipOf(ps, headers[..m])
  }

  /** The batch follows its locator on the chain. */
  ghost predicate Follows(ps: Params, s: State, g: Got) {
    exists m :: 0 <= m <= |s.headers| && m <= |s.chain| &&
      g.locator == TipOf(ps, s.headers[..m]) && s.chain[..m] + g.batch <= s.chain
  }

  ghost predicate Safe(ps: Params, s: State) {
    && s.headers <= s.chain
    && s.tip == TipOf(ps, s.headers)
    && (forall r :: r in s.requests ==> OldTip(ps, s.headers, r))
    && (forall g :: g in s.answers ==> Follows(ps, s, g))
    && (forall g :: g in s.late ==> Follows(ps, s, g))
  }

  lemma AnswerFollows(ps: Params, s: State, m: nat)
    requires s.headers <= s.chain && Unambiguous(ps, s.chain) && m <= |s.headers|
    ensures var r := Answer(ps, s.chain, TipOf(ps, s.headers[..m]));
            && s.chain[..m] + r <= s.chain
            && (|r| == FULL_BATCH || s.chain[..m] + r == s.chain)
            && (r == [] <==> m == |s.chain|)
  {
    CoveredByTip(ps, s.chain, m);
    assert s.chain[..m] == s.headers[..m];
  }

  lemma TipsDiffer(ps: Params, chain: seq<Header>, m: nat, n: nat)
    requires Unambiguous(ps, chain) && m < n <= |chain|
    ensures TipOf(ps, chain[..m]) != TipOf(ps, chain[..n])
  {
  }

  /** Empty, or asked for from the current tip. */
  predicate Fresh(s: State, g: Got) {
    g.batch == [] || g.locator == s.tip
  }

  /** What starts earlier on the chain starts with a header that the log has already. */
  lemma EarlierBatchDoesNotFit(ps: Params, s: State, batch: seq<Header>, m: nat)
    requires s.headers <= s.chain && Unambiguous(ps, s.chain) && m < |s.headers| && batch != []
    requires s.chain[..m] + batch <= s.chain
    ensures !(s.headers + batch <= s.chain)
  {
    var n := |s.headers|;
    assert (s.chain[..m] + batch)[m] == batch[0] == s.chain[m];
    assert (s.headers + batch)[n] == batch[0];
    if n < |s.chain| { assert ps.hash(s.chain[m]) != ps.hash(s.chain[n]); }
  }

  /** An answer can be appended to a log that follows the chain exactly if it is fresh. */
  lemma AnswerFitsExactlyWhenFresh(ps: Params, s: State, g: Got)
    requires s.headers <= s.chain && s.tip == TipOf(ps, s.headers) && Unambiguous(ps, s.chain) && Follows(ps, s, g)
    ensures s.headers + g.batch <= s.chain <==> Fresh(s, g)
  {
    var n := |s.headers|;
    var m :| 0 <= m <= n && m <= |s.chain| &&
             g.locator == TipOf(ps, s.headers[..m]) && s.chain[..m] + g.batch <= s.chain;
    assert s.headers[..n] == s.headers == s.chain[..n];
    if g.batch == [] {
      assert s.headers + g.batch == s.headers;
    } else if m < n {
      assert s.headers[..m] == s.chain[..m];
      TipsDiffer(ps, s.chain, m, n);
      EarlierBatchDoesNotFit(ps, s, g.batch, m);
    }
  }

  /** The answer that a step appends. */
  predicate Appends(a: Action) {
    a.Reply? || a.Finish?
  }

  function Appended(s: State, a: Action): Got
    requires Appends(a) && Enabled(s, a)
  {
    if a.Reply? then s.answers[0] else s.late[a.k]
  }

  lemma OldTipStays(ps: Params, headers: seq<Header>, more: seq<Header>, locator: Hash)
    requires headers <= more && OldTip(ps, headers, locator)
    ensures OldTip(ps, more, locator)
  {
    var m :| 0 <= m <= |headers| && locator == TipOf(ps, headers[..m]);
    assert more[..m] == headers[..m];
  }

  lemma FollowsStays(ps: Params, s: State, s': State, g: Got)
    requires Follows(ps, s, g) && s.headers <= s'.headers && s.chain <= s'.chain
    ensures Follows(ps, s', g)
  {
    var m :| 0 <= m <= |s.headers| && m <= |s.chain| &&
             g.locator == TipOf(ps, s.headers[..m]) && s.chain[..m] + g.batch <= s.chain;
    assert s'.headers[..m] == s.headers[..m] && s'.chain[..m] == s.chain[..m];
  }

  lemma AnswerIsFollowing(ps: Params, s: State, locator: Hash)
    requires s.headers <= s.chain && Unambiguous(ps, s.chain) && OldTip(ps, s.headers, locator)
    ensures Follows(ps, s, Got(locator, Answer(ps, s.chain, locator)))
  {
    var m :| 0 <= m <= |s.headers| && locator == TipOf(ps, s.headers[..m]);
    AnswerFollows(ps, s, m);
  }

  lemma TipIsOldTip(ps: Params, headers: seq<Header>)
    ensures OldTip(ps, headers, TipOf(ps, headers))
  {
    assert headers[..|headers|] == headers;
  }

  /** Whatever a step leaves outstanding was outstanding before, or asks from the new tip. */
  lemma Outstanding(ps: Params, s: State, a: Action)
    requires Enabled(s, a)
    ensures var s' := Step(ps, s, a);
            && (forall r :: r in s'.requests ==> r in s.requests || r == s'.tip)
            && (forall g :: g in s'.late ==> g in s.late || g in s.answers)
            && (!a.Answered? ==> forall g :: g in s'.answers ==> g in s.answers)
            && (a.Answered? ==> s.requests[0] in s.requests && forall g :: g in s'.answers ==>
                  g in s.answers || g == Got(s.requests[0], Answer(ps, s.chain, s.requests[0])))
  {
  }

  lemma StepIsSafe(ps: Params, s: State, a: Action)
    requires Safe(ps, s) && Unambiguous(ps, s.chain) && Enabled(s, a)
    requires Appends(a) ==> Fresh(s, Appended(s, a))
    ensures Safe(ps, Step(ps, s, a))
  {
    var s' := Step(ps, s, a);
    if Appends(a) { AnswerFitsExactlyWhenFresh(ps, s, Appended(s, a)); }
    Outstanding(ps, s, a);
    assert s.headers <= s'.headers && s.chain <= s'.chain && s'.tip == TipOf(ps, s'.headers);
    TipIsOldTip(ps, s'.headers);
    forall r | r in s'.requests ensures OldTip(ps, s'.headers, r) {
      if r != s'.tip { OldTipStays(ps, s.headers, s'.headers, r); }
    }
    forall g | g in s'.answers || g in s'.late ensures Follows(ps, s', g) {
      if !(g in s.answers || g in s.late) { AnswerIsFollowing(ps, s, s.requests[0]); }
      FollowsStays(ps, s, s', g);
    }
  }

  ghost predicate StaysUnambiguous(ps: Params, s: State, actions: seq<Action>)
    requires Runs(ps, s, actions)
    decreases |actions|
  {
    Unambiguous(ps, s.chain) && (actions == [] || StaysUnambiguous(ps, Step(ps, s, actions[0]), actions[1..]))
  }

  /** Every answer that is appended is empty, or was asked for from the tip the log has at that moment. */
  ghost predicate AnswersAreFresh(ps: Params, s: State, actions: seq<Action>)
    requires Runs(ps, s, actions)
    decreases |actions|
  {
    actions == [] ||
    ((Appends(actions[0]) ==> Fresh(s, Appended(s, actions[0]))) &&
     AnswersAreFresh(ps, Step(ps, s, actions[0]), actions[1..]))
  }

  ghost predicate Within(batch: seq<Header>, chain: seq<Header>) {
    forall h :: h in batch ==> h in chain
  }

  /** The log is off the chain, and all there is comes from the chain. */
  ghost predicate Broken(s: State) {
    && !(s.headers <= s.chain) && Within(s.headers, s.chain)
    && (forall g :: g in s.answers ==> Within(g.batch, s.chain))
    && (forall g :: g in s.late ==> Within(g.batch, s.chain))
  }

  lemma GrowingMendsNothing(ps: Params, s: State, h: Header)
    requires !(s.headers <= s.chain) && Within(s.headers, s.chain) && Unambiguous(ps, s.chain + [h])
    ensures !(s.headers <= s.chain + [h])
  {
    if |s.headers| > |s.chain| {
      var k, grown := |s.chain|, s.chain + [h];
      assert s.headers[k] in s.headers;
      var j :| 0 <= j < k && s.chain[j] == s.headers[k];
      assert ps.hash(grown[j]) != ps.hash(grown[k]);
    }
  }

  lemma BrokenByStep(ps: Params, s: State, a: Action)
    requires Broken(s) && Enabled(s, a) && Unambiguous(ps, Step(ps, s, a).chain)
    ensures Broken(Step(ps, s, a))
  {
    Outstanding(ps, s, a);
    if a.Grow? { GrowingMendsNothing(ps, s, a.header); }
    if a.Answered? { assert Within(Answer(ps, s.chain, s.requests[0]), s.chain); }
    if Appends(a) { assert Appended(s, a) in s.answers || Appended(s, a) in s.late; }
  }

  lemma {:induction false} BrokenForGood(ps: Params, s: State, actions: seq<Action>)
    requires Broken(s) && Runs(ps, s, actions) && StaysUnambiguous(ps, s, actions)
    ensures Broken(Run(ps, s, actions))
    decreases |actions|
  {
    if actions != [] {
      BrokenByStep(ps, s, actions[0]);
      BrokenForGood(ps, Step(ps, s, actions[0]), actions[1..]);
    }
  }

  lemma FollowingIsWithin(ps: Params, s: State, g: Got)
    requires Follows(ps, s, g)
    ensures Within(g.batch, s.chain)
  {
    var m :| 0 <= m <= |s.headers| && m <= |s.chain| &&
             g.locator == TipOf(ps, s.headers[..m]) && s.chain[..m] + g.batch <= s.chain;
    forall h | h in g.batch ensures h in s.chain {
      var k :| 0 <= k < |g.batch| && g.batch[k] == h;
      assert (s.chain[..m] + g.batch)[m + k] == h;
    }
  }

  lemma StaleAnswerBreaks(ps: Params, s: State, a: Action)
    requires Safe(ps, s) && Unambiguous(ps, s.chain) && Enabled(s, a) && Appends(a) && !Fresh(s, Appended(s, a))
    ensures Broken(Step(ps, s, a))
  {
    AnswerFitsExactlyWhenFresh(ps, s, Appended(s, a));
    Outstanding(ps, s, a);
    forall g | g in s.answers || g in s.late ensures Within(g.batch, s.chain) { FollowingIsWithin(ps, s, g); }
    assert Within(s.headers, s.chain);
  }

  /**
   After any run the stored headers are a prefix of the peer's chain if and only if every answer was fresh when it
   was appended; a log that left the chain never comes back.
   */
  lemma {:induction false} PrefixExactlyWhenAnswersAreFresh(ps: Params, s: State, actions: seq<Action>)
    requires Safe(ps, s) && Runs(ps, s, actions) && StaysUnambiguous(ps, s, actions)
    ensures Run(ps, s, actions).headers <= Run(ps, s, actions).chain <==> AnswersAreFresh(ps, s, actions)
    ensures AnswersAreFresh(ps, s, actions) ==> Safe(ps, Run(ps, s, actions))
    decreases |actions|
  {
    if actions != [] {
      var a, s' := actions[0], Step(ps, s, actions[0]);
      if Appends(a) && !Fresh(s, Appended(s, a)) {
        StaleAnswerBreaks(ps, s, a);
        BrokenForGood(ps, s', actions[1..]);
      } else {
        StepIsSafe(ps, s, a);
        PrefixExactlyWhenAnswersAreFresh(ps, s', actions[1..]);
      }
    }
  }

  // When all is in order

  /** No connection ends while one of its answers is being handled. */
  ghost predicate PromptHandlers(actions: seq<Action>) {
    forall i :: 0 <= i < |actions| ==> !(actions[i].Disconnect? && actions[i].handling)
  }

  /** Blocks are announced to a synced log only while nothing is outstanding. */
  ghost predicate NoAnnouncementInFlight(ps: Params, s: State, actions: seq<Action>)
    requires Runs(ps, s, actions)
    decreases |actions|
  {
    actions == [] ||
    ((actions[0].Announce? && s.synced ==> s.requests == [] && s.answers == []) &&
     NoAnnouncementInFlight(ps, Step(ps, s, actions[0]), actions[1..]))
  }

  /** At most one request or answer is outstanding, and it is for the current tip. */
  predicate OneForTheTip(s: State) {
    && |s.requests| + |s.answers| <= 1 && s.late == []
    && (s.requests != [] ==> s.requests[0] == s.tip)
    && (s.answers != [] ==> s.answers[0].locator == s.tip)
  }

  /** Then all answers are fresh, and the stored headers stay a prefix of the peer's chain. */
  lemma {:induction false} StoredIsAPrefix(ps: Params, s: State, actions: seq<Action>)
    requires Safe(ps, s) && Runs(ps, s, actions) && StaysUnambiguous(ps, s, actions) && OneForTheTip(s)
    requires PromptHandlers(actions) && NoAnnouncementInFlight(ps, s, actions)
    ensures Safe(ps, Run(ps, s, actions)) && OneForTheTip(Run(ps, s, actions))
    decreases |actions|
  {
    if actions != [] {
      StepIsSafe(ps, s, actions[0]);
      StoredIsAPrefix(ps, Step(ps, s, actions[0]), actions[1..]);
    }
  }

  // Runs in which it is not

  lemma StepThenRun(ps: Params, s: State, a: Action, rest: seq<Action>)
    requires Enabled(s, a)
    ensures Runs(ps, s, [a] + rest) <==> Runs(ps, Step(ps, s, a), rest)
    ensures Runs(ps, Step(ps, s, a), rest) ==> Run(ps, s, [a] + rest) == Run(ps, Step(ps, s, a), rest)
  {
    assert ([a] + rest)[1..] == rest;
  }

  /** `t` is reached from `s` by some steps. */
  ghost predicate Leads(ps: Params, s: State, t: State) {
    exists actions :: Runs(ps, s, actions) && Run(ps, s, actions) == t
  }

  lemma LeadsBy(ps: Params, s: State, a: Action, s': State, t: State)
    requires Enabled(s, a) && Step(ps, s, a) == s' && Leads(ps, s', t)
    ensures Leads(ps, s, t)
  {
    var rest :| Runs(ps, Step(ps, s, a), rest) && Run(ps, Step(ps, s, a), rest) == t;
    StepThenRun(ps, s, a, rest);
  }

  lemma LeadsToItself(ps: Params, s: State)
    ensures Leads(ps, s, s)
  {
    assert Runs(ps, s, []) && Run(ps, s, []) == s;
  }

  /** Two announcements to a synced log that lacks fewer than 2000 headers can bring each of them twice. */
  lemma AnnouncedTwice(ps: Params, s: State)
    requires s.connected && s.synced && s.requests == [] && s.answers == []
    requires 0 < |Answer(ps, s.chain, s.tip)| < FULL_BATCH
    ensures var r := Answer(ps, s.chain, s.tip);
            Leads(ps, s, s.(headers := s.headers + r + r, tip := ps.hash(r[|r| - 1])))
  {
    var r := Answer(ps, s.chain, s.tip);
    var g, tip := Got(s.tip, r), ps.hash(r[|r| - 1]);
    var s1 := s.(requests := [s.tip]);
    var s2 := s.(requests := [s.tip, s.tip]);
    var s3 := s.(requests := [s.tip], answers := [g]);
    var s4 := s.(answers := [g, g]);
    var s5 := s.(answers := [g], headers := s.headers + r, tip := tip);
    var s6 := s.(headers := s.headers + r + r, tip := tip);
    LeadsToItself(ps, s6);
    assert [g][1..] == [] && [g, g][1..] == [g] && [s.tip][1..] == [] && [s.tip, s.tip][1..] == [s.tip];
    assert [] + [g] == [g] && [g] + [g] == [g, g] && [] + [s.tip] == [s.tip] && [s.tip] + [s.tip] == [s.tip, s.tip];
    LeadsBy(ps, s5, Reply, s6, s6);
    LeadsBy(ps, s4, Reply, s5, s6);
    LeadsBy(ps, s3, Answered, s4, s6);
    LeadsBy(ps, s2, Answered, s3, s6);
    LeadsBy(ps, s1, Announce, s2, s6);
    LeadsBy(ps, s, Announce, s1, s6);
  }

  lemma FirstAnswers(ps: Params, a: Header, h: Header)
    requires Unambiguous(ps, [a, h])
    ensures Answer(ps, [a], ps.genesis) == [a]
    ensures Answer(ps, [a, h], ps.hash(a)) == [h]
  {
    CoveredByTip(ps, [a, h], 1);
    assert [a, h][..1] == [a] && [a, h][1..] == [h];
  }

  /** From the start, on a chain of one header: connected, answered, synced. */
  lemma FirstHeader(ps: Params, a: Header, t: State)
    requires Answer(ps, [a], ps.genesis) == [a] && Leads(ps, State([a], [a], ps.hash(a), true, true, [], [], []), t)
    ensures Leads(ps, Init(ps, [a]), t)
  {
    var s := Init(ps, [a]).(connected := true);
    var g := Got(ps.genesis, [a]);
    var s3 := State([a], [a], ps.hash(a), true, true, [], [], []);
    assert [] + [a] == [a] && [g][1..] == [] && [ps.genesis][1..] == [] && [] + [g] == [g];
    LeadsBy(ps, s.(answers := [g]), Reply, s3, t);
    LeadsBy(ps, s.(requests := [ps.genesis]), Answered, s.(answers := [g]), t);
    LeadsBy(ps, Init(ps, [a]), Connect, s.(requests := [ps.genesis]), t);
  }

  /** The chain grows by one header, which is announced twice, and the log stores it twice. */
  lemma TwoAnnouncementsBreakTheLog(ps: Params, a: Header, h: Header)
    requires Unambiguous(ps, [a, h])
    ensures exists t :: Leads(ps, Init(ps, [a]), t) && t.chain == [a, h] && t.headers == [a, h, h]
  {
    FirstAnswers(ps, a, h);
    var s := State([a], [a], ps.hash(a), true, true, [], [], []);
    var t := State([a, h], [a, h, h], ps.hash(h), true, true, [], [], []);
    AnnouncedTwice(ps, s.(chain := [a, h]));
    assert [a] + [h] == [a, h] && [a] + [h] + [h] == [a, h, h];
    LeadsBy(ps, s, Grow(h), s.(chain := [a, h]), t);
    FirstHeader(ps, a, t);
  }

  /** The one header of the chain, connected, with what is outstanding. */
  function Waiting(ps: Params, h: Header, requests: seq<Hash>, answers: seq<Got>, late: seq<Got>): State {
    Init(ps, [h]).(connected := true, requests := requests, answers := answers, late := late)
  }

  /** A connection that comes while an answer of the last one is still being handled. */
  lemma LateAppends(ps: Params, h: Header, t: State)
    requires Answer(ps, [h], ps.genesis) == [h] && t == State([h], [h, h], ps.hash(h), true, true, [], [], [])
    ensures Leads(ps, Init(ps, [h]).(late := [Got(ps.genesis, [h])]), t)
  {
    var g := Got(ps.genesis, [h]);
    var s1 := State([h], [h], ps.hash(h), true, true, [], [], [g]);
    assert [g][1..] == [] && [ps.genesis][1..] == [] && [] + [g] == [g];
    assert [] + [h] == [h] && [h] + [h] == [h, h] && Without([g], 0) == [];
    LeadsToItself(ps, t);
    LeadsBy(ps, s1, Finish(0), t, t);
    LeadsBy(ps, Waiting(ps, h, [], [g], [g]), Reply, s1, t);
    LeadsBy(ps, Waiting(ps, h, [ps.genesis], [], [g]), Answered, Waiting(ps, h, [], [g], [g]), t);
    LeadsBy(ps, Init(ps, [h]).(late := [g]), Connect, Waiting(ps, h, [ps.genesis], [], [g]), t);
  }

  /** A connection ends while its answer is handled, and the next one asks from the same tip. */
  lemma LateHandlerBreaksTheLog(ps: Params, h: Header)
    requires Unambiguous(ps, [h])
    ensures exists t :: Leads(ps, Init(ps, [h]), t) && t.chain == [h] && t.headers == [h, h] && t.synced
  {
    CoveredByTip(ps, [h], 0);
    assert Answer(ps, [h], ps.genesis) == [h];
    var g, s := Got(ps.genesis, [h]), Init(ps, [h]);
    var t := State([h], [h, h], ps.hash(h), true, true, [], [], []);
    assert [ps.genesis][1..] == [] && [] + [g] == [g];
    LateAppends(ps, h, t);
    LeadsBy(ps, Waiting(ps, h, [], [g], []), Disconnect(true), s.(late := [g]), t);
    LeadsBy(ps, Waiting(ps, h, [ps.genesis], [], []), Answered, Waiting(ps, h, [], [g], []), t);
    LeadsBy(ps, s, Connect, Waiting(ps, h, [ps.genesis], [], []), t);
  }

  // A fixed chain: exactly when the log is synced

  ghost predicate NoGrowth(actions: seq<Action>) {
    forall i :: 0 <= i < |actions| ==> !actions[i].Grow?
  }

  ghost predicate UpToDate(ps: Params, s: State) {
    forall g :: g in s.answers || g in s.late ==> g.batch == Answer(ps, s.chain, g.locator)
  }

  predicate ExactLog(s: State) {
    && (s.headers == s.chain || |s.headers| % FULL_BATCH == 0)
    && (s.synced <==> s.headers == s.chain && |s.chain| % FULL_BATCH != 0)
  }

  ghost predicate Exact(ps: Params, s: State) {
    Safe(ps, s) && Unambiguous(ps, s.chain) && UpToDate(ps, s) && ExactLog(s)
  }

  lemma FullBatchKeepsMultiple(n: nat)
    ensures (n + FULL_BATCH) % FULL_BATCH == n % FULL_BATCH
  {
  }

  lemma PartialBatchEndsMultiple(n: nat, k: nat)
    requires n % FULL_BATCH == 0 && 0 < k < FULL_BATCH
    ensures (n + k) % FULL_BATCH != 0
  {
  }

  lemma AnswerFromTheTip(ps: Params, s: State)
    requires Safe(ps, s) && Unambiguous(ps, s.chain)
    ensures var r := Answer(ps, s.chain, s.tip);
            && s.headers + r <= s.chain
            && (|r| == FULL_BATCH || s.headers + r == s.chain)
            && (r == [] <==> s.headers == s.chain)
  {
    var n := |s.headers|;
    assert s.headers[..n] == s.headers == s.chain[..n];
    AnswerFollows(ps, s, n);
    assert n == |s.chain| ==> s.chain[..n] == s.chain;
  }

  lemma AppendKeepsBatches(ps: Params, s: State, a: Action)
    requires UpToDate(ps, s) && Enabled(s, a) && Appends(a)
    ensures UpToDate(ps, Step(ps, s, a))
  {
    Outstanding(ps, s, a);
  }

  lemma LogStaysExact(ps: Params, s: State, batch: seq<Header>)
    requires Safe(ps, s) && Unambiguous(ps, s.chain) && ExactLog(s)
    requires batch == [] || batch == Answer(ps, s.chain, s.tip)
    ensures ExactLog(Received(ps, s, batch))
  {
    AnswerFromTheTip(ps, s);
    if batch != [] {
      assert s.headers != s.chain && |s.headers + batch| == |s.headers| + |batch|;
      if |batch| == FULL_BATCH {
        FullBatchKeepsMultiple(|s.headers|);
      } else {
        PartialBatchEndsMultiple(|s.headers|, |batch|);
      }
    }
  }

  lemma AppendIsExact(ps: Params, s: State, a: Action)
    requires Exact(ps, s) && Enabled(s, a) && Appends(a) && Fresh(s, Appended(s, a))
    ensures Exact(ps, Step(ps, s, a))
  {
    StepIsSafe(ps, s, a);
    AppendKeepsBatches(ps, s, a);
    assert Appended(s, a) in s.answers || Appended(s, a) in s.late;
    LogStaysExact(ps, s, Appended(s, a).batch);
  }

  lemma StepIsExact(ps: Params, s: State, a: Action)
    requires Exact(ps, s) && Enabled(s, a) && !a.Grow?
    requires Appends(a) ==> Fresh(s, Appended(s, a))
    ensures Exact(ps, Step(ps, s, a)) && Step(ps, s, a).chain == s.chain
  {
    if Appends(a) {
      AppendIsExact(ps, s, a);
    } else {
      StepIsSafe(ps, s, a);
      Outstanding(ps, s, a);
    }
  }

  lemma {:induction false} ExactAlong(ps: Params, s: State, actions: seq<Action>)
    requires Exact(ps, s) && Runs(ps, s, actions) && NoGrowth(actions) && AnswersAreFresh(ps, s, actions)
    ensures Exact(ps, Run(ps, s, actions)) && Run(ps, s, actions).chain == s.chain
    decreases |actions|
  {
    if actions != [] {
      StepIsExact(ps, s, actions[0]);
      ExactAlong(ps, Step(ps, s, actions[0]), actions[1..]);
    }
  }

  /**
   On a chain of n headers, after any run in which all appended answers were fresh, `synced` holds if and only if
   all n are stored and n is not a multiple of 2000.
   */
  lemma SyncedExactlyWhen(ps: Params, chain: seq<Header>, actions: seq<Action>)
    requires Unambiguous(ps, chain) && Runs(ps, Init(ps, chain), actions) && NoGrowth(actions)
    requires AnswersAreFresh(ps, Init(ps, chain), actions)
    ensures var s := Run(ps, Init(ps, chain), actions);
            && s.headers <= chain
            && (s.synced <==> s.headers == chain && |chain| % FULL_BATCH != 0)
  {
    ExactAlong(ps, Init(ps, chain), actions);
  }

  /** All that is outstanding is for the tip, and only a log that has everything has more than one out. */
  ghost predicate AllForTheTip(s: State) {
    && s.late == [] && (|s.requests| + |s.answers| <= 1 || s.headers == s.chain)
    && (forall r :: r in s.requests ==> r == s.tip)
    && (forall g :: g in s.answers ==> g.locator == s.tip)
  }

  lemma ForTheTipByStep(ps: Params, s: State, a: Action)
    requires Exact(ps, s) && AllForTheTip(s) && Enabled(s, a) && !a.Grow?
    requires a.Disconnect? ==> !a.handling
    ensures Appends(a) ==> Fresh(s, Appended(s, a))
    ensures AllForTheTip(Step(ps, s, a))
  {
    if Appends(a) {
      assert s.answers[0] in s.answers;
      AnswerFromTheTip(ps, s);
    }
    Outstanding(ps, s, a);
  }

  /**
   However many announcements come and connections end, on a fixed chain every answer is fresh as long as no
   connection ends while one of its answers is being handled.
   */
  lemma {:induction false} PromptAnswersAreFresh(ps: Params, s: State, actions: seq<Action>)
    requires Exact(ps, s) && AllForTheTip(s) && Runs(ps, s, actions) && NoGrowth(actions) && PromptHandlers(actions)
    ensures AnswersAreFresh(ps, s, actions)
    decreases |actions|
  {
    if actions != [] {
      ForTheTipByStep(ps, s, actions[0]);
      StepIsExact(ps, s, actions[0]);
      PromptAnswersAreFresh(ps, Step(ps, s, actions[0]), actions[1..]);
    }
  }

  lemma SyncedWithPromptHandlers(ps: Params, chain: seq<Header>, actions: seq<Action>)
    requires Unambiguous(ps, chain) && Runs(ps, Init(ps, chain), actions) && NoGrowth(actions)
    requires PromptHandlers(actions)
    ensures var s := Run(ps, Init(ps, chain), actions);
            && s.headers <= chain
            && (s.synced <==> s.headers == chain && |chain| % FULL_BATCH != 0)
  {
    PromptAnswersAreFresh(ps, Init(ps, chain), actions);
    SyncedExactlyWhen(ps, chain, actions);
  }

  // An uninterrupted first sync

  function Replies(k: nat): seq<Action> {
    if k == 0 then [] else [Answered, Reply] + Replies(k - 1)
  }

  lemma OneReply(ps: Params, s: State)
    requires Safe(ps, s) && Unambiguous(ps, s.chain) && s.connected && s.requests == [s.tip] && s.answers == []
    ensures var s' := Step(ps, s, Answered);
            && Enabled(s, Answered) && Enabled(s', Reply)
            && Safe(ps, s') && s'.chain == s.chain && s'.tip == s.tip && s'.headers == s.headers
            && s'.synced == s.synced && s'.connected && s'.requests == []
            && s'.answers == [Got(s.tip, Answer(ps, s.chain, s.tip))]
  {
    StepIsSafe(ps, s, Answered);
  }

  lemma ReplyProgress(ps: Params, s: State)
    requires Safe(ps, s) && Unambiguous(ps, s.chain) && s.connected && s.requests == [s.tip] && s.answers == []
    ensures Enabled(s, Answered) && Enabled(Step(ps, s, Answered), Reply)
    ensures var s', missing := Step(ps, Step(ps, s, Answered), Reply), |s.chain| - |s.headers|;
            && Safe(ps, s') && s'.chain == s.chain && s'.connected && s'.answers == []
            && if missing >= FULL_BATCH
               then s'.requests == [s'.tip] && |s.chain| - |s'.headers| == missing - FULL_BATCH && s'.synced == s.synced
               else s'.requests == [] && s'.headers == s.chain && s'.synced == (s.synced || missing > 0)
  {
    OneReply(ps, s);
    AnswerFromTheTip(ps, s);
    StepIsSafe(ps, Step(ps, s, Answered), Reply);
  }

  lemma TwoStepsThenRun(ps: Params, s: State, rest: seq<Action>)
    requires Enabled(s, Answered) && Enabled(Step(ps, s, Answered), Reply)
    ensures var s' := Step(ps, Step(ps, s, Answered), Reply);
            && (Runs(ps, s, [Answered, Reply] + rest) <==> Runs(ps, s', rest))
            && (Runs(ps, s', rest) ==> Run(ps, s, [Answered, Reply] + rest) == Run(ps, s', rest))
  {
    StepThenRun(ps, Step(ps, s, Answered), Reply, rest);
    StepThenRun(ps, s, Answered, [Reply] + rest);
    assert [Answered] + ([Reply] + rest) == [Answered, Reply] + rest;
  }

  /** With `k - 1` full batches and `rest` more headers missing, `k` replies bring them all. */
  lemma {:induction false} RepliesFinish(ps: Params, s: State, k: nat, rest: nat)
    requires Safe(ps, s) && Unambiguous(ps, s.chain) && s.connected && s.requests == [s.tip] && s.answers == []
    requires k > 0 && rest < FULL_BATCH && |s.chain| - |s.headers| == FULL_BATCH * (k - 1) + rest
    ensures Runs(ps, s, Replies(k))
    ensures var t := Run(ps, s, Replies(k));
            t.headers == s.chain && t.requests == [] && t.answers == [] && (t.synced <==> s.synced || rest > 0)
    decreases k
  {
    ReplyProgress(ps, s);
    TwoStepsThenRun(ps, s, Replies(k - 1));
    if k > 1 { RepliesFinish(ps, Step(ps, Step(ps, s, Answered), Reply), k - 1, rest); }
  }

  /** A connection and the replies that `missing` headers take, undisturbed. */
  function Sync(missing: nat): seq<Action> {
    [Connect] + Replies(missing / 2000 + 1)
  }

  lemma SyncRuns(ps: Params, s: State, k: nat, rest: nat)
    requires Safe(ps, s) && Unambiguous(ps, s.chain) && !s.connected && s.late == []
    requires k > 0 && rest < FULL_BATCH && |s.chain| - |s.headers| == FULL_BATCH * (k - 1) + rest
    ensures Runs(ps, s, [Connect] + Replies(k))
    ensures var t := Run(ps, s, [Connect] + Replies(k));
            t.headers == s.chain && t.requests == [] && t.answers == [] && (t.synced <==> s.synced || rest > 0)
  {
    StepIsSafe(ps, s, Connect);
    RepliesFinish(ps, Step(ps, s, Connect), k, rest);
    StepThenRun(ps, s, Connect, Replies(k));
  }

  /**
   A connection resumes the sync where the log stands: with n headers missing, n/2000 + 1 undisturbed replies store
   them all and end with nothing outstanding; `synced` is then set if it was before, or n is not a multiple of 2000.
   */
  lemma ResumedSyncFinishes(ps: Params, s: State, missing: nat)
    requires Safe(ps, s) && Unambiguous(ps, s.chain) && !s.connected && s.late == []
    requires missing == |s.chain| - |s.headers|
    ensures Runs(ps, s, Sync(missing))
    ensures var t := Run(ps, s, Sync(missing));
            && t.headers == s.chain && t.requests == [] && t.answers == []
            && (t.synced <==> s.synced || missing % 2000 != 0)
  {
    SyncRuns(ps, s, missing / 2000 + 1, missing % 2000);
  }

  /** In particular a first sync of n headers takes n/2000 + 1 replies. */
  lemma FirstSyncFinishes(ps: Params, chain: seq<Header>)
    requires Unambiguous(ps, chain)
    ensures Runs(ps, Init(ps, chain), Sync(|chain|))
    ensures var s := Run(ps, Init(ps, chain), Sync(|chain|));
            s.headers == chain && s.requests == [] && s.answers == [] && (s.synced <==> |chain| % 2000 != 0)
  {
    ResumedSyncFinishes(ps, Init(ps, chain), |chain|);
  }

  // A sync that is not finished goes on

  /** A request or an answer for the current tip is outstanding. */
  ghost predicate AsksFromTheTip(s: State) {
    s.tip in s.requests || exists g :: g in s.answers && g.locator == s.tip
  }

  ghost predicate GoesOn(s: State) {
    s.connected && s.headers != s.chain ==> AsksFromTheTip(s)
  }

  lemma EmptyAnswerMeansDone(ps: Params, s: State, g: Got)
    requires Safe(ps, s) && Unambiguous(ps, s.chain) && Follows(ps, s, g)
    requires g.batch == Answer(ps, s.chain, g.locator) && g.batch == []
    ensures s.headers == s.chain
  {
    var m :| 0 <= m <= |s.headers| && m <= |s.chain| &&
             g.locator == TipOf(ps, s.headers[..m]) && s.chain[..m] + g.batch <= s.chain;
    AnswerFollows(ps, s, m);
  }

  lemma GoesOnByAppending(ps: Params, s: State, a: Action)
    requires Exact(ps, s) && Enabled(s, a) && Appends(a) && Fresh(s, Appended(s, a))
    ensures GoesOn(Step(ps, s, a))
  {
    var g, s' := Appended(s, a), Step(ps, s, a);
    assert g in s.answers || g in s.late;
    if g.batch == [] {
      EmptyAnswerMeansDone(ps, s, g);
    } else {
      AnswerFromTheTip(ps, s);
      if |g.batch| == FULL_BATCH && s.connected { assert s'.requests[|s'.requests| - 1] == s'.tip; }
    }
  }

  lemma GoesOnByStep(ps: Params, s: State, a: Action)
    requires Exact(ps, s) && Enabled(s, a) && !a.Grow? && GoesOn(s)
    requires Appends(a) ==> Fresh(s, Appended(s, a))
    ensures GoesOn(Step(ps, s, a))
  {
    if Appends(a) {
      GoesOnByAppending(ps, s, a);
    } else if a.Answered? && s.headers != s.chain {
      var s' := Step(ps, s, a);
      if s.tip in s.requests && s.requests[0] == s.tip {
        assert s'.answers[|s'.answers| - 1].locator == s.tip;
      } else if s.tip in s.requests {
        assert s.tip in s.requests[1..];
      } else {
        var g :| g in s.answers && g.locator == s.tip;
        assert g in s'.answers;
      }
    }
  }

  lemma {:induction false} GoesOnAlong(ps: Params, s: State, actions: seq<Action>)
    requires Exact(ps, s) && Runs(ps, s, actions) && NoGrowth(actions) && AnswersAreFresh(ps, s, actions) && GoesOn(s)
    ensures GoesOn(Run(ps, s, actions))
    decreases |actions|
  {
    if actions != [] {
      StepIsExact(ps, s, actions[0]);
      GoesOnByStep(ps, s, actions[0]);
      GoesOnAlong(ps, Step(ps, s, actions[0]), actions[1..]);
    }
  }

  /**
   On a fixed chain, after any run in which all appended answers were fresh, a connected log that lacks headers has
   a request or an answer for its tip outstanding: the follow-up is never forgotten.
   */
  lemma SyncNeverStalls(ps: Params, chain: seq<Header>, actions: seq<Action>)
    requires Unambiguous(ps, chain) && Runs(ps, Init(ps, chain), actions) && NoGrowth(actions)
    requires AnswersAreFresh(ps, Init(ps, chain), actions)
    ensures var s := Run(ps, Init(ps, chain), actions);
            s.connected && s.headers != chain ==> AsksFromTheTip(s)
  {
    ExactAlong(ps, Init(ps, chain), actions);
    GoesOnAlong(ps, Init(ps, chain), actions);
  }

  // What the empty last reply costs

  ghost predicate NoReconnect(actions: seq<Action>) {
    forall i :: 0 <= i < |actions| ==> actions[i] != Connect
  }

  /**
   A log that has everything, with nothing outstanding and the flag unset, as after a first sync of a multiple of
   2000, ignores every later announcement: however the chain grows, nothing is fetched until a reconnect.
   */
  lemma {:induction false} UnsyncedLogStaysBehind(ps: Params, s: State, actions: seq<Action>)
    requires Runs(ps, s, actions) && NoReconnect(actions)
    requires s.requests == [] && s.answers == [] && s.late == [] && !s.synced
    ensures var t := Run(ps, s, actions);
            t.headers == s.headers && t.requests == [] && t.answers == [] && t.late == [] && !t.synced
    decreases |actions|
  {
    if actions != [] { UnsyncedLogStaysBehind(ps, Step(ps, s, actions[0]), actions[1..]); }
  }
}
