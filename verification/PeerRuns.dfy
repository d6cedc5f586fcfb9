/** Runs put together step by step, and the loops' way from the dial to a settled connection. */
module PeerRuns {
  import opened Wrappers
  import opened PeerTable
  import opened PeerProtocol
  import opened PeerTheorems

  ghost predicate Leads(c: Config, s: State, t: State) {
    exists actions :: Runs(c, s, actions) && Run(c, s, actions) == t
  }

  lemma LeadsNowhere(c: Config, s: State)
    ensures Leads(c, s, s)
  {
    assert Runs(c, s, []) && Run(c, s, []) == s;
  }

  lemma LeadsOn(c: Config, s: State, t: State, a: Action)
    requires Leads(c, s, t) && Enabled(c, t, a)
    ensures Leads(c, s, Apply(c, t, a))
  {
    var actions :| Runs(c, s, actions) && Run(c, s, actions) == t;
    RunOneMore(c, s, actions, a);
  }

  predicate Moves(c: Config, p: Peer, done: bool, q: Peer) {
    && !p.pc.WantEvictLock? && !q.pc.Returned?
    && (LoopNext(c, p, done, Fails) == Some(q) || LoopNext(c, p, done, Succeeds) == Some(q))
  }

  function WithLoopAt(s: State, i: nat, q: Peer): State
    requires i < |s.peers|
  {
    s.(peers := s.peers[i := q])
  }

  lemma LoopLeads(c: Config, s: State, t: State, i: nat, q: Peer)
    requires Leads(c, s, t) && i < |t.peers| && Moves(c, t.peers[i], t.done, q)
    ensures Leads(c, s, WithLoopAt(t, i, q))
  {
    LeadsOn(c, s, t, LoopStep(i, if LoopNext(c, t.peers[i], t.done, Fails) == Some(q) then Fails else Succeeds));
  }

  ghost predicate Course(c: Config, p: Peer, done: bool, course: seq<Peer>) {
    && (course != [] ==> Moves(c, p, done, course[0]))
    && forall i :: 0 < i < |course| ==> Moves(c, course[i - 1], done, course[i])
  }

  /** Loop `i` can go through the states of a course while everything else stands still. */
  lemma {:induction false} CourseLeads(c: Config, s: State, t: State, i: nat, course: seq<Peer>)
    requires Leads(c, s, t) && i < |t.peers| && course != [] && Course(c, t.peers[i], t.done, course)
    ensures Leads(c, s, WithLoopAt(t, i, course[|course| - 1]))
    decreases |course|
  {
    LoopLeads(c, s, t, i, course[0]);
    if |course| > 1 {
      var rest := course[1..];
      forall j | 0 < j < |rest| ensures Moves(c, rest[j - 1], t.done, rest[j]) {
        assert rest[j - 1] == course[j] && rest[j] == course[j + 1];
      }
      assert Moves(c, course[0], t.done, course[1]);
      CourseLeads(c, s, WithLoopAt(t, i, course[0]), i, rest);
      assert t.peers[i := course[0]][i := rest[|rest| - 1]] == t.peers[i := rest[|rest| - 1]];
    }
  }

  /** The dial has succeeded. */
  function AfterSuccess(p: Peer): Peer {
    p.(pc := MarkConnected, dials := p.dials + [true], conn := Some(Conn(|p.dials|, false, false)),
       setsAfterCancel := p.setsAfterCancel + if p.cancelledAt.Some? then 1 else 0)
  }

  /** The new connection was reported and is waited on. */
  function Settled(p: Peer): Peer {
    p.(pc := AwaitDisconnect, status := Status.Connected, failures := 0, connects := p.connects + 1)
  }

  function Settling(p: Peer): (r: seq<Peer>)
    ensures |r| == 4 && r[3] == Settled(p)
  {
    var p1 := p.(pc := ResetFailures, status := Status.Connected);
    var p2 := p1.(pc := NotifyConnected, failures := 0);
    [p1, p2, p2.(pc := AskAddresses, connects := p.connects + 1), Settled(p)]
  }

  lemma SettlingMoves(c: Config, p: Peer, done: bool)
    requires p.pc.MarkConnected?
    ensures Course(c, p, done, Settling(p))
  {
  }

  /** A loop that is dialing can come to wait on a connection, cancelled or not. */
  lemma DialLeads(c: Config, s: State, t: State, i: nat)
    requires Leads(c, s, t) && i < |t.peers| && t.peers[i].pc.InDial?
    ensures Leads(c, s, WithLoopAt(t, i, Settled(AfterSuccess(t.peers[i]))))
  {
    var q := AfterSuccess(t.peers[i]);
    LoopLeads(c, s, t, i, q);
    SettlingMoves(c, q, t.done);
    CourseLeads(c, s, WithLoopAt(t, i, q), i, Settling(q));
    assert t.peers[i := q][i := Settled(q)] == t.peers[i := Settled(q)];
  }
}
