/**
 The header log of indexer/headers.go and examples/headerindexer/main.go: appended under a lock, with the hash
 of the last header as tip, and a `synced` flag set in a second region of the lock. Block hashing is a function
 that is left open.
 */
module HeaderLog {
  import opened Wrappers

  type Hash(==, !new)

  datatype Header = Header(prev: Hash, payload: nat)

  datatype Params = Params(genesis: Hash, hash: Header -> Hash)

  /** A full batch: more headers are available. */
  const FULL_BATCH: nat := 2000

  function TipOf(ps: Params, hs: seq<Header>): Hash {
    if hs == [] then ps.genesis else ps.hash(hs[|hs| - 1])
  }

  /** The hash that the header at position `i` should name as its predecessor. */
  function Before(ps: Params, start: Hash, hs: seq<Header>, i: nat): Hash
    requires i <= |hs|
  {
    if i == 0 then start else ps.hash(hs[i - 1])
  }

  /** The headers form a chain that starts right after `start`. */
  ghost predicate Linked(ps: Params, start: Hash, hs: seq<Header>) {
    forall i :: 0 <= i < |hs| ==> hs[i].prev == Before(ps, start, hs, i)
  }

  datatype InvType = Tx | Block | WitnessBlock | Other

  class Indexer {
    const params: Params
    var headers: seq<Header>
    var tipHash: Hash
    var synced: bool

    ghost predicate Valid()
      reads this
    {
      tipHash == TipOf(params, headers)
    }

    constructor (params: Params)
      ensures Valid() && this.params == params && headers == [] && !synced
    {
      this.params, headers, tipHash, synced := params, [], params.genesis, false;
    }

    /** Appends a batch header by header, as both handlers do while they hold the lock. */
    method Append(batch: seq<Header>)
      requires Valid()
      modifies this`headers, this`tipHash
      ensures Valid() && headers == old(headers) + batch
    {
      for i := 0 to |batch|
        invariant Valid() && headers == old(headers) + batch[..i]
      {
        headers := headers + [batch[i]];
        tipHash := params.hash(batch[i]);
      }
    }

    /** The locator of the getheaders request on a new connection, if the connection is still there. */
    method OnPeerConnected(hasPeer: bool) returns (request: Option<Hash>)
      requires Valid()
      ensures request == if hasPeer then Some(TipOf(params, headers)) else None
    {
      request := if hasPeer then Some(tipHash) else None;
    }

    /** main.go: appends, then asks for more after a full batch and otherwise declares the log synced. */
    method OnHeaders(batch: seq<Header>, hasPeer: bool) returns (request: Option<Hash>)
      requires Valid()
      modifies this
      ensures Valid() && headers == old(headers) + batch
      ensures synced == (old(synced) || (batch != [] && |batch| != 2000))
      ensures request == if |batch| == 2000 && hasPeer then Some(TipOf(params, headers)) else None
    {
      if batch == [] { return None; }
      Append(batch);
      if |batch| == FULL_BATCH {
        request := if hasPeer then Some(tipHash) else None;
      } else {
        synced := true;
        request := None;
      }
    }

    /** indexer/headers.go: the same without the follow-up request. */
    method OnHeadersOnly(batch: seq<Header>)
      requires Valid()
      modifies this
      ensures Valid() && headers == old(headers) + batch
      ensures synced == (old(synced) || (batch != [] && |batch| != 2000))
    {
      if batch == [] { return; }
      Append(batch);
      if |batch| != FULL_BATCH { synced := true; }
    }

    /** Asks from the tip when a block is announced and the first sync is over. */
    method OnInv(inv: seq<InvType>, hasPeer: bool) returns (request: Option<Hash>)
      requires Valid()
      ensures request == if (Block in inv || WitnessBlock in inv) && synced && hasPeer
                         then Some(TipOf(params, headers)) else None
    {
      var hasBlock := false;
      for i := 0 to |inv|
        invariant hasBlock <==> Block in inv[..i] || WitnessBlock in inv[..i]
      {
        assert inv[..i + 1] == inv[..i] + [inv[i]];
        if inv[i] == Block || inv[i] == WitnessBlock {
          hasBlock := true;
          assert inv[i] in inv;
          break;
        }
      }
      assert inv[..|inv|] == inv;
      if !hasBlock || !synced { return None; }
      request := if hasPeer then Some(tipHash) else None;
    }
  }

  // Handlers of several peers interleaved

  /** `pending` handlers have appended a partial batch and not yet set the flag. */
  datatype Log = Log(headers: seq<Header>, tip: Hash, synced: bool, pending: nat)

  datatype Event = Batch(hs: seq<Header>) | SetSynced

  predicate Enabled(s: Log, e: Event) {
    e.SetSynced? ==> s.pending > 0
  }

  function Step(ps: Params, s: Log, e: Event): Log
    requires Enabled(s, e)
  {
    match e
    case Batch(hs) =>
      if hs == [] then s
      else s.(headers := s.headers + hs, tip := ps.hash(hs[|hs| - 1]),
              pending := s.pending + if |hs| == FULL_BATCH then 0 else 1)
    case SetSynced => s.(synced := true, pending := s.pending - 1)
  }

  predicate Runs(ps: Params, s: Log, es: seq<Event>)
    decreases |es|
  {
    es == [] || (Enabled(s, es[0]) && Runs(ps, Step(ps, s, es[0]), es[1..]))
  }

  function Run(ps: Params, s: Log, es: seq<Event>): Log
    requires Runs(ps, s, es)
    decreases |es|
  {
    if es == [] then s else Run(ps, Step(ps, s, es[0]), es[1..])
  }

  /** Every batch is linked and starts at the tip at the moment it is appended. */
  ghost predicate BatchesFit(ps: Params, s: Log, es: seq<Event>)
    requires Runs(ps, s, es)
    decreases |es|
  {
    es == [] ||
    ((es[0].Batch? ==> Linked(ps, s.tip, es[0].hs)) && BatchesFit(ps, Step(ps, s, es[0]), es[1..]))
  }

  ghost predicate TipOk(ps: Params, s: Log) {
    s.tip == TipOf(ps, s.headers)
  }

  lemma LinkedAppend(ps: Params, start: Hash, hs: seq<Header>, more: seq<Header>)
    ensures Linked(ps, start, hs + more) <==>
            Linked(ps, start, hs) && Linked(ps, Before(ps, start, hs, |hs|), more)
  {
    var all, mid := hs + more, Before(ps, start, hs, |hs|);
    assert forall i :: 0 <= i < |hs| ==> all[i] == hs[i] && Before(ps, start, all, i) == Before(ps, start, hs, i);
    forall i | 0 <= i < |more|
      ensures all[|hs| + i] == more[i] && Before(ps, start, all, |hs| + i) == Before(ps, mid, more, i)
    {
    }
    if Linked(ps, start, all) {
      assert forall i :: 0 <= i < |more| ==> more[i].prev == all[|hs| + i].prev;
    } else if Linked(ps, start, hs) && Linked(ps, mid, more) {
      forall i | 0 <= i < |all|
        ensures all[i].prev == Before(ps, start, all, i)
      {
        if i >= |hs| { assert all[i] == more[i - |hs|] && i == |hs| + (i - |hs|); }
      }
    }
  }

  /**
   Whatever batches arrive in whatever order: the log only grows at its end, the tip is the hash of its last
   header, and `synced` stays once it is set.
   */
  lemma {:induction false} LogOnlyGrows(ps: Params, s: Log, es: seq<Event>)
    requires Runs(ps, s, es) && TipOk(ps, s)
    ensures s.headers <= Run(ps, s, es).headers && TipOk(ps, Run(ps, s, es))
    ensures s.synced ==> Run(ps, s, es).synced
    ensures !s.synced && s.pending == 0 && Run(ps, s, es).synced ==>
              exists i :: 0 <= i < |es| && es[i].Batch? && es[i].hs != [] && |es[i].hs| != FULL_BATCH
    decreases |es|
  {
    if es != [] {
      var s' := Step(ps, s, es[0]);
      LogOnlyGrows(ps, s', es[1..]);
      if es[0].Batch? && es[0].hs != [] && |es[0].hs| != FULL_BATCH {
      } else if !s'.synced && s'.pending == 0 && Run(ps, s, es).synced {
        var i :| 0 <= i < |es[1..]| && es[1..][i].Batch? && es[1..][i].hs != [] && |es[1..][i].hs| != FULL_BATCH;
        assert es[i + 1] == es[1..][i];
      }
    }
  }

  ghost predicate HasPartialBatch(es: seq<Event>) {
    exists i :: 0 <= i < |es| && es[i].Batch? && 0 < |es[i].hs| && |es[i].hs| != 2000
  }

  /** Once all handlers have ended, `synced` is set if and only if it was before or a partial batch was appended. */
  lemma {:induction false} SyncedOnceHandled(ps: Params, s: Log, es: seq<Event>)
    requires Runs(ps, s, es) && Run(ps, s, es).pending == 0
    ensures Run(ps, s, es).synced <==> s.synced || s.pending > 0 || HasPartialBatch(es)
    decreases |es|
  {
    if es != [] {
      SyncedOnceHandled(ps, Step(ps, s, es[0]), es[1..]);
      if HasPartialBatch(es[1..]) {
        var i :| 0 <= i < |es[1..]| && es[1..][i].Batch? && 0 < |es[1..][i].hs| && |es[1..][i].hs| != 2000;
        assert es[i + 1] == es[1..][i];
      }
      if HasPartialBatch(es) && !(es[0].Batch? && 0 < |es[0].hs| && |es[0].hs| != 2000) {
        var i :| 0 <= i < |es| && es[i].Batch? && 0 < |es[i].hs| && |es[i].hs| != 2000;
        assert es[1..][i - 1] == es[i];
      }
    }
  }

  /** The log is one linked chain from genesis if and only if every batch fitted when it was appended. */
  lemma {:induction false} ChainExactlyWhenBatchesFit(ps: Params, s: Log, es: seq<Event>)
    requires Runs(ps, s, es) && TipOk(ps, s)
    ensures Linked(ps, ps.genesis, Run(ps, s, es).headers)
       <==> Linked(ps, ps.genesis, s.headers) && BatchesFit(ps, s, es)
    decreases |es|
  {
    if es != [] {
      ChainExactlyWhenBatchesFit(ps, Step(ps, s, es[0]), es[1..]);
      if es[0].Batch? { LinkedAppend(ps, ps.genesis, s.headers, es[0].hs); }
    }
  }

  /**
   Two peers that connect at the same time are both asked from the same tip, and their answers arrive one after
   the other. The log was linked after the first and is not after the second.
   */
  lemma SameAnswerTwiceBreaksTheChain(ps: Params, s: Log, r: seq<Header>)
    requires TipOk(ps, s) && r != [] && Linked(ps, ps.genesis, s.headers + r)
    requires ps.hash(r[|r| - 1]) != s.tip
    ensures Runs(ps, s, [Batch(r), Batch(r)])
    ensures !Linked(ps, ps.genesis, Run(ps, s, [Batch(r), Batch(r)]).headers)
  {
    var s1 := Step(ps, s, Batch(r));
    assert [Batch(r), Batch(r)][1..] == [Batch(r)] && [Batch(r)][1..] == [];
    assert Run(ps, s1, [Batch(r)]) == Step(ps, s1, Batch(r));
    LinkedAppend(ps, ps.genesis, s.headers, r);
    LinkedAppend(ps, ps.genesis, s.headers + r, r);
    assert (s.headers + r)[|s.headers + r| - 1] == r[|r| - 1];
    assert r[0].prev == s.tip;
  }
}
