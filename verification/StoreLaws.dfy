/**
 What a client of a store can rely on, said of its calls and replies alone: the order of the errors, that a read
 gives the last write, what a batch and a Reset do, and what a scan shows. StoreRefinement carries the laws over to
 the flat store.
 */
module StoreLaws {
  import opened Wrappers
  import opened Bytes
  import opened Snapshot
  import opened StoreApi
  import opened MockSpec

  ghost function After(s: State, call: Call): State
    requires WellFormed(s)
  {
    Step(s, call).0
  }

  ghost function Answer(s: State, call: Call): Reply
    requires WellFormed(s)
  {
    Step(s, call).1
  }

  // Errors

  predicate OnKey(call: Call) {
    call.Get? || call.Has? || call.Put? || call.Delete?
  }

  /** A call on a key fails for a closed store, then for a nil key, then for an unknown family, and changes nothing. */
  lemma KeyCallErrors(s: State, call: Call)
    requires WellFormed(s) && OnKey(call)
    ensures Answer(s, call) == Failed(Closed) <==> s.closed
    ensures Answer(s, call) == Failed(NilKey) <==> !s.closed && call.key.None?
    ensures Answer(s, call) == Failed(FamilyNotFound) <==> !s.closed && call.key.Some? && call.cf !in s.families
    ensures Answer(s, call) == Failed(KeyNotFound) <==>
            call.Get? && !s.closed && call.key.Some? && call.cf in s.families && call.key.value !in s.families[call.cf]
    ensures Answer(s, call).Failed? ==> After(s, call) == s
  {
  }

  predicate OnStaging(call: Call) {
    call.BatchPut? || call.BatchDelete?
  }

  /** Staging fails for a closed batch, then for a nil key, then for an unknown family. */
  lemma StagingErrors(s: State, call: Call)
    requires WellFormed(s) && OnStaging(call) && call.batch < |s.batches|
    ensures Answer(s, call) == Failed(BatchClosed) <==> s.batches[call.batch].closed
    ensures Answer(s, call) == Failed(NilKey) <==> !s.batches[call.batch].closed && call.key.None?
    ensures Answer(s, call) == Failed(FamilyNotFound) <==>
            !s.batches[call.batch].closed && call.key.Some? && call.cf !in s.families
    ensures Answer(s, call).Failed? || Answer(s, call) == Done
    ensures Answer(s, call).Failed? ==> After(s, call) == s
  {
    assert s.batches[call.batch := s.batches[call.batch]] == s.batches;
  }

  /** A commit fails for a closed batch, then for a closed store. */
  lemma CommitErrors(s: State, b: nat)
    requires WellFormed(s) && b < |s.batches|
    ensures Answer(s, Commit(b)) == Failed(BatchClosed) <==> s.batches[b].closed
    ensures Answer(s, Commit(b)) == Failed(Closed) <==> !s.batches[b].closed && s.closed
    ensures Answer(s, Commit(b)).Failed? || Answer(s, Commit(b)) == Done
    ensures Answer(s, Commit(b)).Failed? ==> After(s, Commit(b)) == s
  {
  }

  /** The calls that a closed store refuses. */
  predicate NeedsOpenStore(s: State, call: Call) {
    || OnKey(call) || call.Flush? || call.CloseStore? || call.NewIterator?
    || (call.Commit? && call.batch < |s.batches| && !s.batches[call.batch].closed)
  }

  /** A store closes once, and is closed for good. */
  lemma ClosedForGood(s: State, call: Call)
    requires WellFormed(s) && !s.closed && NeedsOpenStore(s, call)
    ensures Answer(s, CloseStore) == Done
    ensures Answer(After(s, CloseStore), call) == Failed(Closed)
    ensures After(After(s, CloseStore), call) == After(s, CloseStore)
  {
  }

  /** A closed batch counts nothing, and refuses to stage and to commit. */
  lemma ClosedBatchRefuses(s: State, b: nat, cf: bytes, key: Option<bytes>, value: bytes)
    requires WellFormed(s) && b < |s.batches|
    ensures var s' := After(s, CloseBatch(b));
            && Answer(s, CloseBatch(b)) == Done
            && Answer(s', BatchPut(b, cf, key, value)) == Failed(BatchClosed)
            && Answer(s', BatchDelete(b, cf, key)) == Failed(BatchClosed)
            && Answer(s', Commit(b)) == Failed(BatchClosed)
            && Answer(s', BatchCount(b)) == Count(0)
            && s'.families == s.families && s'.closed == s.closed
  {
  }

  // Reads and writes

  ghost predicate Writable(s: State, cf: bytes) {
    WellFormed(s) && !s.closed && cf in s.families
  }

  /** After a Put every Get and Has answers as before, except for the one key of the one family. */
  lemma PutIsRead(s: State, cf: bytes, key: bytes, value: bytes, cf': bytes, key': bytes)
    requires Writable(s, cf)
    ensures var s', same := After(s, Put(cf, Some(key), value)), cf' == cf && key' == key;
            && Answer(s, Put(cf, Some(key), value)) == Done
            && Answer(s', Get(cf', Some(key'))) == (if same then Found(value) else Answer(s, Get(cf', Some(key'))))
            && Answer(s', Has(cf', Some(key'))) == (if same then Truth(true) else Answer(s, Has(cf', Some(key'))))
  {
  }

  /** After a Delete likewise; the key is gone, and it is no error if it never was there. */
  lemma DeleteIsRead(s: State, cf: bytes, key: bytes, cf': bytes, key': bytes)
    requires Writable(s, cf)
    ensures var s', same := After(s, Delete(cf, Some(key))), cf' == cf && key' == key;
            && Answer(s, Delete(cf, Some(key))) == Done
            && Answer(s', Get(cf', Some(key'))) ==
               (if same then Failed(KeyNotFound) else Answer(s, Get(cf', Some(key'))))
            && Answer(s', Has(cf', Some(key'))) == (if same then Truth(false) else Answer(s, Has(cf', Some(key'))))
  {
  }

  /** Has and Get agree. */
  lemma HasTellsWhatGetFinds(s: State, cf: bytes, key: bytes)
    requires Writable(s, cf)
    ensures Answer(s, Has(cf, Some(key))) == Truth(Answer(s, Get(cf, Some(key))).Found?)
    ensures Answer(s, Get(cf, Some(key))).Found? || Answer(s, Get(cf, Some(key))) == Failed(KeyNotFound)
  {
  }

  /** A new store has its families, and nothing in them. */
  lemma NewStoreIsEmpty(names: set<bytes>, cf: bytes, key: bytes)
    ensures Answer(Fresh(names), Has(cf, Some(key))) == if cf in names then Truth(false) else Failed(FamilyNotFound)
    ensures Answer(Fresh(names), Get(cf, Some(key))) == Failed(if cf in names then KeyNotFound else FamilyNotFound)
  {
  }

  /** Nothing is read from an empty family. */
  lemma EmptyFamily(s: State, cf: bytes, key: bytes)
    requires Writable(s, cf) && s.families[cf] == map[]
    ensures Answer(s, Has(cf, Some(key))) == Truth(false)
    ensures Answer(s, Get(cf, Some(key))) == Failed(KeyNotFound)
    ensures After(s, NewIterator(cf)).iters == s.iters + [Iter([], -1)]
  {
    assert |EntriesOf(map[])| == |Keys(EntriesOf(map[]))| == 0;
  }

  lemma CommitOntoEmpty(s: State, b: nat, cf: bytes, key: bytes)
    requires Writable(s, cf) && s.families[cf] == map[] && b < |s.batches| && !s.batches[b].closed
    ensures Answer(s, Commit(b)) == Done
    ensures Lookup(After(s, Commit(b)).families, cf, key) == AfterStaging(None, LastOp(s.batches[b].ops, cf, key))
  {
    CommitMeaning(s.families, false, s.batches[b], cf, key);
  }

  // Batches

  function StagingCalls(b: nat, ops: seq<MockSpec.Staged>): seq<Call> {
    if ops == [] then []
    else [match ops[0]
          case Write(cf, key, value) => BatchPut(b, cf, Some(key), value)
          case Erase(cf, key) => BatchDelete(b, cf, Some(key))] + StagingCalls(b, ops[1..])
  }

  lemma {:induction false} RunOn(s: State, calls: seq<Call>, more: seq<Call>)
    requires WellFormed(s)
    ensures Run(s, calls + more).0 == Run(Run(s, calls).0, more).0
    decreases |calls|
  {
    if calls == [] {
      assert calls + more == more;
    } else {
      assert (calls + more)[0] == calls[0] && (calls + more)[1..] == calls[1..] + more;
      RunOn(After(s, calls[0]), calls[1..], more);
    }
  }

  lemma RunOne(s: State, call: Call)
    requires WellFormed(s)
    ensures Run(s, [call]) == (After(s, call), [Answer(s, call)])
  {
    assert [call][1..] == [] && Run(After(s, call), []) == (After(s, call), []);
    assert [Answer(s, call)] + [] == [Answer(s, call)];
  }

  lemma TwoCalls(s: State, a: Call, b: Call)
    requires WellFormed(s)
    ensures Run(s, [a, b]).0 == After(After(s, a), b)
  {
    RunOne(s, a);
    RunOne(After(s, a), b);
    RunOn(s, [a], [b]);
    assert [a] + [b] == [a, b];
  }

  lemma Then(s: State, calls: seq<Call>, s1: State, more: seq<Call>, s2: State)
    requires WellFormed(s) && Run(s, calls).0 == s1 && Run(s1, more).0 == s2
    ensures Run(s, calls + more).0 == s2
  {
    RunOn(s, calls, more);
  }

  lemma ThenOne(s: State, calls: seq<Call>, s1: State, call: Call)
    requires WellFormed(s) && Run(s, calls).0 == s1
    ensures Run(s, calls + [call]).0 == After(s1, call)
  {
    RunOne(s1, call);
    Then(s, calls, s1, [call], After(s1, call));
  }

  /** Staging keeps the operations in the order of the calls, and leaves the store alone. */
  lemma {:induction false} StagingKeepsOrder(s: State, b: nat, ops: seq<MockSpec.Staged>)
    requires WellFormed(s) && !s.closed && b < |s.batches| && !s.batches[b].closed && AllKnown(s.families, ops)
    ensures Run(s, StagingCalls(b, ops)).0 ==
            s.(batches := s.batches[b := Batch(s.batches[b].ops + ops, false)])
    ensures forall reply :: reply in Run(s, StagingCalls(b, ops)).1 ==> reply == Done
    decreases |ops|
  {
    if ops == [] {
      assert s.batches[b].ops + ops == s.batches[b].ops;
      assert s.batches[b := s.batches[b]] == s.batches;
    } else {
      var s' := After(s, StagingCalls(b, ops)[0]);
      assert StagingCalls(b, ops)[1..] == StagingCalls(b, ops[1..]);
      assert s' == s.(batches := s.batches[b := Batch(s.batches[b].ops + [ops[0]], false)]);
      assert s.batches[b].ops + [ops[0]] + ops[1..] == s.batches[b].ops + ops;
      StagingKeepsOrder(s', b, ops[1..]);
      var full := Batch(s.batches[b].ops + ops, false);
      assert s'.batches[b := full] == s.batches[b := full];
    }
  }

  /** A new batch and some operations staged in it. */
  function Staging(b: nat, ops: seq<MockSpec.Staged>): seq<Call> {
    [NewBatch] + StagingCalls(b, ops)
  }

  lemma StagedBatch(s: State, ops: seq<MockSpec.Staged>)
    requires WellFormed(s) && !s.closed && AllKnown(s.families, ops)
    ensures Run(s, Staging(|s.batches|, ops)).0 == s.(batches := s.batches + [Batch(ops, false)])
  {
    var b, s1 := |s.batches|, s.(batches := s.batches + [Batch([], false)]);
    RunOne(s, NewBatch);
    StagingKeepsOrder(s1, b, ops);
    assert [] + ops == ops;
    assert s1.batches[b := Batch(ops, false)] == s.batches + [Batch(ops, false)];
    Then(s, [NewBatch], s1, StagingCalls(b, ops), s.(batches := s.batches + [Batch(ops, false)]));
  }

  ghost predicate Staged(s: State, staged: State, ops: seq<MockSpec.Staged>) {
    staged == s.(batches := s.batches + [Batch(ops, false)])
  }

  /** Before the commit the store is as it was, and the batch counts its operations. */
  lemma StagedIsUntouched(s: State, staged: State, ops: seq<MockSpec.Staged>)
    requires WellFormed(s) && !s.closed && AllKnown(s.families, ops) && Staged(s, staged, ops)
    ensures WellFormed(staged) && staged.families == s.families
    ensures Answer(staged, BatchCount(|s.batches|)) == Count(|ops|)
    ensures Answer(staged, Commit(|s.batches|)) == Done
  {
  }

  /** What the operations make of the families. */
  ghost function Outcome(s: State, ops: seq<MockSpec.Staged>): Families
    requires AllKnown(s.families, ops)
  {
    CommitOn(s.families, false, Batch(ops, false)).0
  }

  lemma CommitAfter(s: State, calls: seq<Call>, staged: State, ops: seq<MockSpec.Staged>)
    requires WellFormed(s) && !s.closed && AllKnown(s.families, ops) && Staged(s, staged, ops)
    requires Run(s, calls).0 == staged
    ensures Run(s, calls + [Commit(|s.batches|)]).0.families == Outcome(s, ops)
  {
    StagedIsUntouched(s, staged, ops);
    ThenOne(s, calls, staged, Commit(|s.batches|));
  }

  lemma BatchOutcome(s: State, ops: seq<MockSpec.Staged>)
    requires WellFormed(s) && !s.closed && AllKnown(s.families, ops)
    ensures Run(s, Staging(|s.batches|, ops)).0.families == s.families
    ensures Run(s, Staging(|s.batches|, ops) + [Commit(|s.batches|)]).0.families == Outcome(s, ops)
  {
    StagedBatch(s, ops);
    CommitAfter(s, Staging(|s.batches|, ops), s.(batches := s.batches + [Batch(ops, false)]), ops);
  }

  lemma DirectOutcome(s: State, ops: seq<MockSpec.Staged>)
    requires WellFormed(s) && !s.closed && AllKnown(s.families, ops)
    ensures Run(s, DirectCalls(ops)).0.families == Outcome(s, ops)
  {
    CommitEqualsDirectCalls(s, ops);
  }

  /**
   A new batch, operations staged in it, and its commit leave every family as the same operations called directly,
   one after the other, leave it; before the commit the families are as they were.
   */
  lemma BatchEqualsDirectCalls(s: State, ops: seq<MockSpec.Staged>)
    requires WellFormed(s) && !s.closed && AllKnown(s.families, ops)
    ensures var b, calls := |s.batches|, Staging(|s.batches|, ops);
            && Run(s, calls).0.families == s.families
            && Run(s, calls + [Commit(b)]).0.families == Run(s, DirectCalls(ops)).0.families
  {
    BatchOutcome(s, ops);
    DirectOutcome(s, ops);
  }

  // Scans

  /** The store after `k` calls that move iterator `i` one step. */
  ghost function Walked(s: State, i: nat, step: Move, k: nat): (t: State)
    requires WellFormed(s)
    ensures WellFormed(t)
    decreases k
  {
    if k == 0 then s else Walked(After(s, MoveIterator(i, step)), i, step, k - 1)
  }

  /** How far `k` steps go. */
  function Way(step: Move, k: nat): int {
    if step.Next? then k else 0 - k
  }

  ghost function MovedTo(s: State, i: nat, pos: int): State
    requires i < |s.iters|
  {
    s.(iters := s.iters[i := s.iters[i].(pos := pos)])
  }

  lemma {:induction false} WalkedBy(s: State, i: nat, step: Move, k: nat)
    requires WellFormed(s) && i < |s.iters| && (step.Next? || step.Prev?)
    ensures Walked(s, i, step, k) == MovedTo(s, i, s.iters[i].pos + Way(step, k))
    decreases k
  {
    if k == 0 {
      assert s.iters[i := s.iters[i]] == s.iters;
    } else {
      WalkedBy(After(s, MoveIterator(i, step)), i, step, k - 1);
    }
  }

  /** What an iterator shows at position `k` of a list of entries. */
  ghost predicate Shows(s: State, i: nat, es: seq<Entry>, k: int)
    requires WellFormed(s)
  {
    && Answer(s, IsValid(i)) == Truth(0 <= k < |es|)
    && Answer(s, KeyOf(i)) == (if 0 <= k < |es| then Found(es[k].key) else Nil)
    && Answer(s, ValueOf(i)) == (if 0 <= k < |es| then Found(es[k].value) else Nil)
  }

  lemma ShownAt(s: State, i: nat, es: seq<Entry>, k: int)
    requires WellFormed(s) && i < |s.iters| && s.iters[i] == Iter(es, k)
    ensures Shows(s, i, es, k)
  {
  }

  lemma WalkShows(s: State, i: nat, es: seq<Entry>, pos: int, step: Move, k: nat, end: int, t: State)
    requires WellFormed(s) && i < |s.iters| && s.iters[i] == Iter(es, pos) && (step.Next? || step.Prev?)
    requires end == pos + Way(step, k) && t == Walked(s, i, step, k)
    ensures Shows(t, i, es, end)
  {
    WalkedBy(s, i, step, k);
    ShownAt(t, i, es, end);
  }

  /** Forward from the first entry any iterator shows its entries in their order, then none. */
  lemma ForwardScan(s: State, i: nat, es: seq<Entry>, k: nat) returns (t: State)
    requires WellFormed(s) && i < |s.iters| && s.iters[i].entries == es
    ensures t == Walked(After(s, MoveIterator(i, SeekToFirst)), i, Next, k)
    ensures Shows(t, i, es, k)
  {
    var s1 := After(s, MoveIterator(i, SeekToFirst));
    t := Walked(s1, i, Next, k);
    WalkShows(s1, i, es, 0, Next, k, k, t);
  }

  /** Backward from the last one it shows them in the opposite order, then none. */
  lemma BackwardScan(s: State, i: nat, es: seq<Entry>, k: nat) returns (t: State, end: int)
    requires WellFormed(s) && i < |s.iters| && s.iters[i].entries == es
    ensures t == Walked(After(s, MoveIterator(i, SeekToLast)), i, Prev, k)
    ensures Shows(t, i, es, end) && end == |es| - 1 - k
  {
    var s1 := After(s, MoveIterator(i, SeekToLast));
    t, end := Walked(s1, i, Prev, k), |es| - 1 - k;
    WalkShows(s1, i, es, |es| - 1, Prev, k, end, t);
  }

  /** Seek shows the first entry whose key is not below the target, or none. */
  lemma SeekShows(s: State, i: nat, target: bytes) returns (k: nat)
    requires WellFormed(s) && i < |s.iters|
    ensures Shows(After(s, MoveIterator(i, Seek(target))), i, s.iters[i].entries, k)
    ensures var keys := Keys(s.iters[i].entries);
            && k <= |keys| && (forall j :: 0 <= j < k ==> Less(keys[j], target))
            && (k < |keys| ==> !Less(keys[k], target))
  {
    k := SeekIndex(Keys(s.iters[i].entries), target);
    ShownAt(MovedTo(s, i, k), i, s.iters[i].entries, k);
  }

  /** A new iterator lists the family, and is on no entry until it is moved. */
  lemma NewIteratorLists(s: State, cf: bytes)
    requires Writable(s, cf)
    ensures Answer(s, NewIterator(cf)) == Handle(|s.iters|)
    ensures var s' := After(s, NewIterator(cf));
            && s' == s.(iters := s'.iters) && s'.iters == s.iters + [Iter(EntriesOf(s.families[cf]), -1)]
            && Shows(s', |s.iters|, EntriesOf(s.families[cf]), -1)
  {
  }

  // The least key of a family from a target on is the first of its entries from there on

  /** `k` is the least of the keys that are not below the target. */
  ghost predicate LeastFrom(keys: set<bytes>, target: bytes, k: bytes) {
    k in keys && AtMost(target, k) && forall other :: other in keys && AtMost(target, other) ==> AtMost(k, other)
  }

  lemma SortedAt(m: map<bytes, bytes>, k: bytes) returns (j: nat)
    requires k in m
    ensures j < |Keys(EntriesOf(m))| && Keys(EntriesOf(m))[j] == k
  {
    assert k in Sorted(m.Keys);
    j :| 0 <= j < |Keys(EntriesOf(m))| && Keys(EntriesOf(m))[j] == k;
  }

  lemma NotBelow(keys: seq<bytes>, target: bytes, j: nat)
    requires Ascending(keys) && j < |keys| && AtMost(target, keys[j])
    ensures SeekIndex(keys, target) <= j && AtMost(keys[SeekIndex(keys, target)], keys[j])
  {
    LessIsTotal(target, keys[j]);
  }

  lemma SeekIndexIsLeast(m: map<bytes, bytes>, target: bytes)
    ensures var es := EntriesOf(m);
            var i := SeekIndex(Keys(es), target);
            if i < |es| then es[i].key in m && es[i].value == m[es[i].key] && LeastFrom(m.Keys, target, es[i].key)
            else forall k :: k in m ==> !AtMost(target, k)
  {
    var es, keys := EntriesOf(m), Keys(EntriesOf(m));
    var i := SeekIndex(keys, target);
    if i < |es| {
      assert es[i] in es && keys[i] == es[i].key;
      LessIsTotal(target, keys[i]);
    }
    forall k | k in m && AtMost(target, k) ensures i < |es| && AtMost(es[i].key, k) {
      var j := SortedAt(m, k);
      NotBelow(keys, target, j);
    }
  }
}
