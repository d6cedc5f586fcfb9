/**
 What the in-memory store of db/mock.go computes, on values: a map of maps, lists of staged operations and
 sorted snapshots. The class in MockStore.dfy is proved to follow these functions.
 */
module MockSpec {
  import opened Wrappers
  import opened Bytes
  import opened Snapshot
  import opened StoreApi

  type Families = map<bytes, map<bytes, bytes>>

  datatype Staged = Write(cf: bytes, key: bytes, value: bytes) | Erase(cf: bytes, key: bytes)

  datatype Batch = Batch(ops: seq<Staged>, closed: bool)

  datatype Iter = Iter(entries: seq<Entry>, pos: int)

  datatype State = State(families: Families, closed: bool, batches: seq<Batch>, iters: seq<Iter>)

  ghost predicate AllKnown(families: Families, ops: seq<Staged>) {
    forall i :: 0 <= i < |ops| ==> ops[i].cf in families
  }

  /** While the store is open every staged operation names an existing family. */
  ghost predicate WellFormed(s: State) {
    !s.closed ==> forall b :: 0 <= b < |s.batches| ==> AllKnown(s.families, s.batches[b].ops)
  }

  function GetOn(fs: Families, closed: bool, cf: bytes, key: Option<bytes>): Reply {
    var refusal := Refusal(closed, key, cf in fs);
    if refusal.Some? then Failed(refusal.value)
    else if key.value !in fs[cf] then Failed(KeyNotFound)
    else Found(fs[cf][key.value])
  }

  function HasOn(fs: Families, closed: bool, cf: bytes, key: Option<bytes>): Reply {
    var refusal := Refusal(closed, key, cf in fs);
    if refusal.Some? then Failed(refusal.value) else Truth(key.value in fs[cf])
  }

  function ApplyOp(fs: Families, op: Staged): (r: Families)
    requires op.cf in fs
    ensures r.Keys == fs.Keys
  {
    match op
    case Write(cf, key, value) => fs[cf := fs[cf][key := value]]
    case Erase(cf, key) => fs[cf := fs[cf] - {key}]
  }

  function PutOn(fs: Families, closed: bool, cf: bytes, key: Option<bytes>, value: bytes): (Families, Reply) {
    var refusal := Refusal(closed, key, cf in fs);
    if refusal.Some? then (fs, Failed(refusal.value)) else (ApplyOp(fs, Write(cf, key.value, value)), Done)
  }

  function DeleteOn(fs: Families, closed: bool, cf: bytes, key: Option<bytes>): (Families, Reply) {
    var refusal := Refusal(closed, key, cf in fs);
    if refusal.Some? then (fs, Failed(refusal.value)) else (ApplyOp(fs, Erase(cf, key.value)), Done)
  }

  function Replay(fs: Families, ops: seq<Staged>): (r: Families)
    requires AllKnown(fs, ops)
    ensures r.Keys == fs.Keys
    decreases |ops|
  {
    if ops == [] then fs else Replay(ApplyOp(fs, ops[0]), ops[1..])
  }

  function CommitOn(fs: Families, closed: bool, b: Batch): (Families, Reply)
    requires !closed ==> AllKnown(fs, b.ops)
  {
    if b.closed then (fs, Failed(BatchClosed))
    else if closed then (fs, Failed(Closed))
    else (Replay(fs, b.ops), Done)
  }

  function StageOn(known: bool, b: Batch, key: Option<bytes>, op: Staged): (Batch, Reply) {
    var refusal := StagingRefusal(b.closed, key, known);
    if refusal.Some? then (b, Failed(refusal.value)) else (b.(ops := b.ops + [op]), Done)
  }

  function Moved(it: Iter, move: Move): Iter {
    match move
    case Seek(target) => it.(pos := SeekIndex(Keys(it.entries), target))
    case SeekToFirst => it.(pos := 0)
    case SeekToLast => it.(pos := |it.entries| - 1)
    case Next => it.(pos := it.pos + 1)
    case Prev => it.(pos := it.pos - 1)
  }

  predicate OnEntry(it: Iter) {
    0 <= it.pos < |it.entries|
  }

  function KeyAt(it: Iter): Reply {
    if OnEntry(it) then Found(it.entries[it.pos].key) else Nil
  }

  function ValueAt(it: Iter): Reply {
    if OnEntry(it) then Found(it.entries[it.pos].value) else Nil
  }

  ghost function OpenOn(s: State, cf: bytes): (State, Reply) {
    if s.closed then (s, Failed(Closed))
    else if cf !in s.families then (s, Failed(FamilyNotFound))
    else (s.(iters := s.iters + [Iter(EntriesOf(s.families[cf]), -1)]), Handle(|s.iters|))
  }

  /** One call. A handle that was never given out is answered with `Nil`. */
  ghost function Step(s: State, call: Call): (r: (State, Reply))
    requires WellFormed(s)
    ensures WellFormed(r.0)
  {
    match call
    case Get(cf, key) => (s, GetOn(s.families, s.closed, cf, key))
    case Put(cf, key, value) =>
      var (fs, reply) := PutOn(s.families, s.closed, cf, key, value);
      (s.(families := fs), reply)
    case Delete(cf, key) =>
      var (fs, reply) := DeleteOn(s.families, s.closed, cf, key);
      (s.(families := fs), reply)
    case Has(cf, key) => (s, HasOn(s.families, s.closed, cf, key))
    case Flush => (s, if s.closed then Failed(Closed) else Done)
    case CloseStore => if s.closed then (s, Failed(Closed)) else (s.(families := map[], closed := true), Done)
    case NewBatch => (s.(batches := s.batches + [Batch([], false)]), Handle(|s.batches|))
    case BatchPut(b, cf, key, value) =>
      if b >= |s.batches| then (s, Nil) else
      var op := Write(cf, if key.Some? then key.value else [], value);
      var (batch, reply) := StageOn(cf in s.families, s.batches[b], key, op);
      (s.(batches := s.batches[b := batch]), reply)
    case BatchDelete(b, cf, key) =>
      if b >= |s.batches| then (s, Nil) else
      var op := Erase(cf, if key.Some? then key.value else []);
      var (batch, reply) := StageOn(cf in s.families, s.batches[b], key, op);
      (s.(batches := s.batches[b := batch]), reply)
    case BatchCount(b) => (s, if b >= |s.batches| then Nil else Count(|s.batches[b].ops|))
    case Commit(b) =>
      if b >= |s.batches| then (s, Nil) else
      var (fs, reply) := CommitOn(s.families, s.closed, s.batches[b]);
      (s.(families := fs), reply)
    case CloseBatch(b) =>
      if b >= |s.batches| then (s, Nil) else (s.(batches := s.batches[b := Batch([], true)]), Done)
    case NewIterator(cf) => OpenOn(s, cf)
    case MoveIterator(i, move) =>
      if i >= |s.iters| then (s, Nil) else (s.(iters := s.iters[i := Moved(s.iters[i], move)]), Done)
    case CloseIterator(i) => (s, if i >= |s.iters| then Nil else Done)
    case IsValid(i) => (s, if i >= |s.iters| then Nil else Truth(OnEntry(s.iters[i])))
    case KeyOf(i) => (s, if i >= |s.iters| then Nil else KeyAt(s.iters[i]))
    case ValueOf(i) => (s, if i >= |s.iters| then Nil else ValueAt(s.iters[i]))
  }

  /** The in-memory store's own Reset, which the interface does not have. */
  function ResetOn(fs: Families): (r: Families)
    ensures r.Keys == fs.Keys
  {
    map cf | cf in fs :: map[]
  }

  /** A store with the given families, all empty. */
  ghost function Fresh(names: set<bytes>): (s: State)
    ensures WellFormed(s)
  {
    State(map cf | cf in names :: map[], false, [], [])
  }

  ghost function Run(s: State, calls: seq<Call>): (r: (State, seq<Reply>))
    requires WellFormed(s)
    ensures WellFormed(r.0)
    decreases |calls|
  {
    if calls == [] then (s, []) else
    var (next, reply) := Step(s, calls[0]);
    var (last, replies) := Run(next, calls[1..]);
    (last, [reply] + replies)
  }

  // What a batch means

  /** The last staged operation on a key of a family, if there is one. */
  function LastOp(ops: seq<Staged>, cf: bytes, key: bytes): Option<Staged> {
    if ops == [] then None
    else if ops[|ops| - 1].cf == cf && ops[|ops| - 1].key == key then Some(ops[|ops| - 1])
    else LastOp(ops[..|ops| - 1], cf, key)
  }

  function Lookup(fs: Families, cf: bytes, key: bytes): Option<bytes> {
    if cf in fs && key in fs[cf] then Some(fs[cf][key]) else None
  }

  lemma ReplayFirst(fs: Families, ops: seq<Staged>, i: nat)
    requires i < |ops| && AllKnown(fs, ops[i..])
    ensures ops[i].cf in fs
    ensures AllKnown(ApplyOp(fs, ops[i]), ops[i + 1..])
    ensures Replay(fs, ops[i..]) == Replay(ApplyOp(fs, ops[i]), ops[i + 1..])
  {
    assert ops[i..][0] == ops[i] && ops[i..][1..] == ops[i + 1..];
  }

  lemma {:induction false} ReplayOneMore(fs: Families, ops: seq<Staged>, op: Staged)
    requires AllKnown(fs, ops + [op])
    ensures AllKnown(fs, ops) && op.cf in fs
    ensures Replay(fs, ops + [op]) == ApplyOp(Replay(fs, ops), op)
    decreases |ops|
  {
    assert (ops + [op])[|ops|] == op;
    assert forall i :: 0 <= i < |ops| ==> (ops + [op])[i] == ops[i];
    if ops == [] {
      assert Replay(ApplyOp(fs, op), []) == ApplyOp(fs, op);
      assert (ops + [op])[1..] == [];
    } else {
      assert (ops + [op])[1..] == ops[1..] + [op];
      ReplayOneMore(ApplyOp(fs, ops[0]), ops[1..], op);
    }
  }

  function AfterStaging(before: Option<bytes>, last: Option<Staged>): Option<bytes> {
    match last
    case None => before
    case Some(Write(_, _, value)) => Some(value)
    case Some(Erase(_, _)) => None
  }

  lemma {:induction false} LastStagedOperationWins(fs: Families, ops: seq<Staged>, cf: bytes, key: bytes)
    requires AllKnown(fs, ops)
    ensures Lookup(Replay(fs, ops), cf, key) == AfterStaging(Lookup(fs, cf, key), LastOp(ops, cf, key))
    decreases |ops|
  {
    if ops != [] {
      var init, op := ops[..|ops| - 1], ops[|ops| - 1];
      assert ops == init + [op];
      ReplayOneMore(fs, init, op);
      LastStagedOperationWins(fs, init, cf, key);
    }
  }

  /**
   A successful commit leaves, for every family and key, the last staged operation or else the old value;
   a commit on a closed batch or a closed store leaves every value as it was.
   */
  lemma CommitMeaning(fs: Families, closed: bool, b: Batch, cf: bytes, key: bytes)
    requires !closed ==> AllKnown(fs, b.ops)
    ensures var (after, reply) := CommitOn(fs, closed, b);
            && (reply == Done <==> !b.closed && !closed)
            && Lookup(after, cf, key) ==
               if reply == Done then AfterStaging(Lookup(fs, cf, key), LastOp(b.ops, cf, key))
               else Lookup(fs, cf, key)
  {
    if !closed { LastStagedOperationWins(fs, b.ops, cf, key); }
  }

  /** The store calls that do at once what a batch would stage. */
  function Direct(op: Staged): Call {
    match op
    case Write(cf, key, value) => Put(cf, Some(key), value)
    case Erase(cf, key) => Delete(cf, Some(key))
  }

  function DirectCalls(ops: seq<Staged>): seq<Call> {
    if ops == [] then [] else [Direct(ops[0])] + DirectCalls(ops[1..])
  }

  /** Committing a batch leaves the families as issuing its operations one by one leaves them. */
  lemma {:induction false} CommitEqualsDirectCalls(s: State, ops: seq<Staged>)
    requires WellFormed(s) && !s.closed && AllKnown(s.families, ops)
    ensures Run(s, DirectCalls(ops)).0 == s.(families := CommitOn(s.families, false, Batch(ops, false)).0)
    ensures forall reply :: reply in Run(s, DirectCalls(ops)).1 ==> reply == Done
    decreases |ops|
  {
    if ops != [] {
      var s' := Step(s, Direct(ops[0])).0;
      assert s' == s.(families := ApplyOp(s.families, ops[0]));
      assert DirectCalls(ops)[1..] == DirectCalls(ops[1..]);
      CommitEqualsDirectCalls(s', ops[1..]);
    }
  }

  lemma EntriesByStep(s: State, call: Call, i: nat)
    requires WellFormed(s) && i < |s.iters|
    ensures i < |Step(s, call).0.iters| && Step(s, call).0.iters[i].entries == s.iters[i].entries
  {
    match call
    case NewIterator(_) =>
    case MoveIterator(_, _) =>
    case _ => assert Step(s, call).0.iters == s.iters;
  }

  /** No call changes the entries of an open iterator: it shows the family as it was when it was opened. */
  lemma {:induction false} OpenIteratorsKeepTheirEntries(s: State, calls: seq<Call>, i: nat)
    requires WellFormed(s) && i < |s.iters|
    ensures i < |Run(s, calls).0.iters| && Run(s, calls).0.iters[i].entries == s.iters[i].entries
    decreases |calls|
  {
    if calls != [] {
      EntriesByStep(s, calls[0], i);
      OpenIteratorsKeepTheirEntries(Step(s, calls[0]).0, calls[1..], i);
    }
  }
}
