/**
 The flat store refines the map of maps: a client that follows the interfaces cannot tell them apart, on any
 run of calls, exactly when no registered name followed by NUL begins another.
 */
module StoreRefinement {
  import opened Wrappers
  import opened Bytes
  import opened Keyspace
  import opened Snapshot
  import opened StoreApi
  import Laws = StoreLaws
  import M = MockSpec
  import F = FlatSpec

  // The abstraction

  /** Family `cf` holds exactly the user keys whose flat keys are in the engine, with the engine's values. */
  ghost predicate Holds(bucket: map<bytes, bytes>, e: F.Engine, cf: bytes) {
    forall k {:trigger FlatKey(cf, k)} ::
      && (k in bucket <==> FlatKey(cf, k) in e)
      && (k in bucket ==> bucket[k] == e[FlatKey(cf, k)])
  }

  ghost predicate Represents(fs: M.Families, e: F.Engine, names: set<bytes>) {
    && fs.Keys == names
    && forall cf :: cf in names ==> Holds(fs[cf], e, cf)
  }

  ghost function FlatWrite(op: M.Staged): F.EngineWrite {
    match op
    case Write(cf, key, value) => F.Set(FlatKey(cf, key), value)
    case Erase(cf, key) => F.Remove(FlatKey(cf, key))
  }

  ghost predicate SameBatch(b: M.Batch, c: F.Batch) {
    && b.closed == c.closed
    && (!b.closed ==> |b.ops| == |c.writes| && forall i :: 0 <= i < |b.ops| ==> c.writes[i] == FlatWrite(b.ops[i]))
  }

  ghost predicate SameCursor(it: M.Iter, c: F.Cursor) {
    && Ascending(Keys(it.entries))
    && |it.entries| == |c.entries|
    && Keys(c.entries) == WithPrefix(c.prefix, Keys(it.entries))
    && (forall i :: 0 <= i < |it.entries| ==> it.entries[i].value == c.entries[i].value)
    && it.pos == c.pos && -1 <= c.pos <= |c.entries|
    && (!c.positioned ==> c.pos == -1)
  }

  ghost predicate Agree(m: M.State, f: F.State) {
    && M.WellFormed(m)
    && m.closed == f.closed
    && (m.closed ==> m.families == map[])
    && (!m.closed ==> Represents(m.families, f.engine, f.names))
    && |m.batches| == |f.batches|
    && (forall b :: 0 <= b < |m.batches| ==> SameBatch(m.batches[b], f.batches[b]))
    && |m.iters| == |f.cursors|
    && (forall i :: 0 <= i < |m.iters| ==> SameCursor(m.iters[i], f.cursors[i]))
  }

  // One write

  lemma WriteToFamily(fs: M.Families, e: F.Engine, names: set<bytes>, op: M.Staged, cf: bytes)
    requires PrefixFree(names) && op.cf in names && cf in names
    requires Represents(fs, e, names)
    ensures Holds(M.ApplyOp(fs, op)[cf], F.ApplyWrite(e, FlatWrite(op)), cf)
  {
    assert Holds(fs[cf], e, cf);
    forall k
      ensures FlatKey(cf, k) == FlatKey(op.cf, op.key) <==> cf == op.cf && k == op.key
    {
      if FlatKey(cf, k) == FlatKey(op.cf, op.key) { FlatKeyIsInjective(names, cf, k, op.cf, op.key); }
    }
  }

  /** A write to the flat key is the write to the family and to no other family. */
  lemma WriteCommutes(fs: M.Families, e: F.Engine, names: set<bytes>, op: M.Staged)
    requires PrefixFree(names) && op.cf in names
    requires Represents(fs, e, names)
    ensures Represents(M.ApplyOp(fs, op), F.ApplyWrite(e, FlatWrite(op)), names)
  {
    forall cf | cf in names
      ensures Holds(M.ApplyOp(fs, op)[cf], F.ApplyWrite(e, FlatWrite(op)), cf)
    {
      WriteToFamily(fs, e, names, op, cf);
    }
  }

  lemma {:induction false} CommitCommutes(
      fs: M.Families, e: F.Engine, names: set<bytes>, ops: seq<M.Staged>, ws: seq<F.EngineWrite>)
    requires PrefixFree(names) && M.AllKnown(fs, ops)
    requires Represents(fs, e, names)
    requires |ops| == |ws| && forall i :: 0 <= i < |ops| ==> ws[i] == FlatWrite(ops[i])
    ensures Represents(M.Replay(fs, ops), F.ApplyWrites(e, ws), names)
    decreases |ops|
  {
    if ops != [] {
      WriteCommutes(fs, e, names, ops[0]);
      CommitCommutes(M.ApplyOp(fs, ops[0]), F.ApplyWrite(e, ws[0]), names, ops[1..], ws[1..]);
    }
  }

  // Iteration

  lemma RangeHoldsTheFamily(bucket: map<bytes, bytes>, e: F.Engine, cf: bytes, s: bytes)
    requires Holds(bucket, e, cf)
    ensures var range := F.Restricted(e, Prefix(cf), UpperBound(cf));
            && (s in range <==> Prefix(cf) <= s && s[|Prefix(cf)|..] in bucket)
            && (s in range ==> range[s] == bucket[s[|Prefix(cf)|..]])
  {
    RangeIsPrefix(cf, s);
    if Prefix(cf) <= s { assert s == FlatKey(cf, s[|Prefix(cf)|..]); }
  }

  /** The bounded flat cursor opens on the entries of the sorted snapshot, each key prefixed. */
  lemma OpenedCursorsAgree(bucket: map<bytes, bytes>, e: F.Engine, cf: bytes)
    requires Holds(bucket, e, cf)
    ensures SameCursor(M.Iter(EntriesOf(bucket), -1), F.OpenCursor(e, cf))
  {
    var p := Prefix(cf);
    var range := F.Restricted(e, p, UpperBound(cf));
    forall s
      ensures s in range.Keys <==> p <= s && s[|p|..] in bucket.Keys
    {
      RangeHoldsTheFamily(bucket, e, cf, s);
    }
    SortingPrefixedKeys(p, bucket.Keys, range.Keys);
    var us, vs := EntriesOf(bucket), EntriesOf(range);
    assert |us| == |Keys(us)| == |Keys(vs)| == |vs|;
    forall i | 0 <= i < |us|
      ensures us[i].value == vs[i].value
    {
      assert vs[i].key == Keys(vs)[i] == p + Keys(us)[i] == p + us[i].key;
      assert us[i] in us && vs[i] in vs;
      assert vs[i].key[|p|..] == us[i].key;
      RangeHoldsTheFamily(bucket, e, cf, vs[i].key);
    }
  }

  /** Cursors that agree keep agreeing under a move if and only if the move is an allowed one. */
  lemma MovesAgree(it: M.Iter, c: F.Cursor, move: Move)
    requires SameCursor(it, c)
    ensures SameCursor(M.Moved(it, move), F.Moved(c, move)) <==> F.MoveAllowed(c, move)
  {
    if move.Seek? { SeekingPrefixedKeys(c.prefix, Keys(it.entries), move.target); }
  }

  /**
   Cursors that agree show the same validity and the same key, the prefix taken off, and the same value exactly
   on an entry: off the ends one gives nil, the other an empty slice.
   */
  lemma ReadsAgree(it: M.Iter, c: F.Cursor)
    requires SameCursor(it, c)
    ensures M.OnEntry(it) == F.OnEntry(c)
    ensures M.KeyAt(it) == F.KeyAt(c)
    ensures M.ValueAt(it) == F.ValueAt(c) <==> M.OnEntry(it)
  {
    if M.OnEntry(it) {
      var raw := Keys(c.entries)[it.pos];
      assert raw == c.prefix + it.entries[it.pos].key;
      assert raw[|c.prefix|..] == it.entries[it.pos].key;
    }
  }

  // One call

  predicate OnStore(call: Call) {
    call.Get? || call.Has? || call.Put? || call.Delete? || call.Flush? || call.CloseStore?
  }

  predicate OnBatch(call: Call) {
    || call.NewBatch? || call.BatchPut? || call.BatchDelete? || call.BatchCount? || call.Commit? || call.CloseBatch?
  }

  predicate OnIterator(call: Call) {
    !OnStore(call) && !OnBatch(call)
  }

  lemma StoreStepAgrees(m: M.State, f: F.State, call: Call)
    requires Agree(m, f) && PrefixFree(f.names) && F.Allowed(f, call)
    requires OnStore(call)
    ensures Agree(M.Step(m, call).0, F.Step(f, call).0)
    ensures M.Step(m, call).1 == F.Step(f, call).1
  {
    if (call.Put? || call.Delete?) && !m.closed && call.key.Some? && call.cf in f.names {
      var op := if call.Put? then M.Write(call.cf, call.key.value, call.value) else M.Erase(call.cf, call.key.value);
      WriteCommutes(m.families, f.engine, f.names, op);
    }
  }

  lemma BatchStepAgrees(m: M.State, f: F.State, call: Call)
    requires Agree(m, f) && PrefixFree(f.names) && F.Allowed(f, call)
    requires OnBatch(call)
    ensures Agree(M.Step(m, call).0, F.Step(f, call).0)
    ensures M.Step(m, call).1 == F.Step(f, call).1
  {
    if call.Commit? {
      var b, c := m.batches[call.batch], f.batches[call.batch];
      assert SameBatch(b, c);
      if !m.closed && !b.closed { CommitCommutes(m.families, f.engine, f.names, b.ops, c.writes); }
    }
  }

  lemma IteratorStepAgrees(m: M.State, f: F.State, call: Call)
    requires Agree(m, f) && PrefixFree(f.names) && F.Allowed(f, call)
    requires OnIterator(call)
    ensures Agree(M.Step(m, call).0, F.Step(f, call).0)
    ensures M.Step(m, call).1 == F.Step(f, call).1
  {
    match call
    case NewIterator(cf) => if !m.closed && cf in f.names { OpenedCursorsAgree(m.families[cf], f.engine, cf); }
    case MoveIterator(i, move) => MovesAgree(m.iters[i], f.cursors[i], move);
    case CloseIterator(i) =>
    case IsValid(i) => ReadsAgree(m.iters[i], f.cursors[i]);
    case KeyOf(i) => ReadsAgree(m.iters[i], f.cursors[i]);
    case ValueOf(i) => ReadsAgree(m.iters[i], f.cursors[i]);
  }

  lemma StepAgrees(m: M.State, f: F.State, call: Call)
    requires Agree(m, f) && PrefixFree(f.names) && F.Allowed(f, call)
    ensures Agree(M.Step(m, call).0, F.Step(f, call).0)
    ensures M.Step(m, call).1 == F.Step(f, call).1
  {
    if OnStore(call) {
      StoreStepAgrees(m, f, call);
    } else if OnBatch(call) {
      BatchStepAgrees(m, f, call);
    } else {
      IteratorStepAgrees(m, f, call);
    }
  }

  // Whole runs

  /** From stores that agree, every allowed run gives the same replies and ends in stores that agree. */
  lemma {:induction false} RunsAgree(m: M.State, f: F.State, calls: seq<Call>)
    requires Agree(m, f) && PrefixFree(f.names) && F.AllowedRun(f, calls)
    ensures M.Run(m, calls).1 == F.Run(f, calls).1
    ensures Agree(M.Run(m, calls).0, F.Run(f, calls).0)
    decreases |calls|
  {
    if calls != [] {
      StepAgrees(m, f, calls[0]);
      FamiliesStayRegistered(f, calls[0]);
      RunsAgree(M.Step(m, calls[0]).0, F.Step(f, calls[0]).0, calls[1..]);
    }
  }

  lemma FamiliesStayRegistered(f: F.State, call: Call)
    ensures F.Step(f, call).0.names == f.names
  {
  }

  ghost predicate Indistinguishable(names: set<bytes>) {
    forall calls :: F.AllowedRun(F.Fresh(names), calls) ==>
      M.Run(M.Fresh(names), calls).1 == F.Run(F.Fresh(names), calls).1
  }

  /** A write to the longer name that the shorter one can see. */
  function Telltale(a: bytes, b: bytes): seq<Call>
    requires Prefix(a) <= Prefix(b)
  {
    [Put(b, Some([]), [1]), Has(a, Some(Prefix(b)[|Prefix(a)|..]))]
  }

  lemma TelltaleTells(names: set<bytes>, a: bytes, b: bytes)
    requires a in names && b in names && a != b && Prefix(a) <= Prefix(b)
    ensures F.AllowedRun(F.Fresh(names), Telltale(a, b))
    ensures M.Run(M.Fresh(names), Telltale(a, b)).1 == [Done, Truth(false)]
    ensures F.Run(F.Fresh(names), Telltale(a, b)).1 == [Done, Truth(true)]
  {
    var calls := Telltale(a, b);
    var rest := Prefix(b)[|Prefix(a)|..];
    assert FlatKey(a, rest) == Prefix(b) == FlatKey(b, []);
    var f1 := F.Step(F.Fresh(names), calls[0]).0;
    assert f1.engine == map[FlatKey(b, []) := [1]];
    assert calls[1..] == [calls[1]] && calls[1..][1..] == [];
    assert F.Run(f1, calls[1..]).1 == [Truth(true)] by { assert F.Run(F.Step(f1, calls[1]).0, []).1 == []; }
    var m1 := M.Step(M.Fresh(names), calls[0]).0;
    assert m1.families[a] == map[];
    assert M.Run(m1, calls[1..]).1 == [Truth(false)] by { assert M.Run(M.Step(m1, calls[1]).0, []).1 == []; }
  }

  /** The two stores are indistinguishable on all allowed runs if and only if the names are prefix-free. */
  lemma RefinementExactlyWhenPrefixFree(names: set<bytes>)
    ensures Indistinguishable(names) <==> PrefixFree(names)
  {
    if PrefixFree(names) {
      forall calls | F.AllowedRun(F.Fresh(names), calls)
        ensures M.Run(M.Fresh(names), calls).1 == F.Run(F.Fresh(names), calls).1
      {
        RunsAgree(M.Fresh(names), F.Fresh(names), calls);
      }
    } else {
      var a, b :| a in names && b in names && a != b && Prefix(a) <= Prefix(b);
      TelltaleTells(names, a, b);
    }
  }

  /** NUL-free names, the ones `Open` does not check for, are enough. */
  lemma NulFreeNamesAreSafe(names: set<bytes>)
    requires forall cf :: cf in names ==> NulFree(cf)
    ensures Indistinguishable(names)
  {
    NulFreeNamesArePrefixFree(names);
    RefinementExactlyWhenPrefixFree(names);
  }

  // The laws of StoreLaws are about allowed runs, so they hold of the flat store too

  /** `g` is `f` but for its engine and what is staged, and batch `b` can still be filled. */
  ghost predicate StillFilling(f: F.State, g: F.State, b: nat) {
    && g.names == f.names && g.closed == f.closed && g.cursors == f.cursors && |g.batches| == |f.batches|
    && b < |g.batches| && !g.batches[b].closed && !g.batches[b].committed
  }

  lemma {:induction false} StagingIsAllowed(f0: F.State, f: F.State, b: nat, ops: seq<M.Staged>, rest: seq<Call>)
    requires !f.closed && StillFilling(f0, f, b)
    requires forall g: F.State :: StillFilling(f0, g, b) ==> F.AllowedRun(g, rest)
    ensures F.AllowedRun(f, Laws.StagingCalls(b, ops) + rest)
    decreases |ops|
  {
    var calls := Laws.StagingCalls(b, ops);
    if ops == [] {
      assert calls + rest == rest;
    } else {
      var f' := F.Step(f, calls[0]).0;
      assert (calls + rest)[0] == calls[0] && (calls + rest)[1..] == Laws.StagingCalls(b, ops[1..]) + rest;
      StagingIsAllowed(f0, f', b, ops[1..], rest);
    }
  }

  function Ending(b: nat, cf: bytes, key: Option<bytes>): seq<Call> {
    [Commit(b), CloseBatch(b), Get(cf, key)]
  }

  lemma EndingIsAllowed(g: F.State, b: nat, cf: bytes, key: Option<bytes>)
    requires b < |g.batches| && !g.batches[b].closed && !g.batches[b].committed
    ensures F.AllowedRun(g, Ending(b, cf, key))
  {
    var rest := Ending(b, cf, key);
    var g1 := F.Step(g, Commit(b)).0;
    var g2 := F.Step(g1, CloseBatch(b)).0;
    assert rest[1..] == [CloseBatch(b), Get(cf, key)] && rest[1..][1..] == [Get(cf, key)];
    assert F.AllowedRun(g2, [Get(cf, key)]);
    assert F.AllowedRun(g1, rest[1..]);
  }

  /** A batch that is made, filled, committed once and closed, and any read after it. */
  lemma BatchRunIsAllowed(f: F.State, ops: seq<M.Staged>, cf: bytes, key: Option<bytes>)
    requires !f.closed
    ensures F.AllowedRun(f, Laws.Staging(|f.batches|, ops) + Ending(|f.batches|, cf, key))
  {
    var b, rest := |f.batches|, Ending(|f.batches|, cf, key);
    var f' := F.Step(f, NewBatch).0;
    forall g: F.State | StillFilling(f', g, b) ensures F.AllowedRun(g, rest) { EndingIsAllowed(g, b, cf, key); }
    StagingIsAllowed(f', f', b, ops, rest);
    var all := Laws.Staging(b, ops) + rest;
    assert all[0] == NewBatch && all[1..] == Laws.StagingCalls(b, ops) + rest;
  }

  lemma FirstIsAllowed(f: F.State, call: Call, rest: seq<Call>)
    requires F.Allowed(f, call) && F.AllowedRun(F.Step(f, call).0, rest)
    ensures F.AllowedRun(f, [call] + rest)
  {
    assert ([call] + rest)[1..] == rest;
  }

  /** Reading `n` entries one after the other, and closing the iterator and the store behind the last. */
  function FullScan(i: nat, n: nat): seq<Call> {
    if n == 0 then [IsValid(i)] + ([CloseIterator(i)] + ([CloseStore] + []))
    else [IsValid(i)] + ([KeyOf(i)] + ([ValueOf(i)] + ([MoveIterator(i, Next)] + FullScan(i, n - 1))))
  }

  /** The only open iterator, with `n` entries from where it is. */
  ghost predicate OnlyOpen(f: F.State, i: nat, n: nat) {
    && F.Open(f, i) && f.cursors[i].positioned && f.cursors[i].pos >= 0
    && f.cursors[i].pos + n == |f.cursors[i].entries|
    && forall j :: 0 <= j < |f.cursors| && j != i ==> f.cursors[j].closed
  }

  lemma NextLeavesOneLess(f: F.State, i: nat, n: nat)
    requires OnlyOpen(f, i, n) && n > 0
    ensures OnlyOpen(F.Step(f, MoveIterator(i, Next)).0, i, n - 1)
  {
    var f' := F.Step(f, MoveIterator(i, Next)).0;
    assert forall j :: 0 <= j < |f.cursors| && j != i ==> f'.cursors[j] == f.cursors[j];
  }

  lemma ClosingAll(f: F.State, i: nat)
    requires OnlyOpen(f, i, 0)
    ensures F.Allowed(F.Step(f, CloseIterator(i)).0, CloseStore)
  {
    var f' := F.Step(f, CloseIterator(i)).0;
    forall j | 0 <= j < |f'.cursors| ensures !F.Open(f', j) {
      if j != i { assert f'.cursors[j] == f.cursors[j]; }
    }
  }

  lemma EndIsAllowed(f: F.State, i: nat)
    requires OnlyOpen(f, i, 0)
    ensures F.AllowedRun(f, FullScan(i, 0))
  {
    ClosingAll(f, i);
    FirstIsAllowed(F.Step(f, CloseIterator(i)).0, CloseStore, []);
    FirstIsAllowed(f, CloseIterator(i), [CloseStore] + []);
    FirstIsAllowed(f, IsValid(i), [CloseIterator(i)] + ([CloseStore] + []));
  }

  lemma EntryIsAllowed(f: F.State, i: nat, n: nat, rest: seq<Call>)
    requires OnlyOpen(f, i, n) && n > 0 && F.AllowedRun(F.Step(f, MoveIterator(i, Next)).0, rest)
    ensures F.AllowedRun(f, [IsValid(i)] + ([KeyOf(i)] + ([ValueOf(i)] + ([MoveIterator(i, Next)] + rest))))
  {
    FirstIsAllowed(f, MoveIterator(i, Next), rest);
    FirstIsAllowed(f, ValueOf(i), [MoveIterator(i, Next)] + rest);
    FirstIsAllowed(f, KeyOf(i), [ValueOf(i)] + ([MoveIterator(i, Next)] + rest));
    FirstIsAllowed(f, IsValid(i), [KeyOf(i)] + ([ValueOf(i)] + ([MoveIterator(i, Next)] + rest)));
  }

  lemma {:induction false} FullScanIsAllowed(f: F.State, i: nat, n: nat)
    requires OnlyOpen(f, i, n)
    ensures F.AllowedRun(f, FullScan(i, n))
    decreases n
  {
    if n == 0 {
      EndIsAllowed(f, i);
    } else {
      NextLeavesOneLess(f, i, n);
      FullScanIsAllowed(F.Step(f, MoveIterator(i, Next)).0, i, n - 1);
      EntryIsAllowed(f, i, n, FullScan(i, n - 1));
    }
  }

  ghost function Opened(f: F.State, cf: bytes): F.State {
    F.Step(F.Step(f, NewIterator(cf)).0, MoveIterator(|f.cursors|, SeekToFirst)).0
  }

  lemma AddedAlone(f: F.State, c: F.Cursor)
    requires forall j :: 0 <= j < |f.cursors| ==> f.cursors[j].closed
    requires !c.closed && c.positioned && c.pos == 0
    ensures OnlyOpen(f.(cursors := f.cursors + [c]), |f.cursors|, |c.entries|)
  {
  }

  lemma MovedToFirst(f: F.State, c: F.Cursor)
    ensures F.Step(f.(cursors := f.cursors + [c]), MoveIterator(|f.cursors|, SeekToFirst)).0 ==
            f.(cursors := f.cursors + [c.(pos := 0, positioned := true)])
  {
    var moved := c.(pos := 0, positioned := true);
    assert (f.cursors + [c])[|f.cursors| := moved] == f.cursors + [moved];
  }

  lemma OpenedAlone(f: F.State, cf: bytes, c: F.Cursor)
    requires !f.closed && cf in f.names && forall j :: 0 <= j < |f.cursors| ==> f.cursors[j].closed
    requires c == F.OpenCursor(f.engine, cf)
    ensures OnlyOpen(Opened(f, cf), |f.cursors|, |c.entries|)
  {
    MovedToFirst(f, c);
    AddedAlone(f, c.(pos := 0, positioned := true));
  }

  lemma OpeningIsAllowed(f: F.State, cf: bytes, rest: seq<Call>)
    requires !f.closed && cf in f.names && F.AllowedRun(Opened(f, cf), rest)
    ensures F.AllowedRun(f, [NewIterator(cf)] + ([MoveIterator(|f.cursors|, SeekToFirst)] + rest))
  {
    var f1 := F.Step(f, NewIterator(cf)).0;
    FirstIsAllowed(f1, MoveIterator(|f.cursors|, SeekToFirst), rest);
    FirstIsAllowed(f, NewIterator(cf), [MoveIterator(|f.cursors|, SeekToFirst)] + rest);
  }

  /** Opening an iterator on a family and reading it to its end, before the store is closed. */
  lemma ScanIsAllowed(f: F.State, cf: bytes, i: nat, n: nat)
    requires !f.closed && cf in f.names && forall j :: 0 <= j < |f.cursors| ==> f.cursors[j].closed
    requires i == |f.cursors| && n == |F.OpenCursor(f.engine, cf).entries|
    ensures F.AllowedRun(f, [NewIterator(cf)] + ([MoveIterator(i, SeekToFirst)] + FullScan(i, n)))
  {
    OpenedAlone(f, cf, F.OpenCursor(f.engine, cf));
    FullScanIsAllowed(Opened(f, cf), i, n);
    OpeningIsAllowed(f, cf, FullScan(i, n));
  }

  // Outside the allowed uses

  /**
   Staging after the store was closed is where the batches part: the in-memory batch looks for the family in
   a map that Close set to nil, the flat one in a table that Close leaves alone.
   */
  lemma StagingAgreesExactlyWhen(m: M.State, f: F.State, b: nat, cf: bytes, key: Option<bytes>, value: bytes)
    requires Agree(m, f) && b < |m.batches|
    ensures M.Step(m, BatchPut(b, cf, key, value)).1 == F.Step(f, BatchPut(b, cf, key, value)).1
       <==> (f.closed && cf in f.names && !f.batches[b].closed ==> key.None?)
    ensures M.Step(m, BatchDelete(b, cf, key)).1 == F.Step(f, BatchDelete(b, cf, key)).1
       <==> (f.closed && cf in f.names && !f.batches[b].closed ==> key.None?)
  {
    assert SameBatch(m.batches[b], f.batches[b]);
  }

  function CountingMoves(it: M.Iter, moves: seq<Move>): M.Iter
    decreases |moves|
  {
    if moves == [] then it else CountingMoves(M.Moved(it, moves[0]), moves[1..])
  }

  function BoundedMoves(c: F.Cursor, moves: seq<Move>): F.Cursor
    decreases |moves|
  {
    if moves == [] then c else BoundedMoves(F.Moved(c, moves[0]), moves[1..])
  }

  /** Some moves after which one of the two is on an entry and the other is not. */
  ghost predicate CanBeTold(it: M.Iter, c: F.Cursor) {
    exists moves :: M.OnEntry(CountingMoves(it, moves)) != F.OnEntry(BoundedMoves(c, moves))
  }

  lemma {:induction false} MovingKeepsEntries(it: M.Iter, c: F.Cursor, moves: seq<Move>)
    ensures CountingMoves(it, moves).entries == it.entries && BoundedMoves(c, moves).entries == c.entries
    decreases |moves|
  {
    if moves != [] { MovingKeepsEntries(M.Moved(it, moves[0]), F.Moved(c, moves[0]), moves[1..]); }
  }

  /** From the position that a move too many led to, the moves that show it. */
  function Tell(c: F.Cursor, move: Move): seq<Move> {
    if c.positioned then [if move.Next? then Prev else Next]
    else if move.Next? then []
    else [Next, Next]
  }

  lemma FewMoves(it: M.Iter, c: F.Cursor, m1: Move, m2: Move)
    ensures CountingMoves(it, [m1]) == M.Moved(it, m1) && BoundedMoves(c, [m1]) == F.Moved(c, m1)
    ensures CountingMoves(it, [m1, m2]) == M.Moved(M.Moved(it, m1), m2)
    ensures BoundedMoves(c, [m1, m2]) == F.Moved(F.Moved(c, m1), m2)
  {
    assert [m1, m2][1..] == [m2] && [m2][1..] == [];
    assert CountingMoves(M.Moved(it, m1), [m2]) == M.Moved(M.Moved(it, m1), m2);
    assert BoundedMoves(F.Moved(c, m1), [m2]) == F.Moved(F.Moved(c, m1), m2);
  }

  /**
   One move too many, beyond either end or before the first Seek, and the bounded cursor and the counting one
   can be told apart, unless there are no entries.
   */
  lemma OvershootPartsTheCursors(it: M.Iter, c: F.Cursor, move: Move)
    requires SameCursor(it, c) && !F.MoveAllowed(c, move)
    ensures CanBeTold(M.Moved(it, move), F.Moved(c, move)) <==> c.entries != []
  {
    var it', c' := M.Moved(it, move), F.Moved(c, move);
    if c.entries == [] {
      forall moves ensures M.OnEntry(CountingMoves(it', moves)) == F.OnEntry(BoundedMoves(c', moves)) {
        MovingKeepsEntries(it', c', moves);
      }
    } else {
      var moves := Tell(c, move);
      if |moves| > 0 { FewMoves(it', c', moves[0], Next); }
      assert M.OnEntry(CountingMoves(it', moves)) != F.OnEntry(BoundedMoves(c', moves));
    }
  }
}
