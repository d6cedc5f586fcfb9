/**
 What the Pebble-backed store of db/pebble.go computes, on values, above an engine that is assumed to be an
 ordered map from byte strings to byte strings with atomic write batches and range-bounded cursors.
 The class in PebbleStore.dfy is proved to follow these functions.
 */
module FlatSpec {
  import opened Wrappers
  import opened Bytes
  import opened Keyspace
  import opened Snapshot
  import opened StoreApi

  type Engine = map<bytes, bytes>

  datatype EngineWrite = Set(key: bytes, value: bytes) | Remove(key: bytes)

  datatype Batch = Batch(writes: seq<EngineWrite>, closed: bool, committed: bool)

  /** A cursor over the entries between two bounds. It stops one step outside either end. */
  datatype Cursor = Cursor(prefix: bytes, entries: seq<Entry>, pos: int, positioned: bool, closed: bool)

  datatype State = State(engine: Engine, names: set<bytes>, closed: bool, batches: seq<Batch>, cursors: seq<Cursor>)

  // Engine

  function ApplyWrite(e: Engine, w: EngineWrite): Engine {
    match w
    case Set(key, value) => e[key := value]
    case Remove(key) => e - {key}
  }

  function ApplyWrites(e: Engine, ws: seq<EngineWrite>): Engine
    decreases |ws|
  {
    if ws == [] then e else ApplyWrites(ApplyWrite(e, ws[0]), ws[1..])
  }

  /** The entries with `lower <= key < upper`. */
  function Restricted(e: Engine, lower: bytes, upper: bytes): Engine {
    map k | k in e && AtMost(lower, k) && Less(k, upper) :: e[k]
  }

  function Clamp(i: int, n: nat): int {
    if i < -1 then -1 else if i > n then n else i
  }

  // Store

  function GetOn(e: Engine, names: set<bytes>, closed: bool, cf: bytes, key: Option<bytes>): Reply {
    var refusal := Refusal(closed, key, cf in names);
    if refusal.Some? then Failed(refusal.value)
    else if FlatKey(cf, key.value) !in e then Failed(KeyNotFound)
    else Found(e[FlatKey(cf, key.value)])
  }

  function HasOn(e: Engine, names: set<bytes>, closed: bool, cf: bytes, key: Option<bytes>): Reply {
    var refusal := Refusal(closed, key, cf in names);
    if refusal.Some? then Failed(refusal.value) else Truth(FlatKey(cf, key.value) in e)
  }

  function PutOn(e: Engine, names: set<bytes>, closed: bool, cf: bytes, key: Option<bytes>, value: bytes)
    : (Engine, Reply)
  {
    var refusal := Refusal(closed, key, cf in names);
    if refusal.Some? then (e, Failed(refusal.value))
    else (ApplyWrite(e, Set(FlatKey(cf, key.value), value)), Done)
  }

  function DeleteOn(e: Engine, names: set<bytes>, closed: bool, cf: bytes, key: Option<bytes>): (Engine, Reply) {
    var refusal := Refusal(closed, key, cf in names);
    if refusal.Some? then (e, Failed(refusal.value))
    else (ApplyWrite(e, Remove(FlatKey(cf, key.value))), Done)
  }

  function StageOn(known: bool, b: Batch, key: Option<bytes>, w: EngineWrite): (Batch, Reply) {
    var refusal := StagingRefusal(b.closed, key, known);
    if refusal.Some? then (b, Failed(refusal.value)) else (b.(writes := b.writes + [w]), Done)
  }

  function CommitOn(e: Engine, closed: bool, b: Batch): (Engine, Batch, Reply) {
    if b.closed then (e, b, Failed(BatchClosed))
    else if closed then (e, b, Failed(Closed))
    else (ApplyWrites(e, b.writes), b.(committed := true), Done)
  }

  ghost function OpenCursor(e: Engine, cf: bytes): Cursor {
    Cursor(Prefix(cf), EntriesOf(Restricted(e, Prefix(cf), UpperBound(cf))), -1, false, false)
  }

  function Moved(c: Cursor, move: Move): Cursor {
    match move
    case Seek(target) => c.(pos := SeekIndex(Keys(c.entries), c.prefix + target), positioned := true)
    case SeekToFirst => c.(pos := 0, positioned := true)
    case SeekToLast => c.(pos := |c.entries| - 1, positioned := true)
    case Next => if c.positioned then c.(pos := Clamp(c.pos + 1, |c.entries|)) else c
    case Prev => if c.positioned then c.(pos := Clamp(c.pos - 1, |c.entries|)) else c
  }

  predicate OnEntry(c: Cursor) {
    c.positioned && 0 <= c.pos < |c.entries|
  }

  /** The key with the family prefix taken off; a raw key shorter than the prefix, as off the ends, gives nil. */
  function KeyAt(c: Cursor): Reply {
    if OnEntry(c) && |c.prefix| <= |c.entries[c.pos].key| then Found(c.entries[c.pos].key[|c.prefix|..]) else Nil
  }

  /** Off the ends there are no bytes to copy, and the copy is empty. */
  function ValueAt(c: Cursor): Reply {
    if OnEntry(c) then Found(c.entries[c.pos].value) else Found([])
  }

  /** One call. A handle that was never given out is answered with `Nil`. */
  ghost function Step(s: State, call: Call): (State, Reply) {
    match call
    case Get(cf, key) => (s, GetOn(s.engine, s.names, s.closed, cf, key))
    case Put(cf, key, value) =>
      var (e, reply) := PutOn(s.engine, s.names, s.closed, cf, key, value);
      (s.(engine := e), reply)
    case Delete(cf, key) =>
      var (e, reply) := DeleteOn(s.engine, s.names, s.closed, cf, key);
      (s.(engine := e), reply)
    case Has(cf, key) => (s, HasOn(s.engine, s.names, s.closed, cf, key))
    case Flush => (s, if s.closed then Failed(Closed) else Done)
    case CloseStore => if s.closed then (s, Failed(Closed)) else (s.(closed := true), Done)
    case NewBatch => (s.(batches := s.batches + [Batch([], false, false)]), Handle(|s.batches|))
    case BatchPut(b, cf, key, value) =>
      if b >= |s.batches| then (s, Nil) else
      var w := Set(FlatKey(cf, if key.Some? then key.value else []), value);
      var (batch, reply) := StageOn(cf in s.names, s.batches[b], key, w);
      (s.(batches := s.batches[b := batch]), reply)
    case BatchDelete(b, cf, key) =>
      if b >= |s.batches| then (s, Nil) else
      var w := Remove(FlatKey(cf, if key.Some? then key.value else []));
      var (batch, reply) := StageOn(cf in s.names, s.batches[b], key, w);
      (s.(batches := s.batches[b := batch]), reply)
    case BatchCount(b) => (s, if b >= |s.batches| then Nil else Count(|s.batches[b].writes|))
    case Commit(b) =>
      if b >= |s.batches| then (s, Nil) else
      var (e, batch, reply) := CommitOn(s.engine, s.closed, s.batches[b]);
      (s.(engine := e, batches := s.batches[b := batch]), reply)
    case CloseBatch(b) =>
      if b >= |s.batches| then (s, Nil)
      else (s.(batches := s.batches[b := s.batches[b].(closed := true)]), Done)
    case NewIterator(cf) =>
      if s.closed then (s, Failed(Closed))
      else if cf !in s.names then (s, Failed(FamilyNotFound))
      else (s.(cursors := s.cursors + [OpenCursor(s.engine, cf)]), Handle(|s.cursors|))
    case MoveIterator(i, move) =>
      if i >= |s.cursors| then (s, Nil) else (s.(cursors := s.cursors[i := Moved(s.cursors[i], move)]), Done)
    case CloseIterator(i) =>
      if i >= |s.cursors| then (s, Nil)
      else (s.(cursors := s.cursors[i := s.cursors[i].(closed := true)]), Done)
    case IsValid(i) => (s, if i >= |s.cursors| then Nil else Truth(OnEntry(s.cursors[i])))
    case KeyOf(i) => (s, if i >= |s.cursors| then Nil else KeyAt(s.cursors[i]))
    case ValueOf(i) => (s, if i >= |s.cursors| then Nil else ValueAt(s.cursors[i]))
  }

  /** A new database with the given families registered. */
  ghost function Fresh(names: set<bytes>): State {
    State(map[], names, false, [], [])
  }

  ghost function Run(s: State, calls: seq<Call>): (State, seq<Reply>)
    decreases |calls|
  {
    if calls == [] then (s, []) else
    var (next, reply) := Step(s, calls[0]);
    var (last, replies) := Run(next, calls[1..]);
    (last, [reply] + replies)
  }

  // How the interfaces ask to be used

  /** An iterator is moved only after a first Seek, and never more than one entry past either end. */
  predicate MoveAllowed(c: Cursor, move: Move) {
    match move
    case Next => c.positioned && c.pos < |c.entries|
    case Prev => c.positioned && c.pos > -1
    case _ => true
  }

  ghost predicate Open(s: State, i: nat) {
    i < |s.cursors| && !s.cursors[i].closed
  }

  /**
   Staging and committing end with the first successful commit, and staging ends when the store closes. An
   iterator is not used after it was closed, and every iterator is closed before the store.
   */
  ghost predicate Allowed(s: State, call: Call) {
    match call
    case CloseStore => s.closed || forall i :: 0 <= i < |s.cursors| ==> !Open(s, i)
    case BatchPut(b, _, _, _) => b < |s.batches| && (s.batches[b].closed || (!s.closed && !s.batches[b].committed))
    case BatchDelete(b, _, _) => b < |s.batches| && (s.batches[b].closed || (!s.closed && !s.batches[b].committed))
    case BatchCount(b) => b < |s.batches| && !s.batches[b].closed
    case Commit(b) => b < |s.batches| && (s.batches[b].closed || !s.batches[b].committed)
    case CloseBatch(b) => b < |s.batches|
    case MoveIterator(i, move) => Open(s, i) && MoveAllowed(s.cursors[i], move)
    case CloseIterator(i) => i < |s.cursors|
    case IsValid(i) => Open(s, i)
    case KeyOf(i) => Open(s, i) && OnEntry(s.cursors[i])
    case ValueOf(i) => Open(s, i) && OnEntry(s.cursors[i])
    case _ => true
  }

  ghost predicate AllowedRun(s: State, calls: seq<Call>)
    decreases |calls|
  {
    calls == [] || (Allowed(s, calls[0]) && AllowedRun(Step(s, calls[0]).0, calls[1..]))
  }
}
