/**
 A client of the in-memory store that holds any number of byte slices, batches and iterators, makes any calls in
 any order, and overwrites, replaces and drops its slices between them. Whatever it does, every reply, and all
 that the store, the batches and the iterators hold, is what it would be had every slice been passed by value.
 */
module Client {
  import opened Wrappers
  import opened Bytes
  import opened StoreApi
  import opened Slices
  import opened MockStore
  import Laws = StoreLaws

  /** Slices are named by their place in the client's memory; a place beyond its end stands for nil. */
  datatype Action =
    | PutFrom(cf: bytes, key: nat, value: nat)
    | DeleteAt(cf: bytes, key: nat)
    | GetInto(cf: bytes, key: nat, out: nat)
    | HasAt(cf: bytes, key: nat)
    | FlushStore
    | Shut
    | ResetStore
    | OpenBatch
    | StageFrom(batch: nat, cf: bytes, key: nat, value: nat)
    | StageErase(batch: nat, cf: bytes, key: nat)
    | CountStaged(batch: nat)
    | CommitStaged(batch: nat)
    | DropBatch(batch: nat)
    | OpenIterator(cf: bytes)
    | SeekTo(iter: nat, target: nat)
    | Go(iter: nat, step: Walk)
    | DropIterator(iter: nat)
    | Check(iter: nat)
    | KeyInto(iter: nat, out: nat)
    | ValueInto(iter: nat, out: nat)
    | Scribble(slot: nat, index: nat, b: byte)
    | Refill(slot: nat, content: Option<bytes>)

  datatype Walk = ToFirst | ToLast | Onward | Back

  type Memory = seq<Option<bytes>>

  /** The client's memory and the store, all by value. */
  datatype Model = Model(memory: Memory, store: Spec.State)

  function Key(memory: Memory, k: nat): Option<bytes> {
    if k < |memory| then memory[k] else None
  }

  function Value(memory: Memory, k: nat): bytes {
    if k < |memory| && memory[k].Some? then memory[k].value else []
  }

  function MoveOf(step: Walk): Move {
    match step
    case ToFirst => SeekToFirst
    case ToLast => SeekToLast
    case Onward => Next
    case Back => Prev
  }

  predicate IsCall(a: Action) {
    !a.ResetStore? && !a.Scribble? && !a.Refill?
  }

  /** The call with the bytes that are in the slices at that moment. */
  function CallOf(m: Memory, a: Action): Call
    requires IsCall(a)
  {
    match a
    case PutFrom(cf, k, v) => Put(cf, Key(m, k), Value(m, v))
    case DeleteAt(cf, k) => Delete(cf, Key(m, k))
    case GetInto(cf, k, _) => Get(cf, Key(m, k))
    case HasAt(cf, k) => Has(cf, Key(m, k))
    case FlushStore => Flush
    case Shut => CloseStore
    case OpenBatch => NewBatch
    case StageFrom(b, cf, k, v) => BatchPut(b, cf, Key(m, k), Value(m, v))
    case StageErase(b, cf, k) => BatchDelete(b, cf, Key(m, k))
    case CountStaged(b) => BatchCount(b)
    case CommitStaged(b) => Commit(b)
    case DropBatch(b) => CloseBatch(b)
    case OpenIterator(cf) => NewIterator(cf)
    case SeekTo(i, k) => MoveIterator(i, Seek(Value(m, k)))
    case Go(i, step) => MoveIterator(i, MoveOf(step))
    case DropIterator(i) => CloseIterator(i)
    case Check(i) => IsValid(i)
    case KeyInto(i, _) => KeyOf(i)
    case ValueInto(i, _) => ValueOf(i)
  }

  function Received(m: Memory, out: nat, reply: Reply): Memory {
    if out < |m| then m[out := if reply.Found? then Some(reply.value) else None] else m
  }

  /** Where the returned bytes go; an error or nil leaves nil there. */
  function MemoryAfter(m: Memory, a: Action, reply: Reply): Memory {
    match a
    case GetInto(_, _, out) => Received(m, out, reply)
    case KeyInto(_, out) => Received(m, out, reply)
    case ValueInto(_, out) => Received(m, out, reply)
    case _ => m
  }

  function Scribbled(m: Memory, slot: nat, i: nat, b: byte): Memory {
    if slot < |m| && m[slot].Some? && i < |m[slot].value| then m[slot := Some(m[slot].value[i := b])] else m
  }

  function Refilled(m: Memory, slot: nat, content: Option<bytes>): Memory {
    if slot < |m| then m[slot := content] else m
  }

  function Answered(m: Model, a: Action, r: (Spec.State, Reply)): (Model, Reply) {
    (Model(MemoryAfter(m.memory, a, r.1), r.0), r.1)
  }

  ghost function Step(m: Model, a: Action): (r: (Model, Reply))
    requires Spec.WellFormed(m.store)
    ensures Spec.WellFormed(r.0.store)
  {
    match a
    case ResetStore => (m.(store := m.store.(families := Spec.ResetOn(m.store.families))), Done)
    case Scribble(slot, i, b) => (m.(memory := Scribbled(m.memory, slot, i, b)), Done)
    case Refill(slot, content) => (m.(memory := Refilled(m.memory, slot, content)), Done)
    case _ => Answered(m, a, Spec.Step(m.store, CallOf(m.memory, a)))
  }

  ghost function Steps(m: Model, actions: seq<Action>): (r: (Model, seq<Reply>))
    requires Spec.WellFormed(m.store)
    ensures Spec.WellFormed(r.0.store)
    decreases |actions|
  {
    if actions == [] then (m, []) else
    var (next, reply) := Step(m, actions[0]);
    var (last, replies) := Steps(next, actions[1..]);
    (last, [reply] + replies)
  }

  // What a step on an open object comes to

  function WithBatch(m: Model, b: nat, view: Spec.Batch): Model
    requires b < |m.store.batches|
  {
    m.(store := m.store.(batches := m.store.batches[b := view]))
  }

  function WithIter(m: Model, i: nat, it: Spec.Iter): Model
    requires i < |m.store.iters|
  {
    m.(store := m.store.(iters := m.store.iters[i := it]))
  }

  lemma StagingSteps(m: Model, b: nat, cf: bytes, k: nat, v: nat)
    requires Spec.WellFormed(m.store) && b < |m.store.batches|
    ensures var r := Spec.StageOn(cf in m.store.families, m.store.batches[b], Key(m.memory, k),
                                  Spec.Write(cf, Value(m.memory, k), Value(m.memory, v)));
            Step(m, StageFrom(b, cf, k, v)) == (WithBatch(m, b, r.0), r.1)
    ensures var r := Spec.StageOn(cf in m.store.families, m.store.batches[b], Key(m.memory, k),
                                  Spec.Erase(cf, Value(m.memory, k)));
            Step(m, StageErase(b, cf, k)) == (WithBatch(m, b, r.0), r.1)
  {
  }

  lemma StagedSteps(m: Model, b: nat)
    requires Spec.WellFormed(m.store) && b < |m.store.batches|
    ensures Step(m, CountStaged(b)) == (m, Count(|m.store.batches[b].ops|))
    ensures var r := Spec.CommitOn(m.store.families, m.store.closed, m.store.batches[b]);
            Step(m, CommitStaged(b)) == (m.(store := m.store.(families := r.0)), r.1)
    ensures Step(m, DropBatch(b)) == (WithBatch(m, b, Spec.Batch([], true)), Done)
  {
  }

  lemma MovingSteps(m: Model, i: nat, k: nat, step: Walk)
    requires Spec.WellFormed(m.store) && i < |m.store.iters|
    ensures Step(m, SeekTo(i, k)) == (WithIter(m, i, Spec.Moved(m.store.iters[i], Seek(Value(m.memory, k)))), Done)
    ensures Step(m, Go(i, step)) == (WithIter(m, i, Spec.Moved(m.store.iters[i], MoveOf(step))), Done)
  {
  }

  lemma StandingSteps(m: Model, i: nat)
    requires Spec.WellFormed(m.store) && i < |m.store.iters|
    ensures Step(m, DropIterator(i)) == (m, Done)
    ensures Step(m, Check(i)) == (m, Truth(Spec.OnEntry(m.store.iters[i])))
  {
  }

  predicate OnStore(a: Action) {
    a.PutFrom? || a.DeleteAt? || a.HasAt? || a.FlushStore? || a.Shut? || a.ResetStore?
  }

  predicate Fetches(a: Action) {
    a.GetInto? || a.KeyInto? || a.ValueInto?
  }

  predicate OnIterator(a: Action) {
    a.SeekTo? || a.Go? || a.DropIterator? || a.Check?
  }

  predicate OnBatch(a: Action) {
    a.StageFrom? || a.StageErase? || a.CountStaged? || a.CommitStaged? || a.DropBatch?
  }

  /** A handle that was never given out is answered with `Nil`. */
  lemma UnknownHandles(m: Model, a: Action)
    requires Spec.WellFormed(m.store)
    requires (OnBatch(a) && a.batch >= |m.store.batches|) || (OnIterator(a) && a.iter >= |m.store.iters|)
    ensures Step(m, a) == (m, Nil)
  {
  }

  lemma UnknownFetches(m: Model, i: nat, out: nat)
    requires Spec.WellFormed(m.store) && i >= |m.store.iters|
    ensures Step(m, KeyInto(i, out)) == (m.(memory := Received(m.memory, out, Nil)), Nil)
    ensures Step(m, ValueInto(i, out)) == (m.(memory := Received(m.memory, out, Nil)), Nil)
  {
  }

  lemma OpeningSteps(m: Model, cf: bytes)
    requires Spec.WellFormed(m.store)
    ensures Step(m, OpenBatch) ==
            (m.(store := m.store.(batches := m.store.batches + [Spec.Batch([], false)])), Handle(|m.store.batches|))
    ensures Step(m, OpenIterator(cf)) == (m.(store := Spec.OpenOn(m.store, cf).0), Spec.OpenOn(m.store, cf).1)
  {
  }

  lemma FetchSteps(m: Model, i: nat, out: nat)
    requires Spec.WellFormed(m.store) && i < |m.store.iters|
    ensures var r := Spec.KeyAt(m.store.iters[i]);
            Step(m, KeyInto(i, out)) == (m.(memory := Received(m.memory, out, r)), r)
    ensures var r := Spec.ValueAt(m.store.iters[i]);
            Step(m, ValueInto(i, out)) == (m.(memory := Received(m.memory, out, r)), r)
  {
  }

  lemma StepsFirst(m: Model, actions: seq<Action>, i: nat, replies: seq<Reply>)
    requires Spec.WellFormed(m.store) && i < |actions|
    ensures var (next, reply) := Step(m, actions[i]);
            && Steps(m, actions[i..]).0 == Steps(next, actions[i + 1..]).0
            && replies + Steps(m, actions[i..]).1 == (replies + [reply]) + Steps(next, actions[i + 1..]).1
  {
    assert actions[i..][0] == actions[i] && actions[i..][1..] == actions[i + 1..];
  }

  /** No call, Reset included, and no change of a slice alters what an open iterator will show. */
  lemma {:induction false} OpenIteratorsKeepTheirEntries(m: Model, actions: seq<Action>, i: nat)
    requires Spec.WellFormed(m.store) && i < |m.store.iters|
    ensures var s := Steps(m, actions).0.store;
            i < |s.iters| && s.iters[i].entries == m.store.iters[i].entries
    decreases |actions|
  {
    if actions != [] {
      if IsCall(actions[0]) { Spec.EntriesByStep(m.store, CallOf(m.memory, actions[0]), i); }
      OpenIteratorsKeepTheirEntries(Step(m, actions[0]).0, actions[1..], i);
    }
  }

  // Reset

  /** A Reset leaves all families without a key, and all batches, iterators and slices as they were. */
  lemma ResetEmpties(m: Model)
    requires Spec.WellFormed(m.store)
    ensures var m' := Step(m, ResetStore).0;
            && m' == m.(store := m.store.(families := m'.store.families))
            && m'.store.families.Keys == m.store.families.Keys
            && forall cf :: cf in m.store.families ==> m'.store.families[cf] == map[]
  {
  }

  /**
   So on an open store Has answers false and Get finds nothing, a new iterator has no entries, and what was staged
   before can still be committed, into empty families.
   */
  lemma AfterReset(m: Model, cf: bytes, key: bytes, b: nat)
    requires Spec.WellFormed(m.store) && !m.store.closed && cf in m.store.families
    ensures var s := Step(m, ResetStore).0.store;
            && Laws.Answer(s, Has(cf, Some(key))) == Truth(false)
            && Laws.Answer(s, Get(cf, Some(key))) == Failed(KeyNotFound)
            && Laws.After(s, NewIterator(cf)).iters == m.store.iters + [Spec.Iter([], -1)]
    ensures var s := Step(m, ResetStore).0.store;
            b < |m.store.batches| && !m.store.batches[b].closed ==>
              && Laws.Answer(s, Commit(b)) == Done
              && Spec.Lookup(Laws.After(s, Commit(b)).families, cf, key) ==
                 Spec.AfterStaging(None, Spec.LastOp(m.store.batches[b].ops, cf, key))
  {
    var s := Step(m, ResetStore).0.store;
    ResetEmpties(m);
    Laws.EmptyFamily(s, cf, key);
    if b < |m.store.batches| && !m.store.batches[b].closed { Laws.CommitOntoEmpty(s, b, cf, key); }
  }

  /** A Reset of a closed store does nothing. */
  lemma ResetAfterClose(m: Model)
    requires Spec.WellFormed(m.store) && m.store.families == map[]
    ensures Step(m, ResetStore) == (m, Done)
  {
  }

  // What the client holds, and what it cannot reach

  /** No object, null apart, is listed twice. */
  ghost predicate Different(s: seq<object?>) {
    forall i, j :: 0 <= i < j < |s| && s[i] != null ==> s[i] != s[j]
  }

  /** The slices have the bytes of the memory, and none is among the arrays that are kept from the client. */
  ghost predicate SlotsOk(slots: seq<array?<byte>>, m: Memory, owned: set<array<byte>>)
    reads slots
  {
    && |slots| == |m|
    && (forall i :: 0 <= i < |slots| ==> KeyBytes(slots[i]) == m[i])
    && (forall i :: 0 <= i < |slots| ==> slots[i] !in owned)
    && Different(slots)
  }

  ghost predicate StoreOk(store: Store, s: Spec.State, owned: set<array<byte>>)
    reads store, owned
  {
    store.Private <= owned && store.Valid() && s.families == store.Families && s.closed == store.closed
  }

  ghost predicate BatchesOk(store: Store, batches: seq<Batch>, views: seq<Spec.Batch>, owned: set<array<byte>>)
    reads batches, owned
  {
    && |batches| == |views|
    && Different(batches)
    && forall i :: 0 <= i < |batches| ==>
         && batches[i].store == store && batches[i].Private <= owned && batches[i].Valid()
         && batches[i].View() == views[i]
  }

  ghost predicate ItersOk(iters: seq<Iterator>, values: seq<Spec.Iter>, owned: set<array<byte>>)
    reads iters, owned
  {
    && |iters| == |values|
    && Different(iters)
    && forall i :: 0 <= i < |iters| ==>
         iters[i].Private <= owned && iters[i].Valid() && iters[i].Value() == values[i]
  }

  /** More arrays may come to be kept from the client, if it has none of them. */
  lemma MoreOwned(store: Store, c: Model, slots: seq<array?<byte>>, batches: seq<Batch>, iters: seq<Iterator>,
                  owned: set<array<byte>>, more: set<array<byte>>)
    requires SlotsOk(slots, c.memory, owned) && BatchesOk(store, batches, c.store.batches, owned)
    requires ItersOk(iters, c.store.iters, owned)
    requires owned <= more && forall i :: 0 <= i < |slots| ==> slots[i] !in more - owned
    ensures SlotsOk(slots, c.memory, more) && BatchesOk(store, batches, c.store.batches, more)
    ensures ItersOk(iters, c.store.iters, more)
  {
  }

  class Caller {
    const store: Store
    var batches: seq<Batch>
    var iters: seq<Iterator>
    var slots: seq<array?<byte>>

    /** The client, the store and all open objects have the value `m`; `owned` are the arrays kept from the client. */
    ghost predicate Holds(m: Model, owned: set<array<byte>>)
      reads this, store, batches, iters, owned, slots
    {
      && SlotsOk(slots, m.memory, owned) && StoreOk(store, m.store, owned)
      && BatchesOk(store, batches, m.store.batches, owned) && ItersOk(iters, m.store.iters, owned)
      && Spec.WellFormed(m.store)
    }

    constructor (store: Store, slots: seq<array?<byte>>)
      requires store.Valid() && Different(slots)
      requires forall i :: 0 <= i < |slots| ==> slots[i] !in store.Private
      ensures this.store == store && this.slots == slots
      ensures Holds(Model(seq(|slots|, i requires 0 <= i < |slots| reads slots => KeyBytes(slots[i])),
                          Spec.State(store.Families, store.closed, [], [])), store.Private)
    {
      this.store, this.slots, batches, iters := store, slots, [], [];
    }

    /** Slice number `k`. */
    function Slot(k: nat): (a: array?<byte>)
      reads this
    {
      if k < |slots| then slots[k] else null
    }

    lemma SlotsShow(m: Model, owned: set<array<byte>>, k: nat)
      requires Holds(m, owned)
      ensures KeyBytes(Slot(k)) == Key(m.memory, k) && Contents(Slot(k)) == Value(m.memory, k) && Slot(k) !in owned
    {
    }

    // Store calls

    method Put(ghost m: Model, ghost owned: set<array<byte>>, cf: bytes, k: nat, v: nat)
      returns (reply: Reply, ghost more: set<array<byte>>)
      requires Holds(m, owned)
      modifies store
      ensures var r := Spec.PutOn(m.store.families, m.store.closed, cf, Key(m.memory, k), Value(m.memory, v));
              reply == r.1 && Holds(m.(store := m.store.(families := r.0)), more)
      ensures fresh(more - owned)
    {
      SlotsShow(m, owned, k);
      SlotsShow(m, owned, v);
      var err := store.Put(cf, Slot(k), Slot(v));
      reply, more := if err.Some? then Failed(err.value) else Done, owned + store.Private;
      MoreOwned(store, m, slots, batches, iters, owned, more);
    }

    method Delete(ghost m: Model, ghost owned: set<array<byte>>, cf: bytes, k: nat) returns (reply: Reply)
      requires Holds(m, owned)
      modifies store
      ensures var r := Spec.DeleteOn(m.store.families, m.store.closed, cf, Key(m.memory, k));
              reply == r.1 && Holds(m.(store := m.store.(families := r.0)), owned)
    {
      SlotsShow(m, owned, k);
      var err := store.Delete(cf, Slot(k));
      reply := if err.Some? then Failed(err.value) else Done;
    }

    /** Keeps a slice that was handed out in place `out`, or forgets it if there is no such place. */
    method Keep(ghost m: Model, ghost owned: set<array<byte>>, out: nat, got: array?<byte>)
      requires Holds(m, owned) && got !in owned && (got != null ==> got !in slots)
      modifies this`slots
      ensures Holds(m.(memory := Received(m.memory, out, if got == null then Nil else Found(got[..]))), owned)
      ensures slots == if out < |old(slots)| then old(slots)[out := got] else old(slots)
    {
      if out < |slots| { slots := slots[out := got]; }
    }

    method Get(ghost m: Model, ghost owned: set<array<byte>>, cf: bytes, k: nat, out: nat) returns (reply: Reply)
      requires Holds(m, owned)
      modifies this`slots
      ensures reply == Spec.GetOn(m.store.families, m.store.closed, cf, Key(m.memory, k))
      ensures Holds(m.(memory := Received(m.memory, out, reply)), owned)
      ensures forall a :: a in slots ==> a == null || a in old(slots) || fresh(a)
    {
      SlotsShow(m, owned, k);
      var got, err := store.Get(cf, Slot(k));
      reply := if err.Some? then Failed(err.value) else Found(got[..]);
      Keep(m, owned, out, got);
    }

    method Has(ghost m: Model, ghost owned: set<array<byte>>, cf: bytes, k: nat) returns (reply: Reply)
      requires Holds(m, owned)
      ensures reply == Spec.HasOn(m.store.families, m.store.closed, cf, Key(m.memory, k))
    {
      SlotsShow(m, owned, k);
      var found, err := store.Has(cf, Slot(k));
      reply := if err.Some? then Failed(err.value) else Truth(found);
    }

    method Shut(ghost m: Model, ghost owned: set<array<byte>>) returns (reply: Reply)
      requires Holds(m, owned)
      modifies store
      ensures reply == if m.store.closed then Failed(Closed) else Done
      ensures var fs := if m.store.closed then m.store.families else map[];
              Holds(m.(store := m.store.(closed := true, families := fs)), owned)
    {
      var err := store.Close();
      reply := if err.Some? then Failed(err.value) else Done;
    }

    method Reset(ghost m: Model, ghost owned: set<array<byte>>)
      requires Holds(m, owned)
      modifies store
      ensures Holds(m.(store := m.store.(families := Spec.ResetOn(m.store.families))), owned)
    {
      store.Reset();
    }

    // Batch calls

    method AddBatch(ghost m: Model, ghost owned: set<array<byte>>)
      returns (reply: Reply, ghost more: set<array<byte>>)
      requires Holds(m, owned)
      modifies this`batches
      ensures reply == Handle(|m.store.batches|)
      ensures Holds(m.(store := m.store.(batches := m.store.batches + [Spec.Batch([], false)])), more)
      ensures fresh(more - owned) && forall b :: b in batches ==> b in old(batches) || fresh(b)
    {
      var batch := new Batch(store);
      reply, more := Handle(|batches|), owned + batch.Private;
      MoreOwned(store, m, slots, batches, iters, owned, more);
      batches := batches + [batch];
    }

    ghost function BatchAt(b: nat): set<Batch>
      reads this
    {
      if b < |batches| then {batches[b]} else {}
    }

    method Stage(ghost m: Model, ghost owned: set<array<byte>>, b: nat, cf: bytes, k: nat, v: nat)
      returns (reply: Reply, ghost more: set<array<byte>>)
      requires Holds(m, owned) && b < |batches|
      modifies BatchAt(b)
      ensures var op := Spec.Write(cf, Value(m.memory, k), Value(m.memory, v));
              var r := Spec.StageOn(cf in m.store.families, m.store.batches[b], Key(m.memory, k), op);
              reply == r.1 && Holds(WithBatch(m, b, r.0), more)
      ensures fresh(more - owned)
    {
      SlotsShow(m, owned, k);
      SlotsShow(m, owned, v);
      var err := batches[b].Put(cf, Slot(k), Slot(v));
      reply, more := if err.Some? then Failed(err.value) else Done, owned + batches[b].Private;
    }

    method StageDelete(ghost m: Model, ghost owned: set<array<byte>>, b: nat, cf: bytes, k: nat) returns (reply: Reply)
      requires Holds(m, owned) && b < |batches|
      modifies BatchAt(b)
      ensures var op := Spec.Erase(cf, Value(m.memory, k));
              var r := Spec.StageOn(cf in m.store.families, m.store.batches[b], Key(m.memory, k), op);
              reply == r.1 && Holds(WithBatch(m, b, r.0), owned)
    {
      SlotsShow(m, owned, k);
      var err := batches[b].Delete(cf, Slot(k));
      reply := if err.Some? then Failed(err.value) else Done;
    }

    method Count(ghost m: Model, ghost owned: set<array<byte>>, b: nat) returns (reply: Reply)
      requires Holds(m, owned) && b < |batches|
      ensures reply == StoreApi.Count(|m.store.batches[b].ops|)
    {
      var n := batches[b].Size();
      reply := StoreApi.Count(n);
    }

    method CommitAt(ghost m: Model, ghost owned: set<array<byte>>, b: nat) returns (reply: Reply)
      requires Holds(m, owned) && b < |batches|
      modifies store
      ensures var r := Spec.CommitOn(m.store.families, m.store.closed, m.store.batches[b]);
              reply == r.1 && Holds(m.(store := m.store.(families := r.0)), owned)
    {
      var err := batches[b].Commit();
      reply := if err.Some? then Failed(err.value) else Done;
    }

    method Drop(ghost m: Model, ghost owned: set<array<byte>>, b: nat)
      requires Holds(m, owned) && b < |batches|
      modifies BatchAt(b)
      ensures Holds(WithBatch(m, b, Spec.Batch([], true)), owned)
    {
      batches[b].Close();
    }

    // Iterator calls

    method Hold(ghost m: Model, ghost owned: set<array<byte>>, it: Iterator) returns (ghost more: set<array<byte>>)
      requires Holds(m, owned) && it.Valid() && it !in iters
      requires forall i :: 0 <= i < |slots| ==> slots[i] !in it.Private
      modifies this`iters
      ensures iters == old(iters) + [it] && more == owned + it.Private
      ensures Holds(m.(store := m.store.(iters := m.store.iters + [it.Value()])), more)
    {
      more := owned + it.Private;
      MoreOwned(store, m, slots, batches, iters, owned, more);
      iters := iters + [it];
    }

    /** The store's answer, before the client keeps the iterator. */
    method Ask(ghost m: Model, ghost owned: set<array<byte>>, cf: bytes) returns (it: Iterator?, reply: Reply)
      requires Holds(m, owned)
      ensures it == null ==> Spec.OpenOn(m.store, cf) == (m.store, reply)
      ensures it != null ==> fresh(it) && it.Valid() && fresh(it.Private)
      ensures it != null ==> Spec.OpenOn(m.store, cf) == (m.store.(iters := m.store.iters + [it.Value()]), reply)
    {
      var err;
      it, err := store.NewIterator(cf);
      reply := if it == null then Failed(err.value) else Handle(|iters|);
    }

    method AddIterator(ghost m: Model, ghost owned: set<array<byte>>, cf: bytes)
      returns (reply: Reply, ghost more: set<array<byte>>)
      requires Holds(m, owned)
      modifies this`iters
      ensures reply == Spec.OpenOn(m.store, cf).1 && Holds(m.(store := Spec.OpenOn(m.store, cf).0), more)
      ensures fresh(more - owned) && forall it :: it in iters ==> it in old(iters) || fresh(it)
    {
      var it;
      it, reply := Ask(m, owned, cf);
      more := owned;
      if it != null { more := Hold(m, owned, it); }
    }

    ghost function IterAt(i: nat): set<Iterator>
      reads this
    {
      if i < |iters| then {iters[i]} else {}
    }

    method Seek(ghost m: Model, ghost owned: set<array<byte>>, i: nat, k: nat)
      requires Holds(m, owned) && i < |iters|
      modifies IterAt(i)`pos
      ensures var it := Spec.Moved(m.store.iters[i], Move.Seek(Value(m.memory, k)));
              Holds(WithIter(m, i, it), owned)
    {
      SlotsShow(m, owned, k);
      iters[i].Seek(Slot(k));
    }

    method Walk(ghost m: Model, ghost owned: set<array<byte>>, i: nat, step: Walk)
      requires Holds(m, owned) && i < |iters|
      modifies IterAt(i)`pos
      ensures var it := Spec.Moved(m.store.iters[i], MoveOf(step));
              Holds(WithIter(m, i, it), owned)
    {
      match step {
        case ToFirst => iters[i].SeekToFirst();
        case ToLast => iters[i].SeekToLast();
        case Onward => iters[i].Next();
        case Back => iters[i].Prev();
      }
    }

    method KeyTo(ghost m: Model, ghost owned: set<array<byte>>, i: nat, out: nat) returns (reply: Reply)
      requires Holds(m, owned) && i < |iters|
      modifies this`slots
      ensures reply == Spec.KeyAt(m.store.iters[i])
      ensures Holds(m.(memory := Received(m.memory, out, reply)), owned)
      ensures forall a :: a in slots ==> a == null || a in old(slots) || fresh(a)
    {
      var got := iters[i].Key();
      reply := if got == null then Nil else Found(got[..]);
      Keep(m, owned, out, got);
    }

    method ValueTo(ghost m: Model, ghost owned: set<array<byte>>, i: nat, out: nat) returns (reply: Reply)
      requires Holds(m, owned) && i < |iters|
      modifies this`slots
      ensures reply == Spec.ValueAt(m.store.iters[i])
      ensures Holds(m.(memory := Received(m.memory, out, reply)), owned)
      ensures forall a :: a in slots ==> a == null || a in old(slots) || fresh(a)
    {
      var got := iters[i].ValueCopy();
      reply := if got == null then Nil else Found(got[..]);
      Keep(m, owned, out, got);
    }

    // What the client does with its own slices

    ghost function SlotAt(k: nat): set<array<byte>>
      reads this
    {
      if k < |slots| && slots[k] != null then {slots[k]} else {}
    }

    /** Overwriting a byte of a slice changes that slice, and nothing that the store or an open object holds. */
    method Overwrite(ghost m: Model, ghost owned: set<array<byte>>, slot: nat, i: nat, b: byte)
      requires Holds(m, owned)
      modifies SlotAt(slot)
      ensures Holds(m.(memory := Scribbled(m.memory, slot, i, b)), owned)
      ensures slot < |slots| && slots[slot] != null && i < slots[slot].Length ==>
                slots[slot][..] == old(slots[slot][..])[i := b]
    {
      var a := Slot(slot);
      if a != null && i < a.Length { a[i] := b; }
    }

    method Replace(ghost m: Model, ghost owned: set<array<byte>>, slot: nat, content: Option<bytes>)
      requires Holds(m, owned)
      modifies this`slots
      ensures Holds(m.(memory := Refilled(m.memory, slot, content)), owned)
      ensures |slots| == old(|slots|) && (slot < |slots| ==> KeyBytes(slots[slot]) == content)
      ensures forall a :: a in slots ==> a == null || a in old(slots) || fresh(a)
    {
      if slot < |slots| {
        var a: array?<byte> := null;
        if content.Some? { a := FromBytes(content.value); }
        slots := slots[slot := a];
      }
    }

    // Any call

    /** The client holds what it held in the old state, and what was allocated since. */
    twostate predicate HoldsNothingElse()
      reads this
    {
      && (forall i :: 0 <= i < |batches| ==> batches[i] in old(batches) || fresh(batches[i]))
      && (forall i :: 0 <= i < |iters| ==> iters[i] in old(iters) || fresh(iters[i]))
      && (forall i :: 0 <= i < |slots| && slots[i] != null ==> slots[i] in old(slots) || fresh(slots[i]))
    }

    method CallStore(ghost m: Model, ghost owned: set<array<byte>>, a: Action)
      returns (reply: Reply, ghost more: set<array<byte>>)
      requires Holds(m, owned) && OnStore(a)
      modifies store
      ensures reply == Step(m, a).1 && Holds(Step(m, a).0, more) && fresh(more - owned)
    {
      more := owned;
      match a {
        case PutFrom(cf, k, v) => reply, more := Put(m, owned, cf, k, v);
        case DeleteAt(cf, k) => reply := Delete(m, owned, cf, k);
        case HasAt(cf, k) => reply := Has(m, owned, cf, k);
        case FlushStore => reply := if store.closed then Failed(Closed) else Done;
        case Shut => reply := Shut(m, owned);
        case ResetStore => Reset(m, owned); reply := Done;
      }
    }

    method CallStaging(ghost m: Model, ghost owned: set<array<byte>>, a: Action)
      returns (reply: Reply, ghost more: set<array<byte>>)
      requires Holds(m, owned) && (a.StageFrom? || a.StageErase?) && a.batch < |batches|
      modifies batches
      ensures reply == Step(m, a).1 && Holds(Step(m, a).0, more) && fresh(more - owned)
    {
      more := owned;
      StagingSteps(m, a.batch, a.cf, a.key, if a.StageFrom? then a.value else 0);
      match a {
        case StageFrom(b, cf, k, v) => reply, more := Stage(m, owned, b, cf, k, v);
        case StageErase(b, cf, k) => reply := StageDelete(m, owned, b, cf, k);
      }
    }

    method CallStaged(ghost m: Model, ghost owned: set<array<byte>>, a: Action) returns (reply: Reply)
      requires Holds(m, owned) && (a.CountStaged? || a.CommitStaged? || a.DropBatch?) && a.batch < |batches|
      modifies store, batches
      ensures reply == Step(m, a).1 && Holds(Step(m, a).0, owned)
    {
      StagedSteps(m, a.batch);
      match a {
        case CountStaged(b) => reply := Count(m, owned, b);
        case CommitStaged(b) => reply := CommitAt(m, owned, b);
        case DropBatch(b) => Drop(m, owned, b); reply := Done;
      }
    }

    method CallBatch(ghost m: Model, ghost owned: set<array<byte>>, a: Action)
      returns (reply: Reply, ghost more: set<array<byte>>)
      requires Holds(m, owned) && OnBatch(a)
      modifies store, batches
      ensures reply == Step(m, a).1 && Holds(Step(m, a).0, more) && fresh(more - owned)
    {
      if a.batch >= |batches| {
        UnknownHandles(m, a);
        reply, more := Nil, owned;
      } else if a.StageFrom? || a.StageErase? {
        reply, more := CallStaging(m, owned, a);
      } else {
        reply := CallStaged(m, owned, a);
        more := owned;
      }
    }

    method MoveIt(ghost m: Model, ghost owned: set<array<byte>>, a: Action)
      requires Holds(m, owned) && (a.SeekTo? || a.Go?) && a.iter < |iters|
      modifies iters
      ensures Step(m, a).1 == Done && Holds(Step(m, a).0, owned)
    {
      MovingSteps(m, a.iter, if a.SeekTo? then a.target else 0, if a.Go? then a.step else Back);
      match a {
        case SeekTo(i, k) => Seek(m, owned, i, k);
        case Go(i, step) => Walk(m, owned, i, step);
      }
    }

    method StandStill(ghost m: Model, ghost owned: set<array<byte>>, a: Action) returns (reply: Reply)
      requires Holds(m, owned) && (a.DropIterator? || a.Check?) && a.iter < |iters|
      ensures reply == Step(m, a).1 && Step(m, a).0 == m
    {
      StandingSteps(m, a.iter);
      if a.DropIterator? {
        iters[a.iter].Close();
        reply := Done;
      } else {
        reply := Truth(0 <= iters[a.iter].pos < |iters[a.iter].entries|);
      }
    }

    method CallIterator(ghost m: Model, ghost owned: set<array<byte>>, a: Action) returns (reply: Reply)
      requires Holds(m, owned) && OnIterator(a)
      modifies iters
      ensures reply == Step(m, a).1 && Holds(Step(m, a).0, owned)
    {
      if a.iter >= |iters| {
        UnknownHandles(m, a);
        reply := Nil;
      } else if a.SeekTo? || a.Go? {
        MoveIt(m, owned, a);
        reply := Done;
      } else {
        reply := StandStill(m, owned, a);
      }
    }

    method FetchEntry(ghost m: Model, ghost owned: set<array<byte>>, a: Action) returns (reply: Reply)
      requires Holds(m, owned) && (a.KeyInto? || a.ValueInto?)
      modifies this`slots
      ensures reply == Step(m, a).1 && Holds(Step(m, a).0, owned)
      ensures forall s :: s in slots ==> s == null || s in old(slots) || fresh(s)
    {
      if a.iter >= |iters| {
        UnknownFetches(m, a.iter, a.out);
        reply := Nil;
        Keep(m, owned, a.out, null);
        return;
      }
      FetchSteps(m, a.iter, a.out);
      if a.KeyInto? {
        reply := KeyTo(m, owned, a.iter, a.out);
      } else {
        reply := ValueTo(m, owned, a.iter, a.out);
      }
    }

    method Fetch(ghost m: Model, ghost owned: set<array<byte>>, a: Action) returns (reply: Reply)
      requires Holds(m, owned) && Fetches(a)
      modifies this`slots
      ensures reply == Step(m, a).1 && Holds(Step(m, a).0, owned)
      ensures forall s :: s in slots ==> s == null || s in old(slots) || fresh(s)
    {
      if a.GetInto? {
        reply := Get(m, owned, a.cf, a.key, a.out);
      } else {
        reply := FetchEntry(m, owned, a);
      }
    }

    method Open(ghost m: Model, ghost owned: set<array<byte>>, a: Action)
      returns (reply: Reply, ghost more: set<array<byte>>)
      requires Holds(m, owned) && (a.OpenBatch? || a.OpenIterator?)
      modifies this`batches, this`iters
      ensures reply == Step(m, a).1 && Holds(Step(m, a).0, more) && fresh(more - owned)
      ensures forall b :: b in batches ==> b in old(batches) || fresh(b)
      ensures forall it :: it in iters ==> it in old(iters) || fresh(it)
    {
      OpeningSteps(m, if a.OpenIterator? then a.cf else []);
      if a.OpenBatch? {
        reply, more := AddBatch(m, owned);
      } else {
        reply, more := AddIterator(m, owned, a.cf);
      }
    }

    /** A call on the store or on an object that is open already, which hands out no slice. */
    method CallAny(ghost m: Model, ghost owned: set<array<byte>>, a: Action)
      returns (reply: Reply, ghost more: set<array<byte>>)
      requires Holds(m, owned) && (OnStore(a) || OnBatch(a) || OnIterator(a))
      modifies store, batches, iters
      ensures reply == Step(m, a).1 && Holds(Step(m, a).0, more) && fresh(more - owned)
    {
      if OnStore(a) {
        reply, more := CallStore(m, owned, a);
      } else if OnBatch(a) {
        reply, more := CallBatch(m, owned, a);
      } else {
        reply := CallIterator(m, owned, a);
        more := owned;
      }
    }

    method OwnMemory(ghost m: Model, ghost owned: set<array<byte>>, a: Action)
      requires Holds(m, owned) && (a.Scribble? || a.Refill?)
      modifies this`slots, SlotAt(a.slot)
      ensures Step(m, a).1 == Done && Holds(Step(m, a).0, owned)
      ensures forall s :: s in slots ==> s == null || s in old(slots) || fresh(s)
    {
      match a {
        case Scribble(slot, i, b) => Overwrite(m, owned, slot, i, b);
        case Refill(slot, content) => Replace(m, owned, slot, content);
      }
    }

    /** What makes the client hold something else than before. */
    method TakeUp(ghost m: Model, ghost owned: set<array<byte>>, a: Action)
      returns (reply: Reply, ghost more: set<array<byte>>)
      requires Holds(m, owned) && !OnStore(a) && !OnBatch(a) && !OnIterator(a)
      modifies this, slots
      ensures reply == Step(m, a).1 && Holds(Step(m, a).0, more)
      ensures fresh(more - owned) && HoldsNothingElse()
    {
      more := owned;
      if Fetches(a) {
        reply := Fetch(m, owned, a);
      } else if a.OpenBatch? || a.OpenIterator? {
        reply, more := Open(m, owned, a);
      } else {
        OwnMemory(m, owned, a);
        reply := Done;
      }
    }

    method Perform(ghost m: Model, ghost owned: set<array<byte>>, a: Action)
      returns (reply: Reply, ghost more: set<array<byte>>)
      requires Holds(m, owned)
      modifies this, store, batches, iters, slots
      ensures reply == Step(m, a).1 && Holds(Step(m, a).0, more)
      ensures fresh(more - owned) && HoldsNothingElse()
    {
      if OnStore(a) || OnBatch(a) || OnIterator(a) {
        reply, more := CallAny(m, owned, a);
      } else {
        reply, more := TakeUp(m, owned, a);
      }
    }

    /** Any run of the client gets the replies, and ends in the values, of the run by value. */
    method PerformAll(ghost m: Model, ghost owned: set<array<byte>>, actions: seq<Action>)
      returns (replies: seq<Reply>, ghost more: set<array<byte>>)
      requires Holds(m, owned)
      modifies this, store, batches, iters, slots
      ensures replies == Steps(m, actions).1 && Holds(Steps(m, actions).0, more)
      ensures fresh(more - owned) && HoldsNothingElse()
    {
      ghost var now := m;
      replies, more := [], owned;
      for i := 0 to |actions|
        invariant Holds(now, more) && fresh(more - owned) && HoldsNothingElse()
        invariant Steps(now, actions[i..]).0 == Steps(m, actions).0
        invariant replies + Steps(now, actions[i..]).1 == Steps(m, actions).1
      {
        StepsFirst(now, actions, i, replies);
        var reply;
        reply, more := Perform(now, more, actions[i]);
        now, replies := Step(now, actions[i]).0, replies + [reply];
      }
    }
  }
}
