/**
 The in-memory store of db/mock.go with its byte slices on the heap. Every array the store, a batch or an
 iterator keeps is in its `Private` set. Methods add only fresh arrays to these sets and hand out only fresh
 arrays outside them, so no array is ever both kept here and held by a caller.
 */
module MockStore {
  import opened Wrappers
  import opened Bytes
  import opened Snapshot
  import opened StoreApi
  import opened Slices
  import Spec = MockSpec

  /** The bucket holds exactly the values of `m`, in arrays of its own. */
  ghost predicate Matches(b: map<bytes, array<byte>>, m: map<bytes, bytes>, owned: set<array<byte>>)
    reads owned
  {
    && b.Keys == m.Keys
    && forall k :: k in b ==> b[k] in owned && b[k][..] == m[k]
  }

  lemma AssigningMatches(
      b: map<bytes, array<byte>>, m: map<bytes, bytes>, owned: set<array<byte>>, key: bytes, v: array<byte>)
    requires Matches(b, m, owned)
    ensures Matches(b[key := v], m[key := v[..]], owned + {v})
  {
  }

  lemma MatchesWithMore(b: map<bytes, array<byte>>, m: map<bytes, bytes>, owned: set<array<byte>>, v: array<byte>)
    requires Matches(b, m, owned)
    ensures Matches(b, m, owned + {v})
  {
  }

  class Store {
    var data: map<bytes, map<bytes, array<byte>>>
    var closed: bool
    ghost var Families: Spec.Families
    ghost var Private: set<array<byte>>

    ghost predicate Valid()
      reads this, Private
    {
      && data.Keys == Families.Keys
      && (forall cf :: cf in data ==> Matches(data[cf], Families[cf], Private))
      && (closed ==> data == map[])
    }

    constructor (cfs: seq<bytes>)
      ensures Valid() && !closed && fresh(Private)
      ensures Families == Spec.Fresh({DEFAULT_FAMILY} + set cf | cf in cfs).families
    {
      var d: map<bytes, map<bytes, array<byte>>> := map[DEFAULT_FAMILY := map[]];
      for i := 0 to |cfs|
        invariant d.Keys == {DEFAULT_FAMILY} + set cf | cf in cfs[..i]
        invariant forall cf :: cf in d ==> d[cf] == map[]
      {
        if cfs[i] != DEFAULT_FAMILY {
          d := d[cfs[i] := map[]];
        }
        assert cfs[..i + 1] == cfs[..i] + [cfs[i]];
      }
      assert cfs[..|cfs|] == cfs;
      data, closed, Private := d, false, {};
      Families := map cf | cf in d :: map[];
    }

    /** The map assignment `bucket[key] = v`, which keeps the array `v` itself. */
    method Assign(cf: bytes, key: bytes, v: array<byte>)
      requires Valid() && cf in data
      modifies this
      ensures Valid() && closed == old(closed)
      ensures Private == old(Private) + {v}
      ensures Families == Spec.ApplyOp(old(Families), Spec.Write(cf, key, v[..]))
    {
      AssigningMatches(data[cf], Families[cf], Private, key, v);
      forall name | name in data ensures Matches(data[name], Families[name], Private + {v}) {
        MatchesWithMore(data[name], Families[name], Private, v);
      }
      data := data[cf := data[cf][key := v]];
      Private := Private + {v};
      Families := Families[cf := Families[cf][key := v[..]]];
    }

    /** The built-in `delete(bucket, key)`. */
    method Drop(cf: bytes, key: bytes)
      requires Valid() && cf in data
      modifies this`data, this`Families
      ensures Valid()
      ensures Families == Spec.ApplyOp(old(Families), Spec.Erase(cf, key))
    {
      data := data[cf := data[cf] - {key}];
      Families := Families[cf := Families[cf] - {key}];
    }

    method Apply(op: HeapOp, ghost value: Spec.Staged, ghost kept: set<array<byte>>)
      requires Valid() && Stands(op, value, kept) && value.cf in Families
      modifies this
      ensures Valid() && closed == old(closed)
      ensures Private <= old(Private) + kept
      ensures Families == Spec.ApplyOp(old(Families), value)
    {
      if op.del {
        Drop(op.cf, op.key);
      } else {
        Assign(op.cf, op.key, op.value);
      }
    }

    /** The loop of Commit. */
    method ReplayAll(ops: seq<HeapOp>, ghost staged: seq<Spec.Staged>, ghost kept: set<array<byte>>)
      requires Valid() && |ops| == |staged| && Spec.AllKnown(Families, staged)
      requires forall i :: 0 <= i < |ops| ==> Stands(ops[i], staged[i], kept)
      modifies this
      ensures Valid() && closed == old(closed)
      ensures Private <= old(Private) + kept
      ensures Families == Spec.Replay(old(Families), staged)
    {
      ghost var goal := Spec.Replay(Families, staged);
      for i := 0 to |ops|
        invariant Valid() && closed == old(closed) && Private <= old(Private) + kept
        invariant Spec.AllKnown(Families, staged[i..]) && Spec.Replay(Families, staged[i..]) == goal
      {
        Spec.ReplayFirst(Families, staged, i);
        Apply(ops[i], staged[i], kept);
      }
    }

    method Get(cf: bytes, key: array?<byte>) returns (out: array?<byte>, err: Option<Error>)
      requires Valid()
      ensures out == null <==> err.Some?
      ensures out != null ==> fresh(out)
      ensures Spec.GetOn(Families, closed, cf, KeyBytes(key)) ==
              if err.Some? then Failed(err.value) else Found(out[..])
    {
      if closed { return null, Some(Closed); }
      if key == null { return null, Some(NilKey); }
      if cf !in data { return null, Some(FamilyNotFound); }
      if key[..] !in data[cf] { return null, Some(KeyNotFound); }
      out := Copied(data[cf][key[..]]);
      err := None;
    }

    method Has(cf: bytes, key: array?<byte>) returns (found: bool, err: Option<Error>)
      requires Valid()
      ensures Spec.HasOn(Families, closed, cf, KeyBytes(key)) ==
              if err.Some? then Failed(err.value) else Truth(found)
    {
      if closed { return false, Some(Closed); }
      if key == null { return false, Some(NilKey); }
      if cf !in data { return false, Some(FamilyNotFound); }
      return key[..] in data[cf], None;
    }

    method Put(cf: bytes, key: array?<byte>, value: array?<byte>) returns (err: Option<Error>)
      requires Valid()
      modifies this
      ensures Valid() && closed == old(closed) && Families.Keys == old(Families.Keys)
      ensures fresh(Private - old(Private))
      ensures (Families, if err.Some? then Failed(err.value) else Done) ==
              old(Spec.PutOn(Families, closed, cf, KeyBytes(key), Contents(value)))
    {
      if closed { return Some(Closed); }
      if key == null { return Some(NilKey); }
      if cf !in data { return Some(FamilyNotFound); }
      var v := Copied(value);
      Assign(cf, key[..], v);
      err := None;
    }

    method Delete(cf: bytes, key: array?<byte>) returns (err: Option<Error>)
      requires Valid()
      modifies this
      ensures Valid() && closed == old(closed) && Families.Keys == old(Families.Keys)
      ensures Private == old(Private)
      ensures (Families, if err.Some? then Failed(err.value) else Done) ==
              old(Spec.DeleteOn(Families, closed, cf, KeyBytes(key)))
    {
      if closed { return Some(Closed); }
      if key == null { return Some(NilKey); }
      if cf !in data { return Some(FamilyNotFound); }
      Drop(cf, key[..]);
      err := None;
    }

    method Close() returns (err: Option<Error>)
      requires Valid()
      modifies this
      ensures Valid() && closed && Private == old(Private)
      ensures err == if old(closed) then Some(Closed) else None
    {
      if closed { return Some(Closed); }
      closed := true;
      data, Families := map[], map[];
      err := None;
    }

    /** The loop of Reset. */
    method EmptyAll()
      modifies this`data
      ensures data.Keys == old(data.Keys) && forall cf :: cf in data ==> data[cf] == map[]
    {
      var todo := data.Keys;
      while todo != {}
        invariant data.Keys == old(data.Keys)
        invariant todo <= data.Keys
        invariant forall cf :: cf in data && cf !in todo ==> data[cf] == map[]
        decreases todo
      {
        var cf :| cf in todo;
        data := data[cf := map[]];
        todo := todo - {cf};
      }
    }

    /** Empties every family; the families themselves stay. */
    method Reset()
      requires Valid()
      modifies this`data, this`Families
      ensures Valid()
      ensures Families == Spec.ResetOn(old(Families))
      ensures Families.Keys == old(Families.Keys) && forall cf :: cf in Families ==> Families[cf] == map[]
      ensures data.Keys == old(data.Keys) && forall cf :: cf in data ==> data[cf] == map[]
    {
      EmptyAll();
      ghost var none: Spec.Families := Spec.ResetOn(Families);
      assert data.Keys == none.Keys && forall cf :: cf in data ==> Matches(data[cf], none[cf], Private);
      Families := none;
    }

    method NewIterator(cf: bytes) returns (it: Iterator?, err: Option<Error>)
      requires Valid()
      ensures err == if closed then Some(Closed) else if cf !in data then Some(FamilyNotFound) else None
      ensures it == null <==> err.Some?
      ensures it != null ==> fresh(it) && it.Valid() && fresh(it.Private) && it.pos == -1
      ensures it != null ==> it.Shown == EntriesOf(Families[cf])
    {
      if closed { return null, Some(Closed); }
      if cf !in data { return null, Some(FamilyNotFound); }
      var keys := SortedKeys(data[cf].Keys);
      SortedKeysListTheBucket(data[cf], Families[cf], Private);
      var entries, kept := CopyEntries(data[cf], keys, EntriesOf(Families[cf]));
      it := new Iterator(entries, EntriesOf(Families[cf]), kept);
      err := None;
    }
  }

  datatype HeapEntry = HeapEntry(key: array<byte>, value: array<byte>)

  ghost predicate Shows(entries: seq<HeapEntry>, es: seq<Entry>, owned: set<array<byte>>)
    reads owned
  {
    && |entries| == |es|
    && forall i :: 0 <= i < |entries| ==>
      && entries[i].key in owned && entries[i].value in owned
      && entries[i].key[..] == es[i].key && entries[i].value[..] == es[i].value
  }

  /** A bucket listed key by key. */
  ghost predicate Lists(bucket: map<bytes, array<byte>>, keys: seq<bytes>, es: seq<Entry>)
    reads bucket.Values
  {
    && |keys| == |es|
    && forall i :: 0 <= i < |keys| ==> keys[i] in bucket && es[i] == Entry(keys[i], bucket[keys[i]][..])
  }

  lemma SortedKeysListTheBucket(bucket: map<bytes, array<byte>>, m: map<bytes, bytes>, owned: set<array<byte>>)
    requires Matches(bucket, m, owned)
    ensures Lists(bucket, Sorted(m.Keys), EntriesOf(m))
  {
    var keys, es := Sorted(m.Keys), EntriesOf(m);
    assert |es| == |Keys(es)| == |keys|;
    forall i | 0 <= i < |keys|
      ensures keys[i] in bucket && es[i] == Entry(keys[i], bucket[keys[i]][..])
    {
      assert Keys(es)[i] == es[i].key && es[i] in es;
    }
  }

  /** Copies the keys and values of a bucket in the order of `keys`. */
  method CopyEntries(bucket: map<bytes, array<byte>>, keys: seq<bytes>, ghost es: seq<Entry>)
    returns (entries: seq<HeapEntry>, ghost kept: set<array<byte>>)
    requires Lists(bucket, keys, es)
    ensures fresh(kept) && Shows(entries, es, kept)
  {
    entries, kept := [], {};
    for i := 0 to |keys|
      invariant |entries| == i && fresh(kept)
      invariant forall j :: 0 <= j < i ==> entries[j].key in kept && entries[j].value in kept
      invariant forall j :: 0 <= j < i ==> entries[j].key[..] == es[j].key
      invariant forall j :: 0 <= j < i ==> entries[j].value[..] == es[j].value
    {
      var e := CopyEntry(keys[i], bucket[keys[i]]);
      entries := entries + [e];
      kept := kept + {e.key, e.value};
    }
  }

  method CopyEntry(key: bytes, value: array<byte>) returns (e: HeapEntry)
    ensures fresh(e.key) && fresh(e.value) && e.key[..] == key && e.value[..] == value[..]
  {
    var v := Copied(value);
    var k := FromBytes(key);
    e := HeapEntry(k, v);
  }

  // Batch

  datatype HeapOp = HeapOp(del: bool, cf: bytes, key: bytes, value: array?<byte>)

  /** The staged operation `op` has the value `st`, with the array of a write among `owned`. */
  ghost predicate Stands(op: HeapOp, st: Spec.Staged, owned: set<array<byte>>)
    reads owned
  {
    && op.cf == st.cf && op.key == st.key && op.del == st.Erase?
    && (!op.del ==> op.value != null && op.value in owned && op.value[..] == st.value)
  }

  class Batch {
    const store: Store
    var ops: seq<HeapOp>
    var closed: bool
    ghost var Staged: seq<Spec.Staged>
    ghost var Private: set<array<byte>>

    ghost predicate Valid()
      reads this, Private
    {
      |ops| == |Staged| && forall i :: 0 <= i < |ops| ==> Stands(ops[i], Staged[i], Private)
    }

    /** While the store is open every staged operation names an existing family. */
    ghost predicate Known()
      reads this, store
    {
      !store.closed ==> Spec.AllKnown(store.Families, Staged)
    }

    ghost function View(): Spec.Batch
      reads this
    {
      Spec.Batch(Staged, closed)
    }

    constructor (store: Store)
      ensures Valid() && Known() && this.store == store && fresh(Private)
      ensures View() == Spec.Batch([], false)
    {
      this.store := store;
      ops, closed, Staged, Private := [], false, [], {};
    }

    method Put(cf: bytes, key: array?<byte>, value: array?<byte>) returns (err: Option<Error>)
      requires Valid() && store.Valid()
      modifies this
      ensures Valid() && (old(Known()) ==> Known())
      ensures fresh(Private - old(Private))
      ensures (View(), if err.Some? then Failed(err.value) else Done) ==
              old(Spec.StageOn(cf in store.Families, View(), KeyBytes(key),
                               Spec.Write(cf, Contents(key), Contents(value))))
    {
      if closed { return Some(BatchClosed); }
      if key == null { return Some(NilKey); }
      if cf !in store.data { return Some(FamilyNotFound); }
      var v := Copied(value);
      ops := ops + [HeapOp(false, cf, key[..], v)];
      Staged := Staged + [Spec.Write(cf, key[..], v[..])];
      Private := Private + {v};
      err := None;
    }

    method Delete(cf: bytes, key: array?<byte>) returns (err: Option<Error>)
      requires Valid() && store.Valid()
      modifies this
      ensures Valid() && (old(Known()) ==> Known()) && Private == old(Private)
      ensures (View(), if err.Some? then Failed(err.value) else Done) ==
              old(Spec.StageOn(cf in store.Families, View(), KeyBytes(key), Spec.Erase(cf, Contents(key))))
    {
      if closed { return Some(BatchClosed); }
      if key == null { return Some(NilKey); }
      if cf !in store.data { return Some(FamilyNotFound); }
      ops := ops + [HeapOp(true, cf, key[..], null)];
      Staged := Staged + [Spec.Erase(cf, key[..])];
      err := None;
    }

    method Size() returns (n: nat)
      requires Valid()
      ensures n == |View().ops|
    {
      n := |ops|;
    }

    /**
     Replays the staged operations. The store takes over the staged arrays themselves, without a copy: they
     are private to the batch and nobody writes to them, so the store's contents are still out of reach.
     */
    method Commit() returns (err: Option<Error>)
      requires Valid() && Known() && store.Valid()
      modifies store
      ensures Valid() && Known() && store.Valid()
      ensures store.closed == old(store.closed) && store.Families.Keys == old(store.Families.Keys)
      ensures store.Private <= old(store.Private) + Private
      ensures (store.Families, if err.Some? then Failed(err.value) else Done) ==
              old(Spec.CommitOn(store.Families, store.closed, View()))
    {
      if closed { return Some(BatchClosed); }
      if store.closed { return Some(Closed); }
      store.ReplayAll(ops, Staged, Private);
      err := None;
    }

    method Close()
      requires Valid()
      modifies this
      ensures Valid() && Known() && Private == old(Private)
      ensures View() == Spec.Batch([], true)
    {
      closed := true;
      ops, Staged := [], [];
    }
  }

  // Iterator

  class Iterator {
    var entries: seq<HeapEntry>
    var pos: int
    ghost const Shown: seq<Entry>
    ghost const Private: set<array<byte>>

    ghost predicate Valid()
      reads this, Private
    {
      Shows(entries, Shown, Private) && Ascending(Keys(Shown))
    }

    ghost function Value(): Spec.Iter
      reads this
    {
      Spec.Iter(Shown, pos)
    }

    constructor (entries: seq<HeapEntry>, ghost es: seq<Entry>, ghost kept: set<array<byte>>)
      requires Shows(entries, es, kept) && Ascending(Keys(es))
      ensures Valid() && pos == -1 && Shown == es && Private == kept
    {
      this.entries, this.pos, Shown, Private := entries, -1, es, kept;
    }

    /** The binary search of `sort.Search` over the entries' keys. */
    method Seek(target: array?<byte>)
      requires Valid()
      modifies this`pos
      ensures Value() == old(Spec.Moved(Value(), Move.Seek(Contents(target))))
    {
      ghost var keys, t := Keys(Shown), Contents(target);
      var lo, hi := 0, |entries|;
      while lo < hi
        invariant 0 <= lo <= hi <= |entries|
        invariant forall m :: 0 <= m < lo ==> Less(keys[m], t)
        invariant forall m :: hi <= m < |entries| ==> !Less(keys[m], t)
      {
        var h := (lo + hi) / 2;
        assert keys[h] == entries[h].key[..];
        if Less(entries[h].key[..], if target == null then [] else target[..]) {
          BelowStaysBelow(keys, t, h);
          lo := h + 1;
        } else {
          NotBelowStaysNotBelow(keys, t, h);
          hi := h;
        }
      }
      SeekIndexIsTheSplit(keys, t, lo);
      pos := lo;
    }

    method SeekToFirst()
      requires Valid()
      modifies this`pos
      ensures Value() == old(Spec.Moved(Value(), Move.SeekToFirst))
    {
      pos := 0;
    }

    method SeekToLast()
      requires Valid()
      modifies this`pos
      ensures Value() == old(Spec.Moved(Value(), Move.SeekToLast))
    {
      pos := |entries| - 1;
    }

    method Next()
      requires Valid()
      modifies this`pos
      ensures Value() == old(Spec.Moved(Value(), Move.Next))
    {
      pos := pos + 1;
    }

    method Prev()
      requires Valid()
      modifies this`pos
      ensures Value() == old(Spec.Moved(Value(), Move.Prev))
    {
      pos := pos - 1;
    }

    method Key() returns (out: array?<byte>)
      requires Valid()
      ensures out != null ==> fresh(out)
      ensures Spec.KeyAt(Value()) == if out == null then Nil else Found(out[..])
    {
      if !(0 <= pos < |entries|) { return null; }
      out := Copied(entries[pos].key);
    }

    method ValueCopy() returns (out: array?<byte>)
      requires Valid()
      ensures out != null ==> fresh(out)
      ensures Spec.ValueAt(Value()) == if out == null then Nil else Found(out[..])
    {
      if !(0 <= pos < |entries|) { return null; }
      out := Copied(entries[pos].value);
    }

    method Close()
      requires Valid()
      ensures Valid() && Value() == old(Value())
    {
    }
  }
}
