/**
 The Pebble-backed store of db/pebble.go. `Engine` and `EngineCursor` stand for the Pebble library: an ordered
 map of byte strings that copies what it is given, and a cursor over the keys between two bounds.
 The classes after them are the repository's code, proved to follow FlatSpec.
 */
module PebbleStore {
  import opened Wrappers
  import opened Bytes
  import opened Keyspace
  import opened Snapshot
  import opened StoreApi
  import opened Slices
  import Spec = FlatSpec

  // The assumed library

  class Engine {
    var data: Spec.Engine

    constructor ()
      ensures data == map[]
    {
      data := map[];
    }

    method Apply(writes: seq<Spec.EngineWrite>)
      modifies this
      ensures data == Spec.ApplyWrites(old(data), writes)
    {
      var rest := writes;
      while rest != []
        invariant Spec.ApplyWrites(data, rest) == Spec.ApplyWrites(old(data), writes)
        decreases |rest|
      {
        data := Spec.ApplyWrite(data, rest[0]);
        rest := rest[1..];
      }
    }

    method NewIter(lower: bytes, upper: bytes) returns (c: EngineCursor)
      ensures fresh(c) && c.Entries == EntriesOf(Spec.Restricted(data, lower, upper))
      ensures c.pos == -1 && !c.positioned
    {
      var range := Spec.Restricted(data, lower, upper);
      var keys := SortedKeys(range.Keys);
      assert forall i :: 0 <= i < |keys| ==> keys[i] in keys;
      var entries := seq(|keys|, i requires 0 <= i < |keys| => Entry(keys[i], range[keys[i]]));
      ghost var es := EntriesOf(range);
      assert |es| == |Keys(es)| == |keys|;
      forall i | 0 <= i < |keys|
        ensures entries[i] == es[i]
      {
        assert Keys(es)[i] == es[i].key && es[i] in es;
      }
      assert entries == es;
      c := new EngineCursor(entries);
    }
  }

  class EngineCursor {
    const Entries: seq<Entry>
    var pos: int
    var positioned: bool

    ghost predicate Valid()
      reads this
    {
      -1 <= pos <= |Entries| && Ascending(Keys(Entries))
    }

    constructor (entries: seq<Entry>)
      ensures Entries == entries && pos == -1 && !positioned
    {
      Entries, pos, positioned := entries, -1, false;
    }

    method SeekGE(key: bytes)
      requires Valid()
      modifies this
      ensures Valid() && positioned && pos == SeekIndex(Keys(Entries), key)
    {
      pos := SeekIndex(Keys(Entries), key);
      positioned := true;
    }

    method First()
      requires Valid()
      modifies this
      ensures Valid() && positioned && pos == 0
    {
      pos, positioned := 0, true;
    }

    method Last()
      requires Valid()
      modifies this
      ensures Valid() && positioned && pos == |Entries| - 1
    {
      pos, positioned := |Entries| - 1, true;
    }

    /** Stops one step past the last entry. */
    method Next()
      requires Valid()
      modifies this
      ensures Valid() && positioned == old(positioned)
      ensures pos == if positioned then Spec.Clamp(old(pos) + 1, |Entries|) else old(pos)
    {
      if positioned && pos < |Entries| { pos := pos + 1; }
    }

    /** Stops one step before the first entry. */
    method Prev()
      requires Valid()
      modifies this
      ensures Valid() && positioned == old(positioned)
      ensures pos == if positioned then Spec.Clamp(old(pos) - 1, |Entries|) else old(pos)
    {
      if positioned && pos > -1 { pos := pos - 1; }
    }

    /** The current raw key, or no bytes off the ends. */
    function Key(): bytes
      reads this
    {
      if positioned && 0 <= pos < |Entries| then Entries[pos].key else []
    }

    function Value(): bytes
      reads this
    {
      if positioned && 0 <= pos < |Entries| then Entries[pos].value else []
    }
  }

  // The repository's code

  class PebbleDB {
    const db: Engine
    const prefixes: map<bytes, bytes>
    var closed: bool

    ghost predicate Valid() {
      forall cf :: cf in prefixes ==> prefixes[cf] == Prefix(cf)
    }

    constructor Open(db: Engine, cfs: seq<bytes>)
      ensures Valid() && this.db == db && !closed
      ensures prefixes.Keys == {DEFAULT_FAMILY} + set cf | cf in cfs
    {
      var b := CfPrefix(DEFAULT_FAMILY);
      var table := map[DEFAULT_FAMILY := b[..]];
      for i := 0 to |cfs|
        invariant table.Keys == {DEFAULT_FAMILY} + set cf | cf in cfs[..i]
        invariant forall cf :: cf in table ==> table[cf] == Prefix(cf)
      {
        if cfs[i] != DEFAULT_FAMILY {
          b := CfPrefix(cfs[i]);
          table := table[cfs[i] := b[..]];
        }
        assert cfs[..i + 1] == cfs[..i] + [cfs[i]];
      }
      assert cfs[..|cfs|] == cfs;
      this.db, prefixes, closed := db, table, false;
    }

    method Get(cf: bytes, key: array?<byte>) returns (out: array?<byte>, err: Option<Error>)
      requires Valid()
      ensures out == null <==> err.Some?
      ensures out != null ==> fresh(out)
      ensures Spec.GetOn(db.data, prefixes.Keys, closed, cf, KeyBytes(key)) ==
              if err.Some? then Failed(err.value) else Found(out[..])
    {
      if closed { return null, Some(Closed); }
      if key == null { return null, Some(NilKey); }
      if cf !in prefixes { return null, Some(FamilyNotFound); }
      var pk := PrefixedKey(prefixes[cf], key);
      if pk[..] !in db.data { return null, Some(KeyNotFound); }
      out := FromBytes(db.data[pk[..]]);
      err := None;
    }

    method Has(cf: bytes, key: array?<byte>) returns (found: bool, err: Option<Error>)
      requires Valid()
      ensures Spec.HasOn(db.data, prefixes.Keys, closed, cf, KeyBytes(key)) ==
              if err.Some? then Failed(err.value) else Truth(found)
    {
      if closed { return false, Some(Closed); }
      if key == null { return false, Some(NilKey); }
      if cf !in prefixes { return false, Some(FamilyNotFound); }
      var pk := PrefixedKey(prefixes[cf], key);
      return pk[..] in db.data, None;
    }

    method Put(cf: bytes, key: array?<byte>, value: array?<byte>) returns (err: Option<Error>)
      requires Valid()
      modifies db
      ensures (db.data, if err.Some? then Failed(err.value) else Done) ==
              old(Spec.PutOn(db.data, prefixes.Keys, closed, cf, KeyBytes(key), Contents(value)))
    {
      if closed { return Some(Closed); }
      if key == null { return Some(NilKey); }
      if cf !in prefixes { return Some(FamilyNotFound); }
      var pk := PrefixedKey(prefixes[cf], key);
      db.Apply([Spec.Set(pk[..], if value == null then [] else value[..])]);
      err := None;
    }

    method Delete(cf: bytes, key: array?<byte>) returns (err: Option<Error>)
      requires Valid()
      modifies db
      ensures (db.data, if err.Some? then Failed(err.value) else Done) ==
              old(Spec.DeleteOn(db.data, prefixes.Keys, closed, cf, KeyBytes(key)))
    {
      if closed { return Some(Closed); }
      if key == null { return Some(NilKey); }
      if cf !in prefixes { return Some(FamilyNotFound); }
      var pk := PrefixedKey(prefixes[cf], key);
      db.Apply([Spec.Remove(pk[..])]);
      err := None;
    }

    method NewIterator(cf: bytes) returns (it: PebbleIterator?, err: Option<Error>)
      requires Valid()
      ensures err == if closed then Some(Closed) else if cf !in prefixes then Some(FamilyNotFound) else None
      ensures it == null <==> err.Some?
      ensures it != null ==> fresh(it) && fresh(it.iter) && it.Valid() && it.View() == Spec.OpenCursor(db.data, cf)
    {
      if closed { return null, Some(Closed); }
      if cf !in prefixes { return null, Some(FamilyNotFound); }
      var upper := CfUpperBound(cf);
      var c := db.NewIter(prefixes[cf], upper[..]);
      it := new PebbleIterator(c, prefixes[cf]);
      err := None;
    }

    method Close() returns (err: Option<Error>)
      modifies this
      ensures closed && err == if old(closed) then Some(Closed) else None
    {
      if closed { return Some(Closed); }
      closed := true;
      err := None;
    }
  }

  class PebbleBatch {
    const owner: PebbleDB
    var writes: seq<Spec.EngineWrite>
    var closed: bool
    var committed: bool

    ghost function View(): Spec.Batch
      reads this
    {
      Spec.Batch(writes, closed, committed)
    }

    constructor (owner: PebbleDB)
      ensures this.owner == owner && View() == Spec.Batch([], false, false)
    {
      this.owner, writes, closed, committed := owner, [], false, false;
    }

    method Put(cf: bytes, key: array?<byte>, value: array?<byte>) returns (err: Option<Error>)
      requires owner.Valid()
      modifies this
      ensures (View(), if err.Some? then Failed(err.value) else Done) ==
              old(Spec.StageOn(cf in owner.prefixes, View(), KeyBytes(key),
                               Spec.Set(FlatKey(cf, Contents(key)), Contents(value))))
    {
      if closed { return Some(BatchClosed); }
      if key == null { return Some(NilKey); }
      if cf !in owner.prefixes { return Some(FamilyNotFound); }
      var pk := PrefixedKey(owner.prefixes[cf], key);
      writes := writes + [Spec.Set(pk[..], if value == null then [] else value[..])];
      err := None;
    }

    method Delete(cf: bytes, key: array?<byte>) returns (err: Option<Error>)
      requires owner.Valid()
      modifies this
      ensures (View(), if err.Some? then Failed(err.value) else Done) ==
              old(Spec.StageOn(cf in owner.prefixes, View(), KeyBytes(key), Spec.Remove(FlatKey(cf, Contents(key)))))
    {
      if closed { return Some(BatchClosed); }
      if key == null { return Some(NilKey); }
      if cf !in owner.prefixes { return Some(FamilyNotFound); }
      var pk := PrefixedKey(owner.prefixes[cf], key);
      writes := writes + [Spec.Remove(pk[..])];
      err := None;
    }

    /** The engine applies the whole batch at once, and only once. */
    method Commit() returns (err: Option<Error>)
      requires !committed
      modifies this, owner.db
      ensures (owner.db.data, View(), if err.Some? then Failed(err.value) else Done) ==
              old(Spec.CommitOn(owner.db.data, owner.closed, View()))
    {
      if closed { return Some(BatchClosed); }
      if owner.closed { return Some(Closed); }
      owner.db.Apply(writes);
      committed := true;
      err := None;
    }

    method Close()
      modifies this
      ensures View() == old(View()).(closed := true)
    {
      closed := true;
    }
  }

  class PebbleIterator {
    const iter: EngineCursor
    const prefix: bytes
    var closed: bool

    ghost predicate Valid()
      reads this, iter
    {
      iter.Valid() && prefix != []
    }

    ghost function View(): Spec.Cursor
      reads this, iter
    {
      Spec.Cursor(prefix, iter.Entries, iter.pos, iter.positioned, closed)
    }

    constructor (iter: EngineCursor, prefix: bytes)
      ensures this.iter == iter && this.prefix == prefix && !closed
    {
      this.iter, this.prefix, closed := iter, prefix, false;
    }

    method Seek(target: array?<byte>)
      requires Valid()
      modifies iter
      ensures Valid() && View() == old(Spec.Moved(View(), Move.Seek(Contents(target))))
    {
      var pk := PrefixedKey(prefix, target);
      iter.SeekGE(pk[..]);
    }

    method SeekToFirst()
      requires Valid()
      modifies iter
      ensures Valid() && View() == old(Spec.Moved(View(), Move.SeekToFirst))
    {
      iter.First();
    }

    method SeekToLast()
      requires Valid()
      modifies iter
      ensures Valid() && View() == old(Spec.Moved(View(), Move.SeekToLast))
    {
      iter.Last();
    }

    method Next()
      requires Valid()
      modifies iter
      ensures Valid() && View() == old(Spec.Moved(View(), Move.Next))
    {
      iter.Next();
    }

    method Prev()
      requires Valid()
      modifies iter
      ensures Valid() && View() == old(Spec.Moved(View(), Move.Prev))
    {
      iter.Prev();
    }

    method Key() returns (out: array?<byte>)
      requires Valid()
      ensures out != null ==> fresh(out)
      ensures Spec.KeyAt(View()) == if out == null then Nil else Found(out[..])
    {
      var raw := iter.Key();
      if |raw| < |prefix| { return null; }
      out := FromBytes(raw[|prefix|..]);
    }

    method Value() returns (out: array<byte>)
      requires Valid()
      ensures fresh(out)
      ensures Spec.ValueAt(View()) == Found(out[..])
    {
      out := FromBytes(iter.Value());
    }

    method Close()
      requires Valid()
      modifies this
      ensures Valid() && View() == old(View()).(closed := true)
    {
      if !closed { closed := true; }
    }
  }
}
