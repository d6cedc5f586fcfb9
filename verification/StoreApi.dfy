/**
 The calls of the `Store`, `Batch` and `Iterator` interfaces as data, so that a whole run of a client is a
 sequence of them. A nil key is `None`; nil and empty values are stored alike, so values are byte strings.
 */
module StoreApi {
  import opened Wrappers
  import opened Bytes
  import opened Snapshot

  datatype Error = Closed | FamilyNotFound | KeyNotFound | NilKey | BatchClosed

  datatype Reply =
    | Done
    | Nil
    | Failed(error: Error)
    | Found(value: bytes)
    | Truth(holds: bool)
    | Handle(id: nat)
    | Count(n: nat)

  datatype Move = Seek(target: bytes) | SeekToFirst | SeekToLast | Next | Prev

  datatype Call =
    | Get(cf: bytes, key: Option<bytes>)
    | Put(cf: bytes, key: Option<bytes>, value: bytes)
    | Delete(cf: bytes, key: Option<bytes>)
    | Has(cf: bytes, key: Option<bytes>)
    | Flush
    | CloseStore
    | NewBatch
    | BatchPut(batch: nat, cf: bytes, key: Option<bytes>, value: bytes)
    | BatchDelete(batch: nat, cf: bytes, key: Option<bytes>)
    | BatchCount(batch: nat)
    | Commit(batch: nat)
    | CloseBatch(batch: nat)
    | NewIterator(cf: bytes)
    | MoveIterator(iter: nat, move: Move)
    | CloseIterator(iter: nat)
    | IsValid(iter: nat)
    | KeyOf(iter: nat)
    | ValueOf(iter: nat)

  datatype Entry = Entry(key: bytes, value: bytes)

  /** "default", which every store registers. */
  const DEFAULT_FAMILY: bytes := [100, 101, 102, 97, 117, 108, 116]

  /** Both stores test for use after close, then for a nil key, then for an unknown family. */
  function Refusal(closed: bool, key: Option<bytes>, known: bool): Option<Error> {
    if closed then Some(Closed)
    else if key.None? then Some(NilKey)
    else if !known then Some(FamilyNotFound)
    else None
  }

  /** Both batches test their own flag, then the key, then the family. */
  function StagingRefusal(batchClosed: bool, key: Option<bytes>, known: bool): Option<Error> {
    if batchClosed then Some(BatchClosed)
    else if key.None? then Some(NilKey)
    else if !known then Some(FamilyNotFound)
    else None
  }

  function Keys(entries: seq<Entry>): (ks: seq<bytes>)
    ensures |ks| == |entries|
    ensures forall i :: 0 <= i < |ks| ==> ks[i] == entries[i].key
  {
    seq(|entries|, i requires 0 <= i < |entries| => entries[i].key)
  }

  /** The contents of a map in ascending key order. */
  ghost function EntriesOf(m: map<bytes, bytes>): (es: seq<Entry>)
    ensures Keys(es) == Sorted(m.Keys)
    ensures forall e :: e in es ==> e.key in m && e.value == m[e.key]
  {
    var ks := Sorted(m.Keys);
    var es := seq(|ks|, i requires 0 <= i < |ks| => assert ks[i] in ks; Entry(ks[i], m[ks[i]]));
    es
  }

  /** Listing a map in key order loses nothing and adds nothing. */
  lemma EntriesAreTheMap(m: map<bytes, bytes>)
    ensures Ascending(Keys(EntriesOf(m)))
    ensures forall e :: e in EntriesOf(m) <==> e.key in m && e.value == m[e.key]
  {
    var es := EntriesOf(m);
    forall e: Entry | e.key in m && e.value == m[e.key]
      ensures e in es
    {
      assert e.key in Sorted(m.Keys);
      var j :| 0 <= j < |Keys(es)| && Keys(es)[j] == e.key;
      assert es[j] in es && es[j] == e;
    }
  }
}
