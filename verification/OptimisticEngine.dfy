/**
 The part of RocksDB that optimistic transactions rely on, as a small contract: one global
 sequence number, the last-modified sequence of each key, and a commit that checks every
 tracked key and then installs all staged writes or none.
 */
module OptimisticEngine {
  import opened Wrappers
  import opened ByteStrings

  datatype Key = Key(cf: string, name: Bytes)

  /** Staged or installed writes; `None` is a delete. */
  type Batch<V> = map<Key, Option<V>>

  datatype Store<V> = Store(data: map<Key, V>, lastMod: map<Key, nat>, seqNo: nat)

  function Lookup<V>(data: map<Key, V>, k: Key): Option<V> {
    if k in data then Some(data[k]) else None
  }

  function LastMod<V>(s: Store<V>, k: Key): nat {
    if k in s.lastMod then s.lastMod[k] else 0
  }

  function Install<V>(data: map<Key, V>, writes: Batch<V>): (r: map<Key, V>)
    ensures forall k :: Lookup(r, k) == if k in writes then writes[k] else Lookup(data, k)
  {
    map k | k in data.Keys + writes.Keys && (k in writes ==> writes[k].Some?)
      :: if k in writes then writes[k].value else data[k]
  }

  /** One atomic write: every key of the batch gets the next sequence number. */
  function Apply<V>(s: Store<V>, writes: Batch<V>): (r: Store<V>)
    ensures forall k :: LastMod(r, k) == if k in writes then s.seqNo + 1 else LastMod(s, k)
  {
    Store(Install(s.data, writes), s.lastMod + map k | k in writes :: s.seqNo + 1, s.seqNo + 1)
  }

  // --- Transactions ---

  datatype Txn<V> = Txn(snapshot: Option<nat>, staged: Batch<V>, tracked: map<Key, nat>)

  function Begin<V>(s: Store<V>, withSnapshot: bool): Txn<V> {
    Txn(if withSnapshot then Some(s.seqNo) else None, map[], map[])
  }

  /** A read inside a transaction: own staged write first, else the *current* committed value. */
  function View<V>(data: map<Key, V>, staged: Batch<V>, k: Key): Option<V> {
    if k in staged then staged[k] else Lookup(data, k)
  }

  /** Staging tracks the key from the snapshot, or from now when there is none; the first staging counts. */
  function Stage<V>(s: Store<V>, t: Txn<V>, k: Key, v: Option<V>): Txn<V> {
    var since := if t.snapshot.Some? then t.snapshot.value else s.seqNo;
    t.(staged := t.staged[k := v], tracked := if k in t.tracked then t.tracked else t.tracked[k := since])
  }

  predicate Conflicts<V>(s: Store<V>, t: Txn<V>) {
    exists k :: k in t.tracked && LastMod(s, k) > t.tracked[k]
  }
}
