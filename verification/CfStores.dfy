/** The column-family store as its writers see it, and the batch writer (src/cf_store.rs, src/batch.rs). */
module CfStores {
  import opened Wrappers
  import opened StoreErrors
  import opened ByteStrings
  import MergeHistory

  const DEFAULT := "default"

  /** Tables by column family; what a cell holds depends on the view. */
  class CfStore<Cell> {
    var cfs: map<string, map<Bytes, Cell>>

    constructor (cfs: map<string, map<Bytes, Cell>>)
      ensures this.cfs == cfs
    {
      this.cfs := cfs;
    }

    /** The default family needs no handle, every other one must be open. */
    function HandleError(cf: string): Option<StoreError>
      reads this
    {
      if cf == DEFAULT || cf in cfs then None else Some(UnknownCf(cf))
    }

    function Table(cf: string): map<Bytes, Cell>
      reads this
    {
      if cf in cfs then cfs[cf] else map[]
    }

    method Replace(cf: string, table: map<Bytes, Cell>)
      modifies this
      ensures cfs == old(cfs)[cf := table]
    {
      cfs := cfs[cf := table];
    }
  }

  // --- Writes, as key histories ---

  type History = MergeHistory.History

  type KeyTable = map<Bytes, History>

  datatype WriteOp =
    | Set(key: Bytes, value: Bytes)
    | Remove(key: Bytes)
    | RemoveRange(start: Bytes, end: Bytes)
    | MergeInto(key: Bytes, operand: Bytes)

  const ABSENT := MergeHistory.History(None, [])

  function HistoryOf(t: KeyTable, k: Bytes): History {
    if k in t then t[k] else ABSENT
  }

  function InRange(k: Bytes, start: Bytes, end: Bytes): bool {
    AtMost(start, k) && Less(k, end)
  }

  function ApplyOp(t: KeyTable, op: WriteOp): KeyTable {
    match op
    case Set(k, v) => t[k := MergeHistory.History(Some(v), [])]
    case Remove(k) => t - {k}
    case RemoveRange(start, end) => map k | k in t && !InRange(k, start, end) :: t[k]
    case MergeInto(k, operand) => t[k := MergeHistory.History(HistoryOf(t, k).base,
                                                              HistoryOf(t, k).operands + [operand])]
  }

  function ApplyOps(t: KeyTable, ops: seq<WriteOp>): KeyTable
    decreases |ops|
  {
    if ops == [] then t else ApplyOp(ApplyOps(t, ops[..|ops| - 1]), ops[|ops| - 1])
  }

  /** What an operation does to one key. */
  function EventOn(op: WriteOp, k: Bytes): seq<MergeHistory.KeyEvent> {
    match op
    case Set(key, v) => if key == k then [MergeHistory.Put(v)] else []
    case Remove(key) => if key == k then [MergeHistory.Delete] else []
    case RemoveRange(start, end) => if InRange(k, start, end) then [MergeHistory.Delete] else []
    case MergeInto(key, operand) => if key == k then [MergeHistory.Merge(operand)] else []
  }

  function EventsOn(ops: seq<WriteOp>, k: Bytes): seq<MergeHistory.KeyEvent>
    decreases |ops|
  {
    if ops == [] then [] else EventsOn(ops[..|ops| - 1], k) + EventOn(ops[|ops| - 1], k)
  }

  /**
   What each operation does, key by key: a put and a delete replace all there was, a range delete
   takes its start key and leaves its end key, a merge adds its operand as the newest; no other key changes.
   */
  lemma {:induction false} OpEffects(t: KeyTable, op: WriteOp, k: Bytes)
    ensures var before, after := HistoryOf(t, k), HistoryOf(ApplyOp(t, op), k);
            match op
            case Set(key, v) => after == if key == k then MergeHistory.History(Some(v), []) else before
            case Remove(key) => after == if key == k then MergeHistory.History(None, []) else before
            case RemoveRange(start, end) =>
              after == if (k == start || Less(start, k)) && Less(k, end) then MergeHistory.History(None, []) else before
            case MergeInto(key, operand) =>
              after == if key == k then MergeHistory.History(before.base, before.operands + [operand]) else before
  {
    if op.RemoveRange? {
      LessTotal(op.start, k);
      LessIrreflexive(k);
    }
  }

  /** A nonempty range loses its start key and keeps its end key. */
  lemma {:induction false} RangeEnds(t: KeyTable, start: Bytes, end: Bytes)
    requires Less(start, end)
    ensures HistoryOf(ApplyOp(t, RemoveRange(start, end)), start) == ABSENT
    ensures HistoryOf(ApplyOp(t, RemoveRange(start, end)), end) == HistoryOf(t, end)
  {
    OpEffects(t, RemoveRange(start, end), start);
    OpEffects(t, RemoveRange(start, end), end);
    LessIrreflexive(end);
  }

  lemma {:induction false} OpPerKey(t: KeyTable, op: WriteOp, h: History, es: seq<MergeHistory.KeyEvent>, k: Bytes)
    requires HistoryOf(t, k) == MergeHistory.SinceLastWrite(h, es)
    ensures HistoryOf(ApplyOp(t, op), k) == MergeHistory.SinceLastWrite(h, es + EventOn(op, k))
  {
    var e := EventOn(op, k);
    if e == [] { assert es + e == es; } else { assert (es + e)[..|es|] == es; }
  }

  /** Key by key, a batch leaves what the key's own events leave: its last put or delete, and the merges after that. */
  lemma {:induction false} BatchPerKey(t: KeyTable, ops: seq<WriteOp>, k: Bytes)
    ensures HistoryOf(ApplyOps(t, ops), k) == MergeHistory.SinceLastWrite(HistoryOf(t, k), EventsOn(ops, k))
    decreases |ops|
  {
    if ops != [] {
      var before := ops[..|ops| - 1];
      BatchPerKey(t, before, k);
      OpPerKey(ApplyOps(t, before), ops[|ops| - 1], HistoryOf(t, k), EventsOn(before, k), k);
    }
  }

  /** Hence, under the default operators, every key reads as the concatenation its own events ask for. */
  lemma {:induction false} BatchReads(t: KeyTable, ops: seq<WriteOp>, k: Bytes)
    ensures var since := MergeHistory.SinceLastWrite(HistoryOf(t, k), EventsOn(ops, k));
            MergeHistory.ReadKey(MergeHistory.DEFAULTS, HistoryOf(ApplyOps(t, ops), k))
            == Ok(if since.base.Some? then Some(since.base.value + MergeHistory.Flatten(since.operands))
                  else if since.operands != [] then Some(MergeHistory.Flatten(since.operands))
                  else None)
  {
    BatchPerKey(t, ops, k);
    MergeHistory.DefaultReadsConcatenation(HistoryOf(t, k), EventsOn(ops, k));
    MergeHistory.DefaultReadsConcatenation(HistoryOf(ApplyOps(t, ops), k), []);
  }

  // --- Single operations through the store ---

  method Perform(store: CfStore<History>, cf: string, op: WriteOp) returns (r: Result<(), StoreError>)
    modifies store
    ensures r == if cf != "default" && cf !in old(store.cfs) then Err(UnknownCf(cf)) else Ok(())
    ensures store.cfs == if r.Ok? then old(store.cfs)[cf := ApplyOp(old(store.Table(cf)), op)] else old(store.cfs)
  {
    var unknown := store.HandleError(cf);
    if unknown.Some? { return Err(unknown.value); }
    store.Replace(cf, ApplyOp(store.Table(cf), op));
    return Ok(());
  }

  method PerformOneByOne(store: CfStore<History>, cf: string, ops: seq<WriteOp>) returns (r: Result<(), StoreError>)
    modifies store
    ensures r == if ops != [] && cf != "default" && cf !in old(store.cfs) then Err(UnknownCf(cf)) else Ok(())
    ensures store.cfs == if r.Ok? && ops != [] then old(store.cfs)[cf := ApplyOps(old(store.Table(cf)), ops)]
            else old(store.cfs)
  {
    for i := 0 to |ops|
      invariant i > 0 ==> old(store.HandleError(cf)).None?
      invariant store.cfs == if i > 0 then old(store.cfs)[cf := ApplyOps(old(store.Table(cf)), ops[..i])]
                else old(store.cfs)
    {
      assert ops[..i + 1][..i] == ops[..i];
      var done := Perform(store, cf, ops[i]);
      if done.Err? { return done; }
    }
    assert ops[..|ops|] == ops;
    return Ok(());
  }

  // --- BatchWriter ---

  class BatchWriter {
    const store: CfStore<History>
    const cf: string
    var batch: seq<WriteOp>
    var committedOrDiscarded: bool

    ghost predicate Valid()
      reads this, store
    {
      batch != [] ==> store.HandleError(cf).None?
    }

    constructor (store: CfStore<History>, cf: string)
      ensures Valid() && this.store == store && this.cf == cf && batch == [] && !committedOrDiscarded
    {
      this.store, this.cf, batch, committedOrDiscarded := store, cf, [], false;
    }

    /** set, delete, delete_range, merge and their raw and expiring forms: append to the batch, touch nothing else. */
    method Stage(op: WriteOp) returns (r: Result<(), StoreError>)
      requires Valid()
      modifies this`batch
      ensures Valid()
      ensures r == if committedOrDiscarded then Err(Other("BatchWriter already committed or discarded"))
                   else if cf != "default" && cf !in store.cfs then Err(UnknownCf(cf)) else Ok(())
      ensures batch == if r.Ok? then old(batch) + [op] else old(batch)
    {
      if committedOrDiscarded { return Err(Other("BatchWriter already committed or discarded")); }
      var unknown := store.HandleError(cf);
      if unknown.Some? { return Err(unknown.value); }
      batch := batch + [op];
      return Ok(());
    }

    /**
     Atomic: all staged operations as if performed one by one, on the writer's family only, or an
     error and nothing. An engine error leaves the writer marked as not committed.
     */
    method Commit(refused: bool) returns (r: Result<(), StoreError>)
      requires Valid()
      modifies this, store
      ensures r == if old(committedOrDiscarded) then Err(Other("BatchWriter already committed or discarded"))
                   else if refused then Err(RocksDb(1)) else Ok(())
      ensures committedOrDiscarded == (old(committedOrDiscarded) || r.Ok?)
      ensures store.cfs == if r.Ok? && old(batch) != [] then
              old(store.cfs)[cf := ApplyOps(old(store.Table(cf)), old(batch))]
                           else old(store.cfs)
    {
      if committedOrDiscarded { return Err(Other("BatchWriter already committed or discarded")); }
      var taken := batch;
      batch := [];
      if refused { return Err(RocksDb(1)); }
      if taken != [] {
        var table := store.Table(cf);
        for i := 0 to |taken|
          invariant table == ApplyOps(store.Table(cf), taken[..i]) && store.cfs == old(store.cfs)
        {
          assert taken[..i + 1][..i] == taken[..i];
          table := ApplyOp(table, taken[i]);
        }
        assert taken[..|taken|] == taken;
        store.Replace(cf, table);
      }
      committedOrDiscarded := true;
      return Ok(());
    }

    /** Discarding takes the batch out; the store is not in its frame. */
    method Discard()
      modifies this
      ensures batch == [] && committedOrDiscarded
    {
      batch, committedOrDiscarded := [], true;
    }
  }

  /** Committing a staged list of operations is performing them one by one through the store. */
  method StageAndCommit(store: CfStore<History>, cf: string, ops: seq<WriteOp>) returns (r: Result<(), StoreError>)
    modifies store
    ensures r == if ops != [] && cf != "default" && cf !in old(store.cfs) then Err(UnknownCf(cf)) else Ok(())
    ensures store.cfs == if r.Ok? && ops != [] then old(store.cfs)[cf := ApplyOps(old(store.Table(cf)), ops)]
            else old(store.cfs)
  {
    var writer := new BatchWriter(store, cf);
    for i := 0 to |ops|
      invariant fresh(writer) && writer.store == store && writer.cf == cf && writer.Valid()
                && !writer.committedOrDiscarded
      invariant writer.batch == ops[..i] && store.cfs == old(store.cfs)
    {
      var staged := writer.Stage(ops[i]);
      if staged.Err? { return staged; }
      assert ops[..i + 1] == ops[..i] + [ops[i]];
    }
    assert ops[..|ops|] == ops;
    r := writer.Commit(false);
  }
}
