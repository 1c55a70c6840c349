/** Copying one database into another, with optional validation (src/utils/mod.rs, migrate_db). */
module Migration {
  import opened Wrappers
  import opened StoreErrors
  import opened ByteStrings
  import opened Tables
  import opened Iteration
  import opened CfStores

  type Values = map<Bytes, Bytes>

  /** One pass of an engine iterator over a table: only its records, and all of them unless the engine fails. */
  ghost predicate ScanOf(items: seq<RawItem>, table: Values) {
    && (forall r | Item(r) in items :: r.key in table && table[r.key] == r.value)
    && ((forall i | i in items :: i.Item?) ==> forall k | k in table :: Item(Record(k, table[k])) in items)
  }

  /** The source as the two passes see it. */
  ghost predicate Scans(src: CfStore<Bytes>, pass: string -> seq<RawItem>)
    reads src
  {
    forall cf :: ScanOf(pass(cf), src.Table(cf))
  }

  /** What the items seen so far put into a table. */
  function Copied(items: seq<RawItem>): Values
    decreases |items|
  {
    if items == [] then map[] else
      var before := Copied(items[..|items| - 1]);
      match items[|items| - 1]
      case Item(r) => before[r.key := r.value]
      case IoError(_) => before
  }

  lemma {:induction false} CopiedMembers(items: seq<RawItem>, table: Values)
    requires forall r | Item(r) in items :: r.key in table && table[r.key] == r.value
    ensures forall k :: k in Copied(items) <==> k in table && Item(Record(k, table[k])) in items
    ensures forall k | k in Copied(items) :: Copied(items)[k] == table[k]
    decreases |items|
  {
    if items != [] {
      var before, last := items[..|items| - 1], items[|items| - 1];
      assert items == before + [last];
      assert forall i :: i in items <==> i in before || i == last;
      CopiedMembers(before, table);
      if last.Item? {
        assert last == Item(last.record);
        assert Record(last.record.key, table[last.record.key]) == last.record;
      }
    }
  }

  lemma {:induction false} FullScanCopiesTable(items: seq<RawItem>, table: Values)
    requires ScanOf(items, table) && forall i | i in items :: i.Item?
    ensures Copied(items) == table
  {
    CopiedMembers(items, table);
  }

  /** The copy loop on one column family: its table is overridden by the scanned one. */
  method CopyFamily(dst: CfStore<Bytes>, cf: string, items: seq<RawItem>, ghost table: Values)
    returns (r: Result<(), StoreError>)
    requires ScanOf(items, table)
    modifies dst
    ensures r.Ok? ==> dst.Table(cf) == old(dst.Table(cf)) + table
    ensures forall c | c != cf :: dst.Table(c) == old(dst.Table(c))
    ensures old(dst.cfs).Keys <= dst.cfs.Keys
    ensures r.Err? ==> r.error.RocksDb? || r.error.UnknownCf?
    ensures r.Err? ==> old(dst.HandleError(cf)).Some? || exists i | i in items :: i.IoError?
  {
    ghost var before := dst.Table(cf);
    for i := 0 to |items|
      invariant forall j | 0 <= j < i :: items[j].Item?
      invariant dst.Table(cf) == before + Copied(items[..i])
      invariant forall c | c != cf :: dst.Table(c) == old(dst.Table(c))
      invariant old(dst.cfs).Keys <= dst.cfs.Keys
    {
      assert items[..i + 1][..i] == items[..i] && items[i] in items;
      match items[i] {
        case IoError(code) => return Err(RocksDb(code));
        case Item(record) =>
          var unknown := dst.HandleError(cf);
          if unknown.Some? { return Err(unknown.value); }
          dst.Replace(cf, dst.Table(cf)[record.key := record.value]);
          assert Copied(items[..i + 1]) == Copied(items[..i])[record.key := record.value];
      }
    }
    assert items[..|items|] == items;
    FullScanCopiesTable(items, table);
    return Ok(());
  }

  /** Every selected family is overridden by the source's records, every other one is untouched. */
  ghost predicate Faithful(src: CfStore<Bytes>, dst: CfStore<Bytes>, before: map<string, Values>, selected: set<string>)
    reads src, dst
  {
    forall cf :: dst.Table(cf) == Overridden(if cf in before then before[cf] else map[], src.Table(cf), cf in selected)
  }

  function Overridden(before: Values, table: Values, selected: bool): Values {
    if selected then before + table else before
  }

  /** Every record of the selected source families reads back equal from the destination. */
  ghost predicate ReadsBack(src: CfStore<Bytes>, dst: CfStore<Bytes>, selected: set<string>)
    reads src, dst
  {
    forall cf, k | cf in selected && k in src.Table(cf) :: k in dst.Table(cf) && dst.Table(cf)[k] == src.Table(cf)[k]
  }

  function Selected(srcNames: seq<string>, dstOpen: seq<string>): set<string> {
    set cf | cf in srcNames && cf in dstOpen
  }

  /**
   Nothing but the data can go wrong: the selected families are open on both sides and the pass over
   them succeeds.
   */
  ghost predicate Smooth(src: CfStore<Bytes>, dst: CfStore<Bytes>, selected: set<string>, pass: string -> seq<RawItem>)
    reads src, dst
  {
    forall cf | cf in selected ::
      src.HandleError(cf).None? && dst.HandleError(cf).None? && forall i | i in pass(cf) :: i.Item?
  }

  /** The engine fails at some point of this pass. */
  predicate Fails(items: seq<RawItem>) {
    exists i :: i in items && i.IoError?
  }

  method CopyAll(src: CfStore<Bytes>, dst: CfStore<Bytes>, srcNames: seq<string>, dstOpen: seq<string>,
                 pass: string -> seq<RawItem>)
    returns (r: Result<(), StoreError>)
    requires src != dst && Scans(src, pass)
    modifies dst
    ensures r.Ok? ==> Faithful(src, dst, old(dst.cfs), Selected(srcNames, dstOpen))
    ensures r.Err? ==> r.error.RocksDb? || r.error.UnknownCf?
    ensures old(Smooth(src, dst, Selected(srcNames, dstOpen), pass)) ==> r.Ok?
    ensures old(dst.cfs).Keys <= dst.cfs.Keys
  {
    ghost var selected := Selected(srcNames, dstOpen);
    ghost var smooth := Smooth(src, dst, selected, pass);
    for i := 0 to |srcNames|
      invariant Faithful(src, dst, old(dst.cfs), Selected(srcNames[..i], dstOpen))
      invariant old(dst.cfs).Keys <= dst.cfs.Keys
    {
      var cf := srcNames[i];
      ghost var seen, seen' := Selected(srcNames[..i], dstOpen), Selected(srcNames[..i + 1], dstOpen);
      assert srcNames[..i + 1] == srcNames[..i] + [cf];
      if cf !in dstOpen {
        assert seen' == seen;
        continue;
      }
      assert seen' == seen + {cf};
      assert cf in selected;
      var unknown := src.HandleError(cf);
      if unknown.Some? { return Err(unknown.value); }
      ghost var before := dst.cfs;
      r := CopyFamily(dst, cf, pass(cf), src.Table(cf));
      if r.Err? { return; }
      FamilyCopied(src, dst, old(dst.cfs), before, seen, cf);
    }
    assert srcNames[..|srcNames|] == srcNames;
    return Ok(());
  }

  lemma {:induction false} FamilyCopied(src: CfStore<Bytes>, dst: CfStore<Bytes>, first: map<string, Values>,
                                        before: map<string, Values>,
                                        seen: set<string>, cf: string)
    requires forall c :: (if c in before then before[c] else map[])
                         == Overridden(if c in first then first[c] else map[], src.Table(c), c in seen)
    requires forall c | c != cf :: dst.Table(c) == if c in before then before[c] else map[]
    requires dst.Table(cf) == (if cf in before then before[cf] else map[]) + src.Table(cf)
    ensures Faithful(src, dst, first, seen + {cf})
  {
  }

  /** The validate loop. Without engine errors it returns Ok exactly when every selected record reads back equal. */
  method ValidateAll(src: CfStore<Bytes>, dst: CfStore<Bytes>, srcNames: seq<string>, dstOpen: seq<string>,
                     pass: string -> seq<RawItem>)
    returns (r: Result<(), StoreError>)
    requires Scans(src, pass)
    ensures r.Ok? ==> ReadsBack(src, dst, Selected(srcNames, dstOpen))
    ensures r.Err? ==>
              || r.error.RocksDb? || r.error.UnknownCf?
              || (r.error.Other? && !ReadsBack(src, dst, Selected(srcNames, dstOpen)))
    ensures (exists cf :: cf in srcNames && cf in dstOpen && Fails(pass(cf))) ==> r.Err?
    ensures Smooth(src, dst, Selected(srcNames, dstOpen), pass) ==>
            (r.Ok? <==> ReadsBack(src, dst, Selected(srcNames, dstOpen)))
  {
    for i := 0 to |srcNames|
      invariant ReadsBack(src, dst, Selected(srcNames[..i], dstOpen))
      invariant forall cf | cf in srcNames[..i] && cf in dstOpen :: !Fails(pass(cf))
    {
      var cf := srcNames[i];
      assert srcNames[..i + 1] == srcNames[..i] + [cf];
      if cf !in dstOpen {
        assert Selected(srcNames[..i + 1], dstOpen) == Selected(srcNames[..i], dstOpen);
        continue;
      }
      assert cf in Selected(srcNames, dstOpen);
      assert Selected(srcNames[..i + 1], dstOpen) == Selected(srcNames[..i], dstOpen) + {cf};
      var unknown := src.HandleError(cf);
      if unknown.Some? { return Err(unknown.value); }
      var items := pass(cf);
      for j := 0 to |items|
        invariant forall n | 0 <= n < j ::
                    items[n].Item? && items[n].record.key in dst.Table(cf)
                      && dst.Table(cf)[items[n].record.key] == items[n].record.value
      {
        assert items[j] in items;
        match items[j] {
          case IoError(code) => return Err(RocksDb(code));
          case Item(record) =>
            var missing := dst.HandleError(cf);
            if missing.Some? { return Err(missing.value); }
            if record.key !in dst.Table(cf) { return Err(Other("Migrated key missing")); }
            if dst.Table(cf)[record.key] != record.value { return Err(Other("Data inconsistency")); }
        }
      }
      forall k | k in src.Table(cf) ensures k in dst.Table(cf) && dst.Table(cf)[k] == src.Table(cf)[k] {
        var seen := Item(Record(k, src.Table(cf)[k]));
        assert seen in items;
        var n :| 0 <= n < |items| && items[n] == seen;
      }
    }
    assert srcNames[..|srcNames|] == srcNames;
    return Ok(());
  }

  /**
   migrate_db: on Ok every selected family of the destination is its old contents overridden by the
   source's records, and nothing else changed; the only errors are the engine's and unknown
   families, never an inconsistency found by the validation.
   */
  method MigrateDb(src: CfStore<Bytes>, dst: CfStore<Bytes>, srcNames: seq<string>, dstOpen: seq<string>,
                   validate: bool,
                   copyPass: string -> seq<RawItem>, checkPass: string -> seq<RawItem>)
    returns (r: Result<(), StoreError>)
    requires src != dst && Scans(src, copyPass) && Scans(src, checkPass)
    modifies dst
    ensures r.Ok? ==> Faithful(src, dst, old(dst.cfs), Selected(srcNames, dstOpen))
    ensures r.Ok? ==> forall cf, k ::
              && (cf in srcNames && cf in dstOpen && k in src.Table(cf) ==>
                    k in dst.Table(cf) && dst.Table(cf)[k] == src.Table(cf)[k])
              && (!(cf in srcNames && cf in dstOpen && k in src.Table(cf)) ==>
                    && (k in dst.Table(cf) <==> k in old(dst.Table(cf)))
                    && (k in dst.Table(cf) ==> dst.Table(cf)[k] == old(dst.Table(cf))[k]))
    ensures validate && (exists cf :: cf in srcNames && cf in dstOpen && Fails(checkPass(cf))) ==> r.Err?
    ensures !validate && old(Smooth(src, dst, Selected(srcNames, dstOpen), copyPass)) ==> r.Ok?
    ensures r.Err? ==> r.error.RocksDb? || r.error.UnknownCf?
    ensures (&& old(Smooth(src, dst, Selected(srcNames, dstOpen), copyPass))
             && old(Smooth(src, dst, Selected(srcNames, dstOpen), checkPass))) ==> r.Ok?
  {
    r := CopyAll(src, dst, srcNames, dstOpen, copyPass);
    if r.Err? || !validate { return; }
    r := ValidateAll(src, dst, srcNames, dstOpen, checkPass);
  }
}
