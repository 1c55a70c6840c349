/** The iteration engine (src/iter): start selection, prefix enforcement and the three drivers. */
module Iteration {
  import opened Wrappers
  import opened ByteStrings
  import opened Tables

  /** What the engine's iterator yields next. */
  datatype RawItem = Item(record: Record) | IoError(code: int)

  function Items(t: seq<Record>): (raw: seq<RawItem>)
    ensures |raw| == |t| && forall i | 0 <= i < |t| :: raw[i] == Item(t[i])
  {
    seq(|t|, i requires 0 <= i < |t| => Item(t[i]))
  }

  datatype Decision = Stop | Skip | Keep

  /** A stateful user control: an FnMut is its state and how one call changes it. */
  datatype Control<!S> = Control(decide: (S, Record, nat) -> (S, Decision))

  datatype IterConfig = IterConfig(prefix: Option<Bytes>, start: Option<Bytes>, reverse: bool)

  /** Start selection; without a configured prefix extractor the prefix iterator is a forward seek to the prefix. */
  function Selection(config: IterConfig): Mode {
    if config.prefix.Some? && config.start.None? then From(config.prefix.value, false)
    else if config.start.Some? then From(config.start.value, config.reverse)
    else if config.reverse then FromEnd
    else FromStart
  }

  // --- Composed control ---

  datatype Enforced<!S> = Enforced(prefix: Option<Bytes>, user: Option<Control<S>>)

  predicate Admits<S>(ctl: Enforced<S>, r: Record) {
    ctl.prefix.Some? ==> StartsWith(r.key, ctl.prefix.value)
  }

  /** Prefix enforcement first; only a record that passes reaches the user control. */
  function Decide<S>(ctl: Enforced<S>, s: S, r: Record, idx: nat): (S, Decision) {
    if !Admits(ctl, r) then (s, Stop)
    else if ctl.user.None? then (s, Keep)
    else ctl.user.value.decide(s, r, idx)
  }

  /** The user-control call that deciding on r makes, if any. */
  function CallOn<S>(ctl: Enforced<S>, r: Record, idx: nat): seq<(Record, nat)> {
    if ctl.user.Some? && Admits(ctl, r) then [(r, idx)] else []
  }

  // --- The reference scan ---

  /** A whole scan up to its end, its Stop or the first engine error. */
  datatype Trace<S> = Trace(kept: seq<Record>, calls: seq<(Record, nat)>, state: S, rest: seq<RawItem>,
                            error: Option<int>)

  function Scan<S>(raw: seq<RawItem>, ctl: Enforced<S>, s: S, idx: nat): Trace<S> {
    if raw == [] then Trace([], [], s, [], None)
    else if raw[0].IoError? then Trace([], [], s, raw[1..], Some(raw[0].code))
    else
      var r := raw[0].record;
      var (s', d) := Decide(ctl, s, r, idx);
      match d
      case Stop => Trace([], CallOn(ctl, r, idx), s', raw[1..], None)
      case Skip =>
        var t := Scan(raw[1..], ctl, s', idx);
        t.(calls := CallOn(ctl, r, idx) + t.calls)
      case Keep =>
        var t := Scan(raw[1..], ctl, s', idx + 1);
        t.(kept := [r] + t.kept, calls := CallOn(ctl, r, idx) + t.calls)
  }

  /** Same records, same control calls with the same indices, same final control state. */
  ghost predicate SameScan<S>(a: Trace<S>, b: Trace<S>) {
    a.kept == b.kept && a.calls == b.calls && a.state == b.state && a.error == b.error
  }

  // --- What prefix enforcement means ---

  lemma {:induction false} UserSeesOnlyPrefixed<S>(raw: seq<RawItem>, ctl: Enforced<S>, s: S, idx: nat)
    ensures forall c | c in Scan(raw, ctl, s, idx).calls :: Admits(ctl, c.0)
    ensures forall r | r in Scan(raw, ctl, s, idx).kept :: Admits(ctl, r)
  {
    if raw != [] && raw[0].Item? {
      var (s', d) := Decide(ctl, s, raw[0].record, idx);
      if d != Stop { UserSeesOnlyPrefixed(raw[1..], ctl, s', if d == Keep then idx + 1 else idx); }
    }
  }

  /** One scan continued by another: what the first kept and called comes first. */
  function Then<S>(first: Trace<S>, second: Trace<S>): Trace<S> {
    second.(kept := first.kept + second.kept, calls := first.calls + second.calls)
  }

  lemma {:induction false} ThenAssociates<S>(a: Trace<S>, b: Trace<S>, c: Trace<S>)
    ensures Then(a, Then(b, c)) == Then(Then(a, b), c)
  {
    assert a.kept + (b.kept + c.kept) == a.kept + b.kept + c.kept;
    assert a.calls + (b.calls + c.calls) == a.calls + b.calls + c.calls;
  }

  /** What deciding on one record contributes when the scan goes on after it. */
  function One<S>(ctl: Enforced<S>, s: S, r: Record, idx: nat): Trace<S> {
    var (s', d) := Decide(ctl, s, r, idx);
    Trace(if d == Keep then [r] else [], CallOn(ctl, r, idx), s', [], None)
  }

  lemma {:induction false} ScanCons<S>(raw: seq<RawItem>, ctl: Enforced<S>, s: S, idx: nat)
    requires raw != [] && raw[0].Item? && Decide(ctl, s, raw[0].record, idx).1 != Stop
    ensures var one := One(ctl, s, raw[0].record, idx);
            Scan(raw, ctl, s, idx) == Then(one, Scan(raw[1..], ctl, one.state, idx + |one.kept|))
  {
    var one := One(ctl, s, raw[0].record, idx);
    assert [] + Scan(raw[1..], ctl, one.state, idx).kept == Scan(raw[1..], ctl, one.state, idx).kept;
  }

  /** The scan reaches the end of `a`: no error and no Stop before it. */
  predicate RunsThrough<S>(a: seq<RawItem>, ctl: Enforced<S>, s: S, idx: nat) {
    a != [] ==>
      && a[0].Item? && Decide(ctl, s, a[0].record, idx).1 != Stop
      && var one := One(ctl, s, a[0].record, idx); RunsThrough(a[1..], ctl, one.state, idx + |one.kept|)
  }

  lemma {:induction false} ScanConsAppend<S>(a: seq<RawItem>, b: seq<RawItem>, ctl: Enforced<S>, s: S, idx: nat)
    requires a != [] && a[0].Item? && Decide(ctl, s, a[0].record, idx).1 != Stop
    ensures var one := One(ctl, s, a[0].record, idx);
            Scan(a + b, ctl, s, idx) == Then(one, Scan(a[1..] + b, ctl, one.state, idx + |one.kept|))
  {
    ScanCons(a + b, ctl, s, idx);
    assert (a + b)[1..] == a[1..] + b;
  }

  /**
   The index a control call receives is the number of records kept before it: cut the input anywhere,
   and a scan that runs through to the cut goes on after it in the state reached there, with the number
   of records kept so far as its index.
   */
  lemma {:induction false} ScanGoesOn<S>(a: seq<RawItem>, b: seq<RawItem>, ctl: Enforced<S>, s: S, idx: nat)
    requires RunsThrough(a, ctl, s, idx)
    ensures var first := Scan(a, ctl, s, idx);
            Scan(a + b, ctl, s, idx) == Then(first, Scan(b, ctl, first.state, idx + |first.kept|))
  {
    if a == [] {
      assert a + b == b;
      assert Then(Scan([], ctl, s, idx), Scan(b, ctl, s, idx)) == Scan(b, ctl, s, idx);
    } else {
      var one := One(ctl, s, a[0].record, idx);
      var idx' := idx + |one.kept|;
      var rest := Scan(a[1..], ctl, one.state, idx');
      ScanGoesOn(a[1..], b, ctl, one.state, idx');
      ScanCons(a, ctl, s, idx);
      ScanConsAppend(a, b, ctl, s, idx);
      ThenAssociates(one, rest, Scan(b, ctl, rest.state, idx' + |rest.kept|));
      assert idx' + |rest.kept| == idx + |Then(one, rest).kept|;
    }
  }

  /** Any other scan ends inside `a`. */
  lemma {:induction false} ScanEndsEarly<S>(a: seq<RawItem>, b: seq<RawItem>, ctl: Enforced<S>, s: S, idx: nat)
    requires !RunsThrough(a, ctl, s, idx)
    ensures var first := Scan(a, ctl, s, idx);
            Scan(a + b, ctl, s, idx) == first.(rest := first.rest + b)
  {
    if a[0].Item? && Decide(ctl, s, a[0].record, idx).1 != Stop {
      var one := One(ctl, s, a[0].record, idx);
      ScanEndsEarly(a[1..], b, ctl, one.state, idx + |one.kept|);
      ScanCons(a, ctl, s, idx);
      ScanConsAppend(a, b, ctl, s, idx);
    } else {
      assert (a + b)[1..] == a[1..] + b;
    }
  }

  /**
   Each record the scan reaches is decided by the user's control, called with the state left by the
   earlier calls and the number of records kept before it, and is kept if and only if that says Keep.
   */
  lemma {:induction false} RecordIsDecided<S>(a: seq<RawItem>, r: Record, ctl: Enforced<S>, s: S, idx: nat)
    requires RunsThrough(a, ctl, s, idx) && ctl.user.Some? && Admits(ctl, r)
    ensures var before, after := Scan(a, ctl, s, idx), Scan(a + [Item(r)], ctl, s, idx);
            var (state, d) := ctl.user.value.decide(before.state, r, idx + |before.kept|);
            && after.calls == before.calls + [(r, idx + |before.kept|)]
            && after.state == state
            && after.kept == before.kept + if d == Keep then [r] else []
  {
    ScanGoesOn(a, [Item(r)], ctl, s, idx);
  }

  /** An enforced scan is the user's own scan of the head that carries the prefix. */
  lemma {:induction false} EnforcedScanIsHeadScan<S>(c: seq<Record>, prefix: Bytes, user: Option<Control<S>>, s: S,
                                                     idx: nat)
    ensures SameScan(Scan(Items(c), Enforced(Some(prefix), user), s, idx),
                     Scan(Items(Head(c, HasPrefix(prefix))), Enforced(None, user), s, idx))
  {
    if c != [] && StartsWith(c[0].key, prefix) {
      var (s', d) := Decide(Enforced(Some(prefix), user), s, c[0], idx);
      EnforcedScanIsHeadScan(c[1..], prefix, user, s', if d == Keep then idx + 1 else idx);
      var head := Head(c, HasPrefix(prefix));
      assert Items(c)[1..] == Items(c[1..]);
      assert Items(head)[1..] == Items(head[1..]) && head[1..] == Head(c[1..], HasPrefix(prefix));
    }
  }

  lemma {:induction false} UncontrolledScanKeepsAll<S>(c: seq<Record>, s: S, idx: nat)
    ensures Scan(Items(c), Enforced(None, None), s, idx) == Trace(c, [], s, [], None)
  {
    if c != [] {
      UncontrolledScanKeepsAll(c[1..], s, idx + 1);
      assert Items(c)[1..] == Items(c[1..]) && c == [c[0]] + c[1..];
    }
  }

  /** The scan that `config` and `user` ask for on an error-free table. */
  function ConfiguredScan<S>(t: seq<Record>, config: IterConfig, user: Option<Control<S>>, s: S): Trace<S> {
    Scan(Items(Cursor(t, Selection(config))), Enforced(config.prefix, user), s, 0)
  }

  /** Keys strictly ascending, or strictly descending in reverse. */
  ghost predicate InKeyOrder(c: seq<Record>, reverse: bool) {
    forall i, j | 0 <= i < j < |c| :: if reverse then Less(c[j].key, c[i].key) else Less(c[i].key, c[j].key)
  }

  lemma {:induction false} DirectionKeepsRecords(t: seq<Record>, reverse: bool)
    ensures forall r :: r in InDirection(t, reverse) <==> r in t
    ensures Sorted(t) ==> InKeyOrder(InDirection(t, reverse), reverse)
  {
    if reverse {
      forall r | r in t ensures r in Reverse(t) {
        var i :| 0 <= i < |t| && t[i] == r;
        assert Reverse(t)[|t| - 1 - i] == r;
      }
    }
  }

  lemma {:induction false} SideContents(t: seq<Record>, start: Option<Bytes>, reverse: bool)
    ensures var side := InDirection(if start.Some? then Filter(t, OnSide(start.value, reverse)) else t, reverse);
            && (forall r :: r in side <==>
                  && r in t
                  && (start.Some? ==> r.key == start.value
                                      || if reverse then Less(r.key, start.value) else Less(start.value, r.key)))
            && (Sorted(t) ==> InKeyOrder(side, reverse))
  {
    var kept := if start.Some? then Filter(t, OnSide(start.value, reverse)) else t;
    DirectionKeepsRecords(kept, reverse);
    if start.Some? {
      var side := OnSide(start.value, reverse);
      FilterMembers(t, side);
      if Sorted(t) { FilterSorted(t, side); }
      forall r
        ensures side(r) <==> r.key == start.value || if reverse then Less(r.key, start.value)
                else Less(start.value, r.key)
      {
        SideIsOrder(r, start.value, reverse);
      }
    }
  }

  /** The prefixed records at the start key and beyond, in scan order. */
  lemma {:induction false} PrefixedFromContents(t: seq<Record>, prefix: Bytes, start: Bytes, reverse: bool)
    requires Sorted(t)
    ensures forall r :: r in PrefixedFrom(t, prefix, start, reverse) <==>
              && r in t && prefix <= r.key
              && (r.key == start || if reverse then Less(r.key, start) else Less(start, r.key))
    ensures InKeyOrder(PrefixedFrom(t, prefix, start, reverse), reverse)
  {
    var side := OnSide(start, reverse);
    var on := Filter(t, side);
    var both := Filter(on, HasPrefix(prefix));
    if reverse { FilterReverse(on, HasPrefix(prefix)); }
    assert PrefixedFrom(t, prefix, start, reverse) == InDirection(both, reverse);
    FilterMembers(t, side);
    FilterMembers(on, HasPrefix(prefix));
    FilterSorted(t, side);
    FilterSorted(on, HasPrefix(prefix));
    DirectionKeepsRecords(both, reverse);
    forall r
      ensures r in both <==>
                && r in t && prefix <= r.key
                && (r.key == start || if reverse then Less(r.key, start) else Less(start, r.key))
    {
      SideIsOrder(r, start, reverse);
    }
  }

  /**
   Without a prefix: the user's control run over the whole table, or its side of the start key, in
   the requested direction; without a control, exactly those records.
   */
  lemma {:induction false} UnprefixedScan<S>(t: seq<Record>, start: Option<Bytes>, reverse: bool,
                                             user: Option<Control<S>>, s: S)
    ensures var side := InDirection(if start.Some? then Filter(t, OnSide(start.value, reverse)) else t, reverse);
            && ConfiguredScan(t, IterConfig(None, start, reverse), user, s)
               == Scan(Items(side), Enforced(None, user), s, 0)
            && (user.None? ==> ConfiguredScan(t, IterConfig(None, start, reverse), user, s).kept == side)
            && (forall r :: r in side <==>
                  && r in t
                  && (start.Some? ==> r.key == start.value
                                      || if reverse then Less(r.key, start.value) else Less(start.value, r.key)))
            && (Sorted(t) ==> InKeyOrder(side, reverse))
  {
    UncontrolledScanKeepsAll(Cursor(t, Selection(IterConfig(None, start, reverse))), s, 0);
    var side := InDirection(if start.Some? then Filter(t, OnSide(start.value, reverse)) else t, reverse);
    assert Cursor(t, Selection(IterConfig(None, start, reverse))) == side;
    SideContents(t, start, reverse);
  }

  /**
   Prefix and no start key: on every sorted table the scan behaves exactly as the user's control
   run over all records carrying the prefix, in ascending order, whatever `reverse` says.
   */
  lemma {:induction false} PrefixScanIsComplete<S>(t: seq<Record>, prefix: Bytes, reverse: bool,
                                                   user: Option<Control<S>>, s: S)
    requires Sorted(t)
    ensures var found := Filter(t, HasPrefix(prefix));
            && Sorted(found) && (forall r :: r in found <==> r in t && prefix <= r.key)
            && SameScan(ConfiguredScan(t, IterConfig(Some(prefix), None, reverse), user, s),
                        Scan(Items(found), Enforced(None, user), s, 0))
            && (user.None? ==> ConfiguredScan(t, IterConfig(Some(prefix), None, reverse), user, s).kept == found)
  {
    PrefixHeadIsFilter(t, prefix);
    FilterSorted(t, HasPrefix(prefix));
    FilterMembers(t, HasPrefix(prefix));
    EnforcedScanIsHeadScan(Cursor(t, From(prefix, false)), prefix, user, s, 0);
    UncontrolledScanKeepsAll(Filter(t, HasPrefix(prefix)), s, 0);
  }

  /** Prefixed keys are contiguous: seeking to the prefix and stopping at the first mismatch misses none. */
  lemma {:induction false} PrefixHeadIsFilter(t: seq<Record>, prefix: Bytes)
    requires Sorted(t)
    ensures Head(Cursor(t, From(prefix, false)), HasPrefix(prefix)) == Filter(t, HasPrefix(prefix))
  {
    var f := HasPrefix(prefix);
    PrefixedStartHasNoGap(t, prefix, prefix, false);
    ClosedIffNoGap(t, prefix, prefix, false);
    HeadIsFilterIffClosed(Cursor(t, From(prefix, false)), f);
    forall r | r in t && f(r) ensures OnSide(prefix, false)(r) { PrefixIsLeast(prefix, r.key); }
    FilterAbsorbs(t, OnSide(prefix, false), f);
  }

  /** Prefix and a start key that carries it: exactly the prefixed records on the scanned side, in scan order. */
  lemma {:induction false} PrefixScanFromPrefixedStart<S>(t: seq<Record>, prefix: Bytes, start: Bytes, reverse: bool,
                                                          user: Option<Control<S>>, s: S)
    requires Sorted(t) && StartsWith(start, prefix)
    ensures var found := InDirection(Filter(t, (r: Record) => OnSide(start, reverse)(r) && HasPrefix(prefix)(r)),
                                     reverse);
            && SameScan(ConfiguredScan(t, IterConfig(Some(prefix), Some(start), reverse), user, s),
                        Scan(Items(found), Enforced(None, user), s, 0))
            && (user.None? ==> ConfiguredScan(t, IterConfig(Some(prefix), Some(start), reverse), user, s).kept == found)
            && (forall r :: r in found <==>
                  && r in t && prefix <= r.key
                  && (r.key == start || if reverse then Less(r.key, start) else Less(start, r.key)))
            && InKeyOrder(found, reverse)
  {
    PrefixedFromContents(t, prefix, start, reverse);
    var both := (r: Record) => OnSide(start, reverse)(r) && HasPrefix(prefix)(r);
    var c := Cursor(t, From(start, reverse));
    EnforcedScanIsHeadScan(c, prefix, user, s, 0);
    PrefixedStartHasNoGap(t, prefix, start, reverse);
    ClosedIffNoGap(t, prefix, start, reverse);
    HeadIsFilterIffClosed(c, HasPrefix(prefix));
    PrefixedFromIsFilter(t, prefix, start, reverse);
    UncontrolledScanKeepsAll(InDirection(Filter(t, both), reverse), s, 0);
  }

  lemma {:induction false} PrefixedFromIsFilter(t: seq<Record>, prefix: Bytes, start: Bytes, reverse: bool)
    ensures PrefixedFrom(t, prefix, start, reverse)
            == InDirection(Filter(t, (r: Record) => OnSide(start, reverse)(r) && HasPrefix(prefix)(r)), reverse)
  {
    var side := OnSide(start, reverse);
    var both := (r: Record) => OnSide(start, reverse)(r) && HasPrefix(prefix)(r);
    var on := Filter(t, side);
    if reverse { FilterReverse(on, HasPrefix(prefix)); }
    FilterMembers(t, side);
    FilterAgrees(on, HasPrefix(prefix), both);
    FilterAbsorbs(t, side, both);
  }

  lemma {:induction false} FilterAgrees(t: seq<Record>, f: Record -> bool, g: Record -> bool)
    requires forall r | r in t :: f(r) == g(r)
    ensures Filter(t, f) == Filter(t, g)
  {
    if t != [] {
      assert t[0] in t;
      FilterAgrees(t[1..], f, g);
    }
  }

  /**
   Prefix and an arbitrary start key, either direction: the scan returns every prefixed record on
   the scanned side of start exactly when no stored record there comes before one of them without
   carrying the prefix itself.
   */
  lemma {:induction false} PrefixScanFromAnyStartIff<S>(t: seq<Record>, prefix: Bytes, start: Bytes, reverse: bool,
                                                        s: S)
    requires Sorted(t)
    ensures var user: Option<Control<S>> := None;
            ConfiguredScan(t, IterConfig(Some(prefix), Some(start), reverse), user, s).kept
            == PrefixedFrom(t, prefix, start, reverse)
            <==> NoGap(t, prefix, start, reverse)
    ensures forall r :: r in PrefixedFrom(t, prefix, start, reverse) <==>
              && r in t && prefix <= r.key
              && (r.key == start || if reverse then Less(r.key, start) else Less(start, r.key))
    ensures InKeyOrder(PrefixedFrom(t, prefix, start, reverse), reverse)
  {
    PrefixedFromContents(t, prefix, start, reverse);
    var user: Option<Control<S>> := None;
    var c := Cursor(t, From(start, reverse));
    EnforcedScanIsHeadScan(c, prefix, user, s, 0);
    UncontrolledScanKeepsAll(Head(c, HasPrefix(prefix)), s, 0);
    HeadIsFilterIffClosed(c, HasPrefix(prefix));
    ClosedIffNoGap(t, prefix, start, reverse);
  }

  /** Such a gap: records 2 and 5, prefix 5, start 1. The scan stops at record 2 and finds nothing. */
  lemma {:induction false} GapHidesRecords()
    ensures var t := [Record([2], []), Record([5], [])]; var config := IterConfig(Some([5]), Some([1]), false);
            var user: Option<Control<()>> := None;
            && Sorted(t) && !NoGap(t, [5], [1], false)
            && ConfiguredScan(t, config, user, ()).kept == [] && PrefixedFrom(t, [5], [1], false) == [t[1]]
  {
    var t := [Record([2], []), Record([5], [])];
    var side := OnSide([1], false);
    assert t[1..] == [t[1]] && t[1..][1..] == [];
    assert Filter(t[1..], side) == [t[1]];
    assert Filter(t, side) == t;
    assert Filter(t[1..], HasPrefix([5])) == [t[1]];
    assert t[0] in t && t[1] in t && Precedes(t[0], t[1], false) && Less([1], t[0].key) && !([5] <= t[0].key);
    assert HasPrefix([5])(t[1]);
  }
}
