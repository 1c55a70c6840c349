/** The three drivers of the iteration engine, each proved against the one reference scan. */
module IterationDrivers {
  import opened Wrappers
  import opened StoreErrors
  import opened ByteStrings
  import opened Tables
  import opened Iteration

  /** The user's FnMut as an object: its captured state, and a record of the calls it received. */
  class ControlFn<S> {
    const control: Control<S>
    var state: S
    ghost var calls: seq<(Record, nat)>

    constructor (control: Control<S>, state: S)
      ensures this.control == control && this.state == state && calls == []
    {
      this.control, this.state, calls := control, state, [];
    }

    method Call(r: Record, idx: nat) returns (d: Decision)
      modifies this
      ensures (state, d) == control.decide(old(state), r, idx)
      ensures calls == old(calls) + [(r, idx)]
    {
      var (s, decision) := control.decide(state, r, idx);
      state, d := s, decision;
      calls := calls + [(r, idx)];
    }
  }

  /** The boxed effective control: prefix enforcement composed with the user's closure. */
  class EffectiveControl<S> {
    const prefix: Option<Bytes>
    const user: Option<ControlFn<S>>
    const idle: S

    constructor (prefix: Option<Bytes>, user: Option<ControlFn<S>>, idle: S)
      ensures this.prefix == prefix && this.user == user && this.idle == idle
    {
      this.prefix, this.user, this.idle := prefix, user, idle;
    }

    ghost function Footprint(): set<object> {
      if user.Some? then {user.value} else {}
    }

    ghost function Composed(): Enforced<S> {
      Enforced(prefix, if user.Some? then Some(user.value.control) else None)
    }

    ghost function State(): S
      reads Footprint()
    {
      if user.Some? then user.value.state else idle
    }

    ghost function Calls(): seq<(Record, nat)>
      reads Footprint()
    {
      if user.Some? then user.value.calls else []
    }

    method Decide(r: Record, idx: nat) returns (d: Decision)
      modifies Footprint()
      ensures (State(), d) == Iteration.Decide(Composed(), old(State()), r, idx)
      ensures Calls() == old(Calls()) + CallOn(Composed(), r, idx)
    {
      if prefix.Some? && !StartsWith(r.key, prefix.value) { return Stop; }
      if user.None? { return Keep; }
      d := user.value.Call(r, idx);
    }
  }

  /** What one call of `next` does to the scan that is still ahead: nothing is left, or it peels off one record. */
  ghost predicate Peels<S>(ahead: Trace<S>, ahead': Trace<S>, found: Option<Result<Record, StoreError>>,
                           calls: seq<(Record, nat)>, calls': seq<(Record, nat)>) {
    match found
    case None => ahead.kept == [] && ahead.error == None && calls' == calls + ahead.calls
    case Some(Err(e)) => ahead.kept == [] && ahead.error.Some? && e == RocksDb(ahead.error.value)
      && calls' == calls + ahead.calls
    case Some(Ok(r)) =>
      && ahead.kept == [r] + ahead'.kept && calls + ahead.calls == calls' + ahead'.calls
      && ahead'.state == ahead.state && ahead'.error == ahead.error && ahead'.rest == ahead.rest
  }

  /** Two scans that keep and leave the same, whatever calls the first made before. */
  ghost predicate SameEnd<S>(a: Trace<S>, b: Trace<S>) {
    a.kept == b.kept && a.state == b.state && a.rest == b.rest && a.error == b.error
  }

  /** Deciding on the first of the remaining records, with `calls` made so far. */
  lemma {:induction false} DecideNext<S>(raw: seq<RawItem>, ctl: Enforced<S>, s: S, idx: nat, calls: seq<(Record, nat)>)
    requires raw != [] && raw[0].Item?
    ensures var r := raw[0].record;
            var (s', d) := Decide(ctl, s, r, idx);
            var now, next := Scan(raw, ctl, s, idx), Scan(raw[1..], ctl, s', if d == Keep then idx + 1 else idx);
            var calls' := calls + CallOn(ctl, r, idx);
            && (d == Stop ==>
                  && now.kept == [] && now.state == s' && now.rest == raw[1..] && now.error == None
                  && calls + now.calls == calls')
            && (d == Skip ==> SameEnd(now, next) && calls + now.calls == calls' + next.calls)
            && (d == Keep ==>
                  && now.kept == [r] + next.kept && now.state == next.state && now.rest == next.rest
                  && now.error == next.error && calls + now.calls == calls' + next.calls)
  {
    var r := raw[0].record;
    var (s', d) := Decide(ctl, s, r, idx);
    var next := Scan(raw[1..], ctl, s', if d == Keep then idx + 1 else idx);
    assert calls + (CallOn(ctl, r, idx) + next.calls) == calls + CallOn(ctl, r, idx) + next.calls;
  }

  /** The Raw driver. */
  class RawIter<S> {
    const control: EffectiveControl<S>
    var raw: seq<RawItem>
    var itemsKept: nat

    constructor (raw: seq<RawItem>, control: EffectiveControl<S>)
      ensures this.raw == raw && this.control == control && itemsKept == 0
    {
      this.raw, this.control, itemsKept := raw, control, 0;
    }

    ghost function Ahead(): Trace<S>
      reads this, control.Footprint()
    {
      Scan(raw, control.Composed(), control.State(), itemsKept)
    }

    method Next() returns (item: Option<Result<Record, StoreError>>)
      modifies this, control.Footprint()
      ensures Peels(old(Ahead()), Ahead(), item, old(control.Calls()), control.Calls())
      ensures item.None? || item.value.Err? ==> raw == old(Ahead().rest) && control.State() == old(Ahead().state)
      ensures item.Some? ==> |raw| < |old(raw)|
    {
      ghost var before, calls := Ahead(), control.Calls();
      while raw != []
        invariant |raw| <= |old(raw)|
        invariant SameEnd(before, Ahead()) && calls + before.calls == control.Calls() + Ahead().calls
        decreases |raw|
      {
        var head := raw[0];
        raw := raw[1..];
        if head.IoError? { return Some(Err(RocksDb(head.code))); }
        DecideNext([head] + raw, control.Composed(), control.State(), itemsKept, control.Calls());
        assert ([head] + raw)[1..] == raw;
        var d := control.Decide(head.record, itemsKept);
        match d {
          case Stop => return None;
          case Skip =>
          case Keep =>
            itemsKept := itemsKept + 1;
            return Some(Ok(head.record));
        }
      }
      return None;
    }
  }

  /** The Deserialize driver. */
  class ControlledIter<S, Out> {
    const control: EffectiveControl<S>
    const deserializer: Record -> Result<Out, StoreError>
    var raw: seq<RawItem>
    var itemsKept: nat

    constructor (raw: seq<RawItem>, control: EffectiveControl<S>, deserializer: Record -> Result<Out, StoreError>)
      ensures this.raw == raw && this.control == control && this.deserializer == deserializer && itemsKept == 0
    {
      this.raw, this.control, this.deserializer, itemsKept := raw, control, deserializer, 0;
    }

    ghost function Ahead(): Trace<S>
      reads this, control.Footprint()
    {
      Scan(raw, control.Composed(), control.State(), itemsKept)
    }

    method Next() returns (item: Option<Result<Out, StoreError>>, ghost found: Option<Result<Record, StoreError>>)
      modifies this, control.Footprint()
      ensures Peels(old(Ahead()), Ahead(), found, old(control.Calls()), control.Calls())
      ensures item == match found
                      case None => None
                      case Some(Err(e)) => Some(Err(e))
                      case Some(Ok(r)) => Some(deserializer(r))
      ensures found.None? || found.value.Err? ==> raw == old(Ahead().rest) && control.State() == old(Ahead().state)
      ensures found.Some? ==> |raw| < |old(raw)|
    {
      ghost var before, calls := Ahead(), control.Calls();
      while raw != []
        invariant |raw| <= |old(raw)|
        invariant SameEnd(before, Ahead()) && calls + before.calls == control.Calls() + Ahead().calls
        decreases |raw|
      {
        var head := raw[0];
        raw := raw[1..];
        if head.IoError? { return Some(Err(RocksDb(head.code))), Some(Err(RocksDb(head.code))); }
        DecideNext([head] + raw, control.Composed(), control.State(), itemsKept, control.Calls());
        assert ([head] + raw)[1..] == raw;
        var d := control.Decide(head.record, itemsKept);
        match d {
          case Stop => return None, None;
          case Skip =>
          case Keep =>
            var deserialized := deserializer(head.record);
            itemsKept := itemsKept + 1;
            return Some(deserialized), Some(Ok(head.record));
        }
      }
      return None, None;
    }
  }

  // --- Draining ---

  /** Collecting a deserializing scan: the outputs in order, or the first failure (src/tx/optimistic_context.rs:438). */
  function Collected<Out>(kept: seq<Record>, deserializer: Record -> Result<Out, StoreError>, error: Option<int>)
    : Result<seq<Out>, StoreError>
  {
    if kept == [] then (if error.Some? then Err(RocksDb(error.value)) else Ok([]))
    else match deserializer(kept[0])
      case Err(e) => Err(e)
      case Ok(o) => Prepend([o], Collected(kept[1..], deserializer, error))
  }

  function Prepend<Out>(first: seq<Out>, rest: Result<seq<Out>, StoreError>): (r: Result<seq<Out>, StoreError>)
    ensures first == [] ==> r == rest
  {
    match rest
    case Ok(os) =>
      assert [] + os == os;
      Ok(first + os)
    case Err(e) => Err(e)
  }

  lemma {:induction false} PrependTwice<Out>(a: seq<Out>, b: seq<Out>, rest: Result<seq<Out>, StoreError>)
    ensures Prepend(a, Prepend(b, rest)) == Prepend(a + b, rest)
  {
    if rest.Ok? { assert a + (b + rest.value) == a + b + rest.value; }
  }

  /** With a deserializer that never fails, the Deserialize driver yields the image of what the Raw driver yields. */
  lemma {:induction false} DeserializedIsMappedRaw<Out>(kept: seq<Record>,
                                                        deserializer: Record -> Result<Out, StoreError>)
    requires forall r | r in kept :: deserializer(r).Ok?
    ensures var c := Collected(kept, deserializer, None);
            c.Ok? && |c.value| == |kept| && forall i | 0 <= i < |kept| :: deserializer(kept[i]) == Ok(c.value[i])
  {
    if kept != [] {
      assert kept[0] in kept;
      DeserializedIsMappedRaw(kept[1..], deserializer);
      assert forall i | 1 <= i < |kept| :: kept[i] == kept[1..][i - 1];
    }
  }

  /**
   Collecting ends with the first failure in scan order: that of the first record that does not
   deserialize, or the engine's if all records before it do.
   */
  lemma {:induction false} CollectedIsFirstFailure<Out>(kept: seq<Record>,
                                                        deserializer: Record -> Result<Out, StoreError>,
                                                        error: Option<int>, i: nat)
    requires i <= |kept| && forall j | 0 <= j < i :: deserializer(kept[j]).Ok?
    ensures i < |kept| && deserializer(kept[i]).Err? ==>
              Collected(kept, deserializer, error) == Err(deserializer(kept[i]).error)
    ensures i == |kept| && error.Some? ==> Collected(kept, deserializer, error) == Err(RocksDb(error.value))
    ensures i == |kept| && error.None? ==>
              var c := Collected(kept, deserializer, error);
              c.Ok? && |c.value| == |kept| && forall j | 0 <= j < |kept| :: deserializer(kept[j]) == Ok(c.value[j])
  {
    if i > 0 {
      CollectedIsFirstFailure(kept[1..], deserializer, error, i - 1);
    }
    if i == |kept| && error.None? {
      forall r | r in kept ensures deserializer(r).Ok? {
        var j :| 0 <= j < |kept| && kept[j] == r;
      }
      DeserializedIsMappedRaw(kept, deserializer);
    }
  }

  method CollectRaw<S>(iter: RawIter<S>) returns (r: Result<seq<Record>, StoreError>)
    modifies iter, iter.control.Footprint()
    ensures var scan := old(iter.Ahead());
            && r == (if scan.error.Some? then Err(RocksDb(scan.error.value)) else Ok(scan.kept))
            && iter.control.State() == scan.state && iter.control.Calls() == old(iter.control.Calls()) + scan.calls
  {
    var items: seq<Record> := [];
    while true
      invariant var scan := old(iter.Ahead());
                && scan.kept == items + iter.Ahead().kept && scan.state == iter.Ahead().state
                   && scan.error == iter.Ahead().error
                && old(iter.control.Calls()) + scan.calls == iter.control.Calls() + iter.Ahead().calls
      decreases |iter.raw|
    {
      var next := iter.Next();
      assert items + [] == items;
      if next.None? { return Ok(items); }
      if next.value.Err? { return Err(next.value.error); }
      items := items + [next.value.value];
    }
  }

  method CollectDeserialized<S, Out>(iter: ControlledIter<S, Out>) returns (r: Result<seq<Out>, StoreError>)
    modifies iter, iter.control.Footprint()
    ensures var scan := old(iter.Ahead());
            && r == Collected(scan.kept, iter.deserializer, scan.error)
            && (r.Ok? ==>
                  && iter.control.State() == scan.state
                  && iter.control.Calls() == old(iter.control.Calls()) + scan.calls)
  {
    var items: seq<Out> := [];
    while true
      invariant var scan := old(iter.Ahead());
                && Collected(scan.kept, iter.deserializer, scan.error)
                   == Prepend(items, Collected(iter.Ahead().kept, iter.deserializer, iter.Ahead().error))
                && scan.state == iter.Ahead().state
                && old(iter.control.Calls()) + scan.calls == iter.control.Calls() + iter.Ahead().calls
      decreases |iter.raw|
    {
      ghost var ahead := iter.Ahead();
      var next, found := iter.Next();
      assert items + [] == items;
      if next.None? { return Ok(items); }
      if next.value.Err? { return Err(next.value.error); }
      assert ahead.kept[1..] == iter.Ahead().kept;
      PrependTwice(items, [next.value.value], Collected(iter.Ahead().kept, iter.deserializer, iter.Ahead().error));
      items := items + [next.value.value];
    }
  }

  /** The ControlOnly driver. Without any control it only walks the iterator, ignoring errors. */
  method ControlOnly<S>(raw: seq<RawItem>, control: EffectiveControl<S>) returns (r: Result<(), StoreError>)
    modifies control.Footprint()
    ensures var scan := Scan(raw, control.Composed(), old(control.State()), 0);
            if control.prefix.None? && control.user.None? then r == Ok(())
            else
              && r == (if scan.error.Some? then Err(RocksDb(scan.error.value)) else Ok(()))
              && control.State() == scan.state && control.Calls() == old(control.Calls()) + scan.calls
  {
    if control.prefix.None? && control.user.None? { return Ok(()); }
    var itemsKept, i := 0, 0;
    assert raw[0..] == raw;
    ghost var scan, calls := Scan(raw, control.Composed(), control.State(), 0), control.Calls();
    while i < |raw|
      invariant 0 <= i <= |raw|
      invariant var ahead := Scan(raw[i..], control.Composed(), control.State(), itemsKept);
                scan.state == ahead.state && scan.error == ahead.error
                  && calls + scan.calls == control.Calls() + ahead.calls
    {
      assert raw[i..][0] == raw[i] && raw[i..][1..] == raw[i + 1..];
      if raw[i].IoError? { return Err(RocksDb(raw[i].code)); }
      DecideNext(raw[i..], control.Composed(), control.State(), itemsKept, control.Calls());
      var d := control.Decide(raw[i].record, itemsKept);
      i := i + 1;
      match d {
        case Stop => return Ok(());
        case Skip => continue;
        case Keep =>
      }
      itemsKept := itemsKept + 1;
    }
    return Ok(());
  }

  // --- IterationHelper::execute ---

  datatype IterationMode<!Out> = Deserialize(deserializer: Record -> Result<Out, StoreError>) | Raw | ControlEffects

  datatype IterationResult<!S, !Out> =
    | EffectCompleted
    | RawItems(raw: RawIter<S>)
    | DeserializedItems(items: ControlledIter<S, Out>)

  /** The engine's stream over the selected records; it ends with an error if the engine fails at some point. */
  function Stream(c: seq<Record>, fault: Option<nat>): seq<RawItem> {
    if fault.Some? && fault.value <= |c| then Items(c[..fault.value]) + [IoError(0)] else Items(c)
  }

  /** The whole scan that executing `config` on table `t` amounts to. */
  ghost function Requested<S>(t: seq<Record>, fault: Option<nat>, config: IterConfig, user: Option<Control<S>>,
                              s: S): Trace<S> {
    Scan(Stream(Cursor(t, Selection(config)), fault), Enforced(config.prefix, user), s, 0)
  }

  ghost function ControlOf<S>(user: Option<ControlFn<S>>): Option<Control<S>> {
    if user.Some? then Some(user.value.control) else None
  }

  method Execute<S, Out>(t: seq<Record>, fault: Option<nat>, config: IterConfig, user: Option<ControlFn<S>>, idle: S,
                         mode: IterationMode<Out>)
    returns (r: Result<IterationResult<S, Out>, StoreError>)
    modifies if user.Some? then {user.value} else {}
    ensures var scan := Requested(t, fault, config, ControlOf(user), if user.Some? then old(user.value.state)
                                  else idle);
            match mode
            case Deserialize(d) =>
              && r.Ok? && r.value.DeserializedItems? && fresh(r.value.items) && r.value.items.deserializer == d
              && r.value.items.control.user == user && r.value.items.Ahead() == scan
            case Raw =>
              r.Ok? && r.value.RawItems? && fresh(r.value.raw) && r.value.raw.control.user == user
                && r.value.raw.Ahead() == scan
            case ControlEffects =>
              if config.prefix.None? && user.None? then r == Ok(EffectCompleted)
              else
                && r == (if scan.error.Some? then Err(RocksDb(scan.error.value)) else Ok(EffectCompleted))
                && (user.Some? ==>
                      user.value.state == scan.state && user.value.calls == old(user.value.calls) + scan.calls)
  {
    var selected :=
      if config.prefix.Some? && config.start.None? then
        Cursor(t, From(config.prefix.value, false))
      else
        var mode := if config.start.Some? then From(config.start.value, config.reverse)
                    else if config.reverse then FromEnd else FromStart;
        Cursor(t, mode);
    var stream := Stream(selected, fault);
    var control := new EffectiveControl(config.prefix, user, idle);
    match mode {
      case Deserialize(d) =>
        var iter := new ControlledIter(stream, control, d);
        r := Ok(DeserializedItems(iter));
      case Raw =>
        var iter := new RawIter(stream, control);
        r := Ok(RawItems(iter));
      case ControlEffects =>
        var done := ControlOnly(stream, control);
        r := if done.Err? then Err(done.error) else Ok(EffectCompleted);
    }
  }

  /** An engine that fails before the end of the prefix is noticed, one that fails later is not. */
  lemma {:induction false} FaultedPrefixScan<S>(c: seq<Record>, prefix: Bytes, fault: Option<nat>, s: S, idx: nat)
    ensures var found := Head(c, HasPrefix(prefix));
            var scan := Scan(Stream(c, fault), Enforced(Some(prefix), None), s, idx);
            if fault.Some? && fault.value <= |found| then scan.kept == found[..fault.value] && scan.error == Some(0)
            else scan.kept == found && scan.error == None
    decreases |c|
  {
    if fault == Some(0) {
      assert Stream(c, fault) == [IoError(0)];
    } else if c != [] {
      var later := if fault.Some? then Some(fault.value - 1) else None;
      FaultedPrefixScan(c[1..], prefix, later, s, idx + 1);
      assert Stream(c, fault)[0] == Item(c[0]) && Stream(c, fault)[1..] == Stream(c[1..], later);
    }
  }

  /**
   find_by_prefix: all records carrying the prefix, deserialized, ascending even when reverse is asked
   for; if the engine fails no later than right behind them, those before the failure and the error.
   */
  method FindByPrefix<Out>(t: seq<Record>, fault: Option<nat>, prefix: Bytes, reverse: bool,
                           deserializer: Record -> Result<Out, StoreError>)
    returns (r: Result<seq<Out>, StoreError>)
    requires Sorted(t)
    ensures var found := Filter(t, HasPrefix(prefix));
            r == if fault.Some? && fault.value <= |found| then Collected(found[..fault.value], deserializer, Some(0))
                 else Collected(found, deserializer, None)
  {
    var none: Option<ControlFn<()>> := None;
    var result := Execute(t, fault, IterConfig(Some(prefix), None, reverse), none, (), Deserialize(deserializer));
    PrefixHeadIsFilter(t, prefix);
    FaultedPrefixScan(Cursor(t, From(prefix, false)), prefix, fault, (), 0);
    r := CollectDeserialized(result.value.items);
  }
}
