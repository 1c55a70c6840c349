/** Merge routing and the operand validators (src/merge.rs). */
module MergeRouting {
  import opened Wrappers
  import opened StoreErrors
  import opened ByteStrings
  import opened MachineWords
  import opened ExpiryCodec
  import opened MergeHistory

  type Handler = (Bytes, Option<Bytes>, seq<Bytes>) -> Option<Bytes>

  /** How `matchit` relates patterns and keys; its own rules are not part of this model. */
  datatype Matching = Matching(
    utf8: Bytes -> bool,
    matches: (set<string>, Bytes) -> Option<string>,
    conflicts: (set<string>, string) -> bool)

  /** The two static routers. */
  class MergeRouters {
    const matching: Matching
    var full: map<string, Handler>
    var partial: map<string, Handler>

    constructor (matching: Matching)
      ensures this.matching == matching && full == map[] && partial == map[]
    {
      this.matching, full, partial := matching, map[], map[];
    }

    method AddFullMergeRoute(pattern: string, handler: Handler) returns (r: Result<(), StoreError>)
      modifies this`full
      ensures r == if matching.conflicts(old(full).Keys, pattern)
                   then Err(InvalidConfiguration("Invalid full merge route pattern")) else Ok(())
      ensures full == if r.Ok? then old(full)[pattern := handler] else old(full)
    {
      if matching.conflicts(full.Keys, pattern) {
        return Err(InvalidConfiguration("Invalid full merge route pattern"));
      }
      full := full[pattern := handler];
      return Ok(());
    }

    method AddPartialMergeRoute(pattern: string, handler: Handler) returns (r: Result<(), StoreError>)
      modifies this`partial
      ensures r == if matching.conflicts(old(partial).Keys, pattern)
                   then Err(InvalidConfiguration("Invalid partial merge route pattern")) else Ok(())
      ensures partial == if r.Ok? then old(partial)[pattern := handler] else old(partial)
    {
      if matching.conflicts(partial.Keys, pattern) {
        return Err(InvalidConfiguration("Invalid partial merge route pattern"));
      }
      partial := partial[pattern := handler];
      return Ok(());
    }

    /** Not atomic: when only the partial insertion fails, the full route stays registered. */
    method AddRoute(pattern: string, fullHandler: Handler, partialHandler: Handler) returns (r: Result<(), StoreError>)
      modifies this`full, this`partial
      ensures r.Ok? ==> forall key, e, ops | RoutesTo(key, pattern) ::
                && OperatorAt(key).full(e, ops) == fullHandler(key, e, ops)
                && OperatorAt(key).partial(e, ops) == partialHandler(key, e, ops)
      ensures r.Ok? ==> forall key | RoutesTo(key, pattern) && PairLaws(fullHandler, partialHandler, key) ::
                Lawful(OperatorAt(key))
      ensures var fullFits := !matching.conflicts(old(full).Keys, pattern);
              var partialFits := !matching.conflicts(old(partial).Keys, pattern);
              && (r.Ok? <==> fullFits && partialFits)
              && full == (if fullFits then old(full)[pattern := fullHandler] else old(full))
              && partial == (if fullFits && partialFits then old(partial)[pattern := partialHandler] else old(partial))
    {
      r := AddFullMergeRoute(pattern, fullHandler);
      if r.Err? { return; }
      r := AddPartialMergeRoute(pattern, partialHandler);
      forall key | r.Ok? && RoutesTo(key, pattern) && PairLaws(fullHandler, partialHandler, key)
        ensures Lawful(OperatorAt(key))
      {
        PairIsLawful(fullHandler, partialHandler, key);
      }
    }

    /** Both tables send the key to this pattern. */
    predicate RoutesTo(key: Bytes, pattern: string)
      reads this
    {
      && matching.utf8(key)
      && matching.matches(full.Keys, key) == Some(pattern) && matching.matches(partial.Keys, key) == Some(pattern)
    }

    function Routed(routes: map<string, Handler>, key: Bytes): Option<Handler> {
      if !matching.utf8(key) then None else
        match matching.matches(routes.Keys, key)
        case Some(pattern) => if pattern in routes then Some(routes[pattern]) else None
        case None => None
    }

    /** What the registered merge operator does on one key: its routed handlers, or the defaults. */
    ghost function OperatorAt(key: Bytes): MergeFns
      reads this
    {
      Operator(Routed(full, key), Routed(partial, key), key)
    }

    /** The pattern of this table that the key is routed to. */
    predicate Matches(routes: map<string, Handler>, key: Bytes, pattern: string) {
      matching.utf8(key) && matching.matches(routes.Keys, key) == Some(pattern) && pattern in routes
    }

    method RouterFullMerge(key: Bytes, existing: Option<Bytes>, operands: seq<Bytes>) returns (r: Option<Bytes>)
      ensures r == OperatorAt(key).full(existing, operands)
      ensures forall pattern | Matches(full, key, pattern) :: r == full[pattern](key, existing, operands)
      ensures (forall pattern :: !Matches(full, key, pattern)) ==>
                r == if existing.Some? then Some(existing.value + Flatten(operands))
                     else if operands != [] then Some(Flatten(operands)) else None
    {
      var handler := Routed(full, key);
      assert handler.Some? ==> Matches(full, key, matching.matches(full.Keys, key).value);
      if handler.Some? {
        r := handler.value(key, existing, operands);
      } else {
        r := DefaultFullMerge(existing, operands);
      }
    }

    method RouterPartialMerge(key: Bytes, existing: Option<Bytes>, operands: seq<Bytes>) returns (r: Option<Bytes>)
      ensures r == OperatorAt(key).partial(existing, operands)
      ensures forall pattern | Matches(partial, key, pattern) :: r == partial[pattern](key, existing, operands)
      ensures (forall pattern :: !Matches(partial, key, pattern)) ==> r == None
    {
      var handler := Routed(partial, key);
      assert handler.Some? ==> Matches(partial, key, matching.matches(partial.Keys, key).value);
      if handler.Some? {
        r := handler.value(key, existing, operands);
      } else {
        r := DefaultPartial(existing, operands);
      }
    }
  }

  function FullAt(handler: Option<Handler>, key: Bytes): MergeFn {
    match handler
    case Some(h) => (existing, operands) => h(key, existing, operands)
    case None => Concatenation
  }

  function PartialAt(handler: Option<Handler>, key: Bytes): MergeFn {
    match handler
    case Some(h) => (existing, operands) => h(key, existing, operands)
    case None => DefaultPartial
  }

  function Operator(full: Option<Handler>, partial: Option<Handler>, key: Bytes): MergeFns {
    MergeFns(FullAt(full, key), PartialAt(partial, key))
  }

  // --- Laws of handlers ---

  ghost predicate FoldsInStages(f: Handler, key: Bytes, b: Option<Bytes>, xs: seq<Bytes>, ys: seq<Bytes>) {
    xs != [] && ys != [] && f(key, b, xs).Some? ==> f(key, b, xs + ys) == f(key, f(key, b, xs), ys)
  }

  ghost predicate FailsForGood(f: Handler, key: Bytes, b: Option<Bytes>, xs: seq<Bytes>, ys: seq<Bytes>) {
    xs != [] && f(key, b, xs).None? ==> f(key, b, xs + ys).None?
  }

  ghost predicate StandsFor(f: Handler, p: Handler, key: Bytes, b: Option<Bytes>, xs: seq<Bytes>) {
    |xs| >= 2 && p(key, None, xs).Some? ==> f(key, b, [p(key, None, xs).value]) == f(key, b, xs)
  }

  /** What a full and a partial handler of one key have to satisfy together. */
  ghost predicate PairLaws(f: Handler, p: Handler, key: Bytes) {
    && (forall b, xs, ys :: FoldsInStages(f, key, b, xs, ys))
    && (forall b, xs, ys :: FailsForGood(f, key, b, xs, ys))
    && (forall b, xs :: StandsFor(f, p, key, b, xs))
  }

  lemma {:induction false} PairIsLawful(f: Handler, p: Handler, key: Bytes)
    requires PairLaws(f, p, key)
    ensures Lawful(Operator(Some(f), Some(p), key))
  {
    var fns := Operator(Some(f), Some(p), key);
    forall b, xs, ys ensures StagedFold(fns.full, b, xs, ys) { assert FoldsInStages(f, key, b, xs, ys); }
    forall b, xs, ys ensures FailureSticks(fns.full, b, xs, ys) { assert FailsForGood(f, key, b, xs, ys); }
    forall b, xs ensures PartialActsAsFull(fns, b, xs) { assert StandsFor(f, p, key, b, xs); }
    HandlerLawsSuffice(fns);
  }

  /**
   A key routed only in the full table, or not at all, is schedule independent as soon as its full
   handler folds in stages; a partially registered route (AddRoute failing half way) is of this kind.
   */
  lemma {:induction false} FullRouteAloneIsLawful(full: Option<Handler>, key: Bytes)
    requires full.Some? ==> forall b, xs, ys :: FoldsInStages(full.value, key, b, xs, ys)
    ensures Lawful(Operator(full, None, key))
  {
    DefaultsAreLawful();
    var fns := Operator(full, None, key);
    forall b, xs, ys ensures StagedFold(fns.full, b, xs, ys) {
      assert full.None? ==> StagedFold(DEFAULTS.full, b, xs, ys);
      assert full.Some? ==> FoldsInStages(full.value, key, b, xs, ys);
    }
  }

  /** A key routed only in the partial table folds by concatenation, so its handler must concatenate or decline. */
  lemma {:induction false} PartialRouteAloneIffConcatenates(partial: Handler, key: Bytes)
    ensures Lawful(Operator(None, Some(partial), key))
            <==> forall xs: seq<Bytes> | |xs| >= 2 && partial(key, None, xs).Some? ::
              partial(key, None, xs) == Some(Flatten(xs))
  {
    var fns := Operator(None, Some(partial), key);
    if Lawful(fns) {
      forall xs: seq<Bytes> | |xs| >= 2 && partial(key, None, xs).Some?
        ensures partial(key, None, xs) == Some(Flatten(xs))
      {
        assert PartialFits(fns, None, [], xs, []);
        var v := fns.partial(None, xs).value;
        assert [] + [v] + [] == [v] && [] + xs + [] == xs;
        assert Flatten([v]) == v && [] + v == v && [] + Flatten(xs) == Flatten(xs);
      }
    } else if forall xs: seq<Bytes> | |xs| >= 2 && partial(key, None, xs).Some? ::
      partial(key, None, xs) == Some(Flatten(xs)) {
      DefaultsAreLawful();
      forall b, xs, ys ensures StagedFold(fns.full, b, xs, ys) { assert StagedFold(DEFAULTS.full, b, xs, ys); }
      forall b, older, xs, newer ensures PartialFits(fns, b, older, xs, newer) {
        if |xs| >= 2 && fns.partial(None, xs).Some? {
          var v := fns.partial(None, xs).value;
          assert Some(v) == partial(key, None, xs) == Some(Flatten(xs));
          FlattenAppend(older + [v], newer);
          FlattenAppend(older, [v]);
          FlattenAppend(older + xs, newer);
          FlattenAppend(older, xs);
          assert Flatten([v]) == v;
        }
      }
      assert false;
    }
  }

  /** What the handlers routed for a key have to satisfy, whichever tables route it. */
  ghost predicate HandlersFit(full: Option<Handler>, partial: Option<Handler>, key: Bytes) {
    match (full, partial)
    case (Some(f), Some(p)) => PairLaws(f, p, key)
    case (Some(f), None) => forall b, xs, ys :: FoldsInStages(f, key, b, xs, ys)
    case (None, Some(p)) => forall xs: seq<Bytes> | |xs| >= 2 && p(key, None, xs).Some? ::
      p(key, None, xs) == Some(Flatten(xs))
    case (None, None) => true
  }

  /** Under the registered operator, a key whose handlers fit reads the same whenever the engine folds. */
  lemma {:induction false} RoutedReadsIgnoreFolds(routers: MergeRouters, key: Bytes, h: History, es: seq<KeyEvent>)
    requires HandlersFit(routers.Routed(routers.full, key), routers.Routed(routers.partial, key), key)
    ensures Lawful(routers.OperatorAt(key)) && FoldsInvisible(routers.OperatorAt(key), h, es)
  {
    var full, partial := routers.Routed(routers.full, key), routers.Routed(routers.partial, key);
    if partial.None? {
      FullRouteAloneIsLawful(full, key);
    } else if full.None? {
      PartialRouteAloneIffConcatenates(partial.value, key);
    } else {
      PairIsLawful(full.value, partial.value, key);
    }
    ScheduleIndependence(routers.OperatorAt(key), h, es);
  }

  // --- Operand validation ---

  datatype MergeValueOperator = Add | Remove | Union | Intersect

  datatype MergeValue<Patch> = MergeValue(op: MergeValueOperator, patch: Patch)

  type Decoder<!Patch> = Bytes -> Result<MergeValue<Patch>, StoreError>

  /** Every operand decodes, and to the operator of the first. */
  ghost predicate Uniform<Patch>(operands: seq<Bytes>, decode: Decoder<Patch>) {
    && operands != []
    && forall i | 0 <= i < |operands| ::
         decode(operands[i]).Ok? && decode(operands[0]).Ok?
           && decode(operands[i]).value.op == decode(operands[0]).value.op
  }

  /** Why validation stops at operand i, all earlier ones being uniform. */
  ghost predicate StopsAt<Patch>(operands: seq<Bytes>, decode: Decoder<Patch>, i: nat, e: StoreError) {
    && i < |operands| && (i > 0 ==> Uniform(operands[..i], decode))
    && match decode(operands[i])
       case Err(d) => e == d
       case Ok(v) => i > 0 && v.op != decode(operands[0]).value.op && e == MergeError("merge lvalue != merge rvalue")
  }

  method ValidateMergeValues<Patch>(operands: seq<Bytes>, decode: Decoder<Patch>)
    returns (r: Result<seq<MergeValue<Patch>>, StoreError>)
    ensures r.Ok? <==> Uniform(operands, decode)
    ensures r.Ok? ==> |r.value| == |operands| && forall i | 0 <= i < |operands| :: decode(operands[i]) == Ok(r.value[i])
    ensures r.Err? ==> if operands == [] then r.error == Panic
                       else exists i: nat :: StopsAt(operands, decode, i, r.error)
  {
    if operands == [] { return Err(Panic); }
    var first := decode(operands[0]);
    if first.Err? {
      assert StopsAt(operands, decode, 0, first.error);
      return Err(first.error);
    }
    var values := [first.value];
    for i := 1 to |operands|
      invariant |values| == i && forall j | 0 <= j < i :: decode(operands[j]) == Ok(values[j])
      invariant forall j | 0 <= j < i :: values[j].op == first.value.op
    {
      var next := decode(operands[i]);
      if next.Err? {
        assert StopsAt(operands, decode, i, next.error);
        return Err(next.error);
      }
      if first.value.op != next.value.op {
        assert StopsAt(operands, decode, i, MergeError("merge lvalue != merge rvalue"));
        return Err(MergeError("merge lvalue != merge rvalue"));
      }
      values := values + [next.value];
    }
    return Ok(values);
  }

  /** Decoding behind the expiry header; a short operand panics. */
  function Expirable<Patch>(decode: Decoder<Patch>): Decoder<Patch> {
    (b: Bytes) => if FromSlice(b).Ok? then decode(FromSlice(b).value.raw) else Err(Panic)
  }

  ghost predicate IsLatestExpiry(operands: seq<Bytes>, t: nat) {
    && (forall i | 0 <= i < |operands| :: ExpireTime(operands[i]) <= t)
    && (exists i :: 0 <= i < |operands| && ExpireTime(operands[i]) == t)
  }

  method ValidateExpirableMergeValues<Patch>(operands: seq<Bytes>, decode: Decoder<Patch>)
    returns (r: Result<(seq<MergeValue<Patch>>, u64), StoreError>)
    ensures r.Ok? <==> Uniform(operands, Expirable(decode))
    ensures r.Ok? ==>
              && |r.value.0| == |operands|
              && (forall i | 0 <= i < |operands| :: Expirable(decode)(operands[i]) == Ok(r.value.0[i]))
              && (forall i | 0 <= i < |operands| ::
                    |operands[i]| >= 8 && decode(operands[i][8..]) == Ok(r.value.0[i]))
              && IsLatestExpiry(operands, r.value.1)
    ensures r.Err? ==> if operands == [] then r.error == Panic
                       else exists i: nat :: StopsAt(operands, Expirable(decode), i, r.error)
  {
    if operands == [] { return Err(Panic); }
    ghost var expirable := Expirable(decode);
    var head := FromVec(operands[0]);
    var first := if head.Err? then Err(head.error) else decode(head.value.raw);
    if first.Err? {
      assert StopsAt(operands, expirable, 0, first.error);
      return Err(first.error);
    }
    EncodeUndoesDecode(operands[0]);
    var expireTime := head.value.expireTime;
    var values := [first.value];
    for i := 1 to |operands|
      invariant |values| == i && forall j | 0 <= j < i :: expirable(operands[j]) == Ok(values[j])
      invariant forall j | 0 <= j < i :: values[j].op == first.value.op
      invariant forall j | 0 <= j < i :: ExpireTime(operands[j]) <= expireTime
      invariant exists j :: 0 <= j < i && ExpireTime(operands[j]) == expireTime
    {
      var rOp := FromVec(operands[i]);
      var next := if rOp.Err? then Err(rOp.error) else decode(rOp.value.raw);
      if next.Err? {
        assert StopsAt(operands, expirable, i, next.error);
        return Err(next.error);
      }
      EncodeUndoesDecode(operands[i]);
      if expireTime < rOp.value.expireTime { expireTime := rOp.value.expireTime; }
      if first.value.op != next.value.op {
        assert StopsAt(operands, expirable, i, MergeError("merge lvalue != merge rvalue"));
        return Err(MergeError("merge lvalue != merge rvalue"));
      }
      values := values + [next.value];
    }
    forall i | 0 <= i < |operands| ensures |operands[i]| >= 8 && decode(operands[i][8..]) == Ok(values[i]) {
      EncodeUndoesDecode(operands[i]);
      assert expirable(operands[i]) == Ok(values[i]);
    }
    return Ok((values, expireTime));
  }

  /**
   Validation distributes over any split into nonempty parts: the whole is accepted exactly when
   both parts are, with one operator, and its expiry is the later of the two.
   */
  lemma {:induction false} ValidationSplits<Patch>(xs: seq<Bytes>, ys: seq<Bytes>, decode: Decoder<Patch>, s: nat,
                                                   t: nat)
    requires xs != [] && ys != []
    ensures Uniform(xs + ys, decode)
            <==> Uniform(xs, decode) && Uniform(ys, decode) && decode(xs[0]).value.op == decode(ys[0]).value.op
    ensures IsLatestExpiry(xs, s) && IsLatestExpiry(ys, t) ==> IsLatestExpiry(xs + ys, if s < t then t else s)
  {
    var all := xs + ys;
    assert forall i | 0 <= i < |ys| :: all[|xs| + i] == ys[i];
    if Uniform(all, decode) {
      assert forall i | 0 <= i < |xs| :: all[i] == xs[i];
    }
    if IsLatestExpiry(xs, s) && IsLatestExpiry(ys, t) {
      var i :| 0 <= i < |xs| && ExpireTime(xs[i]) == s;
      var j :| 0 <= j < |ys| && ExpireTime(ys[j]) == t;
      assert all[i] == xs[i] && all[|xs| + j] == ys[j];
    }
  }
}
