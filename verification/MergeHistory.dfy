/**
 Merge semantics (src/config.rs, src/merge.rs): what a key reads as, independently of when the
 engine folds its merge operands.
 */
module MergeHistory {
  import opened Wrappers
  import opened StoreErrors
  import opened ByteStrings

  /** A merge function: the existing value, if any, and the operands, oldest first. None is failure. */
  type MergeFn = (Option<Bytes>, seq<Bytes>) -> Option<Bytes>

  datatype MergeFns = MergeFns(full: MergeFn, partial: MergeFn)

  // --- The default functions ---

  function Flatten(operands: seq<Bytes>): Bytes {
    if operands == [] then [] else operands[0] + Flatten(operands[1..])
  }

  lemma {:induction false} FlattenAppend(xs: seq<Bytes>, ys: seq<Bytes>)
    ensures Flatten(xs + ys) == Flatten(xs) + Flatten(ys)
  {
    if xs == [] {
      assert xs + ys == ys;
    } else {
      assert (xs + ys)[1..] == xs[1..] + ys;
      FlattenAppend(xs[1..], ys);
    }
  }

  /** Concatenation onto the existing value; nothing at all stays nothing. */
  function Concatenation(existing: Option<Bytes>, operands: seq<Bytes>): Option<Bytes> {
    if existing.None? && operands == [] then None
    else Some((if existing.Some? then existing.value else []) + Flatten(operands))
  }

  method DefaultFullMerge(existing: Option<Bytes>, operands: seq<Bytes>) returns (r: Option<Bytes>)
    ensures r == Concatenation(existing, operands)
    ensures existing.Some? ==> r == Some(existing.value + Flatten(operands))
    ensures existing.None? && operands != [] ==> r == Some(Flatten(operands))
    ensures existing.None? && operands == [] ==> r == None
  {
    var result: Bytes;
    if existing.Some? {
      result := existing.value;
      for i := 0 to |operands|
        invariant result == existing.value + Flatten(operands[..i])
      {
        result := result + operands[i];
        FlattenSnoc(operands, i);
      }
      assert operands[..|operands|] == operands;
    } else {
      if operands == [] { return None; }
      result := operands[0];
      FlattenSnoc(operands, 0);
      for i := 1 to |operands|
        invariant result == Flatten(operands[..i])
      {
        result := result + operands[i];
        FlattenSnoc(operands, i);
      }
      assert operands[..|operands|] == operands;
      assert [] + result == result;
    }
    return Some(result);
  }

  lemma {:induction false} FlattenSnoc(operands: seq<Bytes>, i: nat)
    requires i < |operands|
    ensures Flatten(operands[..i + 1]) == Flatten(operands[..i]) + operands[i]
  {
    assert operands[..i + 1] == operands[..i] + [operands[i]];
    FlattenAppend(operands[..i], [operands[i]]);
    assert Flatten([operands[i]]) == operands[i];
  }

  /** The default partial merge always declines. */
  function DefaultPartial(existing: Option<Bytes>, operands: seq<Bytes>): Option<Bytes> {
    None
  }

  const DEFAULTS := MergeFns(Concatenation, DefaultPartial)

  // --- Key histories ---

  datatype History = History(base: Option<Bytes>, operands: seq<Bytes>)

  /** What clients do to one key, and what the engine does behind their back. */
  datatype KeyEvent =
    | Put(value: Bytes)
    | Delete
    | Merge(operand: Bytes)
    | FoldFull(n: nat)
    | FoldPartial(at: nat, n: nat)

  predicate IsFold(e: KeyEvent) {
    e.FoldFull? || e.FoldPartial?
  }

  /** A fold whose merge function declines, or that has nothing to fold, changes nothing. */
  function Step(fns: MergeFns, h: History, e: KeyEvent): History {
    match e
    case Put(v) => History(Some(v), [])
    case Delete => History(None, [])
    case Merge(op) => History(h.base, h.operands + [op])
    case FoldFull(n) =>
      if 0 < n <= |h.operands| && fns.full(h.base, h.operands[..n]).Some?
      then History(fns.full(h.base, h.operands[..n]), h.operands[n..])
      else h
    case FoldPartial(at, n) =>
      if 2 <= n && at + n <= |h.operands| && fns.partial(None, h.operands[at..at + n]).Some?
      then History(h.base, h.operands[..at] + [fns.partial(None, h.operands[at..at + n]).value] + h.operands[at + n..])
      else h
  }

  function Run(fns: MergeFns, h: History, es: seq<KeyEvent>): History
    decreases |es|
  {
    if es == [] then h else Step(fns, Run(fns, h, es[..|es| - 1]), es[|es| - 1])
  }

  function ReadKey(fns: MergeFns, h: History): Result<Option<Bytes>, StoreError> {
    if h.operands == [] then Ok(h.base) else
      match fns.full(h.base, h.operands)
      case Some(v) => Ok(Some(v))
      case None => Err(MergeError("merge failed"))
  }

  /** The schedule with every fold taken out. */
  function ClientOnly(es: seq<KeyEvent>): seq<KeyEvent>
    decreases |es|
  {
    if es == [] then [] else
      ClientOnly(es[..|es| - 1]) + if IsFold(es[|es| - 1]) then [] else [es[|es| - 1]]
  }

  // --- The laws ---

  /** Folding in two stages is folding at once. */
  ghost predicate StagedFold(full: MergeFn, b: Option<Bytes>, xs: seq<Bytes>, ys: seq<Bytes>) {
    xs != [] && ys != [] && full(b, xs).Some? ==> full(b, xs + ys) == full(full(b, xs), ys)
  }

  /** Among older and newer operands, one that a partial fold produced acts as those it replaces. */
  ghost predicate PartialFits(fns: MergeFns, b: Option<Bytes>, older: seq<Bytes>, xs: seq<Bytes>, newer: seq<Bytes>) {
    |xs| >= 2 && fns.partial(None, xs).Some? ==>
      fns.full(b, older + [fns.partial(None, xs).value] + newer) == fns.full(b, older + xs + newer)
  }

  ghost predicate Lawful(fns: MergeFns) {
    && (forall b, xs, ys :: StagedFold(fns.full, b, xs, ys))
    && (forall b, older, xs, newer :: PartialFits(fns, b, older, xs, newer))
  }

  /** A handler's own form of the laws: a failed stage fails the whole, and the partial law needs no context. */
  ghost predicate FailureSticks(full: MergeFn, b: Option<Bytes>, xs: seq<Bytes>, ys: seq<Bytes>) {
    xs != [] && full(b, xs).None? ==> full(b, xs + ys).None?
  }

  ghost predicate PartialActsAsFull(fns: MergeFns, b: Option<Bytes>, xs: seq<Bytes>) {
    |xs| >= 2 && fns.partial(None, xs).Some? ==> fns.full(b, [fns.partial(None, xs).value]) == fns.full(b, xs)
  }

  ghost predicate HandlerLaws(fns: MergeFns) {
    && (forall b, xs, ys :: StagedFold(fns.full, b, xs, ys))
    && (forall b, xs, ys :: FailureSticks(fns.full, b, xs, ys))
    && (forall b, xs :: PartialActsAsFull(fns, b, xs))
  }

  lemma {:induction false} HandlerLawsSuffice(fns: MergeFns)
    requires HandlerLaws(fns)
    ensures Lawful(fns)
  {
    forall b, older, xs, newer ensures PartialFits(fns, b, older, xs, newer) {
      PartialInContext(fns, b, older, xs, newer);
    }
  }

  lemma {:induction false} PartialInContext(fns: MergeFns, b: Option<Bytes>, older: seq<Bytes>, xs: seq<Bytes>,
                                            newer: seq<Bytes>)
    requires HandlerLaws(fns)
    ensures PartialFits(fns, b, older, xs, newer)
    decreases |newer|
  {
    if |xs| >= 2 && fns.partial(None, xs).Some? {
      var v := fns.partial(None, xs).value;
      if newer != [] {
        PartialInContext(fns, b, older, xs, []);
        assert older + [v] + [] == older + [v] && older + xs + [] == older + xs;
        assert StagedFold(fns.full, b, older + [v], newer) && StagedFold(fns.full, b, older + xs, newer);
        assert FailureSticks(fns.full, b, older + [v], newer) && FailureSticks(fns.full, b, older + xs, newer);
      } else if older != [] {
        assert StagedFold(fns.full, b, older, [v]) && StagedFold(fns.full, b, older, xs);
        assert FailureSticks(fns.full, b, older, [v]) && FailureSticks(fns.full, b, older, xs);
        assert PartialActsAsFull(fns, fns.full(b, older), xs);
        assert older + [v] + newer == older + [v] && older + xs + newer == older + xs;
      } else {
        assert PartialActsAsFull(fns, b, xs);
        assert older + [v] + newer == [v] && older + xs + newer == xs;
      }
    }
  }

  // --- Schedule independence ---

  /** No further operands can tell the two histories apart. */
  ghost predicate Alike(fns: MergeFns, g: History, h: History) {
    forall tail :: SameRead(fns, g, h, tail)
  }

  ghost predicate SameRead(fns: MergeFns, g: History, h: History, tail: seq<Bytes>) {
    ReadKey(fns, History(g.base, g.operands + tail)) == ReadKey(fns, History(h.base, h.operands + tail))
  }

  lemma {:induction false} FullFoldIsInvisible(fns: MergeFns, h: History, n: nat, tail: seq<Bytes>)
    requires Lawful(fns)
    ensures SameRead(fns, Step(fns, h, FoldFull(n)), h, tail)
  {
    if 0 < n <= |h.operands| && fns.full(h.base, h.operands[..n]).Some? {
      var rest := h.operands[n..] + tail;
      assert h.operands + tail == h.operands[..n] + rest;
      assert StagedFold(fns.full, h.base, h.operands[..n], rest);
      if rest == [] { assert h.operands[..n] + rest == h.operands[..n]; }
    }
  }

  lemma {:induction false} PartialFoldIsInvisible(fns: MergeFns, h: History, at: nat, n: nat, tail: seq<Bytes>)
    requires Lawful(fns)
    ensures SameRead(fns, Step(fns, h, FoldPartial(at, n)), h, tail)
  {
    if 2 <= n && at + n <= |h.operands| && fns.partial(None, h.operands[at..at + n]).Some? {
      var older, xs, newer := h.operands[..at], h.operands[at..at + n], h.operands[at + n..];
      var v := fns.partial(None, xs).value;
      assert PartialFits(fns, h.base, older, xs, newer + tail);
      assert h.operands + tail == older + xs + (newer + tail);
      assert older + [v] + newer + tail == older + [v] + (newer + tail);
    }
  }

  lemma {:induction false} ScheduleKeepsAlike(fns: MergeFns, h: History, es: seq<KeyEvent>)
    requires Lawful(fns)
    ensures Alike(fns, Run(fns, h, es), Run(fns, h, ClientOnly(es)))
    decreases |es|
  {
    if es != [] {
      var before, e := es[..|es| - 1], es[|es| - 1];
      ScheduleKeepsAlike(fns, h, before);
      var g, k := Run(fns, h, before), Run(fns, h, ClientOnly(before));
      if IsFold(e) {
        assert ClientOnly(es) == ClientOnly(before);
        forall tail ensures SameRead(fns, Step(fns, g, e), k, tail) {
          if e.FoldFull? { FullFoldIsInvisible(fns, g, e.n, tail); }
          else { PartialFoldIsInvisible(fns, g, e.at, e.n, tail); }
          assert SameRead(fns, g, k, tail);
        }
      } else {
        assert ClientOnly(es)[..|ClientOnly(before)|] == ClientOnly(before);
        forall tail ensures SameRead(fns, Step(fns, g, e), Step(fns, k, e), tail) {
          if e.Merge? {
            assert SameRead(fns, g, k, [e.operand] + tail);
            assert g.operands + [e.operand] + tail == g.operands + ([e.operand] + tail);
            assert k.operands + [e.operand] + tail == k.operands + ([e.operand] + tail);
          }
        }
      }
    }
  }

  ghost predicate FoldsInvisible(fns: MergeFns, h: History, es: seq<KeyEvent>) {
    ReadKey(fns, Run(fns, h, es)) == ReadKey(fns, Run(fns, h, ClientOnly(es)))
  }

  /** With lawful functions, the value read does not depend on when, or whether, the engine folds. */
  lemma {:induction false} ScheduleIndependence(fns: MergeFns, h: History, es: seq<KeyEvent>)
    requires Lawful(fns)
    ensures FoldsInvisible(fns, h, es)
  {
    ScheduleKeepsAlike(fns, h, es);
    var g, k := Run(fns, h, es), Run(fns, h, ClientOnly(es));
    assert SameRead(fns, g, k, []);
    assert g.operands + [] == g.operands && k.operands + [] == k.operands;
  }

  lemma {:induction false} OneFold(fns: MergeFns, h: History, e: KeyEvent)
    requires IsFold(e)
    ensures Run(fns, h, [e]) == Step(fns, h, e) && Run(fns, h, ClientOnly([e])) == h
  {
    assert [e][..0] == [];
  }

  /** The laws are not only sufficient: merge functions are schedule independent exactly when they are lawful. */
  lemma {:induction false} LawfulIffScheduleIndependent(fns: MergeFns)
    ensures Lawful(fns) <==> forall h, es :: FoldsInvisible(fns, h, es)
  {
    if Lawful(fns) {
      forall h, es ensures FoldsInvisible(fns, h, es) { ScheduleIndependence(fns, h, es); }
    } else if forall h, es :: FoldsInvisible(fns, h, es) {
      forall b, xs, ys ensures StagedFold(fns.full, b, xs, ys) {
        var h, e := History(b, xs + ys), FoldFull(|xs|);
        assert h.operands[..|xs|] == xs && h.operands[|xs|..] == ys;
        OneFold(fns, h, e);
        assert FoldsInvisible(fns, h, [e]);
      }
      forall b, older, xs, newer ensures PartialFits(fns, b, older, xs, newer) {
        var h, e := History(b, older + xs + newer), FoldPartial(|older|, |xs|);
        assert h.operands[..|older|] == older && h.operands[|older|..|older| + |xs|] == xs;
        assert h.operands[|older| + |xs|..] == newer;
        OneFold(fns, h, e);
        assert FoldsInvisible(fns, h, [e]);
      }
      assert false;
    }
  }

  // --- The default operators ---

  lemma {:induction false} DefaultsAreLawful()
    ensures Lawful(DEFAULTS)
  {
    forall b, xs, ys ensures StagedFold(DEFAULTS.full, b, xs, ys) {
      FlattenAppend(xs, ys);
      var e := if b.Some? then b.value else [];
      assert e + (Flatten(xs) + Flatten(ys)) == e + Flatten(xs) + Flatten(ys);
    }
  }

  /** The last put or delete decides the base; the merges after it are the operands. */
  function SinceLastWrite(h: History, es: seq<KeyEvent>): History
    decreases |es|
  {
    if es == [] then h else
      var before, e := es[..|es| - 1], es[|es| - 1];
      match e
      case Put(v) => History(Some(v), [])
      case Delete => History(None, [])
      case Merge(op) => History(SinceLastWrite(h, before).base, SinceLastWrite(h, before).operands + [op])
      case _ => SinceLastWrite(h, before)
  }

  /**
   Under the default operators a key reads as its base and the operands since the last put or delete,
   concatenated.
   */
  lemma {:induction false} DefaultReadsConcatenation(h: History, es: seq<KeyEvent>)
    ensures var since := SinceLastWrite(h, es);
            ReadKey(DEFAULTS, Run(DEFAULTS, h, es))
            == Ok(if since.base.Some? then Some(since.base.value + Flatten(since.operands))
                  else if since.operands != [] then Some(Flatten(since.operands))
                  else None)
  {
    DefaultsAreLawful();
    ScheduleIndependence(DEFAULTS, h, es);
    ClientOnlyIsSinceLastWrite(DEFAULTS, h, es);
    var since := SinceLastWrite(h, es);
    if since.operands == [] && since.base.Some? { assert since.base.value + [] == since.base.value; }
    if since.base.None? { assert [] + Flatten(since.operands) == Flatten(since.operands); }
  }

  /** The merges after a put, a delete or nothing at all, with the folds of the engine taken out. */
  function Merges(operands: seq<Bytes>): (es: seq<KeyEvent>)
    ensures |es| == |operands| && forall i | 0 <= i < |es| :: es[i] == Merge(operands[i])
  {
    seq(|operands|, i requires 0 <= i < |operands| => Merge(operands[i]))
  }

  lemma {:induction false} MergesAccumulate(h: History, es: seq<KeyEvent>, operands: seq<Bytes>)
    ensures var since := SinceLastWrite(h, es);
            SinceLastWrite(h, es + Merges(operands)) == History(since.base, since.operands + operands)
    decreases |operands|
  {
    var since := SinceLastWrite(h, es);
    if operands == [] {
      assert es + Merges(operands) == es && since.operands + operands == since.operands;
    } else {
      var n := |operands| - 1;
      MergesAccumulate(h, es, operands[..n]);
      var all := es + Merges(operands);
      assert all[..|all| - 1] == es + Merges(operands[..n]);
      assert since.operands + operands[..n] + [operands[n]] == since.operands + operands;
    }
  }

  /**
   In client terms: if, the engine's folds apart, the last write to a key was a put of v and then
   these operands were merged, the key reads as v followed by them; after a delete, as the operands
   alone, or absent if there are none.
   */
  lemma {:induction false} LastWriteThenMerges(h: History, es: seq<KeyEvent>, before: seq<KeyEvent>, w: KeyEvent,
                                               operands: seq<Bytes>)
    requires w.Put? || w.Delete?
    requires ClientOnly(es) == before + [w] + Merges(operands)
    ensures ReadKey(DEFAULTS, Run(DEFAULTS, h, es))
            == Ok(if w.Put? then Some(w.value + Flatten(operands))
                  else if operands == [] then None else Some(Flatten(operands)))
  {
    var client := before + [w];
    assert client[..|client| - 1] == before;
    assert SinceLastWrite(h, client) == History(if w.Put? then Some(w.value) else None, []);
    MergesAccumulate(h, client, operands);
    assert [] + operands == operands;
    ClientOnlyIsSinceLastWrite(DEFAULTS, h, es);
    FoldsDoNotWrite(h, es);
    DefaultReadsConcatenation(h, es);
  }

  lemma {:induction false} FoldsDoNotWrite(h: History, es: seq<KeyEvent>)
    ensures SinceLastWrite(h, ClientOnly(es)) == SinceLastWrite(h, es)
    decreases |es|
  {
    if es != [] {
      var before := es[..|es| - 1];
      FoldsDoNotWrite(h, before);
      if IsFold(es[|es| - 1]) {
        assert ClientOnly(es) == ClientOnly(before);
      } else {
        assert ClientOnly(es)[..|ClientOnly(before)|] == ClientOnly(before);
      }
    }
  }

  lemma {:induction false} ClientOnlyIsSinceLastWrite(fns: MergeFns, h: History, es: seq<KeyEvent>)
    ensures Run(fns, h, ClientOnly(es)) == SinceLastWrite(h, es)
    decreases |es|
  {
    if es != [] {
      var before := es[..|es| - 1];
      ClientOnlyIsSinceLastWrite(fns, h, before);
      if IsFold(es[|es| - 1]) {
        assert ClientOnly(es) == ClientOnly(before);
      } else {
        assert ClientOnly(es)[..|ClientOnly(before)|] == ClientOnly(before);
      }
    }
  }
}
