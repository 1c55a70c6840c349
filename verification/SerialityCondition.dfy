/**
 Exactly which closures are serializable in snapshot mode, and exactly which read a single point
 in time: those whose committable histories read from the store only keys they also write.
 */
module SerialityCondition {
  import opened Wrappers
  import opened StoreErrors
  import opened OptimisticEngine
  import opened OptimisticProtocol
  import opened ProtocolInvariant
  import opened OptimisticTheorems

  /** Repeated store reads of one key that the run also writes gave one answer. */
  ghost predicate WrittenReadsRepeat<V, R>(p: Program<V, R>, h: seq<Option<V>>) {
    forall i: nat, j: nat, k | i < |h| && j < |h| && FromStore(p, h, i, k) && FromStore(p, h, j, k)
      && k in StagedBy(p, h) ::
      h[i] == h[j]
  }

  /** A history that can end in a commit under a snapshot, as far as p itself and its own keys are concerned. */
  ghost predicate Committable<V, R>(p: Program<V, R>, h: seq<Option<V>>) {
    Feasible(p, h) && p.next(h).Done? && WrittenReadsRepeat(p, h)
  }

  /** Whatever p can commit reads from the store only what it writes: a condition on the closure alone. */
  ghost predicate OnlyCoveredCommits<V(!new), R>(p: Program<V, R>) {
    forall h: seq<Option<V>> | Committable(p, h) :: Covered(p, h)
  }

  lemma {:induction false} AgreementRepeats<V, R>(p: Program<V, R>, h: seq<Option<V>>, db: map<Key, V>)
    requires WrittenReadsAgree(p, h, db)
    ensures WrittenReadsRepeat(p, h)
    ensures Covered(p, h) ==> ReadsAgree(p, h, db)
  {
    forall i: nat, j: nat, k | i < |h| && j < |h| && FromStore(p, h, i, k) && FromStore(p, h, j, k)
      && k in StagedBy(p, h)
      ensures h[i] == h[j]
    {
      assert h[i] == Lookup(db, k) && h[j] == Lookup(db, k);
    }
  }

  // --- What a commit can rely on ---

  ghost predicate Untouched<V, R>(log: seq<Entry<V, R>>, begin: nat, k: Key) {
    forall i: nat | begin <= i < |log| :: k !in log[i].writes
  }

  lemma {:induction false} UntouchedKeepsValue<V, R>(data: map<Key, V>, log: seq<Entry<V, R>>, begin: nat, k: Key)
    requires begin <= |log| && Untouched(log, begin, k)
    ensures Lookup(DataAfter(data, log), k) == Lookup(DataAfter(data, log[..begin]), k)
    decreases |log|
  {
    if begin < |log| {
      var shorter := log[..|log| - 1];
      assert shorter[..begin] == log[..begin];
      assert k !in log[|log| - 1].writes;
      UntouchedKeepsValue(data, shorter, begin, k);
    } else {
      assert log[..begin] == log;
    }
  }

  /** A store read of a key that nobody has written since the attempt began is its value at that moment. */
  lemma {:induction false} UntouchedReadsAreOfBegin<V, R>(s0: System<V, R>, es: seq<Event<V, R>>, c: nat, i: nat,
                                                          k: Key)
    requires Initial(s0) && c < |s0.calls| && Run(s0, es).calls[c].phase.Running?
    requires var Running(p, h, _, begin) := Run(s0, es).calls[c].phase;
             i < |h| && FromStore(p, h, i, k) && Untouched(Run(s0, es).log, begin, k)
    ensures var s := Run(s0, es); var Running(_, h, _, begin) := s.calls[c].phase;
            begin <= |s.log| && h[i] == Lookup(DataAfter(s0.store.data, s.log[..begin]), k)
  {
    var s := Run(s0, es);
    RunKeepsInv(s0, es);
    assert CallInv(s0, s, c);
    var begin := s.calls[c].phase.begin;
    UntouchedKeepsValue(s0.store.data, s.log, begin, k);
    assert !WrittenSince(s.log, begin, k);
  }

  /** Call c is about to commit a snapshot attempt of p, and the engine will let it. */
  ghost predicate Committing<V, R>(s: System<V, R>, c: nat, p: Program<V, R>) {
    && c < |s.calls| && s.calls[c].snapshot && s.calls[c].phase.Running? && s.calls[c].phase.program == p
    && p.next(s.calls[c].phase.answers).Done? && !Conflicts(s.store, s.calls[c].phase.txn)
  }

  /** In every snapshot commit, the reads of written keys are those of the state at the attempt's begin. */
  lemma {:induction false} CommitReadsItsKeysAtBegin<V, R>(s0: System<V, R>, es: seq<Event<V, R>>, c: nat,
                                                           p: Program<V, R>)
    requires Initial(s0) && Committing(Run(s0, es), c, p)
    ensures var s := Run(s0, es); var Running(_, h, _, begin) := s.calls[c].phase;
            begin <= |s.log| && Feasible(p, h) && WrittenReadsAgree(p, h, DataAfter(s0.store.data, s.log[..begin]))
  {
    var s := Run(s0, es);
    var Running(_, h, txn, begin) := s.calls[c].phase;
    RunKeepsInv(s0, es);
    assert CallInv(s0, s, c);
    CommitDecision(s0, es, c);
    forall i: nat, k | i < |h| && FromStore(p, h, i, k) && k in StagedBy(p, h)
      ensures h[i] == Lookup(DataAfter(s0.store.data, s.log[..begin]), k)
    {
      assert k in txn.staged;
      UntouchedReadsAreOfBegin(s0, es, c, i, k);
    }
  }

  // --- A run that commits an uncovered history ---

  /** The answers that the store gave in the first n steps, the last one of a key counting. */
  function ReadTable<V, R>(p: Program<V, R>, h: seq<Option<V>>, n: nat): map<Key, V>
    requires n <= |h|
  {
    if n == 0 then map[] else Install(ReadTable(p, h, n - 1), Served(p, h, n - 1))
  }

  /** What the store must hold for step i of h to get its answer. */
  function Served<V, R>(p: Program<V, R>, h: seq<Option<V>>, i: nat): Batch<V>
    requires i < |h|
  {
    match p.next(h[..i])
    case Read(k) => if k in StagedBy(p, h[..i]) then map[] else map[k := h[i]]
    case _ => map[]
  }

  lemma {:induction false} ReadTableAnswers<V, R>(p: Program<V, R>, h: seq<Option<V>>, n: nat, i: nat, k: Key)
    requires WrittenReadsRepeat(p, h) && i < n <= |h| && FromStore(p, h, i, k) && k in StagedBy(p, h)
    ensures Lookup(ReadTable(p, h, n), k) == h[i]
  {
    if i < n - 1 {
      ReadTableAnswers(p, h, n - 1, i, k);
      if k in Served(p, h, n - 1) { assert FromStore(p, h, n - 1, k); }
    }
  }

  lemma {:induction false} StagedGrows<V, R>(p: Program<V, R>, h: seq<Option<V>>, n: nat)
    requires n <= |h|
    ensures StagedBy(p, h[..n]).Keys <= StagedBy(p, h).Keys
    decreases |h|
  {
    if n < |h| {
      var before := h[..|h| - 1];
      assert before[..n] == h[..n];
      StagedGrows(p, before, n);
    } else {
      assert h[..n] == h;
    }
  }

  /** Another value than the one h read is stored at first; the keys that h writes hold what h reads of them. */
  function StartState<V, R>(p: Program<V, R>, h: seq<Option<V>>, k: Key, other: Option<V>): System<V, R> {
    System(Store(Install(ReadTable(p, h, |h|), map[k := other]), map[], 0), [NewCall(NoRetry, true)], [])
  }

  /** Just before each uncovered store read somebody else writes what it is to see. */
  function Delivered<V, R>(p: Program<V, R>, h: seq<Option<V>>, i: nat): Batch<V>
    requires i < |h|
  {
    map x | x in Served(p, h, i) && x !in StagedBy(p, h) :: Served(p, h, i)[x]
  }

  function Feed<V, R>(p: Program<V, R>, h: seq<Option<V>>, n: nat): seq<Event<V, R>>
    requires n <= |h|
  {
    if n == 0 then [Start(0, p)] else Feed(p, h, n - 1) + [Outside(Delivered(p, h, n - 1)), Act(0)]
  }

  /** After n steps the attempt has exactly the first n answers of h, and nobody has touched a key that h writes. */
  ghost predicate Fed<V, R>(s0: System<V, R>, s: System<V, R>, p: Program<V, R>, h: seq<Option<V>>, n: nat)
    requires n <= |h|
  {
    && |s.calls| == 1 && s.calls[0].snapshot && s.calls[0].phase.Running?
    && s.calls[0].phase.program == p && s.calls[0].phase.answers == h[..n] && s.calls[0].phase.begin == 0
    && s.calls[0].phase.txn.staged == StagedBy(p, h[..n])
    && (forall x | x in StagedBy(p, h) :: Untouched(s.log, 0, x) && Lookup(s.store.data, x) == Lookup(s0.store.data, x))
  }

  lemma {:induction false} RunTwoMore<V, R>(s: System<V, R>, es: seq<Event<V, R>>, a: Event<V, R>, b: Event<V, R>)
    ensures Run(s, es + [a, b]) == Step(Step(Run(s, es), a), b)
  {
    assert (es + [a, b])[..|es| + 1] == es + [a] && (es + [a])[..|es|] == es;
    assert Run(s, es + [a]) == Step(Run(s, es), a);
  }

  lemma {:induction false} FeedsOn<V, R>(s0: System<V, R>, s: System<V, R>, p: Program<V, R>, h: seq<Option<V>>, n: nat)
    requires n < |h| && Committable(p, h) && Fed(s0, s, p, h, n)
    requires forall i: nat, x | i < |h| && FromStore(p, h, i, x) && x in StagedBy(p, h) ::
             Lookup(s0.store.data, x) == h[i]
    ensures Fed(s0, Step(Step(s, Outside(Delivered(p, h, n))), Act(0)), p, h, n + 1)
  {
    var s1 := Step(s, Outside(Delivered(p, h, n)));
    var s2 := Step(s1, Act(0));
    assert FeasibleAt(p, h, n);
    StagedGrows(p, h, n);
    assert h[..n + 1] == h[..n] + [h[n]];
    assert h[..n + 1][..n] == h[..n];
    match p.next(h[..n]) {
      case Read(k) =>
        if k !in StagedBy(p, h[..n]) {
          assert FromStore(p, h, n, k);
          assert Lookup(s1.store.data, k) == h[n];
        }
      case _ =>
    }
    assert s2.calls[0].phase.answers == h[..n + 1];
  }

  lemma {:induction false} FeedReaches<V, R>(s0: System<V, R>, p: Program<V, R>, h: seq<Option<V>>, n: nat)
    requires n <= |h| && Committable(p, h)
    requires |s0.calls| == 1 && s0.calls[0] == NewCall(NoRetry, true) && s0.log == []
    requires forall i: nat, x | i < |h| && FromStore(p, h, i, x) && x in StagedBy(p, h) ::
             Lookup(s0.store.data, x) == h[i]
    ensures Fed(s0, Run(s0, Feed(p, h, n)), p, h, n)
  {
    if n == 0 {
      assert Feed(p, h, 0)[..0] == [];
      assert h[..0] == [];
    } else {
      FeedReaches(s0, p, h, n - 1);
      RunTwoMore(s0, Feed(p, h, n - 1), Outside(Delivered(p, h, n - 1)), Act(0));
      FeedsOn(s0, Run(s0, Feed(p, h, n - 1)), p, h, n - 1);
    }
  }

  /** h read k from the store at step j, does not write it, and could have read `other` instead. */
  ghost predicate UncoveredRead<V, R>(p: Program<V, R>, h: seq<Option<V>>, j: nat, k: Key, other: Option<V>) {
    j < |h| && FromStore(p, h, j, k) && k !in StagedBy(p, h) && other != h[j]
  }

  lemma {:induction false} StartStateIsInitial<V, R>(p: Program<V, R>, h: seq<Option<V>>, j: nat, k: Key,
                                                     other: Option<V>)
    requires Committable(p, h) && UncoveredRead(p, h, j, k, other)
    ensures var s0 := StartState(p, h, k, other);
            && Initial(s0) && AllSnapshot(s0)
            && (forall i: nat, x | i < |h| && FromStore(p, h, i, x) && x in StagedBy(p, h) ::
                Lookup(s0.store.data, x) == h[i])
            && Lookup(s0.store.data, k) == other
  {
    var s0 := StartState(p, h, k, other);
    forall i: nat, x | i < |h| && FromStore(p, h, i, x) && x in StagedBy(p, h)
      ensures Lookup(s0.store.data, x) == h[i]
    {
      ReadTableAnswers(p, h, |h|, i, x);
    }
  }

  /** That run brings the attempt to a commit the engine accepts, with a read that is not of its begin. */
  lemma {:induction false} UncoveredReadIsNotOfBegin<V, R>(p: Program<V, R>, h: seq<Option<V>>, j: nat, k: Key,
                                                           other: Option<V>)
    requires Committable(p, h) && UncoveredRead(p, h, j, k, other)
    ensures var s0 := StartState(p, h, k, other); var s := Run(s0, Feed(p, h, |h|));
            && Committing(s, 0, p) && Fed(s0, s, p, h, |h|) && s.calls[0].phase.answers == h
            && !ReadsAgree(p, h, DataAfter(s0.store.data, s.log[..s.calls[0].phase.begin]))
  {
    var s0 := StartState(p, h, k, other);
    StartStateIsInitial(p, h, j, k, other);
    FeedReaches(s0, p, h, |h|);
    assert h[..|h|] == h;
    var s := Run(s0, Feed(p, h, |h|));
    CommitDecision(s0, Feed(p, h, |h|), 0);
    assert s.log[..0] == [];
  }

  /** One more foreign write to that key just before the commit, and the commit is not serial at its place. */
  function Spoiled<V, R>(p: Program<V, R>, h: seq<Option<V>>, k: Key, other: Option<V>): seq<Event<V, R>> {
    Feed(p, h, |h|) + [Outside(map[k := other]), Finish(0, false)]
  }

  lemma {:induction false} SpoiledCommitPasses<V, R>(s0: System<V, R>, s: System<V, R>, p: Program<V, R>,
                                                     h: seq<Option<V>>,
                                                     k: Key, other: Option<V>)
    requires Inv(s0, s) && Fed(s0, s, p, h, |h|) && Committable(p, h) && k !in StagedBy(p, h)
    ensures var s1 := Step(s, Outside(map[k := other]));
            Step(s1, Finish(0, false)).log == s1.log + [CommitOf(0, true, p, h, p.next(h).result, StagedBy(p, h))]
  {
    assert h[..|h|] == h;
    assert CallInv(s0, s, 0);
    var s1 := Step(s, Outside(map[k := other]));
    var txn := s.calls[0].phase.txn;
    forall x | x in txn.tracked ensures LastMod(s1.store, x) <= txn.tracked[x] {
      assert x in StagedBy(p, h) && !WrittenSince(s.log, 0, x);
    }
  }

  /** The last entry commits p with history h, which is not what p does alone on the store just before. */
  ghost predicate EndsUnserially<V, R>(s0: System<V, R>, s: System<V, R>, p: Program<V, R>, h: seq<Option<V>>) {
    && |s.log| > 0 && s.log[|s.log| - 1].CommitOf? && p.next(h) == Done(s.log[|s.log| - 1].result)
    && s.log[|s.log| - 1] == CommitOf(0, true, p, h, s.log[|s.log| - 1].result, StagedBy(p, h))
    && AloneAnswers(p, DataAfter(s0.store.data, s.log[..|s.log| - 1]), |h|) != h
  }

  lemma {:induction false} UncoveredCommitIsNotSerial<V, R>(p: Program<V, R>, h: seq<Option<V>>, j: nat, k: Key,
                                                            other: Option<V>)
    requires Committable(p, h) && UncoveredRead(p, h, j, k, other)
    ensures Initial(StartState(p, h, k, other))
    ensures EndsUnserially(StartState(p, h, k, other), Run(StartState(p, h, k, other), Spoiled(p, h, k, other)), p, h)
  {
    var s0, es := StartState(p, h, k, other), Feed(p, h, |h|);
    var s := Run(s0, es);
    StartStateIsInitial(p, h, j, k, other);
    FeedReaches(s0, p, h, |h|);
    RunKeepsInv(s0, es);
    SpoiledCommitPasses(s0, s, p, h, k, other);
    RunTwoMore(s0, es, Outside(map[k := other]), Finish(0, false));
    var s1 := Step(s, Outside(map[k := other]));
    SpoiledReadDisagrees(s0, s, p, h, j, k, other);
    assert Run(s0, Spoiled(p, h, k, other)).log[..|s1.log|] == s1.log;
  }

  lemma {:induction false} SpoiledReadDisagrees<V, R>(s0: System<V, R>, s: System<V, R>, p: Program<V, R>,
                                                      h: seq<Option<V>>,
                                                      j: nat, k: Key, other: Option<V>)
    requires LogInv(s0, s) && Feasible(p, h) && UncoveredRead(p, h, j, k, other)
    ensures var s1 := Step(s, Outside(map[k := other]));
            AloneAnswers(p, DataAfter(s0.store.data, s1.log), |h|) != h
  {
    var s1 := Step(s, Outside(map[k := other]));
    AppendKeepsLog(s0, s, Plain(map[k := other]));
    assert Lookup(s1.store.data, k) == other;
    SerialIffReadsAgree(p, h, s1.store.data);
  }

  // --- The two exact conditions ---

  ghost predicate SerialAt<V, R>(s0: System<V, R>, s: System<V, R>, i: nat)
    requires i < |s.log| && s.log[i].CommitOf?
  {
    var e := s.log[i];
    AloneAnswers(e.program, DataAfter(s0.store.data, s.log[..i]), |e.answers|) == e.answers
  }

  ghost predicate SerialInRun<V, R>(p: Program<V, R>, s0: System<V, R>, es: seq<Event<V, R>>, i: nat) {
    var s := Run(s0, es);
    Initial(s0) && i < |s.log| && s.log[i].CommitOf? && s.log[i].snapshot && s.log[i].program == p ==>
      SerialAt(s0, s, i)
  }

  lemma {:induction false} CoveredIsSerialInRun<V(!new), R>(p: Program<V, R>, s0: System<V, R>, es: seq<Event<V, R>>,
                                                            i: nat)
    requires OnlyCoveredCommits(p)
    ensures SerialInRun(p, s0, es, i)
  {
    var s := Run(s0, es);
    if Initial(s0) && i < |s.log| && s.log[i].CommitOf? && s.log[i].snapshot && s.log[i].program == p {
      RunKeepsInv(s0, es);
      assert EntryInv(s0, s, i);
      var h, db := s.log[i].answers, DataAfter(s0.store.data, s.log[..i]);
      AgreementRepeats(p, h, db);
      assert Committable(p, h);
      SerialIffReadsAgree(p, h, db);
    }
  }

  /** Some other answer exists as soon as some value does. */
  function Otherwise<V(==)>(answer: Option<V>, value: V): Option<V> {
    if answer.None? then Some(value) else None
  }

  /**
   Every snapshot commit of p, in every run from every initial state, is serial at its place in
   commit order if and only if p commits no history that reads a key it does not write. (Were there
   no value at all to store, every read would answer None and the condition would not matter.)
   */
  lemma {:induction false} AlwaysSerialIffCovered<V(!new), R(!new)>(p: Program<V, R>, value: V)
    ensures (forall s0, es, i: nat :: SerialInRun(p, s0, es, i)) <==> OnlyCoveredCommits(p)
  {
    if OnlyCoveredCommits(p) {
      forall s0, es, i: nat ensures SerialInRun(p, s0, es, i) { CoveredIsSerialInRun(p, s0, es, i); }
    } else {
      var h :| Committable(p, h) && !Covered(p, h);
      var j: nat, k :| j < |h| && FromStore(p, h, j, k) && k !in StagedBy(p, h);
      var other := Otherwise(h[j], value);
      UncoveredCommitIsNotSerial(p, h, j, k, other);
      var s0, es := StartState(p, h, k, other), Spoiled(p, h, k, other);
      assert !SerialInRun(p, s0, es, |Run(s0, es).log| - 1);
    }
  }

  /** A snapshot attempt of p that the engine is about to commit has read one point in time: its begin. */
  ghost predicate PointInTimeInRun<V, R>(p: Program<V, R>, s0: System<V, R>, es: seq<Event<V, R>>, c: nat) {
    var s := Run(s0, es);
    Initial(s0) && Committing(s, c, p) ==>
      var Running(_, h, _, begin) := s.calls[c].phase;
      begin <= |s.log| && ReadsAgree(p, h, DataAfter(s0.store.data, s.log[..begin]))
  }

  lemma {:induction false} CoveredIsPointInTime<V(!new), R>(p: Program<V, R>, s0: System<V, R>, es: seq<Event<V, R>>,
                                                            c: nat)
    requires OnlyCoveredCommits(p)
    ensures PointInTimeInRun(p, s0, es, c)
  {
    var s := Run(s0, es);
    if Initial(s0) && Committing(s, c, p) {
      CommitReadsItsKeysAtBegin(s0, es, c, p);
      var Running(_, h, _, begin) := s.calls[c].phase;
      AgreementRepeats(p, h, DataAfter(s0.store.data, s.log[..begin]));
      assert Committable(p, h);
    }
  }

  /**
   The reads of every snapshot commit of p are all of the state at its begin if and only if p
   commits no history that reads a key it does not write: the same condition.
   */
  lemma {:induction false} AlwaysPointInTimeIffCovered<V(!new), R(!new)>(p: Program<V, R>, value: V)
    ensures (forall s0, es, c: nat :: PointInTimeInRun(p, s0, es, c)) <==> OnlyCoveredCommits(p)
  {
    if OnlyCoveredCommits(p) {
      forall s0, es, c: nat ensures PointInTimeInRun(p, s0, es, c) { CoveredIsPointInTime(p, s0, es, c); }
    } else {
      var h :| Committable(p, h) && !Covered(p, h);
      var j: nat, k :| j < |h| && FromStore(p, h, j, k) && k !in StagedBy(p, h);
      var other := Otherwise(h[j], value);
      StartStateIsInitial(p, h, j, k, other);
      UncoveredReadIsNotOfBegin(p, h, j, k, other);
      assert !PointInTimeInRun(p, StartState(p, h, k, other), Feed(p, h, |h|), 0);
    }
  }
}
