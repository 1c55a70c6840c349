/** Concrete runs that show what the protocol does not promise. */
module ProtocolWitnesses {
  import opened Wrappers
  import opened StoreErrors
  import opened OptimisticEngine
  import opened OptimisticProtocol

  const X := Key("cf", [0])
  const Y := Key("cf", [1])

  /** Call 1 runs to its commit between call 0's first action and its second. */
  function Interleaving(p: Program<int, int>, q: Program<int, int>): seq<Event<int, int>> {
    [Start(0, p), Act(0), Start(1, q), Act(1), Act(1), Finish(1, false), Act(0), Finish(0, false)]
  }

  /** The system after call 0's first action, after call 1's commit, and at the end. */
  function Early(s: System<int, int>, p: Program<int, int>): System<int, int> {
    Step(Step(s, Start(0, p)), Act(0))
  }

  function Middle(s: System<int, int>, q: Program<int, int>): System<int, int> {
    Step(Step(Step(Step(s, Start(1, q)), Act(1)), Act(1)), Finish(1, false))
  }

  function Late(s: System<int, int>): System<int, int> {
    Step(Step(s, Act(0)), Finish(0, false))
  }

  lemma {:induction false} RunSplit(s: System<int, int>, es: seq<Event<int, int>>, n: nat)
    requires n <= |es|
    ensures Run(s, es) == Run(Run(s, es[..n]), es[n..])
    decreases |es|
  {
    if n == |es| {
      assert es[..n] == es;
    } else {
      RunSplit(s, es[..|es| - 1], n);
      assert es[..|es| - 1][..n] == es[..n];
      assert es[..|es| - 1][n..] == es[n..][..|es[n..]| - 1];
    }
  }

  lemma {:induction false} RunTwo(s: System<int, int>, a: Event<int, int>, b: Event<int, int>)
    ensures Run(s, [a, b]) == Step(Step(s, a), b)
  {
    var es := [a, b];
    assert es[..1] == [a] && es[..1][..0] == [];
    assert Run(s, es[..1]) == Step(Run(s, es[..1][..0]), a);
  }

  lemma {:induction false} RunInterleaving(s: System<int, int>, p: Program<int, int>, q: Program<int, int>)
    ensures Run(s, Interleaving(p, q)) == Late(Middle(Early(s, p), q))
  {
    var es := Interleaving(p, q);
    RunSplit(s, es, 2);
    RunSplit(Run(s, es[..2]), es[2..], 2);
    RunSplit(Run(Run(s, es[..2]), es[2..][..2]), es[2..][2..], 2);
    assert es[..2] == [Start(0, p), Act(0)];
    assert es[2..][..2] == [Start(1, q), Act(1)];
    assert es[2..][2..][..2] == [Act(1), Finish(1, false)];
    assert es[2..][2..][2..] == [Act(0), Finish(0, false)];
    RunTwo(s, Start(0, p), Act(0));
    RunTwo(Early(s, p), Start(1, q), Act(1));
    RunTwo(Step(Step(Early(s, p), Start(1, q)), Act(1)), Act(1), Finish(1, false));
    RunTwo(Middle(Early(s, p), q), Act(0), Finish(0, false));
  }

  function ValueOr0(v: Option<int>): int {
    if v.Some? then v.value else 0
  }

  /** Read a counter, write it back plus one. */
  function Increment(k: Key): Program<int, int> {
    Program((a: seq<Option<int>>) =>
      if |a| == 0 then Read(k)
      else if |a| == 1 then Write(k, Some(ValueOr0(a[0]) + 1))
      else Done(ValueOr0(a[0]) + 1))
  }

  /** Clear `w` only while `r` still holds 1. */
  function ClearIfOther(r: Key, w: Key): Program<int, int> {
    Program((a: seq<Option<int>>) =>
      if |a| == 0 then Read(r)
      else if |a| == 1 then (if a[0] == Some(1) then Write(w, Some(0)) else Fail(Other("guard")))
      else Done(0))
  }

  function TwoCalls(data: map<Key, int>, snapshot: bool): System<int, int> {
    System(Store(data, map[], 0), [NewCall(NoRetry, snapshot), NewCall(NoRetry, snapshot)], [])
  }

  /** Call 0 starts and reads one key. */
  lemma {:induction false} EarlyReads(s: System<int, int>, p: Program<int, int>, k: Key)
    requires |s.calls| == 2 && s.calls[0].phase.Waiting? && s.log == [] && p.next([]) == Read(k)
    ensures var s' := Early(s, p);
            && s'.calls == [s.calls[0].(phase := Running(p, [Lookup(s.store.data, k)],
                                                         Begin(s.store, s.calls[0].snapshot), 0)), s.calls[1]]
            && s'.store == s.store && s'.log == []
  {
    assert [] + [Lookup(s.store.data, k)] == [Lookup(s.store.data, k)];
  }

  /** Call 1 starts, reads one key, writes `w := v` and commits with nobody else taking a step. */
  lemma {:induction false} MiddleCommits(s: System<int, int>, q: Program<int, int>, k: Key, w: Key, v: int, r: int)
    requires |s.calls| == 2 && s.calls[1].phase.Waiting? && s.log == []
    requires forall x :: LastMod(s.store, x) <= s.store.seqNo
    requires q.next([]) == Read(k)
    requires q.next([Lookup(s.store.data, k)]) == Write(w, Some(v))
             && q.next([Lookup(s.store.data, k), None]) == Done(r)
    ensures var s' := Middle(s, q);
            && s'.calls == [s.calls[0], s.calls[1].(phase := Committed(r))]
            && s'.store == Apply(s.store, map[w := Some(v)])
            && |s'.log| == 1 && s'.log[0].writes == map[w := Some(v)]
  {
    var a := Lookup(s.store.data, k);
    var s2 := Step(Step(s, Start(1, q)), Act(1));
    assert s2.calls[1].phase.answers == [a];
    var s3 := Step(s2, Act(1));
    assert s3.calls[1].phase.answers == [a, None];
    assert s3.calls[1].phase.txn.staged == map[w := Some(v)];
  }

  /** Call 0, having read, writes `w := v` and finishes: what it tracks is the snapshot, or the present without one. */
  lemma {:induction false} LateFinishes(s: System<int, int>, p: Program<int, int>, a: Option<int>, w: Key, v: int,
                                        r: int)
    requires |s.calls| == 2 && s.calls[0].policy == NoRetry
    requires s.calls[0].phase == Running(p, [a], Txn(if s.calls[0].snapshot then Some(0) else None, map[], map[]), 0)
    requires p.next([a]) == Write(w, Some(v)) && p.next([a, None]) == Done(r)
    requires s.calls[0].failures == [] && LastMod(s.store, w) <= s.store.seqNo
    ensures var s' := Late(s);
            && |s'.calls| == 2 && s'.calls[1] == s.calls[1]
            && (if s.calls[0].snapshot && LastMod(s.store, w) > 0 then
                  s'.calls[0].phase == GaveUp(CONFLICT) && s'.store == s.store && s'.log == s.log
                else
                  && s'.calls[0].phase == Committed(r) && s'.store == Apply(s.store, map[w := Some(v)])
                  && s'.log == s.log + [CommitOf(0, s.calls[0].snapshot, p, [a, None], r, map[w := Some(v)])])
  {
    var s1 := Step(s, Act(0));
    assert s1.calls[0].phase.answers == [a, None];
    assert s1.calls[0].phase.txn.staged == map[w := Some(v)];
    assert s1.calls[0].phase.txn.tracked == map[w := if s.calls[0].snapshot then 0 else s.store.seqNo];
  }

  /**
   Two increments of one counter, the second one running entirely between the first one's read
   and its write. Without the snapshot both commit and one increment is lost; with it the late one is refused.
   */
  lemma {:induction false} SnapshotFlagPreventsLostUpdate(snapshot: bool)
    ensures var s0 := TwoCalls(map[X := 0], snapshot); var s := Run(s0, Interleaving(Increment(X), Increment(X)));
            && Initial(s0)
            && s.calls[1].phase == Committed(1) && s.store.data == map[X := 1]
            && (if snapshot then s.calls[0].phase == GaveUp(CONFLICT) else s.calls[0].phase == Committed(1))
  {
    var s0, p := TwoCalls(map[X := 0], snapshot), Increment(X);
    RunInterleaving(s0, p, p);
    LostUpdateStart(s0, snapshot);
    LostUpdateFrom(Early(s0, p), snapshot);
  }

  lemma {:induction false} LostUpdateStart(s0: System<int, int>, snapshot: bool)
    requires s0 == TwoCalls(map[X := 0], snapshot)
    ensures Initial(s0)
    ensures var s1 := Early(s0, Increment(X));
            && |s1.calls| == 2 && s1.log == [] && s1.store == s0.store && s1.calls[1] == s0.calls[1]
            && s1.calls[0]
               == NewCall(NoRetry, snapshot).(phase := Running(Increment(X), [Some(0)], Begin(s0.store, snapshot), 0))
  {
    EarlyReads(s0, Increment(X), X);
  }

  lemma {:induction false} LostUpdateFrom(s1: System<int, int>, snapshot: bool)
    requires |s1.calls| == 2 && s1.log == [] && s1.store == Store(map[X := 0], map[], 0)
    requires s1.calls[0]
             == NewCall(NoRetry, snapshot).(phase := Running(Increment(X), [Some(0)], Begin(s1.store, snapshot), 0))
    requires s1.calls[1] == NewCall(NoRetry, snapshot)
    ensures var s := Late(Middle(s1, Increment(X)));
            && |s.calls| == 2 && s.calls[1].phase == Committed(1) && s.store.data == map[X := 1]
            && (if snapshot then s.calls[0].phase == GaveUp(CONFLICT) else s.calls[0].phase == Committed(1))
  {
    MiddleCommits(s1, Increment(X), X, X, 1, 1);
    LostUpdateEnd(Middle(s1, Increment(X)), snapshot);
  }

  lemma {:induction false} LostUpdateEnd(s2: System<int, int>, snapshot: bool)
    requires |s2.calls| == 2 && s2.store == Apply(Store(map[X := 0], map[], 0), map[X := Some(1)])
    requires s2.calls[0].policy == NoRetry && s2.calls[0].failures == [] && s2.calls[0].snapshot == snapshot
    requires s2.calls[0].phase == Running(Increment(X), [Some(0)], Begin(Store(map[X := 0], map[], 0), snapshot), 0)
    requires s2.calls[1].phase == Committed(1)
    ensures var s := Late(s2);
            && |s.calls| == 2 && s.calls[1].phase == Committed(1) && s.store.data == map[X := 1]
            && (if snapshot then s.calls[0].phase == GaveUp(CONFLICT) else s.calls[0].phase == Committed(1))
  {
    LateFinishes(s2, Increment(X), Some(0), X, 1, 1);
    assert s2.store.data == map[X := 1];
  }

  const SKEWED := TwoCalls(map[X := 1, Y := 1], true)

  ghost predicate BothCommitted(s: System<int, int>) {
    && |s.calls| == 2 && s.calls[0].phase == Committed(0) && s.calls[1].phase == Committed(0)
    && s.store.data == map[X := 0, Y := 0] && |s.log| == 2
    && s.log[1] == CommitOf(0, true, ClearIfOther(X, Y), [Some(1), None], 0, map[Y := Some(0)])
    && s.log[0].writes == map[X := Some(0)]
  }

  ghost predicate LastCommitFailsAlone(log: seq<Entry<int, int>>) {
    && |log| == 2 && log[1].CommitOf?
    && RunAlone(log[1].program, DataAfter(map[X := 1, Y := 1], log[..1]), |log[1].answers|) == Failed(Other("guard"))
  }

  /**
   A key that is only read is not checked: both calls take a snapshot, each reads what the other
   writes, and both commit, although run alone after the first commit the other closure fails.
   */
  lemma {:induction false} ReadOnlyKeysAreNotChecked()
    ensures Initial(SKEWED)
    ensures var s := Run(SKEWED, Interleaving(ClearIfOther(X, Y), ClearIfOther(Y, X)));
            BothCommitted(s) && LastCommitFailsAlone(s.log)
  {
    SkewRun();
    FirstEntryAlone(Run(SKEWED, Interleaving(ClearIfOther(X, Y), ClearIfOther(Y, X))));
  }

  lemma {:induction false} SkewRun()
    ensures BothCommitted(Run(SKEWED, Interleaving(ClearIfOther(X, Y), ClearIfOther(Y, X))))
  {
    RunInterleaving(SKEWED, ClearIfOther(X, Y), ClearIfOther(Y, X));
    EarlyReads(SKEWED, ClearIfOther(X, Y), X);
    WriteSkewFrom(Early(SKEWED, ClearIfOther(X, Y)));
  }

  lemma {:induction false} WriteSkewFrom(s1: System<int, int>)
    requires |s1.calls| == 2 && s1.log == [] && s1.store == Store(map[X := 1, Y := 1], map[], 0)
    requires s1.calls[0]
             == NewCall(NoRetry, true).(phase := Running(ClearIfOther(X, Y), [Some(1)], Begin(s1.store, true), 0))
    requires s1.calls[1] == NewCall(NoRetry, true)
    ensures BothCommitted(Late(Middle(s1, ClearIfOther(Y, X))))
  {
    MiddleCommits(s1, ClearIfOther(Y, X), Y, X, 0, 0);
    WriteSkewEnd(Middle(s1, ClearIfOther(Y, X)));
  }

  lemma {:induction false} WriteSkewEnd(s2: System<int, int>)
    requires |s2.calls| == 2 && s2.store == Apply(Store(map[X := 1, Y := 1], map[], 0), map[X := Some(0)])
    requires s2.calls[0].policy == NoRetry && s2.calls[0].failures == [] && s2.calls[0].snapshot
    requires s2.calls[0].phase
             == Running(ClearIfOther(X, Y), [Some(1)], Begin(Store(map[X := 1, Y := 1], map[], 0), true), 0)
    requires s2.calls[1].phase == Committed(0)
    ensures var s := Late(s2);
            && |s.calls| == 2 && s.calls[0].phase == Committed(0) && s.calls[1].phase == Committed(0)
            && s.store.data == map[X := 0, Y := 0]
            && s.log == s2.log + [CommitOf(0, true, ClearIfOther(X, Y), [Some(1), None], 0, map[Y := Some(0)])]
  {
    SkewedStore();
    LateFinishes(s2, ClearIfOther(X, Y), Some(1), Y, 0, 0);
  }

  lemma {:induction false} SkewedStore()
    ensures var st := Apply(Store(map[X := 1, Y := 1], map[], 0), map[X := Some(0)]);
            && st == Store(map[X := 0, Y := 1], map[X := 1], 1)
            && Apply(st, map[Y := Some(0)]).data == map[X := 0, Y := 0]
  {
  }

  lemma {:induction false} FirstEntryAlone(s: System<int, int>)
    requires BothCommitted(s)
    ensures LastCommitFailsAlone(s.log)
  {
    var log := s.log;
    assert log[..1][..0] == [];
    assert DataAfter(map[X := 1, Y := 1], log[..1]) == map[X := 0, Y := 1];
    ClearFailsAlone(map[X := 0, Y := 1]);
  }

  lemma {:induction false} ClearFailsAlone(db: map<Key, int>)
    requires db == map[X := 0, Y := 1]
    ensures RunAlone(ClearIfOther(X, Y), db, 2) == Failed(Other("guard"))
  {
    var p := ClearIfOther(X, Y);
    assert AloneAnswers(p, db, 0) == [];
    assert AloneAnswers(p, db, 1) == [Some(0)];
    assert AloneAnswers(p, db, 2) == [Some(0)];
  }

  // --- Reads are not of one point in time ---

  /** Read both keys and report them as the digits of one number. */
  function ReadBoth(): Program<int, int> {
    Program((a: seq<Option<int>>) =>
      if |a| == 0 then Read(X)
      else if |a| == 1 then Read(Y)
      else Done(10 * ValueOr0(a[0]) + ValueOr0(a[1])))
  }

  const PAIR: System<int, int> := System(Store(map[X := 0, Y := 0], map[], 0), [NewCall(NoRetry, true)], [])

  /** A foreign batch sets both keys between the two reads. */
  const TORN: seq<Event<int, int>> :=
    [Start(0, ReadBoth()), Act(0), Outside(map[X := Some(1), Y := Some(1)]), Act(0), Finish(0, false)]

  function TornState(n: nat): System<int, int>
    requires n <= |TORN|
  {
    if n == 0 then PAIR else Step(TornState(n - 1), TORN[n - 1])
  }

  lemma {:induction false} TornStateIsRun(n: nat)
    requires n <= |TORN|
    ensures Run(PAIR, TORN[..n]) == TornState(n)
  {
    if n > 0 {
      TornStateIsRun(n - 1);
      assert TORN[..n][..n - 1] == TORN[..n - 1];
    }
  }

  lemma {:induction false} TornReads()
    ensures TornState(1).store == PAIR.store && TornState(2).store == PAIR.store
    ensures TornState(3).store.data == map[X := 1, Y := 1] && TornState(4).store == TornState(3).store
    ensures TornState(4).calls
            == [PAIR.calls[0].(phase := Running(ReadBoth(), [Some(0), Some(1)], Begin(PAIR.store, true), 0))]
  {
    var s1, s2, s3 := TornState(1), TornState(2), TornState(3);
    assert s1 == Step(PAIR, TORN[0]) && s2 == Step(s1, TORN[1]);
    assert s2.calls[0].phase.answers == [Some(0)];
    assert s3 == Step(s2, TORN[2]);
    assert s3.store.data == map[X := 1, Y := 1];
    assert TornState(4) == Step(s3, TORN[3]);
    assert TornState(4).calls[0].phase.answers == [Some(0), Some(1)];
  }

  ghost predicate Holds(s: System<int, int>, x: int, y: int) {
    Lookup(s.store.data, X) == Some(x) && Lookup(s.store.data, Y) == Some(y)
  }

  lemma {:induction false} TornCommit(s: System<int, int>)
    requires s.store.data == map[X := 1, Y := 1]
    requires s.calls
             == [PAIR.calls[0].(phase := Running(ReadBoth(), [Some(0), Some(1)], Txn(Some(0), map[], map[]), 0))]
    ensures var s' := Step(s, Finish(0, false)); s'.store.data == s.store.data && s'.calls[0].phase == Committed(1)
  {
    assert ReadBoth().next([Some(0), Some(1)]) == Done(1);
    assert Install(s.store.data, map[]) == s.store.data;
  }

  lemma {:induction false} NeverHeld(n: nat)
    requires n <= |TORN|
    ensures !Holds(TornState(n), 0, 1)
  {
    TornReads();
    if n == |TORN| { TornCommit(TornState(4)); }
    if n == 4 || n == |TORN| {
      assert TornState(n).store.data == map[X := 1, Y := 1];
    } else {
      assert n == 0 || n == 1 || n == 2 || n == 3;
    }
  }

  /** A snapshot attempt reads X = 0 and Y = 1 and commits, although no state of the run holds both. */
  lemma {:induction false} SnapshotReadsAreNotPointInTime()
    ensures Initial(PAIR)
    ensures Run(PAIR, TORN[..4]).calls[0].phase.Running?
            && Run(PAIR, TORN[..4]).calls[0].phase.answers == [Some(0), Some(1)]
    ensures Run(PAIR, TORN[..5]).calls[0].phase == Committed(1)
    ensures forall n: nat | n <= |TORN| :: !Holds(Run(PAIR, TORN[..n]), 0, 1)
  {
    TornStateIsRun(4);
    TornStateIsRun(5);
    TornReads();
    TornCommit(TornState(4));
    forall n: nat | n <= |TORN| ensures !Holds(Run(PAIR, TORN[..n]), 0, 1) {
      TornStateIsRun(n);
      NeverHeld(n);
    }
  }
}
