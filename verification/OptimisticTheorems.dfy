/** What the optimistic transaction builder promises, over every run of the protocol. */
module OptimisticTheorems {
  import opened Wrappers
  import opened StoreErrors
  import opened OptimisticEngine
  import opened OptimisticProtocol
  import opened ProtocolInvariant

  // --- Serializability ---

  ghost predicate SerialEntry<V, R>(e: Entry<V, R>) {
    e.CommitOf? && e.snapshot && Covered(e.program, e.answers)
  }

  lemma {:induction false} ReplayIsInstallation<V, R>(s0: System<V, R>, s: System<V, R>, n: nat)
    requires Inv(s0, s) && n <= |s.log|
    ensures Replay(s0.store.data, s.log[..n]) == DataAfter(s0.store.data, s.log[..n])
    ensures n < |s.log| && SerialEntry(s.log[n]) ==>
              var e := s.log[n];
              RunAlone(e.program, DataAfter(s0.store.data, s.log[..n]), |e.answers|) == Finished(e.result, e.writes)
  {
    if n > 0 {
      ReplayIsInstallation(s0, s, n - 1);
      assert s.log[..n][..n - 1] == s.log[..n - 1];
    }
    if n < |s.log| && SerialEntry(s.log[n]) {
      assert EntryInv(s0, s, n);
      SerialIffReadsAgree(s.log[n].program, s.log[n].answers, DataAfter(s0.store.data, s.log[..n]));
    }
  }

  /** Re-executed alone after the serial replay of what precedes it, a commit gives its result and its writes again. */
  ghost predicate RerunsAlike<V, R>(data: map<Key, V>, log: seq<Entry<V, R>>, i: nat)
    requires i < |log| && log[i].CommitOf?
  {
    RunAlone(log[i].program, Replay(data, log[..i]), |log[i].answers|) == Finished(log[i].result, log[i].writes)
  }

  /**
   The store after any run is the serial replay of the log in commit order. Every snapshot-mode
   commit whose reads are covered by its writes, re-executed alone at its place in that order,
   finishes with the result it returned and the writes it installed concurrently.
   */
  lemma {:induction false} CommitOrderSerializability<V, R>(s0: System<V, R>, es: seq<Event<V, R>>)
    requires Initial(s0)
    ensures Run(s0, es).store.data == Replay(s0.store.data, Run(s0, es).log)
    ensures forall i: nat | i < |Run(s0, es).log| && SerialEntry(Run(s0, es).log[i]) ::
              RerunsAlike(s0.store.data, Run(s0, es).log, i)
  {
    var s := Run(s0, es);
    RunKeepsInv(s0, es);
    ReplayIsInstallation(s0, s, |s.log|);
    assert s.log[..|s.log|] == s.log;
    forall i: nat | i < |s.log| && SerialEntry(s.log[i]) ensures RerunsAlike(s0.store.data, s.log, i) {
      ReplayIsInstallation(s0, s, i);
    }
  }

  /**
   The engine lets a snapshot-mode attempt commit exactly when nobody wrote one of its staged keys
   since its begin.
   */
  lemma {:induction false} CommitDecision<V, R>(s0: System<V, R>, es: seq<Event<V, R>>, c: nat)
    requires Initial(s0) && c < |s0.calls|
    requires Run(s0, es).calls[c].snapshot && Run(s0, es).calls[c].phase.Running?
    ensures var s := Run(s0, es); var Running(_, _, txn, begin) := s.calls[c].phase;
            Conflicts(s.store, txn) <==>
            exists i: nat, k :: begin <= i < |s.log| && k in s.log[i].writes && k in txn.staged
  {
    var s := Run(s0, es);
    RunKeepsInv(s0, es);
    assert CallInv(s0, s, c);
    var Running(_, _, txn, begin) := s.calls[c].phase;
    if Conflicts(s.store, txn) {
      var k :| k in txn.tracked && LastMod(s.store, k) > txn.tracked[k];
      assert WrittenSince(s.log, begin, k);
      var i: nat :| begin <= i < |s.log| && k in s.log[i].writes;
      assert k in txn.staged;
    }
    if i: nat, k :| begin <= i < |s.log| && k in s.log[i].writes && k in txn.staged {
      assert k in txn.tracked && LastMod(s.store, k) > s0.store.seqNo + i;
    }
  }

  // --- Exactly-once effect ---

  ghost function CommitsOf<V, R>(log: seq<Entry<V, R>>, c: nat): set<nat> {
    set i: nat | i < |log| && IsCommitOf(log[i], c)
  }

  /**
   A call has one logged commit, carrying the result it returned, if it returned Ok, and none
   otherwise; and the store holds the logged batches and nothing else.
   */
  lemma {:induction false} ExactlyOnce<V, R>(s0: System<V, R>, es: seq<Event<V, R>>, c: nat)
    requires Initial(s0) && c < |s0.calls|
    ensures var s := Run(s0, es); var call := s.calls[c];
            && s.store.data == DataAfter(s0.store.data, s.log)
            && |CommitsOf(s.log, c)| == (if Returned(call) && ReturnValue(call).Ok? then 1 else 0)
            && forall i | i in CommitsOf(s.log, c) :: Returned(call) && ReturnValue(call) == Ok(s.log[i].result)
  {
    var s := Run(s0, es);
    RunKeepsInv(s0, es);
    assert CallInv(s0, s, c);
    if s.calls[c].phase.Committed? {
      var j: nat :| j < |s.log| && IsCommitOf(s.log[j], c);
      assert CommitsOf(s.log, c) == {j};
    } else {
      assert CommitsOf(s.log, c) == {};
    }
  }

  // --- Termination of the retry loop ---

  /** How many times a run has invoked the closure of call c. */
  function ClosureRuns<V, R>(s0: System<V, R>, es: seq<Event<V, R>>, c: nat): nat
    decreases |es|
  {
    if es == [] then 0 else
      var before, e := es[..|es| - 1], es[|es| - 1];
      var s := Run(s0, before);
      ClosureRuns(s0, before, c)
        + if e.Start? && e.call == c && c < |s.calls| && s.calls[c].phase.Waiting? then 1 else 0
  }

  lemma {:induction false} ClosureRunsAreAttempts<V, R>(s0: System<V, R>, es: seq<Event<V, R>>, c: nat)
    requires Initial(s0) && c < |s0.calls|
    ensures ClosureRuns(s0, es, c) == Attempts(Run(s0, es).calls[c])
    decreases |es|
  {
    if es != [] {
      ClosureRunsAreAttempts(s0, es[..|es| - 1], c);
    }
  }

  /**
   The closure runs at most max(1, max_attempts) times; giving up means all of them were used,
   and the error is then always the policy's exhaustion error (its "not a RocksDB error" branch is dead here).
   */
  lemma {:induction false} RetryTermination<V, R>(s0: System<V, R>, es: seq<Event<V, R>>, c: nat)
    requires Initial(s0) && c < |s0.calls| && Shipped(s0.calls[c].policy)
    ensures var s := Run(s0, es); var call := s.calls[c]; var policy := s0.calls[c].policy;
            && call.policy == policy
            && (policy.NoRetry? ==> ClosureRuns(s0, es, c) <= 1)
            && (policy.FixedRetry? ==>
                  ClosureRuns(s0, es, c) <= if policy.maxAttempts > 1 then policy.maxAttempts else 1)
            && ClosureRuns(s0, es, c) <= MaxRuns(policy)
            && (call.phase.GaveUp? ==>
                  && ClosureRuns(s0, es, c) == MaxRuns(policy)
                  && ClosureRuns(s0, es, c) == (if policy.FixedRetry? && policy.maxAttempts > 1 then policy.maxAttempts
                                                else 1)
                  && ReturnValue(call) == Err(if policy.NoRetry? then CONFLICT
                                              else Exhausted(policy.maxAttempts, CONFLICT)))
  {
    RunKeepsInv(s0, es);
    ClosureRunsAreAttempts(s0, es, c);
    assert CallInv(s0, Run(s0, es), c);
  }

  /** Before each retry the policy was asked about the failures so far, and agreed. */
  ghost predicate AskedSoFar<V, R>(call: Call<V, R>) {
    && (forall n: nat | 0 < n < |call.failures| :: ShouldRetry(call.policy, CONFLICT, n).Ok?)
    && (|call.failures| > 0 ==>
          if call.phase.GaveUp? then ShouldRetry(call.policy, CONFLICT, |call.failures|) == Err(call.phase.error)
          else ShouldRetry(call.policy, CONFLICT, |call.failures|).Ok?)
    && (call.phase.GaveUp? ==> |call.failures| > 0)
  }

  lemma {:induction false} PolicyIsAsked<V, R>(s0: System<V, R>, es: seq<Event<V, R>>, c: nat)
    requires Initial(s0) && c < |s0.calls|
    ensures AskedSoFar(Run(s0, es).calls[c]) && Run(s0, es).calls[c].policy == s0.calls[c].policy
    decreases |es|
  {
    if es == [] {
      assert s0.calls[c] == NewCall(s0.calls[c].policy, s0.calls[c].snapshot);
    } else {
      PolicyIsAsked(s0, es[..|es| - 1], c);
      PolicyStep(Run(s0, es[..|es| - 1]), es[|es| - 1], c);
    }
  }

  lemma {:induction false} PolicyStep<V, R>(s: System<V, R>, e: Event<V, R>, c: nat)
    requires c < |s.calls| && AskedSoFar(s.calls[c])
    ensures AskedSoFar(Step(s, e).calls[c]) && Step(s, e).calls[c].policy == s.calls[c].policy
  {
  }

  /**
   Any policy of one's own is asked with the numbers 1, 2, 3, ... of the attempts that have failed:
   a call that gives up has made exactly as many attempts as the first number that the policy
   declines, and returns the error it declined with.
   */
  lemma {:induction false} CustomPolicyDecides<V, R>(s0: System<V, R>, es: seq<Event<V, R>>, c: nat)
    requires Initial(s0) && c < |s0.calls| && s0.calls[c].policy.Custom? && Run(s0, es).calls[c].phase.GaveUp?
    ensures var decide, runs := s0.calls[c].policy.decide, ClosureRuns(s0, es, c);
            && runs > 0 && (forall n: nat | 0 < n < runs :: decide(CONFLICT, n).Ok?)
            && decide(CONFLICT, runs).Err? && ReturnValue(Run(s0, es).calls[c]) == Err(decide(CONFLICT, runs).error)
  {
    PolicyIsAsked(s0, es, c);
    ClosureRunsAreAttempts(s0, es, c);
    var call := Run(s0, es).calls[c];
    forall n: nat | 0 < n < |call.failures| ensures call.policy.decide(CONFLICT, n).Ok? {
      assert ShouldRetry(call.policy, CONFLICT, n).Ok?;
    }
  }

  lemma {:induction false} ReturnedIsFinal<V, R>(s: System<V, R>, es: seq<Event<V, R>>, c: nat)
    requires c < |s.calls| && Returned(s.calls[c])
    ensures Run(s, es).calls[c] == s.calls[c]
    decreases |es|
  {
    if es != [] { ReturnedIsFinal(s, es[..|es| - 1], c); }
  }

  /** A closure error ends the call at once: whatever happens later, it stays the result and nothing is retried. */
  lemma {:induction false} ClosureErrorEndsCall<V, R>(s: System<V, R>, c: nat, refused: bool, later: seq<Event<V, R>>)
    requires c < |s.calls| && s.calls[c].phase.Running?
    requires s.calls[c].phase.program.next(s.calls[c].phase.answers).Fail?
    ensures var e := s.calls[c].phase.program.next(s.calls[c].phase.answers).error;
            var ended := Step(s, Finish(c, refused));
            && ended.store == s.store && ended.log == s.log
            && Run(ended, later).calls[c] == s.calls[c].(phase := ClosureFailed(e))
  {
    ReturnedIsFinal(Step(s, Finish(c, refused)), later, c);
  }

  // --- Progress ---

  ghost predicate NeverRefused<V, R>(es: seq<Event<V, R>>, c: nat) {
    forall i: nat | i < |es| :: es[i] != Finish(c, true)
  }

  lemma {:induction false} FailuresAreConflicts<V, R>(s0: System<V, R>, es: seq<Event<V, R>>, c: nat)
    requires Initial(s0) && c < |s0.calls| && NeverRefused(es, c)
    ensures forall i: nat | i < |Run(s0, es).calls[c].failures| :: !Run(s0, es).calls[c].failures[i].spurious
    decreases |es|
  {
    if es != [] {
      FailuresAreConflicts(s0, es[..|es| - 1], c);
      assert es[|es| - 1] != Finish(c, true);
    }
  }

  /** The foreign log entries that hit one of the given failed attempts inside its window. */
  ghost function Conflicting<V, R>(log: seq<Entry<V, R>>, c: nat, failures: seq<FailedAttempt>): set<nat> {
    set j: nat, i: nat | i < |failures| && j < |log| && Hits(log, c, failures[i], j) :: j
  }

  ghost predicate HitInEveryWindow<V, R>(log: seq<Entry<V, R>>, c: nat, failures: seq<FailedAttempt>, n: nat) {
    && |failures| == n
    && (forall i: nat | i < n :: WasHit(log, c, failures[i]))
    && (forall i: nat, j: nat | i < j < n :: failures[i].end <= failures[j].begin)
    && |Conflicting(log, c, failures)| >= n
  }

  lemma {:induction false} OneConflictPerWindow<V, R>(log: seq<Entry<V, R>>, c: nat, call: Call<V, R>, n: nat)
    requires FailuresInv(log, c, call) && n <= |call.failures|
    requires forall i: nat | i < |call.failures| :: !call.failures[i].spurious
    ensures |Conflicting(log, c, call.failures[..n])| >= n
  {
    if n > 0 {
      OneConflictPerWindow(log, c, call, n - 1);
      var fewer, more := call.failures[..n - 1], call.failures[..n];
      assert WasHit(log, c, call.failures[n - 1]);
      var j: nat :| Hits(log, c, call.failures[n - 1], j);
      assert Hits(log, c, more[n - 1], j);
      forall x | x in Conflicting(log, c, fewer) ensures x in Conflicting(log, c, more) && x != j {
        var i: nat :| i < |fewer| && Hits(log, c, fewer[i], x);
        assert more[i] == fewer[i];
      }
      SubsetSize(Conflicting(log, c, fewer) + {j}, Conflicting(log, c, more));
    }
  }

  lemma {:induction false} SubsetSize(a: set<nat>, b: set<nat>)
    requires a <= b
    ensures |a| <= |b|
  {
    assert b == a + (b - a);
  }

  /**
   If the engine never refuses a commit without a conflict, a call that gives up was hit by at
   least max(1, max_attempts) commits of others on keys it wrote, at least one in each of its
   attempt windows, and these windows do not overlap.
   */
  lemma {:induction false} GivingUpCostsConflicts<V, R>(s0: System<V, R>, es: seq<Event<V, R>>, c: nat)
    requires Initial(s0) && c < |s0.calls| && Shipped(s0.calls[c].policy) && NeverRefused(es, c)
    requires Run(s0, es).calls[c].phase.GaveUp?
    ensures HitInEveryWindow(Run(s0, es).log, c, Run(s0, es).calls[c].failures, MaxRuns(s0.calls[c].policy))
  {
    RunKeepsInv(s0, es);
    FailuresAreConflicts(s0, es, c);
    ExhaustedCallWasHit(s0, Run(s0, es), c);
  }

  lemma {:induction false} ExhaustedCallWasHit<V, R>(s0: System<V, R>, s: System<V, R>, c: nat)
    requires Inv(s0, s) && c < |s.calls| && Shipped(s0.calls[c].policy) && s.calls[c].phase.GaveUp?
    requires forall i: nat | i < |s.calls[c].failures| :: !s.calls[c].failures[i].spurious
    ensures HitInEveryWindow(s.log, c, s.calls[c].failures, MaxRuns(s0.calls[c].policy))
  {
    var failures := s.calls[c].failures;
    assert CallInv(s0, s, c);
    OneConflictPerWindow(s.log, c, s.calls[c], |failures|);
    assert failures[..|failures|] == failures;
    var n := MaxRuns(s0.calls[c].policy);
    assert |failures| == n;
    forall i: nat | i < n ensures WasHit(s.log, c, failures[i]) {
      assert !failures[i].spurious;
    }
  }

  /** With fewer conflicting commits than attempts, a call whose closure does not fail succeeds. */
  lemma {:induction false} FewConflictsForceSuccess<V, R>(s0: System<V, R>, es: seq<Event<V, R>>, c: nat)
    requires Initial(s0) && c < |s0.calls| && Shipped(s0.calls[c].policy) && NeverRefused(es, c)
    requires Returned(Run(s0, es).calls[c])
    requires !Run(s0, es).calls[c].phase.ClosureFailed?
    requires |Conflicting(Run(s0, es).log, c, Run(s0, es).calls[c].failures)| < MaxRuns(s0.calls[c].policy)
    ensures ReturnValue(Run(s0, es).calls[c]).Ok?
  {
    if Run(s0, es).calls[c].phase.GaveUp? {
      GivingUpCostsConflicts(s0, es, c);
    }
  }

  // --- Where programs come from ---

  ghost predicate Started<V, R>(es: seq<Event<V, R>>, p: Program<V, R>) {
    exists i: nat :: i < |es| && es[i].Start? && es[i].program == p
  }

  ghost predicate Present<V, R>(s: System<V, R>, p: Program<V, R>) {
    || (exists c: nat :: c < |s.calls| && s.calls[c].phase.Running? && s.calls[c].phase.program == p)
    || (exists i: nat :: i < |s.log| && s.log[i].CommitOf? && s.log[i].program == p)
  }

  lemma {:induction false} StepAddsStartedProgram<V, R>(s: System<V, R>, e: Event<V, R>, p: Program<V, R>)
    requires Present(Step(s, e), p)
    ensures Present(s, p) || (e.Start? && e.program == p)
  {
    var s' := Step(s, e);
    if c: nat :| c < |s'.calls| && s'.calls[c].phase.Running? && s'.calls[c].phase.program == p {
      assert (s.calls[c].phase.Running? && s.calls[c].phase.program == p) || (e.Start? && e.program == p);
    } else {
      var i: nat :| i < |s'.log| && s'.log[i].CommitOf? && s'.log[i].program == p;
      if i < |s.log| {
        assert s.log[i] == s'.log[i];
      } else {
        assert s.calls[e.call].phase.Running? && s.calls[e.call].phase.program == p;
      }
    }
  }

  lemma {:induction false} ProgramsWereStarted<V, R>(s0: System<V, R>, es: seq<Event<V, R>>, p: Program<V, R>)
    requires Initial(s0) && Present(Run(s0, es), p)
    ensures Started(es, p)
    decreases |es|
  {
    if es != [] {
      var before, e := es[..|es| - 1], es[|es| - 1];
      StepAddsStartedProgram(Run(s0, before), e, p);
      if Present(Run(s0, before), p) {
        ProgramsWereStarted(s0, before, p);
        var i: nat :| i < |before| && before[i].Start? && before[i].program == p;
        assert es[i] == before[i];
      } else {
        assert es[|es| - 1] == e;
      }
    }
  }

  // --- Closures that read only what they write ---

  ghost predicate CoveredProgram<V(!new), R>(p: Program<V, R>) {
    forall answers: seq<Option<V>> | Feasible(p, answers) && p.next(answers).Done? :: Covered(p, answers)
  }

  ghost predicate AllSnapshot<V, R>(s0: System<V, R>) {
    forall c: nat | c < |s0.calls| :: s0.calls[c].snapshot
  }

  /** If every call takes a snapshot and every closure reads only keys it also writes, every commit is serial. */
  lemma {:induction false} CoveredClosuresAreSerializable<V(!new), R>(s0: System<V, R>, es: seq<Event<V, R>>)
    requires Initial(s0) && AllSnapshot(s0)
    requires forall i: nat | i < |es| && es[i].Start? :: CoveredProgram(es[i].program)
    ensures Run(s0, es).store.data == Replay(s0.store.data, Run(s0, es).log)
    ensures forall i: nat | i < |Run(s0, es).log| && Run(s0, es).log[i].CommitOf? ::
              RerunsAlike(s0.store.data, Run(s0, es).log, i)
  {
    var s := Run(s0, es);
    CommitOrderSerializability(s0, es);
    RunKeepsInv(s0, es);
    forall i: nat | i < |s.log| && s.log[i].CommitOf? ensures SerialEntry(s.log[i]) {
      CommitOfStartedProgram(s0, es, i);
    }
  }

  lemma {:induction false} CommitOfStartedProgram<V, R>(s0: System<V, R>, es: seq<Event<V, R>>, i: nat)
    requires Initial(s0) && i < |Run(s0, es).log| && Run(s0, es).log[i].CommitOf?
    ensures var e := Run(s0, es).log[i];
            Started(es, e.program) && Feasible(e.program, e.answers) && e.program.next(e.answers) == Done(e.result)
            && e.call < |s0.calls| && e.snapshot == s0.calls[e.call].snapshot
  {
    RunKeepsInv(s0, es);
    assert EntryInv(s0, Run(s0, es), i);
    assert Present(Run(s0, es), Run(s0, es).log[i].program);
    ProgramsWereStarted(s0, es, Run(s0, es).log[i].program);
  }
}
