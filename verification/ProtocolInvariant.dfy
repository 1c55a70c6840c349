/** The inductive invariant of the optimistic protocol and its preservation by every step. */
module ProtocolInvariant {
  import opened Wrappers
  import opened StoreErrors
  import opened OptimisticEngine
  import opened OptimisticProtocol

  // --- Histories of one closure run ---

  /** The i-th answer is one the transaction could have given. */
  predicate FeasibleAt<V(==), R>(p: Program<V, R>, answers: seq<Option<V>>, i: nat)
    requires i < |answers|
  {
    var staged := StagedBy(p, answers[..i]);
    match p.next(answers[..i])
    case Read(k) => k in staged ==> answers[i] == staged[k]
    case Write(_, _) => answers[i] == None
    case _ => false
  }

  ghost predicate Feasible<V, R>(p: Program<V, R>, answers: seq<Option<V>>) {
    forall i: nat | i < |answers| :: FeasibleAt(p, answers, i)
  }

  lemma {:induction false} PrefixAt<V, R>(p: Program<V, R>, answers: seq<Option<V>>, n: nat, i: nat)
    requires i < n <= |answers|
    ensures answers[..n][..i] == answers[..i] && answers[..n][i] == answers[i]
    ensures FeasibleAt(p, answers[..n], i) == FeasibleAt(p, answers, i)
    ensures forall k :: FromStore(p, answers[..n], i, k) == FromStore(p, answers, i, k)
  {
    assert answers[..n][..i] == answers[..i];
  }

  lemma {:induction false} FeasiblePrefix<V, R>(p: Program<V, R>, answers: seq<Option<V>>, n: nat)
    requires n <= |answers| && Feasible(p, answers)
    ensures Feasible(p, answers[..n])
  {
    forall i: nat | i < n ensures FeasibleAt(p, answers[..n], i) { PrefixAt(p, answers, n, i); }
  }

  /** Answering one more action. */
  lemma {:induction false} Extend<V, R>(p: Program<V, R>, answers: seq<Option<V>>, a: Option<V>)
    ensures forall i: nat | i < |answers| :: FeasibleAt(p, answers + [a], i) == FeasibleAt(p, answers, i)
    ensures forall i: nat, k | i < |answers| :: FromStore(p, answers + [a], i, k) == FromStore(p, answers, i, k)
    ensures (answers + [a])[..|answers|] == answers
  {
    var longer := answers + [a];
    assert longer[..|answers|] == answers;
    forall i: nat | i < |answers| ensures FeasibleAt(p, longer, i) == FeasibleAt(p, answers, i) {
      PrefixAt(p, longer, |answers|, i);
    }
    forall i: nat, k | i < |answers| ensures FromStore(p, longer, i, k) == FromStore(p, answers, i, k) {
      PrefixAt(p, longer, |answers|, i);
    }
  }

  /** Every answer the store gave is what `db` holds. */
  ghost predicate ReadsAgree<V, R>(p: Program<V, R>, answers: seq<Option<V>>, db: map<Key, V>) {
    forall i: nat, k | i < |answers| && FromStore(p, answers, i, k) :: answers[i] == Lookup(db, k)
  }

  lemma {:induction false} ReadsAgreeSnoc<V, R>(p: Program<V, R>, before: seq<Option<V>>, a: Option<V>, db: map<Key, V>)
    ensures ReadsAgree(p, before + [a], db)
            <==> ReadsAgree(p, before, db) && forall k | FromStore(p, before + [a], |before|, k) :: a == Lookup(db, k)
  {
    Extend(p, before, a);
    var longer, n := before + [a], |before|;
    if ReadsAgree(p, before, db) && forall k | FromStore(p, longer, n, k) :: a == Lookup(db, k) {
      forall i: nat, k | i <= n && FromStore(p, longer, i, k) ensures longer[i] == Lookup(db, k) {
        if i < n { assert FromStore(p, before, i, k) && longer[i] == before[i]; }
      }
    }
  }

  /** One more step alone gives the next answer exactly when that answer, if the store served it, is what `db` holds. */
  lemma {:induction false} AloneSnoc<V, R>(p: Program<V, R>, before: seq<Option<V>>, a: Option<V>, db: map<Key, V>)
    requires FeasibleAt(p, before + [a], |before|)
    ensures AloneAnswers(p, db, |before| + 1) == before + [a]
            <==> AloneAnswers(p, db, |before|) == before && forall k | FromStore(p, before + [a], |before|, k) ::
              a == Lookup(db, k)
  {
    var n := |before|;
    assert (before + [a])[..n] == before && (before + [a])[n] == a;
    var h := AloneAnswers(p, db, n);
    if h != before {
      assert |h| == n ==> AloneAnswers(p, db, n + 1)[..n] == h;
    }
  }

  /**
   A concurrent history is the history of the program run alone on `db` exactly when every read
   the store served agrees with `db`: the precise condition for a commit to be serial at its place.
   */
  lemma {:induction false} SerialIffReadsAgree<V, R>(p: Program<V, R>, answers: seq<Option<V>>, db: map<Key, V>)
    requires Feasible(p, answers)
    ensures AloneAnswers(p, db, |answers|) == answers <==> ReadsAgree(p, answers, db)
    decreases |answers|
  {
    if answers != [] {
      var n := |answers| - 1;
      FeasiblePrefix(p, answers, n);
      SerialIffReadsAgree(p, answers[..n], db);
      assert answers == answers[..n] + [answers[n]];
      assert FeasibleAt(p, answers, n);
      ReadsAgreeSnoc(p, answers[..n], answers[n], db);
      AloneSnoc(p, answers[..n], answers[n], db);
    }
  }

  // --- The invariant ---

  ghost predicate LogInv<V, R>(s0: System<V, R>, s: System<V, R>) {
    var n0 := s0.store.seqNo;
    && s.store.seqNo == n0 + |s.log|
    && s.store.data == DataAfter(s0.store.data, s.log)
    && (forall k :: LastMod(s.store, k) <= s.store.seqNo)
    && (forall i: nat, k | i < |s.log| && k in s.log[i].writes :: LastMod(s.store, k) > n0 + i)
    && (forall j: nat, k | j <= |s.log| && LastMod(s.store, k) > n0 + j :: WrittenSince(s.log, j, k))
  }

  ghost predicate WrittenSince<V, R>(log: seq<Entry<V, R>>, j: nat, k: Key) {
    exists i: nat :: j <= i < |log| && k in log[i].writes
  }

  ghost predicate RunningInv<V, R>(s0: System<V, R>, s: System<V, R>, call: Call<V, R>)
    requires call.phase.Running?
  {
    var Running(p, answers, txn, begin) := call.phase;
    var since := s0.store.seqNo + begin;
    && begin <= |s.log|
    && Feasible(p, answers)
    && txn.staged == StagedBy(p, answers)
    && txn.tracked.Keys == txn.staged.Keys
    && txn.snapshot == (if call.snapshot then Some(since) else None)
    && (forall k | k in txn.tracked :: since <= txn.tracked[k] && (call.snapshot ==> txn.tracked[k] == since))
    && (forall i: nat, k | i < |answers| && FromStore(p, answers, i, k) && LastMod(s.store, k) <= since ::
          answers[i] == Lookup(s.store.data, k))
  }

  /** A commit by somebody else, inside the attempt's window, to a key the attempt wrote. */
  ghost predicate Hits<V, R>(log: seq<Entry<V, R>>, c: nat, f: FailedAttempt, j: nat) {
    && f.begin <= j < f.end && j < |log|
    && !IsCommitOf(log[j], c)
    && exists k :: k in f.keys && k in log[j].writes
  }

  ghost predicate WasHit<V, R>(log: seq<Entry<V, R>>, c: nat, f: FailedAttempt) {
    exists j: nat :: Hits(log, c, f, j)
  }

  ghost predicate FailuresInv<V, R>(log: seq<Entry<V, R>>, c: nat, call: Call<V, R>) {
    && (forall i: nat | i < |call.failures| :: call.failures[i].begin <= call.failures[i].end <= |log|)
    && (forall i: nat, j: nat | i < j < |call.failures| :: call.failures[i].end <= call.failures[j].begin)
    && (forall i: nat | i < |call.failures| && call.phase.Running? :: call.failures[i].end <= call.phase.begin)
    && (forall i: nat | i < |call.failures| && !call.failures[i].spurious :: WasHit(log, c, call.failures[i]))
  }

  /** How far a shipped policy lets a call go; a custom one may retry for ever. */
  ghost predicate RetryInv<V, R>(call: Call<V, R>) {
    Shipped(call.policy) ==>
      if call.phase.GaveUp? then
        && |call.failures| == MaxRuns(call.policy)
        && call.phase.error == (if call.policy.NoRetry? then CONFLICT else Exhausted(call.policy.maxAttempts, CONFLICT))
      else |call.failures| < MaxRuns(call.policy)
  }

  ghost predicate CommitInv<V, R>(log: seq<Entry<V, R>>, c: nat, call: Call<V, R>) {
    && (forall j: nat | j < |log| && IsCommitOf(log[j], c) :: call.phase == Committed(log[j].result))
    && (forall i: nat, j: nat | i < j < |log| :: !(IsCommitOf(log[i], c) && IsCommitOf(log[j], c)))
    && (call.phase.Committed? ==> exists j: nat :: j < |log| && IsCommitOf(log[j], c))
  }

  ghost predicate CallInv<V, R>(s0: System<V, R>, s: System<V, R>, c: nat)
    requires c < |s.calls|
  {
    && (s.calls[c].phase.Running? ==> RunningInv(s0, s, s.calls[c]))
    && FailuresInv(s.log, c, s.calls[c])
    && RetryInv(s.calls[c])
    && CommitInv(s.log, c, s.calls[c])
  }

  /** Every answer the store gave for a key that the run also writes is what `db` holds. */
  ghost predicate WrittenReadsAgree<V, R>(p: Program<V, R>, answers: seq<Option<V>>, db: map<Key, V>) {
    forall i: nat, k | i < |answers| && FromStore(p, answers, i, k) && k in StagedBy(p, answers) ::
      answers[i] == Lookup(db, k)
  }

  /** A logged commit is a finished run; with a snapshot, what it read of the keys it wrote is what it overwrites. */
  ghost predicate EntryInv<V, R>(s0: System<V, R>, s: System<V, R>, i: nat)
    requires i < |s.log|
  {
    var e := s.log[i];
    e.CommitOf? ==>
      && e.call < |s.calls| && e.snapshot == s.calls[e.call].snapshot
      && Feasible(e.program, e.answers)
      && e.program.next(e.answers) == Done(e.result)
      && e.writes == StagedBy(e.program, e.answers)
      && (e.snapshot ==> WrittenReadsAgree(e.program, e.answers, DataAfter(s0.store.data, s.log[..i])))
  }

  ghost predicate SameCalls<V, R>(s0: System<V, R>, s: System<V, R>) {
    && |s.calls| == |s0.calls|
    && forall c: nat | c < |s.calls| ::
         s.calls[c].policy == s0.calls[c].policy && s.calls[c].snapshot == s0.calls[c].snapshot
  }

  ghost predicate Inv<V, R>(s0: System<V, R>, s: System<V, R>) {
    && SameCalls(s0, s)
    && LogInv(s0, s)
    && (forall c: nat | c < |s.calls| :: CallInv(s0, s, c))
    && (forall i: nat | i < |s.log| :: EntryInv(s0, s, i))
  }

  // --- Preservation ---

  lemma {:induction false} AppendKeepsLog<V, R>(s0: System<V, R>, s: System<V, R>, entry: Entry<V, R>)
    requires LogInv(s0, s)
    ensures LogInv(s0, Append(s, entry))
  {
    var s' := Append(s, entry);
    var n0 := s0.store.seqNo;
    assert s'.log[..|s.log|] == s.log;
    forall j: nat, k | j <= |s'.log| && LastMod(s'.store, k) > n0 + j ensures WrittenSince(s'.log, j, k) {
      if k in entry.writes {
        assert j <= |s.log| && k in s'.log[|s.log|].writes;
      } else {
        assert WrittenSince(s.log, j, k);
        var i: nat :| j <= i < |s.log| && k in s.log[i].writes;
        assert s'.log[i] == s.log[i];
      }
    }
  }

  lemma {:induction false} AppendKeepsEntries<V, R>(s0: System<V, R>, s: System<V, R>, entry: Entry<V, R>, i: nat)
    requires i < |s.log| && EntryInv(s0, s, i)
    ensures EntryInv(s0, Append(s, entry), i)
  {
    assert Append(s, entry).log[..i] == s.log[..i];
  }

  lemma {:induction false} AppendKeepsCall<V, R>(s0: System<V, R>, s: System<V, R>, entry: Entry<V, R>, c: nat)
    requires LogInv(s0, s) && c < |s.calls| && CallInv(s0, s, c)
    requires !IsCommitOf(entry, c)
    ensures CallInv(s0, Append(s, entry), c)
  {
    var s' := Append(s, entry);
    var call := s.calls[c];
    forall i: nat | i < |call.failures| && !call.failures[i].spurious
      ensures WasHit(s'.log, c, call.failures[i])
    {
      var j: nat :| Hits(s.log, c, call.failures[i], j);
      assert Hits(s'.log, c, call.failures[i], j);
    }
    if call.phase.Committed? {
      var j: nat :| j < |s.log| && IsCommitOf(s.log[j], c);
      assert IsCommitOf(s'.log[j], c);
    }
  }

  /** A step that changes one call and nothing else. */
  lemma {:induction false} CallChangeKeepsInv<V, R>(s0: System<V, R>, s: System<V, R>, s': System<V, R>, c: nat)
    requires Inv(s0, s) && c < |s.calls|
    requires s'.store == s.store && s'.log == s.log && |s'.calls| == |s.calls|
    requires forall d: nat | d < |s.calls| && d != c :: s'.calls[d] == s.calls[d]
    requires s'.calls[c].policy == s.calls[c].policy && s'.calls[c].snapshot == s.calls[c].snapshot
    requires CallInv(s0, s', c)
    ensures Inv(s0, s')
  {
    forall d: nat | d < |s'.calls| ensures CallInv(s0, s', d) { assert CallInv(s0, s, d); }
    forall i: nat | i < |s'.log| ensures EntryInv(s0, s', i) { assert EntryInv(s0, s, i); }
  }

  lemma {:induction false} StartKeepsInv<V, R>(s0: System<V, R>, s: System<V, R>, c: nat, p: Program<V, R>)
    requires Inv(s0, s) && c < |s.calls|
    ensures Inv(s0, StepStart(s, c, p))
  {
    assert CallInv(s0, s, c);
    CallChangeKeepsInv(s0, s, StepStart(s, c, p), c);
  }

  lemma {:induction false} ActKeepsRunning<V, R>(s0: System<V, R>, s: System<V, R>, c: nat)
    requires LogInv(s0, s) && c < |s.calls| && s.calls[c].phase.Running? && RunningInv(s0, s, s.calls[c])
    ensures StepAct(s, c).calls[c].phase.Running? && RunningInv(s0, StepAct(s, c), StepAct(s, c).calls[c])
  {
    var Running(p, answers, txn, begin) := s.calls[c].phase;
    var Running(_, answers', txn', _) := StepAct(s, c).calls[c].phase;
    if answers' != answers {
      var a := answers'[|answers|];
      assert answers' == answers + [a];
      Extend(p, answers, a);
      forall i: nat | i < |answers'| ensures FeasibleAt(p, answers', i) {
        if i < |answers| { assert FeasibleAt(p, answers, i); }
      }
      forall i: nat, k | i < |answers'| && FromStore(p, answers', i, k)
                         && LastMod(s.store, k) <= s0.store.seqNo + begin
        ensures answers'[i] == Lookup(s.store.data, k)
      {
        if i < |answers| { assert FromStore(p, answers, i, k); }
      }
    }
  }

  lemma {:induction false} ActKeepsInv<V, R>(s0: System<V, R>, s: System<V, R>, c: nat)
    requires Inv(s0, s) && c < |s.calls|
    ensures Inv(s0, StepAct(s, c))
  {
    if s.calls[c].phase.Running? {
      assert CallInv(s0, s, c);
      ActKeepsRunning(s0, s, c);
      var s' := StepAct(s, c);
      assert FailuresInv(s'.log, c, s'.calls[c]);
      CallChangeKeepsInv(s0, s, s', c);
    }
  }

  /** A commit that passed the check read, of every key it writes, what the store still holds. */
  lemma {:induction false} CommitSawItsKeys<V, R>(s0: System<V, R>, s: System<V, R>, c: nat)
    requires LogInv(s0, s) && c < |s.calls| && s.calls[c].phase.Running? && RunningInv(s0, s, s.calls[c])
    requires s.calls[c].snapshot && !Conflicts(s.store, s.calls[c].phase.txn)
    ensures WrittenReadsAgree(s.calls[c].phase.program, s.calls[c].phase.answers, s.store.data)
  {
    var Running(p, answers, txn, begin) := s.calls[c].phase;
    forall i: nat, k | i < |answers| && FromStore(p, answers, i, k) && k in StagedBy(p, answers)
      ensures answers[i] == Lookup(s.store.data, k)
    {
      assert k in txn.tracked;
    }
  }

  lemma {:induction false} AppendKeepsFailures<V, R>(log: seq<Entry<V, R>>, entry: Entry<V, R>, c: nat,
                                                     call: Call<V, R>)
    requires FailuresInv(log, c, call)
    ensures FailuresInv(log + [entry], c, call)
  {
    forall i: nat | i < |call.failures| && !call.failures[i].spurious
      ensures WasHit(log + [entry], c, call.failures[i])
    {
      var j: nat :| Hits(log, c, call.failures[i], j);
      assert Hits(log + [entry], c, call.failures[i], j);
    }
  }

  /** The committing call itself. */
  lemma {:induction false} OwnCommitKeepsCall<V, R>(s0: System<V, R>, s: System<V, R>, s': System<V, R>, c: nat,
                                                    entry: Entry<V, R>)
    requires c < |s.calls| && CallInv(s0, s, c) && s.calls[c].phase.Running?
    requires IsCommitOf(entry, c)
    requires s'.log == s.log + [entry] && |s'.calls| == |s.calls|
    requires s'.calls[c] == s.calls[c].(phase := Committed(entry.result))
    ensures CallInv(s0, s', c)
  {
    AppendKeepsFailures(s.log, entry, c, s.calls[c]);
    assert IsCommitOf(s'.log[|s.log|], c);
  }

  lemma {:induction false} CommitKeepsInv<V, R>(s0: System<V, R>, s: System<V, R>, c: nat)
    requires Inv(s0, s) && c < |s.calls| && s.calls[c].phase.Running?
    requires s.calls[c].phase.program.next(s.calls[c].phase.answers).Done?
    requires !Conflicts(s.store, s.calls[c].phase.txn)
    ensures Inv(s0, StepFinish(s, c, false))
  {
    var Running(p, answers, txn, begin) := s.calls[c].phase;
    var entry := CommitOf(c, s.calls[c].snapshot, p, answers, p.next(answers).result, txn.staged);
    var s1 := Append(s, entry);
    var s' := StepFinish(s, c, false);
    assert s' == SetPhase(s1, c, Committed(entry.result));
    assert CallInv(s0, s, c);
    AppendKeepsLog(s0, s, entry);
    forall d: nat | d < |s'.calls| ensures CallInv(s0, s', d) {
      if d != c {
        AppendKeepsCall(s0, s, entry, d);
        assert CallInv(s0, s1, d);
      } else {
        OwnCommitKeepsCall(s0, s, s', c, entry);
      }
    }
    forall i: nat | i < |s'.log| ensures EntryInv(s0, s', i) {
      if i < |s.log| {
        AppendKeepsEntries(s0, s, entry, i);
        assert EntryInv(s0, s1, i);
      } else {
        assert s'.log[..i] == s.log;
        if entry.snapshot { CommitSawItsKeys(s0, s, c); }
      }
    }
  }

  lemma {:induction false} FailKeepsInv<V, R>(s0: System<V, R>, s: System<V, R>, c: nat, refused: bool)
    requires Inv(s0, s) && c < |s.calls| && s.calls[c].phase.Running?
    requires s.calls[c].phase.program.next(s.calls[c].phase.answers).Done?
    requires refused || Conflicts(s.store, s.calls[c].phase.txn)
    ensures Inv(s0, StepFinish(s, c, refused))
  {
    var s' := StepFinish(s, c, refused);
    var call, call' := s.calls[c], s'.calls[c];
    assert CallInv(s0, s, c);
    FailKeepsFailures(s0, s, c, call');
    assert RetryInv(call');
    assert CommitInv(s'.log, c, call');
    CallChangeKeepsInv(s0, s, s', c);
  }

  lemma {:induction false} FailKeepsFailures<V, R>(s0: System<V, R>, s: System<V, R>, c: nat, call': Call<V, R>)
    requires LogInv(s0, s) && c < |s.calls| && CallInv(s0, s, c) && s.calls[c].phase.Running?
    requires !call'.phase.Running?
    requires var Running(_, _, txn, begin) := s.calls[c].phase;
             call'.failures == s.calls[c].failures
               + [FailedAttempt(begin, |s.log|, txn.staged.Keys, !Conflicts(s.store, txn))]
    ensures FailuresInv(s.log, c, call')
  {
    var earlier := s.calls[c].failures;
    forall i: nat | i < |call'.failures| && !call'.failures[i].spurious
      ensures WasHit(s.log, c, call'.failures[i])
    {
      if i < |earlier| {
        assert call'.failures[i] == earlier[i];
      } else {
        ConflictHasWitness(s0, s, c, call'.failures[i]);
      }
    }
  }

  lemma {:induction false} ConflictHasWitness<V, R>(s0: System<V, R>, s: System<V, R>, c: nat, f: FailedAttempt)
    requires LogInv(s0, s) && c < |s.calls| && CallInv(s0, s, c) && s.calls[c].phase.Running?
    requires Conflicts(s.store, s.calls[c].phase.txn)
    requires f.begin == s.calls[c].phase.begin && f.end == |s.log| && f.keys == s.calls[c].phase.txn.staged.Keys
    ensures WasHit(s.log, c, f)
  {
    var txn := s.calls[c].phase.txn;
    var k :| k in txn.tracked && LastMod(s.store, k) > txn.tracked[k];
    assert WrittenSince(s.log, f.begin, k);
    var j: nat :| f.begin <= j < |s.log| && k in s.log[j].writes;
    assert k in f.keys;
    assert Hits(s.log, c, f, j);
  }

  lemma {:induction false} FinishKeepsInv<V, R>(s0: System<V, R>, s: System<V, R>, c: nat, refused: bool)
    requires Inv(s0, s) && c < |s.calls|
    ensures Inv(s0, StepFinish(s, c, refused))
  {
    if s.calls[c].phase.Running? {
      var action := s.calls[c].phase.program.next(s.calls[c].phase.answers);
      if action.Done? {
        if refused || Conflicts(s.store, s.calls[c].phase.txn) {
          FailKeepsInv(s0, s, c, refused);
        } else {
          CommitKeepsInv(s0, s, c);
        }
      } else if action.Fail? {
        assert CallInv(s0, s, c);
        CallChangeKeepsInv(s0, s, StepFinish(s, c, refused), c);
      }
    }
  }

  lemma {:induction false} StepKeepsInv<V, R>(s0: System<V, R>, s: System<V, R>, e: Event<V, R>)
    requires Inv(s0, s)
    ensures Inv(s0, Step(s, e))
  {
    match e
    case Outside(writes) =>
      var entry: Entry<V, R> := Plain(writes);
      AppendKeepsLog(s0, s, entry);
      forall d: nat | d < |s.calls| ensures CallInv(s0, Append(s, entry), d) { AppendKeepsCall(s0, s, entry, d); }
      forall i: nat | i < |s.log| + 1 ensures EntryInv(s0, Append(s, entry), i) {
        if i < |s.log| { AppendKeepsEntries(s0, s, entry, i); }
      }
    case Start(c, p) => if c < |s.calls| { StartKeepsInv(s0, s, c, p); }
    case Act(c) => if c < |s.calls| { ActKeepsInv(s0, s, c); }
    case Finish(c, refused) => if c < |s.calls| { FinishKeepsInv(s0, s, c, refused); }
  }

  /** The invariant holds in every reachable state. */
  lemma {:induction false} RunKeepsInv<V, R>(s0: System<V, R>, es: seq<Event<V, R>>)
    requires Initial(s0)
    ensures Inv(s0, Run(s0, es))
    decreases |es|
  {
    if es != [] {
      RunKeepsInv(s0, es[..|es| - 1]);
      StepKeepsInv(s0, Run(s0, es[..|es| - 1]), es[|es| - 1]);
    }
  }
}
