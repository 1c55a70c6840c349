/**
 Any number of optimistic calls (src/tx/optimistic.rs) and plain writers as interleaved steps
 over one versioned store. A step that is not enabled leaves the system unchanged, so every
 list of events is a run.
 */
module OptimisticProtocol {
  import opened Wrappers
  import opened StoreErrors
  import opened OptimisticEngine

  // --- The user closure ---

  datatype Action<V, R> =
    | Read(key: Key)
    | Write(key: Key, value: Option<V>)
    | Done(result: R)
    | Fail(error: StoreError)

  /** What one run of the closure does next, given the answers so far (a write is answered with None). */
  datatype Program<!V, !R> = Program(next: seq<Option<V>> -> Action<V, R>)

  function StagedBy<V, R>(p: Program<V, R>, answers: seq<Option<V>>): Batch<V>
    decreases |answers|
  {
    if answers == [] then map[] else
      var before := answers[..|answers| - 1];
      match p.next(before)
      case Write(k, v) => StagedBy(p, before)[k := v]
      case _ => StagedBy(p, before)
  }

  /** The i-th answer is a read of k that the committed store, not the transaction, served. */
  predicate FromStore<V, R>(p: Program<V, R>, answers: seq<Option<V>>, i: nat, k: Key)
    requires i < |answers|
  {
    p.next(answers[..i]) == Read(k) && k !in StagedBy(p, answers[..i])
  }

  /** Every key the run read from the store is also written by it. */
  ghost predicate Covered<V, R>(p: Program<V, R>, answers: seq<Option<V>>) {
    forall i: nat, k | i < |answers| && FromStore(p, answers, i, k) :: k in StagedBy(p, answers)
  }

  /** The run of a program alone on `db`: the answers to its first n actions, fewer if it stops. */
  function AloneAnswers<V, R>(p: Program<V, R>, db: map<Key, V>, n: nat): (h: seq<Option<V>>)
    ensures |h| <= n
  {
    if n == 0 then [] else
      var h := AloneAnswers(p, db, n - 1);
      if |h| < n - 1 then h else
        match p.next(h)
        case Read(k) => h + [View(db, StagedBy(p, h), k)]
        case Write(_, _) => h + [None]
        case _ => h
  }

  datatype Outcome<V, R> = Finished(result: R, writes: Batch<V>) | Failed(error: StoreError) | Unfinished

  function RunAlone<V, R>(p: Program<V, R>, db: map<Key, V>, n: nat): Outcome<V, R> {
    var h := AloneAnswers(p, db, n);
    match p.next(h)
    case Done(r) => Finished(r, StagedBy(p, h))
    case Fail(e) => Failed(e)
    case _ => Unfinished
  }

  // --- Retry policies ---

  /** The two shipped policies, and any implementation of the public `RetryPolicy` trait. */
  datatype Policy =
    | FixedRetry(maxAttempts: nat)
    | NoRetry
    | Custom(decide: (StoreError, nat) -> Result<(), StoreError>)

  predicate Shipped(policy: Policy) {
    !policy.Custom?
  }

  /** Ok asks for another attempt; `attempt` counts from 1. */
  function ShouldRetry(policy: Policy, error: StoreError, attempt: nat): Result<(), StoreError> {
    match policy
    case NoRetry => Err(error)
    case FixedRetry(max) =>
      if attempt >= max then Err(Exhausted(max, error))
      else if error.RocksDb? then Ok(())
      else Err(error)
    case Custom(decide) => decide(error, attempt)
  }

  // --- Calls ---

  /** A failed attempt: the log positions of its begin and of its refused commit, and the keys it wrote. */
  datatype FailedAttempt = FailedAttempt(begin: nat, end: nat, keys: set<Key>, spurious: bool)

  datatype Phase<!V, !R> =
    | Waiting
    | Running(program: Program<V, R>, answers: seq<Option<V>>, txn: Txn<V>, begin: nat)
    | Committed(result: R)
    | ClosureFailed(error: StoreError)
    | GaveUp(error: StoreError)

  datatype Call<!V, !R> = Call(policy: Policy, snapshot: bool, phase: Phase<V, R>, failures: seq<FailedAttempt>)

  function NewCall<V, R>(policy: Policy, snapshot: bool): Call<V, R> {
    Call(policy, snapshot, Waiting, [])
  }

  predicate Returned<V, R>(call: Call<V, R>) {
    call.phase.Committed? || call.phase.ClosureFailed? || call.phase.GaveUp?
  }

  /** What the builder hands back to its caller once it has returned. */
  function ReturnValue<V, R>(call: Call<V, R>): Result<R, StoreError>
    requires Returned(call)
  {
    match call.phase
    case Committed(r) => Ok(r)
    case ClosureFailed(e) => Err(e)
    case GaveUp(e) => Err(e)
  }

  /** How often the closure has been started. */
  function Attempts<V, R>(call: Call<V, R>): nat {
    |call.failures| + if call.phase.Waiting? || call.phase.GaveUp? then 0 else 1
  }

  function MaxRuns(policy: Policy): nat
    requires Shipped(policy)
  {
    if policy.FixedRetry? && policy.maxAttempts > 1 then policy.maxAttempts else 1
  }

  // --- The system ---

  datatype Entry<!V, !R> =
    | CommitOf(call: nat, snapshot: bool, program: Program<V, R>, answers: seq<Option<V>>, result: R, writes: Batch<V>)
    | Plain(writes: Batch<V>)

  datatype System<!V, !R> = System(store: Store<V>, calls: seq<Call<V, R>>, log: seq<Entry<V, R>>)

  datatype Event<!V, !R> =
    | Start(call: nat, program: Program<V, R>)
    | Act(call: nat)
    | Finish(call: nat, refused: bool)
    | Outside(writes: Batch<V>)

  const CONFLICT := RocksDb(0)

  function Append<V, R>(s: System<V, R>, entry: Entry<V, R>): System<V, R> {
    s.(store := Apply(s.store, entry.writes), log := s.log + [entry])
  }

  function SetPhase<V, R>(s: System<V, R>, c: nat, phase: Phase<V, R>): System<V, R>
    requires c < |s.calls|
  {
    s.(calls := s.calls[c := s.calls[c].(phase := phase)])
  }

  /** Each attempt gets a fresh transaction; the closure may behave differently on each call. */
  function StepStart<V, R>(s: System<V, R>, c: nat, p: Program<V, R>): System<V, R>
    requires c < |s.calls|
  {
    if !s.calls[c].phase.Waiting? then s
    else SetPhase(s, c, Running(p, [], Begin(s.store, s.calls[c].snapshot), |s.log|))
  }

  function StepAct<V, R>(s: System<V, R>, c: nat): System<V, R>
    requires c < |s.calls|
  {
    if !s.calls[c].phase.Running? then s else
      var Running(p, answers, txn, begin) := s.calls[c].phase;
      match p.next(answers)
      case Read(k) => SetPhase(s, c, Running(p, answers + [View(s.store.data, txn.staged, k)], txn, begin))
      case Write(k, v) => SetPhase(s, c, Running(p, answers + [None], Stage(s.store, txn, k, v), begin))
      case _ => s
  }

  /** The closure has returned: commit and, if the engine refuses, ask the policy. */
  function StepFinish<V, R>(s: System<V, R>, c: nat, refused: bool): System<V, R>
    requires c < |s.calls|
  {
    if !s.calls[c].phase.Running? then s else
      var Running(p, answers, txn, begin) := s.calls[c].phase;
      match p.next(answers)
      case Done(r) =>
        if !refused && !Conflicts(s.store, txn) then
          SetPhase(Append(s, CommitOf(c, s.calls[c].snapshot, p, answers, r, txn.staged)), c, Committed(r))
        else
          var failures := s.calls[c].failures
            + [FailedAttempt(begin, |s.log|, txn.staged.Keys, !Conflicts(s.store, txn))];
          var phase := match ShouldRetry(s.calls[c].policy, CONFLICT, |failures|)
            case Ok(_) => Waiting
            case Err(e) => GaveUp(e);
          s.(calls := s.calls[c := s.calls[c].(phase := phase, failures := failures)])
      case Fail(e) => SetPhase(s, c, ClosureFailed(e))
      case _ => s
  }

  function Step<V, R>(s: System<V, R>, e: Event<V, R>): (s': System<V, R>)
    ensures |s'.calls| == |s.calls|
  {
    if e.Outside? then Append(s, Plain(e.writes))
    else if e.call >= |s.calls| then s
    else match e
      case Start(c, p) => StepStart(s, c, p)
      case Act(c) => StepAct(s, c)
      case Finish(c, refused) => StepFinish(s, c, refused)
  }

  function Run<V, R>(s: System<V, R>, es: seq<Event<V, R>>): (s': System<V, R>)
    ensures |s'.calls| == |s.calls|
    decreases |es|
  {
    if es == [] then s else Step(Run(s, es[..|es| - 1]), es[|es| - 1])
  }

  /** A start state: any store whose sequence numbers are sane, and calls that have not begun. */
  ghost predicate Initial<V, R>(s: System<V, R>) {
    && s.log == []
    && (forall k :: LastMod(s.store, k) <= s.store.seqNo)
    && (forall c: nat | c < |s.calls| :: s.calls[c] == NewCall(s.calls[c].policy, s.calls[c].snapshot))
  }

  // --- Reading the log ---

  function DataAfter<V, R>(data: map<Key, V>, log: seq<Entry<V, R>>): map<Key, V>
    decreases |log|
  {
    if log == [] then data else Install(DataAfter(data, log[..|log| - 1]), log[|log| - 1].writes)
  }

  predicate IsCommitOf<V, R>(entry: Entry<V, R>, c: nat) {
    entry.CommitOf? && entry.call == c
  }

  /** The serial replay: a snapshot-mode commit with covered reads is *re-executed* alone, all else is installed. */
  ghost function ReplayEntry<V, R>(data: map<Key, V>, entry: Entry<V, R>): map<Key, V> {
    if entry.CommitOf? && entry.snapshot && Covered(entry.program, entry.answers) then
      match RunAlone(entry.program, data, |entry.answers|)
      case Finished(_, writes) => Install(data, writes)
      case _ => data
    else Install(data, entry.writes)
  }

  ghost function Replay<V, R>(data: map<Key, V>, log: seq<Entry<V, R>>): map<Key, V>
    decreases |log|
  {
    if log == [] then data else ReplayEntry(Replay(data, log[..|log| - 1]), log[|log| - 1])
  }
}
