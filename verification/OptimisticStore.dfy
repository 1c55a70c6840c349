/**
 The imperative side of optimistic transactions: the database object, the retry loop of the
 builder, and the single-attempt context. The loop is proved to perform a run of the protocol.
 */
module OptimisticStore {
  import opened Wrappers
  import opened StoreErrors
  import opened OptimisticEngine
  import opened OptimisticProtocol
  import opened ProtocolInvariant
  import opened OptimisticTheorems

  const COMPLETED := Other("OptimisticTransactionContext already completed (committed or rolled back)")

  class Database<V> {
    const cfNames: set<string>
    var store: Store<V>

    constructor (cfNames: set<string>, store: Store<V>)
      ensures this.cfNames == cfNames && this.store == store
    {
      this.cfNames, this.store := cfNames, store;
    }

    /** Somebody else's commit, put or delete. */
    method Write(writes: Batch<V>)
      modifies this
      ensures store == Apply(old(store), writes)
    {
      store := Apply(store, writes);
    }

    /** The engine's commit: all staged writes, or none and an error. */
    method Commit(txn: Txn<V>, refused: bool) returns (r: Result<(), StoreError>)
      modifies this
      ensures r == if refused || old(Conflicts(store, txn)) then Err(CONFLICT) else Ok(())
      ensures store == if r.Ok? then Apply(old(store), txn.staged) else old(store)
    {
      if refused || Conflicts(store, txn) {
        return Err(CONFLICT);
      }
      store := Apply(store, txn.staged);
      return Ok(());
    }
  }

  /**
   Everything the loop does not control: the foreign batches that land before its t-th step,
   and the attempts the engine refuses without a conflict.
   */
  datatype Environment<!V> = Environment(foreign: nat -> seq<Batch<V>>, refuses: nat -> bool)

  /** The protocol state that a single call on `store` starts from. */
  function Alone<V, R>(store: Store<V>, policy: Policy, withSnapshot: bool): System<V, R> {
    System(store, [NewCall(policy, withSnapshot)], [])
  }

  lemma {:induction false} RunSnoc<V, R>(s: System<V, R>, es: seq<Event<V, R>>, e: Event<V, R>)
    ensures Run(s, es + [e]) == Step(Run(s, es), e)
  {
    assert (es + [e])[..|es|] == es;
  }

  predicate Stops<V, R>(p: Program<V, R>, h: seq<Option<V>>) {
    p.next(h).Done? || p.next(h).Fail?
  }

  // --- The run that a closure and an environment determine ---

  function Outsides<V, R>(batches: seq<Batch<V>>): (es: seq<Event<V, R>>)
    ensures |es| == |batches|
    decreases |batches|
  {
    if batches == [] then [] else
      var n := |batches| - 1;
      Outsides(batches[..n]) + [Outside(batches[n])]
  }

  /**
   n actions of the call, each after the batches that the environment delivers before it; the first is
   step `tick`.
   */
  function Actions<V, R>(env: Environment<V>, tick: nat, n: nat): seq<Event<V, R>> {
    if n == 0 then [] else Actions(env, tick, n - 1) + Outsides(env.foreign(tick + n - 1)) + [Act(0)]
  }

  lemma {:induction false} ActionsSnoc<V, R>(before: seq<Event<V, R>>, env: Environment<V>, tick: nat, n: nat)
    ensures before + Actions(env, tick, n) + Outsides(env.foreign(tick + n)) + [Act(0)]
            == before + Actions(env, tick, n + 1)
  {
    assert Actions<V, R>(env, tick, n + 1) == Actions(env, tick, n) + Outsides(env.foreign(tick + n)) + [Act(0)];
  }

  /** One attempt up to its last action: a fresh transaction, and the closure run inside it. */
  function Operation<V, R>(p: Program<V, R>, env: Environment<V>, tick: nat, n: nat): seq<Event<V, R>> {
    Outsides(env.foreign(tick)) + [Start(0, p)] + Actions(env, tick + 1, n) + Outsides(env.foreign(tick + 1 + n))
  }

  /** How many steps attempts with these numbers of actions take. */
  function Ticks(acts: seq<nat>): nat
    decreases |acts|
  {
    if acts == [] then 0 else Ticks(acts[..|acts| - 1]) + acts[|acts| - 1] + 2
  }

  /** Attempt i runs the closure's i-th invocation, which takes acts[i] actions; the engine may refuse its commit. */
  function RunOf<V, R>(closure: nat -> Program<V, R>, env: Environment<V>, acts: seq<nat>): seq<Event<V, R>>
    decreases |acts|
  {
    if acts == [] then [] else
      var n := |acts| - 1;
      RunOf(closure, env, acts[..n]) + Operation(closure(n), env, Ticks(acts[..n]), acts[n])
        + [Finish(0, env.refuses(n))]
  }

  lemma {:induction false} RunOfSnoc<V, R>(closure: nat -> Program<V, R>, env: Environment<V>, acts: seq<nat>, n: nat)
    ensures Ticks(acts + [n]) == Ticks(acts) + n + 2
    ensures RunOf(closure, env, acts + [n])
            == RunOf(closure, env, acts) + Operation(closure(|acts|), env, Ticks(acts), n)
              + [Finish(0, env.refuses(|acts|))]
  {
    assert (acts + [n])[..|acts|] == acts;
  }

  // --- What the run is made of ---

  /** The programs started, in order. */
  function Programs<V, R>(es: seq<Event<V, R>>): seq<Program<V, R>>
    decreases |es|
  {
    if es == [] then [] else
      var n := |es| - 1;
      Programs(es[..n]) + if es[n].Start? then [es[n].program] else []
  }

  /** The foreign batches, in order. */
  function Batches<V, R>(es: seq<Event<V, R>>): seq<Batch<V>>
    decreases |es|
  {
    if es == [] then [] else
      var n := |es| - 1;
      Batches(es[..n]) + if es[n].Outside? then [es[n].writes] else []
  }

  lemma {:induction false} OneMore<V, R>(es: seq<Event<V, R>>, e: Event<V, R>)
    ensures Programs(es + [e]) == Programs(es) + if e.Start? then [e.program] else []
    ensures Batches(es + [e]) == Batches(es) + if e.Outside? then [e.writes] else []
  {
    assert (es + [e])[..|es|] == es;
  }

  lemma {:induction false} OutsidesMore<V, R>(es: seq<Event<V, R>>, batches: seq<Batch<V>>)
    ensures Programs(es + Outsides(batches)) == Programs(es)
    ensures Batches(es + Outsides(batches)) == Batches(es) + batches
    decreases |batches|
  {
    if batches == [] {
      assert es + Outsides(batches) == es;
    } else {
      var n := |batches| - 1;
      var before: seq<Event<V, R>> := es + Outsides(batches[..n]);
      OutsidesMore(es, batches[..n]);
      OneMore(before, Outside(batches[n]));
      assert es + Outsides(batches) == before + [Outside(batches[n])];
    }
  }

  /** Everything the environment delivers before the first `ticks` steps. */
  function DeliveredBefore<V>(env: Environment<V>, ticks: nat): seq<Batch<V>> {
    if ticks == 0 then [] else DeliveredBefore(env, ticks - 1) + env.foreign(ticks - 1)
  }

  lemma {:induction false} StepMore<V, R>(es: seq<Event<V, R>>, env: Environment<V>, tick: nat, e: Event<V, R>)
    requires Batches(es) == DeliveredBefore(env, tick) && !e.Outside?
    ensures Batches(es + Outsides(env.foreign(tick)) + [e]) == DeliveredBefore(env, tick + 1)
    ensures var longer := es + Outsides(env.foreign(tick)) + [e];
            Programs(longer) == if e.Start? then Programs(es) + [e.program] else Programs(es)
  {
    OutsidesMore(es, env.foreign(tick));
    OneMore(es + Outsides(env.foreign(tick)), e);
  }

  lemma {:induction false} ActionsMore<V, R>(es: seq<Event<V, R>>, env: Environment<V>, tick: nat, n: nat)
    requires Batches(es) == DeliveredBefore(env, tick)
    ensures Batches(es + Actions(env, tick, n)) == DeliveredBefore(env, tick + n)
    ensures Programs(es + Actions(env, tick, n)) == Programs(es)
  {
    if n == 0 {
      assert es + Actions(env, tick, 0) == es;
    } else {
      ActionsMore(es, env, tick, n - 1);
      ActionMore(es, es + Actions(env, tick, n - 1), env, tick, n - 1);
    }
  }

  lemma {:induction false} ActionMore<V, R>(es: seq<Event<V, R>>, acted: seq<Event<V, R>>, env: Environment<V>,
                                            tick: nat, n: nat)
    requires acted == es + Actions(env, tick, n) && Batches(acted) == DeliveredBefore(env, tick + n)
    ensures Batches(es + Actions(env, tick, n + 1)) == DeliveredBefore(env, tick + n + 1)
    ensures Programs(es + Actions(env, tick, n + 1)) == Programs(acted)
  {
    StepMore(acted, env, tick + n, Act(0));
    ActionsSnoc(es, env, tick, n);
  }

  lemma {:induction false} AttemptMore<V, R>(es: seq<Event<V, R>>, p: Program<V, R>, env: Environment<V>, tick: nat,
                                             n: nat,
                                             refused: bool)
    requires Batches(es) == DeliveredBefore(env, tick)
    ensures Batches(es + Operation(p, env, tick, n) + [Finish(0, refused)]) == DeliveredBefore(env, tick + n + 2)
    ensures Programs(es + Operation(p, env, tick, n) + [Finish(0, refused)]) == Programs(es) + [p]
  {
    var acted := Acted(es, p, env, tick, n);
    ActedMore(es, p, env, tick, n);
    OperationAssociates(es, p, env, tick, n);
    StepMore(acted, env, tick + 1 + n, Finish(0, refused));
  }

  /** The run up to the last action of one more attempt. */
  function Acted<V, R>(es: seq<Event<V, R>>, p: Program<V, R>, env: Environment<V>, tick: nat,
                       n: nat): seq<Event<V, R>> {
    es + Outsides(env.foreign(tick)) + [Start(0, p)] + Actions(env, tick + 1, n)
  }

  lemma {:induction false} ActedMore<V, R>(es: seq<Event<V, R>>, p: Program<V, R>, env: Environment<V>, tick: nat,
                                           n: nat)
    requires Batches(es) == DeliveredBefore(env, tick)
    ensures Batches(Acted(es, p, env, tick, n)) == DeliveredBefore(env, tick + 1 + n)
    ensures Programs(Acted(es, p, env, tick, n)) == Programs(es) + [p]
  {
    StepMore(es, env, tick, Start(0, p));
    ActionsMore(es + Outsides(env.foreign(tick)) + [Start(0, p)], env, tick + 1, n);
  }

  lemma {:induction false} OperationAssociates<V, R>(es: seq<Event<V, R>>, p: Program<V, R>, env: Environment<V>,
                                                     tick: nat, n: nat)
    ensures Acted(es, p, env, tick, n) + Outsides(env.foreign(tick + 1 + n)) == es + Operation(p, env, tick, n)
  {
  }

  /** Invocations 0, 1, ... of the closure. */
  function InvocationsOf<V, R>(closure: nat -> Program<V, R>, n: nat): seq<Program<V, R>> {
    if n == 0 then [] else InvocationsOf(closure, n - 1) + [closure(n - 1)]
  }

  /**
   The run starts exactly the invocations 0, 1, ... of the closure, one for each attempt, and its foreign
   batches are all that the environment delivers up to its last step; both in this order.
   */
  lemma {:induction false} RunIsComplete<V, R>(closure: nat -> Program<V, R>, env: Environment<V>, acts: seq<nat>)
    ensures Programs(RunOf(closure, env, acts)) == InvocationsOf(closure, |acts|)
    ensures Batches(RunOf(closure, env, acts)) == DeliveredBefore(env, Ticks(acts))
    decreases |acts|
  {
    if acts != [] {
      var n := |acts| - 1;
      RunIsComplete(closure, env, acts[..n]);
      AttemptMore(RunOf(closure, env, acts[..n]), closure(n), env, Ticks(acts[..n]), acts[n], env.refuses(n));
    }
  }

  // --- Who wrote what ---

  /** A batch that the environment delivered before one of the first `ticks` steps. */
  ghost predicate Foreign<V>(env: Environment<V>, ticks: nat, batch: Batch<V>) {
    exists t: nat :: t < ticks && batch in env.foreign(t)
  }

  ghost predicate Invoked<V, R>(closure: nat -> Program<V, R>, n: nat, p: Program<V, R>) {
    exists i: nat :: i < n && p == closure(i)
  }

  /** Every event of the run is the environment's batch, or one of the closure's invocations or their commits. */
  ghost predicate Attributed<V, R>(closure: nat -> Program<V, R>, env: Environment<V>, n: nat, ticks: nat,
                                   e: Event<V, R>) {
    match e
    case Outside(batch) => Foreign(env, ticks, batch)
    case Start(c, p) => Invoked(closure, n, p)
    case Finish(c, refused) => exists i: nat :: i < n && refused == env.refuses(i)
    case Act(_) => true
  }

  lemma {:induction false} OutsidesAreForeign<V, R>(env: Environment<V>, t: nat, batches: seq<Batch<V>>)
    requires batches <= env.foreign(t)
    ensures forall e: Event<V, R> | e in Outsides(batches) :: e.Outside? && e.writes in env.foreign(t)
    decreases |batches|
  {
    if batches != [] {
      OutsidesAreForeign<V, R>(env, t, batches[..|batches| - 1]);
    }
  }

  lemma {:induction false} ActionsAreAttributed<V, R>(env: Environment<V>, tick: nat, n: nat)
    ensures forall e: Event<V, R> | e in Actions(env, tick, n) ::
              e == Act(0) || (e.Outside? && Foreign(env, tick + n, e.writes))
  {
    if n > 0 {
      ActionsAreAttributed<V, R>(env, tick, n - 1);
      OutsidesAreForeign<V, R>(env, tick + n - 1, env.foreign(tick + n - 1));
      forall e: Event<V, R> | e in Actions(env, tick, n)
        ensures e == Act(0) || (e.Outside? && Foreign(env, tick + n, e.writes))
      {
        if e in Actions(env, tick, n - 1) {
          assert e == Act(0) || Foreign(env, tick + n - 1, e.writes);
        }
      }
    }
  }

  lemma {:induction false} OperationIsAttributed<V, R>(p: Program<V, R>, env: Environment<V>, tick: nat, n: nat)
    ensures forall e | e in Operation(p, env, tick, n) ::
              e == Start(0, p) || e == Act(0) || (e.Outside? && Foreign(env, tick + n + 2, e.writes))
  {
    OutsidesAreForeign<V, R>(env, tick, env.foreign(tick));
    ActionsAreAttributed<V, R>(env, tick + 1, n);
    OutsidesAreForeign<V, R>(env, tick + 1 + n, env.foreign(tick + 1 + n));
  }

  lemma {:induction false} RunIsAttributed<V, R>(closure: nat -> Program<V, R>, env: Environment<V>, acts: seq<nat>)
    ensures forall e | e in RunOf(closure, env, acts) :: Attributed(closure, env, |acts|, Ticks(acts), e)
    decreases |acts|
  {
    if acts != [] {
      var n := |acts| - 1;
      RunIsAttributed(closure, env, acts[..n]);
      OperationIsAttributed(closure(n), env, Ticks(acts[..n]), acts[n]);
      forall e | e in RunOf(closure, env, acts) ensures Attributed(closure, env, |acts|, Ticks(acts), e) {
        if e in RunOf(closure, env, acts[..n]) {
          assert Attributed(closure, env, n, Ticks(acts[..n]), e);
        }
      }
    }
  }

  /** An engine that refuses nothing without a conflict makes a run to which the progress theorems apply. */
  lemma {:induction false} RunIsNeverRefused<V, R>(closure: nat -> Program<V, R>, env: Environment<V>, acts: seq<nat>)
    requires forall i: nat :: !env.refuses(i)
    ensures NeverRefused(RunOf(closure, env, acts), 0)
  {
    var es := RunOf(closure, env, acts);
    RunIsAttributed(closure, env, acts);
    forall i: nat | i < |es| ensures es[i] != Finish(0, true) {
      assert es[i] in es;
    }
  }

  lemma {:induction false} PlainEntryWasOutside<V, R>(s0: System<V, R>, es: seq<Event<V, R>>, i: nat)
    requires s0.log == [] && i < |Run(s0, es).log| && Run(s0, es).log[i].Plain?
    ensures Outside(Run(s0, es).log[i].writes) in es
    decreases |es|
  {
    var before := es[..|es| - 1];
    assert es == before + [es[|es| - 1]];
    if i < |Run(s0, before).log| {
      assert Run(s0, before).log[i] == Run(s0, es).log[i];
      PlainEntryWasOutside(s0, before, i);
    }
  }

  /** A batch that the environment delivered, or the staged writes of a finished run of one of the invocations. */
  ghost predicate Accounted<V, R>(closure: nat -> Program<V, R>, env: Environment<V>, n: nat, ticks: nat,
                                  e: Entry<V, R>) {
    match e
    case Plain(writes) => Foreign(env, ticks, writes)
    case CommitOf(_, _, p, h, r, writes) =>
      && Invoked(closure, n, p)
      && Feasible(p, h) && p.next(h) == Done(r) && writes == StagedBy(p, h)
  }

  ghost predicate AllAccounted<V, R>(closure: nat -> Program<V, R>, env: Environment<V>, acts: seq<nat>,
                                     log: seq<Entry<V, R>>) {
    forall i: nat | i < |log| :: Accounted(closure, env, |acts|, Ticks(acts), log[i])
  }

  /** One logged commit, with the result that the call returned, if it returned Ok; none otherwise. */
  ghost predicate CommitsAsReturned<V, R>(s: System<V, R>)
    requires |s.calls| == 1
  {
    var call := s.calls[0];
    && |CommitsOf(s.log, 0)| == (if Returned(call) && ReturnValue(call).Ok? then 1 else 0)
    && forall i: nat | i < |s.log| && s.log[i].CommitOf? :: Returned(call) && ReturnValue(call) == Ok(s.log[i].result)
  }

  /**
   Nothing but the environment's batches and at most one finished invocation of the closure
   reaches the store; an Ok result is the result of that invocation, and on Err there is none.
   */
  lemma {:induction false} StoreIsAccountedFor<V, R>(s0: System<V, R>, s: System<V, R>, closure: nat -> Program<V, R>,
                                                     env: Environment<V>, acts: seq<nat>)
    requires |s0.calls| == 1 && s0 == Alone(s0.store, s0.calls[0].policy, s0.calls[0].snapshot) && Initial(s0)
    requires s == Run(s0, RunOf(closure, env, acts))
    ensures s.store.data == DataAfter(s0.store.data, s.log)
    ensures AllAccounted(closure, env, acts, s.log) && CommitsAsReturned(s)
  {
    var es := RunOf(closure, env, acts);
    ExactlyOnce(s0, es, 0);
    RunIsAttributed(closure, env, acts);
    forall i: nat | i < |s.log|
      ensures Accounted(closure, env, |acts|, Ticks(acts), s.log[i])
      ensures s.log[i].CommitOf? ==> i in CommitsOf(s.log, 0)
    {
      if s.log[i].Plain? {
        PlainEntryWasOutside(s0, es, i);
      } else {
        EntryIsAccounted(s0, es, i);
        var j: nat :| j < |es| && es[j].Start? && es[j].program == s.log[i].program;
        assert es[j] in es && Attributed(closure, env, |acts|, Ticks(acts), es[j]);
      }
    }
  }

  lemma {:induction false} EntryIsAccounted<V, R>(s0: System<V, R>, es: seq<Event<V, R>>, i: nat)
    requires Initial(s0) && |s0.calls| == 1 && i < |Run(s0, es).log| && Run(s0, es).log[i].CommitOf?
    ensures var e := Run(s0, es).log[i];
            && Started(es, e.program) && IsCommitOf(e, 0)
            && Feasible(e.program, e.answers) && e.program.next(e.answers) == Done(e.result)
            && e.writes == StagedBy(e.program, e.answers)
  {
    CommitOfStartedProgram(s0, es, i);
    RunKeepsInv(s0, es);
    assert EntryInv(s0, Run(s0, es), i);
  }

  /** The policy asks for no further attempt after the n-th. */
  predicate GivesUpAt(policy: Policy, n: nat) {
    n > 0 && ShouldRetry(policy, CONFLICT, n).Err?
  }

  lemma {:induction false} ShippedPoliciesGiveUp(policy: Policy)
    requires Shipped(policy)
    ensures GivesUpAt(policy, MaxRuns(policy))
    ensures forall n: nat | 0 < n < MaxRuns(policy) :: !GivesUpAt(policy, n)
  {
  }

  // --- What the steps of the one call do ---

  /** The one call is inside its closure, with these answers and this transaction. */
  ghost predicate Inside<V, R>(s: System<V, R>, p: Program<V, R>, answers: seq<Option<V>>, txn: Txn<V>) {
    && |s.calls| == 1 && s.calls[0].phase.Running?
    && s.calls[0].phase.program == p && s.calls[0].phase.answers == answers && s.calls[0].phase.txn == txn
  }

  ghost predicate SameCall<V, R>(s: System<V, R>, s': System<V, R>) {
    && |s.calls| == 1 && |s'.calls| == 1
    && s'.calls[0].policy == s.calls[0].policy && s'.calls[0].snapshot == s.calls[0].snapshot
    && s'.calls[0].failures == s.calls[0].failures
  }

  lemma {:induction false} StartEffect<V, R>(s: System<V, R>, p: Program<V, R>)
    requires |s.calls| == 1 && s.calls[0].phase.Waiting?
    ensures var s' := Step(s, Start(0, p));
            s'.store == s.store && SameCall(s, s') && Inside(s', p, [], Begin(s.store, s.calls[0].snapshot))
  {
  }

  lemma {:induction false} ActEffect<V, R>(s: System<V, R>, p: Program<V, R>, answers: seq<Option<V>>, txn: Txn<V>)
    requires Inside(s, p, answers, txn) && !Stops(p, answers)
    ensures var s' := Step(s, Act(0));
            && s'.store == s.store && SameCall(s, s')
            && match p.next(answers)
               case Read(k) => Inside(s', p, answers + [View(s.store.data, txn.staged, k)], txn)
               case Write(k, v) => Inside(s', p, answers + [None], Stage(s.store, txn, k, v))
               case _ => true
  {
  }

  lemma {:induction false} FinishEffect<V, R>(s: System<V, R>, p: Program<V, R>, answers: seq<Option<V>>, txn: Txn<V>,
                                              refused: bool)
    requires Inside(s, p, answers, txn) && Stops(p, answers)
    ensures var s' := Step(s, Finish(0, refused)); var call, call' := s.calls[0], s'.calls[0];
            && |s'.calls| == 1 && call'.policy == call.policy && call'.snapshot == call.snapshot
            && match p.next(answers)
               case Done(r) =>
                 if refused || Conflicts(s.store, txn) then
                   && s'.store == s.store && |call'.failures| == |call.failures| + 1
                   && (match ShouldRetry(call.policy, CONFLICT, |call.failures| + 1)
                       case Ok(_) => call'.phase == Waiting
                       case Err(e) => call'.phase == GaveUp(e))
                 else
                   s'.store == Apply(s.store, txn.staged) && call'.failures == call.failures
                     && call'.phase == Committed(r)
               case Fail(e) => s'.store == s.store && call'.failures == call.failures && call'.phase == ClosureFailed(e)
               case _ => true
  {
  }

  // --- A run spelled out ---

  ghost predicate Leads<V, R>(s: System<V, R>, e: Event<V, R>, s': System<V, R>) {
    s' == Step(s, e)
  }

  ghost predicate Trace<V, R>(states: seq<System<V, R>>, es: seq<Event<V, R>>) {
    && |states| == |es| + 1
    && forall i {:trigger Leads(states[i], es[i], states[i + 1])} | 0 <= i < |es| ::
       Leads(states[i], es[i], states[i + 1])
  }

  /** The events lead from s0 to s by way of some states. */
  ghost predicate Reaches<V(!new), R(!new)>(s0: System<V, R>, es: seq<Event<V, R>>, s: System<V, R>) {
    exists states :: Trace(states, es) && states[0] == s0 && states[|es|] == s
  }

  lemma {:induction false} ReachesSelf<V(!new), R(!new)>(s0: System<V, R>)
    ensures Reaches(s0, [], s0)
  {
    assert Trace([s0], []);
  }

  lemma {:induction false} ReachesNext<V(!new), R(!new)>(s0: System<V, R>, es: seq<Event<V, R>>, s: System<V, R>,
                                                         e: Event<V, R>)
    requires Reaches(s0, es, s)
    ensures Reaches(s0, es + [e], Step(s, e))
  {
    var states :| Trace(states, es) && states[0] == s0 && states[|es|] == s;
    var longer, events := states + [Step(s, e)], es + [e];
    forall i | 0 <= i < |events| ensures Leads(longer[i], events[i], longer[i + 1]) {
      if i < |es| { assert Leads(states[i], es[i], states[i + 1]); }
    }
    assert Trace(longer, events);
  }

  lemma {:induction false} TraceIsRun<V, R>(states: seq<System<V, R>>, es: seq<Event<V, R>>, n: nat)
    requires Trace(states, es) && n <= |es|
    ensures Run(states[0], es[..n]) == states[n]
  {
    if n > 0 {
      TraceIsRun(states, es, n - 1);
      assert es[..n] == es[..n - 1] + [es[n - 1]];
      RunSnoc(states[0], es[..n - 1], es[n - 1]);
      var i := n - 1;
      assert Leads(states[i], es[i], states[i + 1]);
    }
  }

  lemma {:induction false} ReachesByRun<V(!new), R(!new)>(s0: System<V, R>, es: seq<Event<V, R>>, s: System<V, R>)
    requires Reaches(s0, es, s)
    ensures Run(s0, es) == s
  {
    var states :| Trace(states, es) && states[0] == s0 && states[|es|] == s;
    TraceIsRun(states, es, |es|);
    assert es[..|es|] == es;
  }

  // --- The loop ---

  /** Other writers get in between two steps. */
  method Interfere<V(!new), R(!new)>(db: Database<V>, batches: seq<Batch<V>>, ghost s0: System<V, R>,
                                     ghost before: seq<Event<V, R>>,
                                     ghost s: System<V, R>)
    returns (ghost s': System<V, R>)
    requires Reaches(s0, before, s) && db.store == s.store
    modifies db
    ensures Reaches(s0, before + Outsides(batches), s') && db.store == s'.store && s'.calls == s.calls
  {
    s' := s;
    ghost var es := before;
    assert before + [] == before;
    for i := 0 to |batches|
      invariant es == before + Outsides(batches[..i])
      invariant Reaches(s0, es, s') && db.store == s'.store && s'.calls == s.calls
    {
      assert batches[..i + 1][..i] == batches[..i];
      ReachesNext(s0, es, s', Outside(batches[i]));
      db.Write(batches[i]);
      es, s' := es + [Outside(batches[i])], Step(s', Outside(batches[i]));
    }
    assert batches[..|batches|] == batches;
  }

  class OptimisticTransactionBuilder<V(!new), R(!new)> {
    const db: Database<V>
    const policy: Policy

    /** The default policy retries up to ten attempts. */
    constructor (db: Database<V>)
      ensures this.db == db && policy == FixedRetry(10)
    {
      this.db, policy := db, FixedRetry(10);
    }

    constructor WithRetryPolicy(db: Database<V>, policy: Policy)
      ensures this.db == db && this.policy == policy
    {
      this.db, this.policy := db, policy;
    }

    /** `operation(&txn)`: the closure runs to its end inside the transaction, others write in between. */
    method RunOperation(p: Program<V, R>, env: Environment<V>, tick: nat, begun: Txn<V>, ghost bound: nat,
                        ghost s0: System<V, R>, ghost before: seq<Event<V, R>>, ghost s: System<V, R>)
      returns (answers: seq<Option<V>>, txn: Txn<V>, ghost s': System<V, R>)
      requires forall h: seq<Option<V>> | |h| >= bound :: Stops(p, h)
      requires Reaches(s0, before, s) && db.store == s.store && Inside(s, p, [], begun)
      modifies db
      ensures Stops(p, answers)
      ensures Reaches(s0, before + Actions(env, tick, |answers|), s')
      ensures db.store == s'.store && Inside(s', p, answers, txn) && SameCall(s, s')
    {
      answers, txn, s' := [], begun, s;
      ghost var es := before;
      assert before + [] == before;
      while !Stops(p, answers)
        invariant es == before + Actions(env, tick, |answers|)
        invariant Reaches(s0, es, s') && db.store == s'.store && Inside(s', p, answers, txn) && SameCall(s, s')
        decreases bound - |answers|
      {
        ActionsSnoc(before, env, tick, |answers|);
        ghost var batches := env.foreign(tick + |answers|);
        answers, txn, s' := ActOnce(p, env, tick + |answers|, answers, txn, s0, es, s');
        es := es + Outsides(batches) + [Act(0)];
      }
    }

    /** One operation of the closure on its transaction. */
    method ActOnce(p: Program<V, R>, env: Environment<V>, tick: nat, answers: seq<Option<V>>, txn: Txn<V>,
                   ghost s0: System<V, R>, ghost before: seq<Event<V, R>>, ghost s: System<V, R>)
      returns (answers': seq<Option<V>>, txn': Txn<V>, ghost s': System<V, R>)
      requires Reaches(s0, before, s) && db.store == s.store && Inside(s, p, answers, txn) && !Stops(p, answers)
      modifies db
      ensures |answers'| == |answers| + 1
      ensures Reaches(s0, before + Outsides(env.foreign(tick)) + [Act(0)], s')
      ensures db.store == s'.store && Inside(s', p, answers', txn') && SameCall(s, s')
    {
      ghost var now := Interfere(db, env.foreign(tick), s0, before, s);
      ActEffect(now, p, answers, txn);
      ReachesNext(s0, before + Outsides(env.foreign(tick)), now, Act(0));
      s', txn' := Step(now, Act(0)), txn;
      match p.next(answers)
      case Read(k) => answers' := answers + [View(db.store.data, txn.staged, k)];
      case Write(k, v) =>
        txn' := Stage(db.store, txn, k, v);
        answers' := answers + [None];
    }

    /** A fresh transaction for each attempt, and the closure run inside it. */
    method RunAttempt(p: Program<V, R>, env: Environment<V>, tick: nat, withSnapshot: bool, ghost bound: nat,
                      ghost s0: System<V, R>, ghost before: seq<Event<V, R>>, ghost s: System<V, R>)
      returns (answers: seq<Option<V>>, txn: Txn<V>, ghost s': System<V, R>)
      requires forall h: seq<Option<V>> | |h| >= bound :: Stops(p, h)
      requires Reaches(s0, before, s) && db.store == s.store && Awaiting(s, withSnapshot)
      modifies db
      ensures Stops(p, answers)
      ensures Reaches(s0, before + Operation(p, env, tick, |answers|), s')
      ensures db.store == s'.store && Inside(s', p, answers, txn) && SameCall(s, s')
    {
      s' := Interfere(db, env.foreign(tick), s0, before, s);
      txn := Begin(db.store, withSnapshot);
      ghost var es := before + Outsides(env.foreign(tick));
      StartEffect(s', p);
      ReachesNext(s0, es, s', Start(0, p));
      es, s' := es + [Start(0, p)], Step(s', Start(0, p));
      answers, txn, s' := RunOperation(p, env, tick + 1, txn, bound, s0, es, s');
      es := es + Actions(env, tick + 1, |answers|);
      s' := Interfere(db, env.foreign(tick + 1 + |answers|), s0, es, s');
      assert es + Outsides(env.foreign(tick + 1 + |answers|)) == before + Operation(p, env, tick, |answers|);
    }

    /**
     execute_with_snapshot (withSnapshot) and execute_unisolated (otherwise). `closure(i)` is what
     the FnMut does on its i-th invocation; it returns within `bound` steps. The final store and the
     returned value are those of the protocol run in which invocations 0, 1, ... of the closure take
     `acts[0]`, `acts[1]`, ... actions, with exactly the environment's batches and refusals in between.
     */
    method Execute(withSnapshot: bool, closure: nat -> Program<V, R>, env: Environment<V>, ghost bound: nat,
                   ghost patience: nat)
      returns (result: Result<R, StoreError>, ghost acts: seq<nat>)
      requires forall i: nat, h: seq<Option<V>> | |h| >= bound :: Stops(closure(i), h)
      requires GivesUpAt(policy, patience)
      modifies db
      ensures 0 < |acts| <= patience
      ensures Outcome(old(db.store), withSnapshot, RunOf(closure, env, acts), |acts|, result)
    {
      ghost var s0: System<V, R> := Alone(db.store, policy, withSnapshot);
      ghost var s := s0;
      acts := [];
      var tick, i := 0, 0;
      ReachesSelf(s0);
      while true
        invariant Reaches(s0, RunOf(closure, env, acts), s) && tick == Ticks(acts) && |acts| == i < patience
        invariant db.store == s.store && Awaiting(s, withSnapshot) && |s.calls[0].failures| == i
        decreases patience - i
      {
        var verdict;
        verdict, tick, acts, s := TryOnce(withSnapshot, closure, env, tick, i, bound, patience, s0, acts, s);
        i := i + 1;
        if verdict.Some? {
          Concludes(old(db.store), withSnapshot, RunOf(closure, env, acts), s, i, verdict.value);
          return verdict.value, acts;
        }
      }
    }

    /** One turn of the loop. */
    method TryOnce(withSnapshot: bool, closure: nat -> Program<V, R>, env: Environment<V>, tick: nat, i: nat,
                   ghost bound: nat, ghost patience: nat, ghost s0: System<V, R>, ghost acts: seq<nat>,
                   ghost s: System<V, R>)
      returns (verdict: Option<Result<R, StoreError>>, tick': nat, ghost acts': seq<nat>, ghost s': System<V, R>)
      requires forall i: nat, h: seq<Option<V>> | |h| >= bound :: Stops(closure(i), h)
      requires GivesUpAt(policy, patience) && |acts| == i < patience && tick == Ticks(acts)
      requires Reaches(s0, RunOf(closure, env, acts), s)
      requires db.store == s.store && Awaiting(s, withSnapshot) && |s.calls[0].failures| == i
      modifies db
      ensures |acts'| == i + 1 && tick' == Ticks(acts')
      ensures Reaches(s0, RunOf(closure, env, acts'), s')
      ensures db.store == s'.store && Settled(s', verdict, withSnapshot, i + 1)
      ensures verdict.None? ==> i + 1 < patience
    {
      var p, refused := closure(i), env.refuses(i);
      var answers, txn;
      ghost var es: seq<Event<V, R>> := RunOf(closure, env, acts);
      answers, txn, s' := RunAttempt(p, env, tick, withSnapshot, bound, s0, es, s);
      es := es + Operation(p, env, tick, |answers|);
      RunOfSnoc(closure, env, acts, |answers|);
      tick', acts' := tick + |answers| + 2, acts + [|answers|];
      verdict, s' := Settle(p, answers, txn, withSnapshot, refused, i + 1, patience, s0, es, s');
    }

    /** Commit, and ask the policy if the engine refuses: a verdict, or None for another attempt. */
    method Settle(p: Program<V, R>, answers: seq<Option<V>>, txn: Txn<V>, withSnapshot: bool, refused: bool,
                  attempt: nat,
                  ghost patience: nat, ghost s0: System<V, R>, ghost before: seq<Event<V, R>>, ghost s: System<V, R>)
      returns (verdict: Option<Result<R, StoreError>>, ghost s': System<V, R>)
      requires Reaches(s0, before, s) && db.store == s.store && Inside(s, p, answers, txn) && Stops(p, answers)
      requires s.calls[0].policy == policy && s.calls[0].snapshot == withSnapshot
               && |s.calls[0].failures| + 1 == attempt
      requires attempt <= patience && GivesUpAt(policy, patience)
      modifies db
      ensures Reaches(s0, before + [Finish(0, refused)], s')
      ensures db.store == s'.store && Settled(s', verdict, withSnapshot, attempt)
      ensures verdict.None? ==> attempt < patience
    {
      FinishEffect(s, p, answers, txn, refused);
      ReachesNext(s0, before, s, Finish(0, refused));
      s' := Step(s, Finish(0, refused));
      match p.next(answers) {
        case Fail(e) =>
          return Some(Err(e)), s';
        case Done(r) =>
          var committed := db.Commit(txn, refused);
          if committed.Ok? { return Some(Ok(r)), s'; }
          var again := ShouldRetry(policy, committed.error, attempt);
          return if again.Err? then Some(Err(again.error)) else None, s';
      }
    }

    ghost predicate Settled(s: System<V, R>, verdict: Option<Result<R, StoreError>>, withSnapshot: bool,
                            attempts: nat) {
      && |s.calls| == 1 && s.calls[0].policy == policy && s.calls[0].snapshot == withSnapshot
      && match verdict
         case None => Awaiting(s, withSnapshot) && |s.calls[0].failures| == attempts
         case Some(r) => Returned(s.calls[0]) && ReturnValue(s.calls[0]) == r && Attempts(s.calls[0]) == attempts
    }

    /** Between two attempts. */
    ghost predicate Awaiting(s: System<V, R>, withSnapshot: bool) {
      && |s.calls| == 1 && s.calls[0].policy == policy && s.calls[0].snapshot == withSnapshot
      && s.calls[0].phase.Waiting?
    }

    /** Store, result and number of invocations are those of the protocol run `es` from the given store. */
    ghost predicate Outcome(before: Store<V>, withSnapshot: bool, es: seq<Event<V, R>>, runs: nat,
                            result: Result<R, StoreError>)
      reads db
    {
      var s := Run(Alone<V, R>(before, policy, withSnapshot), es);
      && db.store == s.store
      && s.calls[0].policy == policy && s.calls[0].snapshot == withSnapshot
      && Returned(s.calls[0]) && result == ReturnValue(s.calls[0]) && Attempts(s.calls[0]) == runs
    }

    lemma {:induction false} Concludes(before: Store<V>, withSnapshot: bool, es: seq<Event<V, R>>, s: System<V, R>,
                                       runs: nat, result: Result<R, StoreError>)
      requires Reaches(Alone(before, policy, withSnapshot), es, s)
      requires db.store == s.store && Settled(s, Some(result), withSnapshot, runs)
      ensures Outcome(before, withSnapshot, es, runs, result)
    {
      ReachesByRun(Alone(before, policy, withSnapshot), es, s);
    }
  }

  /** A single attempt under the application's control. `txn` is None once it has been taken out. */
  class OptimisticTransactionContext<V> {
    const db: Database<V>
    var txn: Option<Txn<V>>
    var completed: bool

    ghost predicate Valid()
      reads this
    {
      completed <==> txn.None?
    }

    constructor (db: Database<V>, withSnapshot: bool)
      ensures Valid() && !completed && this.db == db
      ensures txn == Some(Begin(db.store, withSnapshot))
    {
      this.db, completed := db, false;
      txn := Some(Begin(db.store, withSnapshot));
    }

    /** The checks every operation makes first: not completed, and a known column family. */
    function Refusal(k: Key): Option<StoreError>
      reads this, db
    {
      if completed then Some(COMPLETED)
      else if k.cf !in db.cfNames then Some(UnknownCf(k.cf))
      else None
    }

    /** Stages a put (Some) or a delete (None); the database is not touched. */
    method Stage(k: Key, v: Option<V>) returns (r: Result<(), StoreError>)
      requires Valid()
      modifies this`txn
      ensures Valid()
      ensures r == if old(completed) then Err(COMPLETED)
                   else if k.cf !in db.cfNames then Err(UnknownCf(k.cf)) else Ok(())
      ensures if r.Err? then txn == old(txn)
              else old(txn).Some? && txn == Some(OptimisticEngine.Stage(db.store, old(txn).value, k, v))
    {
      var refusal := Refusal(k);
      if refusal.Some? { return Err(refusal.value); }
      txn := Some(OptimisticEngine.Stage(db.store, txn.value, k, v));
      return Ok(());
    }

    /** Reads own staged writes first, then what is committed now. */
    method Get(k: Key) returns (r: Result<Option<V>, StoreError>)
      requires Valid()
      ensures completed ==> r == Err(COMPLETED)
      ensures !completed && k.cf !in db.cfNames ==> r == Err(UnknownCf(k.cf))
      ensures !completed && k.cf in db.cfNames ==>
                txn.Some? && r == Ok(if k in txn.value.staged then txn.value.staged[k] else Lookup(db.store.data, k))
    {
      var refusal := Refusal(k);
      if refusal.Some? { return Err(refusal.value); }
      return Ok(View(db.store.data, txn.value.staged, k));
    }

    /** Takes the transaction out whatever the engine answers: a failed commit cannot be retried on this context. */
    method Commit(refused: bool) returns (r: Result<(), StoreError>)
      requires Valid()
      modifies this, db
      ensures Valid() && completed
      ensures old(completed) ==> r == Err(COMPLETED) && db.store == old(db.store)
      ensures !old(completed) ==>
                && r == (if refused || Conflicts(old(db.store), old(txn).value) then Err(CONFLICT) else Ok(()))
                && db.store == if r.Ok? then Apply(old(db.store), old(txn).value.staged) else old(db.store)
    {
      if completed { return Err(COMPLETED); }
      var taken := txn.value;
      txn, completed := None, true;
      r := db.Commit(taken, refused);
    }

    /** Takes the transaction out, even if the engine then reports an error of its own (`failure`). */
    method Rollback(failure: Option<int>) returns (r: Result<(), StoreError>)
      requires Valid()
      modifies this
      ensures Valid() && completed
      ensures r == if old(completed) then Err(COMPLETED) else if failure.Some? then Err(RocksDb(failure.value))
              else Ok(())
    {
      if completed { return Err(COMPLETED); }
      txn, completed := None, true;
      return if failure.Some? then Err(RocksDb(failure.value)) else Ok(());
    }

    /**
     Dropping an open context takes its transaction out and rolls it back; a completed one has nothing
     left to take.
     */
    method Drop()
      requires Valid()
      modifies this`txn
      ensures txn == None && completed == old(completed)
    {
      if !completed { txn := None; }
    }
  }
}
