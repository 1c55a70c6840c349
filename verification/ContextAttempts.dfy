/**
 An application that runs its own logic through a single-attempt context, without the builder:
 it performs one attempt of the protocol under the policy that never retries.
 */
module ContextAttempts {
  import opened Wrappers
  import opened StoreErrors
  import opened OptimisticEngine
  import opened OptimisticProtocol
  import opened OptimisticStore

  predicate Touches<V, R>(a: Action<V, R>, cf: string) {
    match a
    case Read(k) => k.cf == cf
    case Write(k, _) => k.cf == cf
    case _ => false
  }

  /** The logic names configured column families only, so that no operation is refused. */
  ghost predicate KnownFamilies<V(!new), R>(p: Program<V, R>, names: set<string>) {
    forall h: seq<Option<V>>, cf | Touches(p.next(h), cf) :: cf in names
  }

  /** One operation through the context. */
  method ActInContext<V(!new), R(!new)>(ctx: OptimisticTransactionContext<V>, p: Program<V, R>, env: Environment<V>,
                                        tick: nat,
                                        answers: seq<Option<V>>, ghost s0: System<V, R>, ghost before: seq<Event<V, R>>,
                                        ghost s: System<V, R>)
    returns (answers': seq<Option<V>>, ghost s': System<V, R>)
    requires ctx.Valid() && !ctx.completed && KnownFamilies(p, ctx.db.cfNames) && !Stops(p, answers)
    requires Reaches(s0, before, s) && ctx.db.store == s.store && Inside(s, p, answers, ctx.txn.value)
    modifies ctx, ctx.db
    ensures ctx.Valid() && !ctx.completed && |answers'| == |answers| + 1
    ensures Reaches(s0, before + Outsides(env.foreign(tick)) + [Act(0)], s')
    ensures ctx.db.store == s'.store && Inside(s', p, answers', ctx.txn.value) && SameCall(s, s')
  {
    ghost var now := Interfere(ctx.db, env.foreign(tick), s0, before, s);
    ActEffect(now, p, answers, ctx.txn.value);
    ReachesNext(s0, before + Outsides(env.foreign(tick)), now, Act(0));
    s' := Step(now, Act(0));
    match p.next(answers) {
      case Read(k) =>
        assert Touches(p.next(answers), k.cf);
        var got := ctx.Get(k);
        answers' := answers + [got.value];
      case Write(k, v) =>
        assert Touches(p.next(answers), k.cf);
        var staged := ctx.Stage(k, v);
        answers' := answers + [None];
    }
  }

  /** Reads and writes through the context until the logic ends. */
  method ActAllInContext<V(!new), R(!new)>(ctx: OptimisticTransactionContext<V>, p: Program<V, R>, env: Environment<V>,
                                           tick: nat,
                                           ghost bound: nat, ghost s0: System<V, R>, ghost before: seq<Event<V, R>>,
                                           ghost s: System<V, R>)
    returns (answers: seq<Option<V>>, ghost s': System<V, R>)
    requires forall h: seq<Option<V>> | |h| >= bound :: Stops(p, h)
    requires ctx.Valid() && !ctx.completed && KnownFamilies(p, ctx.db.cfNames)
    requires Reaches(s0, before, s) && ctx.db.store == s.store && Inside(s, p, [], ctx.txn.value)
    modifies ctx, ctx.db
    ensures ctx.Valid() && !ctx.completed && Stops(p, answers)
    ensures Reaches(s0, before + Actions(env, tick, |answers|), s')
    ensures ctx.db.store == s'.store && Inside(s', p, answers, ctx.txn.value) && SameCall(s, s')
  {
    answers, s' := [], s;
    ghost var es := before;
    assert before + [] == before;
    while !Stops(p, answers)
      invariant ctx.Valid() && !ctx.completed
      invariant es == before + Actions(env, tick, |answers|)
      invariant Reaches(s0, es, s') && ctx.db.store == s'.store && Inside(s', p, answers, ctx.txn.value)
                && SameCall(s, s')
      decreases bound - |answers|
    {
      ActionsSnoc(before, env, tick, |answers|);
      ghost var batches := env.foreign(tick + |answers|);
      answers, s' := ActInContext(ctx, p, env, tick + |answers|, answers, s0, es, s');
      es := es + Outsides(batches) + [Act(0)];
    }
  }

  /** The one attempt: its operations, then its commit. */
  function AttemptOf<V, R>(p: Program<V, R>, env: Environment<V>, acts: nat): seq<Event<V, R>> {
    Operation(p, env, 0, acts) + [Finish(0, env.refuses(0))]
  }

  /** Store and result are those of a call that takes no second attempt. */
  ghost predicate SingleAttempt<V, R>(before: Store<V>, after: Store<V>, withSnapshot: bool, es: seq<Event<V, R>>,
                                      result: Result<R, StoreError>) {
    var s := Run(Alone<V, R>(before, NoRetry, withSnapshot), es);
    after == s.store && Returned(s.calls[0]) && ReturnValue(s.calls[0]) == result
  }

  /** Commit what the logic asked for, or roll back if it failed. */
  method EndContext<V(!new), R(!new)>(ctx: OptimisticTransactionContext<V>, p: Program<V, R>, answers: seq<Option<V>>,
                                      refused: bool,
                                      ghost before: Store<V>, withSnapshot: bool, ghost es: seq<Event<V, R>>,
                                      ghost s: System<V, R>)
    returns (result: Result<R, StoreError>)
    requires ctx.Valid() && !ctx.completed && Stops(p, answers)
    requires Reaches(Alone(before, NoRetry, withSnapshot), es, s) && ctx.db.store == s.store
             && Inside(s, p, answers, ctx.txn.value)
    requires s.calls[0].policy == NoRetry
    modifies ctx, ctx.db
    ensures ctx.completed && SingleAttempt(before, ctx.db.store, withSnapshot, es + [Finish(0, refused)], result)
  {
    FinishEffect(s, p, answers, ctx.txn.value, refused);
    ReachesNext(Alone(before, NoRetry, withSnapshot), es, s, Finish(0, refused));
    ReachesByRun(Alone(before, NoRetry, withSnapshot), es + [Finish(0, refused)], Step(s, Finish(0, refused)));
    match p.next(answers) {
      case Fail(e) =>
        var rolled := ctx.Rollback(None);
        return Err(e);
      case Done(r) =>
        var committed := ctx.Commit(refused);
        return if committed.Ok? then Ok(r) else Err(committed.error);
    }
  }

  /** A new context is a new attempt. */
  method OpenContext<V(!new), R(!new)>(db: Database<V>, withSnapshot: bool, p: Program<V, R>, env: Environment<V>,
                                       ghost s0: System<V, R>)
    returns (ctx: OptimisticTransactionContext<V>, ghost s: System<V, R>)
    requires s0 == Alone(db.store, NoRetry, withSnapshot)
    modifies db
    ensures fresh(ctx) && ctx.db == db && ctx.Valid() && !ctx.completed
    ensures Reaches(s0, Outsides(env.foreign(0)) + [Start(0, p)], s)
    ensures db.store == s.store && Inside(s, p, [], ctx.txn.value) && SameCall(s0, s)
  {
    ReachesSelf(s0);
    s := Interfere(db, env.foreign(0), s0, [], s0);
    ghost var es: seq<Event<V, R>> := [] + Outsides(env.foreign(0));
    ctx := new OptimisticTransactionContext(db, withSnapshot);
    StartEffect(s, p);
    ReachesNext(s0, es, s, Start(0, p));
    s := Step(s, Start(0, p));
    assert es == Outsides(env.foreign(0));
  }

  /** Logic run through a single-attempt context is one attempt of the protocol, whatever happens around it. */
  method RunThroughContext<V(!new), R(!new)>(db: Database<V>, withSnapshot: bool, p: Program<V, R>, env: Environment<V>,
                                             ghost bound: nat)
    returns (result: Result<R, StoreError>, ghost acts: nat)
    requires forall h: seq<Option<V>> | |h| >= bound :: Stops(p, h)
    requires KnownFamilies(p, db.cfNames)
    modifies db
    ensures SingleAttempt(old(db.store), db.store, withSnapshot, AttemptOf(p, env, acts), result)
  {
    ghost var s0: System<V, R> := Alone(db.store, NoRetry, withSnapshot);
    ghost var first, s := db.store, s0;
    var ctx, answers;
    ctx, s := OpenContext(db, withSnapshot, p, env, s0);
    ghost var es: seq<Event<V, R>> := Outsides(env.foreign(0)) + [Start(0, p)];
    answers, s := ActAllInContext(ctx, p, env, 1, bound, s0, es, s);
    acts := |answers|;
    es := es + Actions(env, 1, acts);
    s := Interfere(db, env.foreign(1 + |answers|), s0, es, s);
    es := es + Outsides(env.foreign(1 + acts));
    assert es == Operation(p, env, 0, acts);
    result := EndContext(ctx, p, answers, env.refuses(0), first, withSnapshot, es, s);
  }
}
