/** The account transfer of examples/optimistic_transaction.rs, run by any number of concurrent calls. */
module Transfers {
  import opened Wrappers
  import opened StoreErrors
  import opened MachineWords
  import opened OptimisticEngine
  import opened OptimisticProtocol
  import opened ProtocolInvariant
  import opened OptimisticTheorems

  /** i64 addition wraps in a release build; a sum of two i64 values is off by at most one turn. */
  function WrapI64(x: int): int {
    if x > I64_MAX then x - TWO_64 else if x < -I64_MAX - 1 then x + TWO_64 else x
  }

  datatype Account = Account(balance: int, version: nat)

  function Credit(a: Account, amount: int): Account {
    Account(WrapI64(a.balance + amount), if a.version + 1 == TWO_64 then 0 else a.version + 1)
  }

  function Transfer(from: Key, to: Key, amount: int): Program<Account, ()> {
    Program((a: seq<Option<Account>>) =>
      if |a| == 0 then Read(from)
      else if a[0].None? then Fail(Other("Account not found"))
      else if |a| == 1 then Read(to)
      else if a[1].None? then Fail(Other("Account not found"))
      else if a[0].value.balance < amount then Fail(Other("Insufficient funds"))
      else if |a| == 2 then Write(from, Some(Credit(a[0].value, -amount)))
      else if |a| == 3 then Write(to, Some(Credit(a[1].value, amount)))
      else Done(()))
  }

  // --- One transfer ---

  function TransferWrites(from: Key, to: Key, amount: int, a: Account, b: Account): Batch<Account> {
    map[from := Some(Credit(a, -amount))][to := Some(Credit(b, amount))]
  }

  lemma {:induction false} NoFifthStep(from: Key, to: Key, amount: int, answers: seq<Option<Account>>)
    requires |answers| > 4
    ensures !FeasibleAt(Transfer(from, to, amount), answers, 4)
  {
    assert answers[..4][0] == answers[0];
  }

  /** A finished transfer made four steps, read its two accounts and staged exactly their updates. */
  lemma {:induction false} FinishedTransfer(from: Key, to: Key, amount: int, answers: seq<Option<Account>>)
    requires Feasible(Transfer(from, to, amount), answers) && Transfer(from, to, amount).next(answers).Done?
    ensures |answers| == 4 && answers[0].Some? && answers[1].Some? && answers[0].value.balance >= amount
    ensures var p := Transfer(from, to, amount);
            && FromStore(p, answers, 0, from) && FromStore(p, answers, 1, to)
            && StagedBy(p, answers) == TransferWrites(from, to, amount, answers[0].value, answers[1].value)
            && Covered(p, answers)
  {
    var p := Transfer(from, to, amount);
    if |answers| > 4 { NoFifthStep(from, to, amount, answers); }
    assert answers[..4] == answers;
    assert answers[..4][..3] == answers[..3] && answers[..3][..2] == answers[..2];
    assert answers[..2][..1] == answers[..1] && answers[..1][..0] == [];
    assert StagedBy(p, answers[..1]) == map[];
    assert StagedBy(p, answers[..2]) == map[];
    assert StagedBy(p, answers[..3]) == map[from := Some(Credit(answers[0].value, -amount))];
    assert StagedBy(p, answers) == TransferWrites(from, to, amount, answers[0].value, answers[1].value);
  }

  /**
   A transfer alone on a store: it fails on a missing account, then on insufficient funds, and
   finishes otherwise; between distinct accounts it takes the amount from one and gives it to the
   other (as far as an i64 goes) and counts up both versions.
   */
  lemma {:induction false} TransferAlone(from: Key, to: Key, amount: int, data: map<Key, Account>, n: nat)
    requires n >= 4
    ensures var outcome := RunAlone(Transfer(from, to, amount), data, n);
            if from !in data || to !in data then outcome == Failed(Other("Account not found"))
            else if data[from].balance < amount then outcome == Failed(Other("Insufficient funds"))
            else outcome.Finished?
                 && (from != to && FitsI64(data[from].balance - amount) && FitsI64(data[to].balance + amount)
                     && data[from].version + 1 < TWO_64 && data[to].version + 1 < TWO_64 ==>
                       outcome.writes == map[from := Some(Account(data[from].balance - amount, data[from].version + 1)),
                                             to := Some(Account(data[to].balance + amount, data[to].version + 1))])
  {
    AloneStops(Transfer(from, to, amount), data, n);
    if from in data && to in data && data[from].balance >= amount {
      FundedTransferAlone(from, to, amount, data);
    } else {
      RefusedTransferAlone(from, to, amount, data);
    }
  }

  lemma {:induction false} RefusedTransferAlone(from: Key, to: Key, amount: int, data: map<Key, Account>)
    requires from !in data || to !in data || data[from].balance < amount
    ensures var p := Transfer(from, to, amount);
            p.next(AloneAnswers(p, data, 4))
            == Fail(Other(if from !in data || to !in data then "Account not found" else "Insufficient funds"))
  {
    var p := Transfer(from, to, amount);
    var a, b := Lookup(data, from), Lookup(data, to);
    assert AloneAnswers(p, data, 0) == [];
    assert AloneAnswers(p, data, 1) == [a];
    if from !in data {
      assert AloneAnswers(p, data, 2) == [a];
      assert AloneAnswers(p, data, 3) == [a];
    } else {
      assert StagedBy(p, [a]) == map[] by { assert [a][..0] == []; }
      assert AloneAnswers(p, data, 2) == [a, b];
      assert AloneAnswers(p, data, 3) == [a, b];
    }
  }

  lemma {:induction false} FundedTransferAlone(from: Key, to: Key, amount: int, data: map<Key, Account>)
    requires from in data && to in data && data[from].balance >= amount
    ensures var p := Transfer(from, to, amount);
            var h := AloneAnswers(p, data, 4);
            && p.next(h) == Done(())
            && StagedBy(p, h) == TransferWrites(from, to, amount, data[from], data[to])
  {
    var p := Transfer(from, to, amount);
    var h := [Some(data[from]), Some(data[to]), None, None];
    FundedHistory(from, to, amount, data[from], data[to]);
    SerialIffReadsAgree(p, h, data);
    FinishedTransfer(from, to, amount, h);
    forall i: nat, k | i < |h| && FromStore(p, h, i, k) ensures h[i] == Lookup(data, k) {
      assert i == 0 || i == 1 || i == 2 || i == 3;
    }
    assert ReadsAgree(p, h, data);
  }

  lemma {:induction false} FundedHistory(from: Key, to: Key, amount: int, a: Account, b: Account)
    requires a.balance >= amount
    ensures var h := [Some(a), Some(b), None, None];
            Feasible(Transfer(from, to, amount), h) && Transfer(from, to, amount).next(h) == Done(())
  {
    var p, h := Transfer(from, to, amount), [Some(a), Some(b), None, None];
    assert h[..1] == [Some(a)] && h[..1][..0] == [];
    assert h[..0] == [] && h[..2] == [Some(a), Some(b)] && h[..3] == [Some(a), Some(b), None];
    assert StagedBy(p, h[..1]) == map[];
    forall i: nat | i < |h| ensures FeasibleAt(p, h, i) {
      assert i == 0 || i == 1 || i == 2 || i == 3;
    }
  }

  /** A transfer makes at most four steps. */
  lemma {:induction false} AloneStops(p: Program<Account, ()>, data: map<Key, Account>, n: nat)
    requires n >= 4 && exists from, to, amount :: p == Transfer(from, to, amount)
    ensures AloneAnswers(p, data, n) == AloneAnswers(p, data, 4)
  {
    if n > 4 { AloneStops(p, data, n - 1); }
  }

  // --- The sum of all balances ---

  ghost function Total(data: map<Key, Account>): (sum: int)
    ensures data == map[] ==> sum == 0
  {
    if data == map[] then 0 else
      var k :| k in data;
      data[k].balance + Total(data - {k})
  }

  lemma {:induction false} TotalWithout(data: map<Key, Account>, k: Key)
    requires k in data
    ensures Total(data) == data[k].balance + Total(data - {k})
    decreases |data|
  {
    var j :| j in data && Total(data) == data[j].balance + Total(data - {j});
    if j != k {
      TotalWithout(data - {j}, k);
      TotalWithout(data - {k}, j);
      assert data - {j} - {k} == data - {k} - {j};
    }
  }

  lemma {:induction false} TotalUpdate(data: map<Key, Account>, k: Key, a: Account)
    requires k in data
    ensures Total(data[k := a]) == Total(data) - data[k].balance + a.balance
  {
    TotalWithout(data, k);
    TotalWithout(data[k := a], k);
    assert data[k := a] - {k} == data - {k};
  }

  predicate FitsI64(x: int) {
    -I64_MAX - 1 <= x <= I64_MAX
  }

  /**
   Exactly when one transfer between present accounts, the first holding at least `amount`, keeps
   the sum: between distinct accounts, both new balances fit an i64 or both wrap (then in opposite
   directions); to oneself, only a transfer of nothing.
   */
  lemma {:induction false} TransferConservesIff(data: map<Key, Account>, from: Key, to: Key, amount: int)
    requires from in data && to in data && FitsI64(data[from].balance) && FitsI64(data[to].balance)
    requires FitsI64(amount) && amount <= data[from].balance
    ensures Total(Install(data, TransferWrites(from, to, amount, data[from], data[to]))) == Total(data)
            <==> if from == to then amount == 0
                 else FitsI64(data[from].balance - amount) == FitsI64(data[to].balance + amount)
  {
    InstalledTransfer(data, from, to, amount);
    var a, b := Credit(data[from], -amount), Credit(data[to], amount);
    if from == to {
      assert data[from := a][to := b] == data[to := b];
      TotalUpdate(data, to, b);
    } else {
      TotalUpdate(data, from, a);
      TotalUpdate(data[from := a], to, b);
    }
  }

  lemma {:induction false} InstalledTransfer(data: map<Key, Account>, from: Key, to: Key, amount: int)
    requires from in data && to in data
    ensures Install(data, TransferWrites(from, to, amount, data[from], data[to]))
            == data[from := Credit(data[from], -amount)][to := Credit(data[to], amount)]
  {
  }

  ghost predicate Solvent(data: map<Key, Account>) {
    && (forall k | k in data :: data[k].balance >= 0)
    && Total(data) <= I64_MAX
  }

  lemma {:induction false} TotalNonNegative(data: map<Key, Account>)
    requires forall k | k in data :: data[k].balance >= 0
    ensures Total(data) >= 0
    decreases |data|
  {
    if data != map[] {
      var k :| k in data && Total(data) == data[k].balance + Total(data - {k});
      TotalNonNegative(data - {k});
    }
  }

  /** Two distinct accounts never hold more than the total. */
  lemma {:induction false} PairWithinTotal(data: map<Key, Account>, j: Key, k: Key)
    requires j in data && k in data && j != k
    requires forall x | x in data :: data[x].balance >= 0
    ensures data[j].balance + data[k].balance <= Total(data)
  {
    TotalWithout(data, j);
    TotalWithout(data - {j}, k);
    TotalNonNegative(data - {j} - {k});
  }

  // --- Every run ---

  ghost predicate IsTransfer(p: Program<Account, ()>) {
    exists from, to, amount :: from != to && 0 <= amount && p == Transfer(from, to, amount)
  }

  lemma {:induction false} TransferStep(data: map<Key, Account>, e: Entry<Account, ()>)
    requires Solvent(data) && e.CommitOf? && IsTransfer(e.program)
    requires Feasible(e.program, e.answers) && e.program.next(e.answers) == Done(())
    requires e.writes == StagedBy(e.program, e.answers) && ReadsAgree(e.program, e.answers, data)
    ensures var data' := Install(data, e.writes);
            Solvent(data') && Total(data') == Total(data) && data'.Keys == data.Keys
  {
    var from, to, amount :| from != to && 0 <= amount && e.program == Transfer(from, to, amount);
    FinishedTransfer(from, to, amount, e.answers);
    assert e.answers[0] == Lookup(data, from) && e.answers[1] == Lookup(data, to);
    PairWithinTotal(data, from, to);
    InstalledTransfer(data, from, to, amount);
    TransferConservesIff(data, from, to, amount);
  }

  /** A committed transfer read what was in the store just before its commit. */
  lemma {:induction false} CommittedTransfer(s0: System<Account, ()>, s: System<Account, ()>, i: nat)
    requires Inv(s0, s) && AllSnapshot(s0) && i < |s.log|
    requires s.log[i].CommitOf? && IsTransfer(s.log[i].program)
    ensures var e := s.log[i];
            && Feasible(e.program, e.answers) && e.program.next(e.answers) == Done(())
               && e.writes == StagedBy(e.program, e.answers)
            && ReadsAgree(e.program, e.answers, DataAfter(s0.store.data, s.log[..i]))
  {
    var e := s.log[i];
    assert EntryInv(s0, s, i);
    assert s0.calls[e.call].snapshot;
    var from, to, amount :| from != to && 0 <= amount && e.program == Transfer(from, to, amount);
    FinishedTransfer(from, to, amount, e.answers);
  }

  lemma {:induction false} DataAfterNext<V, R>(data: map<Key, V>, log: seq<Entry<V, R>>, i: nat)
    requires i < |log|
    ensures DataAfter(data, log[..i + 1]) == Install(DataAfter(data, log[..i]), log[i].writes)
  {
    assert log[..i + 1][..i] == log[..i];
  }

  ghost predicate Kept(first: map<Key, Account>, data: map<Key, Account>) {
    Solvent(data) && Total(data) == Total(first) && data.Keys == first.Keys
  }

  lemma {:induction false} CommitKeepsSum(first: map<Key, Account>, data: map<Key, Account>, e: Entry<Account, ()>)
    requires Kept(first, data) && e.CommitOf? && IsTransfer(e.program)
    requires Feasible(e.program, e.answers) && e.program.next(e.answers) == Done(())
    requires e.writes == StagedBy(e.program, e.answers) && ReadsAgree(e.program, e.answers, data)
    ensures Kept(first, Install(data, e.writes))
  {
    TransferStep(data, e);
  }

  lemma {:induction false} ConservedAlongLog(s0: System<Account, ()>, s: System<Account, ()>, n: nat)
    requires Inv(s0, s) && AllSnapshot(s0) && Solvent(s0.store.data) && n <= |s.log|
    requires forall i: nat | i < |s.log| :: s.log[i].CommitOf? && IsTransfer(s.log[i].program)
    ensures Kept(s0.store.data, DataAfter(s0.store.data, s.log[..n]))
  {
    if n > 0 {
      ConservedAlongLog(s0, s, n - 1);
      DataAfterNext(s0.store.data, s.log, n - 1);
      CommittedTransfer(s0, s, n - 1);
      CommitKeepsSum(s0.store.data, DataAfter(s0.store.data, s.log[..n - 1]), s.log[n - 1]);
    }
  }

  /**
   Any number of concurrent transfers between distinct accounts: in every reachable state the
   accounts are the same, their sum is unchanged, no balance is negative and none has overflowed,
   provided the initial balances are non-negative and their sum fits an i64.
   */
  lemma {:induction false} TransfersConserveMoney(s0: System<Account, ()>, es: seq<Event<Account, ()>>)
    requires Initial(s0) && AllSnapshot(s0) && Solvent(s0.store.data)
    requires forall i: nat | i < |es| :: !es[i].Outside? && (es[i].Start? ==> IsTransfer(es[i].program))
    ensures var data := Run(s0, es).store.data;
            && data.Keys == s0.store.data.Keys
            && Total(data) == Total(s0.store.data)
            && forall k | k in data :: 0 <= data[k].balance <= I64_MAX
  {
    var s := Run(s0, es);
    RunKeepsInv(s0, es);
    OnlyCommits(s0, es);
    forall i: nat | i < |s.log| ensures s.log[i].CommitOf? && IsTransfer(s.log[i].program) {
      CommitOfStartedProgram(s0, es, i);
    }
    ConservedAlongLog(s0, s, |s.log|);
    assert s.log[..|s.log|] == s.log;
    forall k | k in s.store.data ensures s.store.data[k].balance <= I64_MAX {
      TotalWithout(s.store.data, k);
      TotalNonNegative(s.store.data - {k});
    }
  }

  lemma {:induction false} OnlyCommits(s0: System<Account, ()>, es: seq<Event<Account, ()>>)
    requires Initial(s0) && forall i: nat | i < |es| :: !es[i].Outside?
    ensures forall i: nat | i < |Run(s0, es).log| :: Run(s0, es).log[i].CommitOf?
    decreases |es|
  {
    if es != [] { OnlyCommits(s0, es[..|es| - 1]); }
  }
}
