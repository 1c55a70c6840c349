/** Which writes make a commit fail, told by the events of the run instead of by what the engine tracks. */
module ConflictDetection {
  import opened Wrappers
  import opened StoreErrors
  import opened OptimisticEngine
  import opened OptimisticProtocol
  import opened ProtocolInvariant
  import opened OptimisticTheorems

  // --- What a history stages ---

  predicate WritesAt<V, R>(p: Program<V, R>, h: seq<Option<V>>, i: nat, k: Key)
    requires i <= |h|
  {
    var a := p.next(h[..i]);
    a.Write? && a.key == k
  }

  ghost predicate Wrote<V, R>(p: Program<V, R>, h: seq<Option<V>>, k: Key) {
    exists i: nat :: i < |h| && WritesAt(p, h, i, k)
  }

  /** Step i of h is the last one that writes k. */
  ghost predicate LastWriteAt<V, R>(p: Program<V, R>, h: seq<Option<V>>, i: nat, k: Key) {
    i < |h| && WritesAt(p, h, i, k) && forall j: nat | i < j < |h| :: !WritesAt(p, h, j, k)
  }

  lemma {:induction false} WritesAtPrefix<V, R>(p: Program<V, R>, h: seq<Option<V>>, n: nat, i: nat, k: Key)
    requires i <= n <= |h|
    ensures WritesAt(p, h[..n], i, k) == WritesAt(p, h, i, k)
  {
    assert h[..n][..i] == h[..i];
  }

  lemma {:induction false} WroteSnoc<V, R>(p: Program<V, R>, h: seq<Option<V>>, n: nat, k: Key)
    requires n + 1 == |h|
    ensures Wrote(p, h, k) <==> Wrote(p, h[..n], k) || WritesAt(p, h, n, k)
  {
    if i: nat :| i < n && WritesAt(p, h[..n], i, k) { WritesAtPrefix(p, h, n, i, k); }
    if i: nat :| i < n && WritesAt(p, h, i, k) { WritesAtPrefix(p, h, n, i, k); }
  }

  /** A key is staged exactly when some step writes it. */
  lemma {:induction false} StagedIffWritten<V, R>(p: Program<V, R>, h: seq<Option<V>>, k: Key)
    ensures k in StagedBy(p, h) <==> Wrote(p, h, k)
    decreases |h|
  {
    if h != [] {
      StagedIffWritten(p, h[..|h| - 1], k);
      WroteSnoc(p, h, |h| - 1, k);
    }
  }

  /** It is staged with the value of the last such step. */
  lemma {:induction false} StagedIsLastWrite<V, R>(p: Program<V, R>, h: seq<Option<V>>, i: nat, k: Key)
    requires LastWriteAt(p, h, i, k)
    ensures k in StagedBy(p, h) && StagedBy(p, h)[k] == p.next(h[..i]).value
    decreases |h|
  {
    var n := |h| - 1;
    if i < n {
      assert !WritesAt(p, h, n, k);
      forall j: nat | i <= j < n
        ensures WritesAt(p, h[..n], j, k) == WritesAt(p, h, j, k) { WritesAtPrefix(p, h, n, j, k); }
      StagedIsLastWrite(p, h[..n], i, k);
      assert h[..n][..i] == h[..i];
    }
  }

  // --- Attempts along a run ---

  function CallAt<V, R>(s0: System<V, R>, es: seq<Event<V, R>>, j: nat, c: nat): Call<V, R>
    requires j <= |es| && c < |s0.calls|
  {
    Run(s0, es[..j]).calls[c]
  }

  lemma {:induction false} CallAtPrefix<V, R>(s0: System<V, R>, es: seq<Event<V, R>>, n: nat, j: nat, c: nat)
    requires j <= n <= |es| && c < |s0.calls|
    ensures CallAt(s0, es[..n], j, c) == CallAt(s0, es, j, c)
    ensures Run(s0, es[..n][..j]) == Run(s0, es[..j])
  {
    assert es[..n][..j] == es[..j];
  }

  /** How one event changes a call's attempt, if at all. */
  lemma {:induction false} AttemptStep<V, R>(s: System<V, R>, e: Event<V, R>, c: nat)
    requires c < |s.calls|
    ensures var call, call' := s.calls[c], Step(s, e).calls[c];
            && |call'.failures| >= |call.failures|
            && (call'.phase.Waiting? && !call.phase.Waiting? ==> |call'.failures| > |call.failures|)
            && (call'.phase.Running? && !call.phase.Running? ==>
                  call.phase.Waiting? && |call'.failures| == |call.failures|
                  && call'.phase.answers == [] && call'.phase.txn.tracked == map[])
            && (call'.phase.Running? && call.phase.Running? ==>
                  |call'.failures| == |call.failures| && call'.phase.program == call.phase.program
                  && (e == Act(c) || call'.phase == call.phase))
  {
  }

  /** Once the call waits again, every attempt that was running before has failed. */
  lemma {:induction false} WaitingMeansFailed<V, R>(s0: System<V, R>, es: seq<Event<V, R>>, j: nat, c: nat)
    requires j <= |es| && c < |s0.calls| && CallAt(s0, es, j, c).phase.Running?
    ensures |Run(s0, es).calls[c].failures| >= |CallAt(s0, es, j, c).failures|
    ensures Run(s0, es).calls[c].phase.Waiting? ==> |Run(s0, es).calls[c].failures| > |CallAt(s0, es, j, c).failures|
    decreases |es|
  {
    if j < |es| {
      var n := |es| - 1;
      CallAtPrefix(s0, es, n, j, c);
      WaitingMeansFailed(s0, es[..n], j, c);
      AttemptStep(Run(s0, es[..n]), es[n], c);
    } else {
      assert es[..j] == es;
    }
  }

  /** Event j is the action by which the attempt that is running at the end of the run first wrote k. */
  ghost predicate FirstStaging<V, R>(s0: System<V, R>, es: seq<Event<V, R>>, c: nat, k: Key, j: nat)
    requires c < |s0.calls|
  {
    && j < |es| && es[j] == Act(c)
    && FirstWriteOf(CallAt(s0, es, j, c), k, |Run(s0, es).calls[c].failures|)
  }

  /** In the attempt after so many failures, the call is about to write k for the first time. */
  ghost predicate FirstWriteOf<V, R>(call: Call<V, R>, k: Key, failures: nat) {
    |call.failures| == failures && FirstWrite(call, k)
  }

  ghost predicate FirstWrite<V, R>(call: Call<V, R>, k: Key) {
    && call.phase.Running?
    && var Running(p, h, _, _) := call.phase;
       WritesAt(p, h, |h|, k) && !Wrote(p, h, k)
  }

  /** The tracked sequence of a key is that of the moment of its first staging. */
  ghost predicate TracksFirstStaging<V, R>(s0: System<V, R>, es: seq<Event<V, R>>, c: nat, k: Key)
    requires c < |s0.calls| && Run(s0, es).calls[c].phase.Running?
  {
    var tracked := Run(s0, es).calls[c].phase.txn.tracked;
    && (k in tracked ==> exists j: nat :: FirstStaging(s0, es, c, k, j))
    && (forall j: nat | FirstStaging(s0, es, c, k, j) ::
          k in tracked && tracked[k] == s0.store.seqNo + |Run(s0, es[..j]).log|)
  }

  lemma {:induction false} EarlierStaging<V, R>(s0: System<V, R>, es: seq<Event<V, R>>, c: nat, k: Key, j: nat)
    requires es != [] && c < |s0.calls| && j < |es| - 1
    requires |Run(s0, es).calls[c].failures| == |Run(s0, es[..|es| - 1]).calls[c].failures|
    ensures FirstStaging(s0, es, c, k, j) == FirstStaging(s0, es[..|es| - 1], c, k, j)
  {
    CallAtPrefix(s0, es, |es| - 1, j, c);
  }

  /** A new attempt has staged nothing, and no event before it counts. */
  lemma {:induction false} StartTracksNothing<V, R>(s0: System<V, R>, es: seq<Event<V, R>>, c: nat, k: Key)
    requires es != [] && c < |s0.calls| && Run(s0, es).calls[c].phase.Running?
    requires !Run(s0, es[..|es| - 1]).calls[c].phase.Running?
    ensures TracksFirstStaging(s0, es, c, k)
  {
    var n := |es| - 1;
    AttemptStep(Run(s0, es[..n]), es[n], c);
    forall j: nat ensures !FirstStaging(s0, es, c, k, j) {
      if FirstStaging(s0, es, c, k, j) {
        CallAtPrefix(s0, es, n, j, c);
        WaitingMeansFailed(s0, es[..n], j, c);
      }
    }
  }

  /** An action of the running attempt, or an event that does not concern it. */
  lemma {:induction false} ActTracksFirst<V, R>(s0: System<V, R>, es: seq<Event<V, R>>, c: nat, k: Key)
    requires Initial(s0) && es != [] && c < |s0.calls| && !s0.calls[c].snapshot
    requires Run(s0, es).calls[c].phase.Running? && Run(s0, es[..|es| - 1]).calls[c].phase.Running?
    requires TracksFirstStaging(s0, es[..|es| - 1], c, k)
    ensures TracksFirstStaging(s0, es, c, k)
  {
    var n := |es| - 1;
    var s, s' := Run(s0, es[..n]), Run(s0, es);
    RunKeepsInv(s0, es[..n]);
    assert CallInv(s0, s, c);
    AttemptStep(s, es[n], c);
    var Running(p, h, txn, _) := s.calls[c].phase;
    StagedIffWritten(p, h, k);
    TrackedAfterStep(s, es[n], c, k);
    NextStaging(s0, es, c, k);
    var tracked' := s'.calls[c].phase.txn.tracked;
    if k in tracked' && k !in txn.tracked { assert FirstStaging(s0, es, c, k, n); }
    if k in txn.tracked {
      var j: nat :| FirstStaging(s0, es[..n], c, k, j);
      assert FirstStaging(s0, es, c, k, j);
    }
    forall j: nat | FirstStaging(s0, es, c, k, j)
      ensures k in tracked' && tracked'[k] == s0.store.seqNo + |Run(s0, es[..j]).log|
    {
      if j < n { assert FirstStaging(s0, es[..n], c, k, j); }
    }
  }

  /** The first stagings of the running attempt are those known before, and the last event if it is one. */
  lemma {:induction false} NextStaging<V, R>(s0: System<V, R>, es: seq<Event<V, R>>, c: nat, k: Key)
    requires es != [] && c < |s0.calls|
    requires |Run(s0, es).calls[c].failures| == |Run(s0, es[..|es| - 1]).calls[c].failures|
    ensures forall j: nat | j < |es| - 1 ::
              FirstStaging(s0, es, c, k, j) == FirstStaging(s0, es[..|es| - 1], c, k, j)
                && es[..|es| - 1][..j] == es[..j]
    ensures FirstStaging(s0, es, c, k, |es| - 1)
            <==> es[|es| - 1] == Act(c) && FirstWrite(Run(s0, es[..|es| - 1]).calls[c], k)
  {
    forall j: nat | j < |es| - 1
      ensures FirstStaging(s0, es, c, k, j) == FirstStaging(s0, es[..|es| - 1], c, k, j)
              && es[..|es| - 1][..j] == es[..j]
    {
      EarlierStaging(s0, es, c, k, j);
      assert es[..|es| - 1][..j] == es[..j];
    }
  }

  /**
   One event adds a key to what is tracked exactly when it is the first write of that key, and then
   with the present sequence.
   */
  lemma {:induction false} TrackedAfterStep<V, R>(s: System<V, R>, e: Event<V, R>, c: nat, k: Key)
    requires c < |s.calls| && s.calls[c].phase.Running? && Step(s, e).calls[c].phase.Running?
    requires s.calls[c].phase.txn.snapshot == None
    ensures var tracked, tracked' := s.calls[c].phase.txn.tracked, Step(s, e).calls[c].phase.txn.tracked;
            var Running(p, h, _, _) := s.calls[c].phase;
            if e == Act(c) && WritesAt(p, h, |h|, k) && k !in tracked
            then k in tracked' && tracked'[k] == s.store.seqNo
            else (k in tracked' <==> k in tracked) && (k in tracked ==> tracked'[k] == tracked[k])
  {
    var Running(p, h, _, _) := s.calls[c].phase;
    assert h[..|h|] == h;
  }

  lemma {:induction false} TrackedFromFirstStaging<V, R>(s0: System<V, R>, es: seq<Event<V, R>>, c: nat, k: Key)
    requires Initial(s0) && c < |s0.calls| && !s0.calls[c].snapshot && Run(s0, es).calls[c].phase.Running?
    ensures TracksFirstStaging(s0, es, c, k)
    decreases |es|
  {
    var n := |es| - 1;
    if Run(s0, es[..n]).calls[c].phase.Running? {
      TrackedFromFirstStaging(s0, es[..n], c, k);
      ActTracksFirst(s0, es, c, k);
    } else {
      StartTracksNothing(s0, es, c, k);
    }
  }

  /** Since event j, which first staged k, some batch has written k. */
  ghost predicate OverwrittenSince<V, R>(s0: System<V, R>, es: seq<Event<V, R>>, c: nat, k: Key, j: nat)
    requires c < |s0.calls|
  {
    FirstStaging(s0, es, c, k, j) && WrittenSince(Run(s0, es).log, |Run(s0, es[..j]).log|, k)
  }

  /**
   The engine refuses a commit without a snapshot exactly when some key was written by a batch that
   was logged since the attempt first staged that key.
   */
  lemma {:induction false} UnisolatedCommitDecision<V, R>(s0: System<V, R>, es: seq<Event<V, R>>, c: nat)
    requires Initial(s0) && c < |s0.calls| && !s0.calls[c].snapshot && Run(s0, es).calls[c].phase.Running?
    ensures Conflicts(Run(s0, es).store, Run(s0, es).calls[c].phase.txn)
            <==> exists k, j: nat :: OverwrittenSince(s0, es, c, k, j)
  {
    var s := Run(s0, es);
    var txn := s.calls[c].phase.txn;
    RunKeepsInv(s0, es);
    if Conflicts(s.store, txn) {
      var k :| k in txn.tracked && LastMod(s.store, k) > txn.tracked[k];
      TrackedFromFirstStaging(s0, es, c, k);
      var j: nat :| FirstStaging(s0, es, c, k, j);
      LogGrows(s0, es, j);
      assert OverwrittenSince(s0, es, c, k, j);
    }
    if k, j: nat :| OverwrittenSince(s0, es, c, k, j) {
      TrackedFromFirstStaging(s0, es, c, k);
      var i: nat :| |Run(s0, es[..j]).log| <= i < |s.log| && k in s.log[i].writes;
      assert LastMod(s.store, k) > s0.store.seqNo + i;
    }
  }

  lemma {:induction false} LogGrows<V, R>(s0: System<V, R>, es: seq<Event<V, R>>, j: nat)
    requires j <= |es|
    ensures |Run(s0, es[..j]).log| <= |Run(s0, es).log|
    decreases |es|
  {
    if j < |es| {
      assert es[..|es| - 1][..j] == es[..j];
      LogGrows(s0, es[..|es| - 1], j);
    } else {
      assert es[..j] == es;
    }
  }
}
