# A verified model of RockSolid

RockSolid wraps RocksDB: column-family stores, optimistic transactions with automatic retries,
prefix and range iteration with a stateful control closure, merge operators with routing, tuning
profiles, batches, expiring values and sortable base62 keys. This project models the parts that
make decisions of their own and proves what they promise. `dafny verify dfyconfig.toml` checks it.

## How the model is laid out

| files | part |
|---|---|
| `OptimisticEngine`, `OptimisticProtocol`, `ProtocolInvariant`, `OptimisticTheorems`, `ConflictDetection`, `ProtocolWitnesses` | optimistic transactions as a state machine: any number of calls, each begin, read, staged write, commit and retry a step of its own, interleaved with plain writes by others |
| `SerialityCondition` | exactly which closures are serializable, and read one point in time, under a snapshot |
| `OptimisticStore`, `ContextAttempts` | the same as objects: the retry loop of the builder, proved to perform the run of the state machine that its closure and its environment determine, and the single-attempt context |
| `Transfers` | the account transfer of the repository's example, run concurrently |
| `Tables`, `Iteration`, `IterationDrivers` | the iteration engine: sorted tables and cursors, one reference scan, the three drivers |
| `Base62`, `ExpiryCodec` | sortable keys and values with an expiry header |
| `MergeHistory`, `MergeRouting` | merge operators, fold schedules, routing, operand validation |
| `Tuning`, `OptionsPipeline` | lock-or-tune options, the profiles, the two open paths |
| `CfStores`, `Migration` | column-family writes, the batch writer, database migration |
| `Wrappers`, `StoreErrors`, `MachineWords`, `ByteStrings` | shared vocabulary; byte strings with their lexicographic order |

RocksDB is represented by a small contract: a global sequence number, the last-modified sequence of each
key, atomic batches, and a commit that checks every *tracked* key and then installs all staged writes or
none. Keys are tracked when they are staged, from the snapshot's sequence if there is one and from the
moment of staging otherwise. A read returns the transaction's own staged write or else the currently
committed value, because no read in the code is given the snapshot (src/tx/optimistic_context.rs:172,
src/tx/optimistic_context.rs:308). For safety properties the engine may also refuse a commit without a
conflict; only the progress results exclude that.

A transaction closure is a `Program`: what it does next (read, stage a write, return, fail) as a function
of the answers it has received so far. Different attempts may run different programs, since the closure is
an `FnMut`.

## Where the code differs from its documentation

- The comment at src/tx/cf_optimistic_tx_store.rs:181 says a commit fails if any key *read* was modified,
  and README.GUIDE.md:710 promises point-in-time reads. The code tracks only keys it writes and reads
  current values. `ProtocolWitnesses.ReadOnlyKeysAreNotChecked` gives a run with two committed snapshot
  transactions that commit order does not explain, and `ProtocolWitnesses.SnapshotReadsAreNotPointInTime` a
  committed snapshot transaction that has read a state which never existed. The exact condition is the same
  for both and can be read off the closure before any call: it commits no history that reads a key from the
  store without also writing it. `SerialityCondition.AlwaysSerialIffCovered` proves that every snapshot commit
  of a closure is serial at its place, in every run, if and only if this holds, and
  `SerialityCondition.AlwaysPointInTimeIffCovered` that the reads of every snapshot commit are those of its
  begin if and only if it holds. What always holds, for every closure, is
  `SerialityCondition.CommitReadsItsKeysAtBegin`: the reads of keys that the commit also writes are.
- The transfer example conserves money only between distinct accounts, and, as release builds wrap, only
  while both new balances fit an i64 or both wrap: `Transfers.TransferConservesIff` is the exact condition.
- A prefix scan with a start key outside the prefix can miss records;
  `Iteration.PrefixScanFromAnyStartIff` says exactly when it does not, `Iteration.GapHidesRecords` shows one
  that does. `reverse` with a prefix and no
  start key scans forward (`Iteration.PrefixScanIsComplete` holds for both values of `reverse`).
- The two open paths treat a configured parallelism differently: `RocksDbCFStore::open` locks it, the
  transactional path does not, so there a profile overrides it
  (`OptionsPipeline.BuildStoreDbOptions`, `OptionsPipeline.BuildTxDbOptions`).
- A column family listed twice gets engine defaults the second time
  (`OptionsPipeline.BuildCfDescriptors`).
- Registering a full and a partial merge route together is not atomic
  (`MergeRouting.MergeRouters.AddRoute`); `MergeRouting.FullRouteAloneIsLawful` and
  `MergeRouting.PartialRouteAloneIffConcatenates` say what a half-registered route means for readers.

## Model

| member | source | states |
|---|---|---|
| OptimisticTheorems.CommitOrderSerializability | src/tx/optimistic.rs:56-94 | over every interleaving with plain writes and any retry policies, the store is the serial replay of the log in commit order, and every snapshot commit whose reads are covered by its writes, re-executed alone at its place, gives the result and writes it gave concurrently |
| OptimisticTheorems.CoveredClosuresAreSerializable | src/tx/optimistic.rs:56-94 | if every call takes a snapshot and every closure reads only keys it also writes, every commit of every run is serial |
| OptimisticTheorems.CommitDecision | src/tx/optimistic.rs:66-78 | a snapshot attempt conflicts if and only if some batch logged since its begin wrote a key it staged |
| ConflictDetection.UnisolatedCommitDecision | src/tx/optimistic.rs:97-115 | without a snapshot, an attempt conflicts if and only if some batch, logged since the event by which it first wrote a key, wrote that key |
| ConflictDetection.StagedIffWritten | src/tx/optimistic_context.rs:211-295 | a key is staged if and only if some step of the history writes it |
| ConflictDetection.StagedIsLastWrite | src/tx/optimistic_context.rs:211-295 | it is staged with the value of the last such step |
| OptimisticTheorems.ExactlyOnce | src/tx/optimistic.rs:63-91 | Ok(r) if and only if exactly one attempt of the call committed, with r its result; on Err nothing of the call ever became visible |
| OptimisticTheorems.ClosureRunsAreAttempts | src/tx/optimistic.rs:63-74 | the number of times a run really started the closure is what the state records |
| OptimisticTheorems.RetryTermination | src/tx/optimistic.rs:63-93 | under both shipped policies the closure runs at most max(1, max_attempts) times; giving up used all of them and returns the policy's exhaustion error, never its "not a RocksDB error" branch |
| OptimisticTheorems.CustomPolicyDecides | src/tx/optimistic.rs:77-82 | a policy of the user's own is asked with the attempt numbers 1, 2, 3, ...; a call that gives up has made exactly as many attempts as the first number it declines, and returns the error it declined with |
| OptimisticTheorems.ClosureErrorEndsCall | src/tx/optimistic.rs:86-90 | a closure error is returned at once, changes nothing, and stays the result whatever happens later |
| OptimisticTheorems.ReturnedIsFinal | src/tx/optimistic.rs:78-89 | nothing happens to a call after it has returned |
| OptimisticTheorems.GivingUpCostsConflicts | src/tx/optimistic.rs:63-85 | without spurious refusals, giving up costs at least max(1, max_attempts) foreign batches on keys the call wrote, at least one in each of its pairwise disjoint attempt windows |
| OptimisticTheorems.FewConflictsForceSuccess | src/tx/policies.rs:27-33 | fewer conflicting foreign batches than attempts force success |
| OptimisticTheorems.FailuresAreConflicts | src/tx/optimistic.rs:77-82 | without spurious refusals every failed attempt is a real conflict |
| OptimisticTheorems.CommitOfStartedProgram | src/tx/optimistic.rs:74-78 | every commit is that of a closure somebody started, with a history the transaction could have answered |
| ProtocolInvariant.SerialIffReadsAgree | src/tx/optimistic.rs:74-78 | a concurrent history is the history of the closure run alone on a store if and only if every read the store served agrees with it |
| ProtocolInvariant.StepKeepsInv | src/tx/optimistic.rs:56-123 | every step of every call keeps the protocol invariant |
| ProtocolInvariant.RunKeepsInv | src/tx/optimistic.rs:56-123 | the invariant holds in every reachable state |
| SerialityCondition.AlwaysSerialIffCovered | src/tx/optimistic.rs:56-94 | every snapshot commit of a closure is serial at its place, in every run from every initial state, if and only if the closure commits no history that reads a key it does not write |
| SerialityCondition.AlwaysPointInTimeIffCovered | README.GUIDE.md:710 | the reads of every snapshot commit of a closure are all of the state at its begin if and only if the same condition holds |
| SerialityCondition.UncoveredCommitIsNotSerial | src/tx/cf_optimistic_tx_store.rs:179-185 | any committable history with an uncovered read has a run that commits it where the closure alone would have answered differently |
| SerialityCondition.UncoveredReadIsNotOfBegin | README.GUIDE.md:710 | the same history has a run in which the engine accepts the commit although that read is not of the begin |
| SerialityCondition.CommitReadsItsKeysAtBegin | src/tx/optimistic.rs:66-78 | in every snapshot commit of every closure, the reads of written keys are those of the state at its begin |
| SerialityCondition.UntouchedReadsAreOfBegin | src/tx/optimistic_context.rs:300-322 | a store read of a key that nobody has written since the begin is its value at the begin |
| ProtocolWitnesses.SnapshotReadsAreNotPointInTime | README.GUIDE.md:710 | one run: a snapshot attempt reads two keys around a foreign batch, sees a pair that no state of the run holds, and commits |
| ProtocolWitnesses.SnapshotFlagPreventsLostUpdate | src/tx/optimistic.rs:102-108 | one interleaving of two increments: without the snapshot flag both commit and an update is lost, with it the late one is refused |
| ProtocolWitnesses.ReadOnlyKeysAreNotChecked | src/tx/cf_optimistic_tx_store.rs:179-185 | the documented read check does not exist: a write-skew run in which both snapshot calls commit although the second would have failed alone |
| OptimisticStore.OptimisticTransactionBuilder.Execute | src/tx/optimistic.rs:56-123 | both execute methods: final store, result and number of closure invocations are those of the one protocol run in which invocations 0, 1, ... of this closure are attempted in order, with exactly the environment's batches and refusals in between; the loop ends by the attempt after which the policy gives up |
| OptimisticStore.OptimisticTransactionBuilder.RunOperation | src/tx/optimistic.rs:73-74 | running the closure inside the transaction extends the run by exactly its actions and the batches delivered before each |
| OptimisticStore.OptimisticTransactionBuilder.Settle | src/tx/optimistic.rs:74-91 | commit, closure error and policy: the verdict of one attempt |
| OptimisticStore.StoreIsAccountedFor | src/tx/optimistic.rs:63-91 | of that run nothing but the environment's batches and at most one finished invocation of this closure reaches the store, and an Ok result is the result of that invocation |
| OptimisticStore.RunIsComplete | src/tx/optimistic.rs:63-74 | that run starts exactly the invocations 0, 1, ... of the closure and delivers all batches of the environment up to its last step, both in order |
| OptimisticStore.RunIsNeverRefused | src/tx/optimistic.rs:77-82 | an engine that refuses nothing without a conflict gives a run to which the progress results apply |
| OptimisticStore.ShippedPoliciesGiveUp | src/tx/policies.rs:26-64 | FixedRetry and NoRetry give up after exactly max(1, max_attempts) attempts and not before |
| ContextAttempts.RunThroughContext | src/tx/optimistic_context.rs:211-365 | logic run through a single-attempt context is one attempt of the protocol under the policy that never retries, so all results about calls cover it |
| OptimisticStore.Database.Commit | src/tx/optimistic.rs:76-79 | all staged writes are installed, or none and an error |
| OptimisticStore.OptimisticTransactionContext.constructor | src/tx/optimistic_context.rs:43-56 | a fresh transaction, not completed, with or without snapshot |
| OptimisticStore.OptimisticTransactionContext.Stage | src/tx/optimistic_context.rs:211-295 | a put or delete is staged and tracked, or refused with the right error; the database is untouched |
| OptimisticStore.OptimisticTransactionContext.Get | src/tx/optimistic_context.rs:300-322 | own staged write first, else the current committed value |
| OptimisticStore.OptimisticTransactionContext.Commit | src/tx/optimistic_context.rs:350-357 | takes the transaction exactly once, whatever the engine answers; all or nothing |
| OptimisticStore.OptimisticTransactionContext.Rollback | src/tx/optimistic_context.rs:360-365 | completes the context and changes nothing in the database; an engine error is passed on |
| OptimisticStore.OptimisticTransactionContext.Drop | src/tx/optimistic_context.rs:499-514 | an open context gives its transaction up; a completed one has none left |
| Transfers.TransfersConserveMoney | examples/optimistic_transaction.rs:36-73 | in every reachable state of any number of concurrent transfers between distinct accounts the accounts, the sum of balances and non-negativity are kept, and nothing overflows |
| Transfers.TransferConservesIff | examples/optimistic_transaction.rs:59-66 | for all i64 balances and amounts, one transfer keeps the sum if and only if it moves nothing to oneself, or the accounts differ and both new balances fit an i64 or both wrap |
| Transfers.TransferAlone | examples/optimistic_transaction.rs:36-73 | alone on a store, a transfer fails on a missing account or too little money and finishes otherwise, with the amount moved and both versions counted up |
| Transfers.FinishedTransfer | examples/optimistic_transaction.rs:36-73 | a finished transfer read its two accounts from the store, staged exactly their updates, and is covered |
| Iteration.PrefixScanIsComplete | src/iter/helpers.rs:79-131 | with a prefix and no start key, on any sorted table and under any control, the scan is the user's control run over exactly the prefixed records, ascending, for either value of `reverse` |
| Iteration.PrefixScanFromPrefixedStart | src/iter/helpers.rs:88-131 | with a start key inside the prefix, exactly the prefixed records at the start key and beyond it, in strict key order of the direction |
| Iteration.PrefixScanFromAnyStartIff | src/iter/helpers.rs:88-131 | from any start key, in either direction, the scan is complete if and only if no stored record without the prefix lies between the start and a prefixed record |
| Iteration.UnprefixedScan | src/iter/helpers.rs:88-103 | without a prefix and under any control, the user's control run over the whole table, or over exactly the records at the start key and less (reverse) or greater (forward), in strict key order of that direction |
| Iteration.GapHidesRecords | src/iter/helpers.rs:88-131 | a table and a start key for which the scan misses a prefixed record |
| Iteration.UserSeesOnlyPrefixed | src/iter/helpers.rs:117-131 | the user control is never called on, and the scan never yields, a key outside the prefix |
| Iteration.ScanGoesOn | src/iter/mod.rs:143-165 | the index passed to the control is the number of records kept so far, wherever the input is cut |
| Iteration.RecordIsDecided | src/iter/mod.rs:146-158 | each record reached is decided by one call of the user's control with the state so far and the number of records kept before it, and is kept if and only if that says Keep |
| Iteration.ScanEndsEarly | src/iter/mod.rs:149-161 | after a Stop or an error nothing further is read |
| Iteration.EnforcedScanIsHeadScan | src/iter/helpers.rs:108-131 | a prefix-enforced scan under any stateful control is the user's own scan of the head that carries the prefix: same records, calls, indices and final state |
| IterationDrivers.EffectiveControl.Decide | src/iter/helpers.rs:107-131 | prefix enforcement composed with the user's FnMut |
| IterationDrivers.RawIter.Next | src/iter/helpers.rs:161-180 | the Raw driver peels one kept record off the reference scan, making the same control calls |
| IterationDrivers.ControlledIter.Next | src/iter/mod.rs:143-165 | the Deserialize driver peels the same record, and deserializes it |
| IterationDrivers.ControlOnly | src/iter/helpers.rs:189-206 | the ControlOnly driver makes exactly the control calls of the reference scan and ends in its state |
| IterationDrivers.CollectRaw | src/iter/helpers.rs:161-180 | draining the Raw driver yields the scan's records, its calls and its state |
| IterationDrivers.CollectDeserialized | src/iter/mod.rs:143-165 | draining the Deserialize driver yields the deserialized records of the same scan, or the first failure |
| IterationDrivers.CollectedIsFirstFailure | src/cf_store.rs:773-776 | collecting gives the first failure in scan order, of a deserialization or of the engine, and otherwise all outputs |
| IterationDrivers.DeserializedIsMappedRaw | src/iter/mod.rs:157-159 | with a deserializer that never fails, the one output is the element-wise image of the other |
| IterationDrivers.Execute | src/iter/helpers.rs:65-209 | in all three modes, what the caller gets is the one scan the configuration requests |
| IterationDrivers.FindByPrefix | src/cf_store.rs:758-777 | all prefixed records, ascending even when reverse is asked for, or the first deserialization or engine error, the latter exactly if the engine fails no later than right behind them |
| IterationDrivers.FaultedPrefixScan | src/iter/mod.rs:143-165 | at which failures of the engine a prefix scan ends with its error, and what it has yielded by then |
| Tables.ClosedIffNoGap | src/iter/helpers.rs:88-103 | in cursor order no foreign record precedes a prefixed one exactly when there is no gap |
| Base62.TimeKeysSort | src/utils/base62.rs:9-29 | time keys are exactly 11 characters and sort bytewise as their timestamps, over all u64 |
| Base62.DescendingTimeKeys | src/utils/base62.rs:180-196 | encoding u64::MAX - ts reverses the order and loses nothing |
| Base62.DecodeEncodePad | src/utils/base62.rs:17-20 | decode undoes encode_pad for every u64 and every width |
| Base62.EncodePadDecode | src/utils/base62.rs:71-87 | encode_pad at the string's own width undoes decode |
| Base62.DecodeIsValue | src/utils/base62.rs:71-87 | a nonempty alphabet string decodes to the number it denotes, and overflows if and only if that is at least 2^64 |
| Base62.DecodeRejectsForeignBytes | src/utils/base62.rs:82-86 | the first foreign byte is reported with its position, unless the digits before it already overflow |
| Base62.OrderIsNumeric | src/utils/base62.rs:166-178 | at equal length, bytewise order and equality are numeric order and equality |
| Base62.DigitsCountUp | src/utils/base62.rs:62-63 | the digit bytes are exactly 0-9, A-Z, a-z and count upwards in byte order, which fixes the alphabet |
| Base62.KnownNumeral | src/utils/base62.rs:116-121 | 1700 is "RQ" both ways, and the empty string is an error |
| Base62.U64Fits | src/utils/base62.rs:7-9 | every u64 has at most 11 digits |
| Base62.EncodeFastPad | src/utils/base62.rs:41-64 | the buffer holds what encode_pad returns; a panic exactly for a wrong buffer size or too small a width |
| Base62.EncodeBytes | src/utils/base62.rs:51-54 | the minimal digits at the front of the scratch buffer, which is large enough |
| ExpiryCodec.DecodeUndoesEncode | src/types.rs:60-97 | reading back a stored value gives the value |
| ExpiryCodec.EncodeUndoesDecode | src/types.rs:21-97 | a string decodes if and only if it has at least 8 bytes; then all decoders agree and encoding gives the string back |
| ExpiryCodec.StoredSortByExpiry | src/types.rs:62-67 | stored bytes sort by expiry time, then by raw value |
| ExpiryCodec.ExpireTimeFromSlice | src/types.rs:21-32 | the big-endian number in the first 8 bytes, 0 when there are fewer |
| ExpiryCodec.SerializeForStorage | src/types.rs:62-110 | header then value; decodes to the same value |
| ExpiryCodec.FromVec | src/types.rs:113-133 | agrees with from_slice where that succeeds, panics elsewhere |
| MergeHistory.ScheduleIndependence | src/config.rs:82-112 | under lawful merge functions, reading after any schedule of full and partial folds is reading after none |
| MergeHistory.LawfulIffScheduleIndependent | src/merge.rs:129-178 | the fold laws are exactly what schedule independence needs |
| MergeHistory.HandlerLawsSuffice | src/merge.rs:129-178 | context-free laws on a pair of handlers are enough |
| MergeHistory.DefaultsAreLawful | src/config.rs:82-112 | the default operators satisfy the laws |
| MergeHistory.DefaultReadsConcatenation | src/config.rs:82-112 | for every history and schedule a key reads as its base and the operands since the last put or delete, concatenated |
| MergeHistory.LastWriteThenMerges | src/config.rs:82-112 | if, folds apart, a put of v and then these operands came last, a key reads as v followed by them; after a delete as the operands alone, or absent |
| MergeHistory.DefaultFullMerge | src/config.rs:82-106 | an existing value followed by the operands, the operands alone on an absent one, and nothing merged onto nothing stays nothing |
| MergeRouting.MergeRouters.RouterFullMerge | src/merge.rs:129-152 | applies the handler of the pattern that the key matches to the key, the existing value and the operands; else the existing value is followed by the operands |
| MergeRouting.MergeRouters.RouterPartialMerge | src/merge.rs:155-178 | the same handler rule for partial merges; else declines |
| MergeRouting.MergeRouters.AddFullMergeRoute | src/merge.rs:48-64 | adds the route or reports the conflict and changes nothing |
| MergeRouting.MergeRouters.AddPartialMergeRoute | src/merge.rs:69-85 | the same for partial routes |
| MergeRouting.MergeRouters.AddRoute | src/merge.rs:91-100 | both routes or an error; when only the second conflicts the first stays registered; a key that both tables then send there gets exactly this pair, and is schedule independent if the pair obeys the handler laws |
| MergeRouting.PairIsLawful | src/merge.rs:129-178 | two handlers of one key that obey the pair laws, stated on the handlers themselves, make the key schedule independent |
| MergeRouting.RoutedReadsIgnoreFolds | src/merge.rs:129-178 | under the registered operator, a key whose routed handlers fit (both, one or none of them routed) reads the same under every fold schedule |
| MergeRouting.FullRouteAloneIsLawful | src/merge.rs:154-178 | a key without a partial route needs only the full handler's law |
| MergeRouting.PartialRouteAloneIffConcatenates | src/merge.rs:129-178 | a key with only a partial route is schedule independent if and only if that handler concatenates or declines |
| MergeRouting.ValidateMergeValues | src/merge.rs:182-203 | accepts exactly the nonempty lists that decode to one operator, in order; otherwise reports the first offence |
| MergeRouting.ValidateExpirableMergeValues | src/merge.rs:206-231 | the same behind the expiry header, with the latest expiry time |
| MergeRouting.ValidationSplits | src/merge.rs:182-231 | acceptance and latest expiry distribute over every split of the list |
| Tuning.Tunable.Set | src/tuner/tunable.rs:58-65 | a hard setter writes and locks |
| Tuning.Tunable.TuneSet | src/tuner/tunable.rs:66-79 | a tuning setter writes unless locked |
| Tuning.HardWinsOverTune | src/tuner/tunable.rs:16-79 | after any sequence of calls an option holds its last hard value, else its last tuned value if it was not locked, else what it held |
| Tuning.DbProfileRespectsLocks | src/tuner/profiles.rs:157-247 | no profile changes a locked database option, and none locks anything |
| Tuning.CfProfileLocks | src/tuner/profiles.rs:249-405 | a profile locks exactly one column-family option, and only for FIFO time series |
| Tuning.DbProfileValues | src/tuner/profiles.rs:157-247 | what every option of the database holds after every profile |
| Tuning.CfProfileValues | src/tuner/profiles.rs:249-405 | what every option of a column family holds after every profile |
| Tuning.ProfileSetsParallelism | src/tuner/profiles.rs:157-247 | the parallelism an unlocked database ends with, for every profile |
| OptionsPipeline.BuildStoreDbOptions | src/cf_store.rs:190-221 | a configured parallelism survives every profile; the other plain settings are kept |
| OptionsPipeline.BuildTxDbOptions | src/tx/internal.rs:124-156 | any profile overrides the configured parallelism; the other plain settings are kept |
| OptionsPipeline.TuneColumnFamilies | src/cf_store.rs:226-245 | each listed family is tuned by its own profile, else the database's |
| OptionsPipeline.AttachConfigured | src/cf_store.rs:272-317 | merge operator, comparator and filter are attached per family, in whatever order the map iterates |
| OptionsPipeline.DrainDescriptors | src/cf_store.rs:319-331 | one descriptor per listed name; a repeated name gets defaults |
| OptionsPipeline.BuildCfDescriptors | src/tx/internal.rs:37-106 | every family gets its final options the first time it is listed, independently of map order |
| OptionsPipeline.FirstListingFollowsConfig | src/cf_store.rs:232-331 | at its first listing a family gets the configured operator with its functions or the defaults, comparator unless bytewise, filter, and the settings of its own profile or else the database's; without an entry only the latter |
| OptionsPipeline.OpenCfStore | src/cf_store.rs:183-331 | the store's open path as a whole: descriptors, parallelism and plain settings |
| OptionsPipeline.OpenTransactional | src/tx/internal.rs:16-121 | the transactional open path as a whole: the same descriptors for the same configuration, its own parallelism rule and plain settings |
| OptionsPipeline.OpeningsAgree | src/cf_store.rs:272-331 | two openings of one configuration, by either path and in any map or listing order, give each unrepeated family the same options |
| OptionsPipeline.DefaultOperatorIsLawful | src/cf_store.rs:276-281 | an operator configured without functions of its own is schedule independent |
| CfStores.OpEffects | src/cf_store.rs:609-717 | what each operation does to every single key |
| CfStores.RangeEnds | src/cf_store.rs:662-677 | a nonempty range delete takes its start key and keeps its end key |
| CfStores.BatchPerKey | src/cf_store.rs:609-717 | key by key, a sequence of writes leaves its last put or delete and the merges after it |
| CfStores.BatchReads | src/batch.rs:193-204 | hence, under the default operators, what every key reads as after a batch |
| CfStores.Perform | src/cf_store.rs:609-717 | a single write through the store changes its own family only, or fails and changes nothing |
| CfStores.PerformOneByOne | src/cf_store.rs:609-717 | a sequence of single writes, and its exact error |
| CfStores.BatchWriter.Stage | src/batch.rs:56-182 | appends one operation or refuses; the store is untouched |
| CfStores.BatchWriter.Commit | src/batch.rs:193-204 | the whole batch on the writer's family, or an error and nothing |
| CfStores.BatchWriter.Discard | src/batch.rs:208-214 | empties the batch without the store in its frame |
| CfStores.StageAndCommit | src/batch.rs:33-204 | staging and committing gives the state and the error of performing the operations one by one |
| Migration.MigrateDb | src/utils/mod.rs:38-182 | on Ok every selected family is its old contents overridden by the source's records and nothing else changed; validation never finds an inconsistency after the copy, and only a validating run reports an engine error of the second pass |
| Migration.CopyAll | src/utils/mod.rs:70-117 | the copy loop; it succeeds whenever all selected families are open and the passes succeed |
| Migration.ValidateAll | src/utils/mod.rs:120-178 | without engine errors, Ok if and only if every selected source record reads back equal |
| Migration.CopyFamily | src/utils/mod.rs:103-115 | one family is overridden by what was scanned, every other one is untouched |

## Left out

- RocksDB itself: files, WAL, locking and compaction are replaced by the contract above; every batch advances the sequence number by one, and its conflict check is taken to be exact apart from spurious refusals.
- Point-in-time snapshot reads: the code performs none.
- Merges staged inside a transaction, and iteration inside a transaction over its own staged writes.
- OptimisticStore.OptimisticTransactionBuilder.Execute: the FnMut is one deterministic program per invocation and returns within some bound, and the policy gives up at some attempt; a closure that never returns or commits the transaction it was handed, and a custom policy that retries for ever, are not modelled.
- SerialityCondition.AlwaysSerialIffCovered: a closure gets the raw RocksDB transaction and could also call `get_for_update`, which tracks the key it reads, or read with the snapshot explicitly; a `Program` has only plain reads, puts and deletes.
- ContextAttempts.RunThroughContext: the logic names configured column families only; an operation on another one is refused (`OptimisticTransactionContext.Refusal`) and stages nothing.
- OptimisticStore.OptimisticTransactionContext.Drop: the memory side of `ManuallyDrop` is modelled only as "taken at most once".
- Sleeping and backoff between attempts, logging.
- The pessimistic store and context, default-family wrappers, DAO macros: delegation that would only add easy members.
- IterationDrivers.Execute: serialization of prefix and start key is taken as already done, no prefix extractor is configured, and deserializers keep no state of their own.
- IterationDrivers.RawIter.Next: iterators are not fused after a Stop; nothing is claimed beyond the first None.
- Base62.EncodeBytes: the base62 crate's own source is not part of this model; its digit loop is written out.
- Base62.DecodeRejectsForeignBytes: which error wins and the reported position follow from that written-out loop; the repository itself only passes the crate's error on.
- IterationDrivers.FindByPrefix: the variant inside a transaction also sees staged writes; here the table is what the iterator sees.
- MessagePack and bytevec serialization: decoders are parameters.
- MergeRouting.MergeRouters.RouterFullMerge: the matching rules of `matchit` and its path parameters are a parameter; handlers are functions of key, value and operands.
- Compaction-filter routing and the natural-order comparators.
- MergeHistory.ScheduleIndependence: a fold whose merge function declines leaves the history unchanged; RocksDB's own error state after a failed full merge during compaction is not modelled.
- Transfers.TransfersConserveMoney: accounts are already deserialized; a debug build would panic where a release build wraps.
- OptionsPipeline.OpenCfStore: custom option callbacks, opening with no families, the raw database handle, and the branch that inserts tunables for a listed but missing default family, which is dead because every listed name has just been inserted.
- Tuning.ProfileSetsParallelism: the I/O cap's f64 rate is a parameter, and write-buffer budgets are integers of megabytes.
- CfStores.BatchWriter.Stage: serialization failures and direct access to the raw batch.
- Migration.MigrateDb: engine errors of destination writes and reads; source and destination are different databases.
- Backup, destroy, rlimit helpers: I/O.
