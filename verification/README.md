# MORPHEUS: a verified model of its hard cores

MORPHEUS synthesises data-structure configurations, generates C++ index classes for them, and
manages the switch from one verified artifact to another at run time. This project models the
parts of it whose correctness is not visible in any single function, and proves what they
promise:

1. **The generated stable-slot index** (`Queries`, `Keys`, `Containers`, `Routes`, `Codegen`, `Reference`,
   `Answers`, `GeneratedIndex`, `Driver`). The generator loop, the class it emits with its
   append-only slots, live order, dirty-flag cache and one secondary index per query route, and
   the stateful driver with its greedy comparison. For every list of supported routes and every
   sequence of operations the class refines a plain vector of records.
2. **The local recovery anchor** (`Text`, `Json`, `JsonRoundTrip`, `Utf8`, `HeadStore`,
   `AnchorProtocol`, `AnchorSafety`, `AnchorTheorems`, `AnchorRuns`, `AnchorRelease`,
   `AnchorCleanup`, `AnchorRace`, `Lineage`). A byte-level printer and parser for the head file, advancement by any
   number of writers as interleaved file steps with failures and crashes, and the hash-chained
   lineage with the gate that extends an expected head.
3. **Router, commit and recovery** (`Router`, `RouterRuns`, `Mixes`, `Controllers`,
   `Orchestrator`, `OrchestratorMoves`, `OrchestratorRuns`, `OrchestratorWitnesses`, `Records`,
   `Checkpoint`, `Interchange`, `Tampering`). The versioned router, the commit over three controllers with
   fault compensation, runs of all of them together under both orchestrators of the program, and
   checkpoints: capture, canonical bytes, strict import, verification of a recovered router, and
   what becomes of one whose routes were changed.
4. **Adaptation policies** (`Policies`, `TransitionAware`, `Oracle`). Three online policies and
   the dynamic program they are judged against.
5. **Smaller agreement cores** (`Reals`, `Sums`, `Drift`, `Phases`, `Calibration`,
   `Confidence`). Total variation over trace windows, calibration coverage against the cost model
   that consumes the same evidence, interval-based decision confidence.

Conventions. Code that updates objects or variables step by step is a class or a method proved
against a specification function; pure code is functions and lemmas. A raised exception is an
`Option`, a `Result` or an outcome constructor. Python strings are sequences of code points,
surrogates included. SHA-256 is a parameter: any function whose results are 64 lower-case
hexadecimal digits, and freedom from collisions is a hypothesis of the lemmas that need it.
Several modules take such outside pieces, or a whole file format, as a value of a datatype of
functions (`Format`, `Reading`, `Signer`); each has a function that supplies the pieces
the code uses.

## Where the code does not do what one might expect

Each of these is proved with the exact condition under which the expectation holds.

- Bitmap routes: once 2^32 slots exist, `insert` throws after the record is stored, and the
  bitmap route then misses it (`GeneratedIndexModel.GeneratedIndex.Insert`,
  `Routes.OverflowLeavesBitmapStale`). With fewer slots no mutation throws.
- The driver asks prefix queries with limit 100 and compares with an unlimited scan; the check
  passes exactly if no more records match (`Driver.Check`, `Driver.Run`).
- A locked advancement can raise although its head is published, because the check after the
  unlink sees another writer's lock. A call that publishes, none of its own steps failing,
  raises exactly if between its unlink and its check another writer has created the lock and
  not yet let it go (`AnchorRelease.RaisesIffTakenOver`); a lock that came and went does no harm
  (`AnchorRelease.TakenAndLetGo`). A caller about to take the free lock can count on "published
  means returned" exactly if no other call has yet to begin (`AnchorRelease.AlwaysReturnsIff`).
- Without a lock an update can be lost, and one call without a lock suffices
  (`AnchorRace.BareCallLosesUpdate`). All runs keep the chain of publications exactly if there
  are no two calls, one of them unlocked, that fit one head the anchor can come to hold
  (`AnchorRace.ChainKeptIffNotRacy`); a call that is not ready at the outset can become so.
- An identifier with a high surrogate followed by a low one does not survive export and import
  (`Interchange.CapturedRoundTrip`, `Interchange.SplitPairIdIsLost`), and a checkpoint's digest does
  not tell it from the joined character; apart from that, and from collisions, the digest
  determines the routes (`Tampering.SameDigestIff`).
- `authorize_commit` activates the route before its protected block: an activation that raises
  after its effect leaves the route at the target and nothing else moved
  (`Orchestrator.SafeAdaptationOrchestrator.AuthorizeCommit`).
- `rollback` of the orchestrator has no compensation and does not check for a pending
  recommendation, which makes its second mutation raise. All ledgers move or none does exactly if
  nothing raises before the last effect, or the very first mutation raises before its own
  (`Orchestrator.RollbackIsAtomicIff`).
- `rollback` of a committed migration need not return to that migration's source. From any
  ledgers it does exactly if both mutations take effect and the session's previous candidate and
  the candidate told by the route's history are that source; session and route end together
  exactly if neither moves or both do and those two are equal
  (`OrchestratorRuns.ReturnsToSourceIff`). Over every run those two are what the session left at
  its last switch and what the route showed before its last standing activation
  (`OrchestratorRuns.RollbackLandsWhereItLeft`); if one commit did both, they agree
  (`OrchestratorRuns.OneCommitReturns`). They need not: after A to B, B to C, C to B the rollback
  of the first migration lands on C (`OrchestratorWitnesses.RollingBackAnEarlierMigration`), and
  session and route part when a second session is bound to the deployment
  (`OrchestratorWitnesses.SharedDeploymentParts`) or switches are confirmed on the runtime itself
  (`OrchestratorWitnesses.DirectConfirmsPart`).
- `abort` drops what is staged under the migration's target before it looks at the migration's
  state: the abort of a committed migration can drop what another one has staged, and then raise
  (`Orchestrator.AbortIsAtomicIff`).
- Two leases with one generation hold one version exactly as long as no `reset` comes in between
  (`RouterRuns.IdentifiedIffNoReset`, `RouterRuns.ResetReusesGenerations`).
- The transition-aware policy never pays more than its incumbents exactly if
  factor * (1 + margin) >= 1 (`TransitionAware.NeverWorseThanIncumbents`,
  `TransitionAware.WorseThanIncumbent`).
- The mutation mix lies within its estimates exactly if the total weight is at least 1e-12
  (`Calibration.MixWithinIff`).
- A negative score can have an empty interval (`Confidence.EmptyIntervalIff`).

## Model

| member | source | states |
|---|---|---|
| `Containers.InsertIdKeeps` | backend/app/artifact_codegen.py:146-151 | inserting at the lower bound keeps a posting list ascending and adds exactly the slot, without duplicates |
| `Containers.EraseIdKeeps` | backend/app/artifact_codegen.py:153-159 | erasing at the lower bound keeps it ascending and removes exactly the slot |
| `Containers.InsertOrAssignKeeps` | core/include/morpheus/mutable_indices.hpp:30-37 | the ordered rows stay strictly ordered and hold exactly one value more, or one value replaced |
| `Containers.EraseRowKeeps` | core/include/morpheus/mutable_indices.hpp:39-44 | the ordered rows stay strictly ordered and lose exactly the row of that key |
| `Containers.RangeOf` | core/include/morpheus/mutable_indices.hpp:52-62 | the range walk yields exactly the rows within the bounds, in key order, and nothing for reversed bounds |
| `Routes.AddKeeps` | backend/app/artifact_codegen.py:238-288 | adding a fresh slot to any route that tracks the live slots makes it track them with the new one, and fails only for a bitmap past 32 bits |
| `Routes.RemoveKeeps` | backend/app/artifact_codegen.py:153-166 | removing a live slot from a tracking route reaches none of the "invariant missing" throws and leaves it tracking the rest |
| `Routes.ReplaceKeeps` | backend/app/artifact_codegen.py:238-288 | an update's remove-then-add line leaves the route tracking the updated slots |
| `Routes.OverflowLeavesBitmapStale` | backend/app/artifact_codegen.py:293-298 | a bitmap route that refuses a slot id no longer tracks what is stored |
| `Codegen.Generate` | backend/app/artifact_codegen.py:187-291 | the generator loop yields the plans of all assignments in order, or the error of the first it cannot serve |
| `Codegen.SupportedIffCompiles` | backend/app/artifact_codegen.py:196-291 | the generator never refuses an assignment the catalogue supports, and what it emits for it has the methods the class calls; nothing else compiles |
| `Codegen.SupportedPlansCompile` | backend/app/artifact_codegen.py:196-291 | every list of mutations and supported queries yields a list of plans that all compile |
| `Reference.PostingReadsScan` | backend/app/behavior_verifier.py:135-143 | an ascending posting list of exactly the wanted live slots reads back the reference scan, in order |
| `Reference.DistinctReadsScan` | backend/app/behavior_verifier.py:122-134 | distinct ids naming exactly the wanted live slots read back the multiset of the scan, duplicates included |
| `Reference.ScanCounts` | backend/app/behavior_verifier.py:122-134 | a scan keeps each wanted record as often as it is held, and no other |
| `Reference.ScanInOrder` | backend/app/behavior_verifier.py:135-143 | it keeps the records at exactly the wanted positions, in their order |
| `Reference.LastHitIs` | backend/app/behavior_verifier.py:113-121 | the last hit is the wanted record that no other follows, or there is none |
| `Answers.PostingAnswers` | backend/app/artifact_codegen.py:108-113 | the posting list of a key names exactly the records a scan for that key finds |
| `Answers.BackmostIsLastHit` | backend/app/artifact_codegen.py:87-94 | the largest live slot of a key holds the last matching record in logical order |
| `Answers.TrieFindsBack` | core/include/morpheus/mutable_indices.hpp:207-210 | the trie's `find` returns that same slot |
| `Answers.RangeAnswers` | backend/app/artifact_codegen.py:95-107 | the composite bounds select exactly the multiset of records with keys between low and high |
| `Answers.RangeInKeyOrder` | backend/app/artifact_codegen.py:95-107 | range results come out in key order |
| `Answers.FlattenPrefix` | core/include/morpheus/mutable_indices.hpp:212-230 | flattening the groups under a prefix, stopping at the limit, yields the first ids of all of them |
| `Answers.PrefixAnswers` | backend/app/artifact_codegen.py:114-119 | an unlimited prefix query returns exactly the multiset of records whose text starts with the prefix |
| `Answers.LimitedPrefix` | backend/app/artifact_codegen.py:114-119 | a limited one returns that many of them, or all |
| `GeneratedIndexModel.GeneratedIndex.Insert` | backend/app/artifact_codegen.py:336-342 | appends the record to the contents and throws only at the slot capacity, with the exact partial state a bitmap overflow leaves |
| `GeneratedIndexModel.GeneratedIndex.UpdateAt` | backend/app/artifact_codegen.py:344-351 | replaces the record at the position, throws exactly out of range, and then changes nothing |
| `GeneratedIndexModel.GeneratedIndex.EraseAt` | backend/app/artifact_codegen.py:353-360 | removes the record at the position, throws exactly out of range, and then changes nothing |
| `GeneratedIndexModel.GeneratedIndex.Records` | backend/app/artifact_codegen.py:362-372 | returns the contents through the cache, whatever was read before |
| `GeneratedIndexModel.GeneratedIndex.LogicalSlot` | backend/app/artifact_codegen.py:386-391 | never reports a broken live order |
| `GeneratedIndexModel.GeneratedIndex.PointLookup` | backend/app/artifact_codegen.py:87-94 | returns the record whose field is the key and which no other such record follows, or nothing if there is none |
| `GeneratedIndexModel.GeneratedIndex.RangeScan` | backend/app/artifact_codegen.py:95-107 | returns, in key order, each record whose field lies between the bounds as often as it is held, and no other: the multiset of the reference scan |
| `GeneratedIndexModel.GeneratedIndex.FilterBy` | backend/app/artifact_codegen.py:108-113 | returns the records at exactly the positions where the field is the key, in order: the reference scan |
| `GeneratedIndexModel.GeneratedIndex.SearchPrefix` | backend/app/artifact_codegen.py:114-119 | returns only records whose text is the prefix and some rest, none more often than held; as many as match or the limit if that is less, and if the limit cuts none off each as often as it is held |
| `Driver.SameMultiset` | backend/app/behavior_verifier.py:189-203 | the greedy comparison passes exactly if the two vectors are equal as multisets |
| `Driver.ExpectLast` | backend/app/behavior_verifier.py:113-121 | the overwriting loop leaves the last hit |
| `Driver.ExpectAll` | backend/app/behavior_verifier.py:122-156 | the collecting loop leaves all hits in order |
| `Driver.Check` | backend/app/behavior_verifier.py:101-161 | one query block passes exactly if no prefix limit cuts matches off |
| `Driver.VerifyAll` | backend/app/behavior_verifier.py:217-220 | `verify` passes exactly if every block does, and leaves the contents alone |
| `Driver.Run` | backend/app/behavior_verifier.py:164-236 | for every runnable sequence of inserts, updates, erases and verifies, in any order and over any routes, the index holds the replayed vector and the driver passes exactly within the prefix limits |
| `Text.SortIds` | backend/app/dataplane.py:236-238 | sorting a set of strings yields its strictly ascending listing |
| `Text.LessIff` | backend/app/dataplane.py:236-238 | one text sorts before another exactly if at the first place where they differ it has ended or has the lesser code point |
| `Text.StripIsStripped` | backend/app/dataplane_recovery.py:32-35 | stripping leaves no outer white space and a stripped text as it is |
| `Text.StripCuts` | backend/app/dataplane_recovery.py:32-35 | stripping cuts off white space on both sides and nothing else |
| `Text.HexIsNormal` | backend/app/dataplane_recovery.py:38-42 | a lower-case digest is accepted unchanged by both digest checks |
| `Text.DigestIff` | backend/app/dataplane_recovery.py:38-42 | which texts pass as which digest: stripped, 64 characters that are its digits or their capitals, the ligature apart |
| `JsonRoundTrip.RoundTrip` | backend/app/dataplane_recovery_interchange.py:26-29 | loading what was dumped gives the document back with split surrogate pairs joined, for every printable document |
| `JsonRoundTrip.WholeIsUnchanged` | backend/app/dataplane_recovery_interchange.py:26-29 | a document without split pairs comes back unchanged |
| `JsonRoundTrip.MergeIffWhole` | backend/app/dataplane_recovery_interchange.py:26-29 | a text comes back unchanged exactly if no two neighbours form a surrogate pair |
| `JsonRoundTrip.MergedCharsPrintAlike` | backend/app/dataplane_recovery_interchange.py:26-29 | joining a split pair does not show in the print |
| `JsonRoundTrip.DumpsInjective` | backend/app/dataplane_recovery.py:45-47 | documents with one print differ at most in split pairs |
| `JsonRoundTrip.PrintAlikeIff` | backend/app/dataplane_recovery.py:45-47 | two documents print alike exactly if joining their split pairs makes them one |
| `Utf8.DumpsBytes` | backend/app/dataplane_recovery_interchange.py:26-29 | the encoded print decodes to the print |
| `HeadStore.HeadRoundTrip` | backend/app/dataplane_recovery_anchor_store.py:57-63 | parsing the printed bytes of a valid head gives the head back |
| `HeadStore.AcceptedIffCanonical` | backend/app/dataplane_recovery_anchor_store.py:106-123 | the parser accepts exactly the canonical prints of valid heads, each as its own head |
| `HeadStore.CanonicalInjective` | backend/app/dataplane_recovery_anchor_store.py:57-63 | no two valid heads share a file content |
| `HeadStore.HeadPayloadIsSorted` | backend/app/dataplane_recovery_anchor_store.py:57-63 | the members stand in the order `sort_keys` prints them |
| `HeadStore.PayloadLayout` | backend/app/dataplane_recovery_anchor_store.py:57-63 | the file, character for character |
| `HeadStore.AnchorFile.Publish` | backend/app/dataplane_recovery_anchor_store.py:126-164 | succeeds on exactly the acceptable evidence unless a system call fails, and a load under the returned digest then yields that head; a failed write changes nothing, a failed readback leaves the head published |
| `HeadStore.AnchorFile.Load` | backend/app/dataplane_recovery_anchor_store.py:167-180 | returns a head exactly if the file is the canonical print of that valid head and the print has the expected digest, stripped and case-folded |
| `AnchorProtocol.LoadIsLoadFrom` | backend/app/dataplane_recovery_anchor_store.py:167-180 | the protocol's loader over the head format is the store's loader |
| `AnchorSafety.StepKeeps` | backend/app/dataplane_recovery_anchor_ownership.py:100-159 | every step of every cooperating writer, completed, failed or fatal, keeps the invariant: one lock holder, one unbroken chain of publications, each writer's facts |
| `AnchorSafety.RunKeeps` | backend/app/dataplane_recovery_anchor_serialized.py:89-125 | hence every interleaving of any number of writers of both gates does |
| `AnchorTheorems.MutualExclusion` | backend/app/dataplane_recovery_anchor_ownership.py:108-152 | at most one writer is between exclusive create and unlink |
| `AnchorTheorems.HeadFormatIsLawful` | backend/app/dataplane_recovery_anchor_store.py:57-63 | the head file format meets what the protocol theorems assume of a format |
| `AnchorTheorems.NoLostUpdate` | backend/app/dataplane_recovery_anchor_advance.py:157-176 | every replacement takes the head the one before it published to one with the next sequence number |
| `AnchorTheorems.SequencesClimb` | backend/app/dataplane_recovery_anchor_advance.py:150-151 | published sequence numbers climb by one each |
| `AnchorTheorems.EvidenceMeansPublished` | backend/app/dataplane_recovery_anchor_serialized.py:122-141 | a call that returns evidence has published its head, exactly once |
| `AnchorTheorems.EvidenceNeverCollides` | backend/app/dataplane_recovery_anchor_ownership.py:154-177 | two calls that return evidence never vouch for one sequence number or one predecessor |
| `AnchorTheorems.AfterReplacementOnlyIoFails` | backend/app/dataplane_recovery_anchor_ownership.py:133-143 | after the replacement neither the readback nor the lock identity check can fail among cooperating writers |
| `AnchorRuns.RunsToRelease` | backend/app/dataplane_recovery_anchor_ownership.py:108-144 | an undisturbed call of either locked gate publishes its head and releases its lock |
| `AnchorRuns.UndisturbedCallReturns` | backend/app/dataplane_recovery_anchor_ownership.py:154-177 | and returns, under any gate or none, with exactly its head published |
| `AnchorRelease.RaisesIffTakenOver` | backend/app/dataplane_recovery_anchor_ownership.py:158-159 | in every run from a reachable state, a call that publishes and ends, its own steps undisturbed, raises exactly if another writer has created the lock after its unlink and still holds it at its check, and returns otherwise |
| `AnchorRelease.AlwaysReturnsIff` | backend/app/dataplane_recovery_anchor_serialized.py:124-125 | before the call: every run that publishes returns exactly if no other call has yet to begin |
| `AnchorRelease.RaiseAfterPublication` | backend/app/dataplane_recovery_anchor_serialized.py:110-125 | under either gate, with a free lock and another call to come there is a run that publishes, releases and raises |
| `AnchorRelease.TakenAndLetGo` | backend/app/dataplane_recovery_anchor_serialized.py:110-125 | and one in which the lock is taken in between, let go again, and the call returns |
| `AnchorCleanup.EndedCallHoldsNothing` | backend/app/dataplane_recovery_anchor_ownership.py:133-159 | in every run from the start, a locked call that has ended, however it ended, none of its own steps having failed, holds nothing, and a lock that is there is another writer's |
| `AnchorCleanup.RefusedCallCleansUp` | backend/app/dataplane_recovery_anchor_advance.py:157-168 | a locked call whose evidence does not fit or whose predecessor is no longer in the file ends raised, its lock gone and the anchor untouched |
| `AnchorCleanup.AmissIff` | backend/app/dataplane_recovery_anchor_advance.py:103-151 | what can be wrong with the evidence, check by check, and nothing else is refused |
| `AnchorCleanup.LockNamesItsCall` | backend/app/dataplane_recovery_anchor_ownership.py:104-119 | while a call works the lock holds its token under the ownership-bound gate, its process under the other |
| `AnchorCleanup.NoEvidenceAfterTrouble` | backend/app/dataplane_recovery_anchor_advance.py:157-186 | under any gate, beside any other calls, a call that once found the file or the lock not as it should be, or whose system call raised, never returns evidence |
| `AnchorRace.BareCallLosesUpdate` | backend/app/dataplane_recovery_anchor_advance.py:157-186 | one unlocked call and any other call ready for the same head: a run in which both return evidence and one update is lost |
| `AnchorRace.ChainKeptIffNotRacy` | backend/app/dataplane_recovery_anchor_advance.py:134-186 | over any mix of gates, all runs keep the chain of publications exactly if no unlocked call shares a reachable predecessor head with another fitting call |
| `AnchorRace.ChainKeptIffAmongReady` | backend/app/dataplane_recovery_anchor_advance.py:134-186 | where all fitting calls are ready at once: exactly if none ready is unlocked or no other is ready |
| `AnchorRace.HeadFormatIsStrict` | backend/app/dataplane_recovery_anchor_store.py:106-123 | the head parser accepts nothing but prints of valid heads, as those theorems assume |
| `Lineage.HistoryWellLinked` | backend/app/dataplane_recovery_lineage.py:99-145 | in receipts built by repeated calls from genesis the sequence is the position and each link the previous digest |
| `Lineage.HistoryExtends` | backend/app/dataplane_recovery_lineage.py:99-145 | the receipt just returned is always an acceptable predecessor |
| `Lineage.PayloadInjective` | backend/app/dataplane_recovery_lineage.py:127-135 | the hashed bytes determine every hashed field |
| `Lineage.EqualDigestsEqualHistories` | backend/app/dataplane_recovery_lineage.py:99-145 | if no two payloads collide, equal last digests mean equal histories, position by position |
| `Lineage.ReuseIsDistinct` | backend/app/dataplane_recovery_lineage.py:127-145 | within one history all digests differ |
| `Lineage.VerifiesIff` | backend/app/dataplane_recovery_lineage.py:81-125 | a receipt is issued exactly on vouching evidence that recomputation reproduces, an acceptable predecessor that carries its own digest, and the next sequence if one is asked for |
| `Lineage.GateAcceptsIff` | backend/app/dataplane_recovery_anchor.py:81-125 | the gate accepts exactly a recomputed receipt whose predecessor is the given anchor; it then extends it by one, and its last two checks never fire |
| `Lineage.GateAcceptsExactly` | backend/app/dataplane_recovery_anchor.py:81-125 | which anchors, evidence, predecessors and receipts the gate accepts, field by field; evidence that recomputation does not reproduce is refused |
| `Router.VersionedArtifactRouter.BootstrapDeployment` | backend/app/dataplane.py:73-112 | meets the table specification: checks in order, new state, or the error and no change; when it succeeds, and what the new version carries in each field |
| `Router.VersionedArtifactRouter.StageVersion` | backend/app/dataplane.py:114-150 | the same for staging; the artifact's digest is the artifact of the staged version, the manifest's its manifest, its generation the next |
| `Router.VersionedArtifactRouter.ActivateStaged` | backend/app/dataplane.py:152-181 | the same for activation; what was staged is active, what was active on top of the stack |
| `Router.VersionedArtifactRouter.AbortStaged` | backend/app/dataplane.py:183-193 | the same for aborting; only the staged version goes |
| `Router.VersionedArtifactRouter.RollbackActive` | backend/app/dataplane.py:195-225 | the same for rollback; the top of the stack is active under the next generation, nothing stays staged |
| `Router.VersionedArtifactRouter.Lease` | backend/app/dataplane.py:227-230 | hands out the active version of a known deployment |
| `Router.VersionedArtifactRouter.List` | backend/app/dataplane.py:236-238 | returns the listing of the table |
| `Router.ListingComplete` | backend/app/dataplane.py:236-238 | the listing holds every deployment once, in key order |
| `RouterRuns.RunsWellFormed` | backend/app/dataplane.py:92-225 | on every run: generation = 1 + activations + rollbacks, depth = activations - rollbacks, generations climb strictly, staged is next, neighbours differ, and the history rebuilds identity, staged version and stack |
| `RouterRuns.UndoRestores` | backend/app/dataplane.py:167-214 | a run that comes back to its starting depth without going below it restores the stack and the active content, only the generation raised |
| `RouterRuns.GenerationIdentifies` | backend/app/dataplane.py:133-214 | whatever changes the active version raises its generation |
| `RouterRuns.LeasesIdentifiedByGeneration` | backend/app/dataplane.py:227-230 | any two leases of one deployment along a run with no reset between them hold one version if they show one generation |
| `RouterRuns.IdentifiedIffNoReset` | backend/app/dataplane.py:240-242 | a lease is told apart by its generation from all leases of the rest of the run, and of its reset-free alternatives, exactly if the rest of the run has no reset |
| `RouterRuns.ResetReusesGenerations` | backend/app/dataplane.py:73-112 | on any run, a later successful bootstrap of a leased deployment under another candidate comes after a reset and hands out generation 1 with a different version |
| `Mixes.DriftInRange` | backend/app/runtime.py:13-58 | the reported drift of two validated snapshots lies between 0 and 1, as its record demands |
| `Mixes.NoOperationDriftIff` | backend/app/runtime.py:13-23 | the operations are no distance apart exactly if every kind has the same normalized share |
| `Mixes.OperationDistanceIs` | backend/app/runtime.py:14-23 | the distance of two operation mixes is half the sum, over the eight kinds, of the gaps between their shares |
| `Mixes.DriftIs` | backend/app/runtime.py:26-58 | the drift is the greater of that and the same over the four access kinds, the latter only if both are known |
| `Controllers.RuntimeController.Start` | backend/app/runtime.py:192-234 | a new session at its baseline exactly if all its checks pass, or an error and no change |
| `Controllers.RuntimeController.Observe` | backend/app/runtime.py:236-288 | the sequence must climb; pending candidate and snapshot are set together, exactly if the gain over the expected queries exceeds factor times switching cost times one plus margin, the drift reaches its threshold and no cooldown runs; never inside the cooldown nor below the drift threshold |
| `Controllers.RuntimeController.Confirm` | backend/app/runtime.py:290-322 | exactly when it takes effect and when it raises, with a fault before or after the effect; confirmed switches lie more than the cooldown apart |
| `Controllers.RuntimeController.RollBackLast` | backend/app/runtime.py:324-364 | the same for rolling the last switch back |
| `Controllers.ConfirmThenRollBack` | backend/app/runtime.py:290-364 | rolling back right after confirming restores candidate, baseline and switch sequence |
| `Controllers.MigrationController.Plan` | backend/app/migration.py:47-82 | a planned migration between different candidates, or an error and no change |
| `Controllers.MigrationController.RecordShadow` | backend/app/migration.py:84-99 | planned becomes shadow-built under a digest |
| `Controllers.MigrationController.RecordVerification` | backend/app/migration.py:101-130 | shadow-built becomes verified only if both proofs hold |
| `Controllers.MigrationController.Commit` | backend/app/migration.py:132-146 | verified becomes committed, with a fault before or after the effect |
| `Controllers.RuntimeController.AbortPending` | backend/app/runtime.py:366-375 | drops the recommendation of a known session |
| `Controllers.MigrationController.Abort` | backend/app/migration.py:165-174 | exactly the migrations not yet committed, rolled back or aborted can be aborted, and only for a reason |
| `Controllers.MigrationController.RollBack` | backend/app/migration.py:148-163 | committed becomes rolled back, likewise |
| `Orchestrator.SafeAdaptationOrchestrator.BindDeployment` | backend/app/adaptation_orchestrator.py:38-52 | binds exactly if the route shows the session's active candidate |
| `Orchestrator.SafeAdaptationOrchestrator.PlanPending` | backend/app/adaptation_orchestrator.py:58-68 | plans from the active to the pending candidate, or raises and changes nothing |
| `Orchestrator.SafeAdaptationOrchestrator.StageVerifiedMigration` | backend/app/adaptation_orchestrator.py:70-94 | stages exactly the verified artifact in the bound deployment; raises, changing nothing, exactly if the migration is not verified, complete and bound, or the router refuses |
| `Orchestrator.SafeAdaptationOrchestrator.AuthorizeCommit` | backend/app/adaptation_orchestrator.py:171-234 | for every fault in activate, confirm, commit and compensation: another session's migration is refused; a refusal changes nothing and comes exactly where the commit is not due or its activation fails before its effect, an activation that raises after its effect leaves just that, a return means all at the target, a re-raise means runtime and router at the source and nothing committed, the RuntimeError needs a compensation fault; nobody else's entries move |
| `Orchestrator.DueIffAdmissible` | backend/app/adaptation_orchestrator.py:179-208 | what a commit checks, over the ledgers: the migration is the session's and verified, the session active at its source with its target pending, a bound route at the source with the target staged |
| `Orchestrator.TargetIsDone` | backend/app/adaptation_orchestrator.py:204-234 | what a returned commit leaves: session, migration and route at the target, the old version on the stack |
| `Orchestrator.SourceIsUndone` | backend/app/adaptation_orchestrator.py:96-169 | what a re-raised one leaves: session and route back at the source, nothing committed |
| `Orchestrator.SafeAdaptationOrchestrator.Compensate` | backend/app/adaptation_orchestrator.py:96-169 | every leg is tried; it succeeds only with the source restored, and always without faults of its own |
| `Orchestrator.SafeAdaptationOrchestrator.UndoLegs` | backend/app/adaptation_orchestrator.py:113-142 | the three legs, whatever became of the ones before |
| `Orchestrator.SourceShownMeansRestored` | backend/app/adaptation_orchestrator.py:144-163 | the final candidate checks suffice: old stack, nothing staged, old content, generation plus two |
| `Orchestrator.ActivateThenRollBack` | backend/app/dataplane.py:152-225 | rolling back right after activating |
| `Orchestrator.SafeAdaptationOrchestrator.AbortPlanned` | backend/app/adaptation_orchestrator.py:236-254 | returns exactly if the migration is the session's, can be aborted and the session is known; the exact state either way |
| `Orchestrator.AbortIsAtomicIff` | backend/app/adaptation_orchestrator.py:240-248 | an abort returns or changes nothing exactly if the migration can be aborted and the session is known, or it cannot and nothing is staged under its target |
| `Orchestrator.SafeAdaptationOrchestrator.RollBackCommitted` | backend/app/adaptation_orchestrator.py:256-301 | refused exactly by its checks, returned exactly without a pending recommendation and without a fault in its three mutations, and the exact partial state otherwise |
| `Orchestrator.DueIffAllowed` | backend/app/adaptation_orchestrator.py:256-281 | what a rollback checks, over the ledgers |
| `Orchestrator.AfterRollbackIsDone` | backend/app/adaptation_orchestrator.py:282-301 | what a returned rollback leaves: session at its previous candidate, migration rolled back, the route's stack popped |
| `Orchestrator.RollbackIsAtomicIff` | backend/app/adaptation_orchestrator.py:282-287 | for every fault before or after each mutation: all ledgers move or none does exactly if nothing raises before the last effect, or the first mutation raises before its own |
| `OrchestratorMoves.Perform` | backend/app/main.py:147-147 | every call of the three controllers, of the orchestrator over the data plane and of the one without it makes its move of the run relation, whatever the faults |
| `OrchestratorMoves.NextSound` | backend/app/adaptation_orchestrator.py:38-301 | every move keeps sessions, migrations and routes sound |
| `OrchestratorRuns.OffersWhatItLeft` | backend/app/runtime.py:290-364 | on every run, a session offers to roll back to the candidate it left at its last switch, whoever confirmed it |
| `OrchestratorRuns.StackedByStanding` | backend/app/dataplane.py:152-225 | on every run, each version on a route's stack was pushed by an activation that still stands, and is the one it replaced |
| `OrchestratorRuns.LastActivationIsUnique` | backend/app/dataplane.py:152-225 | there is only one last standing activation |
| `OrchestratorRuns.RollbackLandsWhereItLeft` | backend/app/adaptation_orchestrator.py:256-287 | on every run, for every fault: session and route each land there if their mutation takes effect; they end together, and at the migration's source, exactly if those candidates are equal, and that source |
| `OrchestratorRuns.OneCommitReturns` | backend/app/adaptation_orchestrator.py:171-301 | if one commit made the last switch and the last standing activation, they agree; if it was this migration's, its rollback returns to its source exactly if nothing is pending and neither mutation fails |
| `OrchestratorRuns.ReturnsToSourceIff` | backend/app/adaptation_orchestrator.py:256-301 | from any ledgers, by what a caller can see before the call: when a rollback returns to the migration's source, and when session and route end together |
| `OrchestratorWitnesses.RollingBackAnEarlierMigration` | backend/app/adaptation_orchestrator.py:256-301 | the whole run A to B, B to C, C to B: its final ledgers allow rolling the first migration back, and session and route then show C |
| `OrchestratorWitnesses.SharedDeploymentParts` | backend/app/adaptation_orchestrator.py:38-52 | a run in which a second session is bound to the deployment and the first one's rollback leaves session and route at different candidates |
| `OrchestratorWitnesses.DirectConfirmsPart` | backend/app/main.py:670-680 | a run in which two confirms on the runtime follow the commit, and the rollback leaves the session at C and the route at A |
| `OrchestratorWitnesses.ReadyForAll` | backend/app/advanced_api.py:28-28 | one concrete world meets what the three runs ask of their start |
| `OrchestratorWitnesses.FromNothing` | backend/app/advanced_api.py:28-28 | and is reached from the empty ledgers |
| `OrchestratorWitnesses.PartedFromNothing` | backend/app/main.py:670-680 | hence a run from the empty ledgers at whose end an allowed rollback parts session and route |
| `Records.RecordFields` | backend/app/dataplane_recovery_interchange.py:49-57 | the strict reading of a written record yields what was written |
| `Checkpoint.Capture` | backend/app/dataplane_recovery.py:102-141 | succeeds exactly on a quiescent router with readable, distinct stripped ids, and then lists, in strict id order, one route for each deployment with its candidate, artifact, manifest and generation, under the digest of those routes |
| `Checkpoint.VerifyRecovered` | backend/app/dataplane_recovery.py:144-213 | accepts exactly if the checkpoint is coherent and nothing is staged or stacked in the router and its deployments and the routes pair off by id, candidate, artifact and manifest |
| `Checkpoint.CountingDecides` | backend/app/dataplane_recovery.py:167-198 | as many deployments as routes with every route matched is equality of the two maps |
| `Checkpoint.RecoversIff` | backend/app/dataplane_recovery.py:167-198 | comparing the maps is pairing routes and deployments off, field by field |
| `Checkpoint.CapturedAccepts` | backend/app/dataplane_recovery.py:144-213 | a captured checkpoint accepts exactly the quiescent routers that show what the captured one showed |
| `Checkpoint.VerifyGenerations` | backend/app/dataplane_recovery_generation.py:104-137 | passes exactly if additionally every active generation is 1 |
| `Checkpoint.FreshMeansUntouched` | backend/app/dataplane_recovery_generation.py:119-131 | which holds exactly if no deployment was ever activated or rolled back |
| `Interchange.ExportCheckpoint` | backend/app/dataplane_recovery_interchange.py:60-127 | the loop form computes the export specification: exactly the checkpoints whose normalised routes ascend strictly by id and have the digest given are exported, as those routes under that digest |
| `Interchange.ImportCheckpoint` | backend/app/dataplane_recovery_interchange.py:130-200 | the loop form computes the import specification; what it returns is normalised, ascends by id, carries its own digest and prints as the bytes |
| `Interchange.ImportedIffExported` | backend/app/dataplane_recovery_interchange.py:130-200 | exactly the exports of normal checkpoints without split surrogate pairs are imported, each as its own checkpoint |
| `Interchange.CapturedRoundTrip` | backend/app/dataplane_recovery_interchange.py:123-200 | a captured checkpoint is always exported, and survives export and import exactly if it has no split pair |
| `Interchange.SplitPairIdIsLost` | backend/app/dataplane_recovery_interchange.py:123-200 | the deployment id U+D800 U+DC00 is captured and exported and does not come back |
| `Interchange.InterchangeFormatIsLawful` | backend/app/dataplane_recovery_interchange.py:16-33 | the printer, parser, schema names and key sets of the code meet what the theorems assume |
| `Tampering.SameDigestIff` | backend/app/dataplane_recovery.py:132-139 | unless the digest collides on the two contents, two route lists have one digest exactly if joining their split pairs makes them one list |
| `Tampering.DigestDeterminesRoutes` | backend/app/dataplane_recovery.py:132-139 | hence normal routes without split pairs are determined by it |
| `Tampering.ChangedNotCoherent` | backend/app/dataplane_recovery.py:159-161 | under the captured digest, routes that differ in any field, number or order are refused against every recovered router |
| `Tampering.ChangedNotExported` | backend/app/dataplane_recovery_interchange.py:95-98 | and not exported, unless they normalise to those captured |
| `Tampering.ChangedNotImported` | backend/app/dataplane_recovery_interchange.py:186-198 | and import returns no others, whatever the bytes |
| `Tampering.ChangedRoutesRefused` | backend/app/dataplane_recovery.py:144-161 | all three for a checkpoint captured from a router |
| `Policies.StepsCostPath` | backend/app/adaptation_research.py:118-130 | what recorded steps add up to is the cost of the path they took |
| `Policies.AcceptableIff` | backend/app/adaptation_research.py:93-115 | which inputs are valid, field by field |
| `Policies.PathCostIs` | backend/app/adaptation_research.py:118-130 | the cost of a path is the sum of queries times cost per query and of the declared transitions taken |
| `Policies.ReportsAccounts` | backend/app/adaptation_research.py:118-130 | what a policy reports: each step's execution is queries times cost per query, and execution, transition and switch totals are those of the path |
| `Policies.Cheapest` | backend/app/adaptation_research.py:163 | the least candidate by cost, then id |
| `Policies.EvaluateNeverSwitch` | backend/app/adaptation_research.py:133-150 | succeeds exactly on valid inputs, stays, and reports its own path, executions and totals written out |
| `Policies.EvaluateImmediateSwitch` | backend/app/adaptation_research.py:153-175 | succeeds exactly if no transition between cheapest candidates is missing, takes them, and reports its own path |
| `TransitionAware.EvaluateTransitionAware` | backend/app/adaptation_research.py:178-224 | succeeds exactly if the rule nowhere runs into a missing candidate or transition, follows it at every step, and reports its own path |
| `TransitionAware.FollowsRule` | backend/app/adaptation_research.py:198-223 | the rule with its inequality: when a step switches and when it stays |
| `TransitionAware.RuleDetermines` | backend/app/adaptation_research.py:198-223 | the rule admits only one run |
| `TransitionAware.SwitchesSpaced` | backend/app/adaptation_research.py:207-208 | any two switches are at least cooldown + 1 phases apart |
| `TransitionAware.SwitchesBounded` | backend/app/adaptation_research.py:207-208 | at most ceil(n / (cooldown + 1)) switches |
| `TransitionAware.NeverWorseThanIncumbents` | backend/app/adaptation_research.py:205-211 | with factor * (1 + margin) >= 1 a run costs at most what the incumbent of each phase would have |
| `TransitionAware.WorseThanIncumbent` | backend/app/adaptation_research.py:205-211 | below that some valid input is switched at a loss |
| `Oracle.LeastIsBest` | backend/app/adaptation_research.py:252-265 | optimal substructure: the least choice into a candidate is the best path to it |
| `Oracle.SolveTable` | backend/app/adaptation_research.py:244-266 | every entry of the last row is the best path to its candidate with its cost; it fails exactly on an undeclared transition |
| `Oracle.EvaluateOfflineOracle` | backend/app/adaptation_research.py:227-284 | succeeds exactly on valid inputs with all transitions declared; its path is optimal among all candidate sequences, the lexicographically least of the optimal ones, and its cost is the table value; optimal against every sequence of candidates by the sum of queries times cost plus declared transitions, written out |
| `Oracle.OptimalIsUnique` | backend/app/adaptation_research.py:263-269 | the optimal least path is unique |
| `Oracle.OptimalIsBestChoice` | backend/app/adaptation_research.py:249-278 | optimal means: no choice of one candidate per phase costs less, and none as cheap comes before it |
| `Oracle.OracleDominates` | backend/app/adaptation_research.py:227-284 | every policy reporting its own path on the same inputs reports at least the oracle's cost |
| `Sums.SumRemove` | backend/app/access_trace_drift.py:57-59 | a sum over a set of keys does not depend on the order |
| `Drift.WindowIsDistribution` | backend/app/access_trace_drift.py:51-54 | the frequencies of a window are positive and sum to one |
| `Drift.TotalVariation` | backend/app/access_trace_drift.py:57-59 | the loop over the keys computes half the sum of the gaps |
| `Drift.Triangle` | backend/app/access_trace_drift.py:57-59 | the triangle inequality |
| `Drift.TVIsMissingOverlap` | backend/app/access_trace_drift.py:57-59 | it is one minus the shared mass |
| `Drift.WindowDistance` | backend/app/access_trace_drift.py:57-59 | it lies in [0, 1], is symmetric, is 0 exactly for equal relative frequencies and 1 exactly for disjoint keys |
| `Drift.CompareWindows` | backend/app/access_trace_drift.py:82-114 | accepts exactly the allowed windows and thresholds, and drifts exactly at or over the threshold |
| `Phases.WindowsFit` | backend/app/access_trace_phases.py:105-110 | exactly the starts i * step with i below floor((n - w) / step) + 1 leave room for a window |
| `Phases.Slice` | backend/app/access_trace_phases.py:105-110 | the while loop yields those windows |
| `Phases.AnalyzeTracePhases` | backend/app/access_trace_phases.py:83-154 | the guards, the windows, and boundaries exactly where neighbours reach the threshold, in order |
| `Phases.QuietBetweenReported` | backend/app/access_trace_phases.py:130-145 | with no boundary between windows i and j their distance is below (j - i) times the threshold |
| `Calibration.CalibrationRegistry.Activate` | backend/app/calibration.py:56-62 | activates exactly a registered profile |
| `Calibration.CalibrationRegistry.FindMeasurement` | backend/app/calibration.py:81-127 | collecting, sorting and taking the first is the strongest match of the selected profile |
| `Calibration.StrongestIffSome` | backend/app/calibration.py:105-127 | there is one exactly if some measurement matches, and none comes before it in the sort order |
| `Calibration.StrongestIs` | backend/app/calibration.py:105-127 | which one: most repetitions, then least deviation, none counting as infinite, then fewest nanoseconds |
| `Calibration.FirstLeastIs` | backend/app/calibration.py:120-127 | among equals the first in the profile wins |
| `Calibration.Audit` | backend/app/calibration_coverage.py:209-307 | the nested loops compute the cells in order, and each count counts its status; one cell for each query and name it concerns, in order of query and name |
| `Calibration.CellFits` | backend/app/calibration_coverage.py:241-272 | each status by which measurements exist: of the operation, under the implementation, with the distribution, and at the scale |
| `Calibration.CellCounts` | backend/app/calibration_coverage.py:241-286 | the three counts of a cell by the positions they count |
| `Calibration.InCellsUpTo` | backend/app/calibration_coverage.py:229-286 | a cell is listed exactly if it is one of some query |
| `Calibration.InCellsOf` | backend/app/calibration_coverage.py:230-286 | and of some name that query applies to |
| `Calibration.CountsPartition` | backend/app/calibration_coverage.py:288-292 | the five statuses partition the cells |
| `Calibration.StalePartition` | backend/app/calibration_coverage.py:241-261 | current and stale measurements partition those of the operation |
| `Calibration.MatchedIffQueryCalibrated` | backend/app/cost_model.py:104-141 | a cell is MATCHED exactly if the query estimator returns a calibrated source |
| `Calibration.MatchedIffUpdateCalibrated` | backend/app/cost_model.py:179-207 | a mutation cell is MATCHED exactly if the update estimator does |
| `Calibration.QueryEstimateIs` | backend/app/cost_model.py:97-141 | a query estimate is calibrated exactly if a measurement at the scale answers it, and then is the time of the strongest with its uncertainty kept in bounds; otherwise the prior |
| `Calibration.UpdateEstimateIs` | backend/app/cost_model.py:163-207 | the same for a mutation |
| `Calibration.MixCalibratedIff` | backend/app/cost_model.py:225-256 | the mix is fully calibrated exactly if there is a mutation and every mutation cell is MATCHED |
| `Calibration.AuditedMutationCells` | backend/app/calibration_coverage.py:229-286 | those are the mutation cells the audit lists for a record-backed primitive |
| `Calibration.MixBetween` | backend/app/cost_model.py:246-247 | with a total weight of at least 1e-12 the mix lies between the least and the greatest estimate |
| `Calibration.MixWithinIff` | backend/app/cost_model.py:246-247 | for given weights it does for all estimates exactly then |
| `Confidence.Assess` | backend/app/active_measurement.py:140-212 | the guards, the feasible challengers whose scores overlap the winner's in score order, the winner's interval, the action, and the runner-up gap |
| `Confidence.IntervalHolds` | backend/app/active_measurement.py:76-86 | an interval holds exactly the scores, 0 at the least, no further from the modelled one than its magnitude times the scaled uncertainty |
| `Confidence.AcceptedIffAlwaysMinimum` | backend/app/active_measurement.py:178-202 | for non-negative scores the winner is accepted exactly if it is the strict minimum under every choice of scores from the intervals |
| `Confidence.BenchmarkMeansUpset` | backend/app/active_measurement.py:189-211 | otherwise some allowed choice lets a challenger tie or win |
| `Confidence.WideningEnlarges` | backend/app/active_measurement.py:173-191 | raising the scale only enlarges the ambiguous set |
| `Confidence.EmptyIntervalIff` | backend/app/active_measurement.py:76-86 | an interval is empty exactly for a negative score whose scaled uncertainty is below 1 |

## Left out

- Floating point: costs, scores, frequencies and keys of type double are exact reals; NaN, negative zero and the rounding of reported values are not modelled.
- C++ containers: the B+ tree, the Robin Hood hash, the bitmap containers and the trie nodes are ordered rows, maps and posting lists; tries order their groups by code point, while the code orders signed chars, which affects only which records a limited prefix query returns.
- Graph routes: the generator and the class carry them, the content of the CSR graph is not modelled.
- Duplicate query indices, which would give two members one C++ name, and compilation itself.
- Python details: the 4300-digit limit on printing integers, recursion limits of the JSON decoder, error message texts. Case folding and lowering cover ASCII and the one ligature that folds to hexadecimal digits.
- Files: a write is one step and a replacement is atomic; a writer may fail or die at any step. A failing fsync of the lock is modelled as one that left the lock blank, where the code may have left the token or the pid in it. Liveness of the lock, and stale locks, which are never stolen.
- The recomputation of earlier gates inside the lineage and generation gates is an input.
- Checkpoint.VerifyRecovered: does not return the digest recovered_routes_sha256, nor the fields of the evidence that repeat its inputs.
- Checkpoint.VerifyGenerations: does not return the generation digests.
- Orchestrator: the histories of sessions and migrations.
- Router: deployments are values in a table rather than objects, since they never leave the router.
- Calibration.CalibrationRegistry.Activate: does not persist the active profile.
- Calibration: the profile-wide audit without a workload, persistence of profiles, build estimates; the bootstrap prior of a query, built from logarithms and roots, is an input.
- Drift.CompareWindows: leaves out the Jensen-Shannon divergence and the top-key overlap, which decide nothing.
- Phases.AnalyzeTracePhases: leaves out the per-window summaries.
- Confidence.Assess: does not list the recommended measurements.
- The observation, admission, receipt, binding, store and replay gates above the anchor: field-by-field comparisons.
- HTTP endpoints, the AI provider, benchmark runners, publication catalogues.
