# Dalph gate tooling and controlled-delivery machinery: a verified model

This project models, in Dafny, the parts of the Dalph repository whose correctness rests on an argument
rather than on a glance: the incremental source audit of the capability gate, the inotify input observer,
the identity encodings of the shared contracts, the child-process machinery of the hermetic production
tests, the recognisers of the controlled checkpoints DS-12 and DS-13, the occurrence recorder and its
cassette, and the controlled provider with its fixture ledger. Code that updates state in place is modelled
by classes and loops proved against functions; code made of expressions is modelled by functions; what each
part promises is proved about those functions for all inputs, runs or reachable states.

`dafny verify dfyconfig.toml` checks everything.

## What is proved

**Incremental source audit.** The reverse-dependency worklist returns exactly the current paths from which a
changed or removed path can be reached in the union of the old and new dependency graphs. Whenever the audit
skips no file, re-auditing only what is affected gives the same program as recomputing everything; and it is
exact for every local compiler *if and only if* it skips no file. The files it can skip are added repository
files that match the disk but were not in the previous program; a first audit is exact exactly when those
compile without diagnostics. If no file is skipped, an audit over any remembered program is wrong only about
files that program was already wrong about. The test by which dependencies are reused stands for equal roots
exactly when no path is repeated.

**Input observer.** The kernel is arbitrary: any events, any answer to a watch request, any order of a
watch's paths. In every run without an error every replaceable path ever watched keeps a live descriptor that
is not obsolete for it, provided the kernel never answered with a descriptor already obsolete for the path
asked about. That proviso is needed: `ObserverLostWrite.WriteCanBeLost` is an honest run without any report in
which a write to a declared input is lost, because a replaced file came back under its old, still open descriptor;
`WatchBook.AdoptedIsHeardIff` gives the exact condition. Awaited parent events balance, generations are
counted exactly, and a validation drain settles everything or sends an error. An ordinary event on a declared
input that is not replaceable, and a write at the watch of one that is, is always reported. Any other event on a
replaceable input, in whichever drain it comes, is explained by an expected move or an arrival, answered by a new
generation, or leads to a report by the next validation. Every arrival noticed is answered by exactly one
cancellation or attempt. The class `InputObserver.ObserverProcess` carries these results over to the imperative
process: each call extends an honest run by a step that holds the watches it was asked for and the events encoded in the
bytes it read, all of them unless the process ended, and if those bytes hold such an event then the caller has been
sent dirty or an error by the end of the call.

**Identities.** A fingerprint of a task revision can be decoded back to the exact title and body for all strings of
UTF-16 code units, lone surrogates included, through JSON quoting (section 7 of RFC 8259), UTF-8 (section 3
of RFC 3629) and unpadded base64url (section 5 of RFC 4648). The validator of task branches accepts exactly a
grammar. Executor reports and correlations are compared exactly.

**Child processes.** Framing does not depend on how the stream is cut into chunks; success means the stream
is the concatenation of canonical encodings. In the spawn-window protocol a window counts as open until an end
of its own scope closes it. Over all interleavings in which ends of one scope do not overlap, at most one window
is open and every window is closed by its own scope; and a call of `end` is safe in every continuation if and
only if no other end of that scope is about to close the same window. Ending each scope once is one way to keep
that discipline, and two overlapping ends lose another scope's window. Diagnostics are cut to the longest
code-point-aligned prefix of 4096 bytes.

**Checkpoints.** A journal accepted at DS-13, whatever else it holds, contains the whole causal course in
strictly increasing positions with five distinct witnesses. Once a journal is at DS-13 none of its extensions
is at DS-12, so no journal is at both; a second Resume intent anywhere in it undoes acceptance; and what lies
between DS-12 and DS-13 includes B1's authorization, Resume and report. Conversely, every journal whose events
come in the order of the story with the right contents is accepted at both, and one such story is given. The
comma-joined comparison of operation identities is not exact in general (`OperationIds.CommaConfuses`): it sees just
the pieces between commas of each collection in ascending order. It identifies a collection *if and only if* that is
empty or a single identity which does not read as two in ascending order; an identity is confused with identities
free of commas if and only if it holds a comma and its pieces are non-empty and ascend. Among identities without
commas the comparison is exact, and there every continuation read rests on exactly its predecessors.

**Occurrences, fixtures, provider.** The cassette accepts a recorder snapshot exactly when the identities
agree and otherwise names the first difference. An accepted ledger holds every kind of resource once, and
disposal partitions it: a permitted disposal removes the resources in their order up to the first that does not go,
and reports full removal if and only if all of them go. Thread and turn identities never repeat, redelivery produces nothing, every live
label has its receipt, and readiness needs four consecutive matching reads of a completed root. The statement
in `production-hermetic-provider-state.ts` that a malformed or out-of-fixture request never changes the controlled
state has two exceptions, and the contract of `Provider.ProviderState.Github` is exact about both. A rejected request
leaves the call counters as they were if and only if it is refused before it is counted, which a batch never is and
neither is the deletion of a foreign label. It leaves the observed reads as they were unless it is a batch with a
relation read before its first foreign issue (`Provider.RejectedBatchLeavesReads`). It never touches labels or
receipts.

## Model

| member | source | states |
|---|---|---|
| `DependencyGraph.AddReverseDependencies` | scripts/capability-registration-gate.ts:189-200 | the reverse index holds exactly the inverted edges, added to those it had |
| `DependencyGraph.Propagate` | scripts/capability-registration-gate.ts:202-214 | the worklist terminates with exactly the paths that reach a seed |
| `DependencyGraph.AffectedSourcePaths` | scripts/capability-registration-gate.ts:181-218 | the result is exactly the current paths that reach a changed or removed path in the union of both graphs |
| `DependencyGraph.LeastClosedSet` | scripts/capability-registration-gate.ts:181-218 | every set that holds the seeds and is closed under dependents holds all that is found, so the result is the least fixpoint |
| `SourceAudit.IncrementalEqualsFull` | scripts/capability-registration-gate.ts:234-300 | when no file is skipped, the incremental program equals a full recomputation, for every local compiler and any edits, additions and removals |
| `SourceAudit.ExactUnlessSkipped` | scripts/capability-registration-gate.ts:251-294 | the incremental audit is exact for every local compiler with these resolutions if and only if it skips no file |
| `SourceAudit.SkippedIsNotExact` | scripts/capability-registration-gate.ts:251-282 | each skipped file has a compiler whose diagnostics the audit loses |
| `SourceAudit.UnaffectedNode` | scripts/capability-registration-gate.ts:114-218 | an unaffected file has the same text and the same dependencies in both programs |
| `SourceAudit.SameView` | scripts/capability-registration-gate.ts:220-300 | an unaffected file sees the same closure with the same texts in both programs |
| `SourceAudit.MistakesNeverSpread` | scripts/capability-registration-gate.ts:234-300 | over any previous program, an audit that skips no file is wrong exactly about the unrecompiled files that program was wrong about |
| `SourceAudit.FirstAuditIsExactIff` | scripts/capability-registration-gate.ts:251-294 | without a previous program the audit is exact if and only if the skipped files compile without diagnostics |
| `SourceAudit.SourceDependencyPaths` | scripts/capability-registration-gate.ts:114-179 | dependencies computed with reuse equal those computed afresh |
| `SourceAudit.ReuseUnderIdenticalRoots` | scripts/capability-registration-gate.ts:123-134 | under identical roots an unchanged file resolves to the same dependencies |
| `SourceAudit.RootTestIsExactIff` | scripts/capability-registration-gate.ts:122-126 | where the size and inclusion test passes, the root sets are equal if and only if no path is repeated |
| `SourceAudit.RepeatedPathDefeatsRootTest` | scripts/capability-registration-gate.ts:122-126 | with a repeated path the root test passes although the root sets differ |
| `SourceAudit.CompilerDiagnostics` | scripts/capability-registration-gate.ts:234-300 | the diagnostics are those of the incremental program of the given and the previous files |
| `SourceAudit.AuditCache.PreviousSourceProgram` | scripts/capability-registration-gate.ts:302-326 | the remembered program that shares most files, the latest one when both share as many, and none that shares nothing |
| `SourceAudit.AuditCache.Remember` | scripts/capability-registration-gate.ts:88-101 | the latest program is remembered, and the largest seen stays a fallback that a smaller one cannot evict |
| `SourceAudit.AuditCache.Audit` | scripts/capability-registration-gate.ts:328-444 | after any audits, the result is the incremental program over the remembered program that shares most files, the latest one when both share as many; if no file is skipped, mistakes do not spread and a correct previous program gives the full audit |
| `SymbolSearch.ExpressionReferencesSymbol` | scripts/capability-registration-gate.ts:641-673 | true exactly when the expected symbol can be reached through children and resolved declarations, cyclic ones included |
| `SymbolSearch.Visit` | scripts/capability-registration-gate.ts:641-666 | one visit finds a reference or leaves every symbol it opened fully searched; it terminates |
| `CapabilityRegistration.CapabilityRegistrationIssues` | scripts/capability-registration.ts:1582-1659 | the issue list is empty if and only if the inventory is sound |
| `CapabilityRegistration.CapabilityIssues` | scripts/capability-registration.ts:1606-1644 | no issue exactly when implementation slots are compatible in pairs and each implemented role has its contract execution |
| `CapabilityRegistration.SupportIssues` | scripts/capability-registration.ts:1645-1656 | no issue exactly when support bindings are unique, not assembled, named by their marker and not blank |
| `CapabilityRegistration.FamilyIssues` | scripts/capability-registration.ts:1599-1605 | no issue exactly when the required families occur and families are distinct |
| `InotifyCodec.ParseEncoded` | scripts/gate-input-observer.py:199-207 | parsing inverts the encoding of any event list, whatever follows it |
| `InotifyCodec.WholeReadIsAccepted` | scripts/gate-input-observer.py:199-207 | whole events are all delivered |
| `InotifyCodec.CutReadIsRejected` | scripts/gate-input-observer.py:200-205 | a final event cut inside its header or name is rejected after those before it are delivered |
| `ObservedInputs.DeclaredInvalidates` | scripts/gate-input-observer.py:44-93 | every event on a declared input outside the coordination files invalidates |
| `ObservedInputs.AncestorMetadataIsIgnored` | scripts/gate-input-observer.py:76-93 | a metadata change on a pure ancestor does not invalidate, and such a path is not replaceable |
| `WatchBook.AdoptedIsHeardIff` | scripts/gate-input-observer.py:108-124 | a newly installed descriptor leaves the path heard if and only if it was not obsolete for the path |
| `WatchBook.AdoptedKeepsGood` | scripts/gate-input-observer.py:113-124 | installing a generation keeps every watched replaceable path at a live, non-obsolete descriptor |
| `WatchBook.WatchedKeepsGood` | scripts/gate-input-observer.py:96-105 | a first watch keeps that too |
| `WatchBook.AfterRemovalKeepsGood` | scripts/gate-input-observer.py:213-231 | visiting the paths of a removed watch keeps it for all that have been visited |
| `ObserverTracking.HandleAllIsHeard` | scripts/gate-input-observer.py:199-265 | any sequence of events keeps it |
| `ObserverAccounting.ReplaceablePathsStayWatched` | scripts/gate-input-observer.py:96-129 | in every run without an error and without such a kernel answer, every replaceable path ever watched has a live watch |
| `ObserverAccounting.AwaitedIsTheBalance` | scripts/gate-input-observer.py:213-253 | in every run the awaited count of a path is removal-driven installs less matched parent events, stored exactly when positive |
| `ObserverAccounting.ArrivalIsAnsweredOnce` | scripts/gate-input-observer.py:247-258 | each parent create or move event cancels one awaited install or makes exactly one attempt |
| `ObserverArrivals.ArrivalsAreAnswered` | scripts/gate-input-observer.py:232-265 | over any sequence of events, the arrivals noticed at a path are as many as the cancellations and attempts logged for it |
| `ObserverArrivals.EveryArrivalIsAnsweredOnce` | scripts/gate-input-observer.py:247-258 | in every run the arrivals noticed at a path are exactly the cancellations and attempts logged for it |
| `ObserverArrivals.ArrivalIsNoticed` | scripts/gate-input-observer.py:232-258 | an arrival at any path of the reporting watch is noticed, unless the drain is already about to report |
| `ObserverAccounting.NothingElseInstalls` | scripts/gate-input-observer.py:213-260 | nothing but such an event or the removal of the active watch installs or cancels |
| `ObserverAccounting.OneGenerationBetweenClears` | scripts/gate-input-observer.py:125-129 | the counter is the number of installs since it was cleared, at most one in a run without an error |
| `ObserverAccounting.ValidationSettles` | scripts/gate-input-observer.py:181-195 | a validation drain that sends no error leaves nothing unresolved and expects no arrival move |
| `ObserverAccounting.ValidatedRun` | scripts/gate-input-observer.py:181-321 | after such a drain in a run, at most one generation was installed since the last clearing |
| `ObserverReports.TouchedInputIsReported` | scripts/gate-input-observer.py:174-265 | a drain with a non-obsolete event on a declared input, a write where it is replaceable, sends dirty or an error |
| `ObserverReports.AncestorMetadataIsSilent` | scripts/gate-input-observer.py:232-265 | a metadata event on pure ancestors leaves the observer exactly as it was |
| `ObserverReports.ObsoleteActiveIsDeaf` | scripts/gate-input-observer.py:237-238 | no event at a descriptor obsolete for a path changes anything for that path |
| `ObserverUnresolved.WatchedWriteIsReported` | scripts/gate-input-observer.py:232-265 | in every honest run without a faulty kernel answer, a write at the active watch of a replaceable input makes the drain send dirty or an error |
| `ObserverUnresolved.UnexplainedEventIsAnswered` | scripts/gate-input-observer.py:235-265 | in a validation drain, an event on a replaceable input that is no write, no expected move and no arrival is followed by a new generation of it, or the drain sends dirty or an error |
| `ObserverUnresolved.UnexplainedEventIsSettled` | scripts/gate-input-observer.py:181-265 | such an event in a background drain is followed by a new generation of the input, or by dirty or an error, once a later command has validated |
| `ObserverUnresolved.UnresolvedIsSettled` | scripts/gate-input-observer.py:181-265 | what is unresolved at any point of a run has led to an error or a new generation once a command has validated |
| `ObserverLostWrite.WriteCanBeLost` | scripts/gate-input-observer.py:108-124 | an honest run with no report at all in which a declared input is written at its active descriptor, which is obsolete for it |
| `InputObserver.ReadEvents` | scripts/gate-input-observer.py:198-207 | the offset loop reads exactly the events of the codec |
| `InputObserver.Receive` | scripts/gate-input-observer.py:178-207 | the reads of a drain yield their events in order, up to the first unusable one |
| `InputObserver.InputObserver.Watch` | scripts/gate-input-observer.py:96-105 | the state becomes that of the specification's watch |
| `InputObserver.InputObserver.InstallReplaceableGeneration` | scripts/gate-input-observer.py:108-129 | the new book, counter and error count, in each of the three outcomes |
| `InputObserver.InputObserver.WatchRemoved` | scripts/gate-input-observer.py:213-231 | the loop over a removed watch's paths, in some order that visits each once |
| `InputObserver.InputObserver.WatchReports` | scripts/gate-input-observer.py:232-265 | the loop over a reporting watch's paths, with its early exit |
| `InputObserver.InputObserver.Deliver` | scripts/gate-input-observer.py:208-265 | one event is handled as specified |
| `InputObserver.InputObserver.Drain` | scripts/gate-input-observer.py:174-265 | a drain of raw reads is the specified drain of the events encoded in them, with the answers given, all of them unless the process ended |
| `InputObserver.InputObserver.DrainCommand` | scripts/gate-input-observer.py:310-312 | the command is one step of the specified run, with the events of the bytes read |
| `InputObserver.InputObserver.ProtectCommand` | scripts/gate-input-observer.py:313-321 | the command is one step of the specified run, with the watches asked for, the rules of the added roots and the events of the bytes read |
| `InputObserver.DrainMissesNothing` | scripts/gate-input-observer.py:174-265 | if the bytes of a drain hold an event that touches a declared input when its turn comes, the drain sends dirty or an error |
| `InputObserver.RunMissesNoWrite` | scripts/gate-input-observer.py:174-265 | the same of a write at the active watch of a replaceable input, after any honest run without a faulty kernel answer |
| `InputObserver.ObserverProcess.Background` | scripts/gate-input-observer.py:297-299 | what the process has done is an honest run, extended by the events of these bytes; no event among them that concerns a declared input goes unreported |
| `InputObserver.ObserverProcess.Drain` | scripts/gate-input-observer.py:310-312 | so it is after a drain command, with validation |
| `InputObserver.ObserverProcess.Protect` | scripts/gate-input-observer.py:282-321 | so it is after start-up or a protect command, for the watches asked for and the protected inputs; a watch that fails is reported as an error |
| `InputObserver.ObserverProcess.KeepsWatching` | scripts/gate-input-observer.py:96-129 | while the process has sent no error, every replaceable input it ever watched has a live watch |
| `InputObserver.ObserverProcess.KeepsAccount` | scripts/gate-input-observer.py:108-129 | the counters of the process are exact at any time |
| `TaskContracts.FingerprintRoundTrip` | packages/contracts/src/task-work-specification.ts:4-23 | title and body can be decoded back out of the fingerprint, for all code-unit strings |
| `TaskContracts.FingerprintCoversContent` | packages/contracts/src/task-work-specification.ts:4-33 | two valid specifications have equal fingerprints if and only if title and body are equal |
| `TaskContracts.MakeGivesTheValidSpecification` | packages/contracts/src/task-work-specification.ts:11-33 | construction succeeds exactly on non-empty identities and gives the only valid specification of its inputs |
| `TaskContracts.AttemptFixesSpecification` | packages/contracts/src/executor.ts:251-263 | two valid requests with the same planned attempt are the same request |
| `TaskContracts.CorrelationKeyIsExact` | packages/contracts/src/executor.ts:188-249 | correlation keys are equal exactly when the correlations are |
| `TaskContracts.ReportComparisonIsEquality` | packages/contracts/src/executor.ts:141-173 | the report comparison leaves out nothing a report carries |
| `GitLocator.RefGrammar` | packages/contracts/src/git-locator.ts:12-24 | the validator accepts exactly the qualified joins of well-formed components |
| `GitLocator.ValidatorMatchesGrammar` | packages/contracts/src/git-locator.ts:12-24 | on any list of components the whole-string and per-component checks agree with the grammar |
| `GitLocator.AppendComponent` | packages/contracts/src/git-locator.ts:12-24 | appending a component to a valid ref keeps it valid exactly when the component is well formed and does not end in a dot |
| `ChildOutput.ResumeIsConcatenation` | packages/dalph/test-support/production-hermetic-child-output.ts:70-113 | reading in two parts is reading the concatenation, so chunk boundaries do not matter |
| `ChildOutput.Assemble` | packages/dalph/test-support/production-hermetic-child-output.ts:83-88 | the assembled buffer is the concatenation of the pending parts |
| `ChildOutput.ReadChunk` | packages/dalph/test-support/production-hermetic-child-output.ts:76-107 | the chunk loop reads exactly the frames of pending bytes followed by the chunk |
| `ChildOutput.HermeticChildOutput.Read` | packages/dalph/test-support/production-hermetic-child-output.ts:50-113 | records and outcome depend only on the whole stream, the kill request and the exit |
| `ChildOutput.SuccessMeansCanonicalStream` | packages/dalph/test-support/production-hermetic-child-output.ts:70-113 | success without an observed kill means the stream is the canonical encodings of the records, each with its line feed |
| `ChildOutput.CanonicalStreamSucceeds` | packages/dalph/test-support/production-hermetic-child-output.ts:70-113 | every such stream is read back as its records |
| `ChildOutput.ConsumedBytesAreCanonical` | packages/dalph/test-support/production-hermetic-child-output.ts:70-113 | also when reading stops early, everything consumed is canonical |
| `RecordBindings.StepKeepsSafe` | packages/dalph/test-support/production-hermetic-child-lifetime.ts:135-205 | every step of any fiber keeps the invariant, provided an end is not called while another end of its scope is about to close the same window |
| `RecordBindings.EveryRunIsSafe` | packages/dalph/test-support/production-hermetic-child-lifetime.ts:135-205 | the invariant holds after every interleaving in which ends of one scope do not overlap in that sense |
| `RecordBindings.EndingOnceIsDisciplined` | packages/dalph/test-support/production-hermetic-child-lifetime.ts:135-205 | ending each scope at most once is such an interleaving |
| `RecordBindings.AtMostOneWindow` | packages/dalph/test-support/production-hermetic-child-lifetime.ts:143-159 | at most one window has been opened and not closed by its own scope; it is the one the state shows, and every other was closed by an end of its own scope |
| `RecordBindings.EndIsSafeIff` | packages/dalph/test-support/production-hermetic-child-lifetime.ts:143-159 | in every continuation at most one window is open if and only if the call of end finds no other end of its scope about to close the window |
| `RecordBindings.RegistrationWaits` | packages/dalph/test-support/production-hermetic-child-lifetime.ts:169-182 | a registration for a scope still spawning takes effect only after its window has settled |
| `RecordBindings.OnlyTheBoundHandleReads` | packages/dalph/test-support/production-hermetic-child-lifetime.ts:160-205 | only the handle bound to a scope reads its digests, and each was registered with that handle's pid |
| `RecordBindings.OverlappingEndsLoseAWindow` | packages/dalph/test-support/production-hermetic-child-lifetime.ts:144-159 | two overlapping ends of one scope close the window of another that has not ended |
| `ChildDiagnostics.TruncationIsLongestFit` | packages/dalph/test-support/production-hermetic-child-lifetime.ts:43-58 | a long text is cut to its longest code-point-aligned prefix of at most 4096 and at least 4093 bytes, less a leading byte-order mark |
| `ChildDiagnostics.CutDecodes` | packages/dalph/test-support/production-hermetic-child-lifetime.ts:46-56 | a byte prefix decodes exactly when it ends at a code-point boundary |
| `ChildDiagnostics.DiagnosticIsBounded` | packages/dalph/test-support/production-hermetic-child-lifetime.ts:13-58 | the result is within the limit, and marked truncated exactly when the text was longer |
| `Continuation.ReadsAreInOrder` | packages/dalph/test-support/controlled-ds13.ts:91-366 | the five continuation reads found are of the right kinds, rest on their predecessors and lie strictly in order |
| `Continuation.PredecessorsAreExact` | packages/dalph/test-support/controlled-ds13.ts:91-366 | where the identities hold no comma, each of the five reads rests on exactly the operations before it, as collections |
| `Checkpoints.Ds13ForcesCourse` | packages/dalph/test-support/controlled-ds13.ts:761-809 | acceptance at DS-13 forces the whole causal course in strictly increasing positions up to the accepted one, with five distinct witnesses |
| `CheckpointOrder.Ds12ForcesReads` | packages/dalph/test-support/controlled-ds12.ts:336-439 | acceptance at DS-12 forces B1's plan and claim, the choice, and the five continuation reads of the right kinds and predecessors in order, and no action on B1 after the choice |
| `CheckpointOrder.NoReturnToDs12` | packages/dalph/test-support/controlled-ds12.ts:336-439 | no extension of a journal at DS-13 is at DS-12, for any publications |
| `CheckpointOrder.CheckpointsExclude` | packages/dalph/test-support/controlled-ds13.ts:761-809 | no journal is at both checkpoints |
| `CheckpointOrder.SecondResumeIsRefused` | packages/dalph/test-support/controlled-ds13.ts:635-648 | a second Resume intent of the scenario's run, put anywhere into an accepted journal, makes it rejected for every publication |
| `CheckpointOrder.Ds13FollowsDs12` | packages/dalph/test-support/controlled-ds13.ts:761-786 | between DS-12 and DS-13 of one growing journal, B1 was authorized, resumed and reported |
| `AcceptedJournals.AcceptedAtDs12` | packages/dalph/test-support/controlled-ds12.ts:391-439 | every story-shaped journal with these contents is accepted at DS-12 |
| `AcceptedJournals.AcceptedAtDs13` | packages/dalph/test-support/controlled-ds13.ts:788-809 | and, carried on to B1's report, at DS-13 |
| `AcceptedJournals.CheckpointsAreReached` | packages/dalph/test-support/controlled-ds13.ts:788-809 | there are journals and publications that each checkpoint accepts |
| `OperationIds.ComparisonIsExact` | packages/dalph/test-support/controlled-ds13.ts:29-30 | on identities without a comma the comparison is equality of collections in any order |
| `OperationIds.CommaConfuses` | packages/dalph/test-support/controlled-ds13.ts:29-30 | an identity with a comma compares equal to two identities |
| `CommaComparison.ComparisonSeesPieces` | packages/dalph/test-support/controlled-ds13.ts:29-30 | two collections compare equal if and only if, in ascending order, both have the same pieces between commas |
| `CommaComparison.ExactAgainstIff` | packages/dalph/test-support/controlled-ds13.ts:29-30 | a collection is identified by the comparison if and only if it is empty or one identity that does not read as two in ascending order |
| `CommaComparison.ConfusedWithPlainIff` | packages/dalph/test-support/controlled-ds13.ts:29-30 | an identity is confused with comma-free ones if and only if it holds a comma and its pieces are non-empty and ascending |
| `Occurrences.Recorder.Record` | packages/dalph/test-support/controlled-occurrences.ts:54-83 | a call below the limit is recorded in call order, any other changes nothing |
| `Occurrences.Recorder.Snapshot` | packages/dalph/test-support/controlled-occurrences.ts:84-98 | the snapshot is in call order with contiguous ordinals and per-source sequences |
| `Occurrences.ConsumeAcceptedOrder` | packages/dalph/test-support/controlled-occurrence-cassette.ts:42-115 | the consumer's loop reports the first position at which anything is wrong |
| `Occurrences.RecorderAndCassetteAgree` | packages/dalph/test-support/controlled-occurrence-cassette.ts:42-115 | a snapshot is consumed if and only if the identities are equal as sequences; otherwise the first difference is reported |
| `Occurrences.OnlyStampedIsConsumed` | packages/dalph/test-support/controlled-occurrence-cassette.ts:42-115 | the only observation consumed against an expected order is the one a recorder makes of it |
| `Occurrences.MoveKeepsMembers` | packages/dalph/test-support/controlled-occurrences.ts:132-146 | moving a landmark is a permutation |
| `Occurrences.ReversalIsDetected` | packages/dalph/test-support/controlled-occurrences.ts:114-146 | reversing a satisfied edge is always reported by the validation of that edge |
| `FixtureLedger.LedgerIsExact` | packages/dalph/test-support/production-hermetic-fixture-authorization.ts:11-55 | a ledger is accepted if and only if it holds exactly one resource of every kind, with matching receipts |
| `FixtureLedger.EveryKindOnce` | packages/dalph/test-support/production-hermetic-fixture-authorization.ts:46-52 | as many distinct tags as kinds means every kind, and conversely |
| `FixtureLedger.KeyIsInjective` | packages/dalph/test-support/production-hermetic-fixture-authorization.ts:27-27 | resource keys are equal only for equal resources |
| `FixtureCleanup.RemoveExactResource` | packages/dalph/test-support/production-hermetic-fixture-cleanup.ts:75-95 | no cause if and only if the very resource of the receipt is removed and gone afterwards; otherwise which cause, exactly |
| `FixtureCleanup.RemoveInTurn` | packages/dalph/test-support/production-hermetic-fixture-cleanup.ts:97-123 | resources go in turn up to exactly the first that does not |
| `FixtureCleanup.RemoveFixtureResources` | packages/dalph/test-support/production-hermetic-fixture-cleanup.ts:97-123 | what is removed is the removal order up to exactly the first resource that does not go; no cause if and only if all go |
| `FixtureCleanup.CheckRemovalConditions` | packages/dalph/test-support/production-hermetic-fixture-cleanup.ts:36-68 | no cause exactly when every precondition of removal holds; running children and unfinished runs are named exactly in the tested order |
| `FixtureCleanup.DisposeFixture` | packages/dalph/test-support/production-hermetic-fixture-cleanup.ts:126-153 | without permission nothing is removed; with it resources go up to exactly the first that does not; RemovedResources is reported if and only if removal is permitted and every resource goes; the rest is retained |
| `FixtureCleanup.DisposalPartitions` | packages/dalph/test-support/production-hermetic-fixture-cleanup.ts:135-152 | removed and retained resources always partition the created ones |
| `FixtureCleanup.MetadataGoesLast` | packages/dalph/test-support/production-hermetic-fixture-cleanup.ts:97-123 | no metadata resource is removed before all others are |
| `FixtureCleanup.OrderIsPermutation` | packages/dalph/test-support/production-hermetic-fixture-cleanup.ts:102-122 | the removal order is a permutation of the created resources |
| `Provider.FreshThread` | packages/dalph/test-support/production-hermetic-provider-state.ts:253-271 | a new thread's id is new, and threads stay numbered without gaps |
| `Provider.TurnAppended` | packages/dalph/test-support/production-hermetic-provider-turn.ts:25-57 | a turn under a new token keeps turns numbered and tokens distinct |
| `Provider.TurnIdsDiffer` | packages/dalph/test-support/production-hermetic-provider-turn.ts:25-57 | turn ids are unique across all threads |
| `Provider.TraversalIsSound` | packages/dalph/test-support/production-hermetic-provider-graph.ts:27-67 | a completed traversal means four consecutive reads in the expected order, and no read counts twice |
| `Provider.TraversalCompletesWhenFresh` | packages/dalph/test-support/production-hermetic-provider-graph.ts:27-67 | four reads in order complete a traversal exactly when none was under way |
| `Provider.RejectedBatchLeavesReads` | packages/dalph/test-support/production-hermetic-provider-state.ts:56-176 | a rejected batch can leave an observed read behind |
| `Provider.EmptyTrace` | packages/dalph/test-support/production-hermetic-provider-state.ts:162-176 | of its reads, a batch leaves none behind exactly when only issues are read before the first foreign one |
| `Provider.ProviderState.StartThread` | packages/dalph/test-support/production-hermetic-provider-state.ts:253-271 | a thread is started exactly below the two roots, under a new id |
| `Provider.ProviderState.StartTurn` | packages/dalph/test-support/production-hermetic-provider-turn.ts:25-57 | redelivery of a token returns the retained turn and produces nothing |
| `Provider.ProviderState.ObserveRelation` | packages/dalph/test-support/production-hermetic-provider-graph.ts:27-67 | one read extends the observations and keeps the traversal count exact |
| `Provider.ProviderState.ReadBatch` | packages/dalph/test-support/production-hermetic-provider-state.ts:138-176 | a batch is accepted exactly when all its issues are the fixture's, and leaves exactly the reads before the first foreign one |
| `Provider.ProviderState.CreateLabel` | packages/dalph/test-support/production-hermetic-provider-state.ts:184-200 | a new name gets its label and a matching receipt; an existing one is refused without change |
| `Provider.ProviderState.DeleteLabel` | packages/dalph/test-support/production-hermetic-provider-state.ts:201-208 | exactly the labels with the node id go; a foreign one is refused without change |
| `Provider.ProviderState.SetCompletionResponse` | packages/dalph/test-support/production-hermetic-provider-state.ts:410-410 | completions are throttled from now on, or no longer |
| `Provider.ProviderState.Close` | packages/dalph/test-support/production-hermetic-provider-state.ts:209-225 | exactly the issue asked for is completed, unless completions are throttled |
| `Provider.ProviderState.Dispatch` | packages/dalph/test-support/production-hermetic-provider-state.ts:155-237 | by kind of request: the reply, and exactly what becomes of labels, receipts, lifecycles and observed reads |
| `Provider.ProviderState.Serve` | packages/dalph/test-support/production-hermetic-provider-state.ts:138-237 | a request inside the fixture is counted before anything else, also when it is refused; a refused one leaves observed reads exactly when it is a batch with a relation read before its first foreign issue |
| `Provider.ProviderState.Github` | packages/dalph/test-support/production-hermetic-provider-state.ts:125-237 | a foreign or malformed request changes nothing; any other is counted and has exactly the effect of its kind; a rejected request leaves labels and receipts alone, the counters if and only if it is outside the fixture, and the observed reads if and only if it is no batch with a relation read before its first foreign issue |
| `Provider.ProviderState.DependantReady` | packages/dalph/test-support/production-hermetic-provider-graph.ts:22-67 | ready only after the expected order was read consecutively, and four times the count plus pending never exceeds the reads |

## Left out

- The orchestrator's reducers, journal, frontier and protocols and the application sources of `packages/dalph/src`; journal events and publications carry only the fields the checkpoints read.
- TypeScript's checker, parser and resolver: resolution is the first existing candidate of a list that depends only on the file's text, diagnostics are a function of the texts in a file's closure and of the global files; option diagnostics and the identity cache keyed by objects are not part of this model.
- The audit's source paths are assumed distinct where the code compares counts (`SourceAudit.RepeatedPathDefeatsRootTest` shows why), and the disk does not change while the process runs.
- The observer's walk of directories and symbolic links: watching is an arbitrary sequence of requests, and start-up is the same as a protect command.
- The observer reads all available data before it delivers the events; messages are counted, their texts and the request identifiers of acknowledgements are not part of this model. Pausing only delays drains.
- InputObserver.InputObserver.ProtectCommand: the roots that links add are parameters, because the walk is left out.
- WatchBook.AdoptedKeepsGood: the kernel's answers are arbitrary, so a faulty one is recorded in `kernelFault` and the result is stated for books without one.
- RecordBindings.StepKeepsSafe: the bindings are modelled as a step machine on values, one step per point at which a fiber may be suspended, so update in place of the hash map is not captured.
- Continuation.ReadsAreInOrder: tracker targets are compared by identity, which for the scenario's text target is what the comparison of encoded keys decides.
- GitLocator.RefGrammar: strings are sequences of characters, so surrogate pairs count as one character; no rule looks at them.
- CapabilityRegistration.CapabilityIssues: the text `family:identity` that the source uses as a key is a pair here.
- The provider's other calls (listing, reading and resuming threads, interrupting turns, terminals), HTTP servers and cleanup adapter; scopes, fibers, Git, the file system, process spawning and SHA-256 are parameters or step results.
- Secret redaction, which replaces exact texts before the bounded part.
- The DS-01 to DS-11 and DS-14 to DS-20 recognisers and the driver that runs the scenario; literal inventories and expected counts; the browser page, graph projection, command-line entry points and configuration.
