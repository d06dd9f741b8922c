# Loop Engine, modelled and proved in Dafny

Loop Engine runs governed business loops: instances move between the states of a definition,
guards and actor rules decide who may move them, evidence is hashed and stored, and everything
that happens is recorded as history, events and traces. This project models the parts of it in
which state, concurrency and text formats meet, and proves what holds over every run.
`dafny verify dfyconfig.toml` verifies all of it.

How the files are organised:

- `CanonicalJson`, `CanonicalFingerprint`, `JsonSyntax`, `KeyOrder`, `Utf16Text`: canonical JSON. Strings are
  sequences of UTF-16 units, numbers are integers. A reader is written next to the printer and
  shown to invert it in front of any suffix, which must not begin with a digit behind a number
  (RFC 8785, sections 3.2.2.2 and 3.2.3).
- `SseText`, `Sse`, `SseStream`, `SseFrames`: the incremental event-stream reader and the wire form
  of the WHATWG HTML Standard (sections 9.2.5 and 9.2.6).
- `LoopModel`, `Guards`, `GovernedEvidence`, `LoopEngine`, `Replay`: the engine with its store,
  guards and evidence commit. `LoopEngine.EffectOf` says what one call saves, records, emits and
  answers as a function of the stored instance; the class performs the call step by step and is
  proved to do just that.
- `EngineRuns`, `EngineEvents`, `EngineWords`, `EngineIsolation`, `EngineEvidence`,
  `EngineGuarantees`, `EngineCalls`: what holds over runs of any calls on any number of aggregates.
- `Validator`, `Completability`: what each validation code means, the search for a terminal
  state, and what acceptance says about what the engine can do.
- `Traces`, `StableOrder`, `TraceStore`, `TraceSequence`, `TraceProtocol`, `TraceAnswers`, `TraceGaps`,
  `TraceRaces`, `TraceWriting`, `Residency`: traces, from the allocation of sequence numbers by
  concurrent writers to the read side.
- `Migrations`, `MigrationSteps`, `MigrationRuns`, `MigrationProgress`, `MigrationDrift`,
  `MigrationReports`, `MigrationRunner`, `PgErrors`, `Transactions`, `Provisioning`, `InitialState`:
  the durable stores. Sessions, writers and calls are interleaved in every possible way, one transaction or statement a
  step, with rejected statements, lost answers, broken connections and crashes.
- `RateLimiter`: the sliding-window limiter.
- `Prelude`: optional values, trimming, sequences seen from their end.

Outside functions are parameters: the clock, random ids, `Date.parse`, SHA-256 (an arbitrary
function), guard evaluators (an arbitrary registry per call) and the failures of a database
(an arbitrary schedule).

## What turned out not to hold as it is often told

Each of these is a lemma with a concrete input, next to a theorem that says exactly when the
property does hold; only for the frames of texts with CR CR LF it is one condition that suffices
and another that is necessary.

- Chunks: the reader's pieces are the same for every chunking exactly when the text has no
  CR CR LF (`ChunkingExact`, `CrCrLfChangesFrames`), because the carried buffer is normalised again.
  The frames made of them are then the same too; and they are not whenever a data line ends in
  CR CR LF (`DataLinesMustNotEndInCrCrLf`).
- Validation: the engine takes the first transition with an id out of a state, and validation does
  not ask that these pairs be distinct. `ShadowedNeverCloses` is an accepted loop that never closes;
  `ExactlyCompletableLoopsClose` says which loops can.
- Trace numbers: the in-process counter that stands in when allocation fails can leave a gap
  (`FallbackLeavesGap`); the trace is accepted after every step exactly when no insert commits a
  number that is ahead of the rows of its run (`AcceptedExactly`). The comment in `oss-traced-loop-system.ts` that the
  counter serves single-process tests only does not match the code, which also uses it after a
  failed allocation.
- Transactions: a resolved call has committed every acknowledged write exactly when no statement
  failed (`ResolvedMeansCommitted`, `SwallowedErrorLosesWrite`), because COMMIT of an aborted
  transaction reports no error. A plain rejection means that nothing is committed, exactly unless
  the commit's answer was lost to an error that is not recognised as one of the connection, such as
  EPIPE (`RejectedMeansNothing`, `UnrecognisedLossCommits`). The documentation promises both
  without conditions.
- Rate limit: a clock that goes back can make the limiter forget (`ClockGoingBackForgets`).
  `DecidesExactly` says when it does.
- Throwing: a call that throws has stored nothing, exactly unless it started a loop without a
  version or a name, failed one with an empty code or message, or completed one with an empty
  unit (`ThrowsAfterSaveExactly`, `UnitlessIsStoredAndThrown`).
- The log: it tells the state of an aggregate after every call, exactly unless such a start without
  an event moved the aggregate (`LogTellsState`, `UnnamedStartMisleads`).

## Model

| member | source | states |
|---|---|---|
| CanonicalJson.CheckPairs | packages/canonical-json/src/canonical-hash.ts:76-90 | The index loop with its skip accepts exactly the strings in which no unit from D800 to DFFF stands alone. |
| CanonicalJson.AssertCanonicalizable | packages/canonical-json/src/canonical-hash.ts:68-125 | No error exactly when every part of the tree is accepted; an error names a part that is there and what is wrong with it. |
| CanonicalJson.OffencesByKind | packages/canonical-json/src/canonical-hash.ts:68-125 | What is refused, and why, by kind of value: integers beyond 9007199254740991 either way, numbers that are not finite, strings with a lone surrogate, and what is no JSON. |
| CanonicalJson.CanonicalSerialize | packages/canonical-json/src/canonical-hash.ts:127-150 | The recursive printer with its sorted keys writes the specified text; for accepted values that is the canonical text in code units, with the members of every object once each and in ascending order of their keys. |
| CanonicalJson.SerializeWrites | packages/canonical-json/src/canonical-hash.ts:127-150 | The specified text is, unit by unit in numbers: 110 117 108 108 for null, items between 91 and 93, members between 123 and 125 with ascending keys, 44 between neighbours and 58 behind a key, nothing else. |
| CanonicalJson.Canonicalize | packages/canonical-json/src/canonical-hash.ts:160-163 | Refuses exactly the values that are not accepted, and otherwise gives the canonical text, with members in ascending order of their keys. |
| KeyOrder.SortByKeySorts | packages/canonical-json/src/canonical-hash.ts:144-146 | Sorting distinct keys gives the same members with keys that ascend: behind what two keys share, the first has ended or goes on with the smaller UTF-16 unit. |
| KeyOrder.LessMeans | packages/canonical-json/src/canonical-hash.ts:144-146 | One key is less than another exactly when they share a prefix behind which the first has ended or has the smaller unit. |
| KeyOrder.SortedUnique | packages/canonical-json/src/canonical-hash.ts:144-146 | A strictly ascending sequence is determined by its members, so that key order in the input cannot matter. |
| JsonSyntax.QuoteIsString | packages/canonical-json/src/canonical-hash.ts:137-139 | A quoted string is 34, each unit as itself or escaped, and 34: the seven short escapes, lower-case hexadecimal for units below 32 and for lone surrogates, halves of pairs as they are. |
| JsonSyntax.PrintIntIsInteger | packages/canonical-json/src/canonical-hash.ts:134-136 | A printed integer is its decimal digits, 48 to 57, with no zero in front and with 45 before a negative one. |
| Utf16Text.ReadCharsInverts | packages/canonical-json/src/canonical-hash.ts:137-139 | Reading an escaped string up to its quote, in front of any suffix, gives back the string, lone surrogates in keys included. |
| Utf16Text.ReadIntInverts | packages/canonical-json/src/canonical-hash.ts:134-136 | Reading a printed integer in front of anything but a digit gives back the integer and the rest. |
| CanonicalFingerprint.ReadInverts | packages/canonical-json/src/canonical-hash.ts:127-150 | Reading a canonical text in front of any suffix gives the tree it stands for and that suffix; only what follows a number must not begin with a digit. |
| CanonicalFingerprint.ProperPrefixesAreNumbers | packages/canonical-json/src/canonical-hash.ts:127-150 | A canonical text is a proper prefix of another one only if both are texts of numbers. |
| CanonicalFingerprint.NumbersCanBePrefixes | packages/canonical-json/src/canonical-hash.ts:134-136 | For numbers it happens: the text of 1 is a prefix of the text of 12. |
| CanonicalFingerprint.CanonicalTextFaithful | packages/canonical-json/src/canonical-hash.ts:152-163 | Two accepted values have the same canonical text if and only if they are the same tree up to the order of object keys. |
| CanonicalFingerprint.ReadBack | packages/canonical-json/src/canonical-hash.ts:152-163 | The canonical text reads back to the same tree, which has the same canonical text again. |
| Sse.ParseSseFrame | packages/loop-status-client/src/sse.ts:15-32 | The line loop computes the event name of the last event line and the joined data lines, or nothing without data. |
| Sse.LineMeans | packages/loop-status-client/src/sse.ts:16-28 | What one more line of a frame brings: `data` and `data:` a value, `event` and `event:` the name, one space behind the colon left out; any other line nothing; the name is "message" to begin with. |
| Sse.NoDataLines | packages/loop-status-client/src/sse.ts:30-31 | There are no data lines, and so no frame, exactly when no line is `data` or begins with `data:`. |
| Sse.Drain | packages/loop-status-client/src/sse.ts:48-55 | The inner loop yields the frames of all complete pieces of the buffer and keeps the incomplete one. |
| Sse.IterateSseFrames | packages/loop-status-client/src/sse.ts:38-64 | The reader yields the frames of the pieces that its buffering cuts from the chunks, the trimmed last piece included. |
| Sse.BlankHasNoFrame | packages/loop-status-client/src/sse.ts:57-60 | The test on the trimmed rest of the buffer never loses a frame. |
| SseStream.ChunksDoNotMatter | packages/loop-status-client/src/sse.ts:38-60 | For text without CR CR LF the pieces and frames are those of the whole text, wherever it was cut. |
| SseStream.ChunkingExact | packages/loop-status-client/src/sse.ts:46-47 | The pieces that the reader cuts, from which it makes the frames, are the same for all chunkings if and only if the text has no CR CR LF. |
| SseStream.CrCrLfChangesFrames | packages/loop-status-client/src/sse.ts:46-47 | A family of texts with CR CR LF whose frames differ between two chunkings. |
| SseFrames.DataLinesMustNotEndInCrCrLf | packages/loop-status-client/src/sse.ts:38-60 | If any data line of a text, wherever it stands, ends in CR CR LF, then the frames are not the same for all chunkings. |
| SseStream.WireRoundTrip | packages/loop-status-client/src/sse.ts:9-64 | Frames sent in wire form with LF or CR LF and cut anywhere come back as the same frames in order. |
| Guards.EvaluateGuards | packages/guards/src/pipeline.ts:12-44 | Throws exactly on an unknown guard id; otherwise the failures of each severity are those of the guards of it that do not pass, each once and in guard order, and all passed exactly when every hard guard passes. |
| Guards.NoFailures | packages/guards/src/pipeline.ts:36-43 | There is no failure of a severity exactly when every guard of it passes. |
| Guards.FailuresTell | packages/guards/src/pipeline.ts:20-37 | The failures of a severity stand at strictly increasing places, which are exactly those of its guards that do not pass, with the id and the message, or no message, of each. |
| GovernedEvidence.ValidateCommitBatch | packages/evidence/src/validate-evidence-snapshot.ts:249-288 | No errors exactly when every snapshot is complete, field by field, and no two have the same key. |
| GovernedEvidence.HashOne | packages/evidence/src/governed-evidence-commit.ts:90-100 | A hash exactly when the values have a canonical text and a hash sent along is the hash of that text. |
| GovernedEvidence.HashAll | packages/evidence/src/governed-evidence-commit.ts:86-119 | The loop passes exactly when every snapshot's hash does, with one id and one row per snapshot in order. |
| GovernedEvidence.CommitSnapshots | packages/evidence/src/governed-evidence-commit.ts:63-144 | The commit goes through exactly when the batch is not empty, complete, honest and there is a store; the reasons of a decline are told apart; otherwise the ids and rows of the batch. |
| GovernedEvidence.VerdictMeans | packages/evidence/src/governed-evidence-commit.ts:66-128 | A batch is stored exactly when it can be; evidence is required exactly for no array or an empty one, and a store is exactly when it is all that is missing. |
| GovernedEvidence.CommittedRows | packages/evidence/src/governed-evidence-commit.ts:101-134 | There is one row for each snapshot in order, with its key, its values, the hash of their canonical text, the tenant, the aggregate and its fresh id; keys are distinct, and the ids are those of the rows. |
| LoopModel.FindsTheFirst | packages/runtime/src/engine.ts:175-179 | What is found is the first transition with the id out of the state, and nothing is found exactly when there is none. |
| LoopModel.IsTerminalMeans | packages/runtime/src/engine.ts:111-113 | A state is terminal exactly when some state of its id is marked as terminal. |
| LoopEngine.MemoryStore.SaveInstance | packages/adapter-memory/src/index.ts:20-22 | Replaces the instance of one aggregate and leaves the histories and other aggregates alone. |
| LoopEngine.MemoryStore.SaveTransitionRecord | packages/adapter-memory/src/index.ts:24-28 | Appends to the history of one aggregate and changes nothing else. |
| LoopEngine.Emittable | packages/runtime/src/engine.ts:236-250 | How many failures are emitted before one whose empty message the event schema refuses. |
| LoopEngine.Engine.StartLoop | packages/runtime/src/engine.ts:115-154 | Starting step by step has exactly the specified effect: two refusals, a fresh active instance over the old history, the started event. |
| LoopEngine.Engine.TakeTransition | packages/runtime/src/engine.ts:156-417 | The imperative transition with its exits has exactly the specified effect on instances, histories, log and snapshot store; every row it stores is for its aggregate and under the tenant that the call names, else the tenant, then the organization of the metadata, then the aggregate. |
| LoopEngine.Engine.CancelLoop | packages/runtime/src/engine.ts:419-442 | Cancelling saves the cancelled status with the end and the time of the call, keeps state and history, and emits one cancelled event with the reason. |
| LoopEngine.Engine.FailLoop | packages/runtime/src/engine.ts:444-470 | Failing saves the failed status with the end and the time of the call, and then emits one failed event with the given state, code and message, unless the schema refuses it. |
| LoopEngine.Engine.Perform | packages/runtime/src/engine.ts:115-470 | Every public call takes the engine to the next world of the specification. |
| Replay.ReplayLoop | packages/observability/src/replay.ts:5-25 | Replay accepts exactly the histories in which every record is a transition out of the state where the one before it ended, or out of the initial state; the first error names the first record that is none. |
| EngineRuns.EffectShape | packages/runtime/src/engine.ts:342-365 | What goes together in one call: a record only with the save of its target state, by a listed actor, on the first transition found. |
| EngineRuns.AlwaysStanding | packages/runtime/src/engine.ts:115-470 | In every run each instance stands at the end of the records since its latest start, all of them taken as the engine finds transitions. |
| EngineRuns.ReplayAccepts | packages/observability/src/replay.ts:5-25 | In every run replay accepts the history since the latest start, and it ends in the instance's current state. |
| EngineRuns.OthersUntouched | packages/runtime/src/engine.ts:115-470 | A call changes neither instance nor history of any other aggregate. |
| EngineRuns.LogMatchesHistory | packages/runtime/src/engine.ts:352-382 | In every run an aggregate's executed events, in log order, are its stored history record for record. |
| EngineWords.TransitionWord | packages/runtime/src/engine.ts:156-416 | The events of every transition call are exactly one word, tied to its answer: nothing; or the request and one event for every failing soft guard in order, followed by one for every failing hard guard and the block, or by the execution and, exactly at a terminal target, the completion, or by nothing when the evidence is rejected; a call that throws has emitted the word up to the event that was refused. |
| EngineWords.LogIsMadeOfWords | packages/runtime/src/engine.ts:105-109 | The log of every run is what its calls emitted, in order, and every transition call in it has emitted exactly the word of its answer. |
| EngineEvents.LogTellsState | packages/runtime/src/engine.ts:105-154 | In a run a reader of an aggregate's events alone knows its current state after every call, with no event out of place, if and only if no call starts the aggregate from another state under a definition without a version or a name. |
| EngineEvents.UnnamedStartMisleads | packages/runtime/src/engine.ts:137-151 | Starting a loop without a name stores an instance that no event tells of. |
| EngineEvents.EventsOfTarget | packages/runtime/src/engine.ts:115-470 | All events of a call speak of the aggregate the call is about. |
| EngineIsolation.RunsProject | packages/runtime/src/engine.ts:115-470 | Instance, history, events and answers of an aggregate are those of the run of its own calls alone. |
| EngineIsolation.InterleavingsAgree | packages/runtime/src/engine.ts:115-470 | Runs that make the same calls on an aggregate agree on it however others are interleaved. |
| EngineIsolation.ClosedUntilStarted | packages/runtime/src/engine.ts:167-173 | From a terminal state on, through any calls but a start, state and history stay and every transition is rejected as loop_closed without effect. |
| EngineEvidence.GovernedRecordsAreEvidenced | packages/runtime/src/engine.ts:308-365 | In every run each record of a governed transition carries the ids of rows stored as one batch with distinct keys for its aggregate, and every stored row holds the hash of its own values. |
| EngineCalls.TransitionMoves | packages/runtime/src/engine.ts:283-365 | Whenever a transition is recorded: every field of the record, of the saved instance and of each stored row, and each entry of the recorded evidence, with the soft failures, the ids of the rows and the versions where they belong. |
| EngineCalls.RowsBelongToTheirCalls | packages/runtime/src/engine.ts:308-340 | Every stored row of a run was stored by a transition call, for its aggregate and under the tenant that the call named, else the tenant, then the organization of the instance it found, then its aggregate. |
| EngineCalls.RefusedExactly | packages/runtime/src/engine.ts:115-165 | Calls throw for an unknown loop, an active instance or a missing one exactly when that is the case, and then do nothing. |
| EngineCalls.StatusTellsItsCall | packages/runtime/src/engine.ts:115-470 | In every run the status, start and end of an instance are those of the last call that started, completed, cancelled or failed it, and a cancellation has announced its reason, a failure its code and message. |
| EngineGuarantees.RecordedExactlyWhenAdmitted | packages/runtime/src/engine.ts:156-365 | A transition is recorded if and only if the loop is open, the first transition found lists the actor without need of approval, every hard guard passes, failing soft guards say why, and governed evidence asked for is complete, honest and storable. |
| EngineGuarantees.OnlyExecutedChanges | packages/runtime/src/engine.ts:308-416 | A transition changes instances, histories or snapshots if and only if it is admitted, so that a rejected commit changes nothing; and it is answered as executed if and only if it is admitted and its completion is not refused by the event schema. |
| EngineGuarantees.ThrowsAfterSaveExactly | packages/runtime/src/engine.ts:115-470 | A call throws after it has saved if and only if it starts a loop without a version or a name, fails one with an empty code or message, or completes one with an empty unit; any other call that throws saves, records and stores nothing. |
| EngineGuarantees.UnitlessIsStoredAndThrown | packages/runtime/src/engine.ts:384-400 | A run in which the transition to the terminal state is stored and recorded by a call that throws. |
| EngineGuarantees.StatusTellsHistory | packages/runtime/src/engine.ts:342-365 | In every run an instance is completed only in a terminal state that its last record entered and at that record's time, an active one has no end and the time of its last record, and no record leaves an active instance in a terminal state. |
| Validator.HasPathToTerminal | packages/loop-definition/src/validator.ts:23-49 | The worklist search halts on every definition and is true exactly when some chain of transitions leads from the initial state to a terminal one. |
| Validator.BuildGraph | packages/loop-definition/src/validator.ts:24-31 | The graph holds a successor exactly when a transition joins the two states. |
| Validator.CheckGuards | packages/loop-definition/src/validator.ts:114-121 | Reports a repetition exactly when two guards of the transition share an id. |
| Validator.CheckSignalCycles | packages/loop-definition/src/validator.ts:51-81 | Reports exactly the transitions to which there is another one with the same signal, from where they lead to where they start. |
| Validator.CheckTransitions | packages/loop-definition/src/validator.ts:96-130 | Reports exactly the unknown states and repeated guard ids of the transitions. |
| Validator.ValidateLoopDefinition | packages/loop-definition/src/validator.ts:83-169 | A code is reported exactly when it is true of the definition, and the result is valid exactly when there is none. |
| Validator.AcceptableMeans | packages/loop-definition/src/validator.ts:83-169 | What acceptance guarantees: known states throughout, no two-way signal cycle, a way to a terminal state. |
| Completability.CompletesFromStart | packages/runtime/src/engine.ts:156-206 | Any freshly started aggregate of a completable loop, in any world, is brought to a terminal state by some transition calls of listed actors. |
| Completability.OnlyCompletableCloses | packages/runtime/src/engine.ts:175-206 | A run that reaches a terminal state shows a chain of transitions that are each the first of their id and origin, have an actor and can store their evidence. |
| Completability.ExactlyCompletableLoopsClose | packages/runtime/src/engine.ts:115-417 | Some run reaches a terminal state of a loop if and only if such a chain exists. |
| Completability.AcceptedIsCompletable | packages/loop-definition/src/validator.ts:83-169 | An accepted definition with distinct (id, from) pairs is completable, given actors and a host that can store the evidence asked for. |
| Completability.ShadowedNeverCloses | packages/loop-definition/src/validator.ts:96-149 | An accepted definition with a repeated pair that no run of the engine ever closes. |
| StableOrder.SortIsStable | packages/observability/src/memory-trace-store.ts:26-26 | Sorting by sequence gives an ascending permutation in which equal numbers keep their order. |
| StableOrder.StableUnique | packages/observability/src/memory-trace-store.ts:26-26 | An ascending order is determined by the elements of each number and their order. |
| StableOrder.SortAgain | packages/observability/src/memory-trace-store.ts:24-27 | Sorting after every write is the same as sorting all writes once. |
| TraceStore.MemoryTraceStore.Write | packages/observability/src/memory-trace-store.ts:24-42 | After any writes in any order every run's records are its writes stably sorted and its summary counts them; other runs keep theirs. |
| TraceStore.MemoryTraceStore.GetRunTrace | packages/observability/src/memory-trace-store.ts:44-46 | The trace of a run is its writes stably sorted by sequence. |
| TraceStore.CompareTraces | packages/observability/src/memory-trace-store.ts:70-92 | One step per number up to the greatest, and the least number where the first records of the runs differ in type, target state or block, or where one is missing; or none. |
| TraceStore.MemoryTraceStore.CompareRuns | packages/observability/src/memory-trace-store.ts:59-93 | Fails exactly on an unknown run; otherwise each step holds the first record of each run as written and whether they are alike, and the point is the least number where they differ in type, target state or block. |
| TraceStore.DivergenceIsSymmetric | packages/observability/src/memory-trace-store.ts:76-92 | Swapping the runs gives the same divergence point, and there is only one. |
| TraceStore.NoneMeansAlike | packages/observability/src/memory-trace-store.ts:82-87 | No divergence point means that at every number both runs have no record or alike ones, and conversely. |
| TraceStore.WriteOrderDoesNotMatter | packages/observability/src/memory-trace-store.ts:24-27 | With distinct numbers the stored records do not depend on the order of the writes. |
| Traces.CountsNext | packages/observability/src/memory-trace-store.ts:31-41 | How a summary keeps counting its run: steps, blocks, governance, first start, last terminal record. |
| TraceSequence.ValidateTraceSequence | packages/runtime-core/src/build-run-responses.ts:138-149 | Valid exactly when the numbers are a permutation of 0 to n-1; otherwise the number reported is the least that is negative, repeated or above a missing one. |
| TraceSequence.CompleteMeans | packages/runtime-core/src/build-run-responses.ts:138-149 | A permutation of 0 to n-1 is a list of n numbers in that range, no two the same, in which each occurs. |
| TraceProtocol.StepInserts | packages/runtime-core/src/trace-repository.ts:161-201 | A step leaves the database alone or inserts one record that met no conflict, with its summary. |
| TraceProtocol.InsertResultMeans | packages/runtime-core/src/trace-repository.ts:161-164 | A record goes in exactly when no row has its id and no row of its tenant and run its number; only then the rows grow, by it. |
| TraceProtocol.AlwaysUniqueAndSummarised | packages/runtime-core/src/trace-repository.ts:128-201 | In every interleaving ids are unique, numbers are unique within a run, and stepCount, blockedCount and the rest of the summary agree with the rows. |
| TraceProtocol.InsertKeepsGapless | packages/runtime-core/src/trace-repository.ts:161-164 | An insert without conflict keeps a gapless run gapless if and only if its number is not ahead of the rows. |
| TraceProtocol.EveryTraceIsAccepted | packages/runtime-core/src/build-run-responses.ts:138-149 | In every interleaving of any number of writers, retries, crashes and lost answers, rows are numbered 0 to n-1 in commit order and the read side accepts them. |
| TraceProtocol.NoFailureIsTame | packages/runtime-core/src/oss-traced-loop-system.ts:155-161 | In particular whenever no allocation fails. |
| TraceProtocol.FallbackLeavesGap | packages/runtime-core/src/oss-traced-loop-system.ts:155-161 | Two failed allocations and one failed insert of a process leave a gap that the read side rejects. |
| TraceGaps.AcceptedExactly | packages/runtime-core/src/oss-traced-loop-system.ts:155-161 | In every run, with any failed allocations, the read side accepts the trace after every step if and only if no insert commits a number that is ahead of the rows of its run. |
| TraceRaces.GivesUpOnlyWhenOutrun | packages/runtime-core/src/trace-repository.ts:138-159 | A writer gives up as a race only when other writes with different ids committed to its run between its first number and its last attempt: at least three if that number came from the database, at least two if it came from the in-process counter. |
| TraceAnswers.AcknowledgedExactly | packages/runtime-core/src/trace-repository.ts:138-159 | In every run a write is acknowledged if and only if one of its inserts has put its record behind the rows and was answered. |
| TraceAnswers.LostInsertIsStored | packages/runtime-core/src/trace-repository.ts:138-159 | An insert whose answer is lost has stored its record unless it met a conflict; a refused one has not; neither is tried again. |
| TraceAnswers.ThreeAttempts | packages/runtime-core/src/trace-repository.ts:139-152 | In every run a writer makes at most three attempts, and exactly three when it gives up. |
| TraceAnswers.FirstNumber | packages/runtime-core/src/oss-traced-loop-system.ts:155-161 | A write begins with one more than the greatest number of its tenant's run, or when that fails with how often its process has fallen back for that run before. |
| TraceWriting.TraceRepository.AllocateNextSequence | packages/runtime-core/src/trace-repository.ts:128-136 | One more than the greatest number stored for the tenant and run, 0 for an empty run. |
| TraceWriting.TraceRepository.PersistTraceWithSummaryOnce | packages/runtime-core/src/trace-repository.ts:161-201 | The insert with its summary, created or updated, is the transaction of the protocol; a conflict changes nothing. |
| TraceWriting.TraceRepository.PersistTraceWithSummary | packages/runtime-core/src/trace-repository.ts:138-159 | The retry loop, with any steps of others before each of its transactions and with any answers lost or refused, performs a run of the protocol. It returns only when its last step has put the record, under the number of that attempt, behind the rows; when every answer came and it throws, it has committed nothing; it inserts at most three times, and three times when it gives up. |
| Residency.ComputeStateResidency | packages/observability/src/trace-timeline.ts:141-192 | The loop over current state and entry time tells, for every trace, exactly the stays that a move out of the state the move before it entered, or the end of the run, has closed, in order, and one open stay when the run has not ended. |
| Residency.StaysAreTold | packages/observability/src/trace-timeline.ts:141-192 | The walk that specifies the loop tells these stays and no others. |
| Residency.IntervalsDoNotOverlap | packages/observability/src/trace-timeline.ts:141-192 | For every trace whose timestamps do not go back the intervals are in order, do not overlap, and only the last may be open. |
| Residency.ChainedTraceTiles | packages/observability/src/trace-timeline.ts:141-192 | For a trace whose moves, which are starts, completed and blocked transitions that say where they go, and the end, chain: the i-th interval is the stay from the i-th move to the next, each exit is the next entry, and the closed durations sum to last move minus first. |
| MigrationRuns.StepOk | packages/adapters/postgres/src/migrations/runner.ts:159-259 | When all calls carry the first migrations of one list, every statement of every call, executed, rejected, lost or unsent, and every end of a session keeps the invariant and only adds effects. |
| MigrationRuns.EffectsAreARecordedPrefix | packages/adapters/postgres/src/migrations/runner.ts:242-259 | Through any crashes, failures, lost answers and concurrent calls the committed effects are the first migrations of the list, each once, and exactly they are recorded, under their ids and checksums. |
| MigrationRuns.ReturnedMeansMigrated | packages/adapters/postgres/src/migrations/runner.ts:179-205 | On one list a call that returns has all its migrations committed and reports each of them once, as skipped or applied, and no call reports drift. |
| MigrationDrift.ReturnCertifiesChecksums | packages/adapters/postgres/src/migrations/runner.ts:182-199 | Whatever lists the calls carry, effects and records go together under ids recorded once; a call that returns has every migration of its list recorded under its own checksum, and one that reports drift found one recorded under another, behind migrations that agree. |
| MigrationDrift.EditedIsRefused | packages/adapters/postgres/src/migrations/runner.ts:184-196 | Once a migration of a call's list is recorded under another checksum, the call does not return, and no step of it commits that migration or one behind it. |
| MigrationReports.AppliedMeansCommitted | packages/adapters/postgres/src/migrations/runner.ts:179-205 | Whatever lists the calls carry, a call that returns reports as applied just the migrations that its own steps committed, and the others of its list as skipped, each in the order of the list. |
| MigrationReports.FinishedLetsGo | packages/adapters/postgres/src/migrations/runner.ts:206-217 | A call whose statements are all answered holds the lock no more when it has finished, whatever it ended in. |
| MigrationReports.LostAnswersHaveHappened | packages/adapters/postgres/src/migrations/runner.ts:159-259 | A commit whose answer is lost stands although its call ends in an error, and a lock whose answer is lost is held until the session ends; rejected or unsent statements leave nothing. |
| MigrationRuns.FollowingCallAppliesNothing | packages/adapters/postgres/src/migrations/runner.ts:142-158 | A call that starts when its list is committed applies nothing and skips everything, or fails. |
| MigrationProgress.UninterruptedCallMigrates | packages/adapters/postgres/src/migrations/runner.ts:159-217 | Whatever happened before, a call that finds the lock free and is not interrupted returns with its list committed and the lock free. |
| MigrationRunner.Connection.ApplyMigration | packages/adapters/postgres/src/migrations/runner.ts:242-259 | BEGIN, the SQL, the row and COMMIT, with ROLLBACK after a failure between them, follow the protocol; either the migration is reported as applied or the call ends in an error. |
| MigrationRunner.Connection.ApplyPending | packages/adapters/postgres/src/migrations/runner.ts:179-205 | The loop skips what is recorded under the same checksum, stops at drift, applies the rest, and follows the protocol. |
| MigrationRunner.Connection.RunMigrations | packages/adapters/postgres/src/migrations/runner.ts:159-217 | The call, while other sessions take any steps before each of its statements and while it waits for the lock, performs a run of the protocol; so its result certifies checksums on any lists, and a committed list when all calls share one. |
| PgErrors.WhereClassificationsDiffer | packages/adapters/postgres/src/errors.ts:167-242 | On untagged errors being a connection error and being transient differ exactly for deadlocks and for server errors that mention a lost connection. |
| PgErrors.ConnectionErrorMeans | packages/adapters/postgres/src/errors.ts:218-242 | The connection is lost exactly by one of nine codes, or by a message that speaks of it in any mixture of upper and lower case. |
| PgErrors.ClassificationMeans | packages/adapters/postgres/src/errors.ts:167-190 | Which untagged errors are transient and which are permanent, by code and by message; tags come first. |
| Transactions.Client.Query | packages/adapters/postgres/src/index.ts:381-405 | One statement changes the server as its answer says, and is logged. |
| Transactions.WithTransaction | packages/adapters/postgres/src/index.ts:350-430 | By how the function ends and how the last statement fares: its error goes through after an answered ROLLBACK and is the cause of the integrity error otherwise, its value is handed on after an answered COMMIT, an error of BEGIN or COMMIT goes through, wrapped exactly when a COMMIT lost the connection. An acquired client is released exactly once. |
| Transactions.TransactTells | packages/adapters/postgres/src/index.ts:380-423 | Under every schedule the statements are BEGIN, those of the function as they fare, and COMMIT or ROLLBACK, and the caller is told just this. |
| Transactions.OutcomeTellsTruth | packages/adapters/postgres/src/index.ts:380-423 | Under every schedule of failures, what each outcome says about what the server has committed. |
| Transactions.ResolvedMeansCommitted | packages/adapters/postgres/src/index.ts:404-423 | A resolved call has committed its acknowledged writes if and only if no statement failed or there were none, and always when the function throws on every statement error. |
| Transactions.RejectedMeansNothing | packages/adapters/postgres/src/index.ts:404-421 | A rejection other than the integrity error leaves something committed if and only if an executed commit lost its answer to an unrecognised error. |
| Transactions.SwallowedErrorLosesWrite | packages/adapters/postgres/src/index.ts:384-405 | A function that goes on after a refused statement resolves although its acknowledged write is gone. |
| Transactions.UnrecognisedLossCommits | packages/adapters/postgres/src/errors.ts:218-242 | A commit whose answer is lost to EPIPE is rejected plainly and yet committed. |
| Provisioning.LoopInstanceRepository.FindByIdempotencyKey | packages/runtime-core/src/loop-instance-repository.ts:121-129 | The row of the tenant with the key, if there is one. |
| Provisioning.LoopInstanceRepository.CreateInstance | packages/runtime-core/src/loop-instance-repository.ts:131-150 | Inserts the row, or reports the constraint it violates and changes nothing. |
| Provisioning.LoopInstanceRepository.Provision | packages/runtime-core/src/loop-execution.ts:81-134 | The call with its pre-check, insert and second look-up performs the protocol's steps, with any steps of others before each query. It creates a row with the trimmed key, or none for a blank one, replays a stored row of its tenant and trimmed key whenever there is one, or names the constraint. |
| Provisioning.OneRowPerKey | packages/runtime-core/src/loop-execution.ts:81-134 | Under every interleaving there is at most one row for a tenant and a key, whatever white space is around it. |
| Provisioning.SameRowForAll | packages/runtime-core/src/loop-execution.ts:87-128 | All calls of one tenant whose keys are the same and not blank once they are trimmed report the same row when they succeed. |
| Provisioning.CreatedOnce | packages/runtime-core/src/loop-execution.ts:116-118 | At most one of the calls of one tenant with the same trimmed key reports that it created the row. |
| Provisioning.SomebodyCreated | packages/runtime-core/src/loop-execution.ts:116-128 | If no insert lost its answer, the row that a call reports was reported as created by some call. |
| Provisioning.KeysAreTrimmed | packages/runtime-core/src/loop-execution.ts:87-87 | In every run no stored key is blank or has white space around it. |
| Provisioning.AnswerMeans | packages/runtime-core/src/loop-execution.ts:81-134 | In every run: what each answer says of the request, field by field, and that a reported row is stored. |
| Provisioning.AnsweredCallsSucceed | packages/runtime-core/src/loop-execution.ts:119-133 | As long as every query is answered no call ends in an error; the second look-up always finds its row. |
| Provisioning.StoredKeyIsReplayed | packages/runtime-core/src/loop-execution.ts:89-96 | A call whose key is stored when it looks is answered with that row, whatever its definition is, and adds nothing. |
| Provisioning.LostInsertIsStored | packages/runtime-core/src/loop-execution.ts:116-133 | An insert whose answer is lost has left its row although the call ends in an error; a refused one has not. |
| Prelude.TrimIsMiddle | packages/runtime-core/src/loop-execution.ts:87-87 | Trimming cuts white space from both ends and nothing else, and leaves nothing exactly of blank strings. |
| Prelude.SpacesByNumber | packages/runtime-core/src/loop-execution.ts:87-87 | White space is the white space and line ends of ECMA-262, by code point. |
| InitialState.ParseInitialState | packages/runtime-core/src/loop-execution.ts:391-411 | An explicit initial state first, trimmed; then the first of a list of states, by its text, its `stateId` or for want of that its `id`; then the entry of a state map; otherwise nothing. |
| InitialState.InitialStateFromXStateLike | packages/runtime-core/src/loop-execution.ts:372-389 | An untargeted "idle", else the first untargeted state, else the first state; nothing only for an empty map. |
| RateLimiter.Limiter.RecordTransitionWithinLimit | packages/entitlements-iface/src/quota.ts:42-58 | The call is accepted exactly when fewer than 60, 300 or 1000 times, by tier, are kept from the 60000 ms before it; it prunes the window either way, and leaves every other tenant's window as it is. |
| RateLimiter.DecidesExactly | packages/entitlements-iface/src/quota.ts:49-57 | Whatever the clock does, the pruned window decides as a count over everything ever accepted, for every limit, if and only if no accepted call of the last window was followed by a call of the tenant more than 60000 ms after it. |
| RateLimiter.DecidesByFullHistory | packages/entitlements-iface/src/quota.ts:28-58 | While a tenant's calls come in the order of their times, a call is accepted exactly when fewer than 1000, 300 or 60 calls of the tenant, by tier, were ever accepted in the 60000 ms up to it. |
| RateLimiter.NeverMoreThanTheLimit | packages/entitlements-iface/src/quota.ts:28-58 | While a tenant's calls come in the order of their times, any closed interval of 60000 ms holds at most 1000, 300 or 60 accepted calls of a tenant, by the tier of the last of them. |
| RateLimiter.ClockGoingBackForgets | packages/entitlements-iface/src/quota.ts:49-51 | When the clock goes back the limiter accepts a call that the full count rejects. |

## Left out

- LoopEngine.Engine.TakeTransition: one call runs as a whole; other calls on the same aggregate between its awaits, and handlers that call the engine, are not modelled.
- LoopEngine.Engine.Perform: correlation ids, event ids, event timestamps and metadata of guard failures are not part of events; `getState`, `getHistory` and `listOpen` only read.
- EngineRuns.AlwaysStanding: assumes a registry that gives out each definition under its own id.
- CanonicalJson.Canonicalize: numbers are integers or not finite; the printing of fractions and exponents, and of negative zero, is the host's. Values with cycles, accessors or `toJSON` are not modelled.
- Sse.IterateSseFrames: chunks are already decoded text; splitting of UTF-8 sequences across chunks is the decoder's.
- GovernedEvidence.ValidateCommitBatch: counts what is wrong instead of listing codes, messages and paths; a required string is absent when it is anything else.
- GovernedEvidence.CommitSnapshots: SHA-256 is an arbitrary function and the snapshot store does not fail.
- Validator.ValidateLoopDefinition: codes carry the index of the transition and no messages.
- TraceStore.MemoryTraceStore.Write: records keep the fields that summaries and comparisons read; inputs, outputs, evidence and guard entries are opaque to the store. `listRuns` is a filter, a sort and a slice.
- TraceProtocol.EveryTraceIsAccepted: each database transaction is one atomic step; a store without an allocator, which numbers with the in-process counter alone, is not modelled.
- Residency.ComputeStateResidency: timestamps are numbers; the list of transitions and the counts of `computeMetricsFromTrace` would only add easy members. `getStateResidency` in `timeline.ts` starts from the current state of the instance and does not tile.
- MigrationRuns.StepOk: a pooled session that is used again counts as a new session.
- Transactions.WithTransaction: the caller's function is a finite tree of statements; the listener for asynchronous errors is left out.
- Provisioning.LoopInstanceRepository.Provision: the conversion of a row to its response and the starting, moving and cancelling of instances are left out; the latter only appear as changes of a row's state.
- RateLimiter.Limiter.RecordTransitionWithinLimit: tiers are integers.
- `executeOssTransition` and `executeOssCancel` keep a second status that is not synchronised with the engine, so that no agreement property holds.
- Kafka, HTTP, LLM, PagerDuty and commerce adapters, React components, registry clients, the builder and YAML loading are not part of this model.
