# Engrammesh: a verified model

Engrammesh records episodes into a cognitive memory and runs durable executions. This project models the parts of it
whose correctness depends on unbounded runs or unbounded inputs, and proves what those parts keep.

- **Plans and effect ids.** The plan check is Kahn's algorithm over mutable indegrees (`PlanGraph`). Payloads are frozen,
  canonicalised and printed as compact JSON before they are hashed (`EffectId`, over `Json`, `JsonText`, `Sorting` and
  `Text`); `EffectMeaning` says what the hashed text denotes.
- **Runtime executions.** Starting and cancelling under one lock (`Orchestrator`, `ExecutionLog`); the PostgreSQL store
  that writes the difference of two states and retries when a concurrent insert wins (`RowDiff`, `RuntimeDatabase`,
  `SnapshotCodec`); any number of processes racing to start (`StartRace`); the Temporal workflow with its retried
  activities (`TemporalActivities`, `TemporalWorkflow`, `LifecycleRun`) and the revision-guarded projection (`Projection`).
- **Memory.** Recording episodes in memory (`EpisodeStore`, `EpisodeRecording`) and on PostgreSQL under an advisory lock
  (`EpisodeTransactions`, `EpisodeUnitOfWork`, `EpisodeAppends`); claim extraction behind an inbox (`ClaimExtraction`, and `ClaimFacts` for what claims say), the
  pipeline of relays that drives it (`ClaimPipeline`, `LostClaims`), and how relay rounds drain the outbox (`OutboxRelay`,
  `RelayRuns`).
- **Listings and scanners.** Cursors (`Cursor`, over `Calendar`, `Encoding`, `JsonNumbers` and `JsonReader`), paging
  (`Pagination`, `Listings`), and the workflow policy's expression scanner (`ExpressionScanner`, `TokenAccess`,
  `TokenLexemes`, and `TokenNames` for the verdict in the names it is about).
- **Formats.** The texts other programs see, spelled out once (`Formats`).

Code that changes state step by step is written as classes and methods and tied to functions on the state; the theorems are
about those functions and about machines whose steps are those functions. A run is a sequence of states, each a step from
the one before; steps of different processes interleave freely.

Assumptions: generated ids are new when they are generated. PostgreSQL runs at READ COMMITTED; each statement sees what is
committed when it runs together with its own transaction's rows, and a transaction's rows become visible at once when it
commits. What the standard library takes for a timestamp and for an identifier, how deep it reads JSON and how many digits
an integer may have are parameters; of the first two it is assumed that printed texts read back (`Cursor.Sensible`).
Activity attempts keep their arguments and may stop after any effect. Identifiers are 128-bit numbers. Clocks, UUID
generation and SHA-256 are parameters or are not modelled.

Where the code falls short of what one would expect, the model follows the code and the exact condition is proved:

- A start in the in-memory database drops the outbox events committed before it (`ExecutionLog.OutboxForgets`,
  `ExecutionLog.TwoStartsForget`), so the log theorems are about emitted events.
- An execution moved to another tenant is not updated by the store (`RuntimeDatabase.WriteThenLoad`,
  `RuntimeDatabase.MovedExecutionIsStale`), and suspensions and failures are not stored (`SnapshotCodec.SnapshotRoundTrip`).
- A lost race leaves the transaction block normally and commits what was done so far; it is clean exactly when nothing is
  deleted and every inserted key is taken (`RowDiff.LostRaceIsClean`, `RowDiff.LostRaceInEveryOrder`).
- A hard stop between an inbox row and its claims loses the claims for good and the event is published all the same; no
  other stop does (`LostClaims.StopDecides`, `LostClaims.HarmfulStopIsForGood`), and a single relay reaches it
  (`LostClaims.StoppedRelayPublishesUnclaimed`). Without such stops published means claimed exactly when there is at most
  one relay (`LostClaims.OneRelayAtMost`, `LostClaims.TwoRelaysPublishUnclaimed`).
- Reading a cursor declares one refusal, but a timestamp without an offset, one without a UTC form, an identifier that is
  neither text nor null, and nesting beyond the interpreter's limit escape as other exceptions. Exactly when is
  `Cursor.Escapes`, over a JSON reader that reads the whole grammar (`JsonReader.LoadsExactly`). Cursors that do:
  `Cursor.SevenEscapes`, `Cursor.NewYearEscapes`, `Cursor.FirstHourEscapes`, `Cursor.OpeningsEscape`. Two that look alike
  and are refused: an identifier `1.2.3` (`Cursor.DottedIdRefused`), an integer with too many digits
  (`Cursor.NumericIdEscapes`).
- A `}` at the end of an expression body is cut off by the scanner (`ExpressionScanner.RecoveredExactly`,
  `ExpressionScanner.BraceIsLost`).

`dafny verify dfyconfig.toml` checks the whole project.

## Model

| member | source | states |
|---|---|---|
| `PlanGraph.ValidateDag` | services/src/engrammesh/modules/runtime/domain/model.py:272-304 | the check answers ok if and only if node ids are distinct, every edge joins two different known nodes and no closed walk exists, otherwise the first failing condition; an accepted plan has a topological order of exactly its nodes; it terminates |
| `PlanGraph.RefusalIs` | services/src/engrammesh/modules/runtime/domain/model.py:272-304 | why a plan is refused: a node id that occurs twice; else its first edge that is not between two different nodes of it, as a self edge or a dangling one; else a walk along its edges back to its start; it is accepted when there is none of these |
| `PlanGraph.AcceptanceIsOrderFree` | services/src/engrammesh/modules/runtime/domain/model.py:272-304 | acceptance depends only on the sets of nodes and edges: not on their order nor on repeated edges |
| `PlanGraph.BuildTables` | services/src/engrammesh/modules/runtime/domain/model.py:279-291 | the tables built edge by edge are the successor lists and indegrees of the edge list, or the first offending edge is reported |
| `PlanGraph.ReleaseSuccessors` | services/src/engrammesh/modules/runtime/domain/model.py:298-301 | releasing one popped node leaves every indegree equal to the edges still to come from nodes not popped, and the worklist equal to the ready ones |
| `PlanGraph.PopAll` | services/src/engrammesh/modules/runtime/domain/model.py:293-302 | whatever the pop order, the popped nodes are distinct and in topological order, every node left waits for another node left, and `visited` counts them |
| `PlanGraph.PoppedAllOrStuck` | services/src/engrammesh/modules/runtime/domain/model.py:302-304 | comparing the count with the number of nodes decides: equal means acyclic, fewer means a closed walk |
| `PlanGraph.TopologicalMeansAcyclic` | services/src/engrammesh/modules/runtime/domain/model.py:292-304 | an order in which every edge climbs leaves no closed walk |
| `PlanGraph.StuckMeansCyclic` | services/src/engrammesh/modules/runtime/domain/model.py:302-304 | a non-empty set in which every node has a predecessor contains a closed walk |
| `EffectId.EffectTextDecides` | services/src/engrammesh/modules/runtime/domain/model.py:551-596 | the text hashed into an effect id is equal for two inputs if and only if ids and operation are equal and the payloads are equal up to mapping order and list or tuple form |
| `EffectMeaning.EffectTextSays` | services/src/engrammesh/modules/runtime/domain/model.py:574-596 | read back, that text is an object of exactly the members `execution_id`, `logical_operation`, `node_id` and `payload`: the text of the execution, the operation, the text of the node and a document that denotes the payload |
| `EffectMeaning.JsonDenotes` | services/src/engrammesh/modules/runtime/domain/model.py:551-571 | the document of an accepted value says the value: null, booleans, integers in decimal, floats by their text, strings, lists and tuples item by item, mappings by exactly their names and values with the names in code-point order |
| `EffectMeaning.EffectRefusals` | services/src/engrammesh/modules/runtime/domain/model.py:551-581 | a blank operation is refused first, otherwise the first complaint in the order the parts of the payload stand in: a name that is no string before its value, a number that is not finite, an unsupported type; nothing else is refused |
| `Formats.SpacesAre` | services/src/engrammesh/modules/runtime/domain/model.py:32-35 | which characters make a text blank |
| `EffectMeaning.FirstComplaint` | services/src/engrammesh/modules/runtime/domain/model.py:38-58 | freezing and canonicalising report the first complaint, and fail exactly when there is one |
| `EffectId.FreezingFirstIsInvisible` | services/src/engrammesh/modules/runtime/domain/model.py:38-58 | freezing a payload before deriving its effect id changes neither the text nor the refusal |
| `EffectId.SameJson` | services/src/engrammesh/modules/runtime/domain/model.py:551-571 | two canonical values have one sorted JSON form exactly when they are equal up to member order and list form |
| `EffectId.SameRefusal` | services/src/engrammesh/modules/runtime/domain/model.py:38-58 | freezing and canonicalising refuse the same values, for the same first reason |
| `EffectId.RebuildKeeps` | services/src/engrammesh/modules/runtime/domain/model.py:551-571 | rebuilding a value with tuples or lists keeps its JSON form and what makes it acceptable |
| `JsonText.DocumentRoundTrip` | services/src/engrammesh/modules/runtime/domain/model.py:588-596 | the reader gives back every well-formed value within its limits from its compact text |
| `JsonText.PrintInjective` | services/src/engrammesh/modules/runtime/domain/model.py:588-596 | the compact text determines the value it was printed from |
| `JsonText.EscapeRoundTrip` | services/src/engrammesh/modules/runtime/domain/model.py:588-596 | every string survives escaping, whatever characters it holds |
| `Formats.EscapeIs` | services/src/engrammesh/modules/runtime/domain/model.py:588-594 | escaping character by character: quote, backslash, five short escapes, other control characters by four hexadecimal digits, everything else as it is |
| `Formats.Follows` | services/src/engrammesh/modules/runtime/domain/model.py:588-594 | items and members follow each other after a comma and names precede values after a colon, without spaces |
| `Sorting.SortCanonical` | services/src/engrammesh/modules/runtime/domain/model.py:588-596 | sorting members by name is canonical: two member lists sort alike exactly when they hold the same members |
| `SnapshotCodec.ComponentRoundTrip` | services/src/engrammesh/modules/runtime/adapters/shared/snapshot_codec.py:182-221 | decoding what was encoded gives the value back exactly when every identifier class in it is a registered one, otherwise it fails |
| `SnapshotCodec.FingerprintRoundTrip` | services/src/engrammesh/modules/runtime/adapters/shared/snapshot_codec.py:214-221 | every spec's fingerprint survives storage unchanged |
| `SnapshotCodec.StoredVerdict` | services/src/engrammesh/modules/runtime/adapters/in_memory/orchestrator.py:199-204 | a stored fingerprint answers every comparison, timestamps by instant, as the one kept in memory does |
| `SnapshotCodec.FingerprintDecides` | services/src/engrammesh/modules/runtime/adapters/in_memory/orchestrator.py:35-62 | two fingerprints compare equal if and only if the specs ask for the same: equal scope, key, objective, agent, query and budgets, and the same instants, whatever offsets they are written with |
| `SnapshotCodec.AlikeTransitive` | services/src/engrammesh/modules/runtime/adapters/in_memory/orchestrator.py:199-204 | comparing equal is transitive, so requests that replay one execution replay each other |
| `SnapshotCodec.SnapshotRoundTrip` | services/src/engrammesh/modules/runtime/adapters/shared/snapshot_codec.py:116-179 | a stored snapshot loads as itself without its suspension and failure, so unchanged exactly when it has neither |
| `Formats.FingerprintStored` | services/src/engrammesh/modules/runtime/adapters/shared/snapshot_codec.py:182-216 | the stored fingerprint of a request, item by item, with the class of each identifier |
| `Formats.SnapshotStored` | services/src/engrammesh/modules/runtime/adapters/shared/snapshot_codec.py:116-138 | the stored snapshot, member by member |
| `Text.UuidRoundTrip` | services/src/engrammesh/modules/runtime/adapters/shared/snapshot_codec.py:59-71 | reading UUID text gives the identifier back |
| `Formats.UuidTextAt` | services/src/engrammesh/modules/runtime/adapters/shared/snapshot_codec.py:59-71 | the canonical text of an identifier: hyphens at places 8, 13, 18 and 23 and its 32 digits between them |
| `Formats.DigitAt` | services/src/engrammesh/modules/runtime/adapters/shared/snapshot_codec.py:59-71 | fixed-width digits are positional, the highest first, in lower case |
| `Text.IsoRoundTrip` | services/src/engrammesh/modules/runtime/adapters/shared/snapshot_codec.py:74-80 | reading the ISO text of an aware timestamp gives it back, offset included |
| `Formats.IsoTextIs` | services/src/engrammesh/modules/runtime/adapters/shared/snapshot_codec.py:74-80 | the ISO text of a timestamp, mark by mark, with a fraction only when there is one |
| `Formats.ZoneIs` | services/src/engrammesh/modules/runtime/adapters/shared/snapshot_codec.py:74-80 | the offset: its sign, hours and minutes, seconds only when there are any |
| `RowDiff.DiffCorrect` | services/src/engrammesh/modules/runtime/adapters/postgres/database.py:246-322 | deletes, inserts and updates computed from `before` and `after` turn the rows of `before` into those of `after` |
| `RowDiff.DiffOwnedCorrect` | services/src/engrammesh/modules/runtime/adapters/postgres/database.py:325-393 | for rows addressed by tenant the same holds exactly when no key changes its tenant |
| `RowDiff.LostRaceIsClean` | services/src/engrammesh/modules/runtime/adapters/postgres/database.py:266-295 | a conflict leaves the table alone in every iteration order exactly when nothing is to be deleted and every key to insert is taken |
| `RowDiff.OutcomesAreOrders` | services/src/engrammesh/modules/runtime/adapters/postgres/database.py:266-295 | a table is the outcome of a lost race if and only if some order of iterating the new keys leaves it: free keys inserted up to the first taken one |
| `RowDiff.LostRaceInEveryOrder` | services/src/engrammesh/modules/runtime/adapters/postgres/database.py:266-295 | so under exactly that condition every order in which the loop loses the race leaves the table alone |
| `RowDiff.DeleteRows` | services/src/engrammesh/modules/runtime/adapters/postgres/database.py:251-264 | deleting the dropped keys in any order leaves the table without exactly those rows |
| `RowDiff.InsertRows` | services/src/engrammesh/modules/runtime/adapters/postgres/database.py:266-295 | inserting the new keys in any order adds exactly them, or stops at a key that is already there |
| `RowDiff.UpdateRows` | services/src/engrammesh/modules/runtime/adapters/postgres/database.py:297-322 | updating the changed keys in any order rewrites exactly the rows that exist |
| `RowDiff.DeleteOwned` | services/src/engrammesh/modules/runtime/adapters/postgres/database.py:334-343 | snapshot rows of dropped executions are gone, addressed by the tenant they had |
| `RowDiff.InsertOwned` | services/src/engrammesh/modules/runtime/adapters/postgres/database.py:345-369 | a plain insert violates uniqueness exactly when one of the new addresses is taken, otherwise adds exactly the new rows |
| `RowDiff.UpdateOwned` | services/src/engrammesh/modules/runtime/adapters/postgres/database.py:371-393 | updates address rows by their new tenant and rewrite exactly those they find |
| `RuntimeDatabase.WriteThenLoad` | services/src/engrammesh/modules/runtime/adapters/postgres/database.py:165-214 | with no other writer, loading after a write gives the written state exactly when no execution moved to another tenant and no snapshot carries a suspension or failure |
| `RuntimeDatabase.MovedTenantIsStale` | services/src/engrammesh/modules/runtime/adapters/postgres/database.py:371-393 | what is loaded after an execution moved to another tenant is not what was written |
| `RuntimeDatabase.MovedExecutionIsStale` | services/src/engrammesh/modules/runtime/adapters/postgres/database.py:371-393 | one execution moved from tenant 1 to tenant 2: the row of tenant 1 is what is loaded |
| `RuntimeDatabase.StartWrites` | services/src/engrammesh/modules/runtime/adapters/postgres/database.py:266-295 | a start's write adds its three rows, or loses the race and changes no table, even if rivals committed between its reads |
| `RuntimeDatabase.NothingToWrite` | services/src/engrammesh/modules/runtime/adapters/postgres/database.py:206-214 | a replay writes nothing |
| `RuntimeDatabase.Database.LoadBindings` | services/src/engrammesh/modules/runtime/adapters/postgres/database.py:183-190 | the loaded index and fingerprints are those of the rows, read in any order |
| `RuntimeDatabase.Database.LoadSnapshots` | services/src/engrammesh/modules/runtime/adapters/postgres/database.py:192-203 | the loaded snapshots are those of the rows, as they are stored |
| `RuntimeDatabase.Database.PersistState` | services/src/engrammesh/modules/runtime/adapters/postgres/database.py:206-214 | bindings, snapshots and events are written in turn; a lost race stops it, a unique violation undoes it |
| `RuntimeDatabase.Database.PersistIdempotency` | services/src/engrammesh/modules/runtime/adapters/postgres/database.py:246-322 | the binding table becomes the difference applied to it, unless an insert meets a row |
| `RuntimeDatabase.Database.PersistSnapshots` | services/src/engrammesh/modules/runtime/adapters/postgres/database.py:325-393 | the snapshot table becomes the difference applied to it, unless an insert violates uniqueness |
| `RuntimeDatabase.Database.PersistOutbox` | services/src/engrammesh/modules/runtime/adapters/postgres/database.py:217-243 | buffered events are appended in order |
| `RuntimeDatabase.Database.Attempt` | services/src/engrammesh/modules/runtime/adapters/postgres/database.py:136-150 | one attempt between commits of rivals is settled as its read and write decide |
| `RuntimeDatabase.Database.Write` | services/src/engrammesh/modules/runtime/adapters/postgres/database.py:127-152 | against rivals that never delete its key a start ends within two attempts, changes nothing when it loses, and otherwise adds exactly its rows; the retry limit is reported after a fifth lost race only |
| `RuntimeDatabase.AttemptOfStart` | services/src/engrammesh/modules/runtime/adapters/postgres/database.py:136-150 | an attempt that saw the key replays, one that missed a key bound since loses cleanly, one whose key is free inserts |
| `Orchestrator.CancelTransitions` | services/src/engrammesh/modules/runtime/adapters/in_memory/orchestrator.py:92-142 | a cancellation is accepted exactly for failed, cancelled and cancelling executions and those whose status may become cancelling |
| `Orchestrator.CancelIsChain` | services/src/engrammesh/modules/runtime/adapters/in_memory/orchestrator.py:92-142 | the transitions are legal moves of that execution, one revision at a time, ending cancelled |
| `Orchestrator.ApplyChain` | services/src/engrammesh/modules/runtime/adapters/in_memory/orchestrator.py:171-188 | applying them commits the last snapshot and publishes one event per move, each naming the status it leaves |
| `Orchestrator.CancelCommits` | services/src/engrammesh/modules/runtime/adapters/in_memory/orchestrator.py:264-284 | what a cancellation that commits does to state and events |
| `Orchestrator.CancelDecides` | services/src/engrammesh/modules/runtime/adapters/in_memory/orchestrator.py:92-142 | every cancellation, by what it finds: not found exactly when nothing is stored in the scope; an invalid transition, changing nothing, exactly for succeeded and compensating; failed and cancelled answered as stored; cancelling cancelled one revision later with one event; any other status cancelled two revisions later with the events cancelling and cancelled, all fields given |
| `Orchestrator.StartDecides` | services/src/engrammesh/modules/runtime/adapters/in_memory/orchestrator.py:190-236 | every start: under a free key a pending snapshot at revision 1 and its binding, fingerprint and one event, all fields given; under a bound key nothing, and a conflict exactly when the fingerprint kept does not compare equal |
| `RuntimeModel.EnteredFrom` | services/src/engrammesh/modules/runtime/domain/state.py:8-67 | from which statuses each status is entered |
| `ExecutionLog.EveryRunIsConsistent` | services/src/engrammesh/modules/runtime/adapters/in_memory/orchestrator.py:190-289 | after any sequence of starts and cancellations every execution's events open with none to pending at revision 1, move legally one revision at a time, and replay to its stored status and revision |
| `ExecutionLog.ReplayIsChain` | services/src/engrammesh/modules/runtime/domain/state.py:8-67 | a log replays exactly when it is such a gap-free legal chain |
| `ExecutionLog.MovesReplay` | services/src/engrammesh/modules/runtime/adapters/in_memory/orchestrator.py:171-188 | appending the events of a chain of legal moves keeps a log replayable |
| `ExecutionLog.OutboxForgets` | services/src/engrammesh/modules/runtime/adapters/in_memory/orchestrator.py:226-236 | the outbox a start commits still begins with what it held before exactly when the start was refused, replayed, or had nothing to lose |
| `ExecutionLog.SecondStartForgets` | services/src/engrammesh/modules/runtime/adapters/in_memory/orchestrator.py:226-236 | after two starts under different keys from the empty database both events were emitted and the outbox holds the second alone |
| `ExecutionLog.TwoStartsForget` | services/src/engrammesh/modules/runtime/adapters/in_memory/orchestrator.py:226-236 | a concrete pair of such starts |
| `ExecutionLog.StartFinds` | services/src/engrammesh/modules/runtime/adapters/in_memory/orchestrator.py:238-244 | a start that is not refused reads its execution back in its own scope |
| `ExecutionLog.InMemoryOrchestrator.Start` | services/src/engrammesh/modules/runtime/adapters/in_memory/orchestrator.py:190-244 | the state and emitted events after a start, and its answer, are those of the start step, given field by field |
| `ExecutionLog.InMemoryOrchestrator.Cancel` | services/src/engrammesh/modules/runtime/adapters/in_memory/orchestrator.py:255-289 | the same for a cancellation: answer, stored snapshots and new events by the status it finds, with no function of the transitions named |
| `ExecutionLog.Emit` | services/src/engrammesh/modules/runtime/adapters/in_memory/orchestrator.py:171-188 | emitting transition by transition is applying the chain |
| `StartRace.NeverRebound` | services/src/engrammesh/modules/runtime/adapters/postgres/database.py:266-295 | over any number of racing processes a bound key keeps its execution and fingerprint for the rest of the run |
| `StartRace.OneToOne` | services/src/engrammesh/modules/runtime/adapters/postgres/database.py:127-152 | bindings, snapshot rows and initial events match one to one at every point of every run |
| `StartRace.Answers` | services/src/engrammesh/modules/runtime/application/start_execution.py:36-62 | no call reaches the retry limit or misses its read-back; it answers with the bound execution and says created exactly when it won its key; a finished call is answered rather than refused exactly when it asks for what the winner of its key asked for |
| `StartRace.ReadBackFinds` | services/src/engrammesh/modules/runtime/adapters/in_memory/orchestrator.py:238-244 | a request that was not refused finds the bound snapshot in its scope |
| `StartRace.AttemptIsWrite` | services/src/engrammesh/modules/runtime/adapters/postgres/database.py:136-150 | every attempt of the database class, whatever it loaded when, is a write step of the race |
| `StartRace.CancelIsStep` | services/src/engrammesh/modules/runtime/adapters/in_memory/orchestrator.py:255-289 | every committed cancellation rewrites one row within its scope and appends follow-up events, or does nothing |
| `Projection.HighestWins` | services/src/engrammesh/modules/runtime/adapters/in_memory/snapshot_writer.py:20-25 | the projection holds for each execution a delivered snapshot of the highest delivered revision |
| `Projection.Confluence` | services/src/engrammesh/modules/runtime/adapters/postgres/snapshot_writer.py:44-75 | every reordering and duplication gives one result exactly when highest revisions carry equal snapshots |
| `Projection.EqualRevisionsSuffice` | services/src/engrammesh/modules/runtime/adapters/postgres/snapshot_writer.py:44-75 | equal revisions carrying equal snapshots is enough |
| `Projection.WritersAgree` | services/src/engrammesh/modules/runtime/adapters/postgres/snapshot_writer.py:44-75 | while every execution stays in one tenant the table and the dictionary hold the same snapshots |
| `Projection.HistoryRises` | services/src/engrammesh/modules/runtime/adapters/in_memory/snapshot_writer.py:20-25 | an execution's upsert history strictly rises and ends with what is stored |
| `Projection.InMemorySnapshotWriter.Upsert` | services/src/engrammesh/modules/runtime/adapters/in_memory/snapshot_writer.py:20-25 | the dictionary and history after an upsert are those of the upserts so far |
| `Projection.PostgresSnapshotWriter.Upsert` | services/src/engrammesh/modules/runtime/adapters/postgres/snapshot_writer.py:44-75 | the guarded insert-or-update leaves the table of the upserts so far |
| `TemporalActivities.PlanIsChained` | services/src/engrammesh/modules/runtime/adapters/temporal/activities.py:67-129 | an attempt only plans legal moves, one revision at a time; cancelling ends cancelled |
| `TemporalActivities.PlanDecides` | services/src/engrammesh/modules/runtime/adapters/temporal/activities.py:67-129 | the snapshots an attempt moves through, by activity and status, field by field: the new status, the next revision, the time passed in and everything else kept; a compensating execution is left as it is |
| `TemporalActivities.Worker.AdvanceStatus` | services/src/engrammesh/modules/runtime/adapters/temporal/activities.py:67-86 | an attempt that may stop after any effect performs a prefix of publish, upsert and answers only when complete |
| `TemporalActivities.Worker.CancelExecution` | services/src/engrammesh/modules/runtime/adapters/temporal/activities.py:89-129 | the same for both moves of a cancellation, with the event of each before its upsert |
| `TemporalWorkflow.EqualRevisionsAgree` | services/src/engrammesh/modules/runtime/adapters/temporal/activities.py:67-129 | in every run, attempts retried and overlapping, published events of equal revision differ in nothing but their event id |
| `TemporalWorkflow.PublishedIsLegalLog` | services/src/engrammesh/modules/runtime/adapters/temporal/activities.py:67-129 | deduplicated, the published events form a gap-free legal chain from revision 2 that continues the initial event |
| `TemporalWorkflow.CompletedRun` | services/src/engrammesh/modules/runtime/adapters/temporal/workflows.py:41-94 | a completed run ends succeeded or cancelled, with its last event published and the projection equal to its final snapshot |
| `TemporalWorkflow.AnnouncedFirst` | services/src/engrammesh/modules/runtime/adapters/temporal/activities.py:82-85 | at every point of a run, whatever the projection shows of the execution after its first move is announced by an event already published, field by field |
| `TemporalWorkflow.NeverRegresses` | services/src/engrammesh/modules/runtime/adapters/temporal/activities.py:84-85 | no step of a run takes any execution's projection back |
| `LifecycleRun.ExecutionLifecycleWorkflow.Run` | services/src/engrammesh/modules/runtime/adapters/temporal/workflows.py:41-79 | the stage loop with retried activities ends with a settled path: pending, planning, running and succeeded at the times of the three activities, or cancelling and cancelled at the time of the first that sees a signal; it completes exactly when each activity on the way has an attempt among its three that is not stopped |
| `LifecycleRun.ExecutionLifecycleWorkflow.Execute` | services/src/engrammesh/modules/runtime/adapters/temporal/workflows.py:56-79 | an activity completes with the end of the longer path, exactly when one of three attempts performs all its effects, and otherwise gives up leaving the world on it |
| `LifecycleRun.ExecutionLifecycleWorkflow.Stage` | services/src/engrammesh/modules/runtime/adapters/temporal/workflows.py:56-94 | a stage cancels when a signal was seen and advances otherwise, with the snapshots it adds to the path |
| `LifecycleRun.SettledRun` | services/src/engrammesh/modules/runtime/adapters/temporal/workflows.py:41-94 | a settled path gives readers of the outbox and the projection the log and snapshot of its end |
| `EpisodeStore.RecordAnswers` | services/src/engrammesh/modules/memory/application/record_episode.py:82-132 | on a consistent store recording fails only on a conflicting replay, answers with the one id of its tenant and key, and says created exactly when the pair was free |
| `EpisodeStore.RecordDecides` | services/src/engrammesh/modules/memory/application/record_episode.py:63-132 | recording, field by field: under a free tenant and key the episode and one event about it in its scope, at its ingestion time and without a cause; under a bound one nothing, and a conflict exactly when the request differs |
| `EpisodeStore.PublishDecides` | services/src/engrammesh/modules/memory/adapters/in_memory/unit_of_work.py:193-208 | publishing an event about a new episode is refused exactly when no episode has its id, or one of another tenant has; whatever is published is appended and nothing else changes |
| `EpisodeStore.RecordKeeps` | services/src/engrammesh/modules/memory/application/record_episode.py:82-132 | recording keeps ids distinct, index exact, lookups found and one recorded event per episode |
| `EpisodeStore.UnitOfWork.Enter` | services/src/engrammesh/modules/memory/adapters/in_memory/unit_of_work.py:230-241 | a transaction is entered once, under the lock, on a copy of the committed state |
| `EpisodeStore.UnitOfWork.AppendEpisode` | services/src/engrammesh/modules/memory/adapters/in_memory/unit_of_work.py:82-100 | the working copy after an append is the serial append of it; the committed state is untouched |
| `EpisodeStore.UnitOfWork.PublishEvent` | services/src/engrammesh/modules/memory/adapters/in_memory/unit_of_work.py:193-208 | an event is appended to the working copy when its episode is known and of its tenant |
| `EpisodeStore.UnitOfWork.Commit` | services/src/engrammesh/modules/memory/adapters/in_memory/unit_of_work.py:286-293 | the committed state becomes the working copy, once |
| `EpisodeStore.UnitOfWork.Exit` | services/src/engrammesh/modules/memory/adapters/in_memory/unit_of_work.py:243-256 | the lock is free again and only a committed copy survives |
| `EpisodeStore.RecordEpisode` | services/src/engrammesh/modules/memory/application/record_episode.py:82-132 | a call interrupted after any operation leaves the committed state of the serial recording or the one before |
| `EpisodeRecording.OnlyGrows` | services/src/engrammesh/modules/memory/adapters/in_memory/unit_of_work.py:243-293 | over any interleaving of recording calls and aborts, committed episodes and events are only appended to |
| `EpisodeRecording.AnswersAgree` | services/src/engrammesh/modules/memory/application/record_episode.py:82-132 | the committed state stays consistent; per tenant and key all successes answer one id and at most one says created |
| `EpisodeTransactions.FallbackUnreachable` | services/src/engrammesh/modules/memory/adapters/postgres/unit_of_work.py:148-263 | in every interleaving under the advisory lock no insert of an append meets a row, so the fallback is never entered |
| `EpisodeTransactions.Serializable` | services/src/engrammesh/modules/memory/adapters/postgres/unit_of_work.py:148-263 | the tables are what the serial in-memory store holds after the committed transactions in commit order, and all their answers are its answers |
| `EpisodeTransactions.AnswersAreSerial` | services/src/engrammesh/modules/memory/adapters/postgres/unit_of_work.py:148-263 | even before it commits a transaction has been answered as the serial store would, and conflicts are raised exactly when it would raise them |
| `EpisodeTransactions.OneToOne` | services/src/engrammesh/modules/memory/adapters/postgres/unit_of_work.py:211-263 | committed episode rows and idempotency rows are one to one and agree on id and request |
| `EpisodeTransactions.RowAgrees` | services/src/engrammesh/modules/memory/adapters/postgres/mappers.py:232-268 | comparing with the idempotency row gives the verdict of comparing with the episode |
| `EpisodeTransactions.NeverClashes` | services/src/engrammesh/modules/memory/adapters/postgres/unit_of_work.py:184-211 | while the lock is held and no idempotency row is seen, the insert cannot conflict |
| `EpisodeTransactions.HandlersKeepConsistent` | services/src/engrammesh/modules/memory/application/record_episode.py:82-132 | record-episode handlers over PostgreSQL commit only consistent states |
| `EpisodeTransactions.FallbackLeavesOrphan` | services/src/engrammesh/modules/memory/adapters/postgres/unit_of_work.py:221-262 | a replay answered in the fallback would leave an episode row without an idempotency row |
| `EpisodeUnitOfWork.PostgresUnitOfWork.Append` | services/src/engrammesh/modules/memory/adapters/postgres/unit_of_work.py:148-263 | statement by statement, whatever others commit in between, the append leaves rows, locks and answer as the statements of the transaction machine do |
| `EpisodeUnitOfWork.PostgresUnitOfWork.PublishEvent` | services/src/engrammesh/modules/memory/adapters/postgres/unit_of_work.py:540-583 | publishing checks the episode it is about and adds the row to the transaction |
| `EpisodeUnitOfWork.PostgresUnitOfWork.CommitWork` | services/src/engrammesh/modules/memory/adapters/postgres/unit_of_work.py:691-698 | commit makes the transaction's rows part of the tables |
| `EpisodeUnitOfWork.PostgresUnitOfWork.Exit` | services/src/engrammesh/modules/memory/adapters/postgres/unit_of_work.py:630-661 | exit rolls back what was not committed |
| `EpisodeAppends.AppendIsCall` | services/src/engrammesh/modules/memory/adapters/postgres/unit_of_work.py:148-263 | every append of a run, from its call to its end, ends as the append of the unit of work does among the commits at four moments since the call |
| `EpisodeAppends.CallIsSteps` | services/src/engrammesh/modules/memory/adapters/postgres/unit_of_work.py:148-263 | each statement of such an append is a step of the machine wherever it has not to wait for a row of another transaction |
| `ClaimExtraction.ProcessKeeps` | services/src/engrammesh/modules/memory/application/extract_claims_from_episode.py:106-141 | processing keeps one claim per tenant, episode and extractor version and one event per claim, and leaves a claim for every proposal |
| `ClaimFacts.ProcessStores` | services/src/engrammesh/modules/memory/application/extract_claims_from_episode.py:113-141 | processing that succeeds adds, in order, exactly the proposals without a rival among stored claims or earlier proposals, each with nothing but its id replaced, and one event for each: its kind, tenant, scope, episode, its recording time, the id of the claim and the delivered event as its cause |
| `ClaimFacts.ProposalsAreTheEpisodes` | services/src/engrammesh/modules/memory/application/extract_claims_from_episode.py:109-115 | those proposals are what the extractor makes of the one stored episode with the event's id, scope and tenant; without one processing raises |
| `ClaimFacts.ProcessDecides` | services/src/engrammesh/modules/memory/application/extract_claims_from_episode.py:106-141 | with fresh ids processing succeeds if and only if the event names one episode and, when extraction is enabled, that episode is stored in the scope and every new proposal is about it and its tenant |
| `ClaimExtraction.ProcessSucceeds` | services/src/engrammesh/modules/memory/application/extract_claims_from_episode.py:106-141 | with fresh ids and proposals about their own episode, processing an outbox event does not raise |
| `ClaimExtraction.ProposeFromAdds` | services/src/engrammesh/modules/memory/adapters/postgres/unit_of_work.py:342-387 | claims are added for proposals only |
| `ClaimExtraction.DeterministicIsFaithful` | services/src/engrammesh/modules/memory/adapters/deterministic/extractor.py:28-51 | the rule-based extractor proposes exactly one claim, about its own episode and scope |
| `ClaimExtraction.InboxDeduplicates` | services/src/engrammesh/modules/memory/adapters/postgres/inbox_store.py:25-76 | an event that was processed or skipped is in the inbox, and delivering it again changes nothing; one whose processing raised is not, and delivering it again does not skip it; no other row is touched |
| `ClaimExtraction.MemoryTables.ExtractClaims` | services/src/engrammesh/modules/memory/application/extract_claims_from_episode.py:106-141 | the loop over proposals commits all of processing or, when it raises, nothing |
| `ClaimExtraction.MemoryTables.HandleEvent` | services/src/engrammesh/modules/memory/application/process_inbox_event.py:32-54 | the inbox row is recorded, and taken back exactly when processing raises |
| `ClaimExtraction.MemoryTables.DeliverEvent` | services/src/engrammesh/bootstrap/infrastructure.py:96-98 | the inbox handles the event before the delegate; a delegate that raises leaves the inbox row and the claims |
| `ClaimFacts.DeliverDecides` | services/src/engrammesh/bootstrap/infrastructure.py:96-98 | tables and outcome of every delivery, by whether the event is in the inbox and where an exception is raised |
| `ClaimPipeline.EveryRunIsSound` | services/src/engrammesh/modules/memory/application/extract_claims_from_episode.py:106-141 | in every run of recording, many relays, redelivery, raising processors and delegates, and hard stops there is at most one claim per key, and claims and claim-proposed events are one to one |
| `ClaimFacts.EveryClaimIsSourced` | services/src/engrammesh/modules/memory/application/extract_claims_from_episode.py:113-141 | in every such run, with any extractor, every claim is a proposal about a recorded episode with only its id replaced, announced by an event whose cause is the recorded event of that episode |
| `ClaimFacts.EveryClaimIsTrue` | services/src/engrammesh/modules/memory/adapters/deterministic/extractor.py:28-51 | with the rule-based extractor every claim of every run has the scope of its episode, its content hash for a value, its observation time for the start of validity and its ingestion time for the recording |
| `ClaimPipeline.PublishedMeansClaimed` | services/src/engrammesh/modules/memory/application/relay_outbox.py:31-56 | with one relay and no hard stop in the window, an episode event marked published was delivered, is in the inbox, and its episode has its claims |
| `ClaimPipeline.StopStepKeeps` | services/src/engrammesh/modules/memory/application/process_inbox_event.py:32-54 | the invariant behind that survives a hard stop exactly when the stop is not between the inbox row and the claims |
| `ClaimPipeline.LostForGood` | services/src/engrammesh/modules/memory/application/process_inbox_event.py:33-35 | a claim lost by such a stop is never made up for, however often the event is redelivered |
| `ClaimPipeline.LostIsPublished` | services/src/engrammesh/modules/memory/application/relay_outbox.py:31-56 | from any state with a lost claim the next round marks the event published, and nothing is made up for |
| `ClaimPipeline.TwoRelaysLose` | services/src/engrammesh/modules/memory/application/relay_outbox.py:31-56 | while one relay processes an event and another has fetched it too, a raised exception loses the claims and the event is published |
| `LostClaims.OneRelayAtMost` | services/src/engrammesh/modules/memory/application/relay_outbox.py:31-56 | in all runs of n relays without hard stops in the window published means claimed, if and only if n is at most one |
| `LostClaims.TwoRelaysPublishUnclaimed` | services/src/engrammesh/modules/memory/application/relay_outbox.py:31-56 | from empty tables, for every episode the extractor has a proposal about, two relays come to publish its event without its claims |
| `LostClaims.StopDecides` | services/src/engrammesh/modules/memory/application/process_inbox_event.py:32-54 | after a hard stop of the one relay, anywhere in any run, published goes on to mean claimed if and only if the stop was not between an inbox row and its claims |
| `LostClaims.HarmfulStopIsForGood` | services/src/engrammesh/modules/memory/application/process_inbox_event.py:33-35 | after a stop there one claim of the event stays missing in every later state, redeliveries and further stops included |
| `LostClaims.WindowReached` | services/src/engrammesh/modules/memory/application/process_inbox_event.py:32-54 | from empty tables one relay comes to where a stop is harmful, for every such episode |
| `LostClaims.StoppedRelayPublishesUnclaimed` | services/src/engrammesh/modules/memory/application/relay_outbox.py:31-56 | from empty tables a single relay, stopped there once, publishes the event without its claims |
| `RelayRuns.DeliverIsSteps` | services/src/engrammesh/bootstrap/infrastructure.py:96-98 | delivering one event - inbox, processing, delegate - is a sequence of steps of one worker of the pipeline |
| `OutboxRelay.FetchesOldest` | services/src/engrammesh/modules/memory/adapters/postgres/outbox_relay.py:40-56 | a poll returns distinct unpublished events, oldest first, up to the limit, and everything it leaves comes later |
| `OutboxRelay.BeforeIs` | services/src/engrammesh/modules/memory/adapters/postgres/outbox_relay.py:40-56 | older means an earlier occurrence, or an equal one with the smaller id |
| `OutboxRelay.RelayOutboxEventsHandler.Relay` | services/src/engrammesh/modules/memory/application/relay_outbox.py:31-56 | a round delivers its batch in order, stops at the first exception without marking, and otherwise marks exactly the batch |
| `RelayRuns.RoundIsSteps` | services/src/engrammesh/modules/memory/application/relay_outbox.py:31-56 | a whole relay round is a run of the pipeline in which one resting worker polls, delivers and marks, and rests again |
| `OutboxRelay.MarkedIsNotPolled` | services/src/engrammesh/modules/memory/adapters/postgres/outbox_relay.py:40-78 | marking takes exactly the rows of the batch off those that wait, and no later poll returns any of them |
| `OutboxRelay.CalmRound` | services/src/engrammesh/modules/memory/application/relay_outbox.py:31-56 | without failures the counts balance: what remains is what waited, less what was published, plus one row per new claim; the weight drops by at least the batch |
| `OutboxRelay.RoundsDrain` | services/src/engrammesh/modules/memory/application/relay_outbox.py:31-56 | repeated rounds publish everything within as many rounds as the weight, although they append to the outbox |
| `OutboxRelay.DeterministicDrains` | services/src/engrammesh/modules/memory/adapters/deterministic/extractor.py:28-51 | for the rule-based extractor that weight is twice the unpublished episode events plus the others |
| `Cursor.RoundTrip` | services/src/engrammesh/modules/memory/domain/episode_cursor.py:21-39 | every cursor that is handed out decodes to the instant and id it was made from, with any library that reads the timestamps and identifiers it prints |
| `Cursor.Injective` | services/src/engrammesh/modules/runtime/domain/execution_cursor.py:21-27 | different positions have different cursors, free of padding characters |
| `Cursor.FieldOrder` | services/src/engrammesh/modules/memory/domain/claim_cursor.py:21-27 | sorting member names puts the id first in all three payloads |
| `Formats.EpisodeCursor` | services/src/engrammesh/modules/memory/domain/episode_cursor.py:21-27 | the text an episode cursor carries, character by character: `episode_id` and `ingested_at` |
| `Formats.ClaimCursor` | services/src/engrammesh/modules/memory/domain/claim_cursor.py:21-27 | the same for claims: `claim_id` and `recorded_from` |
| `Formats.ExecutionCursor` | services/src/engrammesh/modules/runtime/domain/execution_cursor.py:21-27 | the same for executions: `execution_id` and `updated_at` |
| `Formats.CursorIsUnpadded` | services/src/engrammesh/modules/memory/domain/episode_cursor.py:26-27 | a cursor is the base64 of that text without the padding characters |
| `Formats.Base64Is` | services/src/engrammesh/modules/memory/domain/episode_cursor.py:26-27 | each group of three bytes gives the letters of its four digits in base 64, in the URL-safe alphabet (sections 4 and 5 of RFC 4648) |
| `Formats.Base64Ends` | services/src/engrammesh/modules/memory/domain/episode_cursor.py:26-27 | one or two last bytes give two or three letters, unused bits zero, and padding |
| `Formats.Utf8Examples` | services/src/engrammesh/modules/memory/domain/episode_cursor.py:26-27 | a character of each length in UTF-8 (section 3 of RFC 3629) |
| `JsonReader.LoadsExactly` | services/src/engrammesh/modules/memory/domain/episode_cursor.py:34 | the reader reads a text as a value if and only if the text spells it in the grammar, within the limits: white space between tokens, short and unicode escapes, surrogates paired or not, `NaN` and infinities, numbers with no more digits than the limit |
| `Formats.ReaderMarks` | services/src/engrammesh/modules/memory/domain/episode_cursor.py:34 | the marks of that grammar: white space, the eight short escapes, and the six words |
| `Formats.SurrogatePairs` | services/src/engrammesh/modules/memory/domain/episode_cursor.py:34 | two units of UTF-16 for each code point beyond the first 65536, and for no other |
| `JsonNumbers.NumberGrammar` | services/src/engrammesh/modules/memory/domain/episode_cursor.py:34 | what the scanner takes whole for a number is what section 6 of RFC 8259 calls one |
| `JsonReader.DepthDecides` | services/src/engrammesh/modules/memory/domain/episode_cursor.py:34 | every text has a nesting below which reading it is a recursion error, and from which on the limit makes no difference |
| `Cursor.Escapes` | services/src/engrammesh/modules/memory/domain/episode_cursor.py:30-39 | whatever texts the library takes for timestamps and identifiers, each undeclared exception is raised if and only if the cursor carries a spelling of what causes it: an object whose timestamp reads beside an id that is not text, an id that reads beside a timestamp without offset or beside one whose instant has no UTC form, or a text that nests too deep; it is read or refused exactly when it carries none of them |
| `Cursor.NumericIdEscapes` | services/src/engrammesh/modules/memory/domain/episode_cursor.py:34-38 | an integer for the id, with or without spaces around it, raises when it has no more digits than the limit and is refused when it has more |
| `Cursor.OtherIdEscapes` | services/src/engrammesh/modules/memory/domain/episode_cursor.py:36 | every value but null and text for the id raises beside a timestamp that reads |
| `Cursor.DottedIdRefused` | services/src/engrammesh/modules/memory/domain/episode_cursor.py:34-38 | an id that begins `1.2.3` is no number and is refused, whatever follows |
| `Cursor.TimeDecides` | services/src/engrammesh/modules/memory/domain/episode_cursor.py:14-39 | beside an id that reads, the cursor is refused, raises or is read as the timestamp is unreadable, without offset, without UTC form, or none of these |
| `Cursor.NaiveTimeEscapes` | services/src/engrammesh/modules/memory/domain/episode_cursor.py:14-39 | every identifier beside a timestamp written without an offset raises |
| `Cursor.OutsideTimeEscapes` | services/src/engrammesh/modules/memory/domain/episode_cursor.py:14-39 | so does every identifier beside a timestamp whose instant has no UTC form |
| `Cursor.SevenEscapes` | services/src/engrammesh/modules/memory/domain/episode_cursor.py:34-36 | the id 7 raises, whether the object is written compactly or with spaces after its separators |
| `Cursor.NewYearEscapes` | services/src/engrammesh/modules/memory/domain/episode_cursor.py:14-39 | a new year without offset is such a timestamp |
| `Cursor.FirstHourEscapes` | services/src/engrammesh/modules/memory/domain/episode_cursor.py:14-39 | the first hour of year 1 at a positive offset has no UTC form |
| `Cursor.OpeningsEscape` | services/src/engrammesh/modules/memory/domain/episode_cursor.py:34 | one opening bracket more than may be open raises |
| `Cursor.StandardIsSensible` | services/src/engrammesh/modules/memory/domain/episode_cursor.py:35-36 | there is such a library: one that reads the extended timestamps and plain identifiers alone |
| `Encoding.StrippedRoundTrip` | services/src/engrammesh/modules/memory/domain/episode_cursor.py:21-33 | text survives UTF-8, URL-safe base64, stripping and restoring the padding (section 5 of RFC 4648) |
| `Encoding.Utf8RoundTrip` | services/src/engrammesh/modules/memory/domain/episode_cursor.py:26-34 | every string survives UTF-8 |
| `Calendar.AtUtc` | services/src/engrammesh/modules/memory/domain/episode_cursor.py:14-18 | the UTC form of an instant is a valid date that denotes that instant |
| `Calendar.InstantCounts` | services/src/engrammesh/modules/memory/domain/episode_cursor.py:14-18 | instants count microseconds from the first midnight of year 1 in UTC: 24 hours a day across months and leap years, the clock added, the offset taken off |
| `Calendar.MonthDays` | services/src/engrammesh/modules/memory/domain/episode_cursor.py:14-18 | the lengths of the months, and of February by the Gregorian rule |
| `Pagination.PageGives` | services/src/engrammesh/modules/memory/application/list_episodes.py:45-58 | a page holds the first rows past its cursor up to the limit, and names a next cursor, standing at its last row, exactly when rows are left |
| `Pagination.PageAnswers` | services/src/engrammesh/modules/memory/application/list_episodes.py:45-58 | a page is answered if and only if its cursor reads (`Cursor.Escapes` says how it fails) and its last row has a cursor when rows are left |
| `Pagination.OrderedSorts` | services/src/engrammesh/modules/memory/adapters/in_memory/unit_of_work.py:131-145 | a listing is the store's rows, strictly ordered by instant and id |
| `Pagination.NothingSkipped` | services/src/engrammesh/modules/memory/application/list_episodes.py:45-58 | while rows are added between pages no row is delivered twice, order holds across pages, and the rows of the first store are all delivered by the end |
| `Pagination.PagesAreTheListing` | services/src/engrammesh/modules/runtime/application/list_executions.py:43-61 | over a fixed store the pages concatenate to exactly the listing, in max(1, ceil(n / limit)) pages |
| `Pagination.PagesEnd` | services/src/engrammesh/modules/runtime/application/list_executions.py:43-61 | following cursors over a fixed store reaches a page without one |
| `Listings.EpisodePagesAreTheListing` | services/src/engrammesh/modules/memory/application/list_episodes.py:32-58 | the same for a committed memory state and a scope, oldest episode first |
| `Listings.EpisodesDeliveredOnce` | services/src/engrammesh/modules/memory/application/list_episodes.py:32-58 | pages listed during any run of recordings deliver no episode twice and every episode committed before the first page |
| `Listings.EpisodeListingHolds` | services/src/engrammesh/modules/memory/adapters/in_memory/unit_of_work.py:117-145 | the listing is exactly the episodes of the scope |
| `Listings.EpisodeRowsRead` | services/src/engrammesh/modules/memory/adapters/in_memory/unit_of_work.py:131-145 | read from the episodes themselves: exactly those of the scope, an earlier ingestion before a later one and the smaller id first between equal ones |
| `Listings.EpisodePageHolds` | services/src/engrammesh/modules/memory/application/list_episodes.py:45-58 | every page holds the oldest episodes of the scope past its cursor, at most the limit, each ingested before the next or as early with the smaller id; what is left out comes after all of them, a next cursor says that something is, and it names the time and id of the last |
| `Listings.ExecutionListingHolds` | services/src/engrammesh/modules/runtime/adapters/in_memory/database.py:82-119 | the listing is exactly the snapshots of the scope, latest first |
| `Listings.ExecutionRowsRead` | services/src/engrammesh/modules/runtime/adapters/in_memory/database.py:95-106 | read from the snapshots themselves: exactly those of the scope, a later update before an earlier one and the greater id first between equal instants |
| `Listings.StreamedRowsHold` | services/src/engrammesh/modules/runtime/adapters/in_memory/database.py:82-119 | the rows a store streams are stored snapshots of the scope, in that order |
| `Listings.ExecutionPageHolds` | services/src/engrammesh/modules/runtime/application/list_executions.py:33-71 | every page holds the latest updated executions of the scope before its cursor, at most the limit, with id, scope, revision, status and timestamp as stored, each updated after the next or as late with the greater id; what is left out comes after all of them, and the next cursor names the instant and id of the last |
| `Pagination.StreamCuts` | services/src/engrammesh/modules/runtime/adapters/in_memory/database.py:82-119 | a stream refuses a cursor without a limit, then a limit that is not positive, then an unreadable cursor, and otherwise is the stretch of the listing from its cursor up to its limit |
| `Listings.ExecutionPagesAreTheListing` | services/src/engrammesh/modules/runtime/application/list_executions.py:33-61 | when the timestamps in the scope have UTC forms there are pages from first to last, and they are that listing |
| `Listings.ExecutionIndex.StreamRows` | services/src/engrammesh/modules/runtime/adapters/in_memory/database.py:82-119 | collect, sort, filter by the cursor and cut: the stream of the listing, with its refusals in the order the code makes them |
| `Listings.ExecutionIndex.List` | services/src/engrammesh/modules/runtime/application/list_executions.py:33-71 | the answer is the page with each snapshot turned into its item, and shows the latest executions before its cursor as they are stored |
| `ExpressionScanner.ActionsExpressionBodies` | scripts/check-workflow-policy.rb:232-267 | the scanner terminates on every byte string with the bodies of its specification |
| `ExpressionScanner.ScanBody` | scripts/check-workflow-policy.rb:241-263 | the inner loop finds where the body closes, quotes and doubled quotes respected |
| `ExpressionScanner.EmbedRoundTrip` | scripts/check-workflow-policy.rb:232-267 | embedding any bodies with balanced quotes, no unquoted `}}` and no trailing `}` between opener-free texts and extracting gives exactly those bodies |
| `ExpressionScanner.BodiesEnclosable` | scripts/check-workflow-policy.rb:232-267 | every extracted body meets those conditions |
| `ExpressionScanner.RecoveredExactly` | scripts/check-workflow-policy.rb:232-267 | a single embedded body comes back if and only if it meets them |
| `ExpressionScanner.BraceIsLost` | scripts/check-workflow-policy.rb:232-267 | the body `}` is one that does not: the scanner extracts an empty body |
| `TokenAccess.StaticBracketProperty` | scripts/check-workflow-policy.rb:311-339 | the bracket scanner terminates with the answer of its specification |
| `TokenAccess.BracketRecovers` | scripts/check-workflow-policy.rb:311-339 | any name single-quoted with its quotes doubled, or double-quoted without double quotes, comes back in lower case with spaces skipped |
| `TokenAccess.StaticIsBracketText` | scripts/check-workflow-policy.rb:311-339 | nothing else is static |
| `TokenAccess.SkipSingleQuotedString` | scripts/check-workflow-policy.rb:297-309 | skipping ends after the first quote that is not half of a doubled one, or at the end when there is none |
| `TokenAccess.QuotedEndIs` | scripts/check-workflow-policy.rb:297-309 | there is exactly one such end, and the skip specification is it: between the quotes stands some text with its quotes doubled |
| `TokenAccess.ReadIdentifier` | scripts/check-workflow-policy.rb:289-295 | the longest identifier is read, in lower case |
| `TokenAccess.AccessAfter` | scripts/check-workflow-policy.rb:365-384 | the access after a context is judged as its specification says |
| `TokenAccess.StaticAccessRead` | scripts/check-workflow-policy.rb:365-384 | a dotted or bracketed static access is refused exactly when it names the token property, and skipped in full otherwise |
| `TokenAccess.PassedIsStatic` | scripts/check-workflow-policy.rb:365-384 | only static accesses to other properties are passed |
| `TokenAccess.TokenAccessInExpression` | scripts/check-workflow-policy.rb:345-387 | the detector terminates with the verdict of its specification |
| `TokenLexemes.RefusedIsLexical` | scripts/check-workflow-policy.rb:341-387 | an expression is refused if and only if a sequence of lexemes - strings, identifiers, contexts with a static access to another property, other bytes - leads up to a github or secrets context that no static access to another property follows |
| `TokenLexemes.StepIsLexeme` | scripts/check-workflow-policy.rb:341-387 | the scan goes from one position to another in one step exactly when a lexeme stands between them |
| `TokenLexemes.RefusedByParity` | scripts/check-workflow-policy.rb:341-387 | without double quotes it is refused if and only if such a context stands anywhere after an even number of single quotes and not inside an identifier |
| `TokenNames.RefusedByName` | scripts/check-workflow-policy.rb:227-230 | both hold with the names spelled out: the contexts are `github` and `secrets` in any case, and the only accesses that do not pass are `token` of the one and `github_token` of the other |
| `TokenNames.IdentifierDecides` | scripts/check-workflow-policy.rb:345-387 | what the scan does at a whole identifier: it goes on after a property and after any name but those two; after one of them it refuses its token and whatever is no static access, and goes on behind every other static access |
| `TokenNames.PropertyNames` | scripts/check-workflow-policy.rb:227-230 | an identifier has a token property exactly when it spells one of the two contexts |
| `TokenNames.Characters` | scripts/check-workflow-policy.rb:269-287 | spaces, identifiers and marks as characters |
| `TokenNames.OneAccessDecides` | scripts/check-workflow-policy.rb:341-387 | an expression that is one static access of one context, however it is spelled, cased and spaced, is refused exactly when it names that context's token |
| `TokenNames.SecretsTokenFound` | scripts/check-workflow-policy.rb:389-395 | `${{ secrets.GITHUB_TOKEN }}` is flagged |
| `TokenNames.GithubTokenFound` | scripts/check-workflow-policy.rb:389-395 | `${{ github.token }}` is flagged |
| `TokenNames.BracketedTokenFound` | scripts/check-workflow-policy.rb:389-395 | `${{ secrets['github_token'] }}` is flagged |
| `TokenNames.OtherSecretPasses` | scripts/check-workflow-policy.rb:389-395 | `${{ secrets.NPM_TOKEN }}` is not flagged |
| `TokenNames.OtherPropertyPasses` | scripts/check-workflow-policy.rb:389-395 | `${{ github['sha'] }}` is not flagged |
| `TokenAccess.GithubTokenReference` | scripts/check-workflow-policy.rb:389-395 | a value is flagged exactly when one of its bodies is refused |
| `TokenAccess.EmbeddedReference` | scripts/check-workflow-policy.rb:389-395 | for embedded expressions that is exactly when one of them is refused |

## Left out

- StartRace.Answers: calls of `start` only delete no keys; cancellations from other processes appear as steps that rewrite
  one row within its scope, and what concurrent cancellations do to each other's updates is not claimed.
- RuntimeDatabase.Database.Write: the two-attempt bound is for a start with a fresh id against rivals that keep existing
  bindings and do not use its id; for other callbacks only the limit of five attempts is stated.
- RowDiff.DiffCorrect: values are compared structurally; where the source takes snapshots that differ only in the offset of
  an equal timestamp for unchanged it skips the update, and the row keeps the other spelling of that instant.
- RuntimeDatabase.WriteThenLoad: the `created_at` column and columns that repeat the snapshot are not modelled.
- LifecycleRun.ExecutionLifecycleWorkflow.Run: the start of a workflow and the port that starts, signals and polls it are
  not modelled; at most one workflow per key does not hold there and is not claimed.
- Projection.WritersAgree: an execution that changes its tenant has two rows in the table and one entry in the dictionary.
- ClaimPipeline.PublishedMeansClaimed: the extraction transaction is one step; a stop inside it is a stop before or after it.
- ClaimPipeline.EveryRunIsSound: claims carry the fields that vary; evidence is reduced to the episode and the extractor
  version, and extraction that supersedes claims does not exist in the source.
- EpisodeTransactions.Serializable: transactions append episodes and publish events that are not about claims; publishing
  claim events is part of `ClaimExtraction`. Deadlocks between transactions of several appends abort one of them, which is a
  roll-back step. Advisory locks are taken on an arbitrary hash of tenant and key, so unrelated keys may share a lock.
- EpisodeUnitOfWork.PostgresUnitOfWork.Append: other transactions' commits between its statements are a parameter; waiting
  for a lock or a row is part of `EpisodeTransactions` only.
- TokenLexemes.RefusedByParity: expressions with double quotes are left to `TokenLexemes.RefusedIsLexical`, since a passed
  access may hide anything between double quotes.
- EpisodeStore.RecordEpisode: authorization, the artifact check and the clock come before the transaction and are not
  modelled; the check that a created result carries the new id cannot fail.
- OutboxRelay.CalmRound: rows are polled, delivered and marked by one relay with no writer in between.
- Listings.EpisodesDeliveredOnce: stated over runs of the in-memory store; the PostgreSQL query filters and sorts the same
  rows by the same columns.
- Listings.ExecutionListingHolds: the dictionary of snapshots is its keys in insertion order and a map.
- Pagination.NothingSkipped: for executions only a fixed store is claimed, since their timestamps move.
- JsonReader.LoadsExactly: a number is kept as its text, and a repeated member name as often as it occurs; readers of a
  member take the last. Running out of memory is not modelled.
- Text.UuidRoundTrip: in stored snapshots and fingerprints, UUID text with `urn:` or `uuid:` prefixes, braces, or digits in
  other spellings is not read.
- Text.IsoRoundTrip: there only the extended date-time form with seconds is read; cursors are read with any library.
- Formats.SnapshotStored: member names of stored objects are constructors of `SnapshotCodec.Field`, which stand for their
  spellings.
- SnapshotCodec.SnapshotRoundTrip: when two spellings of one node id occur in stored JSON the source keeps the later one
  and the model some one of them.
- EffectId.EffectTextDecides: about the text before hashing; nothing is claimed about collisions of the digest. Strings hold
  no unpaired surrogates, and integers are unbounded, where the source's printer refuses one of more than 4300 digits.
- TokenLexemes.RefusedIsLexical: the walk over workflow documents that calls the detector is a traversal and is left out.
- FastAPI routes, HTTP schemas, settings, authentication, connection pools, migrations and the Temporal SDK.
- The runtime outbox relay and the claims listing repeat the memory relay and the other listings; `Pagination` and `Cursor`
  cover the latter's paging and cursor.
- Round trips of event, episode and claim rows through columns: field by field.
- Community-file checks, enum and blank-string checks, authorization gates, and the stores that are unavailable.
