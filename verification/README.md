# Verified models of babar

babar is a PostgreSQL driver. This project models the parts of it whose behaviour is hard to see from
one function: step machines that interleave, loops over byte buffers, and compositions that must
invert each other. It holds, for each part, a model in the form of the source and proofs about all
inputs, all runs or all reachable states.

Conventions:

- An object that the source mutates is a class; its methods are proved against functions on values,
  and the lemmas are about those functions.
- Concurrency is an interleaving of steps. A step is one section under a lock, one SQL statement, one
  command on the wire or one event of a select loop. Clocks, sockets, the server's choices and the
  consumer's behaviour are inputs.
- Text that the source handles as bytes is a sequence of bytes; UTF-8 validity is defined, not assumed.

## The parts

**Driver** (`DriverProtocol.dfy`, `Driver.dfy`, `DriverHistory.dfy`, `DriverInvariant.dfy`,
`DriverRuns.dfy`, `DriverTask.dfy`, `DriverEffects.dfy`, `DriverReplies.dfy`). The run loop with its single pending slot, inbox, write buffer and
accumulators. The methods of the driver do to a snapshot of its state exactly what functions say, and
`Run` does what `RunOf` says of the events; what holds of every run is proved of `RunOf`. The
specification of a command's outcome is a declarative reading of the backend messages between two
`ReadyForQuery`. The history of a run is that of its events. Every run answers commands in the order in
which they entered, and a run that has ended has answered each of them exactly once. The wire holds the
messages of commands that entered, in order and whole, each with its COPY answers, and at most one
Terminate. If every message that came was to be expected, each command written is answered, in its
place, with the specification's outcome for its own segment of the stream, and the Query and Sync
messages on the wire are one more than the ReadyForQuery received exactly while a command is in flight.
`DriverEffects` has a server that reads the wire, with named statements and portals: in every run it has
done what each command written is for, in order, and nothing else. `DriverReplies` says who is told what:
success belongs to a command whose segment is complete or to a Close that was sent, and the end of a run
tells the command in flight its error and everyone queued that the connection is closed.

**Migrations** (`MigrationCatalog.dfy`, `MigrationRunner.dfy`, `MigrationSafety.dfy`,
`MigrationProgress.dfy`). Catalog
building, prefix reconciliation and planning; the runner's statement sequence; and any number of
runners interleaved statement by statement under one advisory lock, with failing statements and
crashes. The structured runner produces exactly the statements of the interleaved automaton, because
its connection accepts a statement only in the automaton's phase for it; it succeeds if and only if the
rows loaded match and no reply that matters is a failure, and has then sent exactly the plan. Among any
other sessions, one that has the lock on a matching history and whose statements do not fail is never
blocked and reaches its goal, with a number of statements known beforehand.

**Pool** (`Pool.dfy`, `PoolSessions.dfy`). Slots and sessions of the connection pool, section by section.
In every run a checked-out session was connected by its task or had just passed its check, and a session
that was given up is never seen again. A slot leaks
exactly when a task is dropped while holding one, and is then lost for good.

**Transactions** (`Transactions.dfy`). Trees of scopes against a server with a savepoint stack. A body
may catch the error of its own failed statement and return success: the server then turns COMMIT into
a rollback and `transaction` returns `Ok` with nothing committed. `SwallowedFailure` is such a body, and
`SuccessIsCommittable` says exactly when success means committed, by the flags of the tree.

**Statement cache** (`StatementCache.dfy`, `StatementLife.dfy`, `StatementResults.dfy`,
`StatementKeys.dfy`, `DoubleMiss.dfy`). Prepares, handles and closes, the command inbox and the
server's set of statements. When two prepares of one key both miss the cache and both insert, the second
insert overwrites the count of the first; `DoubleMissLeaks` is that run. The counts are right after
every step exactly when no insert meets an entry that counts handles (`CountsAreRight`), for which it
is enough that no two prepares of one key are past their miss at once (`DisciplineSuffices`). Each
statement name has one place at a time: with retention in every run, without it in those runs.

**Row streams** (`RowStream.dfy`). Set-up, portal fetches, the bounded channel and the clean-up.

**SQL compiler** (`Decimals.dfy`, `SqlTokens.dfy`, `SqlCompiler.dfy`, `QueryFragment.dfy`). The
flattening of nested templates and of `bind`/`plus` trees. It preserves meaning exactly when no
placeholder and no `$` is directly followed by a digit of the text in the expansion;
`SwallowedDigit` is a template that compiles and falls outside.

**Backend framing** (`WireFormat.dfy`, `BackendMessages.dfy`, `Framing.dfy`). Decoding any stream in
any chunks, and the inverse of an encoder for every message.

**EWKB** (`EwkbFormat.dfy`, `EwkbRoundTrip.dfy`, `Ewkb.dfy`). Writers, mutually recursive readers, and
the exact condition of the round trip: `Polygon::new` closes rings, and the reader takes an SRID as
signed although the writer takes it as unsigned.

**SCRAM** (`Scram.dfy`, `ScramServer.dfy`). The client of RFC 5802 and RFC 7677 over uninterpreted
primitives, and a server that takes the client's messages apart and computes its own AuthMessage from them.

**Tuples, nullable and COPY** (`TupleCodec.dfy`, `BinaryCopy.dfy`). Codec composition and the binary
COPY stream. A present value all of whose slots are NULL decodes as absent, so the round trip holds
exactly for values without one.

**hstore** (`Hstore.dfy`, `HstoreRoundTrip.dfy`). Printer and parser of the text form.

## Model

| member | source | states |
|---|---|---|
| `DriverProtocol.OneBoundaryPerCommand` | crates/core/src/session/driver.rs:466-729 | every command but Close sends exactly one Query or Sync, Close none |
| `DriverProtocol.SegmentsPartitionStream` | crates/core/src/session/driver.rs:736-1132 | cutting the message stream at every ReadyForQuery loses nothing |
| `DriverProtocol.SegmentsHoldNoReady` | crates/core/src/session/driver.rs:736-1132 | a segment holds no ReadyForQuery inside, and ends with one |
| `Driver.NothingGathered` | crates/core/src/session/driver.rs:466-729 | a command just written has gathered what the specification says of no messages |
| `Driver.AbsorbGathers` | crates/core/src/session/driver.rs:736-1132 | absorbing one message keeps the accumulators equal to the specification's reading of all messages so far |
| `Driver.ConcludeGathers` | crates/core/src/session/driver.rs:736-1132 | the reply made at ReadyForQuery is the specification's outcome for the segment |
| `DriverHistory.CopyResponseGathers` | crates/core/src/session/driver.rs:736-1132 | the answer to CopyInResponse leaves the accumulators as specified, with the fault of a wrong format or of a chunk that cannot be encoded |
| `DriverHistory.CopyResponseAnswered` | crates/core/src/session/driver.rs:736-1132 | what is written in answer to CopyInResponse is what the specification says of the messages so far |
| `DriverHistory.SentBoundaries` | crates/core/src/session/driver.rs:466-729 | the Query and Sync messages on the wire are as many as the commands written |
| `DriverInvariant.ServiceKeeps` | crates/core/src/session/driver.rs:466-729 | writing the messages of the next command, whole, keeps the invariant with that command in flight |
| `DriverInvariant.RefusalKeeps` | crates/core/src/session/driver.rs:466-729 | answering the next command at once with an error keeps the invariant |
| `DriverInvariant.StartKeeps` | crates/core/src/session/driver.rs:466-710 | taking up a command keeps the invariant, whether it is written or answered at once |
| `DriverInvariant.CloseKeeps` | crates/core/src/session/driver.rs:711-729 | Close, with everything behind it answered, keeps the invariant |
| `DriverInvariant.CopyKeeps` | crates/core/src/session/driver.rs:736-1132 | a COPY answered in time keeps wire, order and accounting as specified |
| `DriverInvariant.ReplyKeeps` | crates/core/src/session/driver.rs:736-1132 | the reply at ReadyForQuery stands in the place of its command, with the outcome specified for the segment just ended |
| `DriverInvariant.ReadingKeeps` | crates/core/src/session/driver.rs:736-1132 | any message, expected or not, keeps the invariant; a failed write leaves a state that can end |
| `DriverInvariant.EndKeeps` | crates/core/src/session/driver.rs:1170-1234 | ending from any state, also in the middle of a COPY, leaves everything answered |
| `DriverInvariant.ValidMeans` | crates/core/src/session/driver.rs:425-463 | the invariant gives order, exactly-once, the content of the wire and the accounting of boundaries |
| `DriverRuns.TurnKeeps` | crates/core/src/session/driver.rs:425-463 | every turn of the loop, for every event and every failing write, keeps the invariant |
| `DriverRuns.RunRecords` | crates/core/src/session/driver.rs:425-463 | the messages read, the commands entered and whether the server kept to the protocol are those of the events, in both directions |
| `DriverRuns.NothingIsMissed` | crates/core/src/session/driver.rs:425-463 | a run that goes on has read every message, and has taken every command enqueued if its inbox is open |
| `DriverRuns.RunsEnd` | crates/core/src/session/driver.rs:425-463 | the end of the stream or a decode error ends a run, whatever else happens |
| `DriverRuns.RunsGoOn` | crates/core/src/session/driver.rs:425-463 | nothing but these, the last sender or a failed write ends one |
| `DriverRuns.EndsAnswered` | crates/core/src/session/driver.rs:425-463 | once the stream has ended every command that was admitted has exactly one answer, in order |
| `DriverRuns.RunsAreCorrect` | crates/core/src/session/driver.rs:425-463 | for every sequence of events: order and exactly-once of answers, content of the wire, transaction status, and, if the server conforms, the specified outcome of each completed command in its place and the accounting of boundaries |
| `DriverRuns.CommandIsAnswered` | crates/core/src/session/driver.rs:425-463 | a command put to an idle driver is answered with the specified outcome of the messages up to ReadyForQuery, and nobody else is |
| `DriverEffects.OperationDoes` | crates/core/src/session/driver.rs:466-729 | the messages of each operation make a server with named statements and portals do what the operation is for: prepare and describe this statement, run this statement or SQL once with these parameters, bind, fetch or close this portal, or nothing when the name is unknown or taken |
| `DriverEffects.CopyLoads` | crates/core/src/session/driver.rs:1143-1161 | a COPY asked for once, in binary, whose chunks can be encoded, loads exactly its payload; any other loads nothing |
| `DriverEffects.StatementsStay` | crates/core/src/session/driver.rs:466-729 | a command leaves every named statement alone but the one it prepares or closes |
| `DriverEffects.PortalsStay` | crates/core/src/session/driver.rs:466-729 | in a transaction block a command leaves every named portal alone but the one it binds or closes, or whose statement it closes |
| `DriverEffects.PreparedIsRun` | crates/core/src/session/driver.rs:466-729 | whatever commands come between, executing a name runs the SQL that was prepared under it, with the parameters of the execution, until it is closed |
| `DriverEffects.RunsDo` | crates/core/src/session/driver.rs:425-463 | for every sequence of events, the server that reads the wire has done what the commands written are for, in order, and nothing else |
| `DriverReplies.SuccessIsEarned` | crates/core/src/session/driver.rs:425-463 | in every run success is told only of a command whose own segment of messages is complete, or of a Close whose Terminate is on the wire |
| `DriverReplies.EndTells` | crates/core/src/session/driver.rs:1170-1234 | ending answers the command in flight with the error, and every queued one with Closed, each at its place |
| `DriverReplies.EndIsTold` | crates/core/src/session/driver.rs:425-463 | in every run that ends with the stream or a decode error, the command in flight is told that error, everyone else that the connection is closed, and so it stays |
| `DriverReplies.LossTells` | crates/core/src/session/driver.rs:1143-1161 | a lost answer to CopyInResponse ends the run; its caller is told how it was lost, everyone else that the connection is closed |
| `DriverReplies.CloseTells` | crates/core/src/session/driver.rs:711-729 | Close is told whether it was sent, Terminate goes out if the write succeeds, and everyone behind it is told that the connection is closed |
| `DriverReplies.FaultIsTold` | crates/core/src/session/driver.rs:466-729 | a command that cannot be encoded is told the first fault of its messages, and nothing of it is sent |
| `DriverReplies.WritingIsTold` | crates/core/src/session/driver.rs:466-729 | a command that can be encoded is written whole and awaited, or told that the connection is closed with nothing written |
| `DriverReplies.GoodbyeIsSaid` | crates/core/src/session/driver.rs:1163-1168 | an idle driver whose last sender is gone sends Terminate and stops |
| `DriverTask.DriverTask.Build` | crates/core/src/session/driver.rs:466-729 | the write buffer holds all messages of a command, or the build reports the first fault |
| `DriverTask.DriverTask.Start` | crates/core/src/session/driver.rs:466-729 | a command is written whole and becomes the one in flight, or is answered at once with an error and nothing of it reaches the wire; nothing else changes. What its messages do is `DriverEffects.OperationDoes` |
| `DriverTask.DriverTask.StartClose` | crates/core/src/session/driver.rs:466-729 | Close sends Terminate, is answered, and everything queued behind it is answered Closed, in order; nothing else changes |
| `DriverTask.DriverTask.Drain` | crates/core/src/session/driver.rs:1170-1208 | every queued command is answered with Closed, in order, and none is taken any more |
| `DriverTask.DriverTask.WriteCopyStream` | crates/core/src/session/driver.rs:1143-1155 | all chunks and CopyDone are written, or only CopyFail when a chunk cannot be encoded; what is lost is lost exactly for a failed write or a CopyFail that cannot be encoded |
| `DriverTask.DriverTask.WriteCopyFail` | crates/core/src/session/driver.rs:1157-1161 | CopyFail with the reason is written, or nothing |
| `DriverTask.DriverTask.OnMessage` | crates/core/src/session/driver.rs:736-1132 | one message is recorded and changes the driver as its delivery to the command in flight says; an error is returned exactly when an answer to CopyInResponse is lost |
| `DriverTask.DriverTask.OnCopyResponse` | crates/core/src/session/driver.rs:736-1132 | the payload is streamed or refused, leaves the pending command, and a chunk that cannot be encoded becomes its error |
| `DriverTask.DriverTask.FailPending` | crates/core/src/session/driver.rs:1170-1234 | the command in flight gets the error and every queued one Closed, in order, as `DriverReplies.EndTells` says of each reply |
| `DriverTask.DriverTask.TakeNext` | crates/core/src/session/driver.rs:425-463 | the inbox is read only with nothing in flight, and its first command is taken up as specified; nothing else changes |
| `DriverTask.DriverTask.Handle` | crates/core/src/session/driver.rs:425-463 | one turn of the loop does to the driver exactly what the turn function says of the event |
| `DriverTask.DriverTask.Run` | crates/core/src/session/driver.rs:425-463 | the loop does exactly what the run function says of the events, of which the results above are proved |
| `MigrationCatalog.BuildingIsOrderIndependent` | crates/core/src/migration/plan.rs:16-51 | permuted assets give the same success and the same catalog |
| `MigrationCatalog.CatalogIsUnique` | crates/core/src/migration/plan.rs:16-51 | assets have at most one catalog, strictly increasing |
| `MigrationCatalog.FileAssets` | crates/core/src/migration/plan.rs:16-51 | every asset is filed in its slot, unless two clash or one does not parse, and the error names those |
| `MigrationCatalog.FromAssets` | crates/core/src/migration/plan.rs:16-51 | succeeds exactly on buildable assets, with their catalog; an error names the assets that clash, the script that is missing or the asset that does not parse |
| `MigrationCatalog.FinishSucceedsWhenPaired` | crates/core/src/migration/plan.rs:313-367 | an id without both of its scripts means the assets were not buildable, and a finished pair keeps its id |
| `MigrationCatalog.Reconcile` | crates/core/src/migration/plan.rs:134-169 | accepts exactly the histories that match a prefix of the catalog, and names the first row that does not, with the field that differs |
| `MigrationCatalog.MatchIsRecorded` | crates/core/src/migration/plan.rs:369-420 | a row matches a pair exactly if it is the row that applying the pair records |
| `MigrationCatalog.PlanFor` | crates/core/src/migration/plan.rs:90-132 | the plan of apply or rollback, or the error of the first bad row, exactly when there is no plan |
| `MigrationCatalog.ExecuteApply` | crates/core/src/migration/plan.rs:90-106 | executing an apply plan extends the history to the whole catalog |
| `MigrationCatalog.ExecuteRollback` | crates/core/src/migration/plan.rs:108-132 | executing a rollback of k steps leaves the history without its last k rows |
| `MigrationCatalog.PlansComplete` | crates/core/src/migration/plan.rs:90-132 | after an apply the next plan is empty, and rolling back any number of steps and applying again restores the history up to timestamps |
| `MigrationRunner.Connection.SimpleQuery` | crates/core/src/migration/runner.rs:34-44 | one statement is sent in the phase that allows it, and the phase follows its reply |
| `MigrationRunner.Connection.TransactionalBatch` | crates/core/src/migration/runner.rs:46-56 | BEGIN, the statements and COMMIT, with success if and only if no reply to them fails, or ROLLBACK at the first failure |
| `MigrationRunner.Connection.ExecuteScriptAndStateChange` | crates/core/src/migration/runner.rs:253-273 | a transactional script shares its transaction with its history row, any other runs before it; success if and only if the four replies are none a failure |
| `MigrationRunner.Connection.ExecutePlan` | crates/core/src/migration/runner.rs:216-251 | the steps run in order and stop at the first failure; success if and only if no reply fails, with exactly the statements of each step sent |
| `MigrationRunner.Connection.RunLocked` | crates/core/src/migration/runner.rs:93-136 | succeeds if and only if the rows loaded match a prefix of the catalog and no reply before the unlock fails, and has then sent create, lock, load, the statements of each step of the plan, and unlock, and nothing else |
| `MigrationRunner.Connection.RunUnderLock` | crates/core/src/migration/runner.rs:93-146 | under the lock, the load and exactly the plan are sent, with success if and only if none fails and the rows match; the unlock is next after success and after every failure |
| `MigrationSafety.RecordEffect` | crates/core/src/migration/runner.rs:253-273 | recording the next step of a fresh plan appends or drops exactly one row |
| `MigrationSafety.CommitKeepsEffects` | crates/core/src/migration/runner.rs:253-273 | a committed step leaves effects and history in agreement, script by script |
| `MigrationSafety.LooseScriptKeepsEffects` | crates/core/src/migration/runner.rs:253-273 | a script outside a transaction leaves alone whatever transactional scripts did |
| `MigrationSafety.LastOfAppend` | crates/core/src/migration/runner.rs:253-273 | what ran last for a migration is what was just committed for it, and nothing else changes it |
| `MigrationSafety.StepKeepsInv` | crates/core/src/migration/runner.rs:93-315 | every statement, failure and crash of any session keeps the invariant |
| `MigrationSafety.MigrationsAreSafe` | crates/core/src/migration/runner.rs:93-315 | in every reachable state the history is a catalog prefix, what a transactional script did is committed exactly with its row, one session is inside, a running plan is what planning for the session's own goal would give now, and a session about to unlock with success has left the history as long as it was asked to |
| `MigrationSafety.GoalIsKept` | crates/core/src/migration/runner.rs:93-146 | a session keeps the goal it started with, and its job records the length of the history it read |
| `MigrationSafety.LoadingReads` | crates/core/src/migration/runner.rs:93-136 | what a session reads under the lock is the history as it stands |
| `MigrationSafety.MismatchIsNeverTouched` | crates/core/src/migration/plan.rs:134-169 | a database whose history does not match is never written to by any run |
| `MigrationProgress.StatementGoesOn` | crates/core/src/migration/runner.rs:93-136 | the next statement of a session with the lock on a matching history is not blocked, does not fail unless the server fails it, and leaves one statement fewer |
| `MigrationProgress.OthersLeaveIt` | crates/core/src/migration/runner.rs:93-136 | no step of another session changes what the holder of the lock works on |
| `MigrationProgress.MigrationsSucceed` | crates/core/src/migration/runner.rs:93-136 | in every run, a session that has the lock while the history matches and whose statements do not fail is, after a number of them known beforehand, about to unlock a history of the length asked for, and one later has succeeded |
| `MigrationProgress.LockIsReleased` | crates/core/src/migration/runner.rs:93-146 | in every run in which no unlock fails, the lock is held exactly while a session is between lock and unlock, whatever else fails or crashes |
| `Pool.PoolInner.TryTakeIdle` | crates/core/src/pool.rs:372-375 | the oldest idle session leaves the queue |
| `Pool.PoolInner.TryReserveSlot` | crates/core/src/pool.rs:377-384 | a slot is taken exactly below the maximum |
| `Pool.PoolInner.ReturnIdle` | crates/core/src/pool.rs:423-454 | a session is stored, or its slot given back when it is discarded, expired or the pool is closed |
| `Pool.PoolInner.Close` | crates/core/src/pool.rs:322-337 | the idle sessions are drained with their slots, behind the closed flag |
| `Pool.PoolInner.RemoveExpired` | crates/core/src/pool.rs:467-482 | exactly the expired sessions leave, the rest keep their order |
| `Pool.PoolInner.EnsureMinIdle` | crates/core/src/pool.rs:341-370 | ends with the minimum met or no slot left unless a connection fails, makes no session beyond it, and keeps no slot it did not fill |
| `Pool.SectionConserves` | crates/core/src/pool.rs:263-454 | a section gives or takes a slot exactly as its task stops or starts holding one, and never subtracts more than there is |
| `Pool.SectionMovesSessions` | crates/core/src/pool.rs:263-454 | sessions only move between the queue and the holder whose section it is, or are new; which of them may be handed out is `PoolSessions.CheckoutsAreHealthy` |
| `Pool.StepKeepsInv` | crates/core/src/pool.rs:263-487 | every step of every task keeps conservation, closing and exclusiveness |
| `Pool.SlotsAreConserved` | crates/core/src/pool.rs:263-487 | in every reachable state the total is idle plus holders plus leaks, at most the maximum, and no saturating subtraction clamps; it is idle plus holders alone exactly when no holder was ever dropped |
| `Pool.LeaksAreDroppedHolders` | crates/core/src/pool.rs:263-487 | slots leak exactly when a task is dropped while holding one |
| `Pool.LeaksOnlyGrow` | crates/core/src/pool.rs:263-487 | no step takes a leak back |
| `Pool.LeakedForGood` | crates/core/src/pool.rs:263-487 | after leaks there are for good that many sessions fewer than the maximum, idle or held |
| `Pool.SessionsAreExclusive` | crates/core/src/pool.rs:263-454 | no session is in two hands, or idle while in use |
| `Pool.CloseIsFinal` | crates/core/src/pool.rs:322-337 | after a drain no later state has an idle session, and the total is the remaining holders and leaks |
| `PoolSessions.QueueIsExact` | crates/core/src/pool.rs:263-487 | a session enters the idle queue exactly when it is returned sound to an open pool, and leaves it exactly by being taken from the front, swept out expired or drained |
| `PoolSessions.CheckoutsAreHealthy` | crates/core/src/pool.rs:263-320 | in every run a task that has a session out connected it, or its check of it succeeded on a session that had not expired, and has had it out since |
| `PoolSessions.GivenUpForGood` | crates/core/src/pool.rs:263-454 | in every run a session that was returned broken, could not be reset, failed its check, had expired or was dropped is never idle, checked or checked out again |
| `PoolSessions.LatecomersGetNothing` | crates/core/src/pool.rs:263-370 | a task that starts once the pool is closed never has a slot or a session |
| `PoolSessions.AcquireGetsFirst` | crates/core/src/pool.rs:263-293 | an acquire left alone gets the first idle session that passes, and gives up exactly those before it with their slots |
| `PoolSessions.AcquireConnects` | crates/core/src/pool.rs:295-320 | with nothing idle it takes a slot and connects, or waits while there is none |
| `PoolSessions.WarmsWhenNeeded` | crates/core/src/pool.rs:341-370 | a connection is made ahead exactly while the open pool is below its minimum and a slot is free |
| `PoolSessions.TickRefills` | crates/core/src/pool.rs:467-487 | a maintenance tick left alone ends with exactly the missing sessions made, as far as slots are free |
| `Transactions.Server.Run` | crates/core/src/transaction.rs:220-259 | what each control command does to status, database and savepoint stack, in a failed transaction too |
| `Transactions.Session.RunBody` | crates/core/src/transaction.rs:28-57 | a body does what its actions mean, after caught failures too; the stack is restored, or holds newer names only while the server refuses statements |
| `Transactions.Session.RunSavepoint` | crates/core/src/transaction.rs:220-250 | a nested scope is kept or undone as a whole, with stack and status as before unless a swallowed failure leaves the server refusing statements |
| `Transactions.Session.EndSavepoint` | crates/core/src/transaction.rs:220-259 | a scope is released, or rolled back to its savepoint; a refused RELEASE is cleaned up only in time |
| `Transactions.Session.RollbackSavepoint` | crates/core/src/transaction.rs:252-259 | the database of the savepoint is restored and the savepoint is gone |
| `Transactions.Session.Transaction` | crates/core/src/transaction.rs:28-57 | the committed database is the recursive all-or-nothing meaning of the tree, the status idle, the stack empty; Ok comes from success with a COMMIT that was not refused, or that became a rollback |
| `Transactions.LatestIsAt` | crates/core/src/transaction.rs:220-259 | a command about a scope's savepoint resolves to it, whatever newer names are on top |
| `Transactions.ScopesAreAllOrNothing` | crates/core/src/transaction.rs:28-57 | a scope that ends with an error leaves no trace, a successful one only adds and leaves the server accepting statements |
| `Transactions.EffectsAreLocal` | crates/core/src/transaction.rs:28-57 | what a body adds does not depend on what was there before |
| `Transactions.SuccessIsCommittable` | crates/core/src/transaction.rs:28-57 | success with effects to commit, and success without, read off the tree: a body succeeds exactly when every error is caught that its own or an earlier failure makes, and commits exactly when none of its actions spoils the transaction |
| `Transactions.BodyByFlags` | crates/core/src/transaction.rs:28-57 | result and spoiling of every body of a tree are given by the flags of its statements and scopes |
| `Transactions.PassingOnIsSafe` | crates/core/src/transaction.rs:28-57 | in a tree whose bodies never catch their own failed statements success always means committed, and every scope leaves the server accepting statements |
| `Transactions.SwallowedFailure` | crates/core/src/transaction.rs:28-57 | a body that returns success and has nothing to commit |
| `StatementCache.SessionCache.Checkout` | crates/core/src/session/cache.rs:68-72 | a hit gives the cached statement and counts one more handle |
| `StatementCache.SessionCache.ReleaseHandle` | crates/core/src/session/cache.rs:82-94 | the last handle returns the statement and drops the entry unless it is retained |
| `StatementLife.SubjectMoves` | crates/core/src/session/mod.rs:281-335 | a step takes the one name it is about to its next place |
| `StatementLife.OthersStay` | crates/core/src/session/mod.rs:281-335 | a step leaves every name alone but the one it is about and the one it replaces |
| `StatementLife.EvictedMoves` | crates/core/src/session/cache.rs:75-77 | an insert that meets an entry puts its name out of the cache, prepared and unclosed |
| `StatementLife.StepKeepsCounts` | crates/core/src/session/cache.rs:59-94 | every step that does not overwrite a counted entry keeps the reference counts right |
| `StatementLife.OverwriteMiscounts` | crates/core/src/session/cache.rs:75-77 | a step that does makes them wrong |
| `StatementLife.StepKeepsInv` | crates/core/src/session/prepared.rs:77-117 | the places of names are kept by every step with retention, and by every step that does not overwrite a counted entry without it |
| `StatementResults.HandlesAreCounted` | crates/core/src/session/cache.rs:59-94 | while no insert overwrites a counted entry, an entry counts the live handles of its key, and each live handle has the statement of that entry |
| `StatementResults.CountsAreRight` | crates/core/src/session/cache.rs:59-94 | the counts are right after every step of a run if and only if no insert meets an entry that counts handles |
| `StatementResults.DisciplineSuffices` | crates/core/src/session/mod.rs:284-327 | no insert ever meets an entry if no two prepares of one key are past their miss at once |
| `StatementResults.HandlesAreBacked` | crates/core/src/session/prepared.rs:77-117 | with retention in every run, and without it while no insert overwrites, a live handle's statement is prepared and not closed |
| `StatementKeys.HandlesHaveTheirKey` | crates/core/src/session/mod.rs:268-350 | in every run, with overwrites or without, a handle or cache entry is of a statement that was sent to be prepared for its own key |
| `StatementResults.NamesAreUsedOnce` | crates/core/src/session/cache.rs:97-100 | in every run no name is prepared twice; with retention, or while no insert overwrites, none is closed twice or while a handle is live |
| `StatementResults.ClosedWithTheLastHandle` | crates/core/src/session/prepared.rs:77-117 | without retention, while no insert overwrites, at rest the server has exactly the live handles' statements, and every other has been closed exactly once |
| `StatementResults.RetainedForGood` | crates/core/src/session/cache.rs:82-94 | with retention in every run an entry stays and its statement is never closed; the key keeps it if and only if no insert replaces it |
| `DoubleMiss.DoubleMissLeaks` | crates/core/src/session/mod.rs:284-327 | two prepares of one key that both miss and insert end in a wrong count and a statement that is never closed |
| `RowStream.StreamIsTheQuery` | crates/core/src/session/mod.rs:151-189 | gathering the stream of a query gives what the plain query returns |
| `RowStream.QueryRows` | crates/core/src/session/mod.rs:176-185 | all rows decoded, or the first error |
| `RowStream.RowChannel.Send` | crates/core/src/session/stream.rs:203-226 | a row is queued in order within the capacity, or the consumer is gone |
| `RowStream.ForwardBatch` | crates/core/src/session/stream.rs:203-237 | the batch is sent in order up to the first row that does not decode, or a prefix when the consumer leaves |
| `RowStream.DriveBatch` | crates/core/src/session/stream.rs:172-249 | one turn either goes on with everything fetched sent, or has the final outcome |
| `RowStream.DriveStream` | crates/core/src/session/stream.rs:161-258 | terminates, sends the decodings of all rows or a prefix of them as specified, holds at most two batches, cleans up once |
| `RowStream.CleanupStream` | crates/core/src/session/stream.rs:260-273 | portal, statement and transaction are ended, in that order |
| `RowStream.ValidateRowDescription` | crates/core/src/session/mod.rs:562-594 | accepts exactly equal column counts and types, and reports the first difference |
| `RowStream.BindBatches` | crates/core/src/session/stream.rs:55-122 | the batch size is checked and the portal bound, or statement and transaction are ended; a bad size has its own error |
| `RowStream.PrepareStream` | crates/core/src/session/mod.rs:218-248 | statement prepared, columns checked, transaction begun, in this order; columns that differ stop it before BEGIN with the error that names them |
| `RowStream.StreamQuery` | crates/core/src/session/mod.rs:202-265 | prepare, begin and bind in this order and then only fetches; on a live connection every path ends with the clean-up owed and sends none of it before; success implies the expected columns, other columns give the error of the first difference with neither BEGIN nor Bind sent, and it fails only for these, a refused command or a bad batch size |
| `RowStream.CleanedUpOnce` | crates/core/src/session/stream.rs:41-122 | one CloseStatement per prepared statement, one COMMIT per begun transaction, one ClosePortal per bound portal, nothing else |
| `RowStream.CommitComesLast` | crates/core/src/session/stream.rs:260-273 | the COMMIT of a begun transaction is the last command |
| `Decimals.DecimalReadsBack` | crates/macros/src/lib.rs:884-890 | a printed slot number parses to itself |
| `SqlTokens.TokensAppend` | crates/macros/src/lib.rs:870-898 | two texts in one are read piece by piece, or lose a piece where a digit is swallowed |
| `SqlTokens.RenderReadsBack` | crates/macros/src/lib.rs:870-898 | rendered pieces are read back unless one swallows a digit |
| `SqlTokens.TokensAreClean` | crates/macros/src/lib.rs:870-898 | what is read never has a piece that should have swallowed a digit |
| `SqlTokens.RenumberedReads` | crates/core/src/query/fragment.rs:489-514 | renumbering adds the offset to every placeholder and changes nothing else |
| `SqlTokens.RenumberInto` | crates/macros/src/lib.rs:870-898 | the loop appends the renumbered text |
| `SqlCompiler.CheckDuplicates` | crates/macros/src/lib.rs:475-486 | finds a repeated binding exactly if there is one |
| `SqlCompiler.ScanName` | crates/macros/src/lib.rs:497-503 | the longest identifier after the dollar sign |
| `SqlCompiler.PutBinding` | crates/macros/src/lib.rs:512-525 | a placeholder becomes its shared slot, or its nested template renumbered |
| `SqlCompiler.CompileInput` | crates/macros/src/lib.rs:474-543 | succeeds exactly when bindings are distinct, used, complete and nested templates compile, with the flattened form; an error names a fault of the template or of one nested in it |
| `SqlCompiler.FlatteningPreservesMeaning` | crates/macros/src/lib.rs:474-543 | slots filled with codecs give the recursive expansion, if and only if no digit follows a placeholder or dollar sign; then every slot is used |
| `SqlCompiler.SlotCount` | crates/macros/src/lib.rs:519-522 | repeats of a name at one level share a slot, nested uses bring their own |
| `SqlCompiler.SwallowedDigit` | crates/macros/src/lib.rs:474-543 | a template that compiles and whose flattened form means something else |
| `QueryFragment.LiteralIsFaithful` | crates/core/src/query/fragment.rs:168-196 | literal text means itself unless it holds a dollar sign before a digit |
| `QueryFragment.BindCarries` | crates/core/src/query/fragment.rs:221-239 | a bound codec adds the next slot and keeps all slots used |
| `QueryFragment.PlusCarries` | crates/core/src/query/fragment.rs:249-266 | concatenation keeps both meanings and counts |
| `QueryFragment.BuilderPreservesMeaning` | crates/core/src/query/fragment.rs:221-266 | for every builder tree, slots filled in encoder order give its text, if and only if no digit follows a placeholder or dollar sign |
| `BackendMessages.BodyReadsBack` | crates/core/src/protocol/codec.rs:80-238 | decoding a body inverts its encoding for every message a server can send, except that 32768 parameters or more are refused as a negative count |
| `BackendMessages.RowFieldReadsBack` | crates/core/src/protocol/codec.rs:105-123 | the seven parts of a field description are read in order |
| `BackendMessages.ColumnReadsBack` | crates/core/src/protocol/codec.rs:130-145 | NULL, empty and other column values are told apart |
| `BackendMessages.ErrorFieldsReadBack` | crates/core/src/protocol/codec.rs:240-251 | error fields are read up to their terminator |
| `BackendMessages.AuthReadsBack` | crates/core/src/protocol/codec.rs:194-238 | every authentication request is decoded as encoded |
| `Framing.Buffer.ReadCStr` | crates/core/src/protocol/codec.rs:281-291 | text up to the first NUL, if it is UTF-8 |
| `Framing.Buffer.ReadFieldList` | crates/core/src/protocol/codec.rs:110-121 | the loop reads the counted list of fields or its first error |
| `Framing.Buffer.ReadColumns` | crates/core/src/protocol/codec.rs:124-147 | the loop reads the counted columns or the first error |
| `Framing.Buffer.ReadErrorFields` | crates/core/src/protocol/codec.rs:240-251 | the loop reads the fields up to the terminator |
| `Framing.Buffer.ReadMechanisms` | crates/core/src/protocol/codec.rs:209-233 | the loop reads the mechanism names up to the empty one |
| `Framing.DecodeBody` | crates/core/src/protocol/codec.rs:80-192 | the dispatch decodes a body as specified |
| `Framing.FrameReader.Decode` | crates/core/src/protocol/codec.rs:47-73 | one whole frame is consumed and decoded, a bad length consumes nothing, a short buffer waits |
| `Framing.FrameReader.Feed` | crates/core/src/protocol/codec.rs:43-74 | a chunk is decoded as far as it goes |
| `Framing.FrameReadsBack` | crates/core/src/protocol/codec.rs:47-73 | an encoded message in front of anything decodes to itself, or to the refusal, and leaves the rest |
| `Framing.ChunksDoNotMatter` | crates/core/src/protocol/codec.rs:43-74 | any cut of a stream gives the same messages, the same error and the same bytes left over |
| `Framing.StreamReadsBack` | crates/core/src/protocol/codec.rs:43-192 | a server's messages arrive as sent in any chunks, with an unfinished frame left waiting; or up to the first refused one, with its error and the rest unread |
| `Framing.KnownFrames` | crates/core/src/protocol/codec.rs:47-147 | the octets of three frames, with tag and length |
| `EwkbFormat.ParseGeometry` | crates/core/src/codec/postgis.rs:525-582 | reading takes bytes from every input it accepts, so the nested readers end |
| `EwkbFormat.RingsKept` | crates/core/src/codec/postgis.rs:603-615 | closing rings changes nothing exactly when they are closed under floating-point equality |
| `EwkbRoundTrip.HeadReadsBack` | crates/core/src/codec/postgis.rs:525-559 | byte order, type and SRID are read back, or a large SRID is refused as negative |
| `EwkbRoundTrip.GeometryReads` | crates/core/src/codec/postgis.rs:411-615 | reading written bytes gives the geometry with closed rings and its SRID and leaves the tail, in both byte orders |
| `EwkbRoundTrip.RoundTrip` | crates/core/src/codec/postgis.rs:411-702 | the round trip holds if and only if rings are closed and the SRID is below 2^31 |
| `EwkbRoundTrip.ColumnRoundTrip` | crates/core/src/codec/postgis.rs:373-409 | the same for a column, where any trailing byte is an error |
| `EwkbRoundTrip.KnownPoint` | crates/core/src/codec/postgis.rs:411-498 | the octets of a point with an SRID, in both byte orders |
| `Ewkb.Output.WriteLineString` | crates/core/src/codec/postgis.rs:500-510 | count and coordinates are appended |
| `Ewkb.Output.WritePolygon` | crates/core/src/codec/postgis.rs:512-523 | the exterior and then the interiors are appended |
| `Ewkb.Output.WriteGeometry` | crates/core/src/codec/postgis.rs:411-493 | appends the specified bytes, and fails exactly for unsupported shapes and counts beyond 32 bits, saying which |
| `Ewkb.EncodeSpatial` | crates/core/src/codec/postgis.rs:373-381 | the encoded column is the specified bytes |
| `Ewkb.Cursor.ReadLineString` | crates/core/src/codec/postgis.rs:591-601 | the loop reads the counted coordinates or fails |
| `Ewkb.Cursor.ReadPolygon` | crates/core/src/codec/postgis.rs:603-615 | no ring, or an exterior and its interiors, closed |
| `Ewkb.Cursor.ReadMulti` | crates/core/src/codec/postgis.rs:617-702 | counted members of the right kind without SRID, or an error |
| `Ewkb.Cursor.ReadGeometry` | crates/core/src/codec/postgis.rs:525-582 | the recursive reader does what the parsing function says |
| `Ewkb.DecodeSpatial` | crates/core/src/codec/postgis.rs:383-409 | missing column, NULL, malformed bytes and trailing bytes are errors |
| `Scram.ConstantTimeEq` | crates/core/src/auth/scram.rs:329-338 | the accumulated difference is zero exactly for equal octet strings |
| `Scram.XorInto` | crates/core/src/auth/scram.rs:170-173 | an array is xored in place |
| `Scram.XorUndoes` | crates/core/src/auth/scram.rs:170-173 | the same xor twice restores the octets |
| `Scram.Pbkdf2` | crates/core/src/auth/scram.rs:310-327 | the loop computes Hi of RFC 5802 |
| `Scram.Start` | crates/core/src/auth/scram.rs:103-121 | the first message is the GS2 header and the bare message, which carries the nonce |
| `Scram.ParseServerFirst` | crates/core/src/auth/scram.rs:257-278 | accepts exactly well-formed attributes with nonce, salt and count, the last of each |
| `Scram.ParseServerFinal` | crates/core/src/auth/scram.rs:286-296 | the first verifier or error attribute |
| `Scram.HandleServerFirst` | crates/core/src/auth/scram.rs:136-182 | goes on exactly for acceptable messages, with the final message of RFC 5802 over the AuthMessage of `ScramServer.AuthMessageHolds`; an error is the first condition that fails |
| `Scram.VerifyServerFinal` | crates/core/src/auth/scram.rs:193-211 | accepts exactly a verifier that decodes to ServerSignature, and an error says which of its conditions failed |
| `Scram.HonestRun` | crates/core/src/auth/scram.rs:103-211 | an honest server's message is accepted, and from the proof it recovers ClientKey; that the server computes the same AuthMessage by itself is `ScramServer.LoginSucceeds` |
| `Scram.OnlyTheSignatureVerifies` | crates/core/src/auth/scram.rs:193-211 | of all verifiers the server's signature is accepted and no other |
| `ScramServer.AuthMessageHolds` | crates/core/src/auth/scram.rs:165-168 | the attributes of the AuthMessage are those of the bare first, the server-first and the final message without proof, in order |
| `ScramServer.AuthMessageBinds` | crates/core/src/auth/scram.rs:165-168 | equal AuthMessages with one bare and one final part have the same server-first message, so the proof binds nonce, salt and iteration count |
| `ScramServer.LoginSucceeds` | crates/core/src/auth/scram.rs:103-211 | a server of RFC 5802 that reads header, bare message, binding, nonce and proof out of what the client sent, and computes AuthMessage, keys and signature by itself, accepts the right password, and the client accepts its answer |
| `TupleCodec.MetadataIsAligned` | crates/core/src/codec/tuple.rs:76-128 | slots, OIDs and format codes belong to the same leaf, exactly when every leaf declares its code |
| `TupleCodec.SlotsFitTheLeaves` | crates/core/src/codec/tuple.rs:81-88 | encoding makes one slot per OID, each filled by its own leaf |
| `TupleCodec.DecodingInverts` | crates/core/src/codec/nullable.rs:34-73 | decoding inverts encoding, with columns to spare, if and only if every present value has a slot that is not NULL |
| `TupleCodec.ShowsIsNotNull` | crates/core/src/codec/nullable.rs:63-73 | which values encode to something other than NULLs |
| `TupleCodec.Params.Encode` | crates/core/src/codec/nullable.rs:34-47 | slots are appended behind those already there |
| `TupleCodec.Decode` | crates/core/src/codec/tuple.rs:105-114 | the moving offset decodes every component from its own columns |
| `BinaryCopy.BinaryCopyRow.EncodeFields` | crates/core/src/copy.rs:187-209 | the reused buffer holds exactly this row, unless a count or length does not fit |
| `BinaryCopy.EnsureBinaryCapable` | crates/core/src/copy.rs:162-174 | accepts exactly binary codes throughout, and names the first other column |
| `BinaryCopy.EncodeRow` | crates/core/src/copy.rs:141-155 | succeeds exactly for rows that can be copied, with their bytes; an error is the first condition that fails |
| `BinaryCopy.EncodePayload` | crates/core/src/copy.rs:219-241 | header, one chunk per row and trailer, or the error of the first row that cannot be copied |
| `BinaryCopy.PayloadReadsBack` | crates/core/src/copy.rs:187-241 | the chunks, put together, are read as exactly the rows |
| `BinaryCopy.ValuesArrive` | crates/core/src/copy.rs:137-241 | rows of values decode to themselves on the other side, if and only if they can be told from NULL |
| `BinaryCopy.KnownPayload` | crates/core/src/copy.rs:187-241 | the octets of two rows, with header, counts, lengths, NULL and trailer |
| `Hstore.Output.PushQuoted` | crates/core/src/codec/hstore.rs:167-179 | quotes and backslashes are escaped, nothing else |
| `Hstore.Encode` | crates/core/src/codec/hstore.rs:117-131 | the entries are printed in order, separated |
| `Hstore.ScanEscaped` | crates/core/src/codec/hstore.rs:181-206 | the loop reads escaped text up to its closing quote, or says how it is broken |
| `Hstore.Cursor.ParseQuoted` | crates/core/src/codec/hstore.rs:181-206 | quoted UTF-8 text |
| `Hstore.Cursor.ParseEntry` | crates/core/src/codec/hstore.rs:143-154 | key, arrow and a value or NULL |
| `Hstore.Cursor.EndEntry` | crates/core/src/codec/hstore.rs:133-165 | after an entry comes the end, or a comma and more |
| `Hstore.Parse` | crates/core/src/codec/hstore.rs:133-165 | the cursor loop inserts the entries in order |
| `HstoreRoundTrip.ValueReadsBack` | crates/core/src/codec/hstore.rs:149-154 | a present value is never taken for NULL, whatever it says |
| `HstoreRoundTrip.RoundTrip` | crates/core/src/codec/hstore.rs:117-165 | every finite map of texts, printed in any order, parses to itself |
| `HstoreRoundTrip.PrintedIsUtf8` | crates/core/src/codec/hstore.rs:117-131 | the printed text is UTF-8 |
| `HstoreRoundTrip.ColumnRoundTrip` | crates/core/src/codec/hstore.rs:87-98 | the decoder accepts the printed column and gives the map |
| `HstoreRoundTrip.KnownText` | crates/core/src/codec/hstore.rs:117-179 | the octets of a quoted text and a NULL |

## Left out

- DriverEffects.OperationDoes: the server refuses unknown and taken names; SQL that fails at the server, or that prepares, deallocates or opens portals by itself, is not part of its model.
- Sockets, TLS, timers and tracing: input and output. Expiry and write failure are choices of the environment.
- The capacity of the command channel, and wake-ups: no claim that a waiting `acquire` or a blocked sender proceeds.
- Partial bytes of a failed socket write: a write that fails puts nothing on the model's wire.
- Scope bodies that are cancelled. The clean-up of a refused RELEASE, which a spawned task sends, comes before the next command or after the transaction; that it may come in between is not modelled.
- Session.RunSavepoint: a refused SAVEPOINT leaves an armed guard too; its spawned clean-up, which would abort the transaction when it came after an outer ROLLBACK TO, does nothing in the model.
- The end of a stream with bytes left in the buffer, on which the framing library reports an error that the driver sees as `DecodeError`.
- Savepoint names shared with other sessions by the global counter: names of one session only matter to it.
- The broken flag of a pooled connection: whether a returned session is discarded is a choice of the environment.
- Parsing of migration file names and metadata, and the text of the state table's SQL.
- Scripts with transaction control of their own.
- Hashing of cache keys: two SQL texts with one hash are one key.
- Resolution of dynamic type OIDs before a statement is prepared, and types beside OIDs in codec metadata.
- A connection that is lost while a statement is prepared or closed: its server-side state is gone with it.
- SQL text beyond ASCII in renumbering, which the source treats byte by byte, and slot numbers beyond the machine word.
- Codecs that fill several slots under one `bind` placeholder, and runtime-dependent fragments.
- The capacity reserved for counted lists before they are read.
- An EWKB line or ring of 2^32 coordinates, on which the source panics: `LinesFit` is required of writers.
- Base64, SHA-256 and HMAC: uninterpreted functions with the laws in `Scram.Primitives.Lawful`.
- Float, text-search, range, array, date, UUID, network, JSON and numeric codecs, and the derive and schema macros.
- Columns fewer than a decoder declares, on which `nullable` panics: its trait demands them of the caller.
