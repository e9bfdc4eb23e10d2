# rustyhip in Dafny

A Dafny model of rustyhip, a Lambda front end that serves SQLite over S3, with proofs of
what its durability protocol, its HTTP layer, its writers' protocol and its tools promise.

`dafny verify dfyconfig.toml` checks everything.

## How the model is laid out

| files | part of rustyhip |
|---|---|
| Storage, Sqlite, Policy | the contract taken from SQLite (pages, WAL, transactions, statement effects, checkpoints) and the authorizer |
| Values, Rows | parameter binding, value conversion, the capped cursor loop |
| Durable, Engine, Calls | `exec_durable` and what it calls: as functions, as the methods of `SqliteDb` proved to compute them, and what each call answers and leaves behind |
| Machine, CrashSafety, Linearizability, Acknowledged, Transactions | any number of requests in separate steps on the shared connection, with panics, crashes, background copies |
| Http | authentication, routing, status codes, alone and over the machine |
| Cas, Fleet | several instances over one manifest: the protocol alone, and with each instance the whole machine |
| LoadTest, Percentile, Report | the load tester and the benchmark's percentile |
| Redaction | the JSON log formatter |
| Discrepancies | concrete inputs where the code departs from its documentation |

Everything SQLite, the clock, the network and S3 decide is an argument (an `Attempt`, a
`Flush`, an `Oracle`, an event), so "for all runs" is a quantifier over sequences of events.
`Machine.Run` applies events in order; an event that is not enabled changes nothing.

## What is assumed of the environment

- SQLite commits the pages of a statement outside a transaction, or of a whole transaction,
  as one batch; a batch with no pages adds no frame. A failed or abandoned statement may have
  had no effect, its full effect, or have rolled its transaction back.
- `wal_checkpoint(TRUNCATE)` answering busy = 0 copied every frame and emptied the WAL. Any
  other checkpoint, also a failing one, copied some prefix of the committed batches. Outside
  WAL mode the result row is (0, -1, -1) and commits go to the main file.
- Transaction control is read-only, except BEGIN IMMEDIATE; a client's own `wal_checkpoint`
  is not read-only. `changes`, `last_insert_rowid` and `total_changes` move with INSERT, UPDATE
  and DELETE only (a failed statement may leave them anyhow).
- A parameter list of the wrong length is refused after preparation, before the first step.
- A client's `wal_checkpoint` inside a transaction is refused. (SQLite lets one pass between a
  deferred BEGIN and the transaction's first access; no result depends on this.)
- Only ATTACH, DETACH and the value form of a pragma that is a setting may change the
  configuration, to anything at all. The argument of `wal_checkpoint`, of the ten introspection
  pragmas, of `optimize` and of `incremental_vacuum` is no setting.
- Savepoint and pragma names are compared without regard to ASCII case.
- A cold start recovers the durable pages, and reopens with the same configuration.
- A conditional PUT succeeds exactly if its tag is the current one; distinct versions have
  distinct tags. Its response may be lost; a writer whose PUT failed keeps the tag it had,
  and its checkpoint, or its commit to the main file, fails without effect.

## Where code and documentation disagree

- `ExecOutcome` documents the rows changed by the statement, 0 for DDL (src/db.rs:124-125). The
  code reports the connection's counters for every statement that is not read-only, and DDL,
  BEGIN IMMEDIATE and a client's `wal_checkpoint` do not reset them: each repeats what an
  earlier, unrelated request left. `Durable.CountsExactly` says exactly when.
- src/db.rs:418-421 keeps the counters of earlier requests out of the answer to a read. They
  still come out as rows of `SELECT last_insert_rowid()`, `changes()` or `total_changes()`, which
  the policy allows: a restarted container shows the same pages and answers differently
  (`Discrepancies.ColdStartForgetsRowid`). `Durable.ReadsAreHistoryIndependent` gives the exact
  condition. Its hypothesis is that a read's rows are determined by the pages it sees and these
  counters; a read of the clock or of random() is not covered.
- README.md:246-251 says the checkpoint runs for every call that leaves durable work in the
  WAL; a write whose result exceeds the row cap, or that is cut off by a fault, may commit and
  is answered an error without a checkpoint. `Durable.FlushedExactlyWhenRowsFit` says exactly when.
- The comment at src/db.rs:191-195 calls all transaction control read-only; BEGIN IMMEDIATE is
  not. The gate is right in both cases (`Durable.GateExact`).

## Model

| member | source | states |
|---|---|---|
| Acknowledged.AnsweredCommitIsRecovered | src/db.rs:202-243 | In every run of interleaved requests, panics, copies, busy checkpoints and crashes: a request answered Ok that committed leaves a history which, after any later events and a cold start, still begins with everything committed before its turn followed by its own whole batch (TRUNCATE, or rollback journal) |
| CrashSafety.AckedCommitsSurvive | src/db.rs:216-243 | At every point of every run, everything acknowledged earlier was answered Ok and is durable; recovery yields the pages of a prefix of the committed history that contains each acknowledged history in order |
| CrashSafety.DurabilityExactly | src/settings.rs:179-204 | Among TRUNCATE, PASSIVE and OFF: every acknowledged commit is durable in all runs from all starts if and only if the mode is TRUNCATE or the journal is a rollback journal |
| CrashSafety.UnsafeModesLoseAnAckedCommit | src/settings.rs:179-181 | Under OFF and PASSIVE one INSERT answered Ok and acknowledged is lost by a crash |
| CrashSafety.RecoverableNeverShrinks | src/db.rs:216-243 | From any reachable state through any events, crashes included, what a cold start recovers only grows; the committed history is cut back by crashes only |
| CrashSafety.NoStaleDeadline | src/db.rs:329-351 | In every run a statement runs under its own request's deadline or none, the gate and checkpoint under none, and a free unpoisoned lock leaves no handler installed |
| CrashSafety.ConfigurationIsFrozen | src/db.rs:159-163 | No run of client statements changes the journal mode, any setting or the set of attached databases |
| CrashSafety.StepInv | src/db.rs:216-243 | The invariant behind the results above is kept by each of the eleven kinds of event |
| Durable.AckedIsDurable | src/db.rs:186-201 | For one call: Ok and something committed imply that the durable history is the old history plus this call's batch |
| Durable.GateExact | src/db.rs:191-198 | Over all statement kinds, exactly which successful statements open the checkpoint gate: outside a transaction INSERT, UPDATE, DELETE, DDL and client checkpoints; inside one whatever ends it, ROLLBACK included. Every kind that may commit and every actual commit is among them; it never opens inside a transaction nor for a read outside one |
| Durable.ReadonlyAloneMissesCommit | src/db.rs:191-195 | Gating on the read-only flag alone would skip the COMMIT of every BEGIN/write/COMMIT |
| Durable.RefusedCheckpointKeepsTheWrite | src/db.rs:222-239 | After an answered error the commit stays, once, and visible to later reads |
| Durable.NextCheckpointMakesItDurable | src/db.rs:318-327 | The next TRUNCATE checkpoint that completes makes exactly the visible pages durable, without committing anything again |
| Durable.FlushedExactlyWhenRowsFit | README.md:246-251 | A call that committed is flushed if and only if its whole result arrived and fits under the row cap; otherwise it is answered an SQL error and its connection is left exactly as before the gate, whatever a checkpoint would have done |
| Durable.StatementFailsExactly | src/db.rs:373-416 | A statement is answered an error if and only if a parameter cannot be bound, it cannot be prepared or is denied, the number of parameters is wrong, it cannot be stepped in this transaction state, or its rows fault or exceed the cap |
| Durable.ExecuteSpec | src/db.rs:373-425 | Whatever a statement's outcome, it commits nothing or one whole batch, and never inside a transaction that stays open |
| Durable.ReadsAreHistoryIndependent | src/db.rs:418-424 | For a read whose rows are determined by the pages it sees and the connection's counters: any two connections, with any past, that show it the same pages answer it identically if and only if its answer does not vary with the counters |
| Durable.ReadServed | src/db.rs:418-424 | Whatever a read's rows, its answer is a function of them, with row count and last row id 0 |
| Durable.CountsExactly | src/db.rs:418-424 | Over all statement kinds: INSERT, UPDATE and DELETE report their own row count (saturating) and the latest insert's row id; any other statement reports 0 if and only if it is read-only or the connection's counter already was 0, and that counter otherwise |
| Calls.RefusedTouchesNothing | src/db.rs:380-387 | A statement that is refused (a value that cannot be bound, a statement that does not compile or is denied, a list of the wrong length, a statement SQLite will not step here) leaves the connection exactly as it was; which error each refusal is answered |
| Calls.RefusedCall | src/db.rs:214-217 | The whole call: an SQL error, and transaction, counters, history and pages as before, the deadline cleared |
| Calls.FetchedExactly | src/db.rs:386-425 | Once stepped, a statement of any kind answers the row cap, the fault, or every row in order in the requested format under the cursor's column names |
| Calls.AbortedExactly | src/db.rs:387-394 | An error met while stepping leaves nothing, a rolled-back transaction, or exactly the effect of a success, as the statement's fate was |
| Calls.CommitsExactly | src/db.rs:196-198 | A success commits exactly a write's own pages outside a transaction, all pending pages at the end of one, otherwise nothing |
| Calls.EndsExactly | src/db.rs:196-198 | Which successful statements end a transaction: COMMIT, ROLLBACK, and the RELEASE of the savepoint that opened it |
| Calls.SeenExactly | src/db.rs:196-198 | What the next statement sees after each kind of success: its own writes at once, the rollbacks' states, otherwise what was seen before |
| Calls.ServeAnswersExactly | src/db.rs:214-243 | What one call answers: the statement's error (an interrupt under a time limit called a timeout), the failed or busy checkpoint with its statistics, or the outcome unchanged |
| Calls.AnswerDelivers | src/db.rs:425 | Every successful answer, of a read or of a write with RETURNING, carries all rows and column names in the requested format |
| Discrepancies.OthersReportTheInsert | src/db.rs:124-125 | A CREATE TABLE, BEGIN IMMEDIATE or wal_checkpoint after a two-row INSERT reports a row count of 2 |
| Discrepancies.ColdStartForgetsRowid | src/db.rs:418-421 | After an INSERT is flushed, the container that served it and a restarted one show the same pages and answer `SELECT last_insert_rowid()` with 1 and 0 |
| Discrepancies.CappedReturningCommitsWithoutFlush | src/db.rs:389-394 | INSERT ... RETURNING over the row cap is answered an SQL error while its commit sits in the WAL only, in TRUNCATE mode |
| Linearizability.RunsAreSequential | src/db.rs:214-243 | Lock atomicity: for every interleaving of any number of requests, with panics, crashes and background copies, connection, poisoning and all answers are those of whole requests run one after another in lock-acquisition order; the sampled flag is always the holder's own; callers that stop waiting change none of it |
| Linearizability.TurnsAreArrivals | src/db.rs:202-217 | Every turn of that sequential execution, served, panicked or lost with the container, belongs to a request that arrived, unchanged |
| Linearizability.RunAnswersOnce | src/db.rs:214-245 | In that execution no request is answered twice, and whoever was answered stays answered |
| Linearizability.ReadsAgreeAcrossRuns | src/db.rs:418-424 | After any two histories of the shared connection that show the same pages, such a read is answered identically if and only if its answer does not vary with the counters |
| Machine.UninterruptedIsServe | src/db.rs:202-243 | The separate steps of a request add up to the one-call specification |
| Transactions.AllOrNothing | src/db.rs:196-198 | While an explicit transaction is open nothing of it is recoverable. Whatever ends it commits nothing of it or exactly its surviving writes as one batch, and then, through any later statements, partial copies and checkpoints: the first crash recovers none of that batch, or the batch is recovered whole, right after the earlier history, after that and every further event and crash |
| Transactions.AnsweredCloseIsRecovered | src/db.rs:216-243 | In a durable mode, if the request that ends a transaction is answered Ok, then after any later events and crashes a cold start recovers everything committed before the transaction and next, unless it was rolled back or empty, exactly its surviving writes as one batch |
| Transactions.RefusedInRun | src/db.rs:214-217 | In any run a refused statement is answered an SQL error and leaves the open transaction with its pending pages and savepoints, the counters and the committed history as it found them |
| Transactions.EveryOpenTxnHasAJournal | src/db.rs:196-198 | Every transaction that any run can open has such a journal, so the all-or-nothing result covers all of them |
| Transactions.OpensEmpty | src/db.rs:196-198 | BEGIN opens a transaction with nothing pending and no savepoint, an outermost SAVEPOINT one with only its own |
| Transactions.PerformAgrees | src/db.rs:196-198 | Nested SAVEPOINT, RELEASE and ROLLBACK TO on the connection agree with an undo journal of writes and marks |
| Transactions.OpenSpan | src/db.rs:196-198 | While a transaction stays open the committed history does not move and the pending pages are the journal's surviving writes |
| Storage.CheckpointIsInvisible | src/db.rs:318-327 | Every page reads the same before and after any partial, busy or complete checkpoint |
| Storage.BackfillTwice | src/db.rs:318-327 | Two partial checkpoints equal the further one: nothing is applied twice or skipped |
| Storage.VisibleIsCommitted | src/db.rs:318-327 | What readers see is the overlay of all committed batches, however many of them have been copied |
| Storage.CrashValid | src/db.rs:32-34 | Losing the container leaves exactly the durable prefix of the history |
| Engine.SqliteDb.ExecDurable | src/db.rs:202-243 | The method computes the one-call specification, and answers Internal without touching the connection when the mutex is poisoned |
| Engine.SqliteDb.RunExecWithSettings | src/db.rs:334-360 | Installs the deadline, runs, clears it on every path, and renames an interrupt to a timeout only when a timeout was installed |
| Engine.SqliteDb.RunExec | src/db.rs:373-425 | Binds, prepares, fetches under the cap and reports counters as specified, on every error path |
| Engine.SqliteDb.RunCheckpoint | src/db.rs:321-327 | Runs the pragma through the authorizer and returns its result row |
| Policy.VerdictExactly | src/db.rs:271-316 | An action is denied if and only if it is ATTACH, DETACH, or a pragma with a value whose name spells, in any letter case, neither wal_checkpoint nor one of the ten introspection names |
| Policy.AllowedCannotReconfigure | src/db.rs:271-293 | No allowed action is one by which SQLite could change the configuration or attach a database |
| Policy.PermittedKeepsConfig | src/db.rs:281-285 | A statement all of whose actions are allowed leaves the configuration unchanged, whatever the environment would make of it |
| Policy.CaseDoesNotMatter | src/db.rs:310-316 | The verdict on a pragma does not depend on the letter case of its name |
| Policy.InternalCheckpointAllowed | src/db.rs:160-162 | The durability flush is authorized in every checkpoint mode |
| Rows.FetchRows | src/db.rs:387-414 | The cursor loop succeeds exactly when the rows end cleanly within the cap, never holds more than the cap, and returns every row in order in the requested format: objects under the column names, or arrays with one value per column |
| Rows.ObjectRowMeaning | src/db.rs:396-403 | An object row has the column names as keys, each with the value at that name's last position |
| Rows.ArrayRecoverableIffDistinct | src/db.rs:104-107 | The array row can be recovered from the object row if and only if the column names are distinct |
| Values.JsonRoundTrip | src/db.rs:479-492 | Exactly which JSON values bind, and exactly which come back unchanged |
| Values.ConversionsKeepTheValue | src/db.rs:468-492 | Both conversions keep the value, booleans as 0 and 1; exactly what is sent as null |
| Values.JsonNormalisationIdempotent | src/db.rs:468-492 | Sending back what came back changes nothing more |
| Values.SqlRoundTrip | src/db.rs:468-492 | Exactly which SQLite values survive the trip to JSON and back; a real never returns as an integer |
| Values.BindParams | src/db.rs:380 | Parameters bind completely and in order, or the first unbindable one is reported |
| Http.Status200IsRecovered | src/handler.rs:178-204 | The durability theorem in status codes: a /sql request answered 200 that committed is recovered whole after any later traffic, steps, crashes and cold starts |
| Http.RejectedRequestsStutter | src/handler.rs:63-82 | Requests answered before the database, inserted anywhere in a run, change no part of the machine and no other client's reply |
| Http.ServerIsMachine | src/handler.rs:162-186 | An HTTP run drives the database exactly as the run of the requests that pass authentication, routing and parsing |
| Http.RouteExactly | src/handler.rs:63-82 | The whole response to every request answered before the database (401, health, 404, 413, unparsable 400, each with its code), and exactly which requests reach it, unchanged |
| Http.ResponseMeaning | src/handler.rs:182-204 | Over every run, for every answered /sql request, which is one that came in and was admitted: 500 with the internal code if and only if the mutex was poisoned, the worker panicked, or the statement succeeded and its checkpoint failed or was busy; 400 with the SQL code if and only if the statement itself failed on the connection as its turn found it; else 200 with what that turn produced, columns and rows |
| Http.BearerTokenExactly | src/handler.rs:102-107 | A header yields a token if and only if it is the word bearer in any letter case (section 2.1 of RFC 7235), one space, and the token |
| Http.SchemeCaseDoesNotMatter | src/handler.rs:102-107 | Two spellings of the scheme authenticate alike |
| Http.Handler.Handle | src/handler.rs:63-82 | The handler's response and its effect on the database are those specified |
| Cas.SeededLosesNothing | tests/cas_conflict.rs:169-201 | On a seeded prefix no run of any number of writers, lost responses included, loses an acknowledged history, and every published version extends all earlier ones |
| Cas.SafeExactlyWhenSeeded | tests/cas_conflict.rs:42-48 | Every run is free of lost updates if and only if a manifest was published before the first open |
| Cas.UnseededRaceLoses | tests/cas_conflict.rs:42-48 | Two writers racing on a brand-new prefix both succeed and the second erases the first |
| Cas.StaleCheckpointFails | tests/cas_conflict.rs:195-201 | A checkpoint succeeds if and only if its writer saw the latest version; a stale one publishes nothing and is not acknowledged |
| Cas.CurrentWriterPublishes | tests/cas_conflict.rs:189-193 | A writer that opens the prefix and is not overtaken publishes what it found and each of its commits in order, checkpoint after checkpoint |
| Cas.LostResponseIsNotRetried | tests/cas_conflict.rs:195-201 | A PUT accepted while its writer sees a failure is not acknowledged, and whatever all writers do next, every retry is refused until that writer opens the prefix again |
| Fleet.FleetKeepsAcknowledged | tests/cas_conflict.rs:169-201 | Any number of whole instances (requests, panics, background copies, restarts) over one seeded manifest (TRUNCATE, or rollback journal), with refused PUTs and lost responses: whatever any of them acknowledged was answered Ok and is a prefix of the manifest then and of every later version |
| Fleet.PutDecidesTheAnswer | src/db.rs:221-239 | A request at its gate with something to flush is answered Ok if and only if its instance's tag is current and the response arrives; else it gets a checkpoint error and nothing is acknowledged. The manifest gains exactly the committed history if and only if the tag was current |
| Fleet.BootReadsTheManifest | tests/cas_conflict.rs:181-187 | An instance that starts sees the current manifest and nothing else, and remembers its tag |
| Fleet.FleetStepInv | tests/cas_conflict.rs:189-201 | Every step of every instance keeps the chain of versions, each instance's own invariant, and that its durable history is a published version |
| Cas.SecondCommitFails | tests/cas_conflict.rs:166-201 | Seed, two writers, two commits: the first checkpoint succeeds, the second fails, and the manifest holds the first |
| Cas.Instance.Checkpoint | tests/cas_conflict.rs:191-197 | Succeeds and adopts the new tag exactly when its tag is current; otherwise changes nothing |
| LoadTest.BudgetIsConserved | scripts/loadtest_rustyhip.py:169-196 | For every interleaving of any number of workers: remaining budget, requests in flight and recorded samples add up to the maximum, so the cap holds |
| LoadTest.EveryScheduleEnds | scripts/loadtest_rustyhip.py:169-175 | No schedule is longer than twice the budget plus the number of workers: every worker stops |
| LoadTest.WholeBudgetIsUsed | scripts/loadtest_rustyhip.py:169-175 | If the deadline never passes and there is a worker, exactly the maximum number of requests is recorded |
| LoadTest.SamplesAreResponses | scripts/loadtest_rustyhip.py:178-196 | Every recorded sample is one worker's response: its operation is the one picked by that worker's previous turn, its latency, status and code those that came back |
| LoadTest.PickOpExactly | scripts/loadtest_rustyhip.py:178-194 | A roll below the write ratio inserts; the rest is halved between the two reads |
| LoadTest.EventLoop.Resume | scripts/loadtest_rustyhip.py:169-196 | One worker from one await to the next takes exactly the specified turn |
| LoadTest.EventLoop.Gather | scripts/loadtest_rustyhip.py:269-286 | Resuming workers in any order yields the specified run |
| Percentile.ImplementationsAgree | examples/bench.rs:89-103 | The load tester's percentile of any list is the benchmark's of any sorted arrangement of it |
| Percentile.PercentileIs | scripts/loadtest_rustyhip.py:88-100 | Both implementations give, between the two neighbours whose own percentages enclose the one asked for, the value proportionally between theirs |
| Percentile.PercentileIsUnique | scripts/loadtest_rustyhip.py:88-100 | That determines the value |
| Percentile.NotablePercentiles | scripts/loadtest_rustyhip.py:88-100 | 0 gives the least sample, 100 the largest, 50 of an odd number the middle one |
| Percentile.OrderIndependent | scripts/loadtest_rustyhip.py:88-100 | The order of the samples does not matter |
| Percentile.WithinRange | scripts/loadtest_rustyhip.py:88-100 | The result lies between two of the samples |
| Percentile.MonotoneInPct | scripts/loadtest_rustyhip.py:88-100 | Monotone in the percentage, also across interpolation segments |
| Report.GroupSpec | scripts/loadtest_rustyhip.py:199-202 | Grouping loses, repeats and misfiles nothing; the group sizes add up to the number of samples |
| Report.HistogramSpec | scripts/loadtest_rustyhip.py:208-209 | Every error is counted once under its own code, the missing code included; the counts add up |
| Report.StatsSpec | scripts/loadtest_rustyhip.py:204-225 | The counts are those of the samples with and without status 200, the codes account for the errors, the rates are the counts' quotients, and the latencies, present exactly if something succeeded, are the stated percentiles, mean and maximum of the successes, ascending; all as rounded |
| Report.SuccessfulIs | scripts/loadtest_rustyhip.py:206 | The latencies used are those of exactly the samples with status 200, in order |
| Report.NearestSpec | scripts/loadtest_rustyhip.py:212-222 | Rounding goes to the nearest, a tie to the even one, and keeps the order |
| Report.RanksFollowNames | scripts/loadtest_rustyhip.py:231 | Operations are sorted by their names, character by character |
| Report.Summarize | scripts/loadtest_rustyhip.py:199-232 | Exactly the operations that have samples, in alphabetical order, each with the statistics of exactly its own samples in order; the counts add up to the total, and the rounded rates to the rounded total rate within half a hundredth for each |
| Redaction.SecretsDoNotInterfere | src/logging.rs:106-132 | At the same timestamp, events that differ only in values of sensitive fields give the same output |
| Redaction.SensitiveKeysAreRedacted | src/logging.rs:120-128 | Every output key that is sensitive holds the marker, however often it was recorded |
| Redaction.SensitiveInAnyCase | src/logging.rs:82-86 | A name is sensitive if and only if some stretch of it spells a denylisted word in any mixture of letter cases |
| Redaction.SensitiveExactly | src/logging.rs:71-72 | The denylisted words, written out |
| Redaction.OwnKeysAreNotSensitive | src/logging.rs:110-122 | None of the formatter's own keys, nor the message field, is caught by the denylist |
| Redaction.OutputExactly | src/logging.rs:106-144 | The whole output, key by key: its keys are the formatter's own five and those the fields write, a message under event; a key written by fields shows the last of them (the marker if sensitive, else the value as JSON carries it), every other the timestamp, level name, target, service or environment |
| Redaction.FormatEvent | src/logging.rs:106-132 | The visitor and the inserting loop compute the specified object |

## Left out

- CrashSafety.DurabilityExactly: makes no claim for FULL and RESTART, whose completed checkpoints the environment contract leaves open.
- Engine.SqliteDb.ExecDurable: returns normally; worker panics, poisoning and interleaving are in the machine, not in the method. Its call of `AutoCheckpoint` marks where SQLite's own checkpoint may have run.
- Redaction.FormatEvent: returns the object; its JSON text and the line written are not modelled, and the timestamp is an argument.
- Percentile.ImplementationsAgree: over exact reals; floating-point rounding is not modelled.
- Report.Summarize: over exact reals, rounded half to even as `round` does; floating-point error is not modelled.
- Values.JsonRoundTrip: an integer above the 64-bit signed range becomes the real of the same value; rounding to a double is not modelled.
- SQLite's parser, planner and page format, and turbolite's tiering, compression and S3 client: reached only through the contract above.
- Lambda bootstrap, environment reading, VFS registration and `apply_pragmas`: the model starts from the configuration the connection has after open.
- In release builds a worker panic aborts the process (Cargo.toml:68-72): in the model that run is a crash; the poisoned mutex is the development build's.
- Journal modes OFF and MEMORY: their behaviour in a crash is SQLite's alone.
- JSON text, request ids, messages inside error bodies, log lines, and the timing of token comparison.
- The load tester's HTTP client, its setup and teardown, template generation and the benchmark driver: input and output only.
