# University Helper: shared state, time bounds and storage, proved

This project models the parts of University Helper where several threads,
processes or event-loop handlers share mutable state, and where loops run
against a deadline. It states what the code promises there and proves it for
every run, interleaving or input. `dafny verify dfyconfig.toml` checks all of it.

Each protocol is modelled twice. A function `Step` on an immutable state is one
atomic step: a lock-held block, a call made outside a lock, a statement sent to
the database, or the code of a handler between two awaits. A run is any
sequence of steps by any threads with any answers of the environment, so the
theorems quantify over all interleavings, failures and crashes. A class holds
the same fields as the source and its methods are the source's loops and
updates, proved against the functions that the steps use or against the
property itself.

| module | what it models |
|---|---|
| `TenantPools` | the LRU map of reference-counted tenant pools and `get_db_session` |
| `Timestamps` | event times as SQLite compares them (text) and as PostgreSQL does (instants) |
| `Listing` | sorted, limited selection over a strict total order |
| `HistoryStore` | the bounded history of both stores against the untrimmed log |
| `SqliteConnection` | the one SQLite connection, its two locks, three flags and transactions |
| `DeadlineLoops` | the status-line probe, the bounded write and the readiness loop of the desktop shell |
| `StartupArbiter` | the race of watchdog, event reader, readiness task and main-thread callback |
| `Bootstrap` | repair of the schema and of the tenant template under the advisory lock |
| `Registration` | the two-step registration with retry and compensation |
| `QrSessions` | QR login sessions, their workers and the adapters they install |
| `MemoryLimiter`, `DatabaseLimiter` | the two window algorithms of the rate limiter |
| `Metrics` | the capped request counter against an exact histogram |
| `Credentials`, `TaskTable` | field encryption over an abstract cipher, and the task table behind it |
| `FiniteSets`, `Wrappers` | sizes and extremes of finite sets; an option type |

The step functions and what each models: `TenantPools.Step`
(`session.py:147-283`, one case per lock hold or pool call),
`SqliteConnection.Advance` (`sqlite.py:25-201, 290-347, 433-449`),
`StartupArbiter.StepWatchdog`, `StepReader`, `StepReadiness` and `StepCallback`
(`lib.rs:201-307, 496-623`), `Bootstrap.Advance` (`bootstrap.py:93-204`),
`Registration.Advance` (`auth_service.py:97-171, 264-290`), `QrSessions.Step`
(`course.py:169-192, 363-402, 526-605, 631-652, 680-693`).

## What the proofs found

Where a promised property does not hold of the code as it is, the model keeps
the code, shows a run or input that breaks it, and proves exactly when it does hold.

- A registration that succeeded can lose its database. `auth_service.py:286`
  deletes the row of a failed registration before `:287` drops the database; in
  between the name is free again, and a new registration of it can finish before
  the old one's drop arrives. `LostFromTheStart` gives the run of six statements
  from an empty server. Success is safe exactly when no such compensation of the
  same name is pending at the insert (`SuccessKeepsDatabaseExactlyWhen`).
- A registration whose insert commits but whose answer is lost is not
  compensated: `register_user` leaves before its `try` block. The row stays and
  keeps the name taken for ever (`InsertAnswerLost`, `OrphanRowStays`); `FailureLeavesNothingExactlyWhen`
  says exactly which failures leave nothing.
- Logging out of Zhihuishu removes the adapter before it cancels the user's QR
  sessions (`course.py:691-693`), so a worker that ends in between installs an
  adapter again; `OvertakenFromTheStart` gives the run. Logout is final exactly
  when the user has no session waiting for its scan.
- A process of `bootstrap_once` can answer "ok" without a template schema:
  exactly when it finds no SQL files next to a users table and an unflagged,
  empty template (`OkMeansSchema`). `OkWithoutSchema` reaches that answer after
  another process died behind its CREATE. `status_label` does not look at the
  schema, although the module's documentation says registration depends on it.
- If applying the template's schema raises after the script committed,
  `bootstrap.py:171` drops a template that has its schema (`SchemaDropped`). A
  schema is there to stay exactly when it is there and the lock holder is not
  about to drop it; one seen while the lock is free stays
  (`SchemaStaysExactlyWhen`).
- Cleanup of the in-memory limiter is visible for a limit below one: a client
  whose expired entry is kept gets through, one whose entry was swept does not.
- SQLite orders event times as text. Among times of one offset that is time
  order; for any two different offsets some pair of times is listed the wrong
  way round, or, if the offsets are one microsecond apart, is at the same instant
  yet ordered (`Misordered`, `MixableOffsets`). `_parse_datetime` keeps whatever
  offset a client sends, and `append_history` stores it.
- A payload with a sensitive string that already starts with `fernet:` comes
  back changed when the string opens to something else
  (`PrefixedComesBackOpened`), or when it breaks decryption of a level in which
  another secret was encrypted; a payload with a secret that cannot be encrypted
  loses it (`UnencryptableIsDropped`). `Returns` is the exact condition.

## Model

| member | source | states |
|---|---|---|
| `TenantPools.ReferencesAreExact` | backend/app/db/session.py:56-62 | In every interleaving of checkouts, `getconn`, `putconn`, releases and evictions, each entry's `in_use` is the number of threads holding a reference, a held entry is the map's entry for its name, and `closeall` never ran on it |
| `TenantPools.DefencesNeverFire` | backend/app/db/session.py:177-218 | The entry a release looks up is the one the thread holds, `current is entry` always succeeds and the clamped decrement subtracts exactly one |
| `TenantPools.EvictsLeastRecent` | backend/app/db/session.py:125-166 | Making room removes idle entries only, each checked out less recently than every idle entry that stays, closes them, stops as soon as there is room, and gives up only when everything left is busy |
| `TenantPools.SizeBound` | backend/app/db/session.py:155-168 | Over every run, failed pool builds included, the map holds at most the cap, or the largest number of references held at one time |
| `TenantPools.BusyMap` | backend/app/db/session.py:128-131 | A map whose every entry is busy has at least as many holders as entries, which is why overflow is bounded by the holders |
| `TenantPools.CheckoutEffect` | backend/app/db/session.py:155-168 | One lock hold raises the count of exactly the entry it returns, which is then the map's entry for the name; it fails exactly when the name is new and the pool builder raises |
| `TenantPools.StepKeeps` | backend/app/db/session.py:147-218 | Every lock-held block and every unlocked pool call keeps counts, liveness of references and the rule that map order is the order of last checkouts |
| `TenantPools.BodyConnectionIsFresh` | backend/app/db/session.py:266-273 | In every interleaving a body runs on a connection found open at the first checkout, or on the second one after a first was found closed |
| `TenantPools.ClosedIsReplaced` | backend/app/db/session.py:267-270 | A thread handed a closed connection returns it in its next three steps and then checks out again, whatever others do |
| `TenantPools.SecondIsLast` | backend/app/db/session.py:270-273 | The second checkout leads to the second `getconn`, and that to the body exactly when it returns |
| `TenantPools.FailedBuild` | backend/app/db/session.py:157-164 | A pool builder that raises leaves the thread without a session and the map with the evictions made and nothing added |
| `TenantPools.PoolMap.constructor` | backend/app/db/session.py:61-63 | The map is empty and its cap is 100 |
| `TenantPools.PoolMap.EvictIdle` | backend/app/db/session.py:125-144 | The walk over the items removes the oldest idle one, or nothing if all are busy |
| `TenantPools.PoolMap.CheckoutLocked` | backend/app/db/session.py:155-168 | The lock-held block with its eviction loop equals the checkout the invariants are proved about |
| `TenantPools.PoolMap.CheckoutTenant` | backend/app/db/session.py:147-181 | When `getconn` raises, every count is as before; otherwise one entry has one reference more |
| `TenantPools.PoolMap.ReleaseTenant` | backend/app/db/session.py:184-218 | Gives the connection back once (recycled, discarded, or closed directly when the pool refuses it or the name is unknown) and drops one reference of the looked-up entry |
| `TenantPools.PoolMap.OpenSession` | backend/app/db/session.py:266-270 | A session is entered with exactly one connection in hand; one found closed is given up, to its pool or directly, and replaced once; a failing second checkout leaves no reference behind |
| `TenantPools.PoolMap.GetDbSession` | backend/app/db/session.py:256-283 | On every path, a body left by something other than an exception included, each reference count on exit is the count on entry, every connection obtained went back or was closed, a second one was obtained exactly when the first was closed, commit is attempted exactly when the body returned, rollback exactly when body or commit raised, and a connection is recycled unless it raised and is broken |
| `Timestamps.TextOrderIsTimeOrder` | backend/app/storage/sqlite.py:21-22 | For all aware datetimes with one offset, UTC in particular, the order of the `isoformat` texts is the order of the instants and equal texts mean equal instants, although zero microseconds are left out |
| `Timestamps.IsoOrder` | backend/app/storage/base.py:67-71 | The text comparison is the comparison of date, clock and microseconds field by field, offset last |
| `Timestamps.LocalOrder` | backend/app/storage/base.py:48-64 | Field order of local times is their order in microseconds over the whole Gregorian range, leap years included |
| `Timestamps.IsoReads` | backend/app/storage/sqlite.py:21-22 | The stored text is year, month, day, a `T` and a clock text, each field read back at its place |
| `Timestamps.ClockReads` | backend/app/storage/sqlite.py:21-22 | The clock text is hour, minute, second, the fraction if there is one, and the offset |
| `Timestamps.FractionReads` | backend/app/storage/sqlite.py:21-22 | Zero microseconds are left out, others are a point and six digits |
| `Timestamps.SuffixReads` | backend/app/storage/base.py:71-71 | An offset of whole minutes is a sign, hours and minutes; UTC is +00:00 |
| `Timestamps.YearsClosed` | backend/app/storage/base.py:48-64 | The days before a year are those of the Gregorian calendar in closed form |
| `Timestamps.MonthsClosed` | backend/app/storage/base.py:48-64 | The days before a month are those of the Gregorian calendar, leap years included |
| `Timestamps.Misordered` | backend/app/storage/base.py:63-63 | For any two different offsets a concrete pair of times whose text order is not its time order: strictly reversed, or at one instant when the offsets are one microsecond apart |
| `Timestamps.MixableOffsets` | backend/app/storage/sqlite.py:322-322 | Two offsets can share one text column without disorder if and only if they are equal |
| `HistoryStore.TrimmingIsInvisible` | backend/app/storage/sqlite.py:290-399 | After any calls of `append_history` with any kinds, users, times and keep sizes, a listing that asks for no more rows than every append kept is the listing of the untrimmed log by event time then insertion order, for one user or all, in both stores |
| `HistoryStore.LogListsNewest` | backend/app/storage/sqlite.py:363-399 | A listing shows the payloads of the calls with the latest instants, later calls first among equals, newest first; what is left out for want of room is older than everything shown (PostgreSQL, or one offset) |
| `HistoryStore.AppendKeepsNewest` | backend/app/storage/sqlite.py:326-339 | A trim keeps as many calls of its kind and user as its keep size allows, each newer than every one it drops, and all of the others (PostgreSQL, or one offset) |
| `HistoryStore.NewestAreNewest` | backend/app/storage/postgres.py:310-320 | Selecting by the listing order selects by instant and then by place among the calls |
| `HistoryStore.IdsFollowInsertion` | backend/app/storage/sqlite.py:109-122 | Ids of surviving rows are ordered as their rows were appended, although SQLite hands out the id of a trimmed newest row again |
| `HistoryStore.HistoryIsBounded` | backend/app/storage/sqlite.py:326-339 | No more rows of one kind and user than the largest keep size |
| `HistoryStore.TrimBounds` | backend/app/storage/postgres.py:310-329 | An append leaves at most its keep size of its own kind and user and does not touch any other rows |
| `HistoryStore.AppendCovers` | backend/app/storage/sqlite.py:311-339 | One append keeps every row that some listing of up to `keep` rows can show |
| `HistoryStore.TrimInLog` | backend/app/storage/postgres.py:310-329 | Exactly which places of the untrimmed log survive a trim |
| `HistoryStore.SameSurvivors` | backend/app/storage/postgres.py:272-329 | With one offset the two stores keep the same rows after the same calls |
| `HistoryStore.StoresAgree` | backend/app/storage/postgres.py:338-394 | With one offset the two stores answer every listing alike, whatever its limit and whatever was trimmed |
| `HistoryStore.OrdersCoincide` | backend/app/storage/sqlite.py:369-369 | With one offset SQLite's text order and PostgreSQL's timestamp order list the same rows in the same order |
| `HistoryStore.ListingOrderTotal` | backend/app/storage/sqlite.py:334-335 | `event_time DESC, id DESC` is a strict total order of the rows in both stores |
| `Listing.SelectIsTop` | backend/app/storage/sqlite.py:366-370 | `ORDER BY ... LIMIT n` returns no row twice, in order, as many as there are up to n, and everything left out comes later |
| `Listing.SelectSandwich` | backend/app/storage/sqlite.py:331-336 | Rows outside the first n may be missing without changing the first n |
| `Listing.SelectRenamed` | backend/app/storage/sqlite.py:334-335 | A selection depends on how rows compare and not on which ids they carry |
| `HistoryStore.History.AppendHistory` | backend/app/storage/sqlite.py:290-347 | The table is that of the calls so far, one call longer; ids stand for calls in their order; the trim keeps the newest; rejected calls change nothing |
| `HistoryStore.History.ListHistory` | backend/app/storage/sqlite.py:349-399 | Returns the listing; if it asks for no more than every append kept, the listing of the untrimmed log, which shows the newest calls, newest first |
| `SqliteConnection.ConnectionDiscipline` | backend/app/storage/sqlite.py:25-59 | In every interleaving each execute, commit or rollback happens under the write lock on an open connection, `close` is called at most once, and while nobody holds the lock no transaction is open |
| `SqliteConnection.WritesAreAtomic` | backend/app/storage/sqlite.py:161-201 | What is durable is a sequence of whole writes, none twice; a write that reported failure has left nothing, and no later commit adds it |
| `SqliteConnection.NeverUsableAgain` | backend/app/storage/sqlite.py:34-49 | A store that became unusable stays unusable |
| `SqliteConnection.NoDeadlock` | backend/app/storage/sqlite.py:75-81 | While any thread is inside an operation some such thread is not blocked: the init and write locks cannot deadlock |
| `SqliteConnection.UndisturbedWriteCommits` | backend/app/storage/sqlite.py:302-340 | After any run that left the store usable and the locks free, a write whose calls return commits all its statements at the end of what is durable, in exactly its size plus eight steps, or plus eighteen with the tables to create |
| `SqliteConnection.OperationAlone` | backend/app/storage/sqlite.py:70-201 | Each operation by itself takes exactly its steps and has exactly its effect: a write commits, a close closes, a ping changes nothing, a read or a write creates missing tables first |
| `SqliteConnection.TablesAreCreatedOnce` | backend/app/storage/sqlite.py:75-142 | In every interleaving the tables are created at most once, and `_initialized` is up exactly if they were and the store is usable |
| `SqliteConnection.UnusableExactlyWhen` | backend/app/storage/sqlite.py:34-59 | A store is unusable if and only if it was closed or a rollback raised |
| `SqliteConnection.UnusableReturnsAtOnce` | backend/app/storage/sqlite.py:145-146 | On an unusable store an operation ends without waiting for a lock |
| `SqliteConnection.AdvanceOk` | backend/app/storage/sqlite.py:51-59 | A step outside the write lock leaves the database alone; a step under it keeps the transaction bookkeeping and gives the lock back with no transaction open |
| `SqliteConnection.StepKeepsFates` | backend/app/storage/sqlite.py:192-201 | Every write is with exactly one thread, or committed once, or failed |
| `SqliteConnection.TaskStore.CloseConnectionLocked` | backend/app/storage/sqlite.py:34-44 | Afterwards the store is unusable and its connection closed exactly once, committed writes stay and an open transaction is gone |
| `SqliteConnection.TaskStore.Rollback` | backend/app/storage/sqlite.py:51-59 | No transaction stays open and committed writes stay; a rollback that raises closes the store |
| `SqliteConnection.TaskStore.WriteLocked` | backend/app/storage/sqlite.py:305-345 | A failure at any call leaves nothing durable and no open transaction; the store stays usable unless the rollback failed |
| `DeadlineLoops.PrefixDecides` | frontend/src-tauri/src/lib.rs:365-370 | An accepted prefix settles the stream, an impossible prefix settles it the other way, and thirteen bytes always settle it |
| `DeadlineLoops.StatusLines` | frontend/src-tauri/src/lib.rs:317-319 | The two accepted status lines, byte by byte |
| `DeadlineLoops.ProbeStatus` | frontend/src-tauri/src/lib.rs:392-416 | However the stream is cut into reads, unless the turn the loop stopped at ran out of time or failed the verdict is whether the stream starts with an accepted status line; a positive verdict always comes before the deadline; every timeout is the budget left or its cap; at most thirteen reads, and the buffer never fills undecided |
| `DeadlineLoops.ReadInto` | frontend/src-tauri/src/lib.rs:402-406 | A read delivers the next bytes of the stream behind those received, none only at its end |
| `DeadlineLoops.WriteAllBeforeDeadline` | frontend/src-tauri/src/lib.rs:333-363 | A prefix of the request is written whatever the sink does; true exactly when all is written before the deadline, that is, exactly when no round made failed or took nothing and time is left after the last; every timeout fits the remaining budget; at most one round per byte |
| `DeadlineLoops.WaitForBackendReady` | frontend/src-tauri/src/lib.rs:419-453 | True exactly if in the first round in which `/health` and `/` both succeed they do so before the deadline; false only once the deadline came, which is looked at before each round, between its probes and after them; each sleep is the budget left or the retry delay; the loop ends when sleeping moves the clock |
| `StartupArbiter.OneOutcome` | frontend/src-tauri/src/lib.rs:496-623 | In every interleaving of watchdog, event reader, readiness task and main-thread callback at most one branch claims, only its effect runs and at most once, a window appears only if its callback saw the deadline ahead, and a finished watchdog leaves exactly one claim |
| `StartupArbiter.FirstComerWins` | frontend/src-tauri/src/lib.rs:212-221 | Whoever reaches an open flag first claims and its effect is the only one to run; whoever finds it set changes nothing |
| `StartupArbiter.OutcomeIsFinal` | frontend/src-tauri/src/lib.rs:40-54 | Once made, the claim never changes |
| `StartupArbiter.DeadlineSettles` | frontend/src-tauri/src/lib.rs:295-306 | From the deadline on, five steps of the watchdog settle the start wherever everybody stands |
| `StartupArbiter.WindowOpens` | frontend/src-tauri/src/lib.rs:223-275 | A backend found ready in time: in every interleaving the callback ends with the outcome settled, and if it read the clock in time and no other branch claimed, the window is the outcome and its effect ran |
| `StartupArbiter.HealthyStart` | frontend/src-tauri/src/lib.rs:523-602 | From the reader's first marker on, in every interleaving: a probe that succeeds, a scheduling and a look at the clock in time end with the outcome settled, and with the window and its effect if no other branch claimed |
| `StartupArbiter.WindowFromTheStart` | frontend/src-tauri/src/lib.rs:516-614 | From the start: the marker, a successful probe and a look before the deadline end in the window and nothing else |
| `StartupArbiter.MarkerStartsReadiness` | frontend/src-tauri/src/lib.rs:531-543 | Once the reader has handled a first marker with the flag open, the readiness task runs |
| `StartupArbiter.OutcomeHasItsCause` | frontend/src-tauri/src/lib.rs:496-623 | In every interleaving a timeout or a late callback is claimed only from the deadline on, a window only by a callback queued before it, and the other pages only after the failure, closed output, failed probe or refused callback they report |
| `StartupArbiter.ActorSettles` | frontend/src-tauri/src/lib.rs:201-307 | In every interleaving an actor that has its reason settles the start, or hands it to the callback, within its next three steps |
| `StartupArbiter.FailureSettles` | frontend/src-tauri/src/lib.rs:595-622 | After a failure or the end of the output two further steps of the reader settle the start |
| `StartupArbiter.MovesBalance` | frontend/src-tauri/src/lib.rs:212-221 | Claims are the effects that ran plus the one still owed by the branch that won |
| `StartupArbiter.StartupCompletion.TryComplete` | frontend/src-tauri/src/lib.rs:45-49 | The flag is set and only the first caller wins |
| `StartupArbiter.StartupCompletion.RunStartupWatchdog` | frontend/src-tauri/src/lib.rs:284-307 | The loop ends with the start settled, by the watchdog only from the deadline on and only if nobody was first; no sleep exceeds the poll interval or the deadline |
| `Bootstrap.RepairIsSafe` | backend/app/db/bootstrap.py:144-204 | With any number of processes, each dying between any two statements and each statement raising with or without having taken effect: a flagged template always has its schema, and a process that ends after repairing ends with "ok", the users table and a schema nobody is about to drop |
| `Bootstrap.LaterRunRepairs` | backend/app/db/bootstrap.py:188-204 | From whatever crashed and failed runs left, once the lock is free a crash-free run that finds the SQL files ends within twelve statements with "ok", the users table and the schema, in the state the whole function promises, and running again changes nothing |
| `Bootstrap.DropsOnlyOwn` | backend/app/db/bootstrap.py:167-172 | A template disappears only by a process that created that very database in the same lock hold and saw its schema script raise; it was never flagged, and it has a schema exactly if the script took effect all the same |
| `Bootstrap.DropperCreated` | backend/app/db/bootstrap.py:161-171 | A process about to apply or drop as creator has held the lock without a break since its CREATE |
| `Bootstrap.DropCause` | backend/app/db/bootstrap.py:167-172 | A process about to drop saw its own schema script raise, and the template has a schema exactly if the script took effect |
| `Bootstrap.RepairIsPermanent` | backend/app/db/bootstrap.py:136-183 | The users table, once there, stays, and so does the template's schema unless its creator is about to drop it |
| `Bootstrap.SchemaStaysExactlyWhen` | backend/app/db/bootstrap.py:166-172 | A schema survives every continuation if and only if it is there and the lock holder is not about to drop it |
| `Bootstrap.SchemaDropped` | backend/app/db/bootstrap.py:167-172 | The run from a bare server in which a committed schema is dropped |
| `Bootstrap.AdvanceOk` | backend/app/db/bootstrap.py:154-184 | One statement keeps flagged-implies-schema and touches the template only under the advisory lock |
| `Bootstrap.BootstrapRepairs` | backend/app/db/bootstrap.py:188-204 | With the SQL files the function as a whole ends with everything there and a second run changes nothing; `LaterRunRepairs` ties it to the statements |
| `Bootstrap.OkMeansSchema` | backend/app/db/bootstrap.py:118-123 | In every interleaving an answer "ok" leaves a template with its schema exactly unless it was given without SQL files while the template was unflagged and empty |
| `Bootstrap.OkWithoutSchema` | backend/app/db/bootstrap.py:192-199 | The run from a bare server that ends with "ok" and an empty template |
| `Bootstrap.LabelsNameWhatIsMissing` | backend/app/db/bootstrap.py:118-123 | In every interleaving an answer without repair is "missing_users" exactly if the first check found no users table, and "missing_tenant_template" exactly if it did and the template is missing |
| `Bootstrap.Server.EnsureTenantTemplate` | backend/app/db/bootstrap.py:144-185 | A run of the statements, whatever each answers: lock, row, CREATE, probe, schema, DROP, ALTER, unlock. On return the schema is there; an existing template and its schema survive whatever raises; when all return it ends repaired |
| `Bootstrap.Server.EnsureUnderLock` | backend/app/db/bootstrap.py:158-182 | The part between lock and unlock is a run of the statements and keeps flagged-implies-schema |
| `Bootstrap.Server.ApplyOrDrop` | backend/app/db/bootstrap.py:166-172 | Applies the schema; when that raises only a template just created is dropped |
| `Bootstrap.Server.BootstrapOnce` | backend/app/db/bootstrap.py:188-204 | A run of the statements, whatever each answers, raising exits included; an answer after repairing means the users table and the schema; when all return it is the function as a whole |
| `Bootstrap.Server.Repair` | backend/app/db/bootstrap.py:200-203 | The two repairs, each if its check asked for it, are a run of the statements |
| `Registration.OrphanDropIsSafe` | backend/app/services/auth_service.py:135-142 | In every interleaving, with crashes and lost answers, the DROP on the duplicate-database path never removes a database of another live user: the dropper's row is the only one of that name |
| `Registration.FailureLeavesNothing` | backend/app/services/auth_service.py:280-288 | In every interleaving, with crashes and lost answers, a registration that failed at an insert without effect, or whose two compensating statements took effect, has no row and no database; a succeeded one has its row |
| `Registration.FailureLeavesNothingExactlyWhen` | backend/app/services/auth_service.py:274-288 | A failure at the insert leaves nothing if and only if the name was taken or the insert had no effect; one after compensation if and only if the row went and the drop took effect or no database of its own was there |
| `Registration.NothingComesBack` | backend/app/services/auth_service.py:280-288 | Where a failure left nothing, nothing of it comes back |
| `Registration.OrphanRowStays` | backend/app/services/auth_service.py:274-274 | The row of a failed registration stays and keeps its name taken in every continuation |
| `Registration.InsertAnswerLost` | backend/app/services/auth_service.py:274-274 | The run of one statement from an empty server that leaves such a row |
| `Registration.CreateAnswerLost` | backend/app/services/auth_service.py:135-135 | A CREATE that raised after it took effect leaves a database and leads to compensation |
| `Registration.SuccessKeepsDatabaseExactlyWhen` | backend/app/services/auth_service.py:286-287 | A registration keeps the database it succeeds with, in every continuation, if and only if at its insert no other registration of the name stands between deleting its row and dropping its database |
| `Registration.DatabaseLost` | backend/app/services/auth_service.py:286-287 | From any state where an older compensation is pending, the continuation in which it drops the database of a newer success |
| `Registration.PendingFromTheStart` | backend/app/services/auth_service.py:280-287 | The run of three statements from an empty server that reaches such a state with the name free |
| `Registration.LostFromTheStart` | backend/app/services/auth_service.py:286-287 | The run of six statements from an empty server after which a successful registration has its row and no database |
| `Registration.StaysSecure` | backend/app/services/auth_service.py:97-171 | A registration that owns its name with no such compensation pending stays so under steps of all others |
| `Registration.RegistrationEnds` | backend/app/services/auth_service.py:127-171 | Whatever PostgreSQL answers, a registration ends within twenty-one statements of its own |
| `Registration.FifthBusyGivesUp` | backend/app/services/auth_service.py:145-150 | In every interleaving a busy template makes a registration give up exactly if it is the fifth it met, and retry exactly if it is an earlier one |
| `Registration.OnlyBusy` | backend/app/services/auth_service.py:77-79 | An attempt sequence that follows the policy and gives up after nothing but busy templates has met exactly five |
| `Registration.AuthService.CreateOnce` | backend/app/services/auth_service.py:131-142 | A run of the statements, whatever each answers; succeeds exactly when CREATE does, or when an orphan was there, was dropped, and the second CREATE succeeds; no other name is touched |
| `Registration.AuthService.CreateTenantDatabase` | backend/app/services/auth_service.py:97-171 | A run of the statements, whatever each answers, whose attempts follow the policy: retry after a busy template four times and after a healed one once, give up at the fifth, at a template that cannot be healed or is missing again, and at any other error; on success the database is this registration's |
| `Registration.AuthService.RegisterUser` | backend/app/services/auth_service.py:264-290 | A run of the statements, whatever each answers; success adds the row and its database; attempts follow the policy, so that giving up after nothing but busy templates takes five; each compensating statement undoes its part exactly if it took effect, a lost insert leaves its row, a taken name changes nothing |
| `Registration.AuthService.Provision` | backend/app/services/auth_service.py:278-288 | The `try` block and its compensation are a run of the statements with that policy |
| `Registration.AuthService.RollBack` | backend/app/services/auth_service.py:286-287 | Deletes the row, then drops the database, each exactly if its statement took effect |
| `QrSessions.OneSessionPerUser` | backend/app/api/v1/course.py:526-549 | In every interleaving of handlers and workers, inside handlers too, a user has at most one registered session |
| `QrSessions.PoppedIsInert` | backend/app/api/v1/course.py:551-581 | Once a session is popped it never comes back and no later step of its worker or callback changes sessions or adapters |
| `QrSessions.StaleNeverReplaces` | backend/app/api/v1/course.py:648-650 | No session that existed when a password login began its final part can later replace the adapter it installs |
| `QrSessions.LogoutIsFinalExactlyWhen` | backend/app/api/v1/course.py:691-693 | Logout leaves no adapter, whatever workers do meanwhile, if and only if the user has no session still waiting for its scan |
| `QrSessions.LogoutOvertaken` | backend/app/api/v1/course.py:691-693 | From any free state with a running session, the continuation in which its worker installs an adapter between the two halves of a logout |
| `QrSessions.WaitingFromTheStart` | backend/app/api/v1/course.py:526-584 | The run of one QR start that reaches a session waiting for its scan with the event loop free |
| `QrSessions.OvertakenFromTheStart` | backend/app/api/v1/course.py:691-693 | From there a logout that ends with the user holding the adapter of that session |
| `QrSessions.FloorRises` | backend/app/api/v1/course.py:648-650 | The bound below which sessions are stale never falls |
| `QrSessions.HandlerEffects` | backend/app/api/v1/course.py:526-652 | From every reachable state with the loop free each handler, left alone, has exactly its effect on sessions and adapters |
| `QrSessions.WorkerEffects` | backend/app/api/v1/course.py:561-581 | A worker's end gives a registered session its outcome and on success its user the adapter, and changes nothing else |
| `QrSessions.CallbackShowsQr` | backend/app/api/v1/course.py:551-559 | A callback shows the QR code of its own session, if registered, and changes nothing else |
| `QrSessions.AdaptersComeFromSuccess` | backend/app/api/v1/course.py:567-573 | In every interleaving an adapter from a session that is still registered belongs to its user and the session succeeded |
| `QrSessions.Registries.CancelQrSessions` | backend/app/api/v1/course.py:169-179 | Exactly the named sessions are gone |
| `QrSessions.Registries.CancelQrSessionsForUser` | backend/app/api/v1/course.py:182-185 | Exactly the user's sessions are gone |
| `QrSessions.Registries.StartQrLogin` | backend/app/api/v1/course.py:526-589 | The user has exactly the new session, or none if its worker could not start; other users' sessions are as before |
| `QrSessions.Registries.ShowQr` | backend/app/api/v1/course.py:551-559 | A registered session gets its QR code; a popped one changes nothing |
| `QrSessions.Registries.LoginWorkerEnds` | backend/app/api/v1/course.py:561-581 | A registered session gets its outcome and on success its adapter; a popped one changes nothing |
| `QrSessions.Registries.PasswordLoginSucceeds` | backend/app/api/v1/course.py:648-650 | The adapter is installed and no session of the user is left to replace it |
| `MemoryLimiter.AllowedExactlyWhen` | backend/app/middleware/rate_limiter.py:160-173 | A call gets through exactly when the client's last window is over or has room, told by earlier grants alone; it opens its own window or joins the last |
| `MemoryLimiter.AtMostTwice` | backend/app/middleware/rate_limiter.py:160-173 | For every client eviction spares, at most R calls get through per window and at most 2R in any stretch as long as a window, whatever calls, sweeps and evictions interleave |
| `MemoryLimiter.SweepingChangesNothing` | backend/app/middleware/rate_limiter.py:42-49 | Deleting expired entries at arbitrary moments changes no decision |
| `MemoryLimiter.SweepingInvisibleExactlyWhen` | backend/app/middleware/rate_limiter.py:42-49 | Cleanup is invisible if and only if the limit is at least one |
| `MemoryLimiter.RateLimiter.CleanupExpired` | backend/app/middleware/rate_limiter.py:42-49 | Removes exactly the expired entries |
| `MemoryLimiter.RateLimiter.EvictOldest` | backend/app/middleware/rate_limiter.py:51-59 | Removes exactly the excess, each no younger than every entry that stays, and changes none that stays |
| `MemoryLimiter.RateLimiter.MaybeCleanup` | backend/app/middleware/rate_limiter.py:61-67 | Every hundredth request removes exactly the entries whose window is over and, above 10000 only, the oldest of the rest; other requests leave the cache alone; a cleanup is a sweep and an eviction of the runs the bounds are about |
| `MemoryLimiter.RateLimiter.CheckInMemory` | backend/app/middleware/rate_limiter.py:160-173 | The new cache and the answer are those of the decision the bounds are proved about, one call later |
| `MemoryLimiter.RateLimiter.CheckRateLimit` | backend/app/middleware/rate_limiter.py:175-187 | The cache never exceeds 10100 entries; a database answer is taken as it is; without one the answer is the one the cache gave before the request, cleanup or not, unless more than 10000 entries are within their windows, and then nobody is blocked who would have got through |
| `DatabaseLimiter.FirstOfBucketAllowed` | backend/app/middleware/rate_limiter.py:132-155 | Exactly the first R calls of a client in each aligned bucket are allowed, whatever is swept in between |
| `DatabaseLimiter.SweptRowsAreDead` | backend/app/middleware/rate_limiter.py:150-154 | A row the sweep removes is never counted in again |
| `DatabaseLimiter.SweptTableIsSmall` | backend/app/middleware/rate_limiter.py:150-154 | After a call that sweeps no client has more than three rows |
| `DatabaseLimiter.AtMostTwice` | backend/app/middleware/rate_limiter.py:114-118 | At most 2R calls get through in any stretch of time as long as the window |
| `DatabaseLimiter.BucketsApart` | backend/app/middleware/rate_limiter.py:116-117 | Calls with a whole bucket between theirs are more than a window apart, seconds truncated and divided as the code does |
| `DatabaseLimiter.BucketIsAligned` | backend/app/middleware/rate_limiter.py:114-118 | A bucket begins at the last multiple of the window that is not later than the whole seconds |
| `DatabaseLimiter.WholeSecondsTruncate` | backend/app/middleware/rate_limiter.py:117-117 | Whole seconds drop the fraction towards zero |
| `DatabaseLimiter.RunIsExact` | backend/app/middleware/rate_limiter.py:136-145 | Every row that can still be counted in holds the number of its calls |
| `DatabaseLimiter.CounterTable.CheckViaDb` | backend/app/middleware/rate_limiter.py:120-158 | Answers yes exactly for the first R calls of the client in its bucket; a failing database gives no answer and has either changed nothing or counted the call |
| `Metrics.OwnCountersAreExact` | backend/app/api/v1/metrics.py:74-79 | After any requests every counter but `_other_` is the exact count of its key; below the cap a key without a counter was never requested |
| `Metrics.OtherIsTheRemainder` | backend/app/api/v1/metrics.py:80-84 | Per status bucket `_other_` holds exactly the requests without a counter of their own |
| `Metrics.TotalsAreConserved` | backend/app/api/v1/metrics.py:68-84 | Per status bucket the counters add up to the number of requests |
| `Metrics.SizeBound` | backend/app/api/v1/metrics.py:46-51 | At most 2000 keys of their own and four `_other_` keys beyond |
| `Metrics.RecordAddsOne` | backend/app/api/v1/metrics.py:74-84 | One request adds one to its status bucket's total and nothing to the others |
| `Metrics.StatusBucket` | backend/app/api/v1/metrics.py:58-65 | The class of a status by its hundreds, from 500 on and below 300 in one each |
| `Metrics.RequestCounter.RecordRequest` | backend/app/api/v1/metrics.py:68-84 | The three-way update is one step of the histogram the lemmas are about |
| `Metrics.RequestCounter.Scrape` | backend/app/api/v1/metrics.py:54-55 | A counter read off is the exact count or, for `_other_`, the exact remainder |
| `Credentials.RoundTripExactlyWhen` | backend/app/services/course/task_store.py:24-74 | `_decrypt_sensitive(_encrypt_sensitive(p)) == p` if and only if both levels of p return, a condition on the secrets that can be encrypted and on the prefixed strings p already holds |
| `Credentials.UnprefixedReturns` | backend/app/core/credential_crypto.py:165-167 | When no sensitive string already starts with the prefix, a level returns if and only if its secrets can be encrypted |
| `Credentials.EncryptionFailsClosed` | backend/app/services/course/task_store.py:24-51 | With a real cipher every non-empty sensitive string that is stored is prefixed at both levels even if encrypting raises midway, other fields are untouched, and encrypting twice equals encrypting once |
| `Credentials.StoredIsStorable` | backend/app/services/course/task_store.py:15-51 | With a real cipher `password`, `user_password` and `third_party_password` are stored empty or with the prefix `fernet:`, at the top and under `credentials`, and everything else as it was |
| `Credentials.LevelRoundTrip` | backend/app/core/credential_crypto.py:183-214 | One level comes back if and only if every secret in it can be encrypted, no prefixed string breaks the decryption of encrypted ones, and every prefixed string decrypts to itself or not at all |
| `Credentials.PrefixedComesBackOpened` | backend/app/core/credential_crypto.py:165-167 | A password that looks like the token of another string comes back as that string |
| `Credentials.UnencryptableIsDropped` | backend/app/services/course/task_store.py:32-38 | A password whose encryption raises is dropped and does not come back |
| `Credentials.LevelFailsClosed` | backend/app/services/course/task_store.py:32-38 | One level keeps every other field and holds no bare secret; a covered level is unchanged |
| `Credentials.EncryptPointwise` | backend/app/core/credential_crypto.py:190-195 | The loop succeeds exactly when each named field can be encrypted, and then changes each by itself |
| `Credentials.DecryptPointwise` | backend/app/core/credential_crypto.py:205-214 | The loop succeeds exactly when no field raises anything but an invalid token, and then changes each by itself |
| `Credentials.EncryptDictFields` | backend/app/core/credential_crypto.py:183-195 | The loop over a copy computes the encryption of the named fields, or raises |
| `Credentials.DecryptDictFields` | backend/app/core/credential_crypto.py:198-214 | The loop over a copy computes the decryption, leaving invalid tokens in place |
| `Credentials.EncryptForStorage` | backend/app/services/course/task_store.py:24-51 | Computes what is persisted; with a real cipher no bare secret at the top or under `credentials`, whatever raises, and everything else as it was |
| `TaskTable.ReadsLastPut` | backend/app/storage/sqlite.py:144-244 | A read returns the last accepted put of its kind and id: its user, message, status (`pending` if empty), its update time, or start time, or the time of the call, the first start time any put named, and the payload as given if and only if it survives encryption, which may raise; nothing without a put or for another user |
| `TaskTable.RowsExplained` | backend/app/storage/postgres.py:101-112 | Each row stems from the latest put of its key and the first start time (`COALESCE`) |
| `TaskTable.NoSecretAtRest` | backend/app/services/course/task_store.py:85-92 | With a real cipher a row holds no bare secret, and besides what the last put gave |
| `TaskTable.Tasks.UpsertTask` | backend/app/storage/postgres.py:81-132 | The table is that of the puts so far, one put longer; a put without kind, id or user is refused; with a real cipher no bare secret is stored |
| `TaskTable.Tasks.GetTask` | backend/app/services/course/task_store.py:94-103 | The answer is the one the puts so far call for |

## Left out

- The main-database path of `get_db_session` and the double-checked creation of the main pool (`session.py:67-93`): no reference counts there.
- Tenant-name validation (`session.py:101-105`): a single pattern test.
- Entry objects and their pools are identities in a map, and the pool's own connections are counted, not modelled; a `getconn` interrupted by something other than an `Exception` is not modelled.
- The default `timestamp` text put into a history payload and the conversion of listed times to UTC text (`base.py:67-71`): payloads keep what they were given, and parsed times are inputs.
- JSON normalisation and `_load_payload`, the fallbacks of `_row_to_task`, stripping of ids, and the ordering of `list_tasks`: single-branch shaping of a row.
- SQLite's behaviour once the largest row id is in use, and PostgreSQL sequences that hand out ids out of commit order: an append is one step, its id the next.
- Appends and upserts that fail change no row; that failed writes leave nothing is the subject of `SqliteConnection`, and `HistoryStore` and `TaskTable` count the calls that got through.
- An SQLite commit that raises is taken not to have committed, with its transaction still open or rolled back.
- Cursor creation and closing, and the fetch after a read, are merged with the statement they belong to.
- Connecting (`lib.rs:373-379`) and the text of the request: the probe starts with an open stream.
- A URL that does not parse is merged with a callback that cannot be scheduled (`lib.rs:229-236, 275-281`): both claim the same way.
- What `kill_sidecar`, the error page and the main window do: an effect is recorded, not performed.
- `run_bootstrap_with_retry` and the status cache (`bootstrap.py:207-260`): a retry loop around the modelled run.
- The two SQL files are applied whole or not at all, as one implicit transaction each.
- Healing a missing template from registration (`auth_service.py:174-186`) is an answer of the environment here; the repair itself is `Bootstrap`.
- E-mail uniqueness, password rules and tokens.
- RegisterUser: runs one registration while no other moves; it is proved to be a run of `Registration.Step`, about which the theorems on interleavings are.
- BootstrapRepairs: one process by itself with every statement returning; interleavings, errors and crashes are covered by `RepairIsSafe` and `LaterRunRepairs`.
- Cancel events of QR workers, waiting for the QR image, session ages, adapter access times and the fate of course tasks: which sessions or adapters a cleanup picks is arbitrary here.
- Client identification behind proxies (`rate_limiter.py:28-40, 69-109`): a client is its name.
- Each step reads the clock once, local time is one time line, and times are whole microseconds; AtMostTwice and SweepingChangesNothing assume times that do not go back.
- LogListsNewest and AppendKeepsNewest: for SQLite they assume that the rows of the listed kind and user carry one offset; what happens otherwise is `Misordered`.
- Rendering of the counters in Prometheus format (`metrics.py:87-89`).
- Choice and construction of the cipher from the environment (`credential_crypto.py:64-147`): the cipher is a parameter, a real one being a pair of functions of which decryption undoes encryption.
