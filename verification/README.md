# FreeSDN operations: verified models

Dafny models of the parts of FreeSDN in which a decision of the code, rather than
of Docker, PostgreSQL or Redis, carries the safety of an operation: who may
change a schema at startup, when a service is restarted, which bytes of a dump
arrive, what a queue inventory may claim, what a green test verdict means. Each
module stands for one source file (or one function of it). `dafny verify
dfyconfig.toml` checks the whole project.

What surrounds the code is an adversary. Processes crash at any step, the kernel
splits reads and writes as it likes, other Redis clients run commands whenever
they like, a patch run dies after any number of effects, and any file-system
check may refuse. Such choices are parameters (schedules, budgets) or
nondeterministic steps, and every result holds for all of them. Times and
weights are reals. SHA-256, the JSON decoder and the Python compiler are function
parameters; a digest is taken to be injective only where a statement says so.

## The modules

| module | what it models |
|---|---|
| `StartupMigration` | replicas racing through the advisory lock, freshness check, create-and-stamp, upgrade or refusal, as a step relation |
| `SelfHeal`, `CommandTimes`, `Watchdog` | backoff, bounded deque and quarantine of one service; what its bounds on clock readings mean for the commands issued after them; the supervision pass over a stack as a class |
| `Streams`, `BoundedCapture` | kernel reads and writes; `capture_command` |
| `MigrationWorker`, `WorkerFiles`, `MigrationIO` | the framed request, the budgeted pump, reading back, receipts; the supervisor around them |
| `OperationScope` | nested deadlines and workspaces of the database handle |
| `JsonDepth` | the nesting guard before the JSON parser |
| `SqlText`, `Fingerprint` | SQL quoting against a lexer; the fingerprint dictionary |
| `CommandTrace` | what a Redis server counts, event by event, and what a comparison of two INFO replies can miss |
| `InventoryData`, `Totals`, `Inventory` | what an inventory must report and what it costs; the reader against interfering clients, as a class |
| `Reconcile`, `QueueReplay`, `RestoreCheck` | reconciliation, review and replay, comparison after a restore |
| `TestSplit`, `TestVerdict` | the weighted split of the test files; the verdict over the parts |
| `Replacing`, `Backports` | `bytes.count` and `bytes.replace`; the two-phase source patcher |
| `Evidence` | phases, deadlines and budgets of an evidence attempt; the work manifest |
| `EnvFile`, `InstallOrigin`, `InstallConfig` | environment files; accepted origins; the installer's rewriting |
| `Text` | `Option`, white space |

## What turned out to be sharper than promised

* The self-healing promise "quarantined no later than 600 seconds after the first
  restart" holds for checks at most 112.5 seconds apart, and 112.5 is exact:
  `SlowChecksEscape` builds, for every longer gap, a sequence of failing checks
  that runs past 600 seconds without a quarantine.
* The window bound and the spacing of restarts are about the clock readings that
  `heal` records; for those they need no assumption on the clock, because a restart
  only happens past `next_allowed`. The commands themselves follow after the log
  collection, which may take 60 seconds, so the promised five in 600 seconds become
  six (`Watchdog.CommandsAreBounded`). Five is kept on every run if and only if
  diagnostics take at most ten seconds (`CommandTimes.FiveIsExact`), and the ten
  seconds between two commands if and only if they take no time at all
  (`CommandTimes.TenIsExact`).
* `verify` (`backend/scripts/backend_test_parts.py:160-208`) compares joined names,
  and `"\n".join` gives the same text for no line and for one empty line. With a
  collision-free digest every accepted run covers the collection if and only if the
  collection is neither empty nor one file with the empty name
  (`TestVerdict.CoverageIsCertain`; `AcceptedWithoutCovering` has the inputs).
  With `--parts 0` and no evidence the code ends in an index error instead of a
  verdict; the model calls this `Crashed` and says exactly when it happens.
* The inventory's comparison has one blind spot: a statistics reset by another
  client zeroes four of the compared counters. `CommandTrace.ResetDeceives` is the
  exact condition under which it goes unnoticed, over all of them, and
  `UnnoticedWrite` a run with a write that meets it.
* A new installation keeps a placeholder if and only if the requested e-mail address
  contains one (`InstallConfig.OnlyEmailKeepsPlaceholder`), and
  `__CHANGE_ME__@x.org` is accepted (`MarkedEmailIsAccepted`).

## Model

| member | source | states |
|---|---|---|
| StartupMigration.StepKeepsInv | backend/scripts/migrate.py:188-221 | every step of every replica, crashes included, keeps: the lock is held exactly by the replica inside the guarded section, and what that replica has read is still true of the database |
| StartupMigration.MutualExclusion | backend/scripts/migration_lock.py:13-30 | in every reachable state at most one replica is between acquiring and releasing, and it holds the lock |
| StartupMigration.LocalBelief | backend/scripts/migrate.py:192-219 | one step inside the guarded section preserves what the replica believes; a commit turns the empty database into exactly its models at its head |
| StartupMigration.OnlyHolderWrites | backend/scripts/migrate.py:143-219 | whenever a step changes the database (or commits), the actor holds the lock, and either the database was empty and becomes the actor's models stamped with its head, or it carries one revision the actor knows before and after |
| StartupMigration.CreatedAtMostOnce | backend/scripts/migrate.py:143-154 | create-and-stamp commits at most once in any run, and only if the run began with an empty database |
| StartupMigration.EmptyOrVersioned | backend/scripts/migrate.py:143-154 | a run that starts empty shows, at every moment, either the empty database or relations with exactly one revision known to a participating release; never relations without a revision |
| StartupMigration.SettledIsUntouched | backend/scripts/migrate.py:73-101 | a database with relations but no history, or with missing, several, malformed or unknown revisions (or at its head) is never changed by any run, and no replica reports success on an ambiguous one |
| StartupMigration.VerdictIsRight | backend/scripts/migrate.py:157-216 | a replica refuses only a database that is ambiguous for its release and succeeds only with the database at its own head |
| StartupMigration.FreshInstallStillPossible | backend/scripts/migrate.py:143-154 | after any crashes, while the database is empty and the lock free, a new replica can reach success with exactly its models at its head: a crash before the commit leaves nothing that blocks a retry |
| StartupMigration.UpgradeStillPossible | backend/scripts/migrate.py:204-219 | from every invariant state with the lock free, a waiting replica can bring a database at an older revision it knows to its own head |
| StartupMigration.HeadIsAccepted | backend/scripts/migrate.py:204-207 | at its own head a waiting replica can reach success, with the database unchanged |
| StartupMigration.AmbiguousIsRefused | backend/scripts/migrate.py:157-219 | an ambiguous database is refused, unchanged, and the lock is free again |
| StartupMigration.AmbiguousMeans | backend/scripts/migrate.py:157-219 | ambiguous is: relations without a version table, or a version table that is not exactly one row holding a known revision |
| StartupMigration.VerdictIsReachable | backend/scripts/migrate.py:188-221 | from every invariant state with the lock free, a waiting replica can reach a verdict: refusal with the database unchanged exactly if it is ambiguous, and otherwise success at its own head, created if the database was empty |
| SelfHeal.DequeCountsHistory | scripts/selfheal.py:268-283 | counting recent restarts in the ten-entry deque equals counting them in the unbounded history, capped at ten |
| SelfHeal.TripIsExact | scripts/selfheal.py:279-283 | the deque trips exactly when the full history does, which is exactly when the last five restarts span at most 600 seconds |
| SelfHeal.RestartEffect | scripts/selfheal.py:298-327 | a restart appends one time to the history, raises the attempts, sets the next backoff and quarantines exactly if the history trips, keeping the invariant |
| SelfHeal.WindowBound | scripts/selfheal.py:279-327 | on every run, any closed 600-second window holds at most five recorded restart readings of a service |
| SelfHeal.RestartsAreSpaced | scripts/selfheal.py:276-321 | the i-th and j-th recorded restart reading are at least 10(j-i) seconds apart, whatever decay happens between them |
| SelfHeal.QuarantineIsExact | scripts/selfheal.py:298-327 | a service is quarantined if and only if five consecutive restarts of its full history lie within 600 seconds |
| SelfHeal.QuarantineIsFinal | scripts/selfheal.py:303-304 | after a quarantine no sequence of events changes the state or adds a restart |
| SelfHeal.BackoffDoubles | scripts/selfheal.py:276-277 | the backoff starts at five seconds and doubles up to 300 |
| SelfHeal.AttemptsBalance | scripts/selfheal.py:320-321 | on every run the attempts are at most the restarts, and at least the restarts less the healthy passes |
| SelfHeal.RecoveryIsGradual | scripts/selfheal.py:391-397 | n healthy passes forgive n attempts, as far as there are any, and nothing else |
| SelfHeal.QuarantinedInTime | scripts/selfheal.py:298-327 | a fresh service that fails every check, with checks at most 112.5 seconds apart, is quarantined at its fifth restart, at most 150 + 4 gap (hence 600) seconds after the first |
| SelfHeal.SlowChecksEscape | scripts/selfheal.py:298-327 | for every larger gap there are failing checks running past 600 seconds without a quarantine: the bound is exact |
| Watchdog.Treat | scripts/selfheal.py:298-327 | the step-by-step body of `heal` on one entry computes the specified next state and restarts exactly if it is neither quarantined nor backing off |
| Watchdog.Watchdog.Heal | scripts/selfheal.py:298-327 | updates exactly the entry of the service, issues the restart, and keeps every service's entry and restarts equal to what its own events alone produce |
| Watchdog.Watchdog.Recover | scripts/selfheal.py:393-396 | decays the entry of a healthy service, unless it is quarantined, and issues nothing |
| Watchdog.Watchdog.HealInOrder | scripts/selfheal.py:402-408 | heals infrastructure before its dependents, each row once and in order; the commands it issues are those of its heal calls in order, each with its own service, reading and time |
| Watchdog.Watchdog.HealCycle | scripts/selfheal.py:387-409 | a pass either decays everything or heals exactly the unhealthy rows in healing order, and issues commands only for these calls, in their order |
| CommandTimes.SixCommandsSpan | scripts/selfheal.py:298-314 | six consecutive commands of a service span more than 610 seconds less the time that diagnostics may take |
| CommandTimes.CommandsAreSpaced | scripts/selfheal.py:298-321 | the i-th and j-th command are at least 10(j-i) seconds apart less that time, and at least 10(j-i-1) apart in any case |
| CommandTimes.CommandBound | scripts/selfheal.py:298-327 | any closed 600-second window holds at most six commands of a service, and at most five if diagnostics take at most ten seconds |
| CommandTimes.SixCommandsOccur | scripts/selfheal.py:298-314 | for every delay above ten seconds there is a run with six commands in 600 seconds: one slow round of diagnostics, and recoveries in between |
| CommandTimes.FiveIsExact | scripts/selfheal.py:279-327 | every run keeps at most five commands in any 600 seconds if and only if diagnostics take at most ten seconds |
| CommandTimes.CloseCommandsOccur | scripts/selfheal.py:298-321 | for every positive delay there is a run with two commands less than ten seconds apart |
| CommandTimes.TenIsExact | scripts/selfheal.py:298-321 | every run keeps its commands ten seconds apart if and only if diagnostics take no time |
| Watchdog.AtMostFiveRestarts | scripts/selfheal.py:387-409 | in every reachable state of the whole watchdog, at most five restart readings of a service lie in any 600 seconds |
| Watchdog.CommandsAreBounded | scripts/selfheal.py:298-314 | in every reachable state whose commands follow their readings one after the other, any 600 seconds hold at most six issued commands of a service, five where diagnostics take at most ten seconds |
| Watchdog.QuarantineHolds | scripts/selfheal.py:303-304 | no later passes over any services restart a quarantined one |
| Watchdog.PatientsAreUnhealthy | scripts/selfheal.py:389-400 | splitting by kind heals every unhealthy row as often as it was discovered and no healthy one |
| Watchdog.PassHealsInOrder | scripts/selfheal.py:389-408 | with an unhealthy row, a pass is one heal call for each unhealthy row at successive readings: infrastructure before its dependents, and each kind in discovery order |
| Watchdog.PassCalmsAll | scripts/selfheal.py:390-397 | without one, it is one decay for each row, in order |
| Watchdog.ContainsMeans | scripts/selfheal.py:181-183 | a name contains a hint if and only if the hint stands somewhere in it |
| BoundedCapture.Pump.Write | scripts/qualification/bounded_command.py:176-186 | a partial write hands the child exactly the next bytes of the payload |
| BoundedCapture.Pump.Read | scripts/qualification/bounded_command.py:187-198 | appends exactly the next bytes of that pipe and touches nothing else, or refuses with nothing stored, and then the child's output really exceeds the bound |
| BoundedCapture.Pump.Serve | scripts/qualification/bounded_command.py:175-198 | any list of events keeps read ++ unread = stream for both pipes and delivered ++ rest = payload unless the pipe broke; it makes progress if some event was one an open pipe waited for |
| BoundedCapture.CaptureCommand | scripts/qualification/bounded_command.py:105-206 | for every schedule: a result holds each pipe's whole stream in order within the bound, the child got all of the input unless it broke the pipe; stored output is bounded also on failure; every refusal has its stated cause, and a child that meets no obstacle gets its result; a result also means that nothing was cancelled, failed or past the deadline at any wake-up that was served |
| MigrationWorker.ReadHeader | scripts/qualification/migration_io_worker.py:118-127 | reading byte by byte returns the unique header line and leaves every later byte in the descriptor; it refuses exactly if the input has no such prefix |
| MigrationWorker.FrameIsUnambiguous | scripts/qualification/migration_io_worker.py:118-127 | no input splits into header and payload in two ways |
| MigrationWorker.WriteAll | scripts/qualification/migration_io_worker.py:110-115 | partial writes append a prefix of the value at every moment and all of it on success; it succeeds exactly if the writes, one after the other and each of at least a byte, take it all |
| MigrationWorker.SpaceIsReserved | scripts/qualification/migration_io_worker.py:100-107 | the check passes exactly if after the increment the configured reserve is still free, or without one at least a byte and a quarter of the disk, or 4 GiB |
| MigrationWorker.Pump.Feed | scripts/qualification/migration_io_worker.py:185-202 | hands over the next bytes, keeping fed ++ pending ++ unread = source and the remaining count; refuses only at a premature end of the source or a write of nothing |
| MigrationWorker.Pump.Store | scripts/qualification/migration_io_worker.py:211-217 | appends the whole chunk; not a byte of it is stored unless file, workspace and free-space budgets all allow the whole chunk, and it is not refused where they have room; whatever was written, the reserve is still free |
| MigrationWorker.Pump.Drain | scripts/qualification/migration_io_worker.py:203-222 | file ++ forwarded ++ unread = the command's output after every chunk, within the file and capture budgets, and never into the reserve |
| MigrationWorker.Pump.Serve | scripts/qualification/migration_io_worker.py:184-222 | any list of events keeps conservation, and the budgets also where it refuses; harmless events are not refused and useful ones make progress; it writes only if some event showed room above the reserve |
| MigrationWorker.Copy | scripts/qualification/migration_io_worker.py:183-222 | when the selector loop ends everything is fed and both pipes are finished; with unobstructed wake-ups enough for every byte it does end so; no wake-up that was served refused |
| MigrationWorker.Command | scripts/qualification/migration_io_worker.py:159-230 | a command that succeeds received exactly its input and stored or forwarded exactly its output, within budget; an unobstructed one succeeds |
| MigrationWorker.Work | scripts/qualification/migration_io_worker.py:301-310 | success means: standard input was one header and exactly its payload, the command received exactly the payload (or the file from its position), its output is exactly the file (or was forwarded), all within budget; budgets hold on failure too, and a well-formed unobstructed request does not fail; what it feeds is within the bound for its kind of input, and it writes only if the disk had room above its reserve |
| WorkerFiles.ReadFile | scripts/qualification/migration_io_worker.py:247-264 | what is forwarded is a prefix of the file from its position at every moment, and all of it on success; it succeeds where every write is taken and the closing checks pass |
| WorkerFiles.CopyPayload | scripts/qualification/migration_io_worker.py:276-283 | on success the pending file is exactly the announced number of payload bytes, the rest is still unread; it succeeds where the budgets have room; what is written is a prefix of the payload, within the workspace budget and never into the reserve |
| WorkerFiles.PublishReceipt | scripts/qualification/migration_io_worker.py:269-294 | whatever fails, an existing receipt is never replaced and a new one is exactly the whole payload; on success the pending name is gone; a pending file that appears is a prefix of the payload |
| WorkerFiles.RetryReceipt | scripts/qualification/migration_io_worker.py:269-294 | a publication that fails before its pending file is removed leaves it behind, and no later one succeeds or changes anything |
| WorkerFiles.WorkRead | scripts/qualification/migration_io_worker.py:118-264 | success means that standard input was one header and nothing else, and that the pinned file was forwarded from its position to its end; what a failed worker forwarded is a prefix of that |
| WorkerFiles.WorkReceipt | scripts/qualification/migration_io_worker.py:118-294 | success means one header and exactly the announced payload, now the receipt; even after a failure a new receipt is that whole payload; it succeeds where nothing is in the way |
| MigrationIO.HeaderOfFrame | scripts/qualification/migration_io.py:125-132 | a header read from any part of a frame is the line that was sent, and what follows it is a prefix of the data |
| MigrationIO.Supervise | scripts/qualification/migration_io.py:128-139 | a result is what a successful worker forwarded, within the bound and before the deadline; without obstacles there is one |
| MigrationIO.RunWorker | scripts/qualification/migration_io.py:111-134 | whatever part of the frame reached the worker, its success proves that all of it did and that the command got exactly the data; with the whole frame and no obstacle it succeeds |
| MigrationIO.Operate | scripts/qualification/migration_io.py:94-139 | a command end to end, whatever part of the frame the worker saw: a result means it saw all of it, the command got its whole input and its whole output is in the file or in the result, within both byte budgets; without obstacles on either side there is a result; a result also means that neither end was cancelled or late |
| MigrationIO.OperateRead | scripts/qualification/migration_io.py:94-139 | a read end to end: a result means that the worker saw the whole frame and that it is the whole pinned file from its position, within the input bound; without obstacles there is a result |
| MigrationIO.OperateReceipt | scripts/qualification/migration_io.py:94-139 | a receipt end to end: a result means that there was no receipt and that it now is exactly the data; whatever fails, files that were there stay and a new receipt is exactly the data, and then the worker saw the whole frame |
| OperationScope.Database.Within | scripts/migrate_database_runtime.py:80-92 | saving, shortening and restoring two fields computes the same commands as the stateless meaning with all open operations in view, and leaves the handle as it was, also after an exception |
| OperationScope.Database.Perform | scripts/migrate_database_runtime.py:76-92 | any nesting of operations, dispatches and failures restores the handle and dispatches what its meaning says |
| OperationScope.NestingOnlyShortens | scripts/migrate_database_runtime.py:76-84 | no command is dispatched with a deadline past the end of any operation open around it |
| OperationScope.EarliestIsLeast | scripts/migrate_database_runtime.py:80-84 | the limit in force is the end of some open operation, and no other ends earlier |
| OperationScope.DispatchIsExact | scripts/migrate_database_runtime.py:76-78 | a command's deadline is its own timeout or the end of an open operation, whichever is earliest |
| OperationScope.OkIsInTime | scripts/migrate_database_runtime.py:76-92 | a program ends normally if and only if nothing in it is raised and every operation is entered and finished before the end of each open one |
| OperationScope.InnermostIsLast | scripts/migrate_database_runtime.py:80-92 | the workspace in force is that of the last open operation that names one |
| OperationScope.WorkspaceIsInherited | scripts/migrate_database_runtime.py:80-92 | where no operation of a program names a workspace, its commands run in the one in force around it |
| JsonDepth.Guard | scripts/migrate_database_runtime.py:176-194 | the scanning loop with its early refusals accepts exactly the texts that the character automaton accepts |
| JsonDepth.RunValue | scripts/migrate_database_runtime.py:178-193 | started at any depth outside strings, a printed value returns the scanner to where it was if it fits under the limit and is refused otherwise |
| JsonDepth.GuardIsExact | scripts/migrate_database_runtime.py:173-194 | for every JSON value in every layout, with any brackets, quotes and escapes in its strings, the text is accepted if and only if the nesting depth is at most 64 |
| JsonDepth.AcceptsIsExact | scripts/migrate_database_runtime.py:173-194 | any text, JSON or not, is accepted if and only if, outside its strings, its brackets and braces nest completely and at most 64 deep |
| SqlText.LexUndoesQuote | scripts/migrate_database_runtime.py:46-51 | a doubled-quote lexer reads back exactly the quoted value and leaves what follows, for identifiers and literals |
| SqlText.LexReadsOnlyQuotes | scripts/migrate_database_runtime.py:46-51 | conversely, all the lexer accepts is the quotation of what it returns |
| SqlText.QualifiedIsInjective | scripts/migrate_database_runtime.py:557-557 | `ident(schema).ident(table)` determines schema and table |
| SqlText.RoleListIsExact | scripts/migrate_database_runtime.py:564-564 | the `IN` list reads back as exactly the given roles, whatever quotes and commas they contain |
| Fingerprint.RenderIsInjective | scripts/migrate_database_runtime.py:555-673 | no two of the table, topic, `timescale_` and `aggregate_` keys are the same text |
| Fingerprint.ComputeFingerprint | scripts/migrate_database_runtime.py:546-674 | the assignments in program order, with the view and its hypertable alternating, yield the specified dictionary |
| Fingerprint.LookupAgrees | scripts/migrate_database_runtime.py:555-673 | looking up a rendered key in the text dictionary is looking up its meaning |
| Fingerprint.FingerprintIsFaithful | scripts/migrate_database_runtime.py:546-674 | two databases have equal fingerprints if and only if their entries mean the same, kind by kind |
| Fingerprint.EqualFingerprintsEqualTables | scripts/migrate_database_runtime.py:555-563 | equal fingerprints: every table of one is in the other with the same digest |
| Fingerprint.EqualFingerprintsEqualAnswers | scripts/migrate_database_runtime.py:564-673 | equal fingerprints mean the same topics, views and aggregate relations, with equal digests one by one |
| Inventory.Reader.Call | scripts/qualification/queue_inventory_probe.py:109-113 | every reader command is exactly one more event of the server's history, whatever happens meanwhile, and the reader's count is the number of its own events |
| Inventory.Reader.ChargeAll | scripts/qualification/queue_inventory_probe.py:115-126 | charging records one by one succeeds where they fit, and then adds up to all of them |
| Inventory.Reader.ReadList | scripts/qualification/queue_inventory_probe.py:277-296 | through all pages: undisturbed, each message once with its list index and its consumption position; refused only if the key is no list or the budgets do not suffice |
| Inventory.Reader.ReadHash | scripts/qualification/queue_inventory_probe.py:297-322 | although HSCAN may repeat or drop fields, an accepted undisturbed reading is the whole hash, each field once; with complete iterations it is refused only for the budgets |
| Inventory.Reader.ReadScores | scripts/qualification/queue_inventory_probe.py:323-348 | undisturbed, the whole reserved index with its timestamps through all pages |
| Inventory.Reader.ReadKeys | scripts/qualification/queue_inventory_probe.py:237-258 | although SCAN may repeat or drop keys, an accepted undisturbed key set is the whole database; with complete iterations it is refused only for the key limit |
| Inventory.Reader.Visit | scripts/qualification/queue_inventory_probe.py:260-399 | undisturbed, the row of a key (type, dump digest, size, expiry) and exactly what the branch for it must report |
| Inventory.Reader.TakeSnapshot | scripts/qualification/queue_inventory_probe.py:128-416 | undisturbed, every key of every database with its row, every queue, reservation, index entry, binding and result exactly; with complete iterations it is refused only if the limits do not suffice; a snapshot stays within the limits on records, bytes and keys, disturbed or not |
| InventoryData.ReportedStep | scripts/qualification/queue_inventory_probe.py:236-296 | adding one database's exact report keeps the reports of all others exact, key by key and queue by queue |
| InventoryData.RowsAgree | scripts/qualification/queue_inventory_probe.py:525-525 | two exact reports of the same data have the same rows |
| InventoryData.NamesAreDisjoint | scripts/qualification/queue_inventory_probe.py:20-31 | every queue has a physical name for each priority, and no key is read by two branches |
| InventoryData.RowsAreExact | scripts/qualification/queue_inventory_probe.py:260-276 | with a digest without collisions, two exact reports have equal rows if and only if every key has the same kind, serialisation and expiry in both contents |
| InventoryData.PositionIsConsumption | scripts/qualification/queue_inventory_probe.py:284-296 | each reported message has its own index, and its consumption position is the number of consumptions after which it is next |
| Inventory.Compare | scripts/qualification/queue_inventory_probe.py:474-538 | "source unchanged" implies that another client reset the statistics, or that between the two observations no other client ran any command, no key was lost, nothing later undone, and the inventory is exactly the content throughout; a reported change always has some event of others behind it; a refusal has a disturbance, an incomplete iteration, a limit or the configuration behind it |
| Inventory.Run | scripts/qualification/queue_inventory_probe.py:458-545 | without a reset, a run that reports the source unchanged returns exactly the server's content; a run that nobody disturbs, within its limits and with complete iterations, does report it; clusters, persistent servers and unusual numbers of databases are refused |
| CommandTrace.CountingDetects | scripts/qualification/queue_inventory_probe.py:512-530 | without a reset, the comparison of all counters is passed if and only if nobody else ran a command, opened a connection or lost a key, and the rest of INFO is as before |
| CommandTrace.ResetDeceives | scripts/qualification/queue_inventory_probe.py:512-530 | with a reset, the comparison is passed if and only if what follows it makes up for all four counters that it zeroes |
| CommandTrace.UnnoticedWrite | scripts/qualification/queue_inventory_probe.py:512-530 | a concrete intrusion with a write passes the comparison, however many commands the observer runs |
| CommandTrace.OwnPasses | scripts/qualification/queue_inventory_probe.py:512-530 | nothing but the observer's own commands is always passed: no false alarm |
| Reconcile.GroupJobs | scripts/qualification/queue_inventory_probe.py:420-422 | each group is the task's messages in the order found, and every task with a message has one |
| Reconcile.ReconcileAll | scripts/qualification/queue_inventory_probe.py:419-455 | each task with a reason is in exactly one review, in the order of task ids, no other task is, and the message copies of all reviews add up to the messages |
| Reconcile.First | scripts/qualification/queue_inventory_probe.py:426-426 | the next task in the order of ids |
| Reconcile.ReviewIsSound | scripts/qualification/queue_inventory_probe.py:427-446 | a review demands a manual decision if and only if the task has a message; then it says exactly one of terminal and unknown, the former if and only if a result of the task is terminal; without messages it appears only for contradicting results |
| Reconcile.ReasonsMean | scripts/qualification/queue_inventory_probe.py:429-438 | the first five reasons, each if and only if: two messages of the task; two that differ in database, in payload, or in being queued or reserved; two results that differ in metadata |
| Reconcile.JobsInOrder | scripts/qualification/queue_inventory_probe.py:420-422 | a task's messages are exactly those at its positions, in order |
| QueueReplay.Review | scripts/qualification/queue_backup_fixture.py:186-218 | succeeds if and only if all task ids are distinct and none is reserved, and then lists every queued message key by key, database by database, in consumption order |
| QueueReplay.ReviewIsExact | scripts/qualification/queue_backup_fixture.py:192-216 | the review decides exactly the messages that the databases queue, each under its own database, key and task |
| QueueReplay.PushKeepsFifo | scripts/qualification/queue_backup_fixture.py:232-232 | pushing one decision extends the consumption order of its own queue at the end and of no other |
| QueueReplay.Replay | scripts/qualification/queue_backup_fixture.py:219-237 | accepts exactly the admissible decisions: the closing order check never fails for them; and then every queue's consumption order is its decisions in order |
| QueueReplay.CheckOrder | scripts/qualification/queue_backup_fixture.py:233-237 | the closing check passes exactly if, key by key, the ids found are the ids listed, in order |
| QueueReplay.FifoOfReview | scripts/qualification/queue_backup_fixture.py:192-216 | the decisions of a key, picked out of the interleaved review, are the databases' queues of that key one after the other |
| QueueReplay.ReviewAndReplay | scripts/qualification/queue_backup_fixture.py:186-237 | reviewing and replaying onto an empty server rebuilds exactly the reviewed order for every key at once, and the replay never refuses its own review |
| RestoreCheck.BuildIndex | scripts/check_queue_backup_recovery.py:79-84 | accepts exactly snapshots without repeated keys and with the right count |
| RestoreCheck.MapsDecide | scripts/check_queue_backup_recovery.py:86-97 | comparing the two dictionaries decides the relation between the two lists of rows |
| RestoreCheck.CompareSnapshot | scripts/check_queue_backup_recovery.py:76-102 | succeeds if and only if both snapshots are well formed, every observed row is an expected row and every missing one has a positive expiry not after now; then restored + expired = expected; every refusal names a real difference |
| TestSplit.FilesDistinct | backend/scripts/backend_test_parts.py:54-59 | counting lists each file once, with at least one test, and misses none |
| TestSplit.FileOfIsPrefix | backend/scripts/backend_test_parts.py:54-59 | the file of a test id is what stands before its first double colon, or all of it |
| TestSplit.ContiguousIsExact | backend/scripts/backend_test_parts.py:80-81 | the run order is accepted if and only if between two tests of one file there are only tests of that file |
| TestSplit.WeightIsMean | backend/scripts/backend_test_parts.py:82-84 | a file weighs its recorded time, or its tests times the mean time of all tests whose file has one, or its tests if none has |
| TestSplit.BucketIsSlot | backend/scripts/backend_test_parts.py:85-88 | a file goes to the part whose slot of the total weight holds the file's middle |
| TestSplit.PartIsSlice | backend/scripts/backend_test_parts.py:86-89 | every part is one contiguous slice of the run order |
| TestSplit.PartsCoverAll | backend/scripts/backend_test_parts.py:85-92 | the parts concatenate to the collected files, each once, in order |
| TestSplit.Distribute | backend/scripts/backend_test_parts.py:85-89 | the loop with its running start puts each file where its middle belongs, in run order |
| TestSplit.Balanced | backend/scripts/backend_test_parts.py:85-89 | the same bound for arbitrary nonnegative weights |
| TestSplit.SplitIsBalanced | backend/scripts/backend_test_parts.py:72-92 | each part's weight is at most total/parts plus half its first and half its last file, and at least total/parts less half the files just outside it |
| TestSplit.Split | backend/scripts/backend_test_parts.py:72-92 | refuses exactly if a file's tests are not contiguous or a part would be empty; otherwise the parts cover the files in order, none is empty and the test counts add up to the collection |
| TestVerdict.Collect | backend/scripts/backend_test_parts.py:164-169 | finds a problem exactly if a part number occurs twice |
| TestVerdict.Verify | backend/scripts/backend_test_parts.py:160-208 | returns 0 if and only if the parts are exactly 1..N of one collection, each with a green report for all its tests, with the right files digest and test total; then passed + skipped = collected; the reported cases add up to the collection, and the skipped ones to the reports |
| TestVerdict.CompleteMeans | backend/scripts/backend_test_parts.py:175-204 | in a complete run every part reports as many tests and cases as it lists, without failure or error, and any two parts name the same counts and digests |
| TestVerdict.JoinIsExact | backend/scripts/backend_test_parts.py:34-35 | newline-free lists have equal joined texts if and only if they are equal, except for no line against one empty line |
| TestVerdict.AcceptedCoversCollection | backend/scripts/backend_test_parts.py:178-184 | with an injective digest, an accepted run's files are the collected files, once each and in order, unless one is empty and the other a single empty name |
| TestVerdict.CoverageIsCertain | backend/scripts/backend_test_parts.py:178-184 | with an injective digest, every accepted run covers the collection if and only if the collection is neither empty nor one file with the empty name |
| TestVerdict.AcceptedWithoutCovering | backend/scripts/backend_test_parts.py:178-184 | accepted runs for those two collections that do not cover them |
| TestVerdict.AcceptedHearsEveryPart | backend/scripts/backend_test_parts.py:164-174 | with distinct part numbers every manifest that was found is the one that is checked |
| TestVerdict.CollectionDigestIsExact | backend/scripts/backend_test_parts.py:62-69 | equal collection digests mean the same files in the same order with the same test counts, and conversely |
| TestVerdict.DecimalIsInjective | backend/scripts/backend_test_parts.py:69-69 | printed counts determine the counts |
| TestVerdict.HonestRunIsAccepted | backend/scripts/backend_test_parts.py:123-208 | if every part of one split leaves its own manifest and a green report, in any order, the verdict is green |
| Replacing.ReplacedLength | scripts/qualification/fixture_evidence.py:165-166 | the length after replacing every non-overlapping marker is the old length plus count times the difference |
| Replacing.ReplaceOnce | backend/python-security/apply_backports.py:76-80 | where a context counts once, the text splits around it, and replacing changes exactly that place |
| Replacing.ReplaceIsJoin | scripts/qualification/fixture_evidence.py:165-169 | counting and replacing cut the text into pieces in which the marker does not begin earlier, and join the same pieces anew |
| Replacing.SwapIsExact | backend/python-security/apply_backports.py:76-80 | a context counts once and its replacement yields a text if and only if the text is the original with the one occurrence exchanged |
| Backports.PlanIsStable | backend/python-security/apply_backports.py:70-86 | what was planned has the reviewed digest and is its own plan, for another run and for verification |
| Backports.PatchedIsExact | backend/python-security/apply_backports.py:75-80 | the patches succeed with a result if and only if, one after the other, each context occurs once and is exchanged |
| Backports.PlanIsExact | backend/python-security/apply_backports.py:70-86 | there is a plan for a module if and only if it is at its after-digest, or at its before-digest with patches that apply and lead to the after-digest, and the result compiles |
| Backports.ActionsAreRight | backend/python-security/apply_backports.py:70-84 | a complete run reports as applied exactly the modules that it changes |
| Backports.ReplanAgrees | backend/python-security/apply_backports.py:46-92 | wherever an earlier run was cut off, validation passes again and plans the same contents |
| Backports.Stdlib.Validate | backend/python-security/apply_backports.py:32-92 | passes if and only if the manifest is valid, the library and the files to be replaced or deleted are regular and not linked, and every module can be planned; changes nothing |
| Backports.Stdlib.Install | backend/python-security/apply_backports.py:96-115 | cut off anywhere, the module is old or new, never in between, and only its own bytecode shrinks; complete, it is new and its bytecode gone |
| Backports.Stdlib.Apply | backend/python-security/apply_backports.py:30-120 | refused if and only if validation does not pass; refused or verifying runs change nothing; otherwise every listed module is as before or as planned and all else untouched; a run that ends has installed all, deleted their bytecode and reports the right action for each |
| Backports.BetweenComposes | backend/python-security/apply_backports.py:94-119 | two interrupted runs in a row leave what one interrupted run may leave |
| Backports.PatchRuns | backend/python-security/apply_backports.py:46-120 | after any number of interrupted runs, one complete run leaves every listed module at its after-digest with its bytecode gone; a further run finds all already applied and verification passes |
| Evidence.PredictedSize | scripts/qualification/fixture_evidence.py:165-166 | the size predicted before allocating is the true length after redaction |
| Evidence.Attempt.constructor | scripts/qualification/fixture_evidence.py:45-84 | a new attempt is in its work phase within all budgets, charged for its intent |
| Evidence.Attempt.Deadline | scripts/qualification/fixture_evidence.py:101-107 | issued exactly if some time is left; in the future, within the timeout, the phase and the total, and in the first two phases leaving the later phases their full time |
| Evidence.Attempt.BeginEvidence | scripts/qualification/fixture_evidence.py:109-113 | possible exactly from work; evidence gets its full 60 seconds if the work ended by its deadline, and otherwise what is left until 120 seconds before the total |
| Evidence.Attempt.BeginCleanup | scripts/qualification/fixture_evidence.py:115-119 | possible exactly from evidence; cleanup gets its full 120 seconds if evidence ended by its own deadline, and never more than the total |
| Evidence.Attempt.Record | scripts/qualification/fixture_evidence.py:149-155 | succeeds exactly within the event and metadata budgets; event numbers increase and are never reused, even after a failed write |
| Evidence.Attempt.SaveLog | scripts/qualification/fixture_evidence.py:157-177 | succeeds exactly if the marker is not empty and at most 4096 characters and both sizes fit; stores the data with every marker replaced; totals stay within 16 MiB |
| Evidence.Lifetime | scripts/qualification/fixture_evidence.py:45-177 | for every sequence of operations at any times: deadlines stay within their phase's share of the total, phases only advance, events, metadata and logs stay within their budgets |
| Evidence.Traverse | scripts/qualification/fixture_evidence.py:184-205 | the work list finds every regular file of the tree exactly once; it refuses exactly if there is another kind of entry or more than 128 entries |
| Evidence.AccountStep | scripts/qualification/fixture_evidence.py:187-205 | listing one directory moves its files from what is pending to what is found: entries, files and sizes found plus pending stay those of the tree |
| Evidence.Charge | scripts/qualification/fixture_evidence.py:207-219 | accepts exactly the lists within the file and byte budgets and returns their total size |
| Evidence.WorkManifest | scripts/qualification/fixture_evidence.py:179-220 | a tree has a manifest if and only if it is regular and within the entry, file and byte budgets; it lists exactly the files of the tree and their total size |
| EnvFile.FileReadsBack | scripts/install_config.py:146-170 | lines that are written are read back the same; only an empty list becomes one empty line |
| EnvFile.BreakEndsLine | scripts/install_config.py:146-146 | every break ends a line; with `EnvFile.PairEndsLine` and `EnvFile.LastLine` a carriage return with its newline is one break, and the last line needs none |
| EnvFile.StripIsExact | scripts/install_config.py:147-151 | stripping yields exactly the trimmed text that has only white space around it |
| EnvFile.ParseIsExact | scripts/install_config.py:147-151 | what any line parses to: split at its first equals sign with both sides stripped, and no setting without one or behind a comment sign |
| EnvFile.AssignedIsLast | scripts/install_config.py:144-170 | the value in force is the one that the last line for a key assigns |
| EnvFile.PrintedParses | scripts/install_config.py:147-162 | a printed setting parses to itself |
| EnvFile.ParsedIsPrintable | scripts/install_config.py:147-151 | any key and value that a line parses to can be printed again |
| InstallOrigin.AcceptedOverridesAreOk | scripts/install_config.py:21-37 | every origin that validation accepts yields distinct keys and trimmed one-line values |
| InstallOrigin.EmailIsExact | scripts/install_config.py:32-36 | an accepted address is a mailbox, an at sign and a host, at most 254 characters long |
| InstallOrigin.SplitOnJoins | scripts/install_config.py:24-27 | the labels of a domain are what stands between its dots |
| InstallConfig.RewriteLines | scripts/install_config.py:144-166 | the loop computes the rewritten lines and the set of overridden keys it met |
| InstallConfig.OutputSettings | scripts/install_config.py:144-170 | the effective settings (last assignment wins) of the new file are the old ones overlaid with the overrides, however often the old file set them |
| InstallConfig.DomainIsEffective | scripts/install_config.py:126-137 | after a run for a domain the site address, the public URL, the frontend's URL and the one allowed origin are that domain over HTTPS on the standard ports, and the address is set if given |
| InstallConfig.LocalIsEffective | scripts/install_config.py:138-143 | a new installation without a domain beyond the lite tier is served on localhost over HTTPS |
| InstallConfig.WithoutDomainNothingChanges | scripts/install_config.py:125-170 | without a domain an existing file keeps every line |
| InstallConfig.SecretsAreDistinct | scripts/install_config.py:152-163 | with independent secrets no two generated settings of a new file share a value |
| InstallConfig.OthersAreKept | scripts/install_config.py:146-166 | every other line (comments, blanks, other keys) is still there, unchanged and in order, and no such line is added |
| InstallConfig.OutputIsStable | scripts/install_config.py:144-169 | rewriting the result with the same overrides changes nothing |
| InstallConfig.RunningAgainChangesNothing | scripts/install_config.py:112-171 | a second run with the same arguments leaves the same text, also after a new installation whose overrides differ from the second run's |
| InstallConfig.NoPlaceholderIsLeft | scripts/install_config.py:152-162 | a new file has a placeholder only where an override put it |
| InstallConfig.PlaceholderSurvives | scripts/install_config.py:144-169 | a new file keeps a placeholder if and only if some override contains one |
| InstallConfig.OnlyEmailKeepsPlaceholder | scripts/install_config.py:21-169 | a new installation keeps a placeholder if and only if the requested e-mail address contains one |
| InstallConfig.MarkedEmailIsAccepted | scripts/install_config.py:32-37 | an address with a placeholder is accepted, and the new file keeps it |
| InstallOrigin.OriginMarks | scripts/install_config.py:126-143 | of an accepted origin, only the e-mail address can contain a placeholder |
| InstallConfig.Configure | scripts/install_config.py:112-171 | refuses exactly for an invalid origin or tier or a failing check on the file; otherwise writes the specified text, whose effective settings are the old ones overlaid |

## Left out

- Docker, psql, pg_dump, pytest and Redis processes, and the drills built on them: no decidable core; their behaviour is an adversary's choice.
- File identity checks (owner, mode, inode, links), signals and process-group killing: they appear as refusals that may happen anywhere, as outcomes given to an operation, or for Backports as a set of files that fail them.
- StartupMigration: the upgrade path is any sequence of schema changes and known revisions ending at the head, without atomicity, as the source promises it only for a new database. The guard transaction is assumed to live as long as its process, a crash during COMMIT falls on one side of it, and an upgrade statement that the server is still executing when its process is killed is assumed to end before the guard transaction is released.
- StartupMigration.FreshInstallStillPossible: says that success is reachable, not that a scheduler gets there.
- Watchdog.CommandsAreBounded: that a command follows its reading within a given time, and that no reading precedes an earlier command, is an assumption on the clock and the log collection.
- BoundedCapture: a process is started at once and the clock is read once per wake-up.
- MigrationWorker.Work: the JSON header is decoded by a parameter; the identity checks on pinned files and the names allowed in a workspace are refusals.
- WorkerFiles: the `hash` request, whose result is a digest of the same bytes.
- MigrationIO.Operate: the supervisor and the worker run one after the other; that the worker saw no more than the supervisor sent is the assumption `delivered <= sent`.
- JsonDepth: the parser behind the guard and its rules on duplicate keys and numbers.
- Fingerprint: the query texts; the database answers each query with some digest.
- Inventory: a restart of the server and a lost connection are refusals; replication ids, roles and offsets are one value, and what moves them besides commands does not change the data.
- Inventory.Reader.TakeSnapshot: the decoding of message envelopes, bindings and results, and the issue list made from it; non-finite timestamps; SCAN order and the sorting of keys and members.
- QueueReplay.Review: the fixture's assertions on task names and arguments are further refusals; the decoded envelope is a parameter, and so is the list of the twenty physical queue names.
- RestoreCheck: `validate_bundle`, a list of flat checks on file names.
- TestSplit.Split: exact arithmetic instead of floating point; recorded times are not negative.
- TestVerdict.Verify: does not model the printed messages, the parsing of JUnit files or manifests that lack a field. Like the code it only compares the manifests' own part counts with each other, not with the count requested on the command line; the documentation's "parts 1..N" is ensured by the part numbers.
- Backports: temporary files that a hard crash leaves behind, and refusals because a module changed between the two phases. That a path resolves into the library is part of its being regular.
- Evidence: the JSON text of the event files and the publication of the final report.
- InstallConfig.Configure: the file modes, the exclusive creation and the atomic replacement of the file, of which it only has the outcome of the checks; secrets are a function of the line, assumed trimmed, not empty and on one line, and free of the placeholder where a statement says so.
