# agentboard: a verified model

This project models the core of agentboard, a task board for software agents, and
proves what its documentation and tests promise: how the board changes under calls,
how it reaches the disk and the archive, and the self-contained algorithms around it.
`dafny verify dfyconfig.toml` checks everything.

## The parts

- **The board.** `Model`, `TaskId` and `BoardSpec` say what every call does, as
  functions from state to state: the checks before the lock, the sweep of expired
  leases, and the body under the lock. `BoardCalls` says for each call, field by field,
  when it is refused, what it writes and what it leaves alone. `BoardInvariants`,
  `BoardEffects`, `BoardLeases`, `BoardOverwrites`, `SweepOptional`, `SweepLoop` and
  `RecentActivity` prove properties of single calls and of whole runs on a clock that
  never goes back, and `Accounts` follows a password from registration to login.
  `BoardRuntime` is the board as it runs, with records behind pointers, maps of
  pointers and an activity slice that snapshots share, and proves every call equal
  to its specification.
- **Saving.** `Persistence` is the write-behind protocol as a state machine: callers,
  the writer, flushers, the phases of a save and of the archive move, a store that
  may fail, and crashes, at the granularity of lock releases. `Durability`, `WakeUp`
  and `ArchiveConservation` prove its invariants over all interleavings, `SaveProgress`
  that a change the writer is awake for gets saved once the disk works, and `ArchiveReuse`
  shows when the archive breaks; `ArchiveFiles` is the archive itself.
- **The data file.** `Crc32c`, `StateDocument`, `FileFormat`, `FileLimit` and `FileStore`:
  checksum, migration and validation, encoding and decoding, the limit on the size,
  saving and loading.
- **The timeline and the views.** `Calendar`, `Timeline`, `StableSort`, `EpicView`.
- **Algorithms.** `Pbkdf2`, `Sessions`, `LoginLimiter`, `LockFile`, `SettleWindow`.

## How the model reads the source

- Times are integer nanoseconds and dates are day numbers; the clock, random bytes and
  the order in which a map is walked are parameters. Where a theorem speaks of a run,
  every call brings its own time, and times do not decrease.
- A sweep carries the order in which it releases tasks; it must be sorted by idLess.
  `RecentActivity.SweepOrderUnique` shows that this leaves no choice.
- The text of a log entry's detail is kept as a structured value.
- JSON and deflate are parameters. Assumed of them is that they undo themselves
  (except that JSON drops an agent's empty metadata map), that a non-empty JSON object
  opens with a brace and a quotation mark, and that a blank input holds no letter.
  HMAC-SHA256 is any function to 32 bytes.
- In `Persistence` a save either takes effect or not, and may report failure in either
  case; `FileStore.DataDir.SaveLocked` is why. After a crash the board on disk is
  loaded as it was saved; `FileFormat.ReachedBoardIsReadBack` says when.

## Where the code does not do what its documentation says

For each, a lemma says exactly when the code keeps the promise; where the condition does
not itself name an input that fails, another lemma reaches one.

- Not every board method sweeps first (board.go:529-531): Recent does not, and it shows
  exactly when a lease has expired (`RecentActivity.RecentSeesSweep`), as on the boards of
  `RecentActivity.RecentMissesExpired`.
- The writer can wait longer than the maximum latency (board.go:278-279), exactly when
  the debounce is longer (`SettleWindow.SettleAlone`).
- With an archive directory a wake-up can be lost. `WakeUp.NoLostWakeUp` holds as long as
  no Flush begins to trim the log while nobody is going to wake the writer; any step that
  breaks this guard can go on to unsaved changes that nobody will save
  (`WakeUp.UnguardedLosesWakeUp`, `WakeUp.FlushCanLoseWakeUp`), and one Flush after a start
  does (`WakeUp.StartThenFlush`).
- A heartbeat can shorten a lease that is not a whole number of seconds, exactly when it
  is the first since the claim and comes before the fraction has passed
  (`BoardLeases.HeartbeatShortens`); every lease with a fraction can lose it so
  (`BoardLeases.FractionIsLost`).
- ValidateState accepts boards on which AddTask overwrites a task
  (`BoardEffects.ValidStateAllowsOverwrite`). Some run on a valid board does so exactly
  when a task is filed under an identifier that a project, or a key fit for a new one,
  has yet to issue (`BoardOverwrites.OverwriteIffAhead`).
- A board whose JSON exceeds 1 GiB is written and then refused, and no other valid board
  is (`FileFormat.RoundTrip`); some run of calls leads to one, whatever the JSON looks like
  (`FileLimit.SomeRunIsRefused`). Decoding panics on exactly one input
  (`FileFormat.PanicsOnlyOnBareMagic`).
- The backup is the file that was migrated exactly when no other file had its name
  (`FileStore.DataDir.Load`); a death while writing the backup leaves one
  (`FileStore.InterruptedBackup`).
- After a crash the archive can hold identifiers that are issued again, and the merged log
  then hides the new entries. While every batch is cut with few unsaved entries it does not
  (`ArchiveConservation.MergeRestoresLog`); any other batch can go on to a hidden entry
  (`ArchiveReuse.UngentleTraceHidesEntry`), and with an archive directory such a batch is
  always within reach (`ArchiveReuse.FreshReachesUngentle`,
  `ArchiveReuse.RestoresExactlyWithoutArchive`).
- Two takers of a stale lock can both get it, and ForceUnlock can free a live one
  (`LockFile.TakersCanBothHold`, `LockFile.ForceUnlockCanFreeALiveLock`). At most one
  live call holds the lock while the worlds are calm (`LockFile.OneLiveHolder`), and every
  trace to a world that is not calm goes on to one with two (`LockFile.NotCalmLoses`).
- The limit of ten failed logins holds exactly when logins of an account do not overlap
  (`LoginLimiter.TenExactlyWithoutOverlap`).
- A task can lose its bar in a window of more than 292 years
  (`Timeline.BarLostInHugeWindow`); `Timeline.BarExists` says exactly when.

## Model

| member | source | states |
|---|---|---|
| TaskId.FormatIdInjective | board.go:769-772 | Two identifiers in the `KEY-n` format are equal only when key and number are, for keys without a dash |
| BoardOverwrites.SameKeyAndNumber | board.go:769-772 | The same for keys with dashes, which a loaded file may hold |
| TaskId.SplitFormat | board.go:676-680 | splitID undoes the format exactly up to the largest 64-bit integer, and gives that integer above it |
| TaskId.IdLessTotal | board.go:667-674 | idLess leaves no ties between issued identifiers |
| TaskId.IdOrderTransitive | board.go:667-674 | idLess is a weak order on all strings, so sorting by it makes sense |
| TaskId.FormatShape | board.go:769-772 | An identifier is the key, a dash, and the number in decimal without leading zeros |
| TaskId.IdLessIs | board.go:667-674 | Issued identifiers go by key and, within a project, by number: AB-2 before AB-10 |
| BoardInvariants.NextIdFresh | board.go:767-774 | On a well-formed board the next identifier of a project names no existing task: AddTask never reuses one |
| BoardInvariants.DoWellFormed | board.go:224-240 | Every call, accepted or refused, keeps the strengthened invariant of the board |
| BoardInvariants.RunWellFormed | board.go:224-240 | Every run of calls keeps it |
| BoardInvariants.ReachableIsValid | store.go:367-441 | Every board reached from NewState by any calls is well-formed and passes ValidateState |
| BoardInvariants.WellFormedIsValid | store.go:367-441 | The strengthened invariant implies what ValidateState checks |
| BoardEffects.ValidStateAllowsOverwrite | store.go:358-366 | ValidateState alone is too weak: on a board that passes it, with a task filed under another project's key, an accepted AddTask overwrites that task |
| BoardEffects.AddTaskAddsOne | board.go:729-782 | An accepted AddTask adds one task exactly when its identifier is not taken, and otherwise overwrites |
| BoardOverwrites.OverwriteIffAhead | store.go:367-441 | On a board that passes ValidateState, some run of calls has an accepted AddTask that adds no task if and only if a task is filed under an identifier beyond the counter of a project, or of a key that CreateProject would take |
| BoardOverwrites.NothingAhead | board.go:224-240 | Without such a task no call overwrites any, and no call files one |
| BoardEffects.FailedCallOnlySweeps | board.go:221-240 | A call that returns an error leaves exactly the sweep of the old board, or the old board itself when its arguments were refused; it is marked unsaved exactly when something was released |
| BoardEffects.UnmarkedCallChangesNothing | board.go:229-236 | A call that marks nothing as unsaved has changed nothing, except for the two sweeps that are not saved |
| BoardEffects.DoLogs | board.go:500-506 | No call rewrites or removes a log entry: the log only grows at its end |
| BoardCalls.SweepFrees | board.go:510-527 | A sweep puts exactly the tasks in progress whose lease has run out back to todo, without assignee and lease, and leaves the rest of them and every other task as it was |
| BoardCalls.SweepClearsAgents | board.go:523 | Exactly the assignees of those tasks that were at work on them stop |
| BoardCalls.SweepLogsEach | board.go:518-526 | One entry per such task, numbered on from the last one, naming task and former assignee |
| BoardCalls.NamesAndKeys | board.go:66-67 | Names and project keys are what the two regular expressions describe |
| BoardCalls.ClaimOutcome | board.go:788-809 | Every error of Claim and when it is returned, a lease from one second to one day included |
| BoardCalls.ClaimTakes | board.go:810-821 | An accepted Claim puts the task in progress, assigned to the caller until now plus the asked or the default lease; nothing else about it changes, and no other task |
| BoardCalls.ClaimBusies | board.go:549-563 | The claimer is known from then on, heard of now and at work on the task; no other agent changes |
| BoardCalls.ReleaseOutcome | board.go:828-840 | Every error of Release and when it is returned |
| BoardCalls.ReleaseFrees | board.go:841-847 | An accepted Release puts the task back to todo, nobody's and without a lease, and takes the caller off it |
| BoardCalls.CompleteOutcome | board.go:852-867 | Every error of Complete and when it is returned |
| BoardCalls.CompleteFinishes | board.go:868-876 | An accepted Complete makes the task done and ends its lease; it stays with its assignee, or comes to the caller if it had none, who stops working on it; nothing else about it changes, and no other task |
| BoardCalls.DoneIsFinal | board.go:865-867 | After an accepted Complete, a further Complete or Claim of that task is refused |
| BoardCalls.AddTaskOutcome | board.go:729-767 | Every error of AddTask and when it is returned, with the limits on its arguments and the rule of which type may hold which |
| BoardCalls.AddTaskAdds | board.go:768-780 | An accepted AddTask adds a task in todo, nobody's, with the given fields, type task and priority medium where none is given, under the next number of its project |
| BoardCalls.UpdateOutcome | board.go:883-949 | Every error of Update and when it is returned |
| BoardCalls.UpdateSets | board.go:950-1008 | An accepted Update sets exactly the given fields; a change of status ends the lease and takes the agent off, to todo the assignee too; it logs the names of the changed fields in order, then the move; without a change it does nothing and marks nothing |
| BoardCalls.CommentOutcome | board.go:1011-1024 | Every error of Comment and when it is returned |
| BoardCalls.CommentStamps | board.go:1025-1027 | An accepted Comment is a log entry and stamps the task, no more |
| BoardCalls.HeartbeatOutcome | board.go:1035-1056 | Every error of Heartbeat and when it is returned |
| BoardCalls.HeartbeatRenews | board.go:1057-1074 | An accepted Heartbeat restarts exactly the leases the agent holds, each at its own length in seconds or the default one, and updates the agent's record; nothing is logged |
| BoardCalls.CreateProjectCreates | board.go:702-726 | Every error of CreateProject and when it is returned; an accepted one adds the project with its count at zero |
| BoardCalls.RegisterFiles | auth.go:38-102 | Every error of Register and when it is returned; an accepted one files hash, salt and rounds under the lower-case address |
| BoardCalls.RehashReplaces | login.go:79-93 | A rehash replaces hash, salt and rounds of a known user and keeps the rest |
| BoardCalls.ShutdownEndsWork | board.go:1266-1281 | After Shutdown nobody is at work and nobody counts as online; tasks and leases stay |
| BoardCalls.ReadOnlySweeps | board.go:1079-1191 | A read call changes no more than its sweep does, and marks the board exactly if that released something |
| Accounts.AccountLetsIn | login.go:32-60 | An account lets in its password, and another exactly when both derive the same key |
| Accounts.OldHashIsReported | login.go:53-58 | A hash made with fewer rounds still lets its password in, and is then replaced |
| Accounts.UnknownIsRefused | login.go:49-52 | An unknown address is refused like a wrong password |
| Accounts.AccountSurvives | login.go:79-93 | No run of calls, rehashes of the same password included, changes whom an account lets in |
| Accounts.RegisteredLogsIn | auth.go:65-102 | Who has registered can log in at any time after, with that password, in whatever letters the address is written, and with another exactly when it derives the same key |
| BoardLeases.DoLeases | board.go:224-240 | After every admissible call each remaining lease ends later than now, and belongs to an assigned task in progress, of one second to one day |
| BoardLeases.RunLeases | board.go:510-527 | The lease invariant holds along every run |
| BoardLeases.HeldThroughCall | board.go:788-878 | While the lease of A runs, no Claim, Release or Complete by another agent is accepted, and A stops holding the task if and only if the call is an accepted Release, Complete or change of status |
| BoardLeases.HeldThroughRun | board.go:784-878 | The same over whole runs: until its lease runs out or one of those calls ends it, the task stays with its agent and everybody else is refused |
| BoardLeases.HeartbeatExtends | board.go:1061-1070 | A heartbeat of the holder never moves the end of a whole-second lease earlier, and any other by less than one second |
| BoardLeases.GrantThroughRun | board.go:788-824 | Whatever is called while a lease runs, it ends when the last claim or heartbeat of its holder granted |
| BoardLeases.HeartbeatShortens | board.go:1031-1034 | After a claim and any calls since, a heartbeat shortens the lease if and only if it comes before the fraction of a second that the last grant held has passed, which only the first heartbeat after a claim can |
| BoardLeases.FractionIsLost | board.go:1031-1034 | Whatever fraction of a second a claim asks for, a heartbeat before it has passed ends the lease earlier |
| SweepOptional.SweepAbsorbs | board.go:510-527 | A sweep at t1 followed by one at t2 shows the same board as the second alone |
| SweepOptional.SameApply | board.go:224-240 | Boards that differ only in sweep times and in the order of expirations answer every call alike and stay so |
| SweepOptional.SameCoreShows | board.go:529-531 | Such boards have the same projects, agents, users and counters, the same tasks but for the times of sweeps, the same log entries in the same order but for the expirations, and equally many expirations of each task and assignee |
| SweepOptional.SweepIsOptional | board.go:529-531 | Two runs that differ only in Sweep calls give every other call the same outcome and board, and leave boards no later call can tell apart (statuses, assignees, leases, current tasks, multisets of log entries between calls) |
| SweepLoop.SweepAllIsSwept | board.go:518-526 | Releasing the expired tasks one by one, in any order, is the sweep |
| SweepLoop.SweepOrderOnlyLogs | board.go:517-526 | The order of the releases changes nothing but the log |
| RecentActivity.SweepOrderUnique | board.go:517 | On a well-formed board the unstable sort by idLess has one result |
| RecentActivity.SweepGoesByNumber | board.go:517 | It goes by key and, within a project, by number |
| RecentActivity.Recent | board.go:1194-1205 | Recent returns the last entries, newest first: as many as asked for, up to 1000, and otherwise 100 |
| RecentActivity.RecentSeesSweep | board.go:529-531 | Recent does not sweep: a Sweep before it changes what it returns if and only if some lease has expired |
| RecentActivity.RecentMissesExpired | board.go:1194-1205 | On a board with one expired lease Recent shows less than after a sweep, for every limit |
| BoardRuntime.Board.Append | board.go:500-506 | append, in place or into a new array, adds the entry to the log and leaves every snapshot as it was taken |
| BoardRuntime.Board.SweepLocked | board.go:510-527 | The loop over pointers sorts and releases exactly the expired tasks and turns the board into the specified sweep |
| BoardRuntime.Board.ClaimLocked | board.go:788-824 | The body of Claim does to the pointer structure what the specification says, errors included |
| BoardRuntime.Board.ReleaseLocked | board.go:828-848 | The same for Release |
| BoardRuntime.Board.CompleteLocked | board.go:852-878 | The same for Complete |
| BoardRuntime.Board.EditFields | board.go:950-978 | The field-by-field edits of a patch, written through the pointer, give the edited task and the names of exactly the changed fields, in order |
| BoardRuntime.Board.MoveLocked | board.go:999-1008 | A change of status clears the agent's current task, drops the lease and, for todo, the assignee |
| BoardRuntime.Board.UpdateLocked | board.go:883-997 | The same for Update, with the record written in place, step by step |
| BoardRuntime.Board.AddTaskLocked | board.go:729-782 | The same for AddTask |
| BoardRuntime.Board.CreateProjectLocked | board.go:702-726 | The same for CreateProject |
| BoardRuntime.Board.CommentLocked | board.go:1011-1029 | The same for Comment |
| BoardRuntime.Board.RenewLeases | board.go:1061-1070 | The loop over the task map renews exactly the leases the agent holds, whatever the order of the map |
| BoardRuntime.Board.HeartbeatLocked | board.go:1035-1076 | The same for Heartbeat |
| BoardRuntime.Board.RegisterLocked | auth.go:75-102 | The same for Register, once the address, its domain and the length of the password have passed |
| BoardRuntime.Board.RehashLocked | login.go:79-93 | The same for rehash |
| BoardRuntime.Board.ShutdownLocked | board.go:1266-1281 | The same for Shutdown, before its Flush |
| BoardRuntime.Board.Perform | board.go:224-240 | A whole call equals the specification: new board, outcome, and the unsaved and wake-up marks |
| BoardRuntime.Board.SnapshotStateLocked | board.go:404-432 | The snapshot holds the board of the moment, in records disjoint from the live ones and a capped view of the shared log |
| BoardRuntime.Board.DropArchived | board.go:385-398 | The trim drops exactly the archived prefix, into a fresh array |
| BoardRuntime.SnapshotOutlives | board.go:401-403 | No sequence of calls, trims and further snapshots, in any order, changes a snapshot |
| Persistence.Cut | board.go:376 | A batch is never empty and never longer than the log |
| Durability.StepKeeps | board.go:244-442 | Every step of callers, writer, flushers, archive, disk and crash keeps the durability invariant |
| Durability.TraceKeeps | board.go:244-442 | Every interleaving keeps it |
| Durability.TraceIsHealthy | board.go:244-442 | From a well-formed board every board of the history stays well-formed |
| Durability.DiskHoldsPastBoard | board.go:323-363 | In every interleaving from any board, failures and crashes included, the disk holds a board the memory has held; from a well-formed board on it passes ValidateState |
| Durability.HistoryOnlyGrows | board.go:244-442 | A step extends the history of boards, or a crash cuts it back to what is on disk |
| Durability.DiskNeverGoesBack | board.go:343-363 | Successive disk states never go back in the history |
| Durability.CleanMeansSaved | board.go:333-336 | Not dirty and no save in flight: disk and memory show every reader the same board |
| Durability.CleanMeansEqual | board.go:333-336 | And they are equal if and only if no sweep of exportState or Authenticate released a task unsaved in between |
| Durability.FlushMeansSaved | board.go:434-442 | A Flush that returned nil left on disk a board at least as new as the one in memory when it was called, or one no reader can tell from it |
| Durability.FlushCoversItsCall | board.go:434-442 | Over any run from the call on: when Flush has returned nil, the disk holds the board it was called on or a later one, or one no reader can tell from it |
| WakeUp.StepWakes | board.go:257-362 | Every step that meets the guard keeps the wake-up invariant: no Flush begins to trim a log that is too long while nobody is going to wake the writer |
| WakeUp.NoLostWakeUp | board.go:257-362 | From any board, while every step meets the guard, unsaved changes and flushes in flight find a kick pending or the writer before its next snapshot, under any calls, failures and crashes; `SaveProgress.NothingStaysUnsaved` says what comes of it |
| WakeUp.WithoutArchiveGuarded | board.go:282-318 | Without an archive directory every step meets the guard |
| WakeUp.UnguardedLosesWakeUp | board.go:370-399 | In any machine, a step that breaks the guard can go on to unsaved changes with nobody awake, and after a failed save no step of the writer is possible |
| WakeUp.FlushCanLoseWakeUp | board.go:370-399 | So every trace whose next step would break the guard can be continued to a lost wake-up |
| WakeUp.StartThenFlush | board.go:434-442 | One Flush after the start on a log that is too long is such a trace |
| SaveProgress.SaveGoesOn | board.go:323-363 | On a disk that works, every step of a save brings it nearer to its end; a save that found changes ends with the board of the moment on disk |
| SaveProgress.SaveEnds | board.go:323-363 | So every such save ends, and saveNow returns nil |
| SaveProgress.FlushSaves | board.go:434-442 | A Flush that enters saveNow on a disk that works returns nil, with the board on disk if it had changes |
| SaveProgress.ArchiveFailureIsReported | board.go:326-332 | An archive file that cannot be written ends the save with an error; the log keeps all its entries, nothing is saved, and the writer backs off |
| SaveProgress.StoreFailureIsReported | board.go:342-362 | So does a store that fails, and the changes stay unsaved |
| SaveProgress.CrashLeavesDisk | store.go:75-98 | A crash leaves the board on disk and the archive, and a process with nothing to save |
| SaveProgress.HasNext | board.go:282-318 | While there are unsaved changes, the writer is awake and no Flush is in saveNow, some step of the writer is possible |
| SaveProgress.StepNearer | board.go:282-363 | And every one, on a disk that works, brings it strictly nearer to a saved board, or there |
| SaveProgress.WorkIsSaved | board.go:282-363 | Whatever the order of these steps, the board has been saved after a stated number of them |
| SaveProgress.AwakeGetsSaved | board.go:273-318 | The writer alone gets to disk and memory equal, nothing unsaved, and itself asleep; only old entries have left the log |
| SaveProgress.NothingStaysUnsaved | board.go:273-318 | So it does after any guarded trace from a start that leaves unsaved changes and no Flush in saveNow |
| SaveProgress.LooksAtLimit | board.go:370-378 | A log is archived exactly when it is longer than maxActivity, all but its newest maxActivity/2 entries |
| SaveProgress.MoveKeepsNewest | board.go:385-398 | After the move the live log is these entries and what was logged meanwhile |
| ArchiveFiles.GroupByMonth | archive.go:40-48 | One group per month met, holding exactly the entries made from the first instant of that month to before the next |
| ArchiveFiles.FileIsMonth | archive.go:31-33 | The file of a month holds the entries made in that month, UTC |
| ArchiveFiles.FileOfDate | archive.go:31-33 | An entry made at any time of a given year, month and day goes to the file of that year and month |
| ArchiveFiles.GroupKeepsOrder | archive.go:40-48 | A group keeps the order of the log and takes each entry of its month once |
| ArchiveFiles.ArchiveDir.AppendArchive | archive.go:36-78 | Writes one member per month, earliest first, up to the first file that cannot be written; each file gains exactly the entries made in its month, and what could be read can still be read |
| ArchiveFiles.ArchiveDir.ReadArchive | archive.go:83-131 | Returns the first entry of each identifier in identifier order, and refuses exactly when some member is of a newer version |
| ArchiveFiles.MergeActivity | archive.go:135-148 | The same for an archive and a live log |
| ArchiveFiles.MergeUnique | archive.go:133-148 | A list has only one such merge |
| ArchiveFiles.MergeRestores | archive.go:80-148 | Pieces of one numbered log that miss nothing merge back to it, in any order and however often repeated |
| ArchiveFiles.MemberAdds | archive.go:50-76 | A member adds to the archive exactly the entries of its month |
| ArchiveFiles.AppendedFile | archive.go:36-78 | The same for a whole append, file by file, by the times of the entries |
| ArchiveFiles.AppendedStepwise | archive.go:50-76 | Writing the members one step at a time, as the protocol does, gives the files that appendArchive gives |
| ArchiveConservation.StepConserves | board.go:365-399 | Every step, crashes included, keeps the conservation invariant between ledger, live log, data file and archive |
| ArchiveConservation.NothingLost | board.go:365-369 | From an empty board, at every step including a crash between append and drop, every identifier up to the counter on disk has its entry in the archive or in the data file |
| ArchiveConservation.MergeRestoresLog | archive.go:133-148 | Archive and live log merge to exactly the entries 1..NextActivityID, each once and in order: at any moment of a run, and across crashes while every batch was cut with at most maxActivity/2 unsaved entries |
| ArchiveReuse.CrashReusesId | board.go:376-378 | The condition is needed: the first other batch, archived and followed by a crash, leaves in the archive one entry with the identifier the restarted board issues next |
| ArchiveReuse.ReusedIdHidesEntry | archive.go:138-146 | Then the merged log shows the archived entry in place of the new one |
| ArchiveReuse.UngentleTraceHidesEntry | board.go:365-399 | Every gentle trace from an empty board whose next step cuts any other batch can be continued to an entry of the live log that no reading of archive and log shows |
| ArchiveReuse.FreshReachesUngentle | board.go:376-378 | With an archive directory, calls and one Flush lead from an empty board to such a batch |
| ArchiveReuse.RestoresExactlyWithoutArchive | archive.go:133-148 | The merged log is the whole log at every moment of every run if and only if there is no archive directory |
| Crc32c.CheckValue | store.go:171 | The model of the checksum has the published check value of CRC-32C |
| Crc32c.UpdateInjective | store.go:171 | The step of the checksum register is injective for a fixed byte |
| Crc32c.FourBytesTell | store.go:171 | From one register value, different runs of four bytes lead to different ones |
| Crc32c.BurstDetected | store.go:207-235 | No damage confined to four adjacent bytes keeps the checksum, for data of any length |
| StateDocument.Migrate | store.go:331-352 | The loop gives type and priority exactly to the tasks of unversioned files that lack them, and leaves every other field, row and map as it was |
| StateDocument.MigrationKeeps | store.go:331-352 | Exactly one document keeps everything so: an empty type becomes task and an empty priority medium in a file without a version, null rows stay, and a later file changes in its version only |
| StateDocument.ValidateState | store.go:367-441 | Accepts exactly the documents without null entries whose board is valid |
| StateDocument.RefusedForADefect | store.go:367-441 | A board is refused for one of the listed defects of a task, its parent, its number, a project, an agent, a user or the log, and for nothing else |
| FileFormat.LooksLikeBoard | store.go:272-284 | Refuses exactly what is no JSON object or names no field of a board |
| FileFormat.DecodeState | store.go:292-327 | Parses, checks the version, migrates, fills in missing maps and validates, as specified |
| FileFormat.ReadStands | store.go:292-327 | What is read stands for the document: its rows, migrated, and everything else unchanged; from white space it is an empty board |
| FileFormat.StandingIsRead | store.go:292-327 | Every object with a field of a board and a version from 0 to 3 that stands for a valid board is read as it |
| FileFormat.EncodeFile | store.go:187-211 | Writes magic, version, length, payload and checksum, and marks the board with the current schema version |
| FileFormat.FileBytes | store.go:187-211 | A file is `ABD2`, the format 2, eight bytes of length, the payload, and four bytes of checksum, most significant first |
| FileFormat.LengthByte | store.go:208 | The length likewise: byte i is the digit of 256 to the power 7 - i |
| FileFormat.DecodeFile | store.go:217-254 | Reads as specified, with every index in bounds |
| FileFormat.KindsOfFiles | store.go:217-235 | A loaded file is legacy exactly when it does not begin with `ABD2`; another format is refused, a header cut short is corrupt, and what does not begin with `ABD` is read as JSON |
| FileFormat.PanicsOnlyOnBareMagic | store.go:213-221 | Decoding panics if and only if the input is the three bytes `ABD` in a slice without room for a fourth |
| FileFormat.LoadedIsValid | store.go:286-327 | Whatever is loaded passes ValidateState |
| FileFormat.RoundTrip | store.go:180-254 | Encoding then decoding gives the board back if and only if it is valid and its JSON is at most 1 GiB; otherwise the file just written is reported corrupt |
| FileFormat.ReachedBoardIsReadBack | store.go:169-254 | For every reachable board: read back, with legacy false, if and only if its JSON is at most 1 GiB |
| FileLimit.SomeRunIsLonger | store.go:175-178 | However boards are written as JSON, some run of calls leads to one whose JSON is longer than any limit |
| FileLimit.SomeRunIsRefused | store.go:242-248 | So some reachable board is written and then refused |
| FileFormat.ExportIsImportable | board.go:1228-1259 | exportState returns the board, and an export is the board without its users and imports as itself |
| FileFormat.TruncationDetected | store.go:222-231 | Every non-empty proper prefix of a data file is rejected (the prefix `ABD` in a slice with room for a fourth byte) |
| FileFormat.PayloadDamageDetected | store.go:232-236 | Every damage within four adjacent payload bytes is reported as corrupt |
| FileFormat.OneByteDamageDetected | store.go:217-236 | Every file that differs from a written one in one byte is rejected |
| FileStore.DataDir.SaveLocked | store.go:126-157 | The data file is replaced as a whole or not at all, whichever steps fail and wherever the process dies; a failure leaves at most the temporary file behind, and that only when it could not be removed |
| FileStore.DataDir.MigrateLocked | store.go:102-117 | An existing backup is never overwritten, the data file is always the old or the new one, and without an earlier backup the original is always there as one of the two files |
| FileStore.DataDir.Load | store.go:75-98 | A refused file is left untouched; a legacy file is opened as its board, backed up and rewritten |
| FileStore.MigratedIsReadBack | store.go:75-98 | A migrated file reads back as the board it came from |
| FileStore.InterruptedBackup | store.go:100-117 | The backup is not always the old file: after a death while writing it, the next load keeps the broken backup and replaces the original |
| Calendar.MonthOf | model/date.go:31-40 | Every day lies in exactly the month it is said to |
| Calendar.MonthUnique | model/date.go:31-40 | And in no other |
| Calendar.DateInItsMonth | model/date.go:30-33 | NewDate gives a day of the month it was asked for if and only if the month has that day |
| Calendar.EveryDayIsADate | model/date.go:30-33 | Every day is NewDate of exactly one year, month and day of the month |
| Calendar.AddMonthsToFirst | model/date.go:70 | From the first of a month, AddMonths lands on the first of the month so many later |
| Calendar.AddMonthsBack | model/date.go:70 | Going n months on and n back returns to the same day if and only if the day exists in the other month |
| Calendar.AddMonthsToDate | model/date.go:70 | AddMonths goes to the same day of the month so many later; a day that month lacks carries over |
| Calendar.KnownDates | model/date.go:30-33 | The day numbers of January 1 of the years 1, 1970 and 2024 |
| Calendar.FourCenturies | model/date.go:30-33 | The calendar repeats every 400 years, after 146097 days and on the same day of the week |
| Calendar.WeekdayOfDate | internal/view/timeline.go:35-39 | The day of the week of every date by Zeller's rule |
| Calendar.MondayEveryWeek | internal/view/timeline.go:35-39 | Mondays are the days a whole number of weeks from Monday, January 1, 2024 |
| Timeline.WeekStart | internal/view/timeline.go:35-39 | The Monday on or before a day, counted in weeks from January 1, 2024 |
| Timeline.WeekTicks | internal/view/timeline.go:82-86 | The ticks are exactly the Mondays strictly inside the segment, in order |
| Timeline.MonthsInWindow | internal/view/timeline.go:64-91 | The segments tile every non-empty window, and an empty one has none |
| Timeline.SegmentsAreMonths | internal/view/timeline.go:61-91 | Each segment lies in one calendar month, consecutive ones in consecutive months |
| Timeline.ShiftedWindowHasThreeMonths | internal/view/timeline.go:16-31 | However it was shifted, the default window shows three whole months, the first as far from the month of today as the shifts add up to, and shifts that add up to nothing restore it |
| Timeline.DaysBetweenSaturates | internal/view/timeline.go:41-46 | DaysBetween is exact up to 106751 days and stops there |
| Timeline.FractionIsShare | internal/view/timeline.go:93-108 | In a window of at most 106751 days a fraction is the exact clamped share, however far off the date |
| Timeline.BarExists | internal/view/timeline.go:134-149 | There is a bar exactly when the task has both dates in order, its days, the end date included, meet a non-empty window, and it begins less than 106751 days into it; then the bar lies within the window and has a width |
| Timeline.BarIsExact | internal/view/timeline.go:134-149 | In windows of at most 106751 days the condition reduces to meeting the window, and both edges are the exact shares of the window before the start date and up to the end of the end date |
| Timeline.BarLostInHugeWindow | internal/view/timeline.go:134-149 | In a longer window a task that meets it can have no bar |
| Timeline.TimelineRows | internal/view/timeline.go:180-190 | The rows are the bars of the tasks that have one |
| Timeline.RowsKeepOrder | internal/view/timeline.go:176-190 | They keep the order of the tasks and leave none out |
| StableSort.StableOrderUnique | internal/view/view.go:41-48 | A list has one stable order, whatever the algorithm |
| StableSort.Columns | internal/view/view.go:26-51 | Todo, in progress, review, done and blocked, each with exactly the tasks of its status and project: urgent, high, medium, low, and equally urgent ones by the latest update, ties in list order |
| StableSort.SortByStartDate | internal/view/timeline.go:195-209 | Exactly the tasks with both dates, by start and then by identifier, ties in list order |
| EpicView.EpicOf | internal/view/view.go:210-222 | The loop is the walk of eight steps |
| EpicView.WalkIsClosure | internal/view/view.go:210-222 | On a well-ordered list the walk names an epic if and only if the epic is the task itself or an ancestor |
| EpicView.WalkSeesEight | internal/view/view.go:210-222 | On any list, cycles included, the walk finds the first epic on the way up exactly when it is among the first eight tasks |
| EpicView.UnderParent | internal/view/view.go:210-222 | Above a task are the task itself and what is above its parent, if that is in the list |
| EpicView.OneEpic | internal/view/view.go:224-226 | A task has at most one epic above it |
| EpicView.IndexLast | internal/view/view.go:202-208 | Of tasks with the same identifier the last one counts |
| EpicView.InEpicIsClosure | internal/view/view.go:228-242 | InEpic returns exactly the epic and all its descendants, in order |
| EpicView.InEpic | internal/view/view.go:230-242 | The loop is that selection; the empty epic selects everything |
| EpicView.EpicProgress | internal/view/view.go:278-290 | The loop counts the positions of the counted and of the done tasks |
| EpicView.ProgressIsClosure | internal/view/view.go:275-290 | What is counted are exactly the leaf tasks beneath the epic, however deep, and as done exactly those of them with status done |
| EpicView.EmptyEpicCountsOrphans | internal/view/view.go:278-290 | For the empty epic it counts exactly the leaf tasks under no epic |
| EpicView.BoardIsOrdered | board.go:682-698 | The tasks of every well-formed board are well ordered, in any listing |
| Pbkdf2.DeriveBlock | pbkdf2.go:40-54 | One round of the outer loop computes F of section 5.2 of RFC 8018 in place |
| Pbkdf2.DeriveKey | pbkdf2.go:34-59 | The loop nest derives the key of section 5.2 of RFC 8018 for every password, salt, iteration count and allowed key length; fewer than one iteration count as one |
| Pbkdf2.KeyByte | pbkdf2.go:44-56 | Each key byte is the exclusive or of the same byte of U_1 to U_c of its block |
| Pbkdf2.KeyByteOfChain | pbkdf2.go:34-59 | The same by an explicit chain that starts from the salt and the block number in four octets, most significant first, blocks counted from one |
| Pbkdf2.ShorterKeyIsPrefix | pbkdf2.go:56-58 | A shorter key is a prefix of a longer one |
| Pbkdf2.VerifyPassword | pbkdf2.go:75-78 | Accepts exactly when the derived key of the stored length equals the hash |
| Pbkdf2.VerifiesItsOwn | pbkdf2.go:64-78 | A stored hash verifies its own password, and another exactly when the derived keys agree |
| Pbkdf2.HashPassword | pbkdf2.go:64-70 | What is stored for a password verifies it, and another password exactly when the derived keys agree |
| Pbkdf2.ShortHashVerifiesMore | store.go:426-428 | A hash cut short verifies at least as many passwords, an empty one all of them, which is why ValidateState refuses it |
| Sessions.SessionStore.CreateSession | sessions.go:63-72 | A new session runs for one ttl |
| Sessions.SessionStore.ValidateSession | sessions.go:78-95 | Answers, slides the expiry or deletes the expired session, as specified |
| Sessions.SessionStore.InvalidateSession | sessions.go:99-106 | Logging out removes exactly that session |
| Sessions.SessionStore.SweepSessions | sessions.go:112-124 | Removes exactly the expired sessions and counts them |
| Sessions.SweepIsOptional | sessions.go:108-111 | Sweeps anywhere in a run change no answer of any other call |
| Sessions.DeadStaysDead | sessions.go:74-77 | A session that ended is never valid again |
| Sessions.LogoutIsFinal | sessions.go:97-106 | After a logout nobody is let in with that session again, and no other session is touched |
| Sessions.LivesWhileUsed | sessions.go:74-95 | A session is live exactly as long as no two uses lie further apart than its ttl |
| Sessions.AnswersItsOwner | sessions.go:74-95 | Whoever a session lets in is who it was last created for |
| Sessions.LoginAnswers | sessions.go:63-95 | After a login, and until a logout, the session answers with that address exactly as long as no two uses lie further apart than its ttl |
| LoginLimiter.Limiter.FilterInPlace | sessions.go:168-173 | Filtering a slice in its own array leaves exactly the later times, in order |
| LoginLimiter.Limiter.Allowed | sessions.go:164-180 | Keeps exactly the failures in the window, touches no other account, and allows fewer than ten |
| LoginLimiter.Limiter.RecordFailure | sessions.go:182-186 | Adds the failure at the end, in place or in a new array |
| LoginLimiter.Limiter.RecordSuccess | sessions.go:188-192 | A success clears that account and no other |
| LoginLimiter.AtMostTenFailures | auth_server.go:44-60 | No window of fifteen minutes holds more than ten failures of an account since its last success, plus one for each login that may overlap another |
| LoginLimiter.PendingCounts | auth_server.go:44-60 | The logins that overlap are those that passed the check and have not ended |
| LoginLimiter.BoundIsMet | auth_server.go:50-58 | The bound is met for every number of logins that may overlap: nine failures in a row, then that many logins that all check before any of them fails |
| LoginLimiter.TenExactlyWithoutOverlap | auth_server.go:44-60 | Every history keeps to ten failures per window if and only if at most one login of the account runs at a time |
| LockFile.AcquireLock | lock.go:45-90 | Undisturbed, the retry loop takes the lock if and only if there is no lock file or a stale one of this host, and otherwise leaves the file alone |
| LockFile.GivesUpAfterThree | lock.go:56-90 | In every interleaving a call makes three attempts and then gives up, leaving the file alone |
| LockFile.OneHolder | lock.go:50-157 | While no process dies between creating and removing the lock file, and ForceUnlock is not used, at most one call holds the lock, in every interleaving of file-system calls |
| LockFile.OneLiveHolder | lock.go:82-87 | With processes dying at any moment and ForceUnlock in use, at most one live call holds it while the worlds are calm: at most one call is about to remove the file, and ForceUnlock only the one it read |
| LockFile.TouchesOnlyItsOwn | lock.go:143-157 | Release and SetAddr then only ever touch their own file |
| LockFile.ReleasedIsFree | lock.go:143-157 | After a Release of the holder there is no lock file, and the next call gets the lock |
| LockFile.ForceUnlockAlone | lock.go:159-179 | Undisturbed, ForceUnlock removes the file exactly when its holder is of this host and gone |
| LockFile.CrowdedLoses | lock.go:82-87 | From any consistent world with two live calls about to remove the file, eight steps of two new calls lead to both of these holding the lock |
| LockFile.StrayLoses | lock.go:159-179 | From any consistent world where ForceUnlock is about to remove a file it did not read, two live calls can come to hold the lock |
| LockFile.NotCalmLoses | lock.go:82-87 | So calmness is exact: every trace that reaches a world that is not calm can be continued to one with two live holders |
| LockFile.TakersCanBothHold | lock.go:82-87 | Two takers of a dead holder's lock reach such a world |
| LockFile.ForceUnlockCanFreeALiveLock | lock.go:159-179 | So does ForceUnlock, even when nobody died holding the lock |
| SettleWindow.Settle | board.go:289-307 | For every sequence of kicks and every lateness of the timer the settle phase ends within the larger of debounce and maxLatency plus that lateness, not before the smaller, only after a quiet debounce or with the latency used up, and no later than a debounce and that lateness after the last kick |
| SettleWindow.SettleAlone | board.go:278-279 | The wait for a single kick stays within maxLatency if and only if the debounce, with the lateness of the timer, does |
| SettleWindow.BackoffIsPower | board.go:308-314 | Wait k is the smaller of 100 ms times 2^k and 5 s |
| SettleWindow.RetryUntilSaved | board.go:308-316 | The retry loop ends with the first attempt that succeeds, and less than five seconds and two attempts after the store works again |
| SettleWindow.SavedInTheEnd | board.go:279-281 | Some attempt succeeds |
| SettleWindow.SavedSoonAfter | board.go:279-281 | It starts less than five seconds, and the time one failing attempt takes, after the store works again |
| SettleWindow.SoonIsNotSooner | board.go:308-314 | No smaller bound holds, whatever the attempts take |

## Left out

- The HTTP server, server-sent events, client, webhooks, command line, WebAssembly
  interface and embedded assets: plumbing and presentation.
- The inside of JSON, deflate, gzip and HMAC-SHA256, as said above. Values that JSON
  cannot write (years beyond 9999) are not part of this model.
- Archive members are written whole or not at all: a gzip member torn by a crash in
  the middle of a write, which ReadArchive then reports as corrupt, is not modelled.
- Sync mode and saves after Close, which save without saveMu, Close itself, and
  subscribers to events.
- The copies of tasks, agents and projects that calls return, and filters, sorting and
  the derived online flag of the read calls; a read call is a sweep and a lookup.
- How long Authenticate takes (dummyVerify), and its steps one by one: `Accounts` says what it
  answers on the board it has swept, and takes a rehash to be of the password that logged in.
- Trimming of strings, normalisation of labels and parsing of dates: calls receive the
  results. Lower case is ASCII, and lengths count characters.
- Overflow of the 64-bit counters for tasks and activities, except where splitID and
  idLess clamp.
- Process identifiers that are used again (a process that died stays dead), and a Lock
  that is released twice at the same time.
- The fractions of a bar are reals, where the source computes with 64-bit floats.
- A release by an agent that is itself named "system" looks like a sweep: `SweepOptional`
  ignores the time of such a release too.
- BoardRuntime.Board.RegisterLocked: whether net/mail parses the address is one given
  answer.
