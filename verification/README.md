# TaskMonitor verification

TaskMonitor is a daemon with one event loop. Process events, timers and queued requests all change
the same lists in place, and several changes are staged on a list until a later request commits them.
This project models that machinery in Dafny and proves what holds in every run, for every order of
events.

## How the project is built

Components that the program changes in place are classes here, with the fields of the original and
methods that loop where the original loops. Each such class has an abstraction function, and each
method's `ensures` ties the abstract state after the call to a value-level function of the state
before. Properties of whole runs are lemmas about the value-level functions; two driver methods
(`EventLoop.Loop.Run` for the registry, `Inactivity.RunLoop` for the state manager and its collectors)
show that any run of the objects is a run of those functions.

| file | content |
|---|---|
| `Words.dfy`, `SafeLists.dfy`, `Keyed.dfy`, `Text.dfy` | wrapping integers and floor division; the staged list and the request queue; lists with keys; splitting, scanning and decimal numbers |
| `StatLine.dfy`, `Smaps.dfy`, `ProcEntries.dfy` | one process: its stat line, its memory file, its CPU percentage, its periodic update |
| `Registry.dfy`, `ProcRegistry.dfy`, `EventLoop.dfy` | the process and context registry: on values, as objects, and driven by events |
| `RegistryProofs.dfy`, `NameTable.dfy`, `Draining.dfy`, `Arrivals.dfy`, `Entries.dfy` | the registry's invariant, its refinement to a table of names, draining, which forks are followed, what becomes of one entry |
| `Contexts.dfy`, `Reports.dfy` | context totals and coverage, and what is sent |
| `StateManager.dfy`, `Lifecycle.dfy`, `Inactivity.dfy` | collectors, the request protocol and the wake lock; the inactivity rule over runs with time |
| `CpuShare.dfy`, `CpuGuard.dfy`, `SysProcStat.dfy` | CPU shares and their recovery after bad samples, what their guard is worth, the pending update protocol, the CPU list |
| `Index.dfy`, `DiskStats.dfy`, `Pressure.dfy` | find-or-append lists against maps, the disk list, pressure files |

## Main results

- **The process list is a table.** In every run of forks, execs, exits, scans, failed updates,
  reports and commits the list has one entry per pid and equals a table from pid to name plus a set
  of marked pids. A process stays listed and unmarked through a whole run if and only if no event asks
  for its removal, whatever requests are handled in between.
- **A fork that leads to an entry is followed** if and only if its pid is not marked when the event comes.
  An exit event clears all marks at once, so a commit request left over from before cannot drop the
  process forked next. A pid
  whose end only a failed update noticed stays listed and marked until the commit; its fork in between is
  ignored and then dropped, and this order of events is reachable (`Arrivals.LostForkIsReachable`).
- **Blacklist.** A pid that is not listed is listed by its fork event or a scan if and only if its name and
  stat file can be read and no blacklist key stands anywhere in its name; and no listed name ever
  contains a key.
- **One process.** In every run that spares it a process has one entry, whose usage is what its own
  readings make of it and whose accounting record is the last one that arrived. Its first reading
  publishes 0; from then on its percentages weighted by their durations bracket the CPU time really used.
  What printed files hold arrives in the entry, each value in its own field.
- **Reports.** In every run each report asked for is answered once and in order, and each context report
  adds up.
- **Context totals are a partition.** After a report the totals of all contexts add up, in the width
  of each field, to what their processes use, and exactly so when nothing outgrows its field.
- **Coverage, exactly.** A process always has its context entry if no process was admitted to a
  context that was staged for removal. After draining, coverage holds if and only if no surviving
  process belongs to a context that was staged. The failing order of events is reachable from the
  empty registry (`Contexts.StagedContextIsReachable`).
- **Draining.** Whatever is staged has its commit request queued; handling requests terminates, and
  then nothing is staged.
- **Collector lifecycle.** Whenever the queue is empty the active list is the submitted collectors
  without the removed ones, in order, each once. With the option on and both sysfs files there, the wake
  lock agrees with the list or an update is queued; with any option and any files, the lock agrees when
  the queue is empty if and only if the last update handled did not miss its file or its option.
- **Inactivity.** In every run a collector is asked to leave exactly by the sweeps that find it active
  with its last successful message longer ago than the timeout. So one that keeps talking is never
  asked. For one that falls silent at `t`, the first sweep after `t + timeout` comes by
  `t + 2 * timeout`; it asks the collector if and only if it is on the active list then, and nothing asks
  it before. Whenever the queue is empty, a submitted collector is on
  the list if and only if its event source has not ended and no sweep has asked it.
- **CPU shares.** Exact on plausible samples. In every run what is published are the shares between
  the last accepted sample and its predecessor; rejected samples leave them as they were, so they can
  be old. A rejected sample empties the baseline, so the next one is compared with nothing; nothing else
  but an empty sample empties it. Unless the first one divides by zero, three plausible samples make the shares exact again
  whatever came before.
- **The guard of the CPU shares** does not bound the single shares by 100. Accepted shares are true
  and at most 100 if and only if no scaled counter outgrows 64 bits and the joint share is below 2^32
  percent. A busy counter that runs backwards always violates the first condition unless it loses more
  than 99% of its range. Both failures follow from two samples after the start: a system share of
  4294967196 percent (`CpuGuard.SharesAbove100`), and a user share of 50 percent after the user counter
  ran backwards (`CpuGuard.BackwardsLooksBusy`).
- **Division by zero.** The CPU update divides by zero if and only if a sample has the total of the
  baseline again, as two equal samples do. A process update that can read its ticks does so if and only if no
  time passed since its last reading; the runs of the registry's objects say exactly when one of their steps does.
- **The CPU file.** The samples that reach the list are those of the first lines that mention "cpu"; the
  reading is done exactly at the first line that does not, or at the end. Printed CPU lines before such a
  line give exactly these CPUs.
- **Keyed lists.** The disk and CPU lists hold for every key what a map would, in the order of first
  lines; a disk line that breaks off leaves its entry listed, with the counters before the gap new and
  the others old.
- **Pending updates.** At most one update request is queued in every run. The flag tells whether one
  is queued if and only if no update handler threw; after one has thrown, which the first tick can
  bring about, the source never queues an update again.

Where the program and its own comments disagree, the model follows the program: the comment at
source/SysProcStat.cpp:33-34 says invalid samples are rejected, which the wrapped 32-bit sum does not
achieve.

## Model

| member | source | states |
|---|---|---|
| SafeLists.SafeList.Commit | source/ProcRegistry.cpp:387-391 | Applies every staged change by object identity and leaves nothing staged. |
| SafeLists.SafeList.Append | source/ProcRegistry.cpp:299 | Stages an element; with the immediate flag it also commits everything staged earlier. |
| SafeLists.SafeList.Remove | source/StateManager.cpp:147 | Stages a removal by identity; with the immediate flag it also commits everything staged earlier. |
| SafeLists.AsyncQueue.Push | source/ProcRegistry.cpp:42-45 | A request goes to the end of the queue; pushing never fails. |
| SafeLists.AsyncQueue.Pop | source/ProcRegistry.cpp:38-39 | Requests are taken in the order in which they were pushed. |
| Text.Tokenize | source/SysProcPressure.cpp:30-50 | The character loop returns exactly the maximal separator-free runs of the string. |
| Text.FieldsKeepContent | source/SysProcPressure.cpp:30-50 | For every string: all tokens are nonempty and separator-free, and together they are the string with the separator deleted. |
| Text.TokenizeRoundTrip | source/SysProcPressure.cpp:30-50 | Tokenizing undoes joining, for every list of nonempty separator-free tokens. |
| Text.FieldsConcat | source/ProcEntry.cpp:115-121 | Splitting distributes over concatenation at a separator, so what surrounds a piece of text cannot change its tokens. |
| Text.StreamTokens | source/ProcEntry.cpp:158-164 | The stream extraction loop returns the maximal runs without white space. |
| Text.StoulOfDecimal | source/ProcEntry.cpp:128-132 | Reading a printed 64-bit number gives the number back. |
| Text.StoulOfDigits | source/ProcEntry.cpp:128-132 | What a conversion makes of an optional sign, digits and what follows: the number, negated modulo 2^64 after a minus sign, or an exception above 64 bits. |
| Text.StoulOfNoDigits | source/ProcEntry.cpp:128-132 | Without a digit there is no number. |
| Text.ContainsIff | source/ProcRegistry.cpp:232-236 | A name contains a key if and only if it is the key with some text before and after it. |
| StatLine.ReadProcStatTokens | source/ProcEntry.cpp:146-173 | Distinguishes an unreadable file, a malformed line, and a line with a tick count, as the reader does. |
| StatLine.StatRoundTrip | source/ProcEntry.cpp:102-133 | For every pid, every command name without a newline and every 50 trailing fields, the printed line gives back pid, parent pid and the tick sum, both at construction and at a periodic reading. |
| StatLine.StatRejects | source/ProcEntry.cpp:102-173 | A missing or empty file, a line of fewer than 52 tokens and a needed token that is no number are refused, each in its way. |
| StatLine.FieldsOfPrint | source/ProcEntry.cpp:115-127 | However the name splits, its tokens stand between the pid and the 50 trailing fields. |
| Smaps.SmapsRoundTrip | source/ProcEntry.cpp:193-250 | A file with a printed "Rss:" line before a printed "Pss:" line, and no other such line before the second one, gives back both numbers, whatever else it holds. |
| Smaps.MalformedStops | source/ProcEntry.cpp:211-245 | A line of either kind that is short or holds no number ends the reading without success; nothing of it or after it is read. |
| Smaps.SecondMalformed | source/ProcEntry.cpp:211-245 | When such a line comes second, the first number stays read. |
| ProcEntries.ProcEntry.constructor | source/ProcEntry.cpp:33-45 | A new entry carries the name, the values of its stat line and its context, with no usage and no reading time. |
| ProcEntries.ProcEntry.ReadProcStat | source/ProcEntry.cpp:170-190 | The first reading publishes 0; later ones publish the wrapped tick increase per second over the elapsed time, and each becomes the base of the next; it divides by zero exactly when a later reading comes after no time at all. |
| ProcEntries.ProcEntry.ReadProcSmapsRollup | source/ProcEntry.cpp:193-250 | The line loop sets each value at its line and stops after two such lines or at a malformed one. |
| ProcEntries.ProcEntry.UpdateProcInfo | source/ProcEntry.cpp:68-100 | Ticks, memory and descriptors are read in this order, each only if the ones before succeeded; what was read before a failure stays, the status is false exactly when a part failed, and the pending flag is down again, unless the update divides by zero. |
| ProcEntries.ProcEntry.UpdateProcAcct | source/ProcEntry.cpp:48-65 | Nothing is asked while no collector wants accounting data or an answer is awaited; otherwise the answer is awaited from now on, and the status says whether the request was taken. |
| ProcEntries.PercentageExactIffFits | source/ProcEntry.cpp:184-187 | A published percentage brackets the true tick increase if and only if ticks grew, the scaled increase fits 64 bits and the quotient fits 32 bits. |
| ProcEntries.Reconstruction | source/ProcEntry.cpp:170-188 | From a new process: the first update publishes 0 and starts the clock; over every run of updates after it whose arithmetic fits, the published percentages weighted by their durations bracket the CPU time really used since. |
| ProcEntries.SecondUpdate | source/ProcEntry.cpp:180-188 | The second update of a process publishes its tick increase per second, rounded down. |
| ProcEntries.UpdateStoresFiles | source/ProcEntry.cpp:146-292 | An update from printed files stores ticks, both sizes and the descriptor count each in its own field, leaves everything else alone, and succeeds unless the descriptors cannot be counted. |
| ProcEntries.UpdateFails | source/ProcEntry.cpp:146-292 | An update fails when a file is missing, empty or cut short, or the descriptors cannot be counted. |
| ProcEntries.FailedUpdateKeeps | source/ProcEntry.cpp:274-292 | What was read before the failure stays and nothing else changes. |
| ProcEntries.FailedUpdateKeepsSize | source/ProcEntry.cpp:211-245 | An update whose second memory line is malformed fails, but its ticks and its resident size stay. |
| ProcEntries.NewEntryStoresFile | source/ProcEntry.cpp:102-143 | A new entry holds the values of a printed stat file each in its own field, and no usage. |
| ProcRegistries.ContextEntry.ResetData | source/ContextEntry.cpp:23-29 | All four totals are zero afterwards. |
| ProcRegistries.ContextEntry.Accumulate | source/ProcRegistry.cpp:473-482 | Adds one process to the four totals, each in the width of its field. |
| ProcRegistries.ProcRegistry.constructor | source/ProcRegistry.cpp:35-40 | A new registry is empty, with nothing staged and nothing queued. |
| ProcRegistries.ProcRegistry.IsBlacklisted | source/ProcRegistry.cpp:227-239 | True exactly when some blacklist key occurs in the name; `Registry.BlacklistedIff` says what that is. |
| ProcRegistries.ProcRegistry.CreateProcessEntry | source/ProcRegistry.cpp:282-313 | Adds the entry, whether or not the pid is listed already, and, unless a context of its id is listed, a context; each append commits what was staged on its list; a stat file that yields no entry changes nothing. |
| ProcRegistries.ProcRegistry.AddProcEntry | source/ProcRegistry.cpp:137-161 | Adds an entry only for a pid that is not listed, has a readable name that is not blacklisted and a usable stat file. |
| ProcRegistries.ProcRegistry.UpdProcEntry | source/ProcRegistry.cpp:163-189 | Renames the entry of the pid, or removes it when the new name is blacklisted, and commits in every case. |
| ProcRegistries.ProcRegistry.RemProcEntry | source/ProcRegistry.cpp:191-207 | Stages the entries of the pid and either commits at once or queues a commit request, found or not. |
| ProcRegistries.ProcRegistry.RemProcEntryNamed | source/ProcRegistry.cpp:209-225 | The same for all entries of a name. |
| ProcRegistries.ProcRegistry.InitFrom | source/ProcRegistry.cpp:80-109 | The initial scan adds every admissible pid it finds, again when it is found again or listed already; only a scan that finds each pid once keeps one entry per pid. |
| ProcRegistries.ProcRegistry.UpdateProcessList | source/ProcRegistry.cpp:368-385 | A scan is an add for each pid found, in order. |
| ProcRegistries.ProcRegistry.UpdateEntries | source/ProcRegistry.cpp:335-345 | Every listed entry gets its reading; the ones that fail stage their own removal and queue a commit, while the list itself stays as it is; the pass stops exactly if some entry divides by zero. |
| ProcRegistries.ProcRegistry.UpdateAccounting | source/ProcRegistry.cpp:335-345 | If a collector wants the data, every listed entry that awaits no answer asks for its record, and the ones that are refused stage their own removal and queue a commit. |
| ProcRegistries.ProcRegistry.AnswerAcct | source/ProcAcct.cpp:26-86 | A record from the kernel goes to the last listed entry of its pid, which then may ask again; one for a pid that is not listed is dropped. |
| ProcRegistries.ProcRegistry.UpdateLane | source/ProcRegistry.cpp:315-348 | A lane tick scans unless process events drive the registry; then the pace lane reads process information, the slow lane asks for accounting data if there is accounting, and the fast lane does nothing more. |
| ProcRegistries.ProcRegistry.SumContext | source/ProcRegistry.cpp:468-485 | The inner loop gives one context the totals of exactly its own processes and reports whether there is one. |
| ProcRegistries.ProcRegistry.CollectAndSendContextInfo | source/ProcRegistry.cpp:466-501 | All contexts are counted again, the ones without a process are staged, a commit request is queued, and the report sent still contains the staged ones. |
| ProcRegistries.ProcRegistry.HandleNext | source/ProcRegistry.cpp:59-78 | Handles the oldest request and no other, and sends what that request asks for: all listed processes, all contexts as counted, or all accounting records. |
| EventLoop.ProcEvent.Receive | source/ProcEvent.cpp:84-150 | Counts the event and turns it into the registry step: forks and exits of processes but not of threads, execs without that test, and none when the option is off. |
| EventLoop.Loop.Turn | source/Application.cpp:218-259 | Each turn of the loop is one step of the value-level registry and sends what that step sends; it stops the program exactly when the step divides by zero. |
| EventLoop.Loop.Run | source/Application.cpp:218-259 | Every run of the objects is a run of the value-level registry, sends its answers and counts its events, unless a step of it divides by zero. |
| EventLoop.Loop.DrainQueue | source/ProcRegistry.cpp:59-78 | Handling requests until none is left terminates and gives the drained registry. |
| EventLoop.CountersCount | source/ProcEvent.cpp:84-150 | After any run each counter is the number of events of its kind, whether or not the registry follows them. |
| RegistryProofs.NextInv | source/ProcRegistry.cpp:137-207 | Every step keeps: one entry per pid and per context id, staged removals are listed and have a commit request queued, no listed name contains a blacklist key. |
| RegistryProofs.RunInv | source/ProcRegistry.cpp:59-78 | So does every run, in any order of events. |
| RegistryProofs.InitInv | source/ProcRegistry.cpp:80-109 | The initial scan establishes this when each pid is found once. |
| RegistryProofs.InitOnceIff | source/ProcRegistry.cpp:80-109 | The initial scan lists the admitted pids in order, so it leaves one entry per pid if and only if none of them was found twice. |
| Registry.BlacklistedIff | source/ProcRegistry.cpp:227-239 | A name is blacklisted if and only if it is some key with text before and after it. |
| RegistryProofs.NeverBlacklisted | source/ProcRegistry.cpp:227-239 | From the start of the program, whatever the initial scan finds, in every run no listed process has a name containing a blacklist key. |
| RegistryProofs.UpdShape | source/ProcRegistry.cpp:165-187 | The loop over all entries on exec touches at most the one entry of the pid. |
| RegistryProofs.PassShape | source/ProcRegistry.cpp:335-345 | After an update or accounting pass every entry is changed by itself, exactly the pids that fail or are refused are marked as well, and a commit is queued if there is one. |
| RegistryProofs.RecountShape | source/ProcRegistry.cpp:467-491 | After a report loop every context shows its own processes' totals and exactly the unused ones are staged. |
| NameTable.CommitTable | source/ProcRegistry.cpp:387-391 | A commit drops exactly the entries marked since the last one. |
| NameTable.NextTable | source/ProcRegistry.cpp:137-207 | Every step of the registry is a step of the table from pid to name with marks. |
| NameTable.RunTable | source/ProcEvent.cpp:84-150 | In every run the process list equals the table produced by the same events. |
| NameTable.StaysIffSpared | source/ProcRegistry.cpp:191-207 | A step keeps an unmarked process if and only if the event does not ask for its removal, whatever request is handled. |
| NameTable.LivesIffSpared | source/ProcRegistry.cpp:191-207 | The same for a step of the registry: a listed, unmarked process stays so if and only if the event spares it. |
| NameTable.SurvivesRun | source/ProcRegistry.cpp:191-207 | In every run of the registry a process is listed and unmarked in all states if and only if no event asks for its removal. |
| NameTable.RequestsSpare | source/ProcRegistry.cpp:59-78 | Queueing and handling requests never asks for the removal of a listed, unmarked process. |
| Entries.EntryEvolves | source/ProcRegistry.cpp:137-225 | A step that spares a listed, unmarked process makes of its entry what the event means for it alone, whatever it does to others. |
| Entries.RunEvolves | source/ProcRegistry.cpp:137-225 | So does every run. |
| Entries.RecordIsLast | source/ProcAcct.cpp:26-86 | The accounting record is the last one that arrived; an answer is awaited exactly when a slow tick with an interested collector came after it. |
| Entries.UsageFollowsReadings | source/ProcEntry.cpp:146-190 | The usage of a process is what its own readings make of it; renames, accounting and other processes do not matter. |
| Entries.ListedUsage | source/ProcRegistry.cpp:315-348 | After any run that spares it a process has exactly one entry, with that usage and that record. |
| Entries.PaceTickKeepsIff | source/ProcEntry.cpp:68-100 | A pace tick keeps a listed, unmarked process if and only if its files can still be read. |
| Entries.SlowTickKeepsIff | source/ProcEntry.cpp:48-65 | A slow tick keeps a listed, unmarked process unless a collector wants its data, no answer is awaited and the request is refused. |
| Entries.StopsIff | source/ProcEntry.cpp:180-188 | A step stops the program if and only if it is a pace tick at which some process that was read before can be read again after no time at all. |
| Arrivals.ForkListsIff | source/ProcRegistry.cpp:137-161 | A pid that is not listed is listed by its fork event if and only if its name and stat file can be read and no key stands anywhere in the name. |
| Arrivals.ScanListsIff | source/ProcRegistry.cpp:368-385 | By a scan if and only if it is found so at least once. |
| Arrivals.AdmittedIff | source/ProcRegistry.cpp:80-109 | By the initial scan likewise. |
| Arrivals.ArrivesIff | source/ProcRegistry.cpp:137-161 | After a fork event a process is listed and unmarked if and only if it was before, or its pid was not listed and examining it leads to an entry. |
| Arrivals.ForkOfMarkedIsLost | source/ProcRegistry.cpp:141-147 | A fork event of a marked pid changes nothing, and the commit queued for the old entry drops the pid. |
| Arrivals.StaysUnlisted | source/ProcEvent.cpp:84-150 | Where process events drive the registry, a pid that is not listed is listed by nothing but its own fork event or a rescan. |
| Arrivals.ReforkSurvives | source/ProcEvent.cpp:140-145 | In every run: after an exit event the pid is off the list with nothing marked. Whatever comes before it is forked again, the new process is listed if and only if the pid is unmarked then; it stays as long as no later event asks for its removal, and is lost otherwise. |
| Arrivals.LostForkIsReachable | source/ProcEvent.cpp:70-81 | Four events from the empty registry: a process whose end only a failed update noticed is forked again before the commit, and the list ends up empty. |
| Draining.HandleLightens | source/ProcRegistry.cpp:487-494 | Handling a request lowers the queue's weight, though a report puts a commit back. |
| Draining.DrainCommitsAll | source/ProcRegistry.cpp:59-78 | Draining ends with nothing queued or staged, and the processes left are exactly the unmarked ones. |
| Contexts.Partition | source/ProcRegistry.cpp:466-491 | Totals of contexts with distinct ids add up modulo the field width to the use of all their processes. |
| Contexts.Conservation | source/ProcRegistry.cpp:466-491 | After a report, for CPU time, CPU percentage, RSS and PSS, the contexts' totals are the use of the processes of listed contexts: modulo the width always, exactly when the sum fits. |
| Contexts.CompleteConservation | source/ProcRegistry.cpp:466-491 | In a covered registry the totals account for every listed process. |
| Contexts.CommitKeepsCoverageIff | source/ProcRegistry.cpp:393-397 | A commit of the context list keeps every process covered if and only if no listed process belongs to a staged context. |
| Contexts.AdmitSafeIff | source/ProcRegistry.cpp:301-312 | Admitting a process keeps the registry safe if and only if its context is not staged for removal. |
| Contexts.NextSafe | source/ProcRegistry.cpp:301-312 | Every step that admits no process to a staged context keeps all processes covered and in contexts that are not staged. |
| Contexts.RunCovers | source/ProcRegistry.cpp:487-494 | So does every run. |
| Contexts.OneContextForEachProcess | source/ProcRegistry.cpp:301-312 | From the start of the program, in such runs every process has exactly one context entry. |
| Contexts.CoveredAfterDrainIff | source/ProcRegistry.cpp:487-494 | After draining every process is covered if and only if no unmarked process belonged to a staged context. |
| Contexts.AdmitToStagedLosesContext | source/ProcRegistry.cpp:301-306 | Admitting a process to a staged context always loses that context in the drain. |
| Contexts.StagedContextIsReachable | source/ProcRegistry.cpp:301-306 | Six events lead from the empty registry to a process without a context. |
| Reports.EachReportOnce | source/ProcRegistry.cpp:59-78 | In every run the answers sent and the reports still queued are, in order, the reports queued before and those asked for: each is answered once. |
| Reports.AnswersAddUp | source/ProcRegistry.cpp:428-501 | In every run each context report adds up to the use of the listed processes of its contexts; each process report has one entry for each listed process, in order, with its data and its table name, and no blacklisted name; each accounting report has one record for each. |
| StateManagers.Collector.Receive | source/TCPCollector.cpp:43-133 | The last update time is that of the last message handled with success before anything else happened; the source stays only if the loop ends for want of input. |
| StateManagers.StateManager.Sweep | source/StateManager.cpp:51-76 | Requests the removal of exactly the active collectors whose last update is longer ago than the timeout, in list order. |
| StateManagers.StateManager.DoUpdateWakeLock | source/StateManager.cpp:159-197 | Takes or drops the lock as the list asks, if the option is on and the file is there. |
| StateManagers.StateManager.HandleNext | source/StateManager.cpp:105-157 | Handles the oldest request; a change by a TCP collector queues a wake lock update. |
| Lifecycle.HandleSettles | source/StateManager.cpp:124-157 | Handling a request does not change what the queue leads to. |
| Lifecycle.RemovalOfAbsent | source/StateManager.cpp:138-157 | A duplicate removal, or that of a collector never monitored, leaves the list alone. |
| Lifecycle.NextTracks | source/TCPServer.cpp:66-73 | Every step keeps: what the queue leads to is the submitted collectors without the removed ones. |
| Lifecycle.ActiveWhenQuiet | source/StateManager.cpp:124-157 | Whenever the queue is empty the active list is exactly that, in order, each once. |
| Lifecycle.RunAgrees | source/StateManager.cpp:129-134 | With the option on and both files present, in every reachable state the flag agrees with the list or an update is queued. |
| Lifecycle.QuietLockIff | source/StateManager.cpp:159-197 | With the option on or off and whatever files come and go: when the queue is empty, the lock agrees with the list if and only if the last update handled found nothing to do, or the option on and the file it needed. |
| Lifecycle.OnlyTcpAsks | source/StateManager.cpp:124-157 | Handling takes the oldest request off the queue, and only a change by a TCP collector puts a wake lock update behind the others. |
| Lifecycle.EachLossRescans | source/ProcEvent.cpp:70-81 | In every run the rescans carried out and still queued are as many as were queued before and netlink losses occurred. |
| Lifecycle.Drain | source/StateManager.cpp:105-122 | Without new events the queue runs empty and the list is settled, whatever the option and whichever sysfs files are there; the lock agrees if the option is on, the files stay there and it agreed or an update was queued before. |
| Inactivity.RunIsLifecycle | source/StateManager.cpp:89-122 | A run with messages and clock times is a run of the state manager, so all its laws hold of it. |
| Inactivity.EachLossRescans | source/ProcEvent.cpp:70-81 | In every run with time the rescans carried out and still queued are as many as were queued before and netlink losses occurred. |
| Inactivity.QuietLockIff | source/StateManager.cpp:159-197 | In every run with time: when the queue is empty, the lock agrees with the list if and only if the last update handled did not miss its file or its option. |
| Inactivity.AskedIff | source/StateManager.cpp:51-76 | In every run an event asks a collector to leave if and only if it is a sweep, the collector is active then, and its last successful message, wherever in the run, is longer ago than the timeout. |
| Inactivity.RefreshedIsLast | source/TCPCollector.cpp:43-133 | A turn of the receive loop sets the time of the last of the messages handled with success, whatever it meets after them. |
| Inactivity.AskedIffSinceSubmitted | source/ICollector.h:29-36 | The rule for a collector that is submitted in the run: the time counts from its creation. |
| Inactivity.KeptWhileTalking | source/StateManager.cpp:57-60 | A collector that is never silent for longer than the timeout is asked to leave by no event of the run. |
| Inactivity.AskedAfterSilence | source/StateManager.cpp:51-78 | When a collector is silent after its last message at `t` and sweeps come every timeout, the first sweep after `t + timeout` comes by `t + 2 * timeout`, asks it to leave if and only if it is active then, and no event before asks it. |
| Inactivity.AskedThenGone | source/StateManager.cpp:138-157 | A collector that was asked to leave is off the active list whenever the queue is empty later. |
| Inactivity.ListedIff | source/StateManager.cpp:124-157 | After a collector is submitted: whenever the queue is empty it is active if and only if its event source has not ended and no sweep has asked it to leave since. |
| Inactivity.Turn | source/TCPCollector.cpp:43-133 | Every event on the state manager and its collectors is one step on values. |
| Inactivity.RunLoop | source/StateManager.cpp:89-122 | Every run of the objects is a run on values. |
| CpuShare.CPUStat.constructor | source/SysProcStat.h:135-143 | A new CPU has an empty baseline and publishes zeros. |
| CpuShare.CPUStat.UpdateStats | source/SysProcStat.cpp:24-45 | Takes a baseline, publishes and moves on, or clears the baseline; divides by zero exactly when the wrapped delta total is zero. |
| CpuShare.Exact | source/SysProcStat.cpp:24-45 | On growing counters with a total increase below 2^64/100 the guard accepts, each share is the true floor and at most 100, and their sum is at most 2 below the true joint floor. |
| CpuShare.PercentExact | source/SysProcStat.h:102-129 | For all ten counters the percentage is then the true floor, without wrap-around. |
| CpuShare.TotalOfTen | source/SysProcStat.h:54-58 | The total is the wrapped sum of all ten counters. |
| CpuShare.Recovery | source/SysProcStat.cpp:24-45 | In every run of samples, also backward ones: the program goes on if and only if no comparison divided by zero; the baseline is empty after a rejected sample and the last sample otherwise; what is published are the shares between the last accepted sample and its predecessor; and `all` is at most 100. Which samples are compared, accepted and rejected is told from the samples alone. |
| CpuShare.RejectionClears | source/SysProcStat.cpp:33-42 | After a rejected sample the baseline is empty; the next sample is compared with nothing, becomes the baseline, and leaves what is published as it was. |
| CpuShare.BaselineEmptyIff | source/SysProcStat.cpp:24-45 | The baseline is empty exactly at the start, after a rejected sample and after an empty one. |
| CpuShare.ExactAgainAfterThree | source/SysProcStat.cpp:33-43 | From any state whatever, unless the first one divides by zero, the third of three plausible samples is published exactly: true floors of at most 100, and a sum at most 2 below the true joint floor. |
| CpuShare.TrapsIff | source/SysProcStat.cpp:26-32 | The division by zero happens if and only if the total of the new sample is that of the baseline again, however single counters wrapped. |
| CpuShare.RepeatedTotalTraps | source/SysProcStat.cpp:26-32 | Two first samples with the same nonzero total, and only such ones, stop the process. |
| CpuGuard.TruthfulIff | source/SysProcStat.cpp:29-39 | On every delta: shares that the guard lets through are true floors of at most 100 if and only if no scaled counter outgrows 64 bits and the joint share is below 2^32 percent. |
| CpuGuard.PublishedTruthfulIff | source/SysProcStat.cpp:24-45 | In every run what is published is right if and only if the last accepted sample and its predecessor meet that condition. |
| CpuGuard.GuardBoundsSharesIff | source/SysProcStat.cpp:35 | When the three counters did not run backwards and each one alone fits, accepted shares are all at most 100 if and only if 100 times their joint increase is below 2^32 times the total. |
| CpuGuard.BackwardsIsNeverTruthful | source/SysProcStat.cpp:33-34 | A busy counter that ran backwards, by 99% of its range at the most, makes an accepted sample publish a wrong share or one above 100. |
| CpuGuard.SharesAbove100 | source/SysProcStat.cpp:35 | Two samples from the start after which a system share of 2^32 - 100 is published. |
| CpuGuard.BackwardsLooksBusy | source/SysProcStat.cpp:33-34 | Two samples from the start, the second with a smaller user counter, after which a user share of 50 is published. |
| SysProcStats.SinglePending | source/SysProcStat.cpp:68-115 | In every run at most one update is queued, and the flag tells whether one is, if and only if no update handler threw. |
| SysProcStats.OtherLanesDoNothing | source/Application.cpp:218-251 | Ticks of other lanes queue no update. |
| SysProcStats.EachCollectOnce | source/SysProcStat.cpp:97-115 | In every run each report asked for is sent once or still queued, whether or not an update threw. |
| SysProcStats.StuckIffThrew | source/SysProcStat.cpp:97-115 | From the start, the flag is set without a queued update if and only if some update handler threw, and then no update is queued in any continuation. |
| SysProcStats.FirstUpdateThrows | source/SysProcStat.cpp:117-123 | One tick while the file cannot be opened ends all updates. |
| SysProcStats.SysProcStat.OnTick | source/Application.cpp:218-251 | A tick of another lane does nothing; a tick of its own lane queues an update unless one is pending. |
| SysProcStats.SysProcStat.Update | source/SysProcStat.cpp:68-82 | Queues an update and sets the flag unless the flag is set. |
| SysProcStats.SysProcStat.HandleNext | source/SysProcStat.cpp:97-115 | An update that returns clears the flag, one that throws does not; the CPU list changes only by an update that could read the file. |
| SysProcStats.SysProcStat.DoUpdateStats | source/SysProcStat.cpp:117-169 | Lines are scanned and their samples applied in order until a line without "cpu", a name too long for its buffer, a line with too few fields or a division by zero. |
| Text.ScanNumbersOfDecimals | source/SysProcStat.cpp:134-146 | The formatted scan reads back any list of printed 64-bit numbers. |
| Text.ScanNumberOfDigits | source/SysProcStat.cpp:134-146 | What the scan makes of white space, an optional sign, digits and what follows: the number, negated modulo 2^64 after a minus sign, or the largest 64-bit number; it goes on right behind the digits. |
| SysProcStats.CpuRoundTrip | source/SysProcStat.cpp:125-146 | A printed CPU line gives back the name and all ten counters, unless the name does not fit the buffer. |
| SysProcStats.NotCpuIff | source/SysProcStat.cpp:127-130 | A line is no CPU line if and only if "cpu" stands nowhere in it. |
| SysProcStats.WhichLines | source/SysProcStat.cpp:125-169 | The samples that reach the list are those of the first lines, which all mention "cpu"; the reading is done if and only if the next line does not, or there is none. |
| SysProcStats.CpuFileRoundTrip | source/SysProcStat.cpp:117-169 | Printed lines for different new CPUs, then a line that does not mention "cpu" or nothing, give exactly these CPUs in order; what comes after does not matter. |
| SysProcStats.LongWord | source/SysProcStat.cpp:132-146 | A line that mentions "cpu" and whose first word has 64 characters or more overruns the buffer, whatever else it holds. |
| SysProcStats.ShortLine | source/SysProcStat.cpp:148-151 | A printed line with fewer than ten counters is a parse error. |
| SysProcStats.ReadRefines | source/SysProcStat.cpp:125-169 | What was read is a prefix of the file, the list is the map updated by those samples, and the line after the prefix is the one that ended the reading: no CPU line, a name too long, a short line, or one that divides by zero. |
| SysProcStats.EachCpuFollowsItsSamples | source/SysProcStat.cpp:153-168 | Over any samples, each listed CPU is where its own samples lead, and publishes the shares between its own last accepted sample and the one before. |
| Index.Refines | source/SysProcDiskStats.cpp:121-138 | The list refines a map upsert: keys stay unique and keep their places, exactly the keys read are added, and every entry is the fold of its own data. |
| Index.FilesConcat | source/SysProcDiskStats.cpp:88-139 | Reading files one after another is reading their lines in one go. |
| Index.NewKeysInOrder | source/SysProcDiskStats.cpp:130-138 | The keys that a run of lines adds stand behind the old ones in the order of their first lines. |
| DiskStats.DiskStat.UpdateEntry | source/SysProcDiskStats.cpp:109-123 | Assigns device, name and counters in order, up to the first counter that is no number. |
| DiskStats.SysProcDiskStats.UpdateDevice | source/SysProcDiskStats.cpp:109-138 | Updates the one entry of the device, or appends and commits one first; a counter that is no number throws, after the entry was appended and with the counters before it assigned. |
| DiskStats.SysProcDiskStats.DoUpdateStats | source/SysProcDiskStats.cpp:80-142 | Applies the rows up to the line that ends the reading, including the first part of a row that throws, and says how the reading ended. |
| DiskStats.DiskRoundTrip | source/SysProcDiskStats.cpp:94-119 | A printed line of at least 20 tokens gives back device numbers, name and all nine counters, whatever the entry held before. |
| DiskStats.LastLineWins | source/SysProcDiskStats.cpp:106-138 | One entry per device; new devices follow the listed ones in the order of their first lines; each shows its last line, and when that one broke off the counters after the gap are those from before. |
| DiskStats.BrokenRowKeeps | source/SysProcDiskStats.cpp:109-123 | A row that breaks off leaves the counters from the gap on as they were, also those whose tokens are numbers. |
| DiskStats.NewBrokenRow | source/SysProcDiskStats.cpp:126-138 | For a device seen for the first time the counters from the gap on are 0. |
| DiskStats.WhereItEnds | source/SysProcDiskStats.cpp:88-107 | The reading takes every line up to the first one that cannot be read whole; it is a parse error when that line has fewer than 20 tokens and an exception when a token is no number. |
| Pressure.PressureStat.UpdateLine | source/SysProcPressure.cpp:58-88 | A "some" line replaces that message by the numbers on the line and any other line replaces the other message; a value that is no number throws, and a blank line has no first token to look at; both leave the messages as they were. |
| Pressure.PressureStat.UpdateStats | source/SysProcPressure.cpp:52-94 | The lines are applied in order up to the first one that cannot be read; a file that cannot be opened changes nothing. |
| Pressure.StofOfAverage | source/SysProcPressure.cpp:72-78 | An average printed with two decimals is read as its value, which is then rounded. |
| Pressure.AverageSurvivesRounding | source/SysProcPressure.cpp:72-78 | In 32-bit floats an average below 83886.08 keeps both decimals. |
| Pressure.PressureRoundTrip | source/SysProcPressure.cpp:58-88 | For every way to round: a printed pressure line gives back its total and its three averages rounded, in the one message under "some" and in the other under any other word, and leaves the other one alone. |
| Pressure.FileRoundTrip | source/SysProcPressure.cpp:55-88 | For every way to round: a printed file of two lines gives both messages, whatever they held before. |
| Pressure.StofOfNotation | source/SysProcPressure.cpp:72-78 | Decimal notation with an optional sign, with digits missing on either side of the point, and with anything after it, is read as what it denotes. |
| Pressure.StofOfNoDigits | source/SysProcPressure.cpp:72-78 | Without a digit there is no number. |
| Pressure.PointMoves | source/SysProcPressure.cpp:72-78 | Notation without a fraction denotes the number before the point, and moving the point one place to the right multiplies by ten. |
| Pressure.OtherTokensIgnored | source/SysProcPressure.cpp:69-82 | A token that is not a pair, or whose key is none of the four, is passed over. |
| Pressure.MissingIsZero | source/SysProcPressure.cpp:61-88 | A line that is read sets all four numbers of its message: those whose keys are missing become 0. |
| Pressure.BadValueThrows | source/SysProcPressure.cpp:71-81 | A known key whose value is no number throws. |
| Pressure.BadLineThrows | source/SysProcPressure.cpp:67-88 | Wherever such a token stands behind the first one, its line throws and changes nothing. |
| Pressure.BlankLine | source/SysProcPressure.cpp:84 | A blank line changes nothing, and its first token is not there. |
| Pressure.FileStops | source/SysProcPressure.cpp:57-89 | A file is read up to the first line that cannot be read; what the lines before it gave stays. |

## Assumptions

- `SafeList` and `AsyncQueue` belong to a library that is not part of this model. The classes in
  `SafeLists.dfy` state what their callers rely on: changes are staged, a commit applies and clears
  them by identity, an immediate append or removal commits, `foreach` visits committed entries and
  may nest, requests are handled first in first out, one per step, and a request is taken off the
  queue also when its handler throws.
- The event loop belongs to the same library. The laws about a source whose update handler threw
  presume that the loop goes on after a handler has thrown; source/Main.cpp does not catch exceptions
  around `run()`, so a loop that let them out would end the program instead.
- Timers fire with exactly their period, which `Inactivity.AskedAfterSilence` states as a condition on
  the run. The steady clock does not run backwards, and its readings are whole microseconds.
- The message definitions are not part of this model. Totals, usage and disk counters are taken as
  64-bit fields, percentages as 32-bit fields, descriptor counts without a width.
- Removing an event source may make the library call the collector's finalizer; this is the event
  `Finalize`, which may come at any time.
- Directory listings, file texts, names, contexts, clock readings, whether a collector is connected that
  wants accounting data, requests the kernel refuses, the records it sends, the presence of files and the
  rounding of floats are inputs of the steps.
- Where the program's behaviour is undefined, the model stops: at a blank pressure line, whose first token
  is looked at, and at a CPU name of 64 characters or more.

## Left out

- Pressure.StofOfAverage: numbers are read in decimal notation; exponents, hexadecimal forms, infinities and the range of a 32-bit float are not modelled.
- ProcRegistries.ProcRegistry.AnswerAcct: a record is kept as it was received; the averages that the program computes from it are not modelled.
- The pending protocol of the disk and pressure sources is the same code as that of the CPU source and is modelled once.
- Reading a name from the status file: the name, or its absence, is an input.
- Sockets, netlink messages, envelopes, sessions and the watchdog: only the events they cause.
- Container naming, which changes context ids after construction: the build without it is modelled.
- Options and defaults: the blacklist, the event and accounting options, the timeout and the wake lock option are parameters.
- Memory, virtual memory, buddy, wireless and startup data sources: flat assignments or the same list shape.
