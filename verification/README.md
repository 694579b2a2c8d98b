# Verified model of the agent-chat broker

agent-chat is a message broker and supervisor for long-lived agents. This project models its state machines,
file protocols, graph walks and printers in Dafny and proves what they promise. `dafny verify dfyconfig.toml`
checks all of it.

| file | models |
|---|---|
| `RemoteSpawnProtocol.dfy`, `RemoteSpawnTale.dfy`, `RemoteSpawnTable.dfy`, `RemoteSpawns.dfy` | launches on other hosts under racing reports and timers: the protocol over whole runs, what it says told from the history alone, the table of entries and timers, and the object that refines it |
| `Identity.dfy`, `AgentLog.dfy` | an agent's identity as a fold over its log rows, and the cached roster, groups and lineage of the log |
| `SurvivorRoot.dfy` | the walk to an agent's ledger parent past ended ancestors, and the index of spawn rows |
| `ReaperProtocol.dfy`, `DetachedReaper.dfy` | the settle-then-probe queue of detached agents |
| `SuiteSlots.dfy` | the full-suite slot lock as interleaved file operations of many processes |
| `AccountMove.dfy` | moving a transcript between accounts with a failure possible at every file operation |
| `TmpPaths.dfy`, `TmpSweep.dfy`, `Reclaim.dfy` | the temporary-directory sweep, and the walk that removes one directory |
| `EditDistance.dfy` | the two-row edit distance and the profile names it suggests |
| `EndorseCommand.dfy` | shell quoting against POSIX tokenising, and the escape form against a decoder |
| `LineReader.dfy` | newline-delimited messages over a chunked stream |
| `Related.dfy`, `Briefing.dfy` | the character budgets of a spawned agent's orientation block |
| `Budget.dfy`, `BudgetWinners.dfy` | merging rate-limit windows out of many readings, and whose window is shown |
| `ProcessGuard.dfy`, `ProcessGuardMonitor.dfy` | which runaway processes may be stopped, and how often |
| `Options.dfy`, `Decimals.dfy`, `Counting.dfy`, `ParentPids.dfy`, `Whitespace.dfy`, `Letters.dfy` | an option type; decimal numerals and back; distinct elements; parent chains; what `trim` removes; the characters of a name |

Code that changes things step by step is modelled by methods over fields or over a model file system,
each proved against a specification function; the main results are lemmas about those functions over every input,
every run or every interleaving. Clocks are integers, timers are "may fire now" steps, failing file operations and
process tables are parameters.

Some things one would expect hold only under a condition; each has a counterexample and the exact condition.

- Exclusion of the slot lock fails between the stale check and the rename (`src/suite-slots.ts:57`): a pending rename is
  safe exactly when no live process is inside the slot, other than one that has opened its pid file to write it and not
  yet again to read it, or has opened another's to read it back (`SuiteSlots.RenameSafeIffVacant`).
- It fails even when nobody dies, inside the stale check (`src/suite-slots.ts:52-53`): a judge that reads no owner just
  before the pid is written, and the clock later, may find the held slot old, as the directory's time is that of the
  open and not of the write. It holds exactly as long as no directory is without a pid file for longer than the grace,
  and the longest a pid file is without a pid and the longest a judge takes between the two reads are together no more
  than it (`SuiteSlots.DeathlessBoundIsExact`).
- Retry after a failed transcript move (`src/agents/account-move.ts:245-248`) is refused as newer after exactly two
  families of failures: the clean-up of the temporary file, which no rollback covers, or the source's rename together
  with an operation of the rollback (`AccountMove.RetryRefusedIff`).
- A move that fails at the source's rename does not always put the target back (`src/agents/account-move.ts:235-236`):
  where `existsSync` met an error, a rollback that works removes a target that was there. A failed move leaves the
  target as it was exactly when neither that nor one of the failures above happens (`AccountMove.TargetKeptIff`).
- A cancel made from inside a reaper's check does not stop a later member of the same batch
  (`src/agents/detached-reap.ts:184-189`): schedules end exactly once just as long as no check makes one
  (`ReaperProtocol.AccountedIffBehaved`).

Merged rate-limit windows do not depend on the order of the files as long as no two were written at one time; for two
that were, `Budget.TiesMatterIff` says exactly when they do.

## Model

| member | source | states |
|---|---|---|
| `RemoteSpawnProtocol.StepKeepsInv` | src/agents/remote-spawn.ts:165-268 | Each of open, ready, placed, attached, close and both timer firings keeps: one fate per launch, one ok reply per launch, one answer per `placed` report, and a held reply only in the placed phase |
| `RemoteSpawnProtocol.AnnouncedOrLostNeverBoth` | src/agents/remote-spawn.ts:170-267 | Over every run a launch is announced at most once or lost at most once, never both, and gets at most one ok reply to a ready report |
| `RemoteSpawnProtocol.EveryLaunchIsAccountedFor` | src/agents/remote-spawn.ts:170-267 | Conservation: every launch is in exactly one of announced, lost, dropped by replacement or close, still undecided |
| `RemoteSpawnProtocol.RepliesAreGivenOnce` | src/agents/remote-spawn.ts:203-227 | A `placed` promise is settled exactly once, and is unsettled exactly while its reply is held, across pending, attach, failure, replacement and close |
| `RemoteSpawnProtocol.ReplacedOrClosedStaysSilent` | src/agents/remote-spawn.ts:170-180 | A launch replaced or cleared while undecided is never announced nor lost, whatever follows |
| `RemoteSpawnProtocol.GoneIsSilentForever` | src/agents/remote-spawn.ts:257-267 | Once its entry has left the map, a launch gets no announcement, loss or ok reply in any continuation |
| `RemoteSpawnProtocol.TimersDecideEverything` | src/agents/remote-spawn.ts:248-255 | With no further report, in whatever order the timers fire: when none is left to fire, every launch has been decided exactly once and every `placed` answered |
| `RemoteSpawnProtocol.FiringsEnd` | src/agents/remote-spawn.ts:218-224 | Progress: no more timers can fire in a row than there are entries and held replies |
| `RemoteSpawnTale.SaysWhatTheTaleDoes` | src/agents/remote-spawn.ts:165-268 | Reference definition: over every run the announcements, losses, ok replies and answers are, in order, those of a history kept without phases, held replies or a map of the pending, which looks only at what was opened, asked and said before |
| `RemoteSpawnTale.EveryAnswerIsTrue` | src/agents/remote-spawn.ts:203-262 | Over every run, by what was said before it: attached is answered only of a launch announced, pending only of one neither announced nor lost, failed only of a report not awaited or of a launch lost for that very reason; a loss goes to whoever keeps the identity, or else retires it, with a reason that fits whether the launch was granted |
| `RemoteSpawnTale.PendingIsTheTimers` | src/agents/remote-spawn.ts:219-219 | Pending is answered by the wait timer alone |
| `RemoteSpawnTale.ReadyReplyIs` | src/agents/remote-spawn.ts:188-200 | A ready report is granted exactly when the launch is open and was not granted before, and otherwise denied with the reason given for the loss, or as not awaited |
| `RemoteSpawnTale.HasIs` | src/agents/remote-spawn.ts:182-185 | A launch is pending exactly when it is the agent's latest since the last close and was neither announced nor lost |
| `RemoteSpawns.RemoteSpawns.Arm` | src/agents/remote-spawn.ts:248-255 | The entry gets one alarm with the given failure text in place of any it had; nothing else changes |
| `RemoteSpawns.RemoteSpawns.Forget` | src/agents/remote-spawn.ts:264-267 | The alarm is cleared, and the map entry goes only if it is still this entry |
| `RemoteSpawns.RemoteSpawns.Fail` | src/agents/remote-spawn.ts:257-262 | The entry is lost: out of the map, a held reply answered failed, then lost once |
| `RemoteSpawns.RemoteSpawns.OpenSpawn` | src/agents/remote-spawn.ts:170-180 | The object takes exactly the protocol step for open, replacing an entry of the same id with its alarm |
| `RemoteSpawns.RemoteSpawns.Has` | src/agents/remote-spawn.ts:182-185 | True exactly of an agent whose launch is undecided |
| `RemoteSpawns.RemoteSpawns.ReadyReported` | src/agents/remote-spawn.ts:188-200 | The object and the reply are those of the protocol step for ready |
| `RemoteSpawns.RemoteSpawns.PlacedReported` | src/agents/remote-spawn.ts:203-227 | The object takes exactly the protocol step for placed, held reply included |
| `RemoteSpawns.RemoteSpawns.AgentAttached` | src/agents/remote-spawn.ts:230-241 | The object takes exactly the protocol step for attached |
| `RemoteSpawns.RemoteSpawns.Close` | src/agents/remote-spawn.ts:243-246 | The map and every alarm are cleared, and no one is announced or lost |
| `RemoteSpawns.RemoteSpawns.FireAlarm` | src/agents/remote-spawn.ts:248-255 | An armed alarm always belongs to the present entry of some id; firing it is that id's expiry step, which fails it exactly when it is not attached |
| `RemoteSpawns.RemoteSpawns.FireWait` | src/agents/remote-spawn.ts:218-224 | The wait firing answers pending and leaves the launch to its alarm |
| `Identity.FoldAgent` | src/agents/identity.ts:224-284 | The statement-wise loop computes the fold of the rows |
| `Identity.ApplyRow` | src/agents/identity.ts:241-280 | The field-by-field updates of one row amount to one step of the fold, hidden exit flag included |
| `Identity.EveryFoldIsCoherent` | src/agents/identity.ts:224-284 | For every row sequence: exited has exit and time; detached has its time and no exit time; spawning has neither; live has no detach time; an exit time means an exit |
| `Identity.StoppedAgentsSayWhen` | src/agents/detached-reap.ts:105-106 | `awaitsExit` is exactly "detached", and `stoppedAt` is defined for exited and detached and undefined for spawning |
| `Identity.FoldContinues` | src/agents/identity.ts:224-284 | The fold of a longer log needs only the identity so far: the hidden flag can be read back from the exit it shows |
| `Identity.RetiredAbsorbs` | src/agents/identity.ts:220-222 | No rows after a retirement change anything |
| `Identity.FoldMeans` | src/agents/identity.ts:224-284 | Against the log itself: the exit shown is the last one on record, kept through a resume and dropped by an attach if it may be false, and whether it may be is the hidden flag; the exit time is that of the last exit neither resumed nor reopened, the detach time that of the last detach still standing, and the state follows the latest row that moves it |
| `Identity.FoldFollows` | src/agents/identity.ts:224-284 | An adopted name, and whether it was derived, is what the latest attach says and a spawned name never moves; the host is the latest resume's, the surface that of the latest resume to name one, the crash streak the latest exit's unless a later resume cleared it, and `lastEventAt` the last acting row's time |
| `Identity.FoldShows` | src/agents/identity.ts:184-284 | Field by field, on the rows of the log by position: id, times, name and whether it was derived (marked so by the attach or spawn row, or, unmarked, a derived text that gave the adopted identity its first name), host, surface, crash streak |
| `Identity.EndedInLog` | src/agents/identity.ts:257-280 | An identity that shows as exited or retired was retired, or has an exit in the log that still stands, at the time shown |
| `AgentLog.GroupByAgent` | src/agents/identity.ts:294-304 | The map holds, for each id, exactly the rows that carry it |
| `AgentLog.GroupKeepsOrder` | src/agents/identity.ts:293-304 | A group is the subsequence of the log at exactly the positions whose row carries the id, in order |
| `AgentLog.FoldEveryAgent` | src/agents/identity.ts:402-411 | The loop over the groups computes the sorted list of folds |
| `AgentLog.SortNewestSorts` | src/agents/identity.ts:408-410 | The roster is sorted newest first and is a permutation of the folds |
| `AgentLog.SortIsStable` | src/agents/identity.ts:408-410 | Agents spawned at one time keep the order of their groups |
| `AgentLog.RosterAgreesWithGet` | src/agents/identity.ts:435-450 | An identity is on the full roster exactly when folding its own rows gives it |
| `AgentLog.AgentLog.All` | src/agents/identity.ts:435-441 | Whatever was appended since, the cached answer equals refolding the log as it is now |
| `AgentLog.AgentLog.Get` | src/agents/identity.ts:448-450 | The fold of the log filtered to the id |
| `AgentLog.AppendKeepsCache` | src/agents/identity.ts:424-427 | Appends made by anyone leave the cache sound |
| `AgentLog.SameCountSameLast` | src/agents/identity.ts:438-438 | The cache test is exact: for a read that extends an earlier one, same count and same last row object mean the same rows |
| `AgentLog.LineageFrom` | src/agents/identity.ts:550-560 | Ends on any `teleportFrom` graph: the first agent with the id, then each time the first agent that teleported from the one before, without repeats, up to where none did or the first that did is already in the line |
| `EditDistance.Compute` | src/agents/profiles.ts:625-635 | The two-row dynamic program equals recursive Levenshtein distance for all strings |
| `EditDistance.NextRow` | src/agents/profiles.ts:628-631 | One row of the table from the row above |
| `EditDistance.ZeroMeansEqual` | src/agents/profiles.ts:625-635 | Distance zero exactly between equal strings |
| `EditDistance.Symmetric` | src/agents/profiles.ts:625-635 | The distance is symmetric |
| `EditDistance.Bounds` | src/agents/profiles.ts:625-635 | Between the difference of the lengths and the longer length |
| `EditDistance.Triangle` | src/agents/profiles.ts:625-635 | Triangle inequality |
| `EditDistance.NoShorterScript` | src/agents/profiles.ts:625-635 | No sequence of single-character edits turns one string into the other in fewer steps than the distance |
| `EditDistance.ScriptOfLength` | src/agents/profiles.ts:625-635 | A sequence of exactly that many edits exists |
| `EditDistance.DistanceCountsEdits` | src/agents/profiles.ts:625-635 | So the distance is the least number of edits, both directions |
| `EditDistance.SelectProfileNames` | src/agents/profiles.ts:638-644 | All names, the one named, or a refusal listing exactly the close ones in order |
| `EditDistance.TwoSlipsAreSuggested` | src/agents/profiles.ts:641-642 | A name within two edits of an existing profile is always among the suggestions |
| `EditDistance.OfferedIff` | src/agents/profiles.ts:641-641 | A refused name is answered with exactly the profiles that contain it, are contained in it, or are at most two single edits away |
| `SuiteSlots.BehavedRunsExclude` | src/suite-slots.ts:51-119 | Under every interleaving of system calls in which no live process leaves a directory without a pid file for longer than the grace (before opening it, or between removing it and the directory) and no rename takes the directory of a live process that is not just signing it, at most one live process believes it holds a slot; writing the pid may take as long as it likes |
| `SuiteSlots.HoldersFitSlots` | src/suite-slots.ts:86-91 | Hence at most `total` holders |
| `SuiteSlots.StaleDisplacesNobody` | src/suite-slots.ts:51-66 | A slot still stale when it is renamed holds nobody |
| `SuiteSlots.AtomicClearsExclude` | src/suite-slots.ts:51-66 | With the whole stale check and the rename in one step, deaths included, it is enough for exclusion that no live process leaves a directory without a pid file (not yet opened, or emptied and not yet removed) for longer than the grace |
| `SuiteSlots.AtomicBoundIsExact` | src/suite-slots.ts:68-84 | Exact bound: every such run excludes if and only if the longest a live process may leave a directory without a pid file is at most the grace |
| `SuiteSlots.LateOpenMakesTwoHolders` | src/suite-slots.ts:68-84 | A run from the start in which a pid file is opened later than the grace and two processes come to hold the slot |
| `SuiteSlots.DeathlessRunsExclude` | src/suite-slots.ts:51-84 | While no process dies, no directory is without a pid file (not yet opened, or emptied and not yet removed) for longer than the grace, and the longest a pid file is without its pid and the longest a judge takes between reading no owner and reading the clock are together at most the grace, the source never starts to clear and exclusion holds |
| `SuiteSlots.DeathlessBoundIsExact` | src/suite-slots.ts:51-55 | Exact bound: without deaths every run excludes if and only if the three limits are so; past the second, a judge clears a slot its live owner holds, as the directory's time is that of opening the pid file |
| `SuiteSlots.TwoHoldersOfOneSlot` | src/suite-slots.ts:51-66 | Unconditional exclusion is false: though all happens in one millisecond, two judges of one dead holder end up holding the same slot |
| `SuiteSlots.RenameSafeIffVacant` | src/suite-slots.ts:57-66 | Exact condition: a pending rename keeps every later behaved run exclusive if and only if no live process is inside the slot (about to open its pid file, reading it back, holding, or releasing), other than one that has opened its pid file to write it and not yet again to read it, or has opened another's to read it back |
| `SuiteSlots.StepsAreEarned` | src/suite-slots.ts:51-119 | A process comes to hold a slot, or to remove one, only by reading its own pid in the file, and to rename one away only by finding the pid's process dead or reading the clock more than 10,000 ms past the directory's time |
| `SuiteSlots.OnlyRenamesTakeFull` | src/suite-slots.ts:57-119 | A slot with a pid file in it goes only whole, by the rename of a clearing |
| `SuiteSlots.SlotsInUse` | src/suite-slots.ts:122-129 | The loop counts the slots below `total` whose owner is alive |
| `SuiteSlots.HoldersAreCounted` | src/suite-slots.ts:121-129 | The reported count never misses a holder |
| `AccountMove.MoveNeverLosesTheTranscript` | src/agents/account-move.ts:249-312 | With a failure possible at any file operation, and a crash after any: the transcript's bytes are at the source or the moved name throughout, and each outcome says exactly what the target holds |
| `AccountMove.MovedTo` | src/agents/account-move.ts:249-312 | After a move that succeeds, by full paths: the bytes are at `<session>.jsonl` under the target, the file as it was at `<session>.jsonl.moved-<time>` under the source and no longer at its name, and no other file is changed or new |
| `AccountMove.UsableIdIs` | src/agents/account-move.ts:277-278 | A session id is usable exactly when it is one to 128 letters, digits, dashes and underscores, and so one segment of a path |
| `AccountMove.RetryRefusedIff` | src/agents/account-move.ts:239-265 | A failed move leaves the source as it was, and a retry is refused as newer if and only if, by position: every operation up to the rename onto the target works (two reads more if the target was seen), and then either the clean-up fails, or it works, the source's rename fails, and so does one of the rollback's operations (one without a target, six with) |
| `AccountMove.NewerIsRefused` | src/agents/account-move.ts:285-290 | What the retry answers when its own reads work: refused as newer exactly when the target is newer |
| `AccountMove.CleanUpFailureBlocksRetry` | src/agents/account-move.ts:218-228 | So "a failed move can be retried" is false: a failure of the last clean-up alone leaves the new target in place without a rollback |
| `AccountMove.TargetKeptIff` | src/agents/account-move.ts:235-265 | Exact condition: a failed move leaves the target as it was, bytes and time, if and only if none of the failures that block a retry happens, nor a rollback that works where `existsSync` met an error on a target that was there |
| `AccountMove.RolledBackTo` | src/agents/account-move.ts:239-243 | What a rollback that works leaves: the target of before, or no target where `existsSync` saw none |
| `AccountMove.UnseenTargetIsLost` | src/agents/account-move.ts:236-243 | So "a failed rename puts the target back" is false: an error of `existsSync` and one of the source's rename lose a target that was there, and the rollback counts as working |
| `AccountMove.WriteAtomicEnds` | src/agents/account-move.ts:218-228 | Either the target is untouched or it holds all the bytes; nothing else but the temporary name changes |
| `AccountMove.RestoreEnds` | src/agents/account-move.ts:239-243 | A completed restore leaves the recorded bytes and time; an incomplete one leaves a newer target |
| `AccountMove.RetireEnds` | src/agents/account-move.ts:257-263 | After a clean write: success leaves only the target resumable with the bytes; a failed rename with a working rollback leaves what was recorded of the target, which is nothing where `existsSync` saw none; with a failing one, a newer target |
| `AccountMove.FileSystem.WriteThroughTmp` | src/agents/account-move.ts:218-228 | The statement-wise method, try and finally, refines the specification of the atomic write |
| `AccountMove.FileSystem.SnapshotOf` | src/agents/account-move.ts:235-236 | Refines the specification of the snapshot |
| `AccountMove.FileSystem.PutBack` | src/agents/account-move.ts:239-243 | Refines the specification of the restore |
| `AccountMove.FileSystem.CopyAndRetire` | src/agents/account-move.ts:249-265 | Refines the specification of copy, rename and rollback |
| `AccountMove.FileSystem.Blocker` | src/agents/account-move.ts:277-291 | Refines the specification of the refusals, in their order |
| `AccountMove.FileSystem.Run` | src/agents/account-move.ts:299-312 | Refines the specification of the whole move |
| `EndorseCommand.DecodeEscaped` | src/endorse-command.ts:9-30 | A decoder recovers the original code points from any escaped text |
| `EndorseCommand.VisibleIsSafeAndFaithful` | src/endorse-command.ts:22-30 | What is shown holds no control character, and with the flag determines the text |
| `EndorseCommand.VisibleTellsTextsApart` | src/endorse-command.ts:27-30 | Two texts shown alike, flag included, are the same text |
| `EndorseCommand.FlagIsNeeded` | src/endorse-command.ts:24-26 | Without the flag a tab and a written-out escape are shown alike |
| `EndorseCommand.JoinedReads` | src/endorse-command.ts:33-36 | Tokenising the quoted words by sections 2.2 and 2.3 of the POSIX Shell Command Language gives them back, empty words, quotes and newlines included |
| `EndorseCommand.EndorseLineRoundTrips` | src/endorse-command.ts:43-47 | The command is offered exactly when no part holds a control character; then it holds none, and a POSIX shell reads exactly the seven words from it |
| `SurvivorRoot.Resolve` | src/agents/survivor-root.ts:41-67 | The loop ends on any lineage within 513 ancestors, with the end the recursive specification gives and the nearest recorded quarantine among the ancestors asked |
| `SurvivorRoot.ArrivingMeansNoLoop` | src/agents/survivor-root.ts:54-65 | A lineage that comes to a root has met no ancestor twice |
| `SurvivorRoot.NearestIsTheEnd` | src/agents/survivor-root.ts:54-66 | The loop check never fires on the way to an ancestor the agent can root at |
| `SurvivorRoot.RootIsNearest` | src/agents/survivor-root.ts:40-67 | The root is resolved if and only if there is a nearest enrolled, running or row-less ancestor, or the human, within the bound; that is then the parent, and otherwise the recorded parent stays |
| `SurvivorRoot.RootedAtIff` | src/agents/survivor-root.ts:19-67 | On the spawn rows themselves: the root is an agent if and only if a line of at most 512 ends in it, each the one teleported from, or else the parent, of the one before, all but the last neither enrolled nor running and with a spawn row, and the last not so |
| `SurvivorRoot.RootedAtHumanIff` | src/agents/survivor-root.ts:19-67 | And it is the human if and only if the agent's row names nobody, or such a line, all to be passed, ends in one whose row names nobody |
| `SurvivorRoot.ReportedLoopIsReal` | src/agents/survivor-root.ts:55-55 | A reported loop is one: the lineage never comes to the human, however far it is followed |
| `SurvivorRoot.OverBoundIsExact` | src/agents/survivor-root.ts:56-57 | The bound is reported exactly of 512 different ancestors to walk past with one more behind them |
| `SurvivorRoot.FirstSpawnStays` | src/agents/survivor-root.ts:69-72 | Appending to the log changes no first spawn row |
| `SurvivorRoot.SpawnRowIndex.Refresh` | src/agents/survivor-root.ts:77-81 | Afterwards the index holds the first spawn row of every id that has one |
| `SurvivorRoot.SpawnRowIndex.Lookup` | src/agents/survivor-root.ts:82-85 | Hit or miss, the answer is the log's first spawn row for the id |
| `SurvivorRoot.AppendKeepsIndex` | src/agents/survivor-root.ts:69-72 | Appends by anyone leave the index right |
| `ReaperProtocol.NextKeeps` | src/agents/detached-reap.ts:142-195 | Whatever a check does to the queue: pending and due stay disjoint, pending entries and settle timers match one to one, and a queue with anyone in it has a drain set |
| `ReaperProtocol.EveryScheduleEndsOnce` | src/agents/detached-reap.ts:153-195 | Over every run whose checks leave later members of their own batch alone, each schedule ends in exactly one check, cancel, reschedule or close, or is still waiting |
| `ReaperProtocol.AccountedIffBehaved` | src/agents/detached-reap.ts:183-189 | Exact condition: a step keeps that account if and only if no check cancels or reschedules a later member of its own batch, the batch being a snapshot |
| `ReaperProtocol.TouchedEndsTwice` | src/agents/detached-reap.ts:184-189 | A member cancelled from an earlier check of its batch is checked all the same |
| `ReaperProtocol.ChecksPerTurn` | src/agents/detached-reap.ts:120-121 | A turn runs at most 25 checks, and a settle timer none while a drain is set |
| `ReaperProtocol.FrontChecked` | src/agents/detached-reap.ts:183-189 | With checks that release at most their own agent, a batch is the front of the queue, checked in order |
| `ReaperProtocol.QueueDrains` | src/agents/detached-reap.ts:178-195 | Draining ends: a queue of n is checked first in, first out, each member once, in n / 25 turns rounded up |
| `ReaperProtocol.DrainingEnds` | src/agents/detached-reap.ts:178-195 | Whatever the checks do to the queue, it is empty after n / 25 turns, rounded up, and while anyone is due a drain is set |
| `DetachedReaper.DetachedReaper.Schedule` | src/agents/detached-reap.ts:153-162 | The object takes exactly the protocol step for schedule, old timer cleared and new one set |
| `DetachedReaper.DetachedReaper.Cancel` | src/agents/detached-reap.ts:164-168 | The object takes exactly the protocol step for cancel |
| `DetachedReaper.DetachedReaper.Close` | src/agents/detached-reap.ts:170-176 | Every settle timer is cleared and nothing is left to fire |
| `DetachedReaper.DetachedReaper.Settle` | src/agents/detached-reap.ts:155-159 | A settle timer firing is the protocol's settle step |
| `DetachedReaper.DetachedReaper.Drain` | src/agents/detached-reap.ts:190-193 | The drain firing is the protocol's drain step |
| `DetachedReaper.DetachedReaper.RunBatch` | src/agents/detached-reap.ts:183-195 | A batch with re-entrant checks is the protocol's batch over its snapshot |
| `DetachedReaper.Delete` | src/agents/detached-reap.ts:167-167 | Removing from the set keeps the order of the others |
| `TmpPaths.PathDeterminesTheLaunch` | src/agents/agent-tmpdir.ts:169-173 | A path names one root, one agent name and one launcher pid, although names may hold dashes and digits |
| `TmpPaths.PidOfIsExact` | src/agents/agent-tmpdir.ts:454-462 | A pid is read from an entry exactly when the entry is the one a launch of that name and pid makes, for pids of up to ten digits |
| `TmpPaths.OneNamePerEntry` | src/agents/agent-tmpdir.ts:454-462 | An entry is at most one name's |
| `TmpPaths.PathIs` | src/agents/agent-tmpdir.ts:162-173 | A launch has a directory exactly for a name of one to 64 letters, digits, dashes and underscores that starts with a letter or digit, a pid JavaScript holds exactly, and `/tmp` or one of the two cache directories of a home, by an absolute normal path; and it is `<root>/ac-<name>-<pid>` |
| `TmpSweep.FinishedNames` | src/agents/agent-tmpdir.ts:443-452 | Exactly the names with rows all of whose ids are finished, each with its ids |
| `TmpSweep.FinishedNameMeans` | src/agents/agent-tmpdir.ts:442-452 | With one row per id: a name is finished if and only if it has rows and every one is exited or retired, with its exit, or else its last event, 180,000 ms ago or more (`src/agents/orphan-reap.ts:219-226`) |
| `TmpSweep.Ancestry` | src/agents/agent-tmpdir.ts:260-270 | Ends on any parent graph with exactly the caller and the processes above it, up to init |
| `TmpSweep.Holder` | src/agents/agent-tmpdir.ts:276-294 | A holder is found if and only if a live process outside that ancestry belongs to the launch or has its working directory or an open file inside |
| `TmpSweep.Sweeper.VetRemoval` | src/agents/agent-tmpdir.ts:317-329 | Passes exactly when path, root, directory and holders allow the removal |
| `TmpSweep.Sweeper.SweepOne` | src/agents/agent-tmpdir.ts:464-476 | One target: what the file system and the memory of failures are afterwards, for every outcome of the removal |
| `TmpSweep.Sweeper.SweepRoot` | src/agents/agent-tmpdir.ts:520-530 | All that goes was due, and given time every directory due under the root has had its turn |
| `TmpSweep.Sweeper.Sweep` | src/agents/agent-tmpdir.ts:505-516 | A pass removes nothing but what was due when it began; given time, every directory due whose removal completes is gone |
| `TmpSweep.DueIff` | src/agents/agent-tmpdir.ts:276-329 | What is due, exactly, on roster, process table and file system: an own directory at the path of a launch, listed under an accepted own root; every row of its name exited or retired three minutes ago or more; its launcher gone or no launcher of theirs; no removal failed in six hours; and nobody outside the caller's own line alive with the launch's identity or with its working directory or an open file inside |
| `TmpSweep.DueMeans` | src/agents/agent-tmpdir.ts:442-476 | Only such a directory is ever due |
| `TmpSweep.OpenNameKeepsAll` | src/agents/agent-tmpdir.ts:442-452 | A name with any row that has not ended, or not three minutes ago, loses nothing |
| `TmpSweep.DueHasEnded` | src/agents/agent-tmpdir.ts:442-452 | Through the fold to the log itself: for each row of a name that is due, the log has a retirement, or an exit three minutes old or more that still stands |
| `TmpSweep.RemovedMeans` | src/agents/agent-tmpdir.ts:303-329 | Whatever path a pass removed was inside one directory of which all that held when the pass began |
| `Reclaim.Reclaimer.ReclaimTree` | src/agents/agent-tmpdir.ts:104-125 | On any directory tree, whatever operation fails and whenever the deadline passes, the walk leaves exactly one of the outcomes the sweep reckons with, and completes when nothing fails in time |
| `Reclaim.Reclaimer.ReclaimDir` | src/agents/agent-tmpdir.ts:110-125 | Ends on any tree; only what lies in the directory goes, each thing after all below it, symlinks unlinked and what is outside untouched; the directory is gone if and only if the walk completes |
| `Briefing.Fitted` | src/agents/active-work.ts:387-402 | The block has the most task lines, up to 25, that fit with the whole excerpt; if none do, no task lines and the excerpt cut by the overflow |
| `Briefing.CutFits` | src/agents/active-work.ts:398-401 | Cutting the excerpt by the overflow and the mark always makes room, unless nothing of it would be left |
| `Briefing.FittedFits` | src/agents/active-work.ts:386-402 | The block is at most 9,000 characters if and only if some number of task lines fits, or the block with neither task lines nor excerpt does |
| `Briefing.FullBriefing` | src/agents/active-work.ts:418-449 | Whenever that holds, the final cut changes nothing and the block ends with the whole Related section |
| `Briefing.OrdinaryBriefingFits` | src/agents/active-work.ts:70-74 | The budgets add up: it holds for any brief, tasks and session once header, file names and counts take at most 2,200 characters and Related its reserve |
| `Briefing.TaskSectionReads` | src/agents/active-work.ts:358-363 | Read line by line, the task section is its heading, an empty line, the first tasks in their order, each with id and title, and how many are left out, if any |
| `Briefing.SessionSectionReads` | src/agents/active-work.ts:377-382 | Read line by line, the session section is its heading, an empty line, the excerpt and, after it, the names of earlier sessions; without a session there is none |
| `Related.RelatedSection` | src/agents/related.ts:179-191 | The lines are the longest ranked prefix of at most six hits that the reserve allows, and the section is shorter than 2,600 characters |
| `Related.ShownIsUnique` | src/agents/related.ts:179-191 | That prefix is unique |
| `Related.SixOrdinaryLinesFit` | src/agents/related.ts:33-38 | With lines of at most 420 characters none of the first six is left out |
| `Related.LineLength` | src/agents/related.ts:160-170 | A line's length is bounded by its tag, reference and path, however long title and note are |
| `Related.Bounded` | src/agents/related.ts:160-161 | At most the given length, and the text itself when it fits |
| `Related.BoundedCuts` | src/agents/related.ts:160-161 | A longer text is cut before the bound, less exactly the white space it then ends with, and marked |
| `Related.SectionReads` | src/agents/related.ts:179-191 | Read line by line, the section is its heading, an empty line and the hits shown in their order |
| `Related.HitLineReads` | src/agents/related.ts:160-170 | A line gives the tag of another initiative, the reference, the title in quotes, what to read it for and the path, title and note whole when they fit |
| `Budget.WindowCandidates` | src/agents/budget.ts:574-584 | For each name the newest file's window, then the fresh others' in order; a passed reset introduces no window |
| `Budget.MergeWindows` | src/agents/budget.ts:594-613 | The result is the merge: each window picked from its candidates, and the age that of the newest file or of the oldest one picked |
| `Budget.OrderDoesNotMatter` | src/agents/budget.ts:594-598 | The order the files are read in does not matter when no two were written at one time |
| `Budget.TiesMatterIff` | src/agents/budget.ts:557-605 | For two files of one time the merge is the same in both orders if and only if every window of theirs is (both say the same, or one is shown even when read second), and the greater age is shown even when its file is read second |
| `Budget.TiesGoByOrder` | src/agents/budget.ts:595-598 | So it is not the same where both have an untimed window of one name and differ on it |
| `BudgetWinners.WinnerIsShown` | src/agents/budget.ts:557-605 | For any number of files, newest first: a window is shown if and only if a file wins it, and it is that file's: of those with the reset to come (or all, if none has and the newest file has the window) the newest, if that one's is untimed; otherwise, of the timed ones within an hour of the latest reset, the newest of those with the highest figure |
| `BudgetWinners.AgeIsOfTheOldest` | src/agents/budget.ts:598-613 | The reading is as old as the newest file or the oldest that wins a window, and stale beyond two minutes |
| `BudgetWinners.WinnerIsUnique` | src/agents/budget.ts:557-572 | No two files win one window |
| `BudgetWinners.NewestFirstIsStable` | src/agents/budget.ts:595-595 | The files are gone through newest first, and those of one time in the order given |
| `Budget.PickedIsHighestOfLatest` | src/agents/budget.ts:557-572 | Where the first figure left is timed, the one picked is the highest of those within an hour of the latest reset, and is one of them |
| `Budget.HighestIsFirst` | src/agents/budget.ts:569-571 | Of equal figures the first, hence the newest file's, is taken |
| `Budget.EveryWindowIsSomeones` | src/agents/budget.ts:586-592 | Every window shown is one file's, unchanged; that file is the newest or at most 15 minutes old, and no older than the reading says |
| `Budget.WindowIsShownWhen` | src/agents/budget.ts:577-582 | A window the newest file lacks is shown exactly when a fresh file has it with its reset to come |
| `Budget.NewestIsNeverLowered` | src/agents/budget.ts:588-592 | No other file drops or lowers the newest file's figure, unless a window resets more than an hour later |
| `LineReader.LineReader.Feed` | src/protocol.ts:1835-1851 | After any chunks, the calls made are those of the whole text and the buffer is its unfinished line |
| `LineReader.ReadOn` | src/protocol.ts:1838-1842 | Reading on from the buffer is reading the whole text |
| `LineReader.RestIsUnfinished` | src/protocol.ts:1836-1842 | What is buffered is exactly the text after the last newline |
| `LineReader.TrimIs` | src/protocol.ts:1841-1841 | Trimming takes white space off both ends, and all of it |
| `LineReader.ChunksDoNotMatter` | src/protocol.ts:1831-1851 | Chunk by chunk, the calls and the buffer are those of the joined text |
| `LineReader.SameTextSameCalls` | src/protocol.ts:1835-1851 | Two ways of cutting one text make the same calls and leave the same buffer |
| `LineReader.EveryMessageArrives` | src/protocol.ts:1863-1865 | Encoded messages in any chunking arrive as exactly those messages, in order, with nothing left over |
| `LineReader.ArrivesInOrder` | src/protocol.ts:1835-1865 | While they are still arriving, what was delivered is a prefix of that |
| `LineReader.BadLineCostsOneReport` | src/protocol.ts:1832-1833 | A malformed line costs one report; the messages around it are delivered all the same |
| `ProcessGuard.RootOf` | src/agents/process-guard.ts:50-58 | Ends on any table; returns a root exactly when one is met before the row's own pid or a repeat, and then the nearest |
| `ProcessGuard.RepeatIsRootless` | src/agents/process-guard.ts:53-53 | Coming round again means there is no root to come to |
| `ProcessGuard.ProtectedPids` | src/agents/process-guard.ts:60-66 | Ends on any table with exactly init, the broker and its ancestors up to init |
| `ProcessGuard.RunawayVictims` | src/agents/process-guard.ts:69-80 | Exactly the over-limit rows of the uid that are unprotected, no root, and descend from one, in table order, each with its nearest root |
| `ProcessGuard.VictimsAreSafe` | src/agents/process-guard.ts:68-80 | A victim is never init, the broker, a root or an ancestor of the broker below init |
| `ProcessGuard.ByPidIs` | src/agents/process-guard.ts:70-70 | The table by pid holds exactly the pids of the rows, each with its last row |
| `ProcessGuard.VictimsIff` | src/agents/process-guard.ts:43-80 | Nobody else and nobody missed, on the rows alone: a row is among the victims if and only if it is of the uid, over the limit, neither init nor a root, on no line of parents from the broker up to init, and below a root by a line of parents without one in between and without its own pid |
| `ProcessGuardMonitor.Monitor.GuardOnce` | src/agents/process-guard-monitor.ts:41-60 | One tick moves the state as specified, does nothing when off or when the table cannot be read, and records read failures at least a minute apart |
| `ProcessGuardMonitor.Monitor.ForgetStale` | src/agents/process-guard-monitor.ts:63-67 | A mode change clears every quiet window; otherwise the expired ones go |
| `ProcessGuardMonitor.Monitor.Act` | src/agents/process-guard-monitor.ts:70-90 | Kills only in kill mode and never a known daemon, and says how long to leave the pid alone |
| `ProcessGuardMonitor.DeedsAreSpaced` | src/agents/process-guard-monitor.ts:14-17 | Over any run of ticks, kills of one pid are ten seconds apart and a record is ten minutes before the next deed, unless the mode changed; off and on again is no change |
| `ProcessGuardMonitor.EveryDeedIsJustified` | src/agents/process-guard-monitor.ts:54-59 | Every deed was done at a tick whose table made its process a victim |
| `ProcessGuardMonitor.KillsAreSafe` | src/agents/process-guard-monitor.ts:75-89 | No run ever kills init, the broker, a root, a daemon, a protected process or one within the limit |

## Left out

- RemoteSpawns.RemoteSpawns.OpenSpawn: pending entries are values in a table keyed by a serial number rather than heap objects, so object identity of an entry is that number and aliasing beyond it is not modelled.
- RemoteSpawns.RemoteSpawns.Fail: failure texts are structured reasons, and `announce`, `retire` and `onLost` are recorded effects that do not call back into the object.
- SuiteSlots.BehavedRunsExclude: what a directory is listed to hold and unlinking it are one step, and clearing away a renamed directory none; a file's time and the clock are one clock in whole milliseconds; other errors than a missing or an existing file, a pid used again while a run lasts, and `acquireSlot`'s waiting loop and deadline are not modelled.
- SuiteSlots.SlotsInUse: the count is of one moment, while the source reads one slot after another.
- AccountMove.MoveNeverLosesTheTranscript: directories, modes, the path arithmetic of `transcriptPath`, hard links and case-variant names (one file under two paths) are not modelled; paths are equal or different files.
- AccountMove.RestoreEnds: times are integers; the source keeps a time to the millisecond and compares finer ones, so a restored time is the recorded one only to the millisecond.
- Identity.FoldMeans: presentation fields that no transition reads (brief, model, provenance, crash-loop text, worktree base) are not modelled.
- AgentLog.AgentLog.All: freezing and copying the returned list are not modelled; agents are values.
- EndorseCommand.JoinedReads: the tokeniser answers nothing for unquoted characters that could mean something else to a shell (operators, expansions, patterns, comments, double quotes); the printed commands hold none. Lone surrogates are not code points here.
- SurvivorRoot.Resolve: what the ledger, the process table and the record of quarantines answer are functions of the agent id for the length of one walk.
- SurvivorRoot.ReportedLoopIsReal: assumes the walk starts from the agent's own spawn row, as its caller does.
- DetachedReaper.DetachedReaper.RunBatch: a check is what it does to the queue; it does not close the reaper or throw, and the per-batch cache of session records is not modelled.
- TmpSweep.Sweeper.Sweep: one clock reading stands for a pass, a used-up budget is a read per directory, removal of a tree is one step with an outcome, and nothing else changes the file system during the pass. Log lines are not modelled.
- Reclaim.Reclaimer.ReclaimTree: modes are not kept (a `chmod` and the reading of the directory are one operation that may fail), nothing else changes the tree during the walk, and the count `inodes` (in which a nested directory counts twice) is not modelled.
- TmpPaths.PidOfIsExact: normalising a path is an abstract read.
- Briefing.FullBriefing: the implementer's lean block, YAML reading, frontmatter and trimming are not modelled; a character stands for one UTF-16 code unit.
- Related.RelatedSection: a hit's path is already joined to the root, and fetching the hits is not modelled.
- Budget.MergeWindows: `rateLimitReads`, which ages each file first, is not modelled; figures and times are reals without rounding, and the order of names in the result is not kept.
- LineReader.LineReader.Feed: JSON is a pair of functions that round-trip with one-line, braced output; splitting a UTF-8 character between chunks and an error callback that throws are not modelled.
- ProcessGuard.RunawayVictims: the argv test for an agent program is an abstract predicate of the command.
- ProcessGuardMonitor.DeedsAreSpaced: the clock is assumed not to run backwards.
- Sampling of process footprints, seat blocks, cost windows and account groups are not modelled.
- `spawnSiteFor`, remote scope refusals, profile parsing, liveness of a single process and config defaults: expressions over reads.
- Real processes, signals, sockets, git, terminals and the supervisor, registry and event store around these parts: only what they are relied on for (an append-only log whose reads keep row identity) is assumed.
