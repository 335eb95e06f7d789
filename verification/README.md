# Verified models of Owlery's coordination code

Owlery runs coding agents on one machine. Several of its parts make promises that hold only across functions,
processes and crashes: a deploy switch can always be undone, a system-produced turn is delivered exactly once, a
cancelled delegation tree settles completely, a closed deploy gate means nothing is running. This project models those
parts in Dafny and proves the promises, and where the code does not keep one it proves exactly when it does.

| file | models | source |
|---|---|---|
| `Switcher.dfy`, `HandoffContract.dfy` | the journaled switch and rollback, a crash allowed between any two effects | `server/switcher.py` |
| `Utf8.dfy`, `Journal.dfy`, `SwitchJournal.dfy` | the append-only journal as bytes, and the switch driven by it | `server/switcher.py` |
| `Layout.dfy` | the slot tree and its one flip point | `server/deploy.py` |
| `Outbox.dfy` | the injection outbox: SQL statements, triggers, one shared connection | `server/database.py`, `server/bg_tasks.py` |
| `CallerChain.dfy` | cycle and depth guard over memory and database | `server/delegations.py`, `server/session_manager.py` |
| `CascadeCancel.dfy`, `CascadeRaces.dfy` | the mutually recursive cancel, alone and with rounds finishing meanwhile | `server/delegations.py` |
| `Rounds.dfy` | delegation rounds over every interleaving | `server/delegations.py`, `server/database.py` |
| `Recovery.dfy` | restart recovery in four phases | `server/delegations.py` |
| `Admission.dfy`, `Census.dfy` | the re-entrant deploy gate, what starts inside it or beside it, and the census | `server/deploy_admission.py`, `server/bg_tasks.py`, `server/session_manager.py`, `server/task_board/deploy_quiesce.py` |
| `Jsonl.dfy` | transcript writer, parser and consolidator | `server/jsonl_writer.py`, `server/jsonl_parser.py` |
| `Parked.dfy` | wake-up staggering, and what becomes of a parked turn | `server/parked_turns.py` |
| `Tokens.dfy`, `Installs.dfy` | single-flight token refresh, deduplicated installs | `server/connector_manager.py` |
| `SkillSync.dfy` | projection of owned skill directories | `server/skill_registry.py` |
| `Capture.dfy` | tail-capped output capture | `server/bg_tasks.py` |
| `Chunks.dfy` | message splitting | `server/bridges/feishu.py` |
| `LegacyPaths.dfy` | path re-prefixing over columns and JSON | `server/legacy_rename.py` |
| `Timeline.dfy` | timeline merge with gap markers | `server/replay.py` |
| `Base.dfy`, `RoundStates.dfy` | shared vocabulary | |

Code that changes state is a class whose methods are proved against functions on values; whole runs are step machines
over the same functions, and the lemmas quantify over all runs. In `Switcher` the class keeps a ghost history of every
state a crash could leave, and the main method promises something about each of them.

Where the code and its comments differ, the code is modelled:

- Journal reading promises to lose at most a torn last line. It reads strict UTF-8 and does not catch a decoding error:
  a line cut inside a character makes the whole file unreadable for every op (`Journal.TornTailIsHarmless`), and it stays
  so (`Journal.AppendAfterTornIsLost`). A cut between characters loses the torn record and the one appended after it.
- `splitlines` also breaks at U+0085, U+2028 and U+2029, which `json.dumps(..., ensure_ascii=False)` leaves in the text,
  so such a record is lost (`Journal.ReadBack`).
- The caller-chain walk calls its fail-closed rejection a sign of corruption. Deleting a session leaves its live children
  pointing at it in memory, so each of them, and every session below it, is refused until it is loaded again
  (`CallerChain.FailClosedExactly`, `CallerChain.ChildOfDeletedIsStuck`, `CallerChain.ReloadHeals`).
- Wake-ups are said to be spaced apart. Probes without a reported reset are not (`Parked.ParkKeepsSpacing`), and a boot
  that finds several due fires them together (`Parked.BootStampedesExactly`).
- A path rewrite is said to keep the rest of the string verbatim; it keeps the rest of the normalized path
  (`LegacyPaths.ReprefixGoesBack`).
- A Codex sync without a source root returns before it cleans up, and an unparseable manifest forgets directories for
  good (`SkillSync.BooksBalance`, `SkillSync.ForgottenStaysForever`).
- A terminal event tells the durable outcome, except after a start failure, whose path overwrites the record and ignores
  its compare-and-set (`Rounds.MisreportsExactly`).
- A new authorization takes no lock, so a refresh in flight can overwrite it, before its answer as well as after
  (`Tokens.StoredIsNewest`, `Tokens.ReinstallDuringRefresh`).
- A wake-up reads its row and then deletes by session, so a turn parked again in between is deleted unread
  (`Parked.FateOfEveryPark`).
- A background task whose row cannot be saved is terminated and waited for, but only for a time: it can outlive an empty
  census (`Admission.ClosedCensusMissesExactly`).
- A cancelled park releases the prompts behind it without asking the gate, and the census looks at sessions and at parked
  rows at different moments, so a turn can start after an empty census of a closed gate
  (`Census.ParkedQueueEscapesTheCensus`; `Census.ClosedStartsExactly` says when).
- `switch_current` says it renames over any existing `current`; over a real directory the rename raises and the staged link
  stays (`Layout.DeployLayout.SwitchCurrent`). A loop of links raises out of `current_slot`, which catches only `OSError`
  (`Layout.CurrentSlot`).
- `deliver_bg_result` is said to return False only when its session is gone; it also does after any failed enqueue,
  committed or not (`Outbox.OnlyYesTells`).
- A fork that fails rolls back the shared connection and with it whatever another coroutine has inserted and not committed;
  that one's append then returns with nothing stored (`Outbox.ReturnedAppendIsDurable`).
- A cascade skips a child that has finished since its snapshot, and with it everything below
  (`CascadeRaces.CascadeReachesExactly`).
- An install whose row is deleted between its lookup and its update answers with an id nobody has
  (`Installs.DeleteDuringInstall`).
- A timeline message whose timestamp is present but unreadable is shown nowhere (`Timeline.NothingElseIsLost`).

## Model

| member | source | states |
|---|---|---|
| Switcher.Switch.Run | server/switcher.py:403-546 | in every state a crash can find, the words this switch added to the journal bound slot, database, snapshot and servers; it ends in one final word or raises with none, and refuses exactly when a slot or the snapshot is missing |
| Switcher.Switch.FlipAndCheck | server/switcher.py:489-508 | after the flip the switch ends confirmed, restored, stuck, or raised with the journal telling how far it came |
| Switcher.Switch.RollBack | server/switcher.py:510-546 | a rollback ends restored only with the old slot current, a server booted on exactly the snapshot and the old sha seen; when a step raises, the tail stays rollback_begin |
| Switcher.Switch.RestoreSnapshot | server/switcher.py:368-378 | the live file becomes the snapshot without sidecars, or the copy fails half way; torn states are covered by the journal tail |
| Switcher.Switch.RestoreAndRestart | server/switcher.py:510-531 | the restore before the boot of the old server, each of them possibly raising, every state in between covered by the journal tail |
| Switcher.Switch.PollHealth | server/switcher.py:403-419 | success only after the process, seen alive, answered with the wanted sha |
| Switcher.Switch.WaitGone | server/switcher.py:260-277 | the wait touches nothing and ends; success means the old process is gone |
| Switcher.Switch.Terminate | server/switcher.py:349-365 | the terminated server is gone afterwards and nothing of the switcher's state changed |
| Switcher.RunSwitch | server/switcher.py:440-546 | without an acceptable handoff exactly one switch_error is written; with one every crash state is bounded by its journal tail, in each of them `current` names a real slot if it did at the start, and each exit code tells the records added, the slot, the database and the server seen; a switch that has seen nothing before exits with success exactly when the to-slot is current and the new sha was seen, unless it raises |
| Switcher.CurrentIsReal | server/switcher.py:440-546 | in every state of a switch `current` names a real slot: nothing is flipped unless both are there |
| Switcher.ReadHandoff | server/switcher.py:456-462 | the contract is that of the op's last handoff record |
| Switcher.LogKeepsCrashSafe | server/switcher.py:440-546 | a word may be journaled exactly when what it promises already holds |
| Switcher.QuietKeepsCrashSafe | server/switcher.py:440-546 | nothing a dying or running server does breaks what the journal tail promises |
| Switcher.FinalMeansOneWord | server/switcher.py:440-546 | a switch is final exactly when it added one of: switch_error, old_wont_die, flip_done switched_ok, flip_done rollback_begin and a rollback verdict |
| HandoffContract.FromDetail | server/switcher.py:168-225 | an accepted contract has two different legal slots, a positive pid and a legal port |
| HandoffContract.OfferRoundTrip | server/task_board/delivery.py:1398-1411 | what the server offers is read back unchanged exactly when it is acceptable and complete, and refused otherwise |
| Journal.ReadBack | server/switcher.py:107-141 | reading returns exactly the op's records whose text holds no line break, in order |
| Journal.AllReadable | server/switcher.py:107-141 | without line breaks in the details every completed append is read back |
| Journal.TornTailIsHarmless | server/switcher.py:107-141 | cut between characters a torn last line hides only its own record; cut inside one, no record of any op is read |
| Journal.TornAfterFile | server/switcher.py:107-141 | the same behind any file of whole lines |
| Journal.AppendAfterTornIsLost | server/switcher.py:107-141 | what is appended after a torn line is lost with it; after a cut inside a character all is, whatever comes later |
| Journal.JournalFile.Append | server/switcher.py:107-118 | behind whole lines an append adds its record to what its op reads, and to no other, unless its text holds a line break |
| Journal.JournalFile.Entries | server/switcher.py:120-141 | the reading loop returns the op's records of the decoded and split bytes, or fails to decode them |
| Utf8.CutText | server/switcher.py:107-141 | text cut at a byte, with more text behind it, decodes exactly when the cut lies between characters |
| Utf8.CutsAreCleanForAscii | server/switcher.py:114-118 | every cut of a line is harmless exactly when the line is ASCII |
| Utf8.DecodeInverse | server/switcher.py:120-131 | what the strict codec reads is exactly what was written |
| SwitchJournal.FileReadsBack | server/switcher.py:107-141 | in every state of a switch the file reads back as that state's journal |
| SwitchJournal.CrashIsToldByTheFile | server/switcher.py:95-141 | whatever byte a crash cuts an append at, the file tells the phase whose promise holds, unless the cut splits a character |
| SwitchJournal.RunOnFile | server/switcher.py:440-546 | the switch driven by the bytes of the file: undecodable bytes raise before any effect, else every state is crash safe and the file grows by exactly the words added |
| Layout.CurrentSlot | server/deploy.py:128-149 | a slot is current if and only if the link resolves to it and it is a real directory; the lookup raises exactly on a loop of links |
| Layout.IdleSlot | server/deploy.py:151-154 | "a" exactly when "b" is current, else "b"; it raises exactly when the lookup does |
| Layout.DeployLayout.SwitchCurrent | server/deploy.py:156-180 | the flip makes the slot current exactly if it is a real one and no directory is in the way; a directory at `current` leaves the staged link and the same (no) current slot, any other failure nothing; every tree in between reads as before or as after, unless `current` resolved through the staged name already |
| Layout.FlipAndBack | server/deploy.py:156-180 | flipping there and back restores what is current and every other entry |
| Outbox.EveryRunIsExactlyOnce | server/database.py:1273-1315 | over every interleaving of statements, commits, rollbacks and crashes an injection is delivered exactly when one message carries it, faithfully |
| Outbox.ReturnedAppendIsDurable | server/database.py:2067-2165 | a message whose append returned is durable if and only if nobody on the connection rolled back before anybody committed |
| Outbox.SoundMeansExactlyOnce | server/database.py:1285-1315 | the invariant the triggers keep is exactly-once delivery |
| Outbox.StatementKeepsSound | server/database.py:1273-1315 | every statement on the tables keeps it, forks and session deletes included |
| Outbox.TerminalIsFinal | server/database.py:2311-2374 | delivered and failed are final and a row's identity never changes |
| Outbox.SoundIsLegacyWithoutHalfStates | server/database.py:2311-2348 | old databases differ from sound ones only in half-states |
| Outbox.ReconcileRepairs | server/database.py:2311-2348 | one reconcile repairs the half-state it names and changes nothing otherwise |
| Outbox.FailNeedsReconcileFirst | server/database.py:2350-2374 | failing a pending row is safe if and only if no message carries it already |
| Outbox.Database.AppendMessage | server/database.py:2067-2165 | stored exactly when its session is there and an id it carries names a pending row of that session and text that no message carries yet; then one row is added and only that receipt changes, else nothing |
| Outbox.Database.CreateSessionInjection | server/database.py:2187-2213 | one pending row with these fields is added exactly when key and id are new and the session is there, else nothing changes; the returned row carries the key |
| Outbox.Database.ReconcileSessionInjection | server/database.py:2311-2348 | a pending row that a message of its session carries becomes delivered and is reported, and nothing else changes |
| Outbox.Database.FailSessionInjection | server/database.py:2350-2374 | a pending row becomes failed and is reported, and nothing else changes |
| Outbox.Database.CreateForkSession | server/database.py:1952-2009 | created exactly for a new session; then each message of the parent up to the fork point has one copy in it, with the same number, role, kind and content and no delivery id, the fork holds nothing else and no old row changes |
| Outbox.ForkIsPlain | server/database.py:1990-2005 | the statements of a fork, told by messages: which are copied, once each, what a copy says, and that a fork before the first message is empty |
| Outbox.Database.RecoverPending | server/session_manager.py:1756-1767 | afterwards no half-state is left, and a row changed only from pending to delivered, because a message of its session carries it |
| Outbox.Database.StartBgTasks | server/bg_tasks.py:191-229 | after startup every task in flight is interrupted, a task that owes a delivery has its `bg:` row exactly when it had one or its insert committed, each new row names its task, session and rendered text, and nothing else changed |
| Outbox.Database.DeliverMissing | server/bg_tasks.py:208-229 | the loop tries every listed task, whatever one before it answered or raised |
| Outbox.OnlyYesTells | server/session_manager.py:2161-2205 | an answer of True means the source is there; after False or an exception it may be there or not |
| Outbox.ReconcileAllRepairs | server/session_manager.py:1756-1767 | reconciling a list repairs exactly its half-states |
| Outbox.DeliverAllIsComplete | server/bg_tasks.py:208-229 | each owed task gets exactly the row that names it and nothing else changes |
| Outbox.BgRecoveryIsComplete | server/bg_tasks.py:191-229 | interrupting and delivering together complete the recovery, but for inserts that did not commit |
| CallerChain.DelegationManager.CheckChain | server/delegations.py:796-908 | accepted if and only if the parent pointers, read from memory first and then from the rows, lead through fewer than 64 distinct sessions to one without a parent, none of them runs the target and at most two were delegated to; an agent cycle or a depth refusal names such a chain |
| CallerChain.RefuteMayDelegate | server/delegations.py:842-894 | a cycle, a missing session or the cap refutes every chain |
| CallerChain.ChainIsUnique | server/delegations.py:842-894 | a session has at most one caller chain |
| CallerChain.ChangeKeepsInv | server/delegations.py:352-420 | opening, checking, creating, unloading, deleting and loading sessions keep the two maps consistent and every chain short and free of repeated agents |
| CallerChain.EveryChainIsShallow | server/delegations.py:796-908 | in every run no chain has more than three hops or an agent twice |
| CallerChain.FailClosedExactly | server/delegations.py:842-894 | the fail-closed rejection fires exactly when a session on the walk points in memory at a deleted one, and never as a cycle or an over-long chain; else only the two real rules decide |
| CallerChain.ChildOfDeletedIsStuck | server/session_manager.py:1620-1655 | a run of five changes after which a live child of a deleted session can delegate to nobody |
| CallerChain.ReloadHeals | server/delegations.py:842-894 | once such a session is read from its row again it may delegate to every agent but its own |
| CascadeCancel.DelegationManager.CancelDelegation | server/delegations.py:478-542 | cancels exactly the running records reachable through running records, one source each, descendants before ancestors, and terminates; the result and every record it changed say what their newest durable rows say, also when another transition had won |
| CascadeCancel.EffectIsPlain | server/delegations.py:478-542 | a cancel of a running record in plain fields: it reports durable truth, stops only and all of what was asked for from below it, changes rows only to cancelled, and tells each caller that is there once |
| CascadeCancel.DelegationManager.CascadeCancelDescendants | server/delegations.py:672-719 | settles exactly what lies below the root and no other record |
| CascadeCancel.DelegationManager.CancelChildren | server/delegations.py:696-718 | one frontier entry settles its still running children and what lies below them |
| CascadeCancel.DelegationManager.InjectTerminal | server/delegations.py:1191-1287 | one terminal source, only with a parent session to hear it |
| CascadeCancel.NestedCancel | server/delegations.py:672-719 | a nested cancel inside a cascade adds exactly its own portion |
| CascadeCancel.FlipShrinks | server/delegations.py:478-542 | each won cancel strictly shrinks the set of running rounds, which bounds the mutual recursion |
| CascadeCancel.EverythingReached | server/delegations.py:692-719 | an empty frontier means every descendant is settled |
| CascadeRaces.CascadeReachesExactly | server/delegations.py:672-719 | with rounds finishing between its awaits: a record below the root is still running afterwards exactly when it did not finish itself and one above it had, before the walk came to that one |
| CascadeRaces.PassedMeansFinishedBefore | server/delegations.py:697-699 | the records skipped are those finished by the time they were looked at |
| CascadeRaces.WithoutRacesAllIsSettled | server/delegations.py:672-719 | when none finishes before it is looked at, everything below the root is settled and nothing else |
| CascadeRaces.FinishedChildSheltersItsOwn | server/delegations.py:697-699 | a run in which a grandchild goes on running |
| Rounds.EveryRunIsOk | server/delegations.py:352-670 | every reachable world has contiguous rounds and at most one source per finished round |
| Rounds.StepKeepsInv | server/delegations.py:992-1056 | every step keeps the invariant and lets a round only advance |
| Rounds.NeverReopened | server/database.py:4200-4216 | a round that left running never runs again |
| Rounds.LeavesRunningOnce | server/database.py:4200-4216 | over a whole run a round leaves running at most once |
| Rounds.TerminalEventsAreUnique | server/delegations.py:1191-1287 | at most one terminal event per round, only for a finished one, and rounds are contiguous |
| Rounds.MisreportsExactly | server/delegations.py:453-470 | over every run an event differs from the durable outcome exactly when it was composed from a record a start failure had overwritten and a state other than failed won the compare-and-set |
| Rounds.SpoiledNeedsStartFailure | server/delegations.py:453-470 | no event is composed so without a start failure of its own round before it |
| Rounds.FollowUpAppendsNextRound | server/delegations.py:585-633 | a follow-up only appends the next round number, however old the round it read before its awaits |
| Rounds.StartFailureCanMisreport | server/delegations.py:453-470 | a run in which a completed round is reported as failed |
| Recovery.DelegationManager.RecoverInterrupted | server/delegations.py:194-337 | afterwards nothing runs; a round with a parent has its source exactly when it had one or its enqueue committed, a new source is addressed to the session that asked and ends in its transcript or failed, the rounds marked as injected are those whose enqueue returned; sources come child first, and archiving comes after everything else, up to the first archive that raises |
| Recovery.DelegationManager.RepairSources | server/delegations.py:287-305 | exactly the missing sources whose enqueue commits are created, deepest first, each pending and addressed to the session that asked for a finished round; no old row changes |
| Recovery.OnlyReturnsTell | server/delegations.py:1246-1270 | a returned enqueue has its source; after one that raised the source is there or not |
| Recovery.DelegationManager.WalkDepth | server/delegations.py:275-285 | the depth walk ends even on cyclic pointers |
| Recovery.DelegationManager.RescueLegacySessions | server/delegations.py:248-273 | every live session without a round gets exactly one interrupted round |
| Recovery.DelegationManager.MaterializePending | server/session_manager.py:1852-1907 | exactly the pending events of live sessions become messages, those of a session gone meanwhile fail; delivered and failed ones stay as they are |
| Recovery.DelegationManager.ArchiveRecovered | server/delegations.py:316-323 | the live sessions are archived deepest first, up to the first whose archive raises, and all of them when none does |
| Recovery.AncestorsAreShallower | server/delegations.py:275-285 | off a cycle the depth is the number of live ancestors |
| Recovery.DescendantsFirst | server/delegations.py:287-305 | no source is created before that of a round below it |
| Recovery.NothingMissing | server/database.py:4302-4321 | the query for missing deliveries lists all there is to repair: what is missing afterwards was not committed |
| Recovery.SortDeepestFirst | server/delegations.py:291-299 | deepest first, of one depth the latest, of one time the greatest run; a permutation |
| Recovery.AtLeastIsLexicographic | server/delegations.py:291-299 | run ids compare by their first different character, a prefix being the smaller |
| Recovery.RepairOrderIsUnique | server/delegations.py:291-299 | with the run as last key there is only one such order |
| Admission.DeployAdmissionGate.Admit | server/deploy_admission.py:46-64 | only a newcomer to a closed gate is refused; the owner nests |
| Admission.DeployAdmissionGate.Leave | server/deploy_admission.py:50-64 | the outermost leave frees the gate, an inner one only unwinds |
| Admission.DeployAdmissionGate.Close | server/deploy_admission.py:32-34 | closing changes nothing but the flag |
| Admission.EveryRunIsExclusive | server/deploy_admission.py:13-64 | in every interleaving at most one task is inside, through an open gate, with depth its nesting |
| Census.ClosedStaysQuiet | server/deploy_admission.py:32-64 | from close to open nobody is inside or enters, and processes, registrations, rounds and runs only shrink |
| Census.ClosedStartsBySteps | server/session_manager.py:3833-3858 | with the gate closed a turn starts exactly at the release of a cancelled park with a prompt behind it, or at the worker of a run already claimed |
| Census.ClosedStartsExactly | server/session_manager.py:1934-2050 | a closed gate lets another turn start if and only if a worker is on its way or a prompt waits behind a turn, a park or a cancelled park |
| Census.EmptyCensusStaysIdle | server/task_board/deploy_quiesce.py:93-154 | after a census whose every look, each at its own moment, found nothing, no task, round or run is left until the gate opens and only children given up on are alive; it stays without a turn if and only if none runs and none can start at its end |
| Census.CancelledParkEscapes | server/task_board/deploy_quiesce.py:98-109 | a park cancelled between the two looks of an otherwise empty census brings a turn after it |
| Census.ParkedQueueEscapesTheCensus | server/session_manager.py:3833-3858 | a whole run from the start that does so |
| Admission.StepKeepsTracked | server/bg_tasks.py:284-375 | by the order of spawn, registration, save, pop and timed wait, a live child is registered, waited for inside the gate, or outlived its wait |
| Admission.ClosedCensusMissesExactly | server/bg_tasks.py:284-375 | a live child is missing from the census of a closed gate exactly when its timed wait gave up on it alive |
| Admission.OutlivedMeansGivenUp | server/bg_tasks.py:347-357 | the children that outlived are those of such a step of the run |
| Census.LostWorkEscapesTheCensus | server/bg_tasks.py:347-357 | a run with a closed gate, an empty census and a live child whose row could not be saved |
| Admission.NestedAdmitIsFree | server/deploy_admission.py:46-54 | a nested admit is never refused and leaving it restores the gate |
| Admission.CloseFromInsideBlocks | server/deploy_admission.py:32-38 | close from inside an admit body never gets the lock |
| Jsonl.WriteJsonl | server/jsonl_writer.py:78-99 | every writable message in order, each line naming the one before it |
| Jsonl.ParseJsonlLines | server/jsonl_parser.py:224-249 | the consolidated messages of the primary session, each tool call shown with its own last result, no two neighbouring texts of one role |
| Jsonl.FindPrimarySessionId | server/jsonl_parser.py:100-125 | the hint if a line counts for it, else the session with most lines, of several the one whose first line comes first; none exactly when no line counts |
| Jsonl.Consolidate | server/jsonl_parser.py:159-221 | every tool call is shown in order with the preview of the last result that names it, marked as an error exactly when that was one, or without; the loops compute the specification the other theorems are about |
| Jsonl.EachLineInItsPlace | server/jsonl_parser.py:236-245 | wherever a line stands it adds its own messages in its place, and none when it is of a stray session |
| Jsonl.LineSays | server/jsonl_parser.py:27-97 | a line of several blocks is its blocks in order; other lines say their text, or nothing |
| Jsonl.BlockSays | server/jsonl_parser.py:44-95 | what each kind of block gives on each side |
| Jsonl.LineKeeps | server/jsonl_writer.py:16-75 | which messages can be written, and field by field what their line gives back |
| Jsonl.WriteThenParse | server/jsonl_parser.py:27-97 | writing then parsing is consolidating the writable messages in normal form, whatever the hint |
| Jsonl.TripsSettle | server/jsonl_parser.py:159-249 | two trips drop only tool previews, three are two; one trip is stable exactly when it shows no preview |
| Jsonl.MergedNeverJoins | server/jsonl_parser.py:205-219 | no two adjacent texts of one role |
| Jsonl.NoTextIsLost | server/jsonl_parser.py:205-219 | each message out is one run of neighbours, joined by blank lines |
| Jsonl.RunsKeepAll | server/jsonl_parser.py:205-219 | the runs concatenated are the messages |
| Parked.ParkedTurnRunner.Park | server/parked_turns.py:131-171 | the row wakes at the least free slot after the reset, a stagger away from every other, or at the next probe; its job is set to exactly that moment, or to a second from now when it is due before, and no other job changes |
| Parked.ParkedTurnRunner.Wake | server/parked_turns.py:203-231 | a row is consumed before its turn runs, a missing one wakes nothing |
| Parked.FateOfEveryPark | server/parked_turns.py:131-231 | over every run a stored park waits, was replaced, cancelled, gone with its session, woken, or deleted unread, and the last exactly when its session was parked again between the two halves of a wake-up |
| Parked.ReparkDuringWakeIsLost | server/parked_turns.py:211-219 | such a run from any state with a parked turn |
| Parked.ParkedTurnRunner.Cancel | server/parked_turns.py:189-196 | row and job go together |
| Parked.ParkedTurnRunner.Initialize | server/parked_turns.py:92-127 | after a restart the rows and no others have jobs, each at its wake-up or, when that is due within a second or does not parse, a second from now; none is early |
| Parked.RunnerAlone | server/parked_turns.py:92-231 | in the machine of all runs a park, a wake-up, a cancel and a boot with nothing in between leave the rows and jobs the methods leave |
| Parked.Staggered | server/parked_turns.py:173-187 | the loop ends at the least free slot within twice the number of parked rows |
| Parked.FirstSlotsAreFew | server/parked_turns.py:173-187 | n claimed moments block at most 2n slots |
| Parked.ResetsNeverStampede | server/parked_turns.py:131-187 | over every run any two reset-scheduled rows are a stagger apart |
| Parked.JobsNeverStampede | server/parked_turns.py:92-171 | over every run a job made for its row never fires before the wake-up, and jobs of reset-scheduled rows that were still to come when made are a stagger apart |
| Parked.CutParkKeepsOldJob | server/parked_turns.py:142-166 | a park cut off between its row and its job leaves the old job, which is early exactly when its moment was |
| Parked.BootStampedesExactly | server/parked_turns.py:92-127 | two spaced rows fire within a stagger of each other after a boot exactly when it finds the first due within a second and the second within a stagger more |
| Parked.ParkKeepsSpacing | server/parked_turns.py:145-151 | a park keeps all wake-ups apart exactly when it follows a reset or its probe moment is free |
| Parked.ProbesStampede | server/parked_turns.py:145-151 | two sessions probing from one instant wake together |
| Parked.FirstParkedFirstServed | server/parked_turns.py:173-187 | parks on one reset wake one stagger apart in the order they parked |
| Tokens.ConnectorManager.GetAccessToken | server/connector_manager.py:428-493 | the whole outcome of one call, errors included; a token with less than five minutes left is handed out only where it cannot be refreshed, and an omitted refresh token is carried over |
| Tokens.CallAlone | server/connector_manager.py:428-493 | in the machine of all runs a call with nothing in between ends, field by field, as the method does |
| Tokens.OneRefreshForAll | server/connector_manager.py:428-493 | however many callers meet a due token, whoever is cancelled and whatever is authorized anew, at most one refresh is stored, every other grant was dropped by a cancel or a delete, and all who return got that one or a new authorization |
| Tokens.StoredIsNewest | server/connector_manager.py:428-493 | over every run, new authorizations, cancels and deletes included: whenever nobody refreshes, the stored refresh token is the one granted last, if and only if every refresh ended harmlessly |
| Tokens.StepIsExact | server/connector_manager.py:463-489 | a step leaves the newest token stored exactly when it is harmless, judged by what it could see |
| Tokens.ReinstallDuringRefresh | server/connector_manager.py:247-315 | an authorization before the answer survives exactly if the answer brings a token or the tokens agree, one after it exactly if they agree |
| Tokens.CancelAfterGrantIsLost | server/connector_manager.py:463-489 | a caller cancelled after the grant loses a rotated token |
| Installs.Database.UpsertInstallation | server/connector_manager.py:247-315 | overwrites the account's one row or adds it, with the new secret and nothing to reconnect; no other row changes and accounts stay unique |
| Installs.InstallAlone | server/connector_manager.py:247-315 | in the machine of all runs an install with nothing in between writes, field by field, what the method does |
| Installs.InstallsOfOneAccountMeet | server/connector_manager.py:247-315 | over all installs and deletes: one fails only if a delete took the row that had refused it, and all that ended on rows still there ended on their account's one row, with the secret written last |
| Installs.WithoutDeletesAllMeet | server/connector_manager.py:247-315 | without deletes no concurrent install fails and all of one account end on one row |
| Installs.DeleteDuringInstall | server/connector_manager.py:298-315 | a refused install fails exactly if no row is left when it looks again; one that found a row now gone answers with an id nobody has |
| SkillSync.CodexHome.Sync | server/skill_registry.py:782-892 | when it runs, and then every entry: what is not the agent's stays, a wanted name holds the repository's skill, or else the global one, an own unwanted directory goes exactly if the list named it; the new list holds the wanted names that are free |
| SkillSync.SlugIsWords | server/skill_registry.py:66 | a legal name is words of small letters and digits with one dash between two, and maybe a final newline |
| SkillSync.CodexHome.Place | server/skill_registry.py:870-887 | wanted names are written unless something foreign has them |
| SkillSync.SyncFromCompleteList | server/skill_registry.py:782-892 | owned becomes wanted minus blocked, the manifest stays complete, a second sync changes nothing |
| SkillSync.SyncIsExact | server/skill_registry.py:782-892 | that equality holds if and only if nothing owned and unwanted had fallen off the manifest |
| SkillSync.OwnedAfterSync | server/skill_registry.py:782-892 | what is owned afterwards, for any manifest |
| SkillSync.ForeignIsUntouched | server/skill_registry.py:857-887 | foreign entries are never changed, listed or marked |
| SkillSync.BooksBalance | server/skill_registry.py:782-892 | over any sequence of turns with lists lost and source roots missing, what is owned is exactly what the last completed sync wanted and could place, plus what had been forgotten by then |
| SkillSync.UnspoiledForgetsNothing | server/skill_registry.py:842-892 | a home whose list is never spoiled forgets nothing |
| SkillSync.ForgottenStaysForever | server/skill_registry.py:842-850 | an unparseable manifest forgets unwanted directories for good |
| SkillSync.SharedHomeForgets | server/skill_registry.py:842-887 | another agent's sync takes every owned name off the shared list |
| Capture.StreamBuffer.Read | server/bg_tasks.py:448-466 | the buffer is the last 200 KiB of what was read, flagged exactly when more came |
| Capture.StreamBuffer.Finalize | server/bg_tasks.py:114-133 | never over the cap: the stream, or the marker and its tail |
| Capture.CaptureStream | server/bg_tasks.py:430-646 | the result does not depend on how the pipe cuts the output |
| Capture.StoredIsStreamOrMarkedSuffix | server/bg_tasks.py:114-133 | the whole stream exactly when it fits, else the marker before a proper suffix that fills the cap |
| Chunks.SplitChars | server/bridges/feishu.py:923-936 | the loop ends for every positive limit and computes the pieces |
| Chunks.SplitLosesOnlyNewlines | server/bridges/feishu.py:923-936 | with the dropped newlines put back the chunks give the text |
| Chunks.ChunksFit | server/bridges/feishu.py:923-936 | every chunk fits, all but the last are half the limit long, short ones end at a line end |
| Chunks.ChunkCount | server/bridges/feishu.py:923-936 | the number of chunks is bounded by the text's length over half the limit |
| Chunks.CutIsLatest | server/bridges/feishu.py:923-936 | no line end in the second half before a cut is passed over |
| LegacyPaths.ReprefixMovesOut | server/legacy_rename.py:73-92 | a value leaves the old home, changes exactly when it was in it, and never twice |
| LegacyPaths.ReprefixGoesBack | server/legacy_rename.py:73-92 | a value inside the old home keeps its tail inside the new one, and the way back gives its normalized path |
| LegacyPaths.MovedStayApart | server/legacy_rename.py:86-92 | paths that differ inside the old home still differ in the new one |
| LegacyPaths.NormPathWalks | server/legacy_rename.py:73-74 | normalizing read from left to right: blanks and dots stay, a name goes down, two dots go back up, not above the root |
| LegacyPaths.RelativeIsBelowCwd | server/legacy_rename.py:73-74 | a relative value is normalized below the working directory |
| LegacyPaths.RewriteMovesOut | server/legacy_rename.py:352-361 | the same for every string of a document |
| LegacyPaths.RewriteIsPointwise | server/legacy_rename.py:352-361 | the walk keeps shape and keys and rewrites each string in its place |
| LegacyPaths.DocumentGoesBack | server/legacy_rename.py:352-361 | a document with no string in the new home comes back from two rewrites with its moved paths normalized and everything else as it was |
| LegacyPaths.ShapeAndStrings | server/legacy_rename.py:352-361 | shape and strings determine a document |
| LegacyPaths.Database.RewriteLegacyPaths | server/legacy_rename.py:280-336 | nothing without the marker; else every stored value keeps its row, a path in the old home keeps its tail under the new one, every string of a document likewise, and every other value stays as it is; the count is zero exactly when nothing changed |
| LegacyPaths.RunLeavesNothingBehind | server/legacy_rename.py:280-336 | after a run nothing stored points into the old home, and a second run changes nothing |
| LegacyPaths.RunGoesBack | server/legacy_rename.py:280-336 | a run back restores every column and document when the new home was empty, moved paths in normal form |
| Timeline.Assemble | server/replay.py:301-327 | the timeline without markers is the stable sort of every timed event, with exact markers |
| Timeline.Partition | server/replay.py:301-312 | leading untimed messages, later untimed ones, and the rest |
| Timeline.StableSortIsUnique | server/replay.py:323-325 | there is only one stable sort by time and sequence |
| Timeline.ReadsInOrder | server/replay.py:324 | earlier events first; at one instant lower numbers first and unnumbered events before numbered ones |
| Timeline.SortIsStable | server/replay.py:323-325 | the sort keeps the order of equal keys |
| Timeline.InsertGaps | server/replay.py:219-249 | the loop computes the specified markers |
| Timeline.ErasingGapsRestores | server/replay.py:219-249 | taking the markers out gives the events back |
| Timeline.GapsAreExact | server/replay.py:219-249 | a marker stands between two neighbours exactly when they are too far apart |
| Timeline.NothingElseIsLost | server/replay.py:301-325 | everything is shown exactly once, except what has an unreadable timestamp |

## Left out

Premises the code relies on and the model states:

- `current` names the from-slot at handoff, and no server but the old one is alive on the database; the switcher checks neither (`Switcher.RunSwitch`).
- A killed server runs no code after its SIGKILL; the port probe and `/health` are arbitrary answers. A line is cut by a crash at a byte, and completed appends stay.
- A JSON codec is injective, keeps a torn or glued record unreadable, and every journal line that parses is an object (`Journal.Good`); a line that parses to anything else makes the reader raise.
- `json.dumps` never gives the empty text (`LegacyPaths.NeverEmpty`).
- Text messages carry text or nothing (`Jsonl.HasText`); other content makes the merge raise, or is parsed as blocks.
- A token refreshed or authorized anew is good for the whole run (`Tokens.OneRefreshForAll`).
- A cancelled `create_subprocess_exec` leaves no child; a task is cancelled only where it awaits.
- Fresh ids (uuid4) are new; timestamps are integers and mutually comparable.
- The working directory is absolute and `expanduser` leaves absolute paths alone; a relative string is taken from the working directory, as the code does (`LegacyPaths.Norm`).
- File operations of a skill sync succeed, and one agent uses a Codex home.

What the models do not say:

- Rounds.EveryRunIsOk: does not promise that an event tells the durable outcome; `Rounds.MisreportsExactly` says when it does not.
- Parked.ParkedTurnRunner.Wake: is one call without other coroutines; its two halves are separate steps in `Parked.FateOfEveryPark`.
- Switcher.Switch.Terminate: the code returns right after SIGKILL; that the server is then gone is the premise above.
- Parked.ResetsNeverStampede: says nothing about probes, which the code does not stagger.
- CascadeCancel.DelegationManager.CancelDelegation: one cancel without other coroutines in between; what survives when rounds finish meanwhile is in `CascadeRaces`, and the interleavings of rounds are in `Rounds`.
- CascadeRaces.CascadeReachesExactly: a record put in the cache anew during the walk counts as started after the snapshot.
- Recovery.DelegationManager.RecoverInterrupted: the cancel of parked turns is not modelled, an archive that raises leaves its session as it was, and other failing statements end the recovery.
- Outbox.Database.StartBgTasks: the enqueue callback is the insert of its source row; its dispatch is not modelled.
- Outbox.ReturnedAppendIsDurable: nothing else writes the same message or deletes its session meanwhile.
- Census.EmptyCensusStaysIdle: of what a census lists, delivery and release operations, research jobs and pending injections are not modelled.
- Layout.CurrentSlot: the loop raises on Python 3.12, which the project names as its least version; newer ones may read it as no slot.
- Outbox.Database.RecoverPending: stops at the repaired rows; the dispatch of those still pending is not modelled.
- Jsonl.ParseJsonlLines: session metadata other than the primary id (directory, first message, time) is not modelled.
- Timeline.Assemble: event summaries and the prefix and anomaly captions are not modelled.

Parts of the repository without a model here:

- Real processes, sockets, HTTP, git and package tools; OAuth and Codex login, mail, tunnel and notifiers.
- SQL text, migrations, column mapping and the other tables; `research_jobs` mirrors delegation rows and decides nothing.
- The session manager, the agent back ends, the Task Board and the routers, except where one of their functions is cited above.
- Card nonces of the Feishu bridge, attachments, prompts, labels and budgets: rendering, or single dictionary operations.
- File moves and project directories of the legacy migration, and its marker; the code does not promise crash safety there.
