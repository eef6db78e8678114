# CoCoder's daemon: run slots, durable queue, repair dialogue, commit spine and gates

A Dafny model of the part of CoCoder that schedules agent runs on top of a git commit spine, with proofs of what it
keeps. `dafny verify dfyconfig.toml` checks everything.

What is modelled:

- **Run slots.** One slot per workspace under a global ceiling, reservations, stop controllers, settling, boot
  reconciliation, and each workspace's queue of governance edits beside them. `RunSlots` is the state machine, whose
  moves sit between the daemon's await points, so launches may interleave and the daemon may die inside a drain.
  `RunSlotTheorems` says which moves keep its invariants, `GovernanceFiles` which change a workspace's governance files;
  `Launcher` has the code as methods and ties each to the moves.
- **Governance files.** Ticket directories, index, order and priorities, the edits made to them with every point where
  they can break and what a clean-up leaves (`Governance`), when exactly an edit throws and changes a file
  (`GovernanceGuards`), the ticket edits as sequences of writes (`TicketSurfaces`), what a reconciliation settles on
  (`Reconciliation`), and what the edits keep true of index and order (`SurfaceTruth`).
- **Durable authoring queue.** Ids (`Ids`), the queue and its drain (`AuthoringQueue`), and any history of enqueues,
  drains and daemon deaths (`QueueHistory`), and which entries end in error without effect (`QueueErrors`). `Life` counts
  the actions the daemon still takes before it dies, or before a drain throws.
- **Oscar-Deb repair dialogue.** The transition table and the driver (`RepairDialogue`), the rail on what Deb may commit
  (`InterferenceRail`) over a repository with history, index, working tree and quarantine (`Repository`), whose paths are
  hierarchical (`Paths`), what a restore to HEAD keeps (`RestoreSteps`, `RestoreTheorems`), and the brace
  scanner (`JsonScan`, `JsonScanTheorems`) over the grammar of RFC 8259, sections 2 to 7 (`JsonText`).
- **Commit gate and parsers.** `CommitLedger`, `GitOutput`, `Frontmatter` and `FrontmatterRoundTrip`.
- **Daemon self-reload** (`Reload`, `ReloadTheorems`, tied to the run slots by `ReloadSlots`) and **teardown** of a run's surfaces (`Teardown`).
- **Ordering and gates.** `CloseGate`, `ManifestOrder`, `PriorityText`, `Priorities`, `PersonaMerge`.

What the outside world answers (git, the session host, lookups, the file system, an agent's turn) is a parameter of each
method, so every contract holds for all answers. A commit is named by its place in the history.

## Where the code and its comments or promises part ways

Each of these is a lemma with a concrete or general witness, beside the exact condition under which the promise holds.

- The in-flight check and the reservation of a launch are separated by an await, although the comment beside the
  reservation says the race is closed: `RunSlotTheorems.RaceLosesARun`, `MoveKeepsSlotsIff`. Such a race can also break
  the ceiling: `RaceBreaksCeiling`, `MoveKeepsCeilingIff`.
- A launch refused after its reservation frees the slot without draining the queue, so edits queued behind it stay queued
  with nothing in flight: `RefusedLaunchStrandsAnEdit`, `MoveStrandsIff`. The same holds for a pending daemon reload:
  `RefusedLaunchLeavesARequest`, `MoveLeavesBehindIff`.
- A founder's confirmation closes a ticket while another run of the workspace holds the slot, although edits in that time
  are otherwise queued: `GovernanceFiles.ConfirmedCloseUnderARun`, `ForeignWriteIff`.
- A ticket launch whose workspace or ticket lookup throws keeps its slot until the daemon starts again:
  `Launcher.ThrownLookupSticks`, `SticksIff`, `AbandonedSlotStays`.
- A reload's restart is not checked against runs launched during the build: `RestartHitsLaunchesSince`,
  `LaunchDuringBuildIsHit`.
- The evidence log of a held, undirected fix skips `deb-applied`, so it is not a legal path although the driver's variable
  follows one: `RequestOscarDebRepair`, `SkippedStateIsIllegal`.
- A held change with a path of blanks only makes the response artifact throw out of the driver: `RepairDialogue.Decision`
  gives `Thrown` in exactly that case; `BlankPathThrows`.
- A staged new file cannot be restored to HEAD, and untracked content above or below a restored tracked path is lost, even
  under a reported success: `StagedAddIsNotRestored`, `CoveringFileIsLost`, `CoveredDirectoryIsLost`,
  `RestoreIffRestorable`, `StepLosesIff`.
- A frontmatter key after the first that starts with three dashes ends the block early, and a key `__proto__` is not
  stored: `RoundTripIffFaithful`, `FencedKeyIsLost`.
- An unclosed brace in prose hides every later object from the scanner: `ObjectFoundIffSettled`,
  `UnclosedBraceHidesObject`.
- A commit an agent makes while the gate is at work is covered by no event: `GateAccountsIff`, `SlippedCommitIsLost`.
- A queued edit that ends in error may have changed files and even landed its commit: `ErrorDoesNotMeanNoEffect`,
  `BrokenRepointChangesOrder`, `FailsWithoutEffectIff`, `FailsCleanlyIff`, `FailsAfterEffectIff`, `FailsOverCommitIff`.
- A close is rolled back file by file; if the open file cannot be written back and the closed one can be removed, the
  ticket has no file left: `FailedRollBackLosesTicket`, `LossesIff`. A queued create can then make it a second time:
  `LostTicketIsMadeTwice`, `AtMostOnce`.
- Applying an order to items of which two share a listed id loses one: `OrderedIsPermutationIff`.
- Finalizing a ticket's parked runs does not free it from a held run: `FinalizedFreesTicketIff`.

## Model

| member | source | states |
|---|---|---|
| JsonScan.SpansOrdered | packages/daemon/src/oscar-deb-repair.ts:272-311 | on any text, candidates are disjoint, ascending, and run from an opening to a closing brace |
| JsonScan.JsonObjectCandidates | packages/daemon/src/oscar-deb-repair.ts:272-311 | the character loop finds exactly the candidates of the reference reading |
| JsonScanTheorems.ValueNeutral | packages/daemon/src/oscar-deb-repair.ts:279-309 | any JSON value, with braces, quotes and escapes in its strings, read inside an object leaves the scanner's state unchanged |
| JsonScanTheorems.StartsSettled | packages/daemon/src/oscar-deb-repair.ts:281-287 | a candidate can only begin where no earlier brace is open |
| JsonScanTheorems.ObjectFoundIffSettled | packages/daemon/src/oscar-deb-repair.ts:272-311 | an object text is reported at its own place if and only if the text before it leaves no brace open; then candidates(p+j+q) = candidates(p) + [j] + candidates(q) |
| JsonScanTheorems.ObjectInProse | packages/daemon/src/oscar-deb-repair.ts:272-311 | in prose without an opening brace the object is the first candidate, whole, and the tail is scanned as if alone |
| JsonScanTheorems.UnclosedBraceHidesObject | packages/daemon/src/oscar-deb-repair.ts:281-307 | a concrete text whose unclosed brace hides the object after it |
| JsonScanTheorems.FirstJsonObjectArtifact | packages/daemon/src/oscar-deb-repair.ts:212-222 | the backward loop returns the last candidate that parses to an object, or throws when none does |
| JsonScanTheorems.ArtifactIsLastParsing | packages/daemon/src/oscar-deb-repair.ts:212-222 | the artifact parses and every later candidate does not; there is none exactly when no candidate parses |
| JsonScanTheorems.ArtifactOfTurn | packages/daemon/src/oscar-deb-repair.ts:212-226 | an object after closed braces and before a tail without artifact is the artifact of the turn, whatever came before |
| Repository.Repo.AddAndCommit | packages/core/src/commit-gate/git.ts:140-153 | a commit holds exactly the listed paths as the working tree has them; a refusal leaves history unchanged; what was staged stays staged in the index, whether or not it is then committed |
| Repository.TreeWith | packages/core/src/commit-gate/git.ts:140-153 | a commit's tree has the working tree's content at and below the listed paths and its base's everywhere else, but for what stood above a file it writes |
| Repository.Repo.CommitFiles | packages/core/src/commit-gate/workspace-commit.ts:52-66 | an empty list commits nothing without error; otherwise a commit with exactly the list, or an error in the receipt and no commit |
| Repository.Repo.RestoreToHead | packages/core/src/commit-gate/git.ts:154-172 | the path-by-path loop is the restore on values, stopping at the first refusal and keeping what it did |
| RestoreTheorems.RestoreFrame | packages/core/src/commit-gate/git.ts:154-172 | a restore leaves HEAD alone, and every path that no listed one names and that is not at, above or below something of HEAD it checks out |
| RestoreTheorems.RestoreIffRestorable | packages/core/src/commit-gate/git.ts:154-172 | for any paths status may report and a quarantine directory apart from what is untracked: the restore succeeds, has HEAD's files and no others at and below every listed path in index and working tree, and loses no untracked content, if and only if every path tracked from the start has something of HEAD, what its checkout would write over is moved away before it and what else is untracked below it is moved away sometime, and every path untracked at its turn is there, untouched by earlier moves, with nothing below it in quarantine and what HEAD has there brought back by a listed type change |
| RestoreTheorems.LeavesIffRescued | packages/core/src/commit-gate/git.ts:161-170 | under a restorable list an untracked file that HEAD does not have leaves the working tree if and only if a listed untracked path names it |
| RestoreTheorems.BackIffReset | packages/core/src/commit-gate/git.ts:161-170 | what HEAD has at an untracked path comes back if and only if a listed staged file stands in the place of a directory above it |
| RestoreTheorems.UntrackedContentSurvives | packages/core/src/commit-gate/git.ts:164-170 | whether or not a restore succeeds, untracked content is still in the working tree or in quarantine unless a listed path checks out something of HEAD at, above or below it |
| RestoreTheorems.StagedAddIsNotRestored | packages/core/src/commit-gate/git.ts:161-165 | a staged new file makes the restore fail and stays where it is |
| RestoreTheorems.TypeChangeIsRestored | packages/core/src/commit-gate/git.ts:161-165 | a staged file in the place of a tracked directory is restored with the path below it, which is tracked by its turn |
| RestoreTheorems.StepLosesIff | packages/core/src/commit-gate/git.ts:161-170 | one path's step loses an untracked content if and only if it is a checkout and writes something else of HEAD at, above or below it |
| RestoreTheorems.CoveringFileIsLost | packages/core/src/commit-gate/git.ts:161-170 | an untracked file in the place of a tracked directory: the restore reports success and the file's content is nowhere |
| RestoreTheorems.CoveredDirectoryIsLost | packages/core/src/commit-gate/git.ts:161-170 | an untracked directory in the place of a tracked file: tracked path first, the restore fails with the content gone; the other way round it loses nothing |
| InterferenceRail.OutOfLane | packages/daemon/src/launcher.ts:1875 | the reported paths are exactly the changed ones that are no instruction surface, and there are some just when the change interferes |
| InterferenceRail.SurfaceIff | packages/core/src/write-scope/interference.ts:17-19 | a name without blank ends is an instruction surface if and only if it ends in `.md`, in any case |
| InterferenceRail.CommitDebRepair | packages/daemon/src/launcher.ts:1867-1880 | an interfering change adds no commit and is restored path by path, what stands in a checkout's way going; any other is committed whole or reported as an error |
| InterferenceRail.RailHolds | packages/daemon/src/launcher.ts:1867-1876 | after an interfering change, held into a quarantine directory apart from what is untracked: HEAD stays, the listed paths are HEAD's again without loss exactly when the list was restorable, untracked content that nothing of HEAD is written over survives, and paths aside of the list are untouched |
| InterferenceRail.SurfaceNotBlank | packages/core/src/write-scope/interference.ts:17-19 | a path of blanks is never an instruction surface |
| RepairDialogue.OnlyCompleteAndFailedAreFinal | packages/daemon/src/oscar-deb-repair.ts:241-267 | a state admits no event if and only if it is complete or failed |
| RepairDialogue.TransitionIff | packages/daemon/src/oscar-deb-repair.ts:241-267 | the table as a relation: each state is entered by one event, from exactly the states told for it |
| RepairDialogue.LegalPathsAdvance | packages/daemon/src/oscar-deb-repair.ts:241-267 | a legal path never moves back, and can only repeat the evaluation states |
| RepairDialogue.RequestOscarDebRepair | packages/daemon/src/launcher.ts:1453-1572 | for every outcome of each turn, parse and commit: the driver's states are a legal path into the outcome's state, at most one commit lands and it holds instruction surfaces only; with an answered evaluation of a proposal the founder is asked if and only if the verdict says so, or the proposal needs the founder or is of high risk, and then history and checkout are untouched; a directed outcome arises only for a verdict to apply with neither flag set; the evidence log is a legal path exactly when the outcome is not an undirected hold |
| RepairDialogue.OutcomesAre | packages/daemon/src/launcher.ts:1453-1572 | for each of the driver's outcomes, the answers of Deb, Oscar and git under which it is reached, if and only if |
| RepairDialogue.AppliedTurn | packages/daemon/src/launcher.ts:1497-1510 | an applied fix lands, is held, or fails, as the rail and git decide |
| RepairDialogue.EvaluationTurn | packages/daemon/src/launcher.ts:1518-1547 | an evaluation escalates if and only if its verdict, needsFounder or a high risk asks for it, stands unless it directs Deb, and directs Deb only with neither flag set |
| RepairDialogue.DirectedTurn | packages/daemon/src/launcher.ts:1549-1571 | a directed turn that does not come back applied fails, and the rail binds it all the same |
| RepairDialogue.HoldInterferingForFounder | packages/daemon/src/launcher.ts:1947-1965 | a hold goes through founder-escalated to complete from either applied state |
| RepairDialogue.SkippedStateIsIllegal | packages/daemon/src/launcher.ts:1498-1503 | the evidence of an undirected hold is not a legal path |
| RepairDialogue.BlankPathThrows | packages/daemon/src/launcher.ts:1501-1503 | a concrete new file named by one blank, which is quarantined and makes the driver throw |
| GitOutput.ParsePorcelain | packages/core/src/commit-gate/git.ts:92-108 | the index loop reads the NUL-separated fields as the reference reader does |
| GitOutput.PorcelainRoundTrip | packages/core/src/commit-gate/git.ts:86-108 | parsing the rendering of any status records gives each path in order, both ends of a rename, only the new path of a copy |
| GitOutput.ListWorktrees | packages/core/src/commit-gate/git.ts:194-217 | the line loop with its flush accumulates the blocks as the reference reader does |
| GitOutput.WorktreeRoundTrip | packages/core/src/commit-gate/git.ts:194-217 | parsing the printed list of any worktrees, detached ones included, gives them back |
| CommitLedger.PartitionByScope | packages/core/src/write-scope/partition.ts:18-25 | the loop splits the changed files by the scope, in order |
| CommitLedger.PartitionConserves | packages/core/src/write-scope/partition.ts:18-25 | the two sides together are the changed files, and each holds only what belongs there |
| CommitLedger.RecordSuccessfulCommit | packages/core/src/commit-gate/record-commit.ts:35-43 | the events and the link of a commit, in their order, and none without a sha |
| CommitLedger.RunCommitGate | packages/core/src/commit-gate/gate.ts:53-98 | with a boundary the call errs before committing, adding neither commit nor link, if and only if HEAD is not the caller's or some changed path is not allowed; otherwise it commits all that changed exactly when something did and git agrees; history, links and events are those of the gate on values |
| CommitLedger.BoundaryRefusesIff | packages/core/src/commit-gate/gate.ts:63-71 | each end of a gate call, by whether HEAD moved, a changed path is outside the boundary, anything changed and git agrees |
| CommitLedger.GateTells | packages/core/src/commit-gate/gate.ts:56-98 | the refused event lists exactly the changed paths the boundary does not allow, as often as they changed; a moved HEAD, a commit and the committed paths outside the scope are told exactly when there are any |
| CommitLedger.CommitScoped | packages/core/src/commit-gate/workspace-commit.ts:71-88 | the whole diff is committed or reported, and paths outside the scope are flagged either way |
| CommitLedger.FailedGateLeavesNoTrace | packages/core/src/commit-gate/gate.ts:63-84 | a failed or boundary-refused gate adds neither commit nor link |
| CommitLedger.ApplyKeepsLinksTrue | packages/core/src/commit-gate/gate.ts:76-98 | whatever the move, every link names a commit of a gate call: it lists all that changed, every path of it is inside the call's boundary if it had one, and its tree has there what the gate saw in the working tree and its parent's content everywhere else but for what stood above a file written |
| CommitLedger.GateAccountsIff | packages/core/src/commit-gate/gate.ts:56-60 | after a gate every commit is linked or covered by a self-commit event if and only if nobody committed while it was at work and nothing unaccounted lay before the caller's HEAD |
| CommitLedger.RunKeepsLedgerTrue | packages/core/src/commit-gate/gate.ts:53-98 | over any run of agent commits and chained gate calls, links are true of calls and trees in that sense, so that no link of a bounded call holds a path its boundary does not allow, and every commit up to the last call is linked or covered by a self-commit event |
| CommitLedger.SlippedCommitIsLost | packages/core/src/commit-gate/gate.ts:56-90 | a concrete commit slipped in during the gate that nothing accounts for |
| Frontmatter.ParseFrontmatter | packages/core/src/personas/frontmatter.ts:14-55 | the nested line loops terminate and compute the reference parse |
| FrontmatterRoundTrip.RoundTripIffFaithful | packages/core/src/personas/frontmatter.ts:14-55 | parsing a printed block of scalars, empty lists and block lists gives its map and trimmed body back if and only if no key after the first starts with three dashes and none is `__proto__` |
| FrontmatterRoundTrip.PrintDelimited | packages/core/src/personas/frontmatter.ts:19 | the delimited block of a printed document ends at the first later key that starts with three dashes |
| FrontmatterRoundTrip.ByteOrderMarkIgnored | packages/core/src/personas/frontmatter.ts:18 | a byte-order mark in front changes nothing |
| FrontmatterRoundTrip.FencedKeyIsLost | packages/core/src/personas/frontmatter.ts:19 | a concrete second key of three dashes breaks the round trip |
| FrontmatterRoundTrip.UnquoteDropsQuotes | packages/core/src/personas/frontmatter.ts:51 | a quote of either kind is dropped from each end, and a text without any stays |
| FrontmatterRoundTrip.QuotedScalarRead | packages/core/src/personas/frontmatter.ts:31-53 | a one-line value between quotes reads back as that text whatever it is, list signs, dashes and blank ends included |
| FrontmatterRoundTrip.QuotedItemRead | packages/core/src/personas/frontmatter.ts:36-41 | the same of an item of a block list |
| Ids.Pad4Injective | packages/daemon/src/authoring-queue.ts:218-219 | four-digit padding is injective on the naturals |
| Ids.Pad4Spells | packages/daemon/src/authoring-queue.ts:219 | a padded id is at least four characters, all digits, and spells its number |
| Ids.NextIdAfter | packages/daemon/src/authoring-queue.ts:215-220 | terminates with the least free padded id at or above the base |
| Ids.UniqueQueuedId | packages/daemon/src/authoring-queue.ts:222-229 | terminates with an id nobody holds: the base, or its least free numbering from 2 |
| AuthoringQueue.QueueStore.EnqueueAuthoring | packages/daemon/src/authoring-queue.ts:253-307 | one queued entry is appended under its action's name or the least free numbering of it; a create also reserves the least free ticket id |
| AuthoringQueue.NamesAre | packages/daemon/src/authoring-queue.ts:263-306 | an entry is named by its kind and its ticket or priority, a reordering by its number among all in the file |
| AuthoringQueue.QueueStore.DrainAuthoringQueue | packages/daemon/src/authoring-queue.ts:325-366 | the loop, cut off wherever the daemon dies, is the drain on values |
| AuthoringQueue.QueueStore.DrainEntry | packages/daemon/src/authoring-queue.ts:340-363 | one entry's edit, commit, report and status writes, cut off wherever the daemon dies; a report that breaks turns the entry into an error over its landed commit |
| QueueHistory.DrainResolvesPrefix | packages/daemon/src/authoring-queue.ts:338-364 | at any point of a drain the file is the original with a prefix of its queued entries resolved |
| QueueHistory.DrainContract | packages/daemon/src/authoring-queue.ts:325-366 | a drain changes exactly the queued entries and only their status, leaves none queued, and returns them in queue order |
| GovernanceGuards.ThrowsIff | packages/daemon/src/authoring-queue.ts:368-418 | an edit throws if and only if a guard turns it away or it breaks before the last point where it still can throw |
| GovernanceGuards.ChangesIff | packages/daemon/src/authoring-queue.ts:368-418 | an edit changes a file if and only if no guard turns it away and some write of it is made, is another content, and is not undone; repoints after the order, reconciliations after the index, and clean-ups that fail included |
| GovernanceGuards.ClosesIff | packages/core/src/tickets/close.ts:155-218 | a close changes a file if and only if it goes through, its roll-back fails on a file it had changed, or it finds no open ticket and prunes the order |
| GovernanceGuards.PriorityChangesIff | packages/daemon/src/priority-authoring.ts:36-65 | the creation of a free priority changes a file if and only if it goes through, or leaves its file aside, in place, or the draft of the order |
| GovernanceGuards.AchievedUnlessThrown | packages/daemon/src/authoring-queue.ts:368-418 | a create or close that does not throw is made by its own step, and one that was made is refused |
| GovernanceGuards.LossesIff | packages/core/src/tickets/close.ts:122-144 | an edit leaves a ticket without any file if and only if it is a close of it, broken after the rename, whose roll-back removes the closed file and cannot write the open one |
| GovernanceGuards.FailedRollBackLosesTicket | packages/core/src/tickets/close.ts:122-144 | a concrete close on a full disk that loses its ticket |
| TicketSurfaces.TicketDirectories.CreateTicket | packages/core/src/tickets/create.ts:65-110 | write by write and wherever it breaks, the create comes to what the model of the files says |
| TicketSurfaces.TicketDirectories.CloseTicket | packages/core/src/tickets/close.ts:155-218 | the same of a close, with its pruning, its resolving, renaming and roll-back |
| TicketSurfaces.TicketDirectories.RollBack | packages/core/src/tickets/close.ts:122-144 | every file is as it was but those that could not be put back |
| TicketSurfaces.TicketDirectories.RepointTicket | packages/core/src/tickets/repoint.ts:86-126 | the same of a repoint, which writes the order before the ticket |
| TicketSurfaces.TicketDirectories.ReconcileTicketSurfaces | packages/core/src/tickets/reconcile.ts:85-109 | the same of a reconciliation, which writes the index before the order |
| Reconciliation.ReconciledNamesOpenOnce | packages/core/src/tickets/reconcile.ts:85-109 | unbroken and with every open ticket listed, order and index name every open ticket once: those the order had come first, in the order of their first place in it, the others follow as listed; each row has its file's priority; nothing else changes |
| Reconciliation.ReconciledIsSettled | packages/core/src/tickets/reconcile.ts:85-109 | reconciling again changes nothing |
| SurfaceTruth.EditKeepsIndexTrue | packages/core/src/tickets/index-helpers.ts:71-139 | every unbroken edit keeps this: one open row for each open ticket with its priority and no other, and a closed row for each closed ticket |
| SurfaceTruth.ReconcileMakesTrue | packages/core/src/tickets/reconcile.ts:85-109 | a reconciliation makes order and open rows true of the open tickets, whatever they were |
| SurfaceTruth.EditKeepsOrderTrueIff | packages/daemon/src/priority-order.ts:164-167 | an unbroken edit leaves the order naming every open ticket once and no other if and only if the order it was asked to write, if any, names each of them once |
| SurfaceTruth.MadeIff | packages/daemon/src/authoring-queue.ts:368-418 | which edits an unbroken world makes: creates of ids no file, row or place has, closes let through of open tickets, repoints of open tickets to another, live priority, priorities of a free name, and every reorder and reconciliation |
| SurfaceTruth.UnbrokenFiles | packages/core/src/tickets/close.ts:155-218 | what an edit that does not throw leaves of its ticket: a created one open under its priority with row and place, a closed one moved with its priority, resolved once more, with a closed row and no place, a repointed one with nothing changed but its priority |
| SurfaceTruth.UnbrokenRows | packages/core/src/tickets/index-helpers.ts:93-139 | a close puts its ticket on top of the closed rows where it is not among them, and a repoint binds the first row of its ticket, or puts one on top, and keeps every other |
| SurfaceTruth.UnbrokenPriority | packages/daemon/src/priority-authoring.ts:57-59 | a created priority joins the others and what was missing in their order is appended to it; only then an older draft of it goes |
| SurfaceTruth.OthersUntouched | packages/daemon/src/authoring-queue.ts:368-418 | wherever it breaks, an edit leaves every other ticket's files alone, and the priorities' or the tickets' surfaces it is not about |
| QueueHistory.SpentStays | packages/daemon/src/authoring-queue.ts:368-418 | what was made stays made by any later queued edit, unless it is the ticket that edit loses |
| GovernanceGuards.SpentStaysIff | packages/core/src/tickets/close.ts:155-218 | the same of any edit made at once |
| QueueHistory.EnqueueKeepsLaneTrue | packages/daemon/src/authoring-queue.ts:253-318 | an enqueue keeps ids, reservations and the effect books true |
| QueueHistory.DrainKeepsLaneTrue | packages/daemon/src/authoring-queue.ts:325-366 | a drain, cut off anywhere, keeps them true |
| QueueHistory.HistoryKeepsLaneTrue | packages/daemon/src/authoring-queue.ts:253-366 | over any history with the daemon dying and edits breaking anywhere, ids and reservations stay distinct, each ticket close and priority create is made and committed at most once, and each ticket create at most once more than its ticket was lost |
| QueueHistory.AtMostOnce | packages/daemon/src/authoring-queue.ts:325-366 | the bound on how often an entry's edit is made and committed, read off the books |
| QueueHistory.RecoveryDrains | packages/daemon/src/authoring-queue.ts:325-366 | wherever a drain was cut off, the next one leaves nothing queued and keeps what was resolved |
| QueueErrors.EndsInErrorIff | packages/daemon/src/authoring-queue.ts:340-363 | a turn ends in error if and only if its edit throws, git refuses its commit or the landed commit cannot be reported, and the daemon lives to write that down |
| QueueErrors.FailsCleanlyIff | packages/daemon/src/authoring-queue.ts:340-363 | for every lane, entry, answer and death: a turn ends in error with all files and the log as they were if and only if it is so spoiled and its edit changes nothing |
| QueueErrors.FailsAfterEffectIff | packages/daemon/src/authoring-queue.ts:340-363 | a turn ends in error over a changed file if and only if it is so spoiled and its edit changes one |
| QueueErrors.FailsOverCommitIff | packages/daemon/src/authoring-queue.ts:342-363 | a turn ends in error over a landed commit if and only if the edit did not throw, git took it and what follows the commit broke |
| QueueErrors.DrainAtEntry | packages/daemon/src/authoring-queue.ts:338-364 | what a drain does to an entry and its log is what the entry's one turn does, where the drain comes to it |
| QueueErrors.FailsWithoutEffectIff | packages/daemon/src/authoring-queue.ts:325-366 | over a drain cut off anywhere and the next one: an entry ends in error without having changed a file if and only if the first drain, if it came to it, changed nothing, and either spoiled it or left it queued for the second to change nothing and spoil it |
| QueueErrors.ErrorDoesNotMeanNoEffect | packages/daemon/src/authoring-queue.ts:341-358 | a concrete entry whose edit was made before a crash and which ends in error after it |
| QueueErrors.BrokenRepointChangesOrder | packages/core/src/tickets/repoint.ts:110-112 | a concrete repoint that ends in error with the order changed |
| QueueErrors.LostTicketIsMadeTwice | packages/core/src/tickets/close.ts:122-144 | a concrete create half-way before a crash, whose ticket a rolled-back close loses and whose recovery makes it again |
| RunSlots.OneRunPerWorkspace | packages/daemon/src/launcher.ts:842-851 | under the slot invariant a workspace has at most one running run, and it is the one in its slot |
| RunSlotTheorems.RefuseKeepsSlots | packages/daemon/src/launcher.ts:855-1034 | a refusal after the reservation gives exactly its slot back |
| RunSlotTheorems.MoveKeepsSlotsIff | packages/daemon/src/launcher.ts:842-1054 | a move keeps ceiling, slots, stop controllers and running runs in step if and only if it is not a reservation of a slot taken since its check |
| RunSlotTheorems.RunKeepsSlots | packages/daemon/src/launcher.ts:751-1054 | the slot invariant holds over every run without such a reservation |
| RunSlotTheorems.CheckedReservationDoesNotOverlap | packages/daemon/src/launcher.ts:842-851 | with check and reservation as one step no reservation overlaps |
| RunSlotTheorems.BootEstablishesSlots | packages/daemon/src/launcher.ts:2805-2812 | booting establishes the slot invariant whatever the crash left |
| RunSlots.BootFailsTheRunning | packages/daemon/src/launcher.ts:2805-2812 | a boot makes exactly the runs still marked running failed, leaves every other run and queue alone and starts without slots |
| RunSlotTheorems.RaceLosesARun | packages/daemon/src/launcher.ts:842-851 | two interleaved launches of one workspace end with a running run no slot holds |
| RunSlotTheorems.MoveKeepsCeilingIff | packages/daemon/src/launcher.ts:846-1000 | races or not, a move keeps the slots under the ceiling if and only if it is no creation or resumption at the ceiling whose workspace has lost its slot |
| RunSlotTheorems.RaceBreaksCeiling | packages/daemon/src/launcher.ts:842-1000 | a concrete run from two raced reservations over a refusal to three slots under a ceiling of two |
| RunSlotTheorems.MoveKeepsLanesTrue | packages/daemon/src/launcher.ts:765-783 | every move, races, drains that throw half-way and deaths in mid-drain included, keeps every workspace's queue books |
| RunSlotTheorems.MoveStrandsIff | packages/daemon/src/launcher.ts:765-783 | a move leaves queued entries only under runs in flight if and only if it is no refused launch or restart over queued entries, no settle whose drain is cut short, and no death in a drain |
| RunSlotTheorems.QueuedIffCutShort | packages/daemon/src/authoring-queue.ts:338-364 | a drain leaves something queued if and only if it is cut short |
| GovernanceGuards.EditsIff | packages/daemon/src/launcher.ts:1580-1692 | an edit made at once changes a file under the same guards, a close also when it only prunes the order |
| GovernanceFiles.GovernanceFilesChangeIff | packages/daemon/src/launcher.ts:691-783 | whatever the move, it changes a workspace's governance files if and only if it is an unblocked direct edit without a slot taken, an edit of its own by the run that drives it, an unblocked founder-confirmed close, or a drain, and that edit, close or drain changes a file |
| GovernanceFiles.ForeignWriteIff | packages/daemon/src/launcher.ts:1733-1787 | under the slot invariant, while a slot is taken, anyone but the run in it changes the files if and only if it is an unblocked confirmation of another run's close that closes a ticket, prunes the order, or is rolled back in part |
| GovernanceFiles.ConfirmedCloseUnderARun | packages/daemon/src/launcher.ts:1739-1767 | a concrete confirmation that closes a ticket under another run of the workspace |
| RunSlotTheorems.RunKeepsEverything | packages/daemon/src/launcher.ts:751-1054 | slots, queue books and nothing queued without a run, over every run without those moves |
| RunSlotTheorems.RunKeepsLanesTrue | packages/daemon/src/authoring-queue.ts:325-366 | the queue books survive every run of the whole machine, deaths in mid-drain included |
| RunSlotTheorems.RefusedLaunchStrandsAnEdit | packages/daemon/src/launcher.ts:855-861 | a concrete edit left queued by a refused launch |
| Launcher.OzContext.ReconcileOrphans | packages/daemon/src/launcher.ts:2805-2812 | the boot loop is the machine's boot move and establishes the slot invariant |
| Launcher.OzContext.LaunchRun | packages/daemon/src/launcher.ts:810-1054 | accepted with 202 exactly when admissible, otherwise answered with the status of the first obstacle; a refusal leaves slots, controllers and runs as they were; an acceptance is reservation and hand-over; a ticket lookup that throws leaves the reservation; an idle stale daemon restarts itself once |
| Launcher.AnswerStatuses | packages/daemon/src/launcher.ts:810-1054 | each status of a launch if and only if its cause is the first obstacle: 409 for another run, the ceiling, the runner's own code or a pending close, 425 for nothing but a stale daemon, 422 for a run that was not created, 500 for a lookup that throws |
| Launcher.SticksIff | packages/daemon/src/launcher.ts:851-869 | a launch that is neither accepted nor gives its slot back is exactly one that comes to a lookup that throws |
| Launcher.ThrownLookupSticks | packages/daemon/src/launcher.ts:864-869 | an unreadable ticket directory leaves a pending slot, and every later launch of the workspace is refused |
| RunSlotTheorems.AbandonedSlotStays | packages/daemon/src/launcher.ts:842-851 | a reservation whose launch makes no further move holds its slot over every run without overlaps and restarts, and no launch of the workspace passes its check |
| Launcher.LaunchKeepsSlots | packages/daemon/src/launcher.ts:842-1035 | an undisturbed launch keeps the slot invariant |
| Launcher.LaunchedIsThreeMoves | packages/daemon/src/launcher.ts:851-1035 | an accepted launch is the machine's check, reservation and creation or resumption |
| Launcher.RefusedLaunchKeepsSlots | packages/daemon/src/launcher.ts:851-1034 | a refused launch is the machine's reservation followed by its refusal |
| Launcher.OzContext.ResumeRun | packages/daemon/src/launcher.ts:1249-1269 | accepted if and only if the run is known, held, its workspace free and the launch admissible; 404 if and only if it is unknown; 500 if and only if it is held and its launch comes to a throwing lookup; the status is otherwise that of the launch, and nothing moves |
| Launcher.OzContext.SettleRun | packages/daemon/src/launcher.ts:763-784 | settling drains the queue, as far as the drain gets before it throws, then frees slot and controller, and is the machine's settle move |
| Launcher.OzContext.AuthorEdit | packages/daemon/src/routes.ts:780-852 | an edit is queued and leaves the files alone while the workspace has a run in flight, and is made at once and leaves the queue alone otherwise, answered by what it came to; a close blocked by its gate does neither |
| Launcher.DirectStatusIff | packages/daemon/src/launcher.ts:1580-1692 | an edit made at once is answered with success exactly where it went through and landed, a reconciliation had nothing to change, or a close without open ticket pruned the order and landed; with 409 exactly where a guard turned it away and nothing was pruned; with 502 exactly where a create or an order did not land |
| Reload.MergePending | packages/daemon/src/launcher.ts:391-397 | merged requests hold the files of both, each once |
| Reload.RuntimePathIff | packages/daemon/src/launcher.ts:383-385 | a runtime path is the daemon or the core package, or anything below one of them |
| Reload.ReloadContext.DrainDaemonReload | packages/daemon/src/launcher.ts:407-414 | a build begins exactly with no build running, no slot taken and a request pending, and is of that request |
| Reload.ReloadContext.ScheduleDaemonReloadForRun | packages/daemon/src/launcher.ts:399-405 | a run's runtime files join the pending request; other files ask for nothing |
| Reload.ReloadContext.AfterBuild | packages/daemon/src/launcher.ts:416-431 | a successful build orders one restart and a failed or thrown one none; every end clears the flag and, if nothing is in flight, begins on what is pending |
| ReloadTheorems.MoveKeepsReload | packages/daemon/src/launcher.ts:391-431 | two builds never overlap, and each build is the merge of the consecutive batch of requests it took |
| ReloadTheorems.NothingIsLost | packages/daemon/src/launcher.ts:391-431 | every file scheduled is pending, being built or built, and no other |
| ReloadTheorems.EveryFileIsAccountedFor | packages/daemon/src/launcher.ts:391-431 | the same over every run from an idle daemon |
| ReloadTheorems.RunKeepsReload | packages/daemon/src/launcher.ts:391-431 | batches and single builds over every run; without a leaving-behind refusal no pending request is left unattended |
| ReloadTheorems.MoveLeavesBehindIff | packages/daemon/src/launcher.ts:855-861 | a move leaves a pending request with nobody to drain it if and only if it is a refused launch freeing the last slot with no settled run or build to follow |
| ReloadTheorems.RefusedLaunchLeavesARequest | packages/daemon/src/launcher.ts:855-861 | a concrete run that leaves one behind |
| ReloadTheorems.BuildsBeginIdle | packages/daemon/src/launcher.ts:408 | a build begins with every slot free |
| ReloadTheorems.RestartHitsLaunchesSince | packages/daemon/src/launcher.ts:415-425 | the restart after a build hits exactly the runs launched and not freed while it ran |
| ReloadTheorems.LaunchDuringBuildIsHit | packages/daemon/src/launcher.ts:415-425 | a run launched during a build is hit by its restart |
| ReloadSlots.SlotsAgree | packages/daemon/src/launcher.ts:783-1028 | every move of the run slots but a restart or an overlap takes and frees exactly the slots the reload machine sees |
| ReloadSlots.LastSlotFreed | packages/daemon/src/launcher.ts:783-801 | the last slot freed over a pending request is followed by a drain exactly when a run settles, not when a launch is refused |
| Teardown.OrderSessionsForTeardown | packages/daemon/src/launcher.ts:1089-1094 | initiators come last |
| Teardown.OrderIsPermutation | packages/daemon/src/launcher.ts:1089-1094 | ordering loses and repeats no session |
| Teardown.InitiatorIs | packages/daemon/src/launcher.ts:1084-1094 | personas are compared trimmed and in lower case; an initiator that is missing or blank is Oscar |
| Teardown.GroupSessions | packages/daemon/src/launcher.ts:1107-1118 | each session is in its workspace's group or among the legacy ones, once, and groups keep initiators last |
| Teardown.RunTeardown.CloseLegacy | packages/daemon/src/launcher.ts:1120-1136 | a legacy session ends closed, failed, or gone when a failed kill finds it no longer running |
| Teardown.RunTeardown.CloseDurableWorkspace | packages/daemon/src/launcher.ts:1151-1184 | what is left of a group ends in one call aimed at all of it if the host closes workspaces, and otherwise in one call for each session, in order |
| Teardown.RunTeardown.CloseGroup | packages/daemon/src/launcher.ts:1187-1197 | each session but the last is closed by itself, then those whose call failed and the last as what is left; every session of the group ends once and initiators are attempted after all others |
| Teardown.UnclosedFailed | packages/daemon/src/launcher.ts:1187-1197 | what is left over are exactly the sessions whose own call failed |
| Teardown.RunTeardown.CloseRunSurfaces | packages/daemon/src/launcher.ts:1104-1198 | whatever the host answers: every session ends exactly once, as the host answered a call aimed at it; live refs shrink by exactly the run's refs; in each group no call that may close an initiator precedes another's first attempt |
| Teardown.ReportsAre | packages/daemon/src/launcher.ts:1120-1184 | reported closed are exactly the refs of the sessions that ended so, reported failed exactly those that did, with their errors, and of all others a failed kill found them gone |
| CloseGate.LatestIsNewest | packages/daemon/src/launcher.ts:655-662 | the reduction finds a run such that no listed one was created later, none created with it has a higher number, and every one listed earlier is older or has a lower number |
| CloseGate.NewestIsLatest | packages/daemon/src/ticket-close-gate.ts:24-30 | and there is only one such run |
| CloseGate.FilterKeepsLatest | packages/daemon/src/ticket-close-gate.ts:32-34 | a newest run survives filtering by its ticket, ties included |
| CloseGate.GateBlocksIff | packages/daemon/src/ticket-close-gate.ts:43-62 | unattended, the gate blocks if and only if the ticket's newest run is held or awaits the founder or its archive; a confirmation passes only on that run, and then if and only if its recorded decision is to ask |
| CloseGate.LastDispositionDecides | packages/daemon/src/ticket-close-gate.ts:36-41 | the recorded decision is the text of the last wrap disposition, if it is one of three, and none without a disposition |
| CloseGate.GuardsAgree | packages/daemon/src/launcher.ts:634-645 | the relaunch guard reports a run if and only if it is the workspace's ended, awaiting tip for the ticket and the unattended close gate blocks on that same run |
| CloseGate.GuardsIgnoreListing | packages/daemon/src/ticket-close-gate.ts:43-62 | with distinct run numbers both guards ignore the order the store lists runs in |
| CloseGate.FinalizedFreesTicketIff | packages/daemon/src/launcher.ts:666-680 | finalizing a ticket's parked runs frees it from both guards if and only if its newest run is not held |
| CloseGate.OtherRunsUnchanged | packages/daemon/src/launcher.ts:676-680 | runs of other tickets and workspaces are as they were |
| CloseGate.FinalizedAt | packages/daemon/src/launcher.ts:666-680 | exactly the ticket's runs awaiting the founder or their archive are completed, and end now |
| CloseGate.RunStore.FinalizeAwaitingFounderRunsForTicket | packages/daemon/src/launcher.ts:676-680 | the loop completes exactly the ticket's finalizable runs, notes that in the events of each of them once and of no other, and changes no recorded decision |
| CloseGate.RunStore.RequestTicketCloseConfirmation | packages/daemon/src/launcher.ts:1733-1787 | closes if and only if the run is parked on a ticket whose gate lets the founder through and the close commits, and notes it; 200 without a close, 500, 404 and so 409 are each told apart by what the gate, the close and git came to; otherwise no run changes and no event but a recovered decision |
| CloseGate.RunStore.GateOrRecover | packages/daemon/src/launcher.ts:1746-1753 | the gate passes when the newest run of the ticket no longer waits, or is this one and has asked, in its events or its delivered closeout |
| CloseGate.ConfirmedCloseFreesTicket | packages/daemon/src/launcher.ts:1733-1787 | after a confirmed close neither guard blocks the ticket in any mode |
| ManifestOrder.ApplyManifestOrder | packages/daemon/src/priority-order.ts:29-43 | the two loops give the listed items, each once, then the others |
| ManifestOrder.OrderedIsPermutationIff | packages/daemon/src/priority-order.ts:29-43 | the result is a permutation if and only if no listed id is carried by two items |
| ManifestOrder.ListedComeFirst | packages/daemon/src/priority-order.ts:29-43 | listed items come in the order the manifest first names them, before every unlisted one |
| ManifestOrder.OrderedIsIdempotent | packages/daemon/src/priority-order.ts:29-43 | applying an order twice changes nothing more |
| ManifestOrder.UnlistedStay | packages/daemon/src/priority-order.ts:29-43 | left to themselves, the unlisted items are as they were, in number and order |
| ManifestOrder.ShownSplits | packages/daemon/src/priority-order.ts:149-157 | with an order, what is shown is the open tickets in it and then every closed ticket as it was read |
| ManifestOrder.TicketDirectory.WriteTicketOrder | packages/daemon/src/priority-order.ts:164-167 | the written order has the requested ids of open tickets, as often as requested, and no other; what is shown from then on is what the request itself, taken as the order, would show |
| ManifestOrder.TicketDirectory.ReadTickets | packages/daemon/src/priority-order.ts:149-157 | open tickets as the order says, then closed ones; all as read without an order |
| ManifestOrder.WriteThenRead | packages/daemon/src/priority-order.ts:149-167 | reading a written order gives the requested open tickets once each, the remaining open ones, then the closed ones, as the unfiltered request would |
| PriorityText.ParsedScalarsAreOneLine | packages/core/src/personas/frontmatter.ts:31-53 | no parsed scalar spans lines |
| PriorityText.ValidatesIffTitleSurvives | packages/daemon/src/priority-authoring.ts:27-34 | a created priority reads back as asked if and only if its title is one trimmed, unquoted line that is no list mark, whatever the goal says |
| PriorityText.ComposeRead | packages/core/src/priorities/compose.ts:19-22 | a composed priority parses to its two fields and the trimmed goal as its body |
| PriorityText.BooleanFieldDecides | packages/core/src/priorities/loader.ts:46-63 | a printed priority that says something of one of its two boolean fields loads if and only if it says true or false |
| Priorities.AscendingUnique | packages/daemon/src/priority-order.ts:128 | only one ascending list holds given ids |
| Priorities.PrecedesIff | packages/daemon/src/priority-order.ts:128 | of two ids the one that begins the other comes first, and else the one smaller at the first difference |
| Priorities.PrioritiesDirectory.LiveUnlistedPriorityIds | packages/daemon/src/priority-order.ts:109-129 | exactly the ids of loading, unshelved, unlisted priorities other than the ad-hoc one, ascending |
| Priorities.OrphanIff | packages/daemon/src/priority-order.ts:109-129 | an id is missing if and only if a file of its name, in neither archive nor backlog, loads under it and it is not listed and not the ad-hoc one |
| Priorities.PrioritiesDirectory.RegisterLivePriorities | packages/daemon/src/priority-order.ts:131-140 | the old list, then the missing ids in order; unchanged when none is missing |
| Priorities.RegisteredLeavesNoOrphan | packages/daemon/src/priority-order.ts:131-140 | the old list is a prefix, no orphan remains, and registering again changes nothing |
| Priorities.PrioritiesDirectory.PlaceFile | packages/daemon/src/priority-authoring.ts:49-63 | the file is in place exactly when nothing broke and it read back; otherwise what is left is exactly what the clean-up could not remove, the file in place staying also when removing what is aside throws |
| Priorities.PrioritiesDirectory.CreatePriorityFiles | packages/daemon/src/priority-authoring.ts:36-65 | creates and registers exactly when the name is free in any case, nothing breaks and the text reads back; otherwise the order is unchanged, and files and the draft of the order are what the writes made and the clean-up left |
| Priorities.LeftAsGoverned | packages/daemon/src/priority-authoring.ts:60-63 | what a stopped creation leaves in place and aside is what the governance files have of it |
| Priorities.CreatedIsListed | packages/daemon/src/priority-authoring.ts:57-59 | a created priority is listed, unless it is the ad-hoc one |
| PersonaMerge.MergeWriteScope | packages/core/src/personas/merge.ts:35-45 | the loop appends the delta's new entries, each once |
| PersonaMerge.MergePersona | packages/core/src/personas/merge.ts:17-33 | refused exactly when the ids differ; otherwise the delta laid over the base |
| PersonaMerge.MergedScope | packages/core/src/personas/merge.ts:35-45 | the merged scope grants what either grants, adds no repeat, and a second merge adds nothing |
| PersonaMerge.BlankBodyKeepsBase | packages/core/src/personas/merge.ts:47-50 | a blank delta body leaves the base body as it is |
| PersonaMerge.BodiesJoined | packages/core/src/personas/merge.ts:47-50 | a body that says something follows the base's after the separator, and of either text only the base's trailing and the delta's leading blanks are dropped |

## Left out

- Launcher.OzContext.LaunchRun: taken without another request in between; `RunSlots` has the interleavings.
- Launcher.DirectStatusIff: requests for an unknown workspace or with a malformed ticket binding are turned away before the edit, with 404 and 400, and are not part of this model.
- AuthoringQueue.QueueStore.EnqueueAuthoring: one step, as is each drain and each direct edit; the queue file is read and then written without a lock, so two of them interleaved can lose an entry, and the model does not interleave them.
- Governance.Apply: a write that fails leaves its file as it was, so a torn file is not modelled; of a ticket file its priority and how often it was resolved, of an index row its id and priority, of a priority its name; empty directories are no files; which priorities a registration finds missing is an answer here and computed in `Priorities`.
- AuthoringQueue.QueueStore.DrainEntry: the daemon's death between two writes of one edit is not modelled, an error there is. The link and event a drain adds to the active run are not modelled, only that reporting them can break.
- GovernanceFiles.GovernanceFilesChangeIff: of the modelled writers. Files an agent writes in its own turn, a support commit or repair turn, an authoring play beside a wrapped run with the ticket release after an archive (packages/daemon/src/launcher.ts:2452-2514), and the reorder of priorities, which asks for no slot (packages/daemon/src/routes.ts:769-777), are not moves.
- The finalizing of other parked runs of a ticket after its close is a separate move of the run slots.
- ReloadTheorems.MoveLeavesBehindIff: after a run settles the drain it owes is always made; the daemon reads its settings first without a guard (packages/daemon/src/launcher.ts:800), and if that fails the owed drain is skipped.
- CommitLedger.RunCommitGate: undisturbed between reading HEAD and committing; commits slipped in between are in the gate on values. An agent that rewrites history is not modelled.
- CommitLedger.GateAccountsIff: an out-of-scope or boundary pattern is any predicate on paths; glob matching is not part of this model.
- Repository.Repo.RestoreToHead: what git and the file system do for a tracked path, an untracked path, a missing one and what stands above or below them is assumed; pathspec characters in file names are read literally; repositories within the repository, file modes and links are not part of this model, nor is the restore without quarantine directory (packages/core/src/runner/runner.ts:810).
- RestoreTheorems.RestoreIffRestorable: of paths git status can report and of others where nothing is staged or nothing is there, into a quarantine directory with nothing at, above or below what is untracked; the daemon makes a fresh one for each dialogue.
- InterferenceRail.RailHolds: of the same paths and quarantine directories.
- Repository.Repo.AddAndCommit: why git refuses to stage, remove or commit a path is its verdict.
- RepairDialogue.RequestOscarDebRepair: the prompts, artifacts, audit lines and emitted events, and the waiting-for-idle branch before the dialogue starts; a failing write of an artifact is not modelled.
- Frontmatter.ParseFrontmatter: the file name in an error message.
- Ids.NextIdAfter: the base is a number already; the error for a base that is not one is left to the caller.
- JsonScanTheorems.FirstJsonObjectArtifact: `JSON.parse` with the is-an-object check is any partial function of the text.
- Teardown.RunTeardown.CloseRunSurfaces: lower-casing is for ASCII letters; calls within a teardown are not interleaved with other requests.
- CloseGate.GuardsAgree: how JavaScript reads the number in a run id is any function of the id.
- CloseGate.RunStore.RequestTicketCloseConfirmation: one step, so a run created between the gate and the finalizing is not modelled; closing the ticket file is an outcome.
- Priorities.PrioritiesDirectory.CreatePriorityFiles: one step; empty directories and other files are names only; ids sort by character, where JavaScript compares UTF-16 units, and lower-casing is for ASCII letters.
- Priorities.PrioritiesDirectory.RegisterLivePriorities: a malformed order.json reads as none, as the code has it, and is then overwritten; its old text is not kept.
- Reload.ReloadContext.AfterBuild: the daemon process goes on after ordering its restart; the new process's state is not modelled.
- Parsing and validation of queue files, repair requests and responses field by field: single-branch checks.
- HTTP routing, server-sent events, the CLI, the user interface, adapters, the session host, SQLite, retention, the run monitor and `runRun` itself: outside calls, or plumbing without state to keep.
- Drift readers, settings, the model-tier resolver and other single-branch helpers: they would add only easy members.
- Clocks and timeouts: timestamps are inputs.
