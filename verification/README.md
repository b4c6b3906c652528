# Lubko: a verified model of its hard core

Lubko deploys and supervises one queue worker per host. What it is for is keeping at most one
queue consumer alive across crashes, races, failed writes and recycled process numbers. This
project models the five parts of the program that carry that promise and proves what each keeps,
for every input, every interleaving and every crash point.

* **Fenced authority row** (`AuthorityRow`, `AuthorityOps`, `AuthorityAnswers`, `AuthorityStore`,
  `CasMachine`, `AuthorityHistory`, `AuthorityRuns`). Any number of incarnations read one stored text, decide, and
  swap it if it is unchanged. `CasMachine` interleaves reads and swaps as separate steps, with callers
  that crash in between or never hear of their swap, and shows
  every interleaving to be a run of the machine that does them atomically; `AuthorityHistory` proves
  fencing and spawn exclusion of those runs; `AuthorityAnswers` says on rows what each call writes,
  answers and refuses; `AuthorityStore` is the row as an object that others
  change between a call's read and its update.
* **Crash-durable files** (`DurableDirectory`, `DurableWrite`, `DurableLock`, `DurableRegister`,
  `DurableMkdir`). A
  directory object keeps, beside what is visible, every listing a crash might reveal. Which storage
  step fails and how many bytes each write moves are arbitrary functions of time, so each contract
  holds for every pattern of failures, including failures inside nested cleanup. A second machine
  has any number of threads and processes entering the reentrant two-layer lock; `DurableRegister` shows
  that it makes the path a register whose value is the last one committed.
* **Exact signalling, retirement and recovery** (`ProcessTable`, `Kernel`, `ExactSignal`,
  `Retirement`, `Recover`, `RecoverProgress`, `Verdicts`, `RecoverOnHost`). The process table holds instances; a number can be reused only once its
  instance is reaped, and a pidfd names an instance. Before every system call an arbitrary sequence
  of forks, exits, reaps and identity changes happens. Recover and repair are a machine with a crash
  between any two steps; `Verdicts` ties the liveness verdicts of that machine, of the legacy restart
  and of the rollback to the reads and stops made on such a host, and `RecoverOnHost` runs the whole
  machine on one.
* **Deployment missions** (`Mission`, `MissionRuns`, `MissionWrites`, `MissionRequests`, `MissionIntents`,
  `MissionProgress`, `MissionCases`, `MissionWire`, `LegacyRestart`, `LegacyProgress`, `Confirmation`). The mission file, its JSON form, the operations that write it
  against a changing supervisor, the gated restart of the previous worker, and the promotion of
  startup artifacts with retry.
* **Runtime digest and evidence retention** (`Unicode`, `TreeEncoding`, `RuntimeTree`,
  `RuntimeDigest`, `RuntimeWalks`, `Pruning`, `PruningAgain`). The length-prefixed tree encoding with a decoder, the walks that seal, unseal, inspect
  and digest a runtime, and the pruner with two budgets.

`Common` holds options, results, JSON documents and the JSON codec. The codec is abstract: a printer
and a reader of which only "what is printed reads back" is used, and `JsonCodec` exhibits one that
does that. A float is held exactly, as its floor and the binary digits of its fraction. Clocks, deadlines, probes and
other processes are arguments or arbitrary functions.

## Where the program does less than its documentation says

Each of these is shown by a concrete run or document, or for every input of a kind, next to the exact
condition under which the promise does hold.

* A supervised rollback writes its terminal state after the generation lock is released, so a newer
  intent can win in between (`MissionCases.RolledBackUnderNewerIntent`,
  `MissionIntents.RollbackCurrentIff`).
* A watchdog decides about one mission and, once it has the deployment lock, rolls back whichever
  mission is pending by then (`MissionCases.WatchdogRollsBackAnother`,
  `MissionWrites.DecisionStillConcerns`).
* Archiving a mission keeps its recorded restart, and the reader then refuses the file
  (`MissionWire.ArchiveReadableIff`).
* A candidate record that omits the fields the compatibility descriptor sets to null is accepted for
  a mission the supervisor does not own; the next rewrite of that mission cannot be read
  (`MissionWire.RewriteReads`, `MissionWire.LookalikeLost`).
* A crash between the launcher's rename and its mode change leaves promotion stuck on the mode for good
  (`Confirmation.StuckForever`, `Confirmation.Host.RetryConfirm`). A terminal write that raises although
  it landed, followed by an unreadable mission file, discards the recovery data
  (`Confirmation.ConfirmedBeyondRecovery`, `Confirmation.Host.Confirm`). Promotion prints JSON artifacts
  anew and only then compares them with the manifest, so a candidate that prints them otherwise is
  confirmed and can be neither activated nor recovered (`Confirmation.OtherPrinterLost`,
  `Confirmation.Host.Confirm`).
* Recover takes an unreadable start time for proof that a worker is gone
  (`Retirement.ObligationInstanceGone`, `Recover.WrongVerdictStartsTwo`); the legacy restart depends on
  right liveness verdicts in the same way (`LegacyRestart.UnsoundReadsReleaseTwo`).
* Stopping a worker answers yes on a mere identity mismatch; that is right exactly when the metadata
  names the instance and the instance keeps its group and session (`Retirement.StopWorker`,
  `Retirement.RegroupDeceives`).
* The induction by which concurrent directory creators are said to cover for one another fails with
  three of them (`DurableMkdir.ThreeCreatorsDefeatInduction`).
* An unconfirmed rename is not always undone: after two failing fsyncs the prior or the new value may
  survive a crash (`DurableWrite.TwoFailedSyncs`, `DurableWrite.WriteBytes`).
* A failed write over a symbolic link puts back what the link led to, as a regular file
  (`DurableWrite.LinkBecomesFile`, `DurableDirectory.Directory.RestoredIsPrior`).
* The check that a runtime is sealed skips directories it cannot list
  (`RuntimeWalks.UnlistedHidesWritable`, `RuntimeWalks.Runtime.TreeIsReadOnly`). The digest refuses then,
  but it lists the tree in a walk of its own, so a directory that can be listed for the digest and not
  for the check still hides a writable file from the decision to launch (`RuntimeWalks.DeceivedLaunch`,
  `RuntimeWalks.Runtime.Usable`).
* Pruning again can choose other files when removals failed the first time
  (`PruningAgain.SecondPassSameIff`).

## Model

| member | source | states |
|---|---|---|
| JsonCodec.Reference | src/lubko/lifecycle_authority.py:508-529 | there is a codec under which every document reads back, so the laws below are about something |
| AuthorityRow.RowRoundTrip | src/lubko/lifecycle_authority.py:289-307 | a row is stored exactly when its sections are valid and its text fits the byte bound, and the stored text reads back as that row exactly when it does not carry both a spawn and a worker; it never passes for a version-1 row |
| AuthorityRow.ParsedRowIsValid | src/lubko/lifecycle_authority.py:532-584 | whatever either reader accepts is a valid row of the asked server without both sections, and no text is read by both |
| AuthorityRow.ReadersAreStrict | src/lubko/lifecycle_authority.py:532-611 | whatever either reader accepts fits the byte bound and is a document of the authority type, version and asked server that says everything the row does; the strict reader wants both sections named |
| AuthorityRow.ServersApart | src/lubko/lifecycle_authority.py:532-584 | a row stored for one server is never read for another |
| AuthorityRow.CanonicalTextInjective | src/lubko/lifecycle_authority.py:234-286 | distinct rows are stored as distinct texts, so comparing texts compares rows |
| AuthorityRow.OwnerRoundTrip | src/lubko/lifecycle_authority.py:587-611 | the owner section reads back as itself if it is valid and is refused otherwise |
| AuthorityRow.SpawnRoundTrip | src/lubko/lifecycle_authority.py:310-423 | the spawn section reads back as itself if it is valid and is refused otherwise |
| AuthorityRow.WorkerRoundTrip | src/lubko/lifecycle_authority.py:426-505 | the worker section reads back as itself if it is valid and is refused otherwise |
| AuthorityOps.SwapEffect | src/lubko/lifecycle_authority.py:738-1038 | every decided swap takes the row its expected text stands for to a valid readable row along the operation's guarded transition |
| AuthorityOps.MigrationSettles | src/lubko/lifecycle_authority.py:1241-1307 | repeating a migration writes nothing whatever the evidence, and no ordinary operation writes over a version-1 row |
| AuthorityOps.MigrationRefusal | src/lubko/lifecycle_authority.py:1190-1238 | the exact condition, as an if-and-only-if, under which a version-1 row is left untouched |
| AuthorityOps.PlanEffect | src/lubko/lifecycle_authority.py:880-1038 | each planned row is what the operation's guarded transition allows and never carries both sections |
| AuthorityAnswers.DecisionObeys | src/lubko/lifecycle_authority.py:738-1038 | for every text read and whatever happens meanwhile, on rows: a call writes exactly where its guarded transition is open from the row read and nobody intervened; a commit or publication answers true exactly if this call put the spawn or worker in the row, a clear exactly if the claim held and nothing to be cleared remains; and exactly when each raises: no readable row, a lost claim for commit, another worker's token for publish, a row that cannot be written |
| AuthorityStore.JobsRow.Bootstrap | src/lubko/lifecycle_authority.py:698-735 | an existing text is never overwritten, an absent row becomes the neutral one, and the answer is the stored row |
| AuthorityStore.JobsRow.CompareAndSwap | src/lubko/lifecycle_authority.py:819-849 | writes exactly when the stored text is the expected one |
| AuthorityStore.JobsRow.Take | src/lubko/lifecycle_authority.py:738-777 | whatever the others did since the read: the take lands exactly on an unchanged text, the loser changes nothing, and a success names the taker and reads back; it succeeds exactly if it wrote or the row named the taker already, and raises exactly without a readable row or where the new row cannot be written |
| AuthorityStore.JobsRow.Transition | src/lubko/lifecycle_authority.py:880-1038 | for commit, clear, publish, clear-worker and migrate, whatever the others did since the read: what the call writes, when it answers true and when it raises are what `AuthorityAnswers.DecisionObeys` says of the rows |
| CasMachine.RunKeepsInv | src/lubko/lifecycle_authority.py:780-849 | every interleaving, from any text or none, commits a chain of decided transitions ending in the stored text |
| CasMachine.InterleavingRefinesAtomic | src/lubko/lifecycle_authority.py:738-849 | refinement: any interleaving of reads and swaps stores, and answers every caller that hears its answer, what the atomic machine does running the operations in the order they take effect; a caller that hears nothing of a swap that landed has committed; a call outrun by another's commit between its read and its swap answers so; a recurring text does no harm |
| CasMachine.CallsAccounted | src/lubko/lifecycle_authority.py:780-849 | in every run every call begun is answered, outrun, pending or silenced by a crash or a lost connection, each once, and a swap ends its call |
| AuthorityHistory.EpochMonotone | src/lubko/lifecycle_authority.py:768-777 | the epoch never decreases and rises across every take |
| AuthorityHistory.OneOwnerPerEpoch | src/lubko/lifecycle_authority.py:768-777 | each epoch has one owner for the whole history |
| AuthorityHistory.Fenced | src/lubko/lifecycle_authority.py:852-877 | after a take no commit, clear or publish under an older claim ever commits, even one that read the row before |
| AuthorityHistory.ObligationPersists | src/lubko/lifecycle_authority.py:910-918 | an obligation stays in the row, as itself or as the worker with its token, until released, across every takeover |
| AuthorityHistory.SpawnsAreSeparated | src/lubko/lifecycle_authority.py:943-1038 | between two committed spawns lies a clear-spawn, or a publish followed by a clear-worker |
| AuthorityHistory.TokensWereCommitted | src/lubko/lifecycle_authority.py:991-1003 | every published worker's token was committed earlier as an obligation |
| AuthorityRuns.RunsAreRowRuns | src/lubko/lifecycle_authority.py:738-1038 | the committed transitions of any interleaved run obey all those laws |
| AuthorityRuns.SupersededForever | src/lubko/lifecycle_authority.py:835-877 | once the epoch has passed a claim, in every continuation the claim never confirms and no outstanding swap under it, heard of or not, changes the row |
| AuthorityRuns.StaleSwapFails | src/lubko/lifecycle_authority.py:1041-1078 | one superseded swap changes nothing and its claim no longer confirms |
| AuthorityRuns.RunsFromBootstrap | src/lubko/lifecycle_authority.py:698-735 | in every run from no row, everything stored is a readable version-2 row, no migration writes, and tokens were committed before they were published |
| AuthorityRuns.RepliesObey | src/lubko/lifecycle_authority.py:738-1038 | in every interleaved run every reply is what the rows say at the instant its call took effect, and a call that heard nothing committed |
| DurableDirectory.Directory.VisibleIsRecoverable | src/lubko/durable.py:474-495 | a crash may always reveal what is visible and never torn contents |
| DurableDirectory.Directory.SyncDirectory | src/lubko/durable.py:170-223 | a confirmed fsync leaves only the visible value recoverable; a failed one leaves open what was |
| DurableDirectory.Directory.Place | src/lubko/durable.py:533-572 | a rename or unlink changes what is visible at once and adds it to what a crash may reveal |
| DurableWrite.WriteAll | src/lubko/durable.py:444-471 | every byte arrives through short transfers, and a transfer of nothing is the only failure |
| DurableWrite.WriteTemporaryFile | src/lubko/durable.py:474-495 | a complete synced temporary file, or the destination untouched after a failing step |
| DurableWrite.Prepare | src/lubko/durable.py:498-545 | everything before the rename leaves the destination alone and has the prior bytes in hand, read through a link; a failure is a durability error unless dropping the temporary name or reading fails |
| DurableWrite.Commit | src/lubko/durable.py:533-572 | from the rename on only the prior or the new value is visible or recoverable; a confirmed fsync leaves only the new |
| DurableWrite.WriteBytes | src/lubko/durable.py:498-572 | at every moment, nested cleanup included, the prior or the complete new value, or what a prior link led to; a normal return leaves only the new recoverable; a confirmed cleanup only the restored one; the exact patterns of failing steps, as if-and-only-ifs, that let the write succeed and that leave the outcome open, the latter never a single one; an open one leaves the new value recoverable and, where bytes were kept, the prior one too |
| DurableWrite.Undo | src/lubko/durable.py:545-572 | cleanup of an unconfirmed write always fails the call and, unless a further step fails, leaves durably the kept bytes or absence |
| DurableWrite.Remove | src/lubko/durable.py:705-761 | the same guarantees for durable removal |
| DurableWrite.Reinstate | src/lubko/durable.py:728-761 | prior bytes are put back durably unless a further step fails, and the call fails either way |
| DurableWrite.WriteSymlink | src/lubko/durable.py:575-672 | the same guarantees for switching a symbolic link, which a confirmed cleanup does put back |
| DurableWrite.TwoFailedSyncs | src/lubko/durable.py:545-572 | for any prior and new value, two failing directory fsyncs leave exactly those two recoverable |
| DurableWrite.LinkBecomesFile | src/lubko/durable.py:533-572 | for any link, a failed write whose cleanup is confirmed leaves durably a regular file with what it led to |
| DurableDirectory.Directory.RestoredIsPrior | src/lubko/durable.py:535 | what cleanup puts back is the prior value if and only if that was not a link |
| DurableLock.DestinationLock.Acquire | src/lubko/durable.py:332-345 | reports the outermost acquisition and counts the depth |
| DurableLock.DestinationLock.Release | src/lubko/durable.py:347-350 | gives the gate up with the last entry |
| DurableLock.DestinationLock.Enter | src/lubko/durable.py:404-426 | only the outermost entry opens and locks the file; a failure undoes the entry completely |
| DurableLock.DestinationLock.Exit | src/lubko/durable.py:427-441 | only the outermost exit gives the file lock up |
| DurableLock.MutualExclusion | src/lubko/durable.py:314-441 | at most one thread of all processes is past the file lock |
| DurableLock.DepthTracksLock | src/lubko/durable.py:327-354 | the file lock is held only while the depth is positive, and then exactly by a thread past it |
| DurableLock.SerializedRuns | src/lubko/durable.py:364-441 | over every run with any failures, crashes and depth of nested cleanup: the layers agree, the file lock is taken and dropped in turn once per outermost entry, and cleanup overwrites only what its own operation placed |
| DurableRegister.RegisterRuns | src/lubko/durable.py:364-572 | over every such run: the committed values are, in order, exactly those given to the renames that were confirmed; while nobody has an unconfirmed value in place, and unless a crash or an unfinished cleanup left one since the last commit, the value is the last committed or the initial one; each operation holds that one as its snapshot and has its own value in place, or the snapshot once written back |
| DurableRegister.RestoreIsCurrent | src/lubko/durable.py:545-572 | a cleanup that writes back puts the last committed, or the initial, value in place: no restore loses another call's commit |
| DurableRegister.WritingCommits | src/lubko/durable.py:498-572 | from every state with gate and file lock free, an undisturbed write commits its value and frees both |
| DurableRegister.FailedWriteRestores | src/lubko/durable.py:545-572 | one whose fsync fails enters the lock again, puts back what was there, commits nothing and frees both |
| DurableRegister.GivingUpLeaves | src/lubko/durable.py:404-545 | one that fails before its rename leaves everything as it was |
| DurableMkdir.FirstExisting | src/lubko/durable.py:248-257 | the nearest existing ancestor: none between it and the path exists |
| DurableMkdir.Hierarchy.FindMissing | src/lubko/durable.py:248-257 | the missing levels, deepest first; the search terminates |
| DurableMkdir.Hierarchy.MakeLevels | src/lubko/durable.py:258-274 | creates and records exactly the missing levels, downwards, and succeeds only if every creation and fsync did |
| DurableMkdir.Hierarchy.MakeDirectoryDurable | src/lubko/durable.py:226-274 | a successful call, all of whose steps succeeded, records the whole chain if and only if every level above the first existing one was recorded before |
| DurableMkdir.ThreeCreatorsDefeatInduction | src/lubko/durable.py:226-274 | three concurrent creators leave a returned call's chain unrecorded |
| ProcessTable.PinHolds | src/lubko/_exact_signal.py:84-111 | an instance unreaped later held its number throughout |
| ProcessTable.RecycledMeansReaped | src/lubko/_exact_signal.py:114-144 | a number held by another instance means the first is reaped |
| Kernel.Host.OpenPidfd | src/lubko/_exact_signal.py:84-111 | the descriptor names the instance that holds the number at that instant |
| Kernel.Host.SendSignal | src/lubko/_exact_signal.py:114-144 | delivery through a pin succeeds only while the pinned instance is unreaped |
| Kernel.Host.Stat | src/lubko/_exact_signal.py:147-183 | one snapshot: missing, unreadable, or the occupant's state, start time and group |
| Kernel.Host.ProcessPgrp | src/lubko/_exact_signal.py:308-337 | the group of a running occupant, from one snapshot |
| Kernel.Host.ProcessIdentity | src/lubko/lifecycle.py:460-479 | four observations at four instants, each true of the number's occupant then; none means no live occupant at some instant, if no read failed |
| ExactSignal.Pinned | src/lubko/lifecycle.py:1379-1433 | a pinned instance still unreaped held its number, with one start time, at every instant since the pin |
| ExactSignal.SignalMember | src/lubko/lifecycle.py:1400-1433 | a delivered signal reached an instance seen in the group and carrying the token under the pin; on an idle host every owned candidate is reached |
| ExactSignal.SignalExactGroup | src/lubko/lifecycle.py:1379-1433 | from any stale candidate list and any recycling, every delivered signal was so proven, and on an idle host no owned candidate is missed |
| ExactSignal.SignalPinnedAnchor | src/lubko/lifecycle.py:1252-1280 | a signal reaches only the pinned instance with the anchored start time, and does so when it runs undisturbed |
| ExactSignal.ConvergeUnprovenSpawn | src/lubko/lifecycle.py:1283-1351 | returns only once the child is gone; every signal on the way reached the anchored number and start time, a termination first and then a kill, and both are sent to an anchored child that stays on an idle host; a child gone before gets none |
| ExactSignal.SnapshotLive | src/lubko/health.py:1331-1358 | a live verdict describes one instance with the snapshot's number and start time from the pin to the end, running when checked |
| Retirement.MismatchMeansGone | src/lubko/lifecycle.py:506-524 | another start time, group or session under a trustworthy worker's number proves it gone |
| Retirement.AbsenceProven | src/lubko/lifecycle.py:550-586 | yes exactly if at the instant of the read there is no such number, or the entry can be read and shows a dead occupant or another start time; so yes is proof |
| Retirement.Observe | src/lubko/lifecycle.py:1436-1454 | whatever disagrees with the metadata proves a trustworthy worker gone, and while no read fails whatever does not means that the recorded instance was running during the call |
| Retirement.RetirementState | src/lubko/lifecycle.py:1436-1454 | a positive answer proves the recorded instance gone, and while no read fails any other means it was running during the call |
| Retirement.WaitForRetirement | src/lubko/lifecycle.py:1630-1640 | so with any successful wait and, after the last poll, with any failed one |
| Retirement.WaitForDrain | src/lubko/lifecycle.py:1643-1670 | a drained worker is gone, and one gone before the first poll is found so while no read fails |
| Retirement.DrainOrKill | src/lubko/lifecycle.py:1600-1627 | terminations go to proven members of the group first; kills follow only after the drain wait, with the recorded worker seen running in between while no read fails; on an idle host a live named worker gets both, and every owned candidate is reached |
| Retirement.StopPinned | src/lubko/lifecycle.py:1560-1627 | drain and escalation under the leader pin answer yes only for a worker that is gone, and yes without a signal for one gone before; signals only with the token proven |
| Retirement.StopWorker | src/lubko/lifecycle.py:1487-1557 | for every timing of exits, reuse and unreadable reads, yes means the recorded instance is gone, provided the metadata names it and it keeps group and session; whatever happens before the pin, on a host idle from then on the answer is yes for every live worker the metadata does not name at the pin, and no for one it names, which gets no signal without the token; a worker gone at the pin is called stopped, without a signal, while no call fails; signals are terminations of proven members of the group and after them kills |
| Retirement.RegroupDeceives | src/lubko/lifecycle.py:1487-1557 | for any identity a named worker moved to another group before the pin is called stopped although it runs |
| Retirement.ObligationInstanceGone | src/lubko/lifecycle.py:3798-3814 | yes exactly if the read fails, the number is free, or a recorded start time differs; so yes is proof when the read succeeded |
| Retirement.WorkerAlive | src/lubko/lifecycle.py:527-547 | yes means the recorded instance was running at some instant of the call; no is proof of death when no read failed and the worker kept group, session and token |
| Recover.RecoveryRuns | src/lubko/lifecycle.py:3892-4123 | at every step of every sequence of recover and repair runs, with crashes, failed writes and exits anywhere, each live recovery worker is named by the obligation or the metadata, and at most one is alive |
| Recover.ProgressKept | src/lubko/lifecycle.py:3966-4024 | what each position of the command has established about every live worker survives every step |
| Recover.WrongVerdictStartsTwo | src/lubko/lifecycle.py:3892-3923 | from every state reachable with right verdicts, between commands and with a live recovery worker, wrong verdicts can lead to two alive if and only if the obligation, if any, records a PID |
| Recover.PidlessHolds | src/lubko/lifecycle.py:3908-3923 | behind an obligation without a PID nothing is started or adopted, whatever the verdicts |
| Recover.UnreadableStartsTwo | src/lubko/lifecycle.py:3798-3814 | with unreadable process entries a run from the beginning has two recovery workers alive |
| RecoverProgress.RecoverStartsIff | src/lubko/lifecycle.py:4073-4123 | with right verdicts and no failing write, recover starts a worker and records its identity if and only if neither the published worker nor the instance of an obligation lives and the obligation records one; otherwise nothing changes |
| RecoverProgress.FailedSpawnClears | src/lubko/lifecycle.py:4108-4115 | a recover whose spawn fails leaves no obligation if its clear lands, so that another one may start a worker, and one without a PID if not |
| RecoverProgress.ConvergedClears | src/lubko/lifecycle.py:3966-4070 | a recover whose worker is converged leaves no obligation if the groups were recovered and its clear lands, and else the recorded one |
| RecoverProgress.RepairAdoptsIff | src/lubko/lifecycle.py:3577-3624 | an undisturbed repair of a live worker ends with the metadata naming it and no obligation if and only if no other published worker lives and an obligation is exactly for it; otherwise nothing changes |
| RecoverProgress.RecoverThenRepair | src/lubko/lifecycle.py:3577-4123 | from every reachable state in which recover may start a worker, recover ends with exactly one live recovery worker, named by its obligation, and repair with the metadata naming it and no obligation |
| RecoverProgress.ObligationFate | src/lubko/lifecycle.py:3817-4123 | at every step of every run the obligation goes exactly if the step settles it durably, and is otherwise the one that stood, the same with its instance filled in, or a new one written while no recovery worker lived; when it goes, the metadata names whichever recovery worker lives |
| RecoverProgress.CommandEnds | src/lubko/lifecycle.py:3966-4123 | whatever became of its last write, a command at its last step is over |
| Verdicts.ObligationVerdict | src/lubko/lifecycle.py:3798-3814 | made on the host, recover's verdict on its obligation is the honest one as long as no read fails, for the world after the exits meanwhile |
| Verdicts.PublishedVerdict | src/lubko/lifecycle.py:527-547 | the verdict on the published worker is the honest one as long as no read fails, the metadata names the worker and it keeps group, session and token |
| Verdicts.ExitedIsReached | src/lubko/lifecycle.py:3892-4123 | the exits during a call are steps of the recovery machine |
| Verdicts.MaintainedVerdict | src/lubko/deployctl.py:1594-1635 | the restart's verdict on the maintained worker, be it the original, a restart or another one, is right at some instant of the call, under those conditions |
| Verdicts.RecordVerdict | src/lubko/deployctl.py:1700-1728 | under them, a recorded restart found dead is dead, and one called stopped is gone |
| Verdicts.OriginalVerdict | src/lubko/deployctl.py:1770-1800 | under them, the original worker is called dead or stopped only when it is gone |
| Verdicts.VerdictsAreRight | src/lubko/deployctl.py:1700-1800 | such verdicts are what the restart machine calls right |
| Verdicts.CandidateVerdict | src/lubko/deployctl.py:1803-1827 | a rollback finds its candidate stopped and gone only where the mission's own step goes on to restore, under those conditions; without the candidate's identity it never goes on |
| RecoverOnHost.AskPublished | src/lubko/lifecycle.py:527-547 | asked of the host, the liveness of the published worker is answered honestly while reads are reliable |
| RecoverOnHost.Step | src/lubko/lifecycle.py:3892-4123 | each move on the host is a sequence of steps of the recovery machine, with right verdicts while reads are reliable, and a spawned process is a recovery worker from then on |
| RecoverOnHost.Drive | src/lubko/lifecycle.py:3892-4123 | however recover and repair are run on a host whose processes exit, start and reuse numbers: if no read fails and the workers keep the identity published for them, at most one process that recover started is running, and the obligation or the metadata names it |
| LegacyRestart.RestartRuns | src/lubko/deployctl.py:1594-1800 | with right verdicts, over any attempts and crashes, adoption of another live worker of the previous commit included: at most one released worker is alive, and none beside the original or another maintained one; a recorded restart implies the original is dead, and every identity was cleared only after its worker's death |
| LegacyRestart.UnsoundReadsReleaseTwo | src/lubko/deployctl.py:1700-1728 | from every open state reachable with right verdicts in which a released worker lives, one attempt with wrong ones has a second released worker alive |
| LegacyProgress.MaintainedEnds | src/lubko/deployctl.py:1594-1635 | an undisturbed attempt adopts a live maintained worker with exact metadata, unless it is the original being retired, and ends the mission |
| LegacyProgress.RecordEnds | src/lubko/deployctl.py:1700-1728 | where no maintained worker lives it adopts a live, released and healthy restart and ends the mission |
| LegacyProgress.OriginalEnds | src/lubko/deployctl.py:1770-1800 | where neither lives it adopts a live original that is not being retired and ends the mission |
| LegacyProgress.RestartEnds | src/lubko/deployctl.py:1730-1800 | where nobody lives it starts one released worker, publishes it and ends the mission |
| LegacyProgress.RetiredOriginalEnds | src/lubko/deployctl.py:1594-1800 | a retiring original that is still maintained does not end the attempt; once it has exited another worker is started, published and the mission ended |
| LegacyProgress.HeldAttempt | src/lubko/deployctl.py:1612-1728 | a live worker that cannot be stopped, or a live maintained one with other metadata, holds the attempt: nothing is started or adopted |
| LegacyProgress.FailedStartEnds | src/lubko/deployctl.py:1730-1767 | a started worker that could not be released or turned out unhealthy ends the attempt, and once it is reaped its record goes unless that write fails |
| LegacyProgress.FailedStepEnds | src/lubko/deployctl.py:1689-1767 | whatever else fails while a worker is started, the attempt is over |
| LegacyProgress.FailedAdoptionEnds | src/lubko/deployctl.py:1689-1800 | so it is if the worker is not reaped, or its publication or the mission's end fails to be written |
| Confirmation.Host.Promote | src/lubko/startup_contract.py:1037-1145 | one artifact ends with the manifest's bytes or nothing else changes; with nothing failing it succeeds exactly when the bytes can be produced |
| Confirmation.Host.PromoteStaged | src/lubko/startup_contract.py:951-1003 | success means all three artifacts and the mode verify; with nothing failing it succeeds exactly when the manifest is retained and the mode is not stuck; cut off at the launcher's mode it is stuck, and a stuck one stays so |
| Confirmation.Host.CleanupStaging | src/lubko/startup_contract.py:1240-1253 | removes exactly what its steps reach and take effect on, and never touches active artifacts, mode or receipt |
| Confirmation.Host.Finish | src/lubko/deployctl.py:2229-2250 | the receipt is durable before staging goes, so a confirmed mission stays recoverable at every crash point; after a success exactly what the cleanup steps reach is gone, and with nothing failing staging, manifest and snapshot all are |
| Confirmation.Host.RetryConfirm | src/lubko/deployctl.py:3428-3500 | success means a satisfied receipt bound to the commit; from every recoverable state an undisturbed retry succeeds if and only if a receipt is satisfied or the launcher mode is not stuck; a stuck state is never left |
| Confirmation.Host.Retries | src/lubko/deployctl.py:3428-3500 | any number of retries with any failures stays recoverable, and succeeds from no stuck state |
| Confirmation.Host.Confirm | src/lubko/deployctl.py:3362-3425 | confirmed exactly when the terminal write takes effect; if every artifact can be produced, recoverable if and only if it is not the losing confirmation, given by the fates of its steps, the readability of the mission and what was staged; if not, exactly as far as a receipt from before is satisfied; success means receipted; the exact condition of success when nothing fails |
| Confirmation.Host.Prepare | src/lubko/startup_contract.py:825-851 | succeeds exactly when authorized, completely staged and the manifest is written, and everything is then retained if and only if rewriting what was staged, or what is active, gives the bytes of a manifest bound to the commit |
| Confirmation.Host.Terminalize | src/lubko/deployctl.py:3393-3425 | which endings of the terminal write, promotion and receipt are recoverable, exactly |
| Confirmation.OtherPrinterLost | src/lubko/startup_contract.py:1037-1145 | for any complete staging that rewriting does not reproduce, a confirmation in which nothing fails ends confirmed and unrecoverable |
| Confirmation.ConfirmedBeyondRecovery | src/lubko/deployctl.py:3397-3408 | for any complete staging a terminal write that raises although it landed, with the mission unreadable, ends confirmed and unrecoverable |
| Confirmation.StuckForever | src/lubko/startup_contract.py:1128-1145 | for any complete staging a crash between the launcher's rename and its mode leaves the deployment confirmed and stuck through any retries and failures |
| MissionWire.MetaRoundTrip | src/lubko/lifecycle.py:190-243 | worker metadata reads back as itself if it is valid and is refused otherwise |
| MissionWire.TimesRead | src/lubko/lifecycle.py:190-243 | a time is read as the number written, whole or not, exactly if it is not negative |
| MissionWire.MetaFieldsInjective | src/lubko/lifecycle.py:295-339 | no other metadata is stored as anything the host language compares equal |
| MissionWire.ParsedCandidate | src/lubko/lifecycle.py:295-339 | a parsed candidate is valid metadata, and only a supervisor-owned mission may lack one |
| MissionWire.ValuesCompare | src/lubko/lifecycle.py:318-339 | comparing stored values as the host language does is an equivalence |
| MissionWire.MissionRoundTrip | src/lubko/deployctl.py:169-291 | a mission survives write, read and normalization if and only if it is well-formed |
| MissionWire.StoredMissionReads | src/lubko/deployctl.py:227-291 | exactly what any mission whatever reads back as, including the refusals |
| MissionWire.SupervisorWireForm | src/lubko/deployctl.py:169-204 | a supervisor-owned mission is stored under schema 3 with the non-process descriptor |
| MissionWire.RewriteReads | src/lubko/deployctl.py:464-508 | a mission read from any file reads back after being rewritten, with the exact exception |
| MissionWire.LookalikeLost | src/lubko/lifecycle.py:318-339 | the exception occurs for every controller-owned mission with such a candidate record |
| MissionWire.ParsedRestart | src/lubko/deployctl.py:306-348 | a parsed restart belongs to a pending controller-owned mission and names a running worker of its repository and previous commit |
| MissionWire.AbsentIsUnset | src/lubko/deployctl.py:227-348 | a file of an older schema, without the retirement, restart and ownership keys, reads as one with those unset and ownership unknown |
| MissionWire.PublishedWellFormed | src/lubko/deployctl.py:2767-2784 | a published mission is well-formed if and only if its inputs are valid |
| MissionWire.RewriteStaysWellFormed | src/lubko/deployctl.py:1689-1767 | each deployment step keeps a mission well-formed if and only if it does not finish one that records a restart |
| MissionWire.EveryWriteReadsBack | src/lubko/deployctl.py:1524-1552 | every mission reached by any sequence of steps reads back as itself and keeps its generation, commits, ownership and workers |
| MissionWire.ArchiveReadableIff | src/lubko/deployctl.py:2539-2557 | an archived mission can be read if and only if it recorded no restart |
| MissionRuns.RunKeeps | src/lubko/deployctl.py:2382-2500 | at every step of every run the operation's copy is the durable mission and everything it has read did hold when read |
| MissionWrites.EveryWriteEntitled | src/lubko/deployctl.py:2293-2437 | each change of the mission in any run was entitled: supervised confirmation inside the generation lock with the exact intent standing and a ready live child proven under it, supervised rollback only after a live supervisor and that proof for the previous commit, controller rollback only with the candidate dead, unknown ownership never ended |
| MissionRequests.ConfirmedOnRequest | src/lubko/deployctl.py:3133-3172 | every confirmation in any run is written by an operation that began with a request, not due, for the very commit of the mission it confirms, and has done nothing else since |
| MissionRequests.OtherRequestConfirmsNothing | src/lubko/deployctl.py:3157-3166 | a request for another commit, or a due one, goes on to roll back, and that operation confirms nothing |
| MissionRequests.MalformedHolds | src/lubko/lifecycle_state.py:657-715 | in every stretch of a run with malformed durable authority, operations begun in it, or not yet past its gates, neither publish nor end a mission and write no intent |
| MissionWrites.OwnershipFrozen | src/lubko/deployctl.py:1561-1591 | generations only grow, and a mission keeps ownership, commits and candidate; once ended it never changes |
| MissionWrites.UnknownHeld | src/lubko/deployctl.py:2411-2415 | a pending mission of unknown ownership stays exactly as it is in every run |
| MissionWrites.DecisionStillConcerns | src/lubko/deployctl.py:2440-2457 | a decision about a mission still concerns the durable one if and only if no newer generation was published |
| MissionWrites.DueAndWatchdogDisagree | src/lubko/deployctl.py:739-775 | the due predicate and the watchdog disagree exactly on missions the controller does not own while no supervisor is alive |
| MissionWrites.CompatibleThroughRestarts | src/lubko/deployctl.py:622-647 | restarts and migrations of the same commit keep a pending mission compatible at every moment, any number of them, and an intent for another commit at or after the mission never does |
| MissionWrites.ConvergedIffCompatible | src/lubko/lifecycle_state.py:630-656 | the lifecycle gate's convergence is that compatibility with a ready live child |
| MissionWrites.ProvenIsNotDue | src/lubko/deployctl.py:650-683 | a mission that terminalization would accept satisfies both and is never due for rollback |
| MissionWrites.TransientChildIsNotDue | src/lubko/deployctl.py:739-775 | before the deadline the child's state never makes a mission due |
| MissionWrites.LateDueIff | src/lubko/deployctl.py:739-775 | past the deadline, with a live supervisor asked for something at or after the mission, it is due, for the predicate and the watchdog alike, unless the gate finds its commit converged and the durable state agrees with its child alive |
| MissionIntents.HeldWithoutSupervisor | src/lubko/deployctl.py:2411-2423 | in every stretch of a run without a live supervisor a pending supervisor-owned mission that no operation has taken past its supervisor checks stays exactly as it is, whatever operations are begun, and the controller writes no intent |
| MissionIntents.RollbackCurrentIff | src/lubko/deployctl.py:2027-2043 | at a supervised rollback's terminal write the proven intent still stands if and only if, of the steps since the lock was released, none wrote an intent or the last that did wrote that one; where all are newer, if and only if none did |
| MissionCases.RollbackComesToWrite | src/lubko/deployctl.py:1990-2043 | with the previous commit settled, an undisturbed supervised rollback reaches its terminal write |
| MissionCases.OperatorRollsBack | src/lubko/deployctl.py:2357-2379 | from any moment of any run an undisturbed rollback of a controller-owned mission whose candidate is dead ends it |
| MissionCases.LegacyGoesLive | src/lubko/deployctl.py:2814-2860 | an undisturbed checkout without a supervisor leaves a pending mission with a candidate of the controller's |
| MissionProgress.CheckoutPublishes | src/lubko/deployctl.py:2767-2784 | under a live supervisor it leaves a pending mission owned by the supervisor |
| MissionProgress.LegacyConfirmationWrites | src/lubko/deployctl.py:3233-3268 | from any moment of any run an undisturbed confirmation of a controller-owned mission whose candidate lives before its deadline ends it confirmed |
| MissionProgress.SupervisedConfirmationWrites | src/lubko/deployctl.py:3233-3360 | so does one of a supervised mission whose commit the supervisor has settled on, inside the generation lock |
| MissionProgress.OtherRequestRollsBack | src/lubko/deployctl.py:3157-3166 | from any moment of any run an undisturbed request for another commit, or a due one, rolls a controller-owned mission with a dead candidate back |
| MissionProgress.RefusalRollsBack | src/lubko/deployctl.py:3133-3230 | what is refused at the request, the authorization, the candidate or the handoff goes on to roll back a mission it has not changed |
| MissionProgress.FailsClosed | src/lubko/deployctl.py:1958-2043 | an operation that does not find what it needs to go on is over, with both locks free and nothing else changed |
| MissionProgress.IntentsAreNewer | src/lubko/deployctl.py:778-823 | an intent the controller writes in any run is for the target of its operation, where another one was asked for, and newer than the mission, that intent and what is applied |
| MissionCases.RolledBackUnderNewerIntent | src/lubko/deployctl.py:2034-2041 | a run in which the terminal rollback is written under a newer intent for another commit |
| MissionCases.WatchdogRollsBackAnother | src/lubko/deployctl.py:2440-2500 | a run in which a watchdog rolls back a later mission that is not due |
| Unicode.Utf8RoundTrip | src/lubko/cli.py:504-516 | the UTF-8 form of a path or link target decodes to it |
| TreeEncoding.UnframeRoundTrip | src/lubko/cli.py:500-502 | length prefixes mark every field boundary whatever the fields hold |
| TreeEncoding.StreamRoundTrip | src/lubko/cli.py:461-520 | the stream of any entries decodes to every path, kind, masked mode, content digest and link target |
| RuntimeTree.JoinInjective | src/lubko/cli.py:488 | relative paths of valid names are never confused |
| RuntimeTree.OrderedUnique | src/lubko/cli.py:497 | a set of paths has one sorted listing |
| RuntimeTree.MaskedReadsBack | src/lubko/cli.py:506-508 | the masked mode distinguishes every read and execute bit and nothing else |
| RuntimeTree.MaskedClearsWrites | src/lubko/cli.py:506-508 | the masked mode is the permission digits without their write bits |
| RuntimeTree.StreamIdentifiesView | src/lubko/cli.py:461-520 | two trees are streamed alike if and only if they agree on every visible path |
| RuntimeTree.TouchInvisible | src/lubko/cli.py:365-409 | sealing or unsealing any part of a tree leaves what the digest sees unchanged |
| RuntimeTree.ManifestInvisible | src/lubko/cli.py:523-549 | so does writing the root manifest |
| RuntimeWalks.Runtime.ChmodTree | src/lubko/cli.py:365-409 | changes exactly what the walk looks at: listed directories and their entries, links and refusals aside |
| RuntimeWalks.Runtime.TreeIsReadOnly | src/lubko/cli.py:412-440 | yes if and only if the root is a directory and everything the walk looks at can be examined and is not writable; the tree then has no writable entry if and only if no directory the walk failed to list hides one |
| RuntimeWalks.UnlistedHidesWritable | src/lubko/cli.py:412-440 | a tree with one unlistable directory for which it says yes over a writable file |
| RuntimeWalks.Runtime.Collect | src/lubko/cli.py:482-496 | every visible path once, in any listing order, with every directory among them listed |
| RuntimeWalks.Runtime.Absorb | src/lubko/cli.py:497-518 | the hasher is fed the stream of the sorted entries |
| RuntimeWalks.Update | src/lubko/cli.py:500-502 | each field goes in behind its eight-byte length, or the digest is refused |
| RuntimeWalks.Runtime.Digest | src/lubko/cli.py:461-520 | the digest is a function of the tree alone, whatever order the listings come in; it is refused exactly when the root is no directory, a listing or a read fails, or the tree cannot be streamed; below a manifest that is a directory nothing is listed |
| RuntimeDigest.DigestIdentifiesTree | src/lubko/cli.py:461-520 | alike trees have one digest, and two trees with one digest are alike at every visible path or exhibit a collision of the hash, for any hash functions |
| RuntimeWalks.Runtime.SealRuntime | src/lubko/cli.py:552-569 | exactly what the walk looks at loses its write bits, and when nothing fails no entry stays writable |
| RuntimeWalks.Runtime.UnsealRuntime | src/lubko/cli.py:572-586 | exactly what the walk looks at becomes writable by its owner, and when nothing fails everything does |
| RuntimeWalks.Runtime.Usable | src/lubko/cli.py:615-664 | each walk listing the tree anew, the exact condition of a yes and of resealing; a yes means the recorded digest and nothing writable that the answering walk looked at, so the tree is read-only if and only if no directory that walk failed to list hides a writable entry |
| RuntimeWalks.DeceivedLaunch | src/lubko/cli.py:615-664 | for any hash, a yes over a writable file: the digest walk lists everything and the sealed walk fails on one directory |
| RuntimeDigest.UsableMeansUnchanged | src/lubko/cli.py:615-664 | the recorded digest matches the tree the manifest was written from, and no other tree without a collision |
| Pruning.KeptIffFits | src/lubko/health.py:1072-1080 | a file is kept if and only if it is recent and fits beside the kept files ahead of it, all at least as new |
| Pruning.CurrentNames | src/lubko/health.py:1055-1057 | the names left alone are the kept one and that one with a dot and anything behind it |
| Pruning.RetainedSettled | src/lubko/health.py:1069-1080 | kept files are recent and within both budgets |
| Pruning.AllKeptIffSettled | src/lubko/health.py:1069-1080 | in any order, everything is kept if and only if everything is recent and within budget |
| Pruning.PruneKeepsTheNewest | src/lubko/health.py:1036-1087 | when removals succeed, the superseded files left are exactly the chosen ones, and a recent file that went was crowded out by newer chosen ones |
| Pruning.PruneSettles | src/lubko/health.py:1036-1087 | when removals succeed, pruning again at the same time removes nothing, whatever the scan order and the ties |
| PruningAgain.SecondPassSameIff | src/lubko/health.py:1036-1087 | when removals failed, a second pass chooses the same files in every scan order if and only if no file that stayed unchosen fits beside the strictly newer chosen ones; then it removes nothing as long as what was stuck stays stuck |
| Pruning.EvidenceDir.Find | src/lubko/health.py:1052-1066 | the superseded files of a scan; one that cannot be examined counts as oldest and empty |
| Pruning.EvidenceDir.Walk | src/lubko/health.py:1070-1087 | exactly the files not chosen are removed, except those whose removal fails |
| Pruning.EvidenceDir.Prune | src/lubko/health.py:1036-1087 | what one pass leaves; the current incarnation's files, other entries and non-files are untouched |

## Left out

- JSON text: only that what is printed reads back; no grammar, no NaN or infinities, and an integer is converted to a float without rounding.
- Hash functions are arbitrary functions; the row id (a name-based UUID, section 5.5 of RFC 9562) is fixed per server.
- PostgreSQL, git, `uv`, argument parsing, logging and printed messages appear as arbitrary results.
- The internals of the supervisor, the supervise module and the worker: desired intent, status, state and child liveness are inputs that may change at any step, the desired intent only while the controller does not hold the generation lock.
- Deadlines and sleeps: polls are counted, and whether a deadline has passed is arbitrary.
- Floating-point rounding: times, deadlines and timeouts are real numbers.
- The injectors for failing fsyncs and short writes.
- Cold migration (`lifecycle.py`), which archives missions outside the four controller operations: only the readability of what it writes is covered.
- Rollback of startup artifacts from the pre-confirmation snapshot: neither the receipt nor the snapshot is bound to the mission's commit, so nothing is claimed about which artifacts it restores.
- DurableWrite.WriteSymlink: a prior regular file is restored through the nested byte write, whose read through the new link is one of the steps that may fail.
- DurableDirectory.Directory.DropTemp: a dropped temporary name may come back after a crash; names of leftovers are not tracked further.
- MissionRuns.RunKeeps: the single decision whether a rollback is due is left open where its reads may each see a different moment; the writes are proven right for either decision.
- Confirmation.Host.Confirm: the launcher is created with the usual mode of a new file, ignoring the umask.
- RuntimeWalks.Runtime.Digest: names that are not valid Unicode, which raise, are not modelled; listings, `lstat` and content reads that fail are.
- Host-language lists become values: sorting in place is a function on sequences.
- `protocol.py`, `control_socket.py`, `config.py`, `toolchain.py`, `install.py` and `protocol_versioning.py`: field validation and plumbing that would only add easy members.
- The zero-space acceptance programs in C: their verdicts rest on ptrace and file-offset behaviour a model would only assume.
