# Verified models of the glance daemon's hard cores

The daemon runs coding agents in git worktrees and keeps an operator's own checkout, attention and
processes in step with them. This project models the parts whose correctness depends on order, faults or
time, and proves what they promise. One module per component; classes with the source's fields where the
source updates objects in place, functions where it computes. Each method of a class is proved equal to a
step function of the old state, and the theorems are about those step functions over every run.

**Boundary sync** (`LaneQueue`, `TurnChain`, `HeldLedger`, `HeldStore`, `HeldReplay`, `HeldReattach`,
`ChainOnDisk`, `SyncRace`, `HeldRace`, `GitQuoting`, `DiffPaths`, `DiffBlocks`, `MisreadPaths`). At each turn end a session's patch is
written to the operator's checkout or held in an append-only ledger. `LaneQueue` is the promise-chain
serializer as steps of an interleaving. `TurnChain` is the turn-end decision and the moving or deliberately
resting end tree, with patches seen as pairs of trees. `HeldLedger` models the ledger byte by byte, so that a
crash may cut an append anywhere; `HeldStore` adds bodies, sidecars and every fault of each call; `HeldReplay`
is the explicit apply and discard, `HeldReattach` the takeover by a successor session. `ChainOnDisk` runs the
chain and the store together and proves that the one refines the other. `SyncRace` lets the operator put the
checkout into any state between any two steps of a turn-end write, including between the two halves of
`git apply`, and its turn end makes the chain's decision; `HeldRace` runs the explicit apply over such a
checkout and the store at once. `GitQuoting`, `DiffPaths` and `DiffBlocks` are the patch-path reader and the
git output it reads, `MisreadPaths` what a misread path costs.

**Agent transport** (`TurnLiveness`, `Framing`, `AgentHost`). Turn liveness over a logical clock with
explicit timers; newline framing independent of chunking; the detached host's ring and replay.

**Convergence** (`Convergence`). One iteration, the in-process loop, and the same loop carried across
processes by an oracle, a failures sidecar and a sentinel.

**Graphs, attention, rates** (`Reachability`, `OrphanReaper`, `AgentScope`, `Attention`, `Fog`,
`TokenBucket`). Two tree walks against an exact reachability specification, the seen-map with coalescing
joined with the debt computation, and the push-tap limiter over real numbers.

`Wrappers` and `TextLines` hold shared vocabulary: bytes, `Option`, splitting and trimming.

## Where the code and its own comments part

Each of these is proved, with the exact condition where there is one.

- `src/boundary-sync-lane.ts:79-83` says one checkout never runs two chains. Two queued operations can run
  at once if and only if no path of one, literal or real, is a path of the other as far as the realpaths are
  known, which is how two spellings of one checkout stand during a realpath outage
  (`LaneQueue.OverlapIffApart`, `LaneQueue.OneCheckoutIsSerialized`).
- `src/boundary-sync-lane.ts:172-179` keeps the warning of a turn lost before any end tree existed only
  until the second captured turn end, although no patch ever carries its edits
  (`TurnChain.WarningStandsIff`).
- `src/boundary-sync-lane.ts:190-204` relies on the next patch to carry a turn whose ledger append failed.
  The patches stop forming a chain if and only if a turn end wrote or listed a patch without moving the end
  tree: the line landed although the append threw, or the patch was written and its hold then failed
  (`TurnChain.AlwaysGaplessIff`, `TurnChain.LosesTrackIff`, `TurnChain.LandedButUntrackedBreaksChain`). Even
  then the captured turns alone lead to the end tree without a gap (`TurnChain.CapturedTurnsChain`).
- `src/boundary-sync.ts:897-915` opens a fresh line so that no event is welded onto a torn one, but appends
  all the same when the last byte cannot be read. An append keeps the history and its own promise if and only
  if it is on a line of its own, or failed without harming what stood there (`HeldStore.CleanIff`,
  `HeldLedger.AppendAddsIff`, `HeldLedger.HistoryKeptIff`); otherwise two events are lost at once, and a
  resolved hold is listed again (`HeldStore.GluedAppendForgetsBoth`, `HeldStore.GluedAppendUndoesResolve`).
- `src/boundary-sync.ts:1128-1132` and `src/boundary-sync-lane.ts:365-371` return no divergences when a later
  patch of a replay is missing or refused, or when something throws. What a replay detected is reported if
  and only if none of that happens or nothing diverged until then (`HeldReplay.DivergencesReportedIff`,
  `HeldReplay.DivergenceIsLost`).
- `src/boundary-sync.ts:793-797` says nothing was written when something threw. A turn reported as held was
  written all the same exactly when the detection threw: in preparing the scratch directory, or in retaining
  the capture of what it found (`SyncRace.SyncTurnEnd`). A turn that replaces a file,
  or a link that dangles there, by a directory makes it throw by itself (`SyncRace.BecomesDirectoryIsHeld`).
- `src/boundary-sync.ts:622-626` calls the last window detected, not silent. For a path left alone after the
  write a divergence is reported if and only if the replay failed, or the content the snapshot read and the
  content git read lead to different results, or the result cannot be read (`SyncRace.DivergedIff`). So an
  edit saved after git has read a path and before it writes it is overwritten without a trace
  (`SyncRace.SaveBeforeWriteIsInvisible`, `SyncRace.OverwriteBetweenReadAndWriteIsSilent`).
- `src/boundary-sync.ts:1017-1023` reads an unreadable ledger as one without ids; that is safe if and only if
  no surviving sidecar names an id the ledger knows (`HeldStore.UnreadableSweepIsSafeIff`).
- `src/boundary-sync.ts:320-352` under `core.quotepath=false`, which `computeTurnPatch` sets, reads a quoted
  path back to its bytes if and only if it is ASCII (`GitQuoting.FieldRoundTripsIff`); as
  decoded text, a path whose non-ASCII characters are all U+FFFD comes back too, since its bytes decode to
  that. An added or deleted path with a line or paragraph separator is not seen at all
  (`DiffBlocks.OneBlockExactIff`). In the first case an edit of an existing path is reported as diverging, or
  held, although nobody interfered (`MisreadPaths.GarbledPathIsReported`); in the second nothing is checked
  (`MisreadPaths.HiddenPathIsUnchecked`).
- `src/acp-agent-driver.ts:228-242` holds for the turn that has the hooks; an overlapping turn takes them and
  freezes the earlier one's window as it is (`TurnLiveness.PendingTurnAccount`,
  `TurnLiveness.DisplacedTurnIsFrozen`, `TurnLiveness.OverlapBreaksTracking`).
- `src/convergence-run.ts:319-323` calls a confidence of -1 always below the floor; it is if and only if the
  floor is above -1 (`Convergence.NeverRanEscalatesIff`). With a lower floor and a budget of more than one turn
  some suite makes the in-process loop and the one across processes part (`Convergence.LoopsAgreeIff`).
- `src/convergence-run.ts:335` says a green suite yields no failures; without failure lines its whole output
  stands as one (`Convergence.CleanRunsRatchetIff`). Once every concern is closed the suite is not run
  (`Convergence.ClosedPlanConverges`).
- `src/convergence-run.ts:425-427` leaves a corrupt sidecar for a human; the next process removes it
  (`Convergence.CorruptSidecarIsGoneNextTime`).
- `src/attention.ts:333-340` coalesces what has one joined text, not what has the same fields. A view answered
  ok always leaves its stamp if and only if neither the file nor the agent it names holds a NUL
  (`Attention.AlwaysStampedIff`, `Attention.OkViewWithoutStamp`).
- `src/attention.ts:344-348` clears surprises on a later genuine view; a coalesced one does not
  (`Fog.CoalescedViewClearsIff`, `Fog.SurpriseOutlivesCoalescedView`).

## Model

| member | source | states |
|---|---|---|
| `LaneQueue.SerializedInQueueOrder` | src/boundary-sync-lane.ts:78-104 | In every interleaving an operation starts only after everything queued earlier under a shared key has settled, two such never run together, each waits only on earlier ones, and a key without a chain entry has no unsettled operation. |
| `LaneQueue.NoDeadlock` | src/boundary-sync-lane.ts:95-103 | In every reachable state some operation can move on unless all are cleaned up, and then the map is empty. |
| `LaneQueue.RunsDrain` | src/boundary-sync-lane.ts:95-103 | Every step other than a new enqueue lowers a rank by one, whether bodies fail or not, so no run goes on without new work. |
| `LaneQueue.OneCheckoutIsSerialized` | src/boundary-sync-lane.ts:78-104 | Whatever else is queued: of two calls that name one checkout, the same path or the same realpath or one the realpath of the other, the later one starts only once the earlier one has settled. |
| `LaneQueue.OverlapIffApart` | src/boundary-sync-lane.ts:79-94 | Two calls on an idle lane can run at the same time if and only if their literal paths differ, neither realpath is the other literal path, and the realpaths are not both known and equal. |
| `LaneQueue.BoundarySyncLane.Queue` | src/boundary-sync-lane.ts:78-104 | The operation is linked under exactly its literal path and its realpath, if that is known, and chained on the promises found there: the enqueue step of the interleaving. |
| `LaneQueue.BoundarySyncLane.DropDrained` | src/boundary-sync-lane.ts:98-102 | The cleanup drops exactly the keys that still point at this operation: the cleanup step of the interleaving. |
| `TurnChain.RunConserves` | src/boundary-sync-lane.ts:163-204 | Over every run whose turn ends keep track of their effect: from the start tree of the first captured turn the patches lead to the end tree without a gap and in order, each is written, waiting or explicitly dropped, none is written ahead of an older one that waits, and the held row stands while one waits. |
| `TurnChain.AlwaysGaplessIff` | src/boundary-sync-lane.ts:163-204 | The condition is exact: the patches form a chain after every event of a run if and only if no turn end wrote or listed a patch without moving the end tree. |
| `TurnChain.LosesTrackIff` | src/boundary-sync.ts:757-800 | A turn end does so if and only if it has a captured, nonempty patch and either an earlier throw, a backlog, unequal or missing fingerprints or a refusal kept it from the checkout and its hold's line landed although the append threw, or it was written, something threw after that, and the hold was not known to list it. |
| `TurnChain.TurnEndLeaves` | src/boundary-sync.ts:732-800 | The turn is consumed; its patch is written exactly when it is captured and nonempty and neither an earlier throw, a backlog, missing or unequal fingerprints nor a refusal stands in the way, and listed exactly when it was not applied and its hold landed; the end tree moves on exactly when the turn changed nothing, was applied or is listed. |
| `TurnChain.UndisturbedTurnIsApplied` | src/boundary-sync-lane.ts:140-229 | A turn that starts and ends with equal fingerprints, nothing waiting and every call working is in the checkout afterwards, from the end tree before it or else from the live tree, under its own number. |
| `TurnChain.CapturedTurnsChain` | src/boundary-sync-lane.ts:140-204 | With every fault allowed, over every run: the captured turns lead without a gap from the first one's start, fixed from then on, to the end tree. |
| `TurnChain.CapturedIsCarried` | src/boundary-sync.ts:732-800 | At least once, with every fault allowed: what a captured turn changed is in the checkout, in the ledger or dropped, under that turn, and none is written ahead of an older one that waits. |
| `TurnChain.AppliedThenHeld` | src/boundary-sync-lane.ts:163-204 | As long as nothing was dropped the chain is the applied patches followed by the held backlog. |
| `TurnChain.ExactlyOnce` | src/boundary-sync.ts:732-800 | Without a fault after a write every patch is in exactly one place: checkout, ledger or dropped. |
| `TurnChain.LandedButUntrackedBreaksChain` | src/boundary-sync-lane.ts:190-204 | A hold whose line landed although its append threw leaves a later patch starting where the listed one starts. |
| `TurnChain.WarningStandsIff` | src/boundary-sync-lane.ts:172-229 | Over every run the "only in your worktree" row stands exactly while an uncaptured turn that followed an end tree is uncovered, or an earlier one was lost and fewer than two turn ends have been captured since. |
| `TurnChain.RowStandsIff` | src/boundary-sync-lane.ts:206-437 | Over every run, with every fault: a row stands if and only if some event raised it, or it stood before, and none has cleared it since; what raises and clears each of the three is said in terms of the calls. |
| `TurnChain.DivergenceStandsIff` | src/boundary-sync-lane.ts:218-232 | The divergence row stands if and only if a divergence was found since the last acknowledgement, by the write of a turn end that applied its patch or in the report of an explicit apply. |
| `TurnChain.DivergenceRowPersists` | src/boundary-sync-lane.ts:310-347 | A divergence row goes only when the operator acknowledges it. |
| `TurnChain.MarkWrittenProps` | src/boundary-sync.ts:1118-1157 | A replay moves no patch, writes a prefix of what waits and leaves at most the last written one listed. |
| `TurnChain.MarkWrittenExactly` | src/boundary-sync.ts:1118-1157 | A replay of n writes exactly the waiting patches with fewer than n waiting before them, and only the last of these may stay listed. |
| `TurnChain.BoundarySession.TurnStarts` | src/boundary-sync-lane.ts:140-159 | The turn number is stamped and the baseline is the prior end tree, else the live one: the start step of the chain. |
| `TurnChain.BoundarySession.TurnEnds` | src/boundary-sync-lane.ts:163-291 | The start is consumed, the end tree moves or rests, and each row is raised and cleared as `TurnChain.TurnEndLeaves` and `TurnChain.RowStandsIff` say: the end step of the chain. |
| `TurnChain.BoundarySession.HeldApplied` | src/boundary-sync-lane.ts:374-395 | The held row goes on full success and stands otherwise, and a divergence in the report raises its own row: the apply step of the chain. |
| `TurnChain.BoundarySession.HeldDiscarded` | src/boundary-sync-lane.ts:426-435 | The report decides the held row: gone when nothing failed and nothing is left, raised when something is left, untouched when the ledger could not be read and the recount failed too: the discard step of the chain. |
| `TurnChain.BoundarySession.AcknowledgeDivergence` | src/boundary-sync-lane.ts:339-347 | Clears the divergence row only. |
| `HeldLedger.AppendStepsReplay` | src/boundary-sync.ts:897-915 | For every file, a torn tail included, and an append on a line of its own: replay afterwards is the old replay stepped by the event, and a crash at any byte leaves the old replay or the stepped one. |
| `HeldLedger.TornAppendEvents` | src/boundary-sync.ts:897-915 | For every file, every cut, and a last byte read or not: on its own line the event is added exactly when its whole encoding landed; glued to an unfinished line, the first byte takes that line's event and the new one is never read. |
| `HeldLedger.AppendAddsIff` | src/boundary-sync.ts:897-915 | A completed append adds its event to the history if and only if the last byte was read or nothing but white space stands after the last newline. |
| `HeldLedger.HistoryKeptIff` | src/boundary-sync.ts:897-915 | An append cut anywhere keeps the old history if and only if it was on its own line, or nothing landed, or the line it was glued to held no event. |
| `HeldLedger.EntersOnceNeverReturns` | src/boundary-sync.ts:966-994 | In a history whose holds are fresh an id enters the backlog at most once and is out for good once its resolve line was read. |
| `HeldLedger.RekeyKeepsPlace` | src/boundary-sync.ts:956-959 | A rekey changes the owner of one hold and keeps every position and patch. |
| `HeldStore.RunKeepsInv` | src/boundary-sync.ts:921-1091 | Every run of holds, rekeys, resolves and readable sweeps, with any fault that leaves every append its promise (`HeldStore.CleanIff`), keeps ids fresh, every open hold with its body, and the history growing. |
| `HeldStore.ResolvedNeverReturns` | src/boundary-sync.ts:1000-1010 | After any such run no id is listed twice, every listed hold has its body, and a hold whose resolve line was readable is never listed again. |
| `HeldStore.CleanIff` | src/boundary-sync.ts:897-915 | The condition on appends is exact: the history stays, and gains the event if the append ran to its end, if and only if the append is on its own line, or failed without harming the unfinished line it was glued to. |
| `HeldStore.GluedAppendForgetsBoth` | src/boundary-sync.ts:897-915 | For every disk and any two events: if the first lands without its newline and the second is appended without a look at the last byte, both are gone, although the first was readable and the second reported as written. |
| `HeldStore.GluedAppendUndoesResolve` | src/boundary-sync.ts:1000-1010 | So a resolved hold is listed again. |
| `HeldStore.FailedAppendLeavesOrphan` | src/boundary-sync.ts:936-944 | A hold whose append threw is either listed, when its line landed whole, or left as a body and a sidecar without a line and with the listing unchanged. |
| `HeldStore.OrphanComesBack` | src/boundary-sync.ts:1052-1091 | A hold left as body and sidecar stays recoverable over every run, sweeps that could not append it included, and the first sweep that lands its line lists it again, unchanged. |
| `HeldStore.UnreadableSweepIsSafeIff` | src/boundary-sync.ts:1017-1023 | A sweep that reads the ledger as empty keeps ids fresh if and only if no surviving sidecar names a known id. |
| `HeldStore.UnreadableSweepCanResurrect` | src/boundary-sync.ts:1052-1091 | With such a sidecar, a resolved hold is listed again. |
| `HeldStore.SidecarCanOutliveItsHold` | src/boundary-sync.ts:944-947 | The best-effort cleanup of a completed hold can leave that sidecar behind. |
| `HeldStore.FaultlessRunIsTidy` | src/boundary-sync.ts:921-1010 | Over every run without faults the store holds what it lists and no more: each open hold has its body, no other body and no sidecar is left. |
| `HeldStore.HoldLeaves` | src/boundary-sync.ts:921-948 | A patch over 64 MB or without a written body leaves nothing; otherwise the body is the patch, and the sidecar stays exactly if it was written and the line failed or its removal did. |
| `HeldStore.ResolveLeaves` | src/boundary-sync.ts:1000-1010 | Body and sidecar stay as long as the line is not complete, and afterwards exactly if removing them failed; no other file changes. |
| `HeldStore.SweepReports` | src/boundary-sync.ts:1060-1091 | Every patch file that no ledger line was seen for is reported: recovered, with the identity of its sidecar, if there is one and its append ran to its end, and unrecoverable otherwise. |
| `HeldStore.HeldSyncStore.WriteEvent` | src/boundary-sync.ts:897-915 | Appends one line, opening a fresh one when the last byte is seen not to be a newline and not when it cannot be read; a fault leaves any prefix of it. |
| `HeldStore.HeldSyncStore.HoldPatch` | src/boundary-sync.ts:921-948 | Body, sidecar, line, cleanup in this order, with the size limit and the two failure kinds told apart. |
| `HeldStore.HeldSyncStore.RekeyHold` | src/boundary-sync.ts:956-959 | Appends the rekey line and touches nothing else. |
| `HeldStore.HeldSyncStore.ResolveHold` | src/boundary-sync.ts:1000-1010 | Appends the resolve line; body and sidecar go only once it is in. |
| `HeldStore.HeldSyncStore.ListAllHeld` | src/boundary-sync.ts:966-994 | Returns the replay of the ledger, or the error of an unreadable one, never an empty backlog in its place. |
| `HeldStore.HeldSyncStore.AllLedgerIds` | src/boundary-sync.ts:1017-1036 | Returns every id the ledger mentions, and none when it cannot be read. |
| `HeldStore.HeldSyncStore.SweepOrphanedPatches` | src/boundary-sync.ts:1052-1091 | Visits every body once; what it recovers, what it reports lost and the files it leaves are those of the sweep specification. |
| `HeldReplay.WritesAPrefix` | src/boundary-sync.ts:1118-1157 | The written patches are the bodies of a prefix of the backlog in order, all of it when success is reported. |
| `HeldReplay.ReplayGetsTo` | src/boundary-sync.ts:1118-1157 | Patch k is written if and only if every earlier one was written, recorded and followed by a capture, its own body is there and its write does not fail; success is reported if and only if that is so of all, and it throws if and only if a patch it reaches does. |
| `HeldReplay.ReplayRecords` | src/boundary-sync.ts:1134-1147 | The ledger gains, in order, one line per written patch that says it was applied, but for the last one if its record did not land. |
| `HeldReplay.BacklogAfterReplay` | src/boundary-sync.ts:1118-1157 | Afterwards the list is the old one without the written prefix, or with its last patch still listed when that write went unrecorded. |
| `HeldReplay.OthersAfterReplay` | src/boundary-sync.ts:996-998 | Other agents' lists are untouched by a replay. |
| `HeldReplay.OnlyTheLastIsCut` | src/boundary-sync.ts:1135-1147 | Only the last write can go unrecorded, and then success is not reported. |
| `HeldReplay.DivergencesReportedIff` | src/boundary-sync.ts:1118-1157 | Every divergence detected, one whose copy could not be kept included, is reported if and only if none was detected by the time the replay stopped at a missing body, a refusal or a throw. |
| `HeldReplay.DivergenceIsLost` | src/boundary-sync.ts:1128-1132 | For instance: the first patch is written and diverges, the second is refused, and nothing is reported. |
| `HeldReplay.BacklogAfterDrop` | src/boundary-sync.ts:1177-1194 | A discard takes its targets off the owner's list in order, up to the first whose record failed, and that one too if its line landed. |
| `HeldReplay.DropRecords` | src/boundary-sync.ts:1181-1192 | The ledger gains, in order, one line per dropped patch that says it was discarded, up to the first whose record failed. |
| `HeldReplay.TargetsAre` | src/boundary-sync.ts:1179-1180 | Without a name everything is dropped, with one that hold alone, and nothing if it is not on the list. |
| `HeldReplay.ApplyHeldNow` | src/boundary-sync.ts:1118-1157 | Report, files and written patches are those of the replay, with the divergences only on the returns that carry them; nothing is written without a capture or with an unreadable ledger. |
| `HeldReplay.DiscardHeldNow` | src/boundary-sync.ts:1177-1194 | Drops the whole backlog or one hold, reports the partial count after a fault, and refuses an unknown id. |
| `HeldReattach.ReattachMovesExactly` | src/boundary-sync-lane.ts:546-562 | Exactly the predecessor's holds for this checkout change owner, in place; every other hold, every patch and the order stay, and a hold whose rekey failed stays with the predecessor. |
| `HeldReattach.RekeyAllReowns` | src/boundary-sync-lane.ts:556-562 | Whatever appends fail, exactly the holds whose line landed change owner. |
| `HeldReattach.RekeyOnReattach` | src/boundary-sync-lane.ts:546-562 | The loop rekeys the matching holds oldest first, goes on after a failure and counts those that worked; an unreadable ledger moves nothing. |
| `ChainOnDisk.HoldExtendsList` | src/boundary-sync.ts:921-948 | A fresh hold goes to the end of its owner's list exactly when its line landed. |
| `ChainOnDisk.ApplyMirrors` | src/boundary-sync.ts:1118-1157 | A replay on disk is one the chain allows, and leaves the listed turns equal to the waiting ones. |
| `ChainOnDisk.TurnEndMirrors` | src/boundary-sync.ts:732-800 | A turn end that counts the backlog in the ledger keeps the listed turns equal to the waiting ones. |
| `ChainOnDisk.DiscardMirrors` | src/boundary-sync.ts:1177-1194 | A discard of everything or of one hold, cut short by a fault or not, takes the same turns off both. |
| `ChainOnDisk.ApplySettlesRows` | src/boundary-sync-lane.ts:374-395 | After an explicit apply the held row is gone if and only if every listed patch was there, written and recorded, with a capture before each next one; the divergence row is new if and only if a written patch diverged and the replay did not stop at a missing body, a refusal or a throw. |
| `ChainOnDisk.DiscardSettlesRow` | src/boundary-sync-lane.ts:426-435 | After an explicit discard the held row is gone if and only if it was of everything there is and recording it never failed. |
| `ChainOnDisk.FailureKeepsRows` | src/boundary-sync-lane.ts:365-371 | An apply that could not begin leaves the held row standing and reports no divergence; a discard raises it only if something is known to be left; neither touches a file. |
| `ChainOnDisk.JointRunIsChainRun` | src/boundary-sync-lane.ts:163-204 | Refinement: every run over the files, with other sessions' operations on the shared ledger anywhere in between and appends that keep their promise, is a run of the chain, and at its end the ledger lists exactly the waiting turns in order. |
| `ChainOnDisk.ForeignKeepsList` | src/boundary-sync.ts:996-998 | Another session's hold, rekey or resolve, with any fault that leaves its append its promise, leaves this session's list alone. |
| `ChainOnDisk.CapturedReachesTheFiles` | src/boundary-sync.ts:701-800 | From an empty store, after any such run: the captured turns lead without a gap to the end tree, what each changed is in the checkout, listed or dropped, and the ledger lists exactly what waits, each with its body. |
| `ChainOnDisk.AppliedThenListed` | src/boundary-sync.ts:701-800 | From an empty store, after any such run without discards whose turn ends keep track: the written patches lead without a gap from the first captured turn's start to some tree, and the patches the ledger lists lead, in its order, from there to the end tree. |
| `ChainOnDisk.LedgerHoldsTheRestOfTheChain` | src/boundary-sync.ts:732-800 | From an empty store, after any such run whose turn ends keep track: conservation holds from the first captured turn's start, the ledger lists the waiting patches, and each has its body. |
| `SyncRace.SyncTurnEnd` | src/boundary-sync.ts:732-800 | Against any operator, what it does in each gap given: the turn is written if and only if nothing is held, the checkout is captured at turn end as it was at turn start, and every call of the apply goes through; a checkout nobody moves gets each patch that applies to it. At most one write, with three equal fingerprints; the reported divergence is the list of bad paths; a written turn is reported as held if and only if the detection threw. |
| `SyncRace.ApplyPatchToRealTree` | src/boundary-sync.ts:633-677 | The patch is written if and only if the dry run and git's own read find it applying, the recheck finds the tree expected and no call fails, and the checkout is then what git's outputs make of it; it says when each thing was read and written, and throws after the write if and only if the detection does. |
| `SyncRace.UnmovedGoesThroughIff` | src/boundary-sync.ts:633-677 | On a checkout that every gap leaves as it was, an apply goes through if and only if its calls do, the patch applies there and it is the tree expected, and it leaves that tree patched. |
| `SyncRace.DetectionThrowsIff` | src/boundary-sync.ts:496-609 | The detection throws if and only if something is touched and seeding the scratch directory fails or cannot hold the snapshot, or a path diverges and its capture cannot be kept. |
| `SyncRace.DetectPostApplyDivergence` | src/boundary-sync.ts:496-609 | Returns exactly the touched paths whose read-back differs from the patch replayed on their snapshot, all of them when that replay fails, and throws when seeding the scratch directory does, a file or a dangling link above another seeded path included. |
| `SyncRace.SnapshotPaths` | src/boundary-sync.ts:465-480 | Every entry is what its path held at some moment of the reading; on a checkout left as it is, that is the checkout. |
| `SyncRace.ChainDecidesTheSame` | src/boundary-sync.ts:732-800 | On the calls a turn end made against the operator, the chain's decision writes, applies, holds and reports divergence exactly as that turn end did. |
| `SyncRace.NoDivergenceMeansPatched` | src/boundary-sync.ts:597-609 | Without a reported divergence every touched path, as read back, holds exactly what the patch makes of its snapshot. |
| `SyncRace.UndisturbedWriteIsExact` | src/boundary-sync.ts:633-677 | If the touched paths are left alone the write puts the patch of the fingerprinted tree there, and nothing is reported unless the scratch directory cannot hold the snapshot. |
| `SyncRace.BecomesDirectoryIsHeld` | src/boundary-sync.ts:496-525 | A turn that replaces a file or a link by a directory, with nobody interfering and no call failing, is written, and reported as held if and only if that was a file or a link that leads nowhere from the scratch directory. |
| `SyncRace.ReplaysIff` | src/boundary-sync.ts:496-525 | The scratch replay succeeds if and only if every edit applies to what was seeded for its path, and one of a path that is not on the list to nothing. |
| `SyncRace.MissedPathReportsAll` | src/boundary-sync.ts:597-609 | When a path whose edit needs something to be there is missing from the list, every path on it counts as diverging, whether anybody interfered or not. |
| `SyncRace.UnreplayedReportsAll` | src/boundary-sync.ts:597-609 | A patch that could not be replayed, for want of a scratch directory or because `git apply` does not run there or refuses, counts against every path. |
| `SyncRace.BystanderDivergedIff` | src/boundary-sync.ts:597-609 | A path on the list that the patch does not write diverges if and only if its two reads differ or the second cannot be read. |
| `SyncRace.DivergedIff` | src/boundary-sync.ts:597-609 | For a path left alone after the write: it is reported if and only if the replay failed, or what the snapshot read and what git read lead to different results, or the result cannot be read. |
| `SyncRace.SaveBeforeWriteIsInvisible` | src/boundary-sync.ts:611-632 | Whatever happened around a write and whatever is saved between git's read and its write, the daemon may see exactly the same, so that save never changes the report. |
| `SyncRace.OverwriteBetweenReadAndWriteIsSilent` | src/boundary-sync.ts:611-632 | For every edit and content, a save between git's read and its write is lost with an empty report. |
| `HeldRace.ReplayOver` | src/boundary-sync.ts:1118-1157 | The explicit apply over store and checkout at once: it is the replay of `HeldReplay` on some outcomes, counts every write, and pins each write to a capture taken after the write before it that shows the checkout as it was at the last recheck, so a checkout that moves under the replay is never written into; and with nothing in the way every patch is written, in order, and the checkout is then patched by all of them. |
| `HeldRace.WritePinned` | src/boundary-sync.ts:633-677 | One write of it: written if and only if nothing failed early and the apply goes through on the pinned tree; a divergence is found if and only if the replay did not throw and there are bad paths. |
| `GitQuoting.UnquoteGitPath` | src/boundary-sync.ts:320-352 | A quoted field gives the bytes of its inside, any other those of its text. |
| `GitQuoting.ReadInner` | src/boundary-sync.ts:325-350 | The index loop always advances and computes the unquoting function. |
| `GitQuoting.UnquoteInvertsQuote` | src/boundary-sync.ts:320-352 | The reader inverts git's default quoting for every byte string. |
| `GitQuoting.Utf8IsInjective` | src/boundary-sync.ts:320-352 | The bytes of a text stand for it: different texts have different ones. |
| `GitQuoting.FieldRoundTripsIff` | src/boundary-sync.ts:288-302 | A header field comes back as its path's bytes if and only if quoting is at its default, the path is ASCII, or it needs no quoting. |
| `DiffPaths.SplitPlainHeader` | src/boundary-sync.ts:378-389 | Returns the agreeing halves whenever some split agrees, else the first split, and nothing only if there is none. |
| `DiffPaths.SameNameSplits` | src/boundary-sync.ts:363-371 | For every X, also one containing ` b/`, the halves of `a/X b/X` agree at X. |
| `DiffPaths.SplitHeader` | src/boundary-sync.ts:372-390 | The loop and the quoted form together compute the header split. |
| `DiffPaths.ScanBlock` | src/boundary-sync.ts:424-448 | One block's lines up to its first hunk give the paths of the scan specification, and whether any line named one. |
| `DiffPaths.PatchTouchedPaths` | src/boundary-sync.ts:418-457 | Returns each touched path of the text once. |
| `DiffBlocks.TouchedIsRecovered` | src/boundary-sync.ts:418-457 | For every sequence of well-formed git blocks and any hunk bodies, the paths read are exactly those each block gives up: a rename its readable names, and with none readable what the header split makes of its header. |
| `DiffBlocks.TouchedIsExact` | src/boundary-sync.ts:418-457 | They are exactly the blocks' paths unless a path mixes non-ASCII with quoting or an added, deleted or renamed file has a separator in its name. |
| `DiffBlocks.QuotedRenameHeader` | src/boundary-sync.ts:372-377 | A header with two quoted names, equal or not, gives both. |
| `DiffBlocks.OneBlockExactIff` | src/boundary-sync.ts:429-436 | For one block that renames nothing those two exceptions are exact. |
| `DiffBlocks.ReadPatch` | src/boundary-sync.ts:418-457 | From text to paths: rendering any well-formed blocks and reading them gives exactly the recovered paths, none twice. |
| `MisreadPaths.GarbledPathIsReported` | src/boundary-sync.ts:418-457 | A path that reads back as another is not on the list of its patch; when its edit needs something to be there the detection fails, and the list counts as diverging although nobody interfered. |
| `MisreadPaths.HiddenPathIsUnchecked` | src/boundary-sync.ts:597-609 | A path hidden by a separator leaves the list empty, and nothing is ever reported. |
| `TurnLiveness.SettlesExactlyOnce` | src/acp-agent-driver.ts:481-493 | Over every run each settlement stands, is the only one of its id, and was made by a response to that id, by that request's timer, or by the agent's exit. |
| `TurnLiveness.SettledByHardCap` | src/acp-agent-driver.ts:716-720 | A pending turn has its hard cap armed at the deadline set at its start, and that deadline has not passed. |
| `TurnLiveness.ClockOrTimer` | src/acp-agent-driver.ts:672-736 | Time can always pass unless a timer is due, and a due timer can fire. |
| `TurnLiveness.TurnStartsWatched` | src/acp-agent-driver.ts:672-736 | A fresh turn has its hard cap and its silence window armed for their full periods. |
| `TurnLiveness.ResponseSettles` | src/acp-agent-driver.ts:481-493 | A response settles what is pending under its id, with its timers and hook, and otherwise changes nothing. |
| `TurnLiveness.SettledByTimeout` | src/acp-agent-driver.ts:636-657 | A call that is still pending has its timer armed at its own timeout, and that has not passed. |
| `TurnLiveness.NothingAfterExit` | src/acp-agent-driver.ts:636-637 | After the exit, whatever is sent or received, nothing is pending and nothing settles. |
| `TurnLiveness.ToolsAreTheOpenOnes` | src/acp-agent-driver.ts:549-559 | Over every run a tool call is outstanding if and only if some status opened it, or it was before, and since then no terminal status closed it and no turn began. |
| `TurnLiveness.HookedTurnIsTracked` | src/acp-agent-driver.ts:686-724 | Over every run, overlapping turns included, the hooked turn's silence window is armed if and only if no tool call is outstanding. |
| `TurnLiveness.LastCloseResumes` | src/acp-agent-driver.ts:708-715 | When the last outstanding tool call closes, the hooked turn has a fresh window of a full period. |
| `TurnLiveness.QuietTurnTimesOut` | src/acp-agent-driver.ts:694-707 | As long as no update of the session and no tool call arrives, a pending turn keeps the deadline of its window, and time does not pass it. |
| `TurnLiveness.SilenceIffNoToolCall` | src/acp-agent-driver.ts:686-724 | With one turn at a time that is every pending turn, and no hook or turn timer is left when none is pending. |
| `TurnLiveness.SilenceTimeoutMeansQuiet` | src/acp-agent-driver.ts:694-707 | When the hooked turn's window expires, whatever overlapped it, from any point within the preceding period on there was no update of the session and no outstanding tool call. |
| `TurnLiveness.ExitClears` | src/acp-agent-driver.ts:290-295 | The agent's exit leaves nothing pending, no timer and no hook, and settles only what was pending. |
| `TurnLiveness.DisplacedTurnIsFrozen` | src/acp-agent-driver.ts:722-723 | A turn another one displaced from the hooks is never renewed, suspended or resumed again. |
| `TurnLiveness.PendingTurnAccount` | src/acp-agent-driver.ts:722-736 | Every pending turn that was hooked still is, and tracked, or was displaced by the start of another turn, and its window stands as it did then: armed if and only if no tool call was outstanding at that moment. |
| `TurnLiveness.OverlapBreaksTracking` | src/acp-agent-driver.ts:676-678 | A second turn sent during a tool call leaves the first suspended with no tool call outstanding. |
| `TurnLiveness.AcpAgentDriver.BeginTurn` | src/acp-agent-driver.ts:672-736 | Clears the tool set, arms both timers and takes over the hooks: the turn step. |
| `TurnLiveness.AcpAgentDriver.BeginCall` | src/acp-agent-driver.ts:636-657 | Mints an id and arms one timer: the call step. |
| `TurnLiveness.AcpAgentDriver.ResolvePending` | src/acp-agent-driver.ts:481-493 | A response settles its own id and an unknown one nothing. |
| `TurnLiveness.AcpAgentDriver.Notify` | src/acp-agent-driver.ts:495-542 | The window is renewed before the tool call is tracked: the notification step. |
| `TurnLiveness.AcpAgentDriver.TrackTool` | src/acp-agent-driver.ts:549-559 | A terminal status takes the call out and any other puts it in, one without an id does nothing; only a change between empty and nonempty is reported to the turn, and the last call to close gives it a fresh window. |
| `TurnLiveness.AcpAgentDriver.AgentExits` | src/acp-agent-driver.ts:290-295 | The loop rejects everything pending, oldest first. |
| `Framing.ChunkingDoesNotMatter` | src/acp-agent-driver.ts:412-423 | For every chunking the lines handled are the trimmed non-empty newline-terminated lines of the whole, and the rest is buffered. |
| `Framing.HandlesTheLines` | src/acp-agent-driver.ts:412-423 | For every text made of lines and an unfinished rest, however chunked: the lines that are more than white space are handled in order, trimmed, and the rest waits. |
| `Framing.LineReader.PumpChunk` | src/acp-agent-driver.ts:416-422 | One chunk through the loop handles exactly those lines of the buffer and the chunk. |
| `AgentHost.ClientReceives` | src/agent-host.ts:214-227 | Until it leaves, a client has received its meta frame, the last min(n, 4000) lines in order, the marker, and every later line, with no gap or repeat. |
| `AgentHost.RunKeepsRing` | src/agent-host.ts:198-200 | The ring is always the last lines broadcast, at most 4000. |
| `AgentHost.BroadcastsTheLines` | src/agent-host.ts:274-290 | What is broadcast depends only on the process's text: its lines in order and one readiness frame before the line that brought it. |
| `AgentHost.ForwardsTheLines` | src/agent-host.ts:228-248 | Whatever else happens and however it is chunked, what is forwarded for a client is the lines it wrote, in order, without those that ask for a shutdown. |
| `AgentHost.DataObeyed` | src/agent-host.ts:228-248 | Each complete line of a chunk goes to the process or kills it if it asks for that; nothing is broadcast. |
| `AgentHost.ExitIsTold` | src/agent-host.ts:306-308 | The exit is recorded and told to everyone connected in one frame with the code. |
| `AgentHost.LeftIsGone` | src/agent-host.ts:249-251 | A client that left stays away until it connects again. |
| `AgentHost.DetachedHost.OnOutput` | src/agent-host.ts:274-290 | The loop over one chunk is the output step. |
| `AgentHost.DetachedHost.OnConnect` | src/agent-host.ts:214-227 | Meta, ring and marker are written in this order: the connect step. |
| `AgentHost.DetachedHost.OnData` | src/agent-host.ts:228-251 | A client's complete lines are forwarded except shutdown requests, which kill. |
| `Convergence.RunToConvergence` | src/convergence.ts:98-108 | The loop ends in a terminal decision after one cycle or while spent plus the earlier cycles is below the cap. |
| `Convergence.CyclesWithinBudget` | src/convergence.ts:57-108 | At most max(1, cap - spent) cycles, rounded up. |
| `Convergence.LoopOutcome` | src/convergence.ts:57-108 | The whole outcome from the readings: if n is the first cycle that does not go on, the loop takes n + 1 cycles and escalates if that one fails anew or is below the floor, converges if its gap is within epsilon, and is out of budget otherwise. |
| `Convergence.LoopHasOutcome` | src/convergence.ts:57-108 | There is such a cycle within the budget. |
| `Convergence.FailuresDescend` | src/convergence-ratchet.ts:19-24 | Each cycle that is no regression fails only where every earlier cycle failed, the baseline included. |
| `Convergence.ConvergedMeans` | src/convergence.ts:57-93 | Converged implies the gap within epsilon, confidence not below the floor, and no failure outside the baseline. |
| `Convergence.CycleAt` | src/convergence.ts:98-108 | Each cycle runs on the state and failures of the one before, and all but the last decide to continue. |
| `Convergence.OnceRefinesLoop` | src/convergence-run.ts:432-483 | With a floor above -1, one iteration per process through the files returns exactly the states of the in-process loop. |
| `Convergence.OnceFromScratch` | src/convergence-run.ts:432-483 | In particular from an empty directory. |
| `Convergence.LoopsAgreeIff` | src/convergence-run.ts:317-325 | From an empty directory the two loops agree for every suite if and only if the floor is above -1 or the budget allows only one turn. |
| `Convergence.ArmedIffContinue` | src/convergence-run.ts:464-482 | After each process the sentinel is armed exactly when the decision is to continue, and a terminal one leaves no failure set. |
| `Convergence.HandsOnFailures` | src/convergence-run.ts:464-470 | A process that goes on hands on its failures, or the last ones really found when its suite never ran. |
| `Convergence.CorruptSidecarStaysIff` | src/convergence-run.ts:448-462 | A corrupt sidecar never continues; the file stays if and only if the oracle was not yet terminal, and then the result is an escalation. |
| `Convergence.CorruptSidecarIsGoneNextTime` | src/convergence-run.ts:450-454 | The process after that one removes it and returns the same state. |
| `Convergence.NeverRanEscalatesIff` | src/convergence-run.ts:317-325 | A suite that never ran escalates an open gap within budget if and only if the floor is above -1. |
| `Convergence.NeverRanIff` | src/convergence-run.ts:299-353 | A turn counts as one whose suite never ran if and only if open concerns have criteria and the suite could not be started or ended nonzero without a sign of any test. |
| `Convergence.UnrunSuiteEscalates` | src/convergence-run.ts:314-325 | With a floor above -1 such a turn ends in a proposal to the operator, and hands back the failures carried in. |
| `Convergence.TurnConvergesIff` | src/convergence-run.ts:299-325 | A turn converges if and only if nothing is open and the floor is at most 1, or its concerns without criteria are within the tolerance under a floor of at most 0, or its suite showed something, with nothing new, enough confidence and its unmet criteria within the tolerance. |
| `Convergence.CleanRunsRatchetIff` | src/land.ts:563-590 | Between two runs without failure lines the ratchet allows the second if and only if both outputs have one identity. |
| `Convergence.TaggedRunsRatchetIff` | src/land.ts:563-590 | With failure lines in both outputs the second is allowed if and only if every failure it names has one of the same identity in the first. |
| `Convergence.ClosedPlanConverges` | src/convergence-run.ts:299-306 | With no open concern the turn converges whatever the suite does. |
| `Convergence.OnceLoop.RunOnceIteration` | src/convergence-run.ts:432-483 | One process over the files is the process step. |
| `Convergence.OnceLoop.ReadFailures` | src/convergence-oracle.ts:136-154 | A missing sidecar is the baseline and a corrupt one is told apart from it. |
| `OrphanReaper.DistinctiveToken` | src/acp-orphan-reaper.ts:43-49 | Returns the last distinctive argument, and nothing only if there is none. |
| `OrphanReaper.VerifiedIff` | src/acp-orphan-reaper.ts:43-72 | A root is taken for the process it was if and only if a live process has its pid and a command line that contains the last argument of six characters or more that is no option. |
| `OrphanReaper.PlanReap` | src/acp-orphan-reaper.ts:66-85 | The kill list is exactly the root and its transitive children, each once and before its parent, the root last, and empty if and only if the root cannot be verified. |
| `OrphanReaper.ChildrenFirstMeans` | src/acp-orphan-reaper.ts:78-83 | The order used rules out repetitions and puts every child before its parent. |
| `OrphanReaper.SubtreeHolds` | src/acp-orphan-reaper.ts:78-83 | The walk below a process visits exactly what it leads to. |
| `OrphanReaper.SubtreeOrdered` | src/acp-orphan-reaper.ts:78-83 | The walk lists no process before one it leads to. |
| `OrphanReaper.ReapChain` | src/acp-orphan-reaper.ts:125-175 | The first round reaches exactly what is below a verified root of this user, the second exactly what is below a root the later table verifies again, both children first; without a first signal there is no second round, and once the root is gone nothing is killed. |
| `AgentScope.ScopeFor` | src/agent-scope.ts:9-48 | A human sees the roster, an unknown agent nothing, and an agent exactly itself, its feature, its ancestors and its descendants. |
| `AgentScope.Descendants` | src/agent-scope.ts:35-45 | The change-until-stable loop ends at the least set that holds the agent and is closed under children, which is everyone it leads to. |
| `AgentScope.Ancestors` | src/agent-scope.ts:22-27 | The walk up collects exactly the listed agents that lead to this one. |
| `AgentScope.SiblingsStayApart` | src/agent-scope.ts:29-34 | Two agents with one parent are in each other's scope if and only if a feature joins them. |
| `AgentScope.ScopeIsMutual` | src/agent-scope.ts:9-48 | One agent is in the scope of another if and only if the other is in its scope. |
| `Attention.ViewLeavesStamp` | src/attention.ts:329-369 | Over every run, whatever else is reported, a view whose fields hold no NUL answered ok at t leaves, for good, a stamp for file and viewer later than t - 30000, coalesced or not. |
| `Attention.AlwaysStampedIff` | src/attention.ts:333-340 | With a repository and a viewer free of NUL: every such view answered ok, in every run from an empty store, leaves its stamp if and only if neither its file nor its agent holds a NUL. |
| `Attention.OkViewWithoutStamp` | src/attention.ts:333-340 | For instance: a report on another file has the same joined text, the view a second later is answered ok, and its file has no entry. |
| `Attention.CleanKeyIsUnique` | src/attention.ts:333 | A report without NUL shares its joined text with no other report. |
| `Attention.DirtyKeyIsShared` | src/attention.ts:333 | A report with a NUL in its file or agent shares its joined text with one on another file of the same repository and viewer. |
| `Attention.StoredKeyIsPair` | src/attention.ts:87-89 | The stored key stands for the pair of repository and file as long as the repository holds no NUL. |
| `Attention.RunKeepsInv` | src/attention.ts:361-369 | No stamp ever moves backward, and a file's stamp bounds every viewer's. |
| `Attention.MapsFollowLog` | src/attention.ts:329-369 | Over every run from an empty store the log of recorded events decides the maps: stamps are those of the latest logged views, by anyone and by each viewer, and the surprise count is that of the taps since the last genuine view. |
| `Attention.AnsweredIff` | src/attention.ts:329-341 | A report is coalesced if and only if it is neither switched off nor over the limit and one with the same joined text was logged less than 30 seconds before; only a recorded one extends the log. |
| `Attention.MergeOrderFree` | src/attention.ts:361-369 | The order in which two views arrive does not change what is stored. |
| `Attention.MinuteRateIsBounded` | src/attention.ts:247-257 | With a clock that never runs backward a caller is allowed at most its limit in a minute, and at least one call. |
| `Attention.MinuteRateIsExact` | src/attention.ts:247-257 | Of n calls of one caller in a minute exactly min(n, limit) are allowed, and at least the first; callers without a name share one bucket. |
| `Attention.VisitIsPerViewer` | src/attention.ts:500-541 | A visit counts for its viewer and the unit and is never read as another viewer's. |
| `Attention.CompletionOrderFree` | src/attention.ts:553-558 | Completion stamps may come in any order; the latest stands. |
| `Attention.AttentionStore.MarkUnitVisited` | src/attention.ts:500-508 | One visit is one merge of the unit's entry. |
| `Attention.AttentionStore.RecordCompletion` | src/attention.ts:553-558 | A stamp that is not later changes nothing. |
| `Attention.AttentionStore.RecordEvent` | src/attention.ts:329-357 | Switch, rate limit, coalescing by the joined text, merge, reset and increment in this order: the record step and its answer. |
| `Attention.AttentionStore.MinuteRateAllowed` | src/attention.ts:247-257 | The bucket of the minute and whether the call is within the limit. |
| `Fog.ComputeFog` | src/comprehension-fog.ts:101-160 | The list has exactly the files some completed, admitted run changed; each entry counts the runs since the last view, each once, with the latest change, the debt and the state. |
| `Fog.EntryMeans` | src/comprehension-fog.ts:122-155 | An entry is never-seen if no view is stored in an allowed repository, current if every completed change ended by then, stale otherwise; it counts each later receipt once, and its debt is the logarithm of that count and eight per surprise, up to 1. |
| `Fog.MoreReceiptsMoreDebt` | src/comprehension-fog.ts:122-155 | Receipts added anywhere never lower a count or a debt. |
| `Fog.OutsideNeverMatters` | src/comprehension-fog.ts:72-75 | Two inputs that agree inside the allowed repositories have the same result. |
| `Fog.RestrictedReadSuffices` | src/attention.ts:455-465 | Reading the store restricted or whole makes no difference to the list. |
| `Fog.DebtRange` | src/comprehension-fog.ts:135-141 | Debt is between 0 and 1, 0 exactly without changes or surprises, and saturates at 63. |
| `Fog.DebtFreeIff` | src/comprehension-fog.ts:122-141 | Debt is 0 if and only if no completed change ended after the stored view and no surprise stands. |
| `Fog.ViewClearsDebt` | src/attention.ts:342-348 | A recorded diff or review view at or after every change takes count and debt to zero, surprises included. |
| `Fog.CoalescedViewClearsIff` | src/attention.ts:336-340 | A coalesced view leaves the file free of debt only if it already was. |
| `Fog.SurpriseOutlivesCoalescedView` | src/attention.ts:336-348 | View, surprise, and a second view within the window leave a changed file in the list with positive debt, although it shows no change since the view. |
| `TokenBucket.TapsAreBounded` | src/authz.ts:229-243 | Between two times a source is allowed at most ten taps and one for every six seconds. |
| `TokenBucket.TapAllowedIff` | src/authz.ts:229-243 | The bound is exact: after any taps a tap is allowed if and only if no interval up to it, itself included, gets more than ten taps and one for every six seconds, so refused taps cost nothing. |
| `TokenBucket.SpacedTapAllowed` | src/authz.ts:229-243 | A tap six seconds after the source's last one is allowed. |
| `TokenBucket.TokensInRange` | src/authz.ts:235-242 | Tokens stay between 0 and 10. |
| `TokenBucket.SourcesAreIndependent` | src/authz.ts:229-243 | A source is treated as if the others' taps had not happened. |
| `TokenBucket.PushTapLimiter.AllowPushTap` | src/authz.ts:229-243 | One call is one tap of the specification, answer and bucket alike. |

## Left out

- Git, the file system, sockets, processes and subprocesses are inputs: each operation takes the outcome of
  the calls it makes. `git apply` checks everything before it writes anything, a fingerprint is an injective
  digest of the tree, a diff is empty exactly when the trees are equal, and a single path reads as what it
  holds, not as unreadable for want of a file descriptor.
- JSON text: the ledger line format is any encoding without a newline that reads back behind white space and
  behind nothing else, and whose proper prefixes do not decode; a protocol frame is told apart by a given
  predicate.
- Character decoding: streams arrive as text; the host's reading of client data decodes each chunk by itself,
  so a character split between chunks is not modelled, nor is the final decoding of an unquoted path.
- A failed write of a patch body leaves no body; a partial body is not modelled.
- HeldStore.RunKeepsInv: does not cover sweeps of an unreadable ledger, which `HeldStore.UnreadableSweepIsSafeIff`
  treats by themselves, nor appends glued to an unfinished event, which break it (`HeldStore.CleanIff`).
- ChainOnDisk.JointRunIsChainRun: follows one session of one daemon among the others, without a rekey to it and
  without a boot sweep; a restart begins a new chain, which `HeldReattach` and `HeldStore` cover on the side of
  the files.
- TurnChain.RunConserves: starts the chain at the first captured turn and needs turn ends that keep track; what
  holds without that is in `TurnChain.CapturedTurnsChain` and `TurnChain.CapturedIsCarried`.
- DiffBlocks.OneBlockExactIff: speaks of blocks that rename nothing; the daemon's own patches never request
  rename detection.
- TurnLiveness.SettledByHardCap: timers fire exactly at their deadlines and writes to the agent's input do
  not throw; permission requests and cancellation are not modelled.
- AgentHost.ClientReceives: a write to a client's socket is delivered whole.
- Convergence.OnceRefinesLoop: leaves out timestamps, a crash between two file writes, and the goal named by
  a later process, which the code ignores once an oracle exists.
- OrphanReaper.PlanReap: takes unique pids and acyclic parents as given.
- AgentScope.ScopeFor: takes unique ids and acyclic parents as given.
- Attention.RunKeepsInv: keys of the stored maps are pairs, which stand for the joined text of a normalized
  repository and a file because a path holds no NUL (`Attention.StoredKeyIsPair`).
- Fog.ViewClearsDebt: asks that normalizing the repository path twice changes nothing, which the filter on
  stored keys relies on; the order of the list and the shortlist are not modelled.
- TokenBucket.TapsAreBounded: real arithmetic in place of floating point.
- Debounced writing, loading and pruning of the attention maps, and the raw event log's rotation.
- `now` as an input of the debt computation: the code takes it and never reads it, and the model has none.
- Autonomy tiers, permission maps, configuration, profiles, archives, the command line, the web and terminal
  surfaces, and language-model planning and validation.
