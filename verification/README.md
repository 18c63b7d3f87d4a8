# Cells, handoffs and the quadtree: a verified model

A game world is divided into cells, each run by a server of its own. Cells split
into four quadrants and merge back; players are handed over between cells by
prepare, accept, finalize; non-player entities are saved, copied and loaded;
clients follow the world through snapshots and deltas. This project models those
parts of the repository in Dafny and proves what they promise, over every input,
every run and every reachable state.

Code that changes state step by step is modelled by classes and loops
(`World`, `Server`, `Memory`, `Registry`, `SpatialGrid`, `Subscriber`,
`TriggerSystem`, `LoadPolicyRuntime`, `Session`). Each method is proved equal to
a function on values, or to a stated property, and the theorems are about those.
Map iteration is an arbitrary order everywhere, so no result depends on it.

| files | what they hold |
|---|---|
| `text` | results, options, trimming |
| `world`, `systems` | the entity store, movement and regeneration |
| `cell`, `cell_invariant`, `cell_server` | one cell server: its calls, its invariant, the handlers |
| `world_laws`, `cell_effects` | what the calls and steps do to every entity, and what they answer |
| `protocol`, `protocol_weakest` | the bare handoff protocol: exact guards, and why the conditions they keep are the weakest |
| `cluster`, `protocol_limits` | its refinement by any number of servers, and runs of the servers that break each guard |
| `handoff`, `retry_cells`, `retry` | the three-step driver; stalling and retrying drivers while both cells go on |
| `persist` | saving, loading and merging non-player entities |
| `merge_players`, `merge` | moving everybody during a merge; the merge call |
| `cell_path`, `geometry`, `siblings` | ids, boxes, planning and recognising four children |
| `catalog`, `merge_probe`, `split_probe` | the catalogue and the checks after a merge and a split |
| `grid`, `replication`, `whole_world`, `subscription`, `subscription_run` | the area-of-interest index and the delta streams with and without it |
| `load_policy`, `gateway_retry`, `trigger`, `collision` | control loops and simulation systems |

## Assumptions

- A remote call is one atomic step, with one reading of a clock that is positive
  and never goes back. Inside `server.go` the lock is released between sections,
  so two joins of one player, or another player's Prepare between two sections
  of a Prepare, can interleave below this level.
- A token belongs to one handover: one player, one source, one target. Drivers may
  stop, stall between any two calls and repeat any call; calls of different drivers
  interleave freely. Only in `MergePlayers` and `Merge` does each drive run without a stall.
- Ids and coordinates are unbounded integers and reals, except entity ids, which
  wrap at 2^64 explicitly; results that need room for another id say so.

## What the code does that its promises do not say

Each of these is a theorem here.

- Losing a player needs more care to exclude than "no Accept into a cell with an
  unfinished record of that player". Preparing a pruned token afresh after its
  target took over loses the player (`ProtocolLimits.PrepareClauseNeeded`), and so
  does answering "already joined" at a source that has handed the player over
  (`ProtocolLimits.JoinClauseNeeded`). `Cluster.NoPlayerIsLost` gives the exact guard.
  A Leave ends the guarantee for a player only at the last server that answers for
  them: one at a server that never held them, that only probed for them or that has
  handed them over leaves it standing.
- Leaving and rejoining during a handoff, then a late Accept, makes a player
  active in two cells (`ProtocolLimits.LateAcceptActsTwice`); a Prepare of anybody
  that prunes a handoff whose target already has the player does so too
  (`ProtocolLimits.StalePrepareActsTwice`). `Cluster.OneCellAcceptsInput` gives the exact guard.
- What a handoff delivers is the player as the Prepare that answered its driver
  found them (`Retry.ArrivesAsPrepared`), however long the driver stalls after that:
  a later, fresh Prepare under the same token does not change it
  (`Retry.StalledDriverDeliversOld`). A driver that asks more than five seconds after
  the last Prepare is answered afresh: whoever was moving and has been frozen since
  is then found at rest (`Retry.RetryKeepsMomentum` gives the exact condition).
- A stalled driver's Finalize is refused, and the player stays in both cells, exactly
  when the record was pruned meanwhile and not opened again (`Retry.StalledDriveCompletes`,
  `Retry.RecordSurvives`). A further drive then still completes, unless another
  handoff of the player is live at the source (`Retry.RetryCompletes`).
- A merge that stopped after the first player moved cannot be run again until the
  parent is empty: its guard refuses a parent with players
  (`Merge.Registry.ForwardMergeHandoff`).
- A merge sets the parent's tick to 0 (`Merge.MergeResetsTick`), and the last child in
  quadrant order wins when ids collide (`Persist.MergedImport`).
- A save with the last 64-bit id resets the id counter, so that ids in use are
  given out again (`Persist.LastIdResetsCounter`), unless a later record brings it
  back up (`Persist.RestoreKeepsFreshIds` gives the exact condition).
- The four look-ups after a merge can pass while descendants of the parent are
  still registered (`MergeProbe.OrphanEscapesProbes`): they see a child, a
  grandchild, and what lies in the inward corner of a grandchild, and nothing else
  (`MergeProbe.ProbesAreExact`). Below a parent whose descendants have all their
  ancestors registered that is enough (`MergeProbe.FourProbesSuffice`).
- A subscriber without an area of interest is never told that an entity has gone:
  its client keeps everybody it was ever shown (`WholeWorld.DepartedStays`), so its
  view is right exactly while none of them has gone (`WholeWorld.WholeViewExactly`).
- The gateway's key for a pair of cells tells pairs apart only for ids without
  an arrow (`GatewayRetry.KeyTellsPairs`, `GatewayRetry.ArrowsMeet`); path ids have none.
- The gateway's pause does not grow in use: an attempt is allowed only when the
  pause is over, and a failure after the pause starts counting anew
  (`GatewayRetry.PauseNeverGrows`).

## Model

| member | source | states |
|---|---|---|
| Cluster.NoPlayerIsLost | internal/grpc/cellsvc/server.go:270-490 | over any number of cells and drivers, each stopping or stalling anywhere, while entity ids last: no call of a run, a Leave at the player's last answering server apart, makes it possible that the Finalizes drivers may still send leave a player registered in no server, if and only if every call is safe; then whoever joined and has not left that last server since is registered in one that has not handed them over, whatever Leaves reached other servers |
| Cluster.OneCellAcceptsInput | internal/grpc/cellsvc/server.go:242-254 | at no point of a run can waiting and other players' handoffs, none of which forgets a takeover of the player, let a player act in two servers, if and only if every call meets the exclusive guard; then at most one server has the player registered and unfrozen |
| Cluster.LosableExactly | internal/grpc/cellsvc/server.go:440-490 | in any reachable system some order of the pending Finalizes leaves the player registered in no server exactly when no cell answers for them |
| Cluster.MayActTwiceExactly | internal/grpc/cellsvc/server.go:57-73 | such patient calls can let the player act in two servers exactly when two cells answer for them |
| Cluster.RunRefines | internal/grpc/cellsvc/server.go:117-490 | whatever the callers do, while entity ids last, every reachable system satisfies the invariant of every cell and shows a run of the bare protocol |
| Cluster.StepRefines | internal/grpc/cellsvc/server.go:117-490 | each single call of the full servers (worlds, five tables, payloads) is exactly its step in the bare protocol and keeps the invariant |
| Cluster.RepeatedFinalizeRemovesNobody | internal/grpc/cellsvc/server.go:464-489 | a Finalize of a finished handoff repeated after any further run removes nobody from any cell, unless the token was prepared afresh after its record was lost |
| Cluster.JoinRefines | internal/grpc/cellsvc/server.go:117-170 | Join registers exactly the named player, and says so exactly when the player is registered already or the cell is not draining |
| Cluster.LeaveRefines | internal/grpc/cellsvc/server.go:172-223 | Leave removes the player and exactly that player's handoff records |
| Cluster.PrepareRefines | internal/grpc/cellsvc/server.go:270-369 | Prepare prunes expired records, then opens one for a registered player without another open handoff, or repeats a known token; it succeeds exactly then |
| Cluster.AcceptRefines | internal/grpc/cellsvc/server.go:371-438 | Accept registers the player once per token and always succeeds |
| Cluster.FinalizeRefines | internal/grpc/cellsvc/server.go:440-490 | Finalize removes the player exactly when the token's record is open and theirs, and closes it |
| Cluster.PruneRefines | internal/grpc/cellsvc/server.go:57-73 | pruning drops exactly the open records older than the limit |
| Cluster.FrozenIsInFlight | internal/grpc/cellsvc/server.go:250-254 | a player is frozen exactly while an open record of theirs exists |
| Cluster.ImportKeeps | internal/grpc/cellsvc/server.go:589-611 | an import keeps the invariant of the cell and its players |
| Protocol.StepLosesNobody | internal/grpc/registrysvc/forward_player.go:82-150 | the guard is exact, for every player and without history: a call other than a Leave at the last cell that answers takes nobody's last answering cell away, and a joining player gets one, if and only if it is safe, that is: no already-joined answer by a cell that handed the player over, no fresh record under a token whose target took over, and no arrival at a target that handed the player over itself, unless another cell answers |
| Protocol.AnswersAfter | internal/grpc/cellsvc/server.go:270-490 | which cells answer for which players after any call, told exactly from the state before it |
| Protocol.StepActivatesOnce | internal/grpc/registrysvc/forward_player.go:82-150 | the guard is exact: a call leaves every player with at most one answering cell if and only if it adds no second one: by entering, by pruning the record of a finished takeover, or by an arrival while a cell answers that does not hold this token open |
| Protocol.RunLosesNobody | internal/grpc/registrysvc/forward_player.go:82-150 | over a whole run no call takes a last answering cell away, a Leave there apart, if and only if every call is safe; then whoever joined and has not left their last answering cell is answered for |
| Protocol.RunActivatesOnce | internal/grpc/registrysvc/forward_player.go:82-150 | over a whole run no player ever has two answering cells if and only if every call meets the exclusive guard |
| Protocol.CarefulIsSafe | internal/grpc/registrysvc/forward_player.go:82-150 | a plainer guard on the called cell alone implies the exact one |
| Protocol.ExclusiveIsSole | internal/grpc/registrysvc/forward_player.go:82-150 | so does its exclusive counterpart while at most one cell answers |
| ProtocolWeakest.AnsweredIsWeakest | internal/grpc/cellsvc/server.go:440-490 | being answered for is the weakest safe condition: a player has an answering cell if and only if every order of the pending Finalizes leaves them registered somewhere |
| ProtocolWeakest.AnswersOnceIsWeakest | internal/grpc/cellsvc/server.go:57-73 | answering once is the weakest exclusive condition: at most one cell answers if and only if no waiting and no other players' handoffs, none of which forgets a takeover of this one, lets the player act in two cells |
| Protocol.StepKeepsInv | internal/grpc/cellsvc/server.go:270-490 | every step keeps: records and arrivals belong to known drives, an open record's player is registered, no player has two open records |
| Protocol.FinalizeOnlyOnce | internal/grpc/cellsvc/server.go:464-489 | over any run without preparing the lost token afresh a closed handoff stays closed and Finalize changes nothing |
| ProtocolLimits.JoinClauseNeeded | internal/grpc/cellsvc/server.go:131-140 | a run that keeps even the plainer guard in every call but its Joins, and loses a player who was told already_joined at a source that had handed them over |
| ProtocolLimits.AcceptClauseNeeded | internal/grpc/cellsvc/server.go:476-480 | the same with Accepts: a run that loses a player accepted where an unfinished record of theirs is still open |
| ProtocolLimits.PrepareClauseNeeded | internal/grpc/cellsvc/server.go:294-301 | the same with Prepares: a run that loses a player by preparing a pruned token afresh after its target took over |
| ProtocolLimits.SecondJoinActsTwice | internal/grpc/cellsvc/server.go:117-170 | a run that keeps even the plainer guards in every call but its Joins, and lets a player act in two cells |
| ProtocolLimits.StalePrepareActsTwice | internal/grpc/cellsvc/server.go:57-73 | the same with Prepares: pruning unfreezes the source of a stalled handoff whose target already has the player |
| ProtocolLimits.LateAcceptActsTwice | internal/grpc/cellsvc/server.go:391-437 | the same with Accepts: leave, rejoin, then a late Accept gives two active copies |
| ProtocolLimits.ServersFollow | internal/grpc/cellsvc/server.go:117-490 | two empty servers follow any such run exactly, so each of the six runs above is one of the real servers |
| CellInvariant.JoinKeeps | internal/grpc/cellsvc/server.go:117-170 | Join keeps the cell invariant while an id is left; on success the player is registered |
| CellInvariant.LeaveKeeps | internal/grpc/cellsvc/server.go:172-223 | Leave keeps the invariant; the player is neither registered nor frozen |
| CellInvariant.InputKeeps | internal/grpc/cellsvc/server.go:225-268 | input keeps the invariant, is accepted exactly for a registered unfrozen player, and never finds the entity gone |
| CellInvariant.PruneKeeps | internal/grpc/cellsvc/server.go:57-73 | pruning keeps the invariant, touches neither players nor world, and keeps every finished or young record |
| CellInvariant.PrepareKeeps | internal/grpc/cellsvc/server.go:270-369 | Prepare keeps the invariant, never finds the entity gone, succeeds exactly for a known token or a registered player with no live handoff, and then carries a payload |
| CellInvariant.AcceptKeeps | internal/grpc/cellsvc/server.go:371-438 | Accept keeps the invariant while an id is left and names a non-zero entity |
| CellInvariant.FinalizeKeeps | internal/grpc/cellsvc/server.go:440-490 | Finalize keeps the invariant; an unknown token changes nothing; a finalized player was registered and frozen |
| CellInvariant.TickKeeps | internal/ecs/movement.go:6-13 | a simulation step keeps the invariant |
| CellInvariant.FrozenIsRegistered | internal/grpc/cellsvc/server.go:36-46 | a frozen player is registered and has an open record under their active token |
| CellServer.Server.Join | internal/grpc/cellsvc/server.go:117-170 | the handler has exactly the effect and answer of the specification on the trimmed id |
| CellServer.Server.Leave | internal/grpc/cellsvc/server.go:172-223 | the same for Leave, whose record clean-up is a loop; the entity of a registered player is then nowhere in the world and nothing about another changes, and anybody else's Leave changes no world |
| CellServer.Server.ApplyInput | internal/grpc/cellsvc/server.go:225-268 | the same for input; when accepted the player's entity has exactly this velocity and nothing about another changes, when refused nothing changes |
| CellServer.Server.PruneStalePrepared | internal/grpc/cellsvc/server.go:57-73 | the pruning loop, in any order of the map, drops exactly the stale players, their freezes and their records |
| CellServer.Server.PreparePlayerHandoff | internal/grpc/cellsvc/server.go:270-369 | the same for Prepare, all branches |
| CellServer.Server.AcceptPlayerHandoff | internal/grpc/cellsvc/server.go:371-438 | the same for Accept |
| CellServer.Server.FinalizePlayerHandoff | internal/grpc/cellsvc/server.go:440-490 | the same for Finalize |
| CellServer.Server.ImportNpcs | internal/grpc/cellsvc/server.go:589-611 | import is refused while players are registered, else replaces world and loop by the decoded save |
| CellServer.Server.ExportNpcs | internal/grpc/cellsvc/server.go:570-588 | the export saves the positioned non-player entities; one with the wrapped id 0 gets a record that loads as nothing |
| CellServer.Server.MigrationPlayers | internal/grpc/cellsvc/server.go:657-685 | under the invariant the candidates that are players are exactly the registered players, each once |
| CellServer.MigrationPlayersOf | internal/grpc/cellsvc/server.go:657-685 | the walk over the living, positioned entities with a search for the owner of each: in a consistent cell exactly the registered players, each once |
| CellServer.PlayerIDByEntity | internal/grpc/cellsvc/server.go:105-114 | finds the player whose entity it is, or nobody |
| CellServer.Server.Step | internal/ecs/loop.go:44-57 | one loop step: movement, regeneration, tick count |
| Systems.Movement | internal/ecs/movement.go:6-13 | every living entity with position and velocity is moved and marked, in any order, and nothing else |
| Systems.HealthRegen | internal/ecs/health_regen.go:8-22 | every living hurt entity is healed up to its maximum and marked, and nothing else |
| CellEffects.JoinSpawns | internal/grpc/cellsvc/server.go:142-169 | whoever joins anew stands at the origin, still and at 100 of 100 health, as a new marked entity that the reply names; every other entity, component and mark and every other table stay, so the saved non-player entities are the same |
| CellEffects.JoinAnswers | internal/grpc/cellsvc/server.go:117-169 | the other answers change nothing; an already joined player is told the registered entity |
| CellEffects.LeaveTakesEntity | internal/grpc/cellsvc/server.go:172-222 | a registered player's Leave takes their entity out of the living, every component map and the marks; nothing about anybody else and not the id counter changes, and the non-player entities are the same before and after, so nobody is left behind without an owner |
| CellEffects.LeaveForgets | internal/grpc/cellsvc/server.go:189-210 | Leave drops exactly the records of the player, open or finalized, and their freeze; accepted tokens stay known |
| CellEffects.LeaveOfStrangers | internal/grpc/cellsvc/server.go:176-215 | anybody else's Leave changes neither world nor registrations, and is affirmative exactly if it names somebody |
| CellEffects.JoinThenLeave | internal/grpc/cellsvc/server.go:117-222 | a probing Join followed by a Leave gives back the very world there was, but for one used id, provided nothing is left over under that id |
| CellEffects.InputSteers | internal/grpc/cellsvc/server.go:225-268 | an accepted input gives the player's entity exactly the velocity sent and changes nothing else in the cell; a refused one changes nothing and says which of the refusals it is |
| CellEffects.StepEffect | internal/ecs/loop.go:44-57 | one step: the tick count grows by one and the rate stays; exactly the living movers travel, by velocity over rate in each coordinate, exactly the living hurt gain 2 points per second up to their maximum, both are marked, and nothing else changes |
| CellEffects.StepsMove | internal/ecs/movement.go:6-13 | over any number n of steps a mover goes n periods' worth of its velocity in each coordinate and keeps it |
| CellEffects.InputMovesPlayer | internal/grpc/cellsvc/server.go:242-263 | so n steps after an accepted input the player is n/rate times that velocity from where they were |
| CellEffects.PruneAfterFiveSeconds | internal/grpc/cellsvc/server.go:57-73 | a handoff prepared exactly five seconds ago still stands, one a nanosecond older is pruned |
| CellEffects.PayloadSays | internal/grpc/cellsvc/server.go:313-357 | a fresh Prepare carries the player as the world's maps have them: position, velocity, health if its maximum is positive and 100 of 100 otherwise, tick, token, both cells; it changes one velocity, to zero, and no other entity |
| CellEffects.PrepareOpens | internal/grpc/cellsvc/server.go:270-369 | and apart from pruning it freezes this player under this token, keeps the payload it answered, and touches no other table |
| CellEffects.PrepareAnswers | internal/grpc/cellsvc/server.go:270-369 | which of the answers a Prepare gets, told from the tables after pruning |
| CellEffects.AcceptArrives | internal/grpc/cellsvc/server.go:391-437 | a first Accept puts the player's own entity, or a new one, at the payload's position with its velocity; a maximum that is not positive becomes 100, a health that is not positive becomes the maximum; no other entity changes |
| CellEffects.AcceptRegisters | internal/grpc/cellsvc/server.go:425-437 | it registers the player under that entity, remembers the token, and touches no other table |
| CellEffects.AcceptAnswers | internal/grpc/cellsvc/server.go:371-437 | the other answers change nothing; a known token is told the entity it was accepted with |
| CellEffects.FinalizeTakesEntity | internal/grpc/cellsvc/server.go:464-489 | finalizing takes the entity away as completely as leaving does and leaves all others, marks and counter included |
| CellEffects.FinalizeCloses | internal/grpc/cellsvc/server.go:464-482 | it marks this record finalized and no other, unfreezes and unregisters this player and no other |
| CellEffects.FinalizeAnswers | internal/grpc/cellsvc/server.go:440-475 | which of the answers a Finalize gets; every other than a first success leaves world and registrations alone |
| WorldLaws.DestroyTakesExactly | internal/ecs/world.go:40-49 | a destroyed entity is nowhere in the world; no component or mark of another changes |
| WorldLaws.RestoreWritesOne | internal/ecs/world.go:218-230 | a restored entity has exactly the saved components, keeps its mark as it was, and no other entity changes |
| WorldLaws.MovementTravels | internal/ecs/movement.go:6-13 | each coordinate of exactly the living movers grows by that of the velocity times the period; nothing but positions and marks changes |
| WorldLaws.RegenerationHeals | internal/ecs/health_regen.go:8-22 | exactly the living below their maximum gain rate times period, cut at the maximum; nothing but healths and marks changes |
| Ecs.CreateIsFresh | internal/ecs/world.go:32-37 | the next id is new and non-zero, and ids stay below the counter, exactly when the 64-bit counter does not wrap |
| Ecs.RestoreKeepsIds | internal/ecs/world.go:218-230 | restoring an explicit id keeps ids below the counter exactly when the id is positive and not the last |
| Ecs.World.DestroyEntity | internal/ecs/world.go:40-49 | the entity, all its components and its mark go; nothing else changes |
| Ecs.World.TakeDirtyEntities | internal/ecs/world.go:146-156 | returns each marked entity once and clears the marks |
| Ecs.World.CreateEntity | internal/ecs/world.go:32-37 | adds exactly the next id to the living; with room left it is new |
| Ecs.World.SetPosition | internal/ecs/world.go:63-66 | sets exactly this position and marks the entity |
| Ecs.World.SetVelocity | internal/ecs/world.go:78-80 | sets exactly this velocity and marks nothing |
| Ecs.World.SetHealth | internal/ecs/world.go:91-94 | sets exactly this health and marks the entity |
| Ecs.World.RestorePersistEntity | internal/ecs/world.go:218-230 | restores exactly this entity without marking it and moves the counter past its id |
| Handoff.DriveMoves | internal/grpc/registrysvc/forward_player.go:82-150 | an undisturbed drive ends with the player only in the target, as one entity, at the position and with the velocity from before the freeze, and with the health if it was positive |
| Retry.RetryCompletes | internal/grpc/registrysvc/forward_player.go:82-150 | any number of drivers under one token may have called, stalled between their calls, stopped or repeated calls anywhere, with steps, inputs and calls of other players and drivers at both cells in between: the next drive that runs without a stall completes if and only if no other handoff of the player is live at the source by then, and leaves the player only in the target, as one entity, and everybody else where they were |
| Retry.StalledDriveCompletes | internal/grpc/registrysvc/forward_player.go:82-150 | with anything permitted between its three calls, a driver's Finalize is answered affirmatively if and only if no other handoff of the player was live at its Prepare and the token's record is at the source when the Finalize arrives; then the player is only in the target, otherwise that Finalize changes nothing |
| Retry.FinalizeKeepsMidway | internal/grpc/cellsvc/server.go:440-490 | a Finalize under the token, however late: with the record in place it is affirmative and the source lets the player go; if the record was pruned and not opened again it is refused, changes nothing, and the player stays registered in both cells |
| Retry.RecordSurvives | internal/grpc/cellsvc/server.go:57-73 | between the calls under the token, an open record is lost exactly by a complete Prepare of another handoff that comes more than five seconds after the record was opened |
| Retry.DriveIsItsCalls | internal/grpc/registrysvc/forward_player.go:82-150 | the driver's call on the registry, however far it gets, is these calls one after the other |
| Retry.ArrivesAsPrepared | internal/grpc/cellsvc/server.go:391-437 | however long a driver stalls before its Accept: if it is the first to be accepted, the target gets the position, velocity and positive health found by the Prepare that answered this driver, which was made at most five seconds before the driver asked; it is the last effective Prepare if and only if none was fresh in between |
| Retry.LateAcceptDelivers | internal/grpc/cellsvc/server.go:391-437 | a driver overtaken by another one's Prepare delivers what its own Prepare found; that is also what the last effective one found exactly if that came within five seconds or the player stood still |
| Retry.StalledDriverDeliversOld | internal/grpc/cellsvc/server.go:391-437 | a concrete run in which the arrival is not the player as the last effective Prepare found them |
| Retry.RetryKeepsMomentum | internal/grpc/cellsvc/server.go:294-335 | after a first driver has prepared, and until the target has the player, another driver under the token is answered from that same Prepare if and only if it asks within five seconds of it; while the record is still that one the player has not moved, and is found with the same velocity exactly if the five seconds have not passed or they stood still from the start |
| Retry.RunKeepsMidway | internal/grpc/registrysvc/forward_player.go:82-150 | all that time both cells satisfy their invariant, the player is registered at the source as the same entity until the handoff is finished and then gone from it, an accepted token names the player's entity at the target, the record is that of the last effective Prepare, and every driver carries what the Prepare that answered it found |
| RetryCells.CallSpares | internal/grpc/cellsvc/server.go:117-490 | a call of another player or driver at the source keeps the player's registration and the token's record, except that it may prune an open record past its time, and never moves a player frozen by it |
| RetryCells.CallSparesTarget | internal/grpc/cellsvc/server.go:117-490 | such a call at the target keeps the player's registration there and the answer to the token |
| Handoff.AcceptRepeats | internal/grpc/cellsvc/server.go:391-404 | a repeated Accept changes nothing and names the same entity |
| Handoff.FinalizeRepeats | internal/grpc/cellsvc/server.go:464-475 | a repeated Finalize changes nothing, whoever is registered by then |
| Handoff.PreparedStandsStill | internal/grpc/cellsvc/server.go:322-335 | Prepare leaves the player standing still where they were |
| RetryCells.FrozenStaysPut | internal/grpc/cellsvc/server.go:242-262 | while frozen, no number of steps, inputs, and joins, leaves, arrivals and handoffs of other players within the limit moves the player or touches the record |
| MergePlayers.MergeKeepsPlayers | internal/grpc/registrysvc/forward_merge.go:180-226 | after every handoff of the loop, however far each gets, the players of parent and children together are the same, no child gains one, the parent loses none, and no other cell changes |
| MergePlayers.MergeEmptiesChildren | internal/grpc/registrysvc/forward_merge.go:180-226 | if all handoffs complete, the parent holds exactly all the players and the children none |
| MergePlayers.MergeCompletes | internal/grpc/registrysvc/forward_merge.go:180-226 | uninterrupted, all complete exactly when no listed player is in the middle of another live handoff when their turn comes |
| MergePlayers.HandoffCompletes | internal/grpc/registrysvc/forward_player.go:82-150 | one uninterrupted drive under a new token completes exactly when the player has no live handoff, and leaves every other player's handoffs alone |
| MergePlayers.MergeKeepsNpcs | internal/grpc/registrysvc/forward_merge.go:180-226 | no sequence of handoffs, wherever it stops, changes an entity that is not a player |
| Merge.TokensDiffer | internal/grpc/registrysvc/forward_merge.go:197 | tokens made at different times differ, whatever characters the ids contain |
| Merge.TokensTellCandidates | internal/grpc/registrysvc/forward_merge.go:197 | at one time, two players or two children without a colon in their ids never share a token |
| Merge.UniqueCellIDs | internal/grpc/registrysvc/forward_merge.go:56-71 | the loop computes the list of first occurrences |
| Merge.UniqueMeans | internal/grpc/registrysvc/forward_merge.go:56-71 | that list has exactly the trimmed non-empty ids, none twice |
| Merge.UniqueExtends | internal/grpc/registrysvc/forward_merge.go:56-71 | in the order of first occurrences: further ids only add at the end |
| Merge.TotalCounts | internal/grpc/registrysvc/forward_merge.go:336-368 | the total is the number of registrations in the children |
| Merge.MergeTheorem | internal/grpc/registrysvc/forward_merge.go:362-486 | for a whole merge: nobody is lost or gained and the children's other entities stay, however it ends; if all handoffs complete the parent has all players and the last-wins union of the children's other entities; uninterrupted it completes exactly when nobody listed is in flight |
| Merge.Registry.ForwardMergeHandoff | internal/grpc/registrysvc/forward_merge.go:230-508 | the whole call: it is refused exactly without a parent id, while a merge of the parent runs, or when the guards do not admit it, and then nothing changes; otherwise the drain window is undone on every exit, and the outcome is that of the merge theorem with the reported counts |
| Merge.Registry.CheckMerge | internal/grpc/registrysvc/forward_merge.go:268-360 | passes exactly when the catalogue determines four children, the request names the same four, all are reachable, the parent is empty and the players are within the configured number; the geometry check never fails there |
| Merge.Registry.FindChildren | internal/grpc/registrysvc/forward_merge.go:292-335 | fails exactly when no listing of the catalogue has four unambiguous children of the parent |
| Merge.Registry.CheckPlayers | internal/grpc/registrysvc/forward_merge.go:336-368 | passes exactly when parent and children are reachable, the parent is empty and the players within the configured number, and then counts them |
| Merge.OrderIsUnique | internal/grpc/registrysvc/forward_merge.go:308-321 | whatever order the catalogue is listed in, the children and their order are the same |
| Merge.IdleIsReady | internal/grpc/registrysvc/forward_merge.go:362-486 | cells that took part in no handoff yet meet the hypotheses of the merge theorem with any clock that moves forward |
| Merge.MergeResetsTick | internal/grpc/registrysvc/forward_merge.go:410-461 | an import of merged saves restarts the tick at 0 and keeps the parent's own rate; with players it changes nothing |
| Merge.Registry.Transfer | internal/grpc/registrysvc/forward_merge.go:403-486 | export in order, import with a fresh tick, then the handoffs; refused exactly while the parent has players |
| Merge.Registry.RunMergePlayerHandoffs | internal/grpc/registrysvc/forward_merge.go:180-226 | lists all players of all children, each once, and performs exactly the handoffs up to the first that does not complete |
| Merge.Registry.ListMergePlayerCandidates | internal/grpc/registrysvc/forward_merge.go:154-178 | lists exactly the child's players, each once |
| Merge.Registry.ForwardPlayerHandoff | internal/grpc/registrysvc/forward_player.go:19-157 | the driver with every early exit is exactly the specified drive on the trimmed fields |
| Merge.Registry.ForwardNpcHandoff | internal/grpc/registrysvc/forward_cell.go:82-185 | succeeds exactly for two different reachable cells with an empty target; then the target has exactly the source's other entities, tick and positive rate, and the count is theirs |
| Merge.Registry.SetSplitDrains | internal/grpc/registrysvc/forward_merge.go:384-408 | sets the flag of exactly the reachable listed cells |
| Merge.Registry.ExportChildren | internal/grpc/registrysvc/forward_merge.go:410-443 | one save per child, in order |
| Merge.CopiesMergeIntoParent | internal/grpc/registrysvc/forward_merge.go:403-461 | copying a parent to its children and merging them back without a step in between gives back exactly what was copied |
| Persist.Encode | internal/cellsim/snapshot/snapshot.go:15-46 | for every world: one record for each positioned entity outside the skipped ones, in whatever order; together they mean exactly these entities, except that a record of the wrapped id 0 means nothing |
| Persist.Decode | internal/cellsim/snapshot/snapshot.go:49-90 | an unknown schema changes nothing; otherwise the world is cleared and the records restored in order, and tick and positive rate taken over |
| Persist.RoundTrip | internal/cellsim/snapshot/snapshot.go:15-90 | loading a save into any world reproduces exactly the saved entities with their ids, the tick and a positive rate |
| Persist.RoundTripKeeps | internal/cellsim/snapshot/snapshot.go:15-90 | the same told from the maps of the two worlds: exactly the living, positioned entities outside the skipped are there, each where it was, with the velocity it had or none, and with its health exactly if the maximum is positive |
| Persist.RestoreKeepsFreshIds | internal/ecs/world.go:218-230 | for every record list: after loading it fresh ids are handed out for as long as the 64-bit counter lasts, and the counter is above all ids, if and only if every record with the last id is followed by one with the id before it |
| Ecs.AllNewExactly | internal/ecs/world.go:32-37 | for any counter and any living ids, the next k entities all get new non-zero ids exactly when the counter plus k stays below 2^64 and no living id lies in between |
| Persist.LastIdResetsCounter | internal/ecs/world.go:218-230 | and a record with the last 64-bit id resets the counter so that the next entity gets an id in use |
| Persist.MergedImport | internal/grpc/registrysvc/forward_merge.go:403-461 | loading concatenated saves yields their last-wins union; the summed count is the loaded count exactly when the ids are disjoint |
| Persist.LastWinsDecides | internal/grpc/registrysvc/forward_merge.go:403-461 | an id is in the union exactly when some save has it, and the last such save decides |
| Persist.UnionSize | internal/grpc/registrysvc/forward_merge.go:428-434 | the sum of sizes equals the size of the union exactly when no id occurs twice |
| Persist.CopiesMergeBack | internal/grpc/registrysvc/forward_cell.go:110-160 | the union of copies of one save is that save |
| CellPath.ParseCellPathID | internal/partition/split.go:55-77 | parsing with segments yields exactly the path of the accepted ids and an error for all others |
| CellPath.BodySegments | internal/partition/split.go:64-76 | after the regular expression no segment error can occur |
| CellPath.ParseAfterFormat | internal/partition/split.go:55-101 | parsing a printed path gives the path back |
| CellPath.FormatAfterParse | internal/partition/split.go:55-101 | printing the parse of an accepted id gives the trimmed id |
| CellPath.FormatIsInjective | internal/partition/split.go:87-101 | different paths have different ids |
| CellPath.FormatReads | internal/partition/split.go:87-101 | the printed form itself: cell_root, cell_q and a digit, and one more _q and digit for each further split |
| CellPath.ChildIDForQuadrant | internal/partition/split.go:87-101 | succeeds exactly for a quadrant 0..3 and an accepted parent, and its parse is the parent's with that digit appended |
| CellPath.ChildIDsDiffer | internal/partition/split.go:87-101 | children of different parents or quadrants have different ids |
| CellPath.IsDescendantPath | internal/partition/split.go:103-122 | the loop decides the proper prefix order of the parses |
| Geometry.DescendantIDs | internal/partition/split.go:103-122 | for accepted ids of any depth and a proper root, being a descendant is exactly lying inside and not being the same box |
| Geometry.DescendantIsInside | internal/partition/split.go:26-49 | the same on paths: prefix order is containment |
| Geometry.UnrelatedApart | internal/partition/split.go:26-36 | cells unrelated by prefix have disjoint interiors |
| Geometry.MeetingIsRelated | internal/partition/split.go:26-36 | a closed box that meets another's interior belongs to an ancestor, a descendant or the same cell |
| Geometry.DescendContains | internal/partition/split.go:38-49 | following Quadrant from any root point gives, at every depth, a cell containing it that extends the one before |
| Geometry.QuadrantLayout | internal/partition/split.go:26-49 | quadrants 1 and 3 are the right half and 2 and 3 the upper half of the box, and a point is sent right or up exactly from the middle on |
| Geometry.GrandchildrenMeetAtCentre | internal/partition/split.go:26-36 | each quadrant's centre is a corner of all four of its children |
| Siblings.ChildSpecsForSplit | internal/partition/split.go:133-153 | nothing without bounds, an error for an unparsable id, else four children in quadrant order with ids, boxes and level of the split |
| Siblings.FindQuadrant | internal/partition/split.go:171-190 | a match exactly when some entry fits and all that fit carry one id; else missing or ambiguous |
| Siblings.PaddedIsSame | internal/partition/split.go:171-190 | white space around an entry's id makes no difference |
| Siblings.CatalogMergeChildren | internal/partition/split.go:164-205 | succeeds exactly when the catalogue is unambiguous about four distinct named children, and returns matches in quadrant order |
| Siblings.ValidateMergeChildren | internal/partition/split.go:211-261 | accepts exactly four named distinct cells one level down whose boxes are, as a multiset, those of the split: the greedy matching does not depend on the order |
| Siblings.FoundChildrenAreValid | internal/partition/split.go:164-261 | whatever the search returns, in any order, passes the validation |
| Siblings.PlannedChildrenAreFound | internal/partition/split.go:133-205 | a catalogue with a split's four children and nothing else at that level and box yields exactly them in quadrant order |
| Catalog.Memory.Register | internal/registry/memory.go:21-34 | a missing id or box is an invalid spec, an empty box invalid bounds; else exactly this entry is set |
| Catalog.Memory.Deregister | internal/registry/memory.go:66-74 | exactly this entry goes; an empty id is an error |
| Catalog.Memory.List | internal/registry/memory.go:36-43 | every entry once, in some order |
| Catalog.Memory.ResolveMostSpecific | internal/registry/memory.go:47-63 | none exactly when no cell covers the point, else a covering cell of the greatest level |
| Catalog.PickBestCell | internal/discovery/catalog.go:55-72 | the first of the deepest covering entries of a list |
| Catalog.PickWins | internal/discovery/catalog.go:55-72 | picking from any listing of the catalogue gives a winner of the look-up |
| Catalog.FindCellByID | internal/discovery/catalog.go:39-53 | the entry under that id, or none |
| Catalog.SplitDeepens | internal/partition/split.go:133-153 | registering the four children sends every point of the parent's closed box to a deeper level, whatever else is registered |
| Catalog.SplitLocal | internal/partition/split.go:133-153 | outside the parent's closed box no winner changes |
| Catalog.ChildrenWin | internal/registry/memory.go:47-63 | after splitting a leaf the winners at an interior point are exactly the children whose closed boxes hold it |
| Catalog.LeafWins | internal/registry/memory.go:47-63 | before the split the leaf alone wins at each of its interior points |
| Catalog.TeardownCovers | cmd/grid-manager/merge_workflow.go:366-371 | removing children one at a time, in any order, never leaves a covered point without a winner |
| Catalog.SplitThenMerge | cmd/grid-manager/merge_workflow.go:366-371 | split and merge restore the catalogue exactly when no child id was registered before, and then every look-up |
| MergeProbe.ProbesAreExact | cmd/grid-manager/merge_workflow.go:401-429 | in any catalogue whose cells sit at their paths: the parent can pass all four look-ups, and is then their only answer, if and only if no registered descendant is a child, a grandchild, or in the inward corner of a grandchild, down any number of levels |
| MergeProbe.LeafIsResolved | cmd/grid-manager/merge_workflow.go:401-429 | what the look-ups stand for: every interior point of the parent resolves to it alone if and only if it has no registered descendant |
| MergeProbe.CentreCoveredExactly | internal/partition/split.go:124-129 | which descendants of a box contain the centre of a quadrant, at every depth |
| MergeProbe.FourProbesSuffice | cmd/grid-manager/merge_workflow.go:401-429 | in a catalogue that was closed below the parent, after removing any of its children, the four look-ups can all find the parent exactly when no descendant is left, and then every interior point resolves to it alone |
| MergeProbe.SwitchTopologyAndTeardown | cmd/grid-manager/merge_workflow.go:366-399 | children leave one by one; the switch succeeds exactly when every child is named, the parent is still there and nothing is left that the look-ups can see, below a closed parent exactly when it ends as a leaf, and only then are deletions requested |
| MergeProbe.VerifyResolveToParent | cmd/grid-manager/merge_workflow.go:401-429 | missing parent and bad id are reported as such; success means the parent wins at all four centres |
| MergeProbe.OrphanEscapesProbes | cmd/grid-manager/merge_workflow.go:401-429 | a lone cell three levels down that no look-up can see: they succeed while points of its box do not resolve to the parent |
| SplitProbe.PickResolveProbe | cmd/grid-manager/split_workflow.go:1030-1052 | the first of the 36 candidates that no foreign deeper cell covers; none for an empty box or id |
| SplitProbe.CandidatesAscend | cmd/grid-manager/split_workflow.go:1030-1052 | the candidates go column by column to the right, each column upwards |
| SplitProbe.FirstCandidateIsFree | cmd/grid-manager/split_workflow.go:1009-1052 | in a placed catalogue the very first candidate is taken: a probe is always found |
| SplitProbe.VerdictIsExact | cmd/grid-manager/split_workflow.go:1054-1086 | nothing is reported for a child exactly when it or a descendant covering the probe is registered |
| SplitProbe.ResolveChildProbeReasons | cmd/grid-manager/split_workflow.go:1054-1086 | over all children: an id is reported exactly when a child so named is not answered |
| SplitProbe.ProbeReason | cmd/grid-manager/split_workflow.go:1058-1084 | the verdict on one child follows from one of the winners at its probe |
| SplitProbe.PointInForeignDeeperCell | cmd/grid-manager/split_workflow.go:1009-1028 | some listed deeper cell of another branch covers the point |
| SplitProbe.ResolveTargetChildForPlayer | cmd/grid-manager/split_workflow.go:709-722 | the trimmed id of a winner, if it is one of the ready children |
| SplitProbe.InsidePlayersFindTheirChild | cmd/grid-manager/split_workflow.go:709-722 | after splitting a leaf, every winner at a point strictly inside it is a ready child that contains the point |
| Grid.SpatialGrid.UpdateEntity | internal/ecs/aoi/grid.go:38-51 | records exactly the cell of the present position, or forgets an entity without one; each indexed entity stays in exactly its bucket, once |
| Grid.SpatialGrid.RemoveEntity | internal/ecs/aoi/grid.go:72-90 | forgets exactly this entity; the swap-remove keeps the bucket's others, each once |
| Grid.SpatialGrid.RebuildFromWorld | internal/ecs/aoi/grid.go:54-69 | indexes exactly the living positioned entities at their present cells |
| Grid.SpatialGrid.QueryRadius | internal/ecs/aoi/grid.go:93-125 | for all real centres and radii: nobody for a negative radius, no duplicates, and with a current index exactly the indexed entities in the closed disc |
| Grid.DiscInSquare | internal/ecs/aoi/grid.go:33-100 | every point of the closed disc lies in the scanned square of buckets |
| Grid.KeyHoldsPoint | internal/ecs/aoi/grid.go:33-35 | the key names the half-open square of that side that holds the point, X first |
| Grid.DiscIsEuclidean | internal/ecs/aoi/grid.go:97-118 | the disc is the Euclidean one with its rim |
| Grid.SwapRemoved | internal/ecs/aoi/grid.go:79-88 | overwriting with the last and shortening removes exactly one member |
| Replication.StreamConverges | internal/grpc/cellsvc/server.go:722-811 | over any run of world changes and rounds, silent ones included, after each round the client holds exactly what the round sees, and of each entity its position, player flag and share of health as they are in the world's maps |
| Replication.RoundConverges | internal/grpc/cellsvc/server.go:736-803 | one round: applying what is sent, or nothing, gives exactly the visible world |
| Replication.RoundTells | internal/grpc/cellsvc/server.go:736-811 | each message against the maps of the world, not through the function that builds states: at first every visible entity, later exactly the marked visible, the newly visible and the names of those no longer seen, between the previous and this round's tick; nothing exactly when there is nothing to tell; players first, ids ascending; every state names its entity, its position in the world, whether it is a player, and a fraction that times the maximum is the health, 0 without a positive maximum |
| Replication.ViewShows | internal/replic/replic.go:12-28 | a client holds the view of a round if and only if it has exactly the visible entities with a position, and of each that truth |
| Replication.StateIsTruth | internal/replic/replic.go:12-28 | the state of an entity is the only true one there is |
| WholeWorld.WholeViewExactly | internal/grpc/cellsvc/server.go:750-811 | without an area of interest, over any run: after each round but the first the client has the truth about everything with a position and holds exactly whoever it was ever shown, so its view is right if and only if none of them has lost its position |
| WholeWorld.DepartedStays | internal/grpc/cellsvc/server.go:799-809 | whoever is destroyed after being shown stays in such a client for good |
| WholeWorld.LaterRoundKnows | internal/grpc/cellsvc/server.go:799-809 | one later round brings the client up to date on everything with a position and removes nobody |
| Replication.ChangeKeepsTracks | internal/ecs/world.go:51-96 | every change marks each entity whose replicated state it changes, or takes its position |
| Replication.DeltaIsClean | internal/grpc/cellsvc/server.go:764-797 | changed and removed name nobody twice and share nobody; changed are visible, removed were |
| Replication.OrderIsCanonical | internal/replic/priority.go:25-38 | two sorted arrangements of the same entities are equal: the order of the message does not depend on map order |
| Replication.SortIsOrdered | internal/replic/priority.go:25-38 | players first, then by id |
| Replication.BuildStates | internal/replic/replic.go:53-84 | the states of the sorted entities, those without position left out; each names one of them and is true of it in the world's maps |
| Subscription.Subscriber.Round | internal/grpc/cellsvc/server.go:722-811 | one turn of the loop sends exactly what the specification says for what it sees, or for the whole world when there is no area of interest; it takes the marks except in the first round, picks the pause for what is seen, and falls back for good without a viewer position or index |
| SubscriptionRun.Serve | internal/grpc/cellsvc/server.go:722-811 | the whole loop on the live world, with any changes between rounds: as long as the viewer keeps its position its messages form a legal stream, and a client that applies them holds after the last round exactly the present state of what that round saw, with a current index the disc around the viewer |
| SubscriptionRun.Perform | internal/ecs/world.go:32-156 | each change of a run is what the calls on the world object do; a step ends by rebuilding the index |
| Subscription.VisibleEntitiesAOI | internal/grpc/cellsvc/aoi_replication.go:31-50 | with a current index exactly the indexed entities in the disc around the viewer, and the viewer, each once |
| Subscription.PickAdaptiveReplicationInterval | internal/grpc/cellsvc/aoi_replication.go:54-85 | near exactly when another visible entity is in the closed disc of 15 around the viewer, far exactly when there is none |
| Subscription.Subscriber.ChangedEntities | internal/grpc/cellsvc/server.go:764-782 | the marked visible and the newly visible, each once |
| Subscription.Subscriber.RemovedEntities | internal/grpc/cellsvc/server.go:786-794 | exactly those seen last time and not now, each once |
| Subscription.Subscriber.PositionedEntities | internal/replic/replic.go:31-38 | the living positioned entities, each once |
| LoadPolicy.HistoryRule | cmd/grid-manager/cell_load_policy.go:179-258 | an action happens exactly when the condition held at every sample back to an earlier one at least the window old and every earlier action is at least the cooldown old |
| LoadPolicy.ParentFollowsRule | cmd/grid-manager/cell_load_policy.go:260-343 | as long as a parent stays listed, its merges start exactly by that rule on its own low load, whatever the other parents do |
| LoadPolicy.ParentStartsSpaced | cmd/grid-manager/cell_load_policy.go:291-336 | merge starts of such a parent are at least both the window and the cooldown apart |
| LoadPolicy.LoadPolicyRuntime.Observe | cmd/grid-manager/cell_load_policy.go:179-258 | one sample moves the cell's state as specified and acts exactly when the rule fires |
| LoadPolicy.LoadPolicyRuntime.ObserveMergeCandidates | cmd/grid-manager/cell_load_policy.go:260-343 | one round is one step of each listed parent's automaton, and parents no longer listed are forgotten |
| LoadPolicy.OneStepPerRound | cmd/grid-manager/cell_load_policy.go:260-343 | a parent listed once takes exactly one step per round |
| LoadPolicy.WatchedExactly | cmd/grid-manager/cell_load_policy.go:272-280 | the watched parents are exactly the listed cells with bounds and a name |
| LoadPolicy.UnlistedForgotten | cmd/grid-manager/cell_load_policy.go:337-342 | a parent missing from one listing starts from rest when it is listed again |
| LoadPolicy.LoadPolicyRuntime.Forget | cmd/grid-manager/cell_load_policy.go:175-177 | forgets exactly this cell's load state |
| LoadPolicy.LoadPolicyRuntime.ObserveParent | cmd/grid-manager/cell_load_policy.go:286-336 | one step of one parent's automaton |
| LoadPolicy.IsLowLoad | cmd/grid-manager/cell_load_policy.go:277-291 | low exactly when the catalogue has the four children and the group is quiet, whichever matching entries the search picks |
| LoadPolicy.MergeStartsSpaced | cmd/grid-manager/cell_load_policy.go:291-336 | on any history of samples two merge starts are at least both the window and the cooldown apart |
| LoadPolicy.MergeGroupLowLoad | cmd/grid-manager/cell_load_policy.go:345-407 | quiet exactly when every child is known, reachable and below all limits, the total is, and nothing is registered below them |
| LoadPolicy.QuietExactly | cmd/grid-manager/cell_load_policy.go:345-407 | a group whose children are registered and answer is quiet if and only if no limit in force is exceeded by any of them or by the total to hand off, and nothing is registered below; a negative limit is none |
| LoadPolicy.QuietIsPresent | cmd/grid-manager/cell_load_policy.go:355-371 | a quiet group's children are all registered with bounds at their level, and answer |
| LoadPolicy.LessLoadStaysQuiet | cmd/grid-manager/cell_load_policy.go:345-407 | less load never ends a quiet spell |
| LoadPolicy.FourTotal | cmd/grid-manager/cell_load_policy.go:384-389 | the total is the sum of the four children's players |
| LoadPolicy.BelowIsDescendant | cmd/grid-manager/cell_load_policy.go:390-405 | what counts as below a child: a registered id whose path properly continues the child's |
| LoadPolicy.LastListedCounts | cmd/grid-manager/cell_load_policy.go:260-276 | an id listed several times counts as its last entry |
| LoadPolicy.OnlyListedCount | cmd/grid-manager/cell_load_policy.go:260-276 | and no id counts that is not listed |
| LoadPolicy.ActionMeans | cmd/grid-manager/cell_load_policy.go:212-235 | draining is decided exactly for a reachable cell when it is switched on; it fails exactly if it had to be requested and was refused; a split starts exactly if it was decided and did not fail |
| GatewayRetry.BackoffLoop | cmd/gateway/main.go:279-288 | doubling with an early stop computes min(base * 2^(attempts-1), max) |
| GatewayRetry.BackoffDoubles | cmd/gateway/main.go:279-288 | the pause begins at the base, doubles with each further failure and stops at the maximum |
| GatewayRetry.KeyTellsPairs | cmd/gateway/main.go:246-248 | pairs whose first ids have no arrow in them share a key if and only if they are the same up to outer white space |
| GatewayRetry.KeyTellsCells | cmd/gateway/main.go:246-248 | between cells with accepted path ids the key stands for exactly the two paths |
| GatewayRetry.KeyIgnoresPadding | cmd/gateway/main.go:246-248 | trimming the ids does not change the key |
| GatewayRetry.ArrowsMeet | cmd/gateway/main.go:246-248 | ids with an arrow inside can make two different pairs share a key |
| GatewayRetry.Session.MarkPositionSwitchRetryFailure | cmd/gateway/main.go:263-292 | sets exactly this pair's pause, the count starting anew after the pause; every other pair of ids without an arrow is let through at the same times as before |
| GatewayRetry.Session.AllowPositionSwitchRetry | cmd/gateway/main.go:250-261 | allowed exactly when there is no entry or its time has come |
| GatewayRetry.AttemptsSpaced | cmd/gateway/main.go:1434-1475 | after a recorded failure every later gated attempt on the pair, whatever the outcomes in between, is at least the chosen pause later, until a successful switch clears the entry |
| GatewayRetry.GateIsOpen | cmd/gateway/main.go:250-301 | an attempt may come at any time exactly while no failure has been recorded since the last successful switch; failures of other kinds record nothing |
| GatewayRetry.PauseAt | cmd/gateway/main.go:263-292 | the count grows only for a recorded failure at the very moment the gate opens |
| GatewayRetry.PauseNeverGrows | cmd/gateway/main.go:1434-1475 | without such a coincidence every recorded failure waits just the base pause again |
| GatewayRetry.Session.ClearPositionSwitchRetryState | cmd/gateway/main.go:294-301 | removes exactly this pair's entry; every other pair of ids without an arrow is let through at the same times as before |
| Trigger.TriggerSystem.Update | internal/ecs/trigger.go:38-80 | the active pairs are exactly the overlapping ones; each newly overlapping pair enters once and each that stopped exits once, with the zone's present name; every pair's whole log keeps alternating |
| Trigger.TriggerSystem.DrainEvents | internal/ecs/trigger.go:85-92 | hands out the buffer and empties it; the whole log is unchanged |
| Trigger.UpdateKeepsLog | internal/ecs/trigger.go:38-80 | for every pair the log starts with enter, alternates, and ends with enter exactly when the pair is active |
| Trigger.OverlapIsSharedPoint | internal/ecs/trigger.go:95-99 | zone and sensor overlap if and only if their closed boxes have a point in common |
| Trigger.PairedExactly | internal/ecs/trigger.go:38-62 | a living zone and a living sensor are an active pair if and only if their closed boxes have a point in common |
| Collision.UpdateConserves | internal/ecs/collision.go:11-65 | over a whole update the sums of X and of Z over all entities, every height and everything without a collider stay |
| Collision.PushTouches | internal/ecs/collision.go:32-62 | right after its own push a pair touches exactly on the pushed axis, on the sides it was before (on equal coordinates the smaller id first), keeps its place on the others and has stopped on that one |
| Collision.ResolveParts | internal/ecs/collision.go:28-62 | told by the boxes alone: a pair whose insides do not meet is left as it is; any other is moved apart on the axis on which the way out is shorter, X on a tie, each by half of it and away from the other, so that whoever stood before still does, and now strictly, on equal coordinates the smaller id; both stop there and are marked, and nothing else about anybody changes |
| Collision.ResolveIsSymmetric | internal/ecs/collision.go:28-62 | it makes no difference which of the two comes first |
| Collision.ResolveSettles | internal/ecs/collision.go:28-62 | resolving a pair twice is resolving it once |
| Collision.Update | internal/ecs/collision.go:11-65 | resolves every pair once in the order of the query, each as `ResolveParts` tells; the cached position is never stale; the sums are conserved |

## Left out

- Rounding: coordinates, health and rates are reals; the conversion to 32-bit
  floats in messages is the identity, and NaN and infinities do not occur.
- Levels and the sum `parentLevel + 1` are unbounded; 32-bit overflow would need a path of 2^31 digits.
- Durations are unbounded integers: doubling a pause past 2^63 nanoseconds is not modelled.
- Interleavings below one remote call, and the concurrency of goroutines and locks.
- A request refused by the network counts as a drive that stopped: `Reach` says
  how far a driver gets, whatever the reason. Other calls of a merge reach every
  cell in `Registry.cells`; a cell that cannot be dialled is not in that map.
- No call of other drivers interleaves with the merge call itself; joins and leaves during it are excluded.
- Merge.MergeTheorem: no simulation step and no input happens between the exports, the import and the handoffs. In the
  program the children's entities move on meanwhile and the parent gets the positions that were exported.
- MergePlayers.MergeKeepsNpcs: likewise speaks of the handoffs alone, without steps between them.
- Retry.RetryCompletes: between the calls under the token the player does not join, leave or arrive at the two cells by other calls, none of
  their other handoffs is finished at the source, and no save is imported into either cell.
- The branches of a cell server without a simulation, missing request bodies and a missing catalogue.
- The records of a prepared handoff are pointers in the program and map entries here.
- The velocity computed from a client's input, including the trigonometry of `aim_yaw`: it is a parameter. JSON encoding of saves,
  message texts, events, metrics, tracing and logging.
- The configuration parsers: settings are parameters. Non-negative durations are what the parser lets through.
- `SubscribeDeltas` for several subscribers: the marks are shared and drained by
  whoever asks first, so only one subscriber converges. Runs without an area of
  interest are those of `WholeWorld`; each of their messages is that of a `Round`,
  but the loop over the live world is written out (`SubscriptionRun.Serve`) only with one.
- `RemoveHealth`, `RemovePosition` and loading a save between two rounds: they change replicated state without marking it.
- Comparing distances by `hypot` is comparing squares here.
- The library sort is an insertion sort here; the order it must produce is unique (`Replication.OrderIsCanonical`).
- Completion of a split with live players: players move to the children before the import, which is then refused.
- The rest of the split and merge workflows: pinging, waiting, retries with back-off, publishing, stored workflow state, the split's plan request.
- The index is rebuilt at the end of every step; between a join and the next step it can be stale, and then a round sees what the stale index finds (`Replication.StreamConverges` holds for whatever a round sees).
- Consul as catalogue, with several entries per cell; the catalogue here is the in-memory one.
- Database, web3 ingestion, HTTP, tokens and sessions of the gateway beyond its retry table.
- Catalog.Memory.ResolveMostSpecific: which of several equally deep winners is returned is not fixed, as in the program.
- MergeProbe.VerifyResolveToParent: between "wins at all centres" and "is the only winner at all centres" the answer depends on that choice; in placed catalogues the two agree.
