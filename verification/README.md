# Layforge Master: maps, listings and packs

A Dafny model of four parts of Layforge's Master, with proofs of what they promise.

**The dungeon generator** (`dungeon_*.dfy`). A frontier-driven loop digs corridors, chambers,
vaults and staircases over several levels. `DungeonModel` and `DungeonGrowth` give each
growth step as a state machine whose choices are everything the code draws at random;
`DungeonGenerator` is the generator itself, with its tile arrays, its frontier and its loops,
and each of its methods is proved to make a step the machine allows. The promises are proved
of every run of the machine, so of everything `Generate` returns, whatever is drawn;
`DungeonSteps` says cell by cell and point by point what each step does.

**The tactical map** (`combat_*.dfy`). The rooms-and-corridors generator, the bounded
breadth-first search that prices a move, and recursive shadowcasting, all on one grid class.
Shadowcasting is a set of recursive functions on one octant in its own coordinates
(`CombatFov`), which the imperative `CombatVisible` is proved to compute and about which the
laws are proved; `CombatFovRays` ties them to straight lines of sight.

**The registry heartbeat** (`registry_*.dfy`). The Master keeps its opted-in campaigns listed
in a directory that forgets listings, restarts empty and loses calls. `RegistryModel` is the
directory and the Master together, every call carrying what happens before it arrives and
what becomes of it; `RegistryLoop` and `RegistryStore` are the two programs. Safety is proved
over every run, restarts of either program included, convergence over every run whose faults
stop, and `RegistryExact` says when a single fault-free turn or round is enough.

**The pack writers** (`pack_*.dfy`). Adding files to a campaign pack, and writing a new one,
with each file's steps failing as a plan says.

`paths.dfy`, `row_major.dfy` and `random.dfy` hold what the parts share: joined cells and
rectangles, array indices, and a random source that may return anything in range.

## Where the code and its documentation differ

The model follows the code.

- `generator.go` promises a connected result for any valid request and says that small values
  just yield a small dungeon (lines 22-25, 96-105). On a level two cells wide or high, with
  the other side at least two, the arrival point itself is off the map and the promise fails;
  on one three or four cells across the landing touches the outer ring. `ConnectedExactly`,
  `WholeDungeonExplorable` and `RingExactly` say exactly when each promise holds.
- `combatmap/generator.go` says in one place that a nil random source panics (lines 20-24); the
  code returns nil.
- `heartbeat.go` says a campaign the host has opted out is never published (lines 27-34). When
  the answer to a registration is lost, the directory holds a listing the Master knows nothing
  of: the next round lists the campaign twice (`LostReplyShowsTwice`), and opting out does not
  take that listing down before it expires (`OptingOutLeavesTheStray`); a restart of the Master
  leaves listings behind in the same way. `ShownOnceExactly`, `NotShownExactly` and
  `RoundConvergesExactly` say exactly when a turn or a round puts things right, and
  `FaultFreeRoundsConverge` that it is done one time to live after faults and changes stop.
- `write.go` says that a failed addition restores what it overwrote (lines 75-84). It replays
  oldest first, so a path given twice is left with the first new content
  (`ARepeatedPathIsNotRestored`), and a file that exists but cannot be read is removed
  (`AnUnreadableFileIsLost`); what a write that broke off left is not undone at all
  (`ATornWriteIsLeft`). `FailureRestoresExactly` says exactly when the disk is as it was,
  whatever failed. `WriteAndValidate` relies on its directory not existing, which it does not
  check: `InstallRestoresExactly`.
- In `fov.go` the start of a beam is lowered in the middle of a row, and whether the beam is
  inverted is looked at only when a cast begins. An inverted beam can skip a row:
  `ARowCanBeJumped` is such a map. `OctantJumpsExactly` says exactly when a lit cell is cut off
  from the row before it: when the beam covers no cell of that row, whatever the walls.

## Model

| member | source | states |
|---|---|---|
| `DungeonTheorems.ConnectedExactly` | master/internal/dungeon/generator.go:96-138 | in every reachable state every level is connected from its arrival point if and only if both sides are at least 3 or some side is 1 |
| `DungeonTheorems.WholeDungeonExplorable` | master/internal/dungeon/generator.go:100-105 | every walkable tile of every level can be reached from the entrance by 4-way steps and staircases, on exactly those sizes |
| `DungeonTheorems.StairsFormATree` | master/internal/dungeon/generator.go:504-526 | level 0 has no stair up, every other level exactly one, to an earlier level one less deep; each stair has exactly one stair back; stair tiles and records match one to one with the right type |
| `DungeonTheorems.StairBack` | master/internal/dungeon/generator.go:524-525 | the stair that answers a given one, and that no other does |
| `DungeonTheorems.FeaturesWellPlaced` | master/internal/dungeon/generator.go:389-443 | in every reachable state each feature has a valid kind, is on a floor tile, and shares its cell with no other |
| `DungeonTheorems.CutOff` | master/internal/dungeon/generator.go:152-162 | on a level with a side of 2 and none of 1, a tile the landing opens while the arrival point itself is not open |
| `DungeonHistory.CarvingIsMonotone` | master/internal/dungeon/generator.go:131-136 | between any two states of a run the only tiles that change were carvable rock; sizes, depths and the entrance stay, and features and stairs are only appended |
| `DungeonHistory.RingExactly` | master/internal/dungeon/dungeon.go:158-164 | the outer ring of every level is rock in every reachable state if and only if both sides are at least 5 or some side is 1 |
| `DungeonHistory.BreachedRing` | master/internal/dungeon/generator.go:154-162 | on the other sizes, a tile of the ring that the first landing opens |
| `DungeonHistory.GrowthBounds` | master/internal/dungeon/generator.go:111-137 | a run takes at most the budget in steps, the frontier never passes 360, and there are at most MaxLevels and 1 + steps levels |
| `DungeonHistory.CrowdedStepsOnlyDigPassages` | master/internal/dungeon/generator.go:194-211 | a step taken with 120 points still waiting adds no level, stair or feature and turns nothing but cells of one straight line to floor |
| `DungeonHistory.CorridorShape` | master/internal/dungeon/generator.go:220-244 | a corridor is k cells straight ahead, all carvable, rock but perhaps the last, exactly the rock turned to floor, and k is as large as length, edge and open cells allow |
| `DungeonSteps.PassagePoints` | master/internal/dungeon/generator.go:246-273 | a passage that could be begun and does not end by the edge leaves points at its end, heading straight on, to the chosen side, both, or to both sides as its turn says, one each while the frontier is below 360; any other leaves none |
| `DungeonSteps.HeadsGoOn` | master/internal/dungeon/generator.go:251-272 | measured by dot and cross products of headings, each turn goes where its name says: onward, at a right angle to the chosen side, both, or left and then right |
| `DungeonSteps.NeverBack` | master/internal/dungeon/generator.go:251-272 | no passage ever heads back, and one goes on straight exactly when it neither bends nor splits |
| `DungeonSteps.StepExactly` | master/internal/dungeon/generator.go:182-212 | a point is spent exactly when the cell ahead is open; spent points and dead ends change nothing; a passage or a chamber that may dig opens the cell ahead, a vault puts a secret door there or changes nothing, and stairs go down there with one new level exactly when there is a level left |
| `DungeonSteps.PointsWaitTheirTurn` | master/internal/dungeon/generator.go:131-136 | the frontier is a queue: a step takes its first point and only adds behind the rest |
| `DungeonSteps.RunsToTheEnd` | master/internal/dungeon/generator.go:111-137 | a run takes at most GrowthBudget steps, or without one at most a step for each 25 cells or 8, and stops short of that only with nothing left to grow |
| `DungeonSteps.ArrivalsAreInTheMiddle` | master/internal/dungeon/generator.go:126-129 | on levels at least 5 by 5 the entrance, and the stair up of every deeper level, is in the middle |
| `DungeonSteps.LandingSeeds` | master/internal/dungeon/generator.go:163-168 | a landing seeds a point one cell from its middle in each direction with a cell to spare two cells out, and no other |
| `DungeonSteps.VaultExactly` | master/internal/dungeon/generator.go:389-414 | a vault cell by cell: a secret door ahead, floor in its rectangle, nothing else; a chest within half a cell of its middle and at most one shrine or statue elsewhere in it |
| `DungeonSteps.ChamberExactly` | master/internal/dungeon/generator.go:369-382 | a chamber cell by cell: a door ahead, floor in its rectangle, its exits' doors, nothing else; and a point in each exit heading outwards while the frontier is below 360 |
| `DungeonSteps.ExitsExactly` | master/internal/dungeon/generator.go:449-502 | at most three exits, each through a different side and none through the side entered by, from rock with rock behind, the first not hidden; and no exit at all only when every such side has a place along it where none fits |
| `DungeonSteps.DoorwayFitsExactly` | master/internal/dungeon/generator.go:475-487 | a doorway fits exactly on rock with a margin from the edge and rock of the map behind it |
| `DungeonDigging.CorridorDigs` | master/internal/dungeon/generator.go:224-244 | a corridor from an open cell digs only cells joined to it, and stops on an open cell |
| `DungeonDigging.RoomDigs` | master/internal/dungeon/generator.go:375-378 | a placeable room and its door are dug from rock and joined to the cell they grow from |
| `DungeonDigging.PunchDigs` | master/internal/dungeon/generator.go:467-500 | every exit is dug from rock beside the chamber and ends open |
| `DungeonInvariant.LandingFacts` | master/internal/dungeon/generator.go:152-162 | on levels at least 3 by 3 a landing is connected around its open centre and opens nothing else; from 5 by 5 it keeps off the ring |
| `DungeonInvariant.VaultGood` | master/internal/dungeon/generator.go:389-414 | a vault only digs rock joined to what was open and puts its features on distinct fresh floor cells |
| `DungeonInvariant.ChamberGood` | master/internal/dungeon/generator.go:369-382 | so does a chamber with its exits, whose expansion points sit on open cells |
| `DungeonInvariant.DigKeepsInv` | master/internal/dungeon/generator.go:72-78 | any such digging step keeps connectivity, features, stairs, the ring, the frontier on open cells and its bound |
| `DungeonRuns.DescendKeepsInv` | master/internal/dungeon/generator.go:504-526 | a staircase and its new level keep the invariant, the tree of stairs included |
| `DungeonRuns.GrowKeepsInv` | master/internal/dungeon/generator.go:182-212 | so does every choice a growth step can make |
| `DungeonRuns.ReachableSound` | master/internal/dungeon/generator.go:131-136 | the invariant holds in every state of every run, for every level size |
| `DungeonGenerator.Generate` | master/internal/dungeon/generator.go:106-138 | null exactly for a malformed request; otherwise the levels and entrance are those of a finished run of the growth machine |
| `DungeonGenerator.Generator.Run` | master/internal/dungeon/generator.go:131-136 | the main loop ends in a finished run's state, on the same level objects plus new ones |
| `DungeonGenerator.Generator.StepOnce` | master/internal/dungeon/generator.go:131-136 | one turn of the loop is one allowed step, on the same level objects plus new ones |
| `DungeonGenerator.Generator.Grow` | master/internal/dungeon/generator.go:182-212 | spends the point by a choice the machine allows: spent points do nothing, crowded frontiers only passages |
| `DungeonGenerator.Generator.CarveLanding` | master/internal/dungeon/generator.go:149-170 | wherever it is asked for, opens exactly the 3 by 3 cells around the nearest point with room and appends a point for each direction with room |
| `DungeonGenerator.Generator.CarveCorridor` | master/internal/dungeon/generator.go:224-244 | the level, the end and whether it moved are those of the corridor function |
| `DungeonGenerator.Generator.GrowPassage` | master/internal/dungeon/generator.go:246-273 | a passage of some roll's length and turn |
| `DungeonGenerator.Generator.RollSide` | master/internal/dungeon/generator.go:279-302 | a side within the range of the room size |
| `DungeonGenerator.Generator.PlaceableRect` | master/internal/dungeon/generator.go:317-356 | succeeds exactly when the padded room is all carvable rock, and changes nothing |
| `DungeonGenerator.Generator.PaddedIsRock` | master/internal/dungeon/generator.go:345-354 | true exactly when every cell of the room and of the ring around it is carvable rock |
| `DungeonGenerator.Generator.GrowSecretRoom` | master/internal/dungeon/generator.go:384-414 | a vault exactly when one fits; otherwise nothing changes |
| `DungeonGenerator.Generator.ScatterFeatures` | master/internal/dungeon/generator.go:417-443 | appends at most three features strictly inside the chamber, one to a cell |
| `DungeonGenerator.Generator.ChamberExits` | master/internal/dungeon/generator.go:449-502 | at most three exits on different walls but the entry's, each from rock with rock behind, the first never secret, each enqueued; none only when every other wall has a place where none fits |
| `DungeonGenerator.Generator.TryChamber` | master/internal/dungeon/generator.go:369-382 | a chamber exactly when it fits; otherwise level and frontier are untouched |
| `DungeonGenerator.Generator.GrowStairs` | master/internal/dungeon/generator.go:504-526 | descends when there is a level left and the cell is carvable; otherwise nothing changes |
| `DungeonGenerator.Generator.Enqueue` | master/internal/dungeon/generator.go:530-538 | appends unless the frontier is at its ceiling or the cell is not carvable |
| `DungeonLevel.Level.Set` | master/internal/dungeon/dungeon.go:177-181 | one cell of the level as a value changes, none out of bounds |
| `DungeonLevel.Level.Fill` | master/internal/dungeon/generator.go:358-364 | exactly the cells of the rectangle that are on the level change |
| `CombatMovement.ValidateMove` | master/internal/combatmap/movement.go:27-69 | (true, n) when n is the length of a shortest 8-way walk over open cells to an open destination, and 0 or within the speed; (false, 0) when no n is |
| `CombatMovement.Search` | master/internal/combatmap/movement.go:44-68 | the worklist ends with the shortest length, or with no walk of maxSteps steps or fewer |
| `CombatMovement.Expand` | master/internal/combatmap/movement.go:56-66 | every open neighbour is recorded within one step more, and the queue stays sorted by distance without repeats |
| `CombatMovement.RecordedIsShortest` | master/internal/combatmap/movement.go:47-52 | a recorded distance is shortest once everything nearer is expanded |
| `CombatMovement.ExhaustedMeansTooFar` | master/internal/combatmap/movement.go:68 | with the queue empty a cell not reached has no walk within the limit |
| `CombatMovement.NeighborsAreNear` | master/internal/combatmap/movement.go:71-74 | the eight offsets are exactly the king's moves |
| `CombatMoves.CostIsSymmetric` | master/internal/combatmap/movement.go:27-69 | between open cells a move and its reverse are legal alike, at the same cost |
| `CombatMoves.LegalExactly` | master/internal/combatmap/movement.go:27-38 | in plain numbers: from the map to a cell that does not block movement, at the length of a shortest walk, five feet a step within the speed |
| `CombatMoves.CostsCompose` | master/internal/combatmap/movement.go:27-69 | two legal legs make a legal move that costs no more than both, given speed for both |
| `CombatMoves.SpeedOnlyHelps` | master/internal/combatmap/movement.go:35-38 | more speed rejects no legal move and changes no cost |
| `CombatMoves.ShortestIsShort` | master/internal/combatmap/movement.go:44-68 | a shortest walk is shorter than the number of open cells |
| `CombatGenerator.GenerateRoomsAndCorridors` | master/internal/combatmap/generator.go:67-114 | null exactly for a malformed request; otherwise a layout of separated rooms of the requested sizes, each joined to the one before; of the rooms rolled, one an attempt, exactly those are left out that have no space or touch one placed, so some room is placed whenever all have space |
| `CombatGenerator.PlaceOne` | master/internal/combatmap/generator.go:85-111 | the room rolled is added exactly when there is space for it and it keeps clear of the rooms placed |
| `CombatGenerator.RollRoom` | master/internal/combatmap/generator.go:71-93 | sides within the sizes asked for; given up exactly when a side leaves no ring; otherwise inside the ring; every draw has a positive range |
| `CombatGenerator.CarveRoom` | master/internal/combatmap/generator.go:116-122 | exactly the room's cells are opened |
| `CombatGenerator.CarveCorridorBetween` | master/internal/combatmap/generator.go:127-156 | exactly an L of two legs between the centres is opened, bent either way |
| `CombatRooms.OverlapMeansTouching` | master/internal/combatmap/generator.go:39-48 | with a margin of 1 rooms overlap if and only if some cells of them coincide or are a king's move apart |
| `CombatRooms.LayoutsArePlayable` | master/internal/combatmap/generator.go:50-54 | the open cells are one 4-connected region off the outer ring that includes every room |
| `CombatRooms.LayoutExactly` | master/internal/combatmap/generator.go:50-61 | cell by cell: open floor exactly in the rooms and on the bent ways between the middles of each and the one before, and elsewhere a wall that blocks movement and sight |
| `CombatRooms.EveryMoveIsLegal` | master/internal/combatmap/generator.go:50-66 | between any two open cells of a generated map a move is legal once the speed is five feet a cell of the map |
| `CombatGrid.Grid.Set` | master/internal/combatmap/grid.go:84-89 | one cell of the grid as a value changes, none out of bounds |
| `CombatGrid.Grid.Open` | master/internal/combatmap/grid.go:94-97 | true exactly on cells of the map that do not block movement |
| `CombatVisible.Visible` | master/internal/combatmap/fov.go:29-44 | returns exactly the cells the eight octants light, and the origin; just the origin off the map |
| `CombatVisible.CastLight` | master/internal/combatmap/fov.go:58-98 | adds to the shared set exactly the cells the octant function lights for this beam, and terminates |
| `CombatVisible.ScanRow` | master/internal/combatmap/fov.go:65-96 | one row, its child casts included, adds what the row function lights and leaves its beam |
| `CombatFovLaws.RadiusOnlyClips` | master/internal/combatmap/fov.go:35-38 | with radius r exactly the origin and the cells seen without a radius at squared distance below r*r are seen |
| `CombatFovLaws.SightStaysInRange` | master/internal/combatmap/fov.go:74-82 | every seen cell is the origin, or on the map and nearer than the radius |
| `CombatFovLaws.SightFollowsSymmetry` | master/internal/combatmap/fov.go:46-56 | mirroring or transposing the map and the origin does the same to what is seen, both ways |
| `CombatFovLaws.EveryMapHasAnImage` | master/internal/combatmap/fov.go:46-56 | every map has a mirrored and a transposed map for that law to speak of |
| `CombatFovLaws.MappedDistance` | master/internal/combatmap/fov.go:51-56 | every transform keeps the distance from the origin |
| `CombatFovOpen.OpenMapIsSeenWhole` | master/internal/combatmap/fov.go:58-98 | with nothing blocking sight, what is seen is exactly what is on the map and nearer than the radius |
| `CombatFovOpen.OpenMapWithoutRadius` | master/internal/combatmap/fov.go:35-38 | and without a radius, every cell of the map |
| `CombatFovOpen.LightPasses` | master/internal/combatmap/fov.go:64-97 | a cell the beam covers is lit, wall or not, when the beam covers nothing opaque on the rows before it |
| `CombatFovOpen.RowLightsBeam` | master/internal/combatmap/fov.go:68-95 | a row lights every cell its beam covers within the radius, whatever blocks in it |
| `CombatFovRays.ClearLineIsSeen` | master/internal/combatmap/fov.go:58-98 | on any map: a cell nearer than the radius, wall or not, is seen when some straight line from the origin that meets it meets no sight-blocking cell in the rows before |
| `CombatFovRays.NeighboursAreSeen` | master/internal/combatmap/fov.go:29-44 | whatever the walls, the cells next to the origin are seen, walls too |
| `CombatFovRays.RayLights` | master/internal/combatmap/fov.go:58-98 | a cell a clear ray meets is lit by every beam around the ray |
| `CombatFovRays.EveryBeamIsClear` | master/internal/combatmap/fov.go:84-95 | no ray strictly inside a beam an octant begins a row under has met a wall in any row before |
| `CombatFovRays.LitByClearBeam` | master/internal/combatmap/fov.go:58-98 | every cell lit is covered by a beam that began its row, and all rays strictly inside that beam came there past no sight-blocking cell |
| `CombatFovBeams.CastInBeam` | master/internal/combatmap/fov.go:71-78 | no cast lights a cell outside its beam |
| `CombatFovRows.EveryBeamIsABeam` | master/internal/combatmap/fov.go:58-95 | every beam an octant begins a row under, child casts included, is exact and between level and diagonal at its start |
| `CombatFovRows.OctantJumpsExactly` | master/internal/combatmap/fov.go:58-98 | on any map each cell lit beyond the first row is lit under a beam that began the row before, and under each such beam it is next to a transparent cell scanned there if and only if the beam covers a cell of that row on the map |
| `CombatFovRows.LitByChild` | master/internal/combatmap/fov.go:91-93 | whatever a row's scan lights beyond the row, one of the child casts it makes lights |
| `CombatFovBeams.RowIsJumpedExactly` | master/internal/combatmap/fov.go:64-95 | for any beam that begins a row: a cell it lights in the next is next to a transparent cell scanned in this one if and only if the beam covers a cell of this row on the map, whatever the walls |
| `CombatFovBeams.ClearInBeam` | master/internal/combatmap/fov.go:74-78 | a scan goes through no transparent cell its beam does not cover |
| `CombatFovBeams.NoRowIsJumped` | master/internal/combatmap/fov.go:58-98 | so under a beam that is not inverted when the row begins, each cell lit in the next row is next to a transparent cell of the map scanned in this one |
| `CombatFovBeams.ScenesAreRectangular` | master/internal/combatmap/fov.go:69-74 | from a cell of the map every octant looks out on a rectangle, as that law asks |
| `CombatFovJump.ARowCanBeJumped` | master/internal/combatmap/fov.go:59-90 | a 13 by 13 map on which a cell is seen though each cell next to it in the row before is a wall or unseen |
| `RegistrySafety.RoundsNeverLeakOrCross` | master/internal/registry/heartbeat.go:95-172 | in every state of every run, Master restarts included: each call that publishes a campaign is for one read as listed, addressed and unarchived, with its true fields, and was sent in an earlier round whose own reading calls for it; each tracked id was issued for its campaign and no two share one |
| `RegistrySafety.TurnExactly` | master/internal/registry/heartbeat.go:123-172 | one turn, however its calls fare: what it sends, whether its campaign is tracked after, and that no other is touched; a campaign read as listed, addressed and unarchived is registered if untracked, heartbeated if tracked and registered again only when the listing is gone; one read otherwise is deregistered and forgotten; one not read is left alone |
| `RegistryListing.ListingIsTrue` | master/internal/registry/heartbeat.go:177-209 | the listing shows the pack's title, or else the display name, or else the id, the settings' levels, slots and address, whether there is a password, and the players |
| `RegistryListing.CountPlayersExactly` | master/internal/registry/heartbeat.go:186-196 | players are the owners of characters less those of the Master's own |
| `RegistrySafety.StepLogs` | master/internal/registry/heartbeat.go:104-135 | a round registers and heartbeats only campaigns it visited, and deregisters only those it read as not to be listed or did not find |
| `RegistrySafety.TrackedAreOptedIn` | master/internal/registry/heartbeat.go:95-135 | after a round without store errors only campaigns the round read as listed, addressed and unarchived are tracked, however its calls fared |
| `RegistrySafety.SyncKeepsInv` | master/internal/registry/heartbeat.go:123-172 | one campaign's turn keeps the safety invariant and tracks or forgets no other campaign |
| `RegistrySafety.DropAllKeepsInv` | master/internal/registry/heartbeat.go:108-120 | dropping vanished campaigns keeps it, in any order, and forgets exactly those |
| `RegistryConverged.FaultFreeRoundsConverge` | master/internal/registry/heartbeat.go:73-172 | in any history whose faults and changes stop at some state: more than a time to live later, and within one of the start of a round, the live listings are exactly one for each opted-in acceptable campaign, the tracked one, with current fields |
| `RegistryConverged.CalmRunShows` | master/internal/registry/heartbeat.go:73-86 | what a fault-free round shows stays shown for a time to live from its start, through later rounds |
| `RegistryConverged.RoundShows` | master/internal/registry/heartbeat.go:95-121 | after a fault-free round every opted-in acceptable campaign is tracked and listed with its current fields |
| `RegistryConverged.SyncShows` | master/internal/registry/heartbeat.go:141-171 | one fault-free turn does so for its campaign, from any tracked or untracked state, registering again when the listing is gone |
| `RegistryConverged.OptOutIsImmediate` | master/internal/registry/heartbeat.go:131-137 | a turn that finds a tracked campaign opted out takes its listing down at once if the call arrives |
| `RegistryConverged.LostReplyShowsTwice` | master/internal/registry/heartbeat.go:141-149 | after a registration whose answer is lost the next round lists the campaign a second time |
| `RegistryExact.ShownOnceExactly` | master/internal/registry/heartbeat.go:139-171 | after a fault-free turn for an opted-in campaign the public sees it once, as the listing tracked, if and only if no listing of it that has not expired was untracked before |
| `RegistryExact.NotShownExactly` | master/internal/registry/heartbeat.go:131-137 | after one for a campaign opted out the public does not see it, on exactly that condition |
| `RegistryExact.OptingOutLeavesTheStray` | master/internal/registry/heartbeat.go:129-137 | after a registration whose answer is lost an opting-out turn changes nothing, and the listing stays up until it expires |
| `RegistryExact.RoundConvergesExactly` | master/internal/registry/heartbeat.go:95-121 | one fault-free round leaves the directory right if and only if every listing of this Master that has not expired by its end was tracked, and none is of a campaign opted in with fields the directory turns away |
| `RegistryExact.ThePublicSeesTheTruth` | master/internal/registry/heartbeat.go:27-34 | once converged, every live listing of this Master is of a campaign read as listed, addressed and unarchived, with its true fields |
| `RegistryConvergence.RoundSettles` | master/internal/registry/heartbeat.go:95-121 | a fault-free round refreshes no listing but the tracked ones of opted-in campaigns |
| `RegistryConvergence.HeartbeatSettles` | master/internal/registry/client.go:133-160 | a fault-free heartbeat fails only for unacceptable fields, and answers not found only when the listing is gone |
| `RegistryLoop.HeartbeatLoop.RunOnce` | master/internal/registry/heartbeat.go:95-121 | the loop makes a round of the model, vanished campaigns in whatever order |
| `RegistryLoop.HeartbeatLoop.Sync` | master/internal/registry/heartbeat.go:123-172 | directory, tracked campaigns and calls sent end as the model's turn says |
| `RegistryLoop.HeartbeatLoop.DropVanished` | master/internal/registry/heartbeat.go:108-120 | each tracked campaign no longer listed is dropped once, no other |
| `RegistryLoop.HeartbeatLoop.SendHeartbeat` | registry/internal/lobby/handlers.go:167-188 | fields are looked at before the listing; the answer and the store are the model's |
| `RegistryLoop.HeartbeatLoop.RegisterListing` | registry/internal/lobby/handlers.go:142-165 | a listing is made exactly when the call arrives with acceptable fields, and known here only if the answer does |
| `RegistryStore.Store.Heartbeat` | registry/internal/lobby/lobby.go:152-180 | unknown and mismatched calls change nothing; otherwise every field and the time are replaced |
| `RegistryStore.Store.Remove` | registry/internal/lobby/lobby.go:182-199 | deletes exactly the listing whose token matches, and nothing when rejected |
| `RegistryStore.Store.Live` | registry/internal/lobby/lobby.go:200-220 | every listing heard from within the time to live once, no other, without its token |
| `RegistryStore.Store.Sweep` | registry/internal/lobby/lobby.go:221-235 | exactly the listings not heard from within the time to live go |
| `PackTheorems.AllOrNothing` | master/internal/campaignpack/write.go:75-134 | with distinct paths, whatever fails: a failed call leaves the disk as it was if and only if each file it wrote was undone and had been new or readable, or was not undone and holds what it held before; a successful one leaves a pack that loads, each path with its new content and no other file changed |
| `PackTheorems.TidyCallsAreUndone` | master/internal/campaignpack/write.go:78-81 | so with distinct paths, readable files, writes that do not break off and undoing that works, a failed call leaves the disk as it was |
| `PackTheorems.FailureRestoresExactly` | master/internal/campaignpack/write.go:96-134 | whatever fails, undoing included, a failed call leaves the disk as it was if and only if what each path ends with, read off the files and their fates, is what it held at first |
| `PackTheorems.UndoneEndsWith` | master/internal/campaignpack/write.go:101-127 | a path ends with what the last undoing of it that did anything left, or else what a broken-off write left, or else its last content |
| `PackTheorems.TidyFailureRestoresExactly` | master/internal/campaignpack/write.go:96-134 | when writes do not break off and undoing works, that is exactly that for each path written the last write of it found, and could read, what was there at first |
| `PackTheorems.DistinctEndsAsBefore` | master/internal/campaignpack/write.go:101-127 | with distinct paths the general condition comes down to that one, file by file |
| `PackTheorems.DistinctRecoverable` | master/internal/campaignpack/write.go:112-117 | and when nothing breaks off and undoing works, to each file written having been readable or new |
| `PackTheorems.OtherFilesAreUntouched` | master/internal/campaignpack/write.go:75-84 | whatever fails, undoing included, no file the call does not name changes |
| `PackTheorems.FailsExactly` | master/internal/campaignpack/write.go:85-134 | the call succeeds if and only if every path is allowed and not campaign.md, every step succeeds, and the merged pack loads |
| `PackTheorems.WhyItFails` | master/internal/campaignpack/write.go:85-134 | the error names the first path refused, or else the first file whose directory or write failed, or else the merged pack; nothing is written when a path is refused |
| `PackTheorems.OverlaidAt` | master/internal/campaignpack/write.go:111-127 | after the writes each path holds its last content and every other file its own |
| `PackTheorems.ARepeatedPathIsNotRestored` | master/internal/campaignpack/write.go:101-109 | a path given twice is left with the first of its new contents |
| `PackTheorems.AnUnreadableFileIsLost` | master/internal/campaignpack/write.go:114-117 | a file that is there but cannot be read is gone after a failed call |
| `PackTheorems.ATornWriteIsLeft` | master/internal/campaignpack/write.go:122-127 | what a write that broke off left stays after the failed call |
| `PackTheorems.AllowedPathsStayInside` | master/internal/campaignpack/write.go:13-30 | an allowed path does not start with a separator, has at most one, has one dot and no backslash |
| `PackTheorems.AllowedExactly` | master/internal/campaignpack/write.go:13-30 | allowed are campaign.md and, straight under locations, npcs or encounters, a name of letters, digits and hyphens, no hyphen first, with .md; no other path |
| `PackTheorems.InstalledPack` | master/internal/campaignpack/write.go:50-71 | a successful new pack loads, each path holds its last content, and every other file is as it was |
| `PackTheorems.InstallFailsExactly` | master/internal/campaignpack/write.go:40-72 | it succeeds if and only if the name is one plain path component, every path is allowed, every step works and the pack loads |
| `PackTheorems.WhyInstallFails` | master/internal/campaignpack/write.go:40-72 | and when it fails the error is the name's, a path's, a step's or the pack's, with nothing changed before the directory is made |
| `PackTheorems.InstallRestoresExactly` | master/internal/campaignpack/write.go:40-72 | a failed new pack leaves the disk as it was if and only if it was refused before it was begun, or everything in its directory before survives deleting and every file of the pack that survives ends as it was |
| `PackTheorems.DeletedWithIt` | master/internal/campaignpack/write.go:40-72 | so when deleting works, exactly when its directory held nothing before |
| `PackTheorems.InstallStaysInItsDirectory` | master/internal/campaignpack/write.go:40-72 | writing a new pack changes nothing outside its directory, whatever fails |
| `PackWriter.AddFilesAndValidate` | master/internal/campaignpack/write.go:85-134 | error and disk are those of the model for the same failures |
| `PackWriter.WriteAndValidate` | master/internal/campaignpack/write.go:40-72 | error and disk are those of the model for the same failures |
| `PackWriter.Rollback` | master/internal/campaignpack/write.go:101-109 | undoes the recorded writes oldest first |

## Left out

- Rendering: `render.go`, `Level.String`, and the token lookups of `combatmap/state.go`.
- HTTP, JSON and the wire format between Master and registry; the model has calls that are
  delivered, lost, answered into the void, or refused.
- The seeding, quality and probabilities of `math/rand`: a draw is any value in its range, so
  claims about averages (cramped chambers smaller than huge ones) are not made.
- Fixed-width integers: counts and coordinates do not overflow here.
- Rounding of slopes: `fov.go` computes them in float64, here they are exact fractions.
- Sealed vaults: not claimed, since a later corridor may run into one.
- Level and tile predicates with no part in generation (`BlocksLOS`, `IsSecret`, `IsValid` of
  tiles and stair directions).
- Random ids and tokens: ids come from a counter, which keeps only that they never repeat;
  tokens are free parameters.
- Limits on request rate and on the number of listings: they are among the reasons a call is
  refused.
- Lengths of listing fields are counted in characters, not bytes, and which addresses parse as
  URLs is a parameter.
- Stores of settings, characters and packs behind the heartbeat: what a turn reads is given.
- The heartbeat's ticker: a history is any sequence of rounds, events and Master restarts.
- `LoadPack`: an uninterpreted predicate of the disk and the directory.
- Directories on disk: files are keyed by full path, and the empty directories a failed call
  leaves behind are not seen; paths are joined without cleaning.
- Partial effects of failed directory creation, and of a removal that fails while undoing: each changes nothing.
- RegistryStore.Store.Create: does not model the capacity check of lobby.go line 133; a full store refuses the call before it gets here.
- RegistryConverged.FaultFreeRoundsConverge: speaks of campaigns whose fields the directory accepts, because it turns the others away; and of a fixed list of campaigns without repeats.
- Generating pack content, policies, passwords, sign-in, providers and the web clients.
