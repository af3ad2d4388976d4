# Haul fleet, routing, safety chain and telemetry: a verified model

A Dafny model of the parts of the mine system that decide where trucks go, when a motor
is cut and which telemetry is believed. `dafny verify dfyconfig.toml` checks all of it.

Code that updates state in place is modelled by classes whose methods are proved equal to
functions on values; what the code promises is then proved about those functions, over
every input, every run and every reachable state.

**The haul fleet** (`backend/app/simulation/haul_fleet.py`). `HaulModel` follows one truck
update and one tick branch by branch; `HaulFleet` does the same on truck objects.
`HaulInvariants` proves the phase regions, the payload and that each bay holds one truck,
for every truck step, tick and run. `HaulLimits` says exactly where a truck has to stop and
that it goes as far as it may, `HaulTraffic` proves order, following distance and
conflict-zone exclusion; `HaulProgress` that no tick is idle; `HaulThroughput` turns that
into a bound on the number of driving ticks that deliver k trips, with pauses and emergency
stops in between. `HaulStop` proves that loaded trucks leave the loading stop one at a time
and take turns, so that nobody is passed there twice by the same truck, and `HaulFairness`
that therefore every single truck delivers. `HaulLedger` proves that time and distance are
conserved and that trips do not overlap, `HaulColumns` that each second and metre is booked
where an observer of phases and places would book it.
The comparison `interval != approaching` sets an element of the configuration against a
tuple. Intervals read from YAML are lists, which differ from every tuple, so then an
interval counts as different even from itself. `Config.listIntervals` selects the reading,
and exclusion is proved for both.

**Routing** (`backend/app/mine_map/graph.py`, `backend/app/navigation/router.py`).
`MineGraph` holds the adjacency index with its synthesized reverse edges, `RouteCost` the
seven-term cost, `Routing` the correctness argument of the search (a rank of settled
nodes makes the links acyclic even where edges cost nothing), `RouteOptimizer` the search,
path reading and rerouting as they run, and `RouteTerms` what a route costs in terms of the
roads it drives and the direction it drives them in.
The index and `get_edge` do *not* agree on every network: an edge stored under the name of
another edge's reverse shadows it. `MineGraph.IndexAgreesExactly` says exactly when they do.

**The safety chain** (`firmware/main_esp32/src/SafetyController.cpp`, `main.cpp`,
`NodeLink.cpp`, `TimeUtils.h`, `firmware/xiao_shared/include/FogSenXiaoNode.h`,
`backend/app/safety/emergency.py`). Clocks are 32 bits wide and wrap; runs carry unbounded
true time beside them. `SafetyVerdicts` and `EmergencyVerdicts` say for every state and
input which state, level and reason the two controllers report; `SafetyPersistence` proves
exactly when the motor is cut and what releases it, `ClockShift` that only time differences
matter, `Lockstep` that the C++ and the Python controller report the same level,
`EvidenceSoundness` exactly which ranges the scanner cache vouches for and `EvidenceGaps`
how rarely it may be consulted; `NodeRestart` says which packets of a restarted node its
link lets in. `ScanSweep`, `SensorNode`, `SensorSteps` and `SensorTiming` follow the front
node from its deadlines to its packets in true time; `SlowestSweep` shows that the evidence
stands until the sweep is back exactly when twelve cycles and one scan-to-send lag fit into
1800 ms, which with the slowest settling the node accepts leaves room for a poll every
millisecond and for nothing slower; `FrontCoverage` joins node, link and cache: coverage
never lapses. Persistence holds with the motor latch on, as configured. With it off the
early return after a sensor-fault cut leaves the obstacle candidate as it was;
`SafetyPersistence.UnlatchedPersistenceFails` shows the case and `SafetyUnlatched` says what
the obstacle cut then depends on and exactly which runs are judged rightly.

**Telemetry** (`LoraPacket.h`, `SerialTxQueue.cpp`, `serial_protocol.py`, `live_runtime.py`,
`redundant_reader.py`, `trip_logger.py`). `PacketCrc` runs the checksum bit by bit (the
polynomial is that of section 2 of ITU-T V.41, preset 0xFFFF); `CrcStrength`, `CrcParity`
and `CrcDistance` prove what it detects, `LineReassembly`, `TransmitQueue` and `Transport`
the round trip from the transmit ring to the reassembled lines, `StreamDedup`,
`RedundantReader` and `LinkDedup` the deduplication over redundant links (the comparison is
that of section 3.2 of RFC 1982 with 32 bits), `TripHistory`, `TripRetention` and
`TripLogger` the bounded trip history. Frames numbered 5 or less can be mistaken for a
controller restart and then be accepted twice: `StreamDedup.EarlyFramesRepeat` is such a
run, and `StreamDedup.AcceptedAreMaximaExactly` says exactly which runs are free of it.
`BootChange` shows a second weakness: a late frame of the previous boot, delivered after a
restart, keeps out exactly those frames of the new one whose counters are not past its own.
It says exactly when a new boot with late frames in between loses nothing.

## Model

| member | source | states |
|---|---|---|
| `HaulFleet.HaulFleet.Advance` | backend/app/simulation/haul_fleet.py:124-205 | updating truck objects in place, one after another, gives the fleet and the completed trips of the tick function on values |
| `HaulFleet.HaulFleet.Move` | backend/app/simulation/haul_fleet.py:207-226 | a move goes the lesser of reach and room to the limit, and books its time once and its metres on the right ledger |
| `HaulFleet.HaulFleet.ConflictLimit` | backend/app/simulation/haul_fleet.py:96-107 | the loop over groups yields the limit of all groups in which another truck occupies a different interval |
| `HaulFleet.HaulFleet.Load` | backend/app/simulation/haul_fleet.py:158-164 | loading fills the bed in proportion to time and ends full |
| `HaulFleet.HaulFleet.Tip` | backend/app/simulation/haul_fleet.py:186-204 | reversing, dumping, lowering and exiting in turn, with the docking distance on the right ledger |
| `HaulFleet.HaulFleet.Drive` | backend/app/simulation/haul_fleet.py:146-157 | a truck on the road stops behind traffic and busy bays, enters a free bay, or completes its trip |
| `HaulFleet.HaulFleet.SetTripNumbers` | backend/app/simulation/haul_fleet.py:109-113 | every truck resumes on its number with the plan of that trip; nothing else changes |
| `HaulModel.ConstructedThenRenumbered` | backend/app/simulation/haul_fleet.py:47-113 | a fleet constructed and then renumbered is the fleet that all runs start from |
| `HaulFleet.HaulFleet.constructor` | backend/app/simulation/haul_fleet.py:47-49 | the starting queue, one spacing apart, at time zero |
| `HaulInvariants.StepKeepsTruck` | backend/app/simulation/haul_fleet.py:144-204 | one update keeps its truck in the stretch of road, timer range and payload of its phase |
| `HaulInvariants.StepKeepsBays` | backend/app/simulation/haul_fleet.py:141-178 | one update never puts a second truck into a bay, although a bay left during the tick still counts as taken |
| `HaulInvariants.SweepKeepsOk` | backend/app/simulation/haul_fleet.py:144-205 | the invariants survive every prefix of a tick |
| `HaulInvariants.BaysAreExclusive` | backend/app/simulation/haul_fleet.py:141-178 | in every reachable state at most one truck is loading and at most one is between reversing and exiting |
| `HaulInvariants.LoadFollowsPhase` | backend/app/simulation/haul_fleet.py:158-204 | in every reachable state the payload is the planned fraction while hauling and reversing, nothing from lowering to queueing, never more than planned, and each phase keeps to its stretch of road |
| `HaulLimits.ConflictLimitExactly` | backend/app/simulation/haul_fleet.py:96-107 | the limit is lowered if and only if another truck is inside a widened interval distinguished from the one a group has next for this truck, and that one lies below the limit; then to the least such place two metres before one |
| `HaulLimits.MoveLimitExactly` | backend/app/simulation/haul_fleet.py:147-175 | on the road a truck has to stop at the nearest of: the end of its road, one spacing before a truck it follows or a busy bay, and the zones |
| `HaulLimits.MovesAsFarAsItMay` | backend/app/simulation/haul_fleet.py:207-220 | a move goes as far as planned speed, turn and stops let it, neither back nor further, and its speed is the metres over the tick |
| `HaulLimits.StepOutcome` | backend/app/simulation/haul_fleet.py:144-204 | a truck enters its next phase exactly when its service ends or it arrives at its stop and the bay is free; what it carries over, which bay it takes and when a trip is completed |
| `HaulLimits.TickExactly` | backend/app/simulation/haul_fleet.py:124-145 | a tick that does not run halts the fleet without any clock going on, an emergency stop books idle time, and otherwise each truck takes its step among those before it already moved and those after it not yet |
| `HaulLimits.BaysExactly` | backend/app/simulation/haul_fleet.py:141-143 | the bays spoken for at the start of a tick are those with a truck in them |
| `HaulLimits.FleetStarts` | backend/app/simulation/haul_fleet.py:47-49 | every truck starts empty and standing on its first cycle, one spacing behind the one before it |
| `HaulLimits.SharesExactly` | backend/app/simulation/haul_fleet.py:158-192 | the bed fills in proportion to time; tipping it stays full for three tenths of the time and empties evenly until nine tenths |
| `HaulTraffic.NoOvertaking` | backend/app/simulation/haul_fleet.py:144-175 | a truck strictly behind another stays strictly behind it over a tick, unless the other wraps to the loading bay |
| `HaulTraffic.FollowingDistance` | backend/app/simulation/haul_fleet.py:147-175 | a truck that moves ends the tick a queue spacing behind every truck that was ahead of it |
| `HaulTraffic.StepKeepsSpacing` | backend/app/simulation/haul_fleet.py:167-171 | within one update a moving truck ends a queue spacing behind its ahead set |
| `HaulTraffic.EntryIsRefused` | backend/app/simulation/haul_fleet.py:96-107 | a moving truck does not enter a widened interval while another truck is in a different one of the group |
| `HaulTraffic.ZonesStayExclusive` | backend/app/simulation/haul_fleet.py:96-107 | conflict-zone exclusion in every reachable state, for intervals held as tuples and as lists |
| `HaulTraffic.ZoneHoldsNoOpposingTrucks` | backend/app/simulation/haul_fleet.py:97-106 | read off for two trucks: never in different widened intervals of a group at once |
| `HaulProgress.NoDeadlock` | backend/app/simulation/haul_fleet.py:141-205 | without conflict zones every running tick takes some truck further in cycle, phase, distance and timer, and takes none back |
| `HaulProgress.RunNeverDeadlocks` | backend/app/simulation/haul_fleet.py:141-205 | the same in every reachable state |
| `HaulThroughput.StalledTickGains` | backend/app/simulation/haul_fleet.py:144-204 | a tick that changes no phase serves the trucks in service for its whole length or takes the furthest truck its full reach |
| `HaulThroughput.PatienceIsRewarded` | backend/app/simulation/haul_fleet.py:124-204 | within as many driving ticks as outlast every service and every drive of the circuit some truck enters its next phase |
| `HaulThroughput.FleetKeepsDelivering` | backend/app/simulation/haul_fleet.py:124-205 | so eight times k such stretches, and seven more for each truck, deliver k trips, however many pauses and emergency stops fall between the driving ticks |
| `HaulThroughput.SomePatienceOutlasts` | backend/app/simulation/haul_fleet.py:115-122 | when service times are bounded there is such a number of ticks |
| `HaulThroughput.PaceFromBounds` | backend/app/simulation/haul_fleet.py:209-215 | bounds on plan speed, turn rate, cruise and tick length give the pace that this needs |
| `HaulStop.StopLimit` | backend/app/simulation/haul_fleet.py:165-173 | a loaded truck at the loading stop has no room exactly while another one is on the road within the queue spacing and the tip, the mark of the tipping bay notwithstanding |
| `HaulStop.AfterInSingleFile` | backend/app/simulation/haul_fleet.py:165-173 | loaded trucks leave in single file: over any ticks at most one truck at a time shuts the stop |
| `HaulStop.TurnGoesOn` | backend/app/simulation/haul_fleet.py:144-175 | in a tick that leaves a truck waiting at the stop, the trucks that leave follow in cyclic update order behind the one that shut it, up to the one that shuts it now; none leaves if it is the same |
| `HaulStop.PassesOnce` | backend/app/simulation/haul_fleet.py:144-175 | in every run, while a loaded truck waits at the stop, each other truck leaves it at most once |
| `HaulFairness.EveryTruckGoesOn` | backend/app/simulation/haul_fleet.py:124-205 | within a number of driving ticks that the size of the fleet gives, every truck enters its next phase, except one that is loaded and at the loading stop |
| `HaulFairness.LeavesTheStop` | backend/app/simulation/haul_fleet.py:144-175 | a loaded truck has left the loading stop after six such stretches for each truck of the fleet |
| `HaulFairness.EveryTruckMovesOn` | backend/app/simulation/haul_fleet.py:124-205 | so within that many and one more every truck enters its next phase, wherever it is |
| `HaulFairness.EveryTruckDelivers` | backend/app/simulation/haul_fleet.py:124-205 | every single truck of every run delivers k trips within eight k plus seven such rounds of driving ticks, however many pauses and emergency stops fall between them |
| `HaulLedger.RunBalances` | backend/app/simulation/haul_fleet.py:129-226 | in every reachable state the books of every truck balance in time, distance, place and trip numbers |
| `HaulLedger.TimeIsConserved` | backend/app/simulation/haul_fleet.py:129-139 | completed cycles plus the current ledger of a truck equal the elapsed time, through pauses and emergency stops |
| `HaulLedger.DistanceIsConserved` | backend/app/simulation/haul_fleet.py:187-226 | loaded metres are the distance while hauling and that plus a docking afterwards; every completed trip is its position, two dockings and its queue travel |
| `HaulLedger.DockingAddsUp` | backend/app/simulation/haul_fleet.py:188-195 | the capped steps of a docking add up to exactly its length |
| `HaulLedger.CompletedTripOk` | backend/app/simulation/haul_fleet.py:228-243 | a completed trip carries the whole ledger of its cycle |
| `HaulLedger.TripsDoNotOverlap` | backend/app/simulation/haul_fleet.py:228-239 | a truck's next trip starts no earlier than its last one ended when the timestamps keep up with the simulated time |
| `HaulColumns.ColumnsAreTrue` | backend/app/simulation/haul_fleet.py:129-243 | in every reachable state the five columns of time and the two of distance are those of an observer who sees phases and places only, and so are those of every completed trip |
| `HaulColumns.StepIsBooked` | backend/app/simulation/haul_fleet.py:144-226 | the step of a truck books its seconds and metres where the observer does, and hands over exactly the cycle he has noted |
| `MineGraph.MineRoadGraph.RebuildAdjacency` | backend/app/mine_map/graph.py:53-76 | the rebuilt index lists, for each node, every edge leaving it and every reverse of a two-way edge reaching it, in network order |
| `MineGraph.ListMembers` | backend/app/mine_map/graph.py:53-76 | a node's list holds exactly those edges |
| `MineGraph.IndexAgreesExactly` | backend/app/mine_map/graph.py:53-104 | index and `get_edge` agree if and only if no edge is stored under the name of another one's reverse |
| `MineGraph.PlainIdsAgree` | backend/app/mine_map/graph.py:53-104 | so they agree when base identifiers do not end in the reverse suffix |
| `MineGraph.ShadowedReverseDisagrees` | backend/app/mine_map/graph.py:81-86 | a network on which they disagree |
| `MineGraph.MineRoadGraph.UpdateEdgeStatus` | backend/app/mine_map/graph.py:109-129 | the update changes the named base edge alone and leaves the index up to date |
| `MineGraph.LookupExactly` | backend/app/mine_map/graph.py:78-104 | looking up a stored edge gives it, the name of its reverse gives the same road from the other end with the opposite grade unless an edge is stored under that name, and anything else is unknown |
| `MineGraph.UpdateExactly` | backend/app/mine_map/graph.py:109-129 | the update changes the status of the named base edge and no other, its risk to the given one but not below 0, its speed limit to the given one but not below 1 |
| `MineGraph.BothDirectionsChange` | backend/app/mine_map/graph.py:116-128 | both directions of the edge change together, and every entry after the update is one before it with the new status |
| `MineGraph.OtherEntriesStay` | backend/app/mine_map/graph.py:116-128 | the entries of all other edges stay |
| `RouteCost.EdgeCostTerms` | backend/app/navigation/router.py:41-144 | an edge has a cost exactly when it is not closed and bears the gross weight; the seven terms are non-negative and add up |
| `Routing.PathsCostAtLeast` | backend/app/navigation/router.py:158-195 | while the frontier costs at least m, any path either ends at a settled node at no less than its distance or costs at least m |
| `Routing.PoppedEndIsOptimal` | backend/app/navigation/router.py:159-162 | when the destination is popped its distance is the least of all paths, stale entries and zero-cost edges included |
| `Routing.DryMeansUnreachable` | backend/app/navigation/router.py:158-198 | when the heap runs dry there is no traversable path |
| `Routing.SkippingStale` | backend/app/navigation/router.py:164-165 | dropping a stale entry keeps the search invariant |
| `Routing.Settling` | backend/app/navigation/router.py:167-195 | expanding a node keeps the search invariant; a node popped again pushes nothing, so the search ends |
| `RouteOptimizer.PopMin` | backend/app/navigation/router.py:159 | the popped entry is a least one and the rest are the others |
| `RouteOptimizer.Relax` | backend/app/navigation/router.py:167-195 | the inner loop lowers exactly the distances its arcs improve and links them back |
| `RouteOptimizer.Search` | backend/app/navigation/router.py:153-198 | the search ends; it finds the destination at its least distance, or there is no path |
| `RouteOptimizer.ReadPath` | backend/app/navigation/router.py:200-215 | following the links ends at the start, and read backwards they are a path of the reported cost |
| `RouteOptimizer.SumsAddUp` | backend/app/navigation/router.py:218-236 | the seven sums of a path add up to what the path costs |
| `RouteOptimizer.RouteOptimizer.FindRoute` | backend/app/navigation/router.py:146-263 | a route comes back exactly when one can be driven, is cheapest among all paths, and reports its own nodes, edges and costs |
| `RouteOptimizer.RouteOptimizer.CheckDynamicReroute` | backend/app/navigation/router.py:304-343 | an advisory comes back exactly when the closure touches the route and another can be driven; the new one is cheapest and uses neither direction of the closed edge |
| `RouteOptimizer.PathAvoidsClosed` | backend/app/navigation/router.py:51-57 | no path takes a closed or too weak edge, in either direction |
| `RouteOptimizer.RouteAvoidsClosed` | backend/app/navigation/router.py:304-343 | a cheapest route names neither direction of a closed edge |
| `RouteTerms.LegDrivesRoad` | backend/app/navigation/router.py:41-179 | every leg drives a road of the network along, or a two-way one back, and costs what that road at the grade in that direction costs: the amount of each of the seven terms and the time |
| `RouteTerms.RoadCanBeDriven` | backend/app/navigation/router.py:167-187 | every open road that bears the gross weight can be driven along, and back if it is two-way |
| `RouteTerms.GradientFreeExactly` | backend/app/navigation/router.py:70-79 | with a positive weight a leg pays for gradient if and only if it climbs its road in the direction driven; entered from the other end, if and only if the road falls |
| `RouteTerms.ClimbingCostsMore` | backend/app/navigation/router.py:70-110 | from level ground upwards time, payload and gradient terms grow with grade and load |
| `RouteTerms.RouteIsCosted` | backend/app/navigation/router.py:217-236 | every figure of a reported route is the sum over its legs of what driving their roads comes to |
| `SafetyControl.SafetyController.EvaluateInput` | firmware/main_esp32/src/SafetyController.cpp:107-181 | the new fields and the output are those of the evaluation on values |
| `SafetyControl.SafetyController.TryReset` | firmware/main_esp32/src/SafetyController.cpp:70-91 | a reset clears everything when its guard holds and nothing otherwise |
| `SafetyControl.SafetyController.Cut` | firmware/main_esp32/src/SafetyController.cpp:55-64 | a cut keeps the time of the first cut and latches as configured or forced |
| `SafetyControl.SafetyController.TriggerManualTest` | firmware/main_esp32/src/SafetyController.cpp:66-68 | a manual test cuts and latches whatever is configured; it is the test event of all runs |
| `SafetyVerdicts.VerdictExactly` | firmware/main_esp32/src/SafetyController.cpp:93-181 | every state and every reason if and only if, for all states and inputs, in terms of direction, coverage, range, the distances and how long a hazard has lasted |
| `SafetyVerdicts.FieldsExactly` | firmware/main_esp32/src/SafetyController.cpp:107-181 | the candidates, the cut and the latch after an evaluation, likewise |
| `SafetyVerdicts.SafeExactly` | firmware/main_esp32/src/SafetyController.cpp:154-180 | safe is reported if and only if nothing is latched, direction, coverage and range are there and the range is beyond the warning distance |
| `SafetyVerdicts.ResetExactly` | firmware/main_esp32/src/SafetyController.cpp:70-91 | a reset is accepted if and only if speed, coverage, range and warning distance allow it |
| `SafetyVerdicts.DistancesExactly` | firmware/main_esp32/src/SafetyController.cpp:35-53 | each distance is the greatest of the standing one, the way in its time and the way to stop with the margin |
| `SafetyPersistence.CutExactly` | firmware/main_esp32/src/SafetyController.cpp:107-181 | with the latch on the motor is cut if and only if, since the last release, it was cut by hand or a hazard was seen by every evaluation over a span of at least its persistence |
| `SafetyPersistence.CutIsAttributed` | firmware/main_esp32/src/SafetyController.cpp:121-152 | the evaluation that cuts names the hazard that persisted, loss of sight first, and the true time |
| `SafetyPersistence.OnlyResetReleases` | firmware/main_esp32/src/SafetyController.cpp:80-113 | a latched cut survives every event but a reset whose guard holds |
| `SafetyPersistence.ResetThenEvaluate` | firmware/main_esp32/src/SafetyController.cpp:70-181 | evaluating the input of an accepted reset cuts again exactly when the truck counts as moving and a hazard needs no persistence |
| `SafetyPersistence.ResetNeverCutsAgain` | firmware/main_esp32/src/SafetyController.cpp:70-181 | so never when the reset speed is below the moving floor, as configured |
| `SafetyPersistence.UnlatchedPersistenceFails` | firmware/main_esp32/src/SafetyController.cpp:121-131 | without the latch an obstacle cut can follow an evaluation that saw no obstacle |
| `SafetyUnlatched.FaultStopExactly` | firmware/main_esp32/src/SafetyController.cpp:121-134 | without the latch the sensor-fault cut is still exact at every evaluation |
| `SafetyUnlatched.CandidateUpToDateExactly` | firmware/main_esp32/src/SafetyController.cpp:121-152 | without the latch the obstacle candidate is up to date after every evaluation if and only if the obstacle never comes or goes at an evaluation at which the loss of sight had persisted |
| `SafetyUnlatched.UnlatchedObstacleStopExactly` | firmware/main_esp32/src/SafetyController.cpp:121-152 | without the latch an evaluation cuts for the obstacle if and only if loss of sight had not persisted and the obstacle had, counting only the evaluations that loss of sight did not cut short |
| `SafetyUnlatched.UnlatchedRunRightExactly` | firmware/main_esp32/src/SafetyController.cpp:121-152 | so every obstacle verdict of a run is right if and only if leaving those evaluations out makes no difference wherever loss of sight does not come first |
| `SafetyUnlatched.NoBlindChangeIsEnough` | firmware/main_esp32/src/SafetyController.cpp:121-152 | in particular when the obstacle never comes or goes while blind |
| `ClockShift.VerdictsIgnoreShift` | firmware/main_esp32/src/SafetyController.cpp:107-181 | moving every clock value by the same amount modulo 2^32 changes no verdict of any run |
| `Clock.ElapsedIsTrue` | firmware/main_esp32/src/TimeUtils.h:7-9 | within one wrap the 32-bit difference is the true one |
| `Clock.TimeReachedIsTrue` | firmware/main_esp32/src/TimeUtils.h:15-17 | from half a wrap before the deadline to just under half a wrap after it the signed test tells whether it has passed |
| `EmergencyControl.EmergencyController.EvaluateReadings` | backend/app/safety/emergency.py:82-174 | the new fields and the state are those of the evaluation on values |
| `EmergencyVerdicts.LevelExactly` | backend/app/safety/emergency.py:82-174 | each level if and only if, for all states and readings, with the latch time and the candidate |
| `EmergencyVerdicts.NearestExactly` | backend/app/safety/emergency.py:88-107 | which readings count, and the nearest range: the least that a counting reading sees, or the furthest reach when none sees anything |
| `EmergencyControl.LeastDetected` | backend/app/safety/emergency.py:97-105 | the nearest range is the least of the readings that detect something, if any |
| `Lockstep.DistancesAreOrdered` | firmware/main_esp32/src/SafetyController.cpp:35-53 | emergency within critical within warning at every speed |
| `Lockstep.DistancesGrowWithSpeed` | firmware/main_esp32/src/SafetyController.cpp:35-53 | no distance shrinks at a higher speed |
| `Lockstep.BrakingAgreesExactly` | firmware/main_esp32/src/SafetyController.cpp:37-38 | the two braking distances agree exactly when the truck stands or the deceleration is at least the C++ floor of 0.01 |
| `Lockstep.DistancesAgree` | backend/app/safety/emergency.py:61-80 | with equal parameters both controllers use the same three distances |
| `Lockstep.StepCorresponds` | backend/app/safety/emergency.py:110-174 | one comparable frame keeps the two states in correspondence, on wrapping and unbounded clock |
| `Lockstep.LevelsAgree` | backend/app/safety/emergency.py:82-174 | on any run of comparable frames both report the same level at every step |
| `NodeLink.Node.HandlePacket` | firmware/main_esp32/src/NodeLink.cpp:181-200 | a packet is stored and counted exactly when its sequence is accepted |
| `NodeLink.Node.AcceptSequence` | firmware/main_esp32/src/NodeLink.cpp:93-116 | the counters and the verdict are those of the sequence rule, restarts included |
| `NodeRestart.AcceptanceExactly` | firmware/main_esp32/src/NodeLink.cpp:93-116 | a packet is accepted if and only if it is the first, a restart or ahead, in terms of the two clocks and sequences; each counter goes up exactly when and by as much as it should |
| `NodeRestart.NewBootExactly` | firmware/main_esp32/src/NodeLink.cpp:93-116 | packets of a new boot in order: all are refused before the first that is a restart or ahead of the last one heard of, all are accepted from it on |
| `NodeRestart.RestartComesThrough` | firmware/main_esp32/src/NodeLink.cpp:98-106 | in particular when the first is heard within ten seconds of power-up after a boot that ran more than a second longer and sent more; one restart is counted |
| `NodeRestart.FreshExactly` | firmware/main_esp32/src/NodeLink.cpp:203-210 | a packet is fresh for half a second after it was received |
| `NodeRestart.HealthExactly` | firmware/main_esp32/src/main.cpp:206-262 | the scanner is healthy with bits 0 and 3 of the mask both set, the fixed sensor with bit 1 |
| `NodeLink.CountingStep` | firmware/main_esp32/src/NodeLink.cpp:93-116 | an accepted packet adds its sequence advance to accepted plus dropped, or one if it begins a boot |
| `NodeLink.AcceptedPlusDropped` | firmware/main_esp32/src/NodeLink.cpp:93-200 | over any run accepted plus dropped is the sequence advance of every boot plus one per boot, modulo 2^32 |
| `ScanSweep.SweepIsTriangle` | firmware/xiao_shared/include/FogSenXiaoNode.h:594-611 | after any number of steps the angle is the closed-form triangle wave, within its bounds |
| `ScanSweep.FrontSweep` | firmware/xiao_shared/include/FogSenXiaoNode.h:594-611 | the front sweep has period 64 |
| `ScanSweep.SectorWithinTwelve` | firmware/main_esp32/src/SafetyConfig.h:33-39 | from any sample the forward sector is reached within twelve steps |
| `ScanSweep.TwelveIsExact` | firmware/main_esp32/src/SafetyConfig.h:33-39 | and leaving it at +50 degrees takes all twelve |
| `SensorNode.XiaoSensorNode.Update` | firmware/xiao_shared/include/FogSenXiaoNode.h:122-592 | one update takes the acquisition phases in order, scanning or not, and yields at most one packet |
| `SensorNode.XiaoSensorNode.HandleCommand` | firmware/xiao_shared/include/FogSenXiaoNode.h:735-787 | a command switches scanning, centres the servo or changes the settling time within its limits |
| `SensorNode.XiaoSensorNode.AdvanceScanAngle` | firmware/xiao_shared/include/FogSenXiaoNode.h:594-611 | the angle and direction move one step of the sweep |
| `SensorSteps.SampleExactly` | firmware/xiao_shared/include/FogSenXiaoNode.h:122-592 | when a sample begins and what is read into it and when, in every state: a fresh one holds angle and time, a reading that timed out none |
| `SensorSteps.PacketExactly` | firmware/xiao_shared/include/FogSenXiaoNode.h:122-592 | a packet goes out exactly with the last reading of its sample, numbered on, stamped and carrying the sample |
| `SensorSteps.StepExactly` | firmware/xiao_shared/include/FogSenXiaoNode.h:122-592 | the phase goes on exactly when what it waits for has come; which deadlines are set, when the sweep moves on and when the servo has failed |
| `SensorSteps.CommandExactly` | firmware/xiao_shared/include/FogSenXiaoNode.h:735-787 | what each command changes and what it leaves |
| `SensorSteps.PowerUp` | firmware/xiao_shared/include/FogSenXiaoNode.h:122-592 | after power-up the node scans from the lower end after a settling time |
| `SensorNode.PacketsAreNumbered` | firmware/xiao_shared/include/FogSenXiaoNode.h:630-667 | whatever is asked of the node and whatever the hardware answers, packet k carries sequence number k + 1 modulo 2^32 |
| `SensorNode.ScanFollowsSweep` | firmware/xiao_shared/include/FogSenXiaoNode.h:509-611 | while scanning, the next packet carries the angle of the sweep counted from when scanning was switched on |
| `SensorNode.PacketsFollowSweep` | firmware/xiao_shared/include/FogSenXiaoNode.h:509-611 | without commands packet k carries the k-th angle of the sweep |
| `SensorTiming.HealthyRunOnSchedule` | firmware/xiao_shared/include/FogSenXiaoNode.h:122-592 | in a healthy run, from the node's own deadlines, packets are at least a settling time and at most a cycle apart, each is sent at most a lag after its scan, and their stamps are the true times by the node's clock |
| `SensorTiming.WatchedIsRun` | firmware/xiao_shared/include/FogSenXiaoNode.h:122-592 | the packets so timed are exactly those of the node's run |
| `SensorTiming.SweepComesBack` | firmware/main_esp32/src/SafetyConfig.h:33-39 | the next in-sector packet is sent no more than twelve cycles and one lag after the scan it replaces |
| `SensorTiming.EvidenceOutlastsExcursion` | firmware/main_esp32/src/SafetyConfig.h:33-39 | with the configured times, polled every millisecond, a cycle is at most 145 ms and the scan is no older than 1800 ms by then |
| `SlowestSweep.SlowestExcursion` | firmware/main_esp32/src/SafetyConfig.h:33-39 | a healthy run in which the excursion over +80 degrees takes exactly twelve cycles and one lag |
| `SlowestSweep.OutlastsExactly` | firmware/main_esp32/src/SafetyConfig.h:33-39 | for any settings and pace, evidence stands until the next in-sector packet in all healthy runs if and only if twelve cycles and one lag are at most 1800 ms |
| `SlowestSweep.PolledEveryMillisecondExactly` | firmware/main_esp32/src/SafetyConfig.h:33-39 | with the slowest settling the node accepts that is so if and only if it is polled every millisecond |
| `FrontEvidence.FrontScanner.CachedRange` | firmware/main_esp32/src/main.cpp:192-246 | the global evidence and the result are those of the consultation on values |
| `FrontEvidence.FrontScanner.CollectForwardRanges` | firmware/main_esp32/src/main.cpp:248-279 | coverage is sufficient exactly when the cache vouches for a range and the fixed sensor has a fresh valid one; the ranges counted are those there are and the nearest is the least of them |
| `EvidenceSoundness.RunKeepsInv` | firmware/main_esp32/src/main.cpp:175-246 | over regular runs the cache remembers the last packet looked at and holds a range exactly while a source for it stands |
| `EvidenceSoundness.CacheVouchesExactly` | firmware/main_esp32/src/main.cpp:192-246 | the cache vouches for a range if and only if some packet it looked at carries that range, was healthy and in the sector, is truly at most 1800 ms old, and no later look superseded it |
| `EvidenceSoundness.VouchedRangeIsSound` | firmware/main_esp32/src/main.cpp:192-246 | so every vouched range is that of a healthy in-sector packet of the current boot, at most 1800 ms old |
| `EvidenceGaps.SoundExactly` | firmware/main_esp32/src/main.cpp:192-246 | the cache is sound in all runs with events at most so long after the last consultation if and only if that is no longer than a packet stays fresh, 500 ms |
| `EvidenceGaps.WiderGapsAreUnsound` | firmware/main_esp32/src/main.cpp:192-246 | with any longer gap a packet can be missed until the clock has wrapped and its range then vouched for |
| `FrontCoverage.RunFollows` | firmware/main_esp32/src/NodeLink.cpp:181-200 | along a regular run every packet of a healthy node that has arrived is accepted and looked at, in order, within its one boot |
| `FrontCoverage.CoverageNeverLapses` | firmware/main_esp32/src/main.cpp:192-246 | with a healthy front node and packets that arrive within a delay and are each looked at, the cache vouches for a range at every consultation once an in-sector packet has arrived, when twelve cycles, one lag and one delay fit into 1800 ms |
| `FrontCoverage.ConfiguredCoverageNeverLapses` | firmware/main_esp32/src/SafetyConfig.h:33-39 | as configured, with packets at most 35 ms on the way, from the seventh packet on |
| `PacketCrc.CalculateCrc16` | firmware/main_esp32/src/LoraPacket.h:50-63 | the nested loops compute the shift-register remainder of the bytes |
| `PacketCrc.AbsorbByte` | firmware/main_esp32/src/LoraPacket.h:53-60 | one byte is mixed into the top and shifted through |
| `PacketCrc.StampPacketCrc` | firmware/main_esp32/src/LoraPacket.h:72-76 | stamping leaves the covered bytes alone and the packet verifies |
| `PacketCrc.VerifyPacketCrc` | firmware/main_esp32/src/LoraPacket.h:65-70 | a packet verifies exactly when its stored checksum is that of its 63 covered bytes |
| `PacketCrc.CheckValue` | firmware/main_esp32/src/LoraPacket.h:50-63 | the check value of the checksum: 0x29B1 for the digits 1 to 9 |
| `CrcStrength.CrcFeeds` | firmware/main_esp32/src/LoraPacket.h:52-61 | the byte loop equals feeding the message bit by bit |
| `CrcStrength.CrcDifference` | firmware/main_esp32/src/LoraPacket.h:50-63 | the difference of two checksums is what the difference of the messages leaves in an empty register |
| `CrcStrength.BurstChangesCrc` | firmware/main_esp32/src/LoraPacket.h:50-63 | messages of any equal length that differ only within 16 consecutive bits have different checksums |
| `CrcStrength.BurstIsRejected` | firmware/main_esp32/src/LoraPacket.h:65-70 | a verified packet changed within 16 consecutive covered bits is rejected |
| `CrcStrength.AcceptedChangesExactly` | firmware/main_esp32/src/LoraPacket.h:65-70 | a change goes unnoticed exactly when its remainder is the change of the stored checksum |
| `CrcParity.ShiftKeepsParity` | firmware/main_esp32/src/LoraPacket.h:55-59 | a shift keeps the parity of the register |
| `CrcParity.OddChangeIsRejected` | firmware/main_esp32/src/LoraPacket.h:65-70 | an odd number of flipped bits anywhere in the 65 bytes is rejected |
| `CrcDistance.NeverSingleAgain` | firmware/main_esp32/src/LoraPacket.h:54-60 | within the covered length a single bit shifted on is never again a single bit |
| `CrcDistance.UpToThreeFlipsAreRejected` | firmware/main_esp32/src/LoraPacket.h:65-70 | one, two or three flipped bits anywhere in the 65 bytes are rejected |
| `CrcDistance.FourFlipsCanPass` | firmware/main_esp32/src/LoraPacket.h:65-70 | the four flips of the polynomial, anywhere among the covered bits, are not |
| `CrcDistance.FourFlipsGoUnnoticed` | firmware/main_esp32/src/LoraPacket.h:65-70 | two packets that both verify and differ in exactly four bits |
| `LineReassembly.BoundedLineBuffer.Feed` | backend/app/providers/serial_protocol.py:180-200 | feeding returns exactly the lines the longer stream holds beyond those returned before, counts each over-long stretch once and never holds more than the limit |
| `LineReassembly.BoundedLineBuffer.TakeByte` | backend/app/providers/serial_protocol.py:182-199 | the same for one byte |
| `LineReassembly.SplitIsFaithful` | backend/app/providers/serial_protocol.py:180-200 | the stretches with their newlines and the open rest are the stream, and hold no newline |
| `LineReassembly.SplitIsUnique` | backend/app/providers/serial_protocol.py:180-200 | no other split has that property |
| `LineReassembly.ChunksDoNotMatter` | backend/app/providers/serial_protocol.py:180-200 | the lines returned do not depend on how the bytes are cut into chunks |
| `LineReassembly.RecoversExactly` | backend/app/providers/serial_protocol.py:183-199 | lines written with newlines come back if and only if each is non-empty, fits, holds no newline and does not end in a carriage return |
| `TransmitQueue.SerialTxQueue.EnqueueLine` | firmware/main_esp32/src/SerialTxQueue.cpp:15-32 | a line is accepted exactly when it is not empty, fits and the ring has room; otherwise it is counted as dropped |
| `TransmitQueue.SerialTxQueue.Poll` | firmware/main_esp32/src/SerialTxQueue.cpp:34-58 | the port gets a prefix of what is left of the line at the head, as much as it takes; the line leaves the ring when it is done |
| `TransmitQueue.EnqueueKeepsRing` | firmware/main_esp32/src/SerialTxQueue.cpp:22-31 | enqueueing keeps the ring: queued slots hold the last accepted lines in order, the output is all lines before them and part of the first |
| `TransmitQueue.PartKeepsRing` | firmware/main_esp32/src/SerialTxQueue.cpp:44-52 | so does a partial write |
| `TransmitQueue.RestKeepsRing` | firmware/main_esp32/src/SerialTxQueue.cpp:51-57 | and the write that completes a line |
| `Transport.WrittenIsPrefix` | firmware/main_esp32/src/SerialTxQueue.cpp:15-58 | the bytes written are a prefix of the accepted lines each followed by a newline, and end in the first line still queued |
| `Transport.ArrivedLinesDelivered` | backend/app/providers/serial_protocol.py:180-200 | however much of them has arrived, exactly the complete lines are delivered, in order, and none is discarded |
| `Transport.DeliveredLinesAreSentLines` | firmware/main_esp32/src/SerialTxQueue.cpp:15-58 | end to end, at any point of any run, the delivered lines are sent lines in order, and all of them once all bytes have arrived |
| `StreamDedup.LiveRuntime.AcceptPacket` | backend/app/live_runtime.py:413-451 | the verdict and the remembered packet follow the rule, with and without sequence numbers, and only a restart clears the occupancy |
| `StreamDedup.CounterIsTrue` | backend/app/live_runtime.py:408-411 | within half a wrap the comparison tells which true counter is larger |
| `StreamDedup.NewerIsLater` | backend/app/live_runtime.py:420-428 | within a boot a packet compares as newer exactly when its frame is later |
| `StreamDedup.AcceptedAreMaximaExactly` | backend/app/live_runtime.py:413-451 | for frames of one boot in any order, with duplicates and losses, the accepted ones are exactly the left-to-right maxima if and only if no old frame satisfies the restart rule against the newest before it |
| `StreamDedup.HighNumbersAreDeduplicated` | backend/app/live_runtime.py:413-451 | with sequence numbers above 5 each frame is accepted at most once and the last accepted is always the newest received |
| `StreamDedup.InOrderLosesNothing` | backend/app/live_runtime.py:413-451 | a single link in order loses nothing, from the first frame of the boot |
| `StreamDedup.EarlyFramesRepeat` | backend/app/live_runtime.py:430-436 | frames numbered 5 and 6 arriving as 6, 5, 6 are all accepted |
| `BootChange.AcceptedAfterExactly` | backend/app/live_runtime.py:408-440 | which packet is accepted after which, with and without numbers, and which of them is taken for a restart |
| `BootChange.UnderWayExactly` | backend/app/live_runtime.py:413-451 | a frame numbered above 5 is accepted exactly when it is past the last one accepted in both counters, whichever boot that was of |
| `BootChange.ResumesExactly` | backend/app/live_runtime.py:413-451 | after any last accepted frame, frames in order and numbered above 5 are accepted exactly from the first one past it on |
| `BootChange.LateFrameShutsOutNewBoot` | backend/app/live_runtime.py:413-451 | after a restart a late frame of the old boot is accepted again, and then a frame of the new boot numbered above 5 is accepted exactly when both its counters are past those of the late one |
| `BootChange.LateFrameCosts` | backend/app/live_runtime.py:413-451 | such a run, in which frame 6 of the new boot is rejected and frame 900 is the next accepted |
| `BootChange.NewBootComesThrough` | backend/app/live_runtime.py:413-451 | without a late frame every frame of the new boot in order is accepted |
| `BootChange.NewBootLosesNothingExactly` | backend/app/live_runtime.py:413-451 | with late frames of the old boot in any order between its own, no frame of the new boot is lost if and only if each is past every earlier late frame that showed more than all of the new boot before it |
| `RedundantReader.SourceExactly` | backend/app/providers/redundant_reader.py:87-116 | what a poll makes of a source: when it is tried, when it gives, when an error closes it, how long it then waits and which error is shown |
| `RedundantReader.RedundantTelemetryReader.Poll` | backend/app/providers/redundant_reader.py:87-116 | a poll returns the packets of all usable sources in order, each source's fate depends on that source alone, and everything returned so far is an interleaving of what the sources gave |
| `RedundantReader.RedundantTelemetryReader.Close` | backend/app/providers/redundant_reader.py:118-123 | closing closes every source once and keeps what was returned |
| `LinkDedup.MergedCarries` | backend/app/providers/redundant_reader.py:87-116 | the frames behind the merged packets are an interleaving of the frames each link carried |
| `LinkDedup.LinksAreDeduplicated` | backend/app/live_runtime.py:408-451 | over in-order links, however polls and failures fall, accepted frames are exactly those later than all before them |
| `TripHistory.SortSorts` | backend/app/analytics/trip_logger.py:52 | sorting by end and identifier keeps the trips and orders them |
| `TripHistory.RecordedIsTidy` | backend/app/analytics/trip_logger.py:47-58 | recording keeps the history sorted, duplicate-free and within its bound |
| `TripRetention.BusyVictimIsOldest` | backend/app/analytics/trip_logger.py:54-58 | the victim of a vehicle over its share is its oldest trip, so fifteen later ones remain |
| `TripRetention.SharesBoundTotal` | backend/app/analytics/trip_logger.py:53-57 | pigeonhole: with no vehicle over its share there are at most fifteen trips a vehicle |
| `TripRetention.RecordedIsFairExactly` | backend/app/analytics/trip_logger.py:47-58 | recording keeps the fifteen latest of every vehicle if and only if the trip is a duplicate, there is room, or some vehicle is over its share |
| `TripRetention.LatestAreRetained` | backend/app/analytics/trip_logger.py:47-58 | with room for fifteen trips of every vehicle, any log in any order leaves the fifteen latest of each vehicle among all ever taken in |
| `TripLogger.HaulageAnalyticsEngine.RecordTrip` | backend/app/analytics/trip_logger.py:47-58 | duplicate check, sort, count and eviction give the recorded history, and with room the latest fifteen stay |
| `TripLogger.HaulageAnalyticsEngine.Reset` | backend/app/analytics/trip_logger.py:39-45 | the history is the end of the baseline |
| `TripLogger.HaulageAnalyticsEngine.GetTripHistory` | backend/app/analytics/trip_logger.py:60-69 | a limit outside 1 to 200 is an error; otherwise the last matching trips, newest first, with the count and tonnage of all matching ones |
| `TripLogger.CountVehicles` | backend/app/analytics/trip_logger.py:54 | the counter has every vehicle that occurs, with its number of trips |
| `TripLogger.FindVictim` | backend/app/analytics/trip_logger.py:56-57 | the first trip of a vehicle over its share, or the first of all |
| `TripLogger.PageIsLatest` | backend/app/analytics/trip_logger.py:63-66 | a page is ordered newest first and leaves out only trips older than all it shows |
| `TripLogger.QueryShowsLatest` | backend/app/analytics/trip_logger.py:60-69 | asking for fifteen or more trips of a vehicle shows its fifteen latest ever taken in |

## Left out

- HaulTraffic.ZonesStayExclusive: assumes sorted, disjoint widened intervals away from the loading bay, ticks too short to jump one, and a start with the zones clear; a configuration that breaks one of these is not covered.
- HaulProgress.NoDeadlock: no conflict zones, because `conflict_limit` alone does not decide whether opposing trucks can wait for each other.
- HaulThroughput.FleetKeepsDelivering: the same.
- HaulFairness.EveryTruckDelivers: no conflict zones, as above; the distance between the stops and the queue spacing are larger than the slack of a stop.
- HaulLedger.TripsDoNotOverlap: without the rounding of `round(duration, 3)` and of the millisecond timestamps.
- SafetyPersistence.CutExactly: evaluations must come close enough together for the wrapping clock to tell their distance.
- SafetyUnlatched.UnlatchedObstacleStopExactly: runs of evaluations from power-up, without resets or manual tests in between, in which each hazard lasts for less than one wrap of the clock.
- EvidenceSoundness.CacheVouchesExactly: assumes every event within 500 ms of the last consultation; `EvidenceGaps.SoundExactly` shows that no longer gap will do. The node's clock is taken to run at the rate of the main controller's.
- FrontCoverage.CoverageNeverLapses: fewer than 2^32 - 1 packets, about thirteen years of them; where sequence number and clock wrap at once a packet can be taken for a restart.
- Lockstep.LevelsAgree: frames with full coverage, a known direction and at least the moving floor of speed; elsewhere the two controllers differ on purpose.
- SensorNode.XiaoSensorNode.Update: the address recovery of failed sensors, the replies to commands and the health mask are not part of the model, and one clock reading stands for those taken after a blocking read.
- BootChange.NewBootLosesNothingExactly: late frames numbered 5 or less, which are taken for another restart, are not among those interleaved; counters below half a wrap.
- StreamDedup.HighNumbersAreDeduplicated: frames numbered 5 or less are excluded; the exact condition is `StreamDedup.AcceptedAreMaximaExactly`.
- TripRetention.LatestAreRetained: a trip whose identifier is still in the history is ignored as the code ignores it, so it is not among the trips taken in.
- RedundantReader.RedundantTelemetryReader.constructor: the source raises on an empty list of sources; here at least one is required.
- The lists of active sources and of errors of the redundant reader: they are read off fields that are modelled.
- Floating point: lengths, times, speeds and costs are exact reals; rounding in reports is not modelled. The power 1.8 of the downhill cost is any non-negative function.
- The trigonometric route, the docking curve and truck poses: the docking length is any positive length, the turn limit any function giving positive speeds, the cycle plan any function giving valid plans.
- The road layout is assumed to leave at least the stop tolerance between the tip and the end, and the starting queue to fit behind the tip.
- `CycleAccounting` is a value in a truck's field, not an object of its own.
- The heap is a sequence from which a least entry is taken; waypoints, instructions, maximum gradient and average speed of a route are not modelled.
- Frames of the transmit ring are values in an array; the wireless transmit path is not modelled.
- Parsing of JSON and the packet schema: a packet arrives parsed. The delivery of lines and packets by the operating system is a parameter.
- Fleet summaries, metrics, delay events, fuel and visibility formulas, vehicle-to-vehicle messages, load cell and camera: they rest on formulas or libraries rather than on state that must be kept.
