# RWA simulator: a verified model of its discrete core

RWASimulator is a discrete-event simulator for routing and wavelength
assignment (RWA) in an optical mesh network. Routers are joined by edges,
and each edge carries a fixed number of wavelengths. Workstations attached
to routers issue connection requests. For each request the simulator sends
probes from the source router toward the destination along one or more
candidate paths. At the destination a wavelength is chosen. A confirmation
then travels back and reserves that wavelength edge by edge. A collision
with another session's reservation sends a collision notice that releases
the partial reservation. When the connection's time is up, a destroy
message releases it.

This project models, in Dafny, the integer and array bookkeeping around
the simulator's floating-point physics:

- **Edges and routers:** per-wavelength occupancy, adjacency tables,
  pheromone clamps and cumulative probability tables.
- **Event queue:** its comparator as written, with its quirks.
- **The k-shortest-paths library:** map-based graph, path order,
  shortest-path tree, Yen-style deviation search, and packing of the
  results into flat arrays.
- **Wavelength assignment:** first fit, max-spread ordering, most used,
  random fit and the quality-gated searches.
- **FWM and noise:** four-wave-mixing triple enumeration, and the
  segmentation of a path into same-session runs for the noise estimates.
- **Path selection:** PABR and AQoS path choice, and the shortest-path
  cache.
- **Signalling:** the state machine of probes, confirmations, collisions
  and teardowns, with its counters.
- **Input files and text:** the readers of the input files, `itoa` and
  the time formatting.

Each file is one module, which follows the source file it models:

| file | models |
|---|---|
| common.dfy | shared enums and exit codes; `Cost` (natural weights with an infinite sentinel) |
| edge.dfy | Edge.h/Edge.cpp |
| router.dfy | Router.h/Router.cpp |
| events.dfy, event_queue.dfy | Event.h, EventQueue.h/EventQueue.cpp |
| directed_path.dfy, directed_graph.dfy, shortest_path.dfy, k_shortest_paths.dfy, main_p.dfy | the KSHORTESTPATH_1.0.3 library |
| wavelength.dfy, fwm.dfy, noise.dfy, path_selection.dfy | ResourceManager.cpp |
| configuration.dfy, workstations.dfy, signalling.dfy, launching.dfy, handlers.dfy | Thread.cpp |
| message_logger.dfy | MessageLogger.cpp |

Objects the source updates in place are classes:

- `Edge`, with arrays for the wavelength status, session and degradation;
- `Router`;
- `EventQueue`;
- the library's graph, shortest-path and k-shortest-path objects;
- the shortest-path cache;
- the wavelength orderer;
- the `Signaller`, which holds the probe table, counters and queue of one
  simulation thread.

Pure computations are functions, and loops are methods proved against
those functions.

## Model

| member | source | states |
|---|---|---|
| Edges.ClearedStats | SRC/Edge.cpp:636-650 | the record `resetEdgeStats` leaves: the three Q minima +inf, every maximum, total, the time and the count 0, no dropped connections |
| Edges.CountUsedZero | SRC/Edge.cpp:353-357 | no wavelength is counted as used exactly when every wavelength is free |
| Edges.NonzeroCountExtremes | SRC/Edge.cpp:436-443 | the count of nonzero degradation entries is the number of wavelengths exactly when all are nonzero, and 0 exactly when none is |
| Edges.AggregateDegradationCases | SRC/Edge.cpp:436-451 | the edge figure is +inf when every wavelength is degraded, 2.0 when none is, otherwise the mean of the nonzero entries |
| Edges.RemoveFirstShape | SRC/Edge.cpp:530-540 | the erase removes exactly one entry when some entry rides the buffer and leaves the list alone otherwise; it never adds an entry |
| Edges.RemoveAfterInsert | SRC/Edge.cpp:530-540 | appending a connection and then removing by its buffer gives back the list, when the buffer was not listed before |
| Edges.EraseFirst | SRC/Edge.cpp:530-540 | the erase loop removes the first entry on the buffer, as `RemoveFirst` defines it |
| Edges.Edge.constructor | SRC/Edge.cpp:70-106 | a new edge has every wavelength free with session -1, no degradation, zero usage and degradation figure, no connections and cleared statistics |
| Edges.Edge.SetUsed | INCLUDE/Edge.h:68-69 | wavelength `w` becomes used with the session; every other status and session entry is unchanged; the free ⇔ session -1 link is kept |
| Edges.Edge.SetFree | INCLUDE/Edge.h:70-71 | wavelength `w` becomes free with session -1 and degradation 0; every other entry is unchanged; the free ⇔ session -1 link is kept |
| Edges.Edge.ResetAlgorithmUsage | INCLUDE/Edge.h:88-89 | usage becomes 0 and nothing else may change |
| Edges.Edge.InsertEstablishedConnection | INCLUDE/Edge.h:123-124 | the list grows by exactly the new entry, at its end |
| Edges.Edge.EvaporatePheromone | SRC/Edge.cpp:139-150 | pheromone scaled by 1-rho; under MAX_MIN_ACO it is the larger of that and the floor gamma |
| Edges.Edge.ResetPheromone | SRC/Edge.cpp:158-169 | 1.0 under MAX_MIN_ACO, ants/spans under ACO, unchanged for every other algorithm |
| Edges.Edge.AddPheromone | SRC/Edge.cpp:177-188 | pheromone raised by 1/hops; under MAX_MIN_ACO it is the smaller of that and 1.0 |
| Edges.Edge.UpdateUsage | SRC/Edge.cpp:345-363 | usage becomes the mean of the old figure and the connection count (Q statistics on) or the number of used wavelengths (off) |
| Edges.Edge.UpdateQMDegredation | SRC/Edge.cpp:434-451 | the edge figure is recomputed as `AggregateDegradation` of the degradation array |
| Edges.Edge.ResetQMDegredation | SRC/Edge.cpp:513-517 | every degradation entry becomes 0 |
| Edges.Edge.RemoveEstablishedConnection | SRC/Edge.cpp:525-542 | the first connection on the buffer is erased and only the degradation entry of its wavelength becomes 0 |
| Edges.Edge.ResetEdgeStats | SRC/Edge.cpp:636-650 | the statistics become `ClearedStats()` |
| Routers.LastIndexOf | SRC/Router.cpp:93-106 | the adjacency entry for `r` after a series of `addEdge` calls: the last position of an edge toward `r`, or -1 when there is none |
| Routers.FirstEdgeTo | SRC/Router.cpp:115-124 | the first position in list order of an edge toward `r`, or none when no edge leads there |
| Routers.ChooseEdgeIndex | SRC/Router.cpp:210-224 | position 0 exactly when `p <= probs[0]`; otherwise `r+1` for the first `r` with `probs[r] < p <= probs[r+1]`, or none when no such `r` exists |
| Routers.ChooseEdgeTotal | SRC/Router.cpp:197-224 | on a nondecreasing table ending in 1.0, every draw `p <= 1.0` selects an edge |
| Routers.GenerateDestinationIndex | SRC/Router.cpp:330-344 | 0 exactly when `p < probs[0]`; otherwise `r+1` for the first `r` with `probs[r] < p < probs[r+1]`, else the unsigned -1 |
| Routers.CumulativeSharesShape | SRC/Router.cpp:312-320 | the normalised running sums of nonnegative weights are nondecreasing, end at 1.0, and repeat the previous entry at a zero weight |
| Routers.GenerateDestinationNeverSelf | SRC/Router.cpp:308-344 | when the router's own entry repeats the one before it (or is 0 at position 0), no draw selects the router itself |
| Routers.AdjacencyAfterAppend | SRC/Router.cpp:104-105 | writing the new edge's index at its destination keeps every adjacency entry equal to the last position of an edge toward it |
| Routers.NewAdjacencyTable | SRC/Router.cpp:95-101 | a new table of `n` entries, all -1 |
| Routers.RunningShares | SRC/Router.cpp:312-320 | the divide-and-accumulate loop yields `CumulativeShares` of the weights |
| Routers.Router.constructor | SRC/Router.cpp:41-61 | a new router has no adjacency table, no edges and no probability tables; its failure counters start at 0, where the source leaves them unset until `resetFailures` (see Left out) |
| Routers.Router.IsAdjacentTo | INCLUDE/Router.h:85-86 | -1 exactly when no edge leads to `r`; otherwise an index into the edge list of the last edge toward `r` |
| Routers.Router.GetEdgeByDestination | SRC/Router.cpp:115-124 | the first edge in list order toward `r`, or none exactly when no edge leads there |
| Routers.Router.EnsureTable | SRC/Router.cpp:95-101 | the first call allocates a table of one entry per router, all -1; later calls keep the table |
| Routers.Router.AppendEdge | SRC/Router.cpp:103-105 | the edge is appended and only the adjacency entry of its destination changes, to the old edge count |
| Routers.Router.AddEdge | SRC/Router.cpp:93-106 | the edge count grows by one; `isAdjacentTo(dest)` is the old edge count; other entries are unchanged, or -1 when the table was created by this call |
| Routers.Router.IncrementQualityFailures | INCLUDE/Router.h:104-105 | the quality counter grows by one and nothing else may change |
| Routers.Router.IncrementWaveFailures | INCLUDE/Router.h:106-107 | the wavelength counter grows by one and nothing else may change |
| Routers.Router.ResetFailures | SRC/Router.cpp:366-370 | both failure counters become 0 |
| Routers.Router.UpdateUsage | SRC/Router.cpp:132-138 | every outgoing edge's usage becomes the mean of its old figure and its current load; only the edges' usage fields may change |
| Routers.Router.ResetUsage | SRC/Router.cpp:352-358 | every outgoing edge's usage becomes 0; only the edges' usage fields may change |
| Routers.Router.ResetQMDegredation | SRC/Router.cpp:378-384 | every degradation entry of every outgoing edge becomes 0 |
| Routers.Router.GenerateProbabilities | SRC/Router.cpp:272-321 | the table is the cumulative shares of the per-router weights (0 for the router itself, else its distribution's weight of the path's span count) over their positive total, in `real` arithmetic: nondecreasing, ending at 1.0, so `GenerateDestination` never returns the router itself |
| Routers.DestinationTable | SRC/Router.cpp:272-321 | the weights of `generateProbabilities` have a positive total, and (in `real` arithmetic) their cumulative table is nondecreasing, ends at 1.0 and repeats the previous entry at the router itself (0 at index 0), so no nonnegative draw selects it |
| Routers.CumulativeShareWidth | SRC/Router.cpp:314-320 | each entry of a cumulative table exceeds the previous one (0 before the first) by its weight's share of the total, so a destination is drawn with probability proportional to its weight |
| Routers.Router.GenerateACOProbabilities | SRC/Router.cpp:188-197 | the running shares of the edge scores with the last entry forced to 1.0; every draw `p <= 1.0` then selects an edge |
| Routers.Router.ChooseEdge | SRC/Router.cpp:210-224 | the edge the table picks is one of the router's edges, and edge 0 whenever `p <= probs[0]` |
| Events.Rank | INCLUDE/Event.h:31-42 | each payload kind has its `EventType` position, one of the nine kinds |
| Events.EarlierTimeFirst | INCLUDE/EventQueue.h:53-56 | when the times differ, the earlier event has priority and the later one does not |
| Events.LowerKindFirst | INCLUDE/EventQueue.h:102-105 | at equal times and different kinds, the lower `EventType` has priority and the other does not |
| Events.LowerSessionFirst | INCLUDE/EventQueue.h:76-96 | at equal time and kind, a request, confirmation, collision or destroy has priority exactly when its session is lower |
| Events.ProbeOrder | INCLUDE/EventQueue.h:66-75 | two probes at equal time and session are ordered by lower sequence first; with different sessions neither compares below the other, because the source compares `ccp1` with itself |
| Events.ControlEventsAbort | INCLUDE/EventQueue.h:97-100 | two same-time, same-kind activate, deactivate, usage or GUI events make the comparison abort with `ERROR_PRIORITY_QUEUE` |
| Events.FatalPairShape | INCLUDE/EventQueue.h:51-106 | the comparison aborts exactly on same-time, same-kind control events |
| Events.FatalPairSymmetric | INCLUDE/EventQueue.h:97-100 | an aborting pair aborts in either order |
| Events.PrecedesStrictOrder | INCLUDE/EventQueue.h:51-106 | "has priority over" is irreflexive, asymmetric and transitive; no event precedes itself |
| Events.ProbeTiesNotTransitive | INCLUDE/EventQueue.h:71-72 | three probes show that the self-comparison makes "neither precedes" non-transitive: `a` ties with `b`, `b` with `c`, yet `a` precedes `c` |
| EventQueues.EventQueue.constructor | SRC/EventQueue.cpp:28-31 | a new queue is empty |
| EventQueues.EventQueue.AddEvent | INCLUDE/EventQueue.h:41-42 | the event joins the queue and the size grows by exactly one |
| EventQueues.EventQueue.GetNextEvent | SRC/EventQueue.cpp:51-58 | on a non-empty queue: an event of the queue that no remaining event precedes, removed once from the multiset, size down by one; `ERROR_PRIORITY_QUEUE` only when the queue holds an aborting pair and never otherwise |
| EventQueues.PushThenPop | SRC/EventQueue.cpp:51-58 | pushing onto an empty queue and popping returns that same event |
| DirectedPaths.DirectedPath.Length | KSHORTESTPATH_1.0.3/QYDirectedPath.h:61 | the length is the size of the vertex list; 0 exactly for the empty list |
| DirectedPaths.CostOrder | KSHORTESTPATH_1.0.3/QYDirectedPath.h:112 | `<` on costs, with `DISCONNECT` above every finite cost, is a strict total order |
| DirectedPaths.PathLessLexicographic | KSHORTESTPATH_1.0.3/QYDirectedPath.h:99-116 | `Comparator` orders by cost, then by length at equal cost, then by id at equal cost and length |
| DirectedPaths.PathLessStrictTotal | KSHORTESTPATH_1.0.3/QYDirectedPath.h:99-116 | `Comparator` is irreflexive, asymmetric and transitive, and two paths are incomparable exactly when cost, length and id all agree |
| DirectedGraphs.FirstWinsKeys | KSHORTESTPATH_1.0.3/QYDirectedGraph.cpp:56-62 | the edge map built from the list has a key for exactly the (src, dest) pairs in it |
| DirectedGraphs.FirstWinsValues | KSHORTESTPATH_1.0.3/QYDirectedGraph.cpp:62 | on a duplicate pair `map::insert` keeps the first weight: the first listed edge of a pair gives its weight |
| DirectedGraphs.FirstWinsFinite | KSHORTESTPATH_1.0.3/QYDirectedGraph.cpp:60-62 | every inserted weight is finite |
| DirectedGraphs.MaxCost | KSHORTESTPATH_1.0.3/QYDirectedGraph.cpp:66-69 | the largest listed weight, or 0 for an empty list |
| DirectedGraphs.MinCost | KSHORTESTPATH_1.0.3/QYDirectedGraph.cpp:71-74 | the smallest listed weight, or `DISCONNECT` exactly for an empty list |
| DirectedGraphs.FiniteCellsMembers | KSHORTESTPATH_1.0.3/QYShortestPath.cpp:51-67 | the scan of the `V`x`V` grid lists each connected pair exactly once |
| DirectedGraphs.FiniteCellsUpdate | KSHORTESTPATH_1.0.3/QYDirectedGraph.h:90 | one weight write changes the number of connected pairs by its own connected-ness only |
| DirectedGraphs.FiniteCellsCount | KSHORTESTPATH_1.0.3/QYDirectedGraph.cpp:77 | with every key inside the grid and finite, the connected pairs are as many as the map's entries |
| DirectedGraphs.ScanEdges | KSHORTESTPATH_1.0.3/QYDirectedGraph.cpp:56-75 | the constructor's loop builds `FirstWins` of the list and its maximum and minimum weight |
| DirectedGraphs.FirstWinsCounted | KSHORTESTPATH_1.0.3/QYDirectedGraph.cpp:54-77 | with endpoints below `total_nodes`, the edge count equals the number of distinct (src, dest) pairs |
| DirectedGraphs.DirectedGraph.FromParams | KSHORTESTPATH_1.0.3/QYDirectedGraph.cpp:49-78 | vertex count `total_nodes`, first-wins edge map, edge count the map's size, max and min of all weights |
| DirectedGraphs.DirectedGraph.Copy | KSHORTESTPATH_1.0.3/QYDirectedGraph.cpp:80-93 | the copy has the same edge map and counts (and, as the source, not the weight bounds) |
| DirectedGraphs.DirectedGraph.GetWeight | KSHORTESTPATH_1.0.3/QYDirectedGraph.h:89 | the stored weight, or `DISCONNECT` when the pair is absent |
| DirectedGraphs.DirectedGraph.SetWeight | KSHORTESTPATH_1.0.3/QYDirectedGraph.h:90 | the pair reads back the new weight; every other pair, the counts and the bounds are unchanged |
| DirectedGraphs.DirectedGraph.RemoveEdge | KSHORTESTPATH_1.0.3/QYDirectedGraph.cpp:144-151 | the pair is deleted if present and nothing changes otherwise; other pairs keep their weight |
| DirectedGraphs.DirectedGraph.AddEdge | KSHORTESTPATH_1.0.3/QYDirectedGraph.cpp:153-156 | the pair is inserted or overwritten; other pairs and the counts are unchanged |
| DirectedGraphs.DirectedGraph.SetNumberOfEdges | KSHORTESTPATH_1.0.3/QYDirectedGraph.h:80-81 | the edge count reads back the value set and nothing else changes |
| DirectedGraphs.CopyIsIndependent | KSHORTESTPATH_1.0.3/QYDirectedGraph.cpp:85-93 | editing a copy leaves the original's edge map untouched |
| ShortestPaths.DistanceIsMinimal | KSHORTESTPATH_1.0.3/QYShortestPath.cpp:164-166 | from Dijkstra's postcondition alone: a vertex reached by any walk from the source has a finite distance no larger than the walk's weight |
| ShortestPaths.NoArcShortens | KSHORTESTPATH_1.0.3/QYShortestPath.cpp:164-166 | no arc of the graph leads to a shorter distance than the one recorded |
| ShortestPaths.NoWalkShorter | KSHORTESTPATH_1.0.3/QYShortestPath.cpp:164-166 | over lists that mirror the graph's finite arcs, every finite-weight walk from the source ends at a vertex whose distance is at most the walk's weight |
| ShortestPaths.StepsPriced | KSHORTESTPATH_1.0.3/QYShortestPath.cpp:89-108 | a walk from the source along tight tree steps weighs, on the graph, exactly its last vertex's distance |
| ShortestPaths.ShortestPath.constructor | KSHORTESTPATH_1.0.3/QYShortestPath.cpp:39-67 | no source yet (-1), empty maps, and `_Init`'s lists: exactly the connected pairs of the grid in row-major order with their weights, which mirror the graph |
| ShortestPaths.ShortestPath.GetDistance | KSHORTESTPATH_1.0.3/QYShortestPath.h:62 | the recorded distance, or `DISCONNECT` when there is none |
| ShortestPaths.ShortestPath.GetNextNodeId | KSHORTESTPATH_1.0.3/QYShortestPath.h:65 | `DEADEND` when the distance map (not the next-node map) lacks `i`; the recorded predecessor otherwise, or the default 0 that `operator[]` inserts |
| ShortestPaths.ShortestPath.SetDistance | KSHORTESTPATH_1.0.3/QYShortestPath.h:63 | the distance reads back; nothing else changes |
| ShortestPaths.ShortestPath.SetNextNodeId | KSHORTESTPATH_1.0.3/QYShortestPath.h:66 | the predecessor reads back whenever `i` has a distance, else `DEADEND`; nothing else changes |
| ShortestPaths.ShortestPath.ConstructPathTree | KSHORTESTPATH_1.0.3/QYShortestPath.cpp:128-176 | the source is recorded and the maps hold a shortest-path tree of the first `GetNumberOfEdges` arcs |
| ShortestPaths.ShortestPath.CopyTree | KSHORTESTPATH_1.0.3/QYShortestPath.cpp:170-174 | every vertex gets its distance and predecessor from Dijkstra's vectors |
| ShortestPaths.ShortestPath.GetPathTo | KSHORTESTPATH_1.0.3/QYShortestPath.cpp:73-109 | id -1 with an empty list for an out-of-range target; id -2 for an unreachable one; else id 0, cost the target's distance, and a list from the source to the target along predecessor links |
| ShortestPaths.ShortestPath.WalkToSource | KSHORTESTPATH_1.0.3/QYShortestPath.cpp:89-105 | the do-while loop ends and yields a list that starts at the source, ends at the target and follows predecessor links |
| ShortestPaths.ShortestPath.ChainIsTreePath | KSHORTESTPATH_1.0.3/QYShortestPath.cpp:89-108 | a predecessor chain from the source to the target is a path of the tree whose weight is the target's distance |
| ShortestPaths.ShortestPath.ReturnedIsCheapest | KSHORTESTPATH_1.0.3/QYShortestPath.cpp:73-123 | with a tree over the graph's own arcs, the returned path is nonempty exactly when the target is reachable, and then it is a cheapest vertex list from the source to the target |
| ShortestPaths.ShortestPath.GetShortestPath | KSHORTESTPATH_1.0.3/QYShortestPath.cpp:114-123 | Dijkstra reruns only for a new source (the maps are kept otherwise), then the path to the target as `GetPathTo` gives it; on a tree built over the graph's own arcs the path is nonempty exactly when the target is reachable, and then no vertex list from the source to the target weighs less |
| KShortestPaths.PrefixBefore | KSHORTESTPATH_1.0.3/QYKShortestPaths.cpp:235-240 | the vertices before the first occurrence of the deviation vertex, in order |
| KShortestPaths.FollowedByOnSimplePath | KSHORTESTPATH_1.0.3/QYKShortestPaths.cpp:351-363 | on a path without repeated vertices, "the first `s` is followed by `e`" holds exactly when (s, e) is an arc of the path |
| KShortestPaths.ReverseInvolution | KSHORTESTPATH_1.0.3/QYKShortestPaths.cpp:173-185 | reversing the graph twice restores every weight |
| KShortestPaths.RelaxPreserves | KSHORTESTPATH_1.0.3/QYKShortestPaths.cpp:302-306 | lowering a distance through an arc keeps every changed label linked to a connected arc and below its old value |
| KShortestPaths.InsertKeepsPool | KSHORTESTPATH_1.0.3/QYKShortestPaths.cpp:261-263 | a new candidate whose id is the number of paths so far collides with no candidate, and the pool stays valid with its deviation vertex recorded |
| KShortestPaths.RemoveMinimal | KSHORTESTPATH_1.0.3/QYKShortestPaths.cpp:110-111 | with distinct keys, the first element of the ordered set orders before every other candidate, and removing it keeps keys distinct |
| KShortestPaths.KShortestPathSearch.constructor | KSHORTESTPATH_1.0.3/QYKShortestPaths.cpp:39-44 | the graph, endpoints and k are recorded; no intermediate graph, no tree, no results and no candidates |
| KShortestPaths.KShortestPathSearch.InsertCandidate | KSHORTESTPATH_1.0.3/QYKShortestPaths.cpp:262 | set insertion: nothing changes when a candidate with the same key is already in the set, otherwise the path is added |
| KShortestPaths.KShortestPathSearch.TakeNext | KSHORTESTPATH_1.0.3/QYKShortestPaths.cpp:110-114 | the candidate moved to the results is a former candidate that orders before all remaining ones; the candidates lose exactly it |
| KShortestPaths.KShortestPathSearch.EdgeHasBeenUsed | KSHORTESTPATH_1.0.3/QYKShortestPaths.cpp:343-367 | true exactly when some result's first occurrence of `start` is followed by `end` |
| KShortestPaths.KShortestPathSearch.SwapIfConnected | KSHORTESTPATH_1.0.3/QYKShortestPaths.cpp:329-335 | the two weights are exchanged when either is connected, else nothing changes; the number of finite arcs is kept |
| KShortestPaths.KShortestPathSearch.ReverseEdgesInGraph | KSHORTESTPATH_1.0.3/QYKShortestPaths.cpp:321-338 | every weight becomes the weight of the reversed arc between vertices below V; the counters stay consistent |
| KShortestPaths.KShortestPathSearch.CutRow | KSHORTESTPATH_1.0.3/QYKShortestPaths.cpp:159-169 | every arc leaving the removed vertex is disconnected and the edge counter still counts the finite arcs |
| KShortestPaths.KShortestPathSearch.CutRows | KSHORTESTPATH_1.0.3/QYKShortestPaths.cpp:156-170 | the arcs leaving each listed vertex are disconnected, all others kept |
| KShortestPaths.KShortestPathSearch.TreeToTarget | KSHORTESTPATH_1.0.3/QYKShortestPaths.cpp:173-185 | the graph ends as it began and the tree rooted at the target uses the graph's arcs backwards |
| KShortestPaths.KShortestPathSearch.DetermineCost2Target | KSHORTESTPATH_1.0.3/QYKShortestPaths.cpp:150-186 | the arcs leaving every path vertex but the last are disconnected and the tree holds distances to the target over the remaining arcs |
| KShortestPaths.KShortestPathSearch.UpdateWeight4CostUntilNode | KSHORTESTPATH_1.0.3/QYKShortestPaths.cpp:285-316 | every label the worklist changes is lowered and linked to a connected arc into the vertex it now points to |
| KShortestPaths.KShortestPathSearch.RestoreArcsFrom | KSHORTESTPATH_1.0.3/QYKShortestPaths.cpp:196-220 | the arcs leaving `start` except to `end` are restored (skipping used arcs at the deviation vertex); only `start`'s distance can change, and exactly when it is lowered the flag is set |
| KShortestPaths.KShortestPathSearch.RestoreArc | KSHORTESTPATH_1.0.3/QYKShortestPaths.cpp:201-218 | one arc is restored when the original graph has it and it is not excluded; `start` is rerouted through `i` exactly when that is strictly shorter |
| KShortestPaths.KShortestPathSearch.WalkToTarget | KSHORTESTPATH_1.0.3/QYKShortestPaths.cpp:243-249 | the walk starts at `start`, follows next-node links and never passes the target before its end |
| KShortestPaths.KShortestPathSearch.PriceOnGraph | KSHORTESTPATH_1.0.3/QYKShortestPaths.cpp:253-258 | the cost is the original graph's weight of the vertex list |
| KShortestPaths.KShortestPathSearch.BuildCandidate | KSHORTESTPATH_1.0.3/QYKShortestPaths.cpp:233-263 | either no candidate is added or exactly one, the prefix before `start` followed by next-node links to the target, with the next free id |
| KShortestPaths.KShortestPathSearch.AddDeviation | KSHORTESTPATH_1.0.3/QYKShortestPaths.cpp:250-263 | the new path is the prefix, the walk and the target, priced on the original graph; the pool stays valid |
| KShortestPaths.KShortestPathSearch.CandidatePass | KSHORTESTPATH_1.0.3/QYKShortestPaths.cpp:194-264 | the first pass's graph change and at most one new deviation candidate |
| KShortestPaths.KShortestPathSearch.RestoreLastArc | KSHORTESTPATH_1.0.3/QYKShortestPaths.cpp:266-278 | only the arc (start, end) is restored |
| KShortestPaths.KShortestPathSearch.RestoreEdges4CostAdjustment | KSHORTESTPATH_1.0.3/QYKShortestPaths.cpp:191-279 | the arcs leaving `start` are restored as above, plus (start, end); at most one candidate is added, priced on the original graph, and the pool stays valid |
| KShortestPaths.KShortestPathSearch.DeviateFrom | KSHORTESTPATH_1.0.3/QYKShortestPaths.cpp:122-143 | one round keeps the results and the pool valid and only appends candidates, each priced on the original graph |
| KShortestPaths.KShortestPathSearch.SelectPaths | KSHORTESTPATH_1.0.3/QYKShortestPaths.cpp:105-144 | at most k results, the first being the shortest path, every result running from the source to the target at its weight on the graph |
| KShortestPaths.KShortestPathSearch.GetTopKShortestPaths | KSHORTESTPATH_1.0.3/QYKShortestPaths.cpp:67-145 | no paths when the target is out of range, unreachable, or k is not positive; otherwise at most k paths, the first with id 0 and a cheapest vertex list from source to target, every other one from source to target at its weight and no cheaper than the first |
| KShortestPaths.TiedPathsOutOfKeyOrder | KSHORTESTPATH_1.0.3/QYDirectedPath.h:99-116 | two equally cheap paths where the longer may come first from the shortest-path query and the shorter, found by deviation, orders before it under `Comparator`: results are ordered by cost from the first, not by the comparator |
| MainP.FilterSound | KSHORTESTPATH_1.0.3/MainP.cpp:47-61 | the intended erase keeps exactly the returned paths with 1 to `total_nodes - 1` vertices, in order |
| MainP.EraseAsWrittenTail | KSHORTESTPATH_1.0.3/MainP.cpp:47-61 | the loop as written leaves only kept paths after position 0, and leaves a list without bad paths alone |
| MainP.EraseAsWrittenKeepsLongPath | KSHORTESTPATH_1.0.3/MainP.cpp:54-59 | a concrete list on which the loop as written keeps a path of `total_nodes` vertices that should have been erased |
| MainP.EraseInvalid | KSHORTESTPATH_1.0.3/MainP.cpp:47-61 | the erase loop, re-examining the new element after each erase, leaves exactly the intended filtered list |
| MainP.RowStartIsProduct | KSHORTESTPATH_1.0.3/MainP.cpp:70 | row `a` of `pathinfo` starts at `a * (total_nodes - 1)` |
| MainP.RowsInOrder | KSHORTESTPATH_1.0.3/MainP.cpp:70 | rows do not overlap: each ends before the next starts |
| MainP.CopyRow | KSHORTESTPATH_1.0.3/MainP.cpp:68-71 | the vertices go, truncated to `unsigned short`, to consecutive cells from the row start; no other cell changes |
| MainP.PackRow | KSHORTESTPATH_1.0.3/MainP.cpp:65-71 | cost and length of path `a` land in slot `a`, its vertices in row `a`; nothing else changes |
| MainP.PackRows | KSHORTESTPATH_1.0.3/MainP.cpp:63-72 | every kept path is packed in its own slot and row, the slots after them untouched |
| MainP.PadRows | KSHORTESTPATH_1.0.3/MainP.cpp:74-78 | the slots from the number kept up to `k_paths` get cost infinity and length 0 (`numeric_limits<int>::infinity()` is 0) |
| MainP.CopyResults | KSHORTESTPATH_1.0.3/MainP.cpp:45-79 | the filtered paths are packed in order and the remaining slots below `k_paths` padded |
| MainP.ComputePaths | KSHORTESTPATH_1.0.3/MainP.cpp:18-40 | one Dijkstra path when `k_paths == 1`, else at most `k_paths` search results; when a path is asked for, the first is nonempty exactly when `dest_node` is reachable and is then a cheapest route over the first-listed weights, and every nonempty one runs from `src_node` to `dest_node` at its weight, no cheaper than the first |
| MainP.PathsOn | KSHORTESTPATH_1.0.3/MainP.cpp:20-40 | the same query and guarantees on an already built graph |
| MainP.CalcKShortestPaths | KSHORTESTPATH_1.0.3/MainP.cpp:16-43 | the packed paths are the returned ones within the length bounds, in order, at most `k_paths`, each from `src_node` to `dest_node`, the other slots padded; the returned ones meet the guarantees above, and a cheapest first path of acceptable length is packed first |
| Wavelengths.CountTrueZero | SRC/ResourceManager.cpp:1424-1428 | no wavelength is available exactly when the available count is 0 |
| Wavelengths.CountTrueClear | SRC/ResourceManager.cpp:1415-1418 | clearing an available wavelength lowers the count by one |
| Wavelengths.MaskEdge | SRC/ResourceManager.cpp:1413-1420 | a wavelength stays available exactly when it was and is free on the edge; the counter tracks the number available |
| Wavelengths.AvailableWaves | SRC/ResourceManager.cpp:1403-1422 | a wavelength is available exactly when it is free on every edge of the path, and the counter is their number |
| Wavelengths.PickFirstFit | SRC/ResourceManager.cpp:2031-2041 | the lowest available wavelength, or `NO_PATH_FAILURE` exactly when none is available |
| Wavelengths.AddUsage | SRC/ResourceManager.cpp:2089-2098 | the counter of each available wavelength grows by one when the edge uses it |
| Wavelengths.CountUsage | SRC/ResourceManager.cpp:2076-2100 | for each available wavelength, the number of network edges using it; 0 for the others |
| Wavelengths.PickMostUsed | SRC/ResourceManager.cpp:2074-2117 | an available wavelength such that no available one is used on more edges, or as many with a lower index; `NO_PATH_FAILURE` exactly when none is available |
| Wavelengths.PickRandomFit | SRC/ResourceManager.cpp:2126-2153 | the `draw`-th available wavelength in index order; the fatal `ERROR_CHOOSE_WAVELENGTH_1` exactly when fewer are available |
| Wavelengths.QualityFirstFit | SRC/ResourceManager.cpp:2162-2198 | the lowest originally available wavelength whose Q-factor reaches the threshold, or `QUALITY_FAILURE` when none does |
| Wavelengths.QualityMostUsed | SRC/ResourceManager.cpp:2414-2450 | the result reaches the threshold and every available wavelength ahead of it in most-used order fails it; `QUALITY_FAILURE` when all fail |
| Wavelengths.QualityRandomFit | SRC/ResourceManager.cpp:2368-2405 | the result is an originally available wavelength that reaches the threshold, or `QUALITY_FAILURE` once all available ones are rejected |
| Wavelengths.LeastQualityFit | SRC/ResourceManager.cpp:2252-2301 | among available wavelengths reaching the threshold, one of lowest Q-factor, the lowest index on a tie; `QUALITY_FAILURE` when none reaches it |
| Wavelengths.MostQualityFit | SRC/ResourceManager.cpp:2310-2359 | among available wavelengths reaching the threshold with a positive Q-factor, one of highest Q-factor, the lowest index on a tie; `QUALITY_FAILURE` otherwise |
| Wavelengths.GapBounds | SRC/ResourceManager.cpp:2748-2785 | the lower and upper bounds are the distances to the nearest placed wavelength on each side, `W` when there is none |
| Wavelengths.ExtendKeeps | SRC/ResourceManager.cpp:2713-2738 | the greedy loop keeps what is placed and appends a permutation of the remaining wavelengths |
| Wavelengths.ExtendGreedy | SRC/ResourceManager.cpp:2713-2738 | each appended wavelength has the largest gap among those after it, the lowest on a tie |
| Wavelengths.FirstMaxBeatsRest | SRC/ResourceManager.cpp:2722-2731 | the picked wavelength's gap is at least that of every wavelength left behind, and it is the lower index on a tie |
| Wavelengths.SpreadOrderingMultiset | SRC/ResourceManager.cpp:2693-2739 | the table has `W` entries, starts with the seed 0, `W - 1`, and holds each of 0..W-1 once |
| Wavelengths.SpreadOrderingPermutation | SRC/ResourceManager.cpp:2693-2739 | the ordering table is a permutation of 0..W-1 that starts with 0 and `W - 1` |
| Wavelengths.SpreadOrderingGreedy | SRC/ResourceManager.cpp:2713-2738 | from the third entry on, each entry has the largest gap to the entries before it among the entries after it |
| Wavelengths.NoneInOrdering | SRC/ResourceManager.cpp:2057-2064 | scanning a complete ordering finds nothing only when nothing is available |
| Wavelengths.MaxPair | SRC/ResourceManager.cpp:2722-2731 | the scan returns the position of the first maximum |
| Wavelengths.ScanOrdering | SRC/ResourceManager.cpp:2057-2064 | the first available wavelength in table order, or `NO_PATH_FAILURE` when none in the table is |
| Wavelengths.WavelengthAssigner.LowerBound | SRC/ResourceManager.cpp:2748-2762 | the distance to the nearest of the first `n` ordered wavelengths below `w`, `W` if none |
| Wavelengths.WavelengthAssigner.UpperBound | SRC/ResourceManager.cpp:2771-2785 | the distance to the nearest of the first `n` ordered wavelengths above `w`, `W` if none |
| Wavelengths.WavelengthAssigner.GapsOf | SRC/ResourceManager.cpp:2716-2720 | the gap of every remaining wavelength, the smaller of its two bounds |
| Wavelengths.WavelengthAssigner.FillOrdering | SRC/ResourceManager.cpp:2698-2738 | the table becomes the greedy spread ordering |
| Wavelengths.WavelengthAssigner.PlaceNext | SRC/ResourceManager.cpp:2713-2738 | the remaining wavelength with the first largest gap goes into the next slot and leaves the list |
| Wavelengths.WavelengthAssigner.GenerateWaveOrdering | SRC/ResourceManager.cpp:2693-2739 | a fresh table holding the greedy spread ordering, a permutation of 0..W-1 |
| Wavelengths.WavelengthAssigner.EnsureOrdering | SRC/ResourceManager.cpp:2052-2055 | a table exists afterwards and an existing one is kept |
| Wavelengths.WavelengthAssigner.FirstFitOrdered | SRC/ResourceManager.cpp:2050-2065 | the table is built once and kept; the result is available and every wavelength ahead of it in table order is not; `NO_PATH_FAILURE` exactly when none is available |
| Wavelengths.WavelengthAssigner.QualityFirstFitOrdered | SRC/ResourceManager.cpp:2207-2243 | the result reaches the threshold and every available wavelength ahead of it in table order fails it; `QUALITY_FAILURE` when all fail |
| Wavelengths.PlainRuleUnique | SRC/ResourceManager.cpp:1430-1449 | each plain rule (FIRST_FIT, FIRST_FIT_ORDERED, RANDOM_FIT, MOST_USED) holds of at most one available wavelength |
| Wavelengths.PlainPick | SRC/ResourceManager.cpp:1430-1449 | FIRST_FIT, RANDOM_FIT and MOST_USED each return an available wavelength by their rule: the lowest, the drawn-th in index order, or one no available wavelength precedes in most-used order |
| Wavelengths.GatedPick | SRC/ResourceManager.cpp:1450-1473 | the gated algorithms other than the ordered one return an available wavelength reaching the threshold by their rule, or `QUALITY_FAILURE` exactly when the gate rejects every available one |
| Wavelengths.WavelengthAssigner.PlainChoice | SRC/ResourceManager.cpp:1430-1449 | each plain algorithm returns an available wavelength by its rule: the lowest, the first in the spread ordering, the drawn-th in index order, or one no available wavelength precedes in most-used order; only FIRST_FIT_WITH_ORDERING may build the table |
| Wavelengths.WavelengthAssigner.GatedChoice | SRC/ResourceManager.cpp:1450-1473 | each gated algorithm returns an available wavelength reaching the threshold by its rule (first passing in index, spread or most-used order, lowest or highest passing Q-factor), or `QUALITY_FAILURE` exactly when its gate rejects every available one; only QUAL_FIRST_FIT_WITH_ORDERING may build the table |
| Wavelengths.WavelengthAssigner.ChooseAmong | SRC/ResourceManager.cpp:1424-1497 | dispatch on the algorithm, each result obeying that algorithm's rule; a plain algorithm returns `QUALITY_FAILURE` exactly when quality awareness is on and the wavelength its rule picks has a Q-factor below `thq`; `BEST_FIT` has no branch and ends the process with `ERROR_CHOOSE_WAVELENGTH_2` |
| Wavelengths.WavelengthAssigner.ChooseWavelength | SRC/ResourceManager.cpp:1399-1502 | `NO_PATH_FAILURE` exactly when no wavelength is free on the whole path; otherwise the fatal `ERROR_CHOOSE_WAVELENGTH_2` exactly for `BEST_FIT`, else a wavelength free on every edge chosen by the algorithm's rule over the free ones, whose Q-factor passes whenever a gate applies, or `QUALITY_FAILURE`: for a gated algorithm exactly when its gate rejects every free one, for a plain one exactly when quality awareness is on and the free wavelength its rule picks falls below `thq` |
| FourWaveMixing.GenFrequencyComb | SRC/ResourceManager.cpp:1825-1839 | the comb the two counting loops build, with the centre when asked; the count returned is its length |
| FourWaveMixing.CombLayout | SRC/ResourceManager.cpp:1825-1839 | the comb is strictly increasing, has `left + right` channels plus the optional centre, and holds exactly the offsets from `-left` to `right` |
| FourWaveMixing.BuildFwmFs | SRC/ResourceManager.cpp:1848-1861 | the indices of the channels within the half window of `lambda`, in channel order, each with its frequency |
| FourWaveMixing.WindowIsRange | SRC/ResourceManager.cpp:1848-1861 | the window is the contiguous run of channels from `max(0, lambda - halfwin)` to `min(n - 1, lambda + halfwin)` |
| FourWaveMixing.DegeneracyCases | SRC/ResourceManager.cpp:1963-1972 | the factor is -1, 3 or 6; -1 exactly when `fk` equals `fi` or `fj`; 3 exactly for `fi == fj`; symmetric in `fi` and `fj` |
| FourWaveMixing.CanFind | SRC/ResourceManager.cpp:1948-1955 | true exactly when one of the first `num` entries has the triple |
| FourWaveMixing.WaveCombines | SRC/ResourceManager.cpp:1871-1940 | the entries the triple loop records in loop order, over integer channel offsets; the count returned is their number |
| FourWaveMixing.WaveCombinesSound | SRC/ResourceManager.cpp:1871-1940 | every recorded entry is a mixing term onto `fc` with `fi <= fj`, `fk` distinct from both, degeneracy 3 or 6, and no triple is recorded twice |
| FourWaveMixing.WaveCombinesComplete | SRC/ResourceManager.cpp:1871-1940 | every mixing term onto `fc` is recorded |
| Noise.ScanSpans | SRC/ResourceManager.cpp:1578-1604 | the inner scan passes only used hops and adds their spans; it stops at an unused hop, or at a changed session once something is accumulated |
| Noise.XpmRunsCover | SRC/ResourceManager.cpp:1574-1620 | the XPM runs are positive and together cover exactly the spans of the used edges |
| Noise.FwmRunsCover | SRC/ResourceManager.cpp:1661-1706 | the same for the runs of one FWM term |
| Noise.XpmRunsAreBlocks | SRC/ResourceManager.cpp:1574-1620 | with at least one span per edge, the XPM runs are exactly the maximal same-session blocks of used edges |
| Noise.FwmRunsAreBlocks | SRC/ResourceManager.cpp:1661-1706 | the same for the FWM runs |
| Noise.PathXpmNoise | SRC/ResourceManager.cpp:1560-1620 | the sum, over the neighbouring wavelengths, of one XPM term per same-session run on which the wavelength is in use |
| Noise.AddXpmWave | SRC/ResourceManager.cpp:1566-1616 | one outer turn adds the terms of one more wavelength |
| Noise.XpmQuiet | SRC/ResourceManager.cpp:1560-1620 | no neighbouring wavelength in use on the path gives no XPM noise |
| Noise.EmptyRuns | SRC/ResourceManager.cpp:1606-1612 | positive runs total zero only when there are none, which add no term |
| Noise.PathFwmNoise | SRC/ResourceManager.cpp:1639-1711 | the channel-power-scaled sum, over the mixing terms, of one FWM term per same-session run on which the three channels are in use |
| Noise.FwmStep | SRC/ResourceManager.cpp:1643-1708 | one turn extends the sum over the first `c` mixing terms to the first `c + 1` |
| Noise.PathAseNoise | SRC/ResourceManager.cpp:1542-1552 | the path's spans times the per-amplifier ASE noise of the wavelength |
| Noise.TotalSpansAppend | SRC/ResourceManager.cpp:1542-1552 | the ASE span count over a path is additive under concatenation |
| PathSelection.SpanTotalSplit | SRC/ResourceManager.cpp:395-401 | a path's span count splits between the two halves cut at any router |
| PathSelection.PathSpans | SRC/ResourceManager.cpp:395-401 | the sum of the span counts of the path's hops |
| PathSelection.IndicesSound | SRC/ResourceManager.cpp:430-445 | the listed positions are exactly those with the status, in increasing order |
| PathSelection.ClassifySlots | SRC/ResourceManager.cpp:384-416 | statuses of the slots in order, stopping after the `k`-th valid path; the count found is the smaller of `k` and the number of valid slots, and a short count means all slots were classified |
| PathSelection.PickWith | SRC/ResourceManager.cpp:430-445 | the first `count` positions with the status, or a read past the end of the status array exactly when there are fewer |
| PathSelection.PickUpTo | SRC/ResourceManager.cpp:472-507 | the same scan stopped at the end of the status array: the first `count` positions, or all if fewer |
| PathSelection.ParRound | SRC/ResourceManager.cpp:371-529 | one round's result: the first `k` valid paths when there are `k`, the fall-back in the last round, no result otherwise |
| PathSelection.FallbackAsWritten | SRC/ResourceManager.cpp:461-518 | as written, the fall-back reads past the status array exactly when there are fewer too-long paths than slots left to fill, and otherwise is the intended fall-back |
| PathSelection.CalculateParPath | SRC/ResourceManager.cpp:357-532 | no result exactly when no path is wanted; otherwise the outcome of the rounds from the first on |
| PathSelection.ConcatTiers | SRC/ResourceManager.cpp:461-507 | valid slots, then too-long ones, then blanks are in tier order |
| PathSelection.ParResult | SRC/ResourceManager.cpp:369-529 | exactly `k` slots, valid paths ahead of too-long ones ahead of empty ones; a slot that is not a valid path only when the last round found fewer than `k` valid paths |
| PathSelection.ParFallbackOverrun | SRC/ResourceManager.cpp:492-495 | two unconnected routers, one path wanted: the last round has eight blank slots and no too-long path, so the scan as written runs past the status array, while the corrected fall-back gives one blank slot |
| PathSelection.BlankRound | SRC/ResourceManager.cpp:461-518 | a round of blank slots only has no valid and no too-long path, and its fall-back is blank slots |
| PathSelection.UsedOnPath | SRC/ResourceManager.cpp:615-626 | true exactly when some hop of the path has the wavelength in use |
| PathSelection.BlockedCountBounds | SRC/ResourceManager.cpp:611-627 | the count is 0 exactly when no wavelength is in use on the path, and `W` exactly when all are |
| PathSelection.AvailabilityMeaning | SRC/ResourceManager.cpp:603-629 | availability is at most `W`; `W` exactly when no wavelength is used on the path; 0 exactly when there is no path or every wavelength is in use on it |
| PathSelection.PathAvailability | SRC/ResourceManager.cpp:603-629 | the number of wavelengths in use on no hop of the path, 0 for an empty slot |
| PathSelection.BestIndex | SRC/ResourceManager.cpp:640-650 | the first position of a greatest positive availability, or `2k` when all are 0 |
| PathSelection.Rank | SRC/ResourceManager.cpp:638-675 | the ranking the copy loop builds, taking the best remaining path and zeroing it each turn |
| PathSelection.CalculateAqosPath | SRC/ResourceManager.cpp:596-687 | `k` slots in non-increasing order of free wavelengths, slot i holding the QM path at the i-th picked position or a blank; the picks are a top-k selection: distinct positions with a free wavelength, none left out more available than a picked one, and a blank only once every QM path with a free wavelength is picked |
| PathSelection.RankBound | SRC/ResourceManager.cpp:638-675 | no ranked path is more available than the bound on what remains; each is blank or a QM path with a free wavelength |
| PathSelection.RankSorted | SRC/ResourceManager.cpp:638-675 | the ranked paths are in non-increasing order of free wavelengths |
| PathSelection.AqosResult | SRC/ResourceManager.cpp:596-687 | `k` slots in non-increasing order of free wavelengths, each blank or one of the QM paths with a free wavelength; slot i is the QM path at the i-th picked position, and the picks form a `TopSelection` |
| PathSelection.RankChoice | SRC/ResourceManager.cpp:638-675 | the copy loop's picked positions are a top selection of the availabilities (`TopSelection`) |
| PathSelection.RankSelects | SRC/ResourceManager.cpp:638-675 | each ranked slot is the QM path at its picked position, or a blank where none was picked |
| PathSelection.RankPicksPositive | SRC/ResourceManager.cpp:640-652 | only a position with a free wavelength is picked, since the scan needs an availability above 0 |
| PathSelection.RankPicksDistinct | SRC/ResourceManager.cpp:638-664 | no QM position is picked twice, since a picked entry is set to 0 |
| PathSelection.RankBlanksExhausted | SRC/ResourceManager.cpp:638-674 | a slot is blank only when every QM position with a free wavelength was picked for an earlier slot |
| PathSelection.RankPicksTop | SRC/ResourceManager.cpp:638-663 | no QM position left unpicked is more available than any picked one |
| PathSelection.TableEdgesMembers | SRC/ResourceManager.cpp:2557-2573 | the edge list holds exactly one arc per adjacent pair of routers, costed by the span count of the edge, sorted by source and then destination |
| PathSelection.ScanRow | SRC/ResourceManager.cpp:2559-2572 | the arcs from router `a` in destination order |
| PathSelection.BuildKspEdgeList | SRC/ResourceManager.cpp:2551-2580 | the topology's arcs; the fatal `ERROR_TOO_MANY_EDGES` exactly when there are more than the configured edge count |
| PathSelection.UnitCosts | SRC/ResourceManager.cpp:134-137 | the same arcs in order, each of cost 1 |
| PathSelection.HopWeights | SRC/ResourceManager.cpp:121-140 | the weights the query sees are 1 on every listed arc and disconnected elsewhere, so a path's cost is its hop count |
| PathSelection.SpCache.InitSpMatrix | SRC/ResourceManager.cpp:2502-2513 | an existing matrix is kept; otherwise a fresh one with every cell empty |
| PathSelection.SpCache.FreeSpMatrix | SRC/ResourceManager.cpp:2522-2542 | no matrix afterwards |
| PathSelection.SpCache.EnsureEdgeList | SRC/ResourceManager.cpp:118-119 | a saved list is reused; otherwise the list is built and saved, or the build's fatal exit is passed on |
| PathSelection.SpCache.CalculateSpPath | SRC/ResourceManager.cpp:109-156 | a saved shortest-path result is returned unchanged; otherwise the query runs on unit costs over the saved edge list, the first path found being a fewest-hop route when the destination is reachable, and under shortest-path routing its result is saved in the pair's cell and nowhere else |
| PathSelection.QueryPaths | SRC/ResourceManager.cpp:121-147 | the packed paths of the k-shortest-paths query on the arcs at cost 1: when a path is asked for, the first found is nonempty exactly when the destination is reachable and then has the fewest hops, and every other one has no fewer; the packed ones are those found of acceptable length, in order |
| Configuration.StrtokToken | SRC/Thread.cpp:1484-1493 | `strtok` on a token followed by the delimiter and more text yields the token and resumes after the delimiter; on a lone token it yields the whole text |
| Configuration.TokensOfJoin | SRC/Thread.cpp:1484-1499 | repeated `strtok` calls split a comma-joined list back into its tokens when none is empty or holds a comma |
| Configuration.AtoiDecimals | SRC/Thread.cpp:1515 | `atoi` of a digit string, with or without a minus sign, is its decimal value |
| Configuration.AtoiItoa | SRC/Thread.cpp:1515 | `atoi` reads back what `itoa` writes in base 10 |
| Configuration.GetKthParameterInt | SRC/Thread.cpp:1511-1537 | the reader as written: a comma-free value read whole, else `atoi` of the whole list at the selected run, with `maxRunCount` raised to the token count |
| Configuration.GetKthParameterFloat | SRC/Thread.cpp:1476-1503 | a comma-free value read whole, else the token at `runCount`, with `maxRunCount` raised to the last token's index |
| Configuration.GetKthParameterIntCorrected | SRC/Thread.cpp:1511-1537 | the integer reader with the token read and the count kept as the float reader does |
| Configuration.CorrectedListCoversRuns | SRC/Thread.cpp:373-380 | with the corrected reader a list of two or more values makes run `k` take place exactly when the list has a `k`-th entry, and that run reads that entry |
| Configuration.AsWrittenReadsFirstToken | SRC/Thread.cpp:1526 | as written, "1,2" gives its second run the value 1; the corrected reader gives 2 |
| Configuration.AsWrittenExtraRun | SRC/Thread.cpp:1528-1532 | as written, "1,2" raises `maxRunCount` to 2 so a third run happens with no value read; the float and corrected readers stop after two runs |
| Configuration.SetTopologyParameters | SRC/Thread.cpp:1848-1889 | the topology the line fold gives: routers, both directions of each edge, and the edge counter |
| Configuration.ReadTopologyLine | SRC/Thread.cpp:1853-1888 | one line's effect on the topology built so far: a router line adds a router, an edge line adds the edge in both directions and two to the edge counter, and any other line ends the run with `ERROR_TOPOLOGY_INPUT_EDGES` |
| Configuration.TopologyFatalSticks | SRC/Thread.cpp:1883-1888 | once a line is invalid, later lines do not change the result |
| Configuration.TopologyFails | SRC/Thread.cpp:1853-1888 | the file fails exactly when a line is neither a router nor an edge, and then with `ERROR_TOPOLOGY_INPUT_EDGES` |
| Configuration.TopologyCounts | SRC/Thread.cpp:1855-1882 | a file read without error has one router per "Router" line, both directions of each listed edge, and an edge counter equal to the number of edges made |
| Configuration.ParentsFatalSticks | SRC/Thread.cpp:1949-1954 | once a line is invalid, later lines do not change the result |
| Configuration.ListedParentsFail | SRC/Thread.cpp:1937-1957 | reading the workstation lines fails exactly when one is not a "Workstation" line, and then with `ERROR_WORKSTATION_INPUT_PARENT` |
| Configuration.ListedParentsInOrder | SRC/Thread.cpp:1937-1957 | read without error, the `i`-th listed workstation's parent is the one on the `i`-th line |
| Configuration.ReadParents | SRC/Thread.cpp:1937-1957 | the parents the line fold gives, or its error |
| Configuration.SpreadWorkstations | SRC/Thread.cpp:1960-1967 | the listed parents followed by the spread ones, counting from the 16-bit truncated number listed |
| Configuration.SetWorkstationParameters | SRC/Thread.cpp:1907-1973 | the count line, then the listed and spread parents; a first line with another key, with or without a field, ends with `ERROR_WORKSTATION_INPUT_QUANTITY` |
| Configuration.FieldlessFirstLine | SRC/Thread.cpp:1925-1934 | a field-less first line with another key, such as "Foo", is accepted by the requires and ends with `ERROR_WORKSTATION_INPUT_QUANTITY` |
| Configuration.SpreadAfterListed | SRC/Thread.cpp:1960-1967 | with fewer than 65536 listed, the listed parents come first, then enough to reach the count, the `n`-th on router `n % routers` |
| Configuration.FirstNamedMeaning | SRC/Thread.cpp:2031-2056 | a name is found exactly when some entry has it, and the found entry has it |
| Configuration.FindByName | SRC/Thread.cpp:2031-2056 | the first entry with the given name, or none |
| Configuration.NamesRoundTrip | SRC/Thread.cpp:1984-2008 | every routing algorithm, wavelength algorithm and probe style is found again by its own name |
| Configuration.PoolFatalSticks | SRC/Thread.cpp:2067-2073 | once a line fails, later lines do not change the result |
| Configuration.ExpandAlgorithm | SRC/Thread.cpp:2079-2090 | `iterationCount` copies of the algorithm, the `i`-th with `(i + 1) * delta` workstations |
| Configuration.AlgorithmLine | SRC/Thread.cpp:2016-2093 | what one line adds, reading each name where the source's pointer lands, also past a short token: nothing unless RUN is "1", else the expansion, or `ERROR_ALGORITHM_INPUT` for an unknown name |
| Configuration.SetAlgorithmParameters | SRC/Thread.cpp:1982-2096 | the pool the lines add up to, in order, or the first error, over every line whose five pointers land inside it |
| Configuration.AlgorithmFieldsJoin | SRC/Thread.cpp:2018-2022 | the fields of an algorithm line, joined with commas, split back into themselves |
| Configuration.LineRunsNamed | SRC/Thread.cpp:2024-2091 | a line naming an algorithm by its own names adds `iterationCount` entries of it, the `i`-th with `(i + 1) * delta` workstations |
| Configuration.LineRunsUnknown | SRC/Thread.cpp:2067-2073 | a line to be run under a name no table holds ends the program with `ERROR_ALGORITHM_INPUT` |
| Configuration.TokenStartsTokens | SRC/Thread.cpp:2018-2022 | each `strtok` call's token is the delimiter-free run at the text that call starts from |
| Configuration.CStringAtToken | SRC/Thread.cpp:2018-2022 | a read within a token yields the rest of that token |
| Configuration.FieldOfToken | SRC/Thread.cpp:2018-2022 | a token at least as long as its prefix reads as the text after the prefix |
| Configuration.ShortFirstToken | SRC/Thread.cpp:2018-2022 | a routing token shorter than "RA=" reads on past its terminator into the end of the next token |
| Configuration.ShortRoutingToken | SRC/Thread.cpp:2018-2073 | such a line, to be run, whose misread routing name no algorithm has ends with `ERROR_ALGORITHM_INPUT` |
| Configuration.ShortFieldReadsOn | SRC/Thread.cpp:2018-2073 | on "R,WA=FF,PS=SINGLE,QA=1,RUN=1" the routing name read is "A=FF" and the run ends with `ERROR_ALGORITHM_INPUT` |
| Configuration.CalculateDelay | SRC/Thread.cpp:2579-2590 | no delay for the IA and DP algorithms; otherwise the time light needs over the spans, never negative on a fibre of nonnegative length and index |
| Configuration.LightDelay | SRC/Thread.cpp:2587-2588 | the span distance in metres over the speed of light in the fibre: 0 for no spans, nonnegative for nonnegative parameters, and positive exactly when there are spans on a fibre of positive length and index |
| Configuration.LightDelaySlowdown | SRC/Thread.cpp:2587-2588 | dividing by the speed in the fibre is multiplying the distance by the refractive index and dividing by `SPEED_OF_LIGHT` |
| Configuration.LightDelayAdditive | SRC/Thread.cpp:2587-2588 | the delay over consecutive stretches is the sum of their delays |
| Configuration.LightDelayMonotone | SRC/Thread.cpp:2587-2588 | more spans never take less time |
| Workstations.NextSessionInBlock | SRC/Thread.cpp:803-806 | the next session stays with the same workstation and moves one place on in its block, wrapping from the last to the first |
| Workstations.SessionAfterCycles | SRC/Thread.cpp:803-806 | after `k` requests a session is `k` places on, modulo the block size, in the same workstation's block |
| Workstations.SessionsReturnAfterBlock | SRC/Thread.cpp:803-806 | after as many requests as the block has sessions, the session is back where it started |
| Workstations.GenerateTrafficEvent | SRC/Thread.cpp:748-791 | the request event of the session's workstation: arriving after the drawn interval, lasting at least the minimum duration, from the parent router to the first drawn router other than it |
| Workstations.FirstOccurrencesShape | SRC/Thread.cpp:480-491 | the recorded order holds exactly the drawn workstations, each once |
| Workstations.GenerateOrder | SRC/Thread.cpp:463-496 | drawing until every workstation is seen yields the order of first appearance of the draws, a permutation of all workstations |
| Workstations.ActivateFirst | SRC/Thread.cpp:502-511 | the first `count` workstations of the order become active and nothing else changes |
| Workstations.FirstSessions | SRC/Thread.cpp:528-530 | one first request for each active workstation, at the start of its session block |
| Workstations.AllFree | SRC/Thread.cpp:702-709 | true exactly when every wavelength of the edge is free |
| Workstations.DeactivateWorkstations | SRC/Thread.cpp:694-726 | the run ends with `ERROR_EDGE_IS_USED` exactly when some edge still has a wavelength in use; otherwise every workstation becomes inactive and keeps its parent |
| Signalling.SendResponse | SRC/Thread.cpp:2600-2618 | true exactly when no other sibling has reached the destination and decided on a wavelength |
| Signalling.MoreProbes | SRC/Thread.cpp:2649-2666 | true exactly when the style is PARALLEL and some other sibling has not reached the destination |
| Signalling.OtherResponse | SRC/Thread.cpp:2720-2740 | -1 exactly when the style is not PARALLEL or no other sibling waits undecided at the destination; otherwise the first such sibling |
| Signalling.FinalFailure | SRC/Thread.cpp:1151-1175 | a collision is final exactly when the style is not PARALLEL or every other sibling has reached the destination and decided no later than this probe |
| Signalling.FinalLeavesNoResponder | SRC/Thread.cpp:1151-1175 | after a final collision no other sibling waits at the destination and none is still travelling |
| Signalling.FirstFiniteMeaning | SRC/Thread.cpp:2250-2277 | the first finite slot in the range, -1 exactly when there is none, and -1 exactly when the count of finite slots is zero |
| Signalling.MinScanMeaning | SRC/Thread.cpp:2307-2316 | the BEST_FIT scan finds the first slot of least cost, and `Inf` exactly when every slot is `Inf` |
| Signalling.CountAndFirst | SRC/Thread.cpp:2250-2277 | the loop counts the finite slots of the range and finds the first of them |
| Signalling.BestFitScan | SRC/Thread.cpp:2307-2316 | the loop returns the first slot of strictly least cost and that cost |
| Signalling.FirstFiniteStable | SRC/Thread.cpp:2351-2359 | once a finite slot is found, scanning further finds the same one |
| Signalling.FirstFiniteScan | SRC/Thread.cpp:2351-2359 | the SERIAL loop stops at the first finite slot |
| Signalling.CalcProbesToSend | SRC/Thread.cpp:2237-2379 | the plan, number of probes and first slot, that the branches of the routing algorithm and probe style give |
| Signalling.PlanFatalCases | SRC/Thread.cpp:2292-2329 | the plan ends the program exactly for IMPAIRMENT_AWARE and DYNAMIC_PROGRAMMING under SINGLE or SERIAL with a wavelength algorithm other than FIRST_FIT, QUAL_FIRST_FIT and BEST_FIT when a finite slot exists, and then with `ERROR_WAVELENGTH_ALGORITHM_IA` |
| Signalling.PlanSendsOneFinite | SRC/Thread.cpp:2292-2359 | under SINGLE and SERIAL at most one probe is sent, and on a slot with a finite cost |
| Signalling.PlanEmptyIffNoCandidate | SRC/Thread.cpp:2237-2379 | the plan sends nothing exactly when every scanned slot is `Inf`; under PARALLEL it sends one probe per finite slot, from slot 0 |
| Signalling.EndingOf | SRC/Thread.cpp:1201-1401 | how a confirmation ends at the source: success for a wavelength, a retry for a failed SERIAL probe with untried slots, otherwise the failure counted, with a PARALLEL collision counted only when final |
| Signalling.SpanSumAppend | SRC/Thread.cpp:1269-1272 | span counts add up over joined paths |
| Signalling.CountSpans | SRC/Thread.cpp:1269-1272 | the loop adds the spans of every edge of the path |
| Signalling.Tally | SRC/Thread.cpp:1201-1401 | a success adds one success and the hops, spans and setup delay of its path; any other ending changes at most the three failure counters |
| Signalling.AtMostOneOutcome | SRC/Thread.cpp:1201-1401 | one confirmation at the source grows at most one of the success and failure counters, by one, and none for a retry or a non-final PARALLEL collision |
| Signalling.PairIndexNamesPair | SRC/ResourceManager.cpp:2659-2677 | the entry `source * R + destination` of the distance table names its pair: quotient the source, remainder the destination |
| Signalling.SetupIndexIgnoresDestination | SRC/Thread.cpp:1209-1210 | as written, the setup delay reads the entry of the pair (source, 0) whatever the destination; for source 1 and destination 2 of three routers it reads entry 3 and not 5 |
| Handlers.UpdateKeepsTable | SRC/Thread.cpp:845-872 | rewriting a record's changing fields while keeping its path, group and sequence keeps the probe table's invariant |
| Handlers.RemoveKeepsTable | SRC/Thread.cpp:981-982 | outside PARALLEL, deleting a record after its answer keeps the invariant |
| Handlers.ClearKeepsTable | SRC/Thread.cpp:2627-2640 | deleting a request's sibling array with its records keeps the invariant |
| Handlers.CountAfterDecision | SRC/Thread.cpp:872 | stamping a decision time never adds an undecided record and removes one when the record was undecided |
| Handlers.Arrived | SRC/Thread.cpp:841-845 | the record at the destination after its last hop, with nothing else changed |
| Handlers.SiblingsOf | SRC/Thread.cpp:2446-2450 | the records of a sibling array, in order |
| Handlers.DecideWavelength | SRC/Thread.cpp:874-934 | the destination's wavelength decision: for IA and DP the preset wavelength unless an edge is busy (NO_PATH) or the Q estimate is below the threshold under quality awareness (QUALITY), falling back to the wavelength algorithm for DP; otherwise the wavelength algorithm's choice |
| Handlers.AnyQualityFailure | SRC/Thread.cpp:936-946 | true exactly when some sibling already failed on quality |
| Handlers.Adjusted | SRC/Thread.cpp:936-951 | only NO_PATH is replaced, and only by QUALITY, under PARALLEL when a sibling failed on quality and under SERIAL when an earlier attempt did |
| Handlers.Settle | SRC/Thread.cpp:872-951 | the decision of an arrived probe is the destination's wavelength decision with the PARALLEL and SERIAL substitutions applied |
| Handlers.ConfirmationOf | SRC/Thread.cpp:855-870 | the confirmation starts at hop 0 on the probe's path, carries the decision and the preset wavelength, and is not a final failure |
| Handlers.LaunchKeepsTable | SRC/Thread.cpp:2423-2450 | filing the fresh records of one request, and under PARALLEL their sibling array, keeps the invariant |
| Handlers.FreshRecordsOk | SRC/Thread.cpp:2423-2445 | every filed record lies below the next handle and is well formed |
| Handlers.FreshGroupsOk | SRC/Thread.cpp:2446-2450 | every sibling array lies below the next handle and names its own records in sequence order |
| Handlers.FreshMembers | SRC/Thread.cpp:2446-2450 | under PARALLEL every record belongs to its sibling array |
| Handlers.Signaller.constructor | SRC/Thread.cpp:397-412 | a simulator with the given parameters, clock 0, the counters zeroed as a run starts, and no probes in flight |
| Handlers.Signaller.CreateConnectionProbe | SRC/Thread.cpp:839-1000 | a probe before its last hop moves one hop on and is scheduled over the next edge; on arrival outside PARALLEL its record is released and its confirmation with the settled wavelength leaves for the source |
| Handlers.Signaller.Forward | SRC/Thread.cpp:987-999 | the probe's hop count grows by one and one probe event is scheduled after the next edge's delay |
| Handlers.Signaller.ProbeArrives | SRC/Thread.cpp:845-985 | outside PARALLEL the record is released and the confirmation carrying the settled wavelength is the one event added; under PARALLEL only this request's records change and at most one event is added |
| Handlers.Signaller.Answer | SRC/Thread.cpp:845-985 | a record that does not answer is only marked as arrived; one that answers outside PARALLEL is released and sends its confirmation |
| Handlers.Signaller.Decide | SRC/Thread.cpp:872-985 | an answering record is decided on `w` and, outside PARALLEL, released after sending its confirmation |
| Handlers.Signaller.Mark | SRC/Thread.cpp:845-872 | the record is at the destination and decided now on `w`; the request has one undecided record fewer |
| Handlers.Signaller.Store | SRC/Thread.cpp:872 | the record is rewritten and the invariant kept |
| Handlers.Signaller.Verdict | SRC/Thread.cpp:847-951 | the probe answers exactly when the style is not PARALLEL or no other sibling has decided on a wavelength, and then with the settled wavelength |
| Handlers.Signaller.Respond | SRC/Thread.cpp:953-985 | outside PARALLEL the record is released and its confirmation is the one event added; under PARALLEL no record is added or dropped and at most one event is added |
| Handlers.Signaller.Finish | SRC/Thread.cpp:966-982 | the confirmation leaves unless a failed PARALLEL probe still has siblings travelling; outside PARALLEL the record is released |
| Handlers.Signaller.HopsFound | SRC/Thread.cpp:2502-2506 | a path is found exactly when every hop's edge is, and then its edges are those |
| Handlers.Signaller.Launches | SRC/Thread.cpp:2514-2520 | one launch event per record, in order, under consecutive handles |
| Handlers.Signaller.LaunchesSnoc | SRC/Thread.cpp:2514-2520 | launching one more record appends its one event |
| Handlers.Signaller.Unsent | SRC/Thread.cpp:2390-2407 | with nothing to send, a QUALITY failure for a SERIAL retry of a preset wavelength outside DP, otherwise a NO_PATH failure; nothing else changes |
| Handlers.Signaller.PlanLaunchable | SRC/Thread.cpp:2237-2539 | a plan `calcProbesToSend` makes from a table the routing algorithm filled is one `sendProbes` can carry out |
| Handlers.Signaller.MadeEach | SRC/Thread.cpp:2423-2512 | each made record is the probe of its slot |
| Handlers.Signaller.PathFor | SRC/Thread.cpp:2502-2506 | the edges from each router of the slot's row to the next |
| Handlers.Signaller.MakeRecords | SRC/Thread.cpp:2423-2512 | one well-formed record per slot, on that slot's path |
| Handlers.Signaller.MakeProbes | SRC/Thread.cpp:2410-2528 | records for the slots the scan takes, and the table with exactly those slots spent |
| Handlers.Signaller.Dispatch | SRC/Thread.cpp:2514-2527 | every record's launch is queued in order and, outside IA and DP, counted as a probe sent |
| Handlers.Signaller.SendProbes | SRC/Thread.cpp:2388-2539 | nothing to send counts the failure; otherwise the records of the plan are made, filed and launched, with the table's used slots spent |
| Handlers.Signaller.SendAll | SRC/Thread.cpp:2410-2528 | the records made for the plan's slots are filed and launched, and the table has those slots spent |
| Handlers.Signaller.Commit | SRC/Thread.cpp:2446-2527 | the fresh records are filed and launched and the invariant kept |
| Handlers.Signaller.MadeRecordsOk | SRC/Thread.cpp:2423-2512 | the records of a well-formed launch meet the invariant's demands on fresh records |
| Handlers.Signaller.File | SRC/Thread.cpp:2446-2450 | the fresh records go under the next handles and, under PARALLEL, their sibling array too, keeping the invariant |
| Handlers.Signaller.Counted | SRC/Thread.cpp:809-814 | a request counts one request, and one probe too for IA and DP; nothing else changes |
| Handlers.Signaller.Admit | SRC/Thread.cpp:801-814 | before `TEN_HOURS` the workstation's next request is queued; the request is counted |
| Handlers.Signaller.ConnectionRequest | SRC/Thread.cpp:799-830 | the next request and the count, then the plan on the routing table sent; the only exit is the planner's |
| Handlers.Signaller.Clear | SRC/Thread.cpp:2627-2640 | the sibling array and exactly its records are dropped |
| Handlers.Signaller.DestroyConnectionProbe | SRC/Thread.cpp:1009-1095 | the edge's wavelength is freed, or the run ends with `ERROR_EDGE_IS_FREE` exactly when it was already free; then the teardown moves on or, past the last edge, under PARALLEL drops the sibling array; the connection-statistics teardown at hop 0 is left out |
| Handlers.Signaller.CollisionNotification | SRC/Thread.cpp:1417-1468 | every edge but the one that collided has the wavelength freed, or the run ends with `ERROR_EDGE_IS_FREE` exactly when it was free; the notice moves on, and its end hands a non-final PARALLEL collision over to a waiting sibling |
| Handlers.Signaller.HandOver | SRC/Thread.cpp:1434-1451 | the record fails with COLLISION_FAILURE; with no waiting sibling nothing else changes |
| Handlers.Signaller.Withdraw | SRC/Thread.cpp:1440-1444 | the record fails with COLLISION_FAILURE; -1 exactly when no sibling waits undecided at the destination, otherwise such a sibling on its last hop |
| Handlers.Signaller.Reserve | SRC/Thread.cpp:1110-1184 | a free wavelength is reserved for the session; a used one queues a collision notice and marks the confirmation a collision, final as the siblings say |
| Handlers.Signaller.Succeed | SRC/Thread.cpp:1203-1293 | the success is tallied with its hops, spans and setup delay and the teardown is queued after the connection's duration |
| Handlers.Signaller.Reattempt | SRC/Thread.cpp:1294-1324 | the next attempt is planned on the confirmation's table past the tried slots and sent; an exit changes nothing |
| Handlers.Signaller.Fail | SRC/Thread.cpp:1325-1401 | the failure is tallied and, where the ending clears the group, the sibling array is dropped |
| Handlers.Signaller.Conclude | SRC/Thread.cpp:1201-1401 | at the source the confirmation succeeds, retries or fails by its ending |
| Handlers.Signaller.CreateConnectionConfirmation | SRC/Thread.cpp:1104-1408 | past the path's end it is `ERROR_INVALID_CONFIRMATION`; otherwise the edge step, then forwarding or, at the source, the conclusion |
| Launching.Slots | SRC/Thread.cpp:2412-2421 | the slots the scan takes have the number of probes to send |
| Launching.SlotsAhead | SRC/Thread.cpp:2412-2421 | one step of the scan: inside the table; a slot of infinite cost is passed over under IA and DP, any other is taken |
| Launching.SlotsTake | SRC/Thread.cpp:2412-2421 | a taken slot heads the slot list and the scan goes on after it |
| Launching.PickSlots | SRC/Thread.cpp:2410-2421 | the loop visits exactly the slots of the scan, in order |
| Launching.NextSlot | SRC/Thread.cpp:2414-2421 | the next slot the loop takes is the head of the remaining slots |
| Launching.SkipInfinite | SRC/Thread.cpp:2416-2420 | the inner loop stops on a finite slot inside the table and leaves the slots still to take unchanged |
| Launching.SlotsInRange | SRC/Thread.cpp:2412-2421 | every slot lies in the table from the start on, and under IA and DP has a finite cost |
| Launching.SlotsIncrease | SRC/Thread.cpp:2412-2421 | the slots increase strictly, so no slot is used twice |
| Launching.SlotsConsecutive | SRC/Thread.cpp:2412 | outside IA and DP the slots are consecutive from the start, and the scan stays in the table exactly when the table reaches the last of them |
| Launching.SlotsSkipOnlyInfinite | SRC/Thread.cpp:2416-2420 | under IA and DP no finite slot before the last one taken is passed over |
| Launching.CountFiniteFront | SRC/Thread.cpp:2366-2370 | counting finite slots from the front |
| Launching.SlotsDefined | SRC/Thread.cpp:2412-2421 | under IA and DP the scan stays in the table exactly when enough finite slots follow the start |
| Launching.CountFiniteGrows | SRC/Thread.cpp:2366-2370 | counting over a longer range never counts fewer |
| Launching.FinitePrefixCount | SRC/Thread.cpp:2366-2370 | when the finite costs come first, the finite slots are the first ones |
| Launching.Spend | SRC/Thread.cpp:2508-2512 | every algorithm but SHORTEST_PATH marks the used slot with infinite cost and length; nothing else in the table changes |
| Launching.SpendAll | SRC/Thread.cpp:2508-2512 | spending slots keeps the table's shape and its routes |
| Launching.SpendAllMarks | SRC/Thread.cpp:2508-2512 | the used slots are marked spent and every other slot is as it was |
| Launching.SpendAllShortestPath | SRC/Thread.cpp:2508 | under SHORTEST_PATH the table is never marked |
| Launching.SequenceOf | SRC/Thread.cpp:2435-2440 | SERIAL keeps the request's sequence, PARALLEL counts up from it, SINGLE uses 0 |
| Launching.MaxSequenceOf | SRC/Thread.cpp:2452-2487 | SERIAL keeps the request's `max_sequence` once set, and on a first attempt takes a count no larger than the scan bound; the other styles use the number of probes sent |
| Launching.WavelengthOf | SRC/Thread.cpp:2489-2500 | the slot itself for IMPAIRMENT_AWARE, the stored wavelength for DYNAMIC_PROGRAMMING, 0 otherwise |
| Launching.Handles | SRC/Thread.cpp:2446-2450 | consecutive handles from the base |
| Launching.Fresh | SRC/Thread.cpp:2444-2450 | the made records under consecutive handles, all sharing the table the call leaves behind |
| MessageLogging.DigitChar | SRC/MessageLogger.cpp:234 | the character of digit `d` in "0123456789abcdef" reads back as `d`: a decimal digit below 10, a lower-case letter from 10 on |
| MessageLogging.TruncDiv | SRC/MessageLogger.cpp:238 | C's division: the magnitude of the quotient is the magnitude of the dividend divided by the base |
| MessageLogging.TruncMod | SRC/MessageLogger.cpp:234 | C's remainder: its magnitude is the magnitude of the dividend modulo the base |
| MessageLogging.Itoa | SRC/MessageLogger.cpp:220-250 | the text is the digits of the magnitude in the base, after a minus sign only for a negative value in base 10, and empty for a base outside 2 to 16 |
| MessageLogging.WriteDigits | SRC/MessageLogger.cpp:229-240 | the do-while loop writes at most 32 characters, the digits of the magnitude least significant first |
| MessageLogging.DigitStep | SRC/MessageLogger.cpp:232-240 | one turn of the loop: a single digit leaves quotient zero; otherwise the quotient shrinks and keeps the leading digits |
| MessageLogging.DigitsBound | SRC/MessageLogger.cpp:232-240 | a 32-bit magnitude has at most 32 digits in any base from 2 on, so the 34-character buffer holds them with the sign |
| MessageLogging.DigitsLength | SRC/MessageLogger.cpp:232-240 | a number below `2^k` has at most `k` digits |
| MessageLogging.ReverseRange | SRC/MessageLogger.cpp:246 | `std::reverse`: the first `n` characters in reverse order, the rest untouched |
| MessageLogging.ReversedSnoc | SRC/MessageLogger.cpp:246 | reversing after appending a character puts that character first |
| MessageLogging.DigitsRoundTrip | SRC/MessageLogger.cpp:220-250 | reading `itoa`'s digits back in the same base gives the magnitude |
| MessageLogging.LastDigitStep | SRC/MessageLogger.cpp:232-240 | the digits of `n` are those of `n / b` followed by the digit `n % b` |
| MessageLogging.DigitsInBase | SRC/MessageLogger.cpp:234 | every character written for a magnitude is a digit of the base |
| MessageLogging.ItoaZero | SRC/MessageLogger.cpp:232-240 | zero is written as "0": the loop runs once |
| MessageLogging.ItoaSign | SRC/MessageLogger.cpp:243-244 | the text is never empty for a valid base and starts with '-' exactly for a negative value in base 10 |
| MessageLogging.ConvertToFormattedTime | SRC/MessageLogger.cpp:147-160 | minutes below 60 and seconds below 60 that add back up to the time |
| MessageLogging.TwoDigitsRoundTrip | SRC/MessageLogger.cpp:175-200 | a field padded with '0' below 10 reads back as its value and is exactly two characters below 100 |
| MessageLogging.ConvertToStringTime | SRC/MessageLogger.cpp:169-217 | hours, minutes and seconds, each padded with '0' below 10, joined by ':' |
| MessageLogging.StringTimeLayout | SRC/MessageLogger.cpp:169-217 | below 100 hours the two separators stand at positions 2 and 5 |

## Left out

- Everything under `RUN_GUI`, GUI.cpp and the Allegro wrapper: drawing and
  user input only.
- Main.cpp's worker threads and the logger's mutexes: concurrency. Each
  model instance is one simulation thread. `recordEvent` writes to a file or
  the console and is left out. The fatal paths return an `Outcome` carrying
  the exit code in place of calling `exit`.
- Reading the input files (`ifstream`): a file is passed in as the
  sequence of its lines.
- `setQualityParameters`: only its comma-separated per-run reader
  (`getKthParameterFloat`/`getKthParameterInt`) is modelled. The
  physical constants it stores are floating point.
- MATLAB calls and the XPM database: foreign code.
- The Boost random generators: every draw (arrival interval, duration,
  destination router, workstation order, RANDOM_FIT's index) is a
  parameter.
- Boost's `dijkstra_shortest_paths`: an oracle passed in. It is constrained
  only by its result, a shortest-path tree over the arcs it is handed.
- Floating-point physics are abstract functions:
  - `estimate_Q`;
  - the XPM and FWM per-run terms;
  - the ASE table;
  - `setQFactorMin`;
  - the per-connection dB computation of `updateQMDegredation`;
  - the averaged Q statistics of `removeEstablishedConnection`.

  Delays and times are `real`, not `float`.
- Graph weights and path costs are natural numbers with an infinite
  sentinel (`DISCONNECT` and `+inf` both map to `Inf`). The library's
  float costs are not modelled.
- The ACO ant walks, `calculate_DP_path` and its top-k insertion step, the
  Q-measurement (QM) path search and `raRunTime`: heuristic searches over
  float weights and wall-clock time.
- On success, the model does not insert an `EstablishedConnection` into
  every edge, and does not update the QM degradation or Q-factor
  statistics (Thread.cpp:1244-1281). These only feed the floating-point
  statistics.
- Handlers.Signaller.DestroyConnectionProbe: at hop 0 the source removes
  the connection from every edge of its path and calls
  `updateQMDegredation` or `updateQFactorStats` (Thread.cpp:1011-1025)
  under QM, AQoS or Q-factor statistics. The model leaves this teardown
  out, for the same reason as the insertion above; `removeEstablishedConnection`
  itself is modelled on the edge.
- The ADAPTIVE_QoS router failure increments on a failed confirmation
  (Thread.cpp:1352-1355, 1378-1381) are not applied by the handlers. The
  increments themselves are modelled on the router.
- Workstation.h/.cpp accessors: a workstation is a record of its parent
  router and its active flag.
- Most 16-bit `unsigned short` counters and fields are unbounded
  naturals. The wraps are kept where a value is stored into one from a
  wider integer: numbers read from the topology and workstation files,
  the workstation-spreading counter, and the vertices packed into
  `pathinfo`.
- Pointer sharing of the k-shortest-path table: records carry the table
  by value. Only SERIAL reuses a table after sending, and the model
  threads the spent table through the retry.
- The router edge lists are a snapshot fixed when the signaller is built
  (`Wired`). No handler adds edges.
- `chooseEdge`: when no interval holds the draw, the source reads one
  entry past the table. The model answers "no edge".
- `_EdgeHasBeenUsed`: when `start` is the last vertex of a result, the
  source dereferences `end()`. The model answers "not followed".
- Routers.Router.GenerateProbabilities: probability and pheromone tables
  are `real`, not `double`. The destination table (Router.cpp:312-320) is
  a running sum that, unlike `generateACOProbabilities` (Router.cpp:197),
  is not forced to 1.0 at its end; it ends at exactly 1.0 only in exact
  arithmetic. In `double`, eleven routers of equal weight sum ten times
  0.1 to just below 1.0, and `generateDestination` returns the unsigned
  -1 for a draw at or above the last entry. The same holds for
  `Routers.DestinationTable` and `Routers.CumulativeSharesShape`.
- FourWaveMixing.WaveCombines: the enumeration works on integer channel
  offsets. The source tests sums of `float` frequencies with `==`, so
  rounding can miss a mixing term or match a wrong one; the model's
  `WaveCombinesSound` and `WaveCombinesComplete` hold of exact
  frequencies only.
- Routers.Router.constructor: the failure counters start at 0. The source
  constructor (Router.cpp:41-61) leaves `qualityFailures` and
  `waveFailures` unset until `resetFailures` runs.
- Edges.Edge: the `float` and `double` fields of an edge (pheromone,
  algorithmic usage, the degradation entries and the QM figure, the
  quality statistics) are `real`. Evaporation, deposit, the usage mean and
  the degradation mean are exact, where the source rounds each result.
- PathSelection.KProduct: the number of paths asked of LORA is an
  unbounded natural. The source converts `pow(float(k), iteration)` to
  `unsigned short` (ResourceManager.cpp:371-379). For k of 16 or more in
  the last round the value is 65536 or more, and that conversion is
  undefined behaviour in C++.
- Configuration.LightDelay: real arithmetic. The source forms
  `spans * L * 1000` in `float` and divides in `double`, so the two agree
  up to rounding.
- Configuration.ClassifyTopologyLine: a line with no key (empty, or only
  "=") is classified as invalid, which ends the run with
  `ERROR_TOPOLOGY_INPUT_EDGES`. The source hands `strtok`'s null token to
  `strcmp` there, which is undefined behaviour.
- Configuration.SetTopologyParameters: requires that no "Edge" line has
  fewer than three fields. The source hands a null token to `atoi` there,
  which is undefined behaviour.
- PathSelection.CalculateParPath: the last round's fall-back is the
  corrected one listed under Findings. Its scan for too-long paths stops
  at the end of the round's slots and pads with blank slots, where the
  source (ResourceManager.cpp:492-507) reads past the status array.
- Handlers.Signaller.Succeed: the IA and DP setup delay reads the span
  distance of the (source, destination) pair, the corrected index listed
  under Findings. The source reads `span_distance[source * R]`
  (Thread.cpp:1209). The same holds for `Conclude` and
  `CreateConnectionConfirmation`, which reach `Succeed`.
- MainP.CopyResults: packs the paths the corrected filter of the
  MainP.cpp:47-61 finding keeps. The source's erase loop skips the path
  after each erase, so it can pack a path of `total_nodes` vertices, whose
  row then runs one cell into the next row; the model never packs one.
- MainP.EraseInvalid: the corrected erase loop of that finding, not the
  source's; `EraseAsWrittenKeepsLongPath` shows what the source keeps.
- MainP.CalcKShortestPaths: its packed rows inherit the corrected filter
  of `CopyResults`.
- PathSelection.QueryPaths: its `kept == Filter(..)` is the corrected
  filter of `CopyResults`, not the source's skipping erase loop.
- PathSelection.SpCache.CalculateSpPath: the cached path tables inherit
  the corrected filter through `QueryPaths`.
- Configuration.SetWorkstationParameters: requires that every line has a
  key, and that the "NumberOfWorkstations" line and every "Workstation"
  line has a field, and that the file has a line. The source hands a
  null token to `strcmp` or `atoi` otherwise, which is undefined
  behaviour. It also requires a router, since the source divides by the
  router count when it spreads workstations.
- Configuration.SetAlgorithmParameters: requires that every line has
  five comma tokens and that no short token makes a read start past the
  line's terminator. The source adds a prefix length to a null pointer
  or reads stale buffer text there, which is undefined behaviour. The
  same holds for `AlgorithmLine`.
- Configuration.SetAlgorithmParameters: `delta` is a parameter. It stands
  for `iterationWorkstationDelta`, which the source computes in `float`
  as `1.0 / iterationCount * numberOfWorkstations` and truncates to an
  `unsigned short` (Thread.cpp:2076-2077). The model does not compute it.
- KShortestPaths.KShortestPathSearch.GetTopKShortestPaths: the contract
  proves the first result cheapest and every later one no cheaper than
  the first. It does not prove that later results come in nondecreasing
  cost, which rests on the incremental distance repair of
  `_RestoreEdges4CostAjustment` being exact. Comparator order among the
  results does not hold in general (`TiedPathsOutOfKeyOrder`).
- KShortestPaths.WalkToTarget: the next-node walk stops after V + 1 links.
  A predecessor cycle in the source would loop forever; the model yields
  no candidate instead.
- PathSelection.BuildKspEdgeList: the source copies `numberOfEdges` entries
  from a list it built of `num` entries. The model hands over the built
  list.
- EventQueues.EventQueue.GetNextEvent: the queue is a sequence scanned
  for its top event, not a binary heap. The contract states that an
  abort with `ERROR_PRIORITY_QUEUE` happens only when two queued events
  form an aborting pair, and never otherwise. Which pairs the source's
  heap compares depends on its layout and is not modelled. The model
  always pops an event that no queued event precedes. The source's heap
  need not: its probe comparison compares a session with itself, so the
  order is not a strict weak ordering (`Events.ProbeTiesNotTransitive`),
  and `push_heap` can leave on top a probe that a queued probe of the
  same time and session with a lower sequence precedes. For example,
  pushing probe c (session s1, sequence 1), probe b (session s2,
  sequence 0), any later event, then probe a (session s1, sequence 0)
  compares only c with b, c with the later event and b with a, and
  leaves c on top, although a precedes c.
- Launching.MaxSequenceOf: on a first SERIAL attempt the contract only
  bounds the count by the scan bound, and the exact count is the
  function's definition.
- Handlers.Signaller.ProbeArrives: under PARALLEL the contract states only
  that no record is added or removed, that other requests' records are
  unchanged, and that at most one event is queued. The siblings' mutual
  hand-over is not pinned down event by event.
- Handlers.Signaller.Answer: under PARALLEL only the frame and the
  at-most-one-event bound are stated, as for ProbeArrives.
- Handlers.Signaller.Decide: under PARALLEL only the frame and the
  at-most-one-event bound are stated.
- Handlers.Signaller.Respond: under PARALLEL only the frame and the
  at-most-one-event bound are stated.
- Handlers.Signaller.CreateConnectionProbe: under PARALLEL an arrival
  states only the frame and the at-most-one-event bound.
- Handlers.Signaller.HandOver: the result is stated exactly only when no
  sibling waits at the destination. Otherwise only the frame and the
  at-most-one-event bound are stated.
- Handlers.Signaller.CollisionNotification: at the last edge of a
  hand-over, only the frame and the at-most-one-event bound are stated.
- Handlers.Signaller.CreateConnectionConfirmation: a confirmation past the
  end of its path ends with `ERROR_INVALID_CONFIRMATION`. The source reads
  the edge at a negative index (Thread.cpp:1110) before it reaches that
  exit.
- Demands of the handlers that state facts the source assumes without
  checking:
  - the clock is positive when a probe decides, because a decision time
    of 0.0 means "undecided";
  - the wavelength algorithm's choice lies below the number of
    wavelengths;
  - every finite slot of a k-shortest-path table names routers joined by
    edges;
  - under PARALLEL, outside IA and DP, the finite slots of the table come
    first, because the send loop walks consecutive slots from 0;
  - the table is long enough for the scans of `calcProbesToSend`.
- Two places where the code differs from the description of the system.
  The model follows the code in both:
  - `TEN_HOURS` is one hour of simulated seconds (RaptorTime.h:22);
  - a padded `pathlen` slot is 0, the value of
    `numeric_limits<int>::infinity()`.

## Findings

| source | as written | input that shows it | evidently intended | confidence | as-written member | corrected member |
|---|---|---|---|---|---|---|
| SRC/Thread.cpp:1209-1210 | the setup delay of IA and DP reads `span_distance[source * R]`, the distance from the source to router 0 | three routers, source 1, destination 2: entry 3 (pair 1, 0) is read instead of entry 5 | read `span_distance[source * R + destination]` | not executed | Signalling.SetupIndexIgnoresDestination | Signalling.PairIndexNamesPair |
| KSHORTESTPATH_1.0.3/MainP.cpp:47-61 | after an erase the iterator is reset to `begin()` and then advanced, so the new first path is never examined | four routers, paths [0,1,2,3], [0,2,1,3], [0,3]: the second path has `total_nodes` vertices and survives | drop every path of length 0 or at least `total_nodes` | not executed | MainP.EraseAsWrittenKeepsLongPath | MainP.FilterSound |
| SRC/ResourceManager.cpp:492-507 | the fall-back scan for too-long paths has no bound, so it reads past the status array when there are fewer too-long paths than free result slots | one path wanted, eight blank LORA slots in the last round: no valid and no too-long path | stop at the end of the round's slots and leave the remaining result slots empty | not executed | PathSelection.ParFallbackOverrun | PathSelection.PickUpTo |
| SRC/Thread.cpp:1526 | `getKthParameterInt` returns `atoi` of the whole list, that is its first token, and counts one run more than the list has | the list "1,2": the second run reads 1, and a third run takes place | read the selected token and count runs as the float reader does | not executed | Configuration.AsWrittenReadsFirstToken | Configuration.GetKthParameterIntCorrected |
