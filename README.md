# mapping_distrinet in Dafny

A model of the placement and verification engine of mapping_distrinet: the
library that maps a virtual network (nodes asking for cores and memory,
links asking for a rate) onto a physical cluster (machines with cores and
memory, links made of network interfaces with a rate), and packs virtual
nodes into cloud instance types at least hourly cost. The repository keeps
several revisions side by side: the current library `distriopt/`, and the
older `mapping/`, `embedding/grid5000/`, `algorithms/` and root revisions.
Where the revisions differ the model keeps each behaviour apart.

Modules, in dependency order:

- `Common` — node ids, interface keys (with Python's truthiness of key 0), counters, errors, `Result`/`Option`, and the restriction of a list to a set.
- `PathSearch` — the iterative depth-first path finder with its stack of neighbour iterators, proved to terminate and to return simple paths.
- `Physical` — the physical network (`DeviceKey` among its accessors): compute nodes, interface lookups, the grouped ("dummy") interface accessors, `rate_out`, first-fit interface choice and `find_path`.
- `Virtual` — the virtual network: sorted edges, requirement accessors, the fat-tree and random EC2 generators.
- `Memory` — the memory attribute `from_mininet` reads: a number, or a string read by Python's `float()` in megabytes or gigabytes and truncated by `int()`.
- `LowerBound` — the machine lower bound `ceil(max(Σcores/max cores, Σmemory/max memory))` and its soundness.
- `EmbedVerify` — `verify_solution` of the embedding revisions.
- `Placement` — the `EmbedSolver` class and the shared placement steps: descending sorts, cumulative capacity checks, link routing with booked rates.
- `Ungroup` — the loop that spreads a link's rate over the real interfaces behind an aggregate, in its three revisions.
- `EmbedBuild` — `build_solution` (grouped and one-to-one), `n_machines_used`.
- `KBalanced` — the balanced partition (`GetPartitions`: threshold cut, cache, merge of the two smallest) and `EmbedBalanced.solve`.
- `MemoPath` — the memoised path finder of the older revisions, with reversal reuse.
- `FractionVerify` — the grid5000 and root `verify_solution` (fraction sums, endpoints) and `map_to_multiple_interfaces`.
- `PairRouting` — the older revisions' per-hop interface choice.
- `SwapPartition` — round-robin groups improved by swaps kept only on a strict decrease of the cut.
- `LegacySolve` — the `solve` drivers of the partition and balanced heuristics in the older revisions.
- `Karger` — union-find and the Karger contraction `min_cut`.
- `RandomSelect` — `RandomSelection.solve` of the library and of the mapping revision: drawn machines and drawn interfaces.
- `TwoPhases` — the two-phase heuristic (first-fit placement, then moves of the nodes of the most violated link while the rate in excess drops) of the mapping revision and of embedding/grid5000/heuristic3.py.
- `Greedy` — the partition tree, its BFS visit skipping placed nodes, and `EmbedGreedy.solve`.
- `Packing` — the cloud catalogue, the `Bin` class, the packing solver's upper bound and cheapest types, and the packing solution.
- `PackHeuristics` — the four packing heuristics (best fit dot product, first fit decreasing priority, first fit ordered deviation, greedy with upgrades).

Randomness (shuffles, samples, numpy weighted choice, the Kernighan–Lin
bisection of networkx) enters as oracle parameters with the postconditions
the library relies on. Floating point scores and fractions are exact
`real`s. Python's `max`, `min` and `next` pick the first best element; its
sorts are stable; dictionaries iterate in insertion order, which the model
keeps as sequences. Exceptions are `Err` values of `Result` or `Outcome`.

## Model

| member | source | states |
|---|---|---|
| Common.Normalise | distriopt/virtual.py:38-41 | a link written with its smaller end first: the same two ends, in order |
| Common.CeilDiv | distriopt/embedding/algorithms/kbalanced.py:29 | math.ceil of a quotient of naturals: the least c with c·b ≥ a |
| Common.Add | distriopt/embedding/solution.py:130-150 | `d[k] += x` on a counter dictionary: k gains x, every other key keeps its value, a missing key reads 0 |
| Physical.ComputeNodes | distriopt/embedding/physical.py:24-43 | a node is a compute node exactly when it has both a cores and a memory attribute and both are positive (a missing attribute reads as 0); the grid5000 revision (embedding/grid5000/physical.py:25-55) reads nb_cores and ram_size the same way |
| Physical.Keys | distriopt/embedding/physical.py:58-60 | the interface keys of a link, one per interface, in enumeration order |
| Physical.InterfaceIds | distriopt/embedding/physical.py:58-60 | interfaces_ids(i, j) lists one key per interface of the link between i and j |
| Physical.Lookup | distriopt/embedding/physical.py:45-47 | the interface stored under a key, or none exactly when no interface of the link has that key |
| Physical.AssociatedInterfaces | distriopt/embedding/physical.py:70-73 | fails exactly on a network that is not grouped or a pair with no link; otherwise the real interfaces behind the aggregate; the grid5000 revision (embedding/grid5000/physical.py:69-73) raises the same ValueError("Undefined") |
| Physical.RateAssociated | distriopt/embedding/physical.py:75-78 | ValueError on a network that is not grouped; a returned rate is the rate of a real interface with that key behind the aggregate; likewise in the grid5000 revision (embedding/grid5000/physical.py:75-79) |
| Physical.NameAssociated | distriopt/embedding/physical.py:80-84 | ValueError when interfaces are not grouped; a returned name is the device name at endpoint i of a real interface with that key |
| Physical.FirstFit | distriopt/embedding/physical.py:107-117 | the first interface whose rate covers req_rate plus what is booked in both directions; none exactly when no interface does |
| Physical.FindPath | distriopt/embedding/physical.py:89-136 | a returned path chains source to target hop by hop over neighbours, never revisits a node, and every hop uses the first fitting interface; otherwise NoPathFoundError; used_rate is only read |
| Physical.RateOutBoundsInterface | distriopt/embedding/physical.py:49-56 | rate_out(i) is at least the rate of any single interface at i |
| Physical.RateOutCountsRealInterfaces | distriopt/embedding/physical.py:240-259 | on a valid network rate_out(i) equals the sum, over the neighbours, of the real interface rates, grouped or not |
| Physical.LinkRealRate | distriopt/embedding/physical.py:240-259 | on one link the interfaces' rates add up to the real rate: the aggregate "dummy" rate is the sum of its associated interfaces' rates |
| PathSearch.Search | distriopt/embedding/physical.py:92-136 | the depth-first search with a stack of neighbour iterators: a result chains source to target, every hop is an accepted edge labelled by the acceptance function, and no node repeats |
| PathSearch.Explore | distriopt/embedding/physical.py:98-134 | one pass of the search loop: a returned path chains source to target over accepted edges with no node repeated; without one, the stack is still an open path and its weight has strictly dropped, which is why the loop ends |
| PathSearch.OpenPathFound | distriopt/embedding/physical.py:119-130 | when an accepted edge reaches target, the open path plus target, zipped with the interfaces used, is a result with every promised property |
| PathSearch.OpenPathPush | distriopt/embedding/physical.py:131-134 | pushing a neighbour not on the open path keeps the open-path invariant |
| PathSearch.OpenPathPop | distriopt/embedding/physical.py:102-105 | popping an exhausted iterator with its path node and interface keeps the open-path invariant |
| PathSearch.OpenPathAdvance | distriopt/embedding/physical.py:99-117 | taking the next neighbour from the top iterator keeps the open-path invariant |
| PathSearch.WeightPop | distriopt/embedding/physical.py:102-105 | popping strictly lowers the positional weight that bounds the loop |
| PathSearch.WeightAdvance | distriopt/embedding/physical.py:99 | advancing the top iterator lowers the weight by exactly one unit of its level |
| PathSearch.WeightPush | distriopt/embedding/physical.py:131-134 | pushing a new level costs less than the unit it consumed, so the loop ends |
| PathSearch.Backward | mapping/embedding/physical.py:79-88 | the hops read from the end, each turned round |
| PathSearch.BackwardChains | mapping/embedding/physical.py:79-88 | reversing a path that chains source to target gives one that chains target to source, and reversing twice is the identity |
| Virtual.RateIn | distriopt/virtual.py:64-66 | req_rate(i, j) is defined exactly when some link joins i and j, and is that link's rate |
| Virtual.ReqRateSymmetric | distriopt/virtual.py:64-66 | the rate of a link does not depend on the direction it is asked in |
| Virtual.NeighborsIn | distriopt/virtual.py:68-70 | the neighbours of i are exactly the nodes some link joins to i |
| Virtual.SortedEdges | distriopt/virtual.py:38-41 | every undirected link appears once, as (u, v) with u < v, and nothing else appears |
| Virtual.SortedEdgesCount | distriopt/virtual.py:38-41 | on a network without repeated links there are exactly as many sorted edges as links |
| Virtual.SortedList | logical.py:27-28 | the logical revision's list: each link in order, written with its smaller end first |
| Virtual.SortedEdgesFrom | distriopt/virtual.py:43-46 | the links at i, each written in lexicographic order, and only those |
| Virtual.CoreToAggr | distriopt/virtual.py:107-114 | the core-to-aggregation loops add k·(k/2)² distinct links from core to aggregation switches, each with the requested rate |
| Virtual.AggrToEdge | distriopt/virtual.py:116-123 | the aggregation-to-edge loops add k·(k/2)² more distinct links inside the pods, each with the requested rate |
| Virtual.EdgeToHost | distriopt/virtual.py:125-128 | the host loop adds density links per edge switch, no link repeated |
| Virtual.FatTreeValue | distriopt/virtual.py:91-130 | the graph built has (k/2)² core, k²/2 aggregation, k²/2 edge and density·k²/2 host nodes, every node with the same demands and every link with the same rate |
| Virtual.CreateFatTree | distriopt/virtual.py:73-130 | fails (AssertionError) exactly when k ≤ 1, k is odd or a demand is negative; otherwise returns that fat tree |
| Virtual.FatTreeOfFour | distriopt/virtual.py:91-130 | k = 4 with density 2 gives 36 nodes and 48 links |
| Virtual.RandomEC2 | distriopt/virtual.py:133-150 | n nodes without links, each demand drawn from its choice list |
| Virtual.Ec2Ranges | distriopt/virtual.py:136-137 | every drawn node has 1..8 cores and 512 MB or a multiple of 1024 MB up to 8192 |
| Virtual.LogicalRanges | logical.py:96-104 | the logical revision draws 1..10 cores and 512..3584 MB in steps of 512 |
| MemoPath.Reverse | mapping/embedding/physical.py:86-88 | the list read backwards, as [::-1] |
| MemoPath.PairsOf | mapping/embedding/physical.py:99-105 | one sorted (min, max) pair per step of the node path |
| MemoPath.ReversedPairs | mapping/embedding/physical.py:86-88 | the pairs of the reversed node path are the reversed pairs, so a reused reversal is the path the other way |
| MemoPath.ReversedPath | mapping/embedding/physical.py:86-88 | a simple path read backwards is a simple path from the target to the source |
| MemoPath.SearchResultIsSimplePath | mapping/embedding/physical.py:89-108 | the nodes of a search result form a simple path over neighbours from source to target |
| MemoPath.PathCache.constructor | mapping/embedding/physical.py:79-80 | a fresh cache for the network is empty |
| MemoPath.PathCache.FindPath | embedding/grid5000/physical.py:84-117 | a cached (s, t) is returned unchanged; otherwise a cached (t, s) is returned reversed and stored; otherwise a fresh search's result is stored, or None when the search finds nothing; every stored entry stays a simple path as sorted pairs |
| MemoPath.PathCache.FindPathOrRaise | mapping/embedding/physical.py:109-110 | the same lookup, with "No path exists" raised as ValueError and the cache left as it was |
| MemoPath.Remember | mapping/embedding/physical.py:99-105 | storing a search result keeps every cache entry a simple path written as sorted pairs |
| LowerBound.MaxExists | distriopt/embedding/solver.py:42-55 | a non-empty set of compute nodes has a largest capacity for each resource |
| LowerBound.MaxCapacity | distriopt/embedding/solver.py:42-55 | the largest cores (or memory) among the compute nodes, attained by one of them |
| LowerBound.MaxCapacityPositive | distriopt/embedding/solver.py:42-60 | with some compute node, both maxima are positive, so the divisions are defined |
| LowerBound.Ceil | distriopt/embedding/solver.py:58 | math.ceil: the least integer not below x |
| LowerBound.MaxStep | distriopt/embedding/solver.py:45-55 | one step of the running maximum (replace only when strictly larger) keeps the maximum of the nodes seen |
| LowerBound.Raise | distriopt/embedding/solver.py:45-55 | one loop step updates both running maxima to the maxima over the nodes seen plus the new one |
| LowerBound.RunningMaxima | distriopt/embedding/solver.py:42-55 | the loop over compute nodes ends with the largest cores and the largest memory among them |
| LowerBound.GetLowerBound | distriopt/embedding/solver.py:33-60 | ZeroDivisionError exactly when there is no compute node; otherwise ceil(max(total cores / max cores, total memory / max memory)) over the compute nodes, whose maxima are positive |
| LowerBound.BoundCovers | distriopt/embedding/solver.py:58-60 | LB·max_cores ≥ total cores and LB·max_memory ≥ total memory |
| LowerBound.BoundNonNegative | distriopt/embedding/solver.py:58-60 | the bound is never negative |
| LowerBound.CeilOfMax | embedding/grid5000/solve_heu.py:96 | the ceiling of the larger quotient is the larger of the two ceilings, so solve_heu's inline bound equals lower_bound() |
| LowerBound.BoundIsSound | embedding/solve.py:14-37 | any placement of every virtual node on compute nodes within their capacities uses at least LB machines |
| LowerBound.DemandWithinMachines | embedding/solve.py:36-37 | the demand placed on a set of machines is at most their number times the largest capacity |
| LowerBound.PlacedDemandAll | embedding/solve.py:20-25 | when every node sits on one of the machines counted, the placed demand is the total demand |
| EmbedVerify.Resolve | distriopt/embedding/solution.py:160-165 | a hop (s, i, t) is charged to the stored link (s, t), or failing that (t, s), and only when that link has interface i |
| EmbedVerify.CheckAssigned | distriopt/embedding/solution.py:114-116 | passes exactly when every virtual node is in node_mapping |
| EmbedVerify.CheckRouted | distriopt/embedding/solution.py:120-125 | passes exactly when every sorted link whose ends are on different machines has a path of at least 2 hops |
| EmbedVerify.LoadStep | distriopt/embedding/solution.py:132-150 | one more node in the mapping's order adds its demand to its own machine's running total and to no other |
| EmbedVerify.LoadPrefix | distriopt/embedding/solution.py:132-150 | a running total never exceeds the final total of the same machine |
| EmbedVerify.CheckNodes | distriopt/embedding/solution.py:130-150 | passes exactly when every demand is known and no running cores or memory total exceeds its machine's capacity; a NodeResourceError names a machine and resource over capacity |
| EmbedVerify.PathUsageStep | distriopt/embedding/solution.py:160-165 | one more hop adds the link's rate to the interface it resolves to and to nothing else |
| EmbedVerify.ChargePath | distriopt/embedding/solution.py:160-165 | charging a path succeeds exactly when every hop resolves, and adds the rate once per hop to each interface used |
| EmbedVerify.UsageStep | distriopt/embedding/solution.py:160-165 | one more routed link adds its path's usage |
| EmbedVerify.ChargeAll | distriopt/embedding/solution.py:155-165 | the per-interface table equals the total usage of all routed links, or KeyError when some hop does not resolve |
| EmbedVerify.CheckCapacity | distriopt/embedding/solution.py:167-173 | passes exactly when no interface carries more than its rate |
| EmbedVerify.VerifySolution | distriopt/embedding/solution.py:101-173 | EmptySolutionError exactly when nothing is placed; AssignmentError exactly for an unplaced node or a crossing link without a path of 2+ hops; success exactly when every phase passes; a NodeResourceError names an overloaded machine; LinkCapacityError only when some interface is over its rate; the algorithms revision (algorithms/embedding/solution.py:66-125) checks the same, phase by phase |
| Placement.EmbedSolver.constructor | distriopt/embedding/solver.py:16-29 | a new solver holds the two networks, no solution and the NotSolved status |
| Placement.EmbedSolver.LowerBoundOf | distriopt/embedding/solver.py:33-60 | ZeroDivisionError exactly when there is no compute node; otherwise the larger of the two ceilings, so that many of the largest machines could hold the total cores and the total memory; never negative |
| Placement.EmbedSolver.Record | distriopt/embedding/algorithms/kbalanced.py:161-172 | called only when solve returns: Solved stores the placement and its paths with the Solved status; Infeasible sets the status and keeps the old solution |
| Placement.InsertDescending | distriopt/embedding/algorithms/kbalanced.py:86-90 | inserting into the sorted machine list adds exactly that element and loses none |
| Placement.InsertKeepsOrder | distriopt/embedding/algorithms/kbalanced.py:86-90 | inserting keeps the list non-increasing in the key, and every element is the new one or an old one |
| Placement.SortDescending | distriopt/embedding/algorithms/kbalanced.py:86-90 | the sorted list is a permutation of its input and non-increasing in cores * 1000 + memory |
| Placement.ListSet | distriopt/embedding/algorithms/kbalanced.py:86-87 | the list lists each element of the set exactly once |
| Placement.SortedMachines | distriopt/embedding/algorithms/kbalanced.py:86-90 | the machine order lists every compute node once and is non-increasing in the key |
| Placement.DistinctPermutation | distriopt/embedding/algorithms/kbalanced.py:86-90 | a permutation of a list without repeats has no repeats |
| Placement.DistinctCount | distriopt/embedding/algorithms/kbalanced.py:86-90 | in a list without repeats each element occurs at most once |
| Placement.DemandPrefix | distriopt/embedding/algorithms/kbalanced.py:116-126 | the running cores or memory of a prefix of a group never exceed those of the whole group |
| Placement.CheckGroup | distriopt/embedding/algorithms/kbalanced.py:116-128 | passes exactly when the group's cores and memory fit the machine; otherwise raises NodeResource for the first resource a running total overflows; on success every group node is mapped to that machine |
| Placement.PlaceGroups | distriopt/embedding/algorithms/kbalanced.py:109-128 | over the zip of machines and groups (as long as the shorter), passes exactly when every group fits its machine; the mapping holds exactly the zipped groups' nodes, each on its own group's machine |
| Placement.ChargeAt | distriopt/embedding/algorithms/kbalanced.py:149-156 | after booking a path, a hop slot carries its old rate plus the request exactly when the path uses it |
| Placement.NextHop | distriopt/embedding/physical.py:89-136 | in a simple chained path, the hop leaving a hop's end is the next hop |
| Placement.NoReturn | distriopt/embedding/physical.py:89-136 | a simple path between distinct machines never crosses the same link back and forth |
| Placement.HopFits | distriopt/embedding/physical.py:107-117 | an interface chosen as first fitting has room for the request on top of both directions' bookings |
| Placement.InterfaceKeepsWithin | distriopt/embedding/algorithms/kbalanced.py:149-156 | booking a path of first-fitting hops keeps every interface within its rate |
| Placement.RouteKeepsWithin | distriopt/embedding/algorithms/kbalanced.py:149-156 | booking a route found by find_path never pushes any interface beyond its rate |
| Placement.ChargePath | distriopt/embedding/algorithms/kbalanced.py:149-158 | the loop books the request on every hop of the path and records the hops in order |
| Placement.SortedLinkHasRate | distriopt/virtual.py:38-41 | every sorted virtual link has a rate the solver can read |
| Placement.RouteLink | distriopt/embedding/algorithms/kbalanced.py:143-158 | one crossing link gets a simple path from its first end's machine to its second's, along network links, with the bookings still within every rate; otherwise NoPathFound |
| Placement.RouteLinks | distriopt/embedding/algorithms/kbalanced.py:133-158 | every crossing sorted link is routed between its ends' machines and nothing else is; bookings stay within rate; KeyError only when a link end is unmapped; otherwise only NoPathFound |
| Ungroup.ArgMax | distriopt/embedding/solution.py:233-238 | the chosen interface has the highest residual, and no earlier interface has as much (max returns the first best key) |
| Ungroup.Split | distriopt/embedding/solution.py:230-319 | a returning loop leaves both residual tables the same length; it raises only ValueError (max over no interface) |
| Ungroup.Fractions | distriopt/embedding/solution.py:249 | each chunk's fraction is its mapped rate over the requested rate |
| Ungroup.SplitReturns | distriopt/embedding/solution.py:230-319 | the loop ends exactly when nothing is requested or both sides together hold at least the request |
| Ungroup.SplitRaises | distriopt/embedding/solution.py:233-238 | the loop raises exactly when rate is requested and one side has no interface |
| Ungroup.SplitConserves | distriopt/embedding/solution.py:230-319 | the chunks carry exactly the request, each a positive amount on existing interfaces, and each residual drops by exactly what its interface carried |
| Ungroup.FractionsSumToOne | distriopt/embedding/solution.py:249 | the fractions of a link's chunks sum to 1 |
| Ungroup.FractionsSum | distriopt/embedding/solution.py:249 | the fractions sum to the mapped total over the request |
| Ungroup.UngroupLink | distriopt/embedding/solution.py:227-319 | the imperative loop ends exactly as the recursive definition does: same chunks and residuals, same error, or no end |
| Ungroup.SplitStep | distriopt/embedding/solution.py:230-319 | one iteration takes the minimum of the remaining rate and both best residuals off both and appends that chunk |
| Ungroup.SplitCapped | embedding/grid5000/solution.py:141-156 | the grid5000 loop, whose minimum uses the original request instead of what remains; a returning run keeps both table lengths |
| Ungroup.CappedOvershoots | embedding/grid5000/solution.py:147-152 | with residuals [6, 6] on both sides and a request of 10, the capped loop maps 12 and its fractions sum to 1.2, while the intended loop maps 10 |
| Ungroup.CappedCovers | embedding/grid5000/solution.py:141-156 | the capped chunks cover the request but overshoot it by less than one request, each chunk at most the request |
| Ungroup.CappedFractions | embedding/grid5000/solution.py:152 | the capped fractions sum to at least 1 and below 2 |
| Ungroup.CappedShrinks | embedding/grid5000/solution.py:154-156 | capped chunks sit on existing interfaces and no residual grows |
| Ungroup.CappedStep | embedding/grid5000/solution.py:141-156 | one capped iteration takes the minimum of the request and both best residuals off both |
| Ungroup.UngroupCapped | embedding/grid5000/solution.py:137-156 | the imperative capped loop ends exactly as the recursive capped definition |
| Ungroup.CappedAdvance | embedding/grid5000/solution.py:141-156 | one iteration of the capped loop keeps the run it will end with and lowers what remains |
| Ungroup.RemainingFractions | solution.py:107-122 | the root revision divides each chunk by the rate still unmapped before it; one fraction per chunk |
| Ungroup.RemainingFractionsExceedOne | solution.py:107-122 | with two or more chunks the root revision's fractions sum above 1 |
| Ungroup.LastFractionIsOne | solution.py:107-122 | a link carried by a single chunk gets fraction 1 |
| Ungroup.RemainingFractionsExample | solution.py:107-122 | residuals [6, 6] and a request of 10 give chunks 6 and 4 with root fractions 0.6 and 1.0 |
| EmbedBuild.MachinesUsed | distriopt/embedding/solution.py:79 | n_machines_used is at most the number of placed nodes, and positive when something is placed |
| EmbedBuild.HostsBound | distriopt/embedding/solution.py:79 | the machines hosting a set of placed nodes are no more than those nodes, and at least one when the set is not empty |
| EmbedBuild.Mirrored | distriopt/embedding/solution.py:208-276 | the (v, u) entries are the (u, v) entries with both ends swapped, one for one |
| EmbedBuild.FractionsOf | distriopt/embedding/solution.py:249 | lists each entry's fraction in entry order |
| EmbedBuild.NameHops | distriopt/embedding/solution.py:278-296 | names every hop by the device names of both its ends, and fails exactly when one of those names cannot be found |
| EmbedBuild.StepEntries | distriopt/embedding/solution.py:251-313 | one ungroup step's entries: the (v, u) link map mirrors the (u, v) one, both ends lie on the path's end machines, every entry carries the step's fraction, and the paths follow the route forwards and backwards |
| EmbedBuild.UngroupNamed | distriopt/embedding/solution.py:230-319 | the named loop returns exactly the chunks and residuals of the ungroup loop with every step named, diverges when it does, raises ValueError when it does and otherwise only KeyError for a device name |
| EmbedBuild.Advance | distriopt/embedding/solution.py:230-319 | one iteration appends the chunk of the best residuals on both sides and takes its rate off both and off the remaining request |
| EmbedBuild.Unnameable | distriopt/embedding/solution.py:251-296 | when a step's device cannot be named, the loop's chunks are not all nameable, so the KeyError is the only outcome |
| EmbedBuild.Stuck | distriopt/embedding/solution.py:230-319 | once the best residual on one side is 0 with rate left, the loop never ends |
| EmbedBuild.NextChunk | distriopt/embedding/solution.py:230-319 | the next chunk of a returning loop is the one taken from the best residuals now |
| EmbedBuild.StepsCarry | distriopt/embedding/solution.py:227-319 | the (u, v) link maps of a returning loop carry fractions that sum to 1 |
| EmbedBuild.Stored | distriopt/embedding/solution.py:215-224 | a hop resolves to its stored link (i, j) when stored that way and to (j, i) otherwise, and fails only when neither is stored |
| EmbedBuild.Rates | distriopt/embedding/solution.py:189-198 | lists the rates of the real interfaces of a link in their order |
| EmbedBuild.Residuals | distriopt/embedding/solution.py:189-198 | the residual table holds every stored link, each starting at the rates of its real interfaces |
| EmbedBuild.GroupedLink | distriopt/embedding/solution.py:205-319 | a crossing link's entries carry fraction 1 in total, end on the path's end machines and have paths following the route both ways; the residuals of exactly the two end links change, by the ungroup loop; an empty path is an IndexError |
| EmbedBuild.MirroredTwice | distriopt/embedding/solution.py:208-276 | mirroring twice gives back the entries and keeps the fractions |
| EmbedBuild.MirroredEnds | distriopt/embedding/solution.py:262-276 | mirrored entries end on the reversed path's end machines |
| EmbedBuild.MirrorsAdd | distriopt/embedding/solution.py:207-209 | storing a link's entries and their mirror keeps every (v, u) list the mirror of its (u, v) list |
| EmbedBuild.SplitBuiltAdd | distriopt/embedding/solution.py:200-319 | adding a crossing link's entries and their mirror extends the built table by that link |
| EmbedBuild.MirrorEntries | distriopt/embedding/solution.py:262-276 | the mirrored entries carry the reversed link and lie on its route |
| EmbedBuild.SplitBuiltSkip | distriopt/embedding/solution.py:205-206 | a link whose ends share a machine adds no entry and the table stays built |
| EmbedBuild.PathsBuiltAdd | distriopt/embedding/solution.py:278-313 | adding a link's paths both ways keeps every entry matched by a path with its fraction |
| EmbedBuild.BuildGroupedNamed | distriopt/embedding/solution.py:187-319 | in grouped mode every crossing routed link and its mirror get entries carrying fraction 1 in total, with paths for each, and the placement is kept; errors are KeyError, IndexError or ValueError |
| EmbedBuild.DirectBuiltAdd | distriopt/embedding/solution.py:321-369 | adding one fraction-1 entry and its mirror extends the ungrouped table by that link |
| EmbedBuild.BackwardNameable | distriopt/embedding/solution.py:336-348 | a path whose hops can all be named can be named reversed too |
| EmbedBuild.DirectEntries | distriopt/embedding/solution.py:323-369 | an ungrouped link gets one link map from the first hop's source device to the last hop's destination device with fraction 1, and one path each way; an empty path is IndexError and an unnamed device KeyError |
| EmbedBuild.BuildDirectNamed | distriopt/embedding/solution.py:321-369 | in ungrouped mode the build succeeds exactly when every routed link's entries can be built, and then gives each routed link and its mirror one entry of fraction 1 with its paths |
| EmbedBuild.EnterDirect | distriopt/embedding/solution.py:323-369 | storing one link's direct entries keeps the link and path tables built |
| EmbedBuild.KeyMaps | algorithms/embedding/solution.py:169-177 | one link map per chunk, naming the chosen interfaces by key, with the chunk's fraction |
| EmbedBuild.KeyMapsCarry | algorithms/embedding/solution.py:158-182 | the keyed link maps of a returning loop carry fractions that sum to 1 |
| EmbedBuild.GroupedKeysLink | algorithms/embedding/solution.py:142-182 | a crossing link's keyed entries carry fraction 1 in total and are the ungroup loop's chunks; the residuals of exactly the two end links change |
| EmbedBuild.BuildGroupedKeys | algorithms/embedding/solution.py:135-182 | in grouped mode the algorithms revision goes over the sorted links and gives every crossing one and its mirror entries carrying fraction 1, with no paths |
| EmbedBuild.DirectKeys | algorithms/embedding/solution.py:186-189 | an ungrouped link's entry runs from the first hop's source and device to the last hop's destination and device with fraction 1; an empty path is IndexError |
| EmbedBuild.BuildDirectKeys | algorithms/embedding/solution.py:184-189 | the ungrouped build succeeds exactly when no routed path is empty, giving each routed link and its mirror one fraction-1 entry |
| EmbedBuild.BuildSolution | distriopt/embedding/solution.py:178-371 | with check set, a built solution passed verify_solution and a failing one raises; the placement is kept; grouped mode splits every crossing link, ungrouped mode gives one entry per routed link |
| EmbedBuild.BuildSolutionKeys | algorithms/embedding/solution.py:130-192 | the algorithms revision's build: the same verification, split or direct entries keyed by interface id, and no paths |
| KBalanced.InUnion | distriopt/embedding/algorithms/kbalanced.py:68-72 | a node is in the union of the pieces exactly when some piece holds it |
| KBalanced.UnionOfAppend | distriopt/embedding/algorithms/kbalanced.py:49-53 | the union of two lists of pieces put together is the union of both unions |
| KBalanced.JoinPartitions | distriopt/embedding/algorithms/kbalanced.py:49-53 | partitions of two disjoint sets put together partition their union |
| KBalanced.Limit | distriopt/embedding/algorithms/kbalanced.py:46 | the size bound is at least the number of nodes over p, whether rounded up (current library) or not (older revisions) |
| KBalanced.AboveOne | distriopt/embedding/algorithms/kbalanced.py:46-51 | a half that is still larger than the bound can only occur while p is above 1 |
| KBalanced.HalfCeil | distriopt/embedding/algorithms/kbalanced.py:51 | halving p lowers its ceiling, so the recursion ends |
| KBalanced.Cut | distriopt/embedding/algorithms/kbalanced.py:44-55 | recursive cutting with halved p returns pieces that partition the node set: disjoint and covering it |
| KBalanced.BySize | distriopt/embedding/algorithms/kbalanced.py:69 | the sort by size is a permutation, ordered largest first (or smallest first in the ascending variant) |
| KBalanced.TakeSmallest | distriopt/embedding/algorithms/kbalanced.py:69-71 | the two pieces popped are two smallest ones, and the rest is what remains of the list |
| KBalanced.TakeFront | embedding/grid5000/heuristic.py:70-74 | with the list sorted ascending, pop(0) twice takes two smallest pieces |
| KBalanced.TakeBack | distriopt/embedding/algorithms/kbalanced.py:69-71 | with the list sorted descending, pop() twice takes two smallest pieces |
| KBalanced.Reordered | distriopt/embedding/algorithms/kbalanced.py:69 | reordering the pieces keeps their union and their disjointness |
| KBalanced.AtMostOnce | distriopt/embedding/algorithms/kbalanced.py:68-72 | a non-empty piece occurs at most once in disjoint pieces |
| KBalanced.MergeStep | distriopt/embedding/algorithms/kbalanced.py:69-72 | one merge has one piece fewer, the same union, and keeps the pieces disjoint |
| KBalanced.Merged | distriopt/embedding/algorithms/kbalanced.py:70-72 | appending the union of the two popped pieces keeps the union and disjointness |
| KBalanced.MergeSmallest | distriopt/embedding/algorithms/kbalanced.py:68-73 | the result has exactly n pieces (or all of them when there are no more), the same union and disjoint pieces; a list already short enough is returned as is; with n = 0 and some piece the pops reach an empty list (IndexError) |
| KBalanced.CachedOne | distriopt/embedding/algorithms/kbalanced.py:60-63 | a cache holding one graph's partition is a valid cache |
| KBalanced.PartitionCache.constructor | distriopt/embedding/algorithms/kbalanced.py:19-20 | a new cache is empty |
| KBalanced.PartitionCache.Get | distriopt/embedding/algorithms/kbalanced.py:60-73 | a cached list at least n long is reused and the cache is unchanged; otherwise the cache is cleared and holds only this graph's fresh cut (n = 0 divides by zero); the answer partitions the nodes into at most n pieces |
| KBalanced.HostIsCompute | distriopt/embedding/algorithms/kbalanced.py:102 | a node placed by the heuristic is on a compute node |
| KBalanced.RoutesEndApart | distriopt/embedding/algorithms/kbalanced.py:137-158 | when no two compute nodes are linked directly, the first and last hops of a routed crossing link are on different stored links |
| KBalanced.ListParts | distriopt/embedding/algorithms/kbalanced.py:112-118 | every part becomes a list of its nodes, one for one |
| KBalanced.TryMachines | distriopt/embedding/algorithms/kbalanced.py:107-169 | an attempt with given machines and parts ends Solved only with a placement that passes verify_solution, each node on the machine zipped with its part; it never ends Infeasible |
| KBalanced.TryGroups | distriopt/embedding/algorithms/kbalanced.py:107-169 | the same for groups given as lists |
| KBalanced.OnPlacedMachines | distriopt/embedding/algorithms/kbalanced.py:102-128 | every placed node is on one of the chosen compute nodes |
| KBalanced.SolveBalanced | distriopt/embedding/algorithms/kbalanced.py:79-172 | widening: ZeroDivisionError with no compute node; each n tried and failed left a retried NodeResourceError or NoPathFoundError; Solved comes at n = lower bound + failures, within the machines, with a verified placement recorded on the solver; Infeasible only after every n from the lower bound to the number of machines failed; any other exception escapes with the solver unchanged |
| KBalanced.PartsWithin | distriopt/embedding/algorithms/kbalanced.py:97-118 | every piece of a partition lies within the node set |
| FractionVerify.FractionsOf | embedding/grid5000/solution.py:43-46 | lists each entry's fraction in entry order |
| FractionVerify.CheckSpread | embedding/grid5000/solution.py:42-50 | passes exactly when every entry starts at u's machine and ends at v's and the fractions sum to exactly 1 |
| FractionVerify.CheckLinks | embedding/grid5000/solution.py:37-50 | passes exactly when every link whose ends are on different machines has entries, all spread correctly |
| FractionVerify.CapacityOf | solution.py:63-71 | the grid5000 revision reads a missing capacity as 0; the root revision reads nb_cores and ram_size and fails exactly when the attribute is missing |
| FractionVerify.Totals | embedding/grid5000/solution.py:56-62 | the per-machine totals are the cores and memory of the nodes placed there, and a KeyError comes exactly from a node with no demand |
| FractionVerify.CheckTotal | embedding/grid5000/solution.py:64-74 | passes exactly when every machine's total of one resource is within its capacity; otherwise NodeResourceError names a machine over it |
| FractionVerify.CheckNodes | embedding/grid5000/solution.py:56-74 | passes exactly when both totals fit every machine; a memory error is raised only when all cores fit |
| FractionVerify.ResolveEnd | embedding/grid5000/solution.py:90-98 | an entry end is charged to the stored link (s, t), or failing that (t, s), and only when that link has the interface |
| FractionVerify.ChargeEnd | embedding/grid5000/solution.py:90-93 | adds the amount to exactly the resolved interface, KeyError when neither direction has it |
| FractionVerify.EntriesUsageStep | embedding/grid5000/solution.py:89-98 | one more entry adds its two charges to the running usage |
| FractionVerify.ChargeEntry | embedding/grid5000/solution.py:89-98 | one entry adds fraction × rate to its source interface and to its destination interface |
| FractionVerify.ChargeEntries | embedding/grid5000/solution.py:89-98 | a link's entries add their charges to the usage, failing exactly when one end cannot be resolved |
| FractionVerify.UsageStep | embedding/grid5000/solution.py:88-98 | one more link adds its entries' charges to the running usage |
| FractionVerify.ChargeAll | embedding/grid5000/solution.py:80-98 | the usage table is the sum of every entry's charges over all mapped links |
| FractionVerify.CheckCapacity | embedding/grid5000/solution.py:100-110 | passes exactly when no interface, real or aggregate depending on grouping, carries more than its rate |
| FractionVerify.VerifyGrid | embedding/grid5000/solution.py:18-110 | EmptySolutionError exactly when nothing is placed, AssignmentError exactly when a node is unplaced or a crossing link badly spread; passes exactly when the totals fit and no interface is over its rate; the errors name a machine or interface really over capacity |
| FractionVerify.VerifyRoot | solution.py:16-77 | EmptySolutionError exactly when the node or link mapping is empty, AssignmentError as in grid5000; passes exactly when assignments are right and totals fit nb_cores and ram_size; links are never checked |
| FractionVerify.Spell | embedding/grid5000/solution.py:150-152 | one entry per chunk, with the chosen interfaces' keys and the given fractions |
| FractionVerify.StoredResolves | embedding/grid5000/solution.py:90-98 | an entry end on a stored link's real interface resolves to that link |
| FractionVerify.SpelledResolve | embedding/grid5000/solution.py:131-152 | the ungrouped entries resolve on the network and keep the grouped entry's end machines |
| FractionVerify.CappedLink | embedding/grid5000/solution.py:128-156 | one link's step is LinkStep with capped shares: KeyError or ValueError, or one entry per SplitCapped chunk on the chunk's real interfaces with fraction chunk/request, and both ends' residuals replaced by what the split left; the fractions sum to at least 1 and below 2 |
| FractionVerify.CappedSpell | embedding/grid5000/solution.py:141-156 | the capped chunks spelled as entries carry the capped fractions |
| FractionVerify.ShrunkUpdate | embedding/grid5000/solution.py:154-156 | lowering two links' residuals keeps the table shrunk from where it started |
| FractionVerify.FractionsFor | embedding/grid5000/solution.py:152 | one fraction per chunk, its amount over the request |
| FractionVerify.RemainingSpell | solution.py:107-122 | the root revision's chunks spelled as entries carry remaining-rate fractions |
| FractionVerify.RemainingLink | solution.py:94-122 | one link's step is LinkStep with remaining-rate shares: one entry per chunk of the split, each with its chunk over the rate still unmapped before it, and both ends' residuals replaced by what the split left; one entry sums to 1, two or more above 1 |
| FractionVerify.MapRemaining | solution.py:83-124 | as written: the fold of RemainingLink's step over the virtual links from the graph's residuals; every crossing link gets its entries and the residual table returned is what the splits left; ungrouped networks raise KeyError |
| FractionVerify.WholeSpell | embedding/grid5000/solution.py:141-156 | the intended chunks spelled as entries carry fractions of the whole request that sum to 1 |
| FractionVerify.WholeLink | embedding/grid5000/solution.py:128-156 | one link's intended entries sum to fraction 1 and the residuals only shrink |
| FractionVerify.MapWhole | embedding/grid5000/solution.py:116-157 | corrected: every crossing link's entries spread its whole request with fractions summing to exactly 1 |
| FractionVerify.WholeSpreads | embedding/grid5000/solution.py:37-50 | the corrected entries of a correctly spread link pass the spread check again |
| FractionVerify.ShrunkTwice | embedding/grid5000/solution.py:154-156 | shrinking twice is shrinking |
| PairRouting.FirstRoom | mapping/embedding/algorithms/kbalanced.py:136-138 | finds the first interface whose rate minus the booked rate covers the request, and none before it does; none when no interface does |
| PairRouting.ChooseSome | mapping/embedding/algorithms/partition.py:104-109 | corrected test (`is None`): succeeds exactly when some interface has room, with the first such interface; otherwise LinkCapacityError |
| PairRouting.ChooseTruthy | mapping/embedding/algorithms/kbalanced.py:136-142 | as written (`if not chosen_interface_id`): succeeds exactly when the first fitting interface exists and its key is truthy, and then agrees with the corrected test |
| PairRouting.KeyZeroNetwork | mapping/embedding/physical.py:170 | a link with one auto-keyed interface 0 of rate 10 |
| PairRouting.KeyZeroRejected | mapping/embedding/algorithms/kbalanced.py:136-142 | on that link a request of 5 fits interface 0, yet the truthiness test raises LinkCapacityError |
| PairRouting.TruthyAgrees | mapping/embedding/algorithms/kbalanced.py:136-142 | when no interface key is falsy both tests agree |
| PairRouting.BookKeepsWithin | mapping/embedding/algorithms/kbalanced.py:144-145 | booking the request on the chosen interface of a sorted pair keeps every interface within its rate |
| PairRouting.StepDiffers | mapping/embedding/physical.py:99-108 | consecutive nodes of a simple path differ |
| PairRouting.PairAt | mapping/embedding/physical.py:99-105 | each returned pair is the k-th step of the path with its ends sorted |
| PairRouting.WalkHops | mapping/embedding/algorithms/kbalanced.py:131-149 | orienting the pairs via next_node gives hops that chain from u's machine to v's along a simple path |
| PairRouting.RoutePairs | mapping/embedding/algorithms/kbalanced.py:131-149 | under the call site's test (NotTruthy at kbalanced.py:141, IsNone at partition.py:108): each key is the one Choose accepts on its pair once the keys before it are booked; LinkCapacityError exactly when the test refuses every interface of the next pair; otherwise hops oriented from u's machine to v's along the walk, and the returned booking is the input booking plus the request on every (pair, chosen key), within every rate |
| PairRouting.ChosenExtend | mapping/embedding/algorithms/kbalanced.py:136-145 | a key the test accepts on the next pair, on top of the earlier keys' bookings, extends the chosen keys, and its booking is the request added on that pair and key |
| PairRouting.BookSnoc | mapping/embedding/algorithms/kbalanced.py:144-145 | booking one more key adds the request on the next pair and that key to the bookings of the keys before it |
| PairRouting.HopsStep | mapping/embedding/algorithms/kbalanced.py:131-149 | a hop on the accepted interface of the k-th pair, booked, keeps the hop loop's invariant (hops along the walk, keys chosen in turn, booking their sum) and reaches the walk's next node |
| PairRouting.RouteAdd | mapping/embedding/algorithms/kbalanced.py:123-149 | routing one more crossing link extends the routed prefix of the sorted links |
| PairRouting.RouteSkip | mapping/embedding/algorithms/kbalanced.py:123-124 | a link with both ends on one machine is skipped and the prefix stays routed |
| PairRouting.RouteSorted | mapping/embedding/algorithms/kbalanced.py:119-149 | under the call site's test: every crossing sorted link is routed between its ends' machines along network links and nothing else is; the returned booking is what a trail of the routed links books, each pair on the interface the test accepted on top of the links before it, within every rate; LinkCapacityError exactly at a link whose next pair the test refused (Stuck); other errors are KeyError or ValueError (no path) |
| PairRouting.TrailExtend | mapping/embedding/algorithms/kbalanced.py:123-149 | the booking of one more link, chosen on top of what the trail books, extends the trail |
| PairRouting.LinksAdd | mapping/embedding/algorithms/kbalanced.py:123-149 | routing and booking one more crossing link keeps the link loop's state: routed prefix, listed routes, the booking equal to what the extended trail books |
| PairRouting.RouteLink | mapping/embedding/algorithms/kbalanced.py:123-149 | one pass of the link loop: KeyError, ValueError, LinkCapacityError with the link stuck on a refused pair, or the loop's state for one more link |
| PairRouting.RouteOne | mapping/embedding/algorithms/kbalanced.py:129-149 | under the call site's test: one link's route chains from u's machine to v's along network links, on the interfaces the test accepts in turn, and the booking is the input plus the request on each of them; ValueError (no path), or LinkCapacityError exactly when the test refused the next pair of the memoised path |
| PairRouting.OnAdjacency | mapping/embedding/physical.py:99-108 | a neighbour in the adjacency has a stored link |
| PairRouting.GridPairs | embedding/grid5000/heuristic.py:146-161 | each pair gets the first interface `if not` accepts once the keys before it are booked, and LinkCapacityError comes exactly when it accepts none on the next pair; the booking is the input plus the request on every (pair, key); the source end leaves u's machine towards the second node on the first key, the destination end leaves v's machine towards the node before it on the last key, also on a one-hop path (corrected `elif`, see Findings) |
| PairRouting.GridHop | embedding/grid5000/heuristic.py:148-161 | one hop: LinkCapacityError exactly when `if not` accepts no interface of the pair; otherwise the accepted key is booked on top of the earlier keys, within every rate, and the ends are those of the loop's invariant after one more hop |
| PairRouting.EndsStep | embedding/grid5000/heuristic.py:158-161 | on a simple path only the first hop touches u's machine and only the last touches v's, so the two tests set the source at the first hop and the destination at the last, and neither changes after |
| PairRouting.OneHopUnset | embedding/grid5000/heuristic.py:158-161 | as written, on a one-hop path between the two machines the `elif` sets the source and leaves the destination end as it was; the two separate tests set it from v's machine towards u's |
| PairRouting.LongWalkAgrees | embedding/grid5000/heuristic.py:158-161 | on a path of at least two hops no hop touches both machines, so the `elif` as written and the corrected tests set the same ends |
| PairRouting.LongWalk | embedding/grid5000/heuristic.py:158-161 | when no two compute nodes are linked directly, a path between two machines has at least one node in between |
| PairRouting.EntryApart | embedding/grid5000/heuristic.py:158-164 | the entry's two ends lie on different stored links |
| PairRouting.MachinesEntryApart | embedding/grid5000/heuristic.py:158-164 | when no two machines are neighbours, the entry between two machines leaves and arrives on different stored links |
| PairRouting.OneEntrySpread | embedding/grid5000/heuristic.py:164 | one entry of fraction 1 between the two machines passes the spread check |
| PairRouting.SpreadAdd | embedding/grid5000/heuristic.py:131-164 | adding a correctly spread link extends the spread prefix |
| PairRouting.ApartAdd | embedding/grid5000/heuristic.py:164 | adding an entry with ends on different links keeps the table apart |
| PairRouting.GridPath | embedding/grid5000/heuristic.py:139-143 | a path already in the per-attempt memo is reused; a new one (or the reversal of the opposite one) is stored under (u, v) |
| PairRouting.GridEntry | embedding/grid5000/heuristic.py:146-164 | one link gets the single entry source + dest + (1,): from u's machine towards the second node on the first chosen key, and from v's machine towards the node before it on the last chosen key; the booking is the input plus the request on every chosen key; LinkCapacityError exactly when a pair is refused; the ends lie on different links when no two machines are neighbours |
| PairRouting.RouteGrid | embedding/grid5000/heuristic.py:124-164 | every crossing link gets a correctly spread single entry, and the returned booking is what a trail of one booking per link in graph order books, each pair on the interface `if not` accepted on top of the links before it, within every rate; LinkCapacityError exactly at a link whose next pair was refused (GridStuck); other errors KeyError or TypeError (no path); entries apart when no two machines are neighbours |
| PairRouting.GridLink | embedding/grid5000/heuristic.py:134-164 | one link between two machines: TypeError (no path), LinkCapacityError with the link stuck on a refused pair, or its booking on a simple path between the machines is added to the trail and its single fraction-1 entry written, keeping the loop's state |
| PairRouting.GridVisit | embedding/grid5000/heuristic.py:130-164 | one pass of the grid5000 link loop: KeyError for an end without a machine, a link on one machine books nothing, otherwise as GridLink |
| PairRouting.GridAdd | embedding/grid5000/heuristic.py:144-164 | a link between two machines, booked on top of the trail on a simple path and given its single fraction-1 entry, keeps the loop's state |
| PairRouting.GridSkip | embedding/grid5000/heuristic.py:131 | a link on one machine adds an empty booking and no entry, keeping the loop's state |
| PairRouting.GridTrailAdd | embedding/grid5000/heuristic.py:130-164 | the booking of the next link in graph order extends the trail |
| SwapPartition.CutCost | distriopt/embedding/algorithms/partition.py:24-28 | the cut weight never exceeds the total rate, and is 0 when every link has both ends in one bin |
| SwapPartition.RoundRobin | distriopt/embedding/algorithms/partition.py:16-21 | every shuffled node, and nothing else, gets a bin, the node at position i bin i mod n |
| SwapPartition.DealtStep | distriopt/embedding/algorithms/partition.py:19-21 | dealing one more node adds it to exactly one bin |
| SwapPartition.RoundRobinSizes | distriopt/embedding/algorithms/partition.py:19-21 | after dealing j nodes each bin holds exactly as many as round-robin dealing gives it |
| SwapPartition.Climb | distriopt/embedding/algorithms/partition.py:30-55 | the swap loop keeps every node in some bin and adds none |
| SwapPartition.StepNoWorse | distriopt/embedding/algorithms/partition.py:34-55 | one draw (skipped, kept or reverted) never raises the cut weight |
| SwapPartition.SwapSizes | distriopt/embedding/algorithms/partition.py:39-42 | swapping the bins of two nodes keeps every bin's size |
| SwapPartition.ClimbKeeps | distriopt/embedding/algorithms/partition.py:30-55 | the whole loop never raises the cut weight, keeps bin ids below n and keeps every bin's size |
| SwapPartition.HillClimb | distriopt/embedding/algorithms/partition.py:23-55 | the loop ends in the partition of the swap definition, with its cut weight |
| SwapPartition.FlattenGrow | distriopt/embedding/algorithms/partition.py:57-59 | appending a node to one group adds exactly that node to the groups' contents |
| SwapPartition.InFlatten | distriopt/embedding/algorithms/partition.py:57-60 | a node is in the groups exactly when one group holds it |
| SwapPartition.Collect | distriopt/embedding/algorithms/partition.py:57-60 | the groups list every node once, each group one bin; the k-th group is the bin of the first node whose bin is not among the earlier groups, and lists that bin's nodes in input order |
| SwapPartition.ClimbSizes | distriopt/embedding/algorithms/partition.py:16-55 | after the swaps every node has a bin below n, each bin has its round-robin size, and the cut weight is no higher than at the start |
| SwapPartition.GroupsUniform | distriopt/embedding/algorithms/partition.py:57-60 | each group's nodes share one bin and different groups have different bins |
| SwapPartition.GroupsSized | distriopt/embedding/algorithms/partition.py:57-60 | there are at most n groups, each of size m div n or m div n + 1 |
| SwapPartition.Range | distriopt/embedding/algorithms/partition.py:20 | the bin ids are exactly 0 .. n - 1 |
| SwapPartition.GetPartitions | distriopt/embedding/algorithms/partition.py:13-60 | with n > 0 and two nodes or more: at most n non-empty groups, every node exactly once, sizes differ by at most 1, and the groups are the bins of the round-robin deal of the shuffled order climbed by the drawn swaps, whose cut weight is no higher than the deal's; n = 0 divides by zero and fewer than 2 nodes makes sample raise ValueError |
| SwapPartition.ClimbFromDeal | distriopt/embedding/algorithms/partition.py:19-60 | the partition is the round-robin deal of the shuffled order climbed by the drawn swaps (ClimbedDeal); at most n non-empty groups holding every node once, sizes differing by at most 1, each group one bin, listed in first-met order, and a cut weight no higher than the deal's |
| LegacySolve.ListedCover | distriopt/embedding/algorithms/kbalanced.py:97-118 | parts that partition the virtual nodes, listed, cover every node exactly once |
| LegacySolve.FlattenedCover | distriopt/embedding/algorithms/partition.py:57-60 | groups holding the shuffled nodes once each cover every node exactly once |
| LegacySolve.DrawPartitions | distriopt/embedding/algorithms/partition.py:13-60 | groups from one draw are at most n and cover every node once; an error (ZeroDivisionError or ValueError) exactly when n = 0 or fewer than 2 nodes |
| LegacySolve.SameCount | distriopt/embedding/algorithms/partition.py:16-17 | the shuffle lists as many nodes as the graph has |
| LegacySolve.PlacedAll | distriopt/embedding/algorithms/partition.py:91-108 | when the groups cover every node and no more groups than machines are zipped, the mapping places exactly the virtual nodes |
| LegacySolve.SolvePartition | distriopt/embedding/algorithms/partition.py:63-148 | the same widening as SolveBalanced with round-robin partitions improved by swaps: Solved at n = lower bound + failures with a placement passing verify_solution, Infeasible only after every n up to the number of machines failed with NodeResourceError or NoPathFoundError, other errors escape with the solver unchanged |
| LegacySolve.MappingAttempt | mapping/embedding/algorithms/kbalanced.py:92-154 | one attempt of the mapping revision under the call site's interface test: places exactly the zipped groups' nodes, each on its group's machine, with every crossing link routed and booked within every rate by the interfaces the test accepted; LinkCapacityError only with a link stuck on a refused pair; otherwise NodeResourceError, KeyError or ValueError |
| LegacySolve.CutAndSample | mapping/embedding/algorithms/kbalanced.py:88-90 | the start of each try: the cut of the virtual nodes listed as at most n groups of virtual nodes covering every node, and the n sampled machines; ZeroDivisionError or IndexError from the cut |
| LegacySolve.MappingBalanced | mapping/embedding/algorithms/kbalanced.py:77-161 | routes with the `if not chosen_interface_id` test as written; widening: each failed n left a caught NodeResourceError or LinkCapacityError, Solved (every node on a compute node, every crossing link routed and booked within every rate on the accepted interfaces) at n = lower bound + failures, Infeasible only after every n up to the number of machines failed; ZeroDivisionError with no compute node; it always ends |
| LegacySolve.MappingPartition | mapping/embedding/algorithms/partition.py:48-127 | routes with the `is None` test; the same widening promises as MappingBalanced, bookings within every rate on the accepted interfaces, and Solved needs at least 2 nodes to draw partitions |
| LegacySolve.UngroupedSpread | embedding/grid5000/heuristic.py:166-171 | ungrouping single fraction-1 entries gives entries that still pass the spread check |
| LegacySolve.GridAttempt | embedding/grid5000/heuristic.py:100-174 | one grid5000 attempt places exactly the zipped groups' nodes, each on its group's machine, with every crossing link's entries spread correctly and every link booked within every rate on the interfaces `if not` accepted; LinkCapacityError only with a link stuck on a refused pair |
| LegacySolve.GridRoute | embedding/grid5000/heuristic.py:123-171 | the links of one attempt: KeyError, TypeError, LinkCapacityError (with a link stuck on a refused pair), or, ungrouped through map_to_multiple_interfaces when grouped (KeyError, IndexError or ValueError there), entries spread over the machines and bookings within every rate on the accepted interfaces |
| LegacySolve.GridTry | embedding/grid5000/heuristic.py:100-174 | an attempt with groups covering the virtual nodes: a return places every virtual node on compute nodes, its links spread and booked within every rate; errors as GridAttempt |
| LegacySolve.GridBalanced | embedding/grid5000/heuristic.py:84-180 | routes with the `if not chosen_interface` test as written; returns the first n that succeeds, n = lower bound + failures, each failure a caught NodeResourceError or LinkCapacityError, with a placement of every node, correctly spread entries and bookings within every rate; InfeasibleError only after every n up to the number of machines failed; ZeroDivisionError with no compute node |
| LegacySolve.GridPartition | embedding/grid5000/heuristic2.py:50-146 | the same widening promises as GridBalanced for heuristic2's swap partitions, which need at least 2 nodes |
| Karger.Root | distriopt/embedding/algorithms/greedy.py:85-86 | following parents from a node ends at a root, a node that is its own parent |
| Karger.RootAfterLink | distriopt/embedding/algorithms/greedy.py:92-106 | after hanging root a under b, exactly the nodes that had root a now have root b |
| Karger.ClassesApart | distriopt/embedding/algorithms/greedy.py:95-109 | the classes kept at two different roots are disjoint sets of known nodes |
| Karger.LinkForest | distriopt/embedding/algorithms/greedy.py:92-106 | hanging the lower-ranked root under the other keeps the parent links a forest, and the new rank stays below the merged class's size |
| Karger.LinkClasses | distriopt/embedding/algorithms/greedy.py:95-109 | moving the absorbed root's class into the surviving root's and deleting it keeps each root's class equal to the nodes under it |
| Karger.LinkKeeps | distriopt/embedding/algorithms/greedy.py:88-109 | one union keeps all three invariants: a forest, classes matching roots, ranks bounded by class sizes |
| Karger.UnionFind.constructor | distriopt/embedding/algorithms/greedy.py:80-83 | every node starts as its own parent with rank 0 and class {u} |
| Karger.UnionFind.Find | distriopt/embedding/algorithms/greedy.py:85-86 | find returns the root whose class holds the node |
| Karger.UnionFind.Union | distriopt/embedding/algorithms/greedy.py:88-109 | union by rank: the lower rank goes under the higher, equal ranks put v's root under u's and raise u's rank by one; the absorbed class moves to the surviving root and is deleted; one class fewer; afterwards u and v share a root |
| Karger.ListSize | distriopt/embedding/algorithms/greedy.py:149 | a list without repeats of a set's elements has the set's size |
| Karger.ValuesNonEmpty | distriopt/embedding/algorithms/greedy.py:149 | every returned class is non-empty |
| Karger.ValuesDisjoint | distriopt/embedding/algorithms/greedy.py:149 | the returned classes are pairwise disjoint |
| Karger.ValuesCover | distriopt/embedding/algorithms/greedy.py:149 | the returned classes cover every node |
| Karger.ValuesPartition | distriopt/embedding/algorithms/greedy.py:149 | the returned classes partition the nodes, one per root |
| Karger.MinCut | distriopt/embedding/algorithms/greedy.py:111-149 | returns a partition of the nodes into exactly 2 non-empty classes (all singletons when there are at most 2 nodes); numpy's choice raises ValueError exactly when the weights cannot be drawn, and running out of drawn edges raises StopIteration |
| Karger.Contract | distriopt/embedding/algorithms/greedy.py:145-147 | one drawn edge: it merges exactly when its ends have different roots, the number of classes then drops by one, and otherwise the union-find is untouched |
| Greedy.SetDemandSplits | distriopt/embedding/algorithms/greedy.py:180-192 | the demand of two disjoint sets of nodes is the sum of their demands |
| Greedy.SetDemandAll | distriopt/embedding/algorithms/greedy.py:154-158 | the root's cores and memory are the total demand of all virtual nodes |
| Common.Restrict | distriopt/embedding/algorithms/greedy.py:171 | the members of a list that lie in a set, in list order, without repeats when the list has none: the nodes of an induced subgraph, and the surviving roots of the union-find |
| Greedy.SubLinks | distriopt/embedding/algorithms/greedy.py:171 | the subgraph's links are links of the graph with both ends in the set |
| Greedy.Split | distriopt/embedding/algorithms/greedy.py:170-175 | splits a set into two halves; "bisection" takes the oracle's halves, "min_cut" runs the contraction (ValueError exactly when its weights cannot be drawn, or StopIteration), any other algo raises ValueError |
| Greedy.Fresh | distriopt/embedding/algorithms/greedy.py:178-195 | a new half is not yet a key of partitions_nodes |
| Greedy.ShapedStep | distriopt/embedding/algorithms/greedy.py:180-195 | adding two children whose demands are their sums keeps every tree node's demand the sum over its set |
| Greedy.IndexedStep | distriopt/embedding/algorithms/greedy.py:194-195 | the two children are stored under their sets and linked to their parent |
| Greedy.PendingStep | distriopt/embedding/algorithms/greedy.py:194-198 | the pushed halves are exactly the new leaves still to process |
| Greedy.PopStep | distriopt/embedding/algorithms/greedy.py:166-168 | popping a set of size 1 or less leaves the rest pending |
| Greedy.WeightDrops | distriopt/embedding/algorithms/greedy.py:165-198 | replacing a set by its two halves lowers the work's weight, so the loop ends |
| Greedy.Process | distriopt/embedding/algorithms/greedy.py:165-198 | one iteration keeps the tree well built and lowers the weight; a small set adds nothing; errors come only from splitting a set of 2 or more |
| Greedy.SplitKeeps | distriopt/embedding/algorithms/greedy.py:176-198 | recording a split keeps the tree well built and lowers the weight |
| Greedy.BuildTree | distriopt/embedding/algorithms/greedy.py:151-200 | the finished tree has the root holding every node, each internal node's two children disjoint and covering it, demands that are sums over sets, and leaves of size 1 or less; bisection never fails |
| Virtual.NeighborsDistinct | distriopt/virtual.py:68-70 | a node's neighbours are listed once each |
| Greedy.Leaving | distriopt/embedding/algorithms/greedy.py:260-265 | the links leaving a set from u are exactly those to neighbours outside it |
| Greedy.Outgoing | distriopt/embedding/algorithms/greedy.py:249-265 | the pairs (u, v) with u in the partition, v a neighbour of u, v outside it, and no others |
| Greedy.OutgoingDistinct | distriopt/embedding/algorithms/greedy.py:260-265 | each outgoing pair occurs once |
| Greedy.NeighborLink | distriopt/virtual.py:64-70 | a neighbour is joined by a link that has a rate |
| Greedy.Sum | distriopt/embedding/algorithms/greedy.py:276 | Counter(rate_used) + Counter(temp_rate) is the slot-by-slot sum |
| Greedy.ChargeFrom | distriopt/embedding/algorithms/greedy.py:280-283 | booking a path on a counter adds the path's own bookings slot by slot |
| Greedy.SameCounts | distriopt/embedding/algorithms/greedy.py:298-299 | counters equal slot by slot are within rate together |
| Greedy.BookedAppend | distriopt/embedding/algorithms/greedy.py:298-299 | the bookings of two lists of routed links add up |
| Greedy.BookedSame | distriopt/embedding/algorithms/greedy.py:290 | the bookings of links depend only on their own paths |
| Greedy.EmptySound | distriopt/embedding/algorithms/greedy.py:227-233 | the empty counters and mappings of a new attempt are sound |
| Greedy.PathFrom | distriopt/embedding/algorithms/greedy.py:272-277 | a path found against the summed counters chains from the machine to the neighbour's machine along links and keeps every interface within rate after booking |
| Greedy.RoutePair | distriopt/embedding/algorithms/greedy.py:266-284 | one outgoing link whose other end is on another machine gets a path from this machine, booked in temp_rate; otherwise NoPathFoundError |
| Greedy.TallyStep | distriopt/embedding/algorithms/greedy.py:280-284 | booking one more path keeps temp_rate equal to the tally of the temporary paths |
| Greedy.FromMachineStep | distriopt/embedding/algorithms/greedy.py:272-277 | every temporary path starts at the candidate machine |
| Greedy.RoutePairs | distriopt/embedding/algorithms/greedy.py:257-284 | exactly the outgoing links whose other end is placed on another machine get paths, booked in temp_rate and leaving the candidate machine |
| Greedy.AssignAll | distriopt/embedding/algorithms/greedy.py:291-293 | every node of the partition is mapped to the machine and added to assigned, nothing else changes |
| Greedy.CommitAssignment | distriopt/embedding/algorithms/greedy.py:287-293 | committing keeps every mapped node on a compute machine and placed equal to the mapped nodes |
| Greedy.CommitCapacities | distriopt/embedding/algorithms/greedy.py:296-297 | committing a partition that fits keeps every machine's cores and memory within capacity |
| Greedy.CommitAccounted | distriopt/embedding/algorithms/greedy.py:298-299 | after adding temp_rate, rate_used is still the tally of all stored paths |
| Greedy.CommitRoutes | distriopt/embedding/algorithms/greedy.py:290 | after the update every stored path joins its link's two machines |
| Greedy.CommitConnected | distriopt/embedding/algorithms/greedy.py:287-293 | every link between nodes placed on different machines has a stored path |
| Greedy.RoutedApart | distriopt/embedding/algorithms/greedy.py:290 | the new paths are for links not routed before |
| Greedy.TryMachine | distriopt/embedding/algorithms/greedy.py:239-300 | a machine is rejected with NodeResourceError exactly when the cores or memory do not fit, with LinkCapacityError exactly when they fit but the outgoing rate exceeds rate_out; on success the partition is on that machine, earlier placements are kept and the state stays sound |
| Greedy.Commit | distriopt/embedding/algorithms/greedy.py:286-300 | committing places the whole partition on the machine, keeps earlier placements and keeps the state sound |
| Greedy.PlaceNode | distriopt/embedding/algorithms/greedy.py:238-303 | the partition goes on machines[k] for the first k that accepts it, every machine before k refused it (TryMachine raised), and None means every machine refused and the state is unchanged |
| Greedy.ShapedOrdered | distriopt/embedding/algorithms/greedy.py:151-198 | children come after their parent in the tree's node list |
| Greedy.LoadFront | distriopt/embedding/algorithms/greedy.py:60-61 | the queue's load is its front node's size plus the rest |
| Greedy.VisitStep | distriopt/embedding/algorithms/greedy.py:60-67 | visiting a node not yet placed enqueues its children |
| Greedy.VisitDrop | distriopt/embedding/algorithms/greedy.py:60-62 | a node whose set is already placed is dropped with its subtree |
| Greedy.Visit | distriopt/embedding/algorithms/greedy.py:60-67 | one step of the BFS visit keeps the state sound and lowers the queue's load; earlier placements are kept |
| Greedy.Attempt | distriopt/embedding/algorithms/greedy.py:225-303 | one n's attempt ends sound, with every node on one of the first n machines |
| Greedy.Finish | distriopt/embedding/algorithms/greedy.py:305-315 | Solved exactly records the attempt's placement and paths; it never ends Infeasible |
| Greedy.SolveGreedy | distriopt/embedding/algorithms/greedy.py:205-319 | widening: Solved at n = lower bound + attempts that fell short, within the machines, placing every virtual node with a sound state (machines within cores and memory, rate_used the tally of the paths and within every interface, every crossing link routed); Infeasible only after every n up to the number of machines fell short; an error leaves the solver unchanged |
| Packing.SetSumInsert | distriopt/packing/solution.py:50-57 | the sum of demands over a set grows by the demand of a node added to it |
| Packing.Bin.constructor | distriopt/packing/algorithms/utils.py:8-12 | a new bin has the given type, no items and no usage |
| Packing.Bin.AddItem | distriopt/packing/algorithms/utils.py:14-17 | the node joins the items, its cores and memory are added to the usage, the type is kept |
| Packing.AddTallies | distriopt/packing/algorithms/utils.py:14-17 | adding a node not yet in the bin keeps the usage equal to the items' total demand |
| Packing.ReAddOvercounts | distriopt/packing/algorithms/utils.py:14-17 | adding a node already in the bin leaves the items as they were yet charges its demand again |
| Packing.FirstMax | distriopt/packing/algorithms/bfdp.py:56-76 | Python's max with a key over the passing elements: None exactly when none passes, otherwise a passing element of greatest key, and no passing element before it has as great a key |
| Packing.FirstMin | distriopt/packing/solver.py:70-78 | Python's min with a key: None exactly when none passes, otherwise the first passing element of least key |
| Packing.FirstWhere | distriopt/packing/algorithms/ffdp.py:98-107 | next over a generator: None exactly when none passes, otherwise the first that passes |
| Packing.CheapestFeasible | distriopt/packing/solver.py:61-78 | ValueError exactly when no type has enough cores and memory; otherwise a type with enough of both whose hourly cost no such type undercuts, the first of them in catalogue order |
| Packing.FitCount | distriopt/packing/solver.py:37-48 | at most one per node |
| Packing.NextFitBounds | distriopt/packing/solver.py:36-49 | the room left in the open instance stays between zero and one instance, and at most one instance is opened per node that fits the type |
| Packing.NextFitCovers | distriopt/packing/solver.py:36-49 | the instances counted have the cores and the memory for every node that fits the type, plus the room left |
| Packing.NextFitSkips | distriopt/packing/solver.py:42-48 | a node too large for the type changes neither the count nor the room left |
| Packing.Parts | distriopt/packing/solution.py:42 | the item sets of the instances, in order |
| Packing.ListedMember | distriopt/packing/solution.py:42 | a node is assigned exactly when some instance lists it |
| Packing.CheckInstances | distriopt/packing/solution.py:49-64 | Ok exactly when every instance's items fit its cores and memory; otherwise NodeResourceError for the first instance that does not, naming cores when those are exceeded and memory otherwise |
| Packing.DistinctCard | distriopt/packing/solution.py:43 | a list of distinct nodes has as many members as entries |
| Packing.SameSizeSubset | distriopt/packing/solution.py:43 | a subset of the nodes as large as the node set is the node set |
| Packing.VerifySolution | distriopt/packing/solution.py:37-64 | AssignmentError exactly when some virtual node is not assigned; Ok exactly when every node is assigned and every instance fits its type |
| Packing.NodesAssignment | distriopt/packing/solution.py:73-77 | the keys are exactly the assigned nodes |
| Packing.BuildSolution | distriopt/packing/solution.py:66-85 | with check_solution it fails exactly when verify_solution does, with the same error; without it never fails; the mapping covers exactly the listed nodes |
| Packing.LastListingWins | distriopt/packing/solution.py:73-77 | a node listed by several instances is assigned to the last one |
| Packing.AssignedToItsInstance | distriopt/packing/solution.py:73-77 | when no node is listed twice, each node is assigned to the instance listing it |
| Packing.AssignedInstances | distriopt/packing/solution.py:73-78 | when no node is listed twice, the instances in nodes_assignment are exactly those hosting a node |
| Packing.VmUsedCounts | distriopt/packing/solution.py:78 | vm_used counts, per type, the distinct instances of that type hosting a node |
| Packing.CostCountsEveryKey | distriopt/packing/solution.py:79-84 | every instance key is paid for, even one with no items, and the cost is never negative |
| Packing.PackingSolver.constructor | distriopt/packing/solver.py:17-27 | a new solver holds the network and the catalogue, no solution, status NotSolved and lower bound 0 |
| Packing.PackingSolver.FeasibleInstances | distriopt/packing/solver.py:51-59 | exactly the catalogue types with enough cores and memory for the node |
| Packing.PackingSolver.GetUB | distriopt/packing/solver.py:29-49 | the loop computes the next-fit count, which is at most the number of nodes that fit the type, and whose instances hold those nodes' cores and memory |
| Packing.PackingSolver.Record | distriopt/packing/algorithms/ffdp.py:108-122 | Solved records the solution and the status; Infeasible only the status; an exception changes neither |
| Packing.CheapestAmongFeasible | distriopt/packing/solver.py:51-78 | the cheapest type is one of the node's feasible types, none of them is cheaper, and it is missing exactly when the node has none |
| PackHeuristics.Enumerated | distriopt/packing/algorithms/bfdp.py:101-107 | instance i of the dictionary is keyed (the bin's type, i) and holds the bin's items, in bin order |
| PackHeuristics.PackedEmpty | distriopt/packing/algorithms/greedy.py:24 | no bins and no nodes packed is a sound packing |
| PackHeuristics.ItemsDone | distriopt/packing/algorithms/greedy.py:25-63 | every bin's items are among the nodes already packed |
| PackHeuristics.JoinKeeps | distriopt/packing/algorithms/greedy.py:32-37 | putting a new node into a bin with room, possibly under a new type with room, keeps the bins disjoint, within their types and tallied |
| PackHeuristics.OpenKeeps | distriopt/packing/algorithms/greedy.py:59-63 | opening a bin of a type the node fits keeps the packing sound |
| PackHeuristics.PackedVerifies | distriopt/packing/solution.py:37-64 | a sound packing of every node passes verify_solution |
| PackHeuristics.SolvedMeaning | distriopt/packing/solution.py:73-77 | in the built solution every node is on an instance whose type has the cores and memory for its bin |
| PackHeuristics.States | distriopt/packing/algorithms/utils.py:8-12 | the bins' fields, in order |
| PackHeuristics.Join | distriopt/packing/algorithms/utils.py:14-17 | only bin k changes, by add_item |
| PackHeuristics.Retype | distriopt/packing/algorithms/greedy.py:56-57 | only bin k changes: it takes the new type and the node |
| PackHeuristics.Open | distriopt/packing/algorithms/greedy.py:61-63 | a fresh bin holding only the node is appended; the others are kept |
| PackHeuristics.JoinAt | distriopt/packing/algorithms/greedy.py:32-37 | adding the node to a bin with room keeps the packing sound, and the node fits some type |
| PackHeuristics.UpgradeAt | distriopt/packing/algorithms/greedy.py:45-58 | retyping a bin to a type that holds it and the node keeps the packing sound |
| PackHeuristics.OpenNew | distriopt/packing/algorithms/greedy.py:59-63 | opening a new bin keeps the packing sound, and the node fits some type |
| PackHeuristics.SeenNext | distriopt/packing/algorithms/greedy.py:25 | the nodes seen grow by the next one, which was not seen before |
| PackHeuristics.SeenAll | distriopt/packing/algorithms/greedy.py:25 | the loop over a permutation of the nodes sees every node |
| PackHeuristics.OrderLists | distriopt/packing/algorithms/bfdp.py:42-46 | a sorted order of the nodes lists each node once |
| PackHeuristics.RoomMeansFit | distriopt/packing/algorithms/greedy.py:32-37 | a node that fits an open bin fits that bin's type |
| PackHeuristics.InsertAscending | distriopt/packing/algorithms/ffdp.py:55-64 | inserting adds the element and nothing else |
| PackHeuristics.InsertKeepsAscending | distriopt/packing/algorithms/ffdp.py:55-64 | inserting into a non-decreasing sequence keeps it non-decreasing |
| PackHeuristics.SortAscending | distriopt/packing/algorithms/ffod.py:24-30 | the sort is a permutation of its input, non-decreasing by the key |
| PackHeuristics.DecreasingSize | distriopt/packing/algorithms/bfdp.py:42-46 | the nodes in non-increasing order of their size key, a permutation of the node list |
| PackHeuristics.BfdpPlace | distriopt/packing/algorithms/bfdp.py:52-99 | the node is placed exactly when some type fits it, and then the packing stays sound |
| PackHeuristics.BestFitDotProduct | distriopt/packing/algorithms/bfdp.py:40-107 | ValueError exactly when some node fits no type; never Infeasible; Solved packs every node soundly and its solution is what build_solution returns with the check on |
| PackHeuristics.Finish | distriopt/packing/algorithms/bfdp.py:101-107 | building from a sound packing of every node gives Solved with the checked solution |
| PackHeuristics.CatalogueTotalPositive | distriopt/packing/algorithms/ffdp.py:48-53 | the catalogue's total cores and memory are positive when it has a type |
| PackHeuristics.AlphaOf | distriopt/packing/algorithms/ffdp.py:48-53 | both weights are non-negative |
| PackHeuristics.RankedTypes | distriopt/packing/algorithms/ffdp.py:55-64 | the types in non-increasing priority, a permutation of the catalogue |
| PackHeuristics.FfdpPlace | distriopt/packing/algorithms/ffdp.py:73-114 | the node is placed exactly when some type fits it, and then the packing stays sound |
| PackHeuristics.FirstFitDecreasingPriority | distriopt/packing/algorithms/ffdp.py:39-122 | ZeroDivisionError exactly when the catalogue is empty; Infeasible exactly when some node fits no type; Solved packs every node soundly with the checked solution |
| PackHeuristics.FfodPlace | distriopt/packing/algorithms/ffod.py:41-100 | the node is placed exactly when some type fits it, and then the packing stays sound |
| PackHeuristics.FirstFitOrderedDeviation | distriopt/packing/algorithms/ffod.py:20-118 | ZeroDivisionError exactly when some node has no cores and no memory; ValueError exactly when otherwise some node fits no type; never Infeasible; Solved packs every node soundly with the checked solution |
| PackHeuristics.UpgradeOf | distriopt/packing/algorithms/greedy.py:46-48 | the cheapest type holding the bin and the node, or ValueError |
| PackHeuristics.FirstFitting | distriopt/packing/algorithms/greedy.py:32-37 | the first open bin with room for the node, or none exactly when no bin has room |
| PackHeuristics.ScanUpgrades | distriopt/packing/algorithms/greedy.py:45-58 | the scan as written, from the last bin back: it raises ValueError exactly when it reaches a bin that together with the node fits no type, every later bin declining; otherwise the first bin whose upgrade costs less than keeping it and opening a new one, or none when every bin declines |
| PackHeuristics.UpgradeScanRaises | distriopt/packing/algorithms/greedy.py:44-58 | a node that fits a type on its own, facing one full bin of the only type, makes the scan as written raise ValueError |
| PackHeuristics.ScanWorthUpgrades | distriopt/packing/algorithms/greedy.py:45-58 | the scan as the guard on vm_to_upgrade intends it: none exactly when every bin fits no type with the node or declines the upgrade; otherwise the last bin whose cheapest upgrade pays, every bin after it passed over |
| PackHeuristics.UpgradeOrOpen | distriopt/packing/algorithms/greedy.py:44-63 | corrected scan (see Findings): the node is always placed, by an upgrade or in a new bin, and the packing stays sound |
| PackHeuristics.GreedyPlace | distriopt/packing/algorithms/greedy.py:26-63 | with the corrected scan: the node is placed exactly when it fits some type, and the packing stays sound |
| PackHeuristics.PackGreedy | distriopt/packing/algorithms/greedy.py:13-71 | with the corrected scan: ValueError exactly when the catalogue is empty or some node fits no type; never Infeasible; Solved packs every node soundly with the checked solution |
| PackHeuristics.Solve | distriopt/packing/algorithms/ffdp.py:108-122 | an exception leaves the solver unchanged; otherwise the status is recorded, Infeasible keeps the old solution, and Solved stores a sound packing of every node |

| Memory.Truncate | distriopt/virtual.py:229 | int() of a float: the integer part, truncated towards zero (at most x and within 1 of it for x ≥ 0, at least x and within 1 of it below 0) |
| Memory.ToInt | distriopt/virtual.py:229-233 | int(float(text)) and int(float(text) * 1000): ValueError when float() refuses the text or gives nan, OverflowError exactly on an infinity, otherwise the truncated amount in megabytes |
| Memory.UnitOf | distriopt/virtual.py:228-233 | "MB" is tested before "GB"; a suffix is cut off and any other string is read whole; the number's length never exceeds the string's |
| Memory.MemoryMB | distriopt/virtual.py:227-234 | a memory that is not a string is kept as it is; a string fails only with ValueError or OverflowError |
| Memory.DigitsParse | distriopt/virtual.py:229-233 | float() of a non-empty run of digits is the number they spell |
| Memory.PointParse | distriopt/virtual.py:229-233 | float() of digits, a point and digits is the whole part plus the decimal fraction |
| Memory.SignedParse | distriopt/virtual.py:229-233 | a leading '+' does not change the number float() reads |
| Memory.ParseShow | distriopt/virtual.py:229-233 | reading back the decimal spelling of n gives n, whatever unit follows it |
| Memory.ParseRejects | distriopt/virtual.py:229-233 | a text with no digit and no 'n' (every spelling of inf and nan has one) is refused by float() |
| Memory.NoUnit | distriopt/virtual.py:232-233 | a string ending in a digit has no unit and is read as megabytes as a whole |
| Memory.UnitSpelling | distriopt/virtual.py:228-231 | a number followed by "MB" or "GB" is read without its unit, counted in that unit |
| Memory.WholeTimes | distriopt/virtual.py:229-231 | int() of a whole number of megabytes is that number, of gigabytes 1000 times it |
| Memory.MemorySpellings | distriopt/virtual.py:227-234 | n, "n", "nMB" read n megabytes and "nGB" reads 1000·n |
| Memory.UnitValue | distriopt/virtual.py:228-231 | a string with a unit whose number float() reads as m gives int(m) or int(m * 1000) |
| Memory.PlainValue | distriopt/virtual.py:232-233 | a string without a unit whose float() is m gives int(m) |
| Memory.FloatSpellings | distriopt/virtual.py:227-234 | "5." reads 5, " 12" reads 12, "+4" reads 4, "1e3" reads 1000, "1.5GB" reads 1500; "inf" raises OverflowError and "nan" ValueError |
| Memory.MemoryRejects | distriopt/virtual.py:227-234 | a string with no digit and no 'n' is refused with ValueError, with or without a unit |
| PairRouting.Choose | mapping/embedding/algorithms/kbalanced.py:136-142 | the choice of a call site: an interface only as the first one with room; with the `is None` test exactly when some interface has room, with the `not` test exactly when that first key is also truthy (not 0); LinkCapacityError otherwise |
| PairRouting.NextHop | mapping/embedding/algorithms/kbalanced.py:131-149 | one pass of the hop loop: LinkCapacityError exactly when the call site's test accepts no interface of the pair; otherwise the hop along the walk on the interface Choose returns, and the booking is the input plus the request on that interface, within every rate |
| PairRouting.KeyIsInterface | mapping/embedding/algorithms/kbalanced.py:136-139 | a key with room is one of the link's interface ids |
| PairRouting.HopAlong | mapping/embedding/algorithms/kbalanced.py:144-149 | appending the hop written from the node reached keeps every hop along the walk |
| FractionVerify.LinkStep | embedding/grid5000/solution.py:128-156 | one link's step keeps the residual table aligned with the real interfaces of every stored link |
| FractionVerify.MapCapped | embedding/grid5000/solution.py:116-157 | as written: the fold of CappedLink's step over the virtual links from the graph's residuals; every crossing link's first grouped entry is replaced by capped entries whose fractions can sum above 1; a network without aggregates raises ValueError |
| KBalanced.AttemptCut | distriopt/embedding/algorithms/kbalanced.py:96-165 | one round of the widening loop: never Infeasible, and Solved only with a placement and paths that pass verify_solution |
| LowerBound.Span | distriopt/embedding/algorithms/kbalanced.py:92-94 | the number of values `range(lb, m + 1)` yields: m + 1 - lb, or 0 when lb > m |
| SwapPartition.FirstMet | distriopt/embedding/algorithms/partition.py:57-60 | the bins of the listed nodes, each once, in the order first met: exactly the bins with a listed member |
| SwapPartition.MetGrow | distriopt/embedding/algorithms/partition.py:59-60 | appending a node to the list of its bin, already opened, keeps the lists in first-met order |
| SwapPartition.MetOpen | distriopt/embedding/algorithms/partition.py:59-60 | a node whose bin was not met opens a new list at the end, keeping first-met order |
| SwapPartition.Regroup | distriopt/embedding/algorithms/partition.py:57-60 | the climbed partition's bins as lists: a permutation of the nodes, at most n lists of m div n or m div n + 1 nodes each, one bin per list, in first-met order |
| Packing.Ec2CheckInstances | embedding/ec2/solution.py:26-36 | passes exactly when every instance fits; otherwise the first instance over its cores or memory, cores compared first, with the used and offered amounts |
| Packing.Ec2VerifySolution | embedding/ec2/solution.py:17-36 | AssignmentError exactly when some virtual node is unassigned, naming exactly those; passes exactly when every node is assigned and every instance fits |
| Packing.Ec2CheckAgrees | embedding/ec2/solution.py:26-36 | the EC2 capacity loop passes exactly when the library's does, and both fail on the same instance's type and resource |
| Packing.Ec2AgreesWithLibrary | embedding/ec2/solution.py:17-36 | the EC2 verify_solution accepts exactly what distriopt/packing/solution.py's accepts, rejects an unassigned node exactly when it does, and names the same resource |
| RandomSelect.Ascending | distriopt/embedding/algorithms/random.py:19 | sorted(list(compute_nodes)): exactly the compute nodes, strictly increasing |
| RandomSelect.Draws | distriopt/embedding/algorithms/random.py:28-32 | the drawn placement places exactly the listed nodes, each on one of the machines |
| RandomSelect.DrawNodes | distriopt/embedding/algorithms/random.py:28-39 | the drawn placement: IndexError exactly when there is a node and no machine; the library (raising) succeeds exactly when every machine stays within cores and memory and otherwise names an overloaded machine and resource; the mapping revision keeps the draws whatever the load |
| RandomSelect.DrawNode | distriopt/embedding/algorithms/random.py:31-39 | one node of the assignment loop: the placement so far grows by the node on its drawn machine and that machine's cores and memory counts by the node's demands; when raising, an overloaded machine is returned with its resource, its load over capacity and the placement not within the machines; otherwise the placement so far stays within |
| RandomSelect.Feasible | distriopt/embedding/algorithms/random.py:61-67 | exactly the interface ids of the pair whose rate minus the booking covers the request |
| RandomSelect.ChooseDrawn | distriopt/embedding/algorithms/random.py:69-74 | an interface is drawn exactly when one has room, and it has room |
| RandomSelect.DrawHops | distriopt/embedding/algorithms/random.py:58-86 | the hop loop as intended: each hop follows its step of the path on an interface that had room, bookings stay within rate, and LinkCapacityError comes exactly at the first step with no room |
| RandomSelect.LibraryHops | distriopt/embedding/algorithms/random.py:54-86 | one link: NoPathFoundError or LinkCapacityError, or a simple chain of hops from u's machine to v's along network links, booked within every rate |
| RandomSelect.LibraryLinks | distriopt/embedding/algorithms/random.py:41-86 | the link loop as intended: KeyError, NoPathFoundError or LinkCapacityError, or exactly the crossing links routed along network links, bookings within rate |
| RandomSelect.LibraryAttempt | distriopt/embedding/algorithms/random.py:22-93 | one attempt as intended: never Infeasible; IndexError with a node and no machine; Solved places every node on its drawn compute node with paths that pass verify_solution |
| RandomSelect.LibraryLinksAsWritten | distriopt/embedding/algorithms/random.py:45-58 | as written: passes exactly when no link crosses two machines, with no paths; otherwise KeyError, NoPathFoundError or the ValueError of unpacking a triple into two names |
| RandomSelect.RouteAndBuildAsWritten | distriopt/embedding/algorithms/random.py:41-93 | as written: any link across two machines raises before build_solution; Solved only with no crossing link and no paths |
| RandomSelect.LibraryAttemptAsWritten | distriopt/embedding/algorithms/random.py:22-93 | as written: Solved only when the draws put every link on one machine; draws with a crossing link raise |
| RandomSelect.LibraryRetries | distriopt/embedding/algorithms/random.py:21-96 | the `while True` with at most `fuel` attempts: never Infeasible; an escaping error is neither NodeResourceError nor LinkCapacityError; Solved places every node on compute nodes with a verified solution; IndexError with nodes and no machine |
| RandomSelect.SolveLibrary | distriopt/embedding/algorithms/random.py:15-96 | the library's RandomSelection.solve: never Infeasible; Solved is verified and recorded on the solver; other outcomes leave the solver unchanged; IndexError with nodes and no compute node |
| RandomSelect.MappingHops | mapping/embedding/algorithms/random.py:50-67 | the k-th pair's key is the one drawn by the k-th number of the stream among the interfaces with room once the keys before it are booked; IndexError exactly when the next pair has no interface with room; otherwise hops from u's machine to v's along the walk, and the booking is the input plus the request on every (pair, drawn key), within every rate |
| RandomSelect.DrawAlong | mapping/embedding/algorithms/random.py:50-67 | the same draws as MappingHops, pair by pair: the keys tried are those drawn from the stream on the interfaces with room, IndexError exactly when the next pair has none, otherwise one hop per pair along the walk with the booking the input plus the request on each drawn key |
| RandomSelect.DrewExtend | mapping/embedding/algorithms/random.py:53-63 | a key drawn among the interfaces with room on the next pair, on top of the earlier keys' bookings, extends the drawn keys, and its booking adds the request on that pair and key |
| RandomSelect.DrewRoomy | mapping/embedding/algorithms/random.py:53-60 | every drawn key had room on its pair once the keys before it were booked |
| RandomSelect.StreamAt | mapping/embedding/algorithms/random.py:60 | the k-th number of the draws made from position start is rng(start + k) |
| RandomSelect.DrawStep | mapping/embedding/algorithms/random.py:50-67 | a hop on the drawn interface of the next pair, booked, keeps the hop loop's invariant |
| RandomSelect.MappingHop | mapping/embedding/algorithms/random.py:50-67 | one pass of the hop loop: IndexError exactly when the pair has no interface with room; otherwise the hop along the walk on the drawn interface, booked on top of the input |
| RandomSelect.MappingRouteOne | mapping/embedding/algorithms/random.py:43-67 | one crossing link: ValueError when there is no path, IndexError exactly when the memoised path's next pair has no room after the drawn keys; otherwise a simple chain along network links on the drawn keys, and the booking is the input plus the request on each of them |
| RandomSelect.MappingLinks | mapping/embedding/algorithms/random.py:36-67 | KeyError, ValueError, IndexError with a link stuck on a pair without room, or every crossing link routed between its ends' machines, the booking being what a trail of the routed links books on keys with room, within every rate |
| RandomSelect.MappingLink | mapping/embedding/algorithms/random.py:36-67 | one pass of the link loop: KeyError, ValueError, IndexError with the link stuck on a pair without room, or the loop's state for one more link with its booking on the trail |
| RandomSelect.TrailRoomyExtend | mapping/embedding/algorithms/random.py:36-67 | the booking of one more link on keys with room, on top of what the trail books, extends the trail |
| RandomSelect.MappingPass | mapping/embedding/algorithms/random.py:19-72 | one pass: Solved or an IndexError, KeyError or ValueError; Solved keeps the drawn placement however loaded, every crossing link routed and booked on drawn keys with room, within every rate |
| RandomSelect.SolveMapping | mapping/embedding/algorithms/random.py:13-72 | the mapping revision's solve never loops twice: Solved with the drawn placement on the sorted compute nodes and every crossing link routed and booked on drawn keys with room within every rate, recorded on the solver, or IndexError, KeyError or ValueError with the solver unchanged |
| TwoPhases.Opened | mapping/embedding/algorithms/twophases.py:40-45 | the machines in the order first used: each once, exactly the machines used |
| TwoPhases.Filter | mapping/embedding/algorithms/twophases.py:19 | not_selected: the machines not yet used, in order, without repeats |
| TwoPhases.HostsOf | mapping/embedding/algorithms/twophases.py:38 | the machine of each listed node, position by position |
| TwoPhases.FirstRoom | mapping/embedding/algorithms/twophases.py:32-35 | the position of the first machine of selected then not_selected whose counters leave room for the node, none before it having room |
| TwoPhases.PlaceNodes | mapping/embedding/algorithms/twophases.py:26-54 | phase one: either every node is placed, each on the first machine with room in the chain of used then unused machines, within cores and memory; or it stops at the first node no compute node has room for, the nodes before it placed the same way |
| TwoPhases.Edges | embedding/grid5000/heuristic3.py:68 | edges(): each virtual link once with its ends as listed |
| TwoPhases.FirstMax | mapping/embedding/algorithms/twophases.py:102 | Python's max: a position of the largest value, and the first one |
| TwoPhases.Worst | mapping/embedding/algorithms/twophases.py:96-102 | the most violated link: the first key of rate_used carrying the most rate in excess |
| TwoPhases.BestAt | mapping/embedding/algorithms/twophases.py:73-75 | the first interface of the pair with the most rate left |
| TwoPhases.Touch | mapping/embedding/algorithms/twophases.py:73-75 | reading rate_used of every interface of a pair adds the unseen keys at the end, keeping the old keys in order |
| TwoPhases.BuildHops | mapping/embedding/algorithms/twophases.py:71-85 | the hop loop of one link: ValueError when a pair has no interface; otherwise hops following the walk, each booked for the rate and marked with the link, and the keys seen extended in order |
| TwoPhases.Discharge | mapping/embedding/algorithms/twophases.py:134-140 | every hop of a moved link's previous path gives back its rate and marks the link for removal there |
| TwoPhases.RouteLink | mapping/embedding/algorithms/twophases.py:63-85 | one link's path between its machines, booked and stored under the link; NoPathFoundError or ValueError otherwise |
| TwoPhases.RouteAll | mapping/embedding/algorithms/twophases.py:57-85 | phase two: a consistent booking (rate_used the charge of the stored paths, use_link their marks), and with the revision's edge order every crossing link routed between its ends' machines |
| TwoPhases.RouteEdges | mapping/embedding/algorithms/twophases.py:63-85 | the route loop over distinct link keys: NoPathFoundError or ValueError, or a consistent booking in which every link between two machines has its path between them |
| TwoPhases.VisitEdge | mapping/embedding/algorithms/twophases.py:63-85 | one pass of the route loop: the t-th link is routed when its ends sit on two machines; the booking stays consistent, later links stay unstored and every visited crossing link is routed |
| TwoPhases.Redraft | mapping/embedding/algorithms/twophases.py:128-157 | rerouting one link of the moved node on top of the tentative move, keeping the draft consistent |
| TwoPhases.DraftMove | mapping/embedding/algorithms/twophases.py:122-157 | the tentative move: exactly the links to neighbours on other machines are rerouted, with diff_rate and the add/remove marks consistent with the old and new paths |
| TwoPhases.DraftLink | mapping/embedding/algorithms/twophases.py:128-157 | one neighbour of the moved node: the link is rerouted exactly when the neighbour sits on another machine, so after k neighbours the rerouted links are those of the first k that cross; the draft stays consistent |
| TwoPhases.DraftCrossing | mapping/embedding/algorithms/twophases.py:131-157 | the link to a neighbour on another machine is rerouted into the draft, adding exactly that link's key, or NoPathFoundError or ValueError |
| TwoPhases.Rebook | mapping/embedding/algorithms/twophases.py:142-157 | with the old path's rate given back, the new path's hops are booked and marked and the link's path is replaced, leaving every other rerouted link as it was; ValueError when a pair has no interface |
| TwoPhases.KeepBooked | mapping/embedding/algorithms/twophases.py:166-195 | a kept move leaves rate_used, use_link and the paths consistent with one another |
| TwoPhases.DropBooked | mapping/embedding/algorithms/twophases.py:160-168 | a rejected move keeps the booking and the excess; the keys it read add nothing |
| TwoPhases.TryMove | mapping/embedding/algorithms/twophases.py:109-197 | one pair of the product: a kept move strictly lowers the excess and relocates the node; otherwise the excess is unchanged, no better placement was found, and a tried move stays in the mapping |
| TwoPhases.Settle | mapping/embedding/algorithms/twophases.py:160-197 | the end of a trial: the move is kept exactly when the new excess is below the current one, and then the node is relocated with the booking consistent; otherwise nothing changes and the pair is recorded as no better |
| TwoPhases.TryNode | mapping/embedding/algorithms/twophases.py:105-197 | the machines for one node in order until a move is kept, which strictly lowers the excess; otherwise every machine was passed over |
| TwoPhases.Round | mapping/embedding/algorithms/twophases.py:105-199 | one round of the product: a kept move strictly lowers the excess, or every pair was exhausted with the excess unchanged |
| TwoPhases.EndsListed | mapping/embedding/algorithms/twophases.py:106 | chaining the links of a set in any order gives exactly the ends of the set |
| TwoPhases.MostCommon | mapping/embedding/algorithms/twophases.py:106 | Counter.most_common(): each node of the chain once, exactly those nodes |
| TwoPhases.MostCommonRanked | mapping/embedding/algorithms/twophases.py:106 | most_common() lists the most frequent first, ties in the order of first appearance |
| TwoPhases.Enumerate | mapping/embedding/algorithms/twophases.py:106 | the links of use_link's set in some order, each once |
| TwoPhases.NoneOver | mapping/embedding/algorithms/twophases.py:88-93 | an excess of zero means no interface carries more than its rate |
| TwoPhases.HostedOnMachines | mapping/embedding/algorithms/twophases.py:26-50 | the placement of phase one puts every node on a compute node |
| TwoPhases.Repair | mapping/embedding/algorithms/twophases.py:88-201 | the move loop: each kept move lowers the excess, so it ends after at most the initial excess moves; it stops either with no interface over its rate, or Infeasible after a round where the worst link's nodes and every machine were tried without lowering the excess |
| TwoPhases.SolveTwoPhases | mapping/embedding/algorithms/twophases.py:12-206 | the mapping revision's TwoPhases.solve: Infeasible when phase one finds no machine, or after a stalled round; Solved with phase one's first-fit placement repaired so that every node is on a compute node and no interface is over its rate; ValueError when a pair has no interface |
| TwoPhases.EmbedHeu | embedding/grid5000/heuristic3.py:12-220 | heuristic3's EmbedHeu: InfeasibleError when phase one finds no machine or after a stalled round; otherwise the number of selected machines, with every node on a compute node and no interface over its rate |

## Left out

- The MIP formulations handed to the external pulp solver (every `ilp.py` and `solve_ILP.py`): their work is done by a foreign solver.
- The loaders (`from_files`, `from_mininet` apart from its memory conversion, which Memory models, the `grid5000` and EC2 catalogue readers, `physical.py` at the root) and the scripts, plots, tests and solver-installation checks: file, JSON and network I/O.
- Logging, timing decorators, `__str__` and `output()` printers: no effect on results.
- `functools.lru_cache` on `_get_cheapest_feasible` and the `cached` decorators: memoisation of pure functions, invisible in results. The memo tables that the source itself manages (path caches, partition caches) are modelled.
- The import and wiring breakages (the missing `CachedFunction` import of embedding/grid5000/heuristic.py and `compute_nodes()` called as a method in embedding/grid5000/solve_heu.py): the algorithms are modelled as they are evidently meant to run, not the crash at import or call time.
- Physical.FindPath, PathSearch.Search, MemoPath.PathCache.FindPath: only soundness is proved (a returned path is a simple path within the interfaces' rates); that "no path" means no such path exists is not proved.
- Aliasing of the two residual dictionaries in the grouped builders: when the first and the last hop of a cross path use the same stored link, Python updates one dictionary twice. EmbedBuild's grouped builders and FractionVerify's map_to_multiple_interfaces require `EndsApart`/`EntriesApart` (the two ends of a cross path on different stored links) instead of modelling that double update.
- KBalanced.SolveBalanced, KBalanced.TryMachines, KBalanced.TryGroups, KBalanced.AttemptCut, Greedy.SolveGreedy, Greedy.Finish, LegacySolve.SolvePartition, RandomSelect.LibraryAttempt, RandomSelect.LibraryRetries, RandomSelect.SolveLibrary: on a grouped network they require `MachinesApart` (no physical link between two compute machines), which gives the builders' `EndsApart`; a cluster with such links is not covered.
- LegacySolve.GridAttempt, LegacySolve.GridTry, LegacySolve.GridRoute, LegacySolve.GridBalanced, LegacySolve.GridPartition: on a grouped network they require `MachinesApart`. There a one-hop path between two linked machines would give an entry whose source and destination lie on one stored link, and map_to_multiple_interfaces would then update one residual dictionary twice (the aliasing above), which is not modelled. On a network that is not grouped, one-hop paths are covered, with the destination end set as evidently intended (see Findings).
- LegacySolve.MappingAttempt, LegacySolve.MappingBalanced, LegacySolve.MappingPartition: mapping/embedding/solution.py is not part of this model, so the build_solution call inside the attempt's try (mapping/embedding/algorithms/kbalanced.py:152, partition.py:118) is left out. Its own NodeResourceError or LinkCapacityError would be caught like the attempt's and move on to n + 1, which the model does not do. The contracts state the placement and routes handed to it.
- Ungroup.Split: the `while to_be_mapped > 0` loop whose best residual is 0 spins for ever in Python; the model returns `Diverges` instead of looping, and every builder passes it on.
- Karger.UnionFind.Union: requires two different roots. min_cut only calls it so; on one root the source would bump the rank and delete the root's own subset, which is not modelled.
- Karger.MinCut: that the result is a minimum cut of a connected graph with high probability is a property of the random draws, not of the code, and is not stated; the model states the contraction it performs.
- Greedy.BuildTree: the tree nodes are kept in a sequence (an arena), positions standing for Python object references; the order of `frozenset` iteration is an oracle.
- Greedy.TryMachine: NodeResourceError and LinkCapacityError are raised without arguments in the source; the model tags them with the machine and the resource only to state which test failed.
- Greedy.Sum stands for `Counter(rate_used) + Counter(temp_rate)`, which also drops non-positive counts; booked rates are never negative, so the two agree here.
- Packing.BuildSolution: `round(cost, 2)` is not modelled; the cost is the exact sum of hourly costs.
- Packing.VerifySolution, Packing.BuildSolution: require that every listed node is a virtual node; a foreign node makes the source raise KeyError from `req_cores`, which is not modelled.
- Packing: a catalogue type with zero vCPUs, zero memory or a zero price is excluded by the types (`Capacity`, `Price`): the heuristics' ratios would divide by zero; type names not in the catalogue are not modelled.
- Packing: scores and priorities are exact `real`s; the floating point rounding of Python is not modelled, so ties that rounding would break are broken by the model as exact arithmetic says.
- PackHeuristics.FirstFitOrderedDeviation: a node with no cores and no memory makes the sort key divide by zero; the model raises ZeroDivisionError before packing, as the sort does.
- Memory.ParseFloat: underscores in numbers, non-ASCII digits and whitespace, and the rounding and overflow of binary floating point (`float("1e400")` is inf) are not modelled; the literal's exact value is used.
- RandomSelect: the seeded `random.Random` stream is a parameter, one number per draw; which machine or interface a number picks is left to the stream.
- RandomSelect.SolveLibrary, RandomSelect.LibraryRetries: the `while True` has no bound; the model stops after `fuel` attempts and answers Diverges.
- RandomSelect.SolveMapping, RandomSelect.MappingPass: mapping/embedding/solution.py is not part of this model, so build_solution's own errors (NodeResourceError on an overloaded machine) are not among the errors raised; the contract states the placement and routes handed to it.
- TwoPhases.SolveTwoPhases, TwoPhases.EmbedHeu: no capacity or routing promise is made for the final mapping, because a rejected move stays in res_node_mapping (mapping/embedding/algorithms/twophases.py:117-120, embedding/grid5000/heuristic3.py:122-125) while the counters and paths keep the old machine; the contracts state the booking that the paths and counters carry.
- TwoPhases.SolveTwoPhases: build_solution of the mapping revision is not part of this model; TwoPhases.EmbedHeu: the final res_link_mapping and Solution of embedding/grid5000/heuristic3.py:200-218 are not modelled.
- TwoPhases: the iteration order of the not_selected set is the `free0` parameter; the mapping revision's find_path is the memoised path finder of MemoPath.
- Packing.Ec2VerifySolution: requires the listed nodes to be virtual nodes; the source compares the number of assigned nodes with the number of virtual nodes, which differs only for foreign nodes.
- PackHeuristics.UpgradeOrOpen, PackHeuristics.GreedyPlace, PackHeuristics.PackGreedy: model the corrected upgrade scan (see Findings), weaker than the source as written, which raises ValueError when some bin has no cheaper type holding it plus the node; the as-written behaviour is PackHeuristics.UpgradeScanRaises.
- PairRouting.RouteOne, PairRouting.RouteSorted, PairRouting.RoutePairs: the interface test is a parameter of the call site; LegacySolve.MappingBalanced and LegacySolve.GridBalanced use the `not` test as written.

## Findings

| source | as written | input that shows it | evidently intended | confidence | as-written member | corrected member |
|---|---|---|---|---|---|---|
| embedding/grid5000/solution.py:147-152 | each chunk is `min(rate_u, rate_v, req_rate)`, with the original request instead of what is left, so the chunks overshoot and their fractions sum above 1 | residuals [6, 6] on both sides, request 10: chunks 6 and 6, fractions 0.6 + 0.6 = 1.2 | `min(rate_u, rate_v, to_be_mapped)`: the chunks add up to the request and the fractions to 1 | high, not executed | Ungroup.CappedOvershoots | FractionVerify.MapWhole |
| solution.py:107-122 | each chunk's fraction is divided by the rate still unmapped before it, so every fraction after the first is too large | residuals [6, 6], request 10: chunks 6 and 4, fractions 0.6 and 1.0 | divide by the link's whole request: fractions 0.6 and 0.4, summing to 1 | high, not executed | Ungroup.RemainingFractionsExample | FractionVerify.MapWhole |
| mapping/embedding/algorithms/kbalanced.py:136-142 | `if not chosen_interface_id` treats interface key 0, the first auto-assigned key, as "no interface found" | one link with interface 0 of rate 10, request 5: LinkCapacityError although the interface fits | `if chosen_interface_id is None`, as mapping/embedding/algorithms/partition.py:104-109 writes it | high, not executed | PairRouting.KeyZeroRejected | PairRouting.ChooseSome |
| distriopt/packing/algorithms/greedy.py:44-58 | `_get_cheapest_feasible` raises ValueError when no type holds the bin plus the node, so the guard `if vm_to_upgrade` never sees a missing type and the whole solve raises | one type of 2 vCPUs and 2 memory, two nodes each needing 2 and 2: the second node cannot join the full bin, and the upgrade lookup raises instead of a new bin being opened | pass such a bin over (the guard, and the `return None` commented out in distriopt/packing/solver.py:65-68): the heuristic then raises only for an empty catalogue or a node no type fits | medium, not executed | PackHeuristics.UpgradeScanRaises | PackHeuristics.ScanWorthUpgrades |
| distriopt/embedding/algorithms/random.py:58 | `for (i, j) in self.physical.find_path(...)` unpacks each (i, j, device_id) triple find_path returns into two names | two virtual nodes joined by a link drawn onto two machines with a one-hop path: the first hop raises ValueError (too many values to unpack) | `for (i, j, _)` over the path, as distriopt/embedding/algorithms/kbalanced.py:149 writes it: each hop draws an interface with room | high, not executed | RandomSelect.LibraryAttemptAsWritten | RandomSelect.LibraryAttempt |
| embedding/grid5000/heuristic.py:158-161 | the destination end is set in an `elif` after the test for u's machine, so a hop that touches both machines sets only the source; heuristic2.py:124-127 is the same | two virtual nodes placed on two machines joined by a direct link: the one-hop path sets `source`, and `dest` is unbound on the first such link (UnboundLocalError) or left over from an earlier link, giving an entry that ends on the wrong machine | two separate tests, so the hop that touches v's machine always sets the destination end | high, not executed | PairRouting.OneHopUnset | PairRouting.GridPairs |
