# Round-trip request pipeline of OSRM's trip plugin, in Dafny

This project models how `RoundTripPlugin` handles a request, and proves properties of that model. The plugin computes a closed tour through the waypoints of a request. It runs one stage after another:

1. It validates the coordinates.
2. It binds each waypoint to a phantom node on the road network. A client hint is reused when it can be trusted; otherwise the network is searched.
3. It fetches the distance table.
4. It splits the waypoints into strongly connected components. When the table has no "unreachable" entry, all waypoints form one group.
5. It runs brute force, nearest neighbour or farthest insertion on every component with more than one waypoint.
6. It turns every tour into a list of legs, including the leg from the last waypoint back to the first, and asks the search engine for the route.
7. It sums the route lengths.

The plugin calls collaborators whose code is not modelled. They are the fields of `RoundTripTypes.Environment`:

- the facade's checksum, node count and snapping;
- hint decoding;
- `PhantomNode::is_valid`;
- the coordinate check of the plugin base class;
- the search engine's distance table and shortest path;
- Tarjan's algorithm;
- the three tour heuristics.

The model relies on two contracts about them:

- `TarjanSound`: there is one component id per location, and every id is below the component count.
- `HeuristicsSound`: a heuristic returns a permutation of the component it is given.

Each module follows one stage. All of them work on dense waypoint indices `0..N-1`.

- `types.dfy`: the values and the environment. `EdgeWeight` is a 32-bit signed integer, and `INVALID_EDGE_WEIGHT` is its maximum.
- `resolver.dfy`: location resolution. `GetPhantomNodes` fills an array of candidate slots in place.
- `partition.dfy`: the fast path and the bucketing by component id.
- `dispatch.dfy`: heuristic selection and the loop over components.
- `stitch.dfy`: building the legs and the route of each tour.
- `plugin.dfy`: `HandleRequest`, with the whole pipeline as the function `RoundTrip`, and status codes and aggregation.

The source's out-parameters are always passed in empty by `HandleRequest`: `components`, `res_route`, `route` and the fresh `InternalRouteResult` of each trip. The model therefore returns them as values. `phantom_node_vector` stays an array that `GetPhantomNodes` modifies in place.

A handled request ends in one of three replies:

- `BadRequest`: status 400.
- `Computed`: status 200.
- `AssertionAbort`: the assertion after snapping failed, which stops the program when assertions are enabled.

## Model

| member | source | states |
|---|---|---|
| Resolver.GetPhantomNodes | plugins/round_trip.hpp:83-106 | Slots are resolved in input order, one per coordinate. Each slot gets the trusted hint's node, or the search result with the first candidate dropped when several came back. The method aborts exactly when some searched slot's front candidate is missing or invalid. |
| Resolver.Resolve | plugins/round_trip.hpp:187-188 | There is exactly one slot per input coordinate. |
| Resolver.SlotPolicy | plugins/round_trip.hpp:88-103 | A usable hint makes the slot exactly the decoded node, whatever the search would return, so no search happens. Otherwise the slot is the search result, thinned. |
| Resolver.HintUsedOnlyWhenTrusted | plugins/round_trip.hpp:84-100 | When the checksum matches, the hint exists, is non-empty and decodes to a valid node, the slot is exactly that node. When any of these fails, the slot is the search result, thinned. |
| Resolver.DropsFirstCandidateOnce | plugins/round_trip.hpp:101-103 | With several candidates, exactly the first one is removed, once. With at most one candidate, nothing is removed. |
| Resolver.ResolvedFrontsValid | plugins/round_trip.hpp:93-104 | If resolution does not abort, every slot's front candidate exists and is valid, whether it came from a hint or from a search. |
| Resolver.OneNodePerWaypoint | plugins/round_trip.hpp:99-104 | If the facade returns at most two candidates and nothing aborts, every waypoint keeps exactly one valid node. |
| Partition.MaxElement | plugins/round_trip.hpp:204 | The result is an entry of the non-empty table, and no entry exceeds it. |
| Partition.UnreachableIffMaxIsSentinel | plugins/round_trip.hpp:203-204 | The maximum equals the unreachable sentinel if and only if some entry does. |
| Partition.BucketMembership | plugins/round_trip.hpp:121-122 | Index x is in group c if and only if x is a location whose component id is c. |
| Partition.BucketAscending | plugins/round_trip.hpp:121-122 | Every group lists its indices in strictly ascending order. |
| Partition.GroupsCoverEachIndexOnce | plugins/round_trip.hpp:117-123 | With ids in range, the concatenated groups are a permutation of 0..N-1, so every index appears exactly once. |
| Partition.InjectiveIdsGiveSingletons | plugins/round_trip.hpp:121-122 | Locations with pairwise distinct component ids end up in groups of at most one location each. |
| Partition.GroupsArePartition | plugins/round_trip.hpp:117-123 | Group membership matches the component id in both directions, each group is ascending, and every index appears once overall. |
| Partition.GroupsOfValidScc | plugins/round_trip.hpp:117-123 | For a valid Tarjan result: every location is in the group of its id, every member of group c lies below N and has id c, groups are ascending, and every index appears once. |
| Partition.SplitUnaccessibleLocations | plugins/round_trip.hpp:108-124 | There are exactly as many groups as components. Group c holds exactly the locations of component c, in ascending order, and every location appears once overall. |
| Partition.FastPathIsTrivialPartition | plugins/round_trip.hpp:207-211 | The single group [0..N-1] of the fast path equals the bucketing in which every location has component 0. |
| Partition.PartitionIsPartition | plugins/round_trip.hpp:202-213 | Either path gives a partition of 0..N-1 into ascending groups. Without a sentinel it is one group [0..N-1]; with one, group c is exactly component c. |
| Dispatch.SelectHeuristic | plugins/round_trip.hpp:223-239 | Brute force is chosen if and only if the algorithm is "BF" and the request has fewer than 10 coordinates. Nearest neighbour is chosen if and only if it is "NN". Farthest insertion is chosen in every other case. |
| Dispatch.MultiIndicesMembership | plugins/round_trip.hpp:218-219 | A component position is toured if and only if that component has more than one location. |
| Dispatch.MultiIndicesAscending | plugins/round_trip.hpp:218 | Toured components are taken in component order. |
| Dispatch.ToursFollowMultiIndices | plugins/round_trip.hpp:218-241 | There is one tour per component with more than one location. Tour j is the selected heuristic applied to the j-th such component. |
| Dispatch.ToursPermuteComponents | plugins/round_trip.hpp:225-238 | If the heuristics permute their input, every tour is a permutation of its component. |
| Dispatch.TourShape | plugins/round_trip.hpp:219-238 | If the heuristics permute their input, every tour has at least two locations, all of them inside the location range. |
| Dispatch.SingletonsGiveNoTours | plugins/round_trip.hpp:219 | Components of size at most one produce no tour. |
| Dispatch.ComputeTours | plugins/round_trip.hpp:215-241 | The loop yields one tour per component of size greater than one, in component order, each from the selected heuristic. |
| Stitch.LegsFormCycle | plugins/round_trip.hpp:155-163 | Leg j starts at trip stop j. Each leg ends where the next one starts, and the last leg ends at the first stop. |
| Stitch.ComputeRoute | plugins/round_trip.hpp:149-165 | A trip of length k gets exactly k legs. Leg j runs from stop j to stop j+1, and the last leg runs from stop k-1 to stop 0. The length is the search engine's length for those legs. |
| Stitch.ComputeRoutes | plugins/round_trip.hpp:167-177 | There is one route result per trip, in trip order, each made of its trip's cycle legs and their length. |
| Plugin.TotalDistanceAppend | plugins/round_trip.hpp:248-252 | The total distance of concatenated route lists is the sum of their totals. |
| Plugin.SumDistance | plugins/round_trip.hpp:248-252 | The accumulated distance is the sum of the route lengths, 0 when there are no routes. |
| Plugin.ResolveLocations | plugins/round_trip.hpp:187-188 | Fresh empty slots, resolved: the result aborts if and only if resolution aborts, and otherwise holds the resolved slots. |
| Plugin.ConnectedComponents | plugins/round_trip.hpp:200-213 | The connectivity step yields a partition of 0..N-1, and the single group [0..N-1] when no entry is the sentinel. |
| Plugin.TripsResolved | plugins/round_trip.hpp:218-243 | Every tour has at least two stops and visits only slots that hold a front candidate, so stitching never indexes outside the slots. |
| Plugin.HandleRequest | plugins/round_trip.hpp:179-258 | The reply is the pipeline's. A computed distance is the sum of one route per trip. The status is 400 exactly when the coordinate check fails or the table is empty. |
| Plugin.StatusCodes | plugins/round_trip.hpp:183-257 | A failed coordinate check gives 400 before anything else happens. An abort happens exactly when the check passes and resolution aborts. Otherwise the status is 400 exactly when the check fails or the table is empty, and 200 in every other case. |
| Plugin.RoutesFollowTrips | plugins/round_trip.hpp:242-253 | A computed reply has one route per trip, in trip order, made of that trip's cycle legs and the engine's length for them. Its distance is their sum. |
| Plugin.TripsPermuteComponents | plugins/round_trip.hpp:215-241 | The trips of a computed reply are, in component order, permutations of exactly the components with more than one location. |
| Plugin.ConnectedRequestGivesOneTrip | plugins/round_trip.hpp:203-241 | Without an unreachable entry and with at least two coordinates, there is exactly one trip, and it visits every location once. |
| Plugin.SingletonsGiveZeroDistance | plugins/round_trip.hpp:218-253 | When every component is a singleton, there are no trips and no routes, the distance is 0 and the status is 200. |
| Plugin.TwoMutuallyUnreachableWaypoints | plugins/round_trip.hpp:203-257 | Take two waypoints whose table marks each unreachable from the other. If Tarjan gives them different component ids, each forms a singleton group: no trip, distance 0, status 200. |

## Left out

- Tarjan's algorithm, the matrix graph wrapper and the brute-force, nearest-neighbour and farthest-insertion heuristics are not part of this model. They are environment oracles bound only by `TarjanSound` and `HeuristicsSound`. Optimality of the brute-force tour on the four-waypoint example is therefore not modelled.
- Snapping, hint decoding, `PhantomNode::is_valid`, the distance table and the shortest-path search are environment oracles. Snapping is modelled as appending the facade's candidates to the slot.
- `check_all_coordinates` belongs to the plugin base class (plugin_base.hpp is not part of this model) and is an oracle over the coordinate list.
- The second `shortest_path` call on each appended route is modelled as the same oracle storing the same length again. The geometry it may add is not modelled.
- JSON output is left out: `SetGeometry`, `SetDistanceOutput`, `SetRuntimeOutput`, and `SetLocPermutationOutput` (which is never called). Timers, logging, `GetDescriptor` and the constructor are left out too. None of them affects the reply's status, trips or distance.
- GetPhantomNodes: a failed validity assertion is modelled as an abort, as in a build with assertions enabled. A build without assertions would continue past it. An empty search result makes the `front()` call inside the assertion undefined in every build; the model treats that case as the same abort.
- Plugin.SumDistance: does not model 32-bit overflow of the `int` accumulator, because signed overflow is undefined in C++ and the model sums unbounded integers.
- Plugin.HandleRequest: does not check that the table has N×N entries. The table is only indexed inside the oracles.
- Where intent and code differ, the model follows the code:
  - One phantom node per waypoint is intended, but the code keeps every candidate after the first is dropped. `OneNodePerWaypoint` gives the single-node result only when the facade returns at most two candidates.
  - A single U-turn flag is intended, but the code passes the request's list of U-turn indicators through unchanged; the model keeps it as `seq<bool>`.
  - Components are ordered by Tarjan's ids, which come from the oracle.
