/**
 * The round-trip request handler: validate, resolve locations, fetch the
 * distance table, partition, build one tour per multi-location component,
 * stitch the tours into routes and sum their lengths.
 */
module Plugin {
  import opened RoundTripTypes
  import opened Resolver
  import opened Partition
  import opened Dispatch
  import opened Stitch

  /** What handling a request ends in. */
  datatype Reply =
    | BadRequest  // status 400
    | Computed(distance: int, trips: seq<seq<nat>>, routes: seq<InternalRouteResult>)  // status 200
    | AssertionAbort  // a searched slot's front candidate failed its validity assertion

  function StatusCode(reply: Reply): (code: int)
    requires !reply.AssertionAbort?
    ensures code == 400 || code == 200
  {
    if reply.BadRequest? then 400 else 200
  }

  /** The sum of the lengths of the route results. */
  function TotalDistance(routes: seq<InternalRouteResult>): int
    decreases |routes|
  {
    if routes == [] then 0
    else TotalDistance(routes[..|routes| - 1]) + routes[|routes| - 1].shortestPathLength
  }

  /** The total of a concatenation is the sum of the totals. */
  lemma {:induction false} TotalDistanceAppend(a: seq<InternalRouteResult>, b: seq<InternalRouteResult>)
    ensures TotalDistance(a + b) == TotalDistance(a) + TotalDistance(b)
    decreases |b|
  {
    if b == [] {
      assert a + b == a;
    } else {
      var front := b[..|b| - 1];
      assert (a + b)[..|a + b| - 1] == a + front;
      TotalDistanceAppend(a, front);
    }
  }

  /** The route results of the trips, one per trip, in trip order. */
  function Routes(slots: seq<seq<PhantomNode>>, uturns: seq<bool>, trips: seq<seq<nat>>, env: Environment)
    : seq<InternalRouteResult>
    requires forall t :: 0 <= t < |trips| ==> TripResolved(slots, trips[t])
  {
    seq(|trips|, t requires 0 <= t < |trips| => StitchedRoute(slots, uturns, trips[t], env))
  }

  /** The groups the distance table splits the request's locations into. */
  function Components(params: RouteParameters, env: Environment, table: seq<EdgeWeight>): seq<seq<nat>>
    requires TarjanSound(env) && |table| > 0
  {
    PartitionLocations(|params.coordinates|, table, env)
  }

  /** The tours of a request whose resolution succeeded and whose table is `table`. */
  function Trips(params: RouteParameters, env: Environment, table: seq<EdgeWeight>): seq<seq<nat>>
    requires TarjanSound(env) && |table| > 0
  {
    Tours(Components(params, env, table), |params.coordinates|, table, params.tspAlgo, |params.coordinates|, env)
  }

  /** Every tour is non-empty and visits only resolved slots, so it can be stitched. */
  lemma TripsResolved(params: RouteParameters, env: Environment, table: seq<EdgeWeight>)
    requires TarjanSound(env) && HeuristicsSound(env) && |table| > 0
    requires !ResolutionAborts(params, env)
    ensures forall t :: 0 <= t < |Trips(params, env, table)| ==>
      |Trips(params, env, table)[t]| > 1 && TripResolved(Resolve(params, env), Trips(params, env, table)[t])
  {
    var n := |params.coordinates|;
    var components := Components(params, env, table);
    PartitionIsPartition(n, table, env);
    TourShape(components, n, table, params.tspAlgo, n, env, n);
    ResolvedFrontsValid(params, env);
    var trips := Trips(params, env, table);
    assert trips == Tours(components, n, table, params.tspAlgo, n, env);
    forall t | 0 <= t < |trips|
      ensures TripResolved(Resolve(params, env), trips[t])
    {
      forall j | 0 <= j < |trips[t]|
        ensures trips[t][j] < n
      {
        assert trips[t][j] in trips[t];
      }
    }
  }

  /** The reply the handler gives, stage by stage. */
  function RoundTrip(params: RouteParameters, env: Environment): Reply
    requires TarjanSound(env) && HeuristicsSound(env)
  {
    if !env.checkAllCoordinates(params.coordinates) then BadRequest
    else if ResolutionAborts(params, env) then AssertionAbort
    else
      var slots := Resolve(params, env);
      var table := env.distanceTable(slots);
      if |table| == 0 then BadRequest
      else
        var trips := Trips(params, env, table);
        TripsResolved(params, env, table);
        var routes := Routes(slots, params.uturns, trips, env);
        Computed(TotalDistance(routes), trips, routes)
  }

  /** Allocates one empty slot per coordinate and resolves them all. */
  method ResolveLocations(params: RouteParameters, env: Environment)
    returns (slots: seq<seq<PhantomNode>>, aborted: bool)
    ensures aborted <==> ResolutionAborts(params, env)
    ensures !aborted ==> slots == Resolve(params, env)
  {
    var phantomNodeVector := new seq<PhantomNode>[|params.coordinates|](_ => []);
    ghost var initial := phantomNodeVector[..];
    assert forall i :: 0 <= i < |initial| ==> initial[i] == [];
    aborted := GetPhantomNodes(params, env, phantomNodeVector);
    if !aborted {
      forall i | 0 <= i < |initial|
        ensures !AssertionFails([], params, env, i) && phantomNodeVector[i] == ResolveSlot([], params, env, i)
      {
        assert initial[i] == [];
      }
    }
    slots := phantomNodeVector[..];
  }

  /**
   * The connectivity step: one group of all locations when no entry is the
   * sentinel, Tarjan's components otherwise.
   */
  method ConnectedComponents(numberOfLocations: nat, resultTable: seq<EdgeWeight>, env: Environment)
    returns (components: seq<seq<nat>>)
    requires |resultTable| > 0
    requires ValidScc(env.tarjan(numberOfLocations, resultTable), numberOfLocations)
    ensures components == PartitionLocations(numberOfLocations, resultTable, env)
    ensures multiset(Flatten(components)) == multiset(Iota(numberOfLocations))
    ensures INVALID_EDGE_WEIGHT !in resultTable ==> components == [Iota(numberOfLocations)]
  {
    if MaxElement(resultTable) == INVALID_EDGE_WEIGHT {
      components := SplitUnaccessibleLocations(numberOfLocations, resultTable, env);
    } else {
      components := [Iota(numberOfLocations)];
    }
    PartitionIsPartition(numberOfLocations, resultTable, env);
  }

  /** Sums the route lengths in route order. */
  method SumDistance(route: seq<InternalRouteResult>) returns (dist: int)
    ensures dist == TotalDistance(route)
  {
    dist := 0;
    for k := 0 to |route|
      invariant dist == TotalDistance(route[..k])
    {
      assert route[..k + 1][..k] == route[..k];
      dist := dist + route[k].shortestPathLength;
    }
    assert route[..|route|] == route;
  }

  /** Handles one request. */
  method HandleRequest(params: RouteParameters, env: Environment) returns (reply: Reply)
    requires TarjanSound(env) && HeuristicsSound(env)
    ensures reply == RoundTrip(params, env)
    ensures reply.Computed? ==> reply.distance == TotalDistance(reply.routes) && |reply.routes| == |reply.trips|
    ensures !reply.AssertionAbort? ==>
      (StatusCode(reply) == 400 <==>
         !env.checkAllCoordinates(params.coordinates) || |env.distanceTable(Resolve(params, env))| == 0)
  {
    if !env.checkAllCoordinates(params.coordinates) {
      return BadRequest;
    }
    var slots, aborted := ResolveLocations(params, env);
    if aborted {
      return AssertionAbort;
    }
    var numberOfLocations := |slots|;

    var resultTable := env.distanceTable(slots);
    if |resultTable| == 0 {
      return BadRequest;
    }

    var components := ConnectedComponents(numberOfLocations, resultTable, env);

    var resRoute := ComputeTours(components, numberOfLocations, resultTable, params.tspAlgo,
                                 |params.coordinates|, env);
    assert resRoute == Trips(params, env, resultTable);
    TripsResolved(params, env, resultTable);
    var route := ComputeRoutes(slots, params.uturns, resRoute, env);

    var dist := SumDistance(route);
    reply := Computed(dist, resRoute, route);
    assert route == Routes(slots, params.uturns, resRoute, env);
  }

  /**
   * Status codes: a failed coordinate check gives 400 before anything is
   * resolved; an empty distance table gives 400; every other reply that is
   * not an abort gives 200. Aborts happen exactly when resolution aborts.
   */
  lemma StatusCodes(params: RouteParameters, env: Environment)
    requires TarjanSound(env) && HeuristicsSound(env)
    ensures !env.checkAllCoordinates(params.coordinates) ==> RoundTrip(params, env) == BadRequest
    ensures RoundTrip(params, env).AssertionAbort? <==>
      env.checkAllCoordinates(params.coordinates) && ResolutionAborts(params, env)
    ensures !RoundTrip(params, env).AssertionAbort? ==>
      (StatusCode(RoundTrip(params, env)) == 400 <==>
         !env.checkAllCoordinates(params.coordinates) || |env.distanceTable(Resolve(params, env))| == 0)
  {
  }

  /**
   * A computed reply has one route per trip, in trip order, each made of its
   * trip's cycle legs, and its distance is the sum of the routes' lengths.
   */
  lemma RoutesFollowTrips(params: RouteParameters, env: Environment)
    requires TarjanSound(env) && HeuristicsSound(env)
    requires RoundTrip(params, env).Computed?
    ensures var reply := RoundTrip(params, env);
      |reply.routes| == |reply.trips| &&
      reply.distance == TotalDistance(reply.routes) &&
      forall t :: 0 <= t < |reply.trips| ==>
        TripResolved(Resolve(params, env), reply.trips[t]) &&
        reply.routes[t].segmentEndCoordinates == CycleLegs(Resolve(params, env), reply.trips[t]) &&
        reply.routes[t].shortestPathLength ==
          env.shortestPath(CycleLegs(Resolve(params, env), reply.trips[t]), params.uturns)
  {
    TripsResolved(params, env, env.distanceTable(Resolve(params, env)));
  }

  /**
   * The trips of a computed reply are, in component order, permutations of
   * exactly the components with more than one location.
   */
  lemma TripsPermuteComponents(params: RouteParameters, env: Environment)
    requires TarjanSound(env) && HeuristicsSound(env)
    requires RoundTrip(params, env).Computed?
    ensures var table := env.distanceTable(Resolve(params, env));
      var components := Components(params, env, table);
      var ks := MultiIndices(components);
      var trips := RoundTrip(params, env).trips;
      |trips| == |ks| &&
      forall j :: 0 <= j < |trips| ==> multiset(trips[j]) == multiset(components[ks[j]])
  {
    var n := |params.coordinates|;
    var table := env.distanceTable(Resolve(params, env));
    ToursPermuteComponents(Components(params, env, table), n, table, params.tspAlgo, n, env);
  }

  /** Without an unreachable pair, there is a single trip and it visits every location once. */
  lemma ConnectedRequestGivesOneTrip(params: RouteParameters, env: Environment)
    requires TarjanSound(env) && HeuristicsSound(env)
    requires RoundTrip(params, env).Computed?
    requires INVALID_EDGE_WEIGHT !in env.distanceTable(Resolve(params, env))
    requires |params.coordinates| > 1
    ensures |RoundTrip(params, env).trips| == 1
    ensures multiset(RoundTrip(params, env).trips[0]) == multiset(Iota(|params.coordinates|))
  {
    var n := |params.coordinates|;
    var table := env.distanceTable(Resolve(params, env));
    PartitionIsPartition(n, table, env);
    var components := Components(params, env, table);
    assert components == [Iota(n)];
    MultiIndicesMembership(components, 0);
    SingleMultiIndex(components);
    TripsPermuteComponents(params, env);
  }

  lemma SingleMultiIndex(components: seq<seq<nat>>)
    requires |components| == 1 && |components[0]| > 1
    ensures MultiIndices(components) == [0]
  {
    assert components[..0] == [];
  }

  /** When every component is a singleton, nothing is toured or stitched and the distance is 0, with status 200. */
  lemma SingletonsGiveZeroDistance(params: RouteParameters, env: Environment)
    requires TarjanSound(env) && HeuristicsSound(env)
    requires RoundTrip(params, env).Computed?
    requires var components := Components(params, env, env.distanceTable(Resolve(params, env)));
      forall k :: 0 <= k < |components| ==> |components[k]| <= 1
    ensures RoundTrip(params, env) == Computed(0, [], [])
    ensures StatusCode(RoundTrip(params, env)) == 200
  {
    var n := |params.coordinates|;
    var table := env.distanceTable(Resolve(params, env));
    SingletonsGiveNoTours(Components(params, env, table), n, table, params.tspAlgo, n, env);
  }

  /**
   * Two waypoints that cannot reach each other, and that Tarjan's algorithm
   * therefore places in different components, give no trip, no route,
   * distance 0 and status 200.
   */
  lemma TwoMutuallyUnreachableWaypoints(params: RouteParameters, env: Environment)
    requires TarjanSound(env) && HeuristicsSound(env)
    requires |params.coordinates| == 2
    requires env.checkAllCoordinates(params.coordinates) && !ResolutionAborts(params, env)
    requires env.distanceTable(Resolve(params, env)) == [0, INVALID_EDGE_WEIGHT, INVALID_EDGE_WEIGHT, 0]
    requires var scc := env.tarjan(2, [0, INVALID_EDGE_WEIGHT, INVALID_EDGE_WEIGHT, 0]);
      |scc.componentIds| == 2 && scc.componentIds[0] != scc.componentIds[1]
    ensures RoundTrip(params, env) == Computed(0, [], [])
    ensures StatusCode(RoundTrip(params, env)) == 200
  {
    var table := env.distanceTable(Resolve(params, env));
    UnreachableIffMaxIsSentinel(table);
    assert table[1] == INVALID_EDGE_WEIGHT;
    var scc := env.tarjan(2, table);
    assert ValidScc(scc, 2);
    InjectiveIdsGiveSingletons(scc.componentIds, scc.numberOfComponents);
    SingletonsGiveZeroDistance(params, env);
  }
}
