/**
 * Route stitching: a tour becomes the list of its consecutive legs, closed by
 * the leg from its last location back to its first, and the search engine is
 * asked for the length of the whole cycle.
 */
module Stitch {
  import opened RoundTripTypes

  /** Every location of the trip has a resolved slot with a front candidate. */
  predicate TripResolved(phantomNodeVector: seq<seq<PhantomNode>>, trip: seq<nat>)
  {
    forall j :: 0 <= j < |trip| ==> trip[j] < |phantomNodeVector| && |phantomNodeVector[trip[j]]| > 0
  }

  /** The front candidate of the slot of trip position `j`. */
  function Stop(phantomNodeVector: seq<seq<PhantomNode>>, trip: seq<nat>, j: nat): PhantomNode
    requires TripResolved(phantomNodeVector, trip) && j < |trip|
  {
    phantomNodeVector[trip[j]][0]
  }

  /** The position after `j` on a cycle of length `k`. */
  function Next(j: nat, k: nat): nat
  {
    if j + 1 < k then j + 1 else 0
  }

  /** Leg `j` of the cycle runs from stop `j` to the stop after it, the last stop being followed by the first. */
  function CycleLegs(phantomNodeVector: seq<seq<PhantomNode>>, trip: seq<nat>): (legs: seq<PhantomNodes>)
    requires TripResolved(phantomNodeVector, trip)
    ensures |legs| == |trip|
  {
    seq(|trip|, j requires 0 <= j < |trip| =>
      PhantomNodes(Stop(phantomNodeVector, trip, j), Stop(phantomNodeVector, trip, Next(j, |trip|))))
  }

  /** The route result of one trip: its cycle legs and the length the search engine gives them. */
  function StitchedRoute(phantomNodeVector: seq<seq<PhantomNode>>, uturns: seq<bool>, trip: seq<nat>,
                         env: Environment): InternalRouteResult
    requires TripResolved(phantomNodeVector, trip)
  {
    var legs := CycleLegs(phantomNodeVector, trip);
    InternalRouteResult(legs, env.shortestPath(legs, uturns))
  }

  /** The legs chain: each leg ends where the next begins, and the last ends where the first begins. */
  lemma LegsFormCycle(phantomNodeVector: seq<seq<PhantomNode>>, trip: seq<nat>)
    requires TripResolved(phantomNodeVector, trip) && |trip| > 0
    ensures var legs := CycleLegs(phantomNodeVector, trip);
      (forall j :: 0 <= j < |legs| - 1 ==> legs[j].targetPhantom == legs[j + 1].sourcePhantom) &&
      legs[|legs| - 1].targetPhantom == legs[0].sourcePhantom &&
      forall j :: 0 <= j < |legs| ==> legs[j].sourcePhantom == phantomNodeVector[trip[j]][0]
  {
  }

  /**
   * Builds the legs of one trip: one per consecutive pair, then the
   * wrap-around leg, then asks the search engine for the cycle's length.
   */
  method ComputeRoute(phantomNodeVector: seq<seq<PhantomNode>>, uturns: seq<bool>, trip: seq<nat>, env: Environment)
    returns (minRoute: InternalRouteResult)
    requires |trip| > 0 && TripResolved(phantomNodeVector, trip)
    ensures |minRoute.segmentEndCoordinates| == |trip|
    ensures forall j :: 0 <= j < |trip| - 1 ==>
      minRoute.segmentEndCoordinates[j] ==
        PhantomNodes(phantomNodeVector[trip[j]][0], phantomNodeVector[trip[j + 1]][0])
    ensures minRoute.segmentEndCoordinates[|trip| - 1] ==
      PhantomNodes(phantomNodeVector[trip[|trip| - 1]][0], phantomNodeVector[trip[0]][0])
    ensures minRoute.shortestPathLength == env.shortestPath(minRoute.segmentEndCoordinates, uturns)
    ensures minRoute == StitchedRoute(phantomNodeVector, uturns, trip, env)
  {
    minRoute := InternalRouteResult([], INVALID_EDGE_WEIGHT);
    var k := |trip|;
    for it := 0 to k - 1
      invariant |minRoute.segmentEndCoordinates| == it
      invariant forall j :: 0 <= j < it ==>
        minRoute.segmentEndCoordinates[j] ==
          PhantomNodes(phantomNodeVector[trip[j]][0], phantomNodeVector[trip[j + 1]][0])
    {
      var fromNode := trip[it];
      var toNode := trip[it + 1];
      var viapoint := PhantomNodes(phantomNodeVector[fromNode][0], phantomNodeVector[toNode][0]);
      minRoute := minRoute.(segmentEndCoordinates := minRoute.segmentEndCoordinates + [viapoint]);
    }
    var viapoint := PhantomNodes(phantomNodeVector[trip[k - 1]][0], phantomNodeVector[trip[0]][0]);
    minRoute := minRoute.(segmentEndCoordinates := minRoute.segmentEndCoordinates + [viapoint]);
    minRoute := minRoute.(shortestPathLength := env.shortestPath(minRoute.segmentEndCoordinates, uturns));
    assert minRoute.segmentEndCoordinates == CycleLegs(phantomNodeVector, trip);
  }

  /** One route result per trip, in trip order. */
  method ComputeRoutes(phantomNodeVector: seq<seq<PhantomNode>>, uturns: seq<bool>, trips: seq<seq<nat>>,
                       env: Environment)
    returns (route: seq<InternalRouteResult>)
    requires forall t :: 0 <= t < |trips| ==> |trips[t]| > 0 && TripResolved(phantomNodeVector, trips[t])
    ensures |route| == |trips|
    ensures forall t :: 0 <= t < |trips| ==> route[t] == StitchedRoute(phantomNodeVector, uturns, trips[t], env)
  {
    route := [];
    for t := 0 to |trips|
      invariant |route| == t
      invariant forall s :: 0 <= s < t ==> route[s] == StitchedRoute(phantomNodeVector, uturns, trips[s], env)
    {
      var currRoute := ComputeRoute(phantomNodeVector, uturns, trips[t], env);
      route := route + [currRoute];
      // The search engine is asked again for the route just appended.
      var back := route[|route| - 1];
      route := route[|route| - 1 := back.(shortestPathLength := env.shortestPath(back.segmentEndCoordinates, uturns))];
    }
  }
}
