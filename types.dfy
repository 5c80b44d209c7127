/**
 * Values exchanged by the round-trip plugin, and the collaborators it calls
 * but does not implement. Every collaborator is a field of `Environment`:
 * the plugin only reads it, and the model only relies on the contracts
 * stated by `TarjanSound` and `HeuristicsSound`.
 */
module RoundTripTypes {

  /** The engine's `EdgeWeight` is a 32-bit signed integer. */
  type EdgeWeight = w: int | -0x8000_0000 <= w <= 0x7fff_ffff

  /** "Unreachable" in a distance table: the largest `EdgeWeight`. */
  const INVALID_EDGE_WEIGHT: EdgeWeight := 0x7fff_ffff

  /** A fixed-point input coordinate. */
  datatype Coordinate = Coordinate(lat: int, lon: int)

  /** A coordinate bound to the road network; its identifiers are opaque here. */
  datatype PhantomNode = PhantomNode(forwardNodeId: nat, reverseNodeId: nat)

  /** The parts of a request the plugin reads. */
  datatype RouteParameters = RouteParameters(
    coordinates: seq<Coordinate>,
    hints: seq<string>,
    checkSum: int,
    tspAlgo: string,
    uturns: seq<bool>)  // passed through to the search engine unchanged

  /** One leg of a route: an ordered pair of phantom nodes. */
  datatype PhantomNodes = PhantomNodes(sourcePhantom: PhantomNode, targetPhantom: PhantomNode)

  /** The legs of one tour and the length the search engine reports for them. */
  datatype InternalRouteResult = InternalRouteResult(
    segmentEndCoordinates: seq<PhantomNodes>,
    shortestPathLength: int)

  /** What Tarjan's algorithm reports: a component count and one id per location. */
  datatype SccResult = SccResult(numberOfComponents: nat, componentIds: seq<nat>)

  /** A tour-construction heuristic: (component, number of locations, table) to a tour. */
  type TspHeuristic = (seq<nat>, nat, seq<EdgeWeight>) -> seq<nat>

  /** The read-only collaborators of the plugin. */
  datatype Environment = Environment(
    checkSum: int,                                       // facade->GetCheckSum()
    numberOfNodes: nat,                                  // facade->GetNumberOfNodes()
    findPhantomNodes: Coordinate -> seq<PhantomNode>,    // candidates IncrementalFindPhantomNodeForCoordinate appends
    isValid: (PhantomNode, nat) -> bool,                 // PhantomNode::is_valid
    decodeHint: string -> PhantomNode,                   // ObjectEncoder::DecodeFromBase64
    checkAllCoordinates: seq<Coordinate> -> bool,        // check_all_coordinates of the plugin base
    distanceTable: seq<seq<PhantomNode>> -> seq<EdgeWeight>,
    shortestPath: (seq<PhantomNodes>, seq<bool>) -> int, // the length shortest_path stores
    tarjan: (nat, seq<EdgeWeight>) -> SccResult,
    bruteForce: TspHeuristic,
    nearestNeighbour: TspHeuristic,
    farthestInsertion: TspHeuristic)

  /** Tarjan's result for `n` locations gives each of them a component id below the count. */
  ghost predicate ValidScc(scc: SccResult, n: nat)
  {
    |scc.componentIds| == n &&
    forall i :: 0 <= i < n ==> scc.componentIds[i] < scc.numberOfComponents
  }

  ghost predicate TarjanSound(env: Environment)
  {
    forall n: nat, table: seq<EdgeWeight> :: ValidScc(env.tarjan(n, table), n)
  }

  /** A heuristic returns a permutation of the component it is given. */
  ghost predicate Permutes(h: TspHeuristic)
  {
    forall component: seq<nat>, n: nat, table: seq<EdgeWeight> ::
      multiset(h(component, n, table)) == multiset(component)
  }

  ghost predicate HeuristicsSound(env: Environment)
  {
    Permutes(env.bruteForce) && Permutes(env.nearestNeighbour) && Permutes(env.farthestInsertion)
  }
}
