/**
 * Heuristic dispatch: every component with more than one location gets a
 * tour from the heuristic chosen by the requested algorithm name and the
 * request's total coordinate count; singletons get none.
 */
module Dispatch {
  import opened RoundTripTypes

  datatype Heuristic = BruteForce | NearestNeighbour | FarthestInsertion

  /** Brute force is attempted only below this many coordinates in the whole request. */
  const BF_MAX_FEASABLE: nat := 10

  /** The heuristic the request selects; farthest insertion is the default. */
  function SelectHeuristic(tspAlgo: string, numberOfCoordinates: nat): (h: Heuristic)
    ensures h == BruteForce <==> tspAlgo == "BF" && numberOfCoordinates < BF_MAX_FEASABLE
    ensures h == NearestNeighbour <==> tspAlgo == "NN"
    ensures h == FarthestInsertion <==>
      !(tspAlgo == "BF" && numberOfCoordinates < BF_MAX_FEASABLE) && tspAlgo != "NN"
  {
    if tspAlgo == "BF" && numberOfCoordinates < BF_MAX_FEASABLE then BruteForce
    else if tspAlgo == "NN" then NearestNeighbour
    else if tspAlgo == "FI" then FarthestInsertion
    else FarthestInsertion
  }

  function RunHeuristic(h: Heuristic, env: Environment, component: seq<nat>, numberOfLocations: nat,
                        resultTable: seq<EdgeWeight>): seq<nat>
  {
    match h
    case BruteForce => env.bruteForce(component, numberOfLocations, resultTable)
    case NearestNeighbour => env.nearestNeighbour(component, numberOfLocations, resultTable)
    case FarthestInsertion => env.farthestInsertion(component, numberOfLocations, resultTable)
  }

  /** The tours of the components, one per multi-location component, in component order. */
  function Tours(components: seq<seq<nat>>, numberOfLocations: nat, resultTable: seq<EdgeWeight>,
                 tspAlgo: string, numberOfCoordinates: nat, env: Environment): seq<seq<nat>>
    decreases |components|
  {
    if components == [] then []
    else
      var last := components[|components| - 1];
      Tours(components[..|components| - 1], numberOfLocations, resultTable, tspAlgo, numberOfCoordinates, env) +
      if |last| > 1 then
        [RunHeuristic(SelectHeuristic(tspAlgo, numberOfCoordinates), env, last, numberOfLocations, resultTable)]
      else []
  }

  /** The positions of the components with more than one location, ascending. */
  function MultiIndices(components: seq<seq<nat>>): (ks: seq<nat>)
    ensures forall j :: 0 <= j < |ks| ==> ks[j] < |components|
    decreases |components|
  {
    if components == [] then []
    else
      var last := |components| - 1;
      MultiIndices(components[..last]) + if |components[last]| > 1 then [last] else []
  }

  /** Position `k` is listed exactly when component `k` has more than one location. */
  lemma {:induction false} MultiIndicesMembership(components: seq<seq<nat>>, k: nat)
    ensures k in MultiIndices(components) <==> k < |components| && |components[k]| > 1
    decreases |components|
  {
    if components != [] {
      MultiIndicesMembership(components[..|components| - 1], k);
    }
  }

  /** The positions are listed in strictly ascending order, that is, in component order. */
  lemma {:induction false} MultiIndicesAscending(components: seq<seq<nat>>)
    ensures forall a, b :: 0 <= a < b < |MultiIndices(components)| ==>
      MultiIndices(components)[a] < MultiIndices(components)[b]
    decreases |components|
  {
    if components != [] {
      MultiIndicesAscending(components[..|components| - 1]);
    }
  }

  /** Tour `j` is the selected heuristic's tour of the `j`-th component with more than one location. */
  lemma {:induction false} ToursFollowMultiIndices(components: seq<seq<nat>>, numberOfLocations: nat,
                                                   resultTable: seq<EdgeWeight>, tspAlgo: string,
                                                   numberOfCoordinates: nat, env: Environment)
    ensures var tours := Tours(components, numberOfLocations, resultTable, tspAlgo, numberOfCoordinates, env);
      var ks := MultiIndices(components);
      |tours| == |ks| &&
      forall j :: 0 <= j < |ks| ==>
        tours[j] == RunHeuristic(SelectHeuristic(tspAlgo, numberOfCoordinates), env, components[ks[j]],
                                 numberOfLocations, resultTable)
    decreases |components|
  {
    if components != [] {
      var front := components[..|components| - 1];
      ToursFollowMultiIndices(front, numberOfLocations, resultTable, tspAlgo, numberOfCoordinates, env);
      var ks := MultiIndices(front);
      forall j | 0 <= j < |ks|
        ensures components[ks[j]] == front[ks[j]]
      {
      }
    }
  }

  /** With permuting heuristics, every tour is a permutation of its component. */
  lemma ToursPermuteComponents(components: seq<seq<nat>>, numberOfLocations: nat,
                               resultTable: seq<EdgeWeight>, tspAlgo: string,
                               numberOfCoordinates: nat, env: Environment)
    requires HeuristicsSound(env)
    ensures var tours := Tours(components, numberOfLocations, resultTable, tspAlgo, numberOfCoordinates, env);
      var ks := MultiIndices(components);
      |tours| == |ks| &&
      forall j :: 0 <= j < |tours| ==> multiset(tours[j]) == multiset(components[ks[j]])
  {
    ToursFollowMultiIndices(components, numberOfLocations, resultTable, tspAlgo, numberOfCoordinates, env);
  }

  /** With permuting heuristics, every tour has at least two locations, all below `bound` if its component's are. */
  lemma TourShape(components: seq<seq<nat>>, numberOfLocations: nat,
                  resultTable: seq<EdgeWeight>, tspAlgo: string,
                  numberOfCoordinates: nat, env: Environment, bound: nat)
    requires HeuristicsSound(env)
    requires forall k, x: nat :: 0 <= k < |components| && x in components[k] ==> x < bound
    ensures var tours := Tours(components, numberOfLocations, resultTable, tspAlgo, numberOfCoordinates, env);
      forall j :: 0 <= j < |tours| ==> |tours[j]| > 1 && forall x :: x in tours[j] ==> x < bound
  {
    ToursPermuteComponents(components, numberOfLocations, resultTable, tspAlgo, numberOfCoordinates, env);
    var tours := Tours(components, numberOfLocations, resultTable, tspAlgo, numberOfCoordinates, env);
    var ks := MultiIndices(components);
    forall j | 0 <= j < |tours|
      ensures |tours[j]| > 1 && forall x :: x in tours[j] ==> x < bound
    {
      MultiIndicesMembership(components, ks[j]);
      assert |multiset(tours[j])| == |multiset(components[ks[j]])|;
      forall x | x in tours[j]
        ensures x < bound
      {
        assert x in multiset(tours[j]);
        assert x in components[ks[j]];
      }
    }
  }

  /** Components with at most one location produce no tour. */
  lemma {:induction false} SingletonsGiveNoTours(components: seq<seq<nat>>, numberOfLocations: nat,
                                                 resultTable: seq<EdgeWeight>, tspAlgo: string,
                                                 numberOfCoordinates: nat, env: Environment)
    requires forall k :: 0 <= k < |components| ==> |components[k]| <= 1
    ensures Tours(components, numberOfLocations, resultTable, tspAlgo, numberOfCoordinates, env) == []
    decreases |components|
  {
    if components != [] {
      SingletonsGiveNoTours(components[..|components| - 1], numberOfLocations, resultTable, tspAlgo,
                            numberOfCoordinates, env);
    }
  }

  /**
   * Runs the selected heuristic on every component with more than one
   * location, appending the tours in component order.
   */
  method ComputeTours(components: seq<seq<nat>>, numberOfLocations: nat, resultTable: seq<EdgeWeight>,
                      tspAlgo: string, numberOfCoordinates: nat, env: Environment)
    returns (resRoute: seq<seq<nat>>)
    ensures resRoute == Tours(components, numberOfLocations, resultTable, tspAlgo, numberOfCoordinates, env)
    ensures |resRoute| == |MultiIndices(components)|
    ensures forall j :: 0 <= j < |resRoute| ==>
      resRoute[j] == RunHeuristic(SelectHeuristic(tspAlgo, numberOfCoordinates), env,
                                  components[MultiIndices(components)[j]], numberOfLocations, resultTable)
  {
    resRoute := [];
    for k := 0 to |components|
      invariant resRoute == Tours(components[..k], numberOfLocations, resultTable, tspAlgo, numberOfCoordinates, env)
    {
      assert components[..k + 1][..k] == components[..k];
      if |components[k]| > 1 {
        var sccRoute: seq<nat>;
        if tspAlgo == "BF" && numberOfCoordinates < BF_MAX_FEASABLE {
          sccRoute := env.bruteForce(components[k], numberOfLocations, resultTable);
          resRoute := resRoute + [sccRoute];
        } else if tspAlgo == "NN" {
          sccRoute := env.nearestNeighbour(components[k], numberOfLocations, resultTable);
          resRoute := resRoute + [sccRoute];
        } else if tspAlgo == "FI" {
          sccRoute := env.farthestInsertion(components[k], numberOfLocations, resultTable);
          resRoute := resRoute + [sccRoute];
        } else {
          sccRoute := env.farthestInsertion(components[k], numberOfLocations, resultTable);
          resRoute := resRoute + [sccRoute];
        }
      }
    }
    assert components[..|components|] == components;
    ToursFollowMultiIndices(components, numberOfLocations, resultTable, tspAlgo, numberOfCoordinates, env);
  }
}
