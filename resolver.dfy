/**
 * Location resolution: every input coordinate gets one slot of phantom-node
 * candidates, filled from the client's hint when that hint can be trusted and
 * from a search of the network otherwise.
 */
module Resolver {
  import opened RoundTripTypes

  /** The hint for waypoint `i` replaces the search. */
  predicate HintUsable(params: RouteParameters, env: Environment, i: nat)
  {
    params.checkSum == env.checkSum &&
    i < |params.hints| && params.hints[i] != [] &&
    env.isValid(env.decodeHint(params.hints[i]), env.numberOfNodes)
  }

  /** A search that returned several candidates loses the first of them. */
  function DropFirstOfMany(slot: seq<PhantomNode>): seq<PhantomNode>
  {
    if |slot| > 1 then slot[1..] else slot
  }

  /** Slot `i` after resolution, given what it held before. */
  function ResolveSlot(prior: seq<PhantomNode>, params: RouteParameters, env: Environment, i: nat): seq<PhantomNode>
    requires i < |params.coordinates|
  {
    if HintUsable(params, env, i) then prior + [env.decodeHint(params.hints[i])]
    else DropFirstOfMany(prior + env.findPhantomNodes(params.coordinates[i]))
  }

  /** The slot's front candidate exists and is valid for the current network. */
  predicate FrontValid(slot: seq<PhantomNode>, env: Environment)
  {
    |slot| > 0 && env.isValid(slot[0], env.numberOfNodes)
  }

  /** The assertion after the search fails for waypoint `i`. */
  predicate AssertionFails(prior: seq<PhantomNode>, params: RouteParameters, env: Environment, i: nat)
    requires i < |params.coordinates|
  {
    !HintUsable(params, env, i) && !FrontValid(ResolveSlot(prior, params, env, i), env)
  }

  /**
   * Fills the slots in input order. Returns `true` at the first slot whose
   * assertion fails (the process stops there); otherwise every slot has been
   * resolved.
   */
  method GetPhantomNodes(params: RouteParameters, env: Environment, phantomNodeVector: array<seq<PhantomNode>>)
    returns (aborted: bool)
    requires phantomNodeVector.Length == |params.coordinates|
    modifies phantomNodeVector
    ensures aborted <==>
      exists i :: 0 <= i < phantomNodeVector.Length && AssertionFails(old(phantomNodeVector[i]), params, env, i)
    ensures !aborted ==>
      forall i :: 0 <= i < phantomNodeVector.Length ==>
        phantomNodeVector[i] == ResolveSlot(old(phantomNodeVector[i]), params, env, i)
  {
    var checksumOK := params.checkSum == env.checkSum;
    for i := 0 to phantomNodeVector.Length
      invariant forall j :: 0 <= j < i ==>
        phantomNodeVector[j] == ResolveSlot(old(phantomNodeVector[j]), params, env, j) &&
        !AssertionFails(old(phantomNodeVector[j]), params, env, j)
      invariant forall j :: i <= j < phantomNodeVector.Length ==> phantomNodeVector[j] == old(phantomNodeVector[j])
    {
      if checksumOK && i < |params.hints| && params.hints[i] != [] {
        var currentPhantomNode := env.decodeHint(params.hints[i]);
        if env.isValid(currentPhantomNode, env.numberOfNodes) {
          phantomNodeVector[i] := phantomNodeVector[i] + [currentPhantomNode];
          continue;
        }
      }
      phantomNodeVector[i] := phantomNodeVector[i] + env.findPhantomNodes(params.coordinates[i]);
      if |phantomNodeVector[i]| > 1 {
        phantomNodeVector[i] := phantomNodeVector[i][1..];
      }
      if !FrontValid(phantomNodeVector[i], env) {
        assert AssertionFails(old(phantomNodeVector[i]), params, env, i);
        return true;
      }
    }
    return false;
  }

  /** The slots of a request whose slots all start empty. */
  function Resolve(params: RouteParameters, env: Environment): (slots: seq<seq<PhantomNode>>)
    ensures |slots| == |params.coordinates|
  {
    seq(|params.coordinates|, i requires 0 <= i < |params.coordinates| => ResolveSlot([], params, env, i))
  }

  /** Resolution of a request stops on a failed assertion. */
  predicate ResolutionAborts(params: RouteParameters, env: Environment)
  {
    exists i :: 0 <= i < |params.coordinates| && AssertionFails([], params, env, i)
  }

  /**
   * A usable hint is the slot's only candidate, and no search result can
   * change it; an unusable hint leaves the search result, thinned if needed.
   */
  lemma SlotPolicy(params: RouteParameters, env: Environment, i: nat, find: Coordinate -> seq<PhantomNode>)
    requires i < |params.coordinates|
    ensures HintUsable(params, env, i) ==>
      Resolve(params, env)[i] == [env.decodeHint(params.hints[i])] &&
      Resolve(params, env.(findPhantomNodes := find))[i] == Resolve(params, env)[i]
    ensures !HintUsable(params, env, i) ==>
      Resolve(params, env)[i] == DropFirstOfMany(env.findPhantomNodes(params.coordinates[i]))
  {
  }

  /**
   * The hint decides slot `i` exactly when the checksum matches the facade's,
   * the hint exists and is non-empty, and it decodes to a node valid for the
   * current network; if any of these fails, the slot is the search result.
   */
  lemma HintUsedOnlyWhenTrusted(params: RouteParameters, env: Environment, i: nat)
    requires i < |params.coordinates|
    ensures params.checkSum == env.checkSum && i < |params.hints| && params.hints[i] != [] &&
            env.isValid(env.decodeHint(params.hints[i]), env.numberOfNodes) ==>
      Resolve(params, env)[i] == [env.decodeHint(params.hints[i])]
    ensures !(params.checkSum == env.checkSum && i < |params.hints| && params.hints[i] != [] &&
              env.isValid(env.decodeHint(params.hints[i]), env.numberOfNodes)) ==>
      Resolve(params, env)[i] == DropFirstOfMany(env.findPhantomNodes(params.coordinates[i]))
  {
  }

  /** Pruning removes exactly the first candidate, once, and only when there are several. */
  lemma DropsFirstCandidateOnce(candidates: seq<PhantomNode>)
    ensures |candidates| > 1 ==>
      [candidates[0]] + DropFirstOfMany(candidates) == candidates &&
      |DropFirstOfMany(candidates)| == |candidates| - 1
    ensures |candidates| <= 1 ==> DropFirstOfMany(candidates) == candidates
  {
    if |candidates| > 1 {
      assert [candidates[0]] + candidates[1..] == candidates;
    }
  }

  /** Without an abort, every slot's front candidate is valid, whichever way it was filled. */
  lemma {:induction false} ResolvedFrontsValid(params: RouteParameters, env: Environment)
    requires !ResolutionAborts(params, env)
    ensures forall i :: 0 <= i < |params.coordinates| ==> FrontValid(Resolve(params, env)[i], env)
  {
    forall i | 0 <= i < |params.coordinates|
      ensures FrontValid(Resolve(params, env)[i], env)
    {
      assert !AssertionFails([], params, env, i);
      if HintUsable(params, env, i) {
        assert Resolve(params, env)[i] == [env.decodeHint(params.hints[i])];
      }
    }
  }

  /**
   * When the facade reports at most the two candidates of a bidirectional
   * edge pair, and nothing aborts, each waypoint keeps exactly one valid node.
   */
  lemma {:induction false} OneNodePerWaypoint(params: RouteParameters, env: Environment)
    requires !ResolutionAborts(params, env)
    requires forall i :: 0 <= i < |params.coordinates| ==> |env.findPhantomNodes(params.coordinates[i])| <= 2
    ensures |Resolve(params, env)| == |params.coordinates|
    ensures forall i :: 0 <= i < |params.coordinates| ==>
      |Resolve(params, env)[i]| == 1 && env.isValid(Resolve(params, env)[i][0], env.numberOfNodes)
  {
    ResolvedFrontsValid(params, env);
    forall i | 0 <= i < |params.coordinates|
      ensures |Resolve(params, env)[i]| == 1
    {
      if !HintUsable(params, env, i) {
        DropsFirstCandidateOnce(env.findPhantomNodes(params.coordinates[i]));
      }
    }
  }
}
