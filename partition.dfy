/**
 * Connectivity partitioning: the waypoint indices 0..N-1 are grouped into
 * strongly connected components of the distance table, or kept as one group
 * when no entry of the table is the "unreachable" sentinel.
 */
module Partition {
  import opened RoundTripTypes

  /** 0, 1, ..., n-1, as std::iota fills a vector of n node ids. */
  function Iota(n: nat): (ids: seq<nat>)
    ensures |ids| == n
  {
    seq(n, i => i)
  }

  /** The value of std::max_element over a non-empty table. */
  function MaxElement(table: seq<EdgeWeight>): (m: EdgeWeight)
    requires |table| > 0
    ensures m in table
    ensures forall k :: 0 <= k < |table| ==> table[k] <= m
  {
    if |table| == 1 then table[0]
    else
      var rest := MaxElement(table[1..]);
      if table[0] < rest then rest else table[0]
  }

  /** Since no weight exceeds the sentinel, the maximum is the sentinel exactly when some entry is. */
  lemma UnreachableIffMaxIsSentinel(table: seq<EdgeWeight>)
    requires |table| > 0
    ensures MaxElement(table) == INVALID_EDGE_WEIGHT <==> INVALID_EDGE_WEIGHT in table
  {
  }

  /** The indices whose component id is `c`, in ascending order. */
  function Bucket(componentIds: seq<nat>, c: nat): seq<nat>
    decreases |componentIds|
  {
    if componentIds == [] then []
    else
      var last := |componentIds| - 1;
      Bucket(componentIds[..last], c) + (if componentIds[last] == c then [last] else [])
  }

  /** One bucket per component id below `count`. */
  function Groups(componentIds: seq<nat>, count: nat): (groups: seq<seq<nat>>)
    ensures |groups| == count
  {
    seq(count, c requires 0 <= c < count => Bucket(componentIds, c))
  }

  /** The concatenation of all groups. */
  function Flatten(groups: seq<seq<nat>>): seq<nat>
  {
    if groups == [] then [] else groups[0] + Flatten(groups[1..])
  }

  /** Index `x` is in bucket `c` exactly when `x` is a location whose id is `c`. */
  lemma {:induction false} BucketMembership(componentIds: seq<nat>, c: nat, x: nat)
    ensures x in Bucket(componentIds, c) <==> x < |componentIds| && componentIds[x] == c
    decreases |componentIds|
  {
    if componentIds != [] {
      var last := |componentIds| - 1;
      BucketMembership(componentIds[..last], c, x);
    }
  }

  /** A bucket lists its indices in strictly ascending order. */
  lemma {:induction false} BucketAscending(componentIds: seq<nat>, c: nat)
    ensures forall a, b :: 0 <= a < b < |Bucket(componentIds, c)| ==>
      Bucket(componentIds, c)[a] < Bucket(componentIds, c)[b]
    decreases |componentIds|
  {
    if componentIds != [] {
      var last := |componentIds| - 1;
      var front := Bucket(componentIds[..last], c);
      BucketAscending(componentIds[..last], c);
      forall k | 0 <= k < |front|
        ensures front[k] < last
      {
        BucketMembership(componentIds[..last], c, front[k]);
      }
    }
  }

  /** Appending `x` to group `k` adds exactly one `x` to the concatenation. */
  lemma {:induction false} FlattenAppendAt(groups: seq<seq<nat>>, k: nat, x: nat)
    requires k < |groups|
    ensures multiset(Flatten(groups[k := groups[k] + [x]])) == multiset(Flatten(groups)) + multiset{x}
  {
    var updated := groups[k := groups[k] + [x]];
    var rest := Flatten(groups[1..]);
    assert Flatten(groups) == groups[0] + rest;
    assert multiset(Flatten(groups)) == multiset(groups[0]) + multiset(rest);
    if k == 0 {
      assert updated[1..] == groups[1..];
      assert Flatten(updated) == (groups[0] + [x]) + rest;
      assert multiset(Flatten(updated)) == multiset(groups[0]) + multiset{x} + multiset(rest);
    } else {
      var restUpdated := Flatten(updated[1..]);
      assert updated[1..] == groups[1..][k - 1 := groups[k] + [x]];
      FlattenAppendAt(groups[1..], k - 1, x);
      assert multiset(restUpdated) == multiset(rest) + multiset{x};
      assert Flatten(updated) == groups[0] + restUpdated;
      assert multiset(Flatten(updated)) == multiset(groups[0]) + multiset(restUpdated);
    }
  }

  /** Extending the ids by one location appends that location to its own group only. */
  lemma GroupsExtend(componentIds: seq<nat>, count: nat, id: nat)
    requires id < count
    ensures Groups(componentIds + [id], count) ==
      Groups(componentIds, count)[id := Groups(componentIds, count)[id] + [|componentIds|]]
  {
    var extended := componentIds + [id];
    assert extended[..|componentIds|] == componentIds;
    forall c | 0 <= c < count
      ensures Groups(extended, count)[c] ==
        Groups(componentIds, count)[id := Groups(componentIds, count)[id] + [|componentIds|]][c]
    {
      assert Groups(extended, count)[c] == Bucket(extended, c);
    }
  }

  /** One more location adds exactly its own index to the concatenated groups. */
  lemma FlattenGroupsExtend(componentIds: seq<nat>, count: nat, id: nat)
    requires id < count
    ensures multiset(Flatten(Groups(componentIds + [id], count))) ==
      multiset(Flatten(Groups(componentIds, count))) + multiset{|componentIds| as nat}
  {
    GroupsExtend(componentIds, count, id);
    FlattenAppendAt(Groups(componentIds, count), id, |componentIds|);
  }

  /** With ids in range, every location index appears exactly once across all groups. */
  lemma {:induction false} GroupsCoverEachIndexOnce(componentIds: seq<nat>, count: nat)
    requires forall i :: 0 <= i < |componentIds| ==> componentIds[i] < count
    ensures multiset(Flatten(Groups(componentIds, count))) == multiset(Iota(|componentIds|))
    decreases |componentIds|
  {
    if componentIds == [] {
      EmptyGroupsFlattenToNothing(count);
    } else {
      var last := |componentIds| - 1;
      var front := componentIds[..last];
      GroupsCoverEachIndexOnce(front, count);
      assert front + [componentIds[last]] == componentIds;
      FlattenGroupsExtend(front, count, componentIds[last]);
      IotaSnoc(last);
    }
  }

  lemma IotaSnoc(n: nat)
    ensures multiset(Iota(n + 1)) == multiset(Iota(n)) + multiset{n}
  {
    assert Iota(n + 1) == Iota(n) + [n];
  }

  lemma {:induction false} EmptyGroupsFlattenToNothing(count: nat)
    ensures Flatten(Groups([], count)) == []
  {
    if count > 0 {
      assert Groups([], count)[1..] == Groups([], count - 1);
      EmptyGroupsFlattenToNothing(count - 1);
    }
  }

  /** Locations with pairwise distinct component ids each form a group of their own. */
  lemma InjectiveIdsGiveSingletons(componentIds: seq<nat>, count: nat)
    requires forall a, b :: 0 <= a < b < |componentIds| ==> componentIds[a] != componentIds[b]
    ensures forall c :: 0 <= c < count ==> |Groups(componentIds, count)[c]| <= 1
  {
    forall c | 0 <= c < count
      ensures |Groups(componentIds, count)[c]| <= 1
    {
      var bucket := Bucket(componentIds, c);
      if |bucket| > 1 {
        BucketAscending(componentIds, c);
        BucketMembership(componentIds, c, bucket[0]);
        BucketMembership(componentIds, c, bucket[1]);
        assert false;
      }
    }
  }

  /**
   * Bucketing by in-range component ids partitions the locations: one group
   * per id, group `c` holding exactly the locations with id `c`, ascending,
   * and every location once overall.
   */
  lemma GroupsArePartition(componentIds: seq<nat>, count: nat)
    requires forall i :: 0 <= i < |componentIds| ==> componentIds[i] < count
    ensures forall c: nat, x: nat :: c < count ==>
      (x in Groups(componentIds, count)[c] <==> x < |componentIds| && componentIds[x] == c)
    ensures forall c, a, b :: 0 <= c < count && 0 <= a < b < |Groups(componentIds, count)[c]| ==>
      Groups(componentIds, count)[c][a] < Groups(componentIds, count)[c][b]
    ensures multiset(Flatten(Groups(componentIds, count))) == multiset(Iota(|componentIds|))
  {
    forall c: nat, x: nat | c < count
      ensures x in Groups(componentIds, count)[c] <==> x < |componentIds| && componentIds[x] == c
    {
      BucketMembership(componentIds, c, x);
    }
    forall c | 0 <= c < count
      ensures forall a, b :: 0 <= a < b < |Groups(componentIds, count)[c]| ==>
        Groups(componentIds, count)[c][a] < Groups(componentIds, count)[c][b]
    {
      BucketAscending(componentIds, c);
    }
    GroupsCoverEachIndexOnce(componentIds, count);
  }

  /**
   * Buckets the location indices by their Tarjan component id: one group per
   * component, each filled in ascending index order.
   */
  method SplitUnaccessibleLocations(numberOfLocations: nat, resultTable: seq<EdgeWeight>, env: Environment)
    returns (components: seq<seq<nat>>)
    requires ValidScc(env.tarjan(numberOfLocations, resultTable), numberOfLocations)
    ensures components == Groups(env.tarjan(numberOfLocations, resultTable).componentIds,
                                 env.tarjan(numberOfLocations, resultTable).numberOfComponents)
    ensures |components| == env.tarjan(numberOfLocations, resultTable).numberOfComponents
    ensures forall i :: 0 <= i < numberOfLocations ==>
      i in components[env.tarjan(numberOfLocations, resultTable).componentIds[i]]
    ensures forall c, x: nat :: 0 <= c < |components| && x in components[c] ==> x < numberOfLocations
    ensures forall c, x: nat :: 0 <= c < |components| && x in components[c] ==>
      env.tarjan(numberOfLocations, resultTable).componentIds[x] == c
    ensures forall c, a, b :: 0 <= c < |components| && 0 <= a < b < |components[c]| ==>
      components[c][a] < components[c][b]
    ensures multiset(Flatten(components)) == multiset(Iota(numberOfLocations))
  {
    var scc := env.tarjan(numberOfLocations, resultTable);
    components := [];
    for j := 0 to scc.numberOfComponents
      invariant |components| == j
      invariant forall c :: 0 <= c < j ==> components[c] == []
    {
      components := components + [[]];
    }
    assert components == Groups([], scc.numberOfComponents);
    for i := 0 to numberOfLocations
      invariant components == Groups(scc.componentIds[..i], scc.numberOfComponents)
    {
      var id := scc.componentIds[i];
      assert scc.componentIds[..i + 1] == scc.componentIds[..i] + [id];
      GroupsExtend(scc.componentIds[..i], scc.numberOfComponents, id);
      components := components[id := components[id] + [i]];
    }
    assert scc.componentIds[..numberOfLocations] == scc.componentIds;
    GroupsOfValidScc(scc, numberOfLocations);
  }

  /** The groups of a valid SCC result partition the locations, group `c` holding component `c`. */
  lemma GroupsOfValidScc(scc: SccResult, numberOfLocations: nat)
    requires ValidScc(scc, numberOfLocations)
    ensures var groups := Groups(scc.componentIds, scc.numberOfComponents);
      (forall i :: 0 <= i < numberOfLocations ==> i in groups[scc.componentIds[i]]) &&
      (forall c, x: nat :: 0 <= c < |groups| && x in groups[c] ==> x < numberOfLocations) &&
      (forall c, x: nat :: 0 <= c < |groups| && x in groups[c] ==> scc.componentIds[x] == c) &&
      (forall c, a, b :: 0 <= c < |groups| && 0 <= a < b < |groups[c]| ==> groups[c][a] < groups[c][b]) &&
      multiset(Flatten(groups)) == multiset(Iota(numberOfLocations))
  {
    GroupsArePartition(scc.componentIds, scc.numberOfComponents);
    var groups := Groups(scc.componentIds, scc.numberOfComponents);
    forall i | 0 <= i < numberOfLocations
      ensures i in groups[scc.componentIds[i]]
    {
      BucketMembership(scc.componentIds, scc.componentIds[i], i);
    }
    forall c, x: nat | 0 <= c < |groups| && x in groups[c]
      ensures x < numberOfLocations
    {
      BucketMembership(scc.componentIds, c, x);
    }
    forall c, x: nat | 0 <= c < |groups| && x in groups[c]
      ensures scc.componentIds[x] == c
    {
      BucketMembership(scc.componentIds, c, x);
    }
  }

  /** The groups the plugin works on: Tarjan's when a sentinel is present, one group of all indices otherwise. */
  function PartitionLocations(numberOfLocations: nat, resultTable: seq<EdgeWeight>, env: Environment): seq<seq<nat>>
    requires |resultTable| > 0
    requires ValidScc(env.tarjan(numberOfLocations, resultTable), numberOfLocations)
  {
    if MaxElement(resultTable) == INVALID_EDGE_WEIGHT then
      var scc := env.tarjan(numberOfLocations, resultTable);
      Groups(scc.componentIds, scc.numberOfComponents)
    else
      [Iota(numberOfLocations)]
  }

  /** The fast path gives what bucketing would give if every location shared component 0. */
  lemma {:induction false} FastPathIsTrivialPartition(n: nat)
    ensures [Iota(n)] == Groups(seq(n, _ => 0), 1)
  {
    SingleBucketIsIota(n);
  }

  lemma {:induction false} SingleBucketIsIota(n: nat)
    ensures Bucket(seq(n, _ => 0), 0) == Iota(n)
  {
    if n > 0 {
      assert seq(n, _ => 0)[..n - 1] == seq(n - 1, _ => 0);
      SingleBucketIsIota(n - 1);
      assert Iota(n) == Iota(n - 1) + [n - 1];
    }
  }

  /**
   * Either way, the groups partition 0..N-1: each index appears exactly once,
   * each group is strictly ascending. Without a sentinel there is one group
   * [0, ..., N-1]; with one, group `c` holds the locations of component `c`.
   */
  lemma {:induction false} PartitionIsPartition(numberOfLocations: nat, resultTable: seq<EdgeWeight>, env: Environment)
    requires |resultTable| > 0
    requires ValidScc(env.tarjan(numberOfLocations, resultTable), numberOfLocations)
    ensures multiset(Flatten(PartitionLocations(numberOfLocations, resultTable, env))) == multiset(Iota(numberOfLocations))
    ensures var groups := PartitionLocations(numberOfLocations, resultTable, env);
      forall k, a, b :: 0 <= k < |groups| && 0 <= a < b < |groups[k]| ==> groups[k][a] < groups[k][b]
    ensures var groups := PartitionLocations(numberOfLocations, resultTable, env);
      forall k, x: nat :: 0 <= k < |groups| && x in groups[k] ==> x < numberOfLocations
    ensures INVALID_EDGE_WEIGHT !in resultTable ==> PartitionLocations(numberOfLocations, resultTable, env) == [Iota(numberOfLocations)]
    ensures INVALID_EDGE_WEIGHT in resultTable ==>
      var scc := env.tarjan(numberOfLocations, resultTable);
      |PartitionLocations(numberOfLocations, resultTable, env)| == scc.numberOfComponents &&
      forall c: nat, x: nat :: c < scc.numberOfComponents ==>
        (x in PartitionLocations(numberOfLocations, resultTable, env)[c] <==> x < numberOfLocations && scc.componentIds[x] == c)
  {
    UnreachableIffMaxIsSentinel(resultTable);
    var scc := env.tarjan(numberOfLocations, resultTable);
    if MaxElement(resultTable) == INVALID_EDGE_WEIGHT {
      GroupsArePartition(scc.componentIds, scc.numberOfComponents);
      GroupsOfValidScc(scc, numberOfLocations);
    } else {
      assert Flatten([Iota(numberOfLocations)]) == Iota(numberOfLocations) + Flatten([]);
    }
  }
}
