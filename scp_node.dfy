/**
 * A node as seen by the consensus protocol: its identifier and a cache of
 * the quorum set it declared. The cache is a keyed cache, but every store
 * and every lookup uses the fixed key 0, so it is a single slot and the
 * digest a caller asks for is never consulted.
 *
 * The quorum predicates fetch the cached quorum set first and fail with
 * `QuorumSetNotFound` when the slot is empty.
 */
module ScpNode {
  import opened Wrappers
  import opened QuorumSets
  import opened FederatedVoting

  /** The only cache key the node ever uses. */
  const SLOT: nat := 0

  class Node {
    /** This node's identifier. */
    const nodeId: NodeId
    /** The quorum-set cache, keyed; only key `SLOT` is ever written or read. */
    var cache: map<nat, QuorumSet>

    /** The cache holds at most the one slot. */
    ghost predicate Valid()
      reads this
    {
      cache.Keys <= {SLOT}
    }

    constructor (nodeId: NodeId)
      ensures this.nodeId == nodeId
      ensures cache == map[] && Valid()
    {
      this.nodeId := nodeId;
      cache := map[];
    }

    /**
     * The cached quorum set, whatever digest is asked for; an empty slot
     * raises `QuorumSetNotFound` naming this node and the requested digest.
     */
    method RetrieveQuorumSet(hash: Hash) returns (r: Result<QuorumSet, Error>)
      ensures r.Success? <==> SLOT in cache
      ensures r.Success? ==> r.value == cache[SLOT]
      ensures r.Failure? ==> r.error == QuorumSetNotFound(nodeId, hash)
    {
      if SLOT in cache {
        return Success(cache[SLOT]);
      }
      return Failure(QuorumSetNotFound(nodeId, hash));
    }

    /** Store `q` in the slot, replacing what was there: every later retrieval yields `q`. */
    method CacheQuorumSet(q: QuorumSet)
      requires Valid()
      modifies this
      ensures Valid()
      ensures cache == map[SLOT := q]
    {
      cache := cache[SLOT := q];
    }

    /** The number of cached quorum sets: at most one. */
    method GetCachedQuorumSetCount() returns (n: nat)
      requires Valid()
      ensures n == |cache|
      ensures n <= 1
      ensures n == 1 <==> SLOT in cache
    {
      assert cache.Keys <= {SLOT};
      n := |cache|;
      assert n == |cache.Keys|;
      if SLOT in cache {
        assert cache.Keys == {SLOT};
      } else {
        assert cache.Keys == {};
      }
    }

    /**
     * Whether `nodeSet` contains a quorum slice for this node's quorum set:
     * at least `threshold` of its validators occur in `nodeSet`.
     */
    method HasQuorum(hash: Hash, nodeSet: seq<NodeId>) returns (r: Result<bool, Error>)
      ensures SLOT !in cache ==> r == Failure(QuorumSetNotFound(nodeId, hash))
      ensures SLOT in cache ==> r.Success? && (r.value <==> CountIn(cache[SLOT].validators, nodeSet) >= cache[SLOT].threshold)
      ensures SLOT in cache && cache[SLOT].threshold == 0 ==> r == Success(true)
    {
      var found := RetrieveQuorumSet(hash);
      if found.Failure? {
        return Failure(found.error);
      }
      var q := found.value;
      var count := CountPresent(q.validators, nodeSet);
      r := Success(count >= q.threshold);
    }

    /**
     * Whether `nodeSet` is v-blocking for this node's quorum set: false when
     * the threshold is 0, otherwise whether fewer than `threshold` validators
     * lie outside `nodeSet`.
     */
    method IsVBlocking(hash: Hash, nodeSet: seq<NodeId>) returns (r: Result<bool, Error>)
      ensures SLOT !in cache ==> r == Failure(QuorumSetNotFound(nodeId, hash))
      ensures SLOT in cache && cache[SLOT].threshold == 0 ==> r == Success(false)
      ensures SLOT in cache && cache[SLOT].threshold > 0 ==>
        r == Success(|cache[SLOT].validators| - CountIn(cache[SLOT].validators, nodeSet) < cache[SLOT].threshold)
      ensures r.Success? ==> (r.value <==> IsVBlockingSet(cache[SLOT], nodeSet))
    {
      var found := RetrieveQuorumSet(hash);
      if found.Failure? {
        return Failure(found.error);
      }
      var q := found.value;
      if q.threshold == 0 {
        return Success(false);
      }
      var count := CountPresent(q.validators, nodeSet);
      var outside: nat := |q.validators| - count;
      r := Success(outside < q.threshold);
    }

    /**
     * The v-blocking test over the senders of `m` whose statement passes
     * `filter`, taken in map order.
     */
    method IsVBlockingFiltered<T>(hash: Hash, m: seq<Entry<T>>, filter: (NodeId, T) -> bool) returns (r: Result<bool, Error>)
      ensures SLOT !in cache ==> r == Failure(QuorumSetNotFound(nodeId, hash))
      ensures SLOT in cache ==> r == Success(IsVBlockingSet(cache[SLOT], FilterKeys(m, filter)))
    {
      var nodes := CollectFiltered(m, filter);
      r := IsVBlocking(hash, nodes);
    }

    /**
     * Federated voting: starting from the senders of `m` that pass `filter`,
     * drop every node whose own quorum set (as `quorumOf` resolves it) is not
     * satisfied by the current set, round after round, until a round drops
     * nothing; then ask whether that set is a quorum for this node. The
     * first unresolvable quorum set, of a peer or of this node, is the error.
     */
    method IsQuorumTransitive<T>(hash: Hash, m: seq<Entry<T>>, quorumOf: NodeId -> Result<QuorumSet, Error>,
                                 filter: (NodeId, T) -> bool) returns (r: Result<bool, Error>)
      ensures Closure(FilterKeys(m, filter), quorumOf).Failure? ==>
        r == Failure(Closure(FilterKeys(m, filter), quorumOf).error)
      ensures Closure(FilterKeys(m, filter), quorumOf).Success? && SLOT !in cache ==>
        r == Failure(QuorumSetNotFound(nodeId, hash))
      ensures Closure(FilterKeys(m, filter), quorumOf).Success? && SLOT in cache ==>
        r == Success(SatisfiesQuorum(cache[SLOT], Closure(FilterKeys(m, filter), quorumOf).value))
    {
      var nodes := CollectFiltered(m, filter);
      ghost var start := nodes;
      while true
        invariant Closure(nodes, quorumOf) == Closure(start, quorumOf)
        decreases |nodes|
      {
        var count := |nodes|;
        var kept := KeepQuorateNodes(nodes, quorumOf);
        if kept.Failure? {
          return Failure(kept.error);
        }
        assert Closure(nodes, quorumOf) == if |kept.value| == count then kept else Closure(kept.value, quorumOf);
        nodes := kept.value;
        if count == |nodes| {
          break;
        }
      }
      r := HasQuorum(hash, nodes);
    }
  }
}
