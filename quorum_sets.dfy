/**
 * The flat quorum sets of the consensus protocol and the two counting
 * predicates a node evaluates against them: "this node list contains a
 * quorum slice" and "this node list is v-blocking".
 *
 * A quorum set is a threshold over a list of validators. Both predicates
 * count how many validators occur in the node list; they differ only in what
 * they compare that count with.
 */
module QuorumSets {

  /** A node identifier (a 256-bit public key in the system); only equality is used. */
  type NodeId = nat

  /** A digest naming a quorum set. */
  type Hash = nat

  /**
   * A quorum set: `threshold` of the `validators` must agree. The validator
   * list is taken as the node stores it, so a validator listed twice is
   * counted twice.
   */
  datatype QuorumSet = QuorumSet(threshold: nat, validators: seq<NodeId>)

  /** The one error of the quorum layer: the node has no quorum set to evaluate. */
  datatype Error = QuorumSetNotFound(node: NodeId, hash: Hash)

  /**
   * How many entries of `validators` occur in `nodeSet`. Each entry adds at
   * most one, so the count never exceeds the number of validators: the
   * subtraction `|validators| - count` of the v-blocking test cannot
   * underflow.
   */
  function CountIn(validators: seq<NodeId>, nodeSet: seq<NodeId>): (count: nat)
    ensures count <= |validators|
  {
    if validators == [] then 0
    else
      var last := validators[|validators| - 1];
      CountIn(validators[..|validators| - 1], nodeSet) + (if last in nodeSet then 1 else 0)
  }

  /** `nodeSet` contains a quorum slice of `q`: at least `threshold` of its validators. */
  predicate SatisfiesQuorum(q: QuorumSet, nodeSet: seq<NodeId>)
    ensures q.threshold == 0 ==> SatisfiesQuorum(q, nodeSet)
    ensures q.threshold > |q.validators| ==> !SatisfiesQuorum(q, nodeSet)
  {
    CountIn(q.validators, nodeSet) >= q.threshold
  }

  /**
   * `nodeSet` is v-blocking for `q`: the validators outside `nodeSet` are
   * fewer than the threshold. A quorum set with threshold 0 has no
   * v-blocking set.
   */
  predicate IsVBlockingSet(q: QuorumSet, nodeSet: seq<NodeId>)
    ensures IsVBlockingSet(q, nodeSet) <==>
      q.threshold != 0 && CountIn(q.validators, Outside(q.validators, nodeSet)) < q.threshold
  {
    CountOutside(q.validators, nodeSet);
    q.threshold != 0 && |q.validators| - CountIn(q.validators, nodeSet) < q.threshold
  }

  /** Every node of `a` is also in `b` (list inclusion, ignoring order and repetition). */
  predicate Within(a: seq<NodeId>, b: seq<NodeId>) {
    forall x :: x in a ==> x in b
  }

  /** No node of `a` is in `b`. */
  predicate Disjoint(a: seq<NodeId>, b: seq<NodeId>) {
    forall x :: x in a ==> x !in b
  }

  /** The validators that are not in `nodeSet`, in order. */
  function Outside(validators: seq<NodeId>, nodeSet: seq<NodeId>): (rest: seq<NodeId>)
    ensures forall x :: x in rest <==> x in validators && x !in nodeSet
  {
    if validators == [] then []
    else
      var last := validators[|validators| - 1];
      Outside(validators[..|validators| - 1], nodeSet) + (if last in nodeSet then [] else [last])
  }

  /** Adding nodes to the list never lowers the count. */
  lemma {:induction false} CountMonotone(validators: seq<NodeId>, a: seq<NodeId>, b: seq<NodeId>)
    requires Within(a, b)
    ensures CountIn(validators, a) <= CountIn(validators, b)
  {
    if validators != [] {
      CountMonotone(validators[..|validators| - 1], a, b);
    }
  }

  /** Two lists that agree on which validators they contain give the same count. */
  lemma {:induction false} CountAgrees(validators: seq<NodeId>, a: seq<NodeId>, b: seq<NodeId>)
    requires forall v :: v in validators ==> (v in a <==> v in b)
    ensures CountIn(validators, a) == CountIn(validators, b)
  {
    if validators != [] {
      CountAgrees(validators[..|validators| - 1], a, b);
    }
  }

  /**
   * Counting in a list and in a list disjoint from it: together they never
   * cover a validator twice.
   */
  lemma {:induction false} CountDisjoint(validators: seq<NodeId>, s: seq<NodeId>, t: seq<NodeId>)
    requires Disjoint(t, s)
    ensures CountIn(validators, s) + CountIn(validators, t) <= |validators|
  {
    if validators != [] {
      CountDisjoint(validators[..|validators| - 1], s, t);
    }
  }

  /** The validators outside `s` are counted exactly `|validators| - CountIn(validators, s)` times. */
  lemma {:induction false} CountOutside(validators: seq<NodeId>, s: seq<NodeId>)
    ensures CountIn(validators, Outside(validators, s)) == |validators| - CountIn(validators, s)
  {
    var all := Outside(validators, s);
    if validators != [] {
      var init := validators[..|validators| - 1];
      CountOutside(init, s);
      CountAgrees(init, Outside(init, s), all);
    }
  }

  /** Every validator in the list: the count is the number of validators. */
  lemma {:induction false} CountAll(validators: seq<NodeId>, s: seq<NodeId>)
    requires Within(validators, s)
    ensures CountIn(validators, s) == |validators|
  {
    if validators != [] {
      CountAll(validators[..|validators| - 1], s);
    }
  }

  /** No validator in the list: the count is zero. */
  lemma {:induction false} CountNone(validators: seq<NodeId>, s: seq<NodeId>)
    requires Disjoint(validators, s)
    ensures CountIn(validators, s) == 0
  {
    if validators != [] {
      CountNone(validators[..|validators| - 1], s);
    }
  }

  /** With threshold 0 every list, the empty one included, is a quorum, and none is v-blocking. */
  lemma ThresholdZero(q: QuorumSet, nodeSet: seq<NodeId>)
    requires q.threshold == 0
    ensures SatisfiesQuorum(q, nodeSet)
    ensures !IsVBlockingSet(q, nodeSet)
  {
  }

  /** Both predicates are monotone: a superset of a quorum is a quorum, of a v-blocking set v-blocking. */
  lemma Monotone(q: QuorumSet, a: seq<NodeId>, b: seq<NodeId>)
    requires Within(a, b)
    ensures SatisfiesQuorum(q, a) ==> SatisfiesQuorum(q, b)
    ensures IsVBlockingSet(q, a) ==> IsVBlockingSet(q, b)
  {
    CountMonotone(q.validators, a, b);
  }

  /**
   * The meaning of v-blocking: `s` is v-blocking for `q` exactly when every
   * node list that avoids `s` fails to satisfy `q`, i.e. no quorum slice can
   * be formed without a member of `s`. For threshold 0 the empty list is a
   * slice that avoids everything, which is why no set is v-blocking then.
   */
  lemma VBlockingMeetsEveryQuorum(q: QuorumSet, s: seq<NodeId>)
    ensures IsVBlockingSet(q, s) <==> forall t :: Disjoint(t, s) ==> !SatisfiesQuorum(q, t)
  {
    if IsVBlockingSet(q, s) {
      forall t | Disjoint(t, s)
        ensures !SatisfiesQuorum(q, t)
      {
        CountDisjoint(q.validators, s, t);
      }
    } else {
      var t := Outside(q.validators, s);
      CountOutside(q.validators, s);
      assert Disjoint(t, s) && SatisfiesQuorum(q, t);
    }
  }

  /** If any threshold is required, the whole validator list is v-blocking. */
  lemma AllValidatorsBlock(q: QuorumSet)
    requires q.threshold > 0
    ensures IsVBlockingSet(q, q.validators)
    ensures SatisfiesQuorum(q, q.validators) <==> q.threshold <= |q.validators|
  {
    CountAll(q.validators, q.validators);
  }

  /**
   * The empty list is never v-blocking for a well-formed quorum set (one whose
   * threshold does not exceed its validator count), and satisfies it only when
   * the threshold is 0.
   */
  lemma EmptyListNeverBlocks(q: QuorumSet)
    requires q.threshold <= |q.validators|
    ensures !IsVBlockingSet(q, [])
    ensures SatisfiesQuorum(q, []) <==> q.threshold == 0
  {
    CountNone(q.validators, []);
  }

  /** Threshold 2 over three validators A, B, C (here 1, 2, 3). */
  lemma TwoOfThree()
    ensures SatisfiesQuorum(QuorumSet(2, [1, 2, 3]), [1, 2])
    ensures !SatisfiesQuorum(QuorumSet(2, [1, 2, 3]), [1])
    ensures !IsVBlockingSet(QuorumSet(2, [1, 2, 3]), [3])
    ensures IsVBlockingSet(QuorumSet(2, [1, 2, 3]), [2, 3])
  {
    var v := [1, 2, 3];
    assert v[..2] == [1, 2] && v[..2][..1] == [1] && v[..2][..1][..0] == [];
  }
}
