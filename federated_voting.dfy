/**
 * The two set computations a node runs over the statements it has received
 * from its peers: selecting the senders whose statement passes a filter (in
 * the map's key order) and the federated-voting closure, which repeatedly
 * drops every sender whose own quorum set is not satisfied by the current
 * set until the set stops shrinking.
 *
 * The specification functions are recursive over a prefix so that the
 * methods, whose loops walk the lists front to back, are proved against them
 * with the prefix as loop invariant.
 */
module FederatedVoting {
  import opened Wrappers
  import opened QuorumSets

  /** One entry of the ordered statement map: the sender and its statement. */
  datatype Entry<T> = Entry(id: NodeId, statement: T)

  /** The map's keys strictly increase, as the iteration order of an ordered map guarantees. */
  predicate OrderedKeys<T>(m: seq<Entry<T>>) {
    forall i, j :: 0 <= i < j < |m| ==> m[i].id < m[j].id
  }

  /** The list strictly increases (so in particular has no repetition). */
  predicate Increasing(s: seq<NodeId>) {
    forall i, j :: 0 <= i < j < |s| ==> s[i] < s[j]
  }

  /** The keys of `m` whose entry passes `filter`, in map order. */
  function FilterKeys<T>(m: seq<Entry<T>>, filter: (NodeId, T) -> bool): (keys: seq<NodeId>)
    ensures |keys| <= |m|
  {
    if m == [] then []
    else
      var last := m[|m| - 1];
      FilterKeys(m[..|m| - 1], filter) + (if filter(last.id, last.statement) then [last.id] else [])
  }

  /** A node is selected exactly when some entry with its id passes the filter. */
  lemma {:induction false} FilterKeysMembers<T>(m: seq<Entry<T>>, filter: (NodeId, T) -> bool, x: NodeId)
    ensures x in FilterKeys(m, filter) <==> exists i :: 0 <= i < |m| && m[i].id == x && filter(x, m[i].statement)
  {
    if m != [] {
      var init := m[..|m| - 1];
      FilterKeysMembers(init, filter, x);
      if x in FilterKeys(init, filter) {
        var i :| 0 <= i < |init| && init[i].id == x && filter(x, init[i].statement);
        assert m[i] == init[i];
      }
      if exists i :: 0 <= i < |m| && m[i].id == x && filter(x, m[i].statement) {
        var i :| 0 <= i < |m| && m[i].id == x && filter(x, m[i].statement);
        if i < |m| - 1 {
          assert init[i] == m[i];
        }
      }
    }
  }

  /** Over an ordered map the selected keys come out in increasing key order, without repetition. */
  lemma {:induction false} FilterKeysOrdered<T>(m: seq<Entry<T>>, filter: (NodeId, T) -> bool)
    requires OrderedKeys(m)
    ensures Increasing(FilterKeys(m, filter))
  {
    if m != [] {
      var init := m[..|m| - 1];
      FilterKeysOrdered(init, filter);
      var last := m[|m| - 1];
      var before := FilterKeys(init, filter);
      forall k | 0 <= k < |before|
        ensures before[k] < last.id
      {
        FilterKeysMembers(init, filter, before[k]);
        var i :| 0 <= i < |init| && init[i].id == before[k] && filter(before[k], init[i].statement);
        assert m[i] == init[i];
      }
    }
  }

  /** Node `n` has a quorum set and the list `p` satisfies it. */
  predicate Quorate(quorumOf: NodeId -> Result<QuorumSet, Error>, n: NodeId, p: seq<NodeId>) {
    quorumOf(n).Success? && SatisfiesQuorum(quorumOf(n).value, p)
  }

  /**
   * The nodes of `xs`, in order, whose own quorum set is satisfied by `p`.
   * The first node of `xs` without a quorum set aborts with its error.
   */
  function KeepQuorate(xs: seq<NodeId>, p: seq<NodeId>, quorumOf: NodeId -> Result<QuorumSet, Error>): (r: Result<seq<NodeId>, Error>)
    ensures r.Success? ==> |r.value| <= |xs|
  {
    if xs == [] then Success([])
    else
      var n := xs[|xs| - 1];
      match KeepQuorate(xs[..|xs| - 1], p, quorumOf)
      case Failure(e) => Failure(e)
      case Success(kept) =>
        match quorumOf(n)
        case Failure(e) => Failure(e)
        case Success(q) => Success(kept + (if SatisfiesQuorum(q, p) then [n] else []))
  }

  /**
   * What one round of the closure keeps: it fails exactly when some node of
   * `xs` has no quorum set, with the error of the first such node; otherwise
   * it keeps exactly the nodes of `xs` that are quorate in `p`, and when it
   * keeps as many nodes as it was given it has kept all of them.
   */
  lemma KeepQuorateSpec(xs: seq<NodeId>, p: seq<NodeId>, quorumOf: NodeId -> Result<QuorumSet, Error>)
    ensures KeepQuorate(xs, p, quorumOf).Success? <==> forall n :: n in xs ==> quorumOf(n).Success?
    ensures KeepQuorate(xs, p, quorumOf).Failure? ==>
      exists i :: 0 <= i < |xs| && quorumOf(xs[i]) == Failure(KeepQuorate(xs, p, quorumOf).error)
        && forall j :: 0 <= j < i ==> quorumOf(xs[j]).Success?
    ensures KeepQuorate(xs, p, quorumOf).Success? ==>
      forall n :: n in KeepQuorate(xs, p, quorumOf).value <==> n in xs && Quorate(quorumOf, n, p)
    ensures KeepQuorate(xs, p, quorumOf).Success? && |KeepQuorate(xs, p, quorumOf).value| == |xs| ==>
      KeepQuorate(xs, p, quorumOf).value == xs
  {
    KeepQuorateFailure(xs, p, quorumOf);
    KeepQuorateMembers(xs, p, quorumOf);
  }

  /** The failure half of `KeepQuorateSpec`. */
  lemma {:induction false} KeepQuorateFailure(xs: seq<NodeId>, p: seq<NodeId>, quorumOf: NodeId -> Result<QuorumSet, Error>)
    ensures KeepQuorate(xs, p, quorumOf).Success? <==> forall n :: n in xs ==> quorumOf(n).Success?
    ensures KeepQuorate(xs, p, quorumOf).Failure? ==>
      exists i :: 0 <= i < |xs| && quorumOf(xs[i]) == Failure(KeepQuorate(xs, p, quorumOf).error)
        && forall j :: 0 <= j < i ==> quorumOf(xs[j]).Success?
  {
    if xs != [] {
      var init := xs[..|xs| - 1];
      var n := xs[|xs| - 1];
      KeepQuorateFailure(init, p, quorumOf);
      assert xs == init + [n];
      var r := KeepQuorate(xs, p, quorumOf);
      if r.Failure? {
        if KeepQuorate(init, p, quorumOf).Failure? {
          var i :| 0 <= i < |init| && quorumOf(init[i]) == Failure(r.error)
            && forall j :: 0 <= j < i ==> quorumOf(init[j]).Success?;
          assert xs[i] == init[i];
          assert forall j :: 0 <= j < i ==> xs[j] == init[j];
        } else {
          assert forall j :: 0 <= j < |init| ==> xs[j] == init[j] && init[j] in init;
        }
      }
    }
  }

  /** The success half of `KeepQuorateSpec`: what a successful round keeps. */
  lemma {:induction false} KeepQuorateMembers(xs: seq<NodeId>, p: seq<NodeId>, quorumOf: NodeId -> Result<QuorumSet, Error>)
    ensures KeepQuorate(xs, p, quorumOf).Success? ==>
      forall n :: n in KeepQuorate(xs, p, quorumOf).value <==> n in xs && Quorate(quorumOf, n, p)
    ensures KeepQuorate(xs, p, quorumOf).Success? && |KeepQuorate(xs, p, quorumOf).value| == |xs| ==>
      KeepQuorate(xs, p, quorumOf).value == xs
  {
    if xs != [] {
      var init := xs[..|xs| - 1];
      var n := xs[|xs| - 1];
      KeepQuorateMembers(init, p, quorumOf);
      assert xs == init + [n];
      var r := KeepQuorate(xs, p, quorumOf);
      if r.Success? {
        var kept := KeepQuorate(init, p, quorumOf).value;
        var q := quorumOf(n).value;
        assert r.value == kept + (if SatisfiesQuorum(q, p) then [n] else []);
        assert Quorate(quorumOf, n, p) <==> SatisfiesQuorum(q, p);
      }
    }
  }

  /** Once a prefix of `xs` fails, the whole round fails with the same error. */
  lemma {:induction false} KeepQuorateFailsFromPrefix(xs: seq<NodeId>, k: nat, p: seq<NodeId>, quorumOf: NodeId -> Result<QuorumSet, Error>)
    requires k <= |xs|
    requires KeepQuorate(xs[..k], p, quorumOf).Failure?
    ensures KeepQuorate(xs, p, quorumOf) == KeepQuorate(xs[..k], p, quorumOf)
    decreases |xs| - k
  {
    if k < |xs| {
      var init := xs[..|xs| - 1];
      assert init[..k] == xs[..k];
      KeepQuorateFailsFromPrefix(init, k, p, quorumOf);
    } else {
      assert xs[..k] == xs;
    }
  }

  /** A list all of whose nodes are quorate in `p` passes a round unchanged. */
  lemma {:induction false} KeepQuorateKeepsAll(xs: seq<NodeId>, p: seq<NodeId>, quorumOf: NodeId -> Result<QuorumSet, Error>)
    requires forall n :: n in xs ==> Quorate(quorumOf, n, p)
    ensures KeepQuorate(xs, p, quorumOf) == Success(xs)
  {
    if xs != [] {
      var init := xs[..|xs| - 1];
      assert forall n :: n in init ==> n in xs;
      KeepQuorateKeepsAll(init, p, quorumOf);
      assert Quorate(quorumOf, xs[|xs| - 1], p);
      assert xs == init + [xs[|xs| - 1]];
    }
  }

  /** One round: keep the nodes of `p` that are quorate in `p` itself. */
  function Round(p: seq<NodeId>, quorumOf: NodeId -> Result<QuorumSet, Error>): (r: Result<seq<NodeId>, Error>)
    ensures r.Success? <==> forall n :: n in p ==> quorumOf(n).Success?
    ensures r.Success? ==> forall n :: n in r.value <==> n in p && Quorate(quorumOf, n, p)
  {
    KeepQuorateSpec(p, p, quorumOf);
    KeepQuorate(p, p, quorumOf)
  }

  /**
   * The federated-voting closure of `p`: apply rounds until a round keeps
   * as many nodes as it was given. It never grows.
   */
  function Closure(p: seq<NodeId>, quorumOf: NodeId -> Result<QuorumSet, Error>): (r: Result<seq<NodeId>, Error>)
    ensures r.Success? ==> |r.value| <= |p|
    decreases |p|
  {
    match Round(p, quorumOf)
    case Failure(e) => Failure(e)
    case Success(kept) => if |kept| == |p| then Success(kept) else Closure(kept, quorumOf)
  }

  /**
   * The closure fails exactly when some node of `p` has no quorum set: later
   * rounds only look at nodes the first round already resolved.
   */
  lemma {:induction false} ClosureFailsOnlyOnUnknown(p: seq<NodeId>, quorumOf: NodeId -> Result<QuorumSet, Error>)
    ensures Closure(p, quorumOf).Failure? <==> exists n :: n in p && quorumOf(n).Failure?
    decreases |p|
  {
    KeepQuorateSpec(p, p, quorumOf);
    match Round(p, quorumOf)
    case Failure(e) =>
    case Success(kept) =>
      if |kept| != |p| {
        ClosureFailsOnlyOnUnknown(kept, quorumOf);
      }
  }

  /**
   * The closure is quorum-closed: it is made of nodes of `p`, and each of its
   * nodes has a quorum set that the closure itself satisfies.
   */
  lemma {:induction false} ClosureIsQuorumClosed(p: seq<NodeId>, quorumOf: NodeId -> Result<QuorumSet, Error>)
    requires Closure(p, quorumOf).Success?
    ensures Within(Closure(p, quorumOf).value, p)
    ensures forall n :: n in Closure(p, quorumOf).value ==> Quorate(quorumOf, n, Closure(p, quorumOf).value)
    decreases |p|
  {
    KeepQuorateSpec(p, p, quorumOf);
    var kept := Round(p, quorumOf).value;
    if |kept| != |p| {
      ClosureIsQuorumClosed(kept, quorumOf);
    }
  }

  /**
   * The closure is the largest quorum-closed part of `p`: every list of nodes
   * of `p` whose members are all quorate in it lies within the closure.
   */
  lemma {:induction false} ClosureIsMaximal(p: seq<NodeId>, quorumOf: NodeId -> Result<QuorumSet, Error>, q: seq<NodeId>)
    requires Closure(p, quorumOf).Success?
    requires Within(q, p)
    requires forall n :: n in q ==> Quorate(quorumOf, n, q)
    ensures Within(q, Closure(p, quorumOf).value)
    decreases |p|
  {
    KeepQuorateSpec(p, p, quorumOf);
    var kept := Round(p, quorumOf).value;
    forall n | n in q
      ensures n in kept
    {
      Monotone(quorumOf(n).value, q, p);
    }
    if |kept| != |p| {
      ClosureIsMaximal(kept, quorumOf, q);
    }
  }

  /** Running the closure again on its own result reproduces that result. */
  lemma ClosureIdempotent(p: seq<NodeId>, quorumOf: NodeId -> Result<QuorumSet, Error>)
    requires Closure(p, quorumOf).Success?
    ensures Closure(Closure(p, quorumOf).value, quorumOf) == Closure(p, quorumOf)
  {
    var fixed := Closure(p, quorumOf).value;
    ClosureIsQuorumClosed(p, quorumOf);
    KeepQuorateKeepsAll(fixed, fixed, quorumOf);
  }

  /**
   * Collect the keys of `m` that pass `filter`, walking the map in order and
   * appending each selected key.
   */
  method CollectFiltered<T>(m: seq<Entry<T>>, filter: (NodeId, T) -> bool) returns (nodes: seq<NodeId>)
    ensures nodes == FilterKeys(m, filter)
  {
    nodes := [];
    var i := 0;
    while i < |m|
      invariant 0 <= i <= |m|
      invariant nodes == FilterKeys(m[..i], filter)
    {
      assert m[..i + 1][..i] == m[..i];
      if filter(m[i].id, m[i].statement) {
        nodes := nodes + [m[i].id];
      }
      i := i + 1;
    }
    assert m[..i] == m;
  }

  /** Count the validators present in `nodeSet`, one validator at a time. */
  method CountPresent(validators: seq<NodeId>, nodeSet: seq<NodeId>) returns (count: nat)
    ensures count == CountIn(validators, nodeSet)
    ensures count <= |validators|
  {
    count := 0;
    var i := 0;
    while i < |validators|
      invariant 0 <= i <= |validators|
      invariant count == CountIn(validators[..i], nodeSet)
    {
      assert validators[..i + 1][..i] == validators[..i];
      count := count + (if validators[i] in nodeSet then 1 else 0);
      i := i + 1;
    }
    assert validators[..i] == validators;
  }

  /**
   * One round of the closure: copy the nodes of `p` whose own quorum set is
   * satisfied by `p`, in order, failing at the first node without a quorum set.
   */
  method KeepQuorateNodes(p: seq<NodeId>, quorumOf: NodeId -> Result<QuorumSet, Error>) returns (r: Result<seq<NodeId>, Error>)
    ensures r == Round(p, quorumOf)
  {
    var kept: seq<NodeId> := [];
    var i := 0;
    while i < |p|
      invariant 0 <= i <= |p|
      invariant KeepQuorate(p[..i], p, quorumOf) == Success(kept)
    {
      assert p[..i + 1][..i] == p[..i] && p[..i + 1][i] == p[i];
      var found := quorumOf(p[i]);
      if found.Failure? {
        KeepQuorateFailsFromPrefix(p, i + 1, p, quorumOf);
        return Failure(found.error);
      }
      var count := CountPresent(found.value.validators, p);
      if count >= found.value.threshold {
        kept := kept + [p[i]];
      } else {
        assert kept + [] == kept;
      }
      i := i + 1;
    }
    assert p[..i] == p;
    r := Success(kept);
  }
}
