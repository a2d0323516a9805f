/**
 * The peer-selection step of an item tracker, as a function of the
 * tracker's pursuit state and of what the overlay answers.
 *
 * A tracker remembers the peers it has asked (most recent last), the peer
 * it asked last, its pending retry timer and, here, the log of requests it
 * has sent. One step walks the history backwards asking the overlay for the
 * peer after each remembered one, dropping remembered peers the overlay no
 * longer knows; with no history it takes a random connected peer instead. A
 * peer it has not asked yet is sent a request; either way a found peer arms
 * the short retry timer. Finding no peer clears the history and arms the
 * long backoff timer.
 */
module FetchSteps {
  import opened Wrappers

  /** A connected peer. */
  type PeerId = nat

  /** Milliseconds to wait for a reply before trying the next peer. */
  const REPLY_WAIT_MS: nat := 500

  /** Milliseconds to back off once every peer has been tried. */
  const BACKOFF_MS: nat := REPLY_WAIT_MS * 2

  /** What a tracker knows about its search for the item. */
  datatype Pursuit = Pursuit(
    asked: seq<PeerId>,          // peers asked so far, most recent last
    lastAsked: Option<PeerId>,   // the peer asked most recently
    timer: Option<nat>,          // the armed retry delay in milliseconds, if a timer is pending
    requests: seq<PeerId>)       // every peer sent a request for the item, in order

  /** No peer appears twice. */
  predicate Distinct(s: seq<PeerId>) {
    forall i, j :: 0 <= i < j < |s| ==> s[i] != s[j]
  }

  /** The history has no repetition and every peer in it was sent a request. */
  predicate Sound(s: Pursuit) {
    Distinct(s.asked) && forall p :: p in s.asked ==> p in s.requests
  }

  /**
   * Walk the history backwards: ask `nextPeer` about the most recent peer,
   * and drop that peer while the answer is none. Returns what is left of the
   * history and the peer found, if any.
   */
  function Walk(asked: seq<PeerId>, nextPeer: PeerId -> Option<PeerId>): (r: (seq<PeerId>, Option<PeerId>))
    ensures |r.0| <= |asked| && r.0 == asked[..|r.0|]
    ensures r.1.None? ==> r.0 == []
    ensures r.1.Some? ==> r.0 != [] && nextPeer(r.0[|r.0| - 1]) == r.1
    ensures forall j :: |r.0| <= j < |asked| ==> nextPeer(asked[j]).None?
  {
    if asked == [] then ([], None)
    else
      match nextPeer(asked[|asked| - 1])
      case Some(p) => (asked, Some(p))
      case None => Walk(asked[..|asked| - 1], nextPeer)
  }

  /**
   * The candidate peer: from the history when there is one, otherwise the
   * random peer. An exhausted history does not fall back to a random peer.
   */
  function Candidate(asked: seq<PeerId>, nextPeer: PeerId -> Option<PeerId>, randomPeer: Option<PeerId>): (r: (seq<PeerId>, Option<PeerId>))
    ensures |r.0| <= |asked| && r.0 == asked[..|r.0|]
    ensures asked != [] && r.1.None? ==> r.0 == []
    ensures asked != [] && r.1.Some? ==> r.0 != [] && nextPeer(r.0[|r.0| - 1]) == r.1
    ensures asked == [] ==> r.1 == randomPeer
  {
    if asked != [] then Walk(asked, nextPeer) else ([], randomPeer)
  }

  /** One retry step of a tracker whose item is still missing and still wanted. */
  function TryStep(s: Pursuit, nextPeer: PeerId -> Option<PeerId>, randomPeer: Option<PeerId>): (t: Pursuit)
    ensures t.timer == Some(REPLY_WAIT_MS) || t.timer == Some(BACKOFF_MS)
    ensures t.requests == s.requests || (t.lastAsked.Some? && t.requests == s.requests + [t.lastAsked.value])
    ensures |t.asked| <= |s.asked| + 1
  {
    var (rest, peer) := Candidate(s.asked, nextPeer, randomPeer);
    match peer
    case None => s.(asked := [], timer := Some(BACKOFF_MS))
    case Some(p) =>
      if p in rest then s.(asked := rest, timer := Some(REPLY_WAIT_MS))
      else s.(asked := rest + [p], lastAsked := Some(p), timer := Some(REPLY_WAIT_MS), requests := s.requests + [p])
  }

  /**
   * A step keeps the history free of repetition and every remembered peer
   * asked, and never sends more than one request. A request goes to a peer
   * not in the history kept so far, which then ends the history and becomes
   * the last-asked peer; without a request, the history only lost peers
   * from its tail.
   */
  lemma TryStepSound(s: Pursuit, nextPeer: PeerId -> Option<PeerId>, randomPeer: Option<PeerId>)
    requires Sound(s)
    ensures Sound(TryStep(s, nextPeer, randomPeer))
    ensures var t := TryStep(s, nextPeer, randomPeer);
      (t.requests == s.requests && t.asked == s.asked[..|t.asked|] && t.lastAsked == s.lastAsked) ||
      (exists p :: t.requests == s.requests + [p] && t.lastAsked == Some(p) && |t.asked| >= 1
         && t.asked == s.asked[..|t.asked| - 1] + [p] && p !in s.asked[..|t.asked| - 1])
  {
  }

  /** The timer is always re-armed: short when a peer was found, long when none was. */
  lemma TryStepArmsTimer(s: Pursuit, nextPeer: PeerId -> Option<PeerId>, randomPeer: Option<PeerId>)
    ensures var t := TryStep(s, nextPeer, randomPeer);
      (t.timer == Some(BACKOFF_MS) <==> Candidate(s.asked, nextPeer, randomPeer).1.None?)
      && (t.timer == Some(REPLY_WAIT_MS) <==> Candidate(s.asked, nextPeer, randomPeer).1.Some?)
    ensures var t := TryStep(s, nextPeer, randomPeer);
      t.timer == Some(BACKOFF_MS) ==> t.asked == [] && t.requests == s.requests && t.lastAsked == s.lastAsked
  {
  }

  /**
   * When every remembered peer is gone, the step clears the history and
   * backs off, sending nothing, whatever random peer is available.
   */
  lemma ExhaustedHistoryBacksOff(s: Pursuit, nextPeer: PeerId -> Option<PeerId>, randomPeer: Option<PeerId>)
    requires s.asked != []
    requires forall p :: p in s.asked ==> nextPeer(p).None?
    ensures TryStep(s, nextPeer, randomPeer) == s.(asked := [], timer := Some(BACKOFF_MS))
  {
  }

  /**
   * With a non-empty history the random peer is never consulted; with an
   * empty one the step asks the random peer, or backs off when there is none.
   */
  lemma FirstAttemptUsesRandomPeer(s: Pursuit, nextPeer: PeerId -> Option<PeerId>, randomPeer: Option<PeerId>, otherRandom: Option<PeerId>)
    ensures s.asked != [] ==> TryStep(s, nextPeer, randomPeer) == TryStep(s, nextPeer, otherRandom)
    ensures s.asked == [] && randomPeer.Some? ==>
      TryStep(s, nextPeer, randomPeer) == s.(asked := [randomPeer.value], lastAsked := randomPeer,
                                             timer := Some(REPLY_WAIT_MS), requests := s.requests + [randomPeer.value])
    ensures s.asked == [] && randomPeer.None? ==>
      TryStep(s, nextPeer, randomPeer) == s.(timer := Some(BACKOFF_MS))
  {
  }

  /**
   * When the peer after the most recent one is reachable, no remembered peer
   * is dropped; it is asked if it is new, and otherwise only the timer moves.
   */
  lemma ReachableSuccessor(s: Pursuit, nextPeer: PeerId -> Option<PeerId>, randomPeer: Option<PeerId>, p: PeerId)
    requires s.asked != [] && nextPeer(s.asked[|s.asked| - 1]) == Some(p)
    ensures p !in s.asked ==> (TryStep(s, nextPeer, randomPeer) ==
      s.(asked := s.asked + [p], lastAsked := Some(p), timer := Some(REPLY_WAIT_MS), requests := s.requests + [p]))
    ensures p in s.asked ==> TryStep(s, nextPeer, randomPeer) == s.(timer := Some(REPLY_WAIT_MS))
  {
  }
}
