# Quorum predicates and item fetching of a consensus node

This project models two parts of an early stellar-core in Dafny.

**The quorum side of the consensus protocol (SCP).** A node caches the flat
quorum set it declared: a `threshold` over a list of `validators`. The node
answers two questions about a list of nodes. Does the list contain a quorum
slice, i.e. at least `threshold` validators? Is the list v-blocking, i.e. do
fewer than `threshold` validators lie outside it? The v-blocking question also
has a filtered form: it is asked of the senders of an ordered statement map
whose statements pass a filter. The quorum question has no such form. Over a
map it is asked only at the end of the federated-voting test. That test repeatedly drops every sender whose own
quorum set the current sender list does not satisfy. When a round drops
nothing, it asks whether what is left is a quorum for the node. An empty
cache makes every question fail with `QuorumSetNotFound`.

**The overlay's item fetcher.** An `ItemFetcher` keeps one tracker per
wanted item (a quorum set or a transaction set). It holds each tracker only
weakly: callers own the tracker, and an entry whose tracker is gone is pruned
at the next lookup. A tracker asks one peer at a time. It walks back through
the peers it asked, looking for one whose successor the overlay still knows.
With no history, it takes a random peer. Each attempt re-arms a 500 ms retry
timer. Once no peer is left, it clears the history and waits 1000 ms. When
the item arrives, the tracker hands it to every registered callback in
order, then cancels itself.

Modules:

- `Wrappers`: `Option` and `Result`.
- `QuorumSets`: quorum sets, the counting predicates and their properties.
- `FederatedVoting`: filtered key selection, the federated-voting closure and
  its properties, and the loops that compute them.
- `ScpNode`: the `Node` class, with its single-slot quorum-set cache.
- `FetchSteps`: a tracker's peer-selection step as a pure function, with its
  properties.
- `ItemFetching`: the `Tracker` and `ItemFetcher` classes.

Modelling choices:

- Node ids, digests, peers and callbacks are natural numbers. Only their
  equality matters.
- An ordered `std::map` is a sequence of entries in iteration order.
- Other nodes' quorum sets are a parameter, `quorumOf`. This stands for
  `qfun` (the digest a statement names) together with the lookup of that
  node's cache.
- The overlay's `getNextPeer` and `getRandomPeer` are parameters.
- Asking a peer appends it to the tracker's `requests` log.
- The timer is the armed delay, or none. A timer firing is a call of
  `TryNextPeer`.
- Invoking callbacks is the returned sequence of `Delivery` values.
- The weak/strong pointer pair is a tracker's `alive` flag. Releasing the
  last strong handle is `ItemFetcher.Drop`, which runs the destructor
  (`cancel`).

The model follows the code as written, including these surprising
behaviours:

- `fetch` on an item that already has a tracker does not register the new
  callback.
- `recv` does not fill the item cache. Nothing in this code fills it.
- Once every remembered peer is gone, the tracker backs off. It does not
  fall back to a random peer.
- The quorum-set cache is keyed by the constant 0, not by the digest. It
  therefore holds at most one quorum set, whichever was stored last.

## Model

| member | source | states |
|---|---|---|
| QuorumSets.CountIn | src/scp/Node.cpp:33-38 | the number of validators found in the node list never exceeds the number of validators, so `size - count` in the v-blocking test cannot underflow |
| QuorumSets.CountMonotone | src/scp/Node.cpp:33-38 | adding nodes to the list never lowers the count |
| QuorumSets.CountAgrees | src/scp/Node.cpp:33-38 | two lists that contain the same validators give the same count |
| QuorumSets.CountDisjoint | src/scp/Node.cpp:61-67 | counts in two disjoint lists add up to at most the number of validators |
| QuorumSets.CountOutside | src/scp/Node.cpp:61-67 | the validators outside a list number exactly `size - count` |
| QuorumSets.CountAll | src/scp/Node.cpp:33-38 | a list containing every validator counts all of them |
| QuorumSets.CountNone | src/scp/Node.cpp:33-38 | a list containing no validator counts zero |
| QuorumSets.Outside | src/scp/Node.cpp:61-67 | exactly the validators not in the list |
| QuorumSets.SatisfiesQuorum | src/scp/Node.cpp:39 | threshold 0 is always satisfied; a threshold above the validator count never is |
| QuorumSets.IsVBlockingSet | src/scp/Node.cpp:55-67 | v-blocking iff the threshold is positive and the validators outside the list, counted directly, are fewer than the threshold |
| QuorumSets.ThresholdZero | src/scp/Node.cpp:55-59 | with threshold 0 every list (the empty one too) is a quorum and none is v-blocking |
| QuorumSets.Monotone | src/scp/Node.cpp:23-71 | a superset of a quorum is a quorum; a superset of a v-blocking list is v-blocking |
| QuorumSets.VBlockingMeetsEveryQuorum | src/scp/Node.cpp:45-71 | a list is v-blocking iff every list that avoids it fails to be a quorum slice (both directions) |
| QuorumSets.AllValidatorsBlock | src/scp/Node.cpp:45-71 | for a positive threshold the full validator list is v-blocking, and it is a quorum iff the threshold does not exceed the validator count |
| QuorumSets.EmptyListNeverBlocks | src/scp/Node.cpp:23-71 | for a threshold within the validator count, the empty list is never v-blocking and is a quorum iff the threshold is 0 |
| QuorumSets.TwoOfThree | src/scp/Node.cpp:23-71 | threshold 2 over {A,B,C}: {A,B} is a quorum, {A} is not, {C} is not v-blocking, {B,C} is |
| FederatedVoting.FilterKeys | src/scp/Node.cpp:78-85 | the selection is no longer than the map |
| FederatedVoting.FilterKeysMembers | src/scp/Node.cpp:78-85 | a node is selected iff some entry with its id passes the filter |
| FederatedVoting.FilterKeysOrdered | src/scp/Node.cpp:78-85 | over an ordered map the selected keys strictly increase (map order, no repetition) |
| FederatedVoting.CollectFiltered | src/scp/Node.cpp:105-112 | the loop collects exactly the filtered keys in map order |
| FederatedVoting.CountPresent | src/scp/Node.cpp:33-38 | the loop counts exactly the validators present in the list, and at most all of them |
| FederatedVoting.KeepQuorate | src/scp/Node.cpp:118-126 | a successful round keeps no more nodes than it was given |
| FederatedVoting.KeepQuorateSpec | src/scp/Node.cpp:118-126 | a round fails iff some node has no quorum set, with the first such node's error; otherwise it keeps exactly the nodes whose quorum set the current list satisfies, and keeping as many as it was given means keeping all |
| FederatedVoting.KeepQuorateFailure | src/scp/Node.cpp:118-126 | a round fails iff some node has no quorum set, and the error is that of the first such node |
| FederatedVoting.KeepQuorateMembers | src/scp/Node.cpp:118-126 | a successful round keeps exactly the nodes whose quorum set the current list satisfies; keeping as many as it was given means keeping all |
| FederatedVoting.KeepQuorateFailsFromPrefix | src/scp/Node.cpp:118-126 | once the round fails on a prefix, the whole round fails with that error |
| FederatedVoting.KeepQuorateKeepsAll | src/scp/Node.cpp:118-126 | a list all of whose nodes are satisfied passes a round unchanged |
| FederatedVoting.KeepQuorateNodes | src/scp/Node.cpp:118-127 | the copy-if loop computes one round: the kept nodes in order, or the first node's error |
| FederatedVoting.Round | src/scp/Node.cpp:115-127 | one pass of the loop succeeds iff every node has a quorum set, and then keeps exactly the nodes whose quorum set the current list satisfies |
| FederatedVoting.Closure | src/scp/Node.cpp:114-128 | repeating rounds until the size stops changing never grows the list |
| FederatedVoting.ClosureFailsOnlyOnUnknown | src/scp/Node.cpp:114-128 | the iteration fails iff some selected sender has no quorum set |
| FederatedVoting.ClosureIsQuorumClosed | src/scp/Node.cpp:114-128 | the result is made of selected senders, and each has a quorum set that the result satisfies |
| FederatedVoting.ClosureIsMaximal | src/scp/Node.cpp:114-128 | every part of the senders whose members are all satisfied by it lies within the result |
| FederatedVoting.ClosureIdempotent | src/scp/Node.cpp:114-128 | iterating again on the result gives the result back |
| ScpNode.Node.constructor | src/scp/Node.cpp:18-21 | a new node has the given id and an empty cache |
| ScpNode.Node.RetrieveQuorumSet | src/scp/Node.cpp:138-154 | yields the cached quorum set whatever digest is asked for; an empty slot fails with `QuorumSetNotFound(node, digest)` |
| ScpNode.Node.CacheQuorumSet | src/scp/Node.cpp:156-165 | the cache afterwards holds exactly the given quorum set under key 0 |
| ScpNode.Node.GetCachedQuorumSetCount | src/scp/Node.cpp:173-177 | the count is the cache size, at most 1, and 1 iff a quorum set is cached |
| ScpNode.Node.HasQuorum | src/scp/Node.cpp:23-43 | fails when nothing is cached; otherwise true iff at least `threshold` validators are in the list; threshold 0 gives true |
| ScpNode.Node.IsVBlocking | src/scp/Node.cpp:45-71 | fails when nothing is cached; threshold 0 gives false; otherwise true iff fewer than `threshold` validators are outside the list, which is the v-blocking predicate |
| ScpNode.Node.IsVBlockingFiltered | src/scp/Node.cpp:73-88 | the v-blocking test on exactly the filtered senders, or the missing-quorum-set error |
| ScpNode.Node.IsQuorumTransitive | src/scp/Node.cpp:98-131 | the error of the first sender without a quorum set; else the missing-quorum-set error of this node; else whether the closure of the filtered senders is a quorum for this node |
| FetchSteps.Walk | src/overlay/ItemFetcher.cpp:184-194 | the walk keeps a prefix of the history; finding no peer empties it; a found peer is the successor of the last kept peer; every dropped peer had no successor |
| FetchSteps.Candidate | src/overlay/ItemFetcher.cpp:184-198 | with history, the candidate is a reachable successor of the last kept peer, and finding none empties the history; without history it is the random peer |
| FetchSteps.TryStep | src/overlay/ItemFetcher.cpp:184-230 | a step always arms the 500 ms or the 1000 ms timer; it sends no request, or one request to the new last-asked peer; the history grows by at most one peer |
| FetchSteps.TryStepSound | src/overlay/ItemFetcher.cpp:173-232 | a step keeps the history free of repetition and every remembered peer asked; it sends at most one request, to a peer not in the kept history, which then becomes the last-asked peer |
| FetchSteps.TryStepArmsTimer | src/overlay/ItemFetcher.cpp:200-230 | a step always re-arms the timer: 500 ms iff a peer was found, 1000 ms iff none; backing off sends nothing and clears the history |
| FetchSteps.ExhaustedHistoryBacksOff | src/overlay/ItemFetcher.cpp:184-194 | when no remembered peer has a successor, the history is cleared and the timer set to 1000 ms, whatever random peer exists |
| FetchSteps.FirstAttemptUsesRandomPeer | src/overlay/ItemFetcher.cpp:184-198 | with history the random peer is never consulted; without history the random peer is asked, or the step backs off when there is none |
| FetchSteps.ReachableSuccessor | src/overlay/ItemFetcher.cpp:200-217 | a reachable successor of the latest peer is asked if new, and only the timer moves if already asked |
| ItemFetching.Deliveries | src/overlay/ItemFetcher.cpp:166-169 | one delivery per callback, in registration order, each with the item |
| ItemFetching.Tracker.constructor | src/overlay/ItemFetcher.cpp:72-76 | a tracker made for an item has no item, no callbacks, no history, no timer, and is alive |
| ItemFetching.Tracker.IsItemFound | src/overlay/ItemFetcher.cpp:138-143 | true iff the item has arrived |
| ItemFetching.Tracker.Get | src/overlay/ItemFetcher.cpp:145-149 | the item that arrived |
| ItemFetching.Tracker.Listen | src/overlay/ItemFetcher.cpp:243-247 | the callback is appended after those already waiting |
| ItemFetching.Tracker.Cancel | src/overlay/ItemFetcher.cpp:234-241 | callbacks, history, last-asked peer and timer are all cleared; the tracker stays valid |
| ItemFetching.Tracker.Recv | src/overlay/ItemFetcher.cpp:161-171 | the item is kept; every waiting callback gets it once, in order; then the tracker is cancelled |
| ItemFetching.Tracker.Destroy | src/overlay/ItemFetcher.cpp:131-135 | destruction cancels the tracker and it is no longer alive |
| ItemFetching.Tracker.TryNextPeer | src/overlay/ItemFetcher.cpp:173-232 | a found item changes nothing; otherwise a stale map entry is pruned; a wanted item takes exactly one `TryStep`; an unwanted one changes nothing; the fetcher invariant is kept |
| ItemFetching.Tracker.AskNextPeer | src/overlay/ItemFetcher.cpp:182-230 | the walk, request and timer re-arm compute exactly `TryStep` of the old state, keeping the tracker valid |
| ItemFetching.Tracker.DoesntHave | src/overlay/ItemFetcher.cpp:151-159 | only a refusal from the last-asked peer triggers a retry; any other refusal changes nothing |
| ItemFetching.ItemFetcher.constructor | src/overlay/ItemFetcher.cpp:27-35 | a new fetcher has no trackers and an empty cache |
| ItemFetching.ItemFetcher.OneLivePerItem | src/overlay/ItemFetcher.cpp:65-84 | under the fetcher invariant, two live trackers for the same item are the same tracker |
| ItemFetching.ItemFetcher.Get | src/overlay/ItemFetcher.cpp:37-50 | a hit iff the item is cached; a hit delivers the cached item to the callback once, a miss delivers nothing |
| ItemFetching.ItemFetcher.IsNeeded | src/overlay/ItemFetcher.cpp:110-128 | a live entry yields its tracker; a stale entry is erased and yields none; no entry yields none and changes nothing |
| ItemFetching.ItemFetcher.Fetch | src/overlay/ItemFetcher.cpp:65-84 | without an entry: a fresh tracker with only this callback, entered in the map, that took one step from the empty state; with a live entry: the same tracker, callbacks unchanged, one step taken unless the item is in |
| ItemFetching.ItemFetcher.GetOrFetch | src/overlay/ItemFetcher.cpp:52-63 | a cached item is delivered at once and nothing else changes; otherwise nothing is delivered and the result is exactly what `Fetch` gives: a fresh tracker with only this callback that took one step from the empty state, or the live tracker with its callbacks and item unchanged and one step taken unless the item is in |
| ItemFetching.ItemFetcher.DoesntHave | src/overlay/ItemFetcher.cpp:88-96 | a stale entry is pruned; a live tracker takes one step iff the refusing peer was its last-asked peer and the item is still missing, and keeps its callbacks, item and liveness; otherwise nothing changes |
| ItemFetching.ItemFetcher.Recv | src/overlay/ItemFetcher.cpp:98-106 | a live tracker gets the item and its callbacks are called in order; otherwise nothing is delivered and a stale entry is pruned; the cache is never filled |
| ItemFetching.ItemFetcher.Drop | src/overlay/ItemFetcher.cpp:131-135 | releasing the last handle cancels the tracker and leaves its entry stale; the fetcher invariant is kept |

## Left out

- Logging (`CLOG`) and the metrics counter of the fetcher map: they have no effect on results.
- `ScpNode.Node.CacheQuorumSet`: the SHA-256 digest of the quorum set is computed only for logging, so it is not modelled.
- `ScpNode.Node.RetrieveQuorumSet`: the `nodeTouched` notification to the protocol object is not modelled.
- The node's and the fetcher's caches are bounded LRU caches. Their capacity, eviction and recency updates are not modelled. The node never holds more than one entry, so its capacity never matters. The fetcher's cache is only read here.
- `ScpNode.Node.HasQuorum`: the count is an unbounded natural number, not a 32-bit one. It never exceeds the validator count, so it could only wrap with over 2^32 validators.
- `ScpNode.Node.IsQuorumTransitive`: `qfun` and the lookup of other nodes (`getNode` then `hasQuorum` on their caches) are folded into one parameter, `quorumOf`. Another node's `nodeTouched` notification is not modelled.
- Quorum sets are flat (`threshold`, `validators`). This revision of the code has no inner sets.
- Real timers, the event loop and the asynchronous delivery of timer callbacks are not modelled. The timer is the armed delay; its firing is a call of `TryNextPeer`.
- The overlay manager (`getNextPeer`, `getRandomPeer`) enters as parameters. Peer connections and the messages sent by `askPeer` are not modelled; asking is recorded in `requests`.
- Reference counting of `shared_ptr`/`weak_ptr` is summarised by the `alive` flag and `ItemFetcher.Drop`. Aliasing between handles is not modelled.
- `ItemFetching.ItemFetcher.Fetch` requires an existing entry to be live. With a stale entry the code dereferences the null result of `lock()`; that undefined behaviour is not modelled. The case is reachable: after `Drop`, a `Fetch` of the same id with no lookup in between (`IsNeeded`, `DoesntHave`, `Recv`) meets the stale entry. Only after such a lookup has pruned the entry does a fetch start a fresh tracker.
- `ItemFetching.Tracker.Get` requires the item to have arrived. The code dereferences an empty optional otherwise, which is undefined behaviour and not modelled.
- The tracker factory `makeTracker` is the `Tracker` constructor. Subclass-specific `askPeer` behaviour is only the request log.
- The older revision of the fetcher interface in `src/overlay/ItemFetcher.h` (including the commented-out collar code) is not modelled. `src/overlay/PeerRecord.h` and `src/herder/Herder.cpp` are context only.
