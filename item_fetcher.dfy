/**
 * Fetching items (quorum sets, transaction sets) from peers.
 *
 * An `ItemFetcher` maps each item id it is fetching to a tracker, holding
 * that tracker only weakly: the callers that asked for the item hold it
 * strongly, and when the last of them lets go the tracker is destroyed and
 * its map entry goes stale, to be pruned at the next lookup. Here the strong
 * holders are summarised by each tracker's `alive` flag and the release of
 * the last handle by `ItemFetcher.Drop`.
 *
 * A `Tracker` pursues one item: it asks one peer at a time (see
 * `FetchSteps`), re-arming a retry timer, until the item arrives; it then
 * hands the item to every registered callback, in registration order, and
 * cancels itself. Callbacks are named by `CallbackId`s; invoking them is
 * reported as the sequence of `Delivery`s an operation makes. The overlay's
 * answers (`getNextPeer`, `getRandomPeer`) are parameters, the timer is the
 * armed delay in `timer`, and asking a peer appends it to `requests`.
 */
module ItemFetching {
  import opened Wrappers
  import opened FetchSteps

  /** The digest naming an item. */
  type ItemId = nat

  /** A registered completion callback. */
  type CallbackId = nat

  /** One invocation of a callback with an item. */
  datatype Delivery<T> = Delivery(callback: CallbackId, item: T)

  /** Every callback of `callbacks` invoked once with `item`, in order. */
  function Deliveries<T>(callbacks: seq<CallbackId>, item: T): (calls: seq<Delivery<T>>)
    ensures |calls| == |callbacks|
    ensures forall i :: 0 <= i < |callbacks| ==> calls[i] == Delivery(callbacks[i], item)
  {
    if callbacks == [] then []
    else Deliveries(callbacks[..|callbacks| - 1], item) + [Delivery(callbacks[|callbacks| - 1], item)]
  }

  class Tracker<T> {
    /** The item this tracker pursues. */
    const itemId: ItemId
    /** The fetcher whose map names this tracker. */
    const fetcher: ItemFetcher<T>
    /** The item, once received. */
    var item: Option<T>
    /** The callbacks waiting for the item, in registration order. */
    var callbacks: seq<CallbackId>
    /** The peers asked so far, most recent last. */
    var peersAsked: seq<PeerId>
    /** The peer asked most recently. */
    var lastAskedPeer: Option<PeerId>
    /** The armed retry delay in milliseconds; none when no timer is pending. */
    var timer: Option<nat>
    /** Every peer this tracker has sent a request to, in order. */
    var requests: seq<PeerId>
    /** Some caller still holds the tracker. */
    var alive: bool

    /** The pursuit part of the state, as `FetchSteps` sees it. */
    function State(): Pursuit
      reads this
    {
      Pursuit(peersAsked, lastAskedPeer, timer, requests)
    }

    /**
     * The history has no repetition and was all asked; once the item is
     * found the tracker is cancelled: no history, no last-asked peer, no timer.
     */
    ghost predicate Valid()
      reads this
    {
      Sound(State()) && (item.Some? ==> peersAsked == [] && lastAskedPeer.None? && timer.None?)
    }

    constructor (itemId: ItemId, fetcher: ItemFetcher<T>)
      ensures this.itemId == itemId && this.fetcher == fetcher
      ensures item.None? && callbacks == [] && State() == Pursuit([], None, None, [])
      ensures alive && Valid()
    {
      this.itemId := itemId;
      this.fetcher := fetcher;
      item := None;
      callbacks := [];
      peersAsked := [];
      lastAskedPeer := None;
      timer := None;
      requests := [];
      alive := true;
    }

    /** Whether the item has arrived. */
    method IsItemFound() returns (found: bool)
      ensures found <==> item.Some?
    {
      found := item.Some?;
    }

    /** The item; only meaningful once it has arrived. */
    method Get() returns (x: T)
      requires item.Some?
      ensures item == Some(x)
    {
      x := item.value;
    }

    /** Register one more callback, after those already waiting. */
    method Listen(cb: CallbackId)
      requires Valid()
      modifies this`callbacks
      ensures Valid()
      ensures callbacks == old(callbacks) + [cb]
    {
      callbacks := callbacks + [cb];
    }

    /** Forget the callbacks, the history and the last-asked peer, and stop the timer. */
    method Cancel()
      modifies this`callbacks, this`peersAsked, this`timer, this`lastAskedPeer
      ensures Valid()
      ensures callbacks == [] && peersAsked == [] && timer.None? && lastAskedPeer.None?
    {
      callbacks := [];
      peersAsked := [];
      timer := None;
      lastAskedPeer := None;
    }

    /**
     * The item arrived: keep it, hand it to every waiting callback once, in
     * registration order, then cancel.
     */
    method Recv(x: T) returns (calls: seq<Delivery<T>>)
      modifies this`item, this`callbacks, this`peersAsked, this`timer, this`lastAskedPeer
      ensures Valid()
      ensures item == Some(x)
      ensures calls == Deliveries(old(callbacks), x)
      ensures callbacks == [] && peersAsked == [] && timer.None? && lastAskedPeer.None?
    {
      item := Some(x);
      calls := [];
      var i := 0;
      while i < |callbacks|
        invariant 0 <= i <= |callbacks|
        invariant calls == Deliveries(callbacks[..i], x)
      {
        assert callbacks[..i + 1][..i] == callbacks[..i];
        calls := calls + [Delivery(callbacks[i], x)];
        i := i + 1;
      }
      assert callbacks[..i] == callbacks;
      Cancel();
    }

    /** The last strong handle is gone: the tracker is destroyed, which cancels it. */
    method Destroy()
      modifies this`callbacks, this`peersAsked, this`timer, this`lastAskedPeer, this`alive
      ensures Valid() && !alive
      ensures callbacks == [] && peersAsked == [] && timer.None? && lastAskedPeer.None?
    {
      Cancel();
      alive := false;
    }

    /**
     * Try the next peer, unless the item is already here or no caller wants
     * it any more (asking the fetcher prunes a stale entry for the item).
     */
    method TryNextPeer(nextPeer: PeerId -> Option<PeerId>, randomPeer: Option<PeerId>)
      requires fetcher.Valid() && this in fetcher.allTrackers
      modifies this`peersAsked, this`lastAskedPeer, this`timer, this`requests, fetcher`trackers
      ensures fetcher.Valid()
      ensures old(item).Some? ==> State() == old(State()) && fetcher.trackers == old(fetcher.trackers)
      ensures old(item).None? ==> fetcher.trackers == old(fetcher.Pruned(itemId))
      ensures old(item).None? && old(fetcher.Live(itemId)) ==> State() == TryStep(old(State()), nextPeer, randomPeer)
      ensures old(item).None? && !old(fetcher.Live(itemId)) ==> State() == old(State())
    {
      if item.Some? {
        return;
      }
      assert Valid();
      var needed := fetcher.IsNeeded(itemId);
      if needed.None? {
        return;
      }
      AskNextPeer(nextPeer, randomPeer);
    }

    /**
     * The peer-selection part of a retry, for an item still missing and
     * still wanted: walk the history backwards for a reachable successor (or,
     * with no history, take the random peer), ask it if it is new, and re-arm
     * the timer; with no peer, clear the history and back off.
     */
    method AskNextPeer(nextPeer: PeerId -> Option<PeerId>, randomPeer: Option<PeerId>)
      requires Valid() && item.None?
      modifies this`peersAsked, this`lastAskedPeer, this`timer, this`requests
      ensures Valid()
      ensures State() == TryStep(old(State()), nextPeer, randomPeer)
    {
      ghost var before := State();
      var peer: Option<PeerId> := None;
      if |peersAsked| > 0 {
        ghost var asked := peersAsked;
        while peer.None? && |peersAsked| > 0
          invariant peer.None? ==> Walk(peersAsked, nextPeer) == Walk(asked, nextPeer)
          invariant peer.Some? ==> (peersAsked, peer) == Walk(asked, nextPeer)
          invariant lastAskedPeer == before.lastAsked && timer == before.timer && requests == before.requests
          decreases |peersAsked| + (if peer.None? then 1 else 0)
        {
          peer := nextPeer(peersAsked[|peersAsked| - 1]);
          if peer.None? {
            peersAsked := peersAsked[..|peersAsked| - 1];
          }
        }
      } else {
        peer := randomPeer;
      }
      assert (peersAsked, peer) == Candidate(before.asked, nextPeer, randomPeer);
      if peer.Some? {
        if peer.value !in peersAsked {
          requests := requests + [peer.value];
          lastAskedPeer := peer;
          peersAsked := peersAsked + [peer.value];
        }
        timer := Some(REPLY_WAIT_MS);
      } else {
        peersAsked := [];
        timer := Some(BACKOFF_MS);
      }
      assert State() == TryStep(before, nextPeer, randomPeer);
      TryStepSound(before, nextPeer, randomPeer);
    }

    /** A peer says it does not have the item: move on at once if it was the peer last asked. */
    method DoesntHave(peer: PeerId, nextPeer: PeerId -> Option<PeerId>, randomPeer: Option<PeerId>)
      requires fetcher.Valid() && this in fetcher.allTrackers
      modifies this`peersAsked, this`lastAskedPeer, this`timer, this`requests, fetcher`trackers
      ensures fetcher.Valid()
      ensures old(lastAskedPeer) != Some(peer) ==> State() == old(State()) && fetcher.trackers == old(fetcher.trackers)
      ensures old(lastAskedPeer) == Some(peer) && old(item).None? ==> fetcher.trackers == old(fetcher.Pruned(itemId))
      ensures old(lastAskedPeer) == Some(peer) && old(item).None? && old(fetcher.Live(itemId)) ==>
        State() == TryStep(old(State()), nextPeer, randomPeer)
      ensures old(lastAskedPeer) == Some(peer) && (old(item).Some? || !old(fetcher.Live(itemId))) ==> State() == old(State())
    {
      if lastAskedPeer == Some(peer) {
        TryNextPeer(nextPeer, randomPeer);
      }
    }
  }

  class ItemFetcher<T> {
    /** The trackers by item id, held weakly: an entry may name a destroyed tracker. */
    var trackers: map<ItemId, Tracker<T>>
    /** Items already fetched. */
    var cache: map<ItemId, T>
    /** Every tracker this fetcher has made. */
    ghost var allTrackers: set<Tracker<T>>

    /**
     * The map names trackers of this fetcher under their own item id, every
     * tracker is in good state, and a tracker that is still held is the one
     * the map names for its item; so at most one live tracker exists per item.
     */
    ghost predicate Valid()
      reads this, allTrackers
    {
      && (forall id :: id in trackers ==> trackers[id] in allTrackers && trackers[id].itemId == id)
      && (forall t :: t in allTrackers ==>
            t.fetcher == this && t.Valid() && (t.alive ==> t.itemId in trackers && trackers[t.itemId] == t))
    }

    /** The map names a tracker for `id` that is still held. */
    ghost predicate Live(id: ItemId)
      reads this, trackers.Values
    {
      id in trackers && trackers[id].alive
    }

    /** The map once a stale entry for `id` is erased. */
    ghost function Pruned(id: ItemId): map<ItemId, Tracker<T>>
      reads this, trackers.Values
    {
      if id in trackers && !trackers[id].alive then trackers - {id} else trackers
    }

    /** The tracker the map names for `id`, as a frame. */
    ghost function Tracked(id: ItemId): set<Tracker<T>>
      reads this
    {
      if id in trackers then {trackers[id]} else {}
    }

    constructor ()
      ensures Valid()
      ensures trackers == map[] && cache == map[] && allTrackers == {}
    {
      trackers := map[];
      cache := map[];
      allTrackers := {};
    }

    /** At most one live tracker per item. */
    lemma OneLivePerItem(a: Tracker<T>, b: Tracker<T>)
      requires Valid() && a in allTrackers && b in allTrackers
      requires a.alive && b.alive && a.itemId == b.itemId
      ensures a == b
    {
    }

    /** Hand a cached item to `cb` at once; report whether it was cached. */
    method Get(id: ItemId, cb: CallbackId) returns (hit: bool, calls: seq<Delivery<T>>)
      ensures hit <==> id in cache
      ensures hit ==> calls == [Delivery(cb, cache[id])]
      ensures !hit ==> calls == []
    {
      if id in cache {
        return true, [Delivery(cb, cache[id])];
      }
      return false, [];
    }

    /**
     * The tracker for a live entry; none otherwise, erasing the entry if it
     * names a destroyed tracker.
     */
    method IsNeeded(id: ItemId) returns (t: Option<Tracker<T>>)
      requires Valid()
      modifies this`trackers
      ensures Valid()
      ensures id in old(trackers) && old(trackers[id]).alive ==> t == Some(old(trackers[id])) && trackers == old(trackers)
      ensures id in old(trackers) && !old(trackers[id]).alive ==> t == None && trackers == old(trackers) - {id}
      ensures id !in old(trackers) ==> t == None && trackers == old(trackers)
      ensures trackers == old(Pruned(id)) && (t.Some? <==> old(Live(id)))
    {
      if id in trackers {
        var tracker := trackers[id];
        if tracker.alive {
          return Some(tracker);
        }
        trackers := trackers - {id};
        return None;
      }
      return None;
    }

    /**
     * Start or rejoin the pursuit of `id`. Without an entry a new tracker is
     * made, `cb` registered on it and the tracker entered in the map; with a
     * (necessarily live) entry its tracker is reused and `cb` is NOT
     * registered. Either way the tracker then tries the next peer.
     */
    method Fetch(id: ItemId, cb: CallbackId, nextPeer: PeerId -> Option<PeerId>, randomPeer: Option<PeerId>)
      returns (t: Tracker<T>)
      requires Valid()
      requires id in trackers ==> trackers[id].alive
      modifies this`trackers, this`allTrackers, Tracked(id)
      ensures Valid()
      ensures trackers == old(trackers)[id := t] && cache == old(cache)
      ensures t in allTrackers && t.itemId == id && t.alive
      ensures id in old(trackers) ==>
        && t == old(trackers[id]) && allTrackers == old(allTrackers)
        && t.callbacks == old(t.callbacks) && t.item == old(t.item)
        && t.State() == (if old(t.item).Some? then old(t.State()) else TryStep(old(t.State()), nextPeer, randomPeer))
      ensures id !in old(trackers) ==>
        && fresh(t) && allTrackers == old(allTrackers) + {t}
        && t.callbacks == [cb] && t.item.None?
        && t.State() == TryStep(Pursuit([], None, None, []), nextPeer, randomPeer)
    {
      if id !in trackers {
        t := new Tracker(id, this);
        t.Listen(cb);
        trackers := trackers[id := t];
        allTrackers := allTrackers + {t};
      } else {
        t := trackers[id];
      }
      t.TryNextPeer(nextPeer, randomPeer);
    }

    /** Serve `id` from the cache when possible; otherwise fetch it. */
    method GetOrFetch(id: ItemId, cb: CallbackId, nextPeer: PeerId -> Option<PeerId>, randomPeer: Option<PeerId>)
      returns (t: Option<Tracker<T>>, calls: seq<Delivery<T>>)
      requires Valid()
      requires id !in cache && id in trackers ==> trackers[id].alive
      modifies this`trackers, this`allTrackers, Tracked(id)
      ensures Valid() && cache == old(cache)
      ensures id in cache ==>
        t.None? && calls == [Delivery(cb, cache[id])]
        && trackers == old(trackers) && allTrackers == old(allTrackers) && unchanged(old(Tracked(id)))
      ensures id !in cache ==>
        && t.Some? && calls == [] && trackers == old(trackers)[id := t.value]
        && t.value in allTrackers && t.value.itemId == id && t.value.alive
      ensures id !in cache && id in old(trackers) ==>
        var u := t.value;
        && u == old(trackers[id]) && allTrackers == old(allTrackers)
        && u.callbacks == old(u.callbacks) && u.item == old(u.item)
        && u.State() == (if old(u.item).Some? then old(u.State()) else TryStep(old(u.State()), nextPeer, randomPeer))
      ensures id !in cache && id !in old(trackers) ==>
        var u := t.value;
        && fresh(u) && allTrackers == old(allTrackers) + {u}
        && u.callbacks == [cb] && u.item.None?
        && u.State() == TryStep(Pursuit([], None, None, []), nextPeer, randomPeer)
    {
      var hit;
      hit, calls := Get(id, cb);
      if hit {
        return None, calls;
      }
      var tracker := Fetch(id, cb, nextPeer, randomPeer);
      t := Some(tracker);
    }

    /** A peer does not have `id`: tell the live tracker, if there is one. */
    method DoesntHave(id: ItemId, peer: PeerId, nextPeer: PeerId -> Option<PeerId>, randomPeer: Option<PeerId>)
      requires Valid()
      modifies this`trackers, Tracked(id)
      ensures Valid() && cache == old(cache)
      ensures trackers == old(Pruned(id))
      ensures old(Live(id)) ==>
        var t := old(trackers[id]);
        t.State() == if old(t.lastAskedPeer) == Some(peer) && old(t.item).None?
                     then TryStep(old(t.State()), nextPeer, randomPeer)
                     else old(t.State())
      ensures old(Live(id)) ==>
        var t := old(trackers[id]);
        t.callbacks == old(t.callbacks) && t.item == old(t.item) && t.alive
      ensures !old(Live(id)) ==> unchanged(old(Tracked(id)))
    {
      var t := IsNeeded(id);
      if t.Some? {
        t.value.DoesntHave(peer, nextPeer, randomPeer);
      }
    }

    /**
     * `id` arrived: the live tracker, if there is one, delivers it to its
     * callbacks and cancels. The cache is not filled.
     */
    method Recv(id: ItemId, x: T) returns (calls: seq<Delivery<T>>)
      requires Valid()
      modifies this`trackers, Tracked(id)
      ensures Valid() && cache == old(cache)
      ensures trackers == old(Pruned(id))
      ensures old(Live(id)) ==>
        var t := old(trackers[id]);
        && calls == Deliveries(old(t.callbacks), x)
        && t.item == Some(x) && t.callbacks == [] && t.peersAsked == [] && t.lastAskedPeer.None? && t.timer.None?
        && t.requests == old(t.requests) && t.alive
      ensures !old(Live(id)) ==> calls == [] && unchanged(old(Tracked(id)))
    {
      calls := [];
      var t := IsNeeded(id);
      if t.Some? {
        calls := t.value.Recv(x);
      }
    }

    /**
     * The last caller holding `t` lets it go: the tracker is destroyed
     * (cancelled). Its map entry stays, now stale.
     */
    method Drop(t: Tracker<T>)
      requires Valid() && t in allTrackers
      modifies t
      ensures Valid()
      ensures !t.alive && t.item == old(t.item) && t.requests == old(t.requests)
      ensures t.callbacks == [] && t.peersAsked == [] && t.lastAskedPeer.None? && t.timer.None?
    {
      t.Destroy();
    }
  }

  /** Fetching with no peer connected backs off; once a peer is there, one request goes out. */
  method NoPeerThenOne() {
    var fetcher := new ItemFetcher<int>();
    var none := (p: PeerId) => None;
    var t := fetcher.Fetch(1, 10, none, None);
    assert t.timer == Some(BACKOFF_MS) && t.requests == [];
    t.TryNextPeer(none, Some(7));
    assert t.timer == Some(REPLY_WAIT_MS) && t.requests == [7] && t.lastAskedPeer == Some(7);
    var other := new ItemFetcher<int>();
    var u, calls := other.GetOrFetch(1, 10, none, Some(7));
    assert u.Some? && calls == [] && u.value.requests == [7] && u.value.callbacks == [10];
  }

  /**
   * Two fetches of one item share one tracker, and the second callback is
   * not registered; once the tracker is dropped and the stale entry pruned,
   * a new fetch starts a fresh tracker.
   */
  method SharedThenFresh() {
    var fetcher := new ItemFetcher<int>();
    var none := (p: PeerId) => None;
    var t1 := fetcher.Fetch(1, 10, none, Some(7));
    var t2 := fetcher.Fetch(1, 11, none, Some(8));
    assert t1 == t2 && t1.callbacks == [10] && t1.requests == [7];
    var calls := fetcher.Recv(1, 42);
    assert calls == [Delivery(10, 42)];
    fetcher.Drop(t1);
    var gone := fetcher.IsNeeded(1);
    assert gone.None? && 1 !in fetcher.trackers;
    var t3 := fetcher.Fetch(1, 12, none, Some(7));
    assert t3 != t1 && t3.callbacks == [12];
  }
}
