/**
  What the router's critical sections mean for its users: which call is accepted and which bound refuses
  it, where a notification ends up, and what stays as it was. The counters and contents of a route are
  read by its key; a key without a route has none.
 */
module RouterMeaning {
  import opened Wrappers
  import opened RouterState
  import Machine = RouterMachine

  /** The route state behind a key, empty if there is none. */
  function At(c: Core, key: Key): Route {
    if key in c.routes && c.routes[key] < |c.store| then c.store[c.routes[key]] else Route(Some(key), None, [], 0, 0)
  }

  /** Everything but the route behind the key is as before: other routes, the global queue, tombstones, failure. */
  ghost predicate OthersStay(c: Core, d: Core, key: Key) {
    && d.limits == c.limits && d.failed == c.failed && d.closed == c.closed
    && 1 <= |c.store| && 1 <= |d.store| && d.store[0] == c.store[0]
    && (forall k :: k != key ==> (k in d.routes <==> k in c.routes) && At(d, k) == At(c, k))
  }

  /** The item is the last one of its route, in the channel if there is one, and is counted once everywhere. */
  ghost predicate Arrived(c: Core, d: Core, key: Key, item: Item) {
    var r, s := At(c, key), At(d, key);
    && key in d.routes
    && (if r.queue.Some? then s.queue == Some(r.queue.value + [item]) && s.pending == r.pending
        else s.queue.None? && s.pending == r.pending + [item])
    && s.events == r.events + 1 && s.bytes == r.bytes + item.Size()
    && d.totalEvents == c.totalEvents + 1 && d.totalBytes == c.totalBytes + item.Size()
  }

  /** The limits of a router that is given none: 8, 32 and 64 MiB are 8388608, 33554432 and 67108864 bytes. */
  lemma DefaultLimits()
    ensures NormalizeLimits(Limits(0, 0, 0, 0, 0, 0, 0)) == Limits(1024, 256, 8388608, 1024, 33554432, 4096, 67108864)
  {
  }

  // ---- one scoped notification ----

  /**
    What the call returns. After a failure the failure; nothing if the id is tombstoned or has no route
    where one is asked for; otherwise it succeeds if and only if the four bounds hold, and else returns
    the error of the first one that does not.
   */
  ghost predicate ScopedVerdict(c: Core, key: Key, item: Item, onlyIfRegistered: bool, err: Option<Error>) {
    var r := At(c, key);
    if c.failed.Some? then
      err == c.failed
    else if key in c.closed || (onlyIfRegistered && key !in c.routes) then
      err.None?
    else
      && (err.None? <==>
            && r.events + 1 <= c.limits.routeEvents && r.bytes + item.Size() <= c.limits.routeBytes
            && c.totalEvents + 1 <= c.limits.totalEvents && c.totalBytes + item.Size() <= c.limits.totalBytes)
      && (err == Some(RouteEventLimit(key)) <==> r.events >= c.limits.routeEvents)
      && (err == Some(RouteByteLimit(key)) <==>
            r.events < c.limits.routeEvents && r.bytes + item.Size() > c.limits.routeBytes)
      && (err == Some(TotalEventLimit) <==>
            && r.events < c.limits.routeEvents && r.bytes + item.Size() <= c.limits.routeBytes
            && c.totalEvents >= c.limits.totalEvents)
      && (err == Some(TotalByteLimit) <==>
            && r.events < c.limits.routeEvents && r.bytes + item.Size() <= c.limits.routeBytes
            && c.totalEvents < c.limits.totalEvents && c.totalBytes + item.Size() > c.limits.totalBytes)
  }

  lemma ScopedAcceptsIff(c: Core, key: Key, item: Item, onlyIfRegistered: bool)
    requires c.WellFormed()
    ensures var (d, err) := RouteScoped(c, key, item, onlyIfRegistered);
      && ScopedVerdict(c, key, item, onlyIfRegistered, err)
      && (c.failed.Some? || key in c.closed || (onlyIfRegistered && key !in c.routes) ==> d == c)
  {
  }

  lemma OwnersDiffer(c: Core, k: Key, key: Key)
    requires c.WellFormed() && k != key && k in c.routes && key in c.routes
    ensures c.routes[k] != c.routes[key] && c.routes[k] != 0
  {
    assert c.store[c.routes[k]].owner == Some(k) && c.store[c.routes[key]].owner == Some(key);
  }

  lemma AllocateMeans(c: Core, key: Key)
    requires c.WellFormed() && key !in c.closed
    ensures var d := WithRoute(c, key);
      && d.WellFormed() && OthersStay(c, d, key) && key in d.routes && At(d, key) == At(c, key)
      && d.totalEvents == c.totalEvents && d.totalBytes == c.totalBytes
  {
    Machine.WithRouteExtends(c, key);
  }

  /** Changing the route state behind a key. */
  lemma SetMeans(c: Core, key: Key, r: Route, events: int, bytes: int)
    requires c.WellFormed() && key in c.routes
    ensures var d := SetRoute(c.(totalEvents := events, totalBytes := bytes), c.routes[key], r);
      OthersStay(c, d, key) && key in d.routes && At(d, key) == r && d.totalEvents == events && d.totalBytes == bytes
  {
    forall k | k != key && k in c.routes
      ensures c.routes[k] != c.routes[key]
    {
      OwnersDiffer(c, k, key);
    }
  }

  lemma EnqueueMeans(c: Core, key: Key, item: Item)
    requires c.WellFormed() && key in c.routes
    ensures var (d, err) := Enqueue(c, key, item);
      && OthersStay(c, d, key)
      && (if err.None? then Arrived(c, d, key, item) else d == c)
  {
    var r := At(c, key);
    SetMeans(c, key, Put(Charge(r, item), item), c.totalEvents + 1, c.totalBytes + item.Size());
  }

  /** An accepted notification arrives, and nothing else changes; a refused one leaves at most an empty route. */
  lemma ScopedEffect(c: Core, key: Key, item: Item, onlyIfRegistered: bool)
    requires c.WellFormed() && c.failed.None? && key !in c.closed && (key in c.routes || !onlyIfRegistered)
    ensures var (d, err) := RouteScoped(c, key, item, onlyIfRegistered);
      && d.WellFormed() && OthersStay(c, d, key)
      && (err.None? ==> Arrived(c, d, key, item))
      && (err.Some? ==> At(d, key) == At(c, key) && d.totalEvents == c.totalEvents && d.totalBytes == c.totalBytes)
  {
    hide Enqueue, WithRoute, At, Arrived;
    Machine.RouteScopedExtends(c, key, item, onlyIfRegistered);
    AllocateMeans(c, key);
    EnqueueMeans(WithRoute(c, key), key, item);
    var (d, err) := RouteScoped(c, key, item, onlyIfRegistered);
    if err.None? {
      ArrivedAfter(c, WithRoute(c, key), d, key, item);
    }
  }

  lemma ArrivedAfter(c: Core, c1: Core, d: Core, key: Key, item: Item)
    requires At(c1, key) == At(c, key) && c1.totalEvents == c.totalEvents && c1.totalBytes == c.totalBytes
    requires Arrived(c1, d, key, item)
    ensures Arrived(c, d, key, item)
  {
    hide At;
  }

  // ---- the global queue ----

  ghost predicate GlobalVerdict(c: Core, item: Item, err: Option<Error>)
    requires 1 <= |c.store|
  {
    var r := c.store[0];
    if c.failed.Some? then
      err == c.failed
    else
      && (err.None? <==>
            && r.events + 1 <= c.limits.globalEvents && r.bytes + item.Size() <= c.limits.globalBytes
            && c.totalEvents + 1 <= c.limits.totalEvents && c.totalBytes + item.Size() <= c.limits.totalBytes)
      && (err == Some(GlobalEventLimit) <==> r.events >= c.limits.globalEvents)
      && (err == Some(GlobalByteLimit) <==>
            r.events < c.limits.globalEvents && r.bytes + item.Size() > c.limits.globalBytes)
      && (err == Some(TotalEventLimit) <==>
            && r.events < c.limits.globalEvents && r.bytes + item.Size() <= c.limits.globalBytes
            && c.totalEvents >= c.limits.totalEvents)
      && (err == Some(TotalByteLimit) <==>
            && r.events < c.limits.globalEvents && r.bytes + item.Size() <= c.limits.globalBytes
            && c.totalEvents < c.limits.totalEvents && c.totalBytes + item.Size() > c.limits.totalBytes)
  }

  lemma GlobalAcceptsIff(c: Core, item: Item)
    requires c.WellFormed()
    ensures GlobalVerdict(c, item, RouteGlobal(c, item).1)
  {
  }

  /** The item is the last one of the global queue, and is counted there and in the totals. */
  ghost predicate ArrivedGlobally(c: Core, d: Core, item: Item)
    requires 1 <= |c.store| && 1 <= |d.store| && c.store[0].queue.Some?
  {
    && d.store[0].queue == Some(c.store[0].queue.value + [item])
    && d.store[0].events == c.store[0].events + 1 && d.store[0].bytes == c.store[0].bytes + item.Size()
    && d.totalEvents == c.totalEvents + 1 && d.totalBytes == c.totalBytes + item.Size()
  }

  lemma GlobalEffect(c: Core, item: Item)
    requires c.WellFormed()
    ensures var (d, err) := RouteGlobal(c, item);
      && d.WellFormed() && d.limits == c.limits && d.failed == c.failed && d.closed == c.closed && d.routes == c.routes
      && (forall k :: At(d, k) == At(c, k))
      && (if err.None? then ArrivedGlobally(c, d, item) else d == c)
  {
    Machine.RouteGlobalExtends(c, item);
  }

  // ---- registering, unregistering, receiving, releasing ----

  /** Registering opens the route with what was pending for it, lifts the tombstone, and changes no counter. */
  lemma RegisterMeans(c: Core, key: Key)
    requires c.WellFormed()
    ensures var (d, err) := Register(c, key);
      && err == c.failed
      && (c.failed.Some? ==> d == c)
      && (c.failed.None? ==>
            && d.WellFormed() && OthersStay(c.(closed := d.closed), d, key) && d.closed == c.closed - {key} && key in d.routes
            && At(d, key).queue == Some(if At(c, key).queue.Some? then At(c, key).queue.value else At(c, key).pending)
            && At(d, key).pending == [] && At(d, key).events == At(c, key).events && At(d, key).bytes == At(c, key).bytes
            && d.totalEvents == c.totalEvents && d.totalBytes == c.totalBytes)
  {
    Machine.RegisterExtends(c, key);
    forall k | k != key && c.failed.None?
      ensures (k in Register(c, key).0.routes <==> k in c.routes) && At(Register(c, key).0, k) == At(c, k)
    {
      assert k in c.routes && key in c.routes ==> c.store[c.routes[k]].owner == Some(k) && c.store[c.routes[key]].owner == Some(key);
    }
  }

  /** Unregistering takes the route out with all its counters, and leaves a tombstone. */
  lemma UnregisterMeans(c: Core, key: Key)
    requires c.WellFormed()
    ensures var d := Unregister(c, key);
      && d.WellFormed() && OthersStay(c.(closed := d.closed), d, key) && d.closed == c.closed + {key} && key !in d.routes
      && d.totalEvents == c.totalEvents - At(c, key).events && d.totalBytes == c.totalBytes - At(c, key).bytes
  {
  }

  /** A release gives one event and the item's bytes back, to the route and to the totals, if the route is still there. */
  lemma ReleaseMeans(c: Core, key: Key, ref: nat, item: Item)
    requires c.WellFormed() && ref < |c.store|
    ensures var d := Release(c, Some(key), ref, item);
      if key in c.routes && c.routes[key] == ref then
        && OthersStay(c, d, key)
        && At(d, key) == At(c, key).(events := At(c, key).events - 1, bytes := At(c, key).bytes - item.Size())
        && d.totalEvents == c.totalEvents - 1 && d.totalBytes == c.totalBytes - item.Size()
      else
        d == c
  {
    forall k | k != key
      ensures At(Release(c, Some(key), ref, item), k) == At(c, k)
    {
      assert k in c.routes && key in c.routes ==> c.store[c.routes[k]].owner == Some(k) && c.store[c.routes[key]].owner == Some(key);
    }
  }
}
