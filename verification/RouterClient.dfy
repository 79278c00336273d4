/** What a caller of the router sees over several calls. */
module RouterClient {
  import opened Wrappers
  import opened RouterMeaning
  import opened RouterState
  import opened MessageRouterImpl

  /** A router with one route, on which `items` wait in the channel or before it. */
  ghost predicate HasOne(c: Core, limits: Limits, key: Key, open: bool, items: seq<Item>) {
    && c.limits == NormalizeLimits(limits) && c.failed.None? && c.closed == {}
    && key in c.routes && c.routes.Keys == {key} && c.routes[key] == 1
    && |c.store| == 2 && c.store[0] == Route(None, Some([]), [], 0, 0)
    && Waits(c.store[1], key, open, items)
    && c.totalEvents == c.store[1].events && c.totalBytes == c.store[1].bytes
  }

  ghost predicate Waits(r: Route, key: Key, open: bool, items: seq<Item>) {
    && r.owner == Some(key) && |items| <= 1 && r.events == |items|
    && r.queue == (if open then Some(items) else None) && r.pending == (if open then [] else items)
    && r.bytes == if items == [] then 0 else items[0].Size()
  }

  predicate Fits(limits: Limits, item: Item) {
    var l := NormalizeLimits(limits); item.Size() <= l.routeBytes && item.Size() <= l.totalBytes
  }

  lemma EarlyIsKept(limits: Limits, key: Key, item: Item)
    ensures var (c, err) := RouteScoped(NewCore(limits), key, item, false);
      HasOne(c, limits, key, false, if Fits(limits, item) then [item] else []) && err.None? == Fits(limits, item)
  {
  }

  lemma RegisterReplays(c: Core, limits: Limits, key: Key, items: seq<Item>)
    requires c.WellFormed() && HasOne(c, limits, key, false, items)
    ensures HasOne(Register(c, key).0, limits, key, true, items)
  {
  }

  /** What a next call finds, and what it leaves. */
  lemma NextFinds(c: Core, limits: Limits, key: Key, items: seq<Item>)
    requires HasOne(c, limits, key, true, items)
    ensures key in c.routes && c.routes[key] == 1 && |c.store| == 2
    ensures c.store[1].queue == Some(items) && c.store[1].Contents() == items && c.failed.None?
    ensures items != [] ==> HasOne(Release(Receive(c, 1).0, Some(key), 1, items[0]), limits, key, true, [])
  {
    if items != [] {
      assert items[1..] == [];
    }
  }

  /** After the unregister a notification is dropped without an error. */
  lemma LateIsDropped(c: Core, limits: Limits, key: Key, item: Item)
    requires c.WellFormed() && HasOne(c, limits, key, true, [])
    ensures var d := Unregister(c, key);
      d.WellFormed() && RouteScoped(d, key, item, false) == (d, None) && key !in d.routes && d.totalEvents == 0 == d.totalBytes
  {
  }

  method Next(router: MessageRouter, ghost limits: Limits, key: Key, ghost items: seq<Item>) returns (r: NextResult)
    requires router.Valid() && HasOne(router.model, limits, key, true, items)
    modifies router`model, router`totalEvents, router`totalBytes, router.routes.Values
    ensures router.Valid() && HasOne(router.model, limits, key, true, [])
    ensures r == if items == [] then NextResult.Waits else Received(items[0])
  {
    hide HasOne, Release, Receive;
    NextFinds(router.model, limits, key, items);
    router.FieldsAreTheModels();
    r := router.NextRoute(key);
  }

  /** A notification is buffered, then its route is registered. */
  method Buffer(limits: Limits, key: Key, early: Item) returns (router: MessageRouter)
    requires early.Note?
    ensures router.Valid() && HasOne(router.model, limits, key, true, if Fits(limits, early) then [early] else [])
    ensures fresh(router) && forall k :: k in router.routes ==> fresh(router.routes[k])
  {
    hide Register, RouterState.RouteScoped, NewCore, Fits, HasOne;
    router := new MessageRouter(limits);
    EarlyIsKept(limits, key, early);
    var err := router.RouteScoped(key, early, false);
    RegisterReplays(router.model, limits, key, if Fits(limits, early) then [early] else []);
    err := router.RegisterRoute(key);
  }

  /** The route is unregistered, then a notification comes. */
  method CloseAndNotify(router: MessageRouter, ghost limits: Limits, key: Key, late: Item)
    returns (last: NextResult, err: Option<RouterState.Error>, events: int, bytes: int)
    requires late.Note? && router.Valid() && HasOne(router.model, limits, key, true, [])
    modifies router, router.routes.Values
    ensures last == NextResult.Error(NotRegistered(key)) && err.None? && events == 0 && bytes == 0
  {
    hide Unregister, RouterState.RouteScoped, HasOne;
    LateIsDropped(router.model, limits, key, late);
    router.UnregisterRoute(key);
    err := router.RouteScoped(key, late, false);
    last := router.NextRoute(key);
    router.FieldsAreTheModels();
    events, bytes := router.totalEvents, router.totalBytes;
  }

  /**
    Over a router's life: a notification that comes before its route is registered is what the first
    call returns, if its size fits the limits; there is no second one; and one that comes after the
    unregister is dropped, with nothing left on the totals.
   */
  method EarlyAndLate(limits: Limits, key: Key, early: Item, late: Item)
    returns (first: NextResult, second: NextResult, third: NextResult, err: Option<RouterState.Error>, events: int, bytes: int)
    requires early.Note? && late.Note?
    ensures first == if Fits(limits, early) then Received(early) else NextResult.Waits
    ensures second == NextResult.Waits && third == NextResult.Error(NotRegistered(key))
    ensures err.None? && events == 0 && bytes == 0
  {
    hide Fits, HasOne;
    var router := Buffer(limits, key, early);
    first := Next(router, limits, key, if Fits(limits, early) then [early] else []);
    second := Next(router, limits, key, []);
    third, err, events, bytes := CloseAndNotify(router, limits, key, late);
  }

  // ---- filling a route ----

  /** `count` notifications of `size` bytes fit one route and the totals. */
  predicate AllFit(l: Limits, count: nat, size: nat) {
    && count <= l.routeEvents && count * size <= l.routeBytes
    && count <= l.totalEvents && count * size <= l.totalBytes
  }

  /** The bound that is hit first by one notification more. */
  function FirstBound(l: Limits, key: Key, count: nat, size: nat): RouterState.Error {
    if count > l.routeEvents then RouteEventLimit(key)
    else if count * size > l.routeBytes then RouteByteLimit(key)
    else if count > l.totalEvents then TotalEventLimit
    else TotalByteLimit
  }

  ghost predicate Holds(c: Core, l: PositiveLimits, key: Key, count: nat, size: nat) {
    && c.WellFormed() && c.limits == l && c.failed.None? && c.closed == {}
    && At(c, key).events == count && At(c, key).bytes == count * size
    && c.totalEvents == count && c.totalBytes == count * size
  }

  lemma OneMoreHeld(c: Core, l: PositiveLimits, key: Key, count: nat, item: Item)
    requires Holds(c, l, key, count, item.Size())
    ensures var (d, err) := RouterState.RouteScoped(c, key, item, false);
      && (count + 1) * item.Size() == count * item.Size() + item.Size()
      && (err.None? <==> AllFit(l, count + 1, item.Size()))
      && (err.None? ==> Holds(d, l, key, count + 1, item.Size()))
      && (err.Some? ==> err.value == FirstBound(l, key, count + 1, item.Size()))
  {
    hide At, RouterState.RouteScoped;
    ScopedAcceptsIff(c, key, item, false);
    ScopedEffect(c, key, item, false);
  }

  /**
    Notifications of one size for one id are accepted as long as all bounds allow, so with small ones
    exactly as many as the route's event limit says; the next one gets the error of the bound it hits.
   */
  method FillRoute(limits: Limits, key: Key, item: Item) returns (accepted: nat, refusal: RouterState.Error)
    requires item.Note?
    ensures var l := NormalizeLimits(limits);
      && AllFit(l, accepted, item.Size()) && !AllFit(l, accepted + 1, item.Size())
      && refusal == FirstBound(l, key, accepted + 1, item.Size())
      && (AllFit(l, l.routeEvents, item.Size()) ==> accepted == l.routeEvents && refusal == RouteEventLimit(key))
  {
    hide RouterState.RouteScoped, AllFit, Holds, FirstBound;
    var router := new MessageRouter(limits);
    ghost var l := NormalizeLimits(limits);
    EmptyHolds(limits, key, item.Size());
    accepted := 0;
    OneMoreHeld(router.model, l, key, accepted, item);
    var err := router.RouteScoped(key, item, false);
    while err.None?
      invariant fresh(router) && forall k :: k in router.routes ==> fresh(router.routes[k])
      invariant router.Valid() && AllFit(l, accepted, item.Size())
      invariant err.None? ==> AllFit(l, accepted + 1, item.Size()) && Holds(router.model, l, key, accepted + 1, item.Size())
      invariant err.Some? ==> !AllFit(l, accepted + 1, item.Size()) && err.value == FirstBound(l, key, accepted + 1, item.Size())
      decreases err.None?, l.routeEvents - accepted
    {
      WithinEvents(l, accepted + 1, item.Size());
      accepted := accepted + 1;
      OneMoreHeld(router.model, l, key, accepted, item);
      err := router.RouteScoped(key, item, false);
    }
    FullAtTheLimit(l, key, accepted, item.Size());
    refusal := err.value;
  }

  lemma EmptyHolds(limits: Limits, key: Key, size: nat)
    ensures Holds(NewCore(limits), NormalizeLimits(limits), key, 0, size) && AllFit(NormalizeLimits(limits), 0, size)
  {
    assert 0 * size == 0;
  }

  lemma WithinEvents(l: Limits, count: nat, size: nat)
    requires AllFit(l, count, size)
    ensures count <= l.routeEvents
  {
  }

  lemma FullAtTheLimit(l: PositiveLimits, key: Key, count: nat, size: nat)
    requires AllFit(l, count, size) && !AllFit(l, count + 1, size)
    ensures AllFit(l, l.routeEvents, size) ==> count == l.routeEvents && FirstBound(l, key, count + 1, size) == RouteEventLimit(key)
  {
    if AllFit(l, l.routeEvents, size) && count < l.routeEvents {
      FewerFit(l, count + 1, l.routeEvents, size);
    }
  }

  lemma FewerFit(l: Limits, fewer: nat, count: nat, size: nat)
    requires AllFit(l, count, size) && fewer <= count
    ensures AllFit(l, fewer, size)
  {
    assert fewer * size <= count * size;
  }
}
