/**
  The message router's shared state and the effect of each of its critical sections, as functions
  on values.

  Route states are identified by their position in `store`, in order of allocation: position 0 is
  the global queue, the others stand for the addresses of the source's route states. An unregistered
  route state stays in `store`, because a consumer that took it from the map earlier still holds it.
 */
module RouterState {
  import opened Wrappers

  const MIB := 1024 * 1024

  datatype Limits = Limits(
    responseWaiters: int,
    routeEvents: int, routeBytes: int,
    globalEvents: int, globalBytes: int,
    totalEvents: int, totalBytes: int)
  {
    predicate Positive() {
      && 0 < responseWaiters
      && 0 < routeEvents && 0 < routeBytes
      && 0 < globalEvents && 0 < globalBytes
      && 0 < totalEvents && 0 < totalBytes
    }
  }

  const DEFAULT_LIMITS: Limits := Limits(1024, 256, 8 * MIB, 1024, 32 * MIB, 4096, 64 * MIB)

  function OrDefault(value: int, default: int): int {
    if value <= 0 then default else value
  }

  /** The limits a router runs with. */
  type PositiveLimits = l: Limits | l.Positive() witness DEFAULT_LIMITS

  /** A positive value is kept, any other is replaced by the default. */
  predicate Settles(value: int, default: int, result: int) {
    if 0 < value then result == value else result == default
  }

  function NormalizeLimits(l: Limits): (r: PositiveLimits)
    ensures Settles(l.responseWaiters, DEFAULT_LIMITS.responseWaiters, r.responseWaiters)
    ensures Settles(l.routeEvents, DEFAULT_LIMITS.routeEvents, r.routeEvents)
    ensures Settles(l.routeBytes, DEFAULT_LIMITS.routeBytes, r.routeBytes)
    ensures Settles(l.globalEvents, DEFAULT_LIMITS.globalEvents, r.globalEvents)
    ensures Settles(l.globalBytes, DEFAULT_LIMITS.globalBytes, r.globalBytes)
    ensures Settles(l.totalEvents, DEFAULT_LIMITS.totalEvents, r.totalEvents)
    ensures Settles(l.totalBytes, DEFAULT_LIMITS.totalBytes, r.totalBytes)
  {
    Limits(
      OrDefault(l.responseWaiters, DEFAULT_LIMITS.responseWaiters),
      OrDefault(l.routeEvents, DEFAULT_LIMITS.routeEvents), OrDefault(l.routeBytes, DEFAULT_LIMITS.routeBytes),
      OrDefault(l.globalEvents, DEFAULT_LIMITS.globalEvents), OrDefault(l.globalBytes, DEFAULT_LIMITS.globalBytes),
      OrDefault(l.totalEvents, DEFAULT_LIMITS.totalEvents), OrDefault(l.totalBytes, DEFAULT_LIMITS.totalBytes))
  }

  datatype Kind = Login | Turn | Goal | Compaction

  datatype Key = Key(kind: Kind, id: string)

  datatype Error =
    | Failed(cause: string)
    | NotRegistered(key: Key)
    | WaiterExists | WaiterLimit
    | RouteEventLimit(key: Key) | RouteByteLimit(key: Key)
    | GlobalEventLimit | GlobalByteLimit
    | TotalEventLimit | TotalByteLimit

  /** A queue entry: a notification with its encoded size, or the failure marker FailAll pushes. */
  datatype Item =
    | Note(raw: string, bytes: nat)
    | Marker(error: Error)
  {
    function Size(): nat {
      if Note? then bytes else 0
    }
  }

  /**
    A route state. `queue` is nil until the route is registered; a channel's contents are a sequence.
    `owner` is the map key it was allocated for (none for the global queue), which no branch reads.
   */
  datatype Route = Route(owner: Option<Key>, queue: Option<seq<Item>>, pending: seq<Item>, events: int, bytes: int)
  {
    /** Everything accepted and not yet received: buffered before registration, queued after it. */
    function Contents(): seq<Item> {
      if queue.Some? then queue.value else pending
    }
  }

  function NewRoute(key: Key): Route {
    Route(Some(key), None, [], 0, 0)
  }

  datatype Core = Core(
    limits: PositiveLimits,
    failed: Option<Error>,
    routes: map<Key, nat>,
    closed: set<Key>,
    store: seq<Route>,
    totalEvents: int,
    totalBytes: int)
  {
    /** The channel capacity of a route state's queue. */
    function Capacity(ref: nat): int {
      if ref == 0 then limits.globalEvents else limits.routeEvents
    }

    /** The counters of `ref` are part of the totals: it is the global queue, or still in a route map. */
    predicate Live(ref: nat)
      requires ref < |store|
    {
      Owned(this, store[ref].owner, ref)
    }

    ghost predicate WellFormed() {
      && 1 <= |store| && store[0].queue.Some? && store[0].owner.None?
      && (forall k :: k in routes ==> k !in closed && 1 <= routes[k] < |store| && store[routes[k]].owner == Some(k))
      && (forall r :: 1 <= r < |store| ==> store[r].owner.Some?)
      && (forall r :: 0 <= r < |store| && store[r].queue.Some? ==> store[r].pending == [])
    }
  }

  function NewCore(limits: Limits): (c: Core)
    ensures c.WellFormed()
  {
    Core(NormalizeLimits(limits), None, map[], {}, [Route(None, Some([]), [], 0, 0)], 0, 0)
  }

  /** The route map entry for `key`, allocated when missing. */
  function WithRoute(c: Core, key: Key): Core {
    if key in c.routes then c else c.(routes := c.routes[key := |c.store|], store := c.store + [NewRoute(key)])
  }

  function SetRoute(c: Core, ref: nat, r: Route): Core
    requires ref < |c.store|
  {
    c.(store := c.store[ref := r])
  }

  function OpenQueue(r: Route): Route {
    if r.queue.Some? then r else r.(queue := Some(r.pending), pending := [])
  }

  function Register(c: Core, key: Key): (Core, Option<Error>)
    requires c.WellFormed()
  {
    if c.failed.Some? then
      (c, c.failed)
    else
      var c1 := WithRoute(c.(closed := c.closed - {key}), key);
      var ref := c1.routes[key];
      (SetRoute(c1, ref, OpenQueue(c1.store[ref])), None)
  }

  function Unregister(c: Core, key: Key): Core
    requires c.WellFormed()
  {
    var c1 :=
      if key in c.routes then
        var r := c.store[c.routes[key]];
        c.(totalEvents := c.totalEvents - r.events, totalBytes := c.totalBytes - r.bytes)
      else
        c;
    c1.(routes := c1.routes - {key}, closed := c1.closed + {key})
  }

  /** Charges the totals for one item, or says which total limit forbids it. */
  function ReserveTotal(c: Core, size: nat): (Core, Option<Error>) {
    if c.totalEvents + 1 > c.limits.totalEvents then
      (c, Some(TotalEventLimit))
    else if c.totalBytes + size > c.limits.totalBytes then
      (c, Some(TotalByteLimit))
    else
      (c.(totalEvents := c.totalEvents + 1, totalBytes := c.totalBytes + size), None)
  }

  /** Appends to the channel when there is one, to the pending buffer otherwise. */
  function Put(r: Route, item: Item): Route {
    if r.queue.Some? then r.(queue := Some(r.queue.value + [item])) else r.(pending := r.pending + [item])
  }

  function Charge(r: Route, item: Item): Route {
    r.(events := r.events + 1, bytes := r.bytes + item.Size())
  }

  /** True when the call leaves the state alone without an error. */
  predicate Ignores(c: Core, key: Key, onlyIfRegistered: bool) {
    key in c.closed || (onlyIfRegistered && key !in c.routes)
  }

  function RouteScoped(c: Core, key: Key, item: Item, onlyIfRegistered: bool): (Core, Option<Error>)
    requires c.WellFormed()
  {
    if c.failed.Some? then
      (c, c.failed)
    else if Ignores(c, key, onlyIfRegistered) then
      (c, None)
    else
      Enqueue(WithRoute(c, key), key, item)
  }

  function Enqueue(c: Core, key: Key, item: Item): (Core, Option<Error>)
    requires key in c.routes && c.routes[key] < |c.store|
  {
    var ref := c.routes[key];
    var r := c.store[ref];
    if r.events + 1 > c.limits.routeEvents then
      (c, Some(RouteEventLimit(key)))
    else if r.bytes + item.Size() > c.limits.routeBytes then
      (c, Some(RouteByteLimit(key)))
    else
      var (c1, err) := ReserveTotal(c, item.Size());
      if err.Some? then (c, err) else (SetRoute(c1, ref, Put(Charge(r, item), item)), None)
  }

  function RouteGlobal(c: Core, item: Item): (Core, Option<Error>)
    requires c.WellFormed()
  {
    var r := c.store[0];
    if c.failed.Some? then
      (c, c.failed)
    else if r.events + 1 > c.limits.globalEvents then
      (c, Some(GlobalEventLimit))
    else if r.bytes + item.Size() > c.limits.globalBytes then
      (c, Some(GlobalByteLimit))
    else
      var (c1, err) := ReserveTotal(c, item.Size());
      if err.Some? then (c, err) else (SetRoute(c1, 0, Put(Charge(r, item), item)), None)
  }

  /** The receive half of a consumer: takes the head of the channel, without the lock. */
  function Receive(c: Core, ref: nat): (Core, Item)
    requires ref < |c.store| && c.store[ref].queue.Some? && c.store[ref].queue.value != []
  {
    var q := c.store[ref].queue.value;
    (SetRoute(c, ref, c.store[ref].(queue := Some(q[1..]))), q[0])
  }

  /** The counters of `ref` still belong to its owner: no owner means the global queue. */
  predicate Owned(c: Core, owner: Option<Key>, ref: nat) {
    owner.None? || (owner.value in c.routes && c.routes[owner.value] == ref)
  }

  /** The release half: gives the item back unless the route state has left the map meanwhile. */
  function Release(c: Core, owner: Option<Key>, ref: nat, item: Item): Core
    requires ref < |c.store|
  {
    if Owned(c, owner, ref) then
      var r := c.store[ref];
      SetRoute(c, ref, r.(events := r.events - 1, bytes := r.bytes - item.Size()))
        .(totalEvents := c.totalEvents - 1, totalBytes := c.totalBytes - item.Size())
    else
      c
  }

  /** The queues FailAll takes a snapshot of: every registered route's channel, and the global queue. */
  ghost function Channels(c: Core): (s: set<nat>)
    requires c.WellFormed()
    ensures 0 in s
    ensures forall r :: r in s ==> r < |c.store| && c.store[r].queue.Some?
  {
    {0} + set k | k in c.routes && c.store[c.routes[k]].queue.Some? :: c.routes[k]
  }

  /** A non-blocking send: dropped when the channel is full. */
  function TrySend(c: Core, ref: nat, item: Item): Core
    requires ref < |c.store| && c.store[ref].queue.Some?
  {
    SetRoute(c, ref, Poke(c.store[ref], item, c.Capacity(ref)))
  }

  function Poke(r: Route, item: Item, capacity: int): Route
    requires r.queue.Some?
  {
    if |r.queue.value| < capacity then r.(queue := Some(r.queue.value + [item])) else r
  }

  // ---- notifications ----

  /** A decoded notification; an absent id is the empty string. `raw` is the encoded envelope. */
  datatype Notification = Notification(
    method_: string, loginId: string, turnId: string, threadId: string, raw: string, bytes: nat)

  predicate GoalRelevant(method_: string) {
    method_ in {"thread/goal/updated", "thread/goal/cleared", "turn/started", "turn/completed", "turn/failed"}
  }

  datatype Target = Scoped(key: Key, onlyIfRegistered: bool) | Global

  /** Where one notification goes, in order. */
  function Targets(n: Notification): seq<Target> {
    if n.method_ == "thread/compacted" && n.threadId != "" then
      [Scoped(Key(Compaction, n.threadId), false)]
    else if n.method_ == "account/login/completed" && n.loginId != "" then
      [Scoped(Key(Login, n.loginId), false)]
    else
      TurnAndThreadTargets(n)
  }

  function TurnAndThreadTargets(n: Notification): seq<Target> {
    (if n.turnId != "" then [Scoped(Key(Turn, n.turnId), false)] else [])
    + (if n.threadId != "" && GoalRelevant(n.method_) then [Scoped(Key(Goal, n.threadId), true)] else [])
    + (if n.turnId == "" then [Global] else [])
  }

  function DeliverOne(c: Core, item: Item, t: Target): (Core, Option<Error>)
    requires c.WellFormed()
  {
    match t
    case Scoped(key, onlyIfRegistered) => RouteScoped(c, key, item, onlyIfRegistered)
    case Global => RouteGlobal(c, item)
  }
}
