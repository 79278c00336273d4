/**
  The message router as an object, method by method, proved against the functions of RouterState.
  A method body is what runs under the mutex; a channel send is a method that must find a free slot.
 */
module MessageRouterImpl {
  import opened Wrappers
  import opened RouterDelivery
  import opened RouterMeaning
  import opened RouterState
  import Machine = RouterMachine

  /** A one-shot response channel: capacity one. */
  class Waiter {
    var box: seq<Response>

    constructor ()
      ensures box == []
    {
      box := [];
    }

    /** Would block on a full channel, so it may only be called on an empty one. */
    method Send(response: Response)
      requires box == []
      modifies this
      ensures box == [response]
    {
      box := [response];
    }
  }

  /** What a Next call does without interference; `Waits` stands for blocking in the select statement. */
  datatype NextResult = Received(item: Item) | Error(error: RouterState.Error) | Waits

  datatype Response = Response(result: string, error: Option<Error>)

  /** Every waiter of the map has received the response, once. */
  ghost predicate AllAnswered(waiters: map<string, Waiter>, response: Response)
    reads waiters.Values
  {
    forall id :: id in waiters ==> waiters[id].box == [response]
  }

  class RouteState {
    var queue: Option<seq<Item>>
    var pending: seq<Item>
    var events: int
    var bytes: int
    ghost const owner: Key
    ghost const ref: nat

    constructor (ghost owner: Key, ghost ref: nat)
      ensures Value() == NewRoute(owner) && this.ref == ref
    {
      this.owner, this.ref := owner, ref;
      queue, pending, events, bytes := None, [], 0, 0;
    }

    ghost function Value(): Route
      reads this
    {
      Route(Some(owner), queue, pending, events, bytes)
    }

    /** A channel send under the mutex: it would block for ever without a free slot. */
    method Send(item: Item, capacity: int)
      requires queue.Some? && |queue.value| < capacity
      modifies this`queue
      ensures queue == Some(old(queue.value) + [item])
    {
      queue := Some(queue.value + [item]);
    }

    /** Makes the channel and replays the notifications that came before the registration. */
    method Open(capacity: int)
      requires queue.None? && |pending| <= capacity
      modifies this
      ensures Value() == OpenQueue(old(Value()))
    {
      queue := Some([]);
      var i := 0;
      while i < |pending|
        invariant 0 <= i <= |pending|
        invariant queue == Some(pending[..i])
        invariant pending == old(pending) && events == old(events) && bytes == old(bytes)
      {
        Send(pending[i], capacity);
        i := i + 1;
        assert pending[..i] == pending[..i - 1] + [pending[i - 1]];
      }
      assert pending[..i] == pending;
      pending := [];
    }

    /** Counts one item and hands it to the channel, or to the pending buffer before the registration. */
    method Accept(item: Item, capacity: int)
      requires queue.Some? ==> |queue.value| < capacity
      modifies this
      ensures Value() == Put(Charge(old(Value()), item), item)
    {
      events := events + 1;
      bytes := bytes + item.Size();
      if queue.None? {
        pending := pending + [item];
      } else {
        Send(item, capacity);
      }
    }

    /** The non-blocking send of FailAll. */
    method TrySend(item: Item, capacity: int)
      requires queue.Some?
      modifies this`queue
      ensures Value() == Poke(old(Value()), item, capacity)
    {
      if |queue.value| < capacity {
        queue := Some(queue.value + [item]);
      }
    }

    /** The non-blocking receive, without the lock. */
    method TryReceive() returns (item: Option<Item>)
      requires queue.Some?
      modifies this`queue
      ensures item.None? <==> old(queue.value) == []
      ensures item.None? ==> queue == old(queue)
      ensures item.Some? ==> item.value == old(queue.value)[0] && queue == Some(old(queue.value)[1..])
    {
      if queue.value == [] {
        return None;
      }
      item := Some(queue.value[0]);
      queue := Some(queue.value[1..]);
    }
  }

  /** Until the failure a channel never holds more than its event count, which is within its capacity. */
  ghost predicate WithinCounters(c: Core)
    requires c.WellFormed()
  {
    && |c.store[0].Contents()| <= c.store[0].events <= c.limits.globalEvents
    && (forall k :: k in c.routes ==>
          |c.store[c.routes[k]].Contents()| <= c.store[c.routes[k]].events <= c.limits.routeEvents)
  }

  /** The channel of a route of `keys`: the part of FailAll's snapshot that those keys make up. */
  predicate ChannelOf(c: Core, keys: set<Key>, ref: nat)
    requires ref < |c.store|
  {
    var r := c.store[ref];
    r.queue.Some? && r.owner.Some? && r.owner.value in keys && Owned(c, r.owner, ref)
  }

  /** The marker is in the channel of every route of `keys` that had a free slot. */
  ghost function Poked(c: Core, error: Error, keys: set<Key>): Core {
    c.(store := seq(|c.store|, i requires 0 <= i < |c.store| =>
         if ChannelOf(c, keys, i) then Poke(c.store[i], Marker(error), c.Capacity(i)) else c.store[i]))
  }

  /** FailAll without interference. */
  ghost function FailedAll(c: Core, error: Error): Core
    requires c.WellFormed()
  {
    if c.failed.Some? then
      c
    else
      TrySend(Poked(c.(failed := Some(error)), error, c.routes.Keys), 0, Marker(error))
  }

  /** A channel after FailAll: one item longer, by the error, if there was a slot for it. */
  ghost predicate GotMarker(r: Route, s: Route, error: Error, capacity: int) {
    && s.queue.Some? == r.queue.Some? && s.pending == r.pending && s.events == r.events && s.bytes == r.bytes
    && (r.queue.Some? ==>
          s.queue.value == r.queue.value + (if |r.queue.value| < capacity then [Marker(error)] else []))
  }

  /** After FailAll: the failure is set, every channel has the error behind its contents, nothing else changed. */
  ghost predicate Failing(c: Core, d: Core, error: Error) {
    if c.failed.Some? then
      d == c
    else
      && d.failed == Some(error) && d.routes == c.routes && d.closed == c.closed && d.limits == c.limits
      && d.totalEvents == c.totalEvents && d.totalBytes == c.totalBytes
      && (forall k :: k in c.routes ==> GotMarker(At(c, k), At(d, k), error, c.limits.routeEvents))
      && 1 <= |c.store| && 1 <= |d.store| && GotMarker(c.store[0], d.store[0], error, c.limits.globalEvents)
  }

  lemma FailedAllMeans(c: Core, error: Error)
    requires c.WellFormed()
    ensures Failing(c, FailedAll(c, error), error)
  {
    if c.failed.None? {
      var d := FailedAll(c, error);
      forall k | k in c.routes
        ensures GotMarker(At(c, k), At(d, k), error, c.limits.routeEvents)
      {
        assert c.store[c.routes[k]].owner == Some(k);
      }
    }
  }

  lemma PokedNothing(c: Core, error: Error)
    ensures Poked(c, error, {}) == c
  {
    assert Poked(c, error, {}).store == c.store;
  }

  lemma PokedKeeps(c: Core, error: Error, keys: set<Key>)
    requires c.WellFormed()
    ensures Poked(c, error, keys).WellFormed()
  {
  }

  lemma PokedMore(c: Core, error: Error, keys: set<Key>, k: Key)
    requires c.WellFormed() && k in c.routes && k !in keys
    ensures var d := Poked(c, error, keys);
      && d.store[c.routes[k]] == c.store[c.routes[k]]
      && Poked(c, error, keys + {k}) ==
           if d.store[c.routes[k]].queue.Some? then TrySend(d, c.routes[k], Marker(error)) else d
  {
    var d := Poked(c, error, keys);
    var ref := c.routes[k];
    var e := Poked(c, error, keys + {k});
    assert forall i :: 0 <= i < |c.store| && i != ref ==> ChannelOf(c, keys + {k}, i) == ChannelOf(c, keys, i);
    if d.store[ref].queue.Some? {
      assert e.store == TrySend(d, ref, Marker(error)).store;
    } else {
      assert e.store == d.store;
    }
  }

  lemma WithRouteKeeps(c: Core, key: Key)
    requires c.WellFormed() && key !in c.closed
    ensures WithRoute(c, key).WellFormed()
    ensures WithinCounters(c) ==> WithinCounters(WithRoute(c, key))
  {
  }

  lemma OpenQueueKeeps(c: Core, key: Key)
    requires c.WellFormed() && key in c.routes
    ensures var d := SetRoute(c, c.routes[key], OpenQueue(c.store[c.routes[key]]));
      d.WellFormed() && (WithinCounters(c) ==> WithinCounters(d))
  {
  }

  lemma ReceiveKeeps(c: Core, ref: nat)
    requires c.WellFormed() && ref < |c.store| && c.store[ref].queue.Some? && c.store[ref].queue.value != []
    ensures var d := Receive(c, ref).0;
      d.WellFormed() && (WithinCounters(c) ==> WithinCounters(d))
  {
  }

  /** Releasing keeps a channel within its count as long as an item of it is really held. */
  lemma ReleaseKeeps(c: Core, ref: nat, item: Item)
    requires c.WellFormed() && ref < |c.store|
    ensures var d := Release(c, c.store[ref].owner, ref, item);
      && d.WellFormed()
      && (WithinCounters(c) && |c.store[ref].Contents()| < c.store[ref].events ==> WithinCounters(d))
  {
  }

  lemma SetSame(c: Core, ref: nat)
    requires ref < |c.store|
    ensures SetRoute(c, ref, c.store[ref]) == c
  {
  }

  /** Charging and storing one item in a route state that has room for it. */
  lemma PutKeeps(c: Core, ref: nat, item: Item)
    requires c.WellFormed() && ref < |c.store| && c.Live(ref)
    requires c.store[ref].events < c.Capacity(ref)
    ensures var d := SetRoute(c, ref, Put(Charge(c.store[ref], item), item));
      d.WellFormed() && (WithinCounters(c) ==> WithinCounters(d))
  {
  }

  class MessageRouter {
    const limits: PositiveLimits
    var failed: Option<Error>
    var responseWaiters: map<string, Waiter>
    var routes: map<Key, RouteState>
    var closed: set<Key>
    var globalQueue: seq<Item>
    var globalEvents: int
    var globalBytes: int
    var totalEvents: int
    var totalBytes: int

    /** The value the fields stand for. */
    ghost var model: Core

    /** A registered or pending route's object carries its place in the model's store, and its value. */
    ghost predicate Linked(k: Key)
      reads this`routes, this`model, routes.Values
      requires k in routes
    {
      && k in model.routes && model.routes[k] < |model.store|
      && routes[k].ref == model.routes[k]
      && routes[k].Value() == model.store[model.routes[k]]
    }

    ghost predicate Represents()
      reads this`failed, this`routes, this`closed, this`globalQueue, this`globalEvents, this`globalBytes
      reads this`totalEvents, this`totalBytes, this`model, routes.Values
    {
      && model == Core(limits, failed, model.routes, closed, model.store, totalEvents, totalBytes)
      && 1 <= |model.store|
      && model.store[0] == Route(None, Some(globalQueue), [], globalEvents, globalBytes)
      && (forall k :: k in model.routes ==> k in routes)
      && (forall k :: k in routes ==> Linked(k))
    }

    ghost predicate Valid()
      reads this`failed, this`routes, this`closed, this`globalQueue, this`globalEvents, this`globalBytes
      reads this`totalEvents, this`totalBytes, this`model, routes.Values
    {
      && Represents()
      && model.WellFormed()
      && (failed.None? ==> WithinCounters(model))
    }

    constructor (limits: Limits)
      ensures Valid() && model == NewCore(limits)
      ensures responseWaiters == map[] && routes == map[]
    {
      this.limits := NormalizeLimits(limits);
      failed, responseWaiters, routes, closed := None, map[], map[], {};
      globalQueue, globalEvents, globalBytes, totalEvents, totalBytes := [], 0, 0, 0, 0;
      model := NewCore(limits);
    }

    lemma FieldsAreTheModels()
      requires Valid()
      ensures failed == model.failed && totalEvents == model.totalEvents && totalBytes == model.totalBytes
    {
    }

    /** Adds an empty route state under a key that has none. */
    method Allocate(key: Key)
      requires Valid() && key !in closed && key !in routes
      modifies this`routes, this`model
      ensures Valid() && model == WithRoute(old(model), key)
      ensures routes == old(routes)[key := routes[key]] && fresh(routes[key])
    {
      WithRouteKeeps(model, key);
      var state := new RouteState(key, |model.store|);
      routes := routes[key := state];
      model := WithRoute(model, key);
    }

    /** The channel of a route that has none yet, filled with what was pending. */
    method OpenState(key: Key)
      requires Valid() && key in routes && routes[key].queue.None? && failed.None?
      modifies routes[key], this`model
      ensures Valid()
      ensures model == SetRoute(old(model), old(model).routes[key], OpenQueue(old(model).store[old(model).routes[key]]))
    {
      OpenQueueKeeps(model, key);
      assert Linked(key);
      routes[key].Open(limits.routeEvents);
      model := SetRoute(model, model.routes[key], OpenQueue(model.store[model.routes[key]]));
      OthersStayLinked(key);
    }

    /** Route states are distinct objects: writing one leaves the others as the model has them. */
    twostate lemma OthersStayLinked(key: Key)
      requires old(Represents()) && old(model).WellFormed() && key in routes && routes == old(routes)
      requires model.routes == old(model).routes
      requires model.store == old(model).store[old(model).routes[key] := routes[key].Value()]
      requires forall k :: k in routes && routes[k] != routes[key] ==> unchanged(routes[k])
      ensures forall k :: k in routes ==> Linked(k)
    {
      forall k | k in routes
        ensures Linked(k)
      {
        assert old(Linked(k)) && old(Linked(key));
      }
    }

    /** Entries that were not in the map before hold new objects. */
    twostate predicate OnlyNewRoutes()
      reads this
    {
      forall k :: k in routes ==> fresh(routes[k]) || (k in old(routes) && routes[k] == old(routes[k]))
    }

    lemma RoutesAreTheModels()
      requires Valid()
      ensures closed == model.closed && forall k :: k in routes <==> k in model.routes
      ensures forall k :: k in routes ==> Linked(k)
    {
    }

    /** The tombstone of an id that is used again goes away. */
    method Untomb(key: Key)
      requires Valid()
      modifies this`closed, this`model
      ensures Valid() && model == old(model).(closed := old(model).closed - {key})
    {
      closed := closed - {key};
      model := model.(closed := closed);
      assert forall k :: k in routes ==> old(Linked(k));
    }

    method RegisterRoute(key: Key) returns (err: Option<Error>)
      requires Valid()
      modifies this`closed, this`routes, this`model, routes.Values
      ensures Valid() && (model, err) == Register(old(model), key)
      ensures OnlyNewRoutes()
    {
      hide WithinCounters, Represents;
      FieldsAreTheModels();
      err := failed;
      if failed.None? {
        Untomb(key);
        RoutesAreTheModels();
        if key !in routes {
          Allocate(key);
          RoutesAreTheModels();
        }
        SetSame(model, model.routes[key]);
        if routes[key].queue.None? {
          OpenState(key);
        }
      }
    }

    method UnregisterRoute(key: Key)
      requires Valid()
      modifies this`closed, this`routes, this`model, this`totalEvents, this`totalBytes
      ensures Valid() && model == Unregister(old(model), key)
      ensures OnlyNewRoutes()
    {
      if key in routes {
        assert Linked(key);
        totalEvents := totalEvents - routes[key].events;
        totalBytes := totalBytes - routes[key].bytes;
        model := model.(totalEvents := totalEvents, totalBytes := totalBytes);
      }
      TakeOut(key);
      Entomb(key);
    }

    /** Takes the entry out of the map. */
    method TakeOut(key: Key)
      requires Valid()
      modifies this`routes, this`model
      ensures Valid() && model == old(model).(routes := old(model).routes - {key}) && OnlyNewRoutes()
    {
      ghost var before := routes;
      routes := routes - {key};
      assert forall k :: k in routes ==> k in before && routes[k] == before[k];
      model := model.(routes := model.routes - {key});
      forall k | k in routes
        ensures Linked(k)
      {
        assert old(Linked(k));
      }
    }

    /** Leaves the tombstone. */
    method Entomb(key: Key)
      requires Valid() && key !in model.routes
      modifies this`closed, this`model
      ensures Valid() && model == old(model).(closed := old(model).closed + {key})
    {
      closed := closed + {key};
      model := model.(closed := closed);
      assert forall k :: k in routes ==> old(Linked(k));
    }

    method ReserveTotal(size: nat) returns (err: Option<Error>)
      requires Valid()
      modifies this`totalEvents, this`totalBytes, this`model
      ensures Valid() && (model, err) == RouterState.ReserveTotal(old(model), size)
    {
      if totalEvents + 1 > limits.totalEvents {
        err := Some(TotalEventLimit);
      } else if totalBytes + size > limits.totalBytes {
        err := Some(TotalByteLimit);
      } else {
        err := None;
        totalEvents := totalEvents + 1;
        totalBytes := totalBytes + size;
        model := RouterState.ReserveTotal(model, size).0;
      }
    }

    /** Stores a charged item; the slot is free because the event count was below the limit. */
    method PutState(key: Key, item: Item)
      requires Valid() && key in routes && failed.None? && routes[key].events < limits.routeEvents
      modifies routes[key], this`model
      ensures Valid()
      ensures model == SetRoute(old(model), old(model).routes[key],
                                Put(Charge(old(model).store[old(model).routes[key]], item), item))
    {
      assert Linked(key);
      PutKeeps(model, model.routes[key], item);
      routes[key].Accept(item, limits.routeEvents);
      model := SetRoute(model, model.routes[key], Put(Charge(model.store[model.routes[key]], item), item));
      OthersStayLinked(key);
    }

    method RouteScoped(key: Key, item: Item, onlyIfRegistered: bool) returns (err: Option<Error>)
      requires Valid()
      modifies this`routes, this`model, this`totalEvents, this`totalBytes, routes.Values
      ensures Valid() && (model, err) == RouterState.RouteScoped(old(model), key, item, onlyIfRegistered)
      ensures ScopedVerdict(old(model), key, item, onlyIfRegistered, err)
      ensures OnlyNewRoutes()
    {
      ScopedAcceptsIff(model, key, item, onlyIfRegistered);
      hide ScopedVerdict, WithinCounters, Represents, RouterState.Enqueue;
      FieldsAreTheModels();
      RoutesAreTheModels();
      err := failed;
      if failed.None? && key !in closed {
        if !onlyIfRegistered || key in routes {
          if key !in routes {
            Allocate(key);
            RoutesAreTheModels();
          }
          err := Enqueue(key, item);
        }
      }
    }

    /** The limit checks and the send, with the route state at hand. */
    method Enqueue(key: Key, item: Item) returns (err: Option<Error>)
      requires Valid() && key in routes && failed.None?
      modifies this`model, this`totalEvents, this`totalBytes, routes[key]
      ensures Valid() && (model, err) == RouterState.Enqueue(old(model), key, item)
    {
      assert Linked(key);
      var state := routes[key];
      if state.events + 1 > limits.routeEvents {
        err := Some(RouteEventLimit(key));
      } else if state.bytes + item.Size() > limits.routeBytes {
        err := Some(RouteByteLimit(key));
      } else {
        err := ReserveAndPut(key, item);
      }
    }

    method ReserveAndPut(key: Key, item: Item) returns (err: Option<Error>)
      requires Valid() && key in routes && failed.None? && routes[key].events < limits.routeEvents
      modifies this`model, this`totalEvents, this`totalBytes, routes[key]
      ensures Valid()
      ensures var (c, e) := RouterState.ReserveTotal(old(model), item.Size());
        var ref := old(model).routes[key];
        err == e && model == if e.Some? then old(model) else SetRoute(c, ref, Put(Charge(c.store[ref], item), item))
    {
      err := ReserveTotal(item.Size());
      if err.None? {
        PutState(key, item);
      }
    }

    /** Charges the global counters and sends; the slot is free because the event count was below the limit. */
    method PutGlobal(item: Item)
      requires Valid() && failed.None? && globalEvents < limits.globalEvents
      modifies this`model, this`globalQueue, this`globalEvents, this`globalBytes
      ensures Valid() && model == SetRoute(old(model), 0, Put(Charge(old(model).store[0], item), item))
    {
      assert |globalQueue| < limits.globalEvents;  // the free slot for the send below
      PutKeeps(model, 0, item);
      ghost var next := SetRoute(model, 0, Put(Charge(model.store[0], item), item));
      assert next.store[0] == Route(None, Some(globalQueue + [item]), [], globalEvents + 1, globalBytes + item.Size());
      hide WithinCounters, Put, Charge;
      globalEvents, globalBytes := globalEvents + 1, globalBytes + item.Size();
      globalQueue := globalQueue + [item];
      model := next;
    }

    method RouteGlobal(item: Item) returns (err: Option<Error>)
      requires Valid()
      modifies this`model, this`globalQueue, this`globalEvents, this`globalBytes, this`totalEvents, this`totalBytes
      ensures Valid() && (model, err) == RouterState.RouteGlobal(old(model), item)
      ensures GlobalVerdict(old(model), item, err)
    {
      GlobalAcceptsIff(model, item);
      hide GlobalVerdict;
      err := failed;
      if failed.None? {
        if globalEvents + 1 > limits.globalEvents {
          err := Some(GlobalEventLimit);
        } else if globalBytes + item.Size() > limits.globalBytes {
          err := Some(GlobalByteLimit);
        } else {
          err := ReserveTotal(item.Size());
          if err.None? {
            PutGlobal(item);
          }
        }
      }
    }

    /** One delivery attempt; nothing is tried after an error. */
    method DeliverNext(item: Item, t: Target, before: Option<Error>) returns (err: Option<Error>)
      requires Valid()
      modifies this`routes, this`model, this`totalEvents, this`totalBytes
      modifies this`globalQueue, this`globalEvents, this`globalBytes, routes.Values
      ensures Valid() && OnlyNewRoutes()
      ensures (model, err) == if before.Some? then (old(model), before) else Deliver(old(model), item, [t])
    {
      DeliverSingle(model, item, t);
      err := before;
      if before.None? {
        match t
        case Scoped(key, onlyIfRegistered) => err := RouteScoped(key, item, onlyIfRegistered);
        case Global => err := RouteGlobal(item);
      }
    }

    method RouteNotification(n: Notification) returns (err: Option<Error>)
      requires Valid()
      modifies this`routes, this`model, this`totalEvents, this`totalBytes
      modifies this`globalQueue, this`globalEvents, this`globalBytes, routes.Values
      ensures Valid() && (model, err) == Deliver(old(model), Note(n.raw, n.bytes), Targets(n))
      ensures old(model).failed.None? ==>
        (err.None? <==> RoomFor(old(model), n)) && (err.None? ==> EndsUp(old(model), model, n))
      ensures old(model).failed.Some? ==> model == old(model) && err == old(model).failed
      ensures OnlyNewRoutes()
    {
      NotificationEndsUp(model, n);
      hide EndsUp, RoomFor, Deliver;
      var item := Note(n.raw, n.bytes);
      if n.method_ == "thread/compacted" && n.threadId != "" {
        err := DeliverNext(item, Scoped(Key(Compaction, n.threadId), false), None);
      } else if n.method_ == "account/login/completed" && n.loginId != "" {
        err := DeliverNext(item, Scoped(Key(Login, n.loginId), false), None);
      } else {
        err := RouteByTurnAndThread(n, item);
      }
    }

    /** The turn's route, then the thread's goal route; only a notification without a turn goes to the global queue. */
    method RouteByTurnAndThread(n: Notification, item: Item) returns (err: Option<Error>)
      requires Valid()
      modifies this`routes, this`model, this`totalEvents, this`totalBytes
      modifies this`globalQueue, this`globalEvents, this`globalBytes, routes.Values
      ensures Valid() && (model, err) == Deliver(old(model), item, TurnAndThreadTargets(n))
      ensures OnlyNewRoutes()
    {
      hide RouterState.RouteScoped, RouterState.RouteGlobal, GoalRelevant, Represents, WithinCounters;
      ghost var c := model;
      ghost var done: seq<Target> := [];
      err := None;
      if n.turnId != "" {
        err := DeliverNext(item, Scoped(Key(Turn, n.turnId), false), err);
        done := [Scoped(Key(Turn, n.turnId), false)];
      }
      if n.threadId != "" && GoalRelevant(n.method_) {
        DeliverAppend(c, item, done, [Scoped(Key(Goal, n.threadId), true)]);
        err := DeliverNext(item, Scoped(Key(Goal, n.threadId), true), err);
        done := done + [Scoped(Key(Goal, n.threadId), true)];
      }
      if n.turnId == "" {
        DeliverAppend(c, item, done, [Global]);
        err := DeliverNext(item, Global, err);
        done := done + [Global];
      }
      assert done == TurnAndThreadTargets(n);
    }

    /** The receive without the lock: the model's channel loses its head. */
    method ReceiveFrom(key: Key) returns (item: Option<Item>)
      requires Valid() && key in routes && routes[key].queue.Some?
      modifies this`model, routes[key]
      ensures Valid()
      ensures var ref := old(model).routes[key];
        var q := old(model).store[ref].Contents();
        if q == [] then item.None? && model == old(model)
        else item == Some(q[0]) && model == Receive(old(model), ref).0
    {
      assert Linked(key);
      item := routes[key].TryReceive();
      if item.Some? {
        ReceiveKeeps(model, model.routes[key]);
        model := Receive(model, model.routes[key]).0;
        OthersStayLinked(key);
      }
    }

    /** The release under the lock, for a route state that is still in the map. */
    method ReleaseRouteItem(key: Key, item: Item)
      requires Valid() && key in routes
      requires failed.None? ==> |routes[key].Value().Contents()| < routes[key].events
      modifies this`model, this`totalEvents, this`totalBytes, routes[key]
      ensures Valid() && model == Release(old(model), Some(key), old(model).routes[key], item)
    {
      assert Linked(key);
      ReleaseKeeps(model, model.routes[key], item);
      routes[key].events := routes[key].events - 1;
      routes[key].bytes := routes[key].bytes - item.Size();
      totalEvents := totalEvents - 1;
      totalBytes := totalBytes - item.Size();
      model := Release(model, Some(key), model.routes[key], item);
      OthersStayLinked(key);
    }

    /** A whole nextRoute call that nothing interferes with. */
    method NextRoute(key: Key) returns (r: NextResult)
      requires Valid()
      modifies this`model, this`totalEvents, this`totalBytes, routes.Values
      ensures Valid()
      ensures r ==
        if key !in old(model).routes || old(model).store[old(model).routes[key]].queue.None? then
          Error(NotRegistered(key))
        else if old(model).store[old(model).routes[key]].Contents() != [] then
          Received(old(model).store[old(model).routes[key]].Contents()[0])
        else if failed.Some? then
          Error(failed.value)
        else
          Waits
      ensures model ==
        if r.Received? then
          var ref := old(model).routes[key];
          Release(Receive(old(model), ref).0, Some(key), ref, r.item)
        else
          old(model)
    {
      r := Error(NotRegistered(key));
      if key in routes {
        assert Linked(key);
        if routes[key].queue.Some? {
          var item := ReceiveFrom(key);
          assert Linked(key);
          if item.Some? {
            ReleaseRouteItem(key, item.value);
            r := Received(item.value);
          } else {
            r := if failed.Some? then Error(failed.value) else Waits;
          }
        }
      }
    }

    // ---- FailAll ----

    /** One non-blocking send of the marker. */
    method PokeState(key: Key, marker: Item)
      requires Valid() && failed.Some? && key in routes && routes[key].queue.Some?
      modifies this`model, routes[key]
      ensures Valid()
      ensures old(model).routes[key] < |old(model).store| && old(model).store[old(model).routes[key]].queue.Some?
      ensures model == TrySend(old(model), old(model).routes[key], marker)
    {
      assert Linked(key);
      Machine.TrySendExtends(model, model.routes[key], marker);
      routes[key].TrySend(marker, limits.routeEvents);
      model := TrySend(model, model.routes[key], marker);
      OthersStayLinked(key);
    }

    /** The body of FailAll's loop over the routes. */
    method PokeNext(k: Key, error: Error, ghost before: Core, ghost served: set<Key>)
      requires Represents() && failed == Some(error) && k in routes && k !in served
      requires before.WellFormed() && model == Poked(before, error, served)
      modifies this`model, routes.Values
      ensures Represents() && model == Poked(before, error, served + {k})
    {
      PokedKeeps(before, error, served);
      assert Linked(k);
      PokedMore(before, error, served, k);
      if routes[k].queue.Some? {
        PokeState(k, Marker(error));
      }
    }

    /** Pokes every registered route in whatever order the map is walked. */
    method PokeRoutes(error: Error)
      requires Valid() && failed == Some(error)
      modifies this`model, routes.Values
      ensures Represents() && model == Poked(old(model), error, routes.Keys)
    {
      ghost var before, served := model, {};
      assert Represents() && before.WellFormed();
      hide *;
      var todo := routes.Keys;
      PokedNothing(before, error);
      while todo != {}
        invariant forall k :: k in routes <==> k in todo || k in served
        invariant Represents() && model == Poked(before, error, served)
        invariant forall k :: k in todo ==> k !in served
        decreases |todo|
      {
        var k :| k in todo;
        PokeNext(k, error, before, served);
        todo, served := todo - {k}, served + {k};
      }
      assert served == routes.Keys;
    }

    /** A whole FailAll call that nothing interferes with; a second one does nothing. */
    method FailAll(cause: string)
      requires Valid() && WaitersValid()
      modifies this`failed, this`model, this`responseWaiters, this`globalQueue, routes.Values, responseWaiters.Values
      ensures Valid() && model == FailedAll(old(model), Failed(cause)) && Failing(old(model), model, Failed(cause))
      ensures old(failed).None? ==> responseWaiters == map[] && AllAnswered(old(responseWaiters), Response("", Some(Failed(cause))))
      ensures old(failed).Some? ==> responseWaiters == old(responseWaiters) && unchanged(responseWaiters.Values)
    {
      FailedAllMeans(model, Failed(cause));
      hide Failing;
      if failed.None? {
        FailOnce(Failed(cause));
      }
    }

    /** The flag, the waiters, the routes, the global queue. */
    method FailOnce(error: Error)
      requires Valid() && WaitersValid() && failed.None?
      modifies this`failed, this`model, this`responseWaiters, this`globalQueue, routes.Values, responseWaiters.Values
      ensures Valid() && model == FailedAll(old(model), error)
      ensures responseWaiters == map[] && AllAnswered(old(responseWaiters), Response("", Some(error)))
    {
      RaiseFlag(error);
      FailWaiters(error);
      FailQueues(error);
    }

    method RaiseFlag(error: Error)
      requires Valid() && failed.None?
      modifies this`failed, this`model
      ensures Valid() && failed == Some(error) && model == old(model).(failed := Some(error))
    {
      failed := Some(error);
      model := model.(failed := failed);
    }

    /** Serves every channel of the snapshot. */
    method FailQueues(error: Error)
      requires Valid() && failed == Some(error)
      modifies this`model, this`globalQueue, routes.Values
      ensures Valid() && model == TrySend(Poked(old(model), error, old(model).routes.Keys), 0, Marker(error))
    {
      assert routes.Keys == model.routes.Keys;
      PokedKeeps(model, error, routes.Keys);
      PokeRoutes(error);
      PokeGlobal(error);
    }

    method PokeGlobal(error: Error)
      requires Valid() && failed.Some?
      modifies this`globalQueue, this`model
      ensures Valid() && model == TrySend(old(model), 0, Marker(error))
    {
      Machine.TrySendExtends(model, 0, Marker(error));
      if |globalQueue| < limits.globalEvents {
        globalQueue := globalQueue + [Marker(error)];
      }
      model := TrySend(model, 0, Marker(error));
    }

    // ---- response waiters ----

    /** The map holds unanswered waiters only, each under one id. */
    ghost predicate WaitersValid()
      reads this`responseWaiters, responseWaiters.Values
    {
      && (forall id :: id in responseWaiters ==> responseWaiters[id].box == [])
      && (forall i, j :: i in responseWaiters && j in responseWaiters && responseWaiters[i] == responseWaiters[j] ==> i == j)
    }

    method CreateResponseWaiter(id: string) returns (r: Result<Waiter, Error>)
      requires WaitersValid()
      modifies this`responseWaiters
      ensures WaitersValid()
      ensures r.Err? ==> responseWaiters == old(responseWaiters)
      ensures r.Err? <==> failed.Some? || id in old(responseWaiters) || |old(responseWaiters)| >= limits.responseWaiters
      ensures r.Err? ==>
        r == Err(if failed.Some? then failed.value else if id in responseWaiters then WaiterExists else WaiterLimit)
      ensures r.Ok? ==> fresh(r.value) && r.value.box == [] && responseWaiters == old(responseWaiters)[id := r.value]
    {
      if failed.Some? {
        return Err(failed.value);
      }
      if id in responseWaiters {
        return Err(WaiterExists);
      }
      if |responseWaiters| >= limits.responseWaiters {
        return Err(WaiterLimit);
      }
      var waiter := new Waiter();
      responseWaiters := responseWaiters[id := waiter];
      return Ok(waiter);
    }

    method DiscardResponseWaiter(id: string)
      requires WaitersValid()
      modifies this`responseWaiters
      ensures WaitersValid() && responseWaiters == old(responseWaiters) - {id}
    {
      responseWaiters := responseWaiters - {id};
    }

    /** Takes the waiter out of the map, then answers it; its channel is empty, so the send cannot block. */
    method RouteResponse(id: string, response: Response)
      requires WaitersValid()
      modifies this`responseWaiters, responseWaiters.Values
      ensures WaitersValid() && responseWaiters == old(responseWaiters) - {id}
      ensures id in old(responseWaiters) ==> old(responseWaiters[id]).box == [response]
      ensures forall i :: i in old(responseWaiters) && i != id ==> unchanged(old(responseWaiters[i]))
    {
      if id in responseWaiters {
        var waiter := responseWaiters[id];
        responseWaiters := responseWaiters - {id};
        waiter.Send(response);
      }
    }

    /** Empties the map and answers every waiter with the failure. */
    method FailWaiters(error: Error)
      requires Valid() && WaitersValid()
      modifies this`responseWaiters, responseWaiters.Values
      ensures Valid()
      ensures responseWaiters == map[]
      ensures AllAnswered(old(responseWaiters), Response("", Some(error)))
    {
      var waiters := responseWaiters;
      responseWaiters := map[];
      AnswerAll(waiters, Response("", Some(error)));
    }
  }

  method AnswerAll(waiters: map<string, Waiter>, response: Response)
    requires forall id :: id in waiters ==> waiters[id].box == []
    requires forall i, j :: i in waiters && j in waiters && waiters[i] == waiters[j] ==> i == j
    modifies waiters.Values
    ensures AllAnswered(waiters, response)
  {
    var todo := waiters.Keys;
    while todo != {}
      invariant todo <= waiters.Keys
      invariant forall id :: id in todo ==> waiters[id].box == []
      invariant forall id :: id in waiters.Keys - todo ==> waiters[id].box == [response]
      decreases |todo|
    {
      var id :| id in todo;
      waiters[id].Send(response);
      todo := todo - {id};
    }
  }
}
