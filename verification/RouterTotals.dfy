/** The totals are the global counters plus the counters of every route in the four maps. */
module RouterTotals {
  import opened Wrappers
  import opened FiniteSums
  import opened RouterState
  import opened RouterMachine

  datatype Unit = Events | Bytes

  function Counter(u: Unit, r: Route): int {
    if u.Events? then r.events else r.bytes
  }

  function Total(u: Unit, c: Core): int {
    if u.Events? then c.totalEvents else c.totalBytes
  }

  function Cost(u: Unit, item: Item): int {
    if u.Events? then 1 else item.Size()
  }

  ghost function Counters(u: Unit, c: Core): map<Key, int>
    requires c.WellFormed()
  {
    map k | k in c.routes :: Counter(u, c.store[c.routes[k]])
  }

  ghost predicate Conserved(u: Unit, c: Core)
    requires c.WellFormed()
  {
    Total(u, c) == Counter(u, c.store[0]) + Sum(Counters(u, c))
  }

  /** The limits hold for the counters: a route state never has more events than its channel has slots. */
  ghost predicate Bounded(c: Core)
    requires c.WellFormed()
  {
    && c.totalEvents <= c.limits.totalEvents && c.totalBytes <= c.limits.totalBytes
    && c.store[0].events <= c.limits.globalEvents && c.store[0].bytes <= c.limits.globalBytes
    && (forall k :: k in c.routes ==>
          && c.store[c.routes[k]].events <= c.limits.routeEvents
          && c.store[c.routes[k]].bytes <= c.limits.routeBytes)
  }

  // ---- each critical section keeps the sums ----

  lemma WithRouteConserves(u: Unit, c: Core, key: Key)
    requires c.WellFormed() && Conserved(u, c) && WithRoute(c, key).WellFormed()
    ensures Conserved(u, WithRoute(c, key))
  {
    var d := WithRoute(c, key);
    if key !in c.routes {
      assert Counters(u, d) == Counters(u, c)[key := 0];
      SumUpdate(Counters(u, c), key, 0);
    }
  }

  /** Replacing one route state by one with the same counter. */
  lemma SameCounterConserves(u: Unit, c: Core, d: Core, ref: nat, r: Route)
    requires c.WellFormed() && Conserved(u, c) && ref < |c.store| && d == SetRoute(c, ref, r) && d.WellFormed()
    requires Counter(u, r) == Counter(u, c.store[ref])
    ensures Conserved(u, d)
  {
    assert Counters(u, d) == Counters(u, c);
  }

  lemma RegisterConserves(u: Unit, c: Core, key: Key)
    requires c.WellFormed() && Conserved(u, c)
    ensures Register(c, key).0.WellFormed() && Conserved(u, Register(c, key).0)
  {
    if c.failed.None? {
      var open := c.(closed := c.closed - {key});
      assert Counters(u, open) == Counters(u, c);
      WithRouteExtends(open, key);
      WithRouteConserves(u, open, key);
      var c1 := WithRoute(open, key);
      var ref := c1.routes[key];
      SetRouteExtends(c1, ref, OpenQueue(c1.store[ref]));
      SameCounterConserves(u, c1, Register(c, key).0, ref, OpenQueue(c1.store[ref]));
    }
  }

  lemma UnregisterConserves(u: Unit, c: Core, key: Key)
    requires c.WellFormed() && Conserved(u, c)
    ensures Unregister(c, key).WellFormed() && Conserved(u, Unregister(c, key))
  {
    var d := Unregister(c, key);
    UnregisterExtends(c, key);
    assert Counters(u, d) == Counters(u, c) - {key};
    SumRemove(Counters(u, c), key);
  }

  /** A route state of the map and the total move together. */
  lemma MoveConserves(u: Unit, c: Core, d: Core, key: Key, delta: int)
    requires c.WellFormed() && d.WellFormed() && Conserved(u, c) && key in c.routes
    requires d.routes == c.routes && |d.store| == |c.store|
    requires forall r :: 0 <= r < |c.store| && r != c.routes[key] ==> d.store[r] == c.store[r]
    requires Counter(u, d.store[c.routes[key]]) == Counter(u, c.store[c.routes[key]]) + delta
    requires Total(u, d) == Total(u, c) + delta
    ensures Conserved(u, d)
  {
    var v := Counter(u, d.store[c.routes[key]]);
    forall k | k in c.routes && k != key
      ensures c.routes[k] != c.routes[key]
    {
      assert c.store[c.routes[k]].owner == Some(k);
    }
    assert Counters(u, d) == Counters(u, c)[key := v];
    SumUpdate(Counters(u, c), key, v);
  }

  lemma EnqueueConserves(u: Unit, c: Core, key: Key, item: Item)
    requires c.WellFormed() && Conserved(u, c) && key in c.routes && Enqueue(c, key, item).0.WellFormed()
    ensures Conserved(u, Enqueue(c, key, item).0)
  {
    var (d, err) := Enqueue(c, key, item);
    if err.None? {
      MoveConserves(u, c, d, key, Cost(u, item));
    }
  }

  lemma RouteScopedConserves(u: Unit, c: Core, key: Key, item: Item, onlyIfRegistered: bool)
    requires c.WellFormed() && Conserved(u, c) && RouteScoped(c, key, item, onlyIfRegistered).0.WellFormed()
    ensures Conserved(u, RouteScoped(c, key, item, onlyIfRegistered).0)
  {
    if c.failed.None? && !Ignores(c, key, onlyIfRegistered) {
      WithRouteConserves(u, c, key);
      EnqueueConserves(u, WithRoute(c, key), key, item);
    }
  }

  /** The global counters and the total move together. */
  lemma GlobalMoveConserves(u: Unit, c: Core, d: Core, delta: int)
    requires c.WellFormed() && d.WellFormed() && Conserved(u, c)
    requires d.routes == c.routes && |d.store| == |c.store|
    requires forall r :: 1 <= r < |c.store| ==> d.store[r] == c.store[r]
    requires Counter(u, d.store[0]) == Counter(u, c.store[0]) + delta
    requires Total(u, d) == Total(u, c) + delta
    ensures Conserved(u, d)
  {
    assert Counters(u, d) == Counters(u, c);
  }

  lemma RouteGlobalConserves(u: Unit, c: Core, item: Item)
    requires c.WellFormed() && Conserved(u, c) && RouteGlobal(c, item).0.WellFormed()
    ensures Conserved(u, RouteGlobal(c, item).0)
  {
    var (d, err) := RouteGlobal(c, item);
    if err.None? {
      GlobalMoveConserves(u, c, d, Cost(u, item));
    }
  }

  lemma ReleaseConserves(u: Unit, c: Core, ref: nat, item: Item)
    requires c.WellFormed() && Conserved(u, c) && ref < |c.store|
    ensures var d := Release(c, c.store[ref].owner, ref, item); d.WellFormed() && Conserved(u, d)
  {
    var owner := c.store[ref].owner;
    var d := Release(c, owner, ref, item);
    ReleaseExtends(c, owner, ref, item);
    if owner.None? {
      assert ref == 0;
      GlobalMoveConserves(u, c, d, -Cost(u, item));
    } else if Owned(c, owner, ref) {
      MoveConserves(u, c, d, owner.value, -Cost(u, item));
    }
  }

  lemma StepConserves(u: Unit, s: Config, step: Step)
    requires Sound(s) && Enabled(s, step) && Conserved(u, s.core) && Apply(s, step).core.WellFormed()
    ensures Conserved(u, Apply(s, step).core)
  {
    match step
    case DoRegister(key) => RegisterConserves(u, s.core, key);
    case DoUnregister(key) => UnregisterConserves(u, s.core, key);
    case DoRouteScoped(key, item, only) => RouteScopedConserves(u, s.core, key, item, only);
    case DoRouteGlobal(item) => RouteGlobalConserves(u, s.core, item);
    case Try(c) => if Queue(s, PcOf(s, c).ref) != [] { TakeConserves(u, s, c); }
    case Wake(c) => TakeConserves(u, s, c);
    case GiveBack(c) => ReleaseConserves(u, s.core, PcOf(s, c).ref, PcOf(s, c).item);
    case Notify(ref) => NotifyConserves(u, s, ref);
    case Fail(_) => assert Counters(u, Apply(s, step).core) == Counters(u, s.core);
    case _ =>
  }

  lemma TakeConserves(u: Unit, s: Config, c: nat)
    requires Sound(s) && Waiting(PcOf(s, c)) && Queue(s, PcOf(s, c).ref) != []
    requires Conserved(u, s.core) && Take(s, c).core.WellFormed()
    ensures Conserved(u, Take(s, c).core)
  {
    var ref := PcOf(s, c).ref;
    SameCounterConserves(u, s.core, Take(s, c).core, ref, Take(s, c).core.store[ref]);
  }

  lemma NotifyConserves(u: Unit, s: Config, ref: nat)
    requires Sound(s) && s.failer.Sending? && ref in s.failer.left
    requires Conserved(u, s.core) && NotifyStep(s, ref).core.WellFormed()
    ensures Conserved(u, NotifyStep(s, ref).core)
  {
    var d := NotifyStep(s, ref).core;
    if d != s.core {
      SameCounterConserves(u, s.core, d, ref, d.store[ref]);
    }
  }
}
