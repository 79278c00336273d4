/** What holds in every configuration of every run of the router. */
module RouterTheorems {
  import opened Wrappers
  import opened FiniteSums
  import opened RouterState
  import opened RouterMachine
  import opened RouterLedger
  import Totals = RouterTotals

  ghost predicate Good(s: Config) {
    && Sound(s)
    && Balanced(s)
    && AllInHand(s)
    && Totals.Conserved(Totals.Events, s.core)
    && Totals.Conserved(Totals.Bytes, s.core)
    && (s.core.failed.None? ==> Totals.Bounded(s.core))
  }

  lemma InitIsGood(limits: Limits)
    ensures Good(Init(limits))
  {
    var s := Init(limits);
    forall g, ref | 0 <= ref < |s.history|
      ensures InHand(g, s, ref)
    {
      SumZero(Shares(g, s.consumers, ref));
    }
    SumZero(Totals.Counters(Totals.Events, s.core));
    SumZero(Totals.Counters(Totals.Bytes, s.core));
  }

  // ---- exactness of the counters ----

  /** How many consumers hold an item of `ref` they have not released yet. */
  ghost function HeldItems(s: Config, ref: nat): int {
    Held(Notes, s.consumers, ref) + Held(Markers, s.consumers, ref)
  }

  ghost predicate Exact(s: Config, ref: nat)
    requires Sound(s) && ref < |s.core.store|
  {
    s.core.Live(ref) ==>
      && s.core.store[ref].events == |Queue(s, ref)| + HeldItems(s, ref) - |Mark(s, ref)|
      && s.core.store[ref].bytes == Load(Bytes, Queue(s, ref)) + Held(Bytes, s.consumers, ref)
  }

  lemma LedgerIsExact(s: Config, ref: nat)
    requires Sound(s) && Balanced(s) && AllInHand(s) && ref < |s.core.store|
    ensures Exact(s, ref)
    ensures 0 <= Held(Bytes, s.consumers, ref) && 0 <= HeldItems(s, ref)
  {
    var h := s.history[ref];
    assert Ledger(s, ref) && InHand(Bytes, s, ref) && InHand(Notes, s, ref) && InHand(Markers, s, ref);
    LoadNotes(h.received);
    LoadNotes(h.returned);
    LoadAppend(Bytes, h.received, Queue(s, ref));
    LoadAppend(Bytes, h.accepted, Mark(s, ref));
    assert |h.received + Queue(s, ref)| == |h.accepted + Mark(s, ref)|;
    HeldNonNegative(Bytes, s.consumers, ref);
    HeldNonNegative(Notes, s.consumers, ref);
    HeldNonNegative(Markers, s.consumers, ref);
  }

  /** Before the failure no marker exists, so no counter of a live route state is negative. */
  lemma CountersNonNegative(s: Config, ref: nat)
    requires Sound(s) && Balanced(s) && AllInHand(s) && ref < |s.core.store|
    requires s.core.failed.None? && s.core.Live(ref)
    ensures |Queue(s, ref)| <= s.core.store[ref].events && 0 <= s.core.store[ref].bytes
  {
    LedgerIsExact(s, ref);
  }

  // ---- the limits ----

  lemma StepKeepsBounds(s: Config, step: Step)
    requires Good(s) && Enabled(s, step) && Sound(Apply(s, step)) && Apply(s, step).core.failed.None?
    ensures Totals.Bounded(Apply(s, step).core)
  {
    assert s.core.failed.None?;
    match step
    case DoRegister(key) => RegisterKeepsBounds(s.core, key);
    case DoUnregister(key) =>
      if key in s.core.routes {
        CountersNonNegative(s, s.core.routes[key]);
      }
      UnregisterKeepsBounds(s.core, key);
    case DoRouteScoped(key, item, only) => RouteScopedKeepsBounds(s.core, key, item, only);
    case DoRouteGlobal(item) => RouteGlobalKeepsBounds(s.core, item);
    case Try(c) => if Queue(s, PcOf(s, c).ref) != [] { TakeKeepsBounds(s, c); }
    case Wake(c) => TakeKeepsBounds(s, c);
    case GiveBack(c) => ReleaseKeepsBounds(s.core, PcOf(s, c).owner, PcOf(s, c).ref, PcOf(s, c).item);
    case _ =>
  }

  lemma RegisterKeepsBounds(c: Core, key: Key)
    requires c.WellFormed() && Totals.Bounded(c) && Register(c, key).0.WellFormed()
    ensures Totals.Bounded(Register(c, key).0)
  {
  }

  lemma UnregisterKeepsBounds(c: Core, key: Key)
    requires c.WellFormed() && Totals.Bounded(c) && Unregister(c, key).WellFormed()
    requires key in c.routes ==> 0 <= c.store[c.routes[key]].events && 0 <= c.store[c.routes[key]].bytes
    ensures Totals.Bounded(Unregister(c, key))
  {
  }

  lemma EnqueueKeepsBounds(c: Core, key: Key, item: Item)
    requires c.WellFormed() && Totals.Bounded(c) && key in c.routes && Enqueue(c, key, item).0.WellFormed()
    ensures Totals.Bounded(Enqueue(c, key, item).0)
  {
  }

  lemma RouteScopedKeepsBounds(c: Core, key: Key, item: Item, onlyIfRegistered: bool)
    requires c.WellFormed() && Totals.Bounded(c) && RouteScoped(c, key, item, onlyIfRegistered).0.WellFormed()
    ensures Totals.Bounded(RouteScoped(c, key, item, onlyIfRegistered).0)
  {
    if c.failed.None? && !Ignores(c, key, onlyIfRegistered) {
      WithRouteExtends(c, key);
      EnqueueKeepsBounds(WithRoute(c, key), key, item);
    }
  }

  lemma RouteGlobalKeepsBounds(c: Core, item: Item)
    requires c.WellFormed() && Totals.Bounded(c) && RouteGlobal(c, item).0.WellFormed()
    ensures Totals.Bounded(RouteGlobal(c, item).0)
  {
  }

  lemma TakeKeepsBounds(s: Config, c: nat)
    requires Sound(s) && Waiting(PcOf(s, c)) && Queue(s, PcOf(s, c).ref) != []
    requires Totals.Bounded(s.core) && Take(s, c).core.WellFormed()
    ensures Totals.Bounded(Take(s, c).core)
  {
  }

  lemma ReleaseKeepsBounds(c: Core, owner: Option<Key>, ref: nat, item: Item)
    requires c.WellFormed() && Totals.Bounded(c) && ref < |c.store| && Release(c, owner, ref, item).WellFormed()
    ensures Totals.Bounded(Release(c, owner, ref, item))
  {
  }

  lemma StepKeepsGood(s: Config, step: Step)
    requires Good(s) && Enabled(s, step)
    ensures Good(Apply(s, step))
  {
    StepKeepsBalance(s, step);
    Totals.StepConserves(Totals.Events, s, step);
    Totals.StepConserves(Totals.Bytes, s, step);
    if Apply(s, step).core.failed.None? {
      StepKeepsBounds(s, step);
    }
  }

  lemma {:induction false} RunIsGood(limits: Limits, configs: seq<Config>, steps: seq<Step>, n: nat)
    requires Run(limits, configs, steps) && n < |configs|
    ensures Good(configs[n])
  {
    if n == 0 {
      InitIsGood(limits);
    } else {
      RunIsGood(limits, configs, steps, n - 1);
      StepKeepsGood(configs[n - 1], steps[n - 1]);
      assert configs[n] == configs[n - 1 + 1];
    }
  }

  // ---- the theorems ----

  /** Conservation, for events and bytes, in every reachable configuration, before and after a failure. */
  lemma Conservation(limits: Limits, configs: seq<Config>, steps: seq<Step>, n: nat)
    requires Run(limits, configs, steps) && n < |configs|
    ensures var s := configs[n];
      && Sound(s)
      && Totals.Conserved(Totals.Events, s.core)
      && Totals.Conserved(Totals.Bytes, s.core)
      && forall ref :: 0 <= ref < |s.core.store| ==> Exact(s, ref)
  {
    RunIsGood(limits, configs, steps, n);
    var s := configs[n];
    forall ref | 0 <= ref < |s.core.store|
      ensures Exact(s, ref)
    {
      LedgerIsExact(s, ref);
    }
  }

  /**
    Each reserved item is given back exactly once. While a route state is live the totals have been
    credited with its releases; from the moment it is unregistered they have been credited with
    everything it ever accepted, whatever its consumers still hold, and no later release adds to it.
   */
  lemma GivenBackOnce(limits: Limits, configs: seq<Config>, steps: seq<Step>, n: nat, ref: nat)
    requires Run(limits, configs, steps) && n < |configs| && ref < |configs[n].core.store|
    ensures |configs[n].history| == |configs[n].core.store| && CreditedOnce(configs[n], ref)
  {
    RunIsGood(limits, configs, steps, n);
    assert Ledger(configs[n], ref);
  }

  /** A map entry never points at a route state that was not in the map before, except a new one. */
  lemma EntriesAreOldOrNew(s: Config, step: Step, k: Key)
    requires Sound(s) && Enabled(s, step) && k in Apply(s, step).core.routes
    ensures (k in s.core.routes && s.core.routes[k] == Apply(s, step).core.routes[k])
         || Apply(s, step).core.routes[k] == |s.core.store|
  {
    hide RouteScoped, RouteGlobal;
    if step.DoRouteScoped? {
      ScopedEntries(s.core, step.key, step.item, step.onlyIfRegistered);
    } else if step.DoRouteGlobal? {
      GlobalEntries(s.core, step.item);
    }
  }

  lemma ScopedEntries(c: Core, key: Key, item: Item, onlyIfRegistered: bool)
    requires c.WellFormed()
    ensures var d := RouteScoped(c, key, item, onlyIfRegistered).0;
      d.routes == c.routes || (key !in c.routes && d.routes == c.routes[key := |c.store|])
  {
  }

  lemma GlobalEntries(c: Core, item: Item)
    requires c.WellFormed()
    ensures RouteGlobal(c, item).0.routes == c.routes
  {
  }

  lemma OnlyLiveAccept(s: Config, step: Step, ref: nat)
    requires Sound(s) && Enabled(s, step) && ref < |s.core.store| && !s.core.Live(ref)
    requires CoreExtended(s, Apply(s, step))
    ensures Apply(s, step).history[ref].accepted == s.history[ref].accepted
  {
    hide RouteScopedStep;
    if step.DoRouteScoped? {
      ScopedOnlyLiveAccept(s, step.key, step.item, step.onlyIfRegistered, ref);
    }
  }

  lemma ScopedOnlyLiveAccept(s: Config, key: Key, item: Item, onlyIfRegistered: bool, ref: nat)
    requires Sound(s) && ref < |s.core.store| && !s.core.Live(ref)
    requires CoreExtended(s, RouteScopedStep(s, key, item, onlyIfRegistered))
    ensures RouteScopedStep(s, key, item, onlyIfRegistered).history[ref].accepted == s.history[ref].accepted
  {
    ScopedEntries(s.core, key, item, onlyIfRegistered);
  }

  /** An unregistered route state never comes back: it accepts nothing more and is credited with nothing more. */
  lemma GoneForGood(s: Config, step: Step, ref: nat)
    requires Good(s) && Enabled(s, step) && ref < |s.core.store| && !s.core.Live(ref)
    ensures var t := Apply(s, step);
      && ref < |t.core.store| == |t.history|
      && !t.core.Live(ref)
      && t.history[ref].accepted == s.history[ref].accepted
      && t.history[ref].creditedEvents == s.history[ref].creditedEvents
      && t.history[ref].creditedBytes == s.history[ref].creditedBytes
  {
    var t := Apply(s, step);
    CoreStepExtends(s, step);
    StepKeepsBalance(s, step);
    OnlyLiveAccept(s, step, ref);
    assert Ledger(s, ref) && Ledger(t, ref);
    if t.core.Live(ref) {
      EntriesAreOldOrNew(s, step, t.core.store[ref].owner.value);
    }
  }

  /** Nothing leaks: with every queue drained and every item released, the router is at zero. */
  lemma NothingLeaks(limits: Limits, configs: seq<Config>, steps: seq<Step>, n: nat)
    requires Run(limits, configs, steps) && n < |configs|
    requires configs[n].core.failed.None?
    requires forall c :: c in configs[n].consumers ==> !configs[n].consumers[c].Holding?
    requires forall ref :: 0 <= ref < |configs[n].core.store| ==> Queue(configs[n], ref) == []
    ensures configs[n].core.totalEvents == 0 && configs[n].core.totalBytes == 0
  {
    var s := configs[n];
    Conservation(limits, configs, steps, n);
    forall ref | 0 <= ref < |s.core.store| && s.core.Live(ref)
      ensures s.core.store[ref].events == 0 && s.core.store[ref].bytes == 0
    {
      SumZero(Shares(Bytes, s.consumers, ref));
      SumZero(Shares(Notes, s.consumers, ref));
      SumZero(Shares(Markers, s.consumers, ref));
      assert Exact(s, ref);
    }
    SumZero(Totals.Counters(Totals.Events, s.core));
    SumZero(Totals.Counters(Totals.Bytes, s.core));
  }

  /** Whenever a critical section is about to send, the channel has the free slots it needs. */
  ghost predicate SendsFit(s: Config, step: Step)
    requires Sound(s)
  {
    match step
    case DoRegister(key) =>
      s.core.failed.None? && key in s.core.routes && s.core.store[s.core.routes[key]].queue.None? ==>
        |s.core.store[s.core.routes[key]].pending| <= s.core.limits.routeEvents
    case DoRouteScoped(key, item, only) =>
      var (core, err) := RouteScoped(s.core, key, item, only);
      err.None? && !Ignores(s.core, key, only) && key in s.core.routes && s.core.store[s.core.routes[key]].queue.Some? ==>
        |s.core.store[s.core.routes[key]].queue.value| < s.core.limits.routeEvents
    case DoRouteGlobal(item) =>
      RouteGlobal(s.core, item).1.None? ==> |Queue(s, 0)| < s.core.limits.globalEvents
    case _ => true
  }

  lemma NoBlockingSend(limits: Limits, configs: seq<Config>, steps: seq<Step>, n: nat)
    requires Run(limits, configs, steps) && n < |steps|
    ensures Sound(configs[n]) && SendsFit(configs[n], steps[n])
  {
    RunIsGood(limits, configs, steps, n);
    var s, step := configs[n], steps[n];
    if s.core.failed.None? {
      match step
      case DoRegister(key) =>
        if key in s.core.routes {
          CountersNonNegative(s, s.core.routes[key]);
        }
      case DoRouteScoped(key, item, _) =>
        if key in s.core.routes {
          CountersNonNegative(s, s.core.routes[key]);
        }
      case DoRouteGlobal(_) => CountersNonNegative(s, 0);
      case _ =>
    }
  }

  /** Until the failure, a live route state's event count is its queue plus what consumers hold, within its capacity. */
  lemma QueuesWithinCapacity(limits: Limits, configs: seq<Config>, steps: seq<Step>, n: nat, ref: nat)
    requires Run(limits, configs, steps) && n < |configs| && ref < |configs[n].core.store|
    requires configs[n].core.failed.None? && configs[n].core.Live(ref)
    ensures var s := configs[n];
      s.core.store[ref].events == |Queue(s, ref)| + HeldItems(s, ref) <= s.core.Capacity(ref)
  {
    RunIsGood(limits, configs, steps, n);
    LedgerIsExact(configs[n], ref);
  }

  /** A rejected call leaves every counter and every existing route state as it was. */
  lemma RejectionChargesNothing(c: Core, key: Key, item: Item, onlyIfRegistered: bool)
    requires c.WellFormed() && RouteScoped(c, key, item, onlyIfRegistered).1.Some?
    ensures var d := RouteScoped(c, key, item, onlyIfRegistered).0;
      && d.totalEvents == c.totalEvents && d.totalBytes == c.totalBytes
      && c.store <= d.store
      && (forall r :: |c.store| <= r < |d.store| ==> d.store[r] == NewRoute(key))
  {
  }
}
