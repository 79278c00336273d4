/**
  First in, first out, per id and registration: a consumer receives exactly what was accepted for
  its id since the last unregister, starting with what arrived before the registration.
 */
module RouterFifo {
  import opened Wrappers
  import opened RouterState
  import opened RouterMachine
  import opened RouterLedger
  import opened RouterTheorems

  /** The items the router accepted for `key` since its last unregister, read off the run. */
  ghost function AcceptedSince(configs: seq<Config>, steps: seq<Step>, key: Key, n: nat): seq<Item>
    requires n < |configs| && |configs| == |steps| + 1
  {
    if n == 0 then
      []
    else
      var before := AcceptedSince(configs, steps, key, n - 1);
      match steps[n - 1]
      case DoUnregister(k) =>
        if k == key then [] else before
      case DoRouteScoped(k, item, onlyIfRegistered) =>
        if k == key && Accepts(configs[n - 1], k, item, onlyIfRegistered) then before + [item] else before
      case _ => before
  }

  ghost predicate Accepts(s: Config, key: Key, item: Item, onlyIfRegistered: bool) {
    Sound(s) && RouteScoped(s.core, key, item, onlyIfRegistered).1.None? && !Ignores(s.core, key, onlyIfRegistered)
  }

  /** What the history of the route state behind `key` says was accepted. */
  ghost function AcceptedFor(s: Config, key: Key): seq<Item>
    requires Sound(s)
  {
    if key in s.core.routes then s.history[s.core.routes[key]].accepted else []
  }

  lemma RegisterAccepts(s: Config, step: Step, key: Key)
    requires Sound(s) && step.DoRegister? && Sound(Apply(s, step))
    ensures AcceptedFor(Apply(s, step), key) == AcceptedFor(s, key)
  {
  }

  lemma RouteScopedAccepts(s: Config, step: Step, key: Key)
    requires Sound(s) && step.DoRouteScoped? && Enabled(s, step) && Sound(Apply(s, step))
    ensures AcceptedFor(Apply(s, step), key)
         == if step.key == key && Accepts(s, key, step.item, step.onlyIfRegistered)
            then AcceptedFor(s, key) + [step.item] else AcceptedFor(s, key)
  {
    var c := WithRoute(s.core, step.key);
    if s.core.failed.None? && !Ignores(s.core, step.key, step.onlyIfRegistered) {
      WithRouteExtends(s.core, step.key);
      EnqueueEffect(c, step.key, step.item);
      if key in c.routes && key != step.key {
        assert c.store[c.routes[key]].owner == Some(key);
      }
    }
  }

  lemma UnregisterAccepts(s: Config, step: Step, key: Key)
    requires Sound(s) && step.DoUnregister? && Sound(Apply(s, step))
    ensures AcceptedFor(Apply(s, step), key) == if step.key == key then [] else AcceptedFor(s, key)
  {
  }

  lemma OthersAccept(s: Config, step: Step, key: Key)
    requires Sound(s) && Enabled(s, step) && Sound(Apply(s, step))
    requires !(step.DoRegister? || step.DoUnregister? || step.DoRouteScoped?)
    ensures AcceptedFor(Apply(s, step), key) == AcceptedFor(s, key)
  {
    hide RouteGlobal, Receive, Release, TrySend;
    match step
    case DoRouteGlobal(item) => GlobalEntries(s.core, item);
    case Try(c) => if Queue(s, PcOf(s, c).ref) != [] { TakeAccepts(s, c); }
    case Wake(c) => TakeAccepts(s, c);
    case GiveBack(c) => GiveBackAccepts(s, c);
    case Notify(ref) => NotifyAccepts(s, ref);
    case _ =>
  }

  lemma TakeAccepts(s: Config, c: nat)
    requires Sound(s) && Waiting(PcOf(s, c)) && Queue(s, PcOf(s, c).ref) != []
    ensures Take(s, c).core.routes == s.core.routes && |Take(s, c).history| == |s.history|
    ensures forall r :: 0 <= r < |s.history| ==> Take(s, c).history[r].accepted == s.history[r].accepted
  {
  }

  lemma GiveBackAccepts(s: Config, c: nat)
    requires Sound(s) && PcOf(s, c).Holding?
    ensures GiveBackStep(s, c).core.routes == s.core.routes && |GiveBackStep(s, c).history| == |s.history|
    ensures forall r :: 0 <= r < |s.history| ==> GiveBackStep(s, c).history[r].accepted == s.history[r].accepted
  {
  }

  lemma NotifyAccepts(s: Config, ref: nat)
    requires Sound(s) && s.failer.Sending? && ref in s.failer.left
    ensures NotifyStep(s, ref).core.routes == s.core.routes && |NotifyStep(s, ref).history| == |s.history|
    ensures forall r :: 0 <= r < |s.history| ==> NotifyStep(s, ref).history[r].accepted == s.history[r].accepted
  {
  }

  lemma {:induction false} AcceptedIsTraced(limits: Limits, configs: seq<Config>, steps: seq<Step>, n: nat, key: Key)
    requires Run(limits, configs, steps) && n < |configs|
    ensures Sound(configs[n]) && AcceptedFor(configs[n], key) == AcceptedSince(configs, steps, key, n)
  {
    RunIsSound(limits, configs, steps, n);
    if n > 0 {
      AcceptedIsTraced(limits, configs, steps, n - 1, key);
      var s, step := configs[n - 1], steps[n - 1];
      assert configs[n] == configs[n - 1 + 1] == Apply(s, step);
      match step
      case DoRegister(_) => RegisterAccepts(s, step, key);
      case DoUnregister(_) => UnregisterAccepts(s, step, key);
      case DoRouteScoped(_, _, _) => RouteScopedAccepts(s, step, key);
      case _ => OthersAccept(s, step, key);
    }
  }

  /**
    Per id: what consumers have received from the current route state, followed by what is queued or
    still pending, is what was accepted since the last unregister, in order, and then FailAll's marker
    if it was pushed. An id without an entry has nothing accepted.
   */
  lemma FifoWithReplay(limits: Limits, configs: seq<Config>, steps: seq<Step>, n: nat, key: Key)
    requires Run(limits, configs, steps) && n < |configs|
    ensures var s := configs[n];
      && Sound(s)
      && if key in s.core.routes then
           var ref := s.core.routes[key];
           s.history[ref].received + Queue(s, ref) == AcceptedSince(configs, steps, key, n) + Mark(s, ref)
         else
           AcceptedSince(configs, steps, key, n) == []
  {
    RunIsGood(limits, configs, steps, n);
    AcceptedIsTraced(limits, configs, steps, n, key);
    var s := configs[n];
    if key in s.core.routes {
      assert Ledger(s, s.core.routes[key]);
    }
  }

  /** An unregistered id is never routed at the same time, and until it is registered again nothing reaches it. */
  lemma {:induction false} TombstoneHolds(
    limits: Limits, configs: seq<Config>, steps: seq<Step>, n: nat, m: nat, key: Key)
    requires Run(limits, configs, steps) && n <= m < |configs|
    requires key in configs[n].core.closed
    requires forall i :: n <= i < m ==> steps[i] != DoRegister(key)
    ensures key in configs[m].core.closed && key !in configs[m].core.routes
    ensures AcceptedSince(configs, steps, key, m) == []
    decreases m - n
  {
    FifoWithReplay(limits, configs, steps, m, key);
    if n < m {
      TombstoneHolds(limits, configs, steps, n, m - 1, key);
      RunIsSound(limits, configs, steps, m - 1);
      assert configs[m] == configs[m - 1 + 1];
      StepKeepsTombstone(configs[m - 1], steps[m - 1], key);
    }
  }

  lemma StepKeepsTombstone(s: Config, step: Step, key: Key)
    requires Sound(s) && Enabled(s, step) && key in s.core.closed && step != DoRegister(key)
    ensures key in Apply(s, step).core.closed
  {
  }
}
