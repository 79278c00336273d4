/** Acceptance over whole runs: what decides is how much was accepted for an id and not yet given back. */
module RouterAcceptance {
  import opened Wrappers
  import opened RouterState
  import opened RouterMachine
  import opened RouterMeaning
  import opened RouterLedger
  import opened RouterTheorems
  import opened RouterFifo

  lemma StepKeepsLimits(s: Config, step: Step)
    requires Sound(s) && Enabled(s, step)
    ensures Apply(s, step).core.limits == s.core.limits
  {
  }

  lemma {:induction false} LimitsAreFixed(limits: Limits, configs: seq<Config>, steps: seq<Step>, n: nat)
    requires Run(limits, configs, steps) && n < |configs|
    ensures configs[n].core.limits == NormalizeLimits(limits)
  {
    if n > 0 {
      LimitsAreFixed(limits, configs, steps, n - 1);
      RunIsSound(limits, configs, steps, n - 1);
      StepKeepsLimits(configs[n - 1], steps[n - 1]);
      assert configs[n] == configs[n - 1 + 1];
    }
  }

  /** What consumers have given back of the route state behind the key. */
  ghost function ReturnedFor(s: Config, key: Key): seq<Item>
    requires Sound(s)
  {
    if key in s.core.routes then s.history[s.core.routes[key]].returned else []
  }

  /** One more item fits a limit: what is out already and the item together do not exceed it. */
  predicate OneMore(accepted: int, returned: int, size: int, limit: int) {
    accepted - returned + size <= limit
  }

  lemma CountersAreOutstanding(limits: Limits, configs: seq<Config>, steps: seq<Step>, n: nat, key: Key)
    requires Run(limits, configs, steps) && n < |configs|
    ensures var s := configs[n];
      && Sound(s)
      && At(s.core, key).events == |AcceptedSince(configs, steps, key, n)| - |ReturnedFor(s, key)|
      && At(s.core, key).bytes == Load(Bytes, AcceptedSince(configs, steps, key, n)) - Load(Bytes, ReturnedFor(s, key))
  {
    RunIsGood(limits, configs, steps, n);
    AcceptedIsTraced(limits, configs, steps, n, key);
    var s := configs[n];
    if key in s.core.routes {
      assert Ledger(s, s.core.routes[key]);
    }
  }

  /**
    At every point of every run without a failure, a notification for an id that is not tombstoned, and
    has a route where one is asked for, is accepted if and only if what was accepted for the id since its
    last unregister, less what was given back, leaves room for it in the id's two limits, and the totals do.
   */
  lemma AcceptedIffOutstandingFits(
    limits: Limits, configs: seq<Config>, steps: seq<Step>, n: nat, key: Key, item: Item, onlyIfRegistered: bool)
    requires Run(limits, configs, steps) && n < |configs|
    requires configs[n].core.failed.None? && key !in configs[n].core.closed
    requires key in configs[n].core.routes || !onlyIfRegistered
    ensures var s, l := configs[n], NormalizeLimits(limits);
      && Sound(s)
      && (RouteScoped(s.core, key, item, onlyIfRegistered).1.None? <==>
            && OneMore(|AcceptedSince(configs, steps, key, n)|, |ReturnedFor(s, key)|, 1, l.routeEvents)
            && OneMore(Load(Bytes, AcceptedSince(configs, steps, key, n)), Load(Bytes, ReturnedFor(s, key)), item.Size(), l.routeBytes)
            && s.core.totalEvents + 1 <= l.totalEvents && s.core.totalBytes + item.Size() <= l.totalBytes)
  {
    hide At, RouteScoped, Load, AcceptedSince, ReturnedFor;
    LimitsAreFixed(limits, configs, steps, n);
    CountersAreOutstanding(limits, configs, steps, n, key);
    ScopedAcceptsIff(configs[n].core, key, item, onlyIfRegistered);
  }
}
