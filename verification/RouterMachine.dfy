/**
  The router under concurrency. Every critical section and every channel operation is one atomic
  step, and steps of different callers interleave freely: a consumer looks its route up under the
  lock, receives without it and takes it again later to give the item back, and FailAll sets the
  failure under the lock and wakes the queues one by one afterwards.
 */
module RouterMachine {
  import opened Wrappers
  import opened RouterState

  /** Where one consumer is inside NextTurn, NextLogin, NextGoal, NextCompaction or NextGlobal. */
  datatype Pc =
    | Idle
      /** The route state and the failure flag have been read (nothing, for the global queue). */
    | Trying(owner: Option<Key>, ref: nat, seen: Option<Error>)
      /** The non-blocking receive found the channel empty. */
    | Checking(owner: Option<Key>, ref: nat, seen: Option<Error>)
      /** Inside the select statement. */
    | Blocked(owner: Option<Key>, ref: nat)
      /** An item has left the channel; the counters have not been released. */
    | Holding(owner: Option<Key>, ref: nat, item: Item)

  /** FailAll: `flagged` is the snapshot taken with the flag, `left` the channels not yet served. */
  datatype Failer =
    | NotStarted
    | Sending(error: Error, flagged: set<nat>, left: set<nat>)

  /** What happened to one route state so far; no step reads it. */
  datatype History = History(
    accepted: seq<Item>,  // items the router accepted for it, in order
    received: seq<Item>,  // items consumers took from its channel, in order
    returned: seq<Item>,  // items whose consumer has been through the release, in order
    creditedEvents: int,  // what releases and unregister subtracted from the totals on its account
    creditedBytes: int,
    marked: bool,         // FailAll's marker went into its channel
    drained: bool)        // an item was received after FailAll had served its channel

  const NO_HISTORY := History([], [], [], 0, 0, false, false)

  datatype Config = Config(core: Core, consumers: map<nat, Pc>, failer: Failer, history: seq<History>)

  datatype Step =
    | DoRegister(key: Key)
    | DoUnregister(key: Key)
    | DoRouteScoped(key: Key, item: Item, onlyIfRegistered: bool)
    | DoRouteGlobal(item: Item)
    | Call(c: nat, key: Key)
    | CallGlobal(c: nat)
    | Try(c: nat)
    | Check(c: nat)
    | Wake(c: nat)
    | Cancel(c: nat)
    | GiveBack(c: nat)
    | Fail(error: Error)
    | Notify(ref: nat)

  ghost function PcOf(s: Config, c: nat): Pc {
    if c in s.consumers then s.consumers[c] else Idle
  }

  ghost predicate Waiting(pc: Pc) {
    pc.Trying? || pc.Checking? || pc.Blocked?
  }

  ghost function Queue(s: Config, ref: nat): seq<Item>
    requires ref < |s.core.store|
  {
    s.core.store[ref].Contents()
  }

  ghost function Init(limits: Limits): Config {
    Config(NewCore(limits), map[], NotStarted, [NO_HISTORY])
  }

  /** Structural facts every reachable configuration satisfies; they make `Apply` well defined. */
  ghost predicate Sound(s: Config) {
    && s.core.WellFormed()
    && |s.history| == |s.core.store|
    && (forall c :: c in s.consumers && !s.consumers[c].Idle? ==> SoundPc(s.core, s.consumers[c]))
    && SoundFailure(s)
  }

  /** The failure flag and FailAll's snapshot are set together, once, and cover every open channel. */
  ghost predicate SoundFailure(t: Config)
    requires t.core.WellFormed()
  {
    && (t.core.failed.Some? <==> t.failer.Sending?)
    && (t.failer.Sending? ==>
          && t.core.failed == Some(t.failer.error)
          && t.failer.left <= t.failer.flagged
          && (forall r :: r in t.failer.flagged ==> r < |t.core.store| && t.core.store[r].queue.Some?)
          && Channels(t.core) <= t.failer.flagged)
  }

  /** A consumer's route state has a channel and belongs to no key but its own. */
  ghost predicate SoundPc(core: Core, pc: Pc)
    requires !pc.Idle?
  {
    pc.ref < |core.store| && core.store[pc.ref].queue.Some? && core.store[pc.ref].owner == pc.owner
  }

  ghost predicate Enabled(s: Config, step: Step) {
    match step
    case DoRouteScoped(_, item, _) => item.Note?
    case DoRouteGlobal(item) => item.Note?
    case Call(c, _) => PcOf(s, c).Idle?
    case CallGlobal(c) => PcOf(s, c).Idle?
    case Try(c) => PcOf(s, c).Trying?
    case Check(c) => PcOf(s, c).Checking?
    case Wake(c) => PcOf(s, c).Blocked? && PcOf(s, c).ref < |s.core.store| && Queue(s, PcOf(s, c).ref) != []
    case Cancel(c) => PcOf(s, c).Blocked?
    case GiveBack(c) => PcOf(s, c).Holding?
    case Notify(ref) => s.failer.Sending? && ref in s.failer.left
    case _ => true
  }

  ghost function SetPc(s: Config, c: nat, pc: Pc): Config {
    s.(consumers := s.consumers[c := pc])
  }

  /** One more history entry when the step allocated a route state. */
  ghost function Grow(h: seq<History>, core: Core): (g: seq<History>)
    requires |h| <= |core.store| <= |h| + 1
    ensures |g| == |core.store|
  {
    if |h| < |core.store| then h + [NO_HISTORY] else h
  }

  ghost function Accepted(h: seq<History>, ref: nat, item: Item): seq<History>
    requires ref < |h|
  {
    h[ref := h[ref].(accepted := h[ref].accepted + [item])]
  }

  /** The consumer takes the head of its channel. */
  ghost function Take(s: Config, c: nat): Config
    requires Sound(s)
    requires Waiting(PcOf(s, c)) && Queue(s, PcOf(s, c).ref) != []
  {
    var pc := PcOf(s, c);
    var (core, item) := Receive(s.core, pc.ref);
    var h := s.history[pc.ref];
    var served := s.failer.Sending? && pc.ref in s.failer.flagged && pc.ref !in s.failer.left;
    SetPc(s, c, Holding(pc.owner, pc.ref, item)).(
      core := core,
      history := s.history[pc.ref := h.(received := h.received + [item], drained := h.drained || served)])
  }

  ghost function RegisterStep(s: Config, key: Key): Config
    requires Sound(s)
  {
    var core := Register(s.core, key).0;
    s.(core := core, history := Grow(s.history, core))
  }

  ghost function RouteScopedStep(s: Config, key: Key, item: Item, onlyIfRegistered: bool): Config
    requires Sound(s)
  {
    var (core, err) := RouteScoped(s.core, key, item, onlyIfRegistered);
    var h := Grow(s.history, core);
    if err.None? && !Ignores(s.core, key, onlyIfRegistered) then
      s.(core := core, history := Accepted(h, core.routes[key], item))
    else
      s.(core := core, history := h)
  }

  ghost function RouteGlobalStep(s: Config, item: Item): Config
    requires Sound(s)
  {
    var (core, err) := RouteGlobal(s.core, item);
    s.(core := core, history := if err.None? then Accepted(s.history, 0, item) else s.history)
  }

  ghost function CallStep(s: Config, c: nat, key: Key): Config
    requires Sound(s)
  {
    if key in s.core.routes && s.core.store[s.core.routes[key]].queue.Some? then
      SetPc(s, c, Trying(Some(key), s.core.routes[key], s.core.failed))
    else
      s  // returns "not registered"
  }

  ghost function TryStep(s: Config, c: nat): Config
    requires Sound(s) && PcOf(s, c).Trying?
  {
    var pc := PcOf(s, c);
    if Queue(s, pc.ref) != [] then Take(s, c) else SetPc(s, c, Checking(pc.owner, pc.ref, pc.seen))
  }

  /** nextRoute tests the flag it read together with the route state; NextGlobal reads the flag now. */
  ghost function CheckStep(s: Config, c: nat): Config
    requires PcOf(s, c).Checking?
  {
    var pc := PcOf(s, c);
    var seen := if pc.owner.None? then s.core.failed else pc.seen;
    SetPc(s, c, if seen.Some? then Idle else Blocked(pc.owner, pc.ref))
  }

  ghost function UnregisterStep(s: Config, key: Key): Config
    requires Sound(s)
  {
    s.(core := Unregister(s.core, key),
       history :=
         if key in s.core.routes then
           Credited(s.history, s.core.routes[key], s.core, Unregister(s.core, key))
         else
           s.history)
  }

  /** Books what left the totals between two states of the core on the account of `ref`. */
  ghost function Credited(h: seq<History>, ref: nat, c: Core, d: Core): seq<History>
    requires ref < |h|
  {
    h[ref := h[ref].(
      creditedEvents := h[ref].creditedEvents + c.totalEvents - d.totalEvents,
      creditedBytes := h[ref].creditedBytes + c.totalBytes - d.totalBytes)]
  }

  ghost function GiveBackStep(s: Config, c: nat): Config
    requires Sound(s) && PcOf(s, c).Holding?
  {
    var pc := PcOf(s, c);
    var core := Release(s.core, pc.owner, pc.ref, pc.item);
    var h := s.history[pc.ref];
    SetPc(s, c, Idle).(
      core := core,
      history := Credited(s.history[pc.ref := h.(returned := h.returned + [pc.item])], pc.ref, s.core, core))
  }

  ghost function FailStep(s: Config, error: Error): Config
    requires Sound(s)
  {
    if s.core.failed.Some? then
      s
    else
      s.(core := s.core.(failed := Some(error)), failer := Sending(error, Channels(s.core), Channels(s.core)))
  }

  ghost function NotifyStep(s: Config, ref: nat): Config
    requires Sound(s) && s.failer.Sending? && ref in s.failer.left
  {
    var core := TrySend(s.core, ref, Marker(s.failer.error));
    var h := s.history[ref];
    s.(core := core,
       failer := s.failer.(left := s.failer.left - {ref}),
       history := s.history[ref := h.(marked := h.marked || core != s.core)])
  }

  ghost function Apply(s: Config, step: Step): Config
    requires Sound(s) && Enabled(s, step)
  {
    match step
    case DoRegister(key) => RegisterStep(s, key)
    case DoUnregister(key) => UnregisterStep(s, key)
    case DoRouteScoped(key, item, onlyIfRegistered) => RouteScopedStep(s, key, item, onlyIfRegistered)
    case DoRouteGlobal(item) => RouteGlobalStep(s, item)
    case Call(c, key) => CallStep(s, c, key)
    case CallGlobal(c) => SetPc(s, c, Trying(None, 0, None))
    case Try(c) => TryStep(s, c)
    case Check(c) => CheckStep(s, c)
    case Wake(c) => Take(s, c)
    case Cancel(c) => SetPc(s, c, Idle)
    case GiveBack(c) => GiveBackStep(s, c)
    case Fail(error) => FailStep(s, error)
    case Notify(ref) => NotifyStep(s, ref)
  }

  /** A run starts in the initial configuration and applies enabled steps (see `RunIsSound`). */
  ghost predicate Run(limits: Limits, configs: seq<Config>, steps: seq<Step>) {
    && |configs| == |steps| + 1
    && configs[0] == Init(limits)
    && forall i :: 0 <= i < |steps| && Sound(configs[i]) ==>
         Enabled(configs[i], steps[i]) && configs[i + 1] == Apply(configs[i], steps[i])
  }

  /** Route states are never reused: a step may allocate one, remove entries, and open queues for good. */
  ghost predicate Extends(c: Core, d: Core) {
    && d.WellFormed()
    && |c.store| <= |d.store| <= |c.store| + 1
    && (forall r :: 0 <= r < |c.store| ==>
          d.store[r].owner == c.store[r].owner && (c.store[r].queue.Some? ==> d.store[r].queue.Some?))
  }

  lemma SetRouteExtends(c: Core, ref: nat, r: Route)
    requires c.WellFormed() && ref < |c.store|
    requires r.owner == c.store[ref].owner
    requires c.store[ref].queue.Some? ==> r.queue.Some?
    requires r.queue.Some? ==> r.pending == []
    ensures Extends(c, SetRoute(c, ref, r))
  {
  }

  lemma WithRouteExtends(c: Core, key: Key)
    requires c.WellFormed() && key !in c.closed
    ensures Extends(c, WithRoute(c, key))
  {
  }

  /** Two changes of which at most one allocates. */
  lemma ExtendsTwice(c: Core, d: Core, e: Core)
    requires Extends(c, d) && Extends(d, e) && |e.store| <= |c.store| + 1
    ensures Extends(c, e)
  {
  }

  lemma RegisterExtends(c: Core, key: Key)
    requires c.WellFormed()
    ensures Extends(c, Register(c, key).0)
  {
    if c.failed.None? {
      var open := c.(closed := c.closed - {key});
      var c1 := WithRoute(open, key);
      WithRouteExtends(open, key);
      SetRouteExtends(c1, c1.routes[key], OpenQueue(c1.store[c1.routes[key]]));
      ExtendsTwice(open, c1, Register(c, key).0);
    }
  }

  lemma UnregisterExtends(c: Core, key: Key)
    requires c.WellFormed()
    ensures Extends(c, Unregister(c, key))
  {
  }

  lemma PutExtends(c: Core, d: Core, ref: nat, item: Item)
    requires c.WellFormed() && ref < |c.store|
    requires d == c.(totalEvents := d.totalEvents, totalBytes := d.totalBytes)
    ensures Extends(c, SetRoute(d, ref, Put(Charge(c.store[ref], item), item)))
  {
    SetRouteExtends(d, ref, Put(Charge(c.store[ref], item), item));
  }

  lemma EnqueueExtends(c: Core, key: Key, item: Item)
    requires c.WellFormed() && key in c.routes
    ensures Extends(c, Enqueue(c, key, item).0)
    ensures |Enqueue(c, key, item).0.store| == |c.store|
  {
    PutExtends(c, ReserveTotal(c, item.Size()).0, c.routes[key], item);
  }

  lemma RouteScopedExtends(c: Core, key: Key, item: Item, onlyIfRegistered: bool)
    requires c.WellFormed()
    ensures Extends(c, RouteScoped(c, key, item, onlyIfRegistered).0)
  {
    if c.failed.None? && !Ignores(c, key, onlyIfRegistered) {
      var c1 := WithRoute(c, key);
      WithRouteExtends(c, key);
      EnqueueExtends(c1, key, item);
      ExtendsTwice(c, c1, Enqueue(c1, key, item).0);
    }
  }

  lemma RouteGlobalExtends(c: Core, item: Item)
    requires c.WellFormed()
    ensures Extends(c, RouteGlobal(c, item).0)
    ensures |RouteGlobal(c, item).0.store| == |c.store|
  {
    PutExtends(c, ReserveTotal(c, item.Size()).0, 0, item);
  }

  lemma ReceiveExtends(c: Core, ref: nat)
    requires c.WellFormed() && ref < |c.store| && c.store[ref].queue.Some? && c.store[ref].queue.value != []
    ensures Extends(c, Receive(c, ref).0)
  {
    SetRouteExtends(c, ref, Receive(c, ref).0.store[ref]);
  }

  lemma ReleaseExtends(c: Core, owner: Option<Key>, ref: nat, item: Item)
    requires c.WellFormed() && ref < |c.store|
    ensures Extends(c, Release(c, owner, ref, item))
    ensures |Release(c, owner, ref, item).store| == |c.store|
  {
    var r := c.store[ref];
    SetRouteExtends(c, ref, r.(events := r.events - 1, bytes := r.bytes - item.Size()));
  }

  lemma TrySendExtends(c: Core, ref: nat, item: Item)
    requires c.WellFormed() && ref < |c.store| && c.store[ref].queue.Some?
    ensures Extends(c, TrySend(c, ref, item))
    ensures |TrySend(c, ref, item).store| == |c.store|
  {
    SetRouteExtends(c, ref, Poke(c.store[ref], item, c.Capacity(ref)));
  }

  /** The part of a step that is about the route states. */
  ghost predicate CoreExtended(s: Config, t: Config)
    requires Sound(s)
  {
    Extends(s.core, t.core) && |t.history| == |t.core.store|
  }

  lemma ProducerStepExtends(s: Config, step: Step)
    requires Sound(s) && Enabled(s, step)
    requires step.DoRegister? || step.DoUnregister? || step.DoRouteScoped? || step.DoRouteGlobal?
    ensures CoreExtended(s, Apply(s, step))
  {
    match step
    case DoRegister(key) => RegisterExtends(s.core, key);
    case DoUnregister(key) => UnregisterExtends(s.core, key);
    case DoRouteScoped(key, item, only) => RouteScopedExtends(s.core, key, item, only);
    case DoRouteGlobal(item) => RouteGlobalExtends(s.core, item);
  }

  lemma TakeExtends(s: Config, c: nat)
    requires Sound(s) && Waiting(PcOf(s, c)) && Queue(s, PcOf(s, c).ref) != []
    ensures CoreExtended(s, Take(s, c))
  {
    ReceiveExtends(s.core, PcOf(s, c).ref);
  }

  lemma ConsumerStepExtends(s: Config, step: Step)
    requires Sound(s) && Enabled(s, step)
    requires !(step.DoRegister? || step.DoUnregister? || step.DoRouteScoped? || step.DoRouteGlobal?)
    ensures CoreExtended(s, Apply(s, step))
  {
    match step
    case Try(c) => if Queue(s, PcOf(s, c).ref) != [] { TakeExtends(s, c); }
    case Wake(c) => TakeExtends(s, c);
    case GiveBack(c) => ReleaseExtends(s.core, PcOf(s, c).owner, PcOf(s, c).ref, PcOf(s, c).item);
    case Notify(ref) => TrySendExtends(s.core, ref, Marker(s.failer.error));
    case _ =>
  }

  lemma CoreStepExtends(s: Config, step: Step)
    requires Sound(s) && Enabled(s, step)
    ensures CoreExtended(s, Apply(s, step))
  {
    if step.DoRegister? || step.DoUnregister? || step.DoRouteScoped? || step.DoRouteGlobal? {
      ProducerStepExtends(s, step);
    } else {
      ConsumerStepExtends(s, step);
    }
  }

  /** Producers leave consumers alone; a consumer step moves one consumer, and keeps its route state. */
  lemma ConsumersMove(s: Config, step: Step, c: nat)
    requires Sound(s) && Enabled(s, step)
    ensures var pc, next := PcOf(s, c), PcOf(Apply(s, step), c);
      || next == pc
      || next.Idle?
      || (pc.Idle? && next.Trying? && SoundPc(s.core, next))
      || (!pc.Idle? && next.owner == pc.owner && next.ref == pc.ref)
  {
  }

  /** After the failure no entry appears and no channel opens. */
  lemma FailureFreezesRoutes(s: Config, step: Step, k: Key)
    requires Sound(s) && Enabled(s, step) && s.core.failed.Some?
    requires k in Apply(s, step).core.routes
    ensures Apply(s, step).core.failed == s.core.failed
    ensures k in s.core.routes && s.core.routes[k] == Apply(s, step).core.routes[k]
    ensures s.core.routes[k] < |Apply(s, step).core.store|
    ensures s.core.store[s.core.routes[k]].queue.Some? == Apply(s, step).core.store[s.core.routes[k]].queue.Some?
  {
  }

  lemma FailureStaysSound(s: Config, step: Step)
    requires Sound(s) && Enabled(s, step)
    requires CoreExtended(s, Apply(s, step))
    ensures SoundFailure(Apply(s, step))
  {
    var t := Apply(s, step);
    if s.core.failed.Some? {
      assert t.failer.Sending? && t.failer.error == s.failer.error;
      assert t.core.failed == s.core.failed;
      assert t.failer.flagged == s.failer.flagged && t.failer.left <= s.failer.left;
      assert Channels(t.core) <= Channels(s.core) by {
        forall k | k in t.core.routes && t.core.store[t.core.routes[k]].queue.Some?
          ensures t.core.routes[k] in Channels(s.core)
        {
          FailureFreezesRoutes(s, step, k);
        }
      }
    } else if !step.Fail? {
      assert t.core.failed.None? && t.failer == s.failer;
    }
  }

  lemma StepKeepsSound(s: Config, step: Step)
    requires Sound(s) && Enabled(s, step)
    ensures Sound(Apply(s, step))
  {
    var t := Apply(s, step);
    CoreStepExtends(s, step);
    FailureStaysSound(s, step);
    forall c | c in t.consumers && !t.consumers[c].Idle?
      ensures SoundPc(t.core, t.consumers[c])
    {
      ConsumersMove(s, step, c);
    }
  }

  lemma {:induction false} RunIsSound(limits: Limits, configs: seq<Config>, steps: seq<Step>, n: nat)
    requires Run(limits, configs, steps) && n < |configs|
    ensures Sound(configs[n])
  {
    if n > 0 {
      RunIsSound(limits, configs, steps, n - 1);
      StepKeepsSound(configs[n - 1], steps[n - 1]);
      assert configs[n] == configs[n - 1 + 1];
    }
  }
}
