/**
  No lost wake-up: FailAll flags the failure once, under the lock, and pokes each channel once
  afterwards, with a send that is dropped when the channel is full; still no consumer that was inside
  a call is left waiting on an empty channel.
 */
module RouterWakeup {
  import opened Wrappers
  import opened RouterState
  import opened RouterMachine

  /** FailAll has set the flag and served every channel of its snapshot. */
  ghost predicate Finished(s: Config) {
    s.failer.Sending? && s.failer.left == {}
  }

  ghost predicate Served(s: Config, ref: nat) {
    s.failer.Sending? && ref in s.failer.flagged && ref !in s.failer.left
  }

  /** A call that will block on an empty channel: it has not seen the failure and will not look again. */
  ghost predicate Unaware(pc: Pc) {
    pc.Blocked? || ((pc.Trying? || pc.Checking?) && pc.owner.Some? && pc.seen.None?)
  }

  /** At most one consumer is waiting on the channel. */
  ghost predicate ExclusiveAt(s: Config, ref: nat) {
    forall c, d :: c in s.consumers && d in s.consumers && WaitsAt(s.consumers[c], ref) && WaitsAt(s.consumers[d], ref) ==> c == d
  }

  ghost predicate WaitsAt(pc: Pc, ref: nat) {
    Waiting(pc) && pc.ref == ref
  }

  /** A served channel holds something, unless somebody has received from it since. */
  ghost predicate Poked(s: Config, ref: nat)
    requires ref < |s.core.store| == |s.history|
  {
    && (Served(s, ref) ==> Queue(s, ref) != [] || s.history[ref].drained)
    && (s.history[ref].drained ==> Served(s, ref))
  }

  ghost predicate AllPoked(s: Config)
    requires Sound(s)
  {
    forall ref :: 0 <= ref < |s.core.store| ==> Poked(s, ref)
  }

  /** If the channel was served and received from since, no unaware consumer waits on it. */
  ghost predicate NobodyMissed(s: Config, ref: nat)
    requires Sound(s)
  {
    forall c :: c in s.consumers && Unaware(s.consumers[c]) && s.consumers[c].ref == ref ==> !s.history[ref].drained
  }

  // ---- preservation ----

  lemma ScopedKeepsPoked(s: Config, key: Key, item: Item, onlyIfRegistered: bool, ref: nat)
    requires Sound(s) && item.Note? && (ref < |s.core.store| ==> Poked(s, ref))
    requires CoreExtended(s, RouteScopedStep(s, key, item, onlyIfRegistered))
    requires ref < |RouteScopedStep(s, key, item, onlyIfRegistered).core.store|
    ensures Poked(RouteScopedStep(s, key, item, onlyIfRegistered), ref)
  {
  }

  lemma ProducerKeepsPoked(s: Config, step: Step, ref: nat)
    requires Sound(s) && AllPoked(s) && Enabled(s, step)
    requires step.DoRegister? || step.DoUnregister? || step.DoRouteScoped? || step.DoRouteGlobal?
    requires CoreExtended(s, Apply(s, step)) && ref < |Apply(s, step).core.store|
    ensures Poked(Apply(s, step), ref)
  {
    hide RouteScopedStep;
    if ref < |s.core.store| {
      assert Poked(s, ref);
    }
    if step.DoRouteScoped? {
      ScopedKeepsPoked(s, step.key, step.item, step.onlyIfRegistered, ref);
    }
  }

  lemma TakeKeepsPoked(s: Config, c: nat, ref: nat)
    requires Sound(s) && Waiting(PcOf(s, c)) && Queue(s, PcOf(s, c).ref) != []
    requires ref < |s.core.store| && Poked(s, ref)
    ensures Poked(Take(s, c), ref)
  {
  }

  lemma NotifyKeepsPoked(s: Config, r: nat, ref: nat)
    requires Sound(s) && s.failer.Sending? && r in s.failer.left
    requires ref < |s.core.store| && Poked(s, ref)
    ensures ref < |NotifyStep(s, r).core.store| == |NotifyStep(s, r).history|
    ensures Poked(NotifyStep(s, r), ref)
  {
  }

  lemma StepKeepsPoked(s: Config, step: Step, ref: nat)
    requires Sound(s) && AllPoked(s) && Enabled(s, step)
    requires CoreExtended(s, Apply(s, step)) && ref < |Apply(s, step).core.store|
    ensures Poked(Apply(s, step), ref)
  {
    if ref < |s.core.store| {
      assert Poked(s, ref);
    }
    match step
    case Try(c) => if Queue(s, PcOf(s, c).ref) != [] { TakeKeepsPoked(s, c, ref); }
    case Wake(c) => TakeKeepsPoked(s, c, ref);
    case Notify(r) => NotifyKeepsPoked(s, r, ref);
    case DoRegister(_) => ProducerKeepsPoked(s, step, ref);
    case DoUnregister(_) => ProducerKeepsPoked(s, step, ref);
    case DoRouteScoped(_, _, _) => ProducerKeepsPoked(s, step, ref);
    case DoRouteGlobal(_) => ProducerKeepsPoked(s, step, ref);
    case _ =>
  }

  /** Only a consumer that takes an item drains a channel. */
  lemma DrainedByTakers(s: Config, step: Step, ref: nat)
    requires Sound(s) && Enabled(s, step) && ref < |s.core.store| && ref < |Apply(s, step).history|
    requires Apply(s, step).history[ref].drained
    ensures s.history[ref].drained
         || ((step.Try? || step.Wake?) && Waiting(PcOf(s, step.c)) && PcOf(s, step.c).ref == ref
             && PcOf(Apply(s, step), step.c).Holding?)
  {
  }

  /** Where an unaware consumer comes from: it was unaware before, or there is no failure yet. */
  lemma UnawareSince(s: Config, step: Step, c: nat)
    requires Sound(s) && Enabled(s, step) && Unaware(PcOf(Apply(s, step), c))
    ensures PcOf(Apply(s, step), c).ref < |s.core.store|
    ensures (s.failer.NotStarted? && !step.Fail?)
         || (Unaware(PcOf(s, c)) && PcOf(s, c).ref == PcOf(Apply(s, step), c).ref)
  {
  }

  lemma StepKeepsNobodyMissed(s: Config, step: Step, ref: nat)
    requires Sound(s) && AllPoked(s) && NobodyMissed(s, ref) && Enabled(s, step)
    requires Served(s, ref) ==> ExclusiveAt(s, ref)
    requires Sound(Apply(s, step)) && AllPoked(Apply(s, step))
    ensures NobodyMissed(Apply(s, step), ref)
  {
    var t := Apply(s, step);
    forall c | c in t.consumers && Unaware(t.consumers[c]) && t.consumers[c].ref == ref
      ensures !t.history[ref].drained
    {
      UnawareSince(s, step, c);
      assert Poked(t, ref);
      if t.history[ref].drained {
        assert t.failer.Sending?;
        DrainedByTakers(s, step, ref);
      }
    }
  }

  lemma {:induction false} RunIsPoked(limits: Limits, configs: seq<Config>, steps: seq<Step>, n: nat)
    requires Run(limits, configs, steps) && n < |configs|
    ensures Sound(configs[n]) && AllPoked(configs[n])
  {
    if n > 0 {
      RunIsPoked(limits, configs, steps, n - 1);
      var s, step := configs[n - 1], steps[n - 1];
      StepKeepsSound(s, step);
      CoreStepExtends(s, step);
      assert configs[n] == configs[n - 1 + 1];
      forall ref | 0 <= ref < |configs[n].core.store|
        ensures Poked(configs[n], ref)
      {
        StepKeepsPoked(s, step, ref);
      }
    }
  }

  lemma {:induction false} NobodyMisses(limits: Limits, configs: seq<Config>, steps: seq<Step>, n: nat, ref: nat)
    requires Run(limits, configs, steps) && n < |configs|
    requires forall i :: 0 <= i < n && Served(configs[i], ref) ==> ExclusiveAt(configs[i], ref)
    ensures Sound(configs[n]) && NobodyMissed(configs[n], ref)
  {
    if n > 0 {
      NobodyMisses(limits, configs, steps, n - 1, ref);
      RunIsPoked(limits, configs, steps, n - 1);
      RunIsPoked(limits, configs, steps, n);
      StepKeepsNobodyMissed(configs[n - 1], steps[n - 1], ref);
      assert configs[n] == configs[n - 1 + 1];
    }
  }

  // ---- the theorems ----

  /** The consumer is inside the select statement and nothing will ever arrive unless it gives up. */
  ghost predicate Stuck(s: Config, c: nat) {
    PcOf(s, c).Blocked? && PcOf(s, c).ref < |s.core.store| && Queue(s, PcOf(s, c).ref) == []
  }

  /**
    Once FailAll has finished, a consumer that has not seen the failure finds something in its channel,
    provided the channel was registered when the failure was flagged and, since FailAll served it, no
    two consumers have waited on it at the same time.
   */
  lemma NoLostWakeup(limits: Limits, configs: seq<Config>, steps: seq<Step>, n: nat, c: nat)
    requires Run(limits, configs, steps) && n < |configs|
    requires Finished(configs[n]) && Waiting(PcOf(configs[n], c))
    requires PcOf(configs[n], c).ref in configs[n].failer.flagged
    requires var ref := PcOf(configs[n], c).ref;
      forall i :: 0 <= i < n && Served(configs[i], ref) ==> ExclusiveAt(configs[i], ref)
    ensures Sound(configs[n]) && !Stuck(configs[n], c)
    ensures Unaware(PcOf(configs[n], c)) ==> Queue(configs[n], PcOf(configs[n], c).ref) != []
  {
    RunIsPoked(limits, configs, steps, n);
    NobodyMisses(limits, configs, steps, n, PcOf(configs[n], c).ref);
    assert Poked(configs[n], PcOf(configs[n], c).ref);
  }

  /** A route that is still registered after the failure was registered when it was flagged. */
  lemma RegisteredWasFlagged(s: Config, c: nat)
    requires Sound(s) && s.failer.Sending? && Waiting(PcOf(s, c)) && s.core.Live(PcOf(s, c).ref)
    ensures PcOf(s, c).ref in s.failer.flagged
  {
    var pc := PcOf(s, c);
    if pc.owner.Some? {
      assert s.core.routes[pc.owner.value] in Channels(s.core);
    }
  }

  /** The step is one of the consumer's own. */
  ghost predicate Moves(step: Step, c: nat) {
    || step == Try(c) || step == Check(c) || step == Wake(c) || step == Cancel(c) || step == GiveBack(c) || step == CallGlobal(c)
    || (step.Call? && step.c == c)
  }

  lemma {:induction false} StaysAware(limits: Limits, configs: seq<Config>, steps: seq<Step>, i: nat, n: nat, c: nat)
    requires Run(limits, configs, steps) && i <= n < |configs|
    requires configs[i].core.failed.Some? && !Unaware(PcOf(configs[i], c))
    ensures Sound(configs[n]) && configs[n].core.failed.Some? && !Unaware(PcOf(configs[n], c))
    decreases n
  {
    hide Apply;
    RunIsSound(limits, configs, steps, n);
    if i < n {
      StaysAware(limits, configs, steps, i, n - 1, c);
      var s, step := configs[n - 1], steps[n - 1];
      assert configs[n] == configs[n - 1 + 1];
      StaysFailed(s, step);
      if Unaware(PcOf(configs[n], c)) {
        UnawareSince(s, step, c);
      }
    }
  }

  lemma StaysFailed(s: Config, step: Step)
    requires Sound(s) && Enabled(s, step) && s.core.failed.Some?
    ensures Apply(s, step).core.failed.Some?
  {
  }

  /**
    Calls that start after the failure never block, whatever happens in between: the two steps of such
    a call take the item that is oldest by then, or return the error, and no step of anyone else moves
    the consumer.
   */
  lemma LaterCallsReturn(limits: Limits, configs: seq<Config>, steps: seq<Step>, i: nat, n: nat, c: nat)
    requires Run(limits, configs, steps) && i <= n < |steps|
    requires configs[i].core.failed.Some? && PcOf(configs[i], c).Idle?
    ensures Sound(configs[n])
    ensures var pc, next := PcOf(configs[n], c), PcOf(configs[n + 1], c);
      && !pc.Blocked?
      && (!Moves(steps[n], c) ==> next == pc)
      && (steps[n] == Try(c) ==>
            && pc.ref < |configs[n].core.store|
            && var q := Queue(configs[n], pc.ref);
               if q != [] then next == Holding(pc.owner, pc.ref, q[0]) else next.Checking?)
      && (steps[n] == Check(c) ==> next.Idle?)
  {
    hide Apply, Enabled, Moves, Unaware, Sound;
    IdleIsAware(configs[i], c);
    StaysAware(limits, configs, steps, i, n, c);
    StepOfAware(configs[n], steps[n], c);
  }

  /** Between its lookup and its test of the flag the consumer has only tried to receive. */
  ghost predicate OnlyTries(steps: seq<Step>, i: nat, n: nat, c: nat) {
    i <= n <= |steps| && forall j :: i < j < n && Moves(steps[j], c) ==> steps[j] == Try(c)
  }

  /** The consumer has looked the key up in `core`: its route and the failure flag there, if it has a channel. */
  ghost predicate Saw(pc: Pc, core: Core, key: Key) {
    if key in core.routes && core.routes[key] < |core.store| && core.store[core.routes[key]].queue.Some? then
      pc.Holding? || ((pc.Trying? || pc.Checking?) && pc.owner == Some(key) && pc.ref == core.routes[key] && pc.seen == core.failed)
    else
      pc.Idle?
  }

  lemma CallSees(s: Config, c: nat, key: Key)
    requires Sound(s) && Enabled(s, Call(c, key))
    ensures Saw(PcOf(Apply(s, Call(c, key)), c), s.core, key)
  {
  }

  lemma TryKeepsSight(s: Config, step: Step, c: nat, core: Core, key: Key)
    requires Sound(s) && Enabled(s, step) && Saw(PcOf(s, c), core, key) && (Moves(step, c) ==> step == Try(c))
    ensures Saw(PcOf(Apply(s, step), c), core, key)
  {
    if !Moves(step, c) {
      OnlyItsOwnSteps(s, step, c);
    }
  }

  lemma OnlyItsOwnSteps(s: Config, step: Step, c: nat)
    requires Sound(s) && Enabled(s, step) && !Moves(step, c)
    ensures PcOf(Apply(s, step), c) == PcOf(s, c)
  {
  }

  lemma {:induction false} KeepsWhatItSaw(limits: Limits, configs: seq<Config>, steps: seq<Step>, i: nat, n: nat, c: nat, key: Key)
    requires Run(limits, configs, steps) && i < n < |configs| && steps[i] == Call(c, key) && OnlyTries(steps, i, n, c)
    ensures Sound(configs[n]) && Saw(PcOf(configs[n], c), configs[i].core, key)
    decreases n - i
  {
    hide Apply, Enabled, Sound, Saw, Moves;
    RunIsSound(limits, configs, steps, n);
    RunIsSound(limits, configs, steps, n - 1);
    assert configs[n] == configs[n - 1 + 1] == Apply(configs[n - 1], steps[n - 1]);
    if n == i + 1 {
      CallSees(configs[i], c, key);
    } else {
      KeepsWhatItSaw(limits, configs, steps, i, n - 1, c, key);
      TryKeepsSight(configs[n - 1], steps[n - 1], c, configs[i].core, key);
    }
  }

  /**
    A consumer of a route blocks on its empty channel if and only if there was no failure when it looked
    the route up; one that comes in between does not stop it. For the global queue the flag is read again.
   */
  lemma LookupDecides(limits: Limits, configs: seq<Config>, steps: seq<Step>, i: nat, n: nat, c: nat, key: Key)
    requires Run(limits, configs, steps) && i < n < |steps| && steps[i] == Call(c, key) && OnlyTries(steps, i, n, c)
    requires steps[n] == Check(c)
    ensures var next := PcOf(configs[n + 1], c);
      if configs[i].core.failed.None? then next.Blocked? && next.owner == Some(key) else next.Idle?
  {
    hide Apply, Sound, Saw, Moves, OnlyTries;
    KeepsWhatItSaw(limits, configs, steps, i, n, c, key);
    CheckDecides(configs[n], c, configs[i].core, key);
  }

  lemma CheckDecides(s: Config, c: nat, core: Core, key: Key)
    requires Sound(s) && Enabled(s, Check(c)) && Saw(PcOf(s, c), core, key)
    ensures var next := PcOf(Apply(s, Check(c)), c);
      if core.failed.None? then next.Blocked? && next.owner == Some(key) else next.Idle?
  {
  }

  lemma GlobalLooksAgain(s: Config, c: nat)
    requires Sound(s) && PcOf(s, c).Checking? && PcOf(s, c).owner.None?
    ensures PcOf(Apply(s, Check(c)), c) == if s.core.failed.Some? then Idle else Blocked(None, PcOf(s, c).ref)
  {
  }

  lemma IdleIsAware(s: Config, c: nat)
    requires PcOf(s, c).Idle?
    ensures !Unaware(PcOf(s, c))
  {
  }

  lemma StepOfAware(s: Config, step: Step, c: nat)
    requires Sound(s) && Enabled(s, step) && s.core.failed.Some? && !Unaware(PcOf(s, c))
    ensures var pc, next := PcOf(s, c), PcOf(Apply(s, step), c);
      && !pc.Blocked?
      && (!Moves(step, c) ==> next == pc)
      && (step == Try(c) ==>
            && pc.ref < |s.core.store|
            && var q := Queue(s, pc.ref);
               if q != [] then next == Holding(pc.owner, pc.ref, q[0]) else next.Checking?)
      && (step == Check(c) ==> next.Idle?)
  {
  }

  /** After FailAll nothing is added to any channel, so the leftovers run out. */
  lemma LeftoversOnlyShrink(s: Config, step: Step, ref: nat)
    requires Sound(s) && Finished(s) && Enabled(s, step) && ref < |s.core.store|
    ensures ref < |Apply(s, step).core.store| && Finished(Apply(s, step))
    ensures Queue(Apply(s, step), ref) == Queue(s, ref)
         || (Queue(s, ref) != [] && Queue(Apply(s, step), ref) == Queue(s, ref)[1..])
  {
  }

  /** Without any assumption on the consumers, one is stuck on a flagged channel only behind another receipt. */
  lemma {:induction false} StuckOnlyBehindAReceipt(
    limits: Limits, configs: seq<Config>, steps: seq<Step>, n: nat, c: nat)
    requires Run(limits, configs, steps) && n < |configs|
    requires Finished(configs[n]) && Stuck(configs[n], c)
    requires PcOf(configs[n], c).ref in configs[n].failer.flagged
    ensures Sound(configs[n]) && configs[n].history[PcOf(configs[n], c).ref].drained
  {
    RunIsPoked(limits, configs, steps, n);
    assert Poked(configs[n], PcOf(configs[n], c).ref);
  }

  /** A consumer whose route was unregistered before the failure is outside the claim: it stays stuck. */
  lemma DetachedStaysStuck(s: Config, step: Step, c: nat)
    requires Sound(s) && s.failer.Sending? && Enabled(s, step) && step != Cancel(c)
    requires Stuck(s, c) && PcOf(s, c).ref !in s.failer.flagged
    ensures Stuck(Apply(s, step), c)
  {
  }

  // ---- why the provisos are needed, from every configuration ----

  /** Taking the steps one after the other leads from one configuration to the other. */
  ghost predicate Leads(s: Config, steps: seq<Step>, t: Config) {
    exists configs :: Trace(configs, steps) && configs[0] == s && configs[|steps|] == t
  }

  ghost predicate Trace(configs: seq<Config>, steps: seq<Step>) {
    && |configs| == |steps| + 1
    && forall i :: 0 <= i < |steps| ==>
         Sound(configs[i]) && Enabled(configs[i], steps[i]) && configs[i + 1] == Apply(configs[i], steps[i])
  }

  lemma LeadsNowhere(s: Config)
    ensures Leads(s, [], s)
  {
    assert Trace([s], []) && [s][0] == s;
  }

  /** What steps lead to from the initial configuration is the end of a run. */
  lemma LeadsIsRun(limits: Limits, steps: seq<Step>, s: Config)
    requires Leads(Init(limits), steps, s)
    ensures exists configs :: Run(limits, configs, steps) && configs[|steps|] == s
  {
    var configs :| Trace(configs, steps) && configs[0] == Init(limits) && configs[|steps|] == s;
    assert Run(limits, configs, steps);
  }

  lemma LeadsOn(start: Config, steps: seq<Step>, s: Config, step: Step)
    requires Leads(start, steps, s) && Sound(s) && Enabled(s, step)
    ensures Sound(Apply(s, step)) && Leads(start, steps + [step], Apply(s, step))
  {
    hide Sound, Enabled, Apply;
    StepKeepsSound(s, step);
    var configs :| Trace(configs, steps) && configs[0] == start && configs[|steps|] == s;
    var longer := configs + [Apply(s, step)];
    assert Trace(longer, steps + [step]) && longer[0] == start && longer[|steps + [step]|] == Apply(s, step);
  }

  /** A consumer is blocked on an empty channel whose counters are still in the maps, and nothing has failed. */
  ghost predicate Pending(s: Config, c: nat) {
    Sound(s) && s.core.failed.None? && Stuck(s, c) && s.core.Live(PcOf(s, c).ref)
  }

  lemma LiveIsSnapshot(s: Config, c: nat)
    requires Pending(s, c)
    ensures var pc := PcOf(s, c);
      && pc.ref in Channels(s.core) && s.core.store[pc.ref].owner == pc.owner
      && if pc.owner.Some? then pc.owner.value in s.core.routes && s.core.routes[pc.owner.value] == pc.ref else pc.ref == 0
  {
    var pc := PcOf(s, c);
    if pc.owner.Some? {
      assert s.core.routes[pc.owner.value] in Channels(s.core);
    }
  }

  lemma NotifyMarks(s: Config, ref: nat)
    requires Sound(s) && s.failer.Sending? && ref in s.failer.left && Queue(s, ref) == []
    ensures NotifyStep(s, ref).core.store == s.core.store[ref := s.core.store[ref].(queue := Some([Marker(s.failer.error)]))]
    ensures NotifyStep(s, ref).core.routes == s.core.routes
  {
    assert s.core.store[ref].queue.value + [Marker(s.failer.error)] == [Marker(s.failer.error)];
  }

  /** FailAll serves the channels that are left, and none of them is `ref`. */
  lemma {:induction false} ServeRest(start: Config, before: seq<Step>, s: Config, ref: nat) returns (t: Config, steps: seq<Step>)
    requires Leads(start, before, s) && Sound(s) && s.failer.Sending? && ref !in s.failer.left && ref < |s.core.store|
    ensures Leads(start, steps, t) && before <= steps && Sound(t) && Finished(t)
    ensures t.consumers == s.consumers && t.core.routes == s.core.routes && t.failer.flagged == s.failer.flagged
    ensures |t.core.store| == |s.core.store| && t.core.store[ref] == s.core.store[ref]
    decreases |s.failer.left|
  {
    hide Leads;
    if s.failer.left == {} {
      t, steps := s, before;
    } else {
      var r :| r in s.failer.left;
      LeadsOn(start, before, s, Notify(r));
      t, steps := ServeRest(start, before + [Notify(r)], Apply(s, Notify(r)), ref);
    }
  }

  /** The failure is flagged and the consumer's channel is the first to be served. */
  lemma FailAndPoke(start: Config, before: seq<Step>, s: Config, c: nat, error: Error) returns (t: Config, steps: seq<Step>)
    requires Leads(start, before, s) && Pending(s, c)
    ensures Leads(start, steps, t) && before <= steps && Sound(t)
    ensures t.consumers == s.consumers && t.core.routes == s.core.routes && t.core.failed == Some(error)
    ensures var ref := PcOf(s, c).ref;
      && t.failer.Sending? && t.failer.flagged == Channels(s.core) && t.failer.left == Channels(s.core) - {ref}
      && t.core.store == s.core.store[ref := s.core.store[ref].(queue := Some([Marker(error)]))]
  {
    hide Leads;
    var ref := PcOf(s, c).ref;
    LiveIsSnapshot(s, c);
    LeadsOn(start, before, s, Fail(error));
    t := Apply(s, Fail(error));
    NotifyMarks(t, ref);
    LeadsOn(start, before + [Fail(error)], t, Notify(ref));
    t, steps := Apply(t, Notify(ref)), before + [Fail(error)] + [Notify(ref)];
  }

  /** Exactly one item is in the channel: who receives it leaves the channel empty. */
  ghost predicate Drains(s: Config, t: Config, c: nat, ref: nat)
    requires ref < |s.core.store|
  {
    && |t.core.store| == |s.core.store|
    && t.core.store[ref] == s.core.store[ref].(queue := Some([]))
    && t.core.routes == s.core.routes && t.failer == s.failer
    && forall d :: d != c ==> PcOf(t, d) == PcOf(s, d)
  }

  lemma TakeDrains(s: Config, c: nat)
    requires Sound(s) && Waiting(PcOf(s, c)) && |Queue(s, PcOf(s, c).ref)| == 1
    ensures PcOf(s, c).ref < |s.core.store| && Drains(s, Take(s, c), c, PcOf(s, c).ref)
  {
    assert Queue(s, PcOf(s, c).ref)[1..] == [];
  }

  /**
    From every configuration in which two consumers are blocked on one live, empty channel, a failure
    and one wake-up leave the other one stuck when FailAll is done.
   */
  lemma SecondConsumerIsStuck(start: Config, before: seq<Step>, s: Config, c: nat, d: nat, error: Error)
    returns (t: Config, steps: seq<Step>)
    requires Leads(start, before, s) && c != d && Pending(s, c) && Pending(s, d) && PcOf(s, c).ref == PcOf(s, d).ref
    ensures Leads(start, steps, t) && before <= steps && Sound(t) && Finished(t)
    ensures Stuck(t, d) && PcOf(t, d) == PcOf(s, d) && t.core.Live(PcOf(t, d).ref) && PcOf(t, d).ref in t.failer.flagged
  {
    hide Leads, Sound, Take, Apply, Enabled, Channels;
    var ref := PcOf(s, c).ref;
    LiveIsSnapshot(s, c);
    t, steps := FailAndPoke(start, before, s, c, error);
    WakeTakes(t, c);
    LeadsOn(start, steps, t, Wake(c));
    TakeDrains(t, c);
    t, steps := Take(t, c), steps + [Wake(c)];
    assert PcOf(t, d) == PcOf(s, d);
    t, steps := ServeRest(start, steps, t, ref);
  }

  /** The call the consumer of a route makes. */
  ghost function CallOf(owner: Option<Key>, d: nat): Step {
    if owner.Some? then Call(d, owner.value) else CallGlobal(d)
  }

  lemma TryTakes(s: Config, c: nat)
    requires Sound(s) && PcOf(s, c).Trying? && Queue(s, PcOf(s, c).ref) != []
    ensures Apply(s, Try(c)) == Take(s, c)
  {
  }

  lemma WakeTakes(s: Config, c: nat)
    requires Sound(s) && PcOf(s, c).Blocked? && Queue(s, PcOf(s, c).ref) != []
    ensures Enabled(s, Wake(c)) && Apply(s, Wake(c)) == Take(s, c)
  {
  }

  lemma CallFindsChannel(s: Config, d: nat, owner: Option<Key>, ref: nat)
    requires Sound(s) && ref < |s.core.store| && s.core.store[ref].queue.Some?
    requires if owner.Some? then owner.value in s.core.routes && s.core.routes[owner.value] == ref else ref == 0
    requires PcOf(s, d).Idle?
    ensures var t := Apply(s, CallOf(owner, d));
      && PcOf(t, d).Trying? && PcOf(t, d).ref == ref
      && t.core == s.core && t.failer == s.failer && forall c :: c != d ==> PcOf(t, c) == PcOf(s, c)
  {
  }

  /** So does a second consumer that only calls after the failure: it takes the marker of the blocked one. */
  lemma LaterCallerTakesMarker(start: Config, before: seq<Step>, s: Config, c: nat, d: nat, error: Error)
    returns (t: Config, steps: seq<Step>)
    requires Leads(start, before, s) && c != d && Pending(s, c) && PcOf(s, d).Idle?
    ensures Leads(start, steps, t) && before <= steps && Sound(t) && Finished(t)
    ensures Stuck(t, c) && PcOf(t, c) == PcOf(s, c) && t.core.Live(PcOf(t, c).ref) && PcOf(t, c).ref in t.failer.flagged
  {
    hide Leads, Sound, Take, Apply, Channels;
    var ref, owner := PcOf(s, c).ref, PcOf(s, c).owner;
    LiveIsSnapshot(s, c);
    t, steps := FailAndPoke(start, before, s, c, error);
    var call := CallOf(owner, d);
    LeadsOn(start, steps, t, call);
    CallFindsChannel(t, d, owner, ref);
    t, steps := Apply(t, call), steps + [call];
    assert PcOf(t, c) == PcOf(s, c);
    LeadsOn(start, steps, t, Try(d));
    TakeDrains(t, d);
    TryTakes(t, d);
    t, steps := Take(t, d), steps + [Try(d)];
    assert PcOf(t, c) == PcOf(s, c);
    t, steps := ServeRest(start, steps, t, ref);
  }

  lemma UnregisterDetaches(s: Config, key: Key)
    requires Sound(s) && s.core.failed.None? && key in s.core.routes
    ensures var t := Apply(s, DoUnregister(key));
      && Sound(t) && t.core.store == s.core.store && t.consumers == s.consumers && t.core.failed.None?
      && s.core.routes[key] !in Channels(t.core)
  {
    StepKeepsSound(s, DoUnregister(key));
    var t := Apply(s, DoUnregister(key));
    forall k | k in t.core.routes
      ensures t.core.routes[k] != s.core.routes[key]
    {
      assert s.core.store[s.core.routes[k]].owner == Some(k);
    }
  }

  /** And from every configuration with a blocked consumer, unregistering its route before the failure strands it. */
  lemma UnregisteredConsumerIsStuck(start: Config, before: seq<Step>, s: Config, c: nat, error: Error)
    returns (t: Config, steps: seq<Step>)
    requires Leads(start, before, s) && Pending(s, c) && PcOf(s, c).owner.Some?
    ensures Leads(start, steps, t) && before <= steps && Sound(t) && Finished(t)
    ensures Stuck(t, c) && PcOf(t, c) == PcOf(s, c) && PcOf(t, c).ref !in t.failer.flagged
  {
    hide Leads;
    var key := PcOf(s, c).owner.value;
    LeadsOn(start, before, s, DoUnregister(key));
    UnregisterDetaches(s, key);
    t, steps := Apply(s, DoUnregister(key)), before + [DoUnregister(key)];
    LeadsOn(start, steps, t, Fail(error));
    t, steps := Apply(t, Fail(error)), steps + [Fail(error)];
    t, steps := ServeRest(start, steps, t, PcOf(s, c).ref);
  }

  // ---- such configurations are reachable ----

  const TURN := Key(Turn, "t")

  /** The turn's route is registered, nothing is queued and nothing has failed. */
  ghost predicate Waitable(s: Config) {
    && Sound(s)
    && s.core.routes == map[TURN := 1] && |s.core.store| == 2
    && s.core.store[1].queue.Some? && Queue(s, 1) == []
    && s.failer.NotStarted?
  }

  /** A consumer of the turn looks, finds nothing, and blocks. */
  lemma ConsumerBlocks(start: Config, before: seq<Step>, s: Config, c: nat) returns (t: Config, steps: seq<Step>)
    requires Leads(start, before, s) && Waitable(s) && PcOf(s, c).Idle?
    ensures Leads(start, steps, t) && Waitable(t) && Pending(t, c)
    ensures t.core == s.core && t.consumers == s.consumers[c := Blocked(Some(TURN), 1)]
  {
    hide Leads;
    LeadsOn(start, before, s, Call(c, TURN));
    var s1 := Apply(s, Call(c, TURN));
    assert s1 == SetPc(s, c, Trying(Some(TURN), 1, None));
    LeadsOn(start, before + [Call(c, TURN)], s1, Try(c));
    var s2 := Apply(s1, Try(c));
    assert s2 == SetPc(s1, c, Checking(Some(TURN), 1, None));
    LeadsOn(start, before + [Call(c, TURN)] + [Try(c)], s2, Check(c));
    t, steps := Apply(s2, Check(c)), before + [Call(c, TURN)] + [Try(c)] + [Check(c)];
    assert t.consumers == s.consumers[c := Blocked(Some(TURN), 1)];
    assert t.core.store[1].owner == Some(TURN);
  }

  /** One turn with two consumers blocked on it, from the start. */
  lemma TwoConsumersBlock(limits: Limits) returns (s: Config, steps: seq<Step>)
    ensures Leads(Init(limits), steps, s) && Pending(s, 0) && Pending(s, 1) && PcOf(s, 0) == PcOf(s, 1)
    ensures PcOf(s, 0).owner.Some?
  {
    hide Leads;
    var start := Init(limits);
    LeadsNowhere(start);
    LeadsOn(start, [], start, DoRegister(TURN));
    s, steps := Apply(start, DoRegister(TURN)), [] + [DoRegister(TURN)];
    s, steps := ConsumerBlocks(start, steps, s, 0);
    s, steps := ConsumerBlocks(start, steps, s, 1);
  }
}
