/**
  Conservation: the router's counters are exactly what its queues and its consumers hold, in every
  configuration any interleaving can reach.
 */
module RouterLedger {
  import opened Wrappers
  import opened FiniteSums
  import opened RouterState
  import opened RouterMachine

  /** What is counted: encoded bytes, reserved notifications, or FailAll's unreserved markers. */
  datatype Gauge = Bytes | Notes | Markers

  function Weigh(g: Gauge, item: Item): int {
    match g
    case Bytes => item.Size()
    case Notes => if item.Note? then 1 else 0
    case Markers => if item.Marker? then 1 else 0
  }

  function Load(g: Gauge, items: seq<Item>): (n: int)
    ensures 0 <= n
  {
    if items == [] then 0 else Weigh(g, items[0]) + Load(g, items[1..])
  }

  lemma {:induction false} LoadAppend(g: Gauge, a: seq<Item>, b: seq<Item>)
    ensures Load(g, a + b) == Load(g, a) + Load(g, b)
    decreases |a|
  {
    if a == [] {
      assert a + b == b;
    } else {
      LoadAppend(g, a[1..], b);
      assert (a + b)[1..] == a[1..] + b;
    }
  }

  lemma {:induction false} LoadNotes(items: seq<Item>)
    ensures Load(Notes, items) + Load(Markers, items) == |items|
  {
    if items != [] {
      LoadNotes(items[1..]);
    }
  }

  function Share(g: Gauge, pc: Pc, ref: nat): (n: int)
    ensures 0 <= n
  {
    if pc.Holding? && pc.ref == ref then Weigh(g, pc.item) else 0
  }

  ghost function Shares(g: Gauge, consumers: map<nat, Pc>, ref: nat): map<nat, int> {
    map c | c in consumers :: Share(g, consumers[c], ref)
  }

  /** Received but not yet released: items of `ref` in the hands of its consumers. */
  ghost function Held(g: Gauge, consumers: map<nat, Pc>, ref: nat): int {
    Sum(Shares(g, consumers, ref))
  }

  lemma HeldUpdate(g: Gauge, consumers: map<nat, Pc>, c: nat, pc: Pc, ref: nat)
    ensures Held(g, consumers[c := pc], ref)
         == Held(g, consumers, ref) + Share(g, pc, ref) - (if c in consumers then Share(g, consumers[c], ref) else 0)
  {
    var m := Shares(g, consumers, ref);
    assert Shares(g, consumers[c := pc], ref) == m[c := Share(g, pc, ref)];
    SumUpdate(m, c, Share(g, pc, ref));
  }

  lemma HeldNonNegative(g: Gauge, consumers: map<nat, Pc>, ref: nat)
    ensures 0 <= Held(g, consumers, ref)
  {
    SumNonNegative(Shares(g, consumers, ref));
  }

  // ---- what each route state's channel has carried ----

  /** FailAll's marker, once it is in the channel. */
  ghost function Mark(s: Config, ref: nat): seq<Item>
    requires ref < |s.history|
  {
    if s.failer.Sending? && s.history[ref].marked then [Marker(s.failer.error)] else []
  }

  /** First in, first out: what was received, then what is buffered, is what was accepted, in order. */
  ghost predicate Fifo(s: Config, ref: nat)
    requires ref < |s.history| == |s.core.store|
  {
    s.history[ref].received + Queue(s, ref) == s.history[ref].accepted + Mark(s, ref)
  }

  /** Every received item is in one consumer's hands or has been released. */
  ghost predicate InHand(g: Gauge, s: Config, ref: nat)
    requires ref < |s.history|
  {
    Held(g, s.consumers, ref) + Load(g, s.history[ref].returned) == Load(g, s.history[ref].received)
  }

  /** A live route state's counters are what was accepted less what was released. */
  ghost predicate Counted(s: Config, ref: nat)
    requires ref < |s.history| == |s.core.store|
  {
    s.core.Live(ref) ==>
      && s.core.store[ref].events == |s.history[ref].accepted| - |s.history[ref].returned|
      && s.core.store[ref].bytes == Load(Bytes, s.history[ref].accepted) - Load(Bytes, s.history[ref].returned)
  }

  /** What was subtracted from the totals: the releases while it is live, everything once it is gone. */
  ghost predicate CreditedOnce(s: Config, ref: nat)
    requires ref < |s.history| == |s.core.store|
  {
    var h := s.history[ref];
    if s.core.Live(ref) then
      h.creditedEvents == |h.returned| && h.creditedBytes == Load(Bytes, h.returned)
    else
      h.creditedEvents == |h.accepted| && h.creditedBytes == Load(Bytes, h.accepted)
  }

  ghost predicate Ledger(s: Config, ref: nat)
    requires ref < |s.history| == |s.core.store|
  {
    && Fifo(s, ref)
    && Counted(s, ref)
    && CreditedOnce(s, ref)
    && (s.history[ref].marked ==> s.failer.Sending? && ref in s.failer.flagged && ref !in s.failer.left)
  }

  ghost predicate Balanced(s: Config)
    requires Sound(s)
  {
    forall ref :: 0 <= ref < |s.core.store| ==> Ledger(s, ref)
  }

  // ---- what the critical sections do to one route state ----

  /** Nothing about `ref` that the ledger mentions has changed. */
  ghost predicate Untouched(c: Core, d: Core, ref: nat)
    requires ref < |c.store| && ref < |d.store|
  {
    && d.store[ref].Contents() == c.store[ref].Contents()
    && d.store[ref].events == c.store[ref].events
    && d.store[ref].bytes == c.store[ref].bytes
    && d.Live(ref) == c.Live(ref)
  }

  ghost predicate Fresh(d: Core, ref: nat)
    requires ref < |d.store|
  {
    d.store[ref].Contents() == [] && d.store[ref].events == 0 && d.store[ref].bytes == 0 && d.Live(ref)
  }

  ghost predicate Quiet(c: Core, d: Core) {
    && |c.store| <= |d.store|
    && (forall r :: 0 <= r < |c.store| ==> Untouched(c, d, r))
    && (forall r :: |c.store| <= r < |d.store| ==> Fresh(d, r))
  }

  lemma WithRouteQuiet(c: Core, key: Key)
    requires c.WellFormed() && key !in c.closed
    ensures Quiet(c, WithRoute(c, key))
  {
  }

  lemma RegisterQuiet(c: Core, key: Key)
    requires c.WellFormed()
    ensures Quiet(c, Register(c, key).0)
  {
    if c.failed.None? {
      var open := c.(closed := c.closed - {key});
      WithRouteQuiet(open, key);
      WithRouteExtends(open, key);
    }
  }

  /** One item went to `ref`: it is last in its contents and counted once. */
  ghost predicate AcceptedAt(c: Core, d: Core, ref: nat, item: Item)
    requires ref < |c.store| && ref < |d.store|
  {
    && d.store[ref].Contents() == c.store[ref].Contents() + [item]
    && d.store[ref].events == c.store[ref].events + 1
    && d.store[ref].bytes == c.store[ref].bytes + item.Size()
    && d.Live(ref) && c.Live(ref)
  }

  lemma EnqueueEffect(c: Core, key: Key, item: Item)
    requires c.WellFormed() && key in c.routes
    ensures var (d, err) := Enqueue(c, key, item);
      && |d.store| == |c.store| && d.routes == c.routes
      && (err.Some? ==> d == c)
      && (err.None? ==> AcceptedAt(c, d, c.routes[key], item))
      && (forall r :: 0 <= r < |c.store| && r != c.routes[key] ==> Untouched(c, d, r))
  {
  }

  ghost predicate AllInHand(s: Config)
    requires Sound(s)
  {
    forall g, ref :: 0 <= ref < |s.history| ==> InHand(g, s, ref)
  }

  // ---- preservation of `InHand` ----

  lemma TakeKeepsInHand(g: Gauge, s: Config, c: nat, ref: nat)
    requires Sound(s) && Waiting(PcOf(s, c)) && Queue(s, PcOf(s, c).ref) != []
    requires ref < |s.history| && InHand(g, s, ref)
    ensures InHand(g, Take(s, c), ref)
  {
    var t := Take(s, c);
    var pc := PcOf(s, c);
    var head := Queue(s, pc.ref)[0];
    HeldUpdate(g, s.consumers, c, t.consumers[c], ref);
    LoadAppend(g, s.history[pc.ref].received, [head]);
    assert Load(g, [head]) == Weigh(g, head);
  }

  lemma GiveBackKeepsInHand(g: Gauge, s: Config, c: nat, ref: nat)
    requires Sound(s) && PcOf(s, c).Holding?
    requires ref < |s.history| && InHand(g, s, ref)
    ensures InHand(g, GiveBackStep(s, c), ref)
  {
    var pc := PcOf(s, c);
    HeldUpdate(g, s.consumers, c, Idle, ref);
    LoadAppend(g, s.history[pc.ref].returned, [pc.item]);
    assert Load(g, [pc.item]) == Weigh(g, pc.item);
  }

  /** A consumer that neither takes nor releases an item. */
  lemma LookingKeepsInHand(g: Gauge, s: Config, c: nat, pc: Pc, ref: nat)
    requires ref < |s.history| && InHand(g, s, ref)
    requires !PcOf(s, c).Holding? && !pc.Holding?
    ensures InHand(g, SetPc(s, c, pc), ref)
  {
    HeldUpdate(g, s.consumers, c, pc, ref);
  }

  ghost predicate ByOthers(step: Step) {
    || step.DoRegister? || step.DoUnregister? || step.DoRouteScoped? || step.DoRouteGlobal?
    || step.Fail? || step.Notify?
  }

  /** Steps of producers and of FailAll: consumers stay where they are, receipts and releases too. */
  lemma OthersMoveNobody(s: Config, step: Step, ref: nat)
    requires Sound(s) && Enabled(s, step) && ByOthers(step)
    requires ref < |Apply(s, step).history|
    ensures Apply(s, step).consumers == s.consumers
    ensures |s.history| <= |Apply(s, step).history| <= |s.core.store| + 1
    ensures var h := Apply(s, step).history[ref];
      if ref < |s.history| then
        h.received == s.history[ref].received && h.returned == s.history[ref].returned
      else
        h.received == [] && h.returned == []
  {
    hide RouteScoped, RouteGlobal, Register, Unregister, TrySend;
    CoreStepExtends(s, step);
  }

  lemma OthersKeepInHand(g: Gauge, s: Config, step: Step, ref: nat)
    requires Sound(s) && Enabled(s, step) && AllInHand(s) && ByOthers(step)
    requires ref < |Apply(s, step).history|
    ensures InHand(g, Apply(s, step), ref)
  {
    OthersMoveNobody(s, step, ref);
    if ref < |s.history| {
      assert InHand(g, s, ref);
    } else {
      SumZero(Shares(g, s.consumers, ref));
    }
  }

  lemma StepKeepsInHand(g: Gauge, s: Config, step: Step, ref: nat)
    requires Sound(s) && Enabled(s, step) && AllInHand(s)
    requires ref < |Apply(s, step).history|
    ensures InHand(g, Apply(s, step), ref)
  {
    if ref < |s.history| {
      assert InHand(g, s, ref);
    }
    match step
    case Call(c, key) =>
      if CallStep(s, c, key) != s {
        LookingKeepsInHand(g, s, c, Trying(Some(key), s.core.routes[key], s.core.failed), ref);
      }
    case CallGlobal(c) => LookingKeepsInHand(g, s, c, Trying(None, 0, None), ref);
    case Try(c) =>
      var pc := PcOf(s, c);
      if Queue(s, pc.ref) != [] {
        TakeKeepsInHand(g, s, c, ref);
      } else {
        LookingKeepsInHand(g, s, c, Checking(pc.owner, pc.ref, pc.seen), ref);
      }
    case Check(c) => LookingKeepsInHand(g, s, c, PcOf(CheckStep(s, c), c), ref);
    case Cancel(c) => LookingKeepsInHand(g, s, c, Idle, ref);
    case Wake(c) => TakeKeepsInHand(g, s, c, ref);
    case GiveBack(c) => GiveBackKeepsInHand(g, s, c, ref);
    case _ => OthersKeepInHand(g, s, step, ref);
  }

  // ---- preservation of the ledger, one kind of step at a time ----

  lemma RegisterKeepsLedger(s: Config, step: Step, ref: nat)
    requires Sound(s) && Balanced(s) && step.DoRegister?
    requires CoreExtended(s, Apply(s, step)) && ref < |Apply(s, step).core.store|
    ensures Ledger(Apply(s, step), ref)
  {
    RegisterQuiet(s.core, step.key);
    if ref < |s.core.store| {
      assert Ledger(s, ref);
    }
  }

  /** An accepted item is appended to what was accepted and to what is buffered, and charged once. */
  lemma AcceptKeepsLedger(s: Config, t: Config, ref: nat, item: Item)
    requires ref < |s.core.store| == |s.history| && ref < |t.core.store| == |t.history|
    requires Ledger(s, ref) && s.failer.NotStarted? && t.failer.NotStarted?
    requires AcceptedAt(s.core, t.core, ref, item)
    requires t.history[ref] == s.history[ref].(accepted := s.history[ref].accepted + [item])
    ensures Ledger(t, ref)
  {
    LoadAppend(Bytes, s.history[ref].accepted, [item]);
    assert Load(Bytes, [item]) == item.Size();
    assert s.history[ref].received + (Queue(s, ref) + [item]) == s.history[ref].received + Queue(s, ref) + [item];
  }

  lemma WithRouteKeepsLedger(s: Config, key: Key, ref: nat)
    requires Sound(s) && Balanced(s) && key !in s.core.closed
    ensures var c := WithRoute(s.core, key);
      var mid := s.(core := c, history := Grow(s.history, c));
      ref < |c.store| ==> Ledger(mid, ref)
  {
    WithRouteQuiet(s.core, key);
    if ref < |s.core.store| {
      assert Ledger(s, ref);
    }
  }

  lemma EnqueueKeepsLedger(s: Config, key: Key, item: Item, t: Config, ref: nat)
    requires s.core.WellFormed() && |s.history| == |s.core.store| && key in s.core.routes
    requires s.failer.NotStarted? && t.failer.NotStarted?
    requires t.core == Enqueue(s.core, key, item).0 && |t.core.store| == |t.history|
    requires t.history ==
      if Enqueue(s.core, key, item).1.None? then Accepted(s.history, s.core.routes[key], item) else s.history
    requires ref < |s.core.store| && Ledger(s, ref)
    ensures ref < |t.core.store| && Ledger(t, ref)
  {
    EnqueueEffect(s.core, key, item);
    if Enqueue(s.core, key, item).1.None? && ref == s.core.routes[key] {
      AcceptKeepsLedger(s, t, ref, item);
    }
  }

  lemma RouteScopedKeepsLedger(s: Config, step: Step, ref: nat)
    requires Sound(s) && Balanced(s) && step.DoRouteScoped? && Enabled(s, step)
    requires CoreExtended(s, Apply(s, step)) && ref < |Apply(s, step).core.store|
    ensures Ledger(Apply(s, step), ref)
  {
    var key, item := step.key, step.item;
    if s.core.failed.Some? || Ignores(s.core, key, step.onlyIfRegistered) {
      assert Ledger(s, ref);
    } else {
      var c := WithRoute(s.core, key);
      var mid := s.(core := c, history := Grow(s.history, c));
      WithRouteExtends(s.core, key);
      WithRouteKeepsLedger(s, key, ref);
      EnqueueEffect(c, key, item);
      EnqueueKeepsLedger(mid, key, item, Apply(s, step), ref);
    }
  }

  lemma RouteGlobalKeepsLedger(s: Config, step: Step, ref: nat)
    requires Sound(s) && Balanced(s) && step.DoRouteGlobal? && Enabled(s, step)
    requires CoreExtended(s, Apply(s, step)) && ref < |Apply(s, step).core.store|
    ensures Ledger(Apply(s, step), ref)
  {
    assert ref < |s.core.store| && Ledger(s, ref);
    if RouteGlobal(s.core, step.item).1.None? && ref == 0 {
      AcceptKeepsLedger(s, Apply(s, step), 0, step.item);
    }
  }

  /** Unregister books everything outstanding; afterwards the route state is no longer live. */
  lemma UnregisterTakesOne(c: Core, key: Key, ref: nat)
    requires c.WellFormed() && ref < |c.store|
    ensures var d := Unregister(c, key); var gone := key in c.routes && c.routes[key] == ref;
      && d.store == c.store && d.Live(ref) == (c.Live(ref) && !gone) && (gone ==> c.Live(ref))
      && (gone ==> d.totalEvents == c.totalEvents - c.store[ref].events && d.totalBytes == c.totalBytes - c.store[ref].bytes)
  {
  }

  lemma UnregisterKeepsLedger(s: Config, step: Step, ref: nat)
    requires Sound(s) && Balanced(s) && step.DoUnregister?
    requires CoreExtended(s, Apply(s, step)) && ref < |Apply(s, step).core.store|
    ensures Ledger(Apply(s, step), ref)
  {
    hide Load, Unregister;
    UnregisterTakesOne(s.core, step.key, ref);
    assert Ledger(s, ref);
  }

  /** Taking an item moves it from the channel into the consumer's hands. */
  lemma TakeKeepsLedger(s: Config, c: nat, ref: nat)
    requires Sound(s) && Waiting(PcOf(s, c)) && Queue(s, PcOf(s, c).ref) != []
    requires ref < |s.core.store| && Ledger(s, ref)
    ensures Ledger(Take(s, c), ref)
  {
    if ref == PcOf(s, c).ref {
      var q := Queue(s, ref);
      assert s.history[ref].received + [q[0]] + q[1..] == s.history[ref].received + q;
    }
  }

  /** Releasing an item moves it from the consumer's hands to the released ones. */
  lemma GiveBackKeepsLedger(s: Config, c: nat, ref: nat)
    requires Sound(s) && PcOf(s, c).Holding?
    requires ref < |s.core.store| && Ledger(s, ref)
    ensures ref < |GiveBackStep(s, c).core.store| == |GiveBackStep(s, c).history|
    ensures Ledger(GiveBackStep(s, c), ref)
  {
    var pc := PcOf(s, c);
    LoadAppend(Bytes, s.history[pc.ref].returned, [pc.item]);
    assert Load(Bytes, [pc.item]) == pc.item.Size();
  }

  /** The marker is appended behind everything accepted; it is charged to no counter. */
  lemma NotifyKeepsLedger(s: Config, r: nat, ref: nat)
    requires Sound(s) && s.failer.Sending? && r in s.failer.left
    requires ref < |s.core.store| && Ledger(s, ref)
    ensures ref < |NotifyStep(s, r).core.store| == |NotifyStep(s, r).history|
    ensures Ledger(NotifyStep(s, r), ref)
  {
    var m := Marker(s.failer.error);
    var h := s.history[ref];
    assert h.received + (Queue(s, ref) + [m]) == h.received + Queue(s, ref) + [m];
  }

  lemma StepKeepsLedger(s: Config, step: Step, ref: nat)
    requires Sound(s) && Balanced(s) && Enabled(s, step)
    requires CoreExtended(s, Apply(s, step)) && ref < |Apply(s, step).core.store|
    ensures Ledger(Apply(s, step), ref)
  {
    if ref < |s.core.store| {
      assert Ledger(s, ref);
    }
    match step
    case DoRegister(_) => RegisterKeepsLedger(s, step, ref);
    case DoUnregister(_) => UnregisterKeepsLedger(s, step, ref);
    case DoRouteScoped(_, _, _) => RouteScopedKeepsLedger(s, step, ref);
    case DoRouteGlobal(_) => RouteGlobalKeepsLedger(s, step, ref);
    case Wake(c) => TakeKeepsLedger(s, c, ref);
    case GiveBack(c) => GiveBackKeepsLedger(s, c, ref);
    case Notify(r) => NotifyKeepsLedger(s, r, ref);
    case Try(c) =>
      if Queue(s, PcOf(s, c).ref) != [] {
        TakeKeepsLedger(s, c, ref);
      }
    case _ =>
  }

  lemma StepKeepsBalance(s: Config, step: Step)
    requires Sound(s) && Balanced(s) && AllInHand(s) && Enabled(s, step)
    ensures Sound(Apply(s, step)) && Balanced(Apply(s, step)) && AllInHand(Apply(s, step))
  {
    var t := Apply(s, step);
    StepKeepsSound(s, step);
    CoreStepExtends(s, step);
    forall ref | 0 <= ref < |t.core.store|
      ensures Ledger(t, ref)
    {
      StepKeepsLedger(s, step, ref);
    }
    forall g, ref | 0 <= ref < |t.history|
      ensures InHand(g, t, ref)
    {
      StepKeepsInHand(g, s, step, ref);
    }
  }
}
