/** What FailAll's markers do to the event counters, which never counted them. */
module RouterCounters {
  import opened Wrappers
  import opened FiniteSums
  import opened RouterState
  import opened RouterMachine
  import opened RouterLedger
  import opened RouterTheorems
  import opened RouterWakeup

  /** The real items of a route state: queued or pending ones, and those in the hands of consumers. */
  ghost function RealItems(s: Config, ref: nat): int
    requires ref < |s.core.store|
  {
    Load(Notes, Queue(s, ref)) + Held(Notes, s.consumers, ref)
  }

  /** The markers of a route state that a consumer has been through the release with. */
  ghost function ReleasedMarkers(s: Config, ref: nat): int
    requires ref < |s.history|
  {
    Load(Markers, s.history[ref].returned)
  }

  ghost predicate OnlyNotes(s: Config) {
    forall ref :: 0 <= ref < |s.history| ==> Load(Markers, s.history[ref].accepted) == 0
  }

  /** Producers only ever hand over notifications. */
  lemma StepKeepsOnlyNotes(s: Config, step: Step)
    requires Sound(s) && OnlyNotes(s) && Enabled(s, step) && CoreExtended(s, Apply(s, step))
    ensures OnlyNotes(Apply(s, step))
  {
    var t := Apply(s, step);
    forall ref | 0 <= ref < |t.history|
      ensures Load(Markers, t.history[ref].accepted) == 0
    {
      var before := if ref < |s.history| then s.history[ref].accepted else [];
      AcceptsOne(s, step, ref);
      if t.history[ref].accepted != before {
        var item := t.history[ref].accepted[|before|];
        assert [item][1..] == [];
        LoadAppend(Markers, before, [item]);
      }
    }
  }

  lemma ScopedAcceptsOne(s: Config, key: Key, item: Item, onlyIfRegistered: bool, ref: nat)
    requires Sound(s) && item.Note? && CoreExtended(s, RouteScopedStep(s, key, item, onlyIfRegistered))
    requires ref < |RouteScopedStep(s, key, item, onlyIfRegistered).history|
    ensures var before := if ref < |s.history| then s.history[ref].accepted else [];
      var after := RouteScopedStep(s, key, item, onlyIfRegistered).history[ref].accepted;
      after == before || after == before + [item]
  {
  }

  lemma AcceptsOne(s: Config, step: Step, ref: nat)
    requires Sound(s) && Enabled(s, step) && CoreExtended(s, Apply(s, step)) && ref < |Apply(s, step).history|
    ensures var before := if ref < |s.history| then s.history[ref].accepted else [];
      var after := Apply(s, step).history[ref].accepted;
      after == before || (|after| == |before| + 1 && after == before + [after[|before|]] && after[|before|].Note?)
  {
    hide RouteScopedStep;
    if step.DoRouteScoped? {
      ScopedAcceptsOne(s, step.key, step.item, step.onlyIfRegistered, ref);
    }
  }

  lemma {:induction false} RunHasOnlyNotes(limits: Limits, configs: seq<Config>, steps: seq<Step>, n: nat)
    requires Run(limits, configs, steps) && n < |configs|
    ensures OnlyNotes(configs[n])
  {
    if n > 0 {
      RunHasOnlyNotes(limits, configs, steps, n - 1);
      RunIsSound(limits, configs, steps, n - 1);
      CoreStepExtends(configs[n - 1], steps[n - 1]);
      StepKeepsOnlyNotes(configs[n - 1], steps[n - 1]);
      assert configs[n] == configs[n - 1 + 1];
    }
  }

  /**
    In every reachable configuration the event counter of a live route state is the number of its real
    items less the markers released, so it falls below the real items if and only if a consumer has
    released a marker.
   */
  lemma CounterFallsShortIff(limits: Limits, configs: seq<Config>, steps: seq<Step>, n: nat, ref: nat)
    requires Run(limits, configs, steps) && n < |configs| && ref < |configs[n].core.store| && configs[n].core.Live(ref)
    ensures Sound(configs[n])
    ensures var s := configs[n];
      && s.core.store[ref].events == RealItems(s, ref) - ReleasedMarkers(s, ref)
      && (s.core.store[ref].events < RealItems(s, ref) <==> exists item :: item in s.history[ref].returned && item.Marker?)
  {
    RunIsGood(limits, configs, steps, n);
    RunHasOnlyNotes(limits, configs, steps, n);
    var s := configs[n];
    var h := s.history[ref];
    assert Ledger(s, ref) && InHand(Notes, s, ref);
    LoadNotes(h.accepted);
    LoadNotes(h.returned);
    LoadAppend(Notes, h.received, Queue(s, ref));
    LoadAppend(Notes, h.accepted, Mark(s, ref));
    SomeMarkerIff(h.returned);
  }

  lemma {:induction false} SomeMarkerIff(items: seq<Item>)
    ensures 0 < Load(Markers, items) <==> exists item :: item in items && item.Marker?
  {
    if items != [] {
      SomeMarkerIff(items[1..]);
      assert items == [items[0]] + items[1..];
    }
  }

  // ---- such a configuration is reachable ----

  const NOTE := Note("x", 0)

  /** The turn's route with one notification in its channel. */
  lemma OneQueued(limits: Limits) returns (s: Config, steps: seq<Step>)
    ensures Leads(Init(limits), steps, s) && Sound(s) && s.consumers == map[] && s.failer.NotStarted? && s.core.failed.None?
    ensures s.core.routes.Keys == {TURN} && s.core.routes[TURN] == 1 && |s.core.store| == 2
    ensures s.core.store[1] == Route(Some(TURN), Some([NOTE]), [], 1, 0) && s.history[1].returned == []
  {
    hide Leads, Register, RouterState.RouteScoped;
    var start := Init(limits);
    LeadsNowhere(start);
    LeadsOn(start, [], start, DoRegister(TURN));
    RegisterFirst(limits, TURN);
    s := Apply(start, DoRegister(TURN));
    LeadsOn(start, [] + [DoRegister(TURN)], s, DoRouteScoped(TURN, NOTE, false));
    RouteFirst(s.core, TURN, false);
    s, steps := Apply(s, DoRouteScoped(TURN, NOTE, false)), [] + [DoRegister(TURN)] + [DoRouteScoped(TURN, NOTE, false)];
  }

  ghost predicate OneRoute(c: Core, key: Key, r: Route) {
    && c.failed.None? && c.closed == {} && c.routes.Keys == {key} && c.routes[key] == 1
    && |c.store| == 2 && c.store[1] == r && c.totalEvents == r.events && c.totalBytes == r.bytes
  }

  lemma RegisterFirst(limits: Limits, key: Key)
    ensures OneRoute(Register(NewCore(limits), key).0, key, Route(Some(key), Some([]), [], 0, 0))
  {
  }

  lemma RouteFirst(c: Core, key: Key, onlyIfRegistered: bool)
    requires c.WellFormed() && OneRoute(c, key, Route(Some(key), Some([]), [], 0, 0))
    ensures RouteScoped(c, key, NOTE, onlyIfRegistered).1.None?
    ensures OneRoute(RouteScoped(c, key, NOTE, onlyIfRegistered).0, key, Route(Some(key), Some([NOTE]), [], 1, 0))
  {
    assert [] + [NOTE] == [NOTE];
  }

  /** A consumer calls and takes the one item in the channel. */
  lemma CallTakes(start: Config, before: seq<Step>, s: Config, c: nat, item: Item) returns (t: Config, steps: seq<Step>)
    requires Leads(start, before, s) && Sound(s) && PcOf(s, c).Idle?
    requires TURN in s.core.routes && s.core.routes[TURN] == 1 && |s.core.store| == 2 && s.core.store[1].queue == Some([item])
    ensures Leads(start, steps, t) && Sound(t) && t.consumers == s.consumers[c := Holding(Some(TURN), 1, item)]
    ensures t.core.routes == s.core.routes && t.failer == s.failer && |t.core.store| == 2 && t.core.failed == s.core.failed
    ensures t.core.store[1] == s.core.store[1].(queue := Some([])) && t.history[1].returned == s.history[1].returned
  {
    hide Leads;
    LeadsOn(start, before, s, Call(c, TURN));
    var s1 := Apply(s, Call(c, TURN));
    assert s1 == SetPc(s, c, Trying(Some(TURN), 1, s.core.failed));
    assert [item][1..] == [];
    LeadsOn(start, before + [Call(c, TURN)], s1, Try(c));
    t, steps := Apply(s1, Try(c)), before + [Call(c, TURN)] + [Try(c)];
    assert t.consumers == s.consumers[c := Holding(Some(TURN), 1, item)];
  }

  /** One consumer holds a notification while another one releases the marker: the counter says that nothing is left. */
  lemma CounterFallsShort(limits: Limits, error: Error) returns (s: Config, steps: seq<Step>)
    ensures Leads(Init(limits), steps, s) && Sound(s) && 1 < |s.core.store| && s.core.Live(1)
    ensures PcOf(s, 0) == Holding(Some(TURN), 1, NOTE)
    ensures s.core.store[1].events == 0 && RealItems(s, 1) == 1
  {
    hide Leads;
    var start := Init(limits);
    s, steps := OneQueued(limits);
    s, steps := CallTakes(start, steps, s, 0, NOTE);
    s, steps := MarkerArrives(start, steps, s, error);
    s, steps := CallTakes(start, steps, s, 1, Marker(error));
    LeadsOn(start, steps, s, GiveBack(1));
    ReleaseCounts(s, 1, Marker(error));
    s, steps := Apply(s, GiveBack(1)), steps + [GiveBack(1)];
    OneMarker(error);
    LeadsIsRun(limits, steps, s);
    var configs :| Run(limits, configs, steps) && configs[|steps|] == s;
    CounterFallsShortIff(limits, configs, steps, |steps|, 1);
  }

  lemma OneMarker(error: Error)
    ensures Load(Markers, [Marker(error)]) == 1
  {
    assert [Marker(error)][1..] == [];
  }

  lemma ReleaseCounts(s: Config, c: nat, item: Item)
    requires Sound(s) && PcOf(s, c) == Holding(Some(TURN), 1, item) && 1 < |s.core.store| && s.history[1].returned == []
    requires TURN in s.core.routes && s.core.routes[TURN] == 1
    ensures var t := Apply(s, GiveBack(c));
      && |t.core.store| == |s.core.store| == |t.history| && t.core.store[1].owner == s.core.store[1].owner
      && t.core.store[1].events == s.core.store[1].events - 1
      && t.core.routes == s.core.routes && t.history[1].returned == [item]
      && forall d :: d != c ==> PcOf(t, d) == PcOf(s, d)
  {
  }

  lemma MarkerArrives(start: Config, before: seq<Step>, s: Config, error: Error) returns (t: Config, steps: seq<Step>)
    requires Leads(start, before, s) && Sound(s) && s.core.failed.None?
    requires TURN in s.core.routes && s.core.routes[TURN] == 1 && |s.core.store| == 2 && s.core.store[1].queue == Some([])
    ensures Leads(start, steps, t) && Sound(t) && t.consumers == s.consumers && t.core.routes == s.core.routes
    ensures |t.core.store| == 2 && t.core.store[1] == s.core.store[1].(queue := Some([Marker(error)]))
    ensures t.history[1].returned == s.history[1].returned
  {
    hide Leads;
    assert s.core.routes[TURN] in Channels(s.core);
    LeadsOn(start, before, s, Fail(error));
    t := Apply(s, Fail(error));
    NotifyMarks(t, 1);
    LeadsOn(start, before + [Fail(error)], t, Notify(1));
    t, steps := Apply(t, Notify(1)), before + [Fail(error)] + [Notify(1)];
  }
}
