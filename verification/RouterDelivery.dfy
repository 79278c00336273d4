/** Where one notification goes: the deliveries one after the other, and what they come to. */
module RouterDelivery {
  import opened Wrappers
  import opened RouterState
  import opened RouterMeaning
  import Machine = RouterMachine

  /** Delivers to the targets in order and stops at the first error, as RouteNotification does. */
  ghost function Deliver(c: Core, item: Item, targets: seq<Target>): (r: (Core, Option<Error>))
    requires c.WellFormed()
    ensures r.0.WellFormed()
    decreases |targets|
  {
    if targets == [] then
      (c, None)
    else
      var (d, err) := DeliverOne(c, item, targets[0]);
      assert d.WellFormed() by { DeliverOneKeeps(c, item, targets[0]); }
      if err.Some? then (d, err) else Deliver(d, item, targets[1..])
  }

  lemma {:induction false} DeliverAppend(c: Core, item: Item, a: seq<Target>, b: seq<Target>)
    requires c.WellFormed()
    ensures var (d, err) := Deliver(c, item, a);
      Deliver(c, item, a + b) == if err.Some? then (d, err) else Deliver(d, item, b)
    decreases |a|
  {
    if a == [] {
      assert a + b == b;
    } else {
      assert (a + b)[1..] == a[1..] + b;
      DeliverAppend(DeliverOne(c, item, a[0]).0, item, a[1..], b) by { DeliverOneKeeps(c, item, a[0]); }
    }
  }

  lemma DeliverSingle(c: Core, item: Item, t: Target)
    requires c.WellFormed()
    ensures Deliver(c, item, [t]) == DeliverOne(c, item, t)
  {
    DeliverOneKeeps(c, item, t);
    assert Deliver(DeliverOne(c, item, t).0, item, []) == (DeliverOne(c, item, t).0, None);
  }

  lemma DeliverOneKeeps(c: Core, item: Item, t: Target)
    requires c.WellFormed()
    ensures DeliverOne(c, item, t).0.WellFormed()
  {
    match t
    case Scoped(key, only) => Machine.RouteScopedExtends(c, key, item, only);
    case Global => Machine.RouteGlobalExtends(c, item);
  }

  // ---- where a notification ends up ----

  ghost predicate IsCompaction(n: Notification) {
    n.method_ == "thread/compacted" && n.threadId != ""
  }

  ghost predicate IsLogin(n: Notification) {
    n.method_ == "account/login/completed" && n.loginId != ""
  }

  ghost predicate ConcernsGoals(n: Notification) {
    || n.method_ == "thread/goal/updated" || n.method_ == "thread/goal/cleared"
    || n.method_ == "turn/started" || n.method_ == "turn/completed" || n.method_ == "turn/failed"
  }

  /** The routes that get the notification: none that is tombstoned. */
  ghost predicate Gets(c: Core, n: Notification, key: Key) {
    && key !in c.closed
    && if IsCompaction(n) then key == Key(Compaction, n.threadId)
       else if IsLogin(n) then key == Key(Login, n.loginId)
       else || (n.turnId != "" && key == Key(Turn, n.turnId))
            || (n.threadId != "" && ConcernsGoals(n) && key == Key(Goal, n.threadId) && key in c.routes)
  }

  ghost predicate GlobalGets(n: Notification) {
    !IsCompaction(n) && !IsLogin(n) && n.turnId == ""
  }

  /** A route that takes what is sent to it: its id is not tombstoned, and it is there if it has to be. */
  ghost predicate Takes(c: Core, key: Key, onlyIfRegistered: bool) {
    key !in c.closed && (key in c.routes || !onlyIfRegistered)
  }

  ghost predicate OneRouteTakes(c: Core, n: Notification) {
    (IsCompaction(n) || IsLogin(n)) && Takes(c, OneRoute(n), false)
  }

  /** The route of a compaction or a login. */
  ghost function OneRoute(n: Notification): Key {
    if IsCompaction(n) then Key(Compaction, n.threadId) else Key(Login, n.loginId)
  }

  ghost predicate TurnTakes(c: Core, n: Notification) {
    !IsCompaction(n) && !IsLogin(n) && n.turnId != "" && Takes(c, Key(Turn, n.turnId), false)
  }

  ghost predicate GoalTakes(c: Core, n: Notification) {
    !IsCompaction(n) && !IsLogin(n) && n.threadId != "" && ConcernsGoals(n) && Takes(c, Key(Goal, n.threadId), true)
  }

  /** In how many places the notification ends up. */
  ghost function Copies(c: Core, n: Notification): nat {
    (if OneRouteTakes(c, n) || TurnTakes(c, n) then 1 else 0) + (if GoalTakes(c, n) then 1 else 0) + (if GlobalGets(n) then 1 else 0)
  }

  /** One more notification of this size fits the route. */
  ghost predicate RouteFits(c: Core, key: Key, size: nat) {
    At(c, key).events < c.limits.routeEvents && At(c, key).bytes + size <= c.limits.routeBytes
  }

  ghost predicate GlobalFits(c: Core, size: nat)
    requires 1 <= |c.store|
  {
    c.store[0].events < c.limits.globalEvents && c.store[0].bytes + size <= c.limits.globalBytes
  }

  ghost predicate TotalsFit(c: Core, copies: nat, size: nat) {
    c.totalEvents + copies <= c.limits.totalEvents && c.totalBytes + copies * size <= c.limits.totalBytes
  }

  /** Room for the notification in every route that gets it, in the global queue if that gets it, and in the totals. */
  ghost predicate RoomFor(c: Core, n: Notification)
    requires 1 <= |c.store|
  {
    && (forall key :: Gets(c, n, key) ==> RouteFits(c, key, n.bytes))
    && (GlobalGets(n) ==> GlobalFits(c, n.bytes))
    && (Copies(c, n) > 0 ==> TotalsFit(c, Copies(c, n), n.bytes))
  }

  /** The route is as before, with the item behind its contents if it gets it. */
  ghost predicate RouteAfter(c: Core, d: Core, key: Key, item: Item, gets: bool) {
    var r, s := At(c, key), At(d, key);
    if gets then
      && key in d.routes && s.queue.Some? == r.queue.Some?
      && s.Contents() == r.Contents() + [item] && s.events == r.events + 1 && s.bytes == r.bytes + item.Size()
    else
      (key in d.routes <==> key in c.routes) && s == r
  }

  /** Each route and the global queue, before and after the notification. */
  ghost predicate EndsUp(c: Core, d: Core, n: Notification) {
    var item := Note(n.raw, n.bytes);
    && d.closed == c.closed && d.limits == c.limits && d.failed == c.failed
    && (forall key :: RouteAfter(c, d, key, item, Gets(c, n, key)))
    && 1 <= |c.store| && 1 <= |d.store|
    && d.store[0].Contents() == c.store[0].Contents() + (if GlobalGets(n) then [item] else [])
    && d.store[0].events == c.store[0].events + (if GlobalGets(n) then 1 else 0)
    && d.store[0].bytes == c.store[0].bytes + (if GlobalGets(n) then n.bytes else 0)
  }

  /** At most the route behind `key` gets the item. */
  ghost predicate OnlyGets(c: Core, d: Core, k: Key, item: Item, key: Key, takes: bool) {
    RouteAfter(c, d, k, item, takes && k == key)
  }

  /** The route takes nothing, or has room for one more. */
  ghost predicate ScopedRoom(c: Core, key: Key, size: nat, onlyIfRegistered: bool) {
    Takes(c, key, onlyIfRegistered) ==> RouteFits(c, key, size) && TotalsFit(c, 1, size)
  }

  ghost function Counted(takes: bool): nat {
    if takes then 1 else 0
  }

  lemma ScopedFitsIff(c: Core, key: Key, item: Item, onlyIfRegistered: bool)
    requires c.WellFormed() && c.failed.None?
    ensures var (d, err) := RouteScoped(c, key, item, onlyIfRegistered);
      && (err.None? <==> ScopedRoom(c, key, item.Size(), onlyIfRegistered))
      && (!Takes(c, key, onlyIfRegistered) ==> d == c)
  {
    hide At, RouteScoped;
    assert 1 * item.Size() == item.Size();
    ScopedAcceptsIff(c, key, item, onlyIfRegistered);
  }

  lemma ScopedTakes(c: Core, key: Key, item: Item, onlyIfRegistered: bool)
    requires c.WellFormed() && c.failed.None? && Takes(c, key, onlyIfRegistered)
    requires RouteScoped(c, key, item, onlyIfRegistered).1.None?
    ensures var d := RouteScoped(c, key, item, onlyIfRegistered).0;
      && OthersStay(c, d, key) && d.WellFormed() && d.totalEvents == c.totalEvents + 1 && d.totalBytes == c.totalBytes + item.Size()
      && (forall k :: OnlyGets(c, d, k, item, key, true))
  {
    hide At, RouteScoped;
    ScopedEffect(c, key, item, onlyIfRegistered);
  }

  /** What one delivery to a scoped target comes to, and when it succeeds. */
  lemma ScopedEndsUp(c: Core, key: Key, item: Item, onlyIfRegistered: bool)
    requires c.WellFormed() && c.failed.None?
    ensures var (d, err) := RouteScoped(c, key, item, onlyIfRegistered); var takes := Takes(c, key, onlyIfRegistered);
      && d.WellFormed() && (err.None? <==> ScopedRoom(c, key, item.Size(), onlyIfRegistered))
      && (err.None? ==>
            && d.failed.None? && d.closed == c.closed && d.limits == c.limits && d.store[0] == c.store[0]
            && (forall k :: OnlyGets(c, d, k, item, key, Takes(c, key, onlyIfRegistered)))
            && d.totalEvents == c.totalEvents + Counted(takes) && d.totalBytes == c.totalBytes + Counted(takes) * item.Size())
  {
    hide At, RouteScoped, ScopedRoom, Takes, RouteAfter;
    Machine.RouteScopedExtends(c, key, item, onlyIfRegistered);
    ScopedFitsIff(c, key, item, onlyIfRegistered);
    if !Takes(c, key, onlyIfRegistered) {
      NobodyGets(c, item, key);
    } else if RouteScoped(c, key, item, onlyIfRegistered).1.None? {
      ScopedTakes(c, key, item, onlyIfRegistered);
    }
  }

  lemma NobodyGets(c: Core, item: Item, key: Key)
    ensures forall k :: OnlyGets(c, c, k, item, key, false)
  {
  }

  lemma GlobalEndsUp(c: Core, item: Item)
    requires c.WellFormed() && c.failed.None?
    ensures var (d, err) := RouteGlobal(c, item);
      && d.WellFormed() && (err.None? <==> GlobalFits(c, item.Size()) && TotalsFit(c, 1, item.Size()))
      && (err.None? ==>
            && d.failed.None? && d.closed == c.closed && d.limits == c.limits
            && (forall k :: RouteAfter(c, d, k, item, false)) && ArrivedGlobally(c, d, item))
  {
    hide At;
    GlobalAcceptsIff(c, item);
    GlobalEffect(c, item);
  }

  lemma DeliverOptional(c: Core, item: Item, done: seq<Target>, more: seq<Target>)
    requires c.WellFormed() && |more| <= 1
    ensures var (d, err) := Deliver(c, item, done);
      err.None? ==> Deliver(c, item, done + more) == if more == [] then (d, None) else DeliverOne(d, item, more[0])
  {
    DeliverAppend(c, item, done, more);
    if |more| == 1 {
      assert more == [more[0]];
      DeliverSingle(Deliver(c, item, done).0, item, more[0]);
    }
  }

  /** The state after deliveries that succeeded: nothing but routes and totals has changed. */
  ghost predicate Going(c: Core, d: Core, copies: nat, size: nat) {
    && d.WellFormed() && c.WellFormed()
    && d.failed.None? && d.closed == c.closed && d.limits == c.limits && d.store[0] == c.store[0]
    && d.totalEvents == c.totalEvents + copies && d.totalBytes == c.totalBytes + copies * size
  }

  /** The turn's route, if there is a turn id. */
  lemma TurnEndsUp(c: Core, n: Notification) returns (d: Core, err: Option<Error>)
    requires c.WellFormed() && c.failed.None? && !IsCompaction(n) && !IsLogin(n)
    ensures var item := Note(n.raw, n.bytes); var key := Key(Turn, n.turnId);
      && Deliver(c, item, TurnPart(n)) == (d, err)
      && (err.None? <==> (TurnTakes(c, n) ==> RouteFits(c, key, n.bytes) && TotalsFit(c, 1, n.bytes)))
      && (err.None? ==>
            && Going(c, d, Counted(TurnTakes(c, n)), n.bytes)
            && (forall k :: OnlyGets(c, d, k, item, key, TurnTakes(c, n))))
  {
    hide At, RouteScoped, DeliverOne;
    var item, key := Note(n.raw, n.bytes), Key(Turn, n.turnId);
    if n.turnId == "" {
      d, err := c, None;
      assert TurnPart(n) == [] && Deliver(c, item, []) == (c, None);
      forall k
        ensures OnlyGets(c, d, k, item, key, TurnTakes(c, n))
      {
      }
    } else {
      ScopedEndsUp(c, key, item, false);
      DeliverSingle(c, item, Scoped(key, false));
      DeliverOneMeans(c, item, key, false);
      d, err := RouteScoped(c, key, item, false).0, RouteScoped(c, key, item, false).1;
    }
  }

  function TurnPart(n: Notification): seq<Target> {
    if n.turnId != "" then [Scoped(Key(Turn, n.turnId), false)] else []
  }

  ghost function GoalPart(n: Notification): seq<Target> {
    if n.threadId != "" && ConcernsGoals(n) then [Scoped(Key(Goal, n.threadId), true)] else []
  }

  function GlobalPart(n: Notification): seq<Target> {
    if n.turnId == "" then [Global] else []
  }

  lemma TargetsMean(n: Notification)
    ensures IsCompaction(n) ==> Targets(n) == [Scoped(Key(Compaction, n.threadId), false)]
    ensures !IsCompaction(n) && IsLogin(n) ==> Targets(n) == [Scoped(Key(Login, n.loginId), false)]
    ensures !IsCompaction(n) && !IsLogin(n) ==> Targets(n) == TurnPart(n) + GoalPart(n) + GlobalPart(n)
  {
  }

  lemma DeliverOneMeans(c: Core, item: Item, key: Key, onlyIfRegistered: bool)
    requires c.WellFormed()
    ensures DeliverOne(c, item, Scoped(key, onlyIfRegistered)) == RouteScoped(c, key, item, onlyIfRegistered)
    ensures DeliverOne(c, item, Global) == RouteGlobal(c, item)
  {
  }

  /** The goal's route after `one`: what it has room for is seen in `c` already. */
  lemma GoalRoom(c: Core, one: Core, n: Notification)
    requires !IsCompaction(n) && !IsLogin(n) && Going(c, one, Counted(TurnTakes(c, n)), n.bytes)
    requires forall k :: OnlyGets(c, one, k, Note(n.raw, n.bytes), Key(Turn, n.turnId), TurnTakes(c, n))
    ensures var goal := Key(Goal, n.threadId);
      && Takes(one, goal, true) == Takes(c, goal, true)
      && (ScopedRoom(one, goal, n.bytes, true) <==>
            (Takes(c, goal, true) ==> RouteFits(c, goal, n.bytes) && TotalsFit(c, Counted(TurnTakes(c, n)) + 1, n.bytes)))
  {
    hide At;
    assert OnlyGets(c, one, Key(Goal, n.threadId), Note(n.raw, n.bytes), Key(Turn, n.turnId), TurnTakes(c, n));
    if TurnTakes(c, n) {
      assert 1 * n.bytes + n.bytes == 2 * n.bytes;
    }
  }

  /** Then the goal's route, if there is one and the method concerns goals. */
  lemma GoalEndsUp(c: Core, n: Notification) returns (d: Core, err: Option<Error>)
    requires c.WellFormed() && c.failed.None? && !IsCompaction(n) && !IsLogin(n)
    ensures var item := Note(n.raw, n.bytes); var turn, goal := Key(Turn, n.turnId), Key(Goal, n.threadId);
      && Deliver(c, item, TurnPart(n) + GoalPart(n)) == (d, err)
      && (err.None? <==>
            && (TurnTakes(c, n) ==> RouteFits(c, turn, n.bytes) && TotalsFit(c, 1, n.bytes))
            && (GoalTakes(c, n) ==> RouteFits(c, goal, n.bytes) && TotalsFit(c, Counted(TurnTakes(c, n)) + 1, n.bytes)))
      && (err.None? ==>
            && Going(c, d, Counted(TurnTakes(c, n)) + Counted(GoalTakes(c, n)), n.bytes)
            && (forall k :: RouteAfter(c, d, k, item, Gets(c, n, k))))
  {
    hide At, RouteScoped, DeliverOne, Deliver, RouteFits, TotalsFit, RouteAfter;
    var item, turn, goal := Note(n.raw, n.bytes), Key(Turn, n.turnId), Key(Goal, n.threadId);
    d, err := TurnEndsUp(c, n);
    DeliverAppend(c, item, TurnPart(n), GoalPart(n));
    if err.None? {
      DeliverOptional(c, item, TurnPart(n), GoalPart(n));
      var one := d;
      if GoalPart(n) == [] {
        forall k
          ensures RouteAfter(c, d, k, item, Gets(c, n, k))
        {
          TurnOnly(c, d, n, k);
        }
      } else {
        GoalRoom(c, one, n);
        ScopedEndsUp(one, goal, item, true);
        DeliverOneMeans(one, item, goal, true);
        d, err := RouteScoped(one, goal, item, true).0, RouteScoped(one, goal, item, true).1;
        if err.None? {
          forall k
            ensures RouteAfter(c, d, k, item, Gets(c, n, k))
          {
            TurnThenGoal(c, one, d, n, k);
          }
        }
      }
    }
  }

  lemma TurnOnly(c: Core, d: Core, n: Notification, k: Key)
    requires !IsCompaction(n) && !IsLogin(n) && GoalPart(n) == []
    requires forall j :: OnlyGets(c, d, j, Note(n.raw, n.bytes), Key(Turn, n.turnId), TurnTakes(c, n))
    ensures RouteAfter(c, d, k, Note(n.raw, n.bytes), Gets(c, n, k))
  {
    hide At;
    assert OnlyGets(c, d, k, Note(n.raw, n.bytes), Key(Turn, n.turnId), TurnTakes(c, n));
  }

  lemma TurnThenGoal(c: Core, one: Core, d: Core, n: Notification, k: Key)
    requires !IsCompaction(n) && !IsLogin(n) && n.threadId != "" && ConcernsGoals(n) && one.closed == c.closed
    requires forall j :: OnlyGets(c, one, j, Note(n.raw, n.bytes), Key(Turn, n.turnId), TurnTakes(c, n))
    requires forall j :: OnlyGets(one, d, j, Note(n.raw, n.bytes), Key(Goal, n.threadId), Takes(one, Key(Goal, n.threadId), true))
    ensures RouteAfter(c, d, k, Note(n.raw, n.bytes), Gets(c, n, k))
  {
    hide At, ConcernsGoals;
    assert OnlyGets(c, one, k, Note(n.raw, n.bytes), Key(Turn, n.turnId), TurnTakes(c, n));
    assert OnlyGets(one, d, k, Note(n.raw, n.bytes), Key(Goal, n.threadId), Takes(one, Key(Goal, n.threadId), true));
  }

  /** The parts of the room, one target after the other. */
  ghost predicate PartsFit(c: Core, n: Notification)
    requires 1 <= |c.store|
  {
    var turn, goal := Key(Turn, n.turnId), Key(Goal, n.threadId);
    && (OneRouteTakes(c, n) ==> RouteFits(c, OneRoute(n), n.bytes) && TotalsFit(c, 1, n.bytes))
    && (TurnTakes(c, n) ==> RouteFits(c, turn, n.bytes) && TotalsFit(c, 1, n.bytes))
    && (GoalTakes(c, n) ==> RouteFits(c, goal, n.bytes) && TotalsFit(c, Counted(TurnTakes(c, n)) + 1, n.bytes))
    && (GlobalGets(n) ==> GlobalFits(c, n.bytes) && TotalsFit(c, Counted(GoalTakes(c, n)) + 1, n.bytes))
  }

  lemma RoomInParts(c: Core, n: Notification)
    requires 1 <= |c.store|
    ensures RoomFor(c, n) <==> PartsFit(c, n)
  {
    hide At, RouteFits, TotalsFit, GlobalFits, IsCompaction, IsLogin, ConcernsGoals;
    FewerCopiesFit(c, 1, 2, n.bytes);
    if RoomFor(c, n) {
      assert OneRouteTakes(c, n) ==> Gets(c, n, OneRoute(n));
      assert TurnTakes(c, n) ==> Gets(c, n, Key(Turn, n.turnId));
      assert GoalTakes(c, n) ==> Gets(c, n, Key(Goal, n.threadId));
    }
  }

  lemma FewerCopiesFit(c: Core, fewer: nat, copies: nat, size: nat)
    requires fewer <= copies
    ensures TotalsFit(c, copies, size) ==> TotalsFit(c, fewer, size)
  {
    assert fewer * size <= copies * size;
  }

  /**
    A notification is delivered without an error if and only if there is room for it wherever it goes,
    and then it ends up there: a compaction or a login on its one route; any other on its turn's route, on
    its thread's goal route if there is one and the method concerns goals, and in the global queue if it
    has no turn. Tombstoned routes are skipped, and nothing else changes. After a failure nothing happens.
   */
  lemma NotificationEndsUp(c: Core, n: Notification)
    requires c.WellFormed()
    ensures var (d, err) := Deliver(c, Note(n.raw, n.bytes), Targets(n));
      && (c.failed.None? ==> (err.None? <==> RoomFor(c, n)) && (err.None? ==> EndsUp(c, d, n)))
      && (c.failed.Some? ==> d == c && err == c.failed)
  {
    hide At, RouteScoped, RouteGlobal, DeliverOne, Deliver, Targets, RoomFor, PartsFit, Going, EndsUp;
    TargetsMean(n);
    if c.failed.Some? {
      FailedDeliversNothing(c, n);
    } else if IsCompaction(n) || IsLogin(n) {
      OneRouteEndsUp(c, n);
    } else {
      OthersEndUp(c, n);
    }
  }

  lemma OneRouteEndsUp(c: Core, n: Notification)
    requires c.WellFormed() && c.failed.None? && (IsCompaction(n) || IsLogin(n))
    ensures var (d, err) := Deliver(c, Note(n.raw, n.bytes), [Scoped(OneRoute(n), false)]);
      (err.None? <==> RoomFor(c, n)) && (err.None? ==> EndsUp(c, d, n))
  {
    hide At, RouteScoped, DeliverOne, Deliver, RoomFor, EndsUp, RouteFits, TotalsFit;
    var item, key := Note(n.raw, n.bytes), OneRoute(n);
    RoomInParts(c, n);
    ScopedEndsUp(c, key, item, false);
    DeliverSingle(c, item, Scoped(key, false));
    DeliverOneMeans(c, item, key, false);
    if RouteScoped(c, key, item, false).1.None? {
      OneEndsUp(c, RouteScoped(c, key, item, false).0, n, key);
    }
  }

  lemma OthersEndUp(c: Core, n: Notification)
    requires c.WellFormed() && c.failed.None? && !IsCompaction(n) && !IsLogin(n)
    ensures var (d, err) := Deliver(c, Note(n.raw, n.bytes), TurnPart(n) + GoalPart(n) + GlobalPart(n));
      (err.None? <==> RoomFor(c, n)) && (err.None? ==> EndsUp(c, d, n))
  {
    hide At, RouteGlobal, DeliverOne, Deliver, RoomFor, EndsUp, RouteFits, TotalsFit, GlobalFits, RouteAfter, TurnPart, GoalPart, Gets;
    var item := Note(n.raw, n.bytes);
    RoomInParts(c, n);
    var two, err := GoalEndsUp(c, n);
    DeliverAppend(c, item, TurnPart(n) + GoalPart(n), GlobalPart(n));
    if err.None? {
      DeliverOptional(c, item, TurnPart(n) + GoalPart(n), GlobalPart(n));
      if n.turnId == "" {
        GlobalRoom(c, two, n);
        GlobalEndsUp(two, item);
        DeliverOneMeans(two, item, Key(Goal, ""), true);
        if RouteGlobal(two, item).1.None? {
          GlobalIsLast(c, two, RouteGlobal(two, item).0, n);
        }
      } else {
        NoGlobalEndsUp(c, two, n);
      }
    }
  }

  /** The totals after a goal's copy, for the global one. */
  lemma GlobalRoom(c: Core, two: Core, n: Notification)
    requires Going(c, two, Counted(GoalTakes(c, n)), n.bytes)
    ensures GlobalFits(two, n.bytes) == GlobalFits(c, n.bytes)
    ensures TotalsFit(two, 1, n.bytes) == TotalsFit(c, Counted(GoalTakes(c, n)) + 1, n.bytes)
  {
    hide GoalTakes;
    if GoalTakes(c, n) {
      assert 1 * n.bytes + n.bytes == 2 * n.bytes;
    }
  }

  lemma NoGlobalEndsUp(c: Core, d: Core, n: Notification)
    requires c.WellFormed() && d.WellFormed() && !GlobalGets(n) && d.store[0] == c.store[0]
    requires d.failed == c.failed && d.closed == c.closed && d.limits == c.limits
    requires forall k :: RouteAfter(c, d, k, Note(n.raw, n.bytes), Gets(c, n, k))
    ensures EndsUp(c, d, n)
  {
    hide At, Gets, RouteAfter;
  }

  lemma FailedDeliversNothing(c: Core, n: Notification)
    requires c.WellFormed() && c.failed.Some?
    ensures Deliver(c, Note(n.raw, n.bytes), Targets(n)) == (c, c.failed)
  {
    hide At;
    var targets := Targets(n);
    assert targets != [];
    assert DeliverOne(c, Note(n.raw, n.bytes), targets[0]) == (c, c.failed);
  }

  lemma OneEndsUp(c: Core, d: Core, n: Notification, key: Key)
    requires c.WellFormed() && d.WellFormed() && (IsCompaction(n) || IsLogin(n)) && key == OneRoute(n)
    requires d.failed == c.failed && d.closed == c.closed && d.limits == c.limits && d.store[0] == c.store[0]
    requires forall k :: OnlyGets(c, d, k, Note(n.raw, n.bytes), key, Takes(c, key, false))
    ensures EndsUp(c, d, n)
  {
    hide At;
    forall k
      ensures RouteAfter(c, d, k, Note(n.raw, n.bytes), Gets(c, n, k))
    {
      assert OnlyGets(c, d, k, Note(n.raw, n.bytes), key, Takes(c, key, false));
    }
  }

  lemma GlobalIsLast(c: Core, two: Core, d: Core, n: Notification)
    requires c.WellFormed() && two.WellFormed() && d.WellFormed() && GlobalGets(n) && two.store[0] == c.store[0]
    requires d.failed == c.failed && d.closed == c.closed && d.limits == c.limits
    requires forall k :: RouteAfter(c, two, k, Note(n.raw, n.bytes), Gets(c, n, k))
    requires forall k :: RouteAfter(two, d, k, Note(n.raw, n.bytes), false)
    requires ArrivedGlobally(two, d, Note(n.raw, n.bytes))
    ensures EndsUp(c, d, n)
  {
    hide At, Gets;
    forall k
      ensures RouteAfter(c, d, k, Note(n.raw, n.bytes), Gets(c, n, k))
    {
      assert RouteAfter(two, d, k, Note(n.raw, n.bytes), false);
    }
  }

  /** A full turn route refuses the notification, and then nothing else gets it. */
  lemma FullTurnRefuses(c: Core, n: Notification)
    requires c.WellFormed() && c.failed.None? && !IsCompaction(n) && !IsLogin(n)
    requires n.turnId != "" && Key(Turn, n.turnId) !in c.closed
    requires At(c, Key(Turn, n.turnId)).events >= c.limits.routeEvents
    ensures var (d, err) := Deliver(c, Note(n.raw, n.bytes), Targets(n));
      && err == Some(RouteEventLimit(Key(Turn, n.turnId)))
      && (forall k :: At(d, k) == At(c, k)) && d.store[0] == c.store[0] && d.totalEvents == c.totalEvents
  {
    hide At, RouteScoped, DeliverOne, Deliver, Targets;
    var item, key := Note(n.raw, n.bytes), Key(Turn, n.turnId);
    TargetsMean(n);
    ScopedAcceptsIff(c, key, item, false);
    ScopedEffect(c, key, item, false);
    DeliverSingle(c, item, Scoped(key, false));
    DeliverOneMeans(c, item, key, false);
    assert TurnPart(n) + GoalPart(n) + GlobalPart(n) == [Scoped(key, false)] + GoalPart(n);
    DeliverAppend(c, item, [Scoped(key, false)], GoalPart(n));
  }
}
