/**
  From the router to the reader: what the router accepts for a goal's thread, what the operation's loop
  receives and observes, which turns are handed out, and what the goal's stream tells.
 */
module GoalPipeline {
  import opened Wrappers
  import opened RouterState
  import R = RouterMachine
  import Fifo = RouterFifo
  import Ledger = RouterLedger
  import opened Goals = GoalState
  import Counters = RouterCounters
  import G = GoalMachine
  import T = TurnStreams
  import S = GoalStreams

  // ---- what one consumer receives from one channel ----

  /** The consumer has just received an item of the channel. */
  ghost predicate Receives(s: R.Config, t: R.Config, c: nat, ref: nat) {
    !R.PcOf(s, c).Holding? && R.PcOf(t, c).Holding? && R.PcOf(t, c).ref == ref
  }

  /** The items consumer `c` has received from the channel in the first `n` steps. */
  ghost function Taken(configs: seq<R.Config>, n: nat, c: nat, ref: nat): seq<Item>
    requires n < |configs|
  {
    if n == 0 then []
    else
      Taken(configs, n - 1, c, ref)
      + if Receives(configs[n - 1], configs[n], c, ref) then [R.PcOf(configs[n], c).item] else []
  }

  /** Nobody else has ever held an item of the channel. */
  ghost predicate OnlyReceiver(configs: seq<R.Config>, n: nat, c: nat, ref: nat)
    requires n < |configs|
  {
    forall i, d :: 0 <= i <= n && d != c ==> !(R.PcOf(configs[i], d).Holding? && R.PcOf(configs[i], d).ref == ref)
  }

  ghost function ReceivedFrom(s: R.Config, ref: nat): seq<Item> {
    if ref < |s.history| then s.history[ref].received else []
  }

  ghost predicate Takes(step: R.Step, c: nat) {
    step == R.Try(c) || step == R.Wake(c)
  }

  lemma ReceiptHasAReceiver(s: R.Config, step: R.Step, ref: nat)
    requires R.Sound(s) && R.Enabled(s, step) && R.CoreExtended(s, R.Apply(s, step))
    ensures var t := R.Apply(s, step);
      || ReceivedFrom(t, ref) == ReceivedFrom(s, ref)
      || ((step.Try? || step.Wake?) && Receives(s, t, step.c, ref)
          && ReceivedFrom(t, ref) == ReceivedFrom(s, ref) + [R.PcOf(t, step.c).item])
  {
    hide Register, Unregister, RouteScoped, RouteGlobal, Release, TrySend;
    if Ledger.ByOthers(step) && ref < |R.Apply(s, step).history| {
      Ledger.OthersMoveNobody(s, step, ref);
    }
  }

  lemma ReceiverIsCounted(s: R.Config, step: R.Step, c: nat, ref: nat)
    requires R.Sound(s) && R.Enabled(s, step) && Receives(s, R.Apply(s, step), c, ref)
    ensures ReceivedFrom(R.Apply(s, step), ref) == ReceivedFrom(s, ref) + [R.PcOf(R.Apply(s, step), c).item]
  {
  }

  lemma StepOfReceiver(s: R.Config, step: R.Step, c: nat, ref: nat)
    requires R.Sound(s) && R.Enabled(s, step) && R.CoreExtended(s, R.Apply(s, step))
    requires forall d :: d != c ==> !(R.PcOf(R.Apply(s, step), d).Holding? && R.PcOf(R.Apply(s, step), d).ref == ref)
    ensures var t := R.Apply(s, step);
      ReceivedFrom(t, ref) == ReceivedFrom(s, ref) + if Receives(s, t, c, ref) then [R.PcOf(t, c).item] else []
  {
    hide R.Apply, R.Sound, R.Enabled, ReceivedFrom;
    ReceiptHasAReceiver(s, step, ref);
    if Receives(s, R.Apply(s, step), c, ref) {
      ReceiverIsCounted(s, step, c, ref);
    } else {
      assert ReceivedFrom(s, ref) + [] == ReceivedFrom(s, ref);
    }
  }

  lemma {:induction false} TakenIsReceived(
    limits: Limits, configs: seq<R.Config>, steps: seq<R.Step>, n: nat, c: nat, ref: nat)
    requires R.Run(limits, configs, steps) && n < |configs| && OnlyReceiver(configs, n, c, ref)
    ensures ReceivedFrom(configs[n], ref) == Taken(configs, n, c, ref)
  {
    if n == 0 {
      assert ReceivedFrom(R.Init(limits), ref) == [];
    } else {
      hide R.Apply, R.Sound, R.Enabled, ReceivedFrom, Receives, R.CoreExtended;
      TakenIsReceived(limits, configs, steps, n - 1, c, ref);
      R.RunIsSound(limits, configs, steps, n - 1);
      R.CoreStepExtends(configs[n - 1], steps[n - 1]);
      assert configs[n] == configs[n - 1 + 1] == R.Apply(configs[n - 1], steps[n - 1]);
      StepOfReceiver(configs[n - 1], steps[n - 1], c, ref);
    }
  }

  // ---- what the operation observes ----

  /** The notices among the steps of a goal's run. */
  ghost function Observed(steps: seq<G.Step>): seq<Notice>
    decreases |steps|
  {
    if steps == [] then []
    else
      var step := steps[|steps| - 1];
      Observed(steps[..|steps| - 1]) + if step.Note? then [step.n] else []
  }

  /** The turns the notices announce, in order. */
  ghost function Announcements(notices: seq<Notice>): seq<string>
    decreases |notices|
  {
    if notices == [] then []
    else
      var turn := Announces(notices[|notices| - 1]);
      Announcements(notices[..|notices| - 1]) + if turn != "" then [turn] else []
  }

  ghost function Decoded(decode: Item -> Notice, items: seq<Item>): (notices: seq<Notice>)
    ensures |notices| == |items|
  {
    seq(|items|, i requires 0 <= i < |items| => decode(items[i]))
  }

  lemma StepAnnounces(s: G.State, step: G.Step)
    requires G.Enabled(s, step)
    ensures G.Apply(s, step).announced ==
      s.announced + if step.Note? && Announces(step.n) != "" then [Announces(step.n)] else []
  {
    hide Look, Observe, Fail, FinishTurn;
    assert s.announced + [] == s.announced;
  }

  lemma {:induction false} AnnouncedIsObserved(states: seq<G.State>, steps: seq<G.Step>, n: nat)
    requires G.Run(states, steps) && n < |states|
    ensures n <= |steps| && states[n].announced == Announcements(Observed(steps[..n]))
  {
    if n > 0 {
      hide G.Apply, G.Enabled;
      AnnouncedIsObserved(states, steps, n - 1);
      var s, step, notices := states[n - 1], steps[n - 1], Observed(steps[..n - 1]);
      assert states[n] == states[n - 1 + 1] == G.Apply(s, step);
      StepAnnounces(s, step);
      assert steps[..n][..n - 1] == steps[..n - 1];
      if step.Note? {
        assert (notices + [step.n])[..|notices|] == notices;
        assert states[n - 1].announced + [] == states[n - 1].announced;
      } else {
        assert notices + [] == notices;
      }
    }
  }

  lemma {:induction false} AnnouncedByOne(notices: seq<Notice>, turn: string)
    ensures turn in Announcements(notices) <==> turn != "" && exists i :: 0 <= i < |notices| && Announces(notices[i]) == turn
    decreases |notices|
  {
    hide Announces;
    if notices != [] {
      var last := |notices| - 1;
      AnnouncedByOne(notices[..last], turn);
      if turn != "" && turn in Announcements(notices[..last]) {
        var i :| 0 <= i < last && Announces(notices[..last][i]) == turn;
        assert Announces(notices[i]) == turn;
      }
      if i :| 0 <= i < |notices| && Announces(notices[i]) == turn {
        assert i < last ==> notices[..last][i] == notices[i];
      }
    }
  }

  /** A turn is accounted for only if it was announced to the operation. */
  lemma {:induction false} HandedWasAnnounced(states: seq<G.State>, steps: seq<G.Step>, n: nat)
    requires G.Run(states, steps) && n < |states|
    ensures forall t <- states[n].handed :: t in states[n].announced
    ensures forall c :: c in states[n].consumers && states[n].consumers[c].Chosen? ==> states[n].consumers[c].turn in states[n].announced
  {
    if n > 0 {
      HandedWasAnnounced(states, steps, n - 1);
      G.RunIsSound(states, steps, n - 1);
      assert states[n] == states[n - 1 + 1] == G.Apply(states[n - 1], steps[n - 1]);
      StepKeepsHandedAnnounced(states[n - 1], steps[n - 1]);
    }
  }

  lemma StepKeepsHandedAnnounced(s: G.State, step: G.Step)
    requires G.Sound(s) && G.Enabled(s, step)
    requires forall t <- s.handed :: t in s.announced
    requires forall c :: c in s.consumers && s.consumers[c].Chosen? ==> s.consumers[c].turn in s.announced
    ensures var t := G.Apply(s, step);
      && (forall h <- t.handed :: h in t.announced)
      && (forall c :: c in t.consumers && t.consumers[c].Chosen? ==> t.consumers[c].turn in t.announced)
  {
    hide Consistent, Observe, FinishTurn, Fail;
  }

  lemma AccountedIffAnnounced(states: seq<G.State>, steps: seq<G.Step>, n: nat, turn: string)
    requires G.Run(states, steps) && n < |states| && turn != ""
    ensures G.Accounted(states[n], turn) <==> turn in states[n].announced
  {
    G.RunIsSound(states, steps, n);
    HandedWasAnnounced(states, steps, n);
  }

  // ---- the two together ----

  /**
    With the operation's own loop as the only receiver of the thread's goal route: what the router accepted
    is what the loop received, then what is queued, and every turn announced by what the loop has observed
    is the logical turn, pending, or handed out.
   */
  lemma NothingIsLost(
    limits: Limits, configs: seq<R.Config>, steps: seq<R.Step>, n: nat, c: nat, key: Key, decode: Item -> Notice,
    states: seq<G.State>, moves: seq<G.Step>, m: nat, k: nat)
    requires R.Run(limits, configs, steps) && n < |configs|
    requires key in configs[n].core.routes && configs[n].failer.NotStarted?
    requires OnlyReceiver(configs, n, c, configs[n].core.routes[key])
    requires G.Run(states, moves) && m < |states|
    requires Observed(moves[..m]) <= Decoded(decode, Taken(configs, n, c, configs[n].core.routes[key]))
    ensures var ref := configs[n].core.routes[key];
      && ref < |configs[n].core.store|
      && var accepted := Fifo.AcceptedSince(configs, steps, key, n);
         && accepted == Taken(configs, n, c, ref) + R.Queue(configs[n], ref)
         && |Observed(moves[..m])| <= |accepted|
         && (k < |Observed(moves[..m])| && Announces(decode(accepted[k])) != "" ==>
               G.Accounted(states[m], Announces(decode(accepted[k]))))
  {
    var ref := configs[n].core.routes[key];
    Fifo.FifoWithReplay(limits, configs, steps, n, key);
    TakenIsReceived(limits, configs, steps, n, c, ref);
    var accepted := Fifo.AcceptedSince(configs, steps, key, n);
    assert accepted + [] == accepted;
    var notices := Observed(moves[..m]);
    if k < |notices| {
      assert notices[k] == decode(accepted[k]);
      AnnouncedIsObserved(states, moves, m);
      AnnouncedByOne(notices, Announces(decode(accepted[k])));
      if Announces(decode(accepted[k])) != "" {
        AccountedIffAnnounced(states, moves, m, Announces(decode(accepted[k])));
      }
    }
  }

  /**
    The exact condition, with any other receivers on the route: once the loop has observed all it received,
    every turn announced to the thread is accounted for if and only if each is announced by something the
    loop received itself.
   */
  lemma AllAccountedIff(
    configs: seq<R.Config>, steps: seq<R.Step>, n: nat, c: nat, key: Key, ref: nat, decode: Item -> Notice,
    states: seq<G.State>, moves: seq<G.Step>, m: nat)
    requires n < |configs| && |configs| == |steps| + 1
    requires G.Run(states, moves) && m < |states|
    requires Observed(moves[..m]) == Decoded(decode, Taken(configs, n, c, ref))
    ensures var announced := Announcements(Decoded(decode, Fifo.AcceptedSince(configs, steps, key, n)));
      var heard := Announcements(Decoded(decode, Taken(configs, n, c, ref)));
      (forall turn <- announced :: G.Accounted(states[m], turn)) <==> (forall turn <- announced :: turn in heard)
  {
    var accepted := Decoded(decode, Fifo.AcceptedSince(configs, steps, key, n));
    AnnouncedIsObserved(states, moves, m);
    forall turn | turn in Announcements(accepted)
      ensures turn != "" && (G.Accounted(states[m], turn) <==> turn in states[m].announced)
    {
      AnnouncedByOne(accepted, turn);
      AccountedIffAnnounced(states, moves, m, turn);
    }
  }

  // ---- from the router to the stream ----

  /** The stream is handed these turns, one after the other, and then the end. */
  ghost predicate HandsOver(script: seq<S.Continuation>, turns: seq<string>) {
    && |script| == |turns| + 1 && script[|turns|].AllEnded?
    && forall i :: 0 <= i < |turns| ==> script[i].HandOver? && script[i].turn == turns[i]
  }

  /** Every turn's stream completes. */
  predicate AllComplete(feed: seq<T.Arrival>, script: seq<S.Continuation>)
    decreases |script|
  {
    var story := T.Told(T.Open(feed));
    && story.error.None? && S.Completes(story.events)
    && (script != [] && script[0].HandOver? ==> AllComplete(script[0].feed, script[1..]))
  }

  ghost function TurnsOf(chapters: seq<S.Chapter>): (turns: seq<string>)
    ensures |turns| == |chapters|
  {
    seq(|chapters|, i requires 0 <= i < |chapters| => chapters[i].turn)
  }

  lemma {:induction false} ChaptersAreTheTurns(
    turn: string, feed: seq<T.Arrival>, script: seq<S.Continuation>, turns: seq<string>)
    requires HandsOver(script, turns) && AllComplete(feed, script)
    ensures S.ErrorFree(feed, script) && TurnsOf(S.Chapters(turn, feed, script)) == [turn] + turns
    decreases |script|
  {
    hide T.Told;
    var events := T.Told(T.Open(feed)).events;
    if turns == [] {
      assert S.Chapters(turn, feed, script) == [S.Chapter(turn, events)];
    } else {
      assert script[1..][|turns[1..]|] == script[|turns|];
      ChaptersAreTheTurns(script[0].turn, script[0].feed, script[1..], turns[1..]);
      var rest := S.Chapters(script[0].turn, script[0].feed, script[1..]);
      assert S.Chapters(turn, feed, script) == [S.Chapter(turn, events)] + rest;
      assert TurnsOf([S.Chapter(turn, events)] + rest) == [turn] + TurnsOf(rest);
      assert turns == [turns[0]] + turns[1..];
    }
  }

  /**
    End to end: when the wait has ended, nothing is queued, and the stream was handed what the operation
    handed out, the goal's stream tells the turns that the accepted notifications announce, each once, in
    the order of their first announcement, the first one as the logical turn.
   */
  lemma StreamTellsAcceptedTurns(
    limits: Limits, configs: seq<R.Config>, steps: seq<R.Step>, n: nat, c: nat, key: Key, decode: Item -> Notice,
    states: seq<G.State>, moves: seq<G.Step>, m: nat, previous: string,
    feed: seq<T.Arrival>, script: seq<S.Continuation>)
    requires R.Run(limits, configs, steps) && n < |configs|
    requires key in configs[n].core.routes && configs[n].failer.NotStarted?
    requires OnlyReceiver(configs, n, c, configs[n].core.routes[key])
    requires configs[n].core.routes[key] < |configs[n].core.store| && R.Queue(configs[n], configs[n].core.routes[key]) == []
    requires G.OrderlyRun(states, moves) && m < |states| && states[m].announced != []
    requires Observed(moves[..m]) == Decoded(decode, Taken(configs, n, c, configs[n].core.routes[key]))
    requires Look(states[m].goal, previous).Ended?
    requires HandsOver(script, states[m].handed) && AllComplete(feed, script)
    ensures var logical := states[m].goal.logical;
      var announced := Announcements(Decoded(decode, Fifo.AcceptedSince(configs, steps, key, n)));
      && announced != [] && logical == announced[0]
      && TurnsOf(S.Chapters(logical, feed, script)) == [announced[0]] + G.FirstSeen(announced)
      && S.Tale(logical, logical, T.Open(feed), script) == T.Story(S.Joined(logical, S.Chapters(logical, feed, script), true), None)
  {
    var ref := configs[n].core.routes[key];
    var logical := states[m].goal.logical;
    NothingIsLost(limits, configs, steps, n, c, key, decode, states, moves, m, 0);
    var accepted := Fifo.AcceptedSince(configs, steps, key, n);
    assert accepted == Taken(configs, n, c, ref);
    AnnouncedIsObserved(states, moves, m);
    OrderlyEnd(states, moves, m, previous);
    ChaptersAreTheTurns(logical, feed, script, states[m].handed);
    S.ErrorFreeIff(feed, script);
    S.LogicalStreamIsConcatenation(logical, logical, feed, script);
  }

  /** At the end of an orderly run all turns but the logical one have been handed out. */
  lemma OrderlyEnd(states: seq<G.State>, moves: seq<G.Step>, m: nat, previous: string)
    requires G.OrderlyRun(states, moves) && m < |states| && Look(states[m].goal, previous).Ended? && states[m].announced != []
    ensures states[m].handed == G.FirstSeen(states[m].announced) && states[m].goal.logical == states[m].announced[0]
  {
    G.HandedOutOnceInOrder(states, moves, m);
    G.LogicalTurnIsFirst(states, moves, m);
    G.RunIsSound(states, moves, m);
    assert states[m].handed + [] == states[m].handed;
  }

  // ---- a stolen announcement ----

  /** What the operation's loop has not received it does not know of: such a turn is not accounted for. */
  lemma UnheardIsLost(
    configs: seq<R.Config>, n: nat, c: nat, ref: nat, decode: Item -> Notice,
    states: seq<G.State>, moves: seq<G.Step>, m: nat, turn: string)
    requires n < |configs| && G.Run(states, moves) && m < |states|
    requires Observed(moves[..m]) <= Decoded(decode, Taken(configs, n, c, ref))
    requires turn != "" && forall item <- Taken(configs, n, c, ref) :: Announces(decode(item)) != turn
    ensures !G.Accounted(states[m], turn)
  {
    AnnouncedIsObserved(states, moves, m);
    AnnouncedByOne(Observed(moves[..m]), turn);
    AccountedIffAnnounced(states, moves, m, turn);
    var taken := Taken(configs, n, c, ref);
    forall i | 0 <= i < |Observed(moves[..m])|
      ensures Announces(Observed(moves[..m])[i]) != turn
    {
      assert Observed(moves[..m])[i] == decode(taken[i]) && taken[i] in taken;
    }
  }

  const THREAD := Key(Kind.Goal, "t")

  ghost predicate GoalRegistered(s: R.Config, items: seq<Item>) {
    && R.Sound(s) && |items| <= 1 && s.failer.NotStarted?
    && Counters.OneRoute(s.core, THREAD, Route(Some(THREAD), Some(items), [], |items|, 0))
    && s.history[1].accepted == items && s.history[1].received == []
  }

  lemma GoalIsRegistered(limits: Limits) returns (s: R.Config, t: R.Config)
    ensures R.Sound(R.Init(limits)) && s == R.Apply(R.Init(limits), R.DoRegister(THREAD)) && GoalRegistered(s, [])
    ensures R.Enabled(s, R.DoRouteScoped(THREAD, Counters.NOTE, true))
    ensures t == R.Apply(s, R.DoRouteScoped(THREAD, Counters.NOTE, true)) && GoalRegistered(t, [Counters.NOTE])
    ensures s.consumers == t.consumers == map[]
    ensures R.Sound(s) && R.Sound(t)
  {
    hide Register, RouteScoped;
    var start := R.Init(limits);
    R.StepKeepsSound(start, R.DoRegister(THREAD));
    Counters.RegisterFirst(limits, THREAD);
    s := R.Apply(start, R.DoRegister(THREAD));
    R.StepKeepsSound(s, R.DoRouteScoped(THREAD, Counters.NOTE, true));
    Counters.RouteFirst(s.core, THREAD, true);
    t := R.Apply(s, R.DoRouteScoped(THREAD, Counters.NOTE, true));
    assert [] + [Counters.NOTE] == [Counters.NOTE];
  }

  lemma SecondLoopTakes(s: R.Config) returns (t: R.Config, u: R.Config)
    requires GoalRegistered(s, [Counters.NOTE]) && s.consumers == map[]
    ensures R.Enabled(s, R.Call(1, THREAD)) && t == R.Apply(s, R.Call(1, THREAD)) && R.Sound(t)
    ensures R.Enabled(t, R.Try(1)) && u == R.Apply(t, R.Try(1)) && R.Sound(u)
    ensures R.PcOf(t, 0).Idle? && R.PcOf(t, 1).Trying? && R.PcOf(u, 0).Idle?
    ensures R.PcOf(u, 1) == R.Holding(Some(THREAD), 1, Counters.NOTE)
    ensures u.failer.NotStarted? && THREAD in u.core.routes && u.core.routes[THREAD] == 1 && |u.core.store| == 2
    ensures R.Queue(u, 1) == [] && u.history[1].accepted == [Counters.NOTE]
  {
    R.StepKeepsSound(s, R.Call(1, THREAD));
    t := R.Apply(s, R.Call(1, THREAD));
    assert R.PcOf(t, 1) == R.Trying(Some(THREAD), 1, None);
    R.StepKeepsSound(t, R.Try(1));
    u := R.Apply(t, R.Try(1));
    assert [Counters.NOTE][1..] == [];
  }

  /**
    A second loop on the thread's route, such as a refused StartGoal's, takes the one accepted notification:
    the operation's own loop, consumer 0, has received nothing and finds nothing.
   */
  lemma AnnouncementIsStolen(limits: Limits) returns (configs: seq<R.Config>, steps: seq<R.Step>)
    ensures R.Run(limits, configs, steps) && |configs| == 5 && |steps| == 4
    ensures Fifo.AcceptedSince(configs, steps, THREAD, 4) == [Counters.NOTE]
    ensures Taken(configs, 4, 0, 1) == [] && THREAD in configs[4].core.routes && configs[4].core.routes[THREAD] == 1
    ensures |configs[4].core.store| == 2 && R.Queue(configs[4], 1) == [] && configs[4].failer.NotStarted?
  {
    hide R.Apply, R.Enabled, R.Sound, GoalRegistered;
    var start := R.Init(limits);
    var s, t := GoalIsRegistered(limits);
    var u, v := SecondLoopTakes(t);
    configs := [start, s, t, u, v];
    steps := [R.DoRegister(THREAD), R.DoRouteScoped(THREAD, Counters.NOTE, true), R.Call(1, THREAD), R.Try(1)];
    assert R.Enabled(start, R.DoRegister(THREAD)) by { RegisterIsEnabled(start); }
    FourSteps(limits, configs, steps);
    Fifo.AcceptedIsTraced(limits, configs, steps, 4, THREAD);
    NothingTaken(configs, 4, 0, 1);
  }

  lemma RegisterIsEnabled(s: R.Config)
    ensures R.Enabled(s, R.DoRegister(THREAD))
  {
  }

  lemma FourSteps(limits: Limits, configs: seq<R.Config>, steps: seq<R.Step>)
    requires |configs| == 5 && |steps| == 4 && configs[0] == R.Init(limits)
    requires R.Sound(configs[0]) && R.Enabled(configs[0], steps[0]) && configs[1] == R.Apply(configs[0], steps[0])
    requires R.Sound(configs[1]) && R.Enabled(configs[1], steps[1]) && configs[2] == R.Apply(configs[1], steps[1])
    requires R.Sound(configs[2]) && R.Enabled(configs[2], steps[2]) && configs[3] == R.Apply(configs[2], steps[2])
    requires R.Sound(configs[3]) && R.Enabled(configs[3], steps[3]) && configs[4] == R.Apply(configs[3], steps[3])
    ensures R.Run(limits, configs, steps)
  {
    hide R.Apply, R.Enabled, R.Sound;
  }

  lemma {:induction false} NothingTaken(configs: seq<R.Config>, n: nat, c: nat, ref: nat)
    requires n < |configs| && forall i :: 0 <= i <= n ==> R.PcOf(configs[i], c).Idle?
    ensures Taken(configs, n, c, ref) == []
  {
    if n > 0 {
      NothingTaken(configs, n - 1, c, ref);
    }
  }
}
