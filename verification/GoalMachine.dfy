/**
  The goal operation under concurrency: routeLoop observes notifications on one goroutine while
  consumers finish turns and wait for continuations on others. Each critical section is one step.
 */
module GoalMachine {
  import opened Strings
  import opened Wrappers
  import opened GoalState

  datatype Pc =
    | Idle
    | Awaiting(previous: string)              // inside awaitContinuation, about to look
    | Parked(previous: string)                // has found nothing and waits for the signal channel
    | Chosen(turn: string)                    // has seen `turn` at the head, has not popped it
    | Reported                                // awaitContinuation returned "terminal"

  /**
    `signal` says that the one-slot signal channel is full. `announced` and `handed` record the
    announcements and the turns returned, in order.
   */
  datatype State = State(
    goal: Goal, consumers: map<nat, Pc>, signal: bool, announced: seq<string>, handed: seq<string>)

  datatype Step =
    | Note(n: Notice)
    | LoopFails(error: string)                // routeLoop's own failure
    | Interrupted(turn: string)               // cancelGoalOperation learns the active turn
    | Finish(turn: string)                    // GoalStream saw a turn's terminal event
    | Await(c: nat, previous: string)
    | Glance(c: nat)
    | Take(c: nat)
    | Wake(c: nat)                            // receives from the signal channel
    | GiveUp(c: nat)                          // context cancelled

  const INIT := State(NEW_GOAL, map[], false, [], [])

  ghost function PcOf(s: State, c: nat): Pc {
    if c in s.consumers then s.consumers[c] else Idle
  }

  ghost predicate Enabled(s: State, step: Step) {
    match step
    case Await(c, _) => PcOf(s, c).Idle?
    case Glance(c) => PcOf(s, c).Awaiting?
    case Take(c) => PcOf(s, c).Chosen?
    case Wake(c) => PcOf(s, c).Parked? && s.signal
    case GiveUp(c) => PcOf(s, c).Parked?
    case Interrupted(turn) => turn != ""
    case _ => true
  }

  ghost function SetPc(s: State, c: nat, pc: Pc): State {
    s.(consumers := s.consumers[c := pc])
  }

  ghost function Apply(s: State, step: Step): State
    requires Enabled(s, step)
  {
    match step
    case Note(n) =>
      s.(goal := Observe(s.goal, n),
         signal := true,
         announced := if Announces(n) != "" then s.announced + [Announces(n)] else s.announced)
    case LoopFails(error) => s.(goal := Fail(s.goal, error), signal := true)
    case Interrupted(turn) => s.(goal := Retarget(s.goal, turn))
    case Finish(turn) => s.(goal := FinishTurn(s.goal, turn), signal := true)
    case Await(c, previous) => SetPc(s, c, Awaiting(previous))
    case Glance(c) =>
      (match Look(s.goal, PcOf(s, c).previous)
       case Broken(_) => SetPc(s, c, Idle)
       case Hand(turn) => SetPc(s, c, Chosen(turn))
       case Ended => SetPc(s, c, Reported)
       case Wait => SetPc(s, c, Parked(PcOf(s, c).previous)))
    case Take(c) =>
      var turn := PcOf(s, c).turn;
      SetPc(s, c, Idle).(goal := Pop(s.goal, turn), handed := s.handed + [turn])
    case Wake(c) => SetPc(s, c, Awaiting(PcOf(s, c).previous)).(signal := false)
    case GiveUp(c) => SetPc(s, c, Idle)
  }

  /** Nothing announced is lost: it is the logical turn, still pending, or was handed out. */
  ghost predicate Accounted(s: State, turn: string) {
    turn == s.goal.logical || turn in s.goal.pending || turn in s.handed
  }

  ghost predicate Sound(s: State) {
    && Consistent(s.goal)
    && (forall t :: t in s.announced ==> Accounted(s, t))
    && (forall t :: t in s.goal.pending ==> t in s.announced)
    && (s.goal.logical != "" ==> s.announced != [] && s.goal.logical == s.announced[0])
    && (s.goal.logical == "" ==> s.announced == [])
  }

  lemma NoteKeepsSound(s: State, n: Notice)
    requires Sound(s)
    ensures Sound(Apply(s, Note(n)))
  {
    var t := Apply(s, Note(n));
    ObserveKeepsConsistent(s.goal, n);
    if Announces(n) != "" {
      NoteTurnKeepsConsistent(Observe(s.goal, Updated(s.goal.status, "")), Announces(n));
    }
    forall a | a in t.announced
      ensures Accounted(t, a)
    {
      if a in s.announced {
        assert Accounted(s, a);
      } else {
        assert a == Announces(n);
      }
    }
  }

  lemma TakeKeepsSound(s: State, c: nat)
    requires Sound(s) && PcOf(s, c).Chosen?
    ensures Sound(Apply(s, Take(c)))
  {
    var t := Apply(s, Take(c));
    PopKeepsConsistent(s.goal, PcOf(s, c).turn);
    forall a | a in t.announced
      ensures Accounted(t, a)
    {
      assert Accounted(s, a);
    }
  }

  lemma StepKeepsSound(s: State, step: Step)
    requires Sound(s) && Enabled(s, step)
    ensures Sound(Apply(s, step))
    ensures s.goal.logical != "" ==> Apply(s, step).goal.logical == s.goal.logical
  {
    match step
    case Note(n) => NoteKeepsSound(s, n); ObserveKeepsConsistent(s.goal, n);
    case Take(c) => TakeKeepsSound(s, c);
    case _ =>
      forall a | a in s.announced
        ensures Accounted(Apply(s, step), a)
      {
        assert Accounted(s, a);
      }
  }

  ghost predicate Run(states: seq<State>, steps: seq<Step>) {
    && |states| == |steps| + 1
    && states[0] == INIT
    && forall i :: 0 <= i < |steps| ==> Enabled(states[i], steps[i]) && states[i + 1] == Apply(states[i], steps[i])
  }

  lemma {:induction false} RunIsSound(states: seq<State>, steps: seq<Step>, n: nat)
    requires Run(states, steps) && n < |states|
    ensures Sound(states[n])
  {
    if n > 0 {
      RunIsSound(states, steps, n - 1);
      StepKeepsSound(states[n - 1], steps[n - 1]);
      assert states[n] == states[n - 1 + 1];
    }
  }

  // ---- safety, for any number of consumers and any announcements ----

  /** In every run, every announced turn is the logical turn, pending, or handed out. */
  lemma NoTurnSkipped(states: seq<State>, steps: seq<Step>, n: nat, turn: string)
    requires Run(states, steps) && n < |states| && turn in states[n].announced
    ensures Accounted(states[n], turn)
  {
    RunIsSound(states, steps, n);
  }

  /** The logical turn is the first one announced and never changes; pending turns are distinct and exclude it. */
  lemma LogicalTurnIsFirst(states: seq<State>, steps: seq<Step>, n: nat)
    requires Run(states, steps) && n < |states|
    ensures var g := states[n].goal;
      && Distinct(g.pending) && g.logical !in g.pending
      && g.logical == (if states[n].announced == [] then "" else states[n].announced[0])
      && InterruptTarget(g) == g.last
  {
    RunIsSound(states, steps, n);
  }

  /** When awaitContinuation reports the end, every announced turn has been handed out and none is running. */
  lemma EndMeansAllHandedOut(states: seq<State>, steps: seq<Step>, n: nat, c: nat, turn: string)
    requires Run(states, steps) && n < |states| && PcOf(states[n], c).Awaiting?
    requires Look(states[n].goal, PcOf(states[n], c).previous).Ended?
    requires turn in states[n].announced && turn != states[n].goal.logical
    ensures turn in states[n].handed && states[n].goal.current == ""
  {
    RunIsSound(states, steps, n);
    assert Accounted(states[n], turn);
  }

  // ---- exactly once ----

  ghost predicate Active(pc: Pc) {
    pc.Awaiting? || pc.Parked? || pc.Chosen?
  }

  ghost predicate OneConsumer(s: State) {
    forall c, d :: c in s.consumers && d in s.consumers && Active(s.consumers[c]) && Active(s.consumers[d]) ==> c == d
  }

  /** No turn is announced again after it was handed out. */
  ghost predicate Fresh(s: State, step: Step) {
    step.Note? && Announces(step.n) != "" ==> Announces(step.n) !in s.handed
  }

  /** The head has not changed between a consumer's look and its pop. */
  ghost predicate AtHead(s: State, step: Step) {
    step.Take? && PcOf(s, step.c).Chosen? ==> s.goal.pending != [] && s.goal.pending[0] == PcOf(s, step.c).turn
  }

  ghost predicate Proper(s: State, step: Step) {
    Fresh(s, step) && AtHead(s, step)
  }

  /** The turns after the logical one, each at its first announcement. */
  ghost function FirstSeen(announced: seq<string>): seq<string> {
    if |announced| <= 1 then
      []
    else
      var before := FirstSeen(announced[..|announced| - 1]);
      var turn := announced[|announced| - 1];
      if turn == announced[0] || turn in before then before else before + [turn]
  }

  ghost predicate Orderly(s: State) {
    && Sound(s)
    && s.handed + s.goal.pending == FirstSeen(s.announced)
    && Distinct(s.handed + s.goal.pending)
    && s.goal.logical !in s.handed
    && (forall c :: c in s.consumers && s.consumers[c].Chosen? ==> s.consumers[c].turn in s.handed + s.goal.pending)
  }

  lemma FirstSeenAfter(announced: seq<string>, turn: string)
    ensures var seen := FirstSeen(announced);
      FirstSeen(announced + [turn]) ==
        if announced == [] || turn == announced[0] || turn in seen then seen else seen + [turn]
  {
    assert (announced + [turn])[..|announced|] == announced;
  }

  lemma NoteKeepsOrder(s: State, n: Notice)
    requires Orderly(s) && Fresh(s, Note(n))
    ensures Orderly(Apply(s, Note(n)))
  {
    hide FirstSeen, Accounted, Consistent;
    var t := Apply(s, Note(n));
    var turn := Announces(n);
    NoteKeepsSound(s, n);
    ObserveKeepsConsistent(s.goal, n);
    if turn != "" {
      FirstSeenAfter(s.announced, turn);
      NoteQueues(s.goal, n);
      if t.goal.pending != s.goal.pending {
        assert t.handed + t.goal.pending == s.handed + s.goal.pending + [turn];
      }
    }
  }

  lemma NoteQueues(g: Goal, n: Notice)
    requires Announces(n) != ""
    ensures var turn := Announces(n); var t := Observe(g, n);
      if g.logical == "" then t.logical == turn && t.pending == g.pending
      else t.logical == g.logical && t.pending == if turn == g.logical || turn in g.pending then g.pending else g.pending + [turn]
  {
  }

  lemma TakeKeepsOrder(s: State, c: nat)
    requires Orderly(s) && PcOf(s, c).Chosen? && AtHead(s, Take(c))
    ensures Orderly(Apply(s, Take(c)))
  {
    hide FirstSeen, Accounted;
    var t := Apply(s, Take(c));
    TakeKeepsSound(s, c);
    assert s.goal.pending == [PcOf(s, c).turn] + s.goal.pending[1..];
    assert t.handed + t.goal.pending == s.handed + s.goal.pending;
  }

  lemma GlanceKeepsOrder(s: State, c: nat)
    requires Orderly(s) && PcOf(s, c).Awaiting?
    ensures Orderly(Apply(s, Glance(c)))
  {
    hide FirstSeen, Distinct, Consistent, Accounted;
    StepKeepsSound(s, Glance(c));
    assert s.goal.pending != [] ==> s.goal.pending[0] in s.handed + s.goal.pending;
  }

  lemma StepKeepsOrder(s: State, step: Step)
    requires Orderly(s) && Enabled(s, step) && Proper(s, step)
    ensures Orderly(Apply(s, step))
  {
    hide FirstSeen, Distinct, Observe, NoteTurn, Accounted;
    match step
    case Note(n) => NoteKeepsOrder(s, n);
    case Take(c) => TakeKeepsOrder(s, c);
    case Glance(c) => GlanceKeepsOrder(s, c);
    case _ => StepKeepsSound(s, step);
  }

  ghost predicate ProperUpTo(states: seq<State>, steps: seq<Step>, n: nat)
    requires Run(states, steps) && n < |states|
  {
    forall i :: 0 <= i < n ==> Proper(states[i], steps[i])
  }

  ghost predicate OrderlyRun(states: seq<State>, steps: seq<Step>) {
    Run(states, steps) && ProperUpTo(states, steps, |steps|)
  }

  lemma {:induction false} RunIsOrderly(states: seq<State>, steps: seq<Step>, n: nat)
    requires Run(states, steps) && n < |states| && ProperUpTo(states, steps, n)
    ensures Orderly(states[n])
  {
    if n > 0 {
      RunIsOrderly(states, steps, n - 1);
      StepKeepsOrder(states[n - 1], steps[n - 1]);
      assert states[n] == states[n - 1 + 1];
    }
  }

  lemma DistinctParts(a: seq<string>, b: seq<string>)
    requires Distinct(a + b)
    ensures Distinct(a)
    ensures forall x :: x in a ==> x !in b
  {
    forall i, j | 0 <= i < j < |a|
      ensures a[i] != a[j]
    {
      assert (a + b)[i] != (a + b)[j];
    }
    forall i, j | 0 <= i < |a| && 0 <= j < |b|
      ensures a[i] != b[j]
    {
      assert (a + b)[i] != (a + b)[|a| + j];
    }
  }

  /** Turns are handed out exactly once, in the order of their first announcement. */
  lemma HandedOutOnceInOrder(states: seq<State>, steps: seq<Step>, n: nat)
    requires OrderlyRun(states, steps) && n < |states|
    ensures var s := states[n];
      && Distinct(s.handed)
      && s.handed <= FirstSeen(s.announced)
      && FirstSeen(s.announced) == s.handed + s.goal.pending
  {
    RunIsOrderly(states, steps, n);
    DistinctParts(states[n].handed, states[n].goal.pending);
  }

  /** In such a run a consumer that finished the logical turn or a handed-out one gets the next pending turn at once. */
  lemma PendingTurnIsNext(states: seq<State>, steps: seq<Step>, n: nat, previous: string)
    requires OrderlyRun(states, steps) && n < |states|
    requires previous == states[n].goal.logical || previous in states[n].handed
    requires states[n].goal.failed.None? && states[n].goal.pending != []
    ensures Look(states[n].goal, previous) == Hand(states[n].goal.pending[0])
  {
    RunIsOrderly(states, steps, n);
    DistinctParts(states[n].handed, states[n].goal.pending);
  }

  // ---- the exact condition ----

  /** A turn announced again after it was handed out is queued a second time. */
  lemma SecondAnnouncementIsQueued(s: State, n: Notice)
    requires Orderly(s) && !Fresh(s, Note(n))
    ensures var t := Apply(s, Note(n)); !Distinct(t.handed + t.goal.pending)
  {
    var turn := Announces(n);
    var t := Apply(s, Note(n));
    var i :| 0 <= i < |s.handed| && s.handed[i] == turn;
    DistinctParts(s.handed, s.goal.pending);
    assert FirstSeen(s.announced) != [] && s.announced != [];
    assert t.goal.pending == s.goal.pending + [turn];
    var all := t.handed + t.goal.pending;
    assert all[i] == turn == all[|all| - 1];
  }

  /** A turn that is no longer at the head is handed out although it was, or will be, handed out too. */
  lemma LatePopDuplicates(s: State, c: nat)
    requires Orderly(s) && PcOf(s, c).Chosen? && !AtHead(s, Take(c))
    ensures var t := Apply(s, Take(c)); !Distinct(t.handed + t.goal.pending)
  {
    hide Sound, FirstSeen, Distinct;
    var turn := PcOf(s, c).turn;
    var t := Apply(s, Take(c));
    assert t.goal.pending == s.goal.pending && t.handed == s.handed + [turn];
    if turn in s.handed {
      TwiceIsNotDistinct(s.handed, [turn], s.goal.pending, turn);
    } else {
      assert turn in s.goal.pending;
      TwiceIsNotDistinct(s.handed, [turn], s.goal.pending, turn);
    }
  }

  lemma TwiceIsNotDistinct(a: seq<string>, b: seq<string>, c: seq<string>, x: string)
    requires b == [x] && (x in a || x in c)
    ensures !Distinct(a + b + c)
  {
    var all := a + b + c;
    assert all[|a|] == x;
    if x in a {
      var i :| 0 <= i < |a| && a[i] == x;
      assert all[i] == x;
    } else {
      var i :| 0 <= i < |c| && c[i] == x;
      assert all[|a| + 1 + i] == x;
    }
  }

  /**
    The exact condition for exactly-once, over every run and any number of consumers: no turn is ever
    handed out or queued twice if and only if no turn is announced again after it was handed out and
    every pop finds the turn that the look saw.
   */
  lemma {:induction false} ExactlyOnceIff(states: seq<State>, steps: seq<Step>)
    requires Run(states, steps)
    ensures (forall n :: 0 <= n < |states| ==> Distinct(states[n].handed + states[n].goal.pending))
      <==> (forall i :: 0 <= i < |steps| ==> Proper(states[i], steps[i]))
  {
    hide Apply, Fresh, AtHead, Orderly;
    if ProperUpTo(states, steps, |steps|) {
      forall n | 0 <= n < |states|
        ensures Distinct(states[n].handed + states[n].goal.pending)
      {
        RunIsOrderly(states, steps, n);
        OrderlyIsDistinct(states[n]);
      }
    } else {
      var i := FirstImproper(states, steps, |steps|);
      RunIsOrderly(states, steps, i);
      ImproperDuplicates(states[i], steps[i]);
      assert states[i + 1] == Apply(states[i], steps[i]);
    }
  }

  lemma OrderlyIsDistinct(s: State)
    requires Orderly(s)
    ensures Distinct(s.handed + s.goal.pending)
  {
  }

  lemma ImproperDuplicates(s: State, step: Step)
    requires Orderly(s) && Enabled(s, step) && !Proper(s, step)
    ensures var t := Apply(s, step); !Distinct(t.handed + t.goal.pending)
  {
    hide Orderly, Apply, Distinct;
    if !Fresh(s, step) {
      SecondAnnouncementIsQueued(s, step.n);
    } else {
      LatePopDuplicates(s, step.c);
    }
  }

  lemma {:induction false} FirstImproper(states: seq<State>, steps: seq<Step>, n: nat) returns (i: nat)
    requires Run(states, steps) && n < |states| && !ProperUpTo(states, steps, n)
    ensures i < n && ProperUpTo(states, steps, i) && !Proper(states[i], steps[i])
  {
    if ProperUpTo(states, steps, n - 1) {
      i := n - 1;
    } else {
      i := FirstImproper(states, steps, n - 1);
    }
  }

  // ---- one consumer at a time ----

  ghost predicate OneConsumerRun(states: seq<State>, steps: seq<Step>) {
    && Run(states, steps)
    && forall i :: 0 <= i < |states| ==> OneConsumer(states[i])
  }

  /** What a consumer has seen at the head is still there. */
  ghost predicate HeadIsChosen(s: State) {
    forall c :: c in s.consumers && s.consumers[c].Chosen? ==>
      s.goal.pending != [] && s.goal.pending[0] == s.consumers[c].turn
  }

  lemma StepKeepsHead(s: State, step: Step)
    requires Sound(s) && OneConsumer(s) && HeadIsChosen(s) && Enabled(s, step)
    ensures HeadIsChosen(Apply(s, step))
  {
    if step.Note? {
      ObserveKeepsConsistent(s.goal, step.n);
    }
  }

  lemma {:induction false} OneConsumerSeesTheHead(states: seq<State>, steps: seq<Step>, n: nat)
    requires OneConsumerRun(states, steps) && n < |states|
    ensures HeadIsChosen(states[n])
  {
    if n > 0 {
      OneConsumerSeesTheHead(states, steps, n - 1);
      RunIsSound(states, steps, n - 1);
      StepKeepsHead(states[n - 1], steps[n - 1]);
      assert states[n] == states[n - 1 + 1];
    }
  }

  lemma FreshForOneIsOrderly(states: seq<State>, steps: seq<Step>)
    requires FreshRun(states, steps) && OneConsumerRun(states, steps)
    ensures OrderlyRun(states, steps) && |states| == |steps| + 1
  {
    hide Apply, Fresh, Enabled;
    forall i | 0 <= i < |steps|
      ensures AtHead(states[i], steps[i])
    {
      OneConsumerSeesTheHead(states, steps, i);
    }
  }

  /** So with one consumer at a time only the announcements matter. */
  lemma ExactlyOnceForOneConsumer(states: seq<State>, steps: seq<Step>)
    requires OneConsumerRun(states, steps)
    ensures (forall n :: 0 <= n < |states| ==> Distinct(states[n].handed + states[n].goal.pending))
      <==> (forall i :: 0 <= i < |steps| ==> Fresh(states[i], steps[i]))
  {
    hide Apply, Fresh, Enabled;
    ExactlyOnceIff(states, steps);
    if FreshRun(states, steps) {
      FreshForOneIsOrderly(states, steps);
    }
  }

  /**
    Two consumers can get the same turn, from every state in which both look at a head that is neither's
    own turn: the second pop finds another head, and the turn is returned all the same.
   */
  lemma TwoConsumersTakeOneTurn(s: State, c: nat, d: nat) returns (t: State)
    requires c != d && PcOf(s, c).Awaiting? && PcOf(s, d).Awaiting?
    requires s.goal.failed.None? && s.goal.pending != [] && s.goal.pending[0] != ""
    requires s.goal.pending[0] != PcOf(s, c).previous && s.goal.pending[0] != PcOf(s, d).previous
    ensures Enabled(s, Glance(c)) && Enabled(Apply(s, Glance(c)), Glance(d))
    ensures var looked := Apply(Apply(s, Glance(c)), Glance(d));
      && Enabled(looked, Take(c)) && Enabled(Apply(looked, Take(c)), Take(d))
      && t == Apply(Apply(looked, Take(c)), Take(d))
    ensures t.handed == s.handed + [s.goal.pending[0], s.goal.pending[0]]
  {
    var turn := s.goal.pending[0];
    var one := Apply(s, Glance(c));
    assert PcOf(one, c) == Chosen(turn) && PcOf(one, d) == PcOf(s, d) && one.goal == s.goal;
    var looked := Apply(one, Glance(d));
    assert PcOf(looked, c) == Chosen(turn) == PcOf(looked, d);
    var taken := Apply(looked, Take(c));
    assert PcOf(taken, d) == Chosen(turn) && taken.handed == s.handed + [turn];
    t := Apply(taken, Take(d));
  }

  /** Such a state is reachable, and the run repeats no announcement. */
  lemma OneTurnIsTakenTwice() returns (states: seq<State>, steps: seq<Step>)
    ensures FreshRun(states, steps) && states[|steps|].handed == ["b", "b"]
  {
    hide Run, FreshRun, Apply, Enabled;
    states, steps := TwoConsumersAsk();
    var s := states[|steps|];
    var taken := TwoConsumersTakeOneTurn(s, 0, 1);
    states, steps := RunGoesOn(states, steps, Glance(0), Apply(s, Glance(0)));
    var looked := Apply(Apply(s, Glance(0)), Glance(1));
    states, steps := RunGoesOn(states, steps, Glance(1), looked);
    states, steps := RunGoesOn(states, steps, Take(0), Apply(looked, Take(0)));
    states, steps := RunGoesOn(states, steps, Take(1), taken);
    assert states[|steps|].handed == [] + ["b", "b"];
  }

  lemma TwoConsumersAsk() returns (states: seq<State>, steps: seq<Step>)
    ensures Run(states, steps) && FreshRun(states, steps) && |states| == |steps| + 1
    ensures var s := states[|steps|];
      && s.goal == Goal("a", "b", "b", ["b"], "", false, None) && s.handed == []
      && PcOf(s, 0) == Awaiting("a") == PcOf(s, 1)
  {
    hide Run, FreshRun;
    states, steps := TurnIsPending();
    var s := states[2];
    var asked := s.(consumers := map[0 := Awaiting("a")]);
    states, steps := RunGoesOn(states, steps, Await(0, "a"), asked);
    var waiting := s.(consumers := map[0 := Awaiting("a"), 1 := Awaiting("a")]);
    states, steps := RunGoesOn(states, steps, Await(1, "a"), waiting);
  }

  // ---- what a second announcement does ----

  /** The caller's own turn is at the head: only an error or giving up ends the wait. */
  ghost predicate Blocked(s: State, c: nat) {
    && (PcOf(s, c).Awaiting? || PcOf(s, c).Parked?) && s.goal.failed.None?
    && s.goal.pending != [] && s.goal.pending[0] == PcOf(s, c).previous
  }

  /** Whatever is announced, finished or cleared later, the wait does not end. */
  lemma BlockedStaysBlocked(s: State, step: Step, c: nat)
    requires Sound(s) && OneConsumer(s) && Enabled(s, step) && Blocked(s, c)
    requires step != GiveUp(c) && !step.LoopFails? && !(step.Note? && step.n.Malformed?)
    ensures Blocked(Apply(s, step), c)
  {
    if step.Note? {
      ObserveKeepsConsistent(s.goal, step.n);
      assert Observe(s.goal, step.n).pending[0] == s.goal.pending[0];
    }
  }

  /** A run that announces no turn again after it was handed out. */
  ghost predicate FreshRun(states: seq<State>, steps: seq<Step>) {
    Run(states, steps) && forall i :: 0 <= i < |steps| ==> Fresh(states[i], steps[i])
  }

  lemma RunGoesOn(states: seq<State>, steps: seq<Step>, step: Step, t: State)
    returns (longer: seq<State>, more: seq<Step>)
    requires Run(states, steps) && Enabled(states[|steps|], step) && t == Apply(states[|steps|], step)
    ensures Run(longer, more) && |longer| == |more| + 1 && |more| == |steps| + 1 && longer[|more|] == t
    ensures FreshRun(states, steps) && Fresh(states[|steps|], step) ==> FreshRun(longer, more)
    ensures OneConsumerRun(states, steps) && OneConsumer(t) ==> OneConsumerRun(longer, more)
  {
    hide Apply, Enabled, Fresh, OneConsumer;
    longer, more := states + [t], steps + [step];
  }

  /** The turns "a" and "b" have been announced. */
  lemma TurnIsPending() returns (states: seq<State>, steps: seq<Step>)
    ensures Run(states, steps) && FreshRun(states, steps) && |states| == 3 && |steps| == 2
    ensures states[2] == State(Goal("a", "b", "b", ["b"], "", false, None), map[], true, ["a", "b"], [])
  {
    hide Run, FreshRun;
    states, steps := OnlyInit();
    var s1 := State(Goal("a", "a", "a", [], "", false, None), map[], true, ["a"], []);
    states, steps := RunGoesOn(states, steps, Note(Started("a")), s1);
    var s2 := State(Goal("a", "b", "b", ["b"], "", false, None), map[], true, ["a", "b"], []);
    states, steps := RunGoesOn(states, steps, Note(Started("b")), s2);
  }

  /** The turn "b" is announced, handed out to consumer 0, and announced again. */
  lemma SecondAnnouncement() returns (states: seq<State>, steps: seq<Step>)
    ensures Run(states, steps) && |states| == |steps| + 1
    ensures states[|steps|] == State(
      Goal("a", "b", "b", ["b"], COMPLETE, false, None), map[0 := Idle], true, ["a", "b", "b"], ["b"])
  {
    hide Run;
    states, steps := TurnIsPending();
    var s2 := states[2];
    var s3 := s2.(consumers := map[0 := Awaiting("a")]);
    states, steps := RunGoesOn(states, steps, Await(0, "a"), s3);
    var s4 := s2.(consumers := map[0 := Chosen("b")]);
    states, steps := RunGoesOn(states, steps, Glance(0), s4);
    var s5 := State(s2.goal.(pending := []), map[0 := Idle], true, ["a", "b"], ["b"]);
    states, steps := RunGoesOn(states, steps, Take(0), s5);
    var s6 := s5.(goal := s2.goal.(status := COMPLETE), announced := ["a", "b", "b"]);
    states, steps := RunGoesOn(states, steps, Note(Updated(COMPLETE, "b")), s6);
  }

  lemma OnlyInit() returns (states: seq<State>, steps: seq<Step>)
    ensures Run(states, steps) && FreshRun(states, steps) && OneConsumerRun(states, steps)
    ensures steps == [] && |states| == 1 && states[0] == INIT
  {
    states, steps := [INIT], [];
  }

  /** A blocked consumer is reachable: its turn was announced again after it was handed out. */
  lemma SecondAnnouncementBlocks() returns (states: seq<State>, steps: seq<Step>)
    ensures Run(states, steps) && Sound(states[|steps|]) && Blocked(states[|steps|], 0)
    ensures states[|steps|].goal.status == COMPLETE && states[|steps|].goal.current == ""
  {
    hide Run, Sound;
    states, steps := SecondAnnouncement();
    var s := states[|steps|];
    var completed := s.(goal := s.goal.(current := ""));
    states, steps := RunGoesOn(states, steps, Note(Completed("b")), completed);
    var waiting := completed.(consumers := map[0 := Awaiting("b")]);
    states, steps := RunGoesOn(states, steps, Await(0, "b"), waiting);
    RunIsSoundAtEnd(states, steps);
  }

  lemma RunIsSoundAtEnd(states: seq<State>, steps: seq<Step>)
    requires Run(states, steps)
    ensures |states| == |steps| + 1 && Sound(states[|steps|])
  {
    RunIsSound(states, steps, |steps|);
  }

  // ---- when the wait ends ----

  /** The turn a step makes the current one, if any. */
  ghost function Names(step: Step): string {
    match step
    case Note(n) => Announces(n)
    case Interrupted(turn) => turn
    case _ => ""
  }

  /** The step completes or finishes the turn. */
  ghost predicate Closes(step: Step, turn: string) {
    step == Note(Completed(turn)) || step == Finish(turn)
  }

  /** The i-th step named a turn, and no step after it named another or closed this one. */
  ghost predicate LeftOpen(steps: seq<Step>, n: nat, i: int)
    requires n <= |steps|
  {
    && 0 <= i < n && Names(steps[i]) != ""
    && forall j :: i < j < n ==> Names(steps[j]) == "" && !Closes(steps[j], Names(steps[i]))
  }

  lemma LeftOpenAfter(steps: seq<Step>, n: nat, i: int)
    requires 0 < n <= |steps|
    ensures LeftOpen(steps, n, i) <==>
      if i == n - 1 then Names(steps[i]) != ""
      else LeftOpen(steps, n - 1, i) && Names(steps[n - 1]) == "" && !Closes(steps[n - 1], Names(steps[i]))
  {
  }

  lemma LeftOpenIsBefore(steps: seq<Step>, n: nat, i: int)
    requires n <= |steps| && LeftOpen(steps, n, i)
    ensures 0 <= i < n
  {
  }

  /** The current turn is the last one named, unless it was closed after that. */
  lemma {:induction false} CurrentIsLeftOpen(states: seq<State>, steps: seq<Step>, n: nat)
    requires Run(states, steps) && n < |states|
    ensures states[n].goal.current != "" <==> exists i :: LeftOpen(steps, n, i)
    ensures forall i :: LeftOpen(steps, n, i) ==> Names(steps[i]) == states[n].goal.current
  {
    hide LeftOpen, Apply, Names;
    if n == 0 {
      forall i
        ensures !LeftOpen(steps, 0, i)
      {
        if LeftOpen(steps, 0, i) {
          LeftOpenIsBefore(steps, 0, i);
        }
      }
    } else {
      CurrentIsLeftOpen(states, steps, n - 1);
      var step := steps[n - 1];
      assert states[n - 1 + 1] == Apply(states[n - 1], step);
      StepMovesCurrent(states[n - 1], step);
      forall i
        ensures LeftOpen(steps, n, i) <==>
          if i == n - 1 then Names(step) != ""
          else LeftOpen(steps, n - 1, i) && Names(step) == "" && !Closes(step, states[n - 1].goal.current)
      {
        LeftOpenAfter(steps, n, i);
      }
      if Names(step) != "" {
        assert LeftOpen(steps, n, n - 1);
      } else if states[n - 1].goal.current != "" {
        var i :| LeftOpen(steps, n - 1, i);
        assert i != n - 1 && (LeftOpen(steps, n, i) <==> !Closes(step, states[n - 1].goal.current)) by {
          LeftOpenIsBefore(steps, n - 1, i);
        }
      }
    }
  }

  lemma StepMovesCurrent(s: State, step: Step)
    requires Enabled(s, step)
    ensures Apply(s, step).goal.current ==
      if Names(step) != "" then Names(step)
      else if Closes(step, s.goal.current) then ""
      else s.goal.current
  {
  }

  /**
    The exact condition for the end: nothing failed, nothing is pending, the goal is cleared or
    terminal, and the turn named last was completed or finished after it was named.
   */
  lemma EndsIff(states: seq<State>, steps: seq<Step>, n: nat, previous: string)
    requires Run(states, steps) && n < |states|
    ensures var g := states[n].goal;
      Look(g, previous).Ended? <==>
        && g.failed.None? && g.pending == [] && (g.cleared || Terminal(g.status))
        && forall i :: !LeftOpen(steps, n, i)
  {
    CurrentIsLeftOpen(states, steps, n);
    RunIsSound(states, steps, n);
  }

  /**
    An update that names the turn after its end makes it current again: the goal is complete, nothing
    failed, nothing is pending and no turn was announced again after it was handed out, and the
    consumer waits.
   */
  lemma LateUpdateBlocks() returns (states: seq<State>, steps: seq<Step>)
    ensures OrderlyRun(states, steps) && OneConsumerRun(states, steps)
    ensures var s := states[|steps|]; var g := s.goal;
      && g.status == COMPLETE && g.pending == [] && g.failed.None? && g.current == "a"
      && PcOf(s, 0) == Awaiting("a") && Look(g, "a") == Wait
  {
    hide Run, FreshRun, OneConsumerRun, OrderlyRun;
    states, steps := OnlyInit();
    var s1 := State(Goal("a", "a", "a", [], "", false, None), map[], true, ["a"], []);
    states, steps := RunGoesOn(states, steps, Note(Started("a")), s1);
    var s2 := s1.(goal := s1.goal.(current := ""));
    states, steps := RunGoesOn(states, steps, Note(Completed("a")), s2);
    states, steps := RunGoesOn(states, steps, Finish("a"), s2);
    var s4 := s1.(goal := s1.goal.(status := COMPLETE), announced := ["a", "a"]);
    states, steps := RunGoesOn(states, steps, Note(Updated(COMPLETE, "a")), s4);
    states, steps := RunGoesOn(states, steps, Await(0, "a"), s4.(consumers := map[0 := Awaiting("a")]));
    FreshForOneIsOrderly(states, steps);
  }

  // ---- no notification is lost ----

  /** A consumer that waits although it has something to do finds the signal channel full. */
  ghost predicate Alert(s: State) {
    forall c :: c in s.consumers && s.consumers[c].Parked? && !Look(s.goal, s.consumers[c].previous).Wait? ==> s.signal
  }

  lemma StepKeepsAlert(s: State, step: Step)
    requires Sound(s) && Alert(s) && OneConsumer(s) && Enabled(s, step)
    ensures Alert(Apply(s, step))
  {
  }

  /** With one consumer at a time no notification is lost: whenever a look would not wait, the signal channel is full. */
  lemma {:induction false} NoLostNotification(states: seq<State>, steps: seq<Step>, n: nat)
    requires OneConsumerRun(states, steps) && n < |states|
    ensures Alert(states[n])
  {
    if n > 0 {
      NoLostNotification(states, steps, n - 1);
      RunIsSound(states, steps, n - 1);
      StepKeepsAlert(states[n - 1], steps[n - 1]);
      assert states[n] == states[n - 1 + 1];
    }
  }

  /** With two waiting consumers one is lost, from every state: a failure is one signal, and the first to wake takes it. */
  lemma SecondWaiterIsLost(s: State, c: nat, d: nat, error: string)
    requires c != d && PcOf(s, c).Parked? && PcOf(s, d).Parked?
    ensures var failed := Apply(s, LoopFails(error));
      && Enabled(failed, Wake(c)) && !Alert(Apply(failed, Wake(c)))
      && PcOf(Apply(failed, Wake(c)), d) == PcOf(s, d)
  {
    var t := Apply(Apply(s, LoopFails(error)), Wake(c));
    assert t.consumers[d] == PcOf(s, d) && Look(t.goal, t.consumers[d].previous).Broken?;
  }
}
