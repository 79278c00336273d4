/**
  Who keeps and who loses a goal's route. StartGoal registers the route of its thread before it looks
  whether the thread has a goal, and every operation of the thread closes the same route.
 */
module ThreadRoutes {
  import opened Wrappers
  import opened ThreadTables
  import opened ThreadExclusion

  /** The step closes the goal route of a thread on behalf of operation `op`. */
  ghost predicate ClosesRoute(s: State, step: Step, op: nat) {
    || step == CloseHandle(op)
    || (step.Callback? && PcOf(s, step.g).Inside?
          && (PcOf(s, step.g).stage == GoalFailing(op) || PcOf(s, step.g).stage == GoalRefused(op)))
  }

  /**
    A thread's goal route disappears only when an operation of that thread closes it: the one in the
    map, or one that was refused because of it.
   */
  lemma RouteClosedByOwnerOrRefusal(states: seq<State>, steps: seq<Step>, n: nat, thread: string)
    requires Run(states, steps) && n < |steps|
    ensures thread in states[n].routed && thread !in states[n + 1].routed ==>
      || (thread in states[n].tables.goals && ClosesRoute(states[n], steps[n], states[n].tables.goals[thread]))
      || (steps[n].Callback? && PcOf(states[n], steps[n].g).Inside?
            && PcOf(states[n], steps[n].g).thread == thread && PcOf(states[n], steps[n].g).stage.GoalRefused?)
  {
    hide SoundLocks, SoundMutex;
    var s, step := states[n], steps[n];
    RunIsSound(states, steps, n);
    assert step.CloseHandle? ==> SoundHandle(s, step.op);
    if step.Callback? {
      assert SoundCaller(s, s.callers[step.g]);
    }
  }

  // ---- exactly when a goal has its route ----

  /** The operation has joined the route and neither been refused nor begun to end. */
  ghost predicate Going(s: State, op: nat) {
    || (op in s.handles && s.handles[op].Open?)
    || exists g :: g in s.callers && Starts(s.callers[g], op)
  }

  ghost predicate Starts(pc: Pc, op: nat) {
    pc.Inside? && (pc.stage == GoalJoined(op) || pc.stage == GoalStarting(op))
  }

  /** Another StartGoal of the thread has registered the route and not yet been refused and closed it. */
  ghost predicate Visited(s: State, thread: string, op: nat) {
    exists g :: g in s.callers && Visits(s.callers[g], thread, op)
  }

  ghost predicate Visits(pc: Pc, thread: string, op: nat) {
    pc.Inside? && pc.thread == thread && (pc.stage.GoalJoined? || pc.stage.GoalRefused?) && pc.stage.op != op
  }

  /**
    The step takes the route away from operation `op`: before `op` is in the map, the handle of the
    operation that is there is closed; afterwards, another operation is refused.
   */
  ghost predicate Cuts(s: State, step: Step, thread: string, op: nat) {
    if thread in s.tables.goals && s.tables.goals[thread] == op then
      step.Callback? && PcOf(s, step.g).Inside? && PcOf(s, step.g).thread == thread && PcOf(s, step.g).stage.GoalRefused?
    else
      step.CloseHandle? && thread in s.tables.goals && s.tables.goals[thread] == step.op
  }

  /** The i-th step is the registerGoal of operation `op`. */
  ghost predicate Joins(states: seq<State>, i: nat, op: nat)
    requires i + 1 < |states|
  {
    |states[i].ops| == op && |states[i + 1].ops| == op + 1
  }

  lemma GoingOwns(s: State, op: nat)
    requires Sound(s) && Going(s, op)
    ensures op < |s.ops|
    ensures op in s.handles ==> s.handles[op].Open? && s.ops[op] in s.tables.goals && s.tables.goals[s.ops[op]] == op
    ensures op !in s.handles ==> exists g :: g in s.callers && Starts(s.callers[g], op) && s.callers[g].thread == s.ops[op]
  {
    hide SoundLocks, SoundMutex;
    if op in s.handles {
      assert SoundHandle(s, op);
    }
    if exists g :: g in s.callers && Starts(s.callers[g], op) {
      var g :| g in s.callers && Starts(s.callers[g], op);
      assert SoundCaller(s, s.callers[g]);
    }
  }

  /** An operation that is going has been going since it joined. */
  lemma WasGoing(s: State, step: Step, op: nat)
    requires Sound(s) && Enabled(s, step) && op < |s.ops| && Going(Apply(s, step), op)
    ensures Going(s, op)
  {
    hide SoundLocks, SoundMutex;
    var t := Apply(s, step);
    if op in t.handles && t.handles[op].Open? {
      if !(op in s.handles && s.handles[op].Open?) {
        assert Starts(s.callers[step.g], op);
      }
    } else {
      var g :| g in t.callers && Starts(t.callers[g], op);
      assert g in s.callers && Starts(s.callers[g], op) by {
        if g in s.callers && s.callers[g] != t.callers[g] {
          assert SoundCaller(s, s.callers[g]);
        }
      }
    }
  }

  /** The route is there exactly if it was never cut, or another StartGoal has just registered it again. */
  ghost predicate RouteLaw(s: State, thread: string, op: nat, uncut: bool) {
    thread in s.routed <==> Visited(s, thread, op) || uncut
  }

  /** Steps that leave the callbacks of the thread alone. */
  lemma SameVisitors(s: State, t: State, thread: string, op: nat)
    requires forall g :: g in s.callers && Visits(s.callers[g], thread, op) ==> g in t.callers && t.callers[g] == s.callers[g]
    requires forall g :: g in t.callers && Visits(t.callers[g], thread, op) ==> g in s.callers && t.callers[g] == s.callers[g]
    ensures Visited(t, thread, op) == Visited(s, thread, op)
  {
    if Visited(s, thread, op) {
      var g :| g in s.callers && Visits(s.callers[g], thread, op);
      assert Visits(t.callers[g], thread, op);
    }
    if Visited(t, thread, op) {
      var g :| g in t.callers && Visits(t.callers[g], thread, op);
      assert Visits(s.callers[g], thread, op);
    }
  }

  /** While a callback of the thread runs, no other one can be the visitor, nor the start of an operation. */
  lemma OnlyThisCallback(s: State, g: nat, op: nat)
    requires Sound(s) && PcOf(s, g).Inside?
    ensures Visited(s, PcOf(s, g).thread, op) <==> Visits(s.callers[g], PcOf(s, g).thread, op)
    ensures Going(s, op) && op < |s.ops| && s.ops[op] == PcOf(s, g).thread && op !in s.handles ==> Starts(s.callers[g], op)
  {
    hide SoundLocks, SoundMutex, SoundGoals;
    var thread := PcOf(s, g).thread;
    if Visited(s, thread, op) {
      var h :| h in s.callers && Visits(s.callers[h], thread, op);
      OneInside(s, g, h);
    }
    if Going(s, op) && op < |s.ops| && s.ops[op] == thread && op !in s.handles {
      GoingOwns(s, op);
      var h :| h in s.callers && Starts(s.callers[h], op) && s.callers[h].thread == thread;
      OneInside(s, g, h);
    }
  }

  lemma CallbackMovesRoute(s: State, g: nat, ok: bool, op: nat, uncut: bool)
    requires Sound(s) && Enabled(s, Callback(g, ok)) && op < |s.ops| && PcOf(s, g).thread == s.ops[op]
    requires Going(s, op) && Going(Apply(s, Callback(g, ok)), op)
    requires RouteLaw(s, s.ops[op], op, uncut)
    ensures RouteLaw(Apply(s, Callback(g, ok)), s.ops[op], op, uncut && !Cuts(s, Callback(g, ok), s.ops[op], op))
  {
    hide SoundLocks, SoundMutex, SoundGoals, Visited, Going;
    var t := Apply(s, Callback(g, ok));
    StepKeepsSound(s, Callback(g, ok));
    GoingOwns(s, op);
    GoingOwns(t, op);
    OnlyThisCallback(s, g, op);
    OnlyThisCallback(t, g, op);
    CallerIsSound(s, g);
  }

  lemma CallerIsSound(s: State, g: nat)
    requires Sound(s) && g in s.callers
    ensures SoundCaller(s, s.callers[g])
  {
  }

  /** The step runs no callback of the thread and closes no handle of it. */
  ghost predicate Elsewhere(s: State, step: Step, thread: string)
    requires Sound(s) && Enabled(s, step)
  {
    && (step.Callback? ==> PcOf(s, step.g).thread != thread)
    && (step.CloseHandle? ==> SoundHandle(s, step.op) && s.ops[step.op] != thread)
  }

  lemma ElsewhereKeepsRoute(s: State, step: Step, op: nat, uncut: bool)
    requires Sound(s) && Enabled(s, step) && op < |s.ops| && Elsewhere(s, step, s.ops[op])
    requires Going(s, op) && RouteLaw(s, s.ops[op], op, uncut)
    ensures RouteLaw(Apply(s, step), s.ops[op], op, uncut && !Cuts(s, step, s.ops[op], op))
  {
    hide SoundLocks, SoundMutex, SoundGoals, Visited, Going;
    if step.Lock? {
      CallerIsSound(s, step.g);
    }
    SameVisitors(s, Apply(s, step), s.ops[op], op);
    if s.ops[op] in s.tables.goals {
      EntryIsSound(s, s.ops[op]);
    }
  }

  lemma EntryIsSound(s: State, thread: string)
    requires Sound(s) && thread in s.tables.goals
    ensures SoundEntry(s, thread)
  {
  }

  lemma CloseMovesRoute(s: State, owner: nat, op: nat, uncut: bool)
    requires Sound(s) && Enabled(s, CloseHandle(owner)) && op < |s.ops| && owner < |s.ops| && s.ops[owner] == s.ops[op]
    requires Going(s, op) && Going(Apply(s, CloseHandle(owner)), op)
    ensures RouteLaw(Apply(s, CloseHandle(owner)), s.ops[op], op, uncut && !Cuts(s, CloseHandle(owner), s.ops[op], op))
  {
    hide SoundLocks, SoundMutex, SoundGoals, Visited, Going;
    var t := Apply(s, CloseHandle(owner));
    HandleIsSound(s, owner);
    StepKeepsSound(s, CloseHandle(owner));
    GoingOwns(t, op);
    var g :| g in t.callers && Starts(t.callers[g], op) && t.callers[g].thread == t.ops[op];
    OnlyThisCallback(t, g, op);
  }

  lemma HandleIsSound(s: State, op: nat)
    requires Sound(s) && op in s.handles
    ensures SoundHandle(s, op)
  {
  }

  lemma StepMovesRoute(s: State, step: Step, op: nat, uncut: bool)
    requires Sound(s) && Enabled(s, step) && op < |s.ops| && Going(Apply(s, step), op)
    requires Going(s, op) && RouteLaw(s, s.ops[op], op, uncut)
    ensures RouteLaw(Apply(s, step), s.ops[op], op, uncut && !Cuts(s, step, s.ops[op], op))
  {
    hide SoundLocks, SoundMutex, SoundGoals, Visited, Going, RouteLaw, Apply, Cuts;
    if step.CloseHandle? {
      HandleIsSound(s, step.op);
    }
    if step.Callback? && PcOf(s, step.g).thread == s.ops[op] {
      CallbackMovesRoute(s, step.g, step.ok, op, uncut);
    } else if step.CloseHandle? && s.ops[step.op] == s.ops[op] {
      CloseMovesRoute(s, step.op, op, uncut);
    } else {
      ElsewhereKeepsRoute(s, step, op, uncut);
    }
  }

  /** Operations are numbered as they join and keep their thread. */
  lemma StepKeepsOps(s: State, step: Step)
    requires Sound(s) && Enabled(s, step)
    ensures s.ops <= Apply(s, step).ops
  {
    hide SoundLocks, SoundMutex, SoundGoals;
  }

  lemma {:induction false} GoingSinceJoined(states: seq<State>, steps: seq<Step>, i: nat, k: nat, n: nat, op: nat)
    requires Run(states, steps) && i < k <= n < |states|
    requires Joins(states, i, op) && Going(states[n], op)
    ensures Sound(states[k]) && states[i + 1].ops <= states[k].ops && Going(states[k], op)
    decreases n - k
  {
    hide SoundLocks, SoundMutex, SoundGoals, Apply, Going, Enabled;
    RunIsSound(states, steps, k);
    OpsOnlyGrow(states, steps, i + 1, k);
    if k < n {
      GoingSinceJoined(states, steps, i, k + 1, n, op);
      WasGoing(states[k], steps[k], op);
    }
  }

  lemma {:induction false} OpsOnlyGrow(states: seq<State>, steps: seq<Step>, j: nat, k: nat)
    requires Run(states, steps) && j <= k < |states|
    ensures states[j].ops <= states[k].ops
  {
    hide SoundLocks, SoundMutex, SoundGoals, Apply, Enabled;
    if j < k {
      OpsOnlyGrow(states, steps, j, k - 1);
      RunIsSound(states, steps, k - 1);
      StepKeepsOps(states[k - 1], steps[k - 1]);
    }
  }

  /** No step between the i-th and the n-th cut the route of operation `op`. */
  ghost predicate Uncut(states: seq<State>, steps: seq<Step>, i: nat, n: nat, thread: string, op: nat)
    requires n <= |steps| < |states|
  {
    forall j :: i < j < n ==> !Cuts(states[j], steps[j], thread, op)
  }

  /** The step that makes an operation registers the route. */
  lemma JoinOpensRoute(s: State, step: Step)
    requires Sound(s) && Enabled(s, step) && |Apply(s, step).ops| == |s.ops| + 1
    ensures var t := Apply(s, step); t.ops[|s.ops|] in t.routed
  {
    hide SoundLocks, SoundMutex, SoundGoals;
  }

  /**
    The exact condition, over every run: an operation that joined at step i and is still going has its
    route after n steps if and only if no step since then cut it, or another StartGoal of the thread
    is just now between registering the route and being refused.
   */
  lemma {:induction false} HasRouteIff(states: seq<State>, steps: seq<Step>, i: nat, n: nat, op: nat)
    requires Run(states, steps) && i < n < |states| && Joins(states, i, op) && Going(states[n], op)
    ensures op < |states[n].ops|
    ensures var thread := states[n].ops[op];
      RouteLaw(states[n], thread, op, Uncut(states, steps, i, n, thread, op))
  {
    hide SoundLocks, SoundMutex, SoundGoals, Apply, Going, Enabled, RouteLaw, Cuts;
    GoingSinceJoined(states, steps, i, n, n, op);
    if n == i + 1 {
      RunIsSound(states, steps, i);
      JoinOpensRoute(states[i], steps[i]);
      UncutAtFirst(states[n], states[n].ops[op], op, Uncut(states, steps, i, n, states[n].ops[op], op));
    } else {
      var s, step := states[n - 1], steps[n - 1];
      GoingSinceJoined(states, steps, i, n - 1, n, op);
      HasRouteIff(states, steps, i, n - 1, op);
      var uncut := Uncut(states, steps, i, n - 1, s.ops[op], op);
      StepMovesRoute(s, step, op, uncut);
      StepKeepsOps(s, step);
      assert Uncut(states, steps, i, n, s.ops[op], op) == (uncut && !Cuts(s, step, s.ops[op], op));
    }
  }

  lemma UncutAtFirst(s: State, thread: string, op: nat, uncut: bool)
    requires thread in s.routed && uncut
    ensures RouteLaw(s, thread, op, uncut)
  {
  }

  // ---- both ways of losing it, from every state with an open handle ----

  /** Where the steps lead from a state, if each can be taken. */
  ghost function Played(s: State, steps: seq<Step>): Option<State> {
    if steps == [] then
      Some(s)
    else
      match Played(s, steps[..|steps| - 1])
      case None => None
      case Some(t) =>
        var step := steps[|steps| - 1];
        if Sound(t) && Enabled(t, step) then Some(Apply(t, step)) else None
  }

  lemma PlayOn(s: State, steps: seq<Step>, t: State, step: Step)
    requires Played(s, steps) == Some(t) && Sound(t) && Enabled(t, step)
    ensures Played(s, steps + [step]) == Some(Apply(t, step)) && Sound(Apply(t, step))
  {
    assert (steps + [step])[..|steps|] == steps;
    StepKeepsSound(t, step);
  }

  /** One successful callback step, by its effect. */
  lemma RunCallback(s: State, steps: seq<Step>, t: State, g: nat) returns (u: State)
    requires Played(s, steps) == Some(t) && Sound(t) && PcOf(t, g).Inside? && !PcOf(t, g).stage.Finished?
    ensures Played(s, steps + [Callback(g, true)]) == Some(u) && Sound(u)
    ensures u.holder == t.holder && u.callers == t.callers[g := PcOf(u, g)]
    ensures var pc := PcOf(t, g); var (v, stage) := Advance(t, pc.thread, pc.stage, true);
      && PcOf(u, g) == Inside(pc.thread, pc.lock, stage)
      && u.tables == v.tables && u.handles == v.handles && u.routed == v.routed && u.ops == v.ops
  {
    hide SoundLocks, SoundMutex, SoundGoals, Advance, Played;
    PlayOn(s, steps, t, Callback(g, true));
    u := Apply(t, Callback(g, true));
  }

  lemma RunClose(s: State, steps: seq<Step>, t: State, op: nat) returns (u: State)
    requires Played(s, steps) == Some(t) && Sound(t) && op in t.handles && t.handles[op].Open?
    ensures Played(s, steps + [CloseHandle(op), RemoveHandle(op)]) == Some(u) && Sound(u)
    ensures op < |t.ops| && u.ops == t.ops && u.callers == t.callers && u.handles == t.handles[op := Closed]
    ensures u.tables == DeleteGoal(t.tables, t.ops[op]) && u.routed == t.routed - {t.ops[op]}
  {
    hide SoundLocks, SoundMutex, SoundGoals, Advance, Played;
    HandleIsSound(t, op);
    PlayOn(s, steps, t, CloseHandle(op));
    var closing := Apply(t, CloseHandle(op));
    PlayOn(s, steps + [CloseHandle(op)], closing, RemoveHandle(op));
    u := Apply(closing, RemoveHandle(op));
    assert steps + [CloseHandle(op)] + [RemoveHandle(op)] == steps + [CloseHandle(op), RemoveHandle(op)];
  }

  lemma HeldEntriesExist(s: State)
    requires SoundLocks(s) && SoundMutex(s)
    ensures forall l :: l in s.holder ==> l < |s.tables.users|
  {
    forall l | l in s.holder
      ensures l < |s.tables.users|
    {
      assert PcOf(s, s.holder[l]).Inside?;
      assert SharesEntry(s, s.callers[s.holder[l]]);
    }
  }

  ghost predicate LockIsFree(s: State, thread: string) {
    thread in s.tables.locks ==> s.tables.locks[thread] !in s.holder
  }

  lemma EnterAndLock(s: State, g: nat, thread: string) returns (t: State)
    requires Sound(s) && PcOf(s, g).Outside? && LockIsFree(s, thread)
    ensures Played(s, [Enter(g, thread, true), Lock(g)]) == Some(t) && Sound(t)
    ensures PcOf(t, g).Inside? && PcOf(t, g).thread == thread && PcOf(t, g).stage == GoalEntry
    ensures t.handles == s.handles && t.tables.goals == s.tables.goals && t.routed == s.routed && t.ops == s.ops
    ensures t.holder == s.holder[PcOf(t, g).lock := g] && t.callers == s.callers[g := PcOf(t, g)]
  {
    hide SoundGoals, SoundMutex, SoundLocks;
    PlayOn(s, [], s, Enter(g, thread, true));
    t := Apply(s, Enter(g, thread, true));
    HeldEntriesExist(s);
    PlayOn(s, [Enter(g, thread, true)], t, Lock(g));
    t := Apply(t, Lock(g));
  }

  /**
    A refused StartGoal does not leave the running goal as it was: from every state with an open
    handle and an unlocked thread, one more StartGoal call, refused, takes the running goal's route
    away while its handle stays open and its entry stays in the map.
   */
  lemma RefusalCutsRunningGoal(s: State, op: nat, g: nat) returns (t: State)
    requires Sound(s) && PcOf(s, g).Outside?
    requires op in s.handles && s.handles[op].Open? && op < |s.ops| && LockIsFree(s, s.ops[op])
    ensures Played(s, [Enter(g, s.ops[op], true), Lock(g), Callback(g, true), Callback(g, true), Callback(g, true)]) == Some(t)
    ensures PcOf(t, g).Inside? && PcOf(t, g).stage.Finished?
    ensures t.handles == s.handles && t.tables.goals == s.tables.goals
    ensures s.ops[op] in t.tables.goals && t.tables.goals[s.ops[op]] == op
    ensures s.ops[op] !in t.routed
  {
    hide SoundLocks, SoundMutex, SoundGoals, Apply, Played;
    HandleIsSound(s, op);
    var begin, call := [Enter(g, s.ops[op], true), Lock(g)], [Callback(g, true)];
    t := EnterAndLock(s, g, s.ops[op]);
    t := RunCallback(s, begin, t, g);
    t := RunCallback(s, begin + call, t, g);
    t := RunCallback(s, begin + call + call, t, g);
    assert begin + call + call + call ==
      [Enter(g, s.ops[op], true), Lock(g), Callback(g, true), Callback(g, true), Callback(g, true)];
  }

  /**
    Without any refusal: a StartGoal call joins the route, the handle of the goal before it is closed
    and removed, and the call finds no goal and enters its own. It returns an open handle without a
    route.
   */
  lemma CloseCutsNextGoal(s: State, op: nat, g: nat) returns (t: State)
    requires Sound(s) && PcOf(s, g).Outside?
    requires op in s.handles && s.handles[op].Open? && op < |s.ops| && LockIsFree(s, s.ops[op])
    ensures Played(s,
      [Enter(g, s.ops[op], true), Lock(g), Callback(g, true), CloseHandle(op), RemoveHandle(op), Callback(g, true), Callback(g, true)]
    ) == Some(t)
    ensures PcOf(t, g).Inside? && PcOf(t, g).stage.Finished?
    ensures |s.ops| in t.handles && t.handles[|s.ops|].Open?
    ensures s.ops[op] in t.tables.goals && t.tables.goals[s.ops[op]] == |s.ops|
    ensures s.ops[op] !in t.routed
  {
    hide SoundLocks, SoundMutex, SoundGoals, Apply, Played;
    HandleIsSound(s, op);
    var begin, call, close := [Enter(g, s.ops[op], true), Lock(g)], [Callback(g, true)], [CloseHandle(op), RemoveHandle(op)];
    t := EnterAndLock(s, g, s.ops[op]);
    t := RunCallback(s, begin, t, g);
    t := RunClose(s, begin + call, t, op);
    t := RunCallback(s, begin + call + close, t, g);
    t := RunCallback(s, begin + call + close + call, t, g);
    assert begin + call + close + call + call ==
      [Enter(g, s.ops[op], true), Lock(g), Callback(g, true), CloseHandle(op), RemoveHandle(op), Callback(g, true), Callback(g, true)];
  }

  /** A state to start both from: caller 0 has started a goal on the thread and left. */
  lemma GoalIsOpened(thread: string) returns (steps: seq<Step>, s: State)
    ensures Played(INIT, steps) == Some(s) && Sound(s)
    ensures s.ops == [thread] && 0 in s.handles && s.handles[0].Open? && thread in s.routed
    ensures LockIsFree(s, thread) && forall g :: PcOf(s, g).Outside?
  {
    hide SoundLocks, SoundMutex, SoundGoals, Played;
    var call := [Callback(0, true)];
    steps := [Enter(0, thread, true), Lock(0)];
    InitIsSound();
    s := EnterAndLock(INIT, 0, thread);
    s := RunCallback(INIT, steps, s, 0);
    s := RunCallback(INIT, steps + call, s, 0);
    s := RunCallback(INIT, steps + call + call, s, 0);
    steps := steps + call + call + call;
    PlayOn(INIT, steps, s, Unlock(0));
    PlayOn(INIT, steps + [Unlock(0)], Apply(s, Unlock(0)), Exit(0));
    s := Apply(Apply(s, Unlock(0)), Exit(0));
    steps := steps + [Unlock(0)] + [Exit(0)];
  }

  lemma InitIsSound()
    ensures Sound(INIT)
  {
  }

  // ---- no route outlives its operations ----

  /** The callback has registered the thread's route and still has to close it or hand it over. */
  ghost predicate HoldsRoute(pc: Pc, thread: string) {
    && pc.Inside? && pc.thread == thread
    && (pc.stage.GoalJoined? || pc.stage.GoalRefused? || pc.stage.GoalStarting? || pc.stage.GoalFailing?)
  }

  ghost predicate OpenHandle(s: State, thread: string, op: nat) {
    op in s.handles && s.handles[op].Open? && op < |s.ops| && s.ops[op] == thread
  }

  ghost predicate RouteHeld(s: State, thread: string) {
    (exists op :: OpenHandle(s, thread, op)) || (exists g :: g in s.callers && HoldsRoute(s.callers[g], thread))
  }

  lemma StepKeepsRouteHeld(s: State, step: Step, thread: string)
    requires Sound(s) && Enabled(s, step) && (thread in s.routed ==> RouteHeld(s, thread))
    ensures thread in Apply(s, step).routed ==> RouteHeld(Apply(s, step), thread)
  {
    hide SoundLocks, SoundMutex, SoundGoals;
    var t := Apply(s, step);
    if thread in t.routed {
      if step.Callback? && s.callers[step.g].thread == thread {
        CallbackHoldsRoute(s, step.g, step.ok);
      } else if exists op :: OpenHandle(s, thread, op) {
        var op :| OpenHandle(s, thread, op);
        assert OpenHandle(t, thread, op);
      } else {
        var g :| g in s.callers && HoldsRoute(s.callers[g], thread);
        assert g in t.callers && HoldsRoute(t.callers[g], thread);
      }
    }
  }

  lemma CallbackHoldsRoute(s: State, g: nat, ok: bool)
    requires Sound(s) && Enabled(s, Callback(g, ok))
    requires var thread := s.callers[g].thread;
      && thread in Apply(s, Callback(g, ok)).routed && (thread in s.routed ==> RouteHeld(s, thread))
    ensures RouteHeld(Apply(s, Callback(g, ok)), s.callers[g].thread)
  {
    hide SoundLocks, SoundMutex, SoundGoals;
    var thread, t := s.callers[g].thread, Apply(s, Callback(g, ok));
    CallerIsSound(s, g);
    if HoldsRoute(t.callers[g], thread) {
    } else if HoldsRoute(s.callers[g], thread) {
      assert OpenHandle(t, thread, s.callers[g].stage.op);
    } else if exists op :: OpenHandle(s, thread, op) {
      var op :| OpenHandle(s, thread, op);
      assert OpenHandle(t, thread, op);
    } else {
      var h :| h in s.callers && HoldsRoute(s.callers[h], thread);
      assert h in t.callers && HoldsRoute(t.callers[h], thread);
    }
  }

  /**
    In every run a goal route is only there while an operation of its thread is being started, failing or
    refused, or has an open handle: a start that fails and a handle that is closed leave none behind.
   */
  lemma {:induction false} NoOrphanRoute(states: seq<State>, steps: seq<Step>, n: nat, thread: string)
    requires Run(states, steps) && n < |states|
    ensures thread in states[n].routed ==> RouteHeld(states[n], thread)
  {
    if n > 0 {
      RunIsSound(states, steps, n - 1);
      NoOrphanRoute(states, steps, n - 1, thread);
      StepKeepsRouteHeld(states[n - 1], steps[n - 1], thread);
      assert states[n] == states[n - 1 + 1];
    }
  }
}
