/**
  Turns and goals of one thread exclude each other. startTurn and StartGoal run inside a ref-counted
  lock per thread id; StartGoal enters its operation into a shared map that startTurn looks at, and
  the entry outlives the lock: it goes away when the start fails or when the handle is closed.
 */
module ThreadExclusion {
  import opened ThreadTables

  /** How far the callback of withThreadLock has come. */
  datatype Stage =
    | TurnEntry            // startTurn, before it looks at the goals
    | TurnAllowed          // it saw no goal for the thread
    | TurnRequested        // turn/start has been sent
    | GoalEntry            // StartGoal, reading the thread
    | GoalJoined(op: nat)  // its route is registered
    | GoalRefused(op: nat) // the thread has a goal already; the route is about to be closed
    | GoalStarting(op: nat) // the operation is in the map, its first turn is awaited
    | GoalFailing(op: nat) // the start failed; the route is about to be closed
    | GoalRemoving(op: nat) // the entry is about to be deleted
    | Finished

  /** Where a caller of withThreadLock is. */
  datatype Pc =
    | Outside
    | Waiting(thread: string, lock: nat, stage: Stage)  // has the entry, not its mutex
    | Inside(thread: string, lock: nat, stage: Stage)   // runs the callback
    | Leaving(thread: string, lock: nat)                // mutex unlocked, entry not released

  /** A goal handle: Close runs once, first closing the route and then deleting the entry. */
  datatype Phase = Open | Closing | Closed

  /** `ops` is the thread of every operation made so far, `routed` the threads with a goal route. */
  datatype State = State(
    tables: Tables,
    holder: map<nat, nat>,
    callers: map<nat, Pc>,
    ops: seq<string>,
    handles: map<nat, Phase>,
    routed: set<string>)

  datatype Step =
    | Enter(g: nat, thread: string, goal: bool)  // threadLock
    | Lock(g: nat)
    | Callback(g: nat, ok: bool)                 // the callback's next step; `ok` says how a request went
    | Unlock(g: nat)
    | Exit(g: nat)                               // releaseThreadLock
    | CloseHandle(op: nat)                       // GoalHandle.Close closes the route
    | RemoveHandle(op: nat)                      // … and then deletes the entry

  const INIT := State(NO_TABLES, map[], map[], [], map[], {})

  ghost function PcOf(s: State, g: nat): Pc {
    if g in s.callers then s.callers[g] else Outside
  }

  ghost predicate Enabled(s: State, step: Step) {
    match step
    case Enter(g, _, _) => PcOf(s, g).Outside?
    case Lock(g) => PcOf(s, g).Waiting? && PcOf(s, g).lock !in s.holder
    case Callback(g, _) => PcOf(s, g).Inside? && !PcOf(s, g).stage.Finished?
    case Unlock(g) => PcOf(s, g).Inside? && PcOf(s, g).stage.Finished?
    case Exit(g) => PcOf(s, g).Leaving?
    case CloseHandle(op) => op in s.handles && s.handles[op].Open?
    case RemoveHandle(op) => op in s.handles && s.handles[op].Closing?
  }

  ghost function SetPc(s: State, g: nat, pc: Pc): State {
    s.(callers := s.callers[g := pc])
  }

  /** One step of startTurn's or StartGoal's callback, run for `thread`: the new state and stage. */
  ghost function Advance(s: State, thread: string, stage: Stage, ok: bool): (r: (State, Stage))
    requires !stage.Finished?
    ensures r.0.holder == s.holder && r.0.callers == s.callers
    ensures r.0.tables.locks == s.tables.locks && r.0.tables.users == s.tables.users
  {
    match stage
    case TurnEntry => (s, if thread in s.tables.goals then Finished else TurnAllowed)
    case TurnAllowed => (s, if ok then TurnRequested else Finished)
    case TurnRequested => (s, Finished)
    case GoalEntry =>
      if ok then
        (s.(ops := s.ops + [thread], routed := s.routed + {thread}), GoalJoined(|s.ops|))
      else
        (s, Finished)
    case GoalJoined(op) =>
      var (tables, entered) := EnterGoal(s.tables, thread, op);
      (s.(tables := tables), if entered then GoalStarting(op) else GoalRefused(op))
    case GoalRefused(_) => (s.(routed := s.routed - {thread}), Finished)
    case GoalStarting(op) =>
      if ok then (s.(handles := s.handles[op := Open]), Finished) else (s, GoalFailing(op))
    case GoalFailing(op) => (s.(routed := s.routed - {thread}), GoalRemoving(op))
    case GoalRemoving(_) => (s.(tables := DeleteGoal(s.tables, thread)), Finished)
  }

  ghost function Apply(s: State, step: Step): State
    requires Sound(s) && Enabled(s, step)
  {
    match step
    case Enter(g, thread, goal) =>
      var (tables, lock) := JoinLock(s.tables, thread);
      SetPc(s, g, Waiting(thread, lock, if goal then GoalEntry else TurnEntry)).(tables := tables)
    case Lock(g) =>
      var pc := PcOf(s, g);
      SetPc(s, g, Inside(pc.thread, pc.lock, pc.stage)).(holder := s.holder[pc.lock := g])
    case Callback(g, ok) =>
      var pc := PcOf(s, g);
      var (t, stage) := Advance(s, pc.thread, pc.stage, ok);
      SetPc(t, g, Inside(pc.thread, pc.lock, stage))
    case Unlock(g) =>
      SetPc(s, g, Leaving(PcOf(s, g).thread, PcOf(s, g).lock)).(holder := s.holder - {PcOf(s, g).lock})
    case Exit(g) => SetPc(s, g, Outside).(tables := LeaveLock(s.tables, PcOf(s, g).thread, PcOf(s, g).lock))
    case CloseHandle(op) => s.(handles := s.handles[op := Closing], routed := s.routed - {s.ops[op]})
    case RemoveHandle(op) =>
      s.(handles := s.handles[op := Closed], tables := DeleteGoal(s.tables, s.ops[op]))
  }

  // ---- what every reachable state satisfies ----

  /** The callers between threadLock and releaseThreadLock on one entry. */
  ghost function Users(s: State, lock: nat): set<nat> {
    set g | g in s.callers && !s.callers[g].Outside? && s.callers[g].lock == lock
  }

  ghost predicate SoundLocks(s: State) {
    && WellFormed(s.tables)
    && (forall th, u :: th in s.tables.locks && u in s.tables.locks && th != u ==> s.tables.locks[th] != s.tables.locks[u])
    && (forall l :: 0 <= l < |s.tables.users| ==> s.tables.users[l] == |Users(s, l)|)
    && (forall th :: th in s.tables.locks ==> Users(s, s.tables.locks[th]) != {})
    && (forall g :: g in s.callers && !s.callers[g].Outside? ==> SharesEntry(s, s.callers[g]))
  }

  ghost predicate SharesEntry(s: State, pc: Pc)
    requires !pc.Outside?
  {
    pc.thread in s.tables.locks && s.tables.locks[pc.thread] == pc.lock
  }

  ghost predicate SoundMutex(s: State) {
    && (forall l :: l in s.holder ==> PcOf(s, s.holder[l]).Inside? && PcOf(s, s.holder[l]).lock == l)
    && (forall g :: g in s.callers && s.callers[g].Inside? ==>
          s.callers[g].lock in s.holder && s.holder[s.callers[g].lock] == g)
  }

  /** The callback has an operation of its own. */
  ghost predicate HasOp(pc: Pc) {
    pc.Inside? && (pc.stage.GoalJoined? || pc.stage.GoalRefused? || Carries(pc))
  }

  /** … which it has entered into the map and not yet deleted or given to a handle. */
  ghost predicate Carries(pc: Pc) {
    pc.Inside? && (pc.stage.GoalStarting? || pc.stage.GoalFailing? || pc.stage.GoalRemoving?)
  }

  ghost predicate StartsTurn(pc: Pc) {
    pc.Inside? && (pc.stage.TurnAllowed? || pc.stage.TurnRequested?)
  }

  ghost predicate SoundCaller(s: State, pc: Pc) {
    && (pc.Waiting? ==> pc.stage.TurnEntry? || pc.stage.GoalEntry?)
    && (HasOp(pc) ==> pc.stage.op < |s.ops| && s.ops[pc.stage.op] == pc.thread && pc.stage.op !in s.handles)
    && (Carries(pc) ==> pc.thread in s.tables.goals && s.tables.goals[pc.thread] == pc.stage.op)
    && (StartsTurn(pc) ==> pc.thread !in s.tables.goals)
  }

  ghost predicate SoundHandle(s: State, op: nat)
    requires op in s.handles
  {
    && op < |s.ops|
    && (!s.handles[op].Closed? ==> s.ops[op] in s.tables.goals && s.tables.goals[s.ops[op]] == op)
  }

  /** An operation that is being started, or whose handle has not deleted its entry. */
  ghost predicate Live(s: State, op: nat) {
    || (op in s.handles && !s.handles[op].Closed?)
    || exists g :: g in s.callers && Carries(s.callers[g]) && s.callers[g].stage.op == op
  }

  ghost predicate SoundEntry(s: State, thread: string)
    requires thread in s.tables.goals
  {
    var op := s.tables.goals[thread];
    op < |s.ops| && s.ops[op] == thread && Live(s, op)
  }

  ghost predicate SoundGoals(s: State) {
    && (forall g :: g in s.callers ==> SoundCaller(s, s.callers[g]))
    && (forall op :: op in s.handles ==> SoundHandle(s, op))
    && (forall th :: th in s.tables.goals ==> SoundEntry(s, th))
  }

  ghost predicate Sound(s: State) {
    SoundLocks(s) && SoundMutex(s) && SoundGoals(s)
  }

  /** The mutex and the shared entry together leave one callback per thread. */
  lemma OneInside(s: State, g: nat, h: nat)
    requires SoundLocks(s) && SoundMutex(s)
    requires PcOf(s, g).Inside? && PcOf(s, h).Inside? && PcOf(s, g).thread == PcOf(s, h).thread
    ensures g == h
  {
    assert SharesEntry(s, PcOf(s, g)) && SharesEntry(s, PcOf(s, h));
  }

  // ---- the lock table ----

  lemma UsersAfterEnter(s: State, g: nat, thread: string, goal: bool, l: nat)
    requires Sound(s) && PcOf(s, g).Outside?
    ensures var t := Apply(s, Enter(g, thread, goal));
      && l <= |s.tables.users|
      ==> Users(t, l) == if l == t.callers[g].lock then Users(s, l) + {g} else Users(s, l)
    ensures Users(s, |s.tables.users|) == {}
    ensures g !in Users(s, l)
  {
    hide SoundMutex, SoundGoals;
    forall h | h in s.callers
      ensures h !in Users(s, |s.tables.users|)
    {
      assert !s.callers[h].Outside? ==> SharesEntry(s, s.callers[h]);
    }
  }

  lemma EnterCountsUsers(s: State, g: nat, thread: string, goal: bool)
    requires Sound(s) && PcOf(s, g).Outside?
    ensures var t := Apply(s, Enter(g, thread, goal));
      && (forall l :: 0 <= l < |t.tables.users| ==> t.tables.users[l] == |Users(t, l)|)
      && (forall th :: th in t.tables.locks ==> Users(t, t.tables.locks[th]) != {})
  {
    hide SoundMutex, SoundGoals, SharesEntry;
    var t := Apply(s, Enter(g, thread, goal));
    forall l | 0 <= l < |t.tables.users|
      ensures t.tables.users[l] == |Users(t, l)|
    {
      UsersAfterEnter(s, g, thread, goal, l);
    }
    forall th | th in t.tables.locks
      ensures Users(t, t.tables.locks[th]) != {}
    {
      UsersAfterEnter(s, g, thread, goal, t.tables.locks[th]);
    }
  }

  lemma EnterSharesEntries(s: State, g: nat, thread: string, goal: bool)
    requires Sound(s) && PcOf(s, g).Outside?
    ensures var t := Apply(s, Enter(g, thread, goal));
      forall h :: h in t.callers && !t.callers[h].Outside? ==> SharesEntry(t, t.callers[h])
  {
    hide SoundMutex, SoundGoals, Users;
    var t := Apply(s, Enter(g, thread, goal));
    forall h | h in t.callers && !t.callers[h].Outside?
      ensures SharesEntry(t, t.callers[h])
    {
      assert h != g ==> SharesEntry(s, s.callers[h]);
    }
  }

  lemma EnterKeepsLocks(s: State, g: nat, thread: string, goal: bool)
    requires Sound(s) && PcOf(s, g).Outside?
    ensures SoundLocks(Apply(s, Enter(g, thread, goal)))
  {
    hide SoundMutex, SoundGoals, Users, SharesEntry;
    EnterCountsUsers(s, g, thread, goal);
    EnterSharesEntries(s, g, thread, goal);
  }

  lemma CallerShares(s: State, h: nat)
    requires SoundLocks(s) && h in s.callers && !s.callers[h].Outside?
    ensures SharesEntry(s, s.callers[h])
  {
  }

  lemma UsersAfterExit(s: State, g: nat, l: nat)
    requires Sound(s) && PcOf(s, g).Leaving?
    ensures var t := Apply(s, Exit(g)); var lock := PcOf(s, g).lock;
      && Users(t, l) == (if l == lock then Users(s, l) - {g} else Users(s, l))
      && g in Users(s, lock)
  {
    hide SoundMutex, SoundGoals, SharesEntry;
    CallerShares(s, g);
  }

  lemma ExitCountsUsers(s: State, g: nat)
    requires Sound(s) && PcOf(s, g).Leaving?
    ensures var t := Apply(s, Exit(g));
      && (forall l :: 0 <= l < |t.tables.users| ==> t.tables.users[l] == |Users(t, l)|)
      && (forall th :: th in t.tables.locks ==> Users(t, t.tables.locks[th]) != {})
  {
    hide SoundMutex, SoundGoals, Users, SharesEntry;
    var t := Apply(s, Exit(g));
    LockIsAnEntry(s, g);
    forall l | 0 <= l < |t.tables.users|
      ensures t.tables.users[l] == |Users(t, l)|
    {
      UsersAfterExit(s, g, l);
    }
    forall th | th in t.tables.locks
      ensures Users(t, t.tables.locks[th]) != {}
    {
      UsersAfterExit(s, g, t.tables.locks[th]);
    }
  }

  lemma LockIsAnEntry(s: State, g: nat)
    requires SoundLocks(s) && g in s.callers && !s.callers[g].Outside?
    ensures var pc := s.callers[g];
      pc.lock < |s.tables.users| && pc.thread in s.tables.locks && s.tables.locks[pc.thread] == pc.lock
  {
    CallerShares(s, g);
  }

  lemma ExitSharesEntries(s: State, g: nat)
    requires Sound(s) && PcOf(s, g).Leaving?
    ensures var t := Apply(s, Exit(g));
      forall h :: h in t.callers && !t.callers[h].Outside? ==> SharesEntry(t, t.callers[h])
  {
    hide SoundMutex, SoundGoals, Users;
    var t := Apply(s, Exit(g));
    LockIsAnEntry(s, g);
    forall h | h in t.callers && !t.callers[h].Outside?
      ensures SharesEntry(t, t.callers[h])
    {
      CallerShares(s, h);
      if s.callers[h].lock == PcOf(s, g).lock {
        StaysUser(s, g, h);
      }
    }
  }

  /** While another caller has the entry it is not taken out of the map. */
  lemma StaysUser(s: State, g: nat, h: nat)
    requires Sound(s) && PcOf(s, g).Leaving? && h != g && !PcOf(s, h).Outside? && PcOf(s, h).lock == PcOf(s, g).lock
    ensures Apply(s, Exit(g)).tables.locks == s.tables.locks
  {
    hide SoundMutex, SoundGoals, SharesEntry;
    var lock := PcOf(s, g).lock;
    LockIsAnEntry(s, g);
    assert h in Users(s, lock) - {g};
    assert |Users(s, lock) - {g}| == |Users(s, lock)| - 1;
  }

  lemma ExitKeepsLocks(s: State, g: nat)
    requires Sound(s) && PcOf(s, g).Leaving?
    ensures SoundLocks(Apply(s, Exit(g)))
  {
    hide SoundMutex, SoundGoals, Users, SharesEntry;
    LockIsAnEntry(s, g);
    ExitCountsUsers(s, g);
    ExitSharesEntries(s, g);
  }

  /** Steps that only move a caller on leave the callers of each entry as they are. */
  lemma SameUsersKeepLocks(s: State, t: State)
    requires SoundLocks(s)
    requires t.tables.locks == s.tables.locks && t.tables.users == s.tables.users
    requires forall g :: g in t.callers <==> g in s.callers
    requires forall g :: g in s.callers ==> SamePlace(s.callers[g], t.callers[g])
    ensures SoundLocks(t)
  {
    forall l: nat
      ensures Users(t, l) == Users(s, l)
    {
      forall h | h in s.callers
        ensures h in Users(t, l) <==> h in Users(s, l)
      {
        assert SamePlace(s.callers[h], t.callers[h]);
      }
    }
    forall h | h in t.callers && !t.callers[h].Outside?
      ensures SharesEntry(t, t.callers[h])
    {
      assert SamePlace(s.callers[h], t.callers[h]) && SharesEntry(s, s.callers[h]);
    }
  }

  ghost predicate SamePlace(a: Pc, b: Pc) {
    a.Outside? == b.Outside? && (!a.Outside? ==> a.thread == b.thread && a.lock == b.lock)
  }

  lemma StepKeepsLocks(s: State, step: Step)
    requires Sound(s) && Enabled(s, step)
    ensures SoundLocks(Apply(s, step))
  {
    hide SoundMutex, SoundGoals, SoundLocks, Advance;
    match step
    case Enter(g, thread, goal) => EnterKeepsLocks(s, g, thread, goal);
    case Exit(g) => ExitKeepsLocks(s, g);
    case _ => SameUsersKeepLocks(s, Apply(s, step));
  }

  lemma StepKeepsMutex(s: State, step: Step)
    requires Sound(s) && Enabled(s, step)
    ensures SoundMutex(Apply(s, step))
  {
    hide SoundLocks, SoundGoals, Advance;
  }

  // ---- the goals ----

  lemma CallbackKeepsGoals(s: State, g: nat, ok: bool)
    requires Sound(s) && Enabled(s, Callback(g, ok))
    ensures SoundGoals(Apply(s, Callback(g, ok)))
  {
    var t := Apply(s, Callback(g, ok));
    forall h | h in t.callers
      ensures SoundCaller(t, t.callers[h])
    {
      CallbackKeepsCaller(s, g, ok, h);
    }
    forall op | op in t.handles
      ensures SoundHandle(t, op)
    {
      CallbackKeepsHandle(s, g, ok, op);
    }
    forall th | th in t.tables.goals
      ensures SoundEntry(t, th)
    {
      CallbackKeepsEntry(s, g, ok, th);
    }
  }

  /** A callback's step does not disturb the callers of other threads, nor those outside the mutex. */
  lemma AdvanceKeepsOthers(s: State, thread: string, lock: nat, stage: Stage, ok: bool, pc: Pc)
    requires !stage.Finished? && SoundCaller(s, Inside(thread, lock, stage)) && SoundCaller(s, pc)
    requires pc.Inside? ==> pc.thread != thread
    ensures SoundCaller(Advance(s, thread, stage, ok).0, pc)
  {
  }

  lemma AdvanceKeepsItself(s: State, thread: string, lock: nat, stage: Stage, ok: bool)
    requires !stage.Finished? && SoundCaller(s, Inside(thread, lock, stage))
    requires forall op :: op in s.handles ==> op < |s.ops|
    ensures SoundCaller(Advance(s, thread, stage, ok).0, Inside(thread, lock, Advance(s, thread, stage, ok).1))
  {
  }

  lemma CallbackKeepsCaller(s: State, g: nat, ok: bool, h: nat)
    requires Sound(s) && Enabled(s, Callback(g, ok)) && h in s.callers
    ensures SoundCaller(Apply(s, Callback(g, ok)), Apply(s, Callback(g, ok)).callers[h])
  {
    hide Advance;
    var pc := s.callers[g];
    var t := Advance(s, pc.thread, pc.stage, ok).0;
    var u := Apply(s, Callback(g, ok));
    assert SoundCaller(s, s.callers[h]) && SoundCaller(s, pc);
    assert u.tables == t.tables && u.ops == t.ops && u.handles == t.handles;
    if h == g {
      forall op | op in s.handles ensures op < |s.ops| { assert SoundHandle(s, op); }
      AdvanceKeepsItself(s, pc.thread, pc.lock, pc.stage, ok);
    } else {
      if s.callers[h].Inside? && s.callers[h].thread == pc.thread {
        OneInside(s, h, g);
      }
      AdvanceKeepsOthers(s, pc.thread, pc.lock, pc.stage, ok, s.callers[h]);
    }
  }

  lemma CallbackKeepsHandle(s: State, g: nat, ok: bool, op: nat)
    requires Sound(s) && Enabled(s, Callback(g, ok)) && op in Apply(s, Callback(g, ok)).handles
    ensures SoundHandle(Apply(s, Callback(g, ok)), op)
  {
    hide SoundLocks, SoundMutex;
    assert SoundCaller(s, s.callers[g]);
    assert op in s.handles ==> SoundHandle(s, op);
  }

  /** What a callback's step does to a goals entry: only its own is entered, deleted or handed over. */
  lemma AdvanceMovesEntry(s: State, thread: string, lock: nat, stage: Stage, ok: bool, th: string)
    requires !stage.Finished? && SoundCaller(s, Inside(thread, lock, stage))
    requires th in Advance(s, thread, stage, ok).0.tables.goals
    ensures var (t, next) := Advance(s, thread, stage, ok);
      if th !in s.tables.goals then
        th == thread && stage.GoalJoined? && t.tables.goals[th] == stage.op && next == GoalStarting(stage.op)
      else
        && t.tables.goals[th] == s.tables.goals[th]
        && (th == thread && Carries(Inside(thread, lock, stage)) ==>
              || (Carries(Inside(thread, lock, next)) && next.op == stage.op)
              || (stage.op in t.handles && t.handles[stage.op].Open?))
  {
  }

  lemma AdvanceKeepsHandles(s: State, thread: string, lock: nat, stage: Stage, ok: bool)
    requires !stage.Finished? && SoundCaller(s, Inside(thread, lock, stage))
    ensures var t := Advance(s, thread, stage, ok).0;
      && s.ops <= t.ops
      && forall op :: op in s.handles ==> op in t.handles && t.handles[op] == s.handles[op]
  {
  }

  lemma CallbackKeepsEntry(s: State, g: nat, ok: bool, thread: string)
    requires Sound(s) && Enabled(s, Callback(g, ok)) && thread in Apply(s, Callback(g, ok)).tables.goals
    ensures SoundEntry(Apply(s, Callback(g, ok)), thread)
  {
    hide SoundLocks, SoundMutex, Advance;
    var t := Apply(s, Callback(g, ok));
    var pc := s.callers[g];
    var op := t.tables.goals[thread];
    assert SoundCaller(s, pc);
    AdvanceMovesEntry(s, pc.thread, pc.lock, pc.stage, ok, thread);
    AdvanceKeepsHandles(s, pc.thread, pc.lock, pc.stage, ok);
    if thread !in s.tables.goals {
      assert Carries(t.callers[g]) && t.callers[g].stage.op == op;
    } else {
      assert SoundEntry(s, thread);
      if op in s.handles && !s.handles[op].Closed? {
        assert op in t.handles && !t.handles[op].Closed?;
      } else {
        var h :| h in s.callers && Carries(s.callers[h]) && s.callers[h].stage.op == op;
        assert SoundCaller(s, s.callers[h]);
        if h != g {
          assert t.callers[h] == s.callers[h];
        } else if Carries(t.callers[g]) && t.callers[g].stage.op == op {
        } else {
          assert op in t.handles && t.handles[op].Open?;
        }
      }
    }
  }

  lemma HandleStepKeepsGoals(s: State, step: Step)
    requires Sound(s) && Enabled(s, step) && (step.CloseHandle? || step.RemoveHandle?)
    ensures SoundGoals(Apply(s, step))
  {
    hide SoundLocks, SoundMutex, Advance;
    var t := Apply(s, step);
    assert SoundHandle(s, step.op);
    forall h | h in t.callers
      ensures SoundCaller(t, t.callers[h])
    {
      assert SoundCaller(s, s.callers[h]);
    }
    forall op | op in t.handles
      ensures SoundHandle(t, op)
    {
      assert SoundHandle(s, op);
    }
    forall th | th in t.tables.goals
      ensures SoundEntry(t, th)
    {
      assert SoundEntry(s, th);
      LiveStaysLive(s, t, s.tables.goals[th]);
    }
  }

  lemma LiveStaysLive(s: State, t: State, op: nat)
    requires Live(s, op)
    requires forall g :: g in s.callers && Carries(s.callers[g]) ==> g in t.callers && t.callers[g] == s.callers[g]
    requires op in s.handles && !s.handles[op].Closed? ==> op in t.handles && !t.handles[op].Closed?
    ensures Live(t, op)
  {
    if !(op in s.handles && !s.handles[op].Closed?) {
      var g :| g in s.callers && Carries(s.callers[g]) && s.callers[g].stage.op == op;
      assert t.callers[g] == s.callers[g];
    }
  }

  /** Entering and leaving the lock moves one caller that carries no operation. */
  lemma MoveKeepsGoals(s: State, t: State, g: nat)
    requires SoundGoals(s)
    requires t.tables.goals == s.tables.goals && t.ops == s.ops && t.handles == s.handles
    requires g in t.callers && t.callers == s.callers[g := t.callers[g]]
    requires g in s.callers ==> !Carries(s.callers[g])
    requires SoundCaller(t, t.callers[g])
    ensures SoundGoals(t)
  {
    forall h | h in t.callers
      ensures SoundCaller(t, t.callers[h])
    {
      assert h != g ==> SoundCaller(s, s.callers[h]);
    }
    forall op | op in t.handles
      ensures SoundHandle(t, op)
    {
      assert SoundHandle(s, op);
    }
    forall th | th in t.tables.goals
      ensures SoundEntry(t, th)
    {
      assert SoundEntry(s, th);
      LiveStaysLive(s, t, s.tables.goals[th]);
    }
  }

  lemma LockStepKeepsGoals(s: State, step: Step)
    requires Sound(s) && Enabled(s, step) && (step.Enter? || step.Lock? || step.Unlock? || step.Exit?)
    ensures SoundGoals(Apply(s, step))
  {
    hide SoundLocks, SoundMutex, Advance;
    assert step.g in s.callers ==> SoundCaller(s, s.callers[step.g]);
    MoveKeepsGoals(s, Apply(s, step), step.g);
  }

  lemma StepKeepsSound(s: State, step: Step)
    requires Sound(s) && Enabled(s, step)
    ensures Sound(Apply(s, step))
  {
    StepKeepsLocks(s, step);
    StepKeepsMutex(s, step);
    match step
    case Callback(g, ok) => CallbackKeepsGoals(s, g, ok);
    case CloseHandle(_) => HandleStepKeepsGoals(s, step);
    case RemoveHandle(_) => HandleStepKeepsGoals(s, step);
    case _ => LockStepKeepsGoals(s, step);
  }

  ghost predicate Run(states: seq<State>, steps: seq<Step>) {
    && |states| == |steps| + 1
    && states[0] == INIT
    && forall i :: 0 <= i < |steps| && Sound(states[i]) ==>
         Enabled(states[i], steps[i]) && states[i + 1] == Apply(states[i], steps[i])
  }

  lemma {:induction false} RunIsSound(states: seq<State>, steps: seq<Step>, n: nat)
    requires Run(states, steps) && n < |states|
    ensures Sound(states[n])
  {
    if n > 0 {
      RunIsSound(states, steps, n - 1);
      StepKeepsSound(states[n - 1], steps[n - 1]);
    }
  }

  // ---- what holds in every run ----

  /** The callers between threadLock and releaseThreadLock for one thread id. */
  ghost function CallersOf(s: State, thread: string): set<nat> {
    set g | g in s.callers && !s.callers[g].Outside? && s.callers[g].thread == thread
  }

  /**
    All callers between threadLock and releaseThreadLock for one thread id have the entry the map
    holds, `users` is their number, and the entry is there exactly while there are any.
   */
  lemma CallersShareOneEntry(states: seq<State>, steps: seq<Step>, n: nat, thread: string)
    requires Run(states, steps) && n < |states|
    ensures var s := states[n];
      if thread in s.tables.locks then
        && s.tables.locks[thread] < |s.tables.users|
        && s.tables.users[s.tables.locks[thread]] == |CallersOf(s, thread)| > 0
        && forall g :: g in CallersOf(s, thread) ==> s.callers[g].lock == s.tables.locks[thread]
      else
        CallersOf(s, thread) == {}
  {
    var s := states[n];
    RunIsSound(states, steps, n);
    forall g | g in s.callers && !s.callers[g].Outside?
      ensures SharesEntry(s, s.callers[g])
    {
    }
    if thread in s.tables.locks {
      var lock := s.tables.locks[thread];
      forall g | g in s.callers && !s.callers[g].Outside?
        ensures s.callers[g].lock == lock <==> s.callers[g].thread == thread
      {
        assert SharesEntry(s, s.callers[g]);
      }
      assert CallersOf(s, thread) == Users(s, lock);
    }
  }

  /** Two callbacks for one thread id never overlap. */
  lemma CallbacksNeverOverlap(states: seq<State>, steps: seq<Step>, n: nat, g: nat, h: nat)
    requires Run(states, steps) && n < |states|
    requires PcOf(states[n], g).Inside? && PcOf(states[n], h).Inside?
    requires PcOf(states[n], g).thread == PcOf(states[n], h).thread
    ensures g == h
  {
    RunIsSound(states, steps, n);
    OneInside(states[n], g, h);
  }

  lemma LiveHasItsEntry(s: State, op: nat)
    requires Sound(s) && Live(s, op)
    ensures op < |s.ops| && s.ops[op] in s.tables.goals && s.tables.goals[s.ops[op]] == op
  {
    if op in s.handles && !s.handles[op].Closed? {
      assert SoundHandle(s, op);
    } else {
      var g :| g in s.callers && Carries(s.callers[g]) && s.callers[g].stage.op == op;
      assert SoundCaller(s, s.callers[g]);
    }
  }

  /** A thread has at most one live goal operation, and has a goals entry exactly while it has one. */
  lemma OneGoalPerThread(states: seq<State>, steps: seq<Step>, n: nat, thread: string)
    requires Run(states, steps) && n < |states|
    ensures var s := states[n];
      && (forall op: nat :: Live(s, op) && op < |s.ops| && s.ops[op] == thread ==>
            thread in s.tables.goals && s.tables.goals[thread] == op)
      && (thread in s.tables.goals ==>
            var op := s.tables.goals[thread]; op < |s.ops| && s.ops[op] == thread && Live(s, op))
  {
    var s := states[n];
    RunIsSound(states, steps, n);
    forall op: nat | Live(s, op) && op < |s.ops| && s.ops[op] == thread
      ensures thread in s.tables.goals && s.tables.goals[thread] == op
    {
      LiveHasItsEntry(s, op);
    }
    assert thread in s.tables.goals ==> SoundEntry(s, thread);
  }

  /** Inside startTurn's callback, past the look at the goals, or at the end of it. */
  ghost predicate InTurn(pc: Pc, thread: string) {
    pc.Inside? && pc.thread == thread && (pc.stage.TurnAllowed? || pc.stage.TurnRequested? || pc.stage.Finished?)
  }

  lemma TurnStays(s: State, step: Step, g: nat, thread: string)
    requires Sound(s) && Enabled(s, step) && InTurn(PcOf(s, g), thread) && thread !in s.tables.goals
    requires PcOf(Apply(s, step), g).Inside?
    ensures InTurn(PcOf(Apply(s, step), g), thread) && thread !in Apply(s, step).tables.goals
  {
    hide SoundLocks, SoundMutex, SoundGoals;
    GoalsEnteredUnderLock(s, step, thread);
    if thread in Apply(s, step).tables.goals {
      OneInside(s, g, step.g);
    }
  }

  /**
    From the moment startTurn has seen that the thread has no goal, and until its caller unlocks the
    thread, with turn/start sent in between, the thread has no goal operation and none is entered.
   */
  lemma {:induction false} TurnStartExcludesGoals(states: seq<State>, steps: seq<Step>, i: nat, n: nat, g: nat)
    requires Run(states, steps) && i <= n < |states| && StartsTurn(PcOf(states[i], g))
    requires forall k :: i <= k <= n ==> PcOf(states[k], g).Inside?
    ensures var s := states[n]; var thread := PcOf(states[i], g).thread;
      && InTurn(PcOf(s, g), thread)
      && thread !in s.tables.goals
      && (forall op: nat :: Live(s, op) && op < |s.ops| ==> s.ops[op] != thread)
    decreases n
  {
    hide SoundLocks, SoundMutex, SoundGoals, Live, Apply, Enabled, InTurn;
    var s := states[n];
    var thread := PcOf(states[i], g).thread;
    RunIsSound(states, steps, n);
    if i == n {
      TurnSawNoGoal(s, g);
    } else {
      TurnStartExcludesGoals(states, steps, i, n - 1, g);
      RunIsSound(states, steps, n - 1);
      TurnStays(states[n - 1], steps[n - 1], g, thread);
    }
    forall op: nat | Live(s, op) && op < |s.ops|
      ensures s.ops[op] != thread
    {
      LiveHasItsEntry(s, op);
    }
  }

  lemma TurnSawNoGoal(s: State, g: nat)
    requires Sound(s) && StartsTurn(PcOf(s, g))
    ensures InTurn(PcOf(s, g), PcOf(s, g).thread) && PcOf(s, g).thread !in s.tables.goals
  {
    assert SoundCaller(s, s.callers[g]);
  }

  lemma GoalsEnteredUnderLock(s: State, step: Step, thread: string)
    requires Sound(s) && Enabled(s, step) && thread !in s.tables.goals
    ensures thread in Apply(s, step).tables.goals ==>
      step.Callback? && PcOf(s, step.g).thread == thread && PcOf(s, step.g).stage.GoalJoined?
  {
    hide SoundLocks, SoundMutex, SoundGoals;
  }

  /** The step with which operation `op` deletes the goals entry of its thread. */
  ghost predicate Deletes(s: State, step: Step, op: nat) {
    || step == RemoveHandle(op)
    || (step.Callback? && PcOf(s, step.g).Inside? && PcOf(s, step.g).stage == GoalRemoving(op))
  }

  lemma AdvanceLeavesEntry(s: State, thread: string, lock: nat, stage: Stage, ok: bool, th: string)
    requires !stage.Finished? && SoundCaller(s, Inside(thread, lock, stage)) && th in s.tables.goals
    ensures var after := Advance(s, thread, stage, ok).0.tables.goals;
      if stage == GoalRemoving(s.tables.goals[th]) then th == thread ==> th !in after
      else th in after && after[th] == s.tables.goals[th]
  {
  }

  lemma EntryLeavesOnlyByDelete(s: State, step: Step, thread: string)
    requires Sound(s) && Enabled(s, step) && thread in s.tables.goals
    ensures var after := Apply(s, step).tables.goals;
      if Deletes(s, step, s.tables.goals[thread]) then thread !in after
      else thread in after && after[thread] == s.tables.goals[thread]
  {
    hide SoundLocks, SoundMutex, Advance;
    assert SoundEntry(s, thread);
    if step.Callback? {
      var pc := s.callers[step.g];
      assert SoundCaller(s, pc);
      AdvanceLeavesEntry(s, pc.thread, pc.lock, pc.stage, step.ok, thread);
    } else if step.RemoveHandle? {
      assert SoundHandle(s, step.op);
    }
  }

  lemma DeleteTakesOwnEntry(s: State, step: Step, op: nat)
    requires Sound(s) && Enabled(s, step) && Deletes(s, step, op)
    ensures op < |s.ops|
    ensures var before := s.tables.goals;
      && s.ops[op] in before && before[s.ops[op]] == op
      && Apply(s, step).tables.goals == before - {s.ops[op]}
  {
    hide SoundLocks, SoundMutex;
    match step
    case Callback(g, ok) => assert SoundCaller(s, s.callers[g]);
    case RemoveHandle(_) => assert SoundHandle(s, op);
  }

  /** Every delete takes out the deleting operation's own entry; nothing else removes or replaces one. */
  lemma DeleteRemovesOwnEntry(states: seq<State>, steps: seq<Step>, n: nat, op: nat, thread: string)
    requires Run(states, steps) && n < |steps|
    ensures var before, after := states[n].tables.goals, states[n + 1].tables.goals;
      && (Deletes(states[n], steps[n], op) ==>
            && op < |states[n].ops|
            && states[n].ops[op] in before && before[states[n].ops[op]] == op
            && after == before - {states[n].ops[op]})
      && (thread in before ==>
            if Deletes(states[n], steps[n], before[thread]) then thread !in after
            else thread in after && after[thread] == before[thread])
  {
    RunIsSound(states, steps, n);
    if Deletes(states[n], steps[n], op) {
      DeleteTakesOwnEntry(states[n], steps[n], op);
    }
    if thread in states[n].tables.goals {
      EntryLeavesOnlyByDelete(states[n], steps[n], thread);
    }
  }
}
