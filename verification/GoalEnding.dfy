/** What ends the wait for a continuation, read off the steps of a run and not off the operation's fields. */
module GoalEnding {
  import opened Wrappers
  import opened GoalState
  import opened GoalMachine

  /** The statuses in which a goal does not go on. */
  predicate Over(status: string) {
    || status == "paused" || status == "blocked" || status == "usageLimited"
    || status == "budgetLimited" || status == "complete"
  }

  ghost predicate Reports(step: Step) {
    step.Note? && step.n.Updated?
  }

  ghost predicate Revives(step: Step) {
    Reports(step) && step.n.status == "active"
  }

  ghost predicate Errs(step: Step) {
    step.LoopFails? || (step.Note? && step.n.Malformed?)
  }

  ghost function ErrorOf(step: Step): string
    requires Errs(step)
  {
    if step.LoopFails? then step.error else step.n.error
  }

  /** The i-th step is the last update among the first n. */
  ghost predicate LastReport(steps: seq<Step>, n: nat, i: int)
    requires n <= |steps|
  {
    0 <= i < n && Reports(steps[i]) && forall j :: i < j < n ==> !Reports(steps[j])
  }

  /** The i-th step clears the goal, and no update to "active" follows. */
  ghost predicate StaysCleared(steps: seq<Step>, n: nat, i: int)
    requires n <= |steps|
  {
    0 <= i < n && steps[i] == Note(Cleared) && forall j :: i < j < n ==> !Revives(steps[j])
  }

  ghost predicate FirstError(steps: seq<Step>, n: nat, i: int)
    requires n <= |steps|
  {
    0 <= i < n && Errs(steps[i]) && forall j :: 0 <= j < i ==> !Errs(steps[j])
  }

  lemma LastReportAfter(steps: seq<Step>, n: nat, i: int)
    requires 0 < n <= |steps|
    ensures LastReport(steps, n, i) <==>
      if Reports(steps[n - 1]) then i == n - 1 else LastReport(steps, n - 1, i)
  {
  }

  lemma StaysClearedAfter(steps: seq<Step>, n: nat, i: int)
    requires 0 < n <= |steps|
    ensures StaysCleared(steps, n, i) <==>
      if i == n - 1 then steps[n - 1] == Note(Cleared) else StaysCleared(steps, n - 1, i) && !Revives(steps[n - 1])
  {
  }

  lemma StepMovesStatus(s: State, step: Step)
    requires Enabled(s, step)
    ensures var g := Apply(s, step).goal;
      && g.status == (if Reports(step) then step.n.status else s.goal.status)
      && g.cleared == (step == Note(Cleared) || (s.goal.cleared && !Revives(step)))
      && g.failed == (if s.goal.failed.None? && Errs(step) then Some(ErrorOf(step)) else s.goal.failed)
  {
  }

  /** The status is the one reported last; before any report there is none. */
  lemma {:induction false} StatusIsLastReport(states: seq<State>, steps: seq<Step>, n: nat)
    requires Run(states, steps) && n < |states|
    ensures forall i :: LastReport(steps, n, i) ==> states[n].goal.status == steps[i].n.status
    ensures states[n].goal.status == "" || exists i :: LastReport(steps, n, i)
  {
    hide LastReport, Reports, Apply;
    if n > 0 {
      StatusIsLastReport(states, steps, n - 1);
      assert states[n - 1 + 1] == Apply(states[n - 1], steps[n - 1]);
      StepMovesStatus(states[n - 1], steps[n - 1]);
      forall i
        ensures LastReport(steps, n, i) <==> if Reports(steps[n - 1]) then i == n - 1 else LastReport(steps, n - 1, i)
      {
        LastReportAfter(steps, n, i);
      }
      if Reports(steps[n - 1]) {
        assert LastReport(steps, n, n - 1);
      } else if states[n - 1].goal.status != "" {
        var i :| LastReport(steps, n - 1, i);
        assert LastReport(steps, n, i);
      }
    } else {
      NoneYet(steps);
    }
  }

  lemma NoneYet(steps: seq<Step>)
    ensures forall i :: !LastReport(steps, 0, i) && !StaysCleared(steps, 0, i) && !FirstError(steps, 0, i)
  {
  }

  /** The goal is cleared if it was, and no update to "active" came after. */
  lemma {:induction false} ClearedStands(states: seq<State>, steps: seq<Step>, n: nat)
    requires Run(states, steps) && n < |states|
    ensures states[n].goal.cleared <==> exists i :: StaysCleared(steps, n, i)
  {
    hide StaysCleared, Revives, Apply;
    if n > 0 {
      ClearedStands(states, steps, n - 1);
      var step := steps[n - 1];
      assert states[n - 1 + 1] == Apply(states[n - 1], step);
      StepMovesStatus(states[n - 1], step);
      forall i
        ensures StaysCleared(steps, n, i) <==>
          if i == n - 1 then step == Note(Cleared) else StaysCleared(steps, n - 1, i) && !Revives(step)
      {
        StaysClearedAfter(steps, n, i);
      }
      if step == Note(Cleared) {
        assert StaysCleared(steps, n, n - 1);
      } else if states[n - 1].goal.cleared && !Revives(step) {
        var i :| StaysCleared(steps, n - 1, i);
        ClearedBefore(steps, n - 1, i);
        assert StaysCleared(steps, n, i);
      }
    } else {
      NoneYet(steps);
    }
  }

  lemma ClearedBefore(steps: seq<Step>, n: nat, i: int)
    requires n <= |steps| && StaysCleared(steps, n, i)
    ensures 0 <= i < n
  {
  }

  /** The operation has failed if a step did, and the first error stands. */
  lemma {:induction false} FirstFailureWins(states: seq<State>, steps: seq<Step>, n: nat)
    requires Run(states, steps) && n < |states|
    ensures states[n].goal.failed.Some? <==> exists i :: FirstError(steps, n, i)
    ensures forall i :: FirstError(steps, n, i) ==> states[n].goal.failed == Some(ErrorOf(steps[i]))
    ensures states[n].goal.failed.None? <==> forall i :: 0 <= i < n ==> !Errs(steps[i])
  {
    hide Errs, Apply;
    if n > 0 {
      FirstFailureWins(states, steps, n - 1);
      assert states[n - 1 + 1] == Apply(states[n - 1], steps[n - 1]);
      StepMovesStatus(states[n - 1], steps[n - 1]);
      forall i
        ensures FirstError(steps, n, i) <==>
          FirstError(steps, n - 1, i) || (i == n - 1 && Errs(steps[i]) && states[n - 1].goal.failed.None?)
      {
      }
      if states[n - 1].goal.failed.None? && Errs(steps[n - 1]) {
        assert FirstError(steps, n, n - 1);
      } else if states[n - 1].goal.failed.Some? {
        var i :| FirstError(steps, n - 1, i);
        assert FirstError(steps, n, i);
      }
    }
  }

  /** The last update is the i-th step, and it reports one of the five statuses. */
  ghost predicate EndsWith(steps: seq<Step>, n: nat, i: int)
    requires n <= |steps|
  {
    LastReport(steps, n, i) && Over(steps[i].n.status)
  }

  lemma OverIsReported(states: seq<State>, steps: seq<Step>, n: nat)
    requires Run(states, steps) && n < |states|
    ensures Terminal(states[n].goal.status) <==> exists i :: EndsWith(steps, n, i)
  {
    hide Over, Terminal;
    StatusIsLastReport(states, steps, n);
    TerminalIsOver(states[n].goal.status);
    if Terminal(states[n].goal.status) {
      var i :| LastReport(steps, n, i);
      assert EndsWith(steps, n, i);
    }
  }

  /** What the run's steps say about the end: no error, no turn left open, and a report of the end that stands. */
  ghost predicate GoalIsOver(steps: seq<Step>, n: nat)
    requires n <= |steps|
  {
    && (forall i :: 0 <= i < n ==> !Errs(steps[i]))
    && (forall i :: !LeftOpen(steps, n, i))
    && ((exists i :: EndsWith(steps, n, i)) || (exists i :: StaysCleared(steps, n, i)))
  }

  /**
    The end, over every run: a look reports it if and only if no step failed, nothing is pending, no
    named turn is left open, and the last update reported one of the five final statuses or the goal
    was cleared with no update to "active" after that.
   */
  lemma EndsByReports(states: seq<State>, steps: seq<Step>, n: nat, previous: string)
    requires Run(states, steps) && n < |states|
    ensures Look(states[n].goal, previous).Ended? <==> states[n].goal.pending == [] && GoalIsOver(steps, n)
  {
    hide EndsWith, StaysCleared, LeftOpen, FirstError, Errs, Terminal;
    EndsIff(states, steps, n, previous);
    OverIsReported(states, steps, n);
    ClearedStands(states, steps, n);
    FirstFailureWins(states, steps, n);
  }

  lemma TerminalIsOver(status: string)
    ensures Terminal(status) <==> Over(status)
    ensures !Over("") && !Over("active")
  {
  }

  /** The other answers: the first error, the oldest pending turn unless it is the caller's own, and otherwise waiting. */
  lemma LooksByReports(states: seq<State>, steps: seq<Step>, n: nat, previous: string)
    requires Run(states, steps) && n < |states|
    ensures var g := states[n].goal;
      && (forall i :: FirstError(steps, n, i) ==> Look(g, previous) == Broken(ErrorOf(steps[i])))
      && ((forall i :: 0 <= i < n ==> !Errs(steps[i])) ==>
            && !Look(g, previous).Broken?
            && (Look(g, previous).Hand? <==> g.pending != [] && g.pending[0] != previous)
            && (Look(g, previous).Hand? ==> Look(g, previous).turn == g.pending[0]))
  {
    hide FirstError, Errs;
    FirstFailureWins(states, steps, n);
    RunIsSound(states, steps, n);
    assert "" !in states[n].goal.pending;
  }

  /** The first turn is over and a status is reported: five statuses end the wait, any other keeps it. */
  lemma StatusDecides(status: string) returns (states: seq<State>, steps: seq<Step>)
    ensures Run(states, steps) && |states| == 4
    ensures steps == [Note(Started("a")), Note(Completed("a")), Note(Updated(status, ""))]
    ensures Look(states[3].goal, "a") ==
      if status == "paused" || status == "blocked" || status == "usageLimited" || status == "budgetLimited" || status == "complete"
      then Ended else Wait
  {
    var s1 := State(Goal("a", "a", "a", [], "", false, None), map[], true, ["a"], []);
    var s2 := s1.(goal := s1.goal.(current := ""));
    var s3 := s2.(goal := s2.goal.(status := status));
    states, steps := [INIT, s1, s2, s3], [Note(Started("a")), Note(Completed("a")), Note(Updated(status, ""))];
    assert Apply(INIT, Note(Started("a"))) == s1;
    assert Apply(s1, Note(Completed("a"))) == s2;
    assert Apply(s2, Note(Updated(status, ""))) == s3;
    TerminalIsOver(status);
  }
}
