/** The goal operation as an object; each method is what runs under its mutex. */
module GoalOperationImpl {
  import opened Wrappers
  import opened GoalState

  class GoalOperation {
    var logicalTurnID: string
    var currentTurnID: string
    var lastTurnID: string
    var pendingTurns: seq<string>
    var status: string
    var cleared: bool
    var failed: Option<string>

    ghost function Value(): Goal
      reads this
    {
      Goal(logicalTurnID, currentTurnID, lastTurnID, pendingTurns, status, cleared, failed)
    }

    constructor ()
      ensures Value() == NEW_GOAL && Consistent(Value())
    {
      logicalTurnID, currentTurnID, lastTurnID := "", "", "";
      pendingTurns, status, cleared, failed := [], "", false, None;
    }

    method NoteTurnID(turnID: string)
      modifies this
      ensures Value() == NoteTurn(old(Value()), turnID)
    {
      if turnID == "" {
        return;
      }
      if logicalTurnID == "" {
        logicalTurnID, currentTurnID, lastTurnID := turnID, turnID, turnID;
        return;
      }
      currentTurnID, lastTurnID := turnID, turnID;
      if turnID == logicalTurnID {
        return;
      }
      var i := 0;
      while i < |pendingTurns|
        invariant 0 <= i <= |pendingTurns|
        invariant turnID !in pendingTurns[..i]
        modifies {}
      {
        if pendingTurns[i] == turnID {
          return;
        }
        i := i + 1;
      }
      pendingTurns := pendingTurns + [turnID];
    }

    method SetFailed(error: string)
      modifies this`failed
      ensures Value() == Fail(old(Value()), error)
    {
      if failed.None? {
        failed := Some(error);
      }
    }

    method ObserveGoalNotification(n: Notice)
      modifies this
      ensures Value() == Observe(old(Value()), n)
      ensures old(Consistent(Value())) ==> Consistent(Value())
      ensures old(logicalTurnID) != "" ==> logicalTurnID == old(logicalTurnID)
      ensures status == if n.Updated? then n.status else old(status)
      ensures cleared == (n.Cleared? || (old(cleared) && (n.Updated? ==> n.status != "active")))
      ensures failed == if n.Malformed? && old(failed).None? then Some(n.error) else old(failed)
    {
      ghost var before := Value();
      match n
      case Updated(newStatus, turn) =>
        status := newStatus;
        if status == ACTIVE {
          cleared := false;
        }
        if turn != "" {
          NoteTurnID(turn);
        }
      case Cleared =>
        cleared := true;
      case Started(turn) =>
        if turn != "" {
          NoteTurnID(turn);
        }
      case Completed(turn) =>
        if turn != "" && currentTurnID == turn {
          currentTurnID := "";
          lastTurnID := turn;
        }
      case Malformed(error) =>
        SetFailed(error);
      case Irrelevant =>
      if Consistent(before) {
        ObserveKeepsConsistent(before, n);
      }
    }

    method FinishPhysicalTurn(turnID: string)
      modifies this`currentTurnID
      ensures Value() == FinishTurn(old(Value()), turnID)
    {
      if currentTurnID == turnID {
        currentTurnID := "";
      }
    }

    /** One round of awaitContinuation that nothing interferes with; `Wait` stands for the select statement. */
    method AwaitContinuation(previousTurnID: string) returns (verdict: Verdict)
      requires Consistent(Value())
      modifies this`pendingTurns
      ensures Consistent(Value()) && verdict == Look(old(Value()), previousTurnID)
      ensures verdict.Hand? ==>
        && old(pendingTurns) == [verdict.turn] + pendingTurns
        && verdict.turn != previousTurnID && verdict.turn != "" && verdict.turn !in pendingTurns
      ensures !verdict.Hand? ==> pendingTurns == old(pendingTurns)
      ensures verdict.Ended? <==>
        && failed.None? && old(pendingTurns) == [] && currentTurnID == ""
        && (cleared || status == "paused" || status == "blocked" || status == "usageLimited"
            || status == "budgetLimited" || status == "complete")
      ensures verdict.Broken? <==> failed.Some?
      ensures verdict.Broken? ==> verdict.error == failed.value
    {
      var next := if |pendingTurns| > 0 then pendingTurns[0] else "";
      if failed.Some? {
        return Broken(failed.value);
      }
      if next != "" && next != previousTurnID {
        PopKeepsConsistent(Value(), next);
        if |pendingTurns| > 0 && pendingTurns[0] == next {
          pendingTurns := pendingTurns[1..];
        }
        return Hand(next);
      }
      if next == "" && currentTurnID == "" && (cleared || Terminal(status)) {
        return Ended;
      }
      return Wait;
    }

    /** With a consistent state the answer is always the last turn heard of. */
    method InterruptTarget() returns (turnID: string)
      requires Consistent(Value())
      ensures turnID == lastTurnID
    {
      turnID := if currentTurnID != "" then currentTurnID else lastTurnID;
    }
  }
}
