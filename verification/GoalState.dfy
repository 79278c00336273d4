/**
  One logical goal: several physical turns presented as one. The state of `goalOperation` and the
  effect of each of its critical sections, as functions on values. The empty string is "no turn".
 */
module GoalState {
  import opened Strings
  import opened Wrappers

  const ACTIVE := "active"
  const PAUSED := "paused"
  const BLOCKED := "blocked"
  const USAGE_LIMITED := "usageLimited"
  const BUDGET_LIMITED := "budgetLimited"
  const COMPLETE := "complete"

  predicate Terminal(status: string) {
    status in {PAUSED, BLOCKED, USAGE_LIMITED, BUDGET_LIMITED, COMPLETE}
  }

  datatype Goal = Goal(
    logical: string,
    current: string,
    last: string,
    pending: seq<string>,
    status: string,
    cleared: bool,
    failed: Option<string>)

  const NEW_GOAL := Goal("", "", "", [], "", false, None)

  /** A decoded goal notification; `Malformed` stands for parameters that do not decode. */
  datatype Notice =
    | Updated(status: string, turn: string)
    | Cleared
    | Started(turn: string)
    | Completed(turn: string)
    | Malformed(error: string)
    | Irrelevant

  /** The turn a notification announces, if any. */
  function Announces(n: Notice): string {
    match n
    case Updated(_, turn) => turn
    case Started(turn) => turn
    case _ => ""
  }

  function NoteTurn(g: Goal, turn: string): Goal {
    if turn == "" then
      g
    else if g.logical == "" then
      g.(logical := turn, current := turn, last := turn)
    else
      g.(current := turn, last := turn,
         pending := if turn == g.logical || turn in g.pending then g.pending else g.pending + [turn])
  }

  function Fail(g: Goal, error: string): Goal {
    if g.failed.None? then g.(failed := Some(error)) else g
  }

  function Observe(g: Goal, n: Notice): Goal {
    match n
    case Updated(status, turn) =>
      NoteTurn(g.(status := status, cleared := g.cleared && status != ACTIVE), turn)
    case Cleared => g.(cleared := true)
    case Started(turn) => NoteTurn(g, turn)
    case Completed(turn) => if turn != "" && g.current == turn then g.(current := "", last := turn) else g
    case Malformed(error) => Fail(g, error)
    case Irrelevant => g
  }

  function FinishTurn(g: Goal, turn: string): Goal {
    if g.current == turn then g.(current := "") else g
  }

  /** The server names another active turn when an interrupt is refused. */
  function Retarget(g: Goal, turn: string): Goal {
    g.(current := turn, last := turn)
  }

  function InterruptTarget(g: Goal): string {
    if g.current != "" then g.current else g.last
  }

  /** What one look of awaitContinuation decides. */
  datatype Verdict = Broken(error: string) | Hand(turn: string) | Ended | Wait

  function Look(g: Goal, previous: string): Verdict {
    var next := if g.pending == [] then "" else g.pending[0];
    if g.failed.Some? then
      Broken(g.failed.value)
    else if next != "" && next != previous then
      Hand(next)
    else if next == "" && g.current == "" && (g.cleared || Terminal(g.status)) then
      Ended
    else
      Wait
  }

  /** The second critical section of awaitContinuation: the head may have changed since the look. */
  function Pop(g: Goal, turn: string): Goal {
    if g.pending != [] && g.pending[0] == turn then g.(pending := g.pending[1..]) else g
  }

  /** What every operation keeps. */
  ghost predicate Consistent(g: Goal) {
    && Distinct(g.pending)
    && g.logical !in g.pending && "" !in g.pending
    && (g.logical == "" ==> g.pending == [])
    && (g.current != "" ==> g.current == g.last)
  }

  lemma ConsistentMeansLastIsTheTarget(g: Goal)
    requires Consistent(g)
    ensures InterruptTarget(g) == g.last
  {
  }

  lemma NoteTurnKeepsConsistent(g: Goal, turn: string)
    requires Consistent(g)
    ensures Consistent(NoteTurn(g, turn))
    ensures g.logical != "" ==> NoteTurn(g, turn).logical == g.logical
    ensures g.pending <= NoteTurn(g, turn).pending
    ensures turn != "" ==> turn == NoteTurn(g, turn).logical || turn in NoteTurn(g, turn).pending
    ensures forall t :: t in NoteTurn(g, turn).pending ==> t in g.pending || t == turn
  {
  }

  lemma ObserveKeepsConsistent(g: Goal, n: Notice)
    requires Consistent(g)
    ensures Consistent(Observe(g, n))
    ensures g.logical != "" ==> Observe(g, n).logical == g.logical
    ensures g.pending <= Observe(g, n).pending
  {
    match n
    case Updated(status, turn) =>
      NoteTurnKeepsConsistent(g.(status := status, cleared := g.cleared && status != ACTIVE), turn);
    case Started(turn) => NoteTurnKeepsConsistent(g, turn);
    case _ =>
  }

  lemma PopKeepsConsistent(g: Goal, turn: string)
    requires Consistent(g)
    ensures Consistent(Pop(g, turn))
    ensures turn !in Pop(g, turn).pending || Pop(g, turn) == g
  {
  }
}
