/**
  The logical stream over a goal: the turns handed out one after the other read as a single stream
  whose events all carry the logical turn's id.
 */
module GoalStreams {
  import opened Wrappers
  import opened TurnStreams

  type TurnId = s: string | s != "" witness "t"

  /** What awaitContinuation returns: the next turn with what its route will deliver, the end, or an error. */
  datatype Continuation = HandOver(turn: TurnId, feed: seq<Arrival>) | AllEnded | BrokenWait(error: string)

  function Rewrite(e: Event, logical: string): Event {
    if logical == "" then
      e
    else
      e.(turnId := logical, turn := if e.turn.Some? then Some(e.turn.value.(id := logical)) else None)
  }

  /** The logical id takes the place of the turn's own, on the event and on its turn; nothing else changes. */
  lemma RewriteMeans(e: Event, logical: string)
    ensures var r := Rewrite(e, logical);
      && r.turnId == (if logical == "" then e.turnId else logical)
      && r.turn.Some? == e.turn.Some?
      && (e.turn.Some? ==>
            && r.turn.value.id == (if logical == "" then e.turn.value.id else logical)
            && r.turn.value.status == e.turn.value.status && r.turn.value.error == e.turn.value.error)
      && r.kind == e.kind && r.item == e.item && r.usage == e.usage && r.error == e.error
  {
  }

  /** What is still to be told from a turn's stream on, in the order the source goes through it. */
  function Tale(logical: string, turn: string, s: State, script: seq<Continuation>): Story
    decreases |script|, |s.feed|
  {
    match Advance(s, false)
    case (_, Error(error)) => Story([], Some(error))
    case (_, Eof) => Story([], None)
    case (t, Yields(e)) =>
      if e.kind.TurnFailed? then
        Story([Rewrite(e, logical)], None)
      else if e.kind.TurnCompleted? then
        AfterCompletion(logical, e, script)
      else
        var rest := Tale(logical, turn, t, script);
        if e.kind.TurnStarted? && turn != logical then rest
        else Story([Rewrite(e, logical)] + rest.events, rest.error)
  }

  function AfterCompletion(logical: string, e: Event, script: seq<Continuation>): Story
    decreases |script|, 0
  {
    if script == [] then
      Story([], Some(CANCELED))
    else
      match script[0]
      case BrokenWait(error) => Story([], Some(error))
      case AllEnded => Story([Rewrite(e, logical)], None)
      case HandOver(turn, feed) => Tale(logical, turn, Open(feed), script[1..])
  }

  /** One call answers a story: its first event, its error once there are no events left, or the end of file. */
  ghost predicate Answers(story: Story, r: Yield, rest: Story, handleClosed: bool) {
    if story.events != [] then
      r == Yields(story.events[0]) && rest == Story(story.events[1..], story.error)
    else if story.error.Some? then
      r == Error(story.error.value) && handleClosed
    else
      r == Eof && rest == story
  }

  class GoalStream {
    const logicalTurnID: string
    const interruptTarget: string
    var current: TurnStream?
    var currentTurnID: string
    var done: bool
    var handleClosed: bool
    /** What the current turn's route will deliver to the next stream opened on it. */
    var feed: seq<Arrival>
    /** What awaitContinuation is going to return. */
    var script: seq<Continuation>

    constructor (logicalTurnID: string, interruptTarget: string, feed: seq<Arrival>, script: seq<Continuation>)
      ensures this.logicalTurnID == logicalTurnID && this.interruptTarget == interruptTarget
      ensures current == null && !done && currentTurnID == ""
      ensures this.feed == feed && this.script == script
      ensures Valid()
    {
      this.logicalTurnID, this.interruptTarget := logicalTurnID, interruptTarget;
      current, currentTurnID, done, handleClosed := null, "", false, false;
      this.feed, this.script := feed, script;
    }

    /** An open turn stream can go on; there is none after the end of the goal. */
    ghost predicate Valid()
      reads this, current
    {
      if done then current == null else current != null ==> Running(current.Value())
    }

    /** The turn a stream would be opened on. */
    ghost function Choice(): string
      reads this
    {
      if currentTurnID != "" then currentTurnID else if logicalTurnID != "" then logicalTurnID else interruptTarget
    }

    /** Everything consecutive Next calls are still going to return, up to the end of file or an error. */
    ghost function Left(): Story
      reads this, current
    {
      if done then
        Story([], None)
      else if current != null then
        Tale(logicalTurnID, currentTurnID, current.Value(), script)
      else if Choice() == "" then
        Story([], None)
      else
        Tale(logicalTurnID, Choice(), Open(feed), script)
    }

    method CloseHandle()
      modifies this`handleClosed
      ensures handleClosed
    {
      handleClosed := true;
    }

    /** Opens a stream on the chosen turn when none is open; false means there is no turn at all. */
    method OpenCurrent() returns (ok: bool)
      requires Valid() && !done
      modifies this`current, this`currentTurnID, this`done, this`handleClosed, this`feed
      ensures Valid() && Left() == old(Left())
      ensures ok ==> current != null && !done
      ensures ok ==> if old(current) == null then fresh(current) else current == old(current)
      ensures !ok ==> done && handleClosed && Left() == Story([], None)
      ensures script == old(script)
    {
      if current == null {
        if currentTurnID == "" {
          currentTurnID := logicalTurnID;
        }
        if currentTurnID == "" {
          currentTurnID := interruptTarget;
        }
        if currentTurnID == "" {
          done := true;
          CloseHandle();
          return false;
        }
        current := new TurnStream(feed);
        feed := [];
      }
      return true;
    }

    method AwaitContinuation() returns (next: Continuation)
      modifies this`script
      ensures old(script) == [] ==> next == BrokenWait(CANCELED) && script == []
      ensures old(script) != [] ==> next == old(script)[0] && script == old(script)[1..]
    {
      if script == [] {
        return BrokenWait(CANCELED);
      }
      next := script[0];
      script := script[1..];
    }

    /** The turn's terminal event: the last one of the stream, or swallowed when another turn follows. */
    method EndTurn(event: Event) returns (r: Option<Yield>)
      requires event.IsTerminal() && current != null && !done
      modifies this, current
      ensures Valid() && current == null
      ensures var story := if event.kind.TurnFailed? then Story([Rewrite(event, logicalTurnID)], None)
                           else AfterCompletion(logicalTurnID, event, old(script));
        if r.Some? then r.value != Eof && Answers(story, r.value, Left(), handleClosed)
        else !done && Left() == story && |script| < |old(script)|
    {
      current.Close();
      current := null;
      if event.kind.TurnFailed? {
        done := true;
        CloseHandle();
        return Some(Yields(Rewrite(event, logicalTurnID)));
      }
      var next := AwaitContinuation();
      if next.BrokenWait? {
        CloseHandle();
        return Some(Error(next.error));
      }
      if next.AllEnded? {
        done := true;
        CloseHandle();
        return Some(Yields(Rewrite(event, logicalTurnID)));
      }
      currentTurnID := next.turn;
      feed := next.feed;
      return None;
    }

    method Next() returns (r: Yield)
      requires Valid()
      modifies this, current
      ensures Valid()
      ensures current == null || current == old(current) || fresh(current)
      ensures Answers(old(Left()), r, Left(), handleClosed)
      ensures r == Eof ==> done
    {
      hide Decode, Returns, Leaves;
      if done {
        return Eof;
      }
      ghost var mine := current;
      while true
        invariant Valid() && !done && Left() == old(Left())
        invariant current == null || current == mine || fresh(current)
        invariant mine == old(current)
        decreases |script|, current == null, if current == null then 0 else |current.feed|
      {
        var ok := OpenCurrent();
        if !ok {
          return Eof;
        }
        ghost var ahead := |current.feed|;
        var y := current.Next(false);
        assert y.Yields? ==> |current.feed| < ahead;
        if !y.Yields? {
          current.Close();
          current := null;
          CloseHandle();
          return y;
        }
        var event := Rewrite(y.event, logicalTurnID);
        if event.kind.TurnStarted? {
          if currentTurnID == logicalTurnID {
            return Yields(event);
          }
        } else if event.IsTerminal() {
          var ending := EndTurn(y.event);
          if ending.Some? {
            return ending.value;
          }
        } else {
          return Yields(event);
        }
      }
    }
  }

  // ---- the reference: the turns' event sequences one after the other, edited ----

  datatype Chapter = Chapter(turn: string, events: seq<Event>)

  /** The turns that are handed out, each with the events its own stream yields. */
  function Chapters(turn: string, feed: seq<Arrival>, script: seq<Continuation>): seq<Chapter>
    decreases |script|
  {
    var events := Told(Open(feed)).events;
    [Chapter(turn, events)]
    + if Completes(events) && script != [] && script[0].HandOver? then
        Chapters(script[0].turn, script[0].feed, script[1..])
      else
        []
  }

  predicate Completes(events: seq<Event>) {
    events != [] && events[|events| - 1].kind.TurnCompleted?
  }

  /** No stream fails, and after every completed turn there is another turn or the end. */
  predicate ErrorFree(feed: seq<Arrival>, script: seq<Continuation>)
    decreases |script|
  {
    var story := Told(Open(feed));
    && story.error.None?
    && (Completes(story.events) ==>
          && script != []
          && (script[0].AllEnded? || (script[0].HandOver? && ErrorFree(script[0].feed, script[1..]))))
  }

  /** Starts of later turns and ends of all but the last turn are dropped; the rest carries the logical id. */
  function Edit(logical: string, turn: string, isLast: bool, events: seq<Event>): seq<Event> {
    if events == [] then
      []
    else
      var e := events[0];
      var rest := Edit(logical, turn, isLast, events[1..]);
      if (e.kind.TurnStarted? && turn != logical) || (e.IsTerminal() && !isLast) then rest
      else [Rewrite(e, logical)] + rest
  }

  /** The edited chapters one after the other; only the last one of a goal that came to its end keeps its end. */
  function Joined(logical: string, chapters: seq<Chapter>, ended: bool): seq<Event> {
    if chapters == [] then []
    else Edit(logical, chapters[0].turn, ended && |chapters| == 1, chapters[0].events) + Joined(logical, chapters[1..], ended)
  }

  /** The error that stops the goal's stream, if any: of a turn's stream, or of the wait for the next turn. */
  function Outcome(feed: seq<Arrival>, script: seq<Continuation>): Option<string>
    decreases |script|
  {
    var story := Told(Open(feed));
    if story.error.Some? then story.error
    else if !Completes(story.events) then None
    else if script == [] then Some(CANCELED)
    else if script[0].BrokenWait? then Some(script[0].error)
    else if script[0].AllEnded? then None
    else Outcome(script[0].feed, script[1..])
  }

  lemma {:induction false} ErrorFreeIff(feed: seq<Arrival>, script: seq<Continuation>)
    ensures ErrorFree(feed, script) <==> Outcome(feed, script).None?
    decreases |script|
  {
    if script != [] && script[0].HandOver? {
      ErrorFreeIff(script[0].feed, script[1..]);
    }
  }

  /** A stream without an error tells a terminal event, and nothing after it. */
  lemma {:induction false} ToldEndsTerminally(s: State)
    requires Running(s) && Told(s).error.None?
    ensures var (t, y) := Advance(s, false); var told := Told(s).events;
      && y.Yields? && told == [y.event] + Told(t).events && Told(t).error.None? && |t.feed| < |s.feed|
      && if y.event.IsTerminal() then told == [y.event] && told[1..] == []
         else Running(t) && Told(t).events != [] && told[1..] == Told(t).events && told[|told| - 1] == Told(t).events[|Told(t).events| - 1]
    ensures Told(s).events[|Told(s).events| - 1].IsTerminal()
    decreases |s.feed|
  {
    var (t, y) := Advance(s, false);
    if y.event.IsTerminal() {
      assert Told(t) == Story([], None);
    } else {
      ToldEndsTerminally(t);
    }
  }

  /** Keeping the end of a turn only adds that end. */
  lemma {:induction false} EditOfLastTurn(logical: string, turn: string, s: State)
    requires Running(s) && Told(s).error.None?
    ensures Told(s).events != []
    ensures var events := Told(s).events;
      Edit(logical, turn, true, events) ==
        Edit(logical, turn, false, events) + [Rewrite(events[|events| - 1], logical)]
    decreases |s.feed|
  {
    ToldEndsTerminally(s);
    var (t, y) := Advance(s, false);
    if y.event.IsTerminal() {
      assert Edit(logical, turn, true, []) == Edit(logical, turn, false, []) == [];
    } else {
      EditOfLastTurn(logical, turn, t);
    }
  }

  /** The tale of one turn's stream, given what follows its completion. */
  lemma {:induction false} TaleOfOneTurn(logical: string, turn: string, s: State, script: seq<Continuation>)
    requires Running(s) && Told(s).error.None?
    ensures var events := Told(s).events;
      && events != [] && events[|events| - 1].IsTerminal()
      && Tale(logical, turn, s, script) ==
           if !Completes(events) then
             Story(Edit(logical, turn, true, events), None)
           else
             var rest := AfterCompletion(logical, events[|events| - 1], script);
             Story(Edit(logical, turn, false, events) + rest.events, rest.error)
    decreases |s.feed|
  {
    hide Told, Advance, AfterCompletion;
    ToldEndsTerminally(s);
    var (t, y) := Advance(s, false);
    if y.event.IsTerminal() {
      assert Edit(logical, turn, true, []) == Edit(logical, turn, false, []) == [];
    } else {
      TaleOfOneTurn(logical, turn, t, script);
    }
  }

  lemma NothingAfterTheEnd(s: State)
    ensures s.ended && s.failure.None? ==> Told(s) == Story([], None)
  {
  }

  /** A stream that fails is told up to its error; it has no end to keep. */
  lemma {:induction false} TaleOfFailedTurn(logical: string, turn: string, s: State, script: seq<Continuation>, isLast: bool)
    requires Running(s) && Told(s).error.Some?
    ensures var events := Told(s).events;
      && !Completes(events)
      && Tale(logical, turn, s, script) == Story(Edit(logical, turn, isLast, events), Told(s).error)
    decreases |s.feed|
  {
    var (t, y) := Advance(s, false);
    if y.Yields? {
      NothingAfterTheEnd(t);
      TaleOfFailedTurn(logical, turn, t, script, isLast);
      assert ([y.event] + Told(t).events)[1..] == Told(t).events;
    }
  }

  /**
    Over every run the logical stream is the concatenation of the handed-out turns' event sequences in
    order, each rewritten to the logical turn, without the starts of the later turns and without the
    ends of all turns but the last; it ends with the first error there is, and then without any end.
   */
  lemma {:induction false} LogicalStreamIsConcatenation(
    logical: string, turn: string, feed: seq<Arrival>, script: seq<Continuation>)
    ensures var outcome := Outcome(feed, script);
      Tale(logical, turn, Open(feed), script) == Story(Joined(logical, Chapters(turn, feed, script), outcome.None?), outcome)
    decreases |script|
  {
    hide Tale, Told, Edit;
    var story := Told(Open(feed));
    var events := story.events;
    var outcome := Outcome(feed, script);
    var chapters := Chapters(turn, feed, script);
    if story.error.Some? {
      TaleOfFailedTurn(logical, turn, Open(feed), script, false);
      JoinedOne(logical, turn, events, false);
    } else {
      TaleOfOneTurn(logical, turn, Open(feed), script);
      EditOfLastTurn(logical, turn, Open(feed));
      if Completes(events) && script != [] && script[0].HandOver? {
        LogicalStreamIsConcatenation(logical, script[0].turn, script[0].feed, script[1..]);
        JoinedMore(logical, turn, events, Chapters(script[0].turn, script[0].feed, script[1..]), outcome.None?);
      } else {
        assert chapters == [Chapter(turn, events)];
        JoinedOne(logical, turn, events, outcome.None?);
      }
    }
  }

  lemma JoinedOne(logical: string, turn: string, events: seq<Event>, ended: bool)
    ensures Joined(logical, [Chapter(turn, events)], ended) == Edit(logical, turn, ended, events)
  {
    hide Edit;
    assert [Chapter(turn, events)][1..] == [];
  }

  lemma JoinedMore(logical: string, turn: string, events: seq<Event>, rest: seq<Chapter>, ended: bool)
    requires rest != []
    ensures Joined(logical, [Chapter(turn, events)] + rest, ended) == Edit(logical, turn, false, events) + Joined(logical, rest, ended)
  {
    hide Edit;
    assert ([Chapter(turn, events)] + rest)[1..] == rest;
  }

  /** So it ends with its only terminal event. */
  lemma {:induction false} OneTerminalEventAtTheEnd(
    logical: string, turn: string, feed: seq<Arrival>, script: seq<Continuation>)
    requires ErrorFree(feed, script)
    ensures var events := Tale(logical, turn, Open(feed), script).events;
      && events != []
      && (forall i :: 0 <= i < |events| ==> (events[i].IsTerminal() <==> i == |events| - 1))
      && (logical != "" ==> forall i :: 0 <= i < |events| ==> events[i].turnId == logical)
    decreases |script|
  {
    var events := Told(Open(feed)).events;
    TaleOfOneTurn(logical, turn, Open(feed), script);
    EditOfLastTurn(logical, turn, Open(feed));
    EditKeepsNoEnd(logical, turn, events);
    if Completes(events) && script[0].HandOver? {
      OneTerminalEventAtTheEnd(logical, script[0].turn, script[0].feed, script[1..]);
    }
  }

  lemma {:induction false} EditKeepsNoEnd(logical: string, turn: string, events: seq<Event>)
    ensures forall e <- Edit(logical, turn, false, events) :: !e.IsTerminal() && (logical != "" ==> e.turnId == logical)
  {
    if events != [] {
      EditKeepsNoEnd(logical, turn, events[1..]);
      var rest := Edit(logical, turn, false, events[1..]);
      var edited := Edit(logical, turn, false, events);
      assert edited == rest || edited == [Rewrite(events[0], logical)] + rest;
    }
  }

  // ---- the same, over consecutive calls ----

  /** Calls Next until it returns no event. */
  method ReadAll(stream: GoalStream) returns (events: seq<Event>, last: Yield)
    requires stream.Valid()
    modifies stream, stream.current
    ensures stream.Valid()
    ensures stream.current == null || stream.current == old(stream.current) || fresh(stream.current)
    ensures events == old(stream.Left()).events
    ensures last == if old(stream.Left()).error.Some? then Error(old(stream.Left()).error.value) else Eof
    ensures last == Eof ==> stream.done
    ensures last != Eof ==> stream.handleClosed
  {
    ghost var story := stream.Left();
    ghost var mine := stream.current;
    events := [];
    while true
      invariant stream.Valid()
      invariant mine == old(stream.current)
      invariant stream.current == null || stream.current == mine || fresh(stream.current)
      invariant story == Story(events + stream.Left().events, stream.Left().error)
      decreases |stream.Left().events|
    {
      last := stream.Next();
      if !last.Yields? {
        return;
      }
      events := events + [last.event];
    }
  }

  /**
    The consumer's view of a goal: over every error-free run consecutive calls of Next return the
    handed-out turns' events, edited and joined, and every later call returns the end of file.
   */
  method ReadGoal(
    logical: string, interruptTarget: string, feed: seq<Arrival>, script: seq<Continuation>, more: nat)
    returns (events: seq<Event>, after: seq<Yield>)
    requires ErrorFree(feed, script)
    ensures var turn := if logical != "" then logical else interruptTarget;
      events == if turn == "" then [] else Joined(logical, Chapters(turn, feed, script), true)
    ensures |after| == more + 1 && forall y <- after :: y == Eof
  {
    var stream := new GoalStream(logical, interruptTarget, feed, script);
    if stream.Choice() != "" {
      ErrorFreeIff(feed, script);
      LogicalStreamIsConcatenation(logical, stream.Choice(), feed, script);
    }
    var last;
    events, last := ReadAll(stream);
    after := [last];
    while |after| <= more
      invariant stream.Valid() && stream.done
      invariant stream.current == null || fresh(stream.current)
      invariant 1 <= |after| <= more + 1 && forall y <- after :: y == Eof
    {
      var y := stream.Next();
      after := after + [y];
    }
  }
}
