/** The pull stream over one turn's notifications, and the collection of a turn's result from it. */
module TurnStreams {
  import opened Wrappers

  const FAILED := "failed"
  const FINAL_ANSWER := "final_answer"

  datatype Usage = Usage(input: int, output: int)

  datatype Item = Message(phase: string, text: string) | OtherItem(tag: string)

  datatype Turn = Turn(id: string, status: string, error: Option<string>)

  datatype Kind = TurnStarted | ItemCompleted | UsageUpdated | TurnCompleted | TurnFailed | Other(name: string)

  datatype Event = Event(
    kind: Kind, turnId: string, turn: Option<Turn>, item: Option<Item>, usage: Option<Usage>, error: Option<string>)
  {
    predicate IsTerminal() {
      kind.TurnCompleted? || kind.TurnFailed?
    }
  }

  /** One routed notification; `Garbled` does not decode. */
  datatype Frame =
    | Started(turn: Turn)
    | ItemDone(turnId: string, item: Item)
    | UsageNews(turnId: string, usage: Option<Usage>)
    | TurnDone(turn: Turn)
    | OtherFrame(name: string, turnId: string)
    | Garbled(error: string)

  /** What NextTurn returns: a notification, or a transport error or cancellation. */
  datatype Arrival = Got(frame: Frame) | Lost(error: string)

  /** What Next returns. */
  datatype Yield = Yields(event: Event) | Eof | Error(error: string)

  const NOT_REGISTERED := "router: turn is not registered"
  const STREAM_CLOSED := "codex: stream closed"
  const CANCELED := "context canceled"

  function Decode(f: Frame, latest: Option<Usage>): Result<Event, string> {
    match f
    case Started(turn) => Ok(Event(TurnStarted, turn.id, Some(turn), None, None, None))
    case ItemDone(turnId, item) => Ok(Event(ItemCompleted, turnId, None, Some(item), None, None))
    case UsageNews(turnId, usage) => Ok(Event(UsageUpdated, turnId, None, None, usage, None))
    case TurnDone(turn) =>
      Ok(Event(if turn.status == FAILED then TurnFailed else TurnCompleted, turn.id, Some(turn), None, latest, turn.error))
    case OtherFrame(name, turnId) => Ok(Event(Other(name), turnId, None, None, None, None))
    case Garbled(error) => Err(error)
  }

  /** The stream's fields, with what its route will still deliver. `unregistered` counts the unregister calls. */
  datatype State = State(
    feed: seq<Arrival>, latest: Option<Usage>, failure: Option<string>, ended: bool, closed: bool, unregistered: nat)

  function Open(feed: seq<Arrival>): State {
    State(feed, None, None, false, false, 0)
  }

  function Closed(s: State): State {
    if s.closed then s else s.(closed := true, feed := [], unregistered := s.unregistered + 1)
  }

  function Advance(s: State, canceled: bool): (State, Yield) {
    if s.failure.Some? then
      (s, Error(s.failure.value))
    else if s.ended then
      (s, Eof)
    else if s.closed then
      (s, Error(STREAM_CLOSED))
    else if canceled then
      (s, Error(CANCELED))
    else if s.feed == [] then
      (Closed(s.(failure := Some(NOT_REGISTERED))), Error(NOT_REGISTERED))
    else
      var rest := s.(feed := s.feed[1..]);
      match s.feed[0]
      case Lost(error) => (Closed(rest.(failure := Some(error))), Error(error))
      case Got(frame) =>
        match Decode(frame, s.latest)
        case Err(error) => (Closed(rest.(failure := Some(error))), Error(error))
        case Ok(event) =>
          (rest.(latest := if event.usage.Some? then event.usage else s.latest, ended := event.IsTerminal()), Yields(event))
  }

  // ---- what a call means, frame by frame ----

  /** The event of a frame: its kind, its turn id, and what it carries. */
  ghost predicate Shows(f: Frame, latest: Option<Usage>, e: Event) {
    && e.turnId == (match f
                    case Started(turn) => turn.id
                    case TurnDone(turn) => turn.id
                    case ItemDone(id, _) => id
                    case UsageNews(id, _) => id
                    case OtherFrame(_, id) => id
                    case Garbled(_) => "")
    && (e.kind == TurnStarted <==> f.Started?)
    && (e.kind == ItemCompleted <==> f.ItemDone?)
    && (e.kind == UsageUpdated <==> f.UsageNews?)
    && (e.kind == TurnFailed <==> f.TurnDone? && f.turn.status == "failed")
    && (e.kind == TurnCompleted <==> f.TurnDone? && f.turn.status != "failed")
    && (f.OtherFrame? ==> e.kind == Other(f.name))
    && e.turn == (if f.Started? || f.TurnDone? then Some(f.turn) else None)
    && e.item == (if f.ItemDone? then Some(f.item) else None)
    && e.usage == (if f.UsageNews? then f.usage else if f.TurnDone? then latest else None)
    && e.error == (if f.TurnDone? then f.turn.error else None)
  }

  /** Why a call returns no event, in the order of the checks; none if the next frame decodes. */
  ghost predicate Stops(s: State, canceled: bool, y: Yield) {
    if s.failure.Some? then y == Error(s.failure.value)
    else if s.ended then y == Eof
    else if s.closed then y == Error("codex: stream closed")
    else if canceled then y == Error("context canceled")
    else if s.feed == [] then y == Error("router: turn is not registered")
    else if s.feed[0].Lost? then y == Error(s.feed[0].error)
    else s.feed[0].frame.Garbled? && y == Error(s.feed[0].frame.error)
  }

  /** A call returns the event of the next frame, or stops. */
  ghost predicate Returns(s: State, canceled: bool, y: Yield) {
    if y.Yields? then
      Running(s) && !canceled && s.feed != [] && s.feed[0].Got? && !s.feed[0].frame.Garbled? && Shows(s.feed[0].frame, s.latest, y.event)
    else
      Stops(s, canceled, y)
  }

  /**
    What a call leaves: one frame less and the latest usage; after a transport or decode error the error
    and a closed, unregistered stream; nothing changed if it did not get to receive.
   */
  ghost predicate Leaves(s: State, canceled: bool, t: State) {
    if !Running(s) || canceled then
      t == s
    else if s.feed == [] || s.feed[0].Lost? || s.feed[0].frame.Garbled? then
      && t.failure.Some? && Stops(s, canceled, Error(t.failure.value)) && !t.ended && t.latest == s.latest
      && t.closed && t.feed == [] && t.unregistered == s.unregistered + 1
    else
      var f := s.feed[0].frame;
      && t.failure.None? && t.ended == f.TurnDone? && !t.closed && t.unregistered == s.unregistered
      && t.latest == (if f.UsageNews? && f.usage.Some? then f.usage else s.latest)
      && t.feed == s.feed[1..]
  }

  ghost predicate Running(s: State) {
    !s.ended && !s.closed && s.failure.None?
  }

  lemma AdvanceMeans(s: State, canceled: bool)
    ensures Returns(s, canceled, Advance(s, canceled).1)
    ensures Leaves(s, canceled, Advance(s, canceled).0)
  {
  }

  class TurnStream {
    var feed: seq<Arrival>
    var latestUsage: Option<Usage>
    var terminalErr: Option<string>
    var terminalEOF: bool
    var closed: bool
    ghost var unregistered: nat

    ghost function Value(): State
      reads this
    {
      State(feed, latestUsage, terminalErr, terminalEOF, closed, unregistered)
    }

    constructor (feed: seq<Arrival>)
      ensures Value() == Open(feed)
    {
      this.feed := feed;
      latestUsage, terminalErr, terminalEOF, closed, unregistered := None, None, false, false, 0;
    }

    method Next(canceled: bool) returns (r: Yield)
      modifies this
      ensures (Value(), r) == Advance(old(Value()), canceled)
      ensures Returns(old(Value()), canceled, r) && Leaves(old(Value()), canceled, Value())
    {
      AdvanceMeans(Value(), canceled);
      hide Returns, Leaves;
      if terminalErr.Some? {
        return Error(terminalErr.value);
      }
      if terminalEOF {
        return Eof;
      }
      if closed {
        return Error(STREAM_CLOSED);
      }
      if canceled {
        return Error(CANCELED);
      }
      var arrival := if feed == [] then Lost(NOT_REGISTERED) else feed[0];
      feed := if feed == [] then [] else feed[1..];
      if arrival.Lost? {
        terminalErr := Some(arrival.error);
        Close();
        return Error(arrival.error);
      }
      var decoded := Decode(arrival.frame, latestUsage);
      if decoded.Err? {
        terminalErr := Some(decoded.error);
        Close();
        return Error(decoded.error);
      }
      if decoded.value.usage.Some? {
        latestUsage := decoded.value.usage;
      }
      if decoded.value.IsTerminal() {
        terminalEOF := true;
      }
      return Yields(decoded.value);
    }

    method Close()
      modifies this`closed, this`feed, this`unregistered
      ensures Value() == Closed(old(Value()))
    {
      if !closed {
        closed := true;
        feed := [];
        unregistered := unregistered + 1;
      }
    }
  }

  // ---- every sequence of calls ----

  datatype Call = CallNext(canceled: bool) | CallClose

  function After(s: State, call: Call): State {
    match call
    case CallNext(canceled) => Advance(s, canceled).0
    case CallClose => Closed(s)
  }

  function Yielded(s: State, call: Call): seq<Yield> {
    match call
    case CallNext(canceled) => [Advance(s, canceled).1]
    case CallClose => []
  }

  function Yieldings(s: State, calls: seq<Call>): seq<Yield>
    decreases |calls|
  {
    if calls == [] then [] else Yielded(s, calls[0]) + Yieldings(After(s, calls[0]), calls[1..])
  }

  function Final(s: State, calls: seq<Call>): State
    decreases |calls|
  {
    if calls == [] then s else Final(After(s, calls[0]), calls[1..])
  }

  ghost predicate Terminal(y: Yield) {
    y.Yields? && y.event.IsTerminal()
  }

  /** After a terminal event there is only end of file. */
  lemma {:induction false} EndIsFinal(s: State, calls: seq<Call>)
    requires s.ended && s.failure.None?
    ensures forall i :: 0 <= i < |Yieldings(s, calls)| ==> Yieldings(s, calls)[i] == Eof
    decreases |calls|
  {
    if calls != [] {
      EndIsFinal(After(s, calls[0]), calls[1..]);
    }
  }

  /** After a transport or decode error every call returns that error. */
  lemma {:induction false} FailureIsFinal(s: State, calls: seq<Call>)
    requires s.failure.Some?
    ensures forall i :: 0 <= i < |Yieldings(s, calls)| ==> Yieldings(s, calls)[i] == Error(s.failure.value)
    decreases |calls|
  {
    if calls != [] {
      FailureIsFinal(After(s, calls[0]), calls[1..]);
    }
  }

  /** At most one terminal event, and after it nothing but end of file, whatever the calls. */
  lemma {:induction false} TerminalOnceThenEof(s: State, calls: seq<Call>, i: nat, j: nat)
    requires s.failure.None? && !s.ended
    requires i < j < |Yieldings(s, calls)| && Terminal(Yieldings(s, calls)[i])
    ensures Yieldings(s, calls)[j] == Eof
    decreases |calls|
  {
    var t := After(s, calls[0]);
    var n := |Yielded(s, calls[0])|;
    if t.ended {
      EndIsFinal(t, calls[1..]);
    } else if t.failure.Some? {
      FailureIsFinal(t, calls[1..]);
    } else {
      assert i >= n;
      TerminalOnceThenEof(t, calls[1..], i - n, j - n);
    }
  }

  /** The route is unregistered at most once, and exactly when the stream is closed. */
  lemma {:induction false} UnregisteredOnce(s: State, calls: seq<Call>)
    requires s.unregistered == if s.closed then 1 else 0
    ensures Final(s, calls).unregistered == if Final(s, calls).closed then 1 else 0
    decreases |calls|
  {
    if calls != [] {
      UnregisteredOnce(After(s, calls[0]), calls[1..]);
    }
  }

  // ---- collecting a turn ----

  /** The decoded events up to and including the first terminal one. */
  datatype Story = Story(events: seq<Event>, error: Option<string>)

  /** What consecutive uncancelled calls yield until the end of file or an error. */
  function Told(s: State): Story
    decreases |s.feed|
  {
    match Advance(s, false)
    case (t, Yields(event)) => var rest := Told(t); Story([event] + rest.events, rest.error)
    case (_, Eof) => Story([], None)
    case (_, Error(error)) => Story([], Some(error))
  }

  function Items(events: seq<Event>): seq<Item> {
    if events == [] then []
    else (if events[0].kind.ItemCompleted? && events[0].item.Some? then [events[0].item.value] else []) + Items(events[1..])
  }

  lemma {:induction false} ItemsAppend(a: seq<Event>, b: seq<Event>)
    ensures Items(a + b) == Items(a) + Items(b)
    decreases |a|
  {
    if a == [] {
      assert a + b == b;
    } else {
      assert (a + b)[1..] == a[1..] + b;
      ItemsAppend(a[1..], b);
    }
  }

  /** The last usage any frame of the feed reports before the turn is done. */
  function LastReported(feed: seq<Arrival>, before: Option<Usage>): Option<Usage> {
    if feed == [] || feed[0].Lost? || feed[0].frame.Garbled? || feed[0].frame.TurnDone? then
      before
    else if feed[0].frame.UsageNews? && feed[0].frame.usage.Some? then
      LastReported(feed[1..], feed[0].frame.usage)
    else
      LastReported(feed[1..], before)
  }

  datatype TurnResult = TurnResult(
    id: string, status: string, error: Option<string>, finalResponse: string, items: seq<Item>, usage: Option<Usage>)

  /** The last message in phase final_answer decides; otherwise the last untagged message with a text. */
  ghost predicate IsFinalResponse(items: seq<Item>, r: string) {
    if exists i :: 0 <= i < |items| && Tagged(items[i]) then
      exists i :: 0 <= i < |items| && Tagged(items[i]) && items[i].text == r && (forall j :: i < j < |items| ==> !Tagged(items[j]))
    else if exists i :: 0 <= i < |items| && Plain(items[i]) then
      exists i :: 0 <= i < |items| && Plain(items[i]) && items[i].text == r && (forall j :: i < j < |items| ==> !Plain(items[j]))
    else
      r == ""
  }

  predicate Tagged(item: Item) {
    item.Message? && item.phase == "final_answer"
  }

  predicate Plain(item: Item) {
    item.Message? && item.phase == "" && item.text != ""
  }

  method FinalAssistantResponse(items: seq<Item>) returns (r: string)
    ensures IsFinalResponse(items, r)
  {
    var fallback := "";
    var i := |items| - 1;
    while i >= 0
      invariant -1 <= i < |items|
      invariant forall j :: i < j < |items| ==> !Tagged(items[j])
      invariant fallback == "" ==> forall j :: i < j < |items| ==> !Plain(items[j])
      invariant fallback != "" ==>
        exists k :: i < k < |items| && Plain(items[k]) && items[k].text == fallback && (forall j :: k < j < |items| ==> !Plain(items[j]))
    {
      if items[i].Message? {
        if items[i].phase == FINAL_ANSWER {
          return items[i].text;
        }
        if items[i].phase == "" && fallback == "" {
          fallback := items[i].text;
        }
      }
      i := i - 1;
    }
    r := fallback;
  }

  const NOT_COMPLETED := "codex: turn completed event not received"

  /** What the rest of a stream amounts to: the terminal event's turn with everything collected, or why there is none. */
  ghost predicate Collected(s: State, turnId: string, r: Result<TurnResult, string>) {
    var story := Told(s);
    if story.error.Some? then
      r == Err(story.error.value)
    else if story.events == [] then
      r == Err(NOT_COMPLETED)
    else
      var end := story.events[|story.events| - 1];
      && end.IsTerminal() && end.turn.Some?
      && if end.turn.value.status == FAILED then
           r == Err(FailureText(end.error, turnId))
         else
           && r.Ok?
           && r.value.id == end.turn.value.id && r.value.status == end.turn.value.status && r.value.error.None?
           && r.value.items == Items(story.events)
           && IsFinalResponse(r.value.items, r.value.finalResponse)
           && r.value.usage == LastReported(s.feed, s.latest)
  }

  // ---- the same, read off the frames ----

  /** The items of the completed-item frames, in order. */
  function ItemsOf(frames: seq<Arrival>): seq<Item> {
    if frames == [] then []
    else (if frames[0].Got? && frames[0].frame.ItemDone? then [frames[0].frame.item] else []) + ItemsOf(frames[1..])
  }

  /** The frame that ends the collection: the turn's end, or one that is lost or does not decode. */
  ghost predicate Ending(a: Arrival) {
    a.Lost? || a.frame.Garbled? || a.frame.TurnDone?
  }

  ghost predicate EndsAt(feed: seq<Arrival>, k: nat) {
    && k <= |feed|
    && (forall i :: 0 <= i < k ==> !Ending(feed[i]))
    && (k < |feed| ==> Ending(feed[k]))
  }

  /** The result of a turn whose feed ends the collection at `k`. */
  ghost predicate ReadsAs(feed: seq<Arrival>, latest: Option<Usage>, k: nat, turnId: string, r: Result<TurnResult, string>)
    requires EndsAt(feed, k)
  {
    if k == |feed| then r == Err("router: turn is not registered")
    else if feed[k].Lost? then r == Err(feed[k].error)
    else if feed[k].frame.Garbled? then r == Err(feed[k].frame.error)
    else
      var turn := feed[k].frame.turn;
      if turn.status == "failed" then
        r == Err(if turn.error.Some? && turn.error.value != "" then turn.error.value else "codex: turn " + turnId + " failed")
      else
        && r.Ok? && r.value.id == turn.id && r.value.status == turn.status && r.value.error.None?
        && r.value.items == ItemsOf(feed[..k]) && IsFinalResponse(ItemsOf(feed[..k]), r.value.finalResponse)
        && r.value.usage == LastReported(feed, latest)
  }

  /** What a stream that is open yields, from its feed alone. */
  lemma {:induction false} ToldOfFrames(s: State, k: nat)
    requires Running(s) && EndsAt(s.feed, k)
    ensures var story := Told(s);
      && Items(story.events) == ItemsOf(s.feed[..k])
      && (if k < |s.feed| && s.feed[k].Got? && s.feed[k].frame.TurnDone? then
            && story.error.None? && story.events != []
            && var end := story.events[|story.events| - 1];
               end.turn == Some(s.feed[k].frame.turn) && end.error == s.feed[k].frame.turn.error
          else
            story.error == Some(if k == |s.feed| then "router: turn is not registered"
                                else if s.feed[k].Lost? then s.feed[k].error
                                else s.feed[k].frame.error))
    decreases k
  {
    AdvanceMeans(s, false);
    var (t, y) := Advance(s, false);
    if k > 0 {
      assert !Ending(s.feed[0]);
      ToldOfFrames(t, k - 1);
      assert s.feed[..k][1..] == t.feed[..k - 1];
    } else if y.Yields? {
      assert Told(t) == Story([], None);
      assert Items([y.event]) == [];
    }
  }

  lemma CollectedReadsAs(s: State, k: nat, turnId: string, r: Result<TurnResult, string>)
    requires Running(s) && EndsAt(s.feed, k) && Collected(s, turnId, r)
    ensures ReadsAs(s.feed, s.latest, k, turnId, r)
  {
    hide Told, IsFinalResponse, LastReported, Items, ItemsOf;
    ToldOfFrames(s, k);
  }

  /** A stream that is not open any more: its failure, nothing after its end, or that it is closed. */
  ghost predicate NotOpen(s: State, r: Result<TurnResult, string>) {
    if s.failure.Some? then r == Err(s.failure.value)
    else if s.ended then r == Err("codex: turn completed event not received")
    else r == Err("codex: stream closed")
  }

  /** The result of collecting a turn, from the feed. */
  ghost predicate FromFrames(s: State, turnId: string, r: Result<TurnResult, string>) {
    if Running(s) then forall k: nat | EndsAt(s.feed, k) :: ReadsAs(s.feed, s.latest, k, turnId, r) else NotOpen(s, r)
  }

  lemma CollectedFromFrames(s: State, turnId: string, r: Result<TurnResult, string>)
    requires Collected(s, turnId, r)
    ensures FromFrames(s, turnId, r)
  {
    hide IsFinalResponse, LastReported, Items, ItemsOf, EndsAt, ReadsAs;
    if Running(s) {
      forall k: nat | EndsAt(s.feed, k)
        ensures ReadsAs(s.feed, s.latest, k, turnId, r)
      {
        CollectedReadsAs(s, k, turnId, r);
      }
    }
  }

  lemma SameEnd(feed: seq<Arrival>, j: nat, k: nat)
    requires EndsAt(feed, j) && EndsAt(feed, k)
    ensures j == k
  {
  }

  /** Every feed ends the collection somewhere, at one place. */
  lemma {:induction false} EndsSomewhere(feed: seq<Arrival>) returns (k: nat)
    ensures EndsAt(feed, k) && forall j: nat | EndsAt(feed, j) :: j == k
  {
    k := 0;
    while k < |feed| && !Ending(feed[k])
      invariant k <= |feed| && forall i :: 0 <= i < k ==> !Ending(feed[i])
    {
      k := k + 1;
    }
    forall j: nat | EndsAt(feed, j)
      ensures j == k
    {
      SameEnd(feed, j, k);
    }
  }

  function FailureText(error: Option<string>, turnId: string): string {
    if error.Some? && error.value != "" then error.value else "codex: turn " + turnId + " failed"
  }

  /** Before its end the stream remembers the last usage reported so far. */
  lemma UsageCarriesOver(s: State)
    requires !s.ended && !s.closed && s.failure.None?
    requires Advance(s, false).1.Yields? && !Advance(s, false).1.event.IsTerminal()
    ensures var t := Advance(s, false).0; LastReported(t.feed, t.latest) == LastReported(s.feed, s.latest)
  {
  }

  /** The locals of collectTurnResult. */
  datatype Locals = Locals(completed: Option<Turn>, items: seq<Item>, usage: Option<Usage>, turnErr: Option<string>)

  function Absorb(l: Locals, event: Event): Locals {
    match event.kind
    case ItemCompleted => if event.item.Some? then l.(items := l.items + [event.item.value]) else l
    case UsageUpdated => l.(usage := event.usage)
    case TurnCompleted => l.(completed := event.turn, usage := if event.usage.Some? then event.usage else l.usage)
    case TurnFailed =>
      l.(completed := event.turn, turnErr := event.error, usage := if event.usage.Some? then event.usage else l.usage)
    case _ => l
  }

  /** The locals after `done` has been consumed of the story of `s`, with the stream now at `now`. */
  ghost predicate Collecting(s: State, now: State, done: seq<Event>, l: Locals) {
    Consumed(s, now, done, l.items) && Summed(s, now, done, l)
  }

  ghost predicate Consumed(s: State, now: State, done: seq<Event>, items: seq<Item>) {
    Told(s) == Story(done + Told(now).events, Told(now).error) && items == Items(done)
  }

  ghost predicate Summed(s: State, now: State, done: seq<Event>, l: Locals) {
    if l.completed.None? then
      && l.turnErr.None?
      && (done != [] ==> !now.ended)
      && (Running(now) ==>
            && LastReported(now.feed, now.latest) == LastReported(s.feed, s.latest)
            && (now.latest.None? ==> l.usage.None?))
    else
      && now.ended && now.failure.None? && done != []
      && var end := done[|done| - 1];
         && end.IsTerminal() && end.turn == l.completed
         && l.turnErr == (if end.kind.TurnFailed? then end.error else None)
         && end.kind.TurnFailed? == (l.completed.value.status == FAILED)
         && l.usage == LastReported(s.feed, s.latest)
  }

  lemma AbsorbKeepsConsumed(s: State, now: State, done: seq<Event>, l: Locals)
    requires Consumed(s, now, done, l.items) && Advance(now, false).1.Yields?
    ensures var (next, y) := Advance(now, false);
      Consumed(s, next, done + [y.event], Absorb(l, y.event).items)
  {
    var (next, y) := Advance(now, false);
    ItemsAppend(done, [y.event]);
    assert done + [y.event] + Told(next).events == done + Told(now).events;
  }

  lemma AbsorbKeepsCollecting(s: State, now: State, done: seq<Event>, l: Locals)
    requires Collecting(s, now, done, l) && Advance(now, false).1.Yields?
    ensures var (next, y) := Advance(now, false);
      Collecting(s, next, done + [y.event], Absorb(l, y.event))
  {
    hide Consumed;
    AbsorbKeepsConsumed(s, now, done, l);
    assert Running(now);
    if !Advance(now, false).1.event.IsTerminal() {
      UsageCarriesOver(now);
    }
  }

  /** At the end of file nothing is left to tell. */
  lemma EndOfCollecting(s: State, now: State, done: seq<Event>, l: Locals)
    requires Collecting(s, now, done, l) && Advance(now, false).1.Eof?
    ensures Told(s) == Story(done, None)
    ensures l.completed.None? ==> done == []
  {
  }

  method CollectTurnResult(stream: TurnStream, turnId: string) returns (r: Result<TurnResult, string>)
    modifies stream
    ensures Collected(old(stream.Value()), turnId, r) && FromFrames(old(stream.Value()), turnId, r)
  {
    hide FromFrames, Returns, Leaves;
    var completed: Option<Turn>, items: seq<Item>, usage: Option<Usage>, turnErr: Option<string> := None, [], None, None;
    ghost var s := stream.Value();
    ghost var done: seq<Event> := [];
    while true
      invariant Collecting(s, stream.Value(), done, Locals(completed, items, usage, turnErr))
      decreases |stream.feed|
    {
      ghost var before, locals := stream.Value(), Locals(completed, items, usage, turnErr);
      var y := stream.Next(false);
      if y.Eof? {
        EndOfCollecting(s, before, done, locals);
        break;
      }
      if y.Error? {
        r := Err(y.error);
        CollectedFromFrames(s, turnId, r);
        return;
      }
      var event := y.event;
      AbsorbKeepsCollecting(s, before, done, locals);
      done := done + [event];
      match event.kind
      case ItemCompleted =>
        if event.item.Some? {
          items := items + [event.item.value];
        }
      case UsageUpdated =>
        usage := event.usage;
      case TurnCompleted =>
        completed := event.turn;
        if event.usage.Some? {
          usage := event.usage;
        }
      case TurnFailed =>
        completed := event.turn;
        turnErr := event.error;
        if event.usage.Some? {
          usage := event.usage;
        }
      case _ =>
    }
    r := TurnOutcome(turnId, completed, items, usage, turnErr);
    CollectedFromFrames(s, turnId, r);
  }

  /** What collectTurnResult makes of its locals once the stream has ended. */
  method TurnOutcome(turnId: string, completed: Option<Turn>, items: seq<Item>, usage: Option<Usage>, turnErr: Option<string>)
    returns (r: Result<TurnResult, string>)
    ensures completed.None? ==> r == Err(NOT_COMPLETED)
    ensures completed.Some? && completed.value.status == FAILED ==> r == Err(FailureText(turnErr, turnId))
    ensures completed.Some? && completed.value.status != FAILED ==>
      && r.Ok? && IsFinalResponse(items, r.value.finalResponse)
      && r.value == TurnResult(completed.value.id, completed.value.status, turnErr, r.value.finalResponse, items, usage)
  {
    if completed.None? {
      return Err(NOT_COMPLETED);
    }
    if completed.value.status == FAILED {
      return Err(FailureText(turnErr, turnId));
    }
    var final := FinalAssistantResponse(items);
    return Ok(TurnResult(completed.value.id, completed.value.status, turnErr, final, items, usage));
  }
}
