/**
  Response waiters under concurrency. Removing a waiter from the map happens under the lock, sending
  to it happens afterwards, so responses and the failure race for the same one-slot channels.
 */
module ResponseMachine {
  import opened Wrappers

  /** What a waiter is sent: the response to the request with this id, or the failure. */
  datatype Message = Answer(id: string, result: string) | Failure(error: string)

  /** Where one waiter is; each names the only place that can still send to it. */
  datatype Fate =
    | Waiting(id: string)      // in the map
    | Taken(sender: nat)       // a RouteResponse call has removed it and is about to send
    | Flagged                  // FailAll has it in its snapshot and is about to send
    | Answered                 // RouteResponse has sent
    | Errored                  // FailAll has sent
    | Discarded                // its requester removed it

  /**
    `owners` is the request id each waiter was made for; `sent` and `received` record every message that
    entered and left each waiter's channel.
   */
  datatype State = State(
    limit: int,
    failed: Option<string>,
    pending: map<string, nat>,
    senders: map<nat, (nat, Message)>,
    unserved: set<nat>,
    fates: seq<Fate>,
    owners: seq<string>,
    sent: seq<seq<Message>>,
    received: seq<seq<Message>>)

  datatype Step =
    | Create(id: string)
    | Discard(id: string)
    | Take(sender: nat, id: string, message: Message)
    | Send(sender: nat)
    | Fail(error: string)
    | SendFailure(w: nat)
    | Receive(w: nat)

  ghost function Init(limit: int): State {
    State(limit, None, map[], map[], {}, [], [], [], [])
  }

  ghost predicate Sound(s: State) {
    && |s.fates| == |s.sent| == |s.received|
    && (forall id :: id in s.pending ==> s.pending[id] < |s.fates| && s.fates[s.pending[id]] == Waiting(id))
    && (forall t :: t in s.senders ==> s.senders[t].0 < |s.fates| && s.fates[s.senders[t].0] == Taken(t))
    && (forall w :: w in s.unserved ==> w < |s.fates| && s.fates[w] == Flagged)
    && (forall w :: 0 <= w < |s.fates| ==> Placed(s, w) && Delivered(s, w))
    && (s.failed.Some? ==> s.pending == map[])
    && (s.failed.None? ==> s.unserved == {})
  }

  /** A waiter is where its fate says. */
  ghost predicate Placed(s: State, w: nat)
    requires w < |s.fates|
  {
    match s.fates[w]
    case Waiting(id) => id in s.pending && s.pending[id] == w
    case Taken(t) => t in s.senders && s.senders[t].0 == w
    case Flagged => w in s.unserved
    case Errored => s.failed.Some?
    case _ => true
  }

  /** Exactly the answered and the failed waiters have been sent to, once each. */
  ghost predicate Delivered(s: State, w: nat)
    requires w < |s.fates| == |s.sent| == |s.received|
  {
    && s.received[w] <= s.sent[w]
    && match s.fates[w]
       case Answered => |s.sent[w]| == 1
       case Errored => s.failed.Some? && s.sent[w] == [Failure(s.failed.value)]
       case _ => s.sent[w] == []
  }

  /** What the channel holds now. */
  ghost function Channel(s: State, w: nat): int
    requires w < |s.sent| == |s.received|
  {
    |s.sent[w]| - |s.received[w]|
  }

  ghost predicate Enabled(s: State, step: Step) {
    match step
    case Take(t, id, message) => t !in s.senders && message.Answer? && message.id == id
    case Send(t) => t in s.senders
    case SendFailure(w) => w in s.unserved
    case Receive(w) => w < |s.sent| == |s.received| && 0 < Channel(s, w)
    case _ => true
  }

  ghost function Deliver(s: State, w: nat, message: Message, fate: Fate): State
    requires w < |s.fates| == |s.sent|
  {
    s.(fates := s.fates[w := fate], sent := s.sent[w := s.sent[w] + [message]])
  }

  ghost function Apply(s: State, step: Step): State
    requires Sound(s) && Enabled(s, step)
  {
    match step
    case Create(id) =>
      if s.failed.Some? || id in s.pending || |s.pending| >= s.limit then
        s
      else
        s.(pending := s.pending[id := |s.fates|], fates := s.fates + [Waiting(id)], owners := s.owners + [id],
           sent := s.sent + [[]], received := s.received + [[]])
    case Discard(id) =>
      if id in s.pending then
        s.(pending := s.pending - {id}, fates := s.fates[s.pending[id] := Discarded])
      else
        s
    case Take(t, id, message) =>
      if id in s.pending then
        s.(pending := s.pending - {id}, fates := s.fates[s.pending[id] := Taken(t)],
           senders := s.senders[t := (s.pending[id], message)])
      else
        s
    case Send(t) =>
      Deliver(s, s.senders[t].0, s.senders[t].1, Answered).(senders := s.senders - {t})
    case Fail(error) =>
      if s.failed.Some? then
        s
      else
        s.(failed := Some(error), pending := map[],
           unserved := s.pending.Values,
           fates := seq(|s.fates|, i requires 0 <= i < |s.fates| => if s.fates[i].Waiting? then Flagged else s.fates[i]))
    case SendFailure(w) =>
      Deliver(s, w, Failure(s.failed.value), Errored).(unserved := s.unserved - {w})
    case Receive(w) =>
      s.(received := s.received[w := s.sent[w][..|s.received[w]| + 1]])
  }

  lemma FailKeepsSound(s: State, error: string)
    requires Sound(s) && s.failed.None?
    ensures Sound(Apply(s, Fail(error)))
  {
    var t := Apply(s, Fail(error));
    forall w | 0 <= w < |t.fates|
      ensures Placed(t, w) && Delivered(t, w)
    {
      assert Placed(s, w) && Delivered(s, w);
      if s.fates[w].Waiting? {
        assert s.fates[w].id in s.pending && s.pending[s.fates[w].id] == w;
      }
    }
  }

  lemma CreateKeepsSound(s: State, id: string)
    requires Sound(s)
    ensures Sound(Apply(s, Create(id)))
  {
    var t := Apply(s, Create(id));
    forall w | 0 <= w < |t.fates|
      ensures Placed(t, w) && Delivered(t, w)
    {
      if w < |s.fates| {
        assert Placed(s, w) && Delivered(s, w);
      }
    }
  }

  /** Discard and RouteResponse take a waiter out of the map and decide its fate. */
  lemma RemovalKeepsSound(s: State, step: Step)
    requires Sound(s) && Enabled(s, step) && (step.Discard? || step.Take?)
    ensures Sound(Apply(s, step))
  {
    var t := Apply(s, step);
    forall w | 0 <= w < |t.fates|
      ensures Placed(t, w) && Delivered(t, w)
    {
      assert Placed(s, w) && Delivered(s, w);
    }
  }

  lemma DeliveryKeepsSound(s: State, step: Step)
    requires Sound(s) && Enabled(s, step) && (step.Send? || step.SendFailure? || step.Receive?)
    ensures Sound(Apply(s, step))
  {
    var t := Apply(s, step);
    forall w | 0 <= w < |t.fates|
      ensures Placed(t, w) && Delivered(t, w)
    {
      assert Placed(s, w) && Delivered(s, w);
    }
  }

  lemma StepKeepsSound(s: State, step: Step)
    requires Sound(s) && Enabled(s, step)
    ensures Sound(Apply(s, step))
  {
    match step
    case Create(id) => CreateKeepsSound(s, id);
    case Fail(error) => if s.failed.None? { FailKeepsSound(s, error); }
    case Discard(_) => RemovalKeepsSound(s, step);
    case Take(_, _, _) => RemovalKeepsSound(s, step);
    case _ => DeliveryKeepsSound(s, step);
  }

  ghost predicate Run(limit: int, states: seq<State>, steps: seq<Step>) {
    && |states| == |steps| + 1
    && states[0] == Init(limit)
    && forall i :: 0 <= i < |steps| && Sound(states[i]) ==>
         Enabled(states[i], steps[i]) && states[i + 1] == Apply(states[i], steps[i])
  }

  lemma {:induction false} RunIsSound(limit: int, states: seq<State>, steps: seq<Step>, n: nat)
    requires Run(limit, states, steps) && n < |states|
    ensures Sound(states[n])
  {
    if n > 0 {
      RunIsSound(limit, states, steps, n - 1);
      StepKeepsSound(states[n - 1], steps[n - 1]);
      assert states[n] == states[n - 1 + 1];
    }
  }

  // ---- responses and the requests they answer ----

  ghost predicate AnswersOwner(s: State, w: nat)
    requires w < |s.owners| == |s.sent|
  {
    forall m <- s.sent[w] :: m.Answer? ==> m.id == s.owners[w]
  }

  /** Waiters are found, and messages sent, under the id of the request the waiter was made for. */
  ghost predicate Matched(s: State) {
    && |s.owners| == |s.fates| == |s.sent|
    && (forall id :: id in s.pending ==> s.pending[id] < |s.owners| && s.owners[s.pending[id]] == id)
    && (forall t :: t in s.senders ==>
          s.senders[t].0 < |s.owners| && s.senders[t].1.Answer? && s.senders[t].1.id == s.owners[s.senders[t].0])
    && (forall w :: 0 <= w < |s.owners| ==> AnswersOwner(s, w))
  }

  lemma StepKeepsMatched(s: State, step: Step)
    requires Sound(s) && Matched(s) && Enabled(s, step)
    ensures Matched(Apply(s, step))
    ensures Apply(s, step).owners == s.owners || (step.Create? && Apply(s, step).owners == s.owners + [step.id])
  {
    var t := Apply(s, step);
    forall w | 0 <= w < |t.owners|
      ensures AnswersOwner(t, w)
    {
      if w < |s.owners| {
        assert AnswersOwner(s, w);
      }
    }
  }

  lemma {:induction false} RunIsMatched(limit: int, states: seq<State>, steps: seq<Step>, n: nat)
    requires Run(limit, states, steps) && n < |states|
    ensures Sound(states[n]) && Matched(states[n])
  {
    if n > 0 {
      RunIsSound(limit, states, steps, n - 1);
      RunIsMatched(limit, states, steps, n - 1);
      StepKeepsSound(states[n - 1], steps[n - 1]);
      StepKeepsMatched(states[n - 1], steps[n - 1]);
      assert states[n] == states[n - 1 + 1];
    }
  }

  /** Request numbers its requests, so that no id is used twice. */
  ghost predicate IdsAreFresh(steps: seq<Step>) {
    forall i, j :: 0 <= i < j < |steps| && steps[i].Create? && steps[j].Create? ==> steps[i].id != steps[j].id
  }

  lemma {:induction false} OwnersWereCreated(limit: int, states: seq<State>, steps: seq<Step>, n: nat, w: nat)
    requires Run(limit, states, steps) && n < |states| && w < |states[n].owners|
    ensures exists i :: 0 <= i < n && steps[i] == Create(states[n].owners[w])
  {
    RunIsMatched(limit, states, steps, n);
    if n > 0 {
      RunIsMatched(limit, states, steps, n - 1);
      StepKeepsMatched(states[n - 1], steps[n - 1]);
      assert states[n] == states[n - 1 + 1];
      if w < |states[n - 1].owners| {
        OwnersWereCreated(limit, states, steps, n - 1, w);
      } else {
        assert steps[n - 1] == Create(states[n].owners[w]);
      }
    }
  }

  /** With fresh ids each request has a waiter of its own. */
  lemma {:induction false} OwnersAreDistinct(limit: int, states: seq<State>, steps: seq<Step>, n: nat, v: nat, w: nat)
    requires Run(limit, states, steps) && IdsAreFresh(steps)
    requires n < |states| && v < w < |states[n].owners|
    ensures states[n].owners[v] != states[n].owners[w]
  {
    RunIsMatched(limit, states, steps, n);
    if n > 0 {
      RunIsMatched(limit, states, steps, n - 1);
      StepKeepsMatched(states[n - 1], steps[n - 1]);
      assert states[n] == states[n - 1 + 1];
      if w < |states[n - 1].owners| {
        OwnersAreDistinct(limit, states, steps, n - 1, v, w);
      } else {
        OwnersWereCreated(limit, states, steps, n - 1, v);
      }
    }
  }

  // ---- the theorems ----

  /** No send ever finds its one-slot channel occupied, so no sender blocks. */
  lemma NoSenderBlocks(limit: int, states: seq<State>, steps: seq<Step>, n: nat)
    requires Run(limit, states, steps) && n < |steps|
    ensures var s := states[n];
      && Sound(s)
      && (steps[n].Send? ==> Channel(s, s.senders[steps[n].sender].0) == 0)
      && (steps[n].SendFailure? ==> Channel(s, steps[n].w) == 0)
  {
    RunIsSound(limit, states, steps, n);
    var s := states[n];
    if steps[n].Send? {
      assert Delivered(s, s.senders[steps[n].sender].0);
    } else if steps[n].SendFailure? {
      assert Delivered(s, steps[n].w);
    }
  }

  /** Each waiter gets at most one message over its whole life, and the requester at most that one. */
  lemma AtMostOneMessage(limit: int, states: seq<State>, steps: seq<Step>, n: nat, w: nat)
    requires Run(limit, states, steps) && n < |states| && w < |states[n].fates|
    ensures Sound(states[n]) && |states[n].sent[w]| <= 1 && states[n].received[w] <= states[n].sent[w]
  {
    RunIsSound(limit, states, steps, n);
    assert Delivered(states[n], w);
  }

  /**
    A waiter leaves the map by exactly one of RouteResponse, DiscardResponseWaiter and FailAll: once
    its fate is decided, the decision stands and only completes.
   */
  lemma FateIsFinal(s: State, step: Step, w: nat)
    requires Sound(s) && Enabled(s, step) && w < |s.fates|
    ensures w < |Apply(s, step).fates|
    ensures var f, g := s.fates[w], Apply(s, step).fates[w];
      || g == f
      || (f.Waiting? && (g.Taken? || g.Flagged? || g.Discarded?))
      || (f.Taken? && g.Answered?)
      || (f.Flagged? && g.Errored?)
  {
  }

  /** A discarded waiter is out of the map, and no message is sent to it in the rest of the run. */
  lemma {:induction false} DiscardedGetsNothing(limit: int, states: seq<State>, steps: seq<Step>, i: nat, n: nat, id: string)
    requires Run(limit, states, steps) && i < n < |states| && steps[i] == Discard(id) && id in states[i].pending
    ensures Sound(states[n]) && states[i].pending[id] < |states[n].fates| && states[n].fates[states[i].pending[id]].Discarded?
    ensures id !in states[i + 1].pending && states[n].sent[states[i].pending[id]] == []
    decreases n - i
  {
    hide Sound, Enabled, Apply;
    var w := states[i].pending[id];
    RunIsSound(limit, states, steps, n);
    RunIsSound(limit, states, steps, n - 1);
    RunIsSound(limit, states, steps, i);
    assert states[n] == states[n - 1 + 1] == Apply(states[n - 1], steps[n - 1]);
    DiscardTakesOut(states[i], id);
    if n > i + 1 {
      DiscardedGetsNothing(limit, states, steps, i, n - 1, id);
      FateIsFinal(states[n - 1], steps[n - 1], w);
    }
    DiscardedIsUnsent(states[n], w);
  }

  lemma DiscardTakesOut(s: State, id: string)
    requires Sound(s) && id in s.pending
    ensures var t := Apply(s, Discard(id));
      && id !in t.pending && s.pending[id] < |s.fates| == |t.fates| && t.fates[s.pending[id]] == Discarded
  {
  }

  lemma DiscardedIsUnsent(s: State, w: nat)
    requires Sound(s) && w < |s.fates| && s.fates[w].Discarded?
    ensures w < |s.sent| && s.sent[w] == []
  {
    assert Delivered(s, w);
  }

  /**
    Once FailAll has served its snapshot, the map is empty for good and every waiter has exactly one
    error, unless its requester discarded it or a response call had already removed it.
   */
  lemma FailureReachesEveryWaiter(limit: int, states: seq<State>, steps: seq<Step>, n: nat, w: nat)
    requires Run(limit, states, steps) && n < |states| && w < |states[n].fates|
    requires states[n].failed.Some? && states[n].unserved == {}
    ensures var s := states[n];
      && Sound(s)
      && s.pending == map[]
      && (s.fates[w].Discarded? || s.fates[w].Taken? || s.fates[w].Answered? || s.sent[w] == [Failure(s.failed.value)])
  {
    RunIsSound(limit, states, steps, n);
    assert Placed(states[n], w) && Delivered(states[n], w);
  }

  /** What a request receives, if not the failure, is the response to its own id; other requests have other ids. */
  lemma RequestsGetTheirOwnAnswer(limit: int, states: seq<State>, steps: seq<Step>, n: nat, w: nat, v: nat)
    requires Run(limit, states, steps) && IdsAreFresh(steps) && n < |states| && w < |states[n].fates|
    ensures var s := states[n];
      && Sound(s) && Matched(s)
      && (forall m <- s.received[w] :: m.Failure? || m.id == s.owners[w])
      && (v < |s.owners| && v != w ==> s.owners[v] != s.owners[w])
  {
    var s := states[n];
    RunIsMatched(limit, states, steps, n);
    assert Delivered(s, w) && AnswersOwner(s, w);
    if v < |s.owners| && v != w {
      OwnersAreDistinct(limit, states, steps, n, if v < w then v else w, if v < w then w else v);
    }
  }

  // ---- the limit ----

  /** A waiter is made exactly when nothing failed, the id has none, and there are fewer than the limit. */
  lemma CreatedIff(s: State, id: string)
    requires Sound(s)
    ensures var t := Apply(s, Create(id));
      if s.failed.None? && id !in s.pending && |s.pending| < s.limit then
        && |t.fates| == |s.fates| + 1 && t.fates[|s.fates|] == Waiting(id) && t.owners == s.owners + [id]
        && t.pending == s.pending[id := |s.fates|] && t.sent == s.sent + [[]]
      else
        t == s
  {
  }

  lemma StepKeepsLimit(s: State, step: Step)
    requires Sound(s) && Enabled(s, step) && |s.pending| <= s.limit
    ensures Apply(s, step).limit == s.limit && |Apply(s, step).pending| <= s.limit
  {
    hide Sound, Delivered, Placed;
    if step.Discard? || step.Take? {
      RemovedIsFewer(s.pending, step.id);
    } else if step.Create? {
      AddedIsOneMore(s.pending, step.id, |s.fates|);
    }
  }

  lemma AddedIsOneMore(m: map<string, nat>, id: string, w: nat)
    ensures |m[id := w]| <= |m| + 1
  {
    assert m[id := w].Keys == m.Keys + {id};
  }

  lemma RemovedIsFewer(m: map<string, nat>, id: string)
    ensures |m - {id}| <= |m|
  {
    assert (m - {id}).Keys == m.Keys - {id};
    assert |(m - {id}).Keys| <= |m.Keys|;
  }

  /** In every run there are never more waiters in the map than the limit says. */
  lemma {:induction false} PendingWithinLimit(limit: nat, states: seq<State>, steps: seq<Step>, n: nat)
    requires Run(limit, states, steps) && n < |states|
    ensures Sound(states[n]) && |states[n].pending| <= limit == states[n].limit
  {
    hide Apply, Sound, Enabled;
    RunIsSound(limit, states, steps, n);
    if n > 0 {
      RunIsSound(limit, states, steps, n - 1);
      PendingWithinLimit(limit, states, steps, n - 1);
      StepKeepsLimit(states[n - 1], steps[n - 1]);
      assert states[n] == states[n - 1 + 1];
    }
  }
}
