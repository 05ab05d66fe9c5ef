/** The two timers of a message buffer over whole runs: when they rest, how often they expire, and what flushes come of
    them (ws_chat_aggregate.go). */
module Timers {
  import opened Pipeline
  import opened Text

  // ---------------------------------------------------------------- flushes come from expired timers

  /** How many timers of a conversation's buffers the run has seen expire. */
  ghost function Expired(states: seq<State>, events: seq<Event>, c: string): nat
    requires |states| > |events|
  {
    if events == [] then 0
    else
      var n := |events| - 1;
      Expired(states, events[..n], c) + if Expires(states[n], events[n], c) then 1 else 0
  }

  predicate Expires(s: State, e: Event, c: string) {
    (e.FireSoft? || e.FireHard?) && e.ref < |s.heap| && s.heap[e.ref].conv == c
  }

  lemma StepFlushes(s: State, e: Event, c: string)
    requires WellFormed(s) && Enabled(s, e)
    ensures Apply(s, e).flushes[c] + (if e == Flush(c) then 1 else 0) ==
              s.flushes[c] + if Expires(s, e, c) then 1 else 0
  {
    hide Format, Blank, AddStep, FlushBufferStep, SendStep, ReceiveStep, FinishStep;
    match e
    case Add(i) => AddFlushes(s, i);
    case FlushBuffer(q) => FlushBufferFlushes(s, q);
    case Send(q) => QueueFlushes(s, q, "");
    case Receive(k) => QueueFlushes(s, 0, k);
    case Finish(k) => QueueFlushes(s, 0, k);
    case _ =>
  }

  lemma AddFlushes(s: State, i: Input)
    requires WellFormed(s)
    ensures AddStep(s, i).flushes == s.flushes
  {
  }

  lemma FlushBufferFlushes(s: State, q: nat)
    requires q < |s.heap|
    ensures FlushBufferStep(s, q).flushes == s.flushes
  {
    hide Format, Blank;
  }

  lemma QueueFlushes(s: State, q: nat, k: string)
    requires WellFormed(s)
    ensures Enabled(s, Send(q)) ==> SendStep(s, q).flushes == s.flushes
    ensures Enabled(s, Receive(k)) ==> ReceiveStep(s, k).flushes == s.flushes
    ensures Enabled(s, Finish(k)) ==> FinishStep(s, k).flushes == s.flushes
  {
    hide Format;
  }

  lemma CountLast(events: seq<Event>, e: Event)
    requires events != []
    ensures var n := |events| - 1;
            multiset(events)[e] == multiset(events[..n])[e] + if events[n] == e then 1 else 0
  {
    var n := |events| - 1;
    assert events == events[..n] + [events[n]];
  }

  lemma LastStep(states: seq<State>, events: seq<Event>)
    requires IsRun(states, events) && events != []
    ensures var n := |events| - 1;
            && IsRun(states[..n + 1], events[..n]) && states[..n + 1][n] == states[n]
            && WellFormed(states[n]) && Enabled(states[n], events[n])
            && states[n + 1] == Apply(states[n], events[n])
  {
    hide Apply, Enabled, WellFormed;
  }

  /** In every run each flush of a conversation comes from one expired timer of its buffers, and each expired timer has
      led to a flush or will. */
  lemma {:induction false} FlushesAreFires(states: seq<State>, events: seq<Event>, c: string)
    requires IsRun(states, events)
    ensures states[|events|].flushes[c] + multiset(events)[Flush(c)] == Expired(states, events, c)
    decreases |events|
  {
    if events != [] {
      hide Apply, Enabled, Expires, WellFormed, IsRun;
      var n := |events| - 1;
      LastStep(states, events);
      CountLast(events, Flush(c));
      FlushesAreFires(states[..n + 1], events[..n], c);
      SameExpired(states[..n + 1], states, events[..n], c);
      StepFlushes(states[n], events[n], c);
    }
  }

  lemma {:induction false} SameExpired(states: seq<State>, more: seq<State>, events: seq<Event>, c: string)
    requires |states| > |events| && states <= more
    ensures Expired(states, events, c) == Expired(more, events, c)
  {
    if events != [] { SameExpired(states, more, events[..|events| - 1], c); }
  }

  // ---------------------------------------------------------------- how often a timer expires

  /** A hard timer that has not expired may do so once, a soft one once for each message of its buffer. */
  ghost predicate Budget(s: State, events: seq<Event>, r: nat) {
    if r >= |s.heap| then multiset(events)[FireSoft(r)] == multiset(events)[FireHard(r)] == 0
    else
      && multiset(events)[FireHard(r)] + (if s.heap[r].hard.armed then 1 else 0) <= 1
      && multiset(events)[FireSoft(r)] + (if s.heap[r].soft.armed then 1 else 0) <= |s.heap[r].ids|
  }

  /** What a step from s to t does to one buffer: its expired timer is spent; only a message starts the soft timer
      again. */
  ghost predicate Spends(s: State, e: Event, t: State, r: nat) {
    && |s.heap| <= |t.heap|
    && (r < |s.heap| ==>
          && (t.heap[r].hard.armed ==> s.heap[r].hard.armed && e != FireHard(r))
          && (t.heap[r].soft.armed ==> e != FireSoft(r) && (s.heap[r].soft.armed || |t.heap[r].ids| > |s.heap[r].ids|))
          && |s.heap[r].ids| <= |t.heap[r].ids|)
    && (e == FireSoft(r) ==> r < |s.heap| && s.heap[r].soft.armed)
    && (e == FireHard(r) ==> r < |s.heap| && s.heap[r].hard.armed)
    && (|s.heap| <= r < |t.heap| ==> |t.heap[r].ids| == 1)
  }

  lemma AddSpends(s: State, i: Input, r: nat)
    requires WellFormed(s)
    ensures Spends(s, Add(i), AddStep(s, i), r)
  {
  }

  lemma StepSpends(s: State, e: Event, r: nat)
    requires WellFormed(s) && Enabled(s, e)
    ensures Spends(s, e, Apply(s, e), r)
  {
    hide Format, Blank, AddStep, FlushBufferStep, SendStep, CloseAllStep, FlushStep, ReceiveStep, FinishStep;
    match e
    case Add(i) => hide Spends; AddSpends(s, i, r);
    case FlushBuffer(q) => hide Spends; FlushBufferSpends(s, q, r);
    case Send(q) => SendKeeps(s, q);
    case Receive(k) => QueueKeeps(s, k);
    case Finish(k) => QueueKeeps(s, k);
    case Flush(c) => FlushKeepsOwners(s, c);
    case CloseAll => FlushKeepsOwners(s, "");
    case _ =>
  }

  lemma FlushBufferSpends(s: State, q: nat, r: nat)
    requires q < |s.heap|
    ensures Spends(s, FlushBuffer(q), FlushBufferStep(s, q), r)
  {
    hide Format, Blank;
  }

  /** In every run the hard timer of a buffer expires at most once, and the soft one at most once for each message. */
  lemma {:induction false} FiresAreFew(states: seq<State>, events: seq<Event>, r: nat)
    requires IsRun(states, events)
    ensures Budget(states[|events|], events, r)
    decreases |events|
  {
    if events != [] {
      hide Apply, Enabled, WellFormed, IsRun;
      var n := |events| - 1;
      LastStep(states, events);
      CountLast(events, FireSoft(r));
      CountLast(events, FireHard(r));
      FiresAreFew(states[..n + 1], events[..n], r);
      StepSpends(states[n], events[n], r);
    }
  }

  // ---------------------------------------------------------------- when the timers rest

  /** The timers of a buffer that is full, or that flushBuffer has had, are stopped. */
  ghost predicate Rested(s: State, r: nat) {
    r < |s.heap| && (|s.heap[r].ids| >= 10 || r in s.waiting || r in s.dropped || IsSent(s, r)) ==>
      !s.heap[r].soft.armed && !s.heap[r].hard.armed
  }

  lemma RestedAdd(s: State, i: Input, r: nat)
    requires Places(s) && Blocks(s) && Rested(s, r)
    ensures Rested(AddStep(s, i), r)
  {
    if i.conv in s.open && s.open[i.conv] == r {
      assert OnePlace(s, r) && IsOpen(s, r);
      assert r !in s.waiting && r !in s.dropped && !IsSent(s, r) && |s.heap[r].ids| == |s.heap[r].prompts|;
      RestedOwn(s, i, r);
    } else {
      hide Places, Blocks;
      RestedOther(s, i, r);
    }
  }

  lemma RestedOwn(s: State, i: Input, r: nat)
    requires WellFormed(s) && i.conv in s.open && s.open[i.conv] == r && |s.heap[r].ids| == |s.heap[r].prompts|
    requires r !in s.waiting && r !in s.dropped && !IsSent(s, r)
    ensures Rested(AddStep(s, i), r)
  {
    var t := AddStep(s, i);
    assert t.sent == s.sent && (IsSent(t, r) <==> IsSent(s, r));
    hide IsSent;
  }

  lemma RestedOther(s: State, i: Input, r: nat)
    requires WellFormed(s) && (i.conv in s.open ==> s.open[i.conv] != r) && Rested(s, r)
    requires r == |s.heap| ==> r !in s.waiting && r !in s.dropped && !IsSent(s, r)
    ensures Rested(AddStep(s, i), r)
  {
    var t := AddStep(s, i);
    assert t.sent == s.sent && (IsSent(t, r) <==> IsSent(s, r));
    hide IsSent;
  }

  lemma RestedFlushBuffer(s: State, q: nat, r: nat)
    requires q < |s.heap| && Rested(s, r)
    ensures Rested(FlushBufferStep(s, q), r)
  {
    hide Format, Blank;
  }

  lemma RestedSend(s: State, q: nat, r: nat)
    requires WellFormed(s) && Enabled(s, Send(q)) && Rested(s, r)
    ensures Rested(SendStep(s, q), r)
  {
    hide Format;
    var t := SendStep(s, q);
    if IsSent(t, r) && r != q { assert IsSent(s, r); }
  }

  lemma RestedKept(s: State, e: Event, r: nat)
    requires Inv(s) && Enabled(s, e) && Rested(s, r)
    ensures WellFormed(s) && Rested(Apply(s, e), r)
  {
    hide OnePlace, Turns, Pipeline.Timers, Queues, History;
    hide AddStep, FlushBufferStep, SendStep;
    match e
    case Add(i) => RestedAdd(s, i, r);
    case FlushBuffer(q) => RestedFlushBuffer(s, q, r);
    case Send(q) => RestedSend(s, q, r);
    case _ =>
  }

  /** In every run no timer of a full buffer, or of one that has been formatted, expires. */
  lemma {:induction false} FlushedIsQuiet(states: seq<State>, events: seq<Event>, r: nat)
    requires IsRun(states, events)
    ensures Rested(states[|events|], r)
    ensures var s := states[|events|];
            r < |s.heap| && (|s.heap[r].ids| >= 10 || r in s.waiting || r in s.dropped || IsSent(s, r)) ==>
              !Enabled(s, FireSoft(r)) && !Enabled(s, FireHard(r))
    decreases |events|
  {
    hide Apply, Inv, IsSent;
    if events != [] {
      var n := |events| - 1;
      LastStep(states, events);
      FlushedIsQuiet(states[..n + 1], events[..n], r);
      RunKeepsInv(states[..n + 1], events[..n]);
      RestedKept(states[n], events[n], r);
    }
  }
}
