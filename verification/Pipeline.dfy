/** The websocket turn pipeline: message aggregation (api/ws_chat_aggregate.go) feeding one queue per
    user and conversation (api/ws_chat_queue.go).

    Every critical section, timer expiry, channel send and receive is one event; a run is any interleaving
    of them. Buffers are heap objects: `heap` lists them in creation order and a reference is a position
    in it. Time is in milliseconds. `added`, `dropped`, `sent` and `Turn.origin` are history: no step
    of the program depends on them. */
module Pipeline {
  import opened Text

  const AGGREGATE_WINDOW := 3000
  const HARD_AGGREGATE_LIMIT := 8000
  const MAX_AGGREGATE_MESSAGES := 10
  const CHANNEL_CAPACITY := 32

  datatype Input = Input(user: string, conv: string, prompt: string, id: string, context: int)

  /** time.AfterFunc: expires at `deadline` unless it has expired or was stopped before. */
  datatype Timer = Timer(deadline: int, armed: bool)

  datatype Buffer = Buffer(user: string, conv: string, prompts: seq<string>, ids: seq<string>, context: int,
                           soft: Timer, hard: Timer, created: int, lastAdd: int)

  datatype Turn = Turn(origin: nat, user: string, conv: string, text: string, ids: seq<string>, context: int)

  /** A channel and the goroutine that receives from it. */
  datatype Runner = Runner(channel: seq<Turn>, processing: Option<Turn>, processed: seq<Turn>)

  datatype State = State(
    now: int,
    heap: seq<Buffer>,
    open: map<string, nat>,          // ma.buffers
    flushes: multiset<string>,       // expired timers whose flush waits for the lock
    detached: set<nat>,              // buffers taken out of the map, about to run flushBuffer
    waiting: set<nat>,               // turns whose enqueue is about to send on the channel
    runners: map<string, Runner>,    // q.runners
    dropped: set<nat>,
    sent: seq<Turn>,
    added: map<string, seq<string>>)

  const INIT := State(0, [], map[], multiset{}, {}, {}, map[], {}, [], map[])

  // ---------------------------------------------------------------- formatAggregatedPrompt

  function Digits(n: nat): string {
    if n < 10 then [('0' as int + n) as char] else Digits(n / 10) + Digits(n % 10)
  }

  function Lines(prompts: seq<string>, k: nat): string
    requires k <= |prompts|
  {
    if k == 0 then "" else Lines(prompts, k - 1) + Digits(k) + ". " + Trim(prompts[k - 1]) + "\n"
  }

  function Format(prompts: seq<string>): string {
    if |prompts| == 0 then ""
    else if |prompts| == 1 then Trim(prompts[0])
    else Trim("[用户连续发送了" + Digits(|prompts|) + "条消息]\n" + Lines(prompts, |prompts|))
  }

  /** flushBuffer drops a buffer exactly when it holds one blank message: the header of a longer list is never blank. */
  lemma DroppedIffSingleBlank(prompts: seq<string>)
    ensures Blank(Format(prompts)) <==> |prompts| == 0 || (|prompts| == 1 && Blank(prompts[0]))
  {
    if |prompts| == 1 {
      TrimTwice(prompts[0]);
    } else if |prompts| > 1 {
      var s := "[用户连续发送了" + Digits(|prompts|) + "条消息]\n" + Lines(prompts, |prompts|);
      assert s[0] == '[';
      HeadSurvives(s);
      TrimTwice(s);
    }
  }

  // ---------------------------------------------------------------- what a formatted prompt says

  /** The number that a string of decimal digits denotes. */
  function Number(s: string): int {
    if s == "" then 0 else 10 * Number(s[..|s| - 1]) + (s[|s| - 1] as int - '0' as int)
  }

  /** s is n in decimal, without leading zeros. */
  predicate Denotes(s: string, n: nat) {
    s != "" && (forall i :: 0 <= i < |s| ==> '0' <= s[i] <= '9') && Number(s) == n && (|s| > 1 ==> s[0] != '0')
  }

  lemma {:induction false} DigitsDenote(n: nat)
    ensures Denotes(Digits(n), n) && (n > 0 ==> Digits(n)[0] != '0')
  {
    if n < 10 {
      assert Digits(n)[..0] == "";
    } else {
      DigitsDenote(n / 10);
      var d := Digits(n / 10);
      assert Digits(n)[..|d|] == d && Digits(n)[|d|..] == Digits(n % 10);
    }
  }

  /** The parts stand in the text, in order, without overlap. */
  ghost predicate HoldsInOrder(text: string, parts: seq<string>) {
    exists ps: seq<nat> :: StandAt(text, parts, ps)
  }

  ghost predicate StandAt(text: string, parts: seq<string>, ps: seq<nat>) {
    && |ps| == |parts|
    && (forall i :: 0 <= i < |parts| ==> At(parts[i], text, ps[i]))
    && (forall i :: 0 <= i < |parts| - 1 ==> ps[i] + |parts[i]| <= ps[i + 1])
  }

  lemma HoldsMore(text: string, parts: seq<string>, gap: string, part: string, rest: string, longer: string)
    requires HoldsInOrder(text, parts) && longer == text + gap + part + rest
    ensures HoldsInOrder(longer, parts + [part])
  {
    var ps: seq<nat> :| StandAt(text, parts, ps);
    var p := |text| + |gap|;
    forall i | 0 <= i < |parts| ensures At(parts[i], longer, ps[i]) {
      assert longer[ps[i]..ps[i] + |parts[i]|] == text[ps[i]..ps[i] + |parts[i]|];
    }
    assert longer[p..p + |part|] == part;
    assert StandAt(longer, parts + [part], ps + [p]);
  }

  function Heading(n: nat): string { "[用户连续发送了" + Digits(n) + "条消息]\n" }

  /** The header, and the number and the text of each of the first k messages. */
  function Parts(prompts: seq<string>, k: nat): seq<string>
    requires k <= |prompts|
  {
    if k == 0 then ["[用户连续发送了" + Digits(|prompts|) + "条消息]"]
    else Parts(prompts, k - 1) + [Digits(k) + "."] + [Trim(prompts[k - 1])]
  }

  lemma HeadingHolds(prompts: seq<string>)
    ensures HoldsInOrder(Heading(|prompts|), Parts(prompts, 0))
  {
    HeadingSplits(|prompts|);
    var head := "[用户连续发送了" + Digits(|prompts|) + "条消息]";
    assert Parts(prompts, 0) == [head];
    hide *;
    FirstHolds(head, "\n");
  }

  lemma HeadingSplits(n: nat)
    ensures Heading(n) == "[用户连续发送了" + Digits(n) + "条消息]" + "\n"
  {
    hide Digits;
    assert "条消息]\n" == "条消息]" + "\n";
  }

  lemma FirstHolds(head: string, tail: string)
    ensures HoldsInOrder(head + tail, [head])
  {
    assert (head + tail)[0..|head|] == head;
    assert StandAt(head + tail, [head], [0]);
  }

  /** The text up to the number of message k. */
  function UpTo(prompts: seq<string>, k: nat): string
    requires 1 <= k <= |prompts|
  {
    Heading(|prompts|) + Lines(prompts, k - 1) + Digits(k) + "."
  }

  lemma NextLine(prompts: seq<string>, k: nat)
    requires 1 <= k <= |prompts|
    ensures Heading(|prompts|) + Lines(prompts, k) == UpTo(prompts, k) + " " + Trim(prompts[k - 1]) + "\n"
  {
    hide Heading, Digits, Trim;
    assert ". " == "." + " ";
    assert Lines(prompts, k) == Lines(prompts, k - 1) + Digits(k) + "." + " " + Trim(prompts[k - 1]) + "\n";
  }

  lemma {:induction false} LinesHold(prompts: seq<string>, k: nat)
    requires k <= |prompts|
    ensures HoldsInOrder(Heading(|prompts|) + Lines(prompts, k), Parts(prompts, k))
    decreases k, 1
  {
    if k == 0 {
      HeadingHolds(prompts);
      assert Heading(|prompts|) + Lines(prompts, 0) == Heading(|prompts|);
    } else {
      NumberHolds(prompts, k);
      NextLine(prompts, k);
      hide *;
      PartsOf(prompts, k);
      HoldsMore(UpTo(prompts, k), Parts(prompts, k - 1) + [Digits(k) + "."], " ", Trim(prompts[k - 1]), "\n",
          Heading(|prompts|) + Lines(prompts, k));
    }
  }

  lemma PartsOf(prompts: seq<string>, k: nat)
    requires 1 <= k <= |prompts|
    ensures Parts(prompts, k) == Parts(prompts, k - 1) + [Digits(k) + "."] + [Trim(prompts[k - 1])]
  {
  }

  lemma NumberHolds(prompts: seq<string>, k: nat)
    requires 1 <= k <= |prompts|
    ensures HoldsInOrder(UpTo(prompts, k), Parts(prompts, k - 1) + [Digits(k) + "."])
    decreases k, 0
  {
    LinesHold(prompts, k - 1);
    var text := Heading(|prompts|) + Lines(prompts, k - 1);
    assert UpTo(prompts, k) == text + "" + (Digits(k) + ".") + "" by { hide Heading, Lines, Digits; }
    hide *;
    HoldsMore(text, Parts(prompts, k - 1), "", Digits(k) + ".", "", UpTo(prompts, k));
  }

  lemma {:induction false} TrimRightTail(s: string, tail: string)
    requires s != "" && !IsSpace(s[|s| - 1]) && forall i :: 0 <= i < |tail| ==> IsSpace(tail[i])
    ensures TrimRight(s + tail) == s
  {
    if tail == "" {
      assert s + tail == s;
    } else {
      assert (s + tail)[..|s + tail| - 1] == s + tail[..|tail| - 1];
      TrimRightTail(s, tail[..|tail| - 1]);
    }
  }

  lemma TrimHead(s: string)
    requires s != "" && !IsSpace(s[0])
    ensures Trim(s) == TrimRight(s)
  {
  }

  /** A last line loses its line break and, if it is blank, the space after its number. */
  lemma TrimLine(start: string, item: string)
    requires start != "" && !IsSpace(start[0]) && !IsSpace(start[|start| - 1]) && Trim(item) == item
    ensures Trim(start + " " + item + "\n") == start + if item == "" then "" else " " + item
  {
    var kept, tail := start + (if item == "" then "" else " " + item), if item == "" then " \n" else "\n";
    hide Trim;
    assert start + " " + item + "\n" == kept + tail;
    assert kept[0] == start[0] && (kept + tail)[0] == start[0];
    if item != "" { TrimmedEnd(item); }
    TrimRightTail(kept, tail);
    TrimHead(kept + tail);
  }

  lemma TrimmedEnd(item: string)
    requires item != "" && Trim(item) == item
    ensures !IsSpace(item[|item| - 1])
  {
  }

  lemma UpToEnds(prompts: seq<string>, k: nat)
    requires 1 <= k <= |prompts|
    ensures var u := UpTo(prompts, k); u != "" && !IsSpace(u[0]) && !IsSpace(u[|u| - 1])
  {
    hide Lines, Digits;
    var u := UpTo(prompts, k);
    assert u[0] == Heading(|prompts|)[0] == '[' && u[|u| - 1] == '.';
  }

  lemma FormatEnds(prompts: seq<string>)
    requires |prompts| >= 2
    ensures var n := |prompts|;
            Trim(Trim(prompts[n - 1])) == Trim(prompts[n - 1])
            && Format(prompts) ==
                 UpTo(prompts, n) + if Trim(prompts[n - 1]) == "" then "" else " " + Trim(prompts[n - 1])
  {
    var n := |prompts|;
    assert Format(prompts) == Trim(Heading(n) + Lines(prompts, n)) by { hide Digits, Lines, Trim; }
    NextLine(prompts, n);
    UpToEnds(prompts, n);
    TrimTwice(prompts[n - 1]);
    hide *;
    TrimLine(UpTo(prompts, n), Trim(prompts[n - 1]));
  }

  lemma HoldsLast(text: string, parts: seq<string>, item: string, longer: string)
    requires HoldsInOrder(text, parts) && longer == text + if item == "" then "" else " " + item
    ensures HoldsInOrder(longer, parts + [item])
  {
    hide HoldsInOrder;
    var gap := if item == "" then "" else " ";
    assert longer == text + gap + item + "";
    HoldsMore(text, parts, gap, item, "", longer);
  }

  /** Two or more messages: the text holds the header with their number, and for each message its number and its trimmed
      text, in order. A single message is the text, trimmed. */
  lemma FormatHolds(prompts: seq<string>)
    ensures |prompts| >= 2 ==> HoldsInOrder(Format(prompts), Parts(prompts, |prompts|))
    ensures |prompts| == 1 ==> Format(prompts) == Trim(prompts[0])
  {
    if |prompts| >= 2 {
      var n := |prompts|;
      NumberHolds(prompts, n);
      FormatEnds(prompts);
      PartsOf(prompts, n);
      hide *;
      HoldsLast(UpTo(prompts, n), Parts(prompts, n - 1) + [Digits(n) + "."], Trim(prompts[n - 1]), Format(prompts));
    }
  }

  /** Nothing else is in it: the header and the numbered lines, joined, without the spaces at the end. */
  lemma FormatIs(prompts: seq<string>)
    requires |prompts| >= 2
    ensures Format(prompts) ==
              TrimRight("[用户连续发送了" + Digits(|prompts|) + "条消息]\n"
                        + Concat(seq(|prompts|, i requires 0 <= i < |prompts| =>
                            Digits(i + 1) + ". " + Trim(prompts[i]) + "\n")))
  {
    hide Digits, Trim;
    LinesAre(prompts, |prompts|);
    var full := Heading(|prompts|) + Lines(prompts, |prompts|);
    assert full[0] == '[';
    TrimHead(full);
  }

  lemma {:induction false} LinesAre(prompts: seq<string>, k: nat)
    requires k <= |prompts|
    ensures Lines(prompts, k) ==
              Concat(seq(k, i requires 0 <= i < k => Digits(i + 1) + ". " + Trim(prompts[i]) + "\n"))
  {
    hide Digits, Trim;
    if k > 0 {
      LinesAre(prompts, k - 1);
      var a := seq(k - 1, i requires 0 <= i < k - 1 => Digits(i + 1) + ". " + Trim(prompts[i]) + "\n");
      var b := seq(k, i requires 0 <= i < k => Digits(i + 1) + ". " + Trim(prompts[i]) + "\n");
      var last := Digits(k) + ". " + Trim(prompts[k - 1]) + "\n";
      assert b == a + [last];
      ConcatSnoc(a, last);
    }
  }

  // ---------------------------------------------------------------- events

  function Key(user: string, conv: string): string { user + ":" + conv }

  function Stopped(b: Buffer): Buffer { b.(soft := b.soft.(armed := false), hard := b.hard.(armed := false)) }

  function TurnOf(b: Buffer, origin: nat): Turn {
    Turn(origin, b.user, b.conv, Format(b.prompts), b.ids, b.context)
  }

  datatype Event =
    | Tick(to: int)                    // the clock advances
    | Add(input: Input)                // add, under the lock
    | FireSoft(ref: nat)               // a due soft timer expires and spawns a flush
    | FireHard(ref: nat)
    | Flush(conv: string)              // a spawned flush gets the lock
    | CloseAll
    | FlushBuffer(ref: nat)            // flushBuffer up to the point where enqueue has its runner
    | Send(ref: nat)                   // the channel send of enqueue completes
    | Receive(key: string)             // the runner takes the next turn
    | Finish(key: string)              // processQueuedTurn returns

  predicate WellFormed(s: State) {
    && (forall c :: c in s.open ==> s.open[c] < |s.heap|)
    && (forall r :: r in s.detached ==> r < |s.heap|)
    && (forall r :: r in s.waiting ==> r < |s.heap|)
  }

  predicate Enabled(s: State, e: Event) {
    match e
    case Tick(to) => to >= s.now
    case Add(_) => true
    case FireSoft(r) => r < |s.heap| && s.heap[r].soft.armed && s.heap[r].soft.deadline <= s.now
    case FireHard(r) => r < |s.heap| && s.heap[r].hard.armed && s.heap[r].hard.deadline <= s.now
    case Flush(c) => c in s.flushes
    case CloseAll => true
    case FlushBuffer(r) => r in s.detached
    case Send(r) =>
      r in s.waiting && r < |s.heap|
      && var k := Key(s.heap[r].user, s.heap[r].conv);
         k in s.runners && |s.runners[k].channel| < CHANNEL_CAPACITY
    case Receive(k) => k in s.runners && s.runners[k].processing.None? && s.runners[k].channel != []
    case Finish(k) => k in s.runners && s.runners[k].processing.Some?
  }

  function Added(s: State, c: string): seq<string> { if c in s.added then s.added[c] else [] }

  /** A first message opens a buffer and starts its two timers. */
  function AddNew(s: State, i: Input): State {
    var b := Buffer(i.user, i.conv, [i.prompt], [i.id], i.context, Timer(s.now + AGGREGATE_WINDOW, true),
                    Timer(s.now + HARD_AGGREGATE_LIMIT, true), s.now, s.now);
    s.(heap := s.heap + [b], open := s.open[i.conv := |s.heap|])
  }

  function Appended(b: Buffer, i: Input, now: int): Buffer {
    b.(prompts := b.prompts + [i.prompt], ids := b.ids + [i.id], context := i.context, lastAdd := now)
  }

  /** A further message below the cap resets the soft timer. */
  function AddMore(s: State, i: Input, r: nat): State
    requires r < |s.heap|
  {
    s.(heap := s.heap[r := Appended(s.heap[r], i, s.now).(soft := Timer(s.now + AGGREGATE_WINDOW, true))])
  }

  /** The message that reaches the cap stops the timers and detaches the buffer. */
  function AddFull(s: State, i: Input, r: nat): State
    requires r < |s.heap|
  {
    s.(heap := s.heap[r := Stopped(Appended(s.heap[r], i, s.now))], open := s.open - {i.conv},
        detached := s.detached + {r})
  }

  function Log(s: State, i: Input): State { s.(added := s.added[i.conv := Added(s, i.conv) + [i.id]]) }

  function AddStep(s: State, i: Input): State
    requires WellFormed(s)
  {
    if i.conv !in s.open then AddNew(Log(s, i), i)
    else if |s.heap[s.open[i.conv]].prompts| + 1 >= MAX_AGGREGATE_MESSAGES then AddFull(Log(s, i), i, s.open[i.conv])
    else AddMore(Log(s, i), i, s.open[i.conv])
  }

  function FireSoftStep(s: State, r: nat): State
    requires r < |s.heap|
  {
    s.(heap := s.heap[r := s.heap[r].(soft := s.heap[r].soft.(armed := false))],
        flushes := s.flushes + multiset{s.heap[r].conv})
  }

  function FireHardStep(s: State, r: nat): State
    requires r < |s.heap|
  {
    s.(heap := s.heap[r := s.heap[r].(hard := s.heap[r].hard.(armed := false))],
        flushes := s.flushes + multiset{s.heap[r].conv})
  }

  function CloseAllStep(s: State): State {
    s.(open := map[], detached := s.detached + s.open.Values)
  }

  function FlushStep(s: State, c: string): State {
    var s := s.(flushes := s.flushes - multiset{c});
    if c in s.open then s.(open := s.open - {c}, detached := s.detached + {s.open[c]}) else s
  }

  function FlushBufferStep(s: State, r: nat): State
    requires r < |s.heap|
  {
    var b := Stopped(s.heap[r]);
    var s := s.(heap := s.heap[r := b], detached := s.detached - {r});
    if Blank(Format(b.prompts)) then s.(dropped := s.dropped + {r})
    else
      var k := Key(b.user, b.conv);
      s.(waiting := s.waiting + {r}, runners := if k in s.runners then s.runners
          else s.runners[k := Runner([], None, [])])
  }

  function SendStep(s: State, r: nat): State
    requires r < |s.heap| && Key(s.heap[r].user, s.heap[r].conv) in s.runners
  {
    var k := Key(s.heap[r].user, s.heap[r].conv);
    var turn := TurnOf(s.heap[r], r);
    var q := s.runners[k];
    s.(waiting := s.waiting - {r}, runners := s.runners[k := q.(channel := q.channel + [turn])],
        sent := s.sent + [turn])
  }

  /** The step from s to s' is the send of buffer r. */
  ghost predicate IsSend(s: State, r: nat, s': State) {
    r < |s.heap| && Key(s.heap[r].user, s.heap[r].conv) in s.runners && s' == SendStep(s, r)
  }

  function ReceiveStep(s: State, k: string): State
    requires k in s.runners && s.runners[k].channel != []
  {
    var q := s.runners[k];
    s.(runners := s.runners[k := q.(channel := q.channel[1..], processing := Some(q.channel[0]))])
  }

  function FinishStep(s: State, k: string): State
    requires k in s.runners && s.runners[k].processing.Some?
  {
    var q := s.runners[k];
    s.(runners := s.runners[k := q.(processing := None, processed := q.processed + [q.processing.value])])
  }

  function Apply(s: State, e: Event): State
    requires WellFormed(s) && Enabled(s, e)
  {
    match e
    case Tick(to) => s.(now := to)
    case Add(i) => AddStep(s, i)
    case FireSoft(r) => FireSoftStep(s, r)
    case FireHard(r) => FireHardStep(s, r)
    case Flush(c) => FlushStep(s, c)
    case CloseAll => CloseAllStep(s)
    case FlushBuffer(r) => FlushBufferStep(s, r)
    case Send(r) => SendStep(s, r)
    case Receive(k) => ReceiveStep(s, k)
    case Finish(k) => FinishStep(s, k)
  }

  // ---------------------------------------------------------------- what every step keeps

  predicate IsOpen(s: State, r: nat)
    requires r < |s.heap|
  {
    s.heap[r].conv in s.open && s.open[s.heap[r].conv] == r
  }

  predicate IsSent(s: State, r: nat) { exists k :: 0 <= k < |s.sent| && s.sent[k].origin == r }

  /** Every buffer is in exactly one place. */
  ghost predicate OnePlace(s: State, r: nat)
    requires r < |s.heap|
  {
    var o, d, w, x, t := IsOpen(s, r), r in s.detached, r in s.waiting, r in s.dropped, IsSent(s, r);
    && (o || d || w || x || t)
    && !(o && d) && !(o && w) && !(o && x) && !(o && t) && !(d && w) && !(d && x) && !(d && t)
    && !(w && x) && !(w && t) && !(x && t)
  }

  ghost predicate Places(s: State) {
    && WellFormed(s)
    && (forall r :: r in s.dropped ==> r < |s.heap|)
    && (forall k :: 0 <= k < |s.sent| ==> s.sent[k].origin < |s.heap|)
    && (forall c :: c in s.open ==> s.heap[s.open[c]].conv == c)
    && (forall r :: 0 <= r < |s.heap| ==> OnePlace(s, r))
    && (forall j, k :: 0 <= j < k < |s.sent| ==> s.sent[j].origin != s.sent[k].origin)
  }

  lemma PlacesKept(s: State, e: Event)
    requires Places(s) && Enabled(s, e)
    ensures Places(Apply(s, e))
  {
    hide Format;
    match e
    case Tick(_) => PlacesUnmoved(s, Apply(s, e));
    case FireSoft(_) => PlacesUnmoved(s, Apply(s, e));
    case FireHard(_) => PlacesUnmoved(s, Apply(s, e));
    case Receive(_) => PlacesUnmoved(s, Apply(s, e));
    case Finish(_) => PlacesUnmoved(s, Apply(s, e));
    case Add(i) => PlacesAdd(s, i);
    case Flush(c) => PlacesFlush(s, c);
    case CloseAll => PlacesCloseAll(s);
    case FlushBuffer(r) => PlacesFlushBuffer(s, r);
    case Send(r) => PlacesSend(s, r);
  }

  lemma PlacesUnmoved(s: State, s': State)
    requires Places(s)
    requires |s'.heap| == |s.heap| && forall r :: 0 <= r < |s.heap| ==> s'.heap[r].conv == s.heap[r].conv
    requires s'.open == s.open && s'.detached == s.detached && s'.waiting == s.waiting && s'.dropped == s.dropped
             && s'.sent == s.sent
    ensures Places(s')
  {
    forall r | 0 <= r < |s'.heap| ensures OnePlace(s', r) { assert OnePlace(s, r); }
  }

  lemma PlacesAdd(s: State, i: Input)
    requires Places(s)
    ensures Places(AddStep(s, i))
  {
    var s1 := Log(s, i);
    PlacesUnmoved(s, s1);
    hide Log, OnePlace;
    if i.conv !in s.open {
      PlacesAddNew(s1, i);
    } else {
      PlacesAddFull(s1, i);
      PlacesUnmoved(s1, AddMore(s1, i, s1.open[i.conv]));
    }
  }

  lemma PlacesAddNew(s: State, i: Input)
    requires Places(s) && i.conv !in s.open
    ensures Places(AddNew(s, i))
  {
    var s' := AddNew(s, i);
    forall r | 0 <= r < |s'.heap| ensures OnePlace(s', r) {
      if r < |s.heap| { assert OnePlace(s, r); }
    }
  }

  lemma PlacesAddFull(s: State, i: Input)
    requires Places(s) && i.conv in s.open
    ensures Places(AddFull(s, i, s.open[i.conv]))
  {
    var s' := AddFull(s, i, s.open[i.conv]);
    forall r | 0 <= r < |s'.heap| ensures OnePlace(s', r) { assert OnePlace(s, r); }
  }

  lemma PlacesFlush(s: State, c: string)
    requires Places(s)
    ensures Places(FlushStep(s, c))
  {
    var s' := FlushStep(s, c);
    forall r | 0 <= r < |s'.heap| ensures OnePlace(s', r) { assert OnePlace(s, r); }
  }

  lemma PlacesCloseAll(s: State)
    requires Places(s)
    ensures Places(CloseAllStep(s))
  {
    var s' := CloseAllStep(s);
    forall r | r in s.open.Values ensures r < |s.heap| && IsOpen(s, r) { var c :| c in s.open && s.open[c] == r; }
    forall r | 0 <= r < |s'.heap| ensures OnePlace(s', r) {
      assert OnePlace(s, r);
      if IsOpen(s, r) { assert r in s.open.Values; }
    }
  }

  lemma PlacesFlushBuffer(s: State, r: nat)
    requires Places(s) && r in s.detached
    ensures Places(FlushBufferStep(s, r))
  {
    hide Format;
    var s' := FlushBufferStep(s, r);
    forall q | 0 <= q < |s'.heap| ensures OnePlace(s', q) { assert OnePlace(s, q); }
  }

  lemma PlacesSend(s: State, r: nat)
    requires Places(s) && Enabled(s, Send(r))
    ensures Places(SendStep(s, r))
  {
    hide Format;
    var s' := SendStep(s, r);
    assert OnePlace(s, r);
    assert s'.sent[|s.sent|].origin == r;
    forall q | 0 <= q < |s'.heap| ensures OnePlace(s', q) {
      assert OnePlace(s, q);
      if IsSent(s, q) {
        var k :| 0 <= k < |s.sent| && s.sent[k].origin == q;
        assert s'.sent[k].origin == q;
      }
    }
    forall j, k | 0 <= j < k < |s'.sent| ensures s'.sent[j].origin != s'.sent[k].origin {
      if k == |s.sent| { assert !IsSent(s, r); assert s.sent[j].origin != r; }
    }
  }

  // ---------------------------------------------------------------- blocks of messages

  /** The message ids of the conversation's buffers, in the order the buffers were created. */
  function BlocksOf(heap: seq<Buffer>, c: string): seq<string> {
    if heap == [] then []
    else
      var n := |heap| - 1;
      BlocksOf(heap[..n], c) + if heap[n].conv == c then heap[n].ids else []
  }

  /** The history of every conversation is the concatenation of its buffers. */
  ghost predicate History(s: State) { forall c :: Added(s, c) == BlocksOf(s.heap, c) }

  /** A buffer holds 1 to 10 messages; the open buffer is its conversation's newest and below the cap. */
  ghost predicate Sizes(s: State)
    requires WellFormed(s)
  {
    && (forall r :: 0 <= r < |s.heap| ==> 1 <= |s.heap[r].ids| == |s.heap[r].prompts| <= MAX_AGGREGATE_MESSAGES)
    && (forall c :: c in s.open ==> |s.heap[s.open[c]].ids| < MAX_AGGREGATE_MESSAGES)
    && (forall c, r :: c in s.open && s.open[c] < r < |s.heap| ==> s.heap[r].conv != c)
  }

  ghost predicate Blocks(s: State)
    requires WellFormed(s)
  {
    History(s) && Sizes(s)
  }

  predicate SameMessages(a: Buffer, b: Buffer) {
    && a.conv == b.conv && a.ids == b.ids && a.prompts == b.prompts && a.user == b.user && a.context == b.context
    && a.created == b.created && a.lastAdd == b.lastAdd
  }

  lemma {:induction false} BlocksOfSame(a: seq<Buffer>, b: seq<Buffer>, c: string)
    requires |a| == |b| && forall r :: 0 <= r < |a| ==> SameMessages(a[r], b[r])
    ensures BlocksOf(a, c) == BlocksOf(b, c)
  {
    if a != [] { BlocksOfSame(a[..|a| - 1], b[..|b| - 1], c); }
  }

  /** Appending to the newest buffer of a conversation appends to its history and to no other. */
  lemma {:induction false} BlocksOfAppend(heap: seq<Buffer>, r: nat, b: Buffer, id: string, c: string)
    requires r < |heap| && b.conv == heap[r].conv && b.ids == heap[r].ids + [id]
    requires forall q :: r < q < |heap| ==> heap[q].conv != heap[r].conv
    ensures BlocksOf(heap[r := b], c) == BlocksOf(heap, c) + if c == b.conv then [id] else []
  {
    var n := |heap| - 1;
    if r == n {
      assert heap[r := b][..n] == heap[..n];
      if c == b.conv {
        assert BlocksOf(heap[..n], c) + (heap[r].ids + [id]) == BlocksOf(heap[..n], c) + heap[r].ids + [id];
      }
    } else {
      assert heap[r := b][..n] == heap[..n][r := b];
      BlocksOfAppend(heap[..n], r, b, id, c);
    }
  }

  /** Same buffers with the same messages, and nothing newly open. */
  ghost predicate Quiet(s: State, s': State) {
    && |s'.heap| == |s.heap| && s'.added == s.added
    && (forall r :: 0 <= r < |s.heap| ==> SameMessages(s'.heap[r], s.heap[r]))
    && (forall c :: c in s'.open ==> c in s.open && s'.open[c] == s.open[c])
  }

  /** Everything but add leaves the messages of every buffer alone and opens nothing. */
  lemma QuietStep(s: State, e: Event)
    requires WellFormed(s) && Enabled(s, e) && !e.Add?
    ensures Quiet(s, Apply(s, e))
  {
    hide Format, AddStep;
    match e
    case FlushBuffer(r) => QuietFlushBuffer(s, r);
    case Flush(c) => QuietFlush(s, c);
    case _ =>
  }

  lemma QuietFlushBuffer(s: State, r: nat)
    requires r < |s.heap|
    ensures Quiet(s, FlushBufferStep(s, r))
  {
    hide Format;
  }

  lemma QuietFlush(s: State, c: string)
    ensures Quiet(s, FlushStep(s, c))
  {
  }

  lemma BlocksKept(s: State, e: Event)
    requires Places(s) && Blocks(s) && Enabled(s, e)
    ensures WellFormed(Apply(s, e)) && Blocks(Apply(s, e))
  {
    PlacesKept(s, e);
    hide OnePlace;
    if e.Add? {
      BlocksAdd(s, e.input);
    } else {
      QuietStep(s, e);
      BlocksQuiet(s, Apply(s, e));
    }
  }

  lemma BlocksQuiet(s: State, s': State)
    requires WellFormed(s) && Blocks(s) && WellFormed(s') && Quiet(s, s')
    ensures Blocks(s')
  {
    forall c ensures Added(s', c) == BlocksOf(s'.heap, c) { BlocksOfSame(s.heap, s'.heap, c); }
  }

  lemma BlocksAdd(s: State, i: Input)
    requires Places(s) && Blocks(s) && WellFormed(AddStep(s, i))
    ensures Blocks(AddStep(s, i))
  {
    hide OnePlace;
    if i.conv !in s.open { BlocksAddNew(s, i); }
    else if |s.heap[s.open[i.conv]].prompts| + 1 >= MAX_AGGREGATE_MESSAGES { BlocksAddFull(s, i); }
    else { BlocksAddMore(s, i); }
  }

  lemma BlocksOfSnoc(heap: seq<Buffer>, b: Buffer, c: string)
    ensures BlocksOf(heap + [b], c) == BlocksOf(heap, c) + if b.conv == c then b.ids else []
  {
    assert (heap + [b])[..|heap|] == heap;
  }

  lemma BlocksAddNew(s: State, i: Input)
    requires Places(s) && Blocks(s) && i.conv !in s.open
    ensures WellFormed(AddNew(Log(s, i), i)) && Blocks(AddNew(Log(s, i), i))
  {
    HistoryAddNew(s, i);
    hide OnePlace, History;
    SizesAddNew(Log(s, i), i);
  }

  lemma SizesAddNew(s: State, i: Input)
    requires WellFormed(s) && Sizes(s) && i.conv !in s.open
    ensures WellFormed(AddNew(s, i)) && Sizes(AddNew(s, i))
  {
    var s' := AddNew(s, i);
    var b := s'.heap[|s.heap|];
    assert b.conv == i.conv && |b.ids| == |b.prompts| == 1;
    assert s'.heap == s.heap + [b] && s'.open == s.open[i.conv := |s.heap|];
    hide AddNew;
    assert WellFormed(s') by { hide Sizes; }
    SizesOpened(s, s', b);
  }

  lemma SizesOpened(s: State, s': State, b: Buffer)
    requires WellFormed(s) && Sizes(s) && b.conv !in s.open && |b.ids| == |b.prompts| == 1
    requires WellFormed(s') && s'.heap == s.heap + [b] && s'.open == s.open[b.conv := |s.heap|]
    ensures Sizes(s')
  {
    forall c | c in s'.open ensures s'.open[c] <= |s.heap| && (c != b.conv ==> s'.open[c] < |s.heap|) { }
    hide WellFormed;
    forall r | 0 <= r < |s'.heap| ensures 1 <= |s'.heap[r].ids| == |s'.heap[r].prompts| <= MAX_AGGREGATE_MESSAGES {
      assert r < |s.heap| ==> s'.heap[r] == s.heap[r];
    }
    forall c | c in s'.open ensures |s'.heap[s'.open[c]].ids| < MAX_AGGREGATE_MESSAGES {
      if c != b.conv { assert s'.heap[s.open[c]] == s.heap[s.open[c]]; }
    }
    forall c, r | c in s'.open && s'.open[c] < r < |s'.heap| ensures s'.heap[r].conv != c {
      if r < |s.heap| { assert s'.heap[r] == s.heap[r]; }
    }
  }

  lemma LogKeeps(s: State, i: Input)
    ensures var s' := Log(s, i);
            && s'.open == s.open && s'.heap == s.heap && s'.detached == s.detached && s'.waiting == s.waiting
                && s'.now == s.now
            && forall c :: Added(s', c) == Added(s, c) + if c == i.conv then [i.id] else []
  {
    forall c ensures Added(Log(s, i), c) == Added(s, c) + if c == i.conv then [i.id] else [] {
      AppendNothing(Added(s, c));
    }
  }

  lemma HistoryAddNew(s: State, i: Input)
    requires History(s)
    ensures History(AddNew(Log(s, i), i))
  {
    var s' := AddNew(Log(s, i), i);
    LogKeeps(s, i);
    hide Log;
    forall c ensures Added(s', c) == BlocksOf(s'.heap, c) { BlocksOfSnoc(s.heap, s'.heap[|s.heap|], c); }
  }

  /** The history after a message joined the open buffer. */
  lemma HistoryGrows(s: State, i: Input, b: Buffer, s': State)
    requires Places(s) && Blocks(s) && i.conv in s.open
    requires b.ids == s.heap[s.open[i.conv]].ids + [i.id] && b.conv == i.conv
    requires s'.heap == s.heap[s.open[i.conv] := b] && s'.added == Log(s, i).added
    ensures History(s')
  {
    hide OnePlace;
    LogKeeps(s, i);
    hide Log;
    forall c ensures Added(s', c) == BlocksOf(s'.heap, c) { BlocksOfAppend(s.heap, s.open[i.conv], b, i.id, c); }
  }

  lemma BlocksAddMore(s: State, i: Input)
    requires Places(s) && Blocks(s) && i.conv in s.open
    requires |s.heap[s.open[i.conv]].prompts| + 1 < MAX_AGGREGATE_MESSAGES
    ensures var s' := AddMore(Log(s, i), i, s.open[i.conv]); WellFormed(s') && Blocks(s')
  {
    var s' := AddMore(Log(s, i), i, s.open[i.conv]);
    HistoryGrows(s, i, s'.heap[s.open[i.conv]], s');
    hide OnePlace, History;
  }

  lemma BlocksAddFull(s: State, i: Input)
    requires Places(s) && Blocks(s) && i.conv in s.open
    requires |s.heap[s.open[i.conv]].prompts| + 1 >= MAX_AGGREGATE_MESSAGES
    ensures var s' := AddFull(Log(s, i), i, s.open[i.conv]); WellFormed(s') && Blocks(s')
  {
    var s' := AddFull(Log(s, i), i, s.open[i.conv]);
    HistoryGrows(s, i, s'.heap[s.open[i.conv]], s');
    hide OnePlace, History;
  }

  lemma AppendNothing(a: seq<string>)
    ensures a + [] == a
  {
  }

  // ---------------------------------------------------------------- turns carry their buffer's messages

  /** A turn is its buffer; a buffer was dropped exactly if it has been flushed and formats to blank. */
  ghost predicate Turns(s: State)
    requires Places(s)
  {
    && (forall k :: 0 <= k < |s.sent| ==> s.sent[k] == TurnOf(s.heap[s.sent[k].origin], s.sent[k].origin))
    && (forall k :: 0 <= k < |s.sent| ==> !Blank(Format(s.heap[s.sent[k].origin].prompts)))
    && (forall r :: r in s.waiting ==> !Blank(Format(s.heap[r].prompts)))
    && (forall r :: r in s.dropped ==> Blank(Format(s.heap[r].prompts)))
  }

  /** Only an open buffer can change its messages. */
  lemma ClosedBuffersKeep(s: State, e: Event, r: nat)
    requires Places(s) && Enabled(s, e) && r < |s.heap| && !IsOpen(s, r)
    ensures r < |Apply(s, e).heap| && SameMessages(Apply(s, e).heap[r], s.heap[r])
  {
    hide OnePlace;
    if !e.Add? { QuietStep(s, e); }
  }

  lemma TurnsKept(s: State, e: Event)
    requires Places(s) && Turns(s) && Enabled(s, e)
    ensures Places(Apply(s, e)) && Turns(Apply(s, e))
  {
    PlacesKept(s, e);
    ApplyIs(s, e);
    hide *;
    match e
    case FlushBuffer(r) => TurnsFlushBuffer(s, r);
    case Send(r) => SendIs(s, r, Apply(s, e)); TurnsSend(s, r);
    case _ =>
      SameTurns(s, e);
      forall r | 0 <= r < |s.heap| && !IsOpen(s, r)
          ensures r < |Apply(s, e).heap| && SameMessages(Apply(s, e).heap[r], s.heap[r]) {
        ClosedBuffersKeep(s, e, r);
      }
      TurnsSame(s, Apply(s, e));
  }

  lemma SendIs(s: State, r: nat, t: State)
    requires IsSend(s, r, t)
    ensures r < |s.heap| && Key(s.heap[r].user, s.heap[r].conv) in s.runners && t == SendStep(s, r)
  {
  }

  lemma SameTurns(s: State, e: Event)
    requires WellFormed(s) && Enabled(s, e) && !e.FlushBuffer? && !e.Send?
    ensures var s' := Apply(s, e); s'.sent == s.sent && s'.waiting == s.waiting && s'.dropped == s.dropped
  {
    hide Format, FlushBufferStep, SendStep, AddStep;
    if e.Add? { AddSame(s, e.input); }
  }

  lemma AddSame(s: State, i: Input)
    requires WellFormed(s)
    ensures var s' := AddStep(s, i); s'.sent == s.sent && s'.waiting == s.waiting && s'.dropped == s.dropped
  {
  }

  lemma TurnsSame(s: State, s': State)
    requires Places(s) && Turns(s) && Places(s')
    requires s'.sent == s.sent && s'.waiting == s.waiting && s'.dropped == s.dropped
    requires forall r :: 0 <= r < |s.heap| && !IsOpen(s, r) ==> r < |s'.heap| && SameMessages(s'.heap[r], s.heap[r])
    ensures Turns(s')
  {
    hide Format, Blank;
    forall r | r in s.waiting + s.dropped ensures !IsOpen(s, r) { assert OnePlace(s, r); }
    forall k | 0 <= k < |s.sent| ensures !IsOpen(s, s.sent[k].origin) {
      assert OnePlace(s, s.sent[k].origin) && IsSent(s, s.sent[k].origin);
    }
  }

  lemma TurnsFlushBuffer(s: State, r: nat)
    requires Places(s) && Turns(s) && r in s.detached && Places(FlushBufferStep(s, r))
    ensures Turns(FlushBufferStep(s, r))
  {
    hide Format, Blank, OnePlace;
  }

  lemma TurnsSend(s: State, r: nat)
    requires Places(s) && Turns(s) && Enabled(s, Send(r)) && Places(SendStep(s, r))
    ensures Turns(SendStep(s, r))
  {
    hide Format, Blank, OnePlace;
  }

  // ---------------------------------------------------------------- timers

  ghost predicate TimerLive(t: Timer, deadline: int, pending: nat) {
    (t.armed && t.deadline == deadline) || pending > 0
  }

  /** Each timer of an open buffer still runs to its own deadline, or a flush of the conversation is pending. */
  ghost predicate Timers(s: State)
    requires WellFormed(s)
  {
    forall c :: c in s.open ==>
      var b := s.heap[s.open[c]];
      TimerLive(b.soft, b.lastAdd + AGGREGATE_WINDOW, s.flushes[c])
          && TimerLive(b.hard, b.created + HARD_AGGREGATE_LIMIT, s.flushes[c])
  }

  lemma TimersKept(s: State, e: Event)
    requires Places(s) && Timers(s) && Enabled(s, e)
    ensures WellFormed(Apply(s, e)) && Timers(Apply(s, e))
  {
    PlacesKept(s, e);
    hide Format, Blank, OnePlace, AddStep, FireSoftStep, FireHardStep, FlushStep, FlushBufferStep;
    match e
    case Add(i) => TimersAdd(s, i);
    case FireSoft(r) => TimersFire(s, r);
    case FireHard(r) => TimersFire(s, r);
    case Flush(c) => TimersFlush(s, c);
    case FlushBuffer(r) => TimersFlushBuffer(s, r);
    case _ =>
  }

  lemma TimersAdd(s: State, i: Input)
    requires Places(s) && Timers(s) && WellFormed(AddStep(s, i))
    ensures Timers(AddStep(s, i))
  {
    hide OnePlace;
  }

  lemma TimersFire(s: State, r: nat)
    requires Places(s) && Timers(s) && r < |s.heap|
    ensures WellFormed(FireSoftStep(s, r)) && Timers(FireSoftStep(s, r))
    ensures WellFormed(FireHardStep(s, r)) && Timers(FireHardStep(s, r))
  {
    hide OnePlace;
  }

  lemma TimersFlush(s: State, c: string)
    requires Places(s) && Timers(s) && WellFormed(FlushStep(s, c))
    ensures Timers(FlushStep(s, c))
  {
    hide OnePlace;
    var s' := FlushStep(s, c);
    forall k | k in s'.open ensures s'.flushes[k] == s.flushes[k] && s'.open[k] == s.open[k] { assert k != c; }
  }

  /** Stopping the timers of a detached buffer touches no open buffer. */
  lemma TimersFlushBuffer(s: State, r: nat)
    requires Places(s) && Timers(s) && r in s.detached && WellFormed(FlushBufferStep(s, r))
    ensures Timers(FlushBufferStep(s, r))
  {
    hide Format, Blank;
    assert OnePlace(s, r);
    hide OnePlace;
    var s' := FlushBufferStep(s, r);
    forall c | c in s'.open ensures s'.heap[s'.open[c]] == s.heap[s.open[c]] { assert s.open[c] != r; }
  }

  /** A flush of the conversation waits for the lock, or the runtime is about to start one. */
  ghost predicate FlushPending(s: State, c: string)
    requires WellFormed(s) && c in s.open
  {
    var b := s.heap[s.open[c]];
    || c in s.flushes
    || (b.soft.armed && b.soft.deadline <= s.now)
    || (b.hard.armed && b.hard.deadline <= s.now)
  }

  // ---------------------------------------------------------------- queues

  function ForKey(sent: seq<Turn>, k: string): seq<Turn> {
    if sent == [] then []
    else
      var n := |sent| - 1;
      ForKey(sent[..n], k) + if Key(sent[n].user, sent[n].conv) == k then [sent[n]] else []
  }

  function InHand(q: Runner): seq<Turn> {
    match q.processing case None => [] case Some(t) => [t]
  }

  /** All turns a runner has seen or will see, in order. */
  function TurnsOf(q: Runner): seq<Turn> { q.processed + InHand(q) + q.channel }

  /** What was sent on a key's channel is what was processed, then the turn in hand, then the channel. */
  ghost predicate Queues(s: State)
    requires WellFormed(s)
  {
    && (forall k :: k in s.runners ==>
          && |s.runners[k].channel| <= CHANNEL_CAPACITY
          && TurnsOf(s.runners[k]) == ForKey(s.sent, k))
    && (forall k :: k !in s.runners ==> ForKey(s.sent, k) == [])
    && (forall r :: r in s.waiting ==> Key(s.heap[r].user, s.heap[r].conv) in s.runners)
  }

  lemma QueuesKept(s: State, e: Event)
    requires Places(s) && Queues(s) && Enabled(s, e)
    ensures WellFormed(Apply(s, e)) && Queues(Apply(s, e))
  {
    PlacesKept(s, e);
    ApplyIs(s, e);
    hide *;
    match e
    case FlushBuffer(r) => QueuesFlushBuffer(s, r);
    case Send(r) => QueuesSend(s, r);
    case Receive(k) => QueuesReceive(s, k);
    case Finish(k) => QueuesFinish(s, k);
    case Add(i) => AddKeepsOwners(s, i); QueuesSame(s, Apply(s, e));
    case _ => QuietKeepsOwners(s, e); QueuesSame(s, Apply(s, e));
  }

  /** Apply, event by event. */
  lemma ApplyIs(s: State, e: Event)
    requires WellFormed(s) && Enabled(s, e)
    ensures e.Add? ==> Apply(s, e) == AddStep(s, e.input)
    ensures e.FlushBuffer? ==> e.ref in s.detached && Apply(s, e) == FlushBufferStep(s, e.ref)
    ensures e.Send? ==> IsSend(s, e.ref, Apply(s, e))
    ensures e.Receive? ==> e.key in s.runners && s.runners[e.key].channel != [] && Apply(s, e) == ReceiveStep(s, e.key)
    ensures e.Finish? ==> e.key in s.runners && s.runners[e.key].processing.Some? && Apply(s, e) == FinishStep(s, e.key)
  {
    hide Format, AddStep, FlushBufferStep, SendStep, ReceiveStep, FinishStep, TurnOf;
  }

  lemma QuietKeepsOwners(s: State, e: Event)
    requires WellFormed(s) && Enabled(s, e) && !e.Add? && !e.FlushBuffer? && !e.Send? && !e.Receive? && !e.Finish?
    ensures var s' := Apply(s, e);
            && s'.runners == s.runners && s'.sent == s.sent && s'.waiting == s.waiting && |s.heap| == |s'.heap|
            && forall r :: 0 <= r < |s.heap| ==> s'.heap[r].user == s.heap[r].user && s'.heap[r].conv == s.heap[r].conv
  {
    hide Format, AddStep, FlushBufferStep, SendStep, ReceiveStep, FinishStep, FlushStep, CloseAllStep;
    if e.Flush? { FlushKeepsOwners(s, e.conv); }
    if e.CloseAll? { FlushKeepsOwners(s, ""); }
  }

  lemma FlushKeepsOwners(s: State, c: string)
    ensures var s' := FlushStep(s, c);
            s'.heap == s.heap && s'.runners == s.runners && s'.sent == s.sent && s'.waiting == s.waiting
    ensures var s' := CloseAllStep(s);
            s'.heap == s.heap && s'.runners == s.runners && s'.sent == s.sent && s'.waiting == s.waiting
  {
  }

  lemma AddKeepsOwners(s: State, i: Input)
    requires WellFormed(s)
    ensures var s' := AddStep(s, i);
            && s'.runners == s.runners && s'.sent == s.sent && s'.waiting == s.waiting && |s.heap| <= |s'.heap|
            && forall r :: 0 <= r < |s.heap| ==> s'.heap[r].user == s.heap[r].user && s'.heap[r].conv == s.heap[r].conv
  {
  }

  lemma QueuesSame(s: State, s': State)
    requires Places(s) && Queues(s) && WellFormed(s')
    requires s'.runners == s.runners && s'.sent == s.sent && s'.waiting == s.waiting && |s.heap| <= |s'.heap|
    requires forall r :: 0 <= r < |s.heap| ==> s'.heap[r].user == s.heap[r].user && s'.heap[r].conv == s.heap[r].conv
    ensures Queues(s')
  {
    hide OnePlace, ForKey;
  }

  lemma QueuesFlushBuffer(s: State, r: nat)
    requires Places(s) && Queues(s) && r in s.detached && WellFormed(FlushBufferStep(s, r))
    ensures Queues(FlushBufferStep(s, r))
  {
    hide Format, Blank, OnePlace, ForKey;
  }

  lemma ForKeyStep(sent: seq<Turn>, t: Turn, k: string)
    ensures ForKey(sent + [t], k) == ForKey(sent, k) + if Key(t.user, t.conv) == k then [t] else []
  {
    assert (sent + [t])[..|sent|] == sent;
  }

  lemma QueuesSend(s: State, r: nat)
    requires Places(s) && Queues(s) && Enabled(s, Send(r)) && WellFormed(SendStep(s, r))
    ensures Queues(SendStep(s, r))
  {
    hide Format, Blank, Places;
    var s', t := SendStep(s, r), TurnOf(s.heap[r], r);
    forall k ensures ForKey(s'.sent, k) == ForKey(s.sent, k) + if Key(t.user, t.conv) == k then [t] else [] {
      ForKeyStep(s.sent, t, k);
    }
    hide ForKey;
    forall k | k in s'.runners
      ensures s'.runners[k].processed + InHand(s'.runners[k]) + s'.runners[k].channel == ForKey(s'.sent, k)
    {
      var q := s.runners[k];
      if k == Key(t.user, t.conv) {
        assert q.processed + InHand(q) + (q.channel + [t]) == q.processed + InHand(q) + q.channel + [t];
      } else {
        assert ForKey(s.sent, k) + [] == ForKey(s.sent, k);
      }
    }
    forall k | k !in s'.runners ensures ForKey(s'.sent, k) == [] { assert k !in s.runners; }
  }

  /** A runner may hand its turns on, as long as it keeps them all in order. */
  lemma QueuesRunner(s: State, k: string, q: Runner)
    requires WellFormed(s) && Queues(s) && k in s.runners && |q.channel| <= CHANNEL_CAPACITY
             && TurnsOf(q) == TurnsOf(s.runners[k])
    ensures WellFormed(s.(runners := s.runners[k := q])) && Queues(s.(runners := s.runners[k := q]))
  {
    hide ForKey, TurnsOf;
  }

  lemma ReceiveKeepsTurns(q: Runner)
    requires q.processing.None? && q.channel != []
    ensures TurnsOf(q.(channel := q.channel[1..], processing := Some(q.channel[0]))) == TurnsOf(q)
  {
    assert q.processed + [] + q.channel == q.processed + [q.channel[0]] + q.channel[1..];
  }

  lemma FinishKeepsTurns(q: Runner)
    requires q.processing.Some?
    ensures TurnsOf(q.(processing := None, processed := q.processed + [q.processing.value])) == TurnsOf(q)
  {
    assert q.processed + [q.processing.value] + q.channel == (q.processed + [q.processing.value]) + [] + q.channel;
  }

  lemma QueuesReceive(s: State, k: string)
    requires WellFormed(s) && Queues(s) && Enabled(s, Receive(k)) && WellFormed(ReceiveStep(s, k))
    ensures Queues(ReceiveStep(s, k))
  {
    var q := s.runners[k];
    ReceiveKeepsTurns(q);
    assert |q.channel| <= CHANNEL_CAPACITY;
    hide TurnsOf, ForKey, Queues;
    QueuesRunner(s, k, q.(channel := q.channel[1..], processing := Some(q.channel[0])));
  }

  lemma QueuesFinish(s: State, k: string)
    requires WellFormed(s) && Queues(s) && Enabled(s, Finish(k)) && WellFormed(FinishStep(s, k))
    ensures Queues(FinishStep(s, k))
  {
    var q := s.runners[k];
    FinishKeepsTurns(q);
    assert |q.channel| <= CHANNEL_CAPACITY;
    hide TurnsOf, ForKey, Queues;
    QueuesRunner(s, k, q.(processing := None, processed := q.processed + [q.processing.value]));
  }

  // ---------------------------------------------------------------- every run

  ghost predicate Inv(s: State) { Places(s) && Blocks(s) && Turns(s) && Timers(s) && Queues(s) }

  lemma InvKept(s: State, e: Event)
    requires Inv(s) && Enabled(s, e)
    ensures Inv(Apply(s, e))
  {
    PlacesKept(s, e);
    BlocksKept(s, e);
    TurnsKept(s, e);
    TimersKept(s, e);
    QueuesKept(s, e);
    hide Apply, Places, Blocks, Turns, Timers, Queues;
  }

  lemma InvInit()
    ensures Inv(INIT)
  {
  }

  /** states[0] is initial and each further state follows from its predecessor by the event between them. */
  ghost predicate IsRun(states: seq<State>, events: seq<Event>) {
    && |states| == |events| + 1 && states[0] == INIT
    && forall k :: 0 <= k < |events| ==>
         WellFormed(states[k]) && Enabled(states[k], events[k]) && states[k + 1] == Apply(states[k], events[k])
  }

  lemma {:induction false} RunKeepsInv(states: seq<State>, events: seq<Event>)
    requires IsRun(states, events)
    ensures Inv(states[|events|])
    decreases |events|
  {
    hide Inv, Apply, Enabled;
    if events == [] {
      InvInit();
    } else {
      var n := |events| - 1;
      assert IsRun(states[..n + 1], events[..n]);
      RunKeepsInv(states[..n + 1], events[..n]);
      InvKept(states[n], events[n]);
    }
  }

  // ---------------------------------------------------------------- what was added, by the run

  datatype Arrival = Arrival(input: Input, at: int)

  /** The messages that the run adds to a conversation, with their times. */
  ghost function Arrivals(states: seq<State>, events: seq<Event>, c: string): seq<Arrival>
    requires |states| > |events|
  {
    if events == [] then []
    else
      var n := |events| - 1;
      Arrivals(states, events[..n], c)
      + if events[n].Add? && events[n].input.conv == c then [Arrival(events[n].input, states[n].now)] else []
  }

  /** The buffer is the block: ids and prompts one by one, the user of the first message, the context of the last. */
  ghost predicate Carries(b: Buffer, block: seq<Arrival>) {
    && 1 <= |block| == |b.ids| == |b.prompts|
    && (forall i :: 0 <= i < |block| ==>
          b.ids[i] == block[i].input.id && b.prompts[i] == block[i].input.prompt && b.conv == block[i].input.conv)
    && b.user == block[0].input.user && b.context == block[|block| - 1].input.context
    && b.created == block[0].at && b.lastAdd == block[|block| - 1].at
  }

  ghost predicate AllCarry(heap: seq<Buffer>, blocks: seq<seq<Arrival>>) {
    |blocks| == |heap| && forall r :: 0 <= r < |heap| ==> Carries(heap[r], blocks[r])
  }

  /** The blocks of a conversation, one after the other. */
  ghost function Joined(heap: seq<Buffer>, blocks: seq<seq<Arrival>>, c: string): seq<Arrival>
    requires |blocks| == |heap|
  {
    if heap == [] then []
    else
      var n := |heap| - 1;
      Joined(heap[..n], blocks[..n], c) + if heap[n].conv == c then blocks[n] else []
  }

  lemma {:induction false} JoinedSame(a: seq<Buffer>, b: seq<Buffer>, blocks: seq<seq<Arrival>>, c: string)
    requires |a| == |b| == |blocks| && forall r :: 0 <= r < |a| ==> SameMessages(a[r], b[r])
    ensures Joined(a, blocks, c) == Joined(b, blocks, c)
  {
    if a != [] { JoinedSame(a[..|a| - 1], b[..|b| - 1], blocks[..|a| - 1], c); }
  }

  lemma JoinedSnoc(heap: seq<Buffer>, blocks: seq<seq<Arrival>>, b: Buffer, block: seq<Arrival>, c: string)
    requires |blocks| == |heap|
    ensures Joined(heap + [b], blocks + [block], c) == Joined(heap, blocks, c) + if b.conv == c then block else []
  {
    assert (heap + [b])[..|heap|] == heap && (blocks + [block])[..|heap|] == blocks;
  }

  lemma {:induction false} JoinedAppend(heap: seq<Buffer>, blocks: seq<seq<Arrival>>, r: nat, b: Buffer, a: Arrival,
                                        c: string)
    requires |blocks| == |heap| && r < |heap| && b.conv == heap[r].conv
    requires forall q :: r < q < |heap| ==> heap[q].conv != heap[r].conv
    ensures Joined(heap[r := b], blocks[r := blocks[r] + [a]], c) ==
              Joined(heap, blocks, c) + if c == b.conv then [a] else []
  {
    var n := |heap| - 1;
    var longer := blocks[r := blocks[r] + [a]];
    if r == n {
      assert heap[r := b][..n] == heap[..n] && longer[..n] == blocks[..n];
      if c == b.conv {
        var front := Joined(heap[..n], blocks[..n], c);
        assert front + (blocks[n] + [a]) == front + blocks[n] + [a];
      }
    } else {
      assert heap[r := b][..n] == heap[..n][r := b];
      assert longer[..n] == blocks[..n][r := blocks[..n][r] + [a]];
      JoinedAppend(heap[..n], blocks[..n], r, b, a, c);
    }
  }

  /** What add does to the heap. */
  lemma AddToHeap(s: State, i: Input)
    requires WellFormed(s)
    ensures var h := AddStep(s, i).heap;
            if i.conv !in s.open then
              |h| == |s.heap| + 1 && h == s.heap + [h[|s.heap|]] && h[|s.heap|].conv == i.conv
                && Carries(h[|s.heap|], [Arrival(i, s.now)])
            else
              var r := s.open[i.conv];
              |h| == |s.heap| && h == s.heap[r := h[r]] && h[r].conv == s.heap[r].conv
  {
  }

  lemma CarriesMore(s: State, i: Input, block: seq<Arrival>)
    requires WellFormed(s) && i.conv in s.open
    requires s.heap[s.open[i.conv]].conv == i.conv && Carries(s.heap[s.open[i.conv]], block)
    ensures |AddStep(s, i).heap| == |s.heap|
    ensures Carries(AddStep(s, i).heap[s.open[i.conv]], block + [Arrival(i, s.now)])
  {
    var r := s.open[i.conv];
    var b, b' := s.heap[r], AddStep(s, i).heap[r];
    assert b'.ids == b.ids + [i.id] && b'.prompts == b.prompts + [i.prompt] && b'.lastAdd == s.now;
    hide AddStep;
  }

  lemma SameCarry(a: seq<Buffer>, b: seq<Buffer>, blocks: seq<seq<Arrival>>)
    requires AllCarry(a, blocks) && |a| == |b| && forall r :: 0 <= r < |a| ==> SameMessages(b[r], a[r])
    ensures AllCarry(b, blocks)
  {
  }

  lemma IsOpened(s: State, c: string)
    requires Inv(s) && c in s.open
    ensures s.open[c] < |s.heap| && s.heap[s.open[c]].conv == c
    ensures forall q :: s.open[c] < q < |s.heap| ==> s.heap[q].conv != c
  {
    hide OnePlace, History, Turns, Timers, Queues;
  }

  /** One step keeps the blocks of the buffers, or gives the added message to one of them. */
  lemma StepBlocks(s: State, e: Event, blocks: seq<seq<Arrival>>) returns (blocks': seq<seq<Arrival>>)
    requires Inv(s) && Enabled(s, e) && AllCarry(s.heap, blocks)
    ensures WellFormed(s) && AllCarry(Apply(s, e).heap, blocks')
    ensures forall c :: Joined(Apply(s, e).heap, blocks', c) ==
              Joined(s.heap, blocks, c) + if e.Add? && e.input.conv == c then [Arrival(e.input, s.now)] else []
  {
    InvWellFormed(s);
    var t := Apply(s, e);
    if !e.Add? {
      blocks' := blocks;
      QuietStep(s, e);
      hide *;
      QuietBlocks(s, t, blocks);
    } else {
      ApplyIs(s, e);
      hide Apply;
      blocks' := AddBlocks(s, e.input, blocks);
    }
  }

  lemma QuietBlocks(s: State, t: State, blocks: seq<seq<Arrival>>)
    requires Quiet(s, t) && AllCarry(s.heap, blocks)
    ensures AllCarry(t.heap, blocks) && forall c :: Joined(t.heap, blocks, c) == Joined(s.heap, blocks, c) + []
  {
    hide Joined, Carries;
    SameCarry(s.heap, t.heap, blocks);
    forall c ensures Joined(t.heap, blocks, c) == Joined(s.heap, blocks, c) + [] {
      JoinedSame(s.heap, t.heap, blocks, c);
    }
  }

  lemma OpenBlock(s: State, i: Input, blocks: seq<seq<Arrival>>)
    requires Inv(s) && WellFormed(s) && AllCarry(s.heap, blocks) && i.conv !in s.open
    ensures var a := Arrival(i, s.now);
            && AllCarry(AddStep(s, i).heap, blocks + [[a]])
            && forall c :: Joined(AddStep(s, i).heap, blocks + [[a]], c) ==
                 Joined(s.heap, blocks, c) + if i.conv == c then [a] else []
  {
    AddToHeap(s, i);
    hide Inv, WellFormed, AddStep, Carries;
    var h, a := AddStep(s, i).heap, Arrival(i, s.now);
    forall c ensures Joined(h, blocks + [[a]], c) == Joined(s.heap, blocks, c) + if i.conv == c then [a] else [] {
      JoinedSnoc(s.heap, blocks, h[|s.heap|], [a], c);
    }
  }

  /** A buffer that takes one more message, when no later one is of its conversation. */
  lemma GrowBlock(heap: seq<Buffer>, h: seq<Buffer>, blocks: seq<seq<Arrival>>, r: nat, a: Arrival)
    requires AllCarry(heap, blocks) && r < |heap| == |h| && h == heap[r := h[r]] && h[r].conv == heap[r].conv
    requires Carries(h[r], blocks[r] + [a]) && forall q :: r < q < |heap| ==> heap[q].conv != heap[r].conv
    ensures AllCarry(h, blocks[r := blocks[r] + [a]])
    ensures forall c :: Joined(h, blocks[r := blocks[r] + [a]], c) ==
              Joined(heap, blocks, c) + if heap[r].conv == c then [a] else []
  {
    hide Carries, Joined;
    var longer := blocks[r := blocks[r] + [a]];
    forall c ensures Joined(h, longer, c) == Joined(heap, blocks, c) + if heap[r].conv == c then [a] else [] {
      JoinedAppend(heap, blocks, r, h[r], a, c);
    }
  }

  lemma CarriesLength(heap: seq<Buffer>, blocks: seq<seq<Arrival>>, r: nat)
    requires AllCarry(heap, blocks) && r < |heap|
    ensures |blocks| == |heap| && Carries(heap[r], blocks[r])
  {
    hide Carries;
  }

  lemma AddBlocks(s: State, i: Input, blocks: seq<seq<Arrival>>) returns (blocks': seq<seq<Arrival>>)
    requires Inv(s) && WellFormed(s) && AllCarry(s.heap, blocks)
    ensures AllCarry(AddStep(s, i).heap, blocks')
    ensures forall c :: Joined(AddStep(s, i).heap, blocks', c) ==
              Joined(s.heap, blocks, c) + if i.conv == c then [Arrival(i, s.now)] else []
  {
    hide *;
    if i.conv !in s.open {
      OpenBlock(s, i, blocks);
      blocks' := blocks + [[Arrival(i, s.now)]];
    } else {
      var r, a := s.open[i.conv], Arrival(i, s.now);
      IsOpened(s, i.conv);
      AddToHeap(s, i);
      CarriesLength(s.heap, blocks, r);
      CarriesMore(s, i, blocks[r]);
      GrowBlock(s.heap, AddStep(s, i).heap, blocks, r, a);
      blocks' := blocks[r := blocks[r] + [a]];
    }
  }

  /** After every run the buffers are blocks of what was added: for each conversation they hold its messages one after
      the other, none twice and none missing, and know the times of their first and last. */
  lemma {:induction false} RunBlocks(states: seq<State>, events: seq<Event>) returns (blocks: seq<seq<Arrival>>)
    requires IsRun(states, events)
    ensures AllCarry(states[|events|].heap, blocks)
    ensures forall c :: Joined(states[|events|].heap, blocks, c) == Arrivals(states, events, c)
    decreases |events|
  {
    hide Inv, Apply, Enabled, AllCarry, Joined;
    if events == [] {
      blocks := [];
      NoBlocks();
    } else {
      var n := |events| - 1;
      assert IsRun(states[..n + 1], events[..n]);
      RunKeepsInv(states[..n + 1], events[..n]);
      blocks := RunBlocks(states[..n + 1], events[..n]);
      blocks := StepBlocks(states[n], events[n], blocks);
      forall c ensures Arrivals(states[..n + 1], events[..n], c) == Arrivals(states, events[..n], c) {
        ArrivalsBefore(states, events, n, c);
      }
    }
  }

  /** The prompts of a block. */
  function Prompts(block: seq<Arrival>): (r: seq<string>)
    ensures |r| == |block|
  {
    seq(|block|, i requires 0 <= i < |block| => block[i].input.prompt)
  }

  /** The turn goes out for the user of the block's first message, in its conversation, with the ids of all its messages
      and the context of the last; its text holds all their prompts, trimmed, in order. */
  ghost predicate Tells(t: Turn, block: seq<Arrival>) {
    && 1 <= |block| == |t.ids| && (forall i :: 0 <= i < |block| ==> t.ids[i] == block[i].input.id)
    && t.user == block[0].input.user && t.conv == block[0].input.conv && t.context == block[|block| - 1].input.context
    && (|block| == 1 ==> t.text == Trim(block[0].input.prompt))
    && (|block| >= 2 ==> HoldsInOrder(t.text, Parts(Prompts(block), |block|)))
  }

  lemma BufferTells(b: Buffer, r: nat, block: seq<Arrival>)
    requires Carries(b, block)
    ensures Tells(TurnOf(b, r), block)
  {
    FormatHolds(b.prompts);
    assert b.prompts == Prompts(block);
    hide Format, HoldsInOrder, Parts, Trim;
  }

  /** In every run, each turn sent tells a whole block of the messages added, and the blocks of a conversation are, one
      after the other, all of its messages. */
  lemma RunTells(states: seq<State>, events: seq<Event>) returns (blocks: seq<seq<Arrival>>)
    requires IsRun(states, events)
    ensures var s := states[|events|];
            && |blocks| == |s.heap| && (forall c :: Joined(s.heap, blocks, c) == Arrivals(states, events, c))
            && forall k :: 0 <= k < |s.sent| ==>
                 s.sent[k].origin < |blocks| && Tells(s.sent[k], blocks[s.sent[k].origin])
  {
    RunKeepsInv(states, events);
    blocks := RunBlocks(states, events);
    var s := states[|events|];
    SentAreTurns(s);
    hide Inv, Joined, Arrivals, IsRun, TurnOf, Tells, Carries;
    forall k | 0 <= k < |s.sent| ensures Tells(s.sent[k], blocks[s.sent[k].origin]) {
      BufferTells(s.heap[s.sent[k].origin], s.sent[k].origin, blocks[s.sent[k].origin]);
    }
  }

  lemma SentAreTurns(s: State)
    requires Inv(s)
    ensures forall k :: 0 <= k < |s.sent| ==>
              s.sent[k].origin < |s.heap| && s.sent[k] == TurnOf(s.heap[s.sent[k].origin], s.sent[k].origin)
  {
    hide OnePlace, Blocks, Timers, Queues, TurnOf;
  }

  lemma NoBlocks()
    ensures AllCarry([], []) && forall c :: Joined([], [], c) == []
  {
  }

  lemma {:induction false} ArrivalsBefore(states: seq<State>, events: seq<Event>, n: nat, c: string)
    requires |states| > |events| >= n
    ensures Arrivals(states[..n + 1], events[..n], c) == Arrivals(states, events[..n], c)
    decreases n
  {
    if n > 0 {
      ArrivalsBefore(states, events, n - 1, c);
      ArrivalsBefore(states[..n + 1], events[..n], n - 1, c);
      assert states[..n + 1][..n] == states[..n] && events[..n][..n - 1] == events[..n - 1];
    }
  }

  /** How often id occurs in the first n buffers of conversation c whose reference is in `refs`. */
  ghost function CountAt(heap: seq<Buffer>, n: nat, refs: set<nat>, c: string, id: string): nat
    requires n <= |heap|
  {
    if n == 0 then 0
    else CountAt(heap, n - 1, refs, c, id) + if n - 1 in refs && heap[n - 1].conv == c
        then multiset(heap[n - 1].ids)[id] else 0
  }

  lemma {:induction false} CountAtUnion(heap: seq<Buffer>, n: nat, a: set<nat>, b: set<nat>, c: string, id: string)
    requires n <= |heap| && a !! b
    ensures CountAt(heap, n, a + b, c, id) == CountAt(heap, n, a, c, id) + CountAt(heap, n, b, c, id)
  {
    if n > 0 { CountAtUnion(heap, n - 1, a, b, c, id); }
  }

  lemma {:induction false} CountAtOne(heap: seq<Buffer>, n: nat, r: nat, c: string, id: string)
    requires n <= |heap|
    ensures CountAt(heap, n, {r}, c, id) == if r < n && heap[r].conv == c then multiset(heap[r].ids)[id] else 0
  {
    if n > 0 { CountAtOne(heap, n - 1, r, c, id); }
  }

  lemma {:induction false} CountAtNone(heap: seq<Buffer>, n: nat, c: string, id: string)
    requires n <= |heap|
    ensures CountAt(heap, n, {}, c, id) == 0
  {
    if n > 0 { CountAtNone(heap, n - 1, c, id); }
  }

  lemma {:induction false} CountAtAll(heap: seq<Buffer>, n: nat, refs: set<nat>, c: string, id: string)
    requires n <= |heap| && forall r :: 0 <= r < n ==> r in refs
    ensures CountAt(heap, n, refs, c, id) == multiset(BlocksOf(heap[..n], c))[id]
  {
    if n > 0 {
      assert heap[..n][..n - 1] == heap[..n - 1];
      CountAtAll(heap, n - 1, refs, c, id);
    }
  }

  /** How often id occurs in the turns of conversation c. */
  ghost function CountSent(sent: seq<Turn>, c: string, id: string): nat {
    if sent == [] then 0
    else
      var n := |sent| - 1;
      CountSent(sent[..n], c, id) + if sent[n].conv == c then multiset(sent[n].ids)[id] else 0
  }

  function Origins(sent: seq<Turn>): set<nat> {
    if sent == [] then {} else Origins(sent[..|sent| - 1]) + {sent[|sent| - 1].origin}
  }

  lemma {:induction false} OriginsAre(sent: seq<Turn>, r: nat)
    ensures r in Origins(sent) <==> exists k :: 0 <= k < |sent| && sent[k].origin == r
  {
    if sent != [] {
      var n := |sent| - 1;
      OriginsAre(sent[..n], r);
      if r in Origins(sent[..n]) {
        var k :| 0 <= k < n && sent[..n][k].origin == r;
        assert sent[k].origin == r;
      }
      if exists k :: 0 <= k < |sent| && sent[k].origin == r {
        var k :| 0 <= k < |sent| && sent[k].origin == r;
        if k < n { assert sent[..n][k].origin == r; }
      }
    }
  }

  lemma {:induction false} SentIsAt(heap: seq<Buffer>, sent: seq<Turn>, c: string, id: string)
    requires forall k :: 0 <= k < |sent| ==>
               sent[k].origin < |heap| && sent[k].conv == heap[sent[k].origin].conv
                   && sent[k].ids == heap[sent[k].origin].ids
    requires forall j, k :: 0 <= j < k < |sent| ==> sent[j].origin != sent[k].origin
    ensures CountSent(sent, c, id) == CountAt(heap, |heap|, Origins(sent), c, id)
  {
    if sent == [] {
      CountAtNone(heap, |heap|, c, id);
    } else {
      var n := |sent| - 1;
      SentIsAt(heap, sent[..n], c, id);
      var r := sent[n].origin;
      OriginsAre(sent[..n], r);
      CountAtUnion(heap, |heap|, Origins(sent[..n]), {r}, c, id);
      CountAtOne(heap, |heap|, r, c, id);
    }
  }

  /** Exactly once: in every state of every run, a message id occurs in the history of its conversation as often
      as in the turns sent plus the buffers still open, detached, waiting to be sent, or dropped as blank. */
  lemma Conservation(s: State, c: string, id: string)
    requires Inv(s)
    ensures multiset(Added(s, c))[id] ==
            CountSent(s.sent, c, id)
            + CountAt(s.heap, |s.heap|, s.open.Values, c, id) + CountAt(s.heap, |s.heap|, s.detached, c, id)
            + CountAt(s.heap, |s.heap|, s.waiting, c, id) + CountAt(s.heap, |s.heap|, s.dropped, c, id)
  {
    hide Format, OnePlace, Timers, Queues, Sizes, CountAt, CountSent, Origins, BlocksOf;
    var n := |s.heap|;
    var o, d, w, x, t := s.open.Values, s.detached, s.waiting, s.dropped, Origins(s.sent);
    PlacesDisjoint(s);
    CountAtUnion(s.heap, n, o, d, c, id);
    CountAtUnion(s.heap, n, o + d, w, c, id);
    CountAtUnion(s.heap, n, o + d + w, x, c, id);
    CountAtUnion(s.heap, n, o + d + w + x, t, c, id);
    CountAtAll(s.heap, n, o + d + w + x + t, c, id);
    assert s.heap[..n] == s.heap;
    SentIsAt(s.heap, s.sent, c, id);
  }

  lemma PlacesDisjoint(s: State)
    requires Places(s)
    ensures var o, d, w, x, t := s.open.Values, s.detached, s.waiting, s.dropped, Origins(s.sent);
            && o !! d && (o + d) !! w && (o + d + w) !! x && (o + d + w + x) !! t
            && forall r :: 0 <= r < |s.heap| ==> r in o + d + w + x + t
  {
    hide Origins;
    var o, d, w, x, t := s.open.Values, s.detached, s.waiting, s.dropped, Origins(s.sent);
    forall r: nat
      ensures r in o ==> r !in d && r !in w && r !in x && r !in t
      ensures r in d ==> r !in w && r !in x && r !in t
      ensures r in w ==> r !in x && r !in t
      ensures r in x ==> r !in t
      ensures r < |s.heap| ==> r in o || r in d || r in w || r in x || r in t
    {
      OriginsAre(s.sent, r);
      if r in o { var k :| k in s.open && s.open[k] == r; }
      if r < |s.heap| { assert OnePlace(s, r); }
    }
  }

  /** Once everything is flushed and sent, each message of a conversation has been sent exactly as often as it was
      added, unless its whole block was one blank message. */
  lemma DrainedMeansDelivered(s: State, c: string, id: string)
    requires Inv(s) && s.open == map[] && s.detached == {} && s.waiting == {}
    requires forall r :: 0 <= r < |s.heap| && |s.heap[r].prompts| == 1 ==> !Blank(s.heap[r].prompts[0])
    ensures CountSent(s.sent, c, id) == multiset(Added(s, c))[id]
  {
    Conservation(s, c, id);
    CountAtNone(s.heap, |s.heap|, c, id);
    forall r ensures r !in s.dropped {
      if r in s.dropped { DroppedIffSingleBlank(s.heap[r].prompts); }
    }
    assert s.dropped == {} && s.open.Values == {};
  }

  /** The block of a conversation's history that each turn carries, and why a block is missing. */
  lemma TurnsAreBlocks(s: State)
    requires Inv(s)
    ensures forall c :: Added(s, c) == BlocksOf(s.heap, c)
    ensures forall r :: 0 <= r < |s.heap| ==>
              1 <= |s.heap[r].ids| <= 10 && (IsOpen(s, r) ==> |s.heap[r].ids| < 10)
    ensures forall k :: 0 <= k < |s.sent| ==> s.sent[k] == TurnOf(s.heap[s.sent[k].origin], s.sent[k].origin)
    ensures forall r :: 0 <= r < |s.heap| && !IsOpen(s, r) && r !in s.detached ==>
              (r in s.dropped <==> |s.heap[r].prompts| == 1 && Blank(s.heap[r].prompts[0]))
  {
    hide Format, Blank;
    forall r | 0 <= r < |s.heap| && !IsOpen(s, r) && r !in s.detached
      ensures r in s.dropped <==> |s.heap[r].prompts| == 1 && Blank(s.heap[r].prompts[0])
    {
      assert OnePlace(s, r);
      DroppedIffSingleBlank(s.heap[r].prompts);
      if IsSent(s, r) { var k :| 0 <= k < |s.sent| && s.sent[k].origin == r; }
    }
  }

  // ---------------------------------------------------------------- deadlines and progress

  /** Past min(last message + 3 s, first message + 8 s), a flush of an open buffer's conversation is pending. */
  lemma FlushDeadline(s: State, c: string)
    requires Inv(s) && c in s.open
    requires var b := s.heap[s.open[c]];
             s.now >= b.lastAdd + 3000 || s.now >= b.created + 8000
    ensures FlushPending(s, c)
  {
  }

  /** An armed timer expires three seconds after the last message or eight after the first. */
  ghost predicate Deadlines(s: State) {
    forall r :: 0 <= r < |s.heap| ==>
      && (s.heap[r].soft.armed ==> s.heap[r].soft.deadline == s.heap[r].lastAdd + 3000)
      && (s.heap[r].hard.armed ==> s.heap[r].hard.deadline == s.heap[r].created + 8000)
  }

  lemma DeadlinesKept(s: State, e: Event)
    requires WellFormed(s) && Enabled(s, e) && Deadlines(s)
    ensures Deadlines(Apply(s, e))
  {
    hide AddStep, FlushBufferStep, SendStep, ReceiveStep, FinishStep, FlushStep, CloseAllStep;
    match e
    case Add(i) => DeadlinesAdd(s, i);
    case FlushBuffer(r) => DeadlinesFlushBuffer(s, r);
    case Flush(c) => FlushKeepsOwners(s, c);
    case CloseAll => FlushKeepsOwners(s, "");
    case Send(r) => SendKeeps(s, r);
    case Receive(k) => QueueKeeps(s, k);
    case Finish(k) => QueueKeeps(s, k);
    case _ =>
  }

  lemma DeadlinesFlushBuffer(s: State, r: nat)
    requires r < |s.heap| && Deadlines(s)
    ensures Deadlines(FlushBufferStep(s, r))
  {
    hide Format, Blank;
  }

  lemma SendKeeps(s: State, q: nat)
    requires WellFormed(s) && Enabled(s, Send(q))
    ensures SendStep(s, q).heap == s.heap
  {
    hide Format;
  }

  lemma QueueKeeps(s: State, k: string)
    ensures Enabled(s, Receive(k)) ==> ReceiveStep(s, k).heap == s.heap
    ensures Enabled(s, Finish(k)) ==> FinishStep(s, k).heap == s.heap
  {
  }

  lemma DeadlinesAdd(s: State, i: Input)
    requires WellFormed(s) && Deadlines(s)
    ensures Deadlines(AddStep(s, i))
  {
  }

  lemma {:induction false} RunDeadlines(states: seq<State>, events: seq<Event>)
    requires IsRun(states, events)
    ensures Deadlines(states[|events|])
    decreases |events|
  {
    hide Apply, Enabled, Deadlines;
    if events == [] {
      assert Deadlines(INIT) by { NoDeadlines(); }
    } else {
      var n := |events| - 1;
      assert IsRun(states[..n + 1], events[..n]);
      RunDeadlines(states[..n + 1], events[..n]);
      DeadlinesKept(states[n], events[n]);
    }
  }

  lemma NoDeadlines()
    ensures Deadlines(INIT)
  {
  }

  /** No timer expires early: in every run the soft timer of a buffer can do so only three seconds after the buffer's
      last message, and the hard one only eight after its first. */
  lemma FireIsDue(states: seq<State>, events: seq<Event>, r: nat)
    requires IsRun(states, events)
    ensures var s := states[|events|];
            && (Enabled(s, FireSoft(r)) ==> r < |s.heap| && s.now >= s.heap[r].lastAdd + 3000)
            && (Enabled(s, FireHard(r)) ==> r < |s.heap| && s.now >= s.heap[r].created + 8000)
  {
    RunDeadlines(states, events);
    hide IsRun;
  }

  /** A message can come at any time; it closes its buffer exactly if it is the tenth. */
  lemma TenthCloses(s: State, i: Input)
    requires Inv(s)
    ensures WellFormed(s) && Enabled(s, Add(i))
    ensures i.conv !in AddStep(s, i).open <==> i.conv in s.open && |s.heap[s.open[i.conv]].ids| == 9
  {
    hide OnePlace, History, Turns, Timers, Queues;
  }

  /** closeAll can come at any time; it leaves no buffer open, and each that was is on its way to be flushed. */
  lemma CloseAllDetaches(s: State, c: string)
    requires Inv(s)
    ensures WellFormed(s) && Enabled(s, CloseAll)
    ensures var t := Apply(s, CloseAll); c !in t.open && (c in s.open ==> s.open[c] in t.detached)
  {
    hide OnePlace, Blocks, Turns, Timers, Queues;
  }

  /** A send waits exactly while its channel holds 32 turns. */
  lemma SendWaits(s: State, r: nat)
    requires Inv(s) && r in s.waiting
    ensures r < |s.heap|
    ensures var k := s.heap[r].user + ":" + s.heap[r].conv;
            k in s.runners && |s.runners[k].channel| <= 32
            && (Enabled(s, Send(r)) <==> |s.runners[k].channel| != 32)
  {
    hide OnePlace, Blocks, Turns, Timers, TurnsOf, ForKey;
  }

  /** A runner serves the turns of one user in one conversation. */
  lemma RunnerServesOne(s: State, k: string, t: Turn)
    requires Inv(s) && k in s.runners
    requires t in s.runners[k].processed || t in s.runners[k].channel || s.runners[k].processing == Some(t)
    ensures t.user + ":" + t.conv == k
  {
    hide Places, Blocks, Turns, Timers, Queues;
    RunnerTurns(s, k);
    var q := s.runners[k];
    assert t in TurnsOf(q);
    ForKeyHas(s.sent, k, t);
  }

  lemma RunnerTurns(s: State, k: string)
    requires Inv(s) && k in s.runners
    ensures TurnsOf(s.runners[k]) == ForKey(s.sent, k)
  {
    hide Places, Blocks, Turns, Timers, ForKey, TurnsOf;
  }

  lemma {:induction false} ForKeyHas(sent: seq<Turn>, k: string, t: Turn)
    requires t in ForKey(sent, k)
    ensures t.user + ":" + t.conv == k && t in sent
  {
    var n := |sent| - 1;
    if t in ForKey(sent[..n], k) { ForKeyHas(sent[..n], k, t); }
  }

  /** A pending flush takes at most a timer expiry and a lock to detach the buffer. */
  lemma PendingFlushDetaches(s: State, c: string) returns (events: seq<Event>, states: seq<State>)
    requires Inv(s) && c in s.open && FlushPending(s, c)
    ensures |events| <= 2 && IsPath(s, states, events)
    ensures c !in states[|events|].open && s.open[c] in states[|events|].detached
  {
    hide Format, OnePlace, Blocks, Turns, Queues, Apply, FlushStep;
    InvWellFormed(s);
    var r := s.open[c];
    if c in s.flushes {
      FlushDetaches(s, c);
      events, states := [Flush(c)], [s, Apply(s, Flush(c))];
      PathOfOne(s, events[0]);
    } else {
      var b := s.heap[r];
      var e := if b.soft.armed && b.soft.deadline <= s.now then FireSoft(r) else FireHard(r);
      PlacesKept(s, e);
      FireLeaves(s, e, r, c);
      var s1 := Apply(s, e);
      FlushDetaches(s1, c);
      events, states := [e, Flush(c)], [s, s1, Apply(s1, Flush(c))];
      PathOfTwo(s, e, Flush(c));
    }
  }

  /** Events that can happen one after the other from s. */
  ghost predicate IsPath(s: State, states: seq<State>, events: seq<Event>) {
    && |states| == |events| + 1 && states[0] == s
    && forall k :: 0 <= k < |events| ==>
         WellFormed(states[k]) && Enabled(states[k], events[k]) && states[k + 1] == Apply(states[k], events[k])
  }

  lemma PathOfOne(s: State, e: Event)
    requires WellFormed(s) && Enabled(s, e)
    ensures IsPath(s, [s, Apply(s, e)], [e])
  {
    hide WellFormed, Enabled, Apply;
  }

  lemma PathOfTwo(s: State, e: Event, f: Event)
    requires WellFormed(s) && Enabled(s, e) && WellFormed(Apply(s, e)) && Enabled(Apply(s, e), f)
    ensures IsPath(s, [s, Apply(s, e), Apply(Apply(s, e), f)], [e, f])
  {
    hide WellFormed, Enabled, Apply;
  }

  lemma FlushDetaches(s: State, c: string)
    requires WellFormed(s) && c in s.open && c in s.flushes
    ensures Enabled(s, Flush(c)) && c !in Apply(s, Flush(c)).open && s.open[c] in Apply(s, Flush(c)).detached
  {
    hide Format, AddStep, FlushBufferStep, SendStep, ReceiveStep, FinishStep;
  }

  lemma FireLeaves(s: State, e: Event, r: nat, c: string)
    requires Places(s) && r < |s.heap| && s.heap[r].conv == c && (e == FireSoft(r) || e == FireHard(r)) && Enabled(s, e)
    ensures Apply(s, e).open == s.open && c in Apply(s, e).flushes
  {
    hide Format, AddStep, FlushStep, FlushBufferStep, SendStep, ReceiveStep, FinishStep, Places;
  }

  /** The turns processed for a key are a prefix of the turns sent on its channel, one in hand at most. */
  lemma ProcessedIsPrefix(s: State, k: string)
    requires Inv(s) && k in s.runners
    ensures s.runners[k].processed <= ForKey(s.sent, k)
    ensures |ForKey(s.sent, k)| - |s.runners[k].processed| <= 33
  {
    var q := s.runners[k];
    hide ForKey;
    assert q.processed + InHand(q) + q.channel == ForKey(s.sent, k);
  }

  /** A sender blocked on a full channel is unblocked by at most two steps of the runner. */
  lemma SenderCanProceed(s: State, r: nat) returns (events: seq<Event>, states: seq<State>)
    requires Inv(s) && r in s.waiting
    ensures |events| <= 2 && IsPath(s, states, events)
    ensures forall k :: 0 <= k < |events| ==> events[k].Receive? || events[k].Finish?
    ensures WellFormed(states[|events|]) && Enabled(states[|events|], Send(r))
  {
    WaitingHasRunner(s, r);
    InvWellFormed(s);
    hide *;
    var k := Key(s.heap[r].user, s.heap[r].conv);
    if |s.runners[k].channel| < CHANNEL_CAPACITY {
      events, states := [], [s];
      PathOfNone(s);
      CanSend(s, r);
    } else if s.runners[k].processing.None? {
      ReceiveFrees(s, k);
      PathOfOne(s, Receive(k));
      CanSend(Apply(s, Receive(k)), r);
      events, states := [Receive(k)], [s, Apply(s, Receive(k))];
    } else {
      FinishFrees(s, k);
      var s1 := Apply(s, Finish(k));
      ReceiveFrees(s1, k);
      PathOfTwo(s, Finish(k), Receive(k));
      CanSend(Apply(s1, Receive(k)), r);
      events, states := [Finish(k), Receive(k)], [s, s1, Apply(s1, Receive(k))];
    }
  }

  lemma PathOfNone(s: State)
    ensures IsPath(s, [s], [])
  {
  }

  lemma CanSend(s: State, r: nat)
    requires r in s.waiting && r < |s.heap| && Key(s.heap[r].user, s.heap[r].conv) in s.runners
    requires |s.runners[Key(s.heap[r].user, s.heap[r].conv)].channel| < CHANNEL_CAPACITY
    ensures Enabled(s, Send(r))
  {
  }

  lemma WaitingHasRunner(s: State, r: nat)
    requires Inv(s) && r in s.waiting
    ensures r < |s.heap| && Key(s.heap[r].user, s.heap[r].conv) in s.runners
    ensures |s.runners[Key(s.heap[r].user, s.heap[r].conv)].channel| <= CHANNEL_CAPACITY
  {
    InvWellFormed(s);
    hide OnePlace, Blocks, Turns, Timers, ForKey, TurnsOf;
  }

  /** Receiving from a full channel makes room and touches nothing a sender looks at. */
  lemma ReceiveFrees(s: State, k: string)
    requires WellFormed(s) && k in s.runners && |s.runners[k].channel| == CHANNEL_CAPACITY
             && s.runners[k].processing.None?
    ensures Enabled(s, Receive(k))
    ensures var t := Apply(s, Receive(k));
            WellFormed(t) && t.heap == s.heap && t.waiting == s.waiting && k in t.runners
                && |t.runners[k].channel| < CHANNEL_CAPACITY
  {
    hide Format, AddStep, FlushStep, FlushBufferStep, FireSoftStep, FireHardStep;
  }

  lemma FinishFrees(s: State, k: string)
    requires WellFormed(s) && k in s.runners && s.runners[k].processing.Some?
    ensures Enabled(s, Finish(k))
    ensures var t := Apply(s, Finish(k));
            && WellFormed(t) && t.heap == s.heap && t.waiting == s.waiting && k in t.runners
            && t.runners[k].channel == s.runners[k].channel && t.runners[k].processing.None?
  {
    hide Format, AddStep, FlushStep, FlushBufferStep, FireSoftStep, FireHardStep;
  }

  /** A runner, once started, stays, and what it has processed only grows. */
  lemma RunnerStays(s: State, e: Event, k: string)
    requires WellFormed(s) && Enabled(s, e) && k in s.runners
    ensures k in Apply(s, e).runners && s.runners[k].processed <= Apply(s, e).runners[k].processed
  {
    hide Format, AddStep, FlushBufferStep, SendStep, ReceiveStep, FinishStep;
    match e
    case Add(i) => AddKeepsOwners(s, i);
    case FlushBuffer(r) => hide WellFormed; RunnerFlushBuffer(s, r, k);
    case Send(r) => hide WellFormed; RunnerSend(s, r, k);
    case Receive(j) => hide WellFormed; RunnerReceive(s, j, k);
    case Finish(j) => hide WellFormed; RunnerFinish(s, j, k);
    case _ => QuietKeepsOwners(s, e);
  }

  lemma RunnerFlushBuffer(s: State, r: nat, k: string)
    requires r < |s.heap| && k in s.runners
    ensures var t := FlushBufferStep(s, r); k in t.runners && t.runners[k] == s.runners[k]
  {
    hide Format;
  }

  lemma RunnerSend(s: State, r: nat, k: string)
    requires r < |s.heap| && Key(s.heap[r].user, s.heap[r].conv) in s.runners && k in s.runners
    ensures var t := SendStep(s, r); k in t.runners && t.runners[k].processed == s.runners[k].processed
  {
    hide Format;
  }

  lemma RunnerReceive(s: State, j: string, k: string)
    requires j in s.runners && s.runners[j].channel != [] && k in s.runners
    ensures var t := ReceiveStep(s, j); k in t.runners && t.runners[k].processed == s.runners[k].processed
  {
  }

  lemma RunnerFinish(s: State, j: string, k: string)
    requires j in s.runners && s.runners[j].processing.Some? && k in s.runners
    ensures var t := FinishStep(s, j); k in t.runners && s.runners[k].processed <= t.runners[k].processed
  {
  }

  // ---------------------------------------------------------------- the imperative original

  /** formatAggregatedPrompt. */
  method FormatAggregatedPrompt(prompts: seq<string>) returns (r: string)
    ensures r == Format(prompts)
  {
    if |prompts| == 0 { return ""; }
    if |prompts| == 1 { return Trim(prompts[0]); }
    var sb := "";
    for i := 0 to |prompts|
      invariant sb == Lines(prompts, i)
    {
      sb := sb + Digits(i + 1) + ". " + Trim(prompts[i]) + "\n";
    }
    return Trim("[用户连续发送了" + Digits(|prompts|) + "条消息]\n" + sb);
  }

  lemma ValuesWithout(m: map<string, nat>, c: string)
    requires c in m
    ensures m.Values == (m - {c}).Values + {m[c]} && |m - {c}| == |m| - 1
  {
    var w := m - {c};
    forall v | v in m.Values ensures v in w.Values + {m[c]} {
      var k :| k in m && m[k] == v;
      if k != c { assert k in w && w[k] == v; }
    }
    assert m.Keys == w.Keys + {c};
    assert |m| == |m.Keys| && |w| == |w.Keys|;
  }

  /** The loop of closeAll: deletes one entry at a time and collects the buffers. */
  method TakeAll(buffers: map<string, nat>) returns (taken: set<nat>)
    ensures taken == buffers.Values
  {
    taken := {};
    var left := buffers;
    while left != map[]
      invariant taken + left.Values == buffers.Values
      decreases |left|
    {
      var c :| c in left;
      ValuesWithout(left, c);
      taken := taken + {left[c]};
      left := left - {c};
    }
  }

  /** messageAggregator and wsConversationQueue; each method is one critical section or channel operation. */
  class MessageAggregator {
    var now: int
    var heap: seq<Buffer>
    var buffers: map<string, nat>
    var flushes: multiset<string>
    var detached: set<nat>
    var waiting: set<nat>
    var runners: map<string, Runner>
    ghost var dropped: set<nat>
    ghost var sent: seq<Turn>
    ghost var added: map<string, seq<string>>

    ghost function Current(): State
      reads this
    {
      State(now, heap, buffers, flushes, detached, waiting, runners, dropped, sent, added)
    }

    constructor ()
      ensures Current() == INIT && Inv(Current())
    {
      now, heap, buffers, flushes, detached, waiting, runners := 0, [], map[], multiset{}, {}, {}, map[];
      dropped, sent, added := {}, [], map[];
      new;
      InvInit();
    }

    /** The part of add that joins an open buffer. */
    method JoinBuffer(input: Input, r: nat)
      requires r < |heap|
      modifies this
      ensures var s := old(Current());
              Current() == if |s.heap[r].prompts| + 1 >= MAX_AGGREGATE_MESSAGES then AddFull(s, input, r)
                  else AddMore(s, input, r)
    {
      var b := heap[r];
      b := b.(prompts := b.prompts + [input.prompt]);
      b := b.(ids := b.ids + [input.id]);
      b := b.(context := input.context);
      b := b.(lastAdd := now);
      if |b.prompts| >= MAX_AGGREGATE_MESSAGES {
        b := b.(soft := b.soft.(armed := false));
        b := b.(hard := b.hard.(armed := false));
        heap := heap[r := b];
        buffers := buffers - {input.conv};
        detached := detached + {r};
        return;
      }
      heap := heap[r := b.(soft := Timer(now + AGGREGATE_WINDOW, true))];
    }

    /** add. */
    method Add(input: Input)
      requires Inv(Current())
      modifies this
      ensures Current() == AddStep(old(Current()), input) && Inv(Current())
    {
      hide Inv, AddFull, AddMore;
      InvKept(Current(), Event.Add(input));
      InvWellFormed(Current());
      added := added[input.conv := (if input.conv in added then added[input.conv] else []) + [input.id]];
      if input.conv in buffers {
        JoinBuffer(input, buffers[input.conv]);
        return;
      }
      var buf := Buffer(input.user, input.conv, [input.prompt], [input.id], input.context,
                        Timer(now + AGGREGATE_WINDOW, true), Timer(now + HARD_AGGREGATE_LIMIT, true), now, now);
      heap := heap + [buf];
      buffers := buffers[input.conv := |heap| - 1];
    }

    /** flush from the lock to the call of flushBuffer. */
    method Flush(conv: string)
      requires Inv(Current()) && conv in flushes
      modifies this
      ensures Current() == FlushStep(old(Current()), conv) && Inv(Current())
    {
      hide Inv;
      InvKept(Current(), Event.Flush(conv));
      InvWellFormed(Current());
      flushes := flushes - multiset{conv};
      if conv !in buffers { return; }
      detached := detached + {buffers[conv]};
      buffers := buffers - {conv};
    }

    /** closeAll up to the unlock. */
    method CloseAll()
      requires Inv(Current())
      modifies this
      ensures Current() == CloseAllStep(old(Current())) && Inv(Current())
    {
      hide Inv;
      InvKept(Current(), Event.CloseAll);
      var taken := TakeAll(buffers);
      buffers := map[];
      detached := detached + taken;
    }

    /** flushBuffer, and enqueue up to the unlock. */
    method FlushBuffer(r: nat)
      requires Inv(Current()) && r in detached
      modifies this
      ensures Current() == FlushBufferStep(old(Current()), r) && Inv(Current())
    {
      hide Inv, Format, Blank;
      InvKept(Current(), Event.FlushBuffer(r));
      InvWellFormed(Current());
      detached := detached - {r};
      heap := heap[r := heap[r].(soft := heap[r].soft.(armed := false), hard := heap[r].hard.(armed := false))];
      var prompt := FormatAggregatedPrompt(heap[r].prompts);
      if Blank(prompt) {
        dropped := dropped + {r};
        return;
      }
      var key := Key(heap[r].user, heap[r].conv);
      if key !in runners { runners := runners[key := Runner([], None, [])]; }
      waiting := waiting + {r};
    }

    /** The channel send at the end of enqueue. */
    method Send(r: nat)
      requires Inv(Current()) && Enabled(Current(), Event.Send(r))
      modifies this
      ensures IsSend(old(Current()), r, Current()) && Inv(Current())
    {
      hide Inv, Format;
      InvWellFormed(Current());
      InvKept(Current(), Event.Send(r));
      var b := heap[r];
      var prompt := FormatAggregatedPrompt(b.prompts);
      var turn := Turn(r, b.user, b.conv, prompt, b.ids, b.context);
      var key := Key(b.user, b.conv);
      waiting := waiting - {r};
      runners := runners[key := runners[key].(channel := runners[key].channel + [turn])];
      sent := sent + [turn];
    }
  }

  lemma InvWellFormed(s: State)
    requires Inv(s)
    ensures WellFormed(s)
  {
  }
}
