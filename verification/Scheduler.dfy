/** Gating and choice of proactive messages (api/scheduler.go) over the newest-first log (store/store.go).

    Times, durations and zone offsets are nanoseconds. Trigger names are constructors; Quiet is the empty name. */
module Scheduler {
  import opened Arithmetic

  datatype Trigger =
    | Quiet | CuriosityAfterSilence | RandomShare | MorningCare | EveningCare | WorryAfterLongSilence
    | SharePersonalMoment | ShareInterestingFact | ShareEmotion

  datatype Log = Log(user: string, trigger: Trigger, createdAt: int)

  datatype Message = Message(sender: string, proactive: bool)

  /** What one call of processUser sees, and what sending comes to. The messages are the last ten of the user's latest
      conversation, oldest first; lastMessageAt is that conversation's. The do-not-disturb times are minutes of the day,
      negative if they could not be parsed. A message that is sent is saved at savedAt and logged at sentAt. */
  datatype Situation = Situation(
    user: string, now: int, enabled: bool, hasConversation: bool, hasBot: bool, offset: int, dndStart: int, dndEnd: int,
    cooldown: int, messages: seq<Message>, online: bool, lastUserAt: int, types: set<Trigger>, threshold: int,
    lastMessageAt: int, negative: bool, personalDraw: real, factDraw: real, emotionDraw: real, sent: bool,
    savedAt: int, sentAt: int)

  const MINUTE := 60_000_000_000
  const HOUR := 60 * MINUTE
  const DAY := 24 * HOUR

  /** inactivityThreshold, unless configured. */
  const THRESHOLD := 8 * MINUTE

  /** perTriggerCooldown. */
  function Cooldowns(): map<Trigger, int> {
    map[MorningCare := 20 * HOUR, EveningCare := 20 * HOUR, CuriosityAfterSilence := 3 * HOUR,
        WorryAfterLongSilence := 8 * HOUR, RandomShare := 3 * HOUR, SharePersonalMoment := 8 * HOUR,
        ShareInterestingFact := 10 * HOUR, ShareEmotion := 12 * HOUR]
  }

  // ---------------------------------------------------------------- the log

  /** The logs of one user, newest first. */
  function Mine(logs: seq<Log>, user: string): seq<Log> {
    if logs == [] then []
    else if logs[0].user == user then [logs[0]] + Mine(logs[1..], user)
    else Mine(logs[1..], user)
  }

  function FirstOf(logs: seq<Log>, n: nat): seq<Log> { if |logs| > n then logs[..n] else logs }

  /** The empty user stands for all. */
  function Selected(logs: seq<Log>, user: string): seq<Log> { if user == "" then logs else Mine(logs, user) }

  /** ListProactiveLogs. */
  function Listed(logs: seq<Log>, user: string, limit: int): seq<Log> {
    FirstOf(Selected(logs, user), if limit <= 0 then 20 else limit)
  }

  lemma SelectedStep(logs: seq<Log>, user: string, k: nat)
    requires k < |logs|
    ensures Selected(logs[k..], user) ==
              if user == "" || logs[k].user == user then [logs[k]] + Selected(logs[k + 1..], user)
                  else Selected(logs[k + 1..], user)
  {
    assert logs[k..][1..] == logs[k + 1..];
    assert logs[k..] == [logs[k]] + logs[k + 1..];
  }

  lemma SelectedEnds(logs: seq<Log>, user: string)
    ensures Selected(logs[0..], user) == Selected(logs, user) && Selected(logs[|logs|..], user) == []
  {
    assert logs[0..] == logs && logs[|logs|..] == [];
  }

  /** The part of a list that is taken after the logs up to k: all of out is a prefix of the selection. */
  ghost predicate Taken(logs: seq<Log>, user: string, k: nat, out: seq<Log>) {
    k <= |logs| && Selected(logs, user) == out + Selected(logs[k..], user)
  }

  lemma TakenAtStart(logs: seq<Log>, user: string)
    ensures Taken(logs, user, 0, [])
  {
    SelectedEnds(logs, user);
    assert [] + Selected(logs, user) == Selected(logs, user);
  }

  lemma TakenStep(logs: seq<Log>, user: string, k: nat, out: seq<Log>)
    requires k < |logs| && Taken(logs, user, k, out)
    ensures Taken(logs, user, k + 1, if user == "" || logs[k].user == user then out + [logs[k]] else out)
  {
    SelectedStep(logs, user, k);
    hide Selected;
    var rest := Selected(logs[k + 1..], user);
    assert out + ([logs[k]] + rest) == out + [logs[k]] + rest;
  }

  lemma TakenIsListed(logs: seq<Log>, user: string, limit: int, k: nat, out: seq<Log>)
    requires Taken(logs, user, k, out)
    requires var max := if limit <= 0 then 20 else limit; |out| == max || (|out| < max && k == |logs|)
    ensures out == Listed(logs, user, limit)
  {
    SelectedEnds(logs, user);
    hide Selected;
    assert out + [] == out;
  }

  // ---------------------------------------------------------------- local time

  function LocalTime(s: Situation): int { s.now + s.offset }

  function Hour(s: Situation): int { LocalTime(s) / HOUR % 24 }

  function Minute(s: Situation): int { LocalTime(s) / MINUTE % 60 }

  /** isDND, on minutes of the day. */
  predicate InWindow(start: int, end: int, current: int) {
    if start < 0 || end < 0 then false
    else if start <= end then start <= current < end
    else current >= start || current < end
  }

  /** A window and the one with its ends exchanged divide the day; equal ends leave no window at all. */
  lemma WindowsDivideTheDay(start: int, end: int, current: int)
    requires start >= 0 && end >= 0
    ensures start != end ==> (InWindow(start, end, current) <==> !InWindow(end, start, current))
    ensures start == end ==> !InWindow(start, end, current)
  {
  }

  predicate DND(s: Situation) { InWindow(s.dndStart, s.dndEnd, Hour(s) * 60 + Minute(s)) }

  // ---------------------------------------------------------------- the count of unanswered messages

  /** The scan of processUser: from the oldest listed message up to the first one of the user. */
  function Unanswered(messages: seq<Message>): nat {
    if messages == [] || messages[0].sender == "user" then 0
    else Unanswered(messages[1..]) + if messages[0].proactive then 1 else 0
  }

  /** What the count is for: the proactive messages since the user's last one. */
  function SinceReply(messages: seq<Message>): nat {
    if messages == [] || messages[|messages| - 1].sender == "user" then 0
    else SinceReply(messages[..|messages| - 1]) + if messages[|messages| - 1].proactive then 1 else 0
  }

  function Proactive(messages: seq<Message>): nat {
    if messages == [] then 0 else Proactive(messages[1..]) + if messages[0].proactive then 1 else 0
  }

  ghost predicate NoReply(messages: seq<Message>) {
    forall i :: 0 <= i < |messages| ==> messages[i].sender != "user"
  }

  lemma {:induction false} UnansweredIs(a: seq<Message>, b: seq<Message>)
    requires NoReply(a) && (b == [] || b[0].sender == "user")
    ensures Unanswered(a + b) == Proactive(a)
  {
    if a == [] {
      assert a + b == b;
    } else {
      assert (a + b)[1..] == a[1..] + b;
      UnansweredIs(a[1..], b);
    }
  }

  lemma {:induction false} SinceReplyIs(a: seq<Message>, b: seq<Message>)
    requires NoReply(b) && (a == [] || a[|a| - 1].sender == "user")
    ensures SinceReply(a + b) == Proactive(b)
  {
    if b == [] {
      assert a + b == a;
    } else {
      var n := |b| - 1;
      assert (a + b)[..|a + b| - 1] == a + b[..n];
      SinceReplyIs(a, b[..n]);
      ProactiveSnoc(b[..n], b[n]);
      assert b == b[..n] + [b[n]];
    }
  }

  lemma {:induction false} ProactiveSnoc(a: seq<Message>, m: Message)
    ensures Proactive(a + [m]) == Proactive(a) + if m.proactive then 1 else 0
  {
    if a != [] {
      assert (a + [m])[1..] == a[1..] + [m];
      ProactiveSnoc(a[1..], m);
    }
  }

  /** The scan is right exactly when the listed messages hold no reply, or as many proactive messages before the first
      reply as after the last. */
  lemma UnansweredRightIff(before: seq<Message>, replies: seq<Message>, after: seq<Message>)
    requires NoReply(before) && NoReply(after)
    requires replies != [] ==> replies[0].sender == "user" && replies[|replies| - 1].sender == "user"
    ensures var all := before + replies + after;
            Unanswered(all) == SinceReply(all) <==> replies == [] || Proactive(before) == Proactive(after)
  {
    var all := before + replies + after;
    if replies == [] {
      assert all == before + after && NoReply(all);
      assert all + [] == all && [] + all == all;
      UnansweredIs(all, []);
      SinceReplyIs([], all);
    } else {
      assert all == before + (replies + after);
      UnansweredIs(before, replies + after);
      SinceReplyIs(before + replies, after);
    }
  }

  /** A reply that joins the list leaves the count as it was, though nothing is unanswered any more. */
  lemma {:induction false} ReplyKeepsCount(messages: seq<Message>, reply: Message)
    requires reply.sender == "user"
    ensures Unanswered(messages + [reply]) == Unanswered(messages) && SinceReply(messages + [reply]) == 0
  {
    if messages != [] {
      assert (messages + [reply])[1..] == messages[1..] + [reply];
      ReplyKeepsCount(messages[1..], reply);
    }
  }

  // ---------------------------------------------------------------- the choice of a trigger

  datatype Window = Window(trigger: Trigger, start: int, end: int)

  /** triggerWindows. */
  const WINDOWS := [Window(MorningCare, 7, 9), Window(EveningCare, 21, 22), Window(RandomShare, 10, 20)]

  predicate Fires(s: Situation, w: Window) {
    w.trigger != RandomShare && w.start <= Hour(s) < w.end && w.trigger in s.types
  }

  function CareTrigger(s: Situation, windows: seq<Window>): Trigger {
    if windows == [] then Quiet
    else if Fires(s, windows[0]) then windows[0].trigger
    else CareTrigger(s, windows[1..])
  }

  function SilenceTrigger(s: Situation): Trigger {
    var gap := s.now - s.lastMessageAt;
    if !(9 <= Hour(s) < 21 || s.threshold < HOUR) then Quiet
    else if gap >= 3 * HOUR && s.negative && WorryAfterLongSilence in s.types then WorryAfterLongSilence
    else if (gap >= 3 * HOUR || gap >= s.threshold) && CuriosityAfterSilence in s.types then CuriosityAfterSilence
    else Quiet
  }

  function SharingTrigger(s: Situation): Trigger {
    var hour := Hour(s);
    if 10 <= hour < 20 && SharePersonalMoment in s.types && s.personalDraw < 0.3 then SharePersonalMoment
    else if 12 <= hour < 18 && ShareInterestingFact in s.types && s.factDraw < 0.25 then ShareInterestingFact
    else if 14 <= hour < 21 && ShareEmotion in s.types && s.emotionDraw < 0.2 then ShareEmotion
    else if 10 <= hour < 20 && RandomShare in s.types && Minute(s) < 5 then RandomShare
    else Quiet
  }

  /** detectTrigger. */
  function Detected(s: Situation): Trigger {
    var care, silence := CareTrigger(s, WINDOWS), SilenceTrigger(s);
    if care != Quiet then care else if silence != Quiet then silence else SharingTrigger(s)
  }

  lemma CareIs(s: Situation)
    ensures CareTrigger(s, WINDOWS) == if 7 <= Hour(s) < 9 && MorningCare in s.types then MorningCare
                                       else if Hour(s) == 21 && EveningCare in s.types then EveningCare else Quiet
  {
    hide Hour;
    assert WINDOWS[1..] == [WINDOWS[1], WINDOWS[2]] && WINDOWS[1..][1..] == [WINDOWS[2]];
    assert WINDOWS[1..][1..][1..] == [];
    assert CareTrigger(s, WINDOWS[1..][1..]) == Quiet;
  }

  /** When a trigger is detected, its hours have come or, for worry, three hours have passed in silence. */
  lemma DetectedGuards(s: Situation)
    ensures Detected(s) == MorningCare ==> 7 <= Hour(s) < 9
    ensures Detected(s) == EveningCare ==> Hour(s) == 21
    ensures Detected(s) == WorryAfterLongSilence ==> s.now - s.lastMessageAt >= 3 * HOUR
    ensures Detected(s) in {SharePersonalMoment, RandomShare} ==> 10 <= Hour(s) < 20
    ensures Detected(s) == ShareInterestingFact ==> 12 <= Hour(s) < 18
    ensures Detected(s) == ShareEmotion ==> 14 <= Hour(s) < 21
  {
    CareIs(s);
    hide CareTrigger, Hour, Minute;
  }

  // ---------------------------------------------------------------- the gate

  predicate IsNudge(t: Trigger) { t == CuriosityAfterSilence || t == WorryAfterLongSilence }

  predicate IsShare(t: Trigger) {
    t == RandomShare || t == SharePersonalMoment || t == ShareInterestingFact || t == ShareEmotion
  }

  /** shouldBlockTriggerForPresence; lastUserAt 0 is the zero time. */
  predicate BlockedByPresence(s: Situation, t: Trigger) {
    s.online && (IsNudge(t) || (IsShare(t) && s.lastUserAt != 0 && s.now - s.lastUserAt < 3 * MINUTE))
  }

  /** How long a check waits after the last log: the cooldown, doubled for every counted message after the first. */
  function Wait(s: Situation): int {
    var n := Unanswered(s.messages);
    if n >= 2 then s.cooldown * Pow2(n - 1) else s.cooldown
  }

  predicate Rested(s: Situation, last: seq<Log>) {
    last == [] || (s.now - last[0].createdAt >= s.cooldown && s.now - last[0].createdAt >= Wait(s))
  }

  predicate TriggerRested(table: map<Trigger, int>, s: Situation, recent: seq<Log>) {
    Detected(s) in table ==>
      forall i :: 0 <= i < |recent| && recent[i].trigger == Detected(s) ==>
          s.now - recent[i].createdAt >= table[Detected(s)]
  }

  /** processUser sends and logs. */
  predicate Passes(table: map<Trigger, int>, logs: seq<Log>, s: Situation) {
    && s.enabled && s.hasConversation && s.hasBot && !DND(s)
    && Rested(s, Listed(logs, s.user, 1))
    && Detected(s) != Quiet && !BlockedByPresence(s, Detected(s))
    && TriggerRested(table, s, Listed(logs, s.user, 10))
    && s.sent
  }

  function LogOf(s: Situation): Log { Log(s.user, Detected(s), s.sentAt) }

  function Step(table: map<Trigger, int>, logs: seq<Log>, s: Situation): seq<Log> {
    if Passes(table, logs, s) then [LogOf(s)] + logs else logs
  }

  /** The log after a whole run of checks, of any users in any order. */
  function After(table: map<Trigger, int>, run: seq<Situation>): seq<Log> {
    if run == [] then [] else Step(table, After(table, run[..|run| - 1]), run[|run| - 1])
  }

  // ---------------------------------------------------------------- the checks that sent

  ghost predicate Sent(table: map<Trigger, int>, run: seq<Situation>, k: nat)
    requires k < |run|
  {
    Passes(table, After(table, run[..k]), run[k])
  }

  /** The user's checks that sent, newest first. */
  ghost function Sends(table: map<Trigger, int>, run: seq<Situation>, user: string): seq<Situation> {
    if run == [] then []
    else
      var n := |run| - 1;
      if Sent(table, run, n) && run[n].user == user then [run[n]] + Sends(table, run[..n], user)
      else Sends(table, run[..n], user)
  }

  /** These are the checks behind the logs. */
  ghost predicate Behind(x: seq<Situation>, mine: seq<Log>) {
    |x| == |mine| && forall i :: 0 <= i < |x| ==> mine[i] == LogOf(x[i])
  }

  lemma BehindCons(x: seq<Situation>, mine: seq<Log>, s: Situation)
    requires Behind(x, mine)
    ensures Behind([s] + x, [LogOf(s)] + mine)
  {
    hide LogOf;
  }

  lemma MineOfStep(table: map<Trigger, int>, logs: seq<Log>, s: Situation, user: string)
    ensures Mine(Step(table, logs, s), user) ==
              if Passes(table, logs, s) && s.user == user then [LogOf(s)] + Mine(logs, user) else Mine(logs, user)
  {
    hide Passes, Detected;
    assert ([LogOf(s)] + logs)[1..] == logs;
  }

  lemma {:induction false} SendsAreBehind(table: map<Trigger, int>, run: seq<Situation>, user: string)
    ensures Behind(Sends(table, run, user), Mine(After(table, run), user))
  {
    hide Passes, Mine, Behind, Step, LogOf;
    if run == [] {
      assert Behind([], Mine([], user)) by { NothingBehind(user); }
    } else {
      var n := |run| - 1;
      SendsAreBehind(table, run[..n], user);
      MineOfStep(table, After(table, run[..n]), run[n], user);
      BehindCons(Sends(table, run[..n], user), Mine(After(table, run[..n]), user), run[n]);
    }
  }

  lemma NothingBehind(user: string)
    ensures Behind([], Mine([], user))
  {
  }

  lemma {:induction false} SendsKeep(table: map<Trigger, int>, run: seq<Situation>, i: nat)
    requires i < |run| && Sent(table, run, i)
    ensures run[i] in Sends(table, run, run[i].user)
  {
    hide Passes, After;
    var n := |run| - 1;
    if i < n {
      assert run[..n][..i] == run[..i];
      SendsKeep(table, run[..n], i);
    }
  }

  // ---------------------------------------------------------------- spacing

  /** Every check of the user has a cooldown of at least c, and a message is saved after the check and logged after
      that. */
  ghost predicate Timely(run: seq<Situation>, user: string, c: int) {
    forall i :: 0 <= i < |run| ==> run[i].user != "" && (run[i].user == user ==>
      run[i].now <= run[i].savedAt <= run[i].sentAt && run[i].cooldown >= c)
  }

  /** A check that sent came at least c after the log before it. */
  ghost predicate Spaced(x: seq<Situation>, c: int) {
    && (forall i :: 0 <= i < |x| ==> x[i].now <= x[i].savedAt <= x[i].sentAt)
    && forall i :: 0 <= i < |x| - 1 ==> x[i].now - x[i + 1].sentAt >= c
  }

  /** It came at least d after a log of the same trigger t when at most nine logs lie between. */
  ghost predicate NearApart(x: seq<Situation>, t: Trigger, d: int) {
    forall i, j :: 0 <= i < j < |x| && j <= i + 10 && Detected(x[i]) == t && Detected(x[j]) == t ==>
      x[i].now - x[j].sentAt >= d
  }

  /** Any two logs of the trigger are at least d apart. */
  ghost predicate Apart(mine: seq<Log>, t: Trigger, d: int) {
    forall i, j :: 0 <= i < j < |mine| && mine[i].trigger == t && mine[j].trigger == t ==>
      mine[i].createdAt - mine[j].createdAt >= d
  }

  lemma SpacedStep(s: Situation, x: seq<Situation>, mine: seq<Log>, c: int)
    requires Behind(x, mine) && Spaced(x, c) && Rested(s, FirstOf(mine, 1))
    requires s.now <= s.savedAt <= s.sentAt && s.cooldown >= c
    ensures Spaced([s] + x, c)
  {
    hide Wait, Detected;
    if x != [] { assert FirstOf(mine, 1)[0] == mine[0] == LogOf(x[0]); }
    var all := [s] + x;
    forall i | 0 <= i < |all| - 1 ensures all[i].now - all[i + 1].sentAt >= c {
      if i > 0 { assert all[i] == x[i - 1] && all[i + 1] == x[i]; }
    }
  }

  lemma NearStep(table: map<Trigger, int>, s: Situation, x: seq<Situation>, mine: seq<Log>, t: Trigger)
    requires t in table && Behind(x, mine) && NearApart(x, t, table[t]) && TriggerRested(table, s, FirstOf(mine, 10))
    ensures NearApart([s] + x, t, table[t])
  {
    hide Detected;
    var all := [s] + x;
    forall i, j | 0 <= i < j < |all| && j <= i + 10 && Detected(all[i]) == t && Detected(all[j]) == t
      ensures all[i].now - all[j].sentAt >= table[t]
    {
      if i == 0 {
        assert FirstOf(mine, 10)[j - 1] == mine[j - 1] == LogOf(x[j - 1]) && all[j] == x[j - 1];
      } else {
        assert all[i] == x[i - 1] && all[j] == x[j - 1];
      }
    }
  }

  lemma PassesLooksAt(table: map<Trigger, int>, logs: seq<Log>, s: Situation)
    requires s.user != "" && Passes(table, logs, s)
    ensures Rested(s, FirstOf(Mine(logs, s.user), 1)) && TriggerRested(table, s, FirstOf(Mine(logs, s.user), 10))
    ensures Detected(s) != Quiet
  {
    hide Detected, DND, Rested, TriggerRested;
  }

  lemma {:induction false} SendsSpaced(table: map<Trigger, int>, run: seq<Situation>, user: string, c: int)
    requires Timely(run, user, c)
    ensures Spaced(Sends(table, run, user), c)
  {
    hide Passes, Rested, TriggerRested, Spaced, Behind, Mine, After, FirstOf, Detected;
    if run == [] {
      assert Spaced([], c) by { SpacedNone(c); }
    } else {
      var n := |run| - 1;
      SendsSpaced(table, run[..n], user, c);
      if Sent(table, run, n) && run[n].user == user {
        var logs := After(table, run[..n]);
        SendsAreBehind(table, run[..n], user);
        PassesLooksAt(table, logs, run[n]);
        SpacedStep(run[n], Sends(table, run[..n], user), Mine(logs, user), c);
      }
    }
  }

  lemma SpacedNone(c: int)
    ensures Spaced([], c)
  {
  }

  lemma {:induction false} SendsNearApart(table: map<Trigger, int>, run: seq<Situation>, user: string, c: int,
                                          t: Trigger)
    requires Timely(run, user, c) && t in table
    ensures NearApart(Sends(table, run, user), t, table[t])
  {
    hide Passes, Rested, TriggerRested, NearApart, Behind, Mine, After, FirstOf, Detected;
    if run == [] {
      assert NearApart([], t, table[t]) by { NearNone(t, table[t]); }
    } else {
      var n := |run| - 1;
      SendsNearApart(table, run[..n], user, c, t);
      if Sent(table, run, n) && run[n].user == user {
        var logs := After(table, run[..n]);
        SendsAreBehind(table, run[..n], user);
        PassesLooksAt(table, logs, run[n]);
        NearStep(table, run[n], Sends(table, run[..n], user), Mine(logs, user), t);
      }
    }
  }

  lemma NearNone(t: Trigger, d: int)
    ensures NearApart([], t, d)
  {
  }

  lemma {:induction false} SpacedFar(x: seq<Situation>, c: int, i: nat, j: nat)
    requires Spaced(x, c) && c >= 0 && i < j < |x|
    ensures x[i].now - x[j].sentAt >= (j - i) * c
    decreases j
  {
    if i + 1 < j {
      SpacedFar(x, c, i, j - 1);
      assert (j - i) * c == (j - 1 - i) * c + c;
    }
  }

  /** Over every run, a user's consecutive logs are at least the cooldown apart. */
  lemma RunSpaced(table: map<Trigger, int>, run: seq<Situation>, user: string, c: int)
    requires Timely(run, user, c)
    ensures var mine := Mine(After(table, run), user);
            forall i :: 0 <= i < |mine| - 1 ==> mine[i].createdAt - mine[i + 1].createdAt >= c
  {
    SendsSpaced(table, run, user, c);
    SendsAreBehind(table, run, user);
    hide Timely, Sends, Mine, After, Detected;
    var x, mine := Sends(table, run, user), Mine(After(table, run), user);
    forall i | 0 <= i < |mine| - 1 ensures mine[i].createdAt - mine[i + 1].createdAt >= c {
      assert mine[i] == LogOf(x[i]) && mine[i + 1] == LogOf(x[i + 1]);
    }
  }

  /** All logs of t are d apart if all checks of t that sent came d after the logs of t before them. */
  lemma ApartFromSends(x: seq<Situation>, mine: seq<Log>, t: Trigger, d: int)
    requires Behind(x, mine)
    requires forall i :: 0 <= i < |x| ==> x[i].now <= x[i].sentAt
    requires forall i, j :: 0 <= i < j < |x| && Detected(x[i]) == t && Detected(x[j]) == t ==>
               x[i].now - x[j].sentAt >= d
    ensures Apart(mine, t, d)
  {
    hide Detected;
    forall i, j | 0 <= i < j < |mine| && mine[i].trigger == t && mine[j].trigger == t
      ensures mine[i].createdAt - mine[j].createdAt >= d
    {
      assert mine[i] == LogOf(x[i]) && mine[j] == LogOf(x[j]);
    }
  }

  lemma NearApartAt(x: seq<Situation>, t: Trigger, d: int, i: nat, j: nat)
    requires NearApart(x, t, d) && i < j < |x| && j <= i + 10 && Detected(x[i]) == t && Detected(x[j]) == t
    ensures x[i].now - x[j].sentAt >= d
  {
    hide Detected;
  }

  lemma SpacedTimes(x: seq<Situation>, c: int)
    requires Spaced(x, c)
    ensures forall i :: 0 <= i < |x| ==> x[i].now <= x[i].savedAt <= x[i].sentAt
  {
  }

  lemma ElevenGaps(n: int, c: int)
    requires n >= 11 && c >= 0
    ensures n * c >= 11 * c
  {
    assert (n - 11) * c >= 0;
  }

  lemma NearOrFar(x: seq<Situation>, c: int, t: Trigger, d: int, i: nat, j: nat)
    requires Spaced(x, c) && NearApart(x, t, d) && c >= 0 && 11 * c >= d
    requires i < j < |x| && Detected(x[i]) == t && Detected(x[j]) == t
    ensures x[i].now - x[j].sentAt >= d
  {
    hide *;
    if j > i + 10 {
      SpacedFar(x, c, i, j);
      ElevenGaps(j - i, c);
    } else {
      NearApartAt(x, t, d, i, j);
    }
  }

  /** Over every run, two logs of one trigger are at least its cooldown apart, although only ten logs are looked
      at, provided that eleven general cooldowns cover the trigger's. */
  lemma RunApart(table: map<Trigger, int>, run: seq<Situation>, user: string, c: int, t: Trigger)
    requires Timely(run, user, c) && c >= 0 && t in table && 11 * c >= table[t]
    ensures Apart(Mine(After(table, run), user), t, table[t])
  {
    SendsSpaced(table, run, user, c);
    SendsNearApart(table, run, user, c, t);
    SendsAreBehind(table, run, user);
    hide *;
    var x := Sends(table, run, user);
    forall i, j | 0 <= i < j < |x| && Detected(x[i]) == t && Detected(x[j]) == t
      ensures x[i].now - x[j].sentAt >= table[t]
    {
      NearOrFar(x, c, t, table[t], i, j);
    }
    SpacedTimes(x, c);
    ApartFromSends(x, Mine(After(table, run), user), t, table[t]);
  }

  /** Over every run, a message is logged no sooner than the wait of its check after any earlier message of the user:
      the cooldown times 2^(n-1) when n >= 2 messages are counted. */
  lemma RunBacksOff(table: map<Trigger, int>, run: seq<Situation>, user: string, c: int, i: nat, k: nat)
    requires Timely(run, user, c) && c >= 0 && i < k < |run| && run[i].user == run[k].user == user
    requires Sent(table, run, i) && Sent(table, run, k)
    ensures run[k].sentAt - run[i].sentAt >= Wait(run[k])
  {
    var before := run[..k];
    assert before[..i] == run[..i];
    SendsSpaced(table, before, user, c);
    SendsKeep(table, before, i);
    SendsAreBehind(table, before, user);
    PassesLooksAt(table, After(table, before), run[k]);
    hide Passes, Mine, After, Sends, Wait, Detected;
    var x := Sends(table, before, user);
    var p :| 0 <= p < |x| && x[p] == run[i];
    if p > 0 {
      SpacedFar(x, c, 0, p);
      assert (p - 0) * c >= 0;
    }
    assert FirstOf(Mine(After(table, before), user), 1)[0] == LogOf(x[0]);
  }

  // ---------------------------------------------------------------- the whole gate, in plain numbers

  /** Minutes since local midnight. */
  function MinuteOfDay(s: Situation): int { (s.now + s.offset) / 60_000_000_000 % 1440 }

  lemma MinuteIs(s: Situation)
    ensures 0 <= MinuteOfDay(s) < 1440 && MinuteOfDay(s) == Hour(s) * 60 + Minute(s)
    ensures 0 <= Hour(s) < 24 && 0 <= Minute(s) < 60
  {
    var t := (s.now + s.offset) / 60_000_000_000;
    assert (s.now + s.offset) / HOUR == t / 60;
    assert t == t / 60 * 60 + t % 60;
  }

  /** Which trigger a check detects: the first of eight whose hours, silence, draw and configuration allow it. */
  lemma DetectedIs(s: Situation)
    ensures
      var m, gap := MinuteOfDay(s), s.now - s.lastMessageAt;
      var watching := 540 <= m < 1260 || s.threshold < 3_600_000_000_000;
      var long := gap >= 10_800_000_000_000;
      Detected(s) ==
        if 420 <= m < 540 && MorningCare in s.types then MorningCare
        else if 1260 <= m < 1320 && EveningCare in s.types then EveningCare
        else if watching && long && s.negative && WorryAfterLongSilence in s.types then WorryAfterLongSilence
        else if watching && (long || gap >= s.threshold) && CuriosityAfterSilence in s.types then CuriosityAfterSilence
        else if 600 <= m < 1200 && SharePersonalMoment in s.types && s.personalDraw < 0.3 then SharePersonalMoment
        else if 720 <= m < 1080 && ShareInterestingFact in s.types && s.factDraw < 0.25 then ShareInterestingFact
        else if 840 <= m < 1260 && ShareEmotion in s.types && s.emotionDraw < 0.2 then ShareEmotion
        else if 600 <= m < 1200 && RandomShare in s.types && m % 60 < 5 then RandomShare
        else Quiet
  {
    MinuteIs(s);
    CareIs(s);
    assert MinuteOfDay(s) % 60 == Minute(s);
    hide CareTrigger, Hour, Minute, MinuteOfDay;
  }

  /** The user wants messages and may get this one now: the settings, the do-not-disturb span, the presence. */
  ghost predicate Welcome(s: Situation, t: Trigger) {
    var m := MinuteOfDay(s);
    && t != Quiet && s.enabled && s.hasConversation && s.hasBot
    && (s.dndStart >= 0 && s.dndEnd >= 0 ==>
          if s.dndStart <= s.dndEnd then m < s.dndStart || m >= s.dndEnd else s.dndEnd <= m < s.dndStart)
    && !(s.online && t in {CuriosityAfterSilence, WorryAfterLongSilence})
    && !(s.online && t in {RandomShare, SharePersonalMoment, ShareInterestingFact, ShareEmotion}
         && s.lastUserAt != 0 && s.now - s.lastUserAt < 180_000_000_000)
  }

  /** The general cooldown has passed since the user's last log, 2^(n-1) of them if n >= 2 proactive messages are
      counted, and that of the trigger since each of the ten last logs that has it. */
  ghost predicate Waited(table: map<Trigger, int>, s: Situation, mine: seq<Log>, t: Trigger) {
    && (mine != [] ==> s.now - mine[0].createdAt >= s.cooldown)
    && (mine != [] && Unanswered(s.messages) >= 2 ==>
          s.now - mine[0].createdAt >= s.cooldown * Pow2(Unanswered(s.messages) - 1))
    && (t in table ==> forall i :: 0 <= i < |mine| && i < 10 && mine[i].trigger == t ==>
          s.now - mine[i].createdAt >= table[t])
  }

  lemma PassesIff(table: map<Trigger, int>, logs: seq<Log>, s: Situation)
    requires s.user != ""
    ensures Passes(table, logs, s) <==>
              Welcome(s, Detected(s)) && Waited(table, s, Mine(logs, s.user), Detected(s)) && s.sent
  {
    MinuteIs(s);
    var mine, t := Mine(logs, s.user), Detected(s);
    assert Listed(logs, s.user, 1) == FirstOf(mine, 1) && Listed(logs, s.user, 10) == FirstOf(mine, 10);
    RestedIff(s, mine);
    TriggerRestedIff(table, s, mine);
    hide Mine, Listed, Detected, Hour, Minute, MinuteOfDay, Rested, TriggerRested, Unanswered, Pow2;
  }

  lemma RestedIff(s: Situation, mine: seq<Log>)
    ensures Rested(s, FirstOf(mine, 1)) <==>
              && (mine != [] ==> s.now - mine[0].createdAt >= s.cooldown)
              && (mine != [] && Unanswered(s.messages) >= 2 ==>
                    s.now - mine[0].createdAt >= s.cooldown * Pow2(Unanswered(s.messages) - 1))
  {
    hide Unanswered, Pow2;
    if mine != [] { assert FirstOf(mine, 1)[0] == mine[0]; }
  }

  lemma TriggerRestedIff(table: map<Trigger, int>, s: Situation, mine: seq<Log>)
    ensures TriggerRested(table, s, FirstOf(mine, 10)) <==>
              (Detected(s) in table ==> forall i :: 0 <= i < |mine| && i < 10 && mine[i].trigger == Detected(s) ==>
                s.now - mine[i].createdAt >= table[Detected(s)])
  {
    hide Detected;
    var ten := FirstOf(mine, 10);
    assert forall i :: 0 <= i < |ten| ==> ten[i] == mine[i];
    if TriggerRested(table, s, ten) && Detected(s) in table {
      forall i | 0 <= i < |mine| && i < 10 && mine[i].trigger == Detected(s)
        ensures s.now - mine[i].createdAt >= table[Detected(s)]
      {
        assert ten[i] == mine[i];
      }
    }
  }

  /** A check logs its trigger exactly if it detects one, the user may get it, the cooldowns have passed and the message
      goes out; otherwise the log stays as it is. */
  lemma CheckLogsIff(table: map<Trigger, int>, logs: seq<Log>, s: Situation)
    requires s.user != ""
    ensures Step(table, logs, s) ==
              if Welcome(s, Detected(s)) && Waited(table, s, Mine(logs, s.user), Detected(s)) && s.sent
              then [Log(s.user, Detected(s), s.sentAt)] + logs else logs
  {
    PassesIff(table, logs, s);
    hide Passes, Welcome, Waited, Detected;
  }

  /** Over every run, each log comes from a check of its user that detected its trigger and was welcome. */
  lemma {:induction false} LogsWereWelcome(table: map<Trigger, int>, run: seq<Situation>, l: Log)
    requires (forall i :: 0 <= i < |run| ==> run[i].user != "") && l in After(table, run)
    ensures exists k :: 0 <= k < |run| && run[k].sent && l == Log(run[k].user, Detected(run[k]), run[k].sentAt)
              && Welcome(run[k], l.trigger)
  {
    hide Welcome, Waited, Detected, Mine, Step;
    var n := |run| - 1;
    CheckLogsIff(table, After(table, run[..n]), run[n]);
    if l in After(table, run[..n]) {
      LogsWereWelcome(table, run[..n], l);
      var k :| 0 <= k < n && run[..n][k].sent
               && l == Log(run[..n][k].user, Detected(run[..n][k]), run[..n][k].sentAt)
               && Welcome(run[..n][k], l.trigger);
      assert run[k] == run[..n][k];
    }
  }

  // ---------------------------------------------------------------- the store and the scheduler

  class Store {
    var proactiveLogs: seq<Log>

    constructor ()
      ensures proactiveLogs == []
    {
      proactiveLogs := [];
    }

    method AddProactiveLog(log: Log)
      modifies this
      ensures proactiveLogs == [log] + old(proactiveLogs)
    {
      proactiveLogs := [log] + proactiveLogs;
    }

    method ListProactiveLogs(userID: string, limit: int) returns (out: seq<Log>)
      ensures out == Listed(proactiveLogs, userID, limit)
    {
      var max: nat := if limit <= 0 then 20 else limit;
      out := [];
      TakenAtStart(proactiveLogs, userID);
      hide Taken, Listed;
      for k := 0 to |proactiveLogs|
        invariant |out| < max
        invariant Taken(proactiveLogs, userID, k, out)
      {
        var entry := proactiveLogs[k];
        TakenStep(proactiveLogs, userID, k, out);
        if userID == "" || entry.user == userID {
          out := out + [entry];
          if |out| >= max {
            TakenIsListed(proactiveLogs, userID, limit, k + 1, out);
            return;
          }
        }
      }
      TakenIsListed(proactiveLogs, userID, limit, |proactiveLogs|, out);
    }
  }

  class ProactiveScheduler {
    const store: Store

    constructor (s: Store)
      ensures store == s
    {
      store := s;
    }

    /** The scan for unanswered messages. */
    method CountUnanswered(messages: seq<Message>) returns (unanswered: nat)
      ensures unanswered == Unanswered(messages)
    {
      unanswered := 0;
      assert messages[0..] == messages;
      for k := 0 to |messages|
        invariant unanswered + Unanswered(messages[k..]) == Unanswered(messages)
      {
        assert messages[k..][1..] == messages[k + 1..];
        if messages[k].sender == "user" { break; }
        if messages[k].proactive { unanswered := unanswered + 1; }
      }
    }

    method DetectTrigger(s: Situation) returns (trigger: Trigger)
      ensures trigger == Detected(s)
    {
      hide Hour, Minute;
      assert WINDOWS[0..] == WINDOWS;
      for k := 0 to |WINDOWS|
        invariant CareTrigger(s, WINDOWS) == CareTrigger(s, WINDOWS[k..])
      {
        var w := WINDOWS[k];
        assert WINDOWS[k..][1..] == WINDOWS[k + 1..];
        if w.trigger == RandomShare { continue; }
        if w.start <= Hour(s) < w.end {
          if w.trigger in s.types { return w.trigger; }
        }
      }
      var inActiveHours := 9 <= Hour(s) < 21;
      if inActiveHours || s.threshold < HOUR {
        var gap := s.now - s.lastMessageAt;
        if gap >= 3 * HOUR {
          if s.negative && WorryAfterLongSilence in s.types { return WorryAfterLongSilence; }
          if CuriosityAfterSilence in s.types { return CuriosityAfterSilence; }
        }
        if gap >= s.threshold {
          if CuriosityAfterSilence in s.types { return CuriosityAfterSilence; }
        }
      }
      if 10 <= Hour(s) < 20 && SharePersonalMoment in s.types {
        if s.personalDraw < 0.3 { return SharePersonalMoment; }
      }
      if 12 <= Hour(s) < 18 && ShareInterestingFact in s.types {
        if s.factDraw < 0.25 { return ShareInterestingFact; }
      }
      if 14 <= Hour(s) < 21 && ShareEmotion in s.types {
        if s.emotionDraw < 0.2 { return ShareEmotion; }
      }
      if 10 <= Hour(s) < 20 && RandomShare in s.types {
        if Minute(s) < 5 { return RandomShare; }
      }
      return Quiet;
    }

    /** processUser and, when everything allows it, the logging of sendProactiveMessage. */
    method ProcessUser(table: map<Trigger, int>, s: Situation)
      modifies store
      ensures store.proactiveLogs == Step(table, old(store.proactiveLogs), s)
    {
      hide Listed, BlockedByPresence, Pow2, Unanswered, Detected, DND;
      if !s.enabled { return; }
      if !s.hasConversation { return; }
      if !s.hasBot { return; }
      if DND(s) { return; }
      var last := store.ListProactiveLogs(s.user, 1);
      if |last| > 0 && s.now - last[0].createdAt < s.cooldown { return; }
      if |last| > 0 {
        var unanswered := CountUnanswered(s.messages);
        if unanswered >= 2 {
          var backoff := s.cooldown * Pow2(unanswered - 1);
          if s.now - last[0].createdAt < backoff { return; }
        }
      }
      var trigger := DetectTrigger(s);
      if trigger == Quiet { return; }
      if BlockedByPresence(s, trigger) { return; }
      if trigger in table {
        var recent := store.ListProactiveLogs(s.user, 10);
        for k := 0 to |recent|
          invariant forall i :: 0 <= i < k && recent[i].trigger == trigger ==>
                    s.now - recent[i].createdAt >= table[trigger]
          invariant store.proactiveLogs == old(store.proactiveLogs)
        {
          if recent[k].trigger == trigger && s.now - recent[k].createdAt < table[trigger] { return; }
        }
      }
      if !s.sent { return; }
      store.AddProactiveLog(Log(s.user, trigger, s.sentAt));
    }
  }
}
