/** How far apart the program's own triggers stay (api/scheduler.go), although a check looks at ten logs only. */
module Spacing {
  import opened Arithmetic
  import opened Scheduler

  /** A message is logged within an hour after it was saved: its delivery comes between the two. */
  ghost predicate Delivered(run: seq<Situation>, user: string) {
    forall i :: 0 <= i < |run| && run[i].user == user ==> run[i].sentAt <= run[i].savedAt + HOUR
  }

  /** Saving a proactive message dates its conversation, and a check looks at the conversation dated last. */
  ghost predicate Dated(run: seq<Situation>, user: string) {
    forall i, k :: 0 <= i < k < |run| && run[i].user == user && run[k].user == user && Sent(Cooldowns(), run, i) ==>
      run[i].savedAt <= run[k].lastMessageAt
  }

  /** A user's checks that sent, newest first: what the gate and the store make of them. */
  ghost predicate Chain(x: seq<Situation>, c: int) {
    && Spaced(x, c)
    && (forall i :: 0 <= i < |x| ==> Detected(x[i]) in Cooldowns() && x[i].sentAt <= x[i].savedAt + HOUR)
    && (forall t :: t in Cooldowns() ==> NearApart(x, t, Cooldowns()[t]))
    && forall i, j :: 0 <= i < j < |x| ==> x[j].savedAt <= x[i].lastMessageAt
  }

  // ---------------------------------------------------------------- the table

  lemma Rests()
    ensures forall t :: t in Cooldowns() <==> t != Quiet
    ensures var d := Cooldowns();
            && d[CuriosityAfterSilence] == d[RandomShare] == 3 * HOUR
            && d[WorryAfterLongSilence] == d[SharePersonalMoment] == 8 * HOUR
            && d[ShareInterestingFact] == 10 * HOUR && d[ShareEmotion] == 12 * HOUR
            && d[MorningCare] == d[EveningCare] == 20 * HOUR
  {
  }

  predicate IsShort(t: Trigger) { t == CuriosityAfterSilence || t == RandomShare }

  lemma RestOf(t: Trigger)
    requires t in Cooldowns()
    ensures t != Quiet
    ensures if IsShort(t) then Cooldowns()[t] == 3 * HOUR else 8 * HOUR <= Cooldowns()[t] <= 20 * HOUR
  {
  }

  // ---------------------------------------------------------------- parts of a chain

  lemma InChain(x: seq<Situation>, c: int, i: nat)
    requires Chain(x, c) && i < |x|
    ensures Spaced(x, c) && Detected(x[i]) in Cooldowns()
    ensures x[i].now <= x[i].savedAt <= x[i].sentAt <= x[i].savedAt + HOUR
  {
    hide Detected, Cooldowns, NearApart;
  }

  lemma NearPair(x: seq<Situation>, c: int, i: nat, j: nat)
    requires Chain(x, c) && i < j < |x| && j <= i + 10 && Detected(x[i]) == Detected(x[j])
    ensures Detected(x[i]) in Cooldowns() && x[i].now - x[j].sentAt >= Cooldowns()[Detected(x[i])]
  {
    hide Detected, Cooldowns, Spaced;
  }

  lemma Far(x: seq<Situation>, c: int, i: nat, j: nat)
    requires Chain(x, c) && c >= 0 && i < j < |x|
    ensures x[i].now - x[j].sentAt >= (j - i) * c >= 0 && x[j].now <= x[j].sentAt
  {
    InChain(x, c, j);
    hide *;
    SpacedFar(x, c, i, j);
    Gaps(j - i, 0, c);
  }

  lemma Gaps(a: int, b: int, c: int)
    requires a >= 0 && b >= 0 && c >= 0
    ensures a * c >= 0 && (a >= 1 && b >= 1 ==> a * c + b * c >= 2 * c)
    ensures a >= 1 && b >= 1 && a + b >= 3 ==> a * c + b * c >= 3 * c
    ensures a + b == 10 ==> a * c + b * c == 10 * c
    ensures a == 11 ==> a * c == 11 * c
  {
    assert a * c + b * c == (a + b) * c;
    if a + b >= 2 { assert (a + b - 2) * c >= 0; }
    if a + b >= 3 { assert (a + b - 3) * c >= 0; }
  }

  /** A worry comes two hours after the log before it. */
  lemma WorryWaits(x: seq<Situation>, c: int, i: nat)
    requires Chain(x, c) && i + 1 < |x| && Detected(x[i]) == WorryAfterLongSilence
    ensures x[i].now - x[i + 1].sentAt >= 2 * HOUR
  {
    DetectedGuards(x[i]);
    hide Detected, Cooldowns, NearApart, Spaced;
  }

  // ---------------------------------------------------------------- counting

  /** How many of the checks from lo up to hi detect t. */
  ghost function Count(x: seq<Situation>, t: Trigger, lo: nat, hi: nat): nat
    requires lo <= hi <= |x|
    decreases hi - lo
  {
    if lo == hi then 0 else Count(x, t, lo + 1, hi) + if Detected(x[lo]) == t then 1 else 0
  }

  /** What n occurrences of a trigger take at least, from the last one to the first. */
  ghost predicate Takes(n: nat, d: int, time: int) {
    time >= 0 && (n >= 2 ==> time >= d) && (n >= 3 ==> time >= 2 * d) && (n >= 4 ==> time >= 3 * d)
  }

  /** In eleven checks or fewer, the occurrences of a trigger take its cooldown each, but for the first. */
  lemma {:induction false} CountLasts(x: seq<Situation>, c: int, t: Trigger, lo: nat, hi: nat) returns (f: nat, l: nat)
    requires Chain(x, c) && t in Cooldowns() && lo <= hi <= |x| && hi <= lo + 11 && Count(x, t, lo, hi) > 0
    ensures lo <= f <= l < hi && Detected(x[f]) == Detected(x[l]) == t && l - f + 1 >= Count(x, t, lo, hi)
    ensures Takes(Count(x, t, lo, hi), Cooldowns()[t], x[f].now - x[l].now)
    decreases hi - lo
  {
    hide Chain, Detected, Cooldowns;
    if Detected(x[lo]) != t {
      f, l := CountLasts(x, c, t, lo + 1, hi);
    } else if Count(x, t, lo + 1, hi) == 0 {
      f, l := lo, lo;
    } else {
      f, l := CountLasts(x, c, t, lo + 1, hi);
      NearPair(x, c, lo, f);
      InChain(x, c, f);
      RestOf(t);
      f := lo;
    }
  }

  lemma {:induction false} CountNone(x: seq<Situation>, t: Trigger, lo: nat, hi: nat)
    requires lo <= hi <= |x| && forall k :: lo <= k < hi ==> Detected(x[k]) != t
    ensures Count(x, t, lo, hi) == 0
    decreases hi - lo
  {
    hide Detected;
    if lo < hi { CountNone(x, t, lo + 1, hi); }
  }

  /** Every check counts for one of the eight triggers. */
  lemma {:induction false} CountAll(x: seq<Situation>, c: int, lo: nat, hi: nat)
    requires Chain(x, c) && lo <= hi <= |x|
    ensures hi - lo == Count(x, CuriosityAfterSilence, lo, hi) + Count(x, RandomShare, lo, hi)
                       + Count(x, MorningCare, lo, hi) + Count(x, EveningCare, lo, hi)
                       + Count(x, WorryAfterLongSilence, lo, hi) + Count(x, SharePersonalMoment, lo, hi)
                       + Count(x, ShareInterestingFact, lo, hi) + Count(x, ShareEmotion, lo, hi)
    decreases hi - lo
  {
    hide Chain, Detected, Cooldowns;
    if lo < hi {
      CountAll(x, c, lo + 1, hi);
      InChain(x, c, lo);
      RestOf(Detected(x[lo]));
    }
  }

  /** How often t occurs among the ten checks after i. */
  ghost function Ten(x: seq<Situation>, t: Trigger, i: nat): nat
    requires i + 11 <= |x|
  {
    Count(x, t, i + 1, i + 11)
  }

  /** Within less than n cooldowns a trigger occurs at most n times. */
  lemma TenFit(x: seq<Situation>, c: int, t: Trigger, i: nat, n: nat, time: int)
    requires Chain(x, c) && c >= 0 && t in Cooldowns() && i + 11 <= |x| && x[i + 1].now - x[i + 10].now < time
    requires var d := Cooldowns()[t]; (n == 1 && time <= d) || (n == 2 && time <= 2 * d) || (n == 3 && time <= 3 * d)
    ensures Ten(x, t, i) <= n
  {
    hide Chain, Detected, Cooldowns, Count;
    if Ten(x, t, i) > n {
      var f, l := CountLasts(x, c, t, i + 1, i + 11);
      Monotone(x, c, i + 1, f);
      Monotone(x, c, l, i + 10);
    }
  }

  lemma Monotone(x: seq<Situation>, c: int, i: nat, j: nat)
    requires Chain(x, c) && c >= 0 && i <= j < |x|
    ensures x[i].now >= x[j].now
  {
    hide *;
    if i < j { Far(x, c, i, j); }
  }

  /** No short trigger occurs more than n times among the ten and no long one more than once. */
  ghost predicate Within(x: seq<Situation>, i: nat, n: nat)
    requires i + 11 <= |x|
  {
    && (forall t :: IsShort(t) ==> Ten(x, t, i) <= n)
    && forall t :: t != Quiet && !IsShort(t) ==> Ten(x, t, i) <= 1
  }

  /** That is so within less than three, six or eight hours. */
  lemma TenWithin(x: seq<Situation>, c: int, i: nat, n: nat, time: int)
    requires Chain(x, c) && c >= 0 && i + 11 <= |x| && x[i + 1].now - x[i + 10].now < time
    requires (n == 1 && time == 3 * HOUR) || (n == 2 && time == 6 * HOUR) || (n == 3 && time == 8 * HOUR)
    ensures Within(x, i, n)
  {
    Rests();
    hide Chain, Detected, Cooldowns, Ten;
    forall t | IsShort(t) ensures Ten(x, t, i) <= n { TenFit(x, c, t, i, n, time); }
    forall t | t != Quiet && !IsShort(t) ensures Ten(x, t, i) <= 1 {
      RestOf(t);
      TenFit(x, c, t, i, 1, time);
    }
  }

  /** Together all triggers occur ten times; the more of the long ones do not occur, the more the short ones must. */
  lemma TenAre(x: seq<Situation>, c: int, i: nat, n: nat, u: Trigger, v: Trigger, w: Trigger)
    requires Chain(x, c) && i + 11 <= |x| && Within(x, i, n)
    requires Ten(x, u, i) == Ten(x, v, i) == Ten(x, w, i) == 0 && Quiet !in {u, v, w}
    ensures Ten(x, CuriosityAfterSilence, i) <= n && Ten(x, RandomShare, i) <= n
    ensures Ten(x, CuriosityAfterSilence, i) + Ten(x, RandomShare, i) >= 4 + Longs(u, v, w)
  {
    TenAll(x, c, i);
    hide Chain, Ten;
    AtMostOnce(x, i, n, MorningCare);
    AtMostOnce(x, i, n, EveningCare);
    AtMostOnce(x, i, n, WorryAfterLongSilence);
    AtMostOnce(x, i, n, SharePersonalMoment);
    AtMostOnce(x, i, n, ShareInterestingFact);
    AtMostOnce(x, i, n, ShareEmotion);
    AtMostShort(x, i, n);
    hide Within;
  }

  /** How many long triggers there are among three. */
  function Longs(u: Trigger, v: Trigger, w: Trigger): nat {
    (if IsShort(u) then 0 else 1) + (if IsShort(v) || v == u then 0 else 1)
        + if IsShort(w) || w == u || w == v then 0 else 1
  }

  lemma TenAll(x: seq<Situation>, c: int, i: nat)
    requires Chain(x, c) && i + 11 <= |x|
    ensures 10 == Ten(x, CuriosityAfterSilence, i) + Ten(x, RandomShare, i) + Ten(x, MorningCare, i)
                  + Ten(x, EveningCare, i) + Ten(x, WorryAfterLongSilence, i) + Ten(x, SharePersonalMoment, i)
                  + Ten(x, ShareInterestingFact, i) + Ten(x, ShareEmotion, i)
  {
    CountAll(x, c, i + 1, i + 11);
    hide Chain, Count;
  }

  lemma AtMostOnce(x: seq<Situation>, i: nat, n: nat, t: Trigger)
    requires i + 11 <= |x| && Within(x, i, n) && t != Quiet && !IsShort(t)
    ensures Ten(x, t, i) <= 1
  {
    hide Ten;
  }

  lemma AtMostShort(x: seq<Situation>, i: nat, n: nat)
    requires i + 11 <= |x| && Within(x, i, n)
    ensures Ten(x, CuriosityAfterSilence, i) <= n && Ten(x, RandomShare, i) <= n
  {
    hide Ten;
  }

  // ---------------------------------------------------------------- the way round, whatever the local time

  /** The shortest time in which a trigger other than the short ones and worry can come round after ten others. */
  function Span(c: int): int { 3 * c + 2 * Max(4 * c, 3 * HOUR) }

  /** Ten checks without t in between: the hours are free. */
  ghost predicate Round(x: seq<Situation>, c: int, t: Trigger, i: nat) {
    && Chain(x, c) && c >= 0 && t in Cooldowns() && i + 11 < |x| && Detected(x[i]) == t
    && forall k :: i < k < i + 11 ==> Detected(x[k]) != t
  }

  lemma RoundParts(x: seq<Situation>, c: int, t: Trigger, i: nat)
    requires Round(x, c, t, i)
    ensures Chain(x, c) && c >= 0 && t in Cooldowns() && i + 11 < |x| && Detected(x[i]) == t
    ensures Ten(x, t, i) == 0
    ensures x[i].now - x[i + 11].sentAt >= 11 * c
    ensures x[i + 1].now - x[i + 10].now <= x[i].now - x[i + 11].sentAt
  {
    hide Chain, Detected, Cooldowns, Ten;
    NoneAmongTen(x, t, i);
    Monotone(x, c, i, i + 1);
    Far(x, c, i + 10, i + 11);
    Far(x, c, i, i + 11);
    Gaps(11, 0, c);
  }

  lemma ShortRound(x: seq<Situation>, c: int, t: Trigger, i: nat)
    requires Round(x, c, t, i)
    ensures x[i].now - x[i + 11].sentAt >= 3 * HOUR
  {
    RoundParts(x, c, t, i);
    RestOf(t);
    hide *;
    if x[i].now - x[i + 11].sentAt < 3 * HOUR {
      TenWithin(x, c, i, 1, 3 * HOUR);
      TenAre(x, c, i, 1, t, t, t);
    }
  }

  /** A worry comes round in eight hours: it waits for two, and ten others do not fit into less than six. */
  lemma WorryRound(x: seq<Situation>, c: int, i: nat)
    requires Round(x, c, WorryAfterLongSilence, i)
    ensures x[i].now - x[i + 11].sentAt >= 8 * HOUR
  {
    RoundParts(x, c, WorryAfterLongSilence, i);
    hide Round, Chain, Detected, Cooldowns, Ten, Within;
    WorryWaits(x, c, i);
    InChain(x, c, i + 1);
    Far(x, c, i + 10, i + 11);
    if x[i].now - x[i + 11].sentAt < 8 * HOUR {
      TenWithin(x, c, i, 2, 6 * HOUR);
      TenAre(x, c, i, 2, WorryAfterLongSilence, WorryAfterLongSilence, WorryAfterLongSilence);
    }
  }

  lemma SpanIs(c: int)
    requires c >= 0
    ensures Span(c) == Max(11 * c, 3 * c + 6 * HOUR)
  {
  }

  /** With a worry among the ten. */
  lemma RoundOverWorry(x: seq<Situation>, c: int, i: nat, k: nat)
    requires Chain(x, c) && c >= 0 && i < k < i + 11 < |x| && Detected(x[k]) == WorryAfterLongSilence
    ensures x[i].now - x[i + 11].sentAt >= 2 * HOUR + 10 * c
  {
    hide *;
    Far(x, c, i, k);
    WorryWaits(x, c, k);
    InChain(x, c, k);
    InChain(x, c, k + 1);
    if k + 1 < i + 11 { Far(x, c, k + 1, i + 11); }
    Gaps(k - i, i + 10 - k, c);
  }

  /** With one trigger among the ten, n times. */
  lemma RoundOverMany(x: seq<Situation>, c: int, t: Trigger, i: nat) returns (f: nat, l: nat, time: int)
    requires Chain(x, c) && c >= 0 && t in Cooldowns() && i + 11 < |x| && Ten(x, t, i) > 0
    ensures i < f <= l < i + 11 && Detected(x[f]) == Detected(x[l]) == t && l - f + 1 >= Ten(x, t, i)
    ensures Takes(Ten(x, t, i), Cooldowns()[t], time)
    ensures x[i].now - x[i + 11].sentAt >= time + if l - f <= 8 then 3 * c else 2 * c
  {
    hide Chain, Detected, Cooldowns, Count, Takes;
    f, l := CountLasts(x, c, t, i + 1, i + 11);
    time := x[f].now - x[l].now;
    Far(x, c, i, f);
    Far(x, c, l, i + 11);
    Gaps(f - i, i + 11 - l, c);
  }

  /** A long trigger twice, or a short one four times, takes at least eight hours and two gaps. */
  lemma RoundOverRepeats(x: seq<Situation>, c: int, t: Trigger, i: nat)
    requires Chain(x, c) && c >= 0 && t in Cooldowns() && i + 11 < |x|
    requires Ten(x, t, i) > if IsShort(t) then 3 else 1
    ensures x[i].now - x[i + 11].sentAt >= 8 * HOUR + 2 * c
  {
    RestOf(t);
    hide Chain, Detected, Cooldowns, Ten;
    var f, l, time := RoundOverMany(x, c, t, i);
  }

  /** Both short triggers three times: one of the two does not reach from the first to the last of the ten. */
  lemma RoundOverShorts(x: seq<Situation>, c: int, i: nat)
    requires Chain(x, c) && c >= 0 && i + 11 < |x|
    requires Ten(x, CuriosityAfterSilence, i) == Ten(x, RandomShare, i) == 3
    ensures x[i].now - x[i + 11].sentAt >= 6 * HOUR + 3 * c
  {
    Rests();
    hide Chain, Detected, Cooldowns, Ten;
    var f, l, time := RoundOverMany(x, c, CuriosityAfterSilence, i);
    var f', l', time' := RoundOverMany(x, c, RandomShare, i);
  }

  lemma NoneAmongTen(x: seq<Situation>, t: Trigger, i: nat)
    requires i + 11 <= |x| && forall k :: i < k < i + 11 ==> Detected(x[k]) != t
    ensures Ten(x, t, i) == 0
  {
    CountNone(x, t, i + 1, i + 11);
    hide Count, Detected;
  }

  /** A way round past ten checks of other triggers lasts at least the span, unless the cooldown is so short that the
      span is below eight hours anyway. */
  lemma RoundLasts(x: seq<Situation>, c: int, t: Trigger, i: nat)
    requires Round(x, c, t, i) && 3 * c >= 2 * HOUR && !IsShort(t) && t != WorryAfterLongSilence
    ensures x[i].now - x[i + 11].sentAt >= Span(c)
  {
    RoundParts(x, c, t, i);
    RestOf(t);
    hide *;
    if k :| i < k < i + 11 && Detected(x[k]) == WorryAfterLongSilence {
      RoundOverWorry(x, c, i, k);
    } else {
      RoundWithoutWorry(x, c, t, i);
    }
    SpanReached(c, x[i].now - x[i + 11].sentAt);
  }

  lemma RoundWithoutWorry(x: seq<Situation>, c: int, t: Trigger, i: nat)
    requires Chain(x, c) && c >= 0 && i + 11 < |x| && t != Quiet && !IsShort(t) && t != WorryAfterLongSilence
    requires Ten(x, t, i) == 0 && forall k :: i < k < i + 11 ==> Detected(x[k]) != WorryAfterLongSilence
    ensures var time := x[i].now - x[i + 11].sentAt; time >= 8 * HOUR + 2 * c || time >= 6 * HOUR + 3 * c
  {
    NoneAmongTen(x, WorryAfterLongSilence, i);
    if Within(x, i, 3) {
      BothThrice(x, c, t, i);
      hide *;
      RoundOverShorts(x, c, i);
    } else {
      Rests();
      hide *;
      var u := TooMany(x, i);
      RoundOverRepeats(x, c, u, i);
    }
  }

  lemma BothThrice(x: seq<Situation>, c: int, t: Trigger, i: nat)
    requires Chain(x, c) && i + 11 <= |x| && t != Quiet && !IsShort(t) && t != WorryAfterLongSilence
    requires Within(x, i, 3) && Ten(x, t, i) == Ten(x, WorryAfterLongSilence, i) == 0
    ensures Ten(x, CuriosityAfterSilence, i) == Ten(x, RandomShare, i) == 3
  {
    assert Longs(t, WorryAfterLongSilence, t) == 2;
    hide *;
    TenAre(x, c, i, 3, t, WorryAfterLongSilence, t);
  }

  lemma TooMany(x: seq<Situation>, i: nat) returns (u: Trigger)
    requires i + 11 <= |x| && !Within(x, i, 3)
    ensures u != Quiet && Ten(x, u, i) > if IsShort(u) then 3 else 1
  {
    hide Ten;
    u :| u != Quiet && Ten(x, u, i) > if IsShort(u) then 3 else 1;
  }

  lemma SpanReached(c: int, time: int)
    requires 3 * c >= 2 * HOUR && time >= 11 * c
    requires time >= 2 * HOUR + 10 * c || time >= 8 * HOUR + 2 * c || time >= 6 * HOUR + 3 * c
    ensures time >= Span(c)
  {
    SpanIs(c);
    hide Span;
  }

  // ---------------------------------------------------------------- all logs of a trigger

  /** When every way round lasts d, any two checks of the trigger that sent are d apart. */
  lemma PairFromRounds(x: seq<Situation>, c: int, t: Trigger, i: nat, j: nat)
    requires Chain(x, c) && c >= 0 && t in Cooldowns() && i < j < |x| && Detected(x[i]) == Detected(x[j]) == t
    requires Round(x, c, t, i) ==> i + 11 < |x| && x[i].now - x[i + 11].sentAt >= Cooldowns()[t]
    ensures x[i].now - x[j].sentAt >= Cooldowns()[t]
  {
    hide Chain, Detected, Cooldowns;
    if j <= i + 10 {
      NearPair(x, c, i, j);
    } else if k :| i < k < i + 11 && Detected(x[k]) == t {
      NearPair(x, c, i, k);
      LogsDescend(x, c, k, j);
    } else {
      LogsDescend(x, c, i + 11, j);
    }
  }

  lemma LogsDescend(x: seq<Situation>, c: int, i: nat, j: nat)
    requires Chain(x, c) && c >= 0 && i <= j < |x|
    ensures x[i].sentAt >= x[j].sentAt
  {
    hide *;
    InChain(x, c, i);
    if i < j { Far(x, c, i, j); }
  }

  lemma ChainApart(x: seq<Situation>, mine: seq<Log>, c: int, t: Trigger)
    requires Chain(x, c) && c >= 0 && t in Cooldowns() && Behind(x, mine)
    requires forall i: nat :: Round(x, c, t, i) ==> i + 11 < |x| && x[i].now - x[i + 11].sentAt >= Cooldowns()[t]
    ensures Apart(mine, t, Cooldowns()[t])
  {
    hide *;
    forall i, j | 0 <= i < j < |x| && Detected(x[i]) == t && Detected(x[j]) == t
      ensures x[i].now - x[j].sentAt >= Cooldowns()[t]
    {
      PairFromRounds(x, c, t, i, j);
    }
    forall i | 0 <= i < |x| ensures x[i].now <= x[i].sentAt { InChain(x, c, i); }
    ApartFromSends(x, mine, t, Cooldowns()[t]);
  }

  // ---------------------------------------------------------------- every run is a chain

  /** The positions in the run of the checks that sent, the last one first. */
  ghost predicate At(run: seq<Situation>, user: string, x: seq<Situation>, ks: seq<nat>) {
    && |ks| == |x|
    && (forall i :: 0 <= i < |x| ==>
          ks[i] < |run| && run[ks[i]] == x[i] && x[i].user == user && Sent(Cooldowns(), run, ks[i]))
    && forall i, j :: 0 <= i < j < |x| ==> ks[j] < ks[i]
  }

  lemma AtLonger(run: seq<Situation>, user: string, x: seq<Situation>, ks: seq<nat>)
    requires run != [] && At(run[..|run| - 1], user, x, ks)
    ensures At(run, user, x, ks)
    ensures var n := |run| - 1;
            Sent(Cooldowns(), run, n) && run[n].user == user ==> At(run, user, [run[n]] + x, [n] + ks)
  {
    var n := |run| - 1;
    hide Sent, Cooldowns;
    forall i | 0 <= i < |x|
      ensures ks[i] < n && run[ks[i]] == x[i] && x[i].user == user && Sent(Cooldowns(), run, ks[i])
    {
      SentBefore(run, n, ks[i]);
    }
  }

  lemma SentBefore(run: seq<Situation>, n: nat, k: nat)
    requires k < n <= |run|
    ensures Sent(Cooldowns(), run[..n], k) <==> Sent(Cooldowns(), run, k)
  {
    assert run[..n][..k] == run[..k];
    hide Passes, After, Cooldowns;
  }

  lemma {:induction false} SendsAt(run: seq<Situation>, user: string) returns (ks: seq<nat>)
    ensures At(run, user, Sends(Cooldowns(), run, user), ks)
  {
    hide At, Passes, After, Cooldowns;
    if run == [] {
      ks := [];
      assert At(run, user, [], ks) by { NoneAt(run, user); }
    } else {
      ks := SendsAt(run[..|run| - 1], user);
      AtLonger(run, user, Sends(Cooldowns(), run[..|run| - 1], user), ks);
      if Sent(Cooldowns(), run, |run| - 1) && run[|run| - 1].user == user { ks := [|run| - 1] + ks; }
    }
  }

  lemma NoneAt(run: seq<Situation>, user: string)
    ensures At(run, user, [], [])
  {
  }

  lemma PassesDetects(logs: seq<Log>, s: Situation)
    ensures Passes(Cooldowns(), logs, s) ==> Detected(s) in Cooldowns()
  {
    hide DND, Rested, TriggerRested, Detected, Listed;
  }

  /** Every run of the program's checks is a chain. */
  lemma RunIsChain(run: seq<Situation>, user: string, c: int)
    requires Timely(run, user, c) && Delivered(run, user) && Dated(run, user)
    ensures Chain(Sends(Cooldowns(), run, user), c)
  {
    var x := Sends(Cooldowns(), run, user);
    var ks := SendsAt(run, user);
    SendsSpaced(Cooldowns(), run, user, c);
    hide Sends, Passes, Detected, Cooldowns, NearApart, Spaced, After;
    forall t | t in Cooldowns() ensures NearApart(x, t, Cooldowns()[t]) {
      SendsNearApart(Cooldowns(), run, user, c, t);
    }
    forall i | 0 <= i < |x| ensures Detected(x[i]) in Cooldowns() && x[i].sentAt <= x[i].savedAt + HOUR {
      PassesDetects(After(Cooldowns(), run[..ks[i]]), x[i]);
    }
    forall i, j | 0 <= i < j < |x| ensures x[j].savedAt <= x[i].lastMessageAt {
      assert run[ks[i]] == x[i] && run[ks[j]] == x[j];
    }
  }

  // ---------------------------------------------------------------- local times that jump freely

  /** Whatever the program's checks of a user with cooldowns of at least c, the logs of t are its cooldown apart. */
  ghost predicate AlwaysApart(c: int, t: Trigger)
    requires t in Cooldowns()
  {
    forall run, user :: Timely(run, user, c) && Delivered(run, user) && Dated(run, user) ==>
      Apart(Mine(After(Cooldowns(), run), user), t, Cooldowns()[t])
  }

  /** The triggers that a look at ten logs spaces with a cooldown of at least c: the short ones and worry always,
      personal moments from forty minutes on, the others when eleven general cooldowns cover their own. */
  predicate Covered(c: int, t: Trigger)
    requires t in Cooldowns()
  {
    || IsShort(t) || t == WorryAfterLongSilence
    || (if t == SharePersonalMoment then 3 * c >= 2 * HOUR else 11 * c >= Cooldowns()[t])
  }

  lemma CoveredMeans(c: int, t: Trigger)
    requires c >= 0 && t in Cooldowns() && !IsShort(t) && t != WorryAfterLongSilence
    ensures Covered(c, t) <==> Span(c) >= Cooldowns()[t]
    ensures Covered(c, t) ==> 3 * c >= 2 * HOUR
    ensures !Covered(c, t) ==> Span(Max(c, THRESHOLD)) < Cooldowns()[t]
  {
    Rests();
    SpanIs(c);
    SpanIs(Max(c, THRESHOLD));
    hide Cooldowns, Span;
  }

  lemma CoveredRound(x: seq<Situation>, c: int, t: Trigger, i: nat)
    requires Round(x, c, t, i) && t in Cooldowns() && Covered(c, t) && c >= 0
    ensures x[i].now - x[i + 11].sentAt >= Cooldowns()[t]
  {
    RestOf(t);
    Rests();
    hide Round, Chain, Detected, Cooldowns, Span, Covered;
    RoundParts(x, c, t, i);
    if IsShort(t) {
      ShortRound(x, c, t, i);
    } else if t == WorryAfterLongSilence {
      WorryRound(x, c, i);
    } else {
      CoveredMeans(c, t);
      RoundLasts(x, c, t, i);
    }
  }

  lemma CoveredApart(c: int, t: Trigger)
    requires c >= 0 && t in Cooldowns() && Covered(c, t)
    ensures AlwaysApart(c, t)
  {
    hide Cooldowns, Chain, Round, Covered, Sends, Mine, After, Timely, Delivered, Dated, Behind, Apart;
    forall run, user | Timely(run, user, c) && Delivered(run, user) && Dated(run, user)
      ensures Apart(Mine(After(Cooldowns(), run), user), t, Cooldowns()[t])
    {
      RunApartIfCovered(run, user, c, t);
    }
  }

  lemma RunApartIfCovered(run: seq<Situation>, user: string, c: int, t: Trigger)
    requires c >= 0 && t in Cooldowns() && Covered(c, t)
    requires Timely(run, user, c) && Delivered(run, user) && Dated(run, user)
    ensures Apart(Mine(After(Cooldowns(), run), user), t, Cooldowns()[t])
  {
    RunIsChain(run, user, c);
    SendsAreBehind(Cooldowns(), run, user);
    hide *;
    var x := Sends(Cooldowns(), run, user);
    forall i: nat | Round(x, c, t, i) ensures i + 11 < |x| && x[i].now - x[i + 11].sentAt >= Cooldowns()[t] {
      RoundParts(x, c, t, i);
      CoveredRound(x, c, t, i);
    }
    ChainApart(x, Mine(After(Cooldowns(), run), user), c, t);
  }

  // ---------------------------------------------------------------- runs of checks that all send

  /** Nothing keeps the check back but the two cooldowns. */
  ghost predicate Ready(s: Situation, c: int) {
    && s.user == "u" && s.enabled && s.hasConversation && s.hasBot && s.dndStart == -1 && !s.online && s.sent
    && s.messages == [Message("user", false)] && s.now == s.savedAt == s.sentAt && s.cooldown == c
    && Detected(s) != Quiet
  }

  /** Both cooldowns have passed at each check, and each sees a conversation no older than the last message. */
  ghost predicate Spread(checks: seq<Situation>, c: int) {
    && (forall k :: 0 <= k < |checks| ==> Ready(checks[k], c))
    && (forall m, k :: 0 <= m < k < |checks| && k == m + 1 ==> checks[k].now - checks[m].now >= c)
    && (forall m, k :: 0 <= m < k < |checks| ==> checks[m].now <= checks[k].lastMessageAt)
    && forall m, k :: 0 <= m < k < |checks| && k <= m + 10 && Detected(checks[m]) == Detected(checks[k]) ==>
         checks[k].now - checks[m].now >= Cooldowns()[Detected(checks[k])]
  }

  lemma ReadyParts(s: Situation, c: int)
    requires Ready(s, c)
    ensures !DND(s) && Wait(s) == c && Detected(s) in Cooldowns()
  {
    Rests();
    hide Detected, Hour, Minute, Cooldowns;
    assert Unanswered(s.messages) == 0;
  }

  lemma ReadyPasses(x: seq<Situation>, logs: seq<Log>, s: Situation, c: int)
    requires Ready(s, c) && Behind(x, Mine(logs, "u")) && (x != [] ==> s.now - x[0].sentAt >= c)
    requires forall i :: 0 <= i < |x| && i < 10 && Detected(x[i]) == Detected(s) ==>
               s.now - x[i].sentAt >= Cooldowns()[Detected(s)]
    ensures Passes(Cooldowns(), logs, s)
  {
    ReadyParts(s, c);
    hide Detected, DND, Wait, Cooldowns, Mine;
    var mine := Mine(logs, "u");
    assert forall i :: 0 <= i < |x| ==> mine[i] == LogOf(x[i]);
    assert Rested(s, FirstOf(mine, 1));
    assert TriggerRested(Cooldowns(), s, FirstOf(mine, 10));
    assert Listed(logs, "u", 1) == FirstOf(mine, 1) && Listed(logs, "u", 10) == FirstOf(mine, 10);
  }

  /** The whole run is sent. */
  lemma {:induction false} AllSent(checks: seq<Situation>, c: int)
    requires Spread(checks, c)
    ensures var x := Sends(Cooldowns(), checks, "u");
            |x| == |checks| && forall i :: 0 <= i < |x| ==> x[i] == checks[|checks| - 1 - i]
  {
    hide Passes, Detected, Cooldowns, Behind, Mine, After, Ready;
    if checks != [] {
      var n := |checks| - 1;
      var x := Sends(Cooldowns(), checks[..n], "u");
      SpreadBefore(checks, c, n);
      AllSent(checks[..n], c);
      SendsAreBehind(Cooldowns(), checks[..n], "u");
      NextReady(checks, c, n, x);
      ReadyPasses(x, After(Cooldowns(), checks[..n]), checks[n], c);
      ReadyUser(checks[n], c);
    }
  }

  lemma ReadyUser(s: Situation, c: int)
    requires Ready(s, c)
    ensures s.user == "u" && s.now == s.savedAt == s.sentAt && s.cooldown == c
  {
  }

  lemma SpreadBefore(checks: seq<Situation>, c: int, n: nat)
    requires Spread(checks, c) && n <= |checks|
    ensures Spread(checks[..n], c)
  {
    hide Ready, Detected, Cooldowns;
  }

  lemma NextReady(checks: seq<Situation>, c: int, n: nat, x: seq<Situation>)
    requires Spread(checks, c) && n < |checks|
    requires |x| == n && forall i :: 0 <= i < n ==> x[i] == checks[n - 1 - i]
    ensures Ready(checks[n], c) && (x != [] ==> checks[n].now - x[0].sentAt >= c)
    ensures forall i :: 0 <= i < |x| && i < 10 && Detected(x[i]) == Detected(checks[n]) ==>
              checks[n].now - x[i].sentAt >= Cooldowns()[Detected(checks[n])]
  {
    hide Ready, Detected, Cooldowns;
    forall i | 0 <= i < n ensures x[i].now == x[i].sentAt { ReadyUser(checks[n - 1 - i], c); }
  }

  lemma SpreadRuns(checks: seq<Situation>, c: int)
    requires Spread(checks, c)
    ensures Timely(checks, "u", c) && Delivered(checks, "u") && Dated(checks, "u")
  {
    hide Ready, Detected, Cooldowns, Sent;
    forall s | s in checks ensures s.user == "u" && s.now == s.savedAt == s.sentAt && s.cooldown == c {
      ReadyUser(s, c);
    }
  }

  /** Such a run keeps its first and its last log as close as they are. */
  lemma SpreadBreaks(checks: seq<Situation>, c: int, t: Trigger)
    requires Spread(checks, c) && |checks| >= 2 && t in Cooldowns()
    requires var n := |checks| - 1;
             && Detected(checks[0]) == Detected(checks[n]) == t && checks[n].now - checks[0].now < Cooldowns()[t]
    ensures !Apart(Mine(After(Cooldowns(), checks), "u"), t, Cooldowns()[t])
  {
    AllSent(checks, c);
    SendsAreBehind(Cooldowns(), checks, "u");
    var n := |checks| - 1;
    var x, mine := Sends(Cooldowns(), checks, "u"), Mine(After(Cooldowns(), checks), "u");
    hide Ready, Detected, Cooldowns, Sends, Mine, After;
    ReadyUser(checks[0], c);
    ReadyUser(checks[n], c);
    assert mine[0] == LogOf(x[0]) && mine[n] == LogOf(x[n]);
  }

  // ---------------------------------------------------------------- the run that shows the bound

  const ALL := {CuriosityAfterSilence, RandomShare, MorningCare, EveningCare, WorryAfterLongSilence,
                SharePersonalMoment, ShareInterestingFact, ShareEmotion}

  /** A check with the default configuration, of a user who is offline. */
  function Check(c: int, now: int, offset: int, lastMessageAt: int, t: Trigger): Situation {
    Situation("u", now, true, true, true, offset, -1, -1, c, [Message("user", false)], false, 0, ALL, THRESHOLD,
        lastMessageAt, t == WorryAfterLongSilence, if t == SharePersonalMoment then 0.0 else 0.5,
        if t == ShareInterestingFact then 0.0 else 0.5, if t == ShareEmotion then 0.0 else 0.5, true, now, now)
  }

  /** The local times and the silence that let the check detect t. */
  predicate Suits(t: Trigger, hour: int, minute: int, gap: int) {
    match t
    case Quiet => false
    case MorningCare => 7 <= hour < 9
    case EveningCare => hour == 21
    case WorryAfterLongSilence => 9 <= hour < 21 && gap >= 3 * HOUR
    case CuriosityAfterSilence => 9 <= hour < 21 && gap >= THRESHOLD
    case RandomShare => 10 <= hour < 20 && minute < 5 && gap < THRESHOLD
    case SharePersonalMoment => 10 <= hour < 20 && gap < THRESHOLD
    case ShareInterestingFact => 12 <= hour < 18 && gap < THRESHOLD
    case ShareEmotion => 14 <= hour < 21 && gap < THRESHOLD
  }

  lemma CheckDetects(c: int, now: int, offset: int, lastMessageAt: int, t: Trigger)
    requires var s := Check(c, now, offset, lastMessageAt, t); Suits(t, Hour(s), Minute(s), now - lastMessageAt)
    ensures var s := Check(c, now, offset, lastMessageAt, t); Detected(s) == t && Ready(s, c)
  {
    var s := Check(c, now, offset, lastMessageAt, t);
    CareIs(s);
    hide CareTrigger, Hour, Minute;
  }

  /** Four of the long triggers other than t and worry. */
  function Other(t: Trigger, n: nat): Trigger
    requires n < 4
  {
    var all := [MorningCare, EveningCare, SharePersonalMoment, ShareInterestingFact];
    if all[n] == t then ShareEmotion else all[n]
  }

  function TriggerAt(t: Trigger, k: nat): Trigger
    requires k < 12
  {
    var a, b := CuriosityAfterSilence, RandomShare;
    [t, a, b, Other(t, 0), Other(t, 1), a, b, Other(t, 2), Other(t, 3), a, b, t][k]
  }

  /** With gaps of g, and longer ones before a repeated short trigger. */
  function TimeAt(g: int, k: nat): int
    requires k < 12
  {
    var u := Max(4 * g, 3 * HOUR);
    [0, g, 2 * g, 3 * g, 4 * g, g + u, 2 * g + u, 3 * g + u, 4 * g + u, g + 2 * u, 2 * g + 2 * u, 3 * g + 2 * u][k]
  }

  /** An hour of the day in which t is detected. */
  function HourFor(t: Trigger): int {
    if t == MorningCare then 7 else if t == EveningCare then 21 else if t == ShareEmotion then 14 else 12
  }

  function CheckAt(c: int, t: Trigger, k: nat): Situation
    requires k < 12
  {
    var now, u := TimeAt(Max(c, THRESHOLD), k), TriggerAt(t, k);
    Check(c, now, HourFor(u) * HOUR - now, if u == CuriosityAfterSilence then now - THRESHOLD else now, u)
  }

  lemma TimesGrow(g: int, m: nat, k: nat)
    requires g >= THRESHOLD && m < k < 12
    ensures TimeAt(g, k) - TimeAt(g, m) >= g
    ensures m in {1, 2, 5, 6} && k in {m + 4, m + 8} ==> TimeAt(g, k) - TimeAt(g, m) >= 3 * HOUR
  {
  }

  /** Within ten checks only the short triggers repeat. */
  lemma Repeats(t: Trigger, m: nat, k: nat)
    requires t in Cooldowns() && m < k < 12 && !IsShort(t) && t != WorryAfterLongSilence
    ensures TriggerAt(t, k) in Cooldowns()
    ensures k <= m + 10 && TriggerAt(t, m) == TriggerAt(t, k) ==>
              m in {1, 2, 5, 6} && k in {m + 4, m + 8} && IsShort(TriggerAt(t, k))
  {
    Rests();
    hide Cooldowns;
    ShortAt(t, m);
    ShortAt(t, k);
  }

  /** The short triggers and t stand at fixed places. */
  lemma ShortAt(t: Trigger, k: nat)
    requires k < 12 && t != Quiet && !IsShort(t) && t != WorryAfterLongSilence
    ensures TriggerAt(t, k) == CuriosityAfterSilence <==> k in {1, 5, 9}
    ensures TriggerAt(t, k) == RandomShare <==> k in {2, 6, 10}
    ensures TriggerAt(t, k) == t <==> k in {0, 11}
  {
  }

  lemma TimesRest(g: int, t: Trigger, m: nat, k: nat)
    requires g >= THRESHOLD && t in Cooldowns() && m < k < 12 && !IsShort(t) && t != WorryAfterLongSilence
    ensures TimeAt(g, k) - TimeAt(g, m) >= g && TriggerAt(t, k) in Cooldowns()
    ensures k <= m + 10 && TriggerAt(t, m) == TriggerAt(t, k) ==>
              TimeAt(g, k) - TimeAt(g, m) >= Cooldowns()[TriggerAt(t, k)]
  {
    hide *;
    TimesGrow(g, m, k);
    Repeats(t, m, k);
    RestOf(TriggerAt(t, k));
  }

  lemma OnTheHour(s: Situation, hour: nat)
    requires hour < 24 && LocalTime(s) == hour * HOUR
    ensures Hour(s) == hour && Minute(s) == 0
  {
  }

  lemma CheckAtDetects(c: int, t: Trigger, k: nat)
    requires k < 12 && t in Cooldowns() && !IsShort(t) && t != WorryAfterLongSilence
    ensures Detected(CheckAt(c, t, k)) == TriggerAt(t, k) && Ready(CheckAt(c, t, k), c)
  {
    var s, u := CheckAt(c, t, k), TriggerAt(t, k);
    Rests();
    assert u != Quiet && u != WorryAfterLongSilence by { hide Cooldowns; }
    hide Cooldowns, TriggerAt, TimeAt, Hour, Minute, Detected, Ready;
    OnTheHour(s, HourFor(u));
    CheckDetects(c, s.now, s.offset, s.lastMessageAt, u);
  }

  lemma ChecksSpread(c: int, t: Trigger, checks: seq<Situation>)
    requires c >= 0 && t in Cooldowns() && !IsShort(t) && t != WorryAfterLongSilence
    requires |checks| == 12 && forall k :: 0 <= k < 12 ==> checks[k] == CheckAt(c, t, k)
    ensures Spread(checks, c)
  {
    var g := Max(c, THRESHOLD);
    hide Ready, Detected, Cooldowns, TimeAt, TriggerAt;
    forall k | 0 <= k < 12 ensures Ready(checks[k], c) && Detected(checks[k]) == TriggerAt(t, k) {
      CheckAtDetects(c, t, k);
    }
    forall m, k | 0 <= m < k < 12
      ensures checks[k].now - checks[m].now >= g && TriggerAt(t, k) in Cooldowns()
      ensures k <= m + 10 && TriggerAt(t, m) == TriggerAt(t, k) ==>
                checks[k].now - checks[m].now >= Cooldowns()[TriggerAt(t, k)]
    {
      TimesRest(g, t, m, k);
    }
  }

  lemma SpanNeeded(c: int, t: Trigger)
    requires c >= 0 && t in Cooldowns() && !Covered(c, t)
    ensures !AlwaysApart(c, t)
  {
    var checks := seq(12, k requires 0 <= k < 12 => CheckAt(c, t, k));
    ChecksSpread(c, t, checks);
    CoveredMeans(c, t);
    CheckAtDetects(c, t, 0);
    CheckAtDetects(c, t, 11);
    assert checks[11].now - checks[0].now == Span(Max(c, THRESHOLD));
    hide Ready, Detected, Cooldowns, TimeAt, CheckAt, Spread, Covered, Mine, After, Timely, Delivered, Dated, Apart;
    SpreadRuns(checks, c);
    SpreadBreaks(checks, c, t);
  }

  /** For every cooldown c and trigger t of the program, whatever the local times of the checks: a look at ten logs
      spaces t by its own cooldown over every run exactly when it is covered. */
  lemma LookBackSuffices(c: int, t: Trigger)
    requires c >= 0 && t in Cooldowns()
    ensures AlwaysApart(c, t) <==> Covered(c, t)
  {
    hide AlwaysApart, Covered;
    if Covered(c, t) { CoveredApart(c, t); } else { SpanNeeded(c, t); }
  }

  /** All triggers are spaced over every run exactly when eleven cooldowns last 20 hours; the default cooldown, four
      hours, is enough. */
  lemma ProgramTriggersApart(c: int)
    requires c >= 0
    ensures (forall t :: t in Cooldowns() ==> AlwaysApart(c, t)) <==> 11 * c >= 20 * HOUR
  {
    Rests();
    hide Cooldowns, AlwaysApart;
    forall t | t in Cooldowns() ensures 11 * c >= 20 * HOUR ==> AlwaysApart(c, t) {
      RestOf(t);
      LookBackSuffices(c, t);
    }
    LookBackSuffices(c, MorningCare);
  }

  // ---------------------------------------------------------------- one zone

  /** The user's checks are all made in one zone, and a message is logged within an hour after its check. */
  ghost predicate InZone(run: seq<Situation>, user: string, zone: int) {
    forall i :: 0 <= i < |run| && run[i].user == user ==>
      run[i].offset == zone && run[i].sentAt <= run[i].now + HOUR
  }

  ghost predicate ZoneChain(x: seq<Situation>, c: int, zone: int) {
    Chain(x, c) && forall i :: 0 <= i < |x| ==> x[i].offset == zone && x[i].sentAt <= x[i].now + HOUR
  }

  function TimeOfDay(time: int): int { time % DAY }

  /** The hours in which t is detected, as times of the day. */
  function Opens(t: Trigger): int {
    match t
    case MorningCare => 7 * HOUR
    case EveningCare => 21 * HOUR
    case ShareInterestingFact => 12 * HOUR
    case ShareEmotion => 14 * HOUR
    case _ => 10 * HOUR
  }

  function Closes(t: Trigger): int {
    match t
    case MorningCare => 9 * HOUR
    case EveningCare => 22 * HOUR
    case ShareInterestingFact => 18 * HOUR
    case ShareEmotion => 21 * HOUR
    case _ => 20 * HOUR
  }

  lemma HourIs(s: Situation)
    ensures Hour(s) == TimeOfDay(LocalTime(s)) / HOUR && 0 <= TimeOfDay(LocalTime(s)) < DAY
  {
    var time := LocalTime(s);
    assert time == time / DAY * DAY + time % DAY;
    assert time / HOUR == time / DAY * 24 + time % DAY / HOUR;
  }

  /** Checks that detect a care or a share are made in its hours. */
  lemma InHours(s: Situation)
    ensures var t, time := Detected(s), TimeOfDay(LocalTime(s));
            t in Cooldowns() && !IsShort(t) && t != WorryAfterLongSilence ==> Opens(t) <= time < Closes(t)
  {
    Rests();
    DetectedGuards(s);
    HourIs(s);
    hide Detected, Cooldowns, Hour, TimeOfDay;
  }

  /** The hours of a long trigger are closed for longer than its cooldown and an hour. */
  lemma HoursClose(t: Trigger)
    requires t in Cooldowns() && !IsShort(t) && t != WorryAfterLongSilence
    ensures Cooldowns()[t] + HOUR <= DAY - (Closes(t) - Opens(t)) && 0 < Opens(t) < Closes(t) < DAY
    ensures t in {MorningCare, EveningCare} ==> Closes(t) - Opens(t) <= 2 * HOUR
    ensures t == SharePersonalMoment ==> Cooldowns()[t] == 8 * HOUR
    ensures t in {ShareInterestingFact, ShareEmotion} ==> Closes(t) - Opens(t) <= 7 * HOUR
    ensures t !in {MorningCare, EveningCare} ==> Closes(MorningCare) <= Opens(t) && Closes(t) <= Opens(EveningCare)
  {
    Rests();
    hide Cooldowns;
  }

  lemma DayParts(a: int)
    ensures a == a / DAY * DAY + TimeOfDay(a) && 0 <= TimeOfDay(a) < DAY
  {
  }

  lemma LaterDay(p: int, q: int)
    ensures p > q ==> p * DAY >= q * DAY + DAY
    ensures p < q ==> q * DAY >= p * DAY + DAY
  {
    if p > q { assert (p - q - 1) * DAY >= 0; }
    if p < q { assert (q - p - 1) * DAY >= 0; }
  }

  /** Two times in one window of the day, less than a day minus the window apart, are in the same window. */
  lemma SameDay(a: int, b: int, m: int, from: int, to: int)
    requires a <= m <= b && 0 <= from <= to <= DAY && from <= TimeOfDay(a) < to && from <= TimeOfDay(b) < to
    requires b - a < DAY - (to - from)
    ensures b - a < to - from && from <= TimeOfDay(m) < to
  {
    DayParts(a);
    DayParts(b);
    DayParts(m);
    LaterDay(b / DAY, a / DAY);
    LaterDay(m / DAY, a / DAY);
    hide TimeOfDay;
  }

  /** Between two close checks of t, all checks fall into the hours of t. */
  lemma ZoneHours(x: seq<Situation>, c: int, zone: int, t: Trigger, i: nat, k: nat, j: nat)
    requires ZoneChain(x, c, zone) && c >= 0 && i <= k <= j < |x| && Detected(x[i]) == Detected(x[j]) == t
    requires t in Cooldowns() && !IsShort(t) && t != WorryAfterLongSilence && x[i].now - x[j].sentAt < Cooldowns()[t]
    ensures Opens(t) <= TimeOfDay(LocalTime(x[k])) < Closes(t)
    ensures x[i].now - x[j].now < Closes(t) - Opens(t)
  {
    ZoneParts(x, c, zone, i, k, j);
    hide *;
    InHours(x[i]);
    InHours(x[j]);
    HoursClose(t);
    SameDay(LocalTime(x[j]), LocalTime(x[i]), LocalTime(x[k]), Opens(t), Closes(t));
  }

  lemma ZoneParts(x: seq<Situation>, c: int, zone: int, i: nat, k: nat, j: nat)
    requires ZoneChain(x, c, zone) && c >= 0 && i <= k <= j < |x|
    ensures Chain(x, c) && x[j].sentAt <= x[j].now + HOUR
    ensures LocalTime(x[j]) <= LocalTime(x[k]) <= LocalTime(x[i])
    ensures LocalTime(x[i]) - LocalTime(x[j]) == x[i].now - x[j].now
  {
    hide Chain;
    Monotone(x, c, i, k);
    Monotone(x, c, k, j);
  }

  /** No care comes between two close shares. */
  lemma NoCare(x: seq<Situation>, c: int, zone: int, t: Trigger, i: nat, j: nat)
    requires ZoneChain(x, c, zone) && c >= 0 && i + 11 <= j < |x| && Detected(x[i]) == Detected(x[j]) == t
    requires t in Cooldowns() && !IsShort(t) && t !in {WorryAfterLongSilence, MorningCare, EveningCare}
    requires x[i].now - x[j].sentAt < Cooldowns()[t]
    ensures Ten(x, MorningCare, i) == 0 && Ten(x, EveningCare, i) == 0
  {
    hide *;
    forall k | i < k < i + 11 ensures Detected(x[k]) != MorningCare && Detected(x[k]) != EveningCare {
      ZoneHours(x, c, zone, t, i, k, j);
      NotInCareHours(x[k], t);
    }
    NoneAmongTen(x, MorningCare, i);
    NoneAmongTen(x, EveningCare, i);
  }

  lemma NotInCareHours(s: Situation, t: Trigger)
    requires t in Cooldowns() && !IsShort(t) && t !in {WorryAfterLongSilence, MorningCare, EveningCare}
    requires Opens(t) <= TimeOfDay(LocalTime(s)) < Closes(t)
    ensures Detected(s) != MorningCare && Detected(s) != EveningCare
  {
    Rests();
    HoursClose(t);
    InHours(s);
    hide Detected, Cooldowns, TimeOfDay, LocalTime;
  }

  /** Ten others do not fit between two close checks of one care. */
  lemma CareRound(x: seq<Situation>, c: int, t: Trigger, i: nat)
    requires Chain(x, c) && c >= 0 && i + 11 <= |x| && t in {MorningCare, EveningCare} && Ten(x, t, i) == 0
    ensures x[i + 1].now - x[i + 10].now >= 3 * HOUR
  {
    assert Longs(t, t, t) == 1;
    hide *;
    if x[i + 1].now - x[i + 10].now < 3 * HOUR {
      TenWithin(x, c, i, 1, 3 * HOUR);
      TenAre(x, c, i, 1, t, t, t);
    }
  }

  /** Nor between two close checks of one share, where no care occurs. */
  lemma ShareRound(x: seq<Situation>, c: int, t: Trigger, i: nat)
    requires Chain(x, c) && c >= 0 && i + 11 <= |x| && t !in {MorningCare, EveningCare, Quiet} && !IsShort(t)
    requires Ten(x, MorningCare, i) == Ten(x, EveningCare, i) == Ten(x, t, i) == 0
    ensures x[i + 1].now - x[i + 10].now >= 8 * HOUR
  {
    assert Longs(MorningCare, EveningCare, t) == 3;
    hide *;
    if x[i + 1].now - x[i + 10].now < 8 * HOUR {
      TenWithin(x, c, i, 3, 8 * HOUR);
      TenAre(x, c, i, 3, MorningCare, EveningCare, t);
    }
  }

  lemma ZoneRound(x: seq<Situation>, c: int, zone: int, t: Trigger, i: nat, j: nat)
    requires ZoneChain(x, c, zone) && Round(x, c, t, i) && i + 11 <= j < |x| && Detected(x[j]) == t
    requires t in Cooldowns() && !IsShort(t) && t != WorryAfterLongSilence
    ensures x[i].now - x[j].sentAt >= Cooldowns()[t]
  {
    RoundParts(x, c, t, i);
    Rests();
    HoursClose(t);
    ZoneParts(x, c, zone, i, i + 11, j);
    hide *;
    LogsDescend(x, c, i + 11, j);
    InChain(x, c, i + 11);
    InChain(x, c, j);
    if x[i].now - x[j].sentAt < Cooldowns()[t] {
      ZoneHours(x, c, zone, t, i, i, j);
      if t in {MorningCare, EveningCare} {
        CareRound(x, c, t, i);
      } else {
        NoCare(x, c, zone, t, i, j);
        ShareRound(x, c, t, i);
      }
      TenInside(x, c, i, j);
    }
  }

  lemma TenInside(x: seq<Situation>, c: int, i: nat, j: nat)
    requires Chain(x, c) && c >= 0 && i + 11 <= j < |x|
    ensures x[i + 1].now - x[i + 10].now <= x[i].now - x[j].sentAt
    ensures x[i + 1].now - x[i + 10].now <= x[i].now - x[j].now
  {
    hide *;
    Monotone(x, c, i, i + 1);
    Far(x, c, i + 10, j);
  }

  lemma ZonePair(x: seq<Situation>, c: int, zone: int, t: Trigger, i: nat, j: nat)
    requires ZoneChain(x, c, zone) && c >= 0 && i < j < |x| && Detected(x[i]) == Detected(x[j]) == t
    requires t in Cooldowns() && !IsShort(t) && t != WorryAfterLongSilence
    ensures x[i].now - x[j].sentAt >= Cooldowns()[t]
  {
    hide Chain, Detected, Cooldowns;
    if j <= i + 10 {
      NearPair(x, c, i, j);
    } else if k :| i < k < i + 11 && Detected(x[k]) == t {
      NearPair(x, c, i, k);
      LogsDescend(x, c, k, j);
    } else {
      ZoneRound(x, c, zone, t, i, j);
    }
  }

  lemma RunInZone(run: seq<Situation>, user: string, c: int, zone: int)
    requires Timely(run, user, c) && Dated(run, user) && InZone(run, user, zone)
    ensures Delivered(run, user) && ZoneChain(Sends(Cooldowns(), run, user), c, zone)
  {
    var x := Sends(Cooldowns(), run, user);
    assert Delivered(run, user);
    RunIsChain(run, user, c);
    var ks := SendsAt(run, user);
    hide Sends, Chain, Cooldowns, Sent;
    forall i | 0 <= i < |x| ensures x[i].offset == zone && x[i].sentAt <= x[i].now + HOUR {
      assert run[ks[i]] == x[i];
    }
  }

  /** As long as a user's checks are made in one zone, ten logs are enough: over every run and for every cooldown, all
      triggers of the program are spaced by their own cooldowns. */
  lemma OneZoneApart(run: seq<Situation>, user: string, c: int, zone: int, t: Trigger)
    requires c >= 0 && t in Cooldowns() && Timely(run, user, c) && Dated(run, user) && InZone(run, user, zone)
    ensures Apart(Mine(After(Cooldowns(), run), user), t, Cooldowns()[t])
  {
    RunInZone(run, user, c, zone);
    if IsShort(t) || t == WorryAfterLongSilence {
      hide Cooldowns, Apart, Timely, Dated, Delivered, Mine, After;
      RunApartIfCovered(run, user, c, t);
    } else {
      SendsAreBehind(Cooldowns(), run, user);
      hide *;
      var x := Sends(Cooldowns(), run, user);
      forall i, j | 0 <= i < j < |x| && Detected(x[i]) == t && Detected(x[j]) == t
        ensures x[i].now - x[j].sentAt >= Cooldowns()[t]
      {
        ZonePair(x, c, zone, t, i, j);
      }
      forall i | 0 <= i < |x| ensures x[i].now <= x[i].sentAt { InZoneChain(x, c, zone, i); }
      ApartFromSends(x, Mine(After(Cooldowns(), run), user), t, Cooldowns()[t]);
    }
  }

  lemma InZoneChain(x: seq<Situation>, c: int, zone: int, i: nat)
    requires ZoneChain(x, c, zone) && i < |x|
    ensures x[i].now <= x[i].sentAt
  {
    InChain(x, c, i);
    hide Chain;
  }

  // ---------------------------------------------------------------- a day in two zones

  const SHANGHAI := 8 * HOUR
  const NEW_YORK := -5 * HOUR

  datatype Visit = Visit(trigger: Trigger, minute: int, zone: int, silence: int)

  /** A day of a user who also writes to a bot in New York at 10:40: triggers, times in Shanghai, zones, and how many
      minutes the latest conversation has been silent. */
  const VISITS := [
    Visit(SharePersonalMoment, 630, SHANGHAI, 0), Visit(EveningCare, 640, NEW_YORK, 0),
    Visit(CuriosityAfterSilence, 650, SHANGHAI, 8), Visit(RandomShare, 660, SHANGHAI, 0),
    Visit(WorryAfterLongSilence, 840, SHANGHAI, 180), Visit(ShareInterestingFact, 850, SHANGHAI, 0),
    Visit(CuriosityAfterSilence, 860, SHANGHAI, 8), Visit(RandomShare, 900, SHANGHAI, 0),
    Visit(ShareEmotion, 910, SHANGHAI, 0), Visit(CuriosityAfterSilence, 1040, SHANGHAI, 8),
    Visit(RandomShare, 1080, SHANGHAI, 0), Visit(SharePersonalMoment, 1100, SHANGHAI, 0)]

  function TimeOf(v: Visit): int { DAY + v.minute * MINUTE - SHANGHAI }

  function VisitCheck(c: int, v: Visit): Situation {
    Check(c, TimeOf(v), v.zone, TimeOf(v) - v.silence * MINUTE, v.trigger)
  }

  lemma VisitTimes(c: int, v: Visit)
    requires 0 <= v.minute < 1440 && v.silence >= 0
    ensures var s := VisitCheck(c, v);
            && s.now - s.lastMessageAt == v.silence * MINUTE
            && (v.zone == SHANGHAI ==> Hour(s) == v.minute / 60 && Minute(s) == v.minute % 60)
            && (v.zone == NEW_YORK ==> Hour(s) == (v.minute + 660) / 60 % 24)
  {
  }

  lemma VisitDetects(c: int, k: nat)
    requires k < 12
    ensures Detected(VisitCheck(c, VISITS[k])) == VISITS[k].trigger && Ready(VisitCheck(c, VISITS[k]), c)
  {
    var v := VISITS[k];
    VisitTimes(c, v);
    hide Hour, Minute, Detected, Ready;
    CheckDetects(c, TimeOf(v), v.zone, TimeOf(v) - v.silence * MINUTE, v.trigger);
  }

  lemma VisitsRest(m: nat, k: nat)
    requires m < k < 12
    ensures VISITS[k].minute - VISITS[m].minute >= 10 && VISITS[m].minute <= VISITS[k].minute - VISITS[k].silence
    ensures VISITS[k].trigger in Cooldowns()
    ensures k <= m + 10 && VISITS[m].trigger == VISITS[k].trigger ==>
              (VISITS[k].minute - VISITS[m].minute) * MINUTE >= Cooldowns()[VISITS[k].trigger]
  {
    Rests();
    hide Cooldowns;
  }

  lemma VisitsSpread(c: int, checks: seq<Situation>)
    requires 0 <= c <= 10 * MINUTE
    requires |checks| == 12 && forall k :: 0 <= k < 12 ==> checks[k] == VisitCheck(c, VISITS[k])
    ensures Spread(checks, c)
  {
    hide Ready, Detected, Cooldowns;
    forall k | 0 <= k < 12 ensures Ready(checks[k], c) && Detected(checks[k]) == VISITS[k].trigger {
      VisitDetects(c, k);
    }
    forall m, k | 0 <= m < k < 12
      ensures checks[k].now - checks[m].now >= c && checks[m].now <= checks[k].lastMessageAt
      ensures VISITS[k].trigger in Cooldowns()
      ensures k <= m + 10 && VISITS[m].trigger == VISITS[k].trigger ==>
                checks[k].now - checks[m].now >= Cooldowns()[VISITS[k].trigger]
    {
      VisitsRest(m, k);
    }
  }

  /** A change of zone is enough to bring two personal moments too close, for every cooldown up to ten minutes and with
      the default configuration. */
  lemma ZoneChangeBreaks(c: int) returns (run: seq<Situation>)
    requires 0 <= c <= 10 * MINUTE
    ensures Timely(run, "u", c) && Delivered(run, "u") && Dated(run, "u")
    ensures forall i :: 0 <= i < |run| ==>
              && run[i].offset in {28_800_000_000_000, -18_000_000_000_000} && run[i].sentAt == run[i].now
              && run[i].types == ALL && run[i].threshold == 480_000_000_000
    ensures SharePersonalMoment in Cooldowns()
    ensures !Apart(Mine(After(Cooldowns(), run), "u"), SharePersonalMoment, Cooldowns()[SharePersonalMoment])
  {
    run := seq(12, k requires 0 <= k < 12 => VisitCheck(c, VISITS[k]));
    VisitsSpread(c, run);
    Rests();
    VisitDetects(c, 0);
    VisitDetects(c, 11);
    assert run[11].now - run[0].now == 470 * MINUTE;
    hide Spread, Detected, Cooldowns, Timely, Delivered, Dated, Apart, Mine, After, Ready, Hour, Minute;
    SpreadRuns(run, c);
    SpreadBreaks(run, c, SharePersonalMoment);
  }
}
