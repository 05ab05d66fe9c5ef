/** The streaming reply sanitizer of agentx/postprocess/sanitize.go.

    A `char` stands for one byte of the Go string. `StreamSanitizer.Push` is the imperative
    original, `Scan` the function it computes, and `Reference` an independent tokenizer that
    looks at the whole text one symbol at a time and holds nothing back. The theory is
    developed for any marker table whose entries do not nest; `GRAMMAR` is the program's. */
module Sanitizer {
  import opened Arithmetic
  import opened Text

  datatype Kind = Think | Tag | Boundary

  datatype Marker = Marker(text: string, kind: Kind)

  /** A marker table, the string that closes a think block and the one that closes a tag. */
  datatype Grammar = Grammar(markers: seq<Marker>, closer: string, bracket: string)

  const GRAMMAR := Grammar(
    [ Marker("<think>", Think), Marker("[status:", Tag), Marker("[emotion:", Tag), Marker("[system:", Tag),
      Marker("[memory:", Tag), Marker("[internal:", Tag), Marker("[debug:", Tag), Marker("<<<MSG>>>", Boundary) ],
    "</think>", "]")

  // ---------------------------------------------------------------- occurrences

  /** No marker lies inside an occurrence of another one, and none is empty. */
  ghost predicate Separated(g: Grammar) {
    && |g.closer| > 0 && |g.bracket| > 0
    && (forall j :: 0 <= j < |g.markers| ==> |g.markers[j].text| > 0)
    && (forall j, j2, d {:trigger At(g.markers[j2].text, g.markers[j].text, d)} ::
          0 <= j < |g.markers| && 0 <= j2 < |g.markers| && At(g.markers[j2].text, g.markers[j].text, d) ==>
              d == 0 && j == j2)
  }

  /** strings.Index on s[from:], as a position in s, or -1. */
  function Index(s: string, p: string, from: nat): (r: int)
    ensures r == -1 ==> forall i :: from <= i ==> !At(p, s, i)
    ensures r != -1 ==> from <= r && At(p, s, r) && forall i :: from <= i < r ==> !At(p, s, i)
    decreases |s| - from
  {
    if from + |p| > |s| then -1
    else if At(p, s, from) then from
    else if from == |s| then -1
    else Index(s, p, from + 1)
  }

  predicate MarkerAt(g: Grammar, s: string, i: int) {
    exists j {:trigger At(g.markers[j].text, s, i)} :: 0 <= j < |g.markers| && At(g.markers[j].text, s, i)
  }

  datatype Found = NoMarker | Found(pos: nat, which: nat)

  /** The first entry of the table from `j` on that occurs in s at i. */
  function Which(g: Grammar, s: string, i: int, j: nat): (r: nat)
    requires exists k {:trigger At(g.markers[k].text, s, i)} :: j <= k < |g.markers| && At(g.markers[k].text, s, i)
    ensures j <= r < |g.markers| && At(g.markers[r].text, s, i)
    decreases |g.markers| - j
  {
    if At(g.markers[j].text, s, i) then j else Which(g, s, i, j + 1)
  }

  /** The leftmost marker of s from position `from` on; the first in the table on a tie. */
  function FirstMarker(g: Grammar, s: string, from: nat): (r: Found)
    ensures r.NoMarker? ==> forall i :: from <= i < |s| ==> !MarkerAt(g, s, i)
    ensures r.Found? ==> from <= r.pos < |s| && r.which < |g.markers| && At(g.markers[r.which].text, s, r.pos)
    ensures r.Found? ==> forall i :: from <= i < r.pos ==> !MarkerAt(g, s, i)
    decreases |s| - from
  {
    if from >= |s| then NoMarker
    else if MarkerAt(g, s, from) then Found(from, Which(g, s, from, 0))
    else FirstMarker(g, s, from + 1)
  }

  /** The last n symbols of s are a non-empty proper prefix of some marker. */
  predicate Pending(g: Grammar, s: string, n: nat) {
    1 <= n <= |s| &&
    exists j {:trigger g.markers[j].text[..n]} ::
      0 <= j < |g.markers| && n < |g.markers[j].text| && At(g.markers[j].text[..n], s, |s| - n)
  }

  /** The largest pending length that is at most `limit`. */
  function LongestPending(g: Grammar, s: string, limit: nat): (n: nat)
    ensures n <= limit && (n > 0 ==> Pending(g, s, n))
    ensures forall k :: n < k <= limit ==> !Pending(g, s, k)
  {
    if limit == 0 then 0 else if Pending(g, s, limit) then limit else LongestPending(g, s, limit - 1)
  }

  // ---------------------------------------------------------------- Push as a function

  /** What a scan emits, the mode it ends in, and where the text it holds back begins. */
  datatype Scanned = Scanned(out: string, inThink: bool, cut: nat)

  function Prepend(p: string, r: Scanned): Scanned { r.(out := p + r.out) }

  /** One iteration of the loop at position i: return, or emit `out` and go on at `to`. */
  datatype Action = Stop(last: Scanned) | Go(out: string, inThink: bool, to: nat)

  function Next(g: Grammar, inThink: bool, s: string, i: nat): (r: Action)
    requires Separated(g) && i <= |s|
    ensures if r.Go? then i < r.to <= |s| else i <= r.last.cut <= |s|
  {
    if inThink then NextThink(g, s, i) else NextPlain(g, s, i)
  }

  function NextThink(g: Grammar, s: string, i: nat): (r: Action)
    requires Separated(g) && i <= |s|
    ensures if r.Go? then i < r.to <= |s| else i <= r.last.cut <= |s|
  {
    var end := Index(s, g.closer, i);
    if end < 0 then Stop(Scanned("", true, Max(i, |s| - (|g.closer| - 1)))) else Go("", false, end + |g.closer|)
  }

  function NextPlain(g: Grammar, s: string, i: nat): (r: Action)
    requires Separated(g) && i <= |s|
    ensures if r.Go? then i < r.to <= |s| else i <= r.last.cut <= |s|
  {
    match FirstMarker(g, s, i)
    case NoMarker =>
      var cut := |s| - LongestPending(g, s, |s| - i);
      Stop(Scanned(s[i..cut], false, cut))
    case Found(pos, j) =>
      if pos > i then Go(s[i..pos], false, pos) else Consume(g, s, i, j)
  }

  /** The switch on a marker that starts at position i. */
  function Consume(g: Grammar, s: string, i: nat, j: nat): (r: Action)
    requires Separated(g) && j < |g.markers| && At(g.markers[j].text, s, i)
    ensures if r.Go? then i < r.to <= |s| else i <= r.last.cut <= |s|
  {
    var m := g.markers[j];
    match m.kind
    case Think => Go("", true, i + |m.text|)
    case Boundary => Go("", false, i + |m.text|)
    case Tag =>
      var end := Index(s, g.bracket, i + |m.text|);
      if end < 0 then Stop(Scanned("", false, i)) else Go("", false, end + |g.bracket|)
  }

  /** The loop of Push from position i on. */
  ghost function Scan(g: Grammar, inThink: bool, s: string, i: nat): (r: Scanned)
    requires Separated(g) && i <= |s|
    ensures i <= r.cut <= |s|
    decreases |s| - i
  {
    match Next(g, inThink, s, i)
    case Stop(last) => last
    case Go(out, t, to) => Prepend(out, Scan(g, t, s, to))
  }

  lemma PrependPrepend(a: string, b: string, r: Scanned)
    ensures Prepend(a, Prepend(b, r)) == Prepend(a + b, r)
  {
    assert a + (b + r.out) == (a + b) + r.out;
  }

  lemma PrependNothing(r: Scanned)
    ensures Prepend("", r) == r
  {
    assert "" + r.out == r.out;
  }

  // ---------------------------------------------------------------- the same position in a longer text

  lemma AtPrefix(p: string, x: string, s: string, i: int)
    requires x <= s && i + |p| <= |x|
    ensures At(p, x, i) <==> At(p, s, i)
  {
    if 0 <= i { assert x[i..i + |p|] == s[i..i + |p|]; }
  }

  lemma MarkerAtIntro(g: Grammar, s: string, i: int, j: nat)
    requires j < |g.markers| && At(g.markers[j].text, s, i)
    ensures MarkerAt(g, s, i)
  {
  }

  lemma MarkerAtElim(g: Grammar, s: string, i: int) returns (j: nat)
    requires Separated(g) && MarkerAt(g, s, i)
    ensures j < |g.markers| && At(g.markers[j].text, s, i) && |g.markers[j].text| > 0
  {
    j :| j < |g.markers| && At(g.markers[j].text, s, i);
  }

  /** Markers that do not nest in the table do not nest in a text either. */
  lemma MarkersDoNotNest(g: Grammar, s: string, i: int, j: nat, i2: int, j2: nat)
    requires Separated(g) && j < |g.markers| && j2 < |g.markers|
    requires At(g.markers[j].text, s, i) && At(g.markers[j2].text, s, i2)
    requires i <= i2 && i2 + |g.markers[j2].text| <= i + |g.markers[j].text|
    ensures i == i2 && j == j2
  {
    var m, m2, d := g.markers[j].text, g.markers[j2].text, i2 - i;
    assert s[i2..i2 + |m2|] == s[i..i + |m|][d..d + |m2|];
    assert At(m2, m, d);
  }

  lemma MarkerUnique(g: Grammar, s: string, i: int, j: nat, j2: nat)
    requires Separated(g) && j < |g.markers| && j2 < |g.markers|
    requires At(g.markers[j].text, s, i) && At(g.markers[j2].text, s, i)
    ensures j == j2
  {
    if |g.markers[j2].text| <= |g.markers[j].text| { MarkersDoNotNest(g, s, i, j, i, j2); }
    else { MarkersDoNotNest(g, s, i, j2, i, j); }
  }

  lemma IndexPrefix(p: string, x: string, s: string, from: nat)
    requires x <= s && Index(x, p, from) >= 0
    ensures Index(s, p, from) == Index(x, p, from)
  {
    hide At;
    var e, r := Index(x, p, from), Index(s, p, from);
    AtPrefix(p, x, s, e);
    if r < e { AtPrefix(p, x, s, r); }
  }

  lemma FirstMarkerPrefix(g: Grammar, x: string, s: string, from: nat)
    requires Separated(g) && x <= s && FirstMarker(g, x, from).Found?
    ensures FirstMarker(g, s, from) == FirstMarker(g, x, from)
  {
    hide At, MarkerAt, Separated;
    var q, r := FirstMarker(g, x, from), FirstMarker(g, s, from);
    AtPrefix(g.markers[q.which].text, x, s, q.pos);
    MarkerAtIntro(g, s, q.pos, q.which);
    assert r.Found? && r.pos <= q.pos;
    if r.pos + |g.markers[r.which].text| <= |x| {
      AtPrefix(g.markers[r.which].text, x, s, r.pos);
      MarkerAtIntro(g, x, r.pos, r.which);
    } else {
      MarkersDoNotNest(g, s, r.pos, r.which, q.pos, q.which);
    }
    MarkerUnique(g, s, r.pos, r.which, q.which);
  }

  /** Where the search starts does not matter if nothing is skipped. */
  lemma FirstMarkerLater(g: Grammar, s: string, i: nat, k: nat)
    requires Separated(g) && i <= k && forall q :: i <= q < k ==> !MarkerAt(g, s, q)
    ensures FirstMarker(g, s, i) == FirstMarker(g, s, k)
  {
    hide At, MarkerAt, Separated;
    var a, b := FirstMarker(g, s, i), FirstMarker(g, s, k);
    if a.Found? { MarkerAtIntro(g, s, a.pos, a.which); }
    if b.Found? { MarkerAtIntro(g, s, b.pos, b.which); }
    if a.Found? && b.Found? { MarkerUnique(g, s, a.pos, a.which, b.which); }
  }

  /** A marker of s that starts in its prefix x but is not complete there leaves a pending suffix in x. */
  lemma StraddlePending(g: Grammar, x: string, s: string, i: nat, j: nat)
    requires x <= s && j < |g.markers| && i < |x| < i + |g.markers[j].text| && At(g.markers[j].text, s, i)
    ensures Pending(g, x, |x| - i)
  {
    var n := |x| - i;
    var m := g.markers[j].text;
    assert x[i..i + n] == s[i..i + |m|][..n];
    assert At(m[..n], x, |x| - n);
  }

  /** If s ends in a pending prefix that reaches back into its prefix x, then so does x. */
  lemma PendingCut(g: Grammar, x: string, s: string, k: nat)
    requires x <= s && |s| - |x| < k && Pending(g, s, k)
    ensures Pending(g, x, k - (|s| - |x|))
  {
    var n, i := k - (|s| - |x|), |s| - k;
    var j: int :| 0 <= j < |g.markers| && k < |g.markers[j].text| && At(g.markers[j].text[..k], s, i);
    var m := g.markers[j].text;
    assert x[i..i + n] == s[i..i + k][..n] == m[..k][..n] == m[..n];
    assert At(m[..n], x, |x| - n);
  }

  // ---------------------------------------------------------------- where the input is cut does not matter

  /** An iteration that does not stop does the same when more input follows. */
  lemma NextPrefix(g: Grammar, t: bool, x: string, s: string, i: nat)
    requires Separated(g) && x <= s && i <= |x| && Next(g, t, x, i).Go?
    ensures Next(g, t, s, i) == Next(g, t, x, i)
  {
    hide At, MarkerAt, Separated, Pending;
    if t {
      IndexPrefix(g.closer, x, s, i);
    } else {
      FirstMarkerPrefix(g, x, s, i);
      var q := FirstMarker(g, x, i);
      if q.pos > i {
        assert s[i..q.pos] == x[i..q.pos];
      } else if g.markers[q.which].kind.Tag? {
        IndexPrefix(g.bracket, x, s, i + |g.markers[q.which].text|);
      }
    }
  }

  /** Inside a think block, what is held back is enough to recognise the closer later. */
  lemma ResumeThink(g: Grammar, x: string, s: string, i: nat)
    requires Separated(g) && x <= s && i <= |x| && Next(g, true, x, i).Stop?
    ensures Scan(g, true, s, i) == Scan(g, true, s, Next(g, true, x, i).last.cut)
  {
    hide At, MarkerAt, Separated, Pending;
    var cut := Next(g, true, x, i).last.cut;
    forall k | i <= k < cut ensures !At(g.closer, s, k) {
      if At(g.closer, s, k) { AtPrefix(g.closer, x, s, k); }
    }
    assert Index(s, g.closer, i) == Index(s, g.closer, cut);
  }

  /** With no complete marker in x, every marker of s starts in the suffix of x that is held back. */
  lemma HeldBackSuffices(g: Grammar, x: string, s: string, i: nat, k: nat)
    requires Separated(g) && x <= s && i <= k && FirstMarker(g, x, i).NoMarker? && i <= |x| && MarkerAt(g, s, k)
    ensures k >= |x| - LongestPending(g, x, |x| - i)
  {
    hide At, MarkerAt, Separated, Pending;
    var j := MarkerAtElim(g, s, k);
    if k + |g.markers[j].text| <= |x| {
      AtPrefix(g.markers[j].text, x, s, k);
      MarkerAtIntro(g, x, k, j);
    } else if k < |x| {
      StraddlePending(g, x, s, k, j);
    }
  }

  /** What is still pending at the end of s was already held back at the end of its prefix x. */
  lemma PendingLater(g: Grammar, x: string, s: string, i: nat)
    requires x <= s && i <= |x|
    ensures LongestPending(g, s, |s| - i) == LongestPending(g, s, |s| - (|x| - LongestPending(g, x, |x| - i)))
  {
    hide At, Pending;
    var n := LongestPending(g, x, |x| - i);
    var k, k' := LongestPending(g, s, |s| - i), LongestPending(g, s, |s| - (|x| - n));
    if k > |s| - (|x| - n) { PendingCut(g, x, s, k); }
  }

  /** Visible text in front of the first marker is emitted unchanged. */
  lemma ScanVisible(g: Grammar, s: string, i: nat, cut: nat)
    requires Separated(g) && i <= cut && FirstMarker(g, s, i).Found?
    requires FirstMarker(g, s, i) == FirstMarker(g, s, cut)
    ensures Scan(g, false, s, i) == Prepend(s[i..cut], Scan(g, false, s, cut))
  {
    hide At, MarkerAt, Separated, Pending, Consume;
    var pos := FirstMarker(g, s, i).pos;
    PrependNothing(Scan(g, false, s, cut));
    if i == cut {
    } else if pos == cut {
    } else {
      PrependPrepend(s[i..cut], s[cut..pos], Scan(g, false, s, pos));
      assert s[i..pos] == s[i..cut] + s[cut..pos];
    }
  }

  lemma QuietEnd(g: Grammar, s: string, i: nat)
    requires Separated(g) && i <= |s| && FirstMarker(g, s, i).NoMarker?
    ensures var c := |s| - LongestPending(g, s, |s| - i);
            i <= c && Scan(g, false, s, i) == Scanned(s[i..c], false, c)
  {
    hide At, MarkerAt, Separated, Pending, Consume, FirstMarker, LongestPending, Index, NextThink;
  }

  lemma SliceConcat(s: string, i: nat, m: nat, k: nat)
    requires i <= m <= k <= |s|
    ensures s[i..k] == s[i..m] + s[m..k]
  {
  }

  lemma ScanQuiet(g: Grammar, s: string, i: nat, cut: nat)
    requires Separated(g) && i <= cut <= |s|
    requires LongestPending(g, s, |s| - i) == LongestPending(g, s, |s| - cut)
    requires FirstMarker(g, s, i).NoMarker? && FirstMarker(g, s, cut).NoMarker?
    ensures Scan(g, false, s, i) == Prepend(s[i..cut], Scan(g, false, s, cut))
  {
    hide *;
    QuietEnd(g, s, i);
    QuietEnd(g, s, cut);
    SliceConcat(s, i, cut, |s| - LongestPending(g, s, |s| - i));
    PrependDef(s[i..cut], Scan(g, false, s, cut));
  }

  lemma PrependDef(p: string, r: Scanned)
    ensures Prepend(p, r) == Scanned(p + r.out, r.inThink, r.cut)
  {
  }

  /** Outside a think block with no complete marker, the kept suffix decides everything later. */
  lemma ResumePlain(g: Grammar, x: string, s: string, i: nat)
    requires Separated(g) && x <= s && i <= |x| && FirstMarker(g, x, i).NoMarker?
    ensures var cut := |x| - LongestPending(g, x, |x| - i);
            i <= cut && Scan(g, false, s, i) == Prepend(x[i..cut], Scan(g, false, s, cut))
  {
    hide At, MarkerAt, Separated, Pending, Consume, Scan;
    var cut := |x| - LongestPending(g, x, |x| - i);
    forall k | i <= k < cut ensures !MarkerAt(g, s, k) {
      if MarkerAt(g, s, k) { HeldBackSuffices(g, x, s, i, k); }
    }
    FirstMarkerLater(g, s, i, cut);
    assert x[i..cut] == s[i..cut];
    if FirstMarker(g, s, cut).Found? {
      ScanVisible(g, s, i, cut);
    } else {
      PendingLater(g, x, s, i);
      ScanQuiet(g, s, i, cut);
    }
  }

  lemma ScanNext(g: Grammar, t: bool, s: string, i: nat)
    requires Separated(g) && i <= |s|
    ensures Scan(g, t, s, i) ==
            match Next(g, t, s, i) case Stop(last) => last case Go(out, t', to) => Prepend(out, Scan(g, t', s, to))
  {
    hide At, Separated, MarkerAt, Next;
  }

  /** Scanning s is scanning its prefix x and then going on from what that held back. */
  lemma {:induction false} ScanSplit(g: Grammar, t: bool, x: string, s: string, i: nat)
    requires Separated(g) && x <= s && i <= |x|
    ensures Scan(g, t, s, i) ==
            var a := Scan(g, t, x, i);
            Prepend(a.out, Scan(g, a.inThink, s, a.cut))
    decreases |x| - i
  {
    hide At, MarkerAt, Separated, Pending, Scan, Prepend, FirstMarker, Index, LongestPending;
    ScanNext(g, t, x, i);
    ScanNext(g, t, s, i);
    if Next(g, t, x, i).Go? {
      hide Next;
      var n := Next(g, t, x, i);
      NextPrefix(g, t, x, s, i);
      ScanSplit(g, n.inThink, x, s, n.to);
      var b := Scan(g, n.inThink, x, n.to);
      PrependPrepend(n.out, b.out, Scan(g, b.inThink, s, b.cut));
      PrependDef(n.out, b);
    } else {
      hide Consume;
      StopSplit(g, t, x, s, i);
    }
  }

  lemma StopSplit(g: Grammar, t: bool, x: string, s: string, i: nat)
    requires Separated(g) && x <= s && i <= |x| && Next(g, t, x, i).Stop?
    ensures var a := Next(g, t, x, i).last;
            Scan(g, t, s, i) == Prepend(a.out, Scan(g, a.inThink, s, a.cut))
  {
    hide At, MarkerAt, Separated, Pending, Scan, Prepend, FirstMarker, Index, LongestPending;
    var a := Next(g, t, x, i).last;
    PrependNothing(Scan(g, a.inThink, s, a.cut));
    if t {
      ResumeThink(g, x, s, i);
    } else if FirstMarker(g, x, i).NoMarker? {
      ResumePlain(g, x, s, i);
    }
  }

  // ---------------------------------------------------------------- dropping text that is already consumed

  lemma AtSuffix(p: string, s: string, k: nat, i: nat)
    requires k <= |s|
    ensures At(p, s[k..], i) <==> At(p, s, k + i)
  {
    if k + i + |p| <= |s| { assert s[k..][i..i + |p|] == s[k + i..k + i + |p|]; }
  }

  lemma IndexSuffix(p: string, s: string, k: nat, i: nat)
    requires k + i <= |s|
    ensures Index(s, p, k + i) == if Index(s[k..], p, i) < 0 then -1 else k + Index(s[k..], p, i)
  {
    hide At;
    var r, q := Index(s, p, k + i), Index(s[k..], p, i);
    if r >= 0 { AtSuffix(p, s, k, r - k); }
    if q >= 0 { AtSuffix(p, s, k, q); }
  }

  lemma FirstMarkerSuffix(g: Grammar, s: string, k: nat, i: nat)
    requires Separated(g) && k + i <= |s|
    ensures FirstMarker(g, s, k + i) ==
            match FirstMarker(g, s[k..], i) case NoMarker => NoMarker case Found(p, j) => Found(k + p, j)
  {
    hide At, MarkerAt, Separated;
    var r, q := FirstMarker(g, s, k + i), FirstMarker(g, s[k..], i);
    if r.Found? {
      AtSuffix(g.markers[r.which].text, s, k, r.pos - k);
      MarkerAtIntro(g, s[k..], r.pos - k, r.which);
    }
    if q.Found? {
      AtSuffix(g.markers[q.which].text, s, k, q.pos);
      MarkerAtIntro(g, s, k + q.pos, q.which);
      MarkerUnique(g, s, r.pos, r.which, q.which);
    }
  }

  lemma PendingSuffix(g: Grammar, s: string, k: nat, n: nat)
    requires k + n <= |s|
    ensures Pending(g, s[k..], n) <==> Pending(g, s, n)
  {
    if n >= 1 {
      forall j | 0 <= j < |g.markers| && n < |g.markers[j].text|
        ensures At(g.markers[j].text[..n], s[k..], |s| - k - n) <==> At(g.markers[j].text[..n], s, |s| - n)
      {
        AtSuffix(g.markers[j].text[..n], s, k, |s| - k - n);
      }
    }
  }

  lemma {:induction false} LongestPendingSuffix(g: Grammar, s: string, k: nat, limit: nat)
    requires k + limit <= |s|
    ensures LongestPending(g, s[k..], limit) == LongestPending(g, s, limit)
  {
    hide Pending;
    if limit > 0 {
      PendingSuffix(g, s, k, limit);
      LongestPendingSuffix(g, s, k, limit - 1);
    }
  }

  function Shift(r: Scanned, k: nat): Scanned { r.(cut := k + r.cut) }

  function ShiftAction(a: Action, k: nat): Action {
    match a case Stop(last) => Stop(Shift(last, k)) case Go(out, t, to) => Go(out, t, k + to)
  }

  lemma ConsumeSuffix(g: Grammar, s: string, k: nat, i: nat, j: nat)
    requires Separated(g) && k <= |s| && j < |g.markers|
    requires At(g.markers[j].text, s, k + i) && At(g.markers[j].text, s[k..], i)
    ensures Consume(g, s, k + i, j) == ShiftAction(Consume(g, s[k..], i, j), k)
  {
    hide At, MarkerAt, Separated;
    IndexSuffix(g.bracket, s, k, i + |g.markers[j].text|);
  }

  lemma NextPlainSuffix(g: Grammar, s: string, k: nat, i: nat)
    requires Separated(g) && k + i <= |s|
    ensures NextPlain(g, s, k + i) == ShiftAction(NextPlain(g, s[k..], i), k)
  {
    hide At, MarkerAt, Separated, Pending, Consume, FirstMarker, Index, LongestPending;
    FirstMarkerSuffix(g, s, k, i);
    var q := FirstMarker(g, s[k..], i);
    if q.NoMarker? {
      LongestPendingSuffix(g, s, k, |s| - k - i);
      var c := |s| - k - LongestPending(g, s[k..], |s| - k - i);
      assert s[k..][i..c] == s[k + i..k + c];
    } else if q.pos > i {
      assert s[k..][i..q.pos] == s[k + i..k + q.pos];
    } else {
      ConsumeSuffix(g, s, k, i, q.which);
    }
  }

  lemma NextSuffix(g: Grammar, t: bool, s: string, k: nat, i: nat)
    requires Separated(g) && k + i <= |s|
    ensures Next(g, t, s, k + i) == ShiftAction(Next(g, t, s[k..], i), k)
  {
    hide At, Separated, NextPlain;
    if t { IndexSuffix(g.closer, s, k, i); } else { NextPlainSuffix(g, s, k, i); }
  }

  lemma {:induction false} ScanSuffix(g: Grammar, t: bool, s: string, k: nat, i: nat)
    requires Separated(g) && k + i <= |s|
    ensures Scan(g, t, s, k + i) == Shift(Scan(g, t, s[k..], i), k)
    decreases |s| - k - i
  {
    hide At, MarkerAt, Separated, Pending, Next;
    NextSuffix(g, t, s, k, i);
    var n := Next(g, t, s[k..], i);
    if n.Go? { ScanSuffix(g, n.inThink, s, k, n.to); }
  }

  // ---------------------------------------------------------------- Push and whole runs

  datatype State = State(inThink: bool, carry: string)

  const INIT := State(false, "")

  datatype Step = Step(out: string, state: State)

  /** One call of Push. */
  ghost function Feed(g: Grammar, st: State, delta: string): Step
    requires Separated(g)
  {
    if delta == "" then Step("", st)
    else
      var input := st.carry + delta;
      var r := Scan(g, st.inThink, input, 0);
      Step(r.out, State(r.inThink, input[r.cut..]))
  }

  /** One call of Push per chunk, and everything they emit. */
  ghost function FeedAll(g: Grammar, st: State, chunks: seq<string>): Step
    requires Separated(g)
    decreases |chunks|
  {
    if chunks == [] then Step("", st)
    else
      var first := Feed(g, st, chunks[0]);
      var rest := FeedAll(g, first.state, chunks[1..]);
      Step(first.out + rest.out, rest.state)
  }

  /** Chunk invariance: for every state, pushing d1 and then d2 is pushing d1 + d2. */
  lemma ChunkInvariance(g: Grammar, st: State, d1: string, d2: string)
    requires Separated(g)
    ensures var a := Feed(g, st, d1);
            var b := Feed(g, a.state, d2);
            Feed(g, st, d1 + d2) == Step(a.out + b.out, b.state)
  {
    hide Separated, Scan;
    var a := Feed(g, st, d1);
    if d1 == "" {
      assert d1 + d2 == d2;
      assert a.out + Feed(g, st, d2).out == Feed(g, st, d2).out;
    } else {
      var x, s := st.carry + d1, st.carry + (d1 + d2);
      assert s == x + d2;
      var r := Scan(g, st.inThink, x, 0);
      ScanSplit(g, st.inThink, x, s, 0);
      if d2 == "" {
        assert s == x && d1 + d2 == d1;
        assert a.out + "" == a.out;
      } else {
        ScanSuffix(g, r.inThink, s, r.cut, 0);
        assert x[r.cut..] + d2 == s[r.cut..];
        var q := Scan(g, r.inThink, s[r.cut..], 0);
        assert s[r.cut..][q.cut..] == s[r.cut + q.cut..];
      }
    }
  }

  lemma {:induction false} RunIsOnePush(g: Grammar, st: State, chunks: seq<string>)
    requires Separated(g)
    ensures FeedAll(g, st, chunks) == Feed(g, st, Concat(chunks))
    decreases |chunks|
  {
    hide Separated, Scan;
    if chunks != [] {
      var first := Feed(g, st, chunks[0]);
      RunIsOnePush(g, first.state, chunks[1..]);
      ChunkInvariance(g, st, chunks[0], Concat(chunks[1..]));
    }
  }

  /** The output of a stream and the state it leaves do not depend on where the stream was cut. */
  lemma CutsDoNotMatter(g: Grammar, st: State, chunks: seq<string>, chunks': seq<string>)
    requires Separated(g) && Concat(chunks) == Concat(chunks')
    ensures FeedAll(g, st, chunks) == FeedAll(g, st, chunks')
  {
    RunIsOnePush(g, st, chunks);
    RunIsOnePush(g, st, chunks');
  }

  // ---------------------------------------------------------------- the reference tokenizer

  /** How a text ends: in plain text, inside an unclosed think block, or inside an unclosed tag. */
  datatype Tail = Closed | OpenThink(start: nat) | OpenTag(start: nat)

  datatype Parsed = Parsed(visible: string, tail: Tail)

  function Show(p: string, r: Parsed): Parsed { r.(visible := p + r.visible) }

  /** Reads the text from position i one symbol at a time: a token that starts here is deleted up to
      the first occurrence of what closes it, any other symbol is visible. */
  function Reference(g: Grammar, s: string, i: nat): Parsed
    requires Separated(g) && i <= |s|
    decreases |s| - i
  {
    if i == |s| then Parsed("", Closed)
    else if MarkerAt(g, s, i) then
      var m := g.markers[Which(g, s, i, 0)];
      var after := i + |m.text|;
      match m.kind
      case Boundary => Reference(g, s, after)
      case Think =>
        var e := Index(s, g.closer, after);
        if e < 0 then Parsed("", OpenThink(after)) else Reference(g, s, e + |g.closer|)
      case Tag =>
        var e := Index(s, g.bracket, after);
        if e < 0 then Parsed("", OpenTag(i)) else Reference(g, s, e + |g.bracket|)
    else Show([s[i]], Reference(g, s, i + 1))
  }

  lemma ReferencePlain(g: Grammar, s: string, i: nat)
    requires Separated(g) && i < |s| && !MarkerAt(g, s, i)
    ensures Reference(g, s, i) == Show([s[i]], Reference(g, s, i + 1))
  {
    hide At, MarkerAt, Separated;
  }

  lemma ReferenceEmpty(g: Grammar, s: string)
    requires Separated(g)
    ensures Reference(g, s, |s|) == Parsed("", Closed)
  {
    hide At, MarkerAt, Separated;
  }

  /** Symbols before the next marker are all visible. */
  lemma {:induction false} ReferenceVisible(g: Grammar, s: string, i: nat, k: nat)
    requires Separated(g) && i <= k <= |s| && forall q :: i <= q < k ==> !MarkerAt(g, s, q)
    ensures Reference(g, s, i) == Show(s[i..k], Reference(g, s, k))
    decreases k - i
  {
    hide At, MarkerAt, Separated, Reference;
    var r := Reference(g, s, k);
    if i == k {
      assert "" + r.visible == r.visible;
    } else {
      ReferenceVisible(g, s, i + 1, k);
      ReferencePlain(g, s, i);
      assert [s[i]] + s[i + 1..k] == s[i..k];
      assert [s[i]] + (s[i + 1..k] + r.visible) == [s[i]] + s[i + 1..k] + r.visible;
    }
  }

  /** What a scan that began outside a think block must look like next to the reference. */
  ghost predicate Agrees(g: Grammar, s: string, r: Scanned, v: Parsed)
    requires r.cut <= |s|
  {
    match v.tail
    case Closed =>
      && !r.inThink && r.out + s[r.cut..] == v.visible
      && !MarkerAt(g, s, r.cut) && (r.cut < |s| ==> Pending(g, s, |s| - r.cut))
    case OpenTag(p) =>
      !r.inThink && r.out == v.visible && r.cut == p
    case OpenThink(p) =>
      r.inThink && r.out == v.visible && p <= r.cut && |s| - r.cut < |g.closer|
  }

  lemma MarkerStartsInside(g: Grammar, s: string, i: int)
    requires Separated(g) && MarkerAt(g, s, i)
    ensures i < |s|
  {
    hide At, Separated;
    var j := MarkerAtElim(g, s, i);
  }

  lemma AgreesPrepend(g: Grammar, s: string, p: string, r: Scanned, v: Parsed)
    requires r.cut <= |s| && Agrees(g, s, r, v)
    ensures Agrees(g, s, Prepend(p, r), Show(p, v))
  {
    hide Pending;
    assert p + (r.out + s[r.cut..]) == p + r.out + s[r.cut..];
  }

  lemma ReferenceAtMarker(g: Grammar, s: string, i: nat)
    requires Separated(g) && FirstMarker(g, s, i).Found? && FirstMarker(g, s, i).pos == i
    ensures MarkerAt(g, s, i) && Which(g, s, i, 0) == FirstMarker(g, s, i).which
  {
    hide Separated, At;
    var q := FirstMarker(g, s, i);
    MarkerAtIntro(g, s, i, q.which);
    MarkerUnique(g, s, i, q.which, Which(g, s, i, 0));
  }

  /** Push refines the reference: what it emits is the visible text, minus exactly what it holds back. */
  lemma {:induction false} ScanAgrees(g: Grammar, s: string, i: nat)
    requires Separated(g) && i <= |s|
    ensures Agrees(g, s, Scan(g, false, s, i), Reference(g, s, i))
    decreases |s| - i
  {
    hide At, MarkerAt, Separated, Pending, FirstMarker, Index;
    match FirstMarker(g, s, i)
    case NoMarker =>
      QuietEnd(g, s, i);
      ReferenceVisible(g, s, i, |s|);
      var c := |s| - LongestPending(g, s, |s| - i);
      SliceConcat(s, i, c, |s|);
      if MarkerAt(g, s, c) { MarkerStartsInside(g, s, c); }
      hide Scan, Next, LongestPending;
      ReferenceEnd(g, s, i);
    case Found(pos, j) =>
      if pos > i {
        ScanAgrees(g, s, pos);
        ReferenceVisible(g, s, i, pos);
        AgreesPrepend(g, s, s[i..pos], Scan(g, false, s, pos), Reference(g, s, pos));
      } else {
        ReferenceAtMarker(g, s, i);
        ScanAgreesAtMarker(g, s, i);
      }
  }

  lemma ReferenceEnd(g: Grammar, s: string, i: nat)
    requires Separated(g) && i <= |s| && Reference(g, s, i) == Show(s[i..|s|], Reference(g, s, |s|))
    ensures Reference(g, s, i) == Parsed(s[i..], Closed)
  {
    hide At, MarkerAt, Separated, Reference;
    ReferenceEmpty(g, s);
    assert s[i..|s|] + "" == s[i..];
  }

  lemma {:induction false} ScanAgreesAtMarker(g: Grammar, s: string, i: nat)
    requires Separated(g) && i < |s| && FirstMarker(g, s, i).Found? && FirstMarker(g, s, i).pos == i
    requires MarkerAt(g, s, i) && Which(g, s, i, 0) == FirstMarker(g, s, i).which
    ensures Agrees(g, s, Scan(g, false, s, i), Reference(g, s, i))
    decreases |s| - i, -1
  {
    hide At, MarkerAt, Separated, Pending, FirstMarker, Index, Scan, LongestPending;
    var m := g.markers[FirstMarker(g, s, i).which];
    StepToken(g, s, i, FirstMarker(g, s, i).which);
    hide Next;
    var n := Consume(g, s, i, FirstMarker(g, s, i).which);
    if m.kind.Think? {
      StepThink(g, s, n.to);
      var end := Index(s, g.closer, n.to);
      if end >= 0 { ScanAgrees(g, s, end + |g.closer|); }
    } else if n.Go? {
      ScanAgrees(g, s, n.to);
    }
  }

  // ---------------------------------------------------------------- as much as possible is emitted

  /** What has been emitted stays visible whatever comes next. */
  lemma EmittedStaysVisible(g: Grammar, s: string, y: string)
    requires Separated(g)
    ensures Scan(g, false, s, 0).out <= Reference(g, s + y, 0).visible
  {
    hide At, MarkerAt, Separated, Pending, Scan, Reference;
    ScanSplit(g, false, s, s + y, 0);
    ScanAgrees(g, s + y, 0);
  }

  /** What is held back can still turn out to be invisible: some continuation shows nothing more. */
  lemma HeldBackCanVanish(g: Grammar, s: string) returns (y: string)
    requires Separated(g)
    ensures Reference(g, s + y, 0).visible == Scan(g, false, s, 0).out
  {
    hide At, Separated, Scan, Reference;
    ScanAgrees(g, s, 0);
    var r := Scan(g, false, s, 0);
    assert s + "" == s;
    y := "";
    if Reference(g, s, 0).tail.Closed? && r.cut < |s| {
      var n := |s| - r.cut;
      var j: int :| 0 <= j < |g.markers| && n < |g.markers[j].text| && At(g.markers[j].text[..n], s, r.cut);
      y := g.markers[j].text[n..];
      CompletedIsHidden(g, s, j, n);
    }
  }

  lemma CompletedAt(m: string, s: string, n: nat)
    requires n <= |m| && n <= |s| && At(m[..n], s, |s| - n)
    ensures At(m, s + m[n..], |s| - n)
  {
    var s', i := s + m[n..], |s| - n;
    assert s[i..i + n] == m[..n];
    assert s'[i..i + |m|] == m[..n] + m[n..] == m;
  }

  /** Completing the held-back prefix of marker j turns it into a token with nothing visible in it. */
  lemma CompletedIsHidden(g: Grammar, s: string, j: nat, n: nat)
    requires Separated(g) && j < |g.markers| && 0 < n < |g.markers[j].text| && n <= |s|
    requires At(g.markers[j].text[..n], s, |s| - n)
    requires Scan(g, false, s, 0).cut == |s| - n && !Scan(g, false, s, 0).inThink
    ensures Reference(g, s + g.markers[j].text[n..], 0).visible == Scan(g, false, s, 0).out
  {
    hide Separated, Reference, MarkerAt, Pending;
    var r := Scan(g, false, s, 0);
    var m := g.markers[j].text;
    var s' := s + m[n..];
    CompletedAt(m, s, n);
    MarkerAtIntro(g, s', r.cut, j);
    hide At, Scan;
    ScanSplit(g, false, s, s', 0);
    ScanAgrees(g, s', 0);
    LoneMarkerEmitsNothing(g, s', r.cut, j);
  }

  lemma NothingAtEnd(g: Grammar, s: string, t: bool)
    requires Separated(g)
    ensures Scan(g, t, s, |s|) == Scanned("", t, |s|)
    ensures Index(s, g.bracket, |s|) < 0
  {
  }

  lemma LoneMarkerEmitsNothing(g: Grammar, s: string, i: nat, j: nat)
    requires Separated(g) && j < |g.markers| && At(g.markers[j].text, s, i) && i + |g.markers[j].text| == |s| && i < |s|
    ensures var r := Scan(g, false, s, i); r.out == "" && (r.cut == |s| || r.cut == i)
  {
    hide Separated, MarkerAt, At, Pending;
    MarkerAtIntro(g, s, i, j);
    MarkerUnique(g, s, i, j, FirstMarker(g, s, i).which);
    NothingAtEnd(g, s, true);
    NothingAtEnd(g, s, false);
    hide FirstMarker;
    PrependNothing(Scan(g, true, s, |s|));
    PrependNothing(Scan(g, false, s, |s|));
  }

  // ---------------------------------------------------------------- the program's own table

  lemma AtIndex(p: string, s: string, i: int, k: nat)
    requires At(p, s, i) && k < |p|
    ensures p[k] == s[i + k]
  {
    assert s[i..i + |p|][k] == s[i + k];
  }

  /** Comparing the first three symbols is enough to tell the entries apart at every offset. */
  lemma TableCase(j: nat, j2: nat, d: nat)
    requires j < |GRAMMAR.markers| && j2 < |GRAMMAR.markers|
    requires d + |GRAMMAR.markers[j2].text| <= |GRAMMAR.markers[j].text|
    requires forall k :: 0 <= k < 3 ==> GRAMMAR.markers[j2].text[k] == GRAMMAR.markers[j].text[d + k]
    ensures d == 0 && j == j2
  {
    var m, m2 := GRAMMAR.markers[j].text, GRAMMAR.markers[j2].text;
    assert m2[0] == m[d] && m2[1] == m[d + 1] && m2[2] == m[d + 2];
  }

  lemma GrammarSeparated()
    ensures Separated(GRAMMAR)
  {
    forall j, j2, d | 0 <= j < |GRAMMAR.markers| && 0 <= j2 < |GRAMMAR.markers|
                      && At(GRAMMAR.markers[j2].text, GRAMMAR.markers[j].text, d)
      ensures d == 0 && j == j2
    {
      hide At;
      var m, m2 := GRAMMAR.markers[j].text, GRAMMAR.markers[j2].text;
      forall k | 0 <= k < 3 ensures m2[k] == m[d + k] { AtIndex(m2, m, d, k); }
      TableCase(j, j2, d);
    }
  }

  // ---------------------------------------------------------------- whole runs of the program

  ghost predicate ProperPrefix(g: Grammar, c: string) {
    exists j {:trigger g.markers[j].text[..|c|]} ::
      0 <= j < |g.markers| && |c| < |g.markers[j].text| && g.markers[j].text[..|c|] == c
  }

  /** What a run has emitted and kept, next to the reference on its whole input. */
  ghost predicate Refines(g: Grammar, text: string, r: Step)
    requires Separated(g)
  {
    var v := Reference(g, text, 0);
    var carry := r.state.carry;
    match v.tail
    case Closed => !r.state.inThink && r.out + carry == v.visible && (carry != "" ==> ProperPrefix(g, carry))
    case OpenTag(p) => !r.state.inThink && r.out == v.visible && p <= |text| && carry == text[p..]
    case OpenThink(p) =>
      && r.state.inThink && r.out == v.visible
      && |carry| < |g.closer| && p + |carry| <= |text| && carry == text[|text| - |carry|..]
  }

  lemma PendingIsProperPrefix(g: Grammar, s: string, n: nat)
    requires Pending(g, s, n)
    ensures ProperPrefix(g, s[|s| - n..])
  {
    var j: int :| 0 <= j < |g.markers| && n < |g.markers[j].text| && At(g.markers[j].text[..n], s, |s| - n);
    assert s[|s| - n..|s| - n + n] == s[|s| - n..];
    assert g.markers[j].text[..|s[|s| - n..]|] == s[|s| - n..];
  }

  lemma RunIsOneScan(g: Grammar, chunks: seq<string>)
    requires Separated(g)
    ensures var text := Concat(chunks);
            var r := Scan(g, false, text, 0);
            FeedAll(g, INIT, chunks) == Step(r.out, State(r.inThink, text[r.cut..]))
  {
    var text := Concat(chunks);
    RunIsOnePush(g, INIT, chunks);
    hide Separated, At, MarkerAt, Scan;
    if text == "" { NothingAtEnd(g, text, false); } else { assert "" + text == text; }
  }

  /** Every run refines the reference: nothing visible is lost or reordered but the carry, nothing hidden is shown. */
  lemma RunRefinesReference(g: Grammar, chunks: seq<string>)
    requires Separated(g)
    ensures Refines(g, Concat(chunks), FeedAll(g, INIT, chunks))
  {
    hide Separated, At, MarkerAt, Scan, Pending, Reference, ProperPrefix, FeedAll, Concat;
    var text := Concat(chunks);
    RunIsOneScan(g, chunks);
    ScanAgrees(g, text, 0);
    var r := Scan(g, false, text, 0);
    if Reference(g, text, 0).tail.Closed? && r.cut < |text| {
      PendingIsProperPrefix(g, text, |text| - r.cut);
    }
  }

  /** A run has emitted exactly the text that stays visible under every continuation. */
  lemma RunEmitsAllItCan(g: Grammar, chunks: seq<string>) returns (y: string)
    requires Separated(g)
    ensures forall z :: FeedAll(g, INIT, chunks).out <= Reference(g, Concat(chunks) + z, 0).visible
    ensures Reference(g, Concat(chunks) + y, 0).visible == FeedAll(g, INIT, chunks).out
  {
    hide Separated, Scan, Reference, FeedAll, Concat;
    var text := Concat(chunks);
    RunIsOneScan(g, chunks);
    forall z ensures FeedAll(g, INIT, chunks).out <= Reference(g, text + z, 0).visible {
      EmittedStaysVisible(g, text, z);
    }
    y := HeldBackCanVanish(g, text);
  }

  /** The three results for the program's table, which holds back at most 7 symbols inside a think block. */
  lemma ProgramRuns(chunks: seq<string>, chunks': seq<string>)
    requires Concat(chunks) == Concat(chunks')
    ensures Separated(GRAMMAR)
    ensures FeedAll(GRAMMAR, INIT, chunks) == FeedAll(GRAMMAR, INIT, chunks')
    ensures Refines(GRAMMAR, Concat(chunks), FeedAll(GRAMMAR, INIT, chunks))
    ensures Reference(GRAMMAR, Concat(chunks), 0).tail.OpenThink? ==> |FeedAll(GRAMMAR, INIT, chunks).state.carry| <= 7
  {
    GrammarSeparated();
    assert |GRAMMAR.closer| == 8;
    CutsDoNotMatter(GRAMMAR, INIT, chunks, chunks');
    hide Separated, Reference, FeedAll, Concat;
    RunRefinesReference(GRAMMAR, chunks);
  }

  const TAGS := ["[status:", "[emotion:", "[system:", "[memory:", "[internal:", "[debug:"]

  ghost predicate FirstAt(p: string, s: string, from: nat, e: int) {
    from <= e && At(p, s, e) && forall k :: from <= k < e ==> !At(p, s, k)
  }

  lemma WhichIs(g: Grammar, s: string, i: nat, j: nat)
    requires Separated(g) && i < |s| && j < |g.markers| && At(g.markers[j].text, s, i)
    ensures MarkerAt(g, s, i) && Which(g, s, i, 0) == j && i + |g.markers[j].text| <= |s|
  {
    MarkerAtIntro(g, s, i, j);
    MarkerUnique(g, s, i, j, Which(g, s, i, 0));
    hide Separated, MarkerAt;
  }

  /** The tokenizer at marker j of a table. */
  lemma BoundaryAt(g: Grammar, s: string, i: nat, j: nat)
    requires Separated(g) && i < |s| && j < |g.markers| && At(g.markers[j].text, s, i) && g.markers[j].kind.Boundary?
    ensures i + |g.markers[j].text| <= |s| && Reference(g, s, i) == Reference(g, s, i + |g.markers[j].text|)
  {
    WhichIs(g, s, i, j);
    hide Separated, MarkerAt, Which, At;
  }

  lemma ThinkStep(g: Grammar, s: string, i: nat, j: nat, e: int)
    requires Separated(g) && i < |s| && MarkerAt(g, s, i) && Which(g, s, i, 0) == j && g.markers[j].kind.Think?
    requires i + |g.markers[j].text| <= |s| && Index(s, g.closer, i + |g.markers[j].text|) == e
    ensures e >= 0 ==> e + |g.closer| <= |s| && Reference(g, s, i) == Reference(g, s, e + |g.closer|)
    ensures e < 0 ==> Reference(g, s, i).visible == ""
  {
    hide Separated, MarkerAt, Which, At, Index;
  }

  lemma TagStep(g: Grammar, s: string, i: nat, j: nat, e: int)
    requires Separated(g) && i < |s| && MarkerAt(g, s, i) && Which(g, s, i, 0) == j && g.markers[j].kind.Tag?
    requires i + |g.markers[j].text| <= |s| && Index(s, g.bracket, i + |g.markers[j].text|) == e
    ensures e >= 0 ==> e + |g.bracket| <= |s| && Reference(g, s, i) == Reference(g, s, e + |g.bracket|)
    ensures e < 0 ==> Reference(g, s, i).visible == ""
  {
    hide Separated, MarkerAt, Which, At, Index;
  }

  /** Marker j of any table, hidden up to the first occurrence of what closes it, or with all that follows. */
  lemma ThinkAt(g: Grammar, s: string, i: nat, j: nat, e: int)
    requires Separated(g) && i < |s| && j < |g.markers| && At(g.markers[j].text, s, i) && g.markers[j].kind.Think?
    ensures FirstAt(g.closer, s, i + |g.markers[j].text|, e) ==>
              e + |g.closer| <= |s| && Reference(g, s, i) == Reference(g, s, e + |g.closer|)
    ensures (forall k :: i + |g.markers[j].text| <= k ==> !At(g.closer, s, k)) ==> Reference(g, s, i).visible == ""
  {
    hide *;
    WhichIs(g, s, i, j);
    FirstIndex(g.closer, s, i + |g.markers[j].text|, e);
    ThinkStep(g, s, i, j, Index(s, g.closer, i + |g.markers[j].text|));
  }

  lemma TagAt(g: Grammar, s: string, i: nat, j: nat, e: int)
    requires Separated(g) && i < |s| && j < |g.markers| && At(g.markers[j].text, s, i) && g.markers[j].kind.Tag?
    ensures FirstAt(g.bracket, s, i + |g.markers[j].text|, e) ==>
              e + |g.bracket| <= |s| && Reference(g, s, i) == Reference(g, s, e + |g.bracket|)
    ensures (forall k :: i + |g.markers[j].text| <= k ==> !At(g.bracket, s, k)) ==> Reference(g, s, i).visible == ""
  {
    hide *;
    WhichIs(g, s, i, j);
    FirstIndex(g.bracket, s, i + |g.markers[j].text|, e);
    TagStep(g, s, i, j, Index(s, g.bracket, i + |g.markers[j].text|));
  }

  lemma FirstIndex(p: string, s: string, from: nat, e: int)
    requires from <= |s|
    ensures FirstAt(p, s, from, e) ==> Index(s, p, from) == e && 0 <= e <= |s| - |p|
    ensures (forall k :: from <= k ==> !At(p, s, k)) ==> Index(s, p, from) == -1
  {
    var r := Index(s, p, from);
    hide Index;
  }

  /** The program's table, entry by entry. */
  lemma TableIs()
    ensures |GRAMMAR.markers| == 8 && GRAMMAR.closer == "</think>" && GRAMMAR.bracket == "]"
    ensures GRAMMAR.markers[0] == Marker("<think>", Think) && GRAMMAR.markers[7] == Marker("<<<MSG>>>", Boundary)
    ensures forall j :: 1 <= j < 7 ==> GRAMMAR.markers[j] == Marker(TAGS[j - 1], Tag)
  {
  }

  /** What the tokenizer does with the program's markers, spelled out: a think block is hidden up to its end, or
      altogether if it is open. */
  lemma ThinkIsHidden(s: string, i: nat, e: int)
    requires Separated(GRAMMAR) && At("<think>", s, i) && i < |s|
    ensures FirstAt("</think>", s, i + 7, e) ==>
              e + 8 <= |s| && Reference(GRAMMAR, s, i) == Reference(GRAMMAR, s, e + 8)
    ensures (forall k :: i + 7 <= k ==> !At("</think>", s, k)) ==> Reference(GRAMMAR, s, i).visible == ""
  {
    TableIs();
    hide *;
    ThinkAt(GRAMMAR, s, i, 0, e);
  }

  /** A tag is hidden up to its bracket, or with all that follows if there is none; a message boundary alone. */
  lemma TagIsHidden(s: string, i: nat, t: string, e: int)
    requires Separated(GRAMMAR) && At(t, s, i) && i < |s|
    ensures t in TAGS && FirstAt("]", s, i + |t|, e) ==>
              e + 1 <= |s| && Reference(GRAMMAR, s, i) == Reference(GRAMMAR, s, e + 1)
    ensures t in TAGS && (forall k :: i + |t| <= k ==> !At("]", s, k)) ==> Reference(GRAMMAR, s, i).visible == ""
    ensures t == "<<<MSG>>>" ==> i + 9 <= |s| && Reference(GRAMMAR, s, i) == Reference(GRAMMAR, s, i + 9)
  {
    TableIs();
    assert |TAGS| == 6;
    hide *;
    if t in TAGS {
      var j :| 0 <= j < |TAGS| && TAGS[j] == t;
      TagAt(GRAMMAR, s, i, j + 1, e);
    }
    if t == "<<<MSG>>>" { BoundaryAt(GRAMMAR, s, i, 7); }
  }

  lemma NoMarkerAt(g: Grammar, s: string, i: int)
    requires forall j :: 0 <= j < |g.markers| ==> !At(g.markers[j].text, s, i)
    ensures !MarkerAt(g, s, i)
  {
  }

  /** Every symbol at which none of these starts is shown. */
  lemma OthersAreShown(s: string, i: nat)
    requires Separated(GRAMMAR) && i < |s| && !At("<think>", s, i) && !At("<<<MSG>>>", s, i)
    requires forall t :: t in TAGS ==> !At(t, s, i)
    ensures Reference(GRAMMAR, s, i) == Show([s[i]], Reference(GRAMMAR, s, i + 1))
  {
    TableIs();
    assert |TAGS| == 6;
    forall j | 0 <= j < 8 ensures !At(GRAMMAR.markers[j].text, s, i) {
      if 1 <= j < 7 { assert TAGS[j - 1] in TAGS; }
    }
    NoMarkerAt(GRAMMAR, s, i);
    hide *;
    ReferencePlain(GRAMMAR, s, i);
  }

  // ---------------------------------------------------------------- the imperative original

  // The Go code searches input[i:]; here a search starts at position i of the input.

  /** findFirstMarker on s[from:]: a running best over the table. */
  method FindFirstMarker(g: Grammar, s: string, from: nat) returns (bestIdx: int, best: nat)
    requires Separated(g)
    ensures bestIdx == -1 <==> FirstMarker(g, s, from).NoMarker?
    ensures bestIdx != -1 ==> bestIdx >= 0 && FirstMarker(g, s, from) == Found(bestIdx, best)
  {
    hide Separated, At;
    bestIdx, best := -1, 0;
    for k := 0 to |g.markers|
      invariant bestIdx == -1 || bestIdx >= from
      invariant bestIdx == -1 ==> forall j, i :: 0 <= j < k && from <= i ==> !At(g.markers[j].text, s, i)
      invariant bestIdx >= 0 ==> best < k && At(g.markers[best].text, s, bestIdx)
      invariant bestIdx >= 0 ==> forall j, i :: 0 <= j < k && from <= i < bestIdx ==> !At(g.markers[j].text, s, i)
    {
      var idx := Index(s, g.markers[k].text, from);
      if idx < 0 { continue; }
      if bestIdx == -1 || idx < bestIdx { bestIdx, best := idx, k; }
    }
    var r := FirstMarker(g, s, from);
    if bestIdx >= 0 {
      MarkerInside(g, s, bestIdx, best);
      MarkerAtIntro(g, s, bestIdx, best);
      MarkerUnique(g, s, bestIdx, best, r.which);
    }
  }

  lemma MarkerInside(g: Grammar, s: string, i: int, j: nat)
    requires Separated(g) && j < |g.markers| && At(g.markers[j].text, s, i)
    ensures 0 <= i < |s|
  {
  }

  /** longestPrefixSuffix on s[from:]: for each marker its longest proper prefix that ends s, and the best of all. */
  method LongestPrefixSuffix(g: Grammar, s: string, from: nat) returns (maxLen: nat)
    requires from <= |s|
    ensures maxLen == LongestPending(g, s, |s| - from)
  {
    hide At;
    maxLen := 0;
    var len := |s| - from;
    for k := 0 to |g.markers|
      invariant maxLen <= len && (maxLen > 0 ==> Pending(g, s, maxLen))
      invariant forall j, n {:trigger g.markers[j].text[..n]} ::
          0 <= j < k && maxLen < n <= len && n < |g.markers[j].text| ==> !At(g.markers[j].text[..n], s, |s| - n)
    {
      var m := g.markers[k].text;
      var limit := |m| - 1;
      if limit < 1 { continue; }
      if len < limit { limit := len; }
      var n := limit;
      while n >= 1
        invariant 0 <= n <= limit
        invariant maxLen <= len && (maxLen > 0 ==> Pending(g, s, maxLen))
        invariant forall j, n {:trigger g.markers[j].text[..n]} ::
            0 <= j < k && maxLen < n <= len && n < |g.markers[j].text| ==> !At(g.markers[j].text[..n], s, |s| - n)
        invariant forall q {:trigger m[..q]} :: n < q <= limit && maxLen < q ==> !At(m[..q], s, |s| - q)
      {
        if At(m[..n], s, |s| - n) && n > maxLen {
          maxLen := n;
          break;
        }
        n := n - 1;
      }
    }
  }

  // One lemma per branch of the loop body.

  lemma StepThink(g: Grammar, s: string, i: nat)
    requires Separated(g) && i <= |s|
    ensures |g.closer| > 0
    ensures var end := Index(s, g.closer, i);
            Scan(g, true, s, i) ==
            if end < 0 then Scanned("", true, Max(i, |s| - (|g.closer| - 1))) else Scan(g, false, s, end + |g.closer|)
  {
    CloserNonEmpty(g);
    hide At, Separated, MarkerAt, Pending, Index, NextPlain, Scan;
    ScanNext(g, true, s, i);
    var n := Next(g, true, s, i);
    if n.Go? { PrependNothing(Scan(g, false, s, n.to)); }
  }

  lemma CloserNonEmpty(g: Grammar)
    requires Separated(g)
    ensures |g.closer| > 0
  {
  }

  lemma StepVisible(g: Grammar, s: string, i: nat)
    requires Separated(g) && i <= |s| && FirstMarker(g, s, i).Found?
    ensures var q := FirstMarker(g, s, i);
            FirstMarker(g, s, q.pos) == q && Scan(g, false, s, i) == Prepend(s[i..q.pos], Scan(g, false, s, q.pos))
  {
    hide At, Separated, MarkerAt, Pending, FirstMarker, Scan, Next;
    FirstMarkerLater(g, s, i, FirstMarker(g, s, i).pos);
    ScanVisible(g, s, i, FirstMarker(g, s, i).pos);
  }

  lemma NextToken(g: Grammar, s: string, i: nat, j: nat)
    requires Separated(g) && i < |s| && FirstMarker(g, s, i) == Found(i, j)
    ensures Next(g, false, s, i) == Consume(g, s, i, j)
    ensures |g.bracket| > 0 && |g.markers[j].text| > 0
  {
    hide At, MarkerAt, Pending, FirstMarker, Index, LongestPending, NextThink, Consume;
  }

  lemma StepToken(g: Grammar, s: string, i: nat, j: nat)
    requires Separated(g) && i < |s| && FirstMarker(g, s, i) == Found(i, j)
    ensures |g.markers[j].text| > 0 && i + |g.markers[j].text| <= |s| && |g.bracket| > 0
    ensures var n := Consume(g, s, i, j);
            Scan(g, false, s, i) == if n.Stop? then n.last else Scan(g, n.inThink, s, n.to)
  {
    hide At, Separated, MarkerAt, Pending, FirstMarker, Index, Scan, Next;
    NextToken(g, s, i, j);
    ScanNext(g, false, s, i);
    var n := Consume(g, s, i, j);
    if n.Go? { PrependNothing(Scan(g, n.inThink, s, n.to)); }
  }

  lemma PrependEnd(p: string, t: bool, c: nat)
    ensures Prepend(p, Scanned("", t, c)) == Scanned(p, t, c)
  {
    assert p + "" == p;
  }

  /** The rest of the input when it holds no complete marker: what is written, and what is kept. */
  method HoldBack(g: Grammar, s: string, i: nat) returns (visible: string, held: string)
    requires i <= |s|
    ensures var c := |s| - LongestPending(g, s, |s| - i); visible == s[i..c] && held == s[c..]
  {
    hide LongestPending, Pending;
    var keep := LongestPrefixSuffix(g, s, i);
    if keep > 0 {
      return s[i..|s| - keep], s[|s| - keep..];
    } else {
      return s[i..], "";
    }
  }

  /** The switch on the marker found at position i: either the text from i on is kept, or scanning goes on at `to`. */
  method ConsumeToken(g: Grammar, s: string, i: nat, j: nat) returns (keep: bool, think: bool, to: nat)
    requires Separated(g) && i < |s| && FirstMarker(g, s, i) == Found(i, j)
    ensures keep ==> Scan(g, false, s, i) == Scanned("", false, i)
    ensures !keep ==> i < to <= |s| && Scan(g, false, s, i) == Scan(g, think, s, to)
  {
    hide At, Separated, MarkerAt, Pending, FirstMarker, Index, Scan, Next;
    StepToken(g, s, i, j);
    var m := g.markers[j];
    match m.kind
    case Think => return false, true, i + |m.text|;
    case Tag =>
      var end := Index(s, g.bracket, i + |m.text|);
      if end < 0 { return true, false, i; }
      return false, false, end + |g.bracket|;
    case Boundary => return false, false, i + |m.text|;
  }

  lemma FeedNonEmpty(g: Grammar, st: State, delta: string)
    requires Separated(g) && delta != ""
    ensures var r := Scan(g, st.inThink, st.carry + delta, 0);
            Feed(g, st, delta) == Step(r.out, State(r.inThink, (st.carry + delta)[r.cut..]))
  {
  }

  class StreamSanitizer {
    var inThink: bool
    var carry: string

    constructor ()
      ensures State(inThink, carry) == INIT
    {
      inThink, carry := false, "";
    }

    method Push(delta: string) returns (out: string)
      modifies this
      ensures Separated(GRAMMAR)
      ensures Step(out, State(inThink, carry)) == Feed(GRAMMAR, old(State(inThink, carry)), delta)
    {
      GrammarSeparated();
      out := PushOver(GRAMMAR, delta);
    }

    method PushOver(g: Grammar, delta: string) returns (out: string)
      requires Separated(g)
      modifies this
      ensures Step(out, State(inThink, carry)) == Feed(g, old(State(inThink, carry)), delta)
    {
      if delta == "" { return ""; }
      FeedNonEmpty(g, State(inThink, carry), delta);
      var input := carry + delta;
      var cut;
      out, inThink, cut := Loop(g, inThink, input);
      carry := input[cut..];
    }
  }

  /** The loop of Push over the whole input. */
  method Loop(g: Grammar, inThink: bool, input: string) returns (out: string, mode: bool, cut: nat)
    requires Separated(g)
    ensures Scanned(out, mode, cut) == Scan(g, inThink, input, 0)
  {
    hide At, Separated, MarkerAt, Pending, Scan, Next, Index, FirstMarker, LongestPending, Prepend, Max;
    mode, out := inThink, "";
    var i := 0;
    ghost var goal := Scan(g, inThink, input, 0);
    PrependNothing(goal);
    while i < |input|
      invariant i <= |input|
      invariant goal == Prepend(out, Scan(g, mode, input, i))
      decreases |input| - i
    {
      if mode {
        StepThink(g, input, i);
        var end := Index(input, g.closer, i);
        if end < 0 {
          var keep := |g.closer| - 1;
          if |input| - i < keep { keep := |input| - i; }
          MaxDef(i, |input| - (|g.closer| - 1));
          PrependEnd(out, true, |input| - keep);
          return out, true, |input| - keep;
        }
        i := end + |g.closer|;
        mode := false;
        continue;
      }
      var idx, j := FindFirstMarker(g, input, i);
      if idx < 0 {
        QuietEnd(g, input, i);
        var visible, held := HoldBack(g, input, i);
        PrependDef(out, Scan(g, false, input, i));
        return out + visible, false, |input| - |held|;
      }
      StepVisible(g, input, i);
      PrependPrepend(out, input[i..idx], Scan(g, false, input, idx));
      out := out + input[i..idx];
      i := idx;
      var keep, think, to := ConsumeToken(g, input, i, j);
      if keep {
        PrependEnd(out, false, i);
        return out, false, i;
      }
      mode, i := think, to;
    }
    NothingAtEnd(g, input, mode);
    PrependEnd(out, mode, i);
    cut := i;
  }

  lemma MaxDef(a: int, b: int)
    ensures Max(a, b) == if a > b then a else b
  {
  }
}
