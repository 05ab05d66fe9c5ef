/** Cutting a reply into message segments (agentx/postprocess/split.go). A `char` stands for one rune. */
module Split {
  import opened Text

  const MESSAGE_BOUNDARY := "<<<MSG>>>"
  const DEFAULT_MAX_RUNES := 180

  predicate IsTerminator(c: char) {
    c == '。' || c == '！' || c == '？' || c == '.' || c == '!' || c == '?' || c == '\n'
  }

  /** Where a long text may be cut. */
  predicate IsPause(c: char) {
    || IsTerminator(c)
    || c == '，' || c == '、' || c == '；' || c == ';' || c == '：' || c == ':' || c == '～' || c == '…'
  }

  /** compactSegments. */
  function Compact(parts: seq<string>): seq<string> {
    if parts == [] then []
    else (if Blank(parts[0]) then [] else [Trim(parts[0])]) + Compact(parts[1..])
  }

  // ---------------------------------------------------------------- sentences

  function NextTerminator(s: string, k: nat): (r: nat)
    requires k <= |s|
    ensures k <= r <= |s| && (r < |s| ==> IsTerminator(s[r])) && forall i :: k <= i < r ==> !IsTerminator(s[i])
    decreases |s| - k
  {
    if k == |s| || IsTerminator(s[k]) then k else NextTerminator(s, k + 1)
  }

  /** The text cut after every terminator. */
  function Chunks(s: string): seq<string>
    decreases |s|
  {
    if s == "" then []
    else
      var k := NextTerminator(s, 0);
      if k == |s| then [s] else [s[..k + 1]] + Chunks(s[k + 1..])
  }

  /** splitBySentence. */
  function Sentences(s: string): seq<string> { Compact(Chunks(s)) }

  /** A terminator can only be the last rune. */
  predicate SingleSentence(s: string) { forall i :: 0 <= i < |s| - 1 ==> !IsTerminator(s[i]) }

  // ---------------------------------------------------------------- long texts

  /** The last cut position in (max/2, i] that follows a pause, or max. */
  function CutAt(s: string, max: nat, i: nat): (cut: nat)
    requires 0 < max < |s| && max / 2 <= i <= max
    ensures max / 2 < cut <= max
  {
    if i <= max / 2 then max else if IsPause(s[i - 1]) then i else CutAt(s, max, i - 1)
  }

  /** splitLongByMaxRunes before trimming. */
  function LongCuts(s: string, max: nat): seq<string>
    requires 0 < max
    decreases |s|
  {
    if |s| <= max then [s]
    else
      var cut := CutAt(s, max, max);
      [s[..cut]] + LongCuts(s[cut..], max)
  }

  function SplitEach(sentences: seq<string>, max: nat): seq<string>
    requires 0 < max
  {
    if sentences == [] then [] else LongCuts(sentences[0], max) + SplitEach(sentences[1..], max)
  }

  // ---------------------------------------------------------------- the explicit protocol

  /** strings.Index of the boundary at or after k, or the length. */
  function NextBoundary(s: string, k: nat): (r: nat)
    requires k <= |s|
    ensures k <= r <= |s| && (r < |s| ==> At(MESSAGE_BOUNDARY, s, r)) && forall i :: k <= i < r ==>
            !At(MESSAGE_BOUNDARY, s, i)
    decreases |s| - k
  {
    if k == |s| || At(MESSAGE_BOUNDARY, s, k) then k else NextBoundary(s, k + 1)
  }

  predicate HasBoundary(s: string) { NextBoundary(s, 0) < |s| }

  /** strings.Split on the boundary. */
  function Parts(s: string): seq<string>
    decreases |s|
  {
    var k := NextBoundary(s, 0);
    if k == |s| then [s] else [s[..k]] + Parts(s[k + |MESSAGE_BOUNDARY|..])
  }

  // ---------------------------------------------------------------- SplitSegments

  function Limit(maxRunes: int): (m: nat)
    ensures m > 0
  {
    if maxRunes <= 0 then DEFAULT_MAX_RUNES else maxRunes
  }

  function SplitPlain(t: string, max: nat): seq<string>
    requires 0 < max
  {
    if |Sentences(t)| > 1 then Compact(SplitEach(Sentences(t), max))
    else if |t| <= max then [t]
    else Compact(LongCuts(t, max))
  }

  function SplitSegments(text: string, maxRunes: int): seq<string> {
    var t := Trim(text);
    if t == "" then []
    else if HasBoundary(t) && Compact(Parts(t)) != [] then Compact(Parts(t))
    else SplitPlain(t, Limit(maxRunes))
  }

  // ---------------------------------------------------------------- nothing visible is lost

  function NonSpace(s: string): string {
    if s == "" then "" else (if IsSpace(s[0]) then "" else [s[0]]) + NonSpace(s[1..])
  }

  lemma {:induction false} NonSpaceConcat(a: string, b: string)
    ensures NonSpace(a + b) == NonSpace(a) + NonSpace(b)
  {
    if a == "" {
      assert a + b == b;
    } else {
      assert (a + b)[1..] == a[1..] + b;
      NonSpaceConcat(a[1..], b);
    }
  }

  lemma {:induction false} NonSpaceTrimLeft(s: string)
    ensures NonSpace(TrimLeft(s)) == NonSpace(s)
  {
    if s != "" && IsSpace(s[0]) { NonSpaceTrimLeft(s[1..]); }
  }

  lemma {:induction false} NonSpaceTrimRight(s: string)
    ensures NonSpace(TrimRight(s)) == NonSpace(s)
  {
    if s != "" && IsSpace(s[|s| - 1]) {
      var n := |s| - 1;
      NonSpaceTrimRight(s[..n]);
      NonSpaceConcat(s[..n], [s[n]]);
      assert s == s[..n] + [s[n]];
      assert NonSpace([s[n]]) == "";
    }
  }

  lemma NonSpaceTrim(s: string)
    ensures NonSpace(Trim(s)) == NonSpace(s)
  {
    NonSpaceTrimLeft(s);
    NonSpaceTrimRight(TrimLeft(s));
  }

  lemma {:induction false} NonSpaceCompact(parts: seq<string>)
    ensures NonSpace(Concat(Compact(parts))) == NonSpace(Concat(parts))
  {
    if parts != [] {
      NonSpaceCompact(parts[1..]);
      NonSpaceTrim(parts[0]);
      NonSpaceConcat(parts[0], Concat(parts[1..]));
      NonSpaceConcat(Trim(parts[0]), Concat(Compact(parts[1..])));
      hide Trim, NonSpace;
      if Blank(parts[0]) {
        NonSpaceEmpty();
        assert "" + NonSpace(Concat(parts[1..])) == NonSpace(Concat(parts[1..]));
        assert [] + Compact(parts[1..]) == Compact(parts[1..]);
      } else {
        assert ([Trim(parts[0])] + Compact(parts[1..]))[1..] == Compact(parts[1..]);
      }
    }
  }

  lemma NonSpaceEmpty()
    ensures NonSpace("") == ""
  {
  }

  lemma {:induction false} ChunksConcat(s: string)
    ensures Concat(Chunks(s)) == s
    decreases |s|
  {
    if s != "" {
      var k := NextTerminator(s, 0);
      if k < |s| {
        ChunksConcat(s[k + 1..]);
        assert s == s[..k + 1] + s[k + 1..];
      }
    }
  }

  lemma {:induction false} LongCutsConcat(s: string, max: nat)
    requires 0 < max
    ensures Concat(LongCuts(s, max)) == s
    decreases |s|
  {
    if |s| > max {
      var cut := CutAt(s, max, max);
      LongCutsConcat(s[cut..], max);
      assert s == s[..cut] + s[cut..];
    }
  }

  lemma {:induction false} ConcatAppend(a: seq<string>, b: seq<string>)
    ensures Concat(a + b) == Concat(a) + Concat(b)
  {
    if a == [] {
      assert a + b == b;
    } else {
      assert (a + b)[1..] == a[1..] + b;
      ConcatAppend(a[1..], b);
    }
  }

  lemma {:induction false} SplitEachConcat(sentences: seq<string>, max: nat)
    requires 0 < max
    ensures Concat(SplitEach(sentences, max)) == Concat(sentences)
  {
    if sentences != [] {
      SplitEachConcat(sentences[1..], max);
      LongCutsConcat(sentences[0], max);
      ConcatAppend(LongCuts(sentences[0], max), SplitEach(sentences[1..], max));
    }
  }

  // ---------------------------------------------------------------- parts of a text

  /** p is a contiguous part of s. */
  ghost predicate PartOf(p: string, s: string) { exists i, j :: 0 <= i <= j <= |s| && s[i..j] == p }

  lemma SliceOfSlice(c: string, k: nat, l: nat, i: nat, j: nat)
    requires k <= l <= |c| && i <= j <= l - k
    ensures c[k..l][i..j] == c[k + i..k + j]
  {
    var a, b := c[k..l][i..j], c[k + i..k + j];
    forall x | 0 <= x < j - i ensures a[x] == b[x] { assert c[k..l][i + x] == c[k + (i + x)]; }
  }

  lemma PartTrans(a: string, b: string, c: string)
    requires PartOf(a, b) && PartOf(b, c)
    ensures PartOf(a, c)
  {
    var i, j :| 0 <= i <= j <= |b| && b[i..j] == a;
    var k, l :| 0 <= k <= l <= |c| && c[k..l] == b;
    SliceOfSlice(c, k, l, i, j);
  }

  lemma WholePart(s: string)
    ensures PartOf(s, s)
  {
    assert s[0..|s|] == s;
  }

  lemma PrefixPart(s: string, k: nat)
    requires k <= |s|
    ensures PartOf(s[..k], s) && PartOf(s[k..], s)
  {
    assert s[0..k] == s[..k];
    assert s[k..|s|] == s[k..];
  }

  lemma TrimIsPart(s: string)
    ensures PartOf(Trim(s), s)
  {
    var i, j := TrimPart(s);
    hide Trim;
  }

  lemma SingleSentencePart(p: string, s: string)
    requires PartOf(p, s) && SingleSentence(s)
    ensures SingleSentence(p)
  {
    var i, j :| 0 <= i <= j <= |s| && s[i..j] == p;
    forall k | 0 <= k < |p| - 1 ensures !IsTerminator(p[k]) { assert p[k] == s[i + k]; }
  }

  lemma NoBoundaryPart(p: string, s: string)
    requires PartOf(p, s) && !HasBoundary(s)
    ensures !HasBoundary(p)
  {
    var i, j :| 0 <= i <= j <= |s| && s[i..j] == p;
    var k := NextBoundary(p, 0);
    if k < |p| {
      AtPart(MESSAGE_BOUNDARY, s, i, j, k);
    }
  }

  lemma AtPart(token: string, s: string, i: nat, j: nat, k: nat)
    requires i <= j <= |s| && At(token, s[i..j], k)
    ensures At(token, s, i + k)
  {
    SliceOfSlice(s, i, j, k, k + |token|);
  }

  /** A segment that can be sent: not empty, trimmed, a single sentence, free of the boundary and within the limit. */
  ghost predicate Sendable(p: string, max: nat) {
    p != "" && Trim(p) == p && SingleSentence(p) && !HasBoundary(p) && |p| <= max
  }

  const ENDS := ['。', '！', '？', '.', '!', '?', '\n']

  /** The same in plain terms: the characters that end a sentence, the token and the default limit spelled out. */
  ghost predicate Message(p: string, maxRunes: int) {
    && p != "" && Trim(p) == p && |p| <= (if maxRunes <= 0 then 180 else maxRunes)
    && (forall i :: 0 <= i < |p| - 1 ==> p[i] !in ENDS)
    && (forall i :: !At("<<<MSG>>>", p, i))
  }

  lemma SendableMeans(p: string, maxRunes: int)
    ensures Sendable(p, Limit(maxRunes)) <==> Message(p, maxRunes)
  {
    hide Trim;
    NoTokenMeans(p);
    hide HasBoundary;
    assert forall c :: IsTerminator(c) <==> c in ENDS;
    hide IsTerminator;
  }

  lemma NoTokenMeans(p: string)
    ensures HasBoundary(p) <==> exists i :: At("<<<MSG>>>", p, i)
  {
    if HasBoundary(p) { assert At("<<<MSG>>>", p, NextBoundary(p, 0)); }
    if i :| At("<<<MSG>>>", p, i) { assert 0 <= i < |p|; }
  }

  ghost predicate AllFrom(parts: seq<string>, s: string, max: nat) {
    forall i :: 0 <= i < |parts| ==> PartOf(parts[i], s) && SingleSentence(parts[i]) && |parts[i]| <= max
  }

  lemma AllFromWider(parts: seq<string>, rest: string, s: string, max: nat)
    requires AllFrom(parts, rest, |rest|) && PartOf(rest, s) && |rest| <= max
    ensures AllFrom(parts, s, max)
  {
    hide SingleSentence;
    forall i | 0 <= i < |parts| ensures PartOf(parts[i], s) { PartTrans(parts[i], rest, s); }
  }

  lemma AllFromCons(head: string, parts: seq<string>, s: string, max: nat)
    requires AllFrom(parts, s, max) && PartOf(head, s) && SingleSentence(head) && |head| <= max
    ensures AllFrom([head] + parts, s, max)
  {
    hide SingleSentence, PartOf;
  }

  lemma {:induction false} ChunksAreSentences(s: string)
    ensures AllFrom(Chunks(s), s, |s|)
    decreases |s|
  {
    if s != "" {
      var k := NextTerminator(s, 0);
      WholePart(s);
      hide PartOf, AllFrom;
      if k < |s| {
        ChunksAreSentences(s[k + 1..]);
        PrefixPart(s, k + 1);
        AllFromWider(Chunks(s[k + 1..]), s[k + 1..], s, |s|);
        AllFromCons(s[..k + 1], Chunks(s[k + 1..]), s, |s|);
      } else {
        AllFromOne(s);
      }
    } else {
      AllFromNone(s);
    }
  }

  lemma AllFromOne(s: string)
    requires PartOf(s, s) && SingleSentence(s)
    ensures AllFrom([s], s, |s|)
  {
    hide PartOf, SingleSentence;
  }

  lemma AllFromNone(s: string)
    ensures AllFrom([], s, |s|)
  {
  }

  lemma {:induction false} LongCutsFit(s: string, max: nat)
    requires 0 < max && SingleSentence(s)
    ensures AllFrom(LongCuts(s, max), s, max)
    decreases |s|
  {
    if |s| <= max {
      assert s[0..|s|] == s;
    } else {
      var cut := CutAt(s, max, max);
      var rest := s[cut..];
      PrefixPart(s, cut);
      SingleSentencePart(s[..cut], s);
      SingleSentencePart(rest, s);
      LongCutsFit(rest, max);
      forall i | 0 <= i < |LongCuts(rest, max)| ensures PartOf(LongCuts(rest, max)[i], s) {
        PartTrans(LongCuts(rest, max)[i], rest, s);
      }
    }
  }

  lemma {:induction false} SplitEachFits(sentences: seq<string>, s: string, max: nat)
    requires 0 < max && AllFrom(sentences, s, |s|)
    ensures AllFrom(SplitEach(sentences, max), s, max)
  {
    if sentences != [] {
      LongCutsFit(sentences[0], max);
      SplitEachFits(sentences[1..], s, max);
      var cuts := LongCuts(sentences[0], max);
      forall i | 0 <= i < |cuts| ensures PartOf(cuts[i], s) { PartTrans(cuts[i], sentences[0], s); }
    }
  }

  /** A trimmed, non-empty part of s that is one sentence within the limit. */
  ghost predicate Piece(p: string, s: string, max: nat) {
    p != "" && Trim(p) == p && PartOf(p, s) && SingleSentence(p) && |p| <= max
  }

  lemma TrimmedPiece(p: string, s: string, max: nat)
    requires PartOf(p, s) && SingleSentence(p) && |p| <= max && !Blank(p)
    ensures Piece(Trim(p), s, max)
  {
    TrimIsPart(p);
    TrimTwice(p);
    hide Trim;
    SingleSentencePart(Trim(p), p);
    PartTrans(Trim(p), p, s);
    PartIsShorter(Trim(p), p);
  }

  lemma {:induction false} CompactFits(parts: seq<string>, s: string, max: nat)
    requires AllFrom(parts, s, max)
    ensures forall i :: 0 <= i < |Compact(parts)| ==> Piece(Compact(parts)[i], s, max)
  {
    hide Piece, PartOf, SingleSentence, Trim;
    if parts != [] {
      CompactFits(parts[1..], s, max);
      if !Blank(parts[0]) { TrimmedPiece(parts[0], s, max); }
    }
  }

  lemma PartIsShorter(p: string, s: string)
    requires PartOf(p, s)
    ensures |p| <= |s|
  {
  }

  lemma SentencesDef(t: string)
    ensures Sentences(t) == Compact(Chunks(t))
  {
  }

  lemma CompactHead(head: string, rest: seq<string>)
    requires !Blank(head)
    ensures |Compact([head] + rest)| == 1 + |Compact(rest)|
  {
    assert ([head] + rest)[1..] == rest;
  }

  lemma ChunksCons(t: string, k: nat)
    requires k < |t| && NextTerminator(t, 0) == k
    ensures Chunks(t) == [t[..k + 1]] + Chunks(t[k + 1..])
  {
  }

  lemma TwoSentences(t: string, k: nat)
    requires k < |t| - 1 && NextTerminator(t, 0) == k && !IsSpace(t[0]) && !IsSpace(t[|t| - 1])
    ensures |Sentences(t)| > 1
  {
    hide *;
    ChunksCons(t, k);
    HeadVisible(t[..k + 1]);
    LastChunkVisible(t[k + 1..]);
    CompactHead(t[..k + 1], Chunks(t[k + 1..]));
    SentencesDef(t);
  }

  lemma OneChunk(t: string)
    requires NextTerminator(t, 0) >= |t| - 1
    ensures SingleSentence(t)
  {
  }

  /** A trimmed text with at most one visible chunk is one chunk. */
  lemma OneSentenceText(t: string)
    requires t != "" && Trim(t) == t && |Sentences(t)| <= 1
    ensures SingleSentence(t)
  {
    hide *;
    TrimmedEnds(t);
    if NextTerminator(t, 0) < |t| - 1 { TwoSentences(t, NextTerminator(t, 0)); } else { OneChunk(t); }
  }

  lemma {:induction false} TrimRightEnd(s: string)
    ensures |TrimRight(s)| <= |s| && (s != "" && IsSpace(s[|s| - 1]) ==> |TrimRight(s)| < |s|)
  {
    if s != "" && IsSpace(s[|s| - 1]) { TrimRightEnd(s[..|s| - 1]); }
  }

  lemma TrimmedEnds(t: string)
    requires t != "" && Trim(t) == t
    ensures !IsSpace(t[0]) && !IsSpace(t[|t| - 1])
  {
    TrimLeftShrinks(t);
    TrimRightEnd(TrimLeft(t));
  }

  lemma HeadVisible(s: string)
    requires s != "" && !IsSpace(s[0])
    ensures !Blank(s)
  {
    HeadSurvives(s);
  }

  lemma TailVisible(s: string)
    requires s != "" && !IsSpace(s[|s| - 1])
    ensures !Blank(s)
  {
    NonSpaceTrim(s);
    NonSpaceConcat(s[..|s| - 1], [s[|s| - 1]]);
    assert s == s[..|s| - 1] + [s[|s| - 1]];
    assert NonSpace([s[|s| - 1]]) == [s[|s| - 1]];
  }

  lemma {:induction false} LastChunkVisible(s: string)
    requires s != "" && !IsSpace(s[|s| - 1])
    ensures |Compact(Chunks(s))| >= 1
    decreases |s|
  {
    var k := NextTerminator(s, 0);
    if k >= |s| - 1 {
      var first := if k == |s| then s else s[..k + 1];
      assert first == s;
      TailVisible(s);
      assert Chunks(s)[0] == s;
    } else {
      var rest := s[k + 1..];
      assert Chunks(s) == [s[..k + 1]] + Chunks(rest) && Chunks(s)[1..] == Chunks(rest);
      LastChunkVisible(rest);
    }
  }

  lemma PiecesAreFrom(parts: seq<string>, s: string, max: nat)
    requires forall i :: 0 <= i < |parts| ==> Piece(parts[i], s, max)
    ensures AllFrom(parts, s, max)
  {
    hide Trim, SingleSentence, PartOf;
  }

  lemma SegmentsArePieces(t: string, max: nat)
    requires 0 < max && t != "" && Trim(t) == t
    ensures forall i :: 0 <= i < |SplitPlain(t, max)| ==> Piece(SplitPlain(t, max)[i], t, max)
  {
    hide Trim, Piece, PartOf, SingleSentence, AllFrom, SplitEach, LongCuts, Compact, Chunks;
    if |Sentences(t)| > 1 {
      ChunksAreSentences(t);
      CompactFits(Chunks(t), t, |t|);
      PiecesAreFrom(Sentences(t), t, |t|);
      SplitEachFits(Sentences(t), t, max);
      CompactFits(SplitEach(Sentences(t), max), t, max);
    } else {
      OneSentenceText(t);
      if |t| <= max {
        WholeIsPiece(t, max);
      } else {
        LongCutsFit(t, max);
        CompactFits(LongCuts(t, max), t, max);
      }
    }
  }

  lemma WholeIsPiece(t: string, max: nat)
    requires t != "" && Trim(t) == t && SingleSentence(t) && |t| <= max
    ensures Piece(t, t, max)
  {
    assert t[0..|t|] == t;
  }

  /** The segments of a trimmed text without the boundary can be sent. */
  lemma PlainSegmentsSendable(t: string, max: nat)
    requires 0 < max && t != "" && Trim(t) == t && !HasBoundary(t)
    ensures forall i :: 0 <= i < |SplitPlain(t, max)| ==> Sendable(SplitPlain(t, max)[i], max)
  {
    var r := SplitPlain(t, max);
    SegmentsArePieces(t, max);
    hide Trim, SplitPlain, SingleSentence, HasBoundary;
    forall i | 0 <= i < |r| ensures !HasBoundary(r[i]) { NoBoundaryPart(r[i], t); }
  }

  /** Without the boundary in the text, every segment is non-empty, trimmed, within the limit and one sentence. */
  lemma SegmentsSendable(text: string, maxRunes: int)
    requires forall i :: !At("<<<MSG>>>", text, i)
    ensures forall i :: 0 <= i < |SplitSegments(text, maxRunes)| ==> Message(SplitSegments(text, maxRunes)[i], maxRunes)
  {
    NoTokenMeans(text);
    SegmentsAreSendable(text, maxRunes);
    hide Message, Sendable, SplitSegments;
    forall i | 0 <= i < |SplitSegments(text, maxRunes)| ensures Message(SplitSegments(text, maxRunes)[i], maxRunes) {
      SendableMeans(SplitSegments(text, maxRunes)[i], maxRunes);
    }
  }

  lemma SegmentsAreSendable(text: string, maxRunes: int)
    requires !HasBoundary(text)
    ensures forall i :: 0 <= i < |SplitSegments(text, maxRunes)| ==>
            Sendable(SplitSegments(text, maxRunes)[i], Limit(maxRunes))
  {
    hide Trim, SplitPlain, HasBoundary;
    TrimIsPart(text);
    TrimTwice(text);
    NoBoundaryPart(Trim(text), text);
    if Trim(text) != "" { PlainSegmentsSendable(Trim(text), Limit(maxRunes)); }
  }

  lemma ConcatOne(p: string)
    ensures Concat([p]) == p
  {
    assert [p][1..] == [] && p + "" == p;
  }

  lemma PlainConserves(t: string, max: nat)
    requires max > 0
    ensures NonSpace(Concat(SplitPlain(t, max))) == NonSpace(t)
  {
    ChunksConcat(t);
    NonSpaceCompact(Chunks(t));
    SentencesDef(t);
    SplitEachConcat(Sentences(t), max);
    NonSpaceCompact(SplitEach(Sentences(t), max));
    LongCutsConcat(t, max);
    NonSpaceCompact(LongCuts(t, max));
    ConcatOne(t);
    hide Concat, NonSpace, Sentences, Compact, Chunks, SplitEach, LongCuts;
  }

  /** Without the boundary in the text, the segments hold its visible runes, in order, and no others. */
  lemma SegmentsConserve(text: string, maxRunes: int)
    requires !HasBoundary(text)
    ensures NonSpace(Concat(SplitSegments(text, maxRunes))) == NonSpace(text)
  {
    var t := Trim(text);
    TrimIsPart(text);
    NoBoundaryPart(t, text);
    NonSpaceTrim(text);
    SegmentsAre(text, maxRunes);
    PlainConserves(t, Limit(maxRunes));
    hide Trim, NonSpace, HasBoundary, SplitSegments, SplitPlain;
  }

  /** A sendable segment is split no further. */
  lemma ResplitIsIdentity(p: string, maxRunes: int)
    requires Sendable(p, Limit(maxRunes))
    ensures SplitSegments(p, maxRunes) == [p]
  {
    var k := NextTerminator(p, 0);
    assert k >= |p| - 1;
    hide Trim, HasBoundary;
    assert Chunks("") == [];
    if k < |p| {
      assert p[..k + 1] == p && p[k + 1..] == "";
      assert [p] + [] == [p];
    }
    assert Chunks(p) == [p];
    assert [p][1..] == [];
    var none: seq<string> := [];
    assert Compact(none) == [];
    assert |Compact([p])| <= 1;
  }

  /** A message that can be sent is sent as it stands. */
  lemma MessageStays(p: string, maxRunes: int)
    requires Message(p, maxRunes)
    ensures SplitSegments(p, maxRunes) == [p]
  {
    SendableMeans(p, maxRunes);
    hide Message, Sendable;
    ResplitIsIdentity(p, maxRunes);
  }

  // ---------------------------------------------------------------- where the cuts are

  const PAUSES := ['。', '！', '？', '.', '!', '?', '\n', '，', '、', '；', ';', '：', ':', '～', '…']

  /** A long text is cut after the last pause in the second half of the window, and at its end if there is none. */
  lemma CutAtIs(s: string, max: nat)
    requires 0 < max < |s|
    ensures var cut := CutAt(s, max, max);
            && max / 2 < cut <= max
            && (forall j :: cut <= j < max ==> s[j] !in PAUSES)
            && (s[cut - 1] in PAUSES || (cut == max && forall j :: max / 2 <= j < max ==> s[j] !in PAUSES))
  {
    CutFrom(s, max, max);
  }

  lemma {:induction false} CutFrom(s: string, max: nat, i: nat)
    requires 0 < max < |s| && max / 2 <= i <= max && forall j :: i <= j < max ==> s[j] !in PAUSES
    ensures var cut := CutAt(s, max, i);
            && (forall j :: cut <= j < max ==> s[j] !in PAUSES)
            && (s[cut - 1] in PAUSES || (cut == max && forall j :: max / 2 <= j < max ==> s[j] !in PAUSES))
    decreases i
  {
    assert forall c :: IsPause(c) <==> c in PAUSES;
    if i > max / 2 && !IsPause(s[i - 1]) { CutFrom(s, max, i - 1); }
  }

  /** The pieces of a long text: together the text, each but the last cut as above from what is left. */
  lemma {:induction false} LongCutsAre(s: string, max: nat)
    requires 0 < max
    ensures Concat(LongCuts(s, max)) == s && LongCuts(s, max) != []
    ensures var cuts := LongCuts(s, max);
            forall k :: 0 <= k < |cuts| ==>
              var rest := Concat(cuts[k..]);
              if k == |cuts| - 1 then |rest| <= max else |rest| > max && |cuts[k]| == CutAt(rest, max, max)
    decreases |s|
  {
    LongCutsConcat(s, max);
    var cuts := LongCuts(s, max);
    assert cuts[0..] == cuts;
    if |s| > max {
      var cut := CutAt(s, max, max);
      LongCutsAre(s[cut..], max);
      var later := LongCuts(s[cut..], max);
      forall k | 0 <= k < |cuts|
        ensures var rest := Concat(cuts[k..]);
                if k == |cuts| - 1 then |rest| <= max else |rest| > max && |cuts[k]| == CutAt(rest, max, max)
      {
        if k > 0 { assert cuts[k..] == later[k - 1..] && cuts[k] == later[k - 1]; }
      }
    }
  }

  /** The chunk ends the first sentence of what it begins. */
  predicate FirstSentence(chunk: string, last: bool) {
    && chunk != "" && (forall i :: 0 <= i < |chunk| - 1 ==> chunk[i] !in ENDS)
    && (!last ==> chunk[|chunk| - 1] in ENDS)
  }

  /** The sentences of a text: together the text, each but perhaps the last ends with the first terminator in it. */
  lemma {:induction false} ChunksAre(s: string)
    ensures Concat(Chunks(s)) == s
    ensures forall k :: 0 <= k < |Chunks(s)| ==> FirstSentence(Chunks(s)[k], k == |Chunks(s)| - 1)
    decreases |s|
  {
    ChunksConcat(s);
    if s != "" {
      var k := NextTerminator(s, 0);
      FirstChunk(s, k);
      hide FirstSentence;
      if k < |s| {
        ChunksAre(s[k + 1..]);
        ChunksCons(s, k);
        if Chunks(s[k + 1..]) == [] { LastWhole(s[..k + 1]); }
      }
    }
  }

  lemma FirstChunk(s: string, k: nat)
    requires s != "" && k == NextTerminator(s, 0)
    ensures k == |s| ==> FirstSentence(s, true)
    ensures k < |s| ==> FirstSentence(s[..k + 1], false)
  {
    hide IsTerminator, NextTerminator;
    forall i | 0 <= i < k ensures s[i] !in ENDS { EndsAre(s[i]); }
    if k < |s| {
      EndsAre(s[k]);
      assert forall i :: 0 <= i < k ==> s[..k + 1][i] == s[i];
    }
  }

  lemma EndsAre(c: char)
    ensures IsTerminator(c) <==> c in ENDS
  {
  }

  lemma LastWhole(chunk: string)
    requires FirstSentence(chunk, false)
    ensures FirstSentence(chunk, true)
  {
  }

  /** What is done with them: a text of several visible sentences is cut into these, and those that are too long are cut
      further; a single sentence is cut only if it is too long. */
  lemma SegmentsAreCuts(text: string, maxRunes: int)
    requires forall i :: !At("<<<MSG>>>", text, i)
    ensures var t, max := Trim(text), if maxRunes <= 0 then 180 else maxRunes;
            SplitSegments(text, maxRunes) ==
              if t == "" then []
              else if |Compact(Chunks(t))| > 1 then Compact(SplitEach(Compact(Chunks(t)), max))
              else if |t| <= max then [t]
              else Compact(LongCuts(t, max))
  {
    var t := Trim(text);
    TrimIsPart(text);
    NoTokenMeans(text);
    NoBoundaryPart(t, text);
    hide Trim, Compact, Chunks, SplitEach, LongCuts, HasBoundary;
  }

  lemma ResplitSegments(text: string, maxRunes: int)
    requires !HasBoundary(text)
    ensures forall i :: 0 <= i < |SplitSegments(text, maxRunes)| ==>
              SplitSegments(SplitSegments(text, maxRunes)[i], maxRunes) == [SplitSegments(text, maxRunes)[i]]
  {
    var r := SplitSegments(text, maxRunes);
    SegmentsAreSendable(text, maxRunes);
    hide SplitSegments, Sendable, HasBoundary;
    forall i | 0 <= i < |r| ensures SplitSegments(r[i], maxRunes) == [r[i]] { ResplitIsIdentity(r[i], maxRunes); }
  }

  // ---------------------------------------------------------------- with the boundary

  lemma {:induction false} PartsFree(s: string)
    ensures forall i :: 0 <= i < |Parts(s)| ==> !HasBoundary(Parts(s)[i])
    decreases |s|
  {
    var k := NextBoundary(s, 0);
    if k < |s| {
      PartsFree(s[k + |MESSAGE_BOUNDARY|..]);
      var head := s[..k];
      forall i | 0 <= i < |head| ensures !At(MESSAGE_BOUNDARY, head, i) {
        if At(MESSAGE_BOUNDARY, head, i) {
          assert s[0..k] == head;
          AtPart(MESSAGE_BOUNDARY, s, 0, k, i);
        }
      }
    }
  }

  /** The visible text: the runes outside the boundary tokens. */
  function WithoutBoundary(s: string): string
    decreases |s|
  {
    if s == "" then ""
    else if At(MESSAGE_BOUNDARY, s, 0) then WithoutBoundary(s[|MESSAGE_BOUNDARY|..])
    else [s[0]] + WithoutBoundary(s[1..])
  }

  lemma AtTail(s: string, k: nat, i: nat)
    requires k <= |s|
    ensures At(MESSAGE_BOUNDARY, s[k..], i) <==> At(MESSAGE_BOUNDARY, s, k + i)
  {
    if k + i + |MESSAGE_BOUNDARY| <= |s| {
      assert s[k..][i..i + |MESSAGE_BOUNDARY|] == s[k + i..k + i + |MESSAGE_BOUNDARY|];
    }
  }

  lemma PrefixCons(s: string, k: nat, rest: string)
    requires 0 < k <= |s|
    ensures [s[0]] + (s[1..][..k - 1] + rest) == s[..k] + rest
  {
    assert s[..k] == [s[0]] + s[1..][..k - 1];
  }

  lemma {:induction false} WithoutBoundarySkips(s: string, k: nat)
    requires k <= |s| && forall i :: 0 <= i < k ==> !At(MESSAGE_BOUNDARY, s, i)
    ensures WithoutBoundary(s) == s[..k] + WithoutBoundary(s[k..])
  {
    hide At;
    if k == 0 {
      assert s[0..] == s && s[..0] == "";
    } else {
      forall i | 0 <= i < k - 1 ensures !At(MESSAGE_BOUNDARY, s[1..], i) { AtTail(s, 1, i); }
      WithoutBoundarySkips(s[1..], k - 1);
      assert WithoutBoundary(s) == [s[0]] + WithoutBoundary(s[1..]);
      hide WithoutBoundary;
      assert s[1..][k - 1..] == s[k..];
      PrefixCons(s, k, WithoutBoundary(s[k..]));
    }
  }

  lemma {:induction false} PartsConcat(s: string)
    ensures Concat(Parts(s)) == WithoutBoundary(s)
    decreases |s|
  {
    var k := NextBoundary(s, 0);
    WithoutBoundarySkips(s, k);
    if k == |s| {
      assert s[k..] == "" && s[..k] == s && [s][1..] == [];
      assert s + "" == s;
    } else {
      var rest := s[k + |MESSAGE_BOUNDARY|..];
      PartsConcat(rest);
      AtTail(s, k, 0);
      assert s[k..][|MESSAGE_BOUNDARY|..] == rest;
      assert ([s[..k]] + Parts(rest))[1..] == Parts(rest);
    }
  }

  lemma {:induction false} CompactFree(parts: seq<string>)
    requires forall i :: 0 <= i < |parts| ==> !HasBoundary(parts[i])
    ensures forall i :: 0 <= i < |Compact(parts)| ==> !HasBoundary(Compact(parts)[i])
  {
    hide HasBoundary, Trim;
    if parts != [] {
      CompactFree(parts[1..]);
      TrimIsPart(parts[0]);
      NoBoundaryPart(Trim(parts[0]), parts[0]);
    }
  }

  lemma PartsDef(s: string, k: nat)
    requires k == NextBoundary(s, 0)
    ensures if k == |s| then Parts(s) == [s]
            else k + |MESSAGE_BOUNDARY| <= |s| && Parts(s) == [s[..k]] + Parts(s[k + |MESSAGE_BOUNDARY|..])
  {
    hide At, NextBoundary;
  }

  lemma {:induction false} PartsAreParts(s: string)
    ensures forall p :: p in Parts(s) ==> PartOf(p, s)
    decreases |s|
  {
    hide *;
    var k := NextBoundary(s, 0);
    PartsDef(s, k);
    WholePart(s);
    if k < |s| {
      var m := k + |MESSAGE_BOUNDARY|;
      PartsAreParts(s[m..]);
      PrefixPart(s, k);
      PrefixPart(s, m);
      forall p | p in Parts(s[m..]) ensures PartOf(p, s) { PartTrans(p, s[m..], s); }
    }
  }

  lemma {:induction false} CompactTrimmed(parts: seq<string>, s: string)
    requires forall p :: p in parts ==> PartOf(p, s)
    ensures forall p :: p in Compact(parts) ==> p != "" && Trim(p) == p && PartOf(p, s)
  {
    hide Trim, PartOf;
    if parts != [] {
      CompactTrimmed(parts[1..], s);
      TrimTwice(parts[0]);
      TrimIsPart(parts[0]);
      PartTrans(Trim(parts[0]), parts[0], s);
    }
  }

  /** With the boundary and some visible part, every segment is non-empty, a trimmed part of the text and free of the
      boundary, and together they hold exactly the visible runes between the boundaries, in order. */
  lemma ExplicitSegments(text: string, maxRunes: int)
    requires HasBoundary(Trim(text)) && Compact(Parts(Trim(text))) != []
    ensures var t, r := Trim(text), SplitSegments(text, maxRunes);
            && (forall p :: p in r ==> p != "" && Trim(p) == p && PartOf(p, t) && !HasBoundary(p))
            && NonSpace(Concat(r)) == NonSpace(WithoutBoundary(t))
  {
    var t := Trim(text);
    assert SplitSegments(text, maxRunes) == Compact(Parts(t));
    hide SplitSegments, Trim, HasBoundary, PartOf;
    PartsFree(t);
    CompactFree(Parts(t));
    PartsAreParts(t);
    CompactTrimmed(Parts(t), t);
    NonSpaceCompact(Parts(t));
    PartsConcat(t);
  }

  /** The parts with the token between them. */
  function Tokened(parts: seq<string>): string {
    if parts == [] then "" else if |parts| == 1 then parts[0] else parts[0] + "<<<MSG>>>" + Tokened(parts[1..])
  }

  lemma {:induction false} PartsTokened(s: string)
    ensures Parts(s) != [] && Tokened(Parts(s)) == s
    decreases |s|
  {
    var k := NextBoundary(s, 0);
    hide NextBoundary;
    if k < |s| {
      var rest := s[k + |MESSAGE_BOUNDARY|..];
      PartsTokened(rest);
      var ps := [s[..k]] + Parts(rest);
      assert ps[1..] == Parts(rest);
      assert Tokened(ps) == s[..k] + "<<<MSG>>>" + rest;
      assert s[k..k + |MESSAGE_BOUNDARY|] == "<<<MSG>>>";
      assert s[..k] + "<<<MSG>>>" + rest == s;
    }
  }

  lemma {:induction false} CompactVisible(parts: seq<string>)
    ensures Compact(parts) != [] <==> exists p :: p in parts && Trim(p) != ""
  {
    hide Trim;
    if parts != [] {
      CompactVisible(parts[1..]);
      assert parts == [parts[0]] + parts[1..];
    }
  }

  /** A text with the token is cut at its tokens, and nowhere else: the segments are the stretches between them that
      have something to show, each without the spaces around. */
  lemma ExplicitAre(text: string, maxRunes: int) returns (parts: seq<string>)
    requires exists i :: At("<<<MSG>>>", Trim(text), i)
    ensures Tokened(parts) == Trim(text) && forall p, i :: p in parts ==> !At("<<<MSG>>>", p, i)
    ensures (exists p :: p in parts && Trim(p) != "") ==> SplitSegments(text, maxRunes) == Compact(parts)
  {
    var t := Trim(text);
    parts := Parts(t);
    NoTokenMeans(t);
    PartsTokened(t);
    PartsFree(t);
    CompactVisible(parts);
    forall p, i | p in parts ensures !At("<<<MSG>>>", p, i) {
      NoTokenMeans(p);
    }
    hide Trim, HasBoundary, Parts, Compact, SplitPlain;
  }

  // ---------------------------------------------------------------- when the boundary itself is sent

  /** No rune of the token is a space or a place to cut. */
  predicate Solid(token: string) {
    token != "" && forall i :: 0 <= i < |token| ==> !IsSpace(token[i]) && !IsPause(token[i])
  }

  lemma BoundaryIsSolid()
    ensures Solid(MESSAGE_BOUNDARY) && |MESSAGE_BOUNDARY| == 9
  {
  }

  lemma LeadAt(token: string, s: string)
    requires token <= s || At(token, s, 0)
    ensures token <= s && At(token, s, 0)
  {
    assert s[0..0 + |token|] == s[..|token|];
  }

  lemma {:induction false} LeadTrimRight(token: string, s: string)
    requires Solid(token) && token <= s
    ensures token <= TrimRight(s)
  {
    if IsSpace(s[|s| - 1]) {
      assert |s| > |token|;
      assert s[..|s| - 1][..|token|] == s[..|token|];
      LeadTrimRight(token, s[..|s| - 1]);
    }
  }

  lemma LeadTrim(token: string, s: string)
    requires Solid(token) && token <= s
    ensures token <= Trim(s) && !Blank(s)
  {
    assert s[0] == token[0];
    LeadTrimRight(token, s);
  }

  lemma LeadCompact(token: string, parts: seq<string>)
    requires Solid(token) && parts != [] && token <= parts[0]
    ensures Compact(parts) != [] && token <= Compact(parts)[0]
  {
    LeadTrim(token, parts[0]);
    hide Trim, Solid;
  }

  lemma {:induction false} LeadCutAt(token: string, s: string, max: nat, i: nat)
    requires Solid(token) && token <= s && |token| <= max < |s| && max / 2 <= i <= max
    ensures CutAt(s, max, i) >= |token|
  {
    if i > max / 2 {
      if IsPause(s[i - 1]) {
        assert i - 1 < |token| ==> s[i - 1] == token[i - 1];
      } else {
        LeadCutAt(token, s, max, i - 1);
      }
    }
  }

  lemma LeadLongCuts(token: string, s: string, max: nat)
    requires Solid(token) && token <= s && 0 < |token| <= max
    ensures LongCuts(s, max) != [] && token <= LongCuts(s, max)[0]
  {
    if |s| > max {
      LeadCutAt(token, s, max, max);
      hide Solid;
      assert s[..CutAt(s, max, max)][..|token|] == s[..|token|];
    }
  }

  lemma LeadChunks(token: string, s: string)
    requires Solid(token) && token <= s
    ensures Chunks(s) != [] && token <= Chunks(s)[0]
  {
    var k := NextTerminator(s, 0);
    forall i | 0 <= i < |token| ensures !IsTerminator(s[i]) { assert s[i] == token[i]; }
    if k < |s| { assert s[..k + 1][..|token|] == s[..|token|]; }
  }

  lemma LeadSplitEach(token: string, sentences: seq<string>, max: nat)
    requires Solid(token) && sentences != [] && token <= sentences[0] && 0 < |token| <= max
    ensures SplitEach(sentences, max) != [] && token <= SplitEach(sentences, max)[0]
  {
    LeadLongCuts(token, sentences[0], max);
    hide LongCuts, Solid;
  }

  lemma LeadPlain(token: string, t: string, max: nat)
    requires Solid(token) && token <= t && 0 < |token| <= max
    ensures SplitPlain(t, max) != [] && token <= SplitPlain(t, max)[0]
  {
    LeadChunks(token, t);
    LeadCompact(token, Chunks(t));
    SentencesDef(t);
    LeadSplitEach(token, Sentences(t), max);
    LeadCompact(token, SplitEach(Sentences(t), max));
    LeadLongCuts(token, t, max);
    LeadCompact(token, LongCuts(t, max));
    hide Solid, Chunks, Compact, SplitEach, LongCuts, Sentences;
  }

  /** A trimmed text with nothing visible before its first boundary starts with it. */
  lemma BlankPartsLead(t: string)
    requires t != "" && Trim(t) == t && HasBoundary(t) && Compact(Parts(t)) == []
    ensures MESSAGE_BOUNDARY <= t
  {
    var k := NextBoundary(t, 0);
    TrimmedEnds(t);
    hide Trim, At;
    assert Parts(t)[0] == t[..k];
    if k > 0 { HeadVisible(t[..k]); }
    LeadAt(MESSAGE_BOUNDARY, t);
  }

  lemma BoundaryNeedsRoom(p: string)
    requires HasBoundary(p)
    ensures |p| >= |MESSAGE_BOUNDARY|
  {
  }

  lemma LeadHasBoundary(p: string)
    requires MESSAGE_BOUNDARY <= p
    ensures HasBoundary(p)
  {
    LeadAt(MESSAGE_BOUNDARY, p);
    hide At;
  }

  lemma SegmentsAre(text: string, maxRunes: int)
    ensures var t := Trim(text);
            SplitSegments(text, maxRunes) ==
              if t == "" then []
              else if HasBoundary(t) && Compact(Parts(t)) != [] then Compact(Parts(t))
              else SplitPlain(t, Limit(maxRunes))
  {
  }

  /** The boundary token reaches the user exactly when nothing is visible between the boundaries of the text, so that
      the explicit split comes out empty, and the limit leaves room for the token. */
  lemma BoundaryIsSentIff(text: string, maxRunes: int)
    ensures var t := Trim(text);
            (exists p :: p in SplitSegments(text, maxRunes) && HasBoundary(p))
            <==> HasBoundary(t) && Compact(Parts(t)) == [] && (maxRunes <= 0 || maxRunes >= 9)
  {
    var t, max := Trim(text), Limit(maxRunes);
    var r := SplitSegments(text, maxRunes);
    SegmentsAre(text, maxRunes);
    TrimTwice(text);
    assert |MESSAGE_BOUNDARY| == 9 && (max >= 9 <==> maxRunes <= 0 || maxRunes >= 9);
    hide *;
    if t == "" {
      NoBoundaryInNothing();
    } else if !HasBoundary(t) {
      PlainSegmentsSendable(t, max);
      forall p | p in r ensures !HasBoundary(p) {
        var i :| 0 <= i < |r| && r[i] == p;
        SendableIs(p, max);
      }
    } else if Compact(Parts(t)) != [] {
      PartsFree(t);
      CompactFree(Parts(t));
    } else {
      SegmentsArePieces(t, max);
      forall p | p in r && HasBoundary(p) ensures max >= |MESSAGE_BOUNDARY| {
        var i :| 0 <= i < |r| && r[i] == p;
        PieceFits(p, t, max);
        BoundaryNeedsRoom(p);
      }
      if max >= |MESSAGE_BOUNDARY| {
        BoundaryIsSolid();
        BlankPartsLead(t);
        LeadPlain(MESSAGE_BOUNDARY, t, max);
        LeadHasBoundary(r[0]);
      }
    }
  }

  lemma NoBoundaryInNothing()
    ensures !HasBoundary("")
  {
  }

  lemma SendableIs(p: string, max: nat)
    requires Sendable(p, max)
    ensures !HasBoundary(p)
  {
  }

  lemma PieceFits(p: string, s: string, max: nat)
    requires Piece(p, s, max)
    ensures |p| <= max
  {
  }

  /** The shortest such reply: only the token. */
  lemma LoneBoundaryIsSent(maxRunes: int)
    requires maxRunes <= 0 || maxRunes >= 9
    ensures SplitSegments("<<<MSG>>>", maxRunes) == ["<<<MSG>>>"]
  {
    var t := MESSAGE_BOUNDARY;
    BoundaryIsSolid();
    LeadTrim(t, t);
    LeadAt(t, t);
    LeadChunks(t, t);
    var none: seq<string> := [];
    assert Parts("") == [""] && Parts(t) == [""] + [""] by { assert t[..0] == "" && t[0 + 9..] == ""; }
    assert Compact(none) == [] && Blank("");
    assert Compact(["", ""]) == [] by {
      assert [""][1..] == none && ["", ""][1..] == [""];
    }
    assert [""] + [""] == ["", ""];
    assert Chunks(t) == [t] by { assert forall i :: 0 <= i < 9 ==> !IsTerminator(t[i]); }
    assert |Sentences(t)| <= 1 by { assert [t][1..] == none; }
  }

  // ---------------------------------------------------------------- the imperative originals

  lemma CompactOne(p: string)
    ensures Compact([p]) == if Blank(p) then [] else [Trim(p)]
  {
    hide Trim;
    var none: seq<string> := [];
    assert [p][1..] == none && Compact(none) == [];
  }

  lemma CompactSnoc(parts: seq<string>, p: string)
    ensures Compact(parts + [p]) == Compact(parts) + if Blank(p) then [] else [Trim(p)]
  {
    hide *;
    CompactAppend(parts, [p]);
    CompactOne(p);
  }

  /** compactSegments. */
  method CompactSegments(segments: seq<string>) returns (out: seq<string>)
    ensures out == Compact(segments)
  {
    hide Blank, Trim;
    out := [];
    for k := 0 to |segments|
      invariant out == Compact(segments[..k])
    {
      CompactSnoc(segments[..k], segments[k]);
      assert segments[..k + 1] == segments[..k] + [segments[k]];
      if Blank(segments[k]) { continue; }
      out := out + [Trim(segments[k])];
    }
    assert segments[..|segments|] == segments;
  }

  lemma SliceSnoc(s: string, i: nat, k: nat)
    requires i <= k < |s|
    ensures s[i..k] + [s[k]] == s[i..k + 1]
  {
  }

  lemma AppendAssoc(a: seq<string>, b: seq<string>, c: seq<string>)
    ensures a + (b + c) == a + b + c
  {
  }

  /** The sentences of text[start:]. */
  function From(text: string, start: nat): seq<string>
    requires start <= |text|
  {
    Sentences(text[start..])
  }

  lemma FromStart(text: string)
    ensures From(text, 0) == Sentences(text)
  {
    assert text[0..] == text;
  }

  /** The buffer holds the sentence that began at start and is not over before k. */
  ghost predicate Open(text: string, start: nat, k: nat, buf: string) {
    start <= k <= |text| && buf == text[start..k] && forall i :: start <= i < k ==> !IsTerminator(text[i])
  }

  lemma OpenEmpty(text: string, start: nat)
    requires start <= |text|
    ensures Open(text, start, start, "")
  {
  }

  lemma OpenSnoc(text: string, start: nat, k: nat, buf: string)
    requires k < |text| && Open(text, start, k, buf) && !IsTerminator(text[k])
    ensures Open(text, start, k + 1, buf + [text[k]])
  {
  }

  function Emit(out: seq<string>, buf: string): seq<string> {
    if Trim(buf) == "" then out else out + [Trim(buf)]
  }

  /** What has been emitted and the sentences from `start` on make up the result. */
  ghost predicate Emitted(out: seq<string>, text: string, start: nat) {
    start <= |text| && out + From(text, start) == Sentences(text)
  }

  lemma EmitAssoc(out: seq<string>, buf: string, rest: seq<string>)
    ensures out + ((if Trim(buf) == "" then [] else [Trim(buf)]) + rest) == Emit(out, buf) + rest
  {
    hide Trim;
    AppendAssoc(out, if Trim(buf) == "" then [] else [Trim(buf)], rest);
    assert out + [] == out;
  }

  /** Closing the sentence text[start..k] moves its segment to the output. */
  lemma SentenceStep(out: seq<string>, text: string, start: nat, k: nat, buf: string)
    requires k < |text| && IsTerminator(text[k]) && Open(text, start, k, buf) && Emitted(out, text, start)
    ensures Emitted(Emit(out, buf + [text[k]]), text, k + 1)
  {
    ChunkStep(text, start, k);
    SliceSnoc(text, start, k);
    hide Trim, From, IsTerminator, Sentences, Emit;
    EmitAssoc(out, buf + [text[k]], From(text, k + 1));
  }

  lemma SentencesEnd(out: seq<string>, text: string, start: nat, buf: string)
    requires Open(text, start, |text|, buf) && Emitted(out, text, start)
    ensures Emit(out, buf) == Sentences(text)
  {
    LastChunk(text, start, buf);
    hide Trim, From, Sentences, Open;
    assert out + [] == out;
  }

  lemma NothingEmitted(text: string)
    ensures Emitted([], text, 0)
  {
    FromStart(text);
    hide From, Sentences;
    assert [] + From(text, 0) == From(text, 0);
  }

  lemma EmitIs(out: seq<string>, buf: string)
    ensures Emit(out, buf) == if Trim(buf) == "" then out else out + [Trim(buf)]
  {
  }

  /** splitBySentence: collects runes in a buffer and closes it at every terminator. */
  method SplitBySentence(text: string) returns (out: seq<string>)
    ensures out == Sentences(text)
  {
    hide *;
    NothingEmitted(text);
    OpenEmpty(text, 0);
    out := [];
    var buf := "";
    ghost var start: nat := 0;
    for k := 0 to |text|
      invariant start <= k && Open(text, start, k, buf) && Emitted(out, text, start)
    {
      if !IsTerminator(text[k]) { OpenSnoc(text, start, k, buf); } else { SentenceStep(out, text, start, k, buf); }
      buf := buf + [text[k]];
      if IsTerminator(text[k]) {
        EmitIs(out, buf);
        var segment := Trim(buf);
        if segment != "" { out := out + [segment]; }
        buf := "";
        start := k + 1;
        OpenEmpty(text, start);
      }
    }
    SentencesEnd(out, text, start, buf);
    EmitIs(out, buf);
    var tail := Trim(buf);
    if tail != "" { out := out + [tail]; }
  }

  lemma ChunkStep(text: string, start: nat, k: nat)
    requires start <= k < |text| && IsTerminator(text[k]) && forall i :: start <= i < k ==> !IsTerminator(text[i])
    ensures From(text, start) == (if Blank(text[start..k + 1]) then []
            else [Trim(text[start..k + 1])]) + From(text, k + 1)
  {
    hide Trim;
    var s := text[start..];
    assert s[k - start] == text[k];
    assert NextTerminator(s, 0) == k - start by {
      forall i | 0 <= i < k - start ensures !IsTerminator(s[i]) { assert s[i] == text[start + i]; }
    }
    assert s[..k - start + 1] == text[start..k + 1] && s[k - start + 1..] == text[k + 1..];
    assert Chunks(s)[1..] == Chunks(text[k + 1..]);
  }

  lemma LastChunk(text: string, start: nat, buf: string)
    requires Open(text, start, |text|, buf)
    ensures From(text, start) == if Trim(buf) == "" then [] else [Trim(buf)]
  {
    var s := text[start..];
    assert s == buf;
    forall i | 0 <= i < |s| ensures !IsTerminator(s[i]) { assert s[i] == text[start + i]; }
    var none: seq<string> := [];
    assert Compact(none) == [];
    if s == "" {
      assert Blank(s) by { assert TrimLeft("") == "" && TrimRight("") == ""; }
    } else {
      assert Chunks(s) == [s] && [s][1..] == none;
    }
  }

  function TrimEach(parts: seq<string>): seq<string> {
    if parts == [] then [] else [Trim(parts[0])] + TrimEach(parts[1..])
  }

  /** Trimming first makes no difference to compaction. */
  lemma {:induction false} CompactTrimEach(parts: seq<string>)
    ensures Compact(TrimEach(parts)) == Compact(parts)
  {
    hide Trim;
    if parts != [] {
      var p, rest := parts[0], parts[1..];
      CompactTrimEach(rest);
      TrimTwice(p);
      assert parts == [p] + rest;
      CompactAppend([p], rest);
      CompactAppend([Trim(p)], TrimEach(rest));
      CompactOne(p);
      CompactOne(Trim(p));
      hide Compact;
    }
  }

  /** What is kept of two lists of parts is what is kept of the first and then of the second. */
  lemma {:induction false} CompactAppend(a: seq<string>, b: seq<string>)
    ensures Compact(a + b) == Compact(a) + Compact(b)
  {
    hide Trim;
    if a == [] {
      assert a + b == b;
    } else {
      assert (a + b)[1..] == a[1..] + b;
      CompactAppend(a[1..], b);
    }
  }

  /** The inner loop of splitLongByMaxRunes on the rest of the runes. */
  method FindCut(runes: string, start: nat, maxRunes: nat) returns (cut: nat)
    requires 0 < maxRunes && start + maxRunes < |runes|
    ensures cut == start + CutAt(runes[start..], maxRunes, maxRunes)
  {
    var rest := runes[start..];
    cut := start + maxRunes;
    var i := cut;
    while i > start + maxRunes / 2
      invariant start + maxRunes / 2 <= i <= cut == start + maxRunes
      invariant CutAt(rest, maxRunes, maxRunes) == CutAt(rest, maxRunes, i - start)
    {
      assert rest[i - start - 1] == runes[i - 1];
      if IsPause(runes[i - 1]) {
        cut := i;
        return;
      }
      i := i - 1;
    }
  }

  lemma LongStep(runes: string, start: nat, maxRunes: nat)
    requires 0 < maxRunes && start <= |runes|
    ensures start + maxRunes >= |runes| ==> LongCuts(runes[start..], maxRunes) == [runes[start..]]
    ensures start + maxRunes < |runes| ==>
              var cut := start + CutAt(runes[start..], maxRunes, maxRunes);
              start < cut < |runes|
                  && LongCuts(runes[start..], maxRunes) == [runes[start..cut]] + LongCuts(runes[cut..], maxRunes)
  {
    hide CutAt;
    if start + maxRunes < |runes| {
      var rest := runes[start..];
      var n := CutAt(rest, maxRunes, maxRunes);
      assert LongCuts(rest, maxRunes) == [rest[..n]] + LongCuts(rest[n..], maxRunes);
      hide LongCuts;
      assert rest[..n] == runes[start..start + n];
      assert rest[n..] == runes[start + n..];
    }
  }

  /** splitLongByMaxRunes: `start` always advances, by more than half the limit. */
  method SplitLongByMaxRunes(runes: string, maxRunes: nat) returns (segments: seq<string>)
    requires maxRunes > 0
    ensures segments == if |runes| <= maxRunes then [runes] else TrimEach(LongCuts(runes, maxRunes))
  {
    if |runes| <= maxRunes { return [runes]; }
    segments := [];
    var start := 0;
    assert runes[0..] == runes;
    hide LongCuts, CutAt, Trim;
    while true
      invariant start < |runes|
      invariant segments + TrimEach(LongCuts(runes[start..], maxRunes)) == TrimEach(LongCuts(runes, maxRunes))
      decreases |runes| - start
    {
      LongStep(runes, start, maxRunes);
      if start + maxRunes >= |runes| {
        TrimEachOne(runes[start..]);
        return segments + [Trim(runes[start..])];
      }
      var cut := FindCut(runes, start, maxRunes);
      TrimEachCons(runes[start..cut], LongCuts(runes[cut..], maxRunes));
      segments := segments + [Trim(runes[start..cut])];
      start := cut;
    }
  }

  lemma TrimEachOne(p: string)
    ensures TrimEach([p]) == [Trim(p)]
  {
    TrimEachCons(p, []);
    assert [p] + [] == [p];
  }

  lemma TrimEachCons(p: string, rest: seq<string>)
    ensures TrimEach([p] + rest) == [Trim(p)] + TrimEach(rest)
  {
    assert ([p] + rest)[1..] == rest;
  }

  /** The sentence loop of SplitSegments. */
  method SplitSentences(sentences: seq<string>, max: nat) returns (segments: seq<string>)
    requires max > 0
    ensures Compact(segments) == Compact(SplitEach(sentences, max))
  {
    hide *;
    segments := [];
    assert SplitEach(sentences[..0], max) == [] by { EachNone(sentences, max); }
    for k := 0 to |sentences|
      invariant Compact(segments) == Compact(SplitEach(sentences[..k], max))
    {
      EachStep(sentences, k, max);
      var cuts;
      if |sentences[k]| <= max {
        cuts := [Trim(sentences[k])];
      } else {
        cuts := SplitLongByMaxRunes(sentences[k], max);
      }
      CutsCompact(sentences[k], cuts, max);
      CompactAppend(segments, cuts);
      CompactAppend(SplitEach(sentences[..k], max), LongCuts(sentences[k], max));
      segments := segments + cuts;
    }
    assert sentences[..|sentences|] == sentences;
  }

  lemma EachNone(sentences: seq<string>, max: nat)
    requires max > 0
    ensures SplitEach(sentences[..0], max) == []
  {
  }

  /** SplitSegments. */
  method SplitSegmentsLoop(text: string, maxRunes: int) returns (r: seq<string>)
    ensures r == SplitSegments(text, maxRunes)
  {
    var t := Trim(text);
    if t == "" { return []; }
    var max := Limit(maxRunes);
    hide Trim, LongCuts, Sentences, HasBoundary, Parts, SplitEach, Compact;
    if HasBoundary(t) {
      var explicit := CompactSegments(Parts(t));
      if |explicit| > 0 { return explicit; }
    }
    var sentences := SplitBySentence(t);
    if |sentences| > 1 {
      var segments := SplitSentences(sentences, max);
      r := CompactSegments(segments);
      return;
    }
    if |t| <= max { return [t]; }
    var cuts := SplitLongByMaxRunes(t, max);
    CutsCompact(t, cuts, max);
    r := CompactSegments(cuts);
  }

  lemma CutsCompact(s: string, cuts: seq<string>, max: nat)
    requires max > 0
    requires cuts == TrimEach(LongCuts(s, max)) || (|s| <= max && cuts == [Trim(s)])
    ensures Compact(cuts) == Compact(LongCuts(s, max))
  {
    CompactTrimEach(LongCuts(s, max));
    if |s| <= max { TrimEachOne(s); }
    hide Compact, TrimEach, Trim;
  }

  lemma {:induction false} EachStep(sentences: seq<string>, k: nat, max: nat)
    requires k < |sentences| && 0 < max
    ensures SplitEach(sentences[..k + 1], max) == SplitEach(sentences[..k], max) + LongCuts(sentences[k], max)
  {
    hide LongCuts;
    assert sentences[..k + 1] == sentences[..k] + [sentences[k]];
    SplitEachSnoc(sentences[..k], sentences[k], max);
  }

  lemma {:induction false} SplitEachSnoc(a: seq<string>, s: string, max: nat)
    requires 0 < max
    ensures SplitEach(a + [s], max) == SplitEach(a, max) + LongCuts(s, max)
  {
    hide LongCuts;
    var none: seq<string> := [];
    if a == [] {
      assert a + [s] == [s] && [s][1..] == none;
      assert SplitEach(none, max) == [];
    } else {
      assert (a + [s])[1..] == a[1..] + [s];
      SplitEachSnoc(a[1..], s, max);
    }
  }
}
